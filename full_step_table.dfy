// The full-step transition table: one event per detent, emitted when the
// rest code 11 is reached again after a legal sequence of sub-states.
module FullStepTable {
  import opened Rotation

  const Start: bv8 := 0x0
  const CwFinal: bv8 := 0x1
  const CwBegin: bv8 := 0x2
  const CwNext: bv8 := 0x3
  const CcwBegin: bv8 := 0x4
  const CcwFinal: bv8 := 0x5
  const CcwNext: bv8 := 0x6

  const Rows: nat := 7

  /** Rows are states, columns the pin samples 00, 01, 10, 11. */
  const Table: seq<seq<bv8>> := [
    // Start
    [Start,    CwBegin,  CcwBegin, Start],
    // CwFinal
    [CwNext,   Start,    CwFinal,  Start | DirCw],
    // CwBegin
    [CwNext,   CwBegin,  Start,    Start],
    // CwNext
    [CwNext,   CwBegin,  CwFinal,  Start],
    // CcwBegin
    [CcwNext,  Start,    CcwBegin, Start],
    // CcwFinal
    [CcwNext,  CcwFinal, Start,    Start | DirCcw],
    // CcwNext
    [CcwNext,  CcwFinal, CcwBegin, Start]
  ]
}
