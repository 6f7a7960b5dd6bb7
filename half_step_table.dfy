// The half-step transition table: an event at both extremes of the gray
// cycle (00 and 11), so two events per detent.
module HalfStepTable {
  import opened Rotation

  const Start: bv8 := 0x0
  const CcwBegin: bv8 := 0x1
  const CwBegin: bv8 := 0x2
  const StartM: bv8 := 0x3
  const CwBeginM: bv8 := 0x4
  const CcwBeginM: bv8 := 0x5

  const Rows: nat := 6

  /** Rows are states, columns the pin samples 00, 01, 10, 11. */
  const Table: seq<seq<bv8>> := [
    // Start (rest on sample 11)
    [StartM,          CwBegin,   CcwBegin, Start],
    // CcwBegin
    [StartM | DirCcw, Start,     CcwBegin, Start],
    // CwBegin
    [StartM | DirCw,  CwBegin,   Start,    Start],
    // StartM (entered on sample 00)
    [StartM,          CcwBeginM, CwBeginM, Start],
    // CwBeginM
    [StartM,          StartM,    CwBeginM, Start | DirCw],
    // CcwBeginM
    [StartM,          CcwBeginM, StartM,   Start | DirCcw]
  ]
}
