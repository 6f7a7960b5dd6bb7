// The quadrature decoder of _updateRotary: one table lookup per poll, the
// new state byte carrying the emitted direction in bits 4 and 5. Debouncing
// comes from the shape of the tables, not from timing.
module Decoder {
  import opened Rotation
  import Full = FullStepTable
  import Half = HalfStepTable

  /** The HALF_STEP compile-time switch, made a construction-time choice. */
  datatype Mode = FullStep | HalfStep

  /** A 2-bit pin sample: bit 1 the data pin, bit 0 the clock pin. */
  type Sample = b: bv8 | b < 4

  /** The sample `(digitalRead(data) << 1) | digitalRead(clock)`. */
  function PinSample(data: bool, clock: bool): (p: Sample)
    ensures (p & 2 != 0) == data && (p & 1 != 0) == clock
  {
    (if data then 2 else 0) | (if clock then 1 else 0)
  }

  function Table(mode: Mode): seq<seq<bv8>> {
    if mode == FullStep then Full.Table else Half.Table
  }

  function Rows(mode: Mode): nat {
    if mode == FullStep then Full.Rows else Half.Rows
  }

  /** The table row a state byte selects (`_state & 0xf`). */
  function Row(s: bv8): bv8 {
    s & RowMask
  }

  /** The direction bits of a state byte (`_state & 0x30`). */
  function Emit(s: bv8): bv8 {
    s & EmitMask
  }

  /** The initial state R_START, row 0 of both tables. */
  const Initial: bv8 := 0x0

  /** A state byte whose row exists in the table of `mode`. */
  predicate ValidState(mode: Mode, s: bv8) {
    Row(s) as int < Rows(mode)
  }

  /** What every table entry looks like: a valid row and at most one direction bit. */
  predicate WellFormedEntry(mode: Mode, e: bv8) {
    ValidState(mode, e) && IsRotation(Emit(e)) && e & 0xc0 == 0
  }

  lemma TableWellFormed(mode: Mode, row: nat, col: nat)
    requires row < Rows(mode) && col < 4
    ensures |Table(mode)| == Rows(mode) && |Table(mode)[row]| == 4
    ensures WellFormedEntry(mode, Table(mode)[row][col])
  {
  }

  lemma InitialIsValid(mode: Mode)
    ensures ValidState(mode, Initial) && Emit(Initial) == DirNone
  {
  }

  /** One poll: `_state = ttable[_state & 0xf][pinstate]`. Total over every
      valid state and sample; the new state is again valid and carries
      DIR_NONE, DIR_CW or DIR_CCW, never both direction bits. */
  function Next(mode: Mode, s: bv8, p: Sample): (r: bv8)
    requires ValidState(mode, s)
    ensures ValidState(mode, r)
    ensures IsRotation(Emit(r))
    ensures r & 0xc0 == 0
  {
    TableWellFormed(mode, Row(s) as int, p as int);
    Table(mode)[Row(s)][p]
  }

  /** The events of a run of polls, one per sample. */
  function Run(mode: Mode, s: bv8, samples: seq<Sample>): (events: seq<bv8>)
    requires ValidState(mode, s)
    ensures |events| == |samples|
    ensures forall i :: 0 <= i < |events| ==> IsRotation(events[i])
    decreases |samples|
  {
    if samples == [] then []
    else
      var n := Next(mode, s, samples[0]);
      [Emit(n)] + Run(mode, n, samples[1..])
  }

  /** The state after a run of polls. */
  function After(mode: Mode, s: bv8, samples: seq<Sample>): (t: bv8)
    requires ValidState(mode, s)
    ensures ValidState(mode, t)
    decreases |samples|
  {
    if samples == [] then s else After(mode, Next(mode, s, samples[0]), samples[1..])
  }

  lemma {:induction false} RunAppend(mode: Mode, s: bv8, a: seq<Sample>, b: seq<Sample>)
    requires ValidState(mode, s)
    ensures Run(mode, s, a + b) == Run(mode, s, a) + Run(mode, After(mode, s, a), b)
    ensures After(mode, s, a + b) == After(mode, After(mode, s, a), b)
    decreases |a|
  {
    if a != [] {
      var n := Next(mode, s, a[0]);
      assert (a + b)[0] == a[0];
      assert (a + b)[1..] == a[1..] + b;
      RunAppend(mode, n, a[1..], b);
    } else {
      assert a + b == b;
    }
  }

  // ---------------------------------------------------------------------
  // Where events come from

  /** Full-step: CW is emitted exactly on sample 11 from CwFinal, CCW exactly
      on sample 11 from CcwFinal, and both land back in Start. */
  lemma FullStepEmitsOnlyFromFinal(s: bv8, p: Sample)
    requires ValidState(FullStep, s)
    ensures Emit(Next(FullStep, s, p)) == DirCw <==> Row(s) == Full.CwFinal && p == 3
    ensures Emit(Next(FullStep, s, p)) == DirCcw <==> Row(s) == Full.CcwFinal && p == 3
    ensures Emit(Next(FullStep, s, p)) != DirNone ==> Row(Next(FullStep, s, p)) == Full.Start
  {
    TableWellFormed(FullStep, Row(s) as int, p as int);
  }

  /** Half-step: an event only on entering StartM with sample 00 from a
      Begin state, or on entering Start with sample 11 from a BeginM state. */
  lemma HalfStepEmitsOnlyAtExtremes(s: bv8, p: Sample)
    requires ValidState(HalfStep, s)
    ensures Emit(Next(HalfStep, s, p)) == DirCw <==>
              (Row(s) == Half.CwBegin && p == 0) || (Row(s) == Half.CwBeginM && p == 3)
    ensures Emit(Next(HalfStep, s, p)) == DirCcw <==>
              (Row(s) == Half.CcwBegin && p == 0) || (Row(s) == Half.CcwBeginM && p == 3)
    ensures Emit(Next(HalfStep, s, p)) != DirNone ==>
              Row(Next(HalfStep, s, p)) == (if p == 0 then Half.StartM else Half.Start)
  {
    TableWellFormed(HalfStep, Row(s) as int, p as int);
  }

  // ---------------------------------------------------------------------
  // Debounce: progress through a detent is at most one sub-state per sample

  /** How far through a detent a row is: 0 at rest, Top(mode) just before an event. */
  function Rank(mode: Mode, row: bv8): nat {
    if mode == FullStep then
      if row == Full.Start then 0
      else if row == Full.CwBegin || row == Full.CcwBegin then 1
      else if row == Full.CwNext || row == Full.CcwNext then 2
      else 3
    else
      if row == Half.Start || row == Half.StartM then 0 else 1
  }

  function Top(mode: Mode): nat {
    if mode == FullStep then 3 else 1
  }

  /** One sample advances at most one rank; an event needs the top rank and
      returns to rank 0. */
  lemma RankStep(mode: Mode, s: bv8, p: Sample)
    requires ValidState(mode, s)
    ensures Rank(mode, Row(Next(mode, s, p))) <= Rank(mode, Row(s)) + 1
    ensures Emit(Next(mode, s, p)) != DirNone ==>
              Rank(mode, Row(s)) == Top(mode) && Rank(mode, Row(Next(mode, s, p))) == 0
  {
    TableWellFormed(mode, Row(s) as int, p as int);
  }

  /** An event at poll i (counting from 0) needs rank + i >= Top: from rest, the
      first full-step event is at the earliest on the fourth sample. */
  lemma {:induction false} EventNeedsProgress(mode: Mode, s: bv8, samples: seq<Sample>, i: nat)
    requires ValidState(mode, s) && i < |samples|
    requires Run(mode, s, samples)[i] != DirNone
    ensures Rank(mode, Row(s)) + i >= Top(mode)
    decreases i
  {
    var n := Next(mode, s, samples[0]);
    RankStep(mode, s, samples[0]);
    if i > 0 {
      EventNeedsProgress(mode, n, samples[1..], i - 1);
    }
  }

  /** Two events are more than Top(mode) samples apart: at least four samples
      per full-step event, at least two per half-step event. */
  lemma {:induction false} EventsAreSpaced(mode: Mode, s: bv8, samples: seq<Sample>, i: nat, j: nat)
    requires ValidState(mode, s) && i < j < |samples|
    requires Run(mode, s, samples)[i] != DirNone && Run(mode, s, samples)[j] != DirNone
    ensures j - i > Top(mode)
    decreases i
  {
    var n := Next(mode, s, samples[0]);
    RankStep(mode, s, samples[0]);
    if i == 0 {
      EventNeedsProgress(mode, n, samples[1..], j - 1);
    } else {
      EventsAreSpaced(mode, n, samples[1..], i - 1, j - 1);
    }
  }

  /** Contact bounce on the clock pin at rest (samples 01 and 11 only) keeps the
      full-step decoder between Start and CwBegin and never emits. */
  lemma {:induction false} CwBounceIsSilent(s: bv8, samples: seq<Sample>)
    requires Row(s) == Full.Start || Row(s) == Full.CwBegin
    requires forall k :: 0 <= k < |samples| ==> samples[k] == 1 || samples[k] == 3
    ensures ValidState(FullStep, s)
    ensures forall k :: 0 <= k < |samples| ==> Run(FullStep, s, samples)[k] == DirNone
    decreases |samples|
  {
    if samples != [] {
      var n := Next(FullStep, s, samples[0]);
      TableWellFormed(FullStep, Row(s) as int, samples[0] as int);
      CwBounceIsSilent(n, samples[1..]);
    }
  }

  /** The same for bounce on the data pin (samples 10 and 11), between Start and CcwBegin. */
  lemma {:induction false} CcwBounceIsSilent(s: bv8, samples: seq<Sample>)
    requires Row(s) == Full.Start || Row(s) == Full.CcwBegin
    requires forall k :: 0 <= k < |samples| ==> samples[k] == 2 || samples[k] == 3
    ensures ValidState(FullStep, s)
    ensures forall k :: 0 <= k < |samples| ==> Run(FullStep, s, samples)[k] == DirNone
    decreases |samples|
  {
    if samples != [] {
      var n := Next(FullStep, s, samples[0]);
      TableWellFormed(FullStep, Row(s) as int, samples[0] as int);
      CcwBounceIsSilent(n, samples[1..]);
    }
  }

  // ---------------------------------------------------------------------
  // Detents

  /** One clockwise detent: samples 01, 00, 10, 11. */
  const CwDetent: seq<Sample> := [1, 0, 2, 3]
  /** One counter-clockwise detent: samples 10, 00, 01, 11. */
  const CcwDetent: seq<Sample> := [2, 0, 1, 3]

  lemma FullStepDetents(s: bv8)
    requires Row(s) == Full.Start
    ensures ValidState(FullStep, s)
    ensures Run(FullStep, s, CwDetent) == [DirNone, DirNone, DirNone, DirCw]
    ensures Run(FullStep, s, CcwDetent) == [DirNone, DirNone, DirNone, DirCcw]
    ensures Row(After(FullStep, s, CwDetent)) == Full.Start
    ensures Row(After(FullStep, s, CcwDetent)) == Full.Start
  {
  }

  /** In half-step mode the same detent emits twice: at 00 and again at 11. */
  lemma HalfStepDetents(s: bv8)
    requires Row(s) == Half.Start
    ensures ValidState(HalfStep, s)
    ensures Run(HalfStep, s, CwDetent) == [DirNone, DirCw, DirNone, DirCw]
    ensures Run(HalfStep, s, CcwDetent) == [DirNone, DirCcw, DirNone, DirCcw]
  {
  }

  function Repeat<T>(x: seq<T>, n: nat): seq<T> {
    if n == 0 then [] else x + Repeat(x, n - 1)
  }

  /** n clockwise detents emit exactly n CW events, each on the fourth sample. */
  lemma {:induction false} RepeatedCwDetents(s: bv8, n: nat)
    requires Row(s) == Full.Start
    ensures ValidState(FullStep, s)
    ensures Run(FullStep, s, Repeat(CwDetent, n)) == Repeat([DirNone, DirNone, DirNone, DirCw], n)
    decreases n
  {
    if n > 0 {
      FullStepDetents(s);
      RunAppend(FullStep, s, CwDetent, Repeat(CwDetent, n - 1));
      RepeatedCwDetents(After(FullStep, s, CwDetent), n - 1);
    }
  }

  /** The 00, 10, 11, 01, 00 sequence shown in the source's header comment,
      and its reverse, are not detents for this table: both emit nothing. */
  lemma CommentSequenceEmitsNothing()
    ensures Run(FullStep, Initial, [0, 2, 3, 1, 0]) == [DirNone, DirNone, DirNone, DirNone, DirNone]
    ensures Run(FullStep, Initial, [0, 1, 3, 2, 0]) == [DirNone, DirNone, DirNone, DirNone, DirNone]
  {
  }
}
