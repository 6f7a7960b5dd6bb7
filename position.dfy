// The position/limits controller of mdRotary (_incPos, _decPos,
// setPosition, setLimits), stated on a value that holds the four fields
// _position, _min, _max and _rollover.
module Position {
  import opened Int32

  datatype Counter = Counter(position: int32, min: int32, max: int32, rollover: bool)

  /** Bounds are enforced only when min < max; min == max disables them. */
  predicate Bounded(c: Counter) {
    c.min < c.max
  }

  predicate InRange(c: Counter) {
    Bounded(c) ==> c.min <= c.position <= c.max
  }

  /** The controller invariant: min <= max always, and the position within
      the bounds whenever they are enabled. */
  predicate Valid(c: Counter) {
    c.min <= c.max && InRange(c)
  }

  /** The constructor's values: position 0, min = max = 0, rollover on. */
  const Default: Counter := Counter(0, 0, 0, true)

  /** The outcome of one step: the new fields, and whether handlers may fire. */
  datatype Step = Step(after: Counter, changed: bool)

  // ---------------------------------------------------------------------
  // Stepping

  /** _incPos. The bound test is made on the mathematical successor and the
      int32 wrap applies only when the bounds are off (see IncPosAsWritten). */
  function IncPos(c: Counter): (r: Step)
    ensures r.after == c.(position := r.after.position)
    ensures InRange(c) ==> InRange(r.after)
    ensures InRange(c) ==> (r.changed <==> r.after.position != c.position)
  {
    var next := c.position + 1;
    if c.min < c.max && next > c.max then
      if c.rollover then Step(c.(position := c.min), true)
      else Step(c.(position := c.max), false)
    else
      Step(c.(position := Wrap32(next)), true)
  }

  /** _decPos, symmetric to IncPos. */
  function DecPos(c: Counter): (r: Step)
    ensures r.after == c.(position := r.after.position)
    ensures InRange(c) ==> InRange(r.after)
    ensures InRange(c) ==> (r.changed <==> r.after.position != c.position)
  {
    var next := c.position - 1;
    if c.min < c.max && next < c.min then
      if c.rollover then Step(c.(position := c.max), true)
      else Step(c.(position := c.min), false)
    else
      Step(c.(position := Wrap32(next)), true)
  }

  /** Clockwise at the bounds: inside the range a plain +1; from max to min
      with rollover; otherwise stay at max and report no change. */
  lemma IncPosAtBounds(c: Counter)
    requires Valid(c) && Bounded(c)
    ensures c.position < c.max ==> IncPos(c) == Step(c.(position := c.position + 1), true)
    ensures c.position == c.max && c.rollover ==> IncPos(c) == Step(c.(position := c.min), true)
    ensures c.position == c.max && !c.rollover ==> IncPos(c) == Step(c, false)
  {
  }

  /** Counter-clockwise at the bounds: from min to max with rollover, else stay at min. */
  lemma DecPosAtBounds(c: Counter)
    requires Valid(c) && Bounded(c)
    ensures c.position > c.min ==> DecPos(c) == Step(c.(position := c.position - 1), true)
    ensures c.position == c.min && c.rollover ==> DecPos(c) == Step(c.(position := c.max), true)
    ensures c.position == c.min && !c.rollover ==> DecPos(c) == Step(c, false)
  {
  }

  /** With rollover, stepping is counting modulo the size of the range. */
  lemma StepsAreModular(c: Counter)
    requires Valid(c) && Bounded(c) && c.rollover
    ensures IncPos(c).after.position == c.min + (c.position - c.min + 1) % (c.max - c.min + 1)
    ensures DecPos(c).after.position == c.min + (c.position - c.min - 1) % (c.max - c.min + 1)
  {
    var n := c.max - c.min + 1;
    var k := c.position - c.min;
    if k + 1 < n {
      ModOfSmall(k + 1, n);
    } else {
      ModSelf(n);
    }
    if k > 0 {
      ModOfSmall(k - 1, n);
    } else {
      ModMinusOne(n);
    }
  }

  lemma ModOfSmall(a: int, n: int)
    requires 0 <= a < n
    ensures a % n == a
  {
  }

  lemma ModSelf(n: int)
    requires n > 0
    ensures n % n == 0
  {
  }

  lemma ModMinusOne(n: int)
    requires n > 0
    ensures (-1) % n == n - 1
  {
  }

  /** With min == max the position is a plain int32 counter that wraps at
      the int32 range, whatever rollover says. */
  lemma UnboundedStepsWrap(c: Counter)
    requires !Bounded(c)
    ensures IncPos(c) == Step(c.(position := Wrap32(c.position + 1)), true)
    ensures DecPos(c) == Step(c.(position := Wrap32(c.position - 1)), true)
    ensures IncPos(c.(rollover := !c.rollover)).after.position == IncPos(c).after.position
    ensures DecPos(c.(rollover := !c.rollover)).after.position == DecPos(c).after.position
    ensures c.position == MaxInt32 ==> IncPos(c).after.position == MinInt32
    ensures c.position == MinInt32 ==> DecPos(c).after.position == MaxInt32
  {
    Wrap32Extremes();
  }

  /** Undoing a step: counter-clockwise after clockwise returns to the start
      unless clockwise was stopped at max, and the other way round. */
  lemma DecPosUndoesIncPos(c: Counter)
    requires Valid(c)
    ensures IncPos(c).changed ==> DecPos(IncPos(c).after).after == c
    ensures DecPos(c).changed ==> IncPos(DecPos(c).after).after == c
  {
  }

  /** n clockwise steps. */
  function IncPosTimes(c: Counter, n: nat): Counter {
    if n == 0 then c else IncPos(IncPosTimes(c, n - 1)).after
  }

  /** Unbounded, n clockwise steps add n modulo 2^32. */
  lemma {:induction false} UnboundedIncPosTimes(c: Counter, n: nat)
    requires !Bounded(c)
    ensures IncPosTimes(c, n) == c.(position := Wrap32(c.position + n))
    decreases n
  {
    if n > 0 {
      UnboundedIncPosTimes(c, n - 1);
      Wrap32Succ(c.position + n - 1);
    }
  }

  /** Five clockwise steps from the defaults reach 5, unclamped. */
  lemma FiveStepsFromDefault()
    ensures IncPosTimes(Default, 5).position == 5
  {
  }

  // ---------------------------------------------------------------------
  // setPosition and setLimits

  /** setPosition: an out-of-range value goes to the opposite bound with
      rollover and to the nearer bound without it; the bounds are checked
      one after the other as in the source. */
  function SetPosition(c: Counter, value: int32): (r: Counter)
    ensures r == c.(position := r.position)
    ensures Bounded(c) ==> c.min <= r.position <= c.max
    ensures !Bounded(c) || c.min <= value <= c.max ==> r.position == value
    ensures Bounded(c) && value < c.min ==> r.position == (if c.rollover then c.max else c.min)
    ensures Bounded(c) && value > c.max ==> r.position == (if c.rollover then c.min else c.max)
  {
    var v1 := if c.min < c.max && value < c.min then (if c.rollover then c.max else c.min) else value;
    var v2 := if c.min < c.max && v1 > c.max then (if c.rollover then c.min else c.max) else v1;
    c.(position := v2)
  }

  /** Setting the stored position again changes nothing, and the result is valid. */
  lemma SetPositionIdempotent(c: Counter, value: int32)
    requires c.min <= c.max
    ensures Valid(SetPosition(c, value))
    ensures SetPosition(SetPosition(c, value), SetPosition(c, value).position) == SetPosition(c, value)
  {
  }

  /** A step is setPosition of the neighbouring value, below the int32 extremes. */
  lemma StepIsSetNeighbour(c: Counter)
    requires Valid(c)
    ensures c.position < MaxInt32 ==> IncPos(c).after == SetPosition(c, c.position + 1)
    ensures c.position > MinInt32 ==> DecPos(c).after == SetPosition(c, c.position - 1)
  {
  }

  /** setLimits(max, min, rollover): rollover is always stored; the bounds
      only when min <= max, followed by re-placing the current position. */
  function SetLimits(c: Counter, max: int32, min: int32, rollover: bool): (r: Counter)
    ensures r.rollover == rollover
    ensures min <= max ==> r.min == min && r.max == max && InRange(r)
    ensures min <= max && (min == max || min <= c.position <= max) ==> r.position == c.position
    ensures min < max && c.position < min ==> r.position == (if rollover then max else min)
    ensures min < max && c.position > max ==> r.position == (if rollover then min else max)
    ensures min > max ==> r == c.(rollover := rollover)
    ensures c.min <= c.max ==> r.min <= r.max
    ensures Valid(c) ==> Valid(r)
  {
    var c1 := c.(rollover := rollover);
    if min <= max then SetPosition(c1.(min := min, max := max), c.position) else c1
  }

  /** Starting unbounded at 10, setLimits(5, 0, false) clamps to 5 and
      setLimits(5, 0, true) rolls over to 0. */
  lemma SetLimitsReclamps(rollover: bool)
    ensures SetLimits(Default.(position := 10, rollover := rollover), 5, 0, false).position == 5
    ensures SetLimits(Default.(position := 10, rollover := rollover), 5, 0, true).position == 0
  {
  }

  // ---------------------------------------------------------------------
  // The int32 overflow in _incPos and _decPos

  /** _incPos as written: `_position++` wraps first, then `_position > _max`
      is tested on the wrapped value. */
  function IncPosAsWritten(c: Counter): (r: Step)
    ensures r.after == c.(position := r.after.position)
  {
    var next := Wrap32(c.position + 1);
    if c.min < c.max && next > c.max then
      if c.rollover then Step(c.(position := c.min), true)
      else Step(c.(position := c.max), false)
    else
      Step(c.(position := next), true)
  }

  /** _decPos as written: `_position--` wraps first, then `_position < _min`. */
  function DecPosAsWritten(c: Counter): (r: Step)
    ensures r.after == c.(position := r.after.position)
  {
    var next := Wrap32(c.position - 1);
    if c.min < c.max && next < c.min then
      if c.rollover then Step(c.(position := c.max), true)
      else Step(c.(position := c.min), false)
    else
      Step(c.(position := next), true)
  }

  /** The as-written steps agree with IncPos and DecPos except at a bound
      that sits on the int32 extreme. */
  lemma AsWrittenAgreesAwayFromExtremes(c: Counter)
    requires Valid(c)
    ensures IncPosAsWritten(c) == IncPos(c) <==>
              !(Bounded(c) && c.position == MaxInt32) || (c.rollover && c.min == MinInt32)
    ensures DecPosAsWritten(c) == DecPos(c) <==>
              !(Bounded(c) && c.position == MinInt32) || (c.rollover && c.max == MaxInt32)
  {
  }

  /** With max = INT32_MAX and no rollover, a clockwise step at max escapes
      the range to INT32_MIN and reports a change. */
  lemma IncPosAsWrittenEscapesRange()
    ensures Valid(Counter(MaxInt32, 0, MaxInt32, false))
    ensures IncPosAsWritten(Counter(MaxInt32, 0, MaxInt32, false))
         == Step(Counter(MinInt32, 0, MaxInt32, false), true)
    ensures !InRange(Counter(MinInt32, 0, MaxInt32, false))
  {
  }

  /** With min = INT32_MIN and no rollover, a counter-clockwise step at min
      escapes the range to INT32_MAX and reports a change. */
  lemma DecPosAsWrittenEscapesRange()
    ensures Valid(Counter(MinInt32, MinInt32, 0, false))
    ensures DecPosAsWritten(Counter(MinInt32, MinInt32, 0, false))
         == Step(Counter(MaxInt32, MinInt32, 0, false), true)
    ensures !InRange(Counter(MaxInt32, MinInt32, 0, false))
  {
  }
}
