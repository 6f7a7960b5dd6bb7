// The whole mdRotary object as a value: the decoder state, the position
// controller, which handlers are registered, and what one call of
// process() does to them.
module EncoderSpec {
  import opened Int32
  import opened Rotation
  import opened Decoder
  import P = Position
  import Full = FullStepTable

  /** A handler invocation that process() would make. */
  datatype HandlerCall = RotatedLeft | RotatedRight | Rotated(position: int32)

  /** Which of _OnCbLeft, _OnCbRight and _OnCbRotated are set. */
  datatype Handlers = Handlers(left: bool, right: bool, rotated: bool)

  datatype Encoder = Encoder(
    mode: Mode,
    clock: uint8,
    data: uint8,
    state: bv8,
    counter: P.Counter,
    handlers: Handlers)

  predicate Valid(e: Encoder) {
    ValidState(e.mode, e.state) && P.Valid(e.counter)
  }

  /** A new object: decoder at R_START, position 0, min = max = 0 (bounds
      off), rollover on, no handler registered. */
  function Init(mode: Mode, clockPin: uint8, dataPin: uint8): (e: Encoder)
    ensures Valid(e) && !P.Bounded(e.counter)
    ensures Row(e.state) == 0 && Emit(e.state) == DirNone
    ensures e.counter.position == 0 && e.counter.min == 0 && e.counter.max == 0 && e.counter.rollover
    ensures e.data == dataPin && e.clock == clockPin && e.mode == mode
    ensures !e.handlers.left && !e.handlers.right && !e.handlers.rotated
  {
    Encoder(mode, clockPin, dataPin, Initial, P.Default, Handlers(false, false, false))
  }

  datatype Processed = Processed(after: Encoder, res: bv8, calls: seq<HandlerCall>)

  /** The handlers a step fires, in order: none unless the step changed the
      position; otherwise the direction handler, then the position handler
      with the new position, each only when registered. */
  function Fired(direction: HandlerCall, directionSet: bool, rotatedSet: bool, step: P.Step): (calls: seq<HandlerCall>)
    requires !direction.Rotated?
    ensures |calls| <= 2
    ensures calls != [] ==> step.changed
    ensures direction in calls <==> step.changed && directionSet
    ensures forall d :: d in calls && !d.Rotated? ==> d == direction
    ensures forall k :: 0 < k < |calls| ==> calls[k].Rotated?
    ensures (calls != [] && calls[|calls| - 1].Rotated?) <==> step.changed && rotatedSet
    ensures forall k :: 0 <= k < |calls| && calls[k].Rotated? ==>
              k == |calls| - 1 && calls[k].position == step.after.position
  {
    if !step.changed then []
    else (if directionSet then [direction] else []) + (if rotatedSet then [Rotated(step.after.position)] else [])
  }

  /** process(): one decoder poll on sample p, then a position step for a
      CW or CCW event. Returns the event whether or not handlers fire. */
  function Process(e: Encoder, p: Sample): (r: Processed)
    requires Valid(e)
    ensures Valid(r.after)
    ensures r.after == e.(state := Next(e.mode, e.state, p), counter := r.after.counter)
    ensures r.res == Emit(r.after.state) && IsRotation(r.res)
    ensures r.res == DirNone ==> r.after.counter == e.counter && r.calls == []
    ensures r.res == DirCw ==> r.after.counter == P.IncPos(e.counter).after
    ensures r.res == DirCcw ==> r.after.counter == P.DecPos(e.counter).after
    ensures |r.calls| <= 2
    ensures forall k :: 0 < k < |r.calls| ==> r.calls[k].Rotated?
    ensures r.calls != [] ==> r.after.counter.position != e.counter.position
    ensures RotatedRight in r.calls <==>
              r.res == DirCw && e.handlers.right && r.after.counter.position != e.counter.position
    ensures RotatedLeft in r.calls <==>
              r.res == DirCcw && e.handlers.left && r.after.counter.position != e.counter.position
    ensures (r.calls != [] && r.calls[|r.calls| - 1].Rotated?) <==>
              r.res != DirNone && e.handlers.rotated && r.after.counter.position != e.counter.position
    ensures forall k :: 0 <= k < |r.calls| && r.calls[k].Rotated? ==>
              k == |r.calls| - 1 && r.calls[k].position == r.after.counter.position
  {
    var s := Next(e.mode, e.state, p);
    var res := Emit(s);
    if res == DirCw then
      var step := P.IncPos(e.counter);
      Processed(e.(state := s, counter := step.after), res,
                Fired(RotatedRight, e.handlers.right, e.handlers.rotated, step))
    else if res == DirCcw then
      var step := P.DecPos(e.counter);
      Processed(e.(state := s, counter := step.after), res,
                Fired(RotatedLeft, e.handlers.left, e.handlers.rotated, step))
    else
      Processed(e.(state := s), res, [])
  }

  /** A sequence of process() calls: the final object, the returned events
      and every handler call, in order. */
  datatype Trace = Trace(after: Encoder, events: seq<bv8>, calls: seq<HandlerCall>)

  function ProcessRun(e: Encoder, samples: seq<Sample>): (t: Trace)
    requires Valid(e)
    ensures Valid(t.after) && t.after.mode == e.mode && t.after.handlers == e.handlers
    decreases |samples|
  {
    if samples == [] then Trace(e, [], [])
    else
      var r := Process(e, samples[0]);
      var t := ProcessRun(r.after, samples[1..]);
      Trace(t.after, [r.res] + t.events, r.calls + t.calls)
  }

  /** The events process() returns are those of the decoder alone: the
      position controller never feeds back into decoding. */
  lemma {:induction false} ProcessRunEvents(e: Encoder, samples: seq<Sample>)
    requires Valid(e)
    ensures ProcessRun(e, samples).events == Run(e.mode, e.state, samples)
    ensures ProcessRun(e, samples).after.state == After(e.mode, e.state, samples)
    decreases |samples|
  {
    if samples != [] {
      ProcessRunEvents(Process(e, samples[0]).after, samples[1..]);
    }
  }

  /** End to end: one clockwise detent in full-step mode moves the position
      exactly as one _incPos and fires the matching handlers once. */
  lemma CwDetentStepsOnce(e: Encoder)
    requires Valid(e) && e.mode == FullStep && Row(e.state) == Full.Start
    ensures ProcessRun(e, CwDetent).after.counter == P.IncPos(e.counter).after
    ensures ProcessRun(e, CwDetent).calls
         == Fired(RotatedRight, e.handlers.right, e.handlers.rotated, P.IncPos(e.counter))
    ensures ProcessRun(e, CwDetent).events == [DirNone, DirNone, DirNone, DirCw]
  {
    FullStepDetents(e.state);
    ProcessRunEvents(e, CwDetent);
    var r1 := Process(e, 1);
    var r2 := Process(r1.after, 0);
    var r3 := Process(r2.after, 2);
    assert CwDetent[1..] == [0, 2, 3] && CwDetent[2..] == [2, 3] && CwDetent[3..] == [3];
    assert r3.after.counter == e.counter;
  }

  /** At max without rollover a CW event leaves the position at max and fires nothing. */
  lemma ClampedStepFiresNothing(e: Encoder, p: Sample)
    requires Valid(e) && P.Bounded(e.counter) && !e.counter.rollover
    requires e.counter.position == e.counter.max
    requires Emit(Next(e.mode, e.state, p)) == DirCw
    ensures Process(e, p).after.counter == e.counter && Process(e, p).calls == []
  {
  }

  /** At max with rollover a CW event wraps to min and fires the handlers. */
  lemma RolloverStepFires(e: Encoder, p: Sample)
    requires Valid(e) && P.Bounded(e.counter) && e.counter.rollover
    requires e.counter.position == e.counter.max && e.handlers.rotated
    requires Emit(Next(e.mode, e.state, p)) == DirCw
    ensures Process(e, p).after.counter.position == e.counter.min
    ensures Process(e, p).calls[|Process(e, p).calls| - 1] == Rotated(e.counter.min)
  {
  }
}
