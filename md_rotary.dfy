// The mdRotary class: the decoder state and the position controller as
// fields updated in place. Each method is proved against the value model
// in EncoderSpec and Position.
module RotaryEncoder {
  import opened Int32
  import opened Rotation
  import opened Decoder
  import P = Position
  import opened EncoderSpec

  class MdRotary {
    /** Full-step or half-step table, fixed at construction. */
    const mode: Mode
    const clock: uint8
    const data: uint8
    var state: bv8
    var position: int32
    var min: int32
    var max: int32
    var rollover: bool
    // Whether each handler slot holds a callback.
    var onLeft: bool
    var onRight: bool
    var onRotated: bool

    function Controller(): P.Counter
      reads this
    {
      P.Counter(position, min, max, rollover)
    }

    ghost function Model(): Encoder
      reads this
    {
      Encoder(mode, clock, data, state, Controller(), Handlers(onLeft, onRight, onRotated))
    }

    ghost predicate Valid()
      reads this
    {
      EncoderSpec.Valid(Model())
    }

    constructor (clockPin: uint8, dataPin: uint8, tableMode: Mode)
      ensures Valid() && Model() == Init(tableMode, clockPin, dataPin)
    {
      mode := tableMode;
      rollover := true;
      min := 0;
      max := 0;
      position := 0;
      clock := clockPin;
      data := dataPin;
      state := Initial;
      onLeft, onRight, onRotated := false, false, false;
    }

    /** One poll: decode the pin levels, step the position on CW or CCW and
        report which handlers fire. Returns the decoded event. */
    method Process(dataLevel: bool, clockLevel: bool) returns (res: bv8, calls: seq<HandlerCall>)
      requires Valid()
      modifies this
      ensures Valid()
      ensures Model() == EncoderSpec.Process(old(Model()), PinSample(dataLevel, clockLevel)).after
      ensures res == EncoderSpec.Process(old(Model()), PinSample(dataLevel, clockLevel)).res
      ensures calls == EncoderSpec.Process(old(Model()), PinSample(dataLevel, clockLevel)).calls
    {
      ghost var before := Model();
      res := UpdateRotary(dataLevel, clockLevel);
      calls := [];
      if res == DirCw {
        ghost var step := P.IncPos(before.counter);
        var moved := IncPos();
        if moved {
          if onRight { calls := calls + [RotatedRight]; }
          if onRotated { calls := calls + [Rotated(position)]; }
        }
        assert calls == Fired(RotatedRight, onRight, onRotated, step);
      } else if res == DirCcw {
        ghost var step := P.DecPos(before.counter);
        var moved := DecPos();
        if moved {
          if onLeft { calls := calls + [RotatedLeft]; }
          if onRotated { calls := calls + [Rotated(position)]; }
        }
        assert calls == Fired(RotatedLeft, onLeft, onRotated, step);
      }
    }

    /** _updateRotary: `_state = ttable[_state & 0xf][pinstate]`, returning
        the direction bits of the new state. */
    method UpdateRotary(dataLevel: bool, clockLevel: bool) returns (emit: bv8)
      requires ValidState(mode, state)
      modifies this`state
      ensures state == Next(mode, old(state), PinSample(dataLevel, clockLevel))
      ensures emit == Emit(state) && IsRotation(emit)
    {
      var pinstate := PinSample(dataLevel, clockLevel);
      TableWellFormed(mode, (state & RowMask) as int, pinstate as int);
      state := Table(mode)[state & RowMask][pinstate];
      emit := state & EmitMask;
    }

    /** _incPos: true when the position moved and handlers may fire. */
    method IncPos() returns (changed: bool)
      modifies this`position
      ensures Controller() == P.IncPos(old(Controller())).after
      ensures changed == P.IncPos(old(Controller())).changed
    {
      var next := position + 1;
      if min < max && next > max {
        if rollover {
          position := min;
        } else {
          position := max;
          return false;
        }
      } else {
        position := Wrap32(next);
      }
      return true;
    }

    /** _decPos: true when the position moved and handlers may fire. */
    method DecPos() returns (changed: bool)
      modifies this`position
      ensures Controller() == P.DecPos(old(Controller())).after
      ensures changed == P.DecPos(old(Controller())).changed
    {
      var next := position - 1;
      if min < max && next < min {
        if rollover {
          position := max;
        } else {
          position := min;
          return false;
        }
      } else {
        position := Wrap32(next);
      }
      return true;
    }

    /** id(): the data pin, identifying the encoder inside a shared handler. */
    method Id() returns (pin: uint8)
      ensures pin == data
    {
      pin := data;
    }

    method GetPosition() returns (p: int32)
      ensures p == position
    {
      p := position;
    }

    method GetMin() returns (m: int32)
      ensures m == min
    {
      m := min;
    }

    method GetMax() returns (m: int32)
      ensures m == max
    {
      m := max;
    }

    method GetRollover() returns (b: bool)
      ensures b == rollover
    {
      b := rollover;
    }

    /** setPosition: stores the value, moved into [min, max] when the bounds
        are on, and returns what was stored. */
    method SetPosition(value: int32) returns (stored: int32)
      requires ValidState(mode, state) && min <= max
      modifies this`position
      ensures Valid()
      ensures Controller() == P.SetPosition(old(Controller()), value)
      ensures stored == position
    {
      var v := value;
      if min < max {
        if v < min {
          if rollover { v := max; } else { v := min; }
        }
        if v > max {
          if rollover { v := min; } else { v := max; }
        }
      }
      position := v;
      stored := position;
    }

    /** setLimits(max, min, rollover): rollover always; the bounds and a
        re-placed position only when min <= max. Returns the position. */
    method SetLimits(newMax: int32, newMin: int32, newRollover: bool) returns (stored: int32)
      requires Valid()
      modifies this`rollover, this`min, this`max, this`position
      ensures Valid()
      ensures Controller() == P.SetLimits(old(Controller()), newMax, newMin, newRollover)
      ensures stored == position
    {
      rollover := newRollover;
      if newMin <= newMax {
        min := newMin;
        max := newMax;
        stored := SetPosition(position);
        return;
      }
      stored := position;
    }

    /** onButtonRotatedLeft: set (true) or clear (false) the left handler. */
    method OnButtonRotatedLeft(present: bool)
      modifies this`onLeft
      ensures onLeft == present
    {
      onLeft := present;
    }

    method OnButtonRotatedRight(present: bool)
      modifies this`onRight
      ensures onRight == present
    {
      onRight := present;
    }

    method OnButtonRotated(present: bool)
      modifies this`onRotated
      ensures onRotated == present
    {
      onRotated := present;
    }
  }

  /** A client: from a fresh encoder at position 10, setLimits(5, 0, false)
      returns 5; at 10 again, setLimits(5, 0, true) returns 0; a bound pair
      with min > max then changes rollover and leaves min, max and the
      position as they were. */
  method ReclampExample() returns (clamped: int32, wrapped: int32, ignored: int32,
                                   minAfter: int32, maxAfter: int32, rollAfter: bool)
    ensures clamped == 5 && wrapped == 0 && ignored == 0
    ensures minAfter == 0 && maxAfter == 5 && !rollAfter
  {
    var enc := new MdRotary(2, 3, FullStep);
    var p := enc.SetPosition(10);
    clamped := enc.SetLimits(5, 0, false);
    var q := enc.SetLimits(0, 0, true);
    p := enc.SetPosition(10);
    wrapped := enc.SetLimits(5, 0, true);
    ignored := enc.SetLimits(1, 7, false);
    minAfter := enc.GetMin();
    maxAfter := enc.GetMax();
    rollAfter := enc.GetRollover();
  }
}
