# mdRotary in Dafny

A verified model of `mdRotary`, an Arduino library class that reads a mechanical
quadrature rotary encoder. It has two parts that live in one object:

- **The quadrature decoder** (`_updateRotary`). Each poll combines the two pin
  levels into a 2-bit sample `(data << 1) | clock` and makes one lookup in a fixed
  transition table, `state = ttable[state & 0xf][sample]`. Bits 4 and 5 of the new
  state byte are the emitted event: `DIR_NONE = 0x00`, `DIR_CW = 0x10` or
  `DIR_CCW = 0x20`. There are two tables. The full-step table (7 x 4) emits once per
  detent. The half-step table (6 x 4) emits at both extremes of the gray cycle.
  Debouncing comes from the shape of the tables, not from timing.
- **The position controller** (`_incPos`, `_decPos`, `setPosition`, `setLimits`).
  It keeps an `int32_t` position between `min` and `max` when `min < max`. At a
  bound it either rolls over to the opposite bound or stays put. `process()` ties
  the two parts together and decides which user handlers fire.

Modules, one per component:

- `Int32` (`int32.dfy`): the `int32_t`/`uint8_t` ranges and the two's-complement wrap `Wrap32`.
- `Rotation` (`rotation.dfy`): the `rotation_t` codes and the row/emit masks.
- `FullStepTable`, `HalfStepTable`: the two tables, copied entry for entry.
- `Decoder` (`decoder.dfy`): the lookup `Next`, runs of polls, and the debounce lemmas.
- `Position` (`position.dfy`): the controller, stated on a value `Counter(position, min, max, rollover)`.
- `EncoderSpec` (`encoder_spec.dfy`): the whole object as a value, and `Process`
  returning the event and the trace of handler calls.
- `RotaryEncoder` (`md_rotary.dfy`): the class `MdRotary`. Its fields are updated in
  place, and each method is proved against the value model.

The `HALF_STEP` preprocessor switch becomes a `Mode` chosen at construction.
The pin reads become parameters of `Process`: the data and clock levels.
The three callback slots become presence flags. `process()` returns the list of
handler calls it would make, in order, as `HandlerCall`s.

The header comment at src/mdRotaryEncoder.cpp:18-24 shows 00, 10, 11, 01, 00 as the
sequence of one step. Under the table with the `(data << 1) | clock` encoding, that
sequence emits nothing. The rest code of the table is 11. A clockwise detent is
01, 00, 10, 11 and a counter-clockwise detent is 10, 00, 01, 11. The model follows
the table (`Decoder.FullStepDetents`, `Decoder.CommentSequenceEmitsNothing`).

## Model

| member | source | states |
|---|---|---|
| `Int32.Wrap32` | src/mdRotaryEncoder.h:84-86 | The result is an int32 congruent to the input modulo 2^32, and equals the input when the input is already an int32. |
| `Rotation.EncodingDisjoint` | src/mdRotaryEncoder.h:37-41 | DIR_NONE, DIR_CW and DIR_CCW lie inside the 0x30 emit mask and clear of the 0x0f row bits. CW and CCW never share a bit. |
| `Decoder.PinSample` | src/mdRotaryEncoder.cpp:172 | The sample is below 4. Bit 1 is the data level and bit 0 the clock level. |
| `Decoder.TableWellFormed` | src/mdRotaryEncoder.cpp:86-124 | Both tables have the right shape (7 x 4 and 6 x 4). In every entry the row nibble is a valid row, the direction bits are 0x00, 0x10 or 0x20, and bits 6 and 7 are clear. |
| `Decoder.InitialIsValid` | src/mdRotaryEncoder.cpp:143 | R_START is a valid state in both modes and carries no event. |
| `Decoder.Next` | src/mdRotaryEncoder.cpp:170-177 | The lookup is total over valid states and all four samples. The new state is valid and its emit bits are exactly one of NONE, CW and CCW. |
| `Decoder.Run` | src/mdRotaryEncoder.cpp:170-177 | A run of polls yields one event per sample, and every event is NONE, CW or CCW. |
| `Decoder.FullStepEmitsOnlyFromFinal` | src/mdRotaryEncoder.cpp:109-124 | Full-step: CW is emitted iff the sample is 11 from CwFinal, and CCW iff the sample is 11 from CcwFinal. Every event lands back in Start. |
| `Decoder.HalfStepEmitsOnlyAtExtremes` | src/mdRotaryEncoder.cpp:86-99 | Half-step: an event fires iff the sample is 00 from a Begin state (landing in StartM) or 11 from a BeginM state (landing in Start). The direction follows the state's name. |
| `Decoder.RankStep` | src/mdRotaryEncoder.cpp:86-124 | One sample moves the progress rank up by at most one. An event needs the top rank and resets the rank to 0. |
| `Decoder.EventNeedsProgress` | src/mdRotaryEncoder.cpp:86-124 | An event at poll i needs rank + i >= Top. From rest, the first full-step event comes on the fourth sample at the earliest. |
| `Decoder.EventsAreSpaced` | src/mdRotaryEncoder.cpp:86-124 | Any two events are more than Top samples apart. That is at least 4 samples per full-step event and at least 2 per half-step event. |
| `Decoder.CwBounceIsSilent` | src/mdRotaryEncoder.cpp:111-115 | Bounce between 01 and 11 from Start or CwBegin never emits an event. |
| `Decoder.CcwBounceIsSilent` | src/mdRotaryEncoder.cpp:111-119 | Bounce between 10 and 11 from Start or CcwBegin never emits an event. |
| `Decoder.FullStepDetents` | src/mdRotaryEncoder.cpp:109-124 | From Start, 01,00,10,11 yields NONE,NONE,NONE,CW and 10,00,01,11 yields NONE,NONE,NONE,CCW. Both end in Start. |
| `Decoder.HalfStepDetents` | src/mdRotaryEncoder.cpp:86-99 | In half-step mode the same two detents emit twice each, at 00 and at 11. |
| `Decoder.RepeatedCwDetents` | src/mdRotaryEncoder.cpp:109-124 | n clockwise detents emit exactly n CW events, one on every fourth sample. |
| `Decoder.CommentSequenceEmitsNothing` | src/mdRotaryEncoder.cpp:18-24 | The step sequence in the header comment, and its reverse, emit no event under the table. |
| `Position.IncPos` | src/mdRotaryEncoder.cpp:183-194 | Only the position changes. The range invariant is kept. The step reports a change iff the position moved. |
| `Position.DecPos` | src/mdRotaryEncoder.cpp:196-207 | Only the position changes. The range invariant is kept. The step reports a change iff the position moved. |
| `Position.IncPosAtBounds` | src/mdRotaryEncoder.h:88-90 | Bounded, clockwise: below max it is a plain +1. At max with rollover it goes to min and reports a change. At max without rollover it stays and reports none. |
| `Position.DecPosAtBounds` | src/mdRotaryEncoder.h:92-94 | Bounded, counter-clockwise: above min it is a plain -1. At min with rollover it goes to max. At min without rollover it stays and reports none. |
| `Position.StepsAreModular` | src/mdRotaryEncoder.cpp:183-207 | With rollover, the position after a step is min + (position - min +/- 1) mod (max - min + 1). |
| `Position.UnboundedStepsWrap` | src/mdRotaryEncoder.h:72-75 | With min >= max, a step is a wrapping int32 +/-1, always reports a change, and does not depend on rollover. From INT32_MAX clockwise goes to INT32_MIN, and back the other way. |
| `Position.DecPosUndoesIncPos` | src/mdRotaryEncoder.cpp:183-207 | A step that reported a change is undone by the opposite step. |
| `Position.UnboundedIncPosTimes` | src/mdRotaryEncoder.h:84-86 | Unbounded, n clockwise steps add n modulo 2^32. |
| `Position.FiveStepsFromDefault` | src/mdRotaryEncoder.cpp:132-135 | Five clockwise steps from the constructor's values give 5. |
| `Position.SetPosition` | src/mdRotaryEncoder.cpp:226-239 | Only the position changes. Bounded, the result lies in [min, max]. An in-range value, or any value when unbounded, is kept. Below min it becomes max with rollover, else min. Above max it becomes min with rollover, else max. |
| `Position.SetPositionIdempotent` | src/mdRotaryEncoder.cpp:226-239 | With min <= max, the result is valid, and setting the stored position again changes nothing. |
| `Position.StepIsSetNeighbour` | src/mdRotaryEncoder.cpp:183-239 | Below the int32 extremes, a step equals setPosition of the neighbouring value. |
| `Position.SetLimits` | src/mdRotaryEncoder.cpp:241-249 | Rollover is always stored. If min <= max the new bounds are installed and the position is in range, and a position already inside (or any position when min == max) stays put. With min < max, a position below min goes to max with rollover, else to min; one above max goes to min with rollover, else to max. If min > max nothing but rollover changes. min <= max and validity are preserved. |
| `Position.SetLimitsReclamps` | src/mdRotaryEncoder.h:78-80 | Unbounded at 10, setLimits(5, 0, false) gives 5 and setLimits(5, 0, true) gives 0. |
| `Position.IncPosAsWritten` | src/mdRotaryEncoder.cpp:183-194 | `_incPos` as written (wrap, then compare). Only the position changes. |
| `Position.DecPosAsWritten` | src/mdRotaryEncoder.cpp:196-207 | `_decPos` as written (wrap, then compare). Only the position changes. |
| `Position.AsWrittenAgreesAwayFromExtremes` | src/mdRotaryEncoder.cpp:184-198 | The as-written steps equal the corrected ones iff the position is not a bound at the int32 extreme, or rollover lands on that same extreme anyway. |
| `Position.IncPosAsWrittenEscapesRange` | src/mdRotaryEncoder.cpp:184-185 | min=0, max=INT32_MAX, no rollover, at max: the as-written CW step goes to INT32_MIN, outside the range, and reports a change. |
| `Position.DecPosAsWrittenEscapesRange` | src/mdRotaryEncoder.cpp:197-198 | min=INT32_MIN, max=0, no rollover, at min: the as-written CCW step goes to INT32_MAX and reports a change. |
| `EncoderSpec.Init` | src/mdRotaryEncoder.cpp:130-144 | A new object is valid and unbounded, at R_START, with position 0, min 0, max 0, rollover true and no handler. It keeps its pins and mode. |
| `EncoderSpec.Fired` | src/mdRotaryEncoder.cpp:154-162 | No call unless the step changed the position. The direction handler is called iff it is set, at most once and only first; no other direction appears. The position handler, iff set, comes last with the new position. |
| `EncoderSpec.Process` | src/mdRotaryEncoder.cpp:148-166 | Validity is kept. The returned value is the decoded event. NONE changes no position field and fires nothing. CW and CCW step as `_incPos` and `_decPos`. A handler fires only if the position moved: the matching direction handler iff it is set, at most once, then the position handler last with the new position. |
| `EncoderSpec.ProcessRun` | src/mdRotaryEncoder.cpp:148-166 | A sequence of process() calls keeps validity, the mode and the handler slots. |
| `EncoderSpec.ProcessRunEvents` | src/mdRotaryEncoder.cpp:148-149 | The events returned by process() are exactly the decoder's, and so is the final state. The controller never feeds back into decoding. |
| `EncoderSpec.CwDetentStepsOnce` | src/mdRotaryEncoder.cpp:148-158 | In full-step mode one clockwise detent makes exactly one `_incPos` step and fires its handlers once. |
| `EncoderSpec.ClampedStepFiresNothing` | src/mdRotaryEncoder.cpp:185-191 | Bounded at max without rollover, a CW event leaves everything in place and fires no handler. |
| `EncoderSpec.RolloverStepFires` | src/mdRotaryEncoder.cpp:185-187 | Bounded at max with rollover, a CW event goes to min and the position handler receives min. |
| `RotaryEncoder.MdRotary.constructor` | src/mdRotaryEncoder.cpp:130-144 | The fields hold the initial value model, which is valid. |
| `RotaryEncoder.MdRotary.Process` | src/mdRotaryEncoder.cpp:148-166 | The new fields, the returned event and the handler trace are those of `EncoderSpec.Process`. The object invariant is kept. |
| `RotaryEncoder.MdRotary.UpdateRotary` | src/mdRotaryEncoder.cpp:170-177 | The state becomes the table lookup on the pin sample. The result is its emit bits, one of NONE, CW and CCW. |
| `RotaryEncoder.MdRotary.IncPos` | src/mdRotaryEncoder.cpp:183-194 | The fields and result are those of `Position.IncPos` on the old fields. |
| `RotaryEncoder.MdRotary.DecPos` | src/mdRotaryEncoder.cpp:196-207 | The fields and result are those of `Position.DecPos` on the old fields. |
| `RotaryEncoder.MdRotary.Id` | src/mdRotaryEncoder.cpp:179-181 | Returns the data pin and changes nothing. |
| `RotaryEncoder.MdRotary.GetPosition` | src/mdRotaryEncoder.cpp:210-212 | Returns the position and changes nothing. |
| `RotaryEncoder.MdRotary.GetMin` | src/mdRotaryEncoder.cpp:214-216 | Returns min and changes nothing. |
| `RotaryEncoder.MdRotary.GetMax` | src/mdRotaryEncoder.cpp:218-220 | Returns max and changes nothing. |
| `RotaryEncoder.MdRotary.GetRollover` | src/mdRotaryEncoder.cpp:222-224 | Returns rollover and changes nothing. |
| `RotaryEncoder.MdRotary.SetPosition` | src/mdRotaryEncoder.cpp:226-239 | Only the position changes, as `Position.SetPosition` says. The result is the stored position and the object is valid afterwards. |
| `RotaryEncoder.MdRotary.SetLimits` | src/mdRotaryEncoder.cpp:241-249 | The fields change as `Position.SetLimits` says. The result is the stored position and the invariant is kept. |
| `RotaryEncoder.MdRotary.OnButtonRotatedLeft` | src/mdRotaryEncoder.cpp:251-253 | Sets or clears the left-handler slot. |
| `RotaryEncoder.MdRotary.OnButtonRotatedRight` | src/mdRotaryEncoder.cpp:255-257 | Sets or clears the right-handler slot. |
| `RotaryEncoder.MdRotary.OnButtonRotated` | src/mdRotaryEncoder.cpp:259-261 | Sets or clears the position-handler slot. |
| `RotaryEncoder.ReclampExample` | src/mdRotaryEncoder.h:78-82 | Through the class: at 10, setLimits(5, 0, false) returns 5 and setLimits(5, 0, true) returns 0. With min > max, setLimits(1, 7, false) leaves min 0, max 5 and the position 0, and sets rollover to false. |

## Findings

| source | as written | input that shows it | evidently intended | confidence | as-written member | corrected member |
|---|---|---|---|---|---|---|
| src/mdRotaryEncoder.cpp:184-185 | `_position++` wraps before `_position > _max` is tested, so at max = INT32_MAX the test never fires | min = 0, max = 2147483647, rollover = false, position = 2147483647, one CW event | stay at max and return false, with no handler call | not executed; signed overflow is undefined behaviour in C++, and the row assumes the two's-complement wrap the header promises | `Position.IncPosAsWritten` (shown by `Position.IncPosAsWrittenEscapesRange`) | `Position.IncPos` (range kept: its ensures and `Position.IncPosAtBounds`) |
| src/mdRotaryEncoder.cpp:197-198 | `_position--` wraps before `_position < _min` is tested, so at min = INT32_MIN the test never fires | min = -2147483648, max = 0, rollover = false, position = -2147483648, one CCW event | stay at min and return false, with no handler call | not executed; signed overflow is undefined behaviour in C++, and the row assumes the two's-complement wrap the header promises | `Position.DecPosAsWritten` (shown by `Position.DecPosAsWrittenEscapesRange`) | `Position.DecPos` (range kept: its ensures and `Position.DecPosAtBounds`) |

The corrected steps test the bound on the mathematical successor. The int32 wrap
then applies only when the bounds are off. `Position.AsWrittenAgreesAwayFromExtremes`
proves the two versions differ only in these cases. The class `MdRotary` uses the
corrected steps.

## Left out

- GPIO: `pinMode`, `digitalRead` and the pull-up choice in the constructor. The pin levels are parameters of `Process`, and the `enableInternalPullups` argument is not modelled.
- Callbacks: storing and invoking the C function callbacks. Each slot is a presence flag, and `Process` returns the calls it would make, in order, with their argument.
- The constructor leaves the three callback slots uninitialised; they are null only for objects with static storage. The model starts with no handler registered.
- The position handler's argument: `callback_int` takes a C `int`, so the source converts the `int32_t` position to `int` when it calls the handler. That is 16 bits on AVR boards. The model assumes a 32-bit `int` and records the full position in `Rotated`.
- Handlers that act on their own encoder: the source reads `_OnCbRotated` and `_position` again after the direction handler returns. A direction handler that calls `setPosition`, `setLimits` or `onButtonRotated` on the same object would change the position handler's argument, or whether it fires. The model fixes both before either call; handlers are assumed not to touch the object.
- The default arguments of `setLimits` (`min = 0`, `rollover = true`): `SetLimits` always takes all three arguments.
- Re-entrant or interrupt-driven calls of `process()`: this is concurrency, and the model is sequential.
- The unused `_pressed` field.
- The `HALF_STEP` `#define` itself: both tables are modelled, and the choice is the `mode` constant fixed at construction.
- Because the steps are the corrected ones (see Findings), `RotaryEncoder.MdRotary.IncPos` and `RotaryEncoder.MdRotary.DecPos` do not reproduce the source's escape from the range at a bound equal to an int32 extreme.
