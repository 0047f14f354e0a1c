/** Frame pacing in UpdateGame: busy-wait until 16 ms have passed since the
    last frame, measure the elapsed milliseconds, clamp them at 50 ms, and
    record the clock for the next frame. The clock is SDL_GetTicks, an
    unsigned 32-bit millisecond counter; the model receives the successive
    values it returns as a sequence. */
module FrameTiming {

  const TicksModulus: int := 0x1_0000_0000
  const HalfRange: int := 0x8000_0000

  /** A Uint32 value returned by SDL_GetTicks. */
  type Ticks = t: int | 0 <= t < 0x1_0000_0000

  /** The minimum frame length the wait enforces, in ms. */
  const FrameMs: Ticks := 16
  /** The largest delta handed to the actors, in ms (0.05 s). */
  const MaxDeltaMs: nat := 50

  /** Uint32 subtraction, wrapping around. */
  function Minus(a: Ticks, b: Ticks): Ticks
  {
    (a - b) % TicksModulus
  }

  /** Uint32 addition, wrapping around. */
  function Plus(a: Ticks, b: Ticks): Ticks
  {
    (a + b) % TicksModulus
  }

  /** SDL_TICKS_PASSED(a, b): (Sint32)(b - a) <= 0. */
  predicate TicksPassed(a: Ticks, b: Ticks)
  {
    var d := Minus(b, a);
    d == 0 || d >= HalfRange
  }

  /** `deltaTime > 0.05f ? 0.05f : deltaTime` on whole milliseconds. For an
      integral millisecond count m, m / 1000.0f > 0.05f holds exactly when m > 50. */
  function ClampDelta(elapsed: Ticks): (d: nat)
  {
    if elapsed > MaxDeltaMs then MaxDeltaMs else elapsed
  }

  /** The clamp returns min(elapsed, 50): never more than 50, and the elapsed
      time itself whenever that is within the bound. */
  lemma ClampDeltaIsMin(elapsed: Ticks)
    ensures ClampDelta(elapsed) <= MaxDeltaMs
    ensures ClampDelta(elapsed) <= elapsed
    ensures ClampDelta(elapsed) == elapsed || ClampDelta(elapsed) == MaxDeltaMs
  {
  }

  /** Some reading of the clock passes `target` early enough for the two
      further readings UpdateGame takes after the wait. */
  predicate Reaches(clock: seq<Ticks>, target: Ticks)
  {
    exists i :: 0 <= i < |clock| - 2 && TicksPassed(clock[i], target)
  }

  /** The reading at which the busy-wait loop stops: the first that passes. */
  function FirstPass(clock: seq<Ticks>, target: Ticks): (w: nat)
    requires Reaches(clock, target)
    ensures w < |clock| - 2 && TicksPassed(clock[w], target)
    ensures forall j :: 0 <= j < w ==> !TicksPassed(clock[j], target)
    decreases |clock|
  {
    if TicksPassed(clock[0], target) then 0
    else
      assert Reaches(clock[1..], target) by {
        var i :| 0 <= i < |clock| - 2 && TicksPassed(clock[i], target);
        assert i != 0 && clock[1..][i - 1] == clock[i];
      }
      1 + FirstPass(clock[1..], target)
  }

  /** The delta handed to the actors and the new mTicksCount. */
  datatype Frame = Frame(deltaMs: nat, ticksCount: Ticks)

  /** One frame's pacing from the previous tick count `last`: wait until a
      reading passes last + 16, take the next reading for the delta, and the
      one after that as the new tick count. */
  function FramePacing(last: Ticks, clock: seq<Ticks>): Frame
    requires Reaches(clock, Plus(last, FrameMs))
  {
    var w := FirstPass(clock, Plus(last, FrameMs));
    Frame(ClampDelta(Minus(clock[w + 1], last)), clock[w + 2])
  }

  /** The clock never runs backwards over the readings. */
  predicate Monotone(clock: seq<Ticks>)
  {
    forall i, j :: 0 <= i < j < |clock| ==> clock[i] <= clock[j]
  }

  /** Without a wrap of the 32-bit counter, a reading passes last + 16 exactly
      when at least 16 ms have gone by. */
  lemma PassedMeansSixteen(last: Ticks, r: Ticks)
    requires last + FrameMs < TicksModulus
    requires last <= r
    requires TicksPassed(r, Plus(last, FrameMs))
    ensures r >= last + FrameMs
  {
  }

  /** On a clock that moves forward and does not wrap, the delta of a frame is
      at least the 16 ms the wait enforces and at most the 50 ms clamp. */
  lemma FrameDeltaBounds(last: Ticks, clock: seq<Ticks>)
    requires Reaches(clock, Plus(last, FrameMs))
    requires last + FrameMs < TicksModulus
    requires Monotone(clock)
    requires forall i :: 0 <= i < |clock| ==> last <= clock[i]
    ensures FrameMs <= FramePacing(last, clock).deltaMs <= MaxDeltaMs
  {
    var w := FirstPass(clock, Plus(last, FrameMs));
    PassedMeansSixteen(last, clock[w]);
    assert clock[w] <= clock[w + 1];
    assert Minus(clock[w + 1], last) == clock[w + 1] - last;
  }
}
