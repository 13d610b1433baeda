/**
 * The brightness controller of the dimmer example
 * (examples/dimmer_test/main/dimmer_test.c): the shared globals LEDs and
 * Position, the single-click handler, the position-sampler loop and the
 * long-press velocity loop.
 *
 * The tasks run sequentially here. The change pin is an input sequence of
 * levels, read once at the head of each loop iteration; the pin is active
 * low, and a trace that ends while the pin is still low stops the loop at
 * its end. The sensor reads of the sampler and the values of Position seen
 * by the long-press loop are input sequences too, one element per iteration.
 */
module Dimmer {
  import opened Bytes

  /** A level of the change pin. */
  datatype Level = Low | High

  /** How many iterations a `while (!gpio_get_level(pin))` loop runs over `levels`. */
  function HeldFor(levels: seq<Level>): (n: nat)
    ensures n <= |levels|
    ensures forall i | 0 <= i < n :: levels[i] == Low
    ensures n < |levels| ==> levels[n] == High
  {
    if levels == [] || levels[0] == High then 0
    else
      var rest := HeldFor(levels[1..]);
      assert levels[0] == Low;
      assert forall i | 1 <= i < rest + 1 :: levels[i] == levels[1..][i - 1];
      1 + rest
  }

  // ---------------------------------------------------------------------
  // The long-press step, as pure functions
  // ---------------------------------------------------------------------

  /** The bound checks of the velocity computation, on any int difference. */
  function Guard(d: int): int {
    if d < -256 then -255 else if d > 255 then 255 else d
  }

  /**
   * The velocity of one step. The source subtracts the raw uint8 positions with
   * no wrap-around handling, and for such operands neither bound check fires.
   */
  function Velocity(prev: uint8, curr: uint8): (v: int)
    ensures v == curr - prev
    ensures -255 <= v <= 255
  {
    Guard(curr - prev)
  }

  /** The bound checks on LEDs + velocity: saturate into 0..255. */
  function Saturate(x: int): uint8 {
    if x > 255 then 255 else if x < 0 then 0 else x
  }

  /** The variables the long-press loop carries from one iteration to the next. */
  datatype LoopState = LoopState(leds: uint8, prev: uint8)

  /** One iteration of the long-press loop, reading `curr` from Position. */
  function Step(s: LoopState, curr: uint8): LoopState {
    LoopState(Saturate(s.leds + Velocity(s.prev, curr)), curr)
  }

  /** The loop state after one iteration per element of `samples`, in order. */
  function Run(s: LoopState, samples: seq<uint8>): LoopState
    decreases |samples|
  {
    if samples == [] then s
    else Step(Run(s, samples[..|samples| - 1]), samples[|samples| - 1])
  }

  /** No step of the run leaves 0..255 before saturation. */
  predicate Unsaturated(s: LoopState, samples: seq<uint8>)
    decreases |samples|
  {
    samples == [] ||
    (var before := Run(s, samples[..|samples| - 1]);
     Unsaturated(s, samples[..|samples| - 1]) &&
     0 <= before.leds + (samples[|samples| - 1] - before.prev) <= 255)
  }

  // ---------------------------------------------------------------------
  // Properties of the step and the run
  // ---------------------------------------------------------------------

  /** The saturated value is the value in 0..255 nearest to x. */
  lemma SaturateNearest(x: int, y: int)
    requires 0 <= y <= 255
    ensures 0 <= Saturate(x) <= 255
    ensures 0 <= x <= 255 ==> Saturate(x) == x
    ensures (if Saturate(x) <= x then x - Saturate(x) else Saturate(x) - x)
         <= (if y <= x then x - y else y - x)
  {
  }

  /** LEDs becomes LEDs + velocity when that is in range, 255 above and 0 below. */
  lemma StepLeds(s: LoopState, curr: uint8)
    ensures Step(s, curr).prev == curr
    ensures 0 <= s.leds + (curr - s.prev) <= 255 ==> Step(s, curr).leds == s.leds + (curr - s.prev)
    ensures s.leds + (curr - s.prev) > 255 ==> Step(s, curr).leds == 255
    ensures s.leds + (curr - s.prev) < 0 ==> Step(s, curr).leds == 0
  {
  }

  /** A step that sees the previous position again leaves LEDs as it was. */
  lemma StepStill(s: LoopState)
    ensures Step(s, s.prev) == s
  {
  }

  /** After a run, PrevPosition is the last sample, or the entry position if there was none. */
  lemma RunPrev(s: LoopState, samples: seq<uint8>)
    ensures Run(s, samples).prev == if samples == [] then s.prev else samples[|samples| - 1]
  {
  }

  /** Telescoping: without saturation, LEDs moves by the last sample minus the entry position. */
  lemma {:induction false} RunTelescopes(s: LoopState, samples: seq<uint8>)
    requires Unsaturated(s, samples)
    ensures Run(s, samples).leds ==
      s.leds + (if samples == [] then 0 else samples[|samples| - 1] - s.prev)
  {
    if samples != [] {
      var init := samples[..|samples| - 1];
      RunTelescopes(s, init);
      RunPrev(s, init);
    }
  }

  /** A run whose samples all equal the entry position changes nothing. */
  lemma {:induction false} RunStill(s: LoopState, samples: seq<uint8>)
    requires forall i | 0 <= i < |samples| :: samples[i] == s.prev
    ensures Run(s, samples) == s
  {
    if samples != [] {
      RunStill(s, samples[..|samples| - 1]);
      StepStill(s);
    }
  }

  /** Position 10 held, then moved to 50 and held, from LEDs = 100: LEDs goes 100, 100, 140, 140. */
  lemma ScenarioSlowMove()
    ensures Run(LoopState(100, 10), [10]).leds == 100
    ensures Run(LoopState(100, 10), [10, 10]).leds == 100
    ensures Run(LoopState(100, 10), [10, 10, 50]).leds == 140
    ensures Run(LoopState(100, 10), [10, 10, 50, 50]) == LoopState(140, 50)
  {
    assert [10, 10, 50, 50][..3] == [10, 10, 50];
    assert [10, 10, 50][..2] == [10, 10];
    assert [10, 10][..1] == [10];
  }

  /** A full swipe from LEDs = 200 saturates at 255 rather than reaching 455, and back again at 0. */
  lemma ScenarioSaturation()
    ensures Run(LoopState(200, 0), [255]) == LoopState(255, 255)
    ensures Run(LoopState(200, 0), [255, 0]) == LoopState(0, 0)
  {
    assert [255, 0][..1] == [255];
  }

  // ---------------------------------------------------------------------
  // The globals and the three handlers
  // ---------------------------------------------------------------------

  /** The example's shared globals `LEDs` and `Position`. */
  class Globals {
    var leds: uint8
    var position: uint8

    /** Both globals start at 0. */
    constructor ()
      ensures leds == 0 && position == 0
    {
      leds := 0;
      position := 0;
    }

    /** _single_click_event: LEDs takes the current Position; nothing else changes. */
    method SingleClick()
      modifies this
      ensures leds == old(position)
      ensures position == old(position)
    {
      leds := position;
    }

    /**
     * _track_slider_position: while the pin is low, one position read per
     * iteration, stored in Position. `sensorReads` holds the values the sensor
     * returns; `written` is the sequence of values stored into Position.
     */
    method TrackSliderPosition(levels: seq<Level>, sensorReads: seq<uint8>) returns (ghost written: seq<uint8>)
      requires HeldFor(levels) <= |sensorReads|
      modifies this
      ensures written == sensorReads[..HeldFor(levels)]
      ensures position == if written == [] then old(position) else written[|written| - 1]
      ensures leds == old(leds)
    {
      written := [];
      var i := 0;
      while i < |levels| && levels[i] == Low
        invariant 0 <= i <= HeldFor(levels)
        invariant written == sensorReads[..i]
        invariant position == if i == 0 then old(position) else sensorReads[i - 1]
        invariant leds == old(leds)
      {
        position := sensorReads[i];
        written := written + [position];
        i := i + 1;
      }
    }

    /**
     * _long_press_event: PrevPosition starts as Position; each iteration
     * while the pin is low reads Position (the next element of `samples`),
     * computes the bounded velocity, saturates LEDs + velocity into 0..255
     * and remembers the position. `prev` is PrevPosition at loop exit.
     */
    method LongPress(levels: seq<Level>, samples: seq<uint8>) returns (ghost prev: uint8)
      requires HeldFor(levels) <= |samples|
      modifies this
      ensures LoopState(leds, prev) == Run(LoopState(old(leds), old(position)), samples[..HeldFor(levels)])
      ensures position == old(position)
    {
      var velocity: int := 0;
      var prevPosition: uint8 := position;
      var currPosition: uint8;
      var i := 0;
      while i < |levels| && levels[i] == Low
        invariant 0 <= i <= HeldFor(levels)
        invariant LoopState(leds, prevPosition) == Run(LoopState(old(leds), old(position)), samples[..i])
        invariant position == old(position)
      {
        currPosition := samples[i];
        if currPosition - prevPosition < -256 {
          velocity := -255;
        } else if currPosition - prevPosition > 255 {
          velocity := 255;
        } else {
          velocity := currPosition - prevPosition;
        }

        if leds + velocity > 255 {
          leds := 255;
        } else if leds + velocity < 0 {
          leds := 0;
        } else {
          leds := leds + velocity;
        }

        prevPosition := currPosition;
        assert samples[..i + 1][..i] == samples[..i];
        i := i + 1;
      }
      prev := prevPosition;
    }
  }

  /** If the pin is already high on entry (or the trace is empty), neither loop runs an iteration. */
  lemma ReleasedOnEntry(levels: seq<Level>)
    requires levels == [] || levels[0] == High
    ensures HeldFor(levels) == 0
  {
  }
}
