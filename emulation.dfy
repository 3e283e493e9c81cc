/** The emulator front end: paces the machine against the clock, presents
    its frames in a pixel buffer and routes key presses to game pad 1. */
module Emulation {
  import opened Video
  import opened Core

  const U64_MAX: nat := 0xFFFF_FFFF_FFFF_FFFF
  type U64 = x: nat | x <= U64_MAX

  /** A clock reading in nanoseconds. */
  type Nanos = U64

  type CycleTime = t: nat | t >= 1 witness 1

  /** Nanoseconds per emulated CPU cycle; its value is not part of this model. */
  const CPU_CYCLE_TIME_NS: CycleTime

  /** A host key code. */
  type KeyCode = nat

  /** The cycle count that `elapsedNs` nanoseconds of emulated time call for:
      the number of whole cycle periods that fit in it. */
  function TargetCycles(elapsedNs: nat, period: CycleTime): (target: nat)
    ensures target * period <= elapsedNs < (target + 1) * period
  {
    elapsedNs / period
  }

  /** A later clock reading never asks for fewer cycles. */
  lemma TargetCyclesMonotone(elapsed1: nat, elapsed2: nat, period: CycleTime)
    requires elapsed1 <= elapsed2
    ensures TargetCycles(elapsed1, period) <= TargetCycles(elapsed2, period)
  {
    var q1, q2 := elapsed1 / period, elapsed2 / period;
    if q1 > q2 {
      calc {
        elapsed2;
      <  (q2 + 1) * period;
      <= q1 * period;
      <= elapsed1;
      }
    }
  }

  /** With two or more nanoseconds per cycle, no u64 clock reading asks for
      a target within one step of the u64 limit. */
  lemma HeadroomWhenPeriodAtLeastTwo(elapsedNs: U64, period: CycleTime)
    requires period >= 2
    ensures TargetCycles(elapsedNs, period) <= U64_MAX - U32_MAX
  {
    var q := elapsedNs / period;
    assert q * 2 <= q * period <= elapsedNs;
  }

  /** Cycles and step calls counted by the pacer. */
  datatype Progress = Progress(cycles: nat, steps: nat)

  /** The pacing loop as a function: from `cycles` cycles after `steps` step
      calls, keep stepping until the count reaches `target`. */
  function CatchUp(cycles: nat, target: nat, behaviour: Behaviour, pad: set<Button>, steps: nat): (r: Progress)
    ensures r.cycles >= cycles && r.cycles >= target && r.steps >= steps
    decreases target - cycles
  {
    if cycles >= target then Progress(cycles, steps)
    else CatchUp(cycles + behaviour(steps, pad).cycles, target, behaviour, pad, steps + 1)
  }

  /** The total cycles reported by steps `lo` up to `hi`. */
  function CyclesOf(behaviour: Behaviour, pad: set<Button>, lo: nat, hi: nat): nat
    decreases hi - lo
  {
    if hi <= lo then 0 else CyclesOf(behaviour, pad, lo, hi - 1) + behaviour(hi - 1, pad).cycles
  }

  /** Every step costs at least one cycle, so cycles outnumber steps. */
  lemma {:induction false} CyclesOfAtLeastSteps(behaviour: Behaviour, pad: set<Button>, lo: nat, hi: nat)
    requires lo <= hi
    ensures CyclesOf(behaviour, pad, lo, hi) >= hi - lo
    decreases hi
  {
    if lo < hi {
      CyclesOfAtLeastSteps(behaviour, pad, lo, hi - 1);
    }
  }

  /** Splitting off the first step of a run. */
  lemma {:induction false} CyclesOfFirst(behaviour: Behaviour, pad: set<Button>, lo: nat, hi: nat)
    requires lo < hi
    ensures CyclesOf(behaviour, pad, lo, hi) == behaviour(lo, pad).cycles + CyclesOf(behaviour, pad, lo + 1, hi)
    decreases hi
  {
    if lo + 1 < hi {
      CyclesOfFirst(behaviour, pad, lo, hi - 1);
    }
  }

  /** The cycles gained by catching up are exactly the cycles the steps taken report. */
  lemma {:induction false} CatchUpAccounts(cycles: nat, target: nat, behaviour: Behaviour, pad: set<Button>, steps: nat)
    ensures var r := CatchUp(cycles, target, behaviour, pad, steps);
      r.cycles == cycles + CyclesOf(behaviour, pad, steps, r.steps)
    decreases target - cycles
  {
    if cycles < target {
      var next := cycles + behaviour(steps, pad).cycles;
      CatchUpAccounts(next, target, behaviour, pad, steps + 1);
      CyclesOfFirst(behaviour, pad, steps, CatchUp(next, target, behaviour, pad, steps + 1).steps);
    }
  }

  /** If the count is short of the target, at least one step runs, and the
      count ends less than the last step's cost past the target. */
  lemma {:induction false} CatchUpOvershoot(cycles: nat, target: nat, behaviour: Behaviour, pad: set<Button>, steps: nat)
    requires cycles < target
    ensures var r := CatchUp(cycles, target, behaviour, pad, steps);
      r.steps > steps && r.cycles < target + behaviour(r.steps - 1, pad).cycles
    decreases target - cycles
  {
    var next := cycles + behaviour(steps, pad).cycles;
    if next < target {
      CatchUpOvershoot(next, target, behaviour, pad, steps + 1);
    }
  }

  /** Catching up to `target1` and then to a later `target2` ends where
      catching up to `target2` in one go does. */
  lemma {:induction false} CatchUpCompose(cycles: nat, target1: nat, target2: nat, behaviour: Behaviour, pad: set<Button>, steps: nat)
    requires target1 <= target2
    ensures var mid := CatchUp(cycles, target1, behaviour, pad, steps);
      CatchUp(mid.cycles, target2, behaviour, pad, mid.steps) == CatchUp(cycles, target2, behaviour, pad, steps)
    decreases target1 - cycles
  {
    if cycles < target1 {
      CatchUpCompose(cycles + behaviour(steps, pad).cycles, target1, target2, behaviour, pad, steps + 1);
    }
  }

  /** Where a run of the pacing loop stops: once the count has reached the
      target, the loop's progress is what catching up from the start gives.
      The cycles gained are the steps' reported costs; some step ran exactly
      when the start was short of the target, and then the last one carried
      the count past it. */
  lemma CatchUpDone(cycles0: nat, steps0: nat, cycles: nat, steps: nat, target: nat, behaviour: Behaviour, pad: set<Button>)
    requires cycles >= target
    requires CatchUp(cycles, target, behaviour, pad, steps) == CatchUp(cycles0, target, behaviour, pad, steps0)
    ensures Progress(cycles, steps) == CatchUp(cycles0, target, behaviour, pad, steps0)
    ensures cycles0 >= target ==> cycles == cycles0 && steps == steps0
    ensures cycles == cycles0 + CyclesOf(behaviour, pad, steps0, steps)
    ensures cycles0 < target ==> steps > steps0 && cycles < target + behaviour(steps - 1, pad).cycles
  {
    CatchUpAccounts(cycles0, target, behaviour, pad, steps0);
    if cycles0 < target {
      CatchUpOvershoot(cycles0, target, behaviour, pad, steps0);
    }
  }

  /** At 1000 ns per cycle, a clock reading 5000 ns past the epoch from a
      fresh start brings the count to at least five cycles, in at most five steps. */
  lemma FiveMicrosecondsAtOneMegahertz(behaviour: Behaviour, pad: set<Button>)
    ensures var r := CatchUp(0, TargetCycles(5000, 1000), behaviour, pad, 0);
      r.cycles >= 5 && r.steps <= 5
  {
    var r := CatchUp(0, 5, behaviour, pad, 0);
    CatchUpAccounts(0, 5, behaviour, pad, 0);
    CatchUpOvershoot(0, 5, behaviour, pad, 0);
    CyclesOfAtLeastSteps(behaviour, pad, 0, r.steps - 1);
    assert CyclesOf(behaviour, pad, 0, r.steps) == CyclesOf(behaviour, pad, 0, r.steps - 1) + behaviour(r.steps - 1, pad).cycles;
  }

  /** The screen buffer after steps `lo` up to `hi`, each writing its frame in turn. */
  ghost function Presented(pixels: seq<bv8>, behaviour: Behaviour, pad: set<Button>, lo: nat, hi: nat): (after: seq<bv8>)
    requires |pixels| == PIXEL_BUFFER_LEN
    ensures |after| == PIXEL_BUFFER_LEN
    decreases hi - lo
  {
    if hi <= lo then pixels else AfterStep(Presented(pixels, behaviour, pad, lo, hi - 1), behaviour(hi - 1, pad))
  }

  /** The audio sink the emulator hands to the machine: it discards every sample. */
  class NullAudioSink {
    constructor ()
    {
    }

    /** Discards `sample`; the f32 value is not inspected. */
    method WriteSample(sample: real)
      ensures SamplesWritten() == 0
    {
    }

    function SamplesWritten(): (count: nat)
      ensures count == 0
    {
      0
    }
  }

  class Emulator {
    const nes: Nes
    var startTimeNs: Nanos
    var emulatedCycles: U64
    var emulatedInstructions: U64
    const keymap: map<KeyCode, Button>
    const pixels: array<bv8>

    /** The buffer has the screen's size, and every instruction took at least one cycle. */
    ghost predicate Valid()
      reads this
    {
      pixels.Length == PIXEL_BUFFER_LEN && emulatedInstructions <= emulatedCycles
    }

    /** A session for the freshly built machine `nes` whose epoch is the
        clock reading `now`. */
    constructor (nes: Nes, keymap: map<KeyCode, Button>, now: Nanos)
      requires nes.steps == 0 && nes.gamePad1 == {}
      ensures Valid()
      ensures this.nes == nes && this.keymap == keymap
      ensures startTimeNs == now && emulatedCycles == 0 && emulatedInstructions == 0
      ensures fresh(pixels) && pixels.Length == SCREEN_WIDTH * SCREEN_HEIGHT * 4
      ensures forall k :: 0 <= k < pixels.Length ==> pixels[k] == 0
    {
      this.nes := nes;
      startTimeNs := now;
      emulatedCycles := 0;
      emulatedInstructions := 0;
      this.keymap := keymap;
      pixels := new bv8[PIXEL_BUFFER_LEN](_ => 0);
    }

    /** Steps the machine until the cycle count reaches the target that the
        clock reading `now` calls for, presenting frames as they complete. */
    method Tick(now: Nanos)
      requires Valid()
      requires startTimeNs <= now
      requires TargetCycles(now - startTimeNs, CPU_CYCLE_TIME_NS) <= U64_MAX - U32_MAX
      modifies this`emulatedCycles, this`emulatedInstructions, nes`steps, pixels
      ensures Valid() && startTimeNs == old(startTimeNs)
      ensures var target, behaviour, pad := TargetCycles(now - startTimeNs, CPU_CYCLE_TIME_NS), nes.behaviour, nes.gamePad1;
        Progress(emulatedCycles, nes.steps) == CatchUp(old(emulatedCycles), target, behaviour, pad, old(nes.steps)) &&
        emulatedCycles >= target && emulatedCycles >= old(emulatedCycles) &&
        emulatedCycles == old(emulatedCycles) + CyclesOf(behaviour, pad, old(nes.steps), nes.steps) &&
        emulatedInstructions == old(emulatedInstructions) + (nes.steps - old(nes.steps)) &&
        (old(emulatedCycles) < target ==>
          nes.steps > old(nes.steps) && emulatedCycles < target + behaviour(nes.steps - 1, pad).cycles) &&
        (old(emulatedCycles) >= target ==>
          emulatedCycles == old(emulatedCycles) && emulatedInstructions == old(emulatedInstructions) &&
          nes.steps == old(nes.steps) && pixels[..] == old(pixels[..])) &&
        pixels[..] == Presented(old(pixels[..]), behaviour, pad, old(nes.steps), nes.steps)
    {
      var videoSink := new VideoFrameSink(pixels);

      var targetTimeNs := now - startTimeNs;
      var targetCycles := targetTimeNs / CPU_CYCLE_TIME_NS;

      StepUntil(targetCycles, videoSink);
      CatchUpDone(old(emulatedCycles), old(nes.steps), emulatedCycles, nes.steps, targetCycles, nes.behaviour, nes.gamePad1);
    }

    /** The stepping loop of a tick: steps the machine through `videoSink`
        until the cycle count reaches `targetCycles`. */
    method StepUntil(targetCycles: nat, videoSink: VideoFrameSink)
      requires Valid() && videoSink.pixels == pixels
      requires targetCycles <= U64_MAX - U32_MAX
      modifies this`emulatedCycles, this`emulatedInstructions, nes`steps, pixels, videoSink
      ensures Valid()
      ensures var behaviour, pad := nes.behaviour, nes.gamePad1;
        emulatedCycles >= targetCycles &&
        CatchUp(emulatedCycles, targetCycles, behaviour, pad, nes.steps)
          == CatchUp(old(emulatedCycles), targetCycles, behaviour, pad, old(nes.steps)) &&
        emulatedInstructions == old(emulatedInstructions) + (nes.steps - old(nes.steps)) &&
        pixels[..] == Presented(old(pixels[..]), behaviour, pad, old(nes.steps), nes.steps)
    {
      ghost var behaviour, pad := nes.behaviour, nes.gamePad1;
      ghost var steps0, pixels0 := nes.steps, pixels[..];

      while emulatedCycles < targetCycles
        invariant emulatedInstructions <= emulatedCycles
        invariant nes.steps >= steps0
        invariant emulatedInstructions == old(emulatedInstructions) + (nes.steps - steps0)
        invariant CatchUp(emulatedCycles, targetCycles, behaviour, pad, nes.steps)
          == CatchUp(old(emulatedCycles), targetCycles, behaviour, pad, steps0)
        invariant pixels[..] == Presented(pixels0, behaviour, pad, steps0, nes.steps)
        decreases targetCycles - emulatedCycles
      {
        var cycles := nes.Step(videoSink);
        emulatedCycles := emulatedCycles + cycles;
        emulatedInstructions := emulatedInstructions + 1;
      }
    }

    /** The presented buffer, as the presentation layer reads it. */
    method Pixels() returns (buffer: array<bv8>)
      ensures buffer == pixels
    {
      buffer := pixels;
    }

    method KeyDown(keyCode: KeyCode)
      modifies nes`gamePad1
      ensures keyCode in keymap ==> nes.gamePad1 == old(nes.gamePad1) + {keymap[keyCode]}
      ensures keyCode !in keymap ==> nes.gamePad1 == old(nes.gamePad1)
    {
      SetButtonPressed(keyCode, true);
    }

    method KeyUp(keyCode: KeyCode)
      modifies nes`gamePad1
      ensures keyCode in keymap ==> nes.gamePad1 == old(nes.gamePad1) - {keymap[keyCode]}
      ensures keyCode !in keymap ==> nes.gamePad1 == old(nes.gamePad1)
    {
      SetButtonPressed(keyCode, false);
    }

    /** Routes a key through the keymap to game pad 1; an unmapped key does nothing. */
    method SetButtonPressed(keyCode: KeyCode, pressed: bool)
      modifies nes`gamePad1
      ensures keyCode in keymap ==>
        nes.gamePad1 == if pressed then old(nes.gamePad1) + {keymap[keyCode]} else old(nes.gamePad1) - {keymap[keyCode]}
      ensures keyCode !in keymap ==> nes.gamePad1 == old(nes.gamePad1)
    {
      if keyCode in keymap {
        nes.SetButtonPressed(keymap[keyCode], pressed);
      }
    }
  }
}
