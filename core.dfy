/** The boundary with the emulated machine. The machine itself (CPU, PPU,
    APU, cartridge) lives outside this model; what the front end sees of it
    is the cost and the video output of each step, and the state of the
    first game pad. */
module Core {
  import opened Video

  /** The screen size of the picture processing unit; its values are not part of this model. */
  const SCREEN_WIDTH: nat
  const SCREEN_HEIGHT: nat

  /** Length of the presented pixel buffer: four bytes per screen pixel. */
  const PIXEL_BUFFER_LEN: nat := SCREEN_WIDTH * SCREEN_HEIGHT * PIXEL_SIZE

  const U32_MAX: nat := 0xFFFF_FFFF

  /** The cycle cost one step reports: positive, and a 32-bit value. */
  type StepCost = c: nat | 1 <= c <= U32_MAX witness 1

  datatype Button = A | B | Select | Start | Up | Down | Left | Right

  datatype Option<T> = None | Some(value: T)

  /** What one call of the step primitive does as seen from the front end:
      the cycles it reports and the completed frame, if any, that it hands
      to the video sink. */
  datatype StepEffect = StepEffect(cycles: StepCost, frame: Option<seq<bv8>>)

  /** A step whose frame, if any, fits the screen buffer and the palette. */
  type CoreStep = e: StepEffect | e.frame.None? || ValidFrame(e.frame.value, PIXEL_BUFFER_LEN)
    witness StepEffect(1, None)

  /** The step primitive's behaviour: the effect of the k-th step taken while
      the game pad holds `pad`. */
  type Behaviour = (nat, set<Button>) -> CoreStep

  /** The screen buffer after one step: the step's frame, if it has one, is written into it. */
  ghost function AfterStep(pixels: seq<bv8>, effect: CoreStep): (after: seq<bv8>)
    requires |pixels| == PIXEL_BUFFER_LEN
    ensures |after| == PIXEL_BUFFER_LEN
  {
    match effect.frame
    case None => pixels
    case Some(frame) => Rendered(pixels, frame)
  }

  /** Stand-in for the machine: its k-th step, taken while the game pad holds
      the buttons `pad`, has the effect `behaviour(k, pad)`. */
  class Nes {
    const behaviour: Behaviour
    /** Step calls so far. */
    var steps: nat
    /** Buttons currently held on game pad 1. */
    var gamePad1: set<Button>

    constructor (behaviour: Behaviour)
      ensures this.behaviour == behaviour && steps == 0 && gamePad1 == {}
    {
      this.behaviour := behaviour;
      steps := 0;
      gamePad1 := {};
    }

    /** Executes one instruction, hands a completed frame to `videoSink`, and
        reports the cycles it took. */
    method Step(videoSink: VideoFrameSink) returns (cycles: StepCost)
      requires videoSink.pixels.Length == PIXEL_BUFFER_LEN
      modifies this`steps, videoSink, videoSink.pixels
      ensures steps == old(steps) + 1
      ensures cycles == behaviour(old(steps), gamePad1).cycles
      ensures videoSink.pixels[..] == AfterStep(old(videoSink.pixels[..]), behaviour(old(steps), gamePad1))
      ensures videoSink.frameWritten == (old(videoSink.frameWritten) || behaviour(old(steps), gamePad1).frame.Some?)
    {
      var effect := behaviour(steps, gamePad1);
      if effect.frame.Some? {
        videoSink.WriteFrame(effect.frame.value);
      }
      steps := steps + 1;
      cycles := effect.cycles;
    }

    /** Presses or releases one button of game pad 1. */
    method SetButtonPressed(button: Button, pressed: bool)
      modifies this`gamePad1
      ensures gamePad1 == if pressed then old(gamePad1) + {button} else old(gamePad1) - {button}
    {
      if pressed {
        gamePad1 := gamePad1 + {button};
      } else {
        gamePad1 := gamePad1 - {button};
      }
    }
  }
}
