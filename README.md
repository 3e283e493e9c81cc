# Pacing and presentation core of rustednes-cosmic

rustednes-cosmic is a desktop front end for an NES emulator. Once per display
refresh, `Emulator::tick` reads the clock and turns the time since the
session's epoch into a target CPU cycle count. It then steps the emulated
machine until the cycle counter reaches that target. While stepping, the
machine hands each completed frame to a `VideoFrameSink`. The sink expands
the frame's palette indices into a 4-byte-per-pixel buffer (red, green,
blue, then a constant alpha of `0x77`) that the window presents. Key events
go through a keymap to the buttons of game pad 1.

The project has three modules:

- `Video` (`video.dfy`) models `VideoFrameSink`. `src/video.rs` and
  `src/emulator.rs:95-132` hold two copies of it, identical up to the
  `PixelBuffer` alias for `[u8]`, and this one model stands for both. In the table below, rows cite one copy or the
  other. `Rendered` is a declarative reference for the buffer after a frame
  is written. `WriteFrame` runs the source's in-place loop over a
  `array<bv8>` and is proved equal to `Rendered`. The lemmas state what
  `Rendered` means: the per-pixel bytes, the alpha byte, the untouched tail,
  idempotence and full overwrite.
- `Core` (`core.dfy`) is the boundary with the emulated machine, which lives
  in an external crate. `Nes` is a stand-in: its k-th step, taken while the
  game pad holds the buttons `pad`, has the effect `behaviour(k, pad)`. That
  effect is a positive 32-bit cycle cost plus an optional frame that fits the
  screen buffer and the palette. `Step` hands that frame to the video sink.
- `Emulation` (`emulation.dfy`) models `Emulator` and `NullAudioSink`.
  `CatchUp` is the pacing loop written as a function. `Emulator.StepUntil` is
  the source's `while` loop over the `u64` counters, proved to end in the
  state `CatchUp` gives, and `Emulator.Tick` computes the target and runs it. The lemmas about `CatchUp` state the pacing guarantees:
  it reaches the target, it overshoots by less than the last step's cost,
  its cycles are the sum of the reported costs, and catching up in two ticks
  equals catching up in one.

The clock (`SystemTimeSource::time_ns`) is not modelled. Its reading arrives
as the parameter `now` of the constructor and of `Tick`. The counters and
clock readings have the type `U64` (0 to 2^64-1), so a `u64` overflow would
be a verification failure. The truncating `as u8` casts are written out as
masks.

`src/emulator.rs` and `src/video.rs` implement no pause/resume with a shifted
epoch, no reset, no audio-clock time source and no sample ring buffer; the
model has only the system clock and the no-op `NullAudioSink`.

## Model

| member | source | states |
|---|---|---|
| `Video.Red` | src/video.rs:25 | The byte is bits 23..16 of the colour: shifted back into place it equals the colour masked with `0x00FF0000`. |
| `Video.Green` | src/video.rs:26 | The byte is bits 15..8 of the colour: shifted back into place it equals the colour masked with `0x0000FF00`. |
| `Video.Blue` | src/video.rs:27 | The byte is bits 7..0 of the colour, the colour masked with `0xFF`. |
| `Video.ChannelsRecoverColour` | src/video.rs:25-27 | The three bytes written for a colour reassemble to its low 24 bits, so only the unused top byte is dropped. |
| `Video.ValidFrame` | src/video.rs:22-28 | A frame can be written without an out-of-bounds index exactly when, for every pixel i, offset 4i+3 is inside the buffer and the palette index is inside the palette. |
| `Video.Channel` | src/video.rs:22-28 | Bytes 0, 1 and 2 of an expanded pixel are the red, green and blue bytes of its palette colour, and byte 3 is the alpha constant 0x77. |
| `Video.Rendered` | src/video.rs:21-29 | Writing a frame keeps the buffer's length. It is the reference for the buffer contents after `write_frame`. |
| `Video.RenderedPixel` | src/emulator.rs:112-121 | For pixel i, bytes 4i, 4i+1 and 4i+2 are `(p>>16)&0xFF`, `(p>>8)&0xFF` and `p&0xFF` of `p = XRGB8888_PALETTE[frame[i]]`, and byte 4i+3 is 0x77. |
| `Video.RenderedKeepsTail` | src/video.rs:21-29 | Bytes at offsets of 4*len(frame) or more keep their old values. |
| `Video.RenderedIdempotent` | src/video.rs:20-31 | Writing a frame twice leaves the buffer exactly as writing it once. |
| `Video.RenderedFullOverwrite` | src/emulator.rs:112-123 | A frame covering the whole buffer gives the same buffer whatever it held before. |
| `Video.VideoFrameSink.constructor` | src/video.rs:11-16 | A new sink borrows the given buffer and has `frame_written` false. |
| `Video.VideoFrameSink.WriteFrame` | src/video.rs:20-31 | Given a frame that fits the buffer and the palette, the in-place loop leaves the buffer equal to `Rendered(old buffer, frame)` and sets `frame_written`, also for an empty frame. |
| `Video.VideoFrameSink.FrameWritten` | src/video.rs:33-35 | Returns the `frame_written` flag. |
| `Video.VideoFrameSink.PixelSize` | src/video.rs:37-39 | The pixel size is 4 bytes, the size of a u32, one byte per channel the loop writes. |
| `Core.AfterStep` | src/emulator.rs:53 | A step that completes a frame writes it into the screen buffer. A step without a frame leaves the buffer as it was. The length is kept. |
| `Core.Nes.constructor` | src/emulator.rs:35 | A fresh machine has taken no steps and holds no buttons. |
| `Core.Nes.Step` | src/emulator.rs:53 | One step reports its positive u32 cycle cost, writes its frame (if any) through the sink, and advances the step count by one. |
| `Core.Nes.SetButtonPressed` | src/emulator.rs:74-78 | Pressing adds the button to game pad 1's held set. Releasing removes it. |
| `Emulation.TargetCycles` | src/emulator.rs:50 | The target is the whole number of cycle periods in the elapsed time: `target * period <= elapsed < (target + 1) * period`. |
| `Emulation.TargetCyclesMonotone` | src/emulator.rs:49-50 | A later clock reading never gives a smaller target cycle count. |
| `Emulation.HeadroomWhenPeriodAtLeastTwo` | src/emulator.rs:16 | When the cycle period is at least 2 ns, every u64 clock reading gives a target at least one maximal step below 2^64, so `Tick`'s no-overflow requirement always holds. The period is `(1e9 / CPU_FREQUENCY) as u64 + 1`, which is at least 2 for any frequency up to 1 GHz. |
| `Emulation.CatchUp` | src/emulator.rs:52-57 | The pacing loop ends with the cycle count at or above both its start and the target, and the step count never goes down. Termination holds because every step costs at least one cycle. |
| `Emulation.CyclesOfAtLeastSteps` | src/emulator.rs:53-56 | A run of steps reports at least as many cycles as it has steps, so the instruction count never exceeds the cycle count. |
| `Emulation.CatchUpAccounts` | src/emulator.rs:53-56 | The cycles gained are exactly the sum of the cycle costs the steps reported. |
| `Emulation.CatchUpOvershoot` | src/emulator.rs:52-55 | When the count starts below the target, at least one step runs, and the count ends less than the last step's cost above the target. |
| `Emulation.CatchUpCompose` | src/emulator.rs:46-58 | Catching up to one target and then to a later one ends in the same state as catching up to the later target directly. |
| `Emulation.CatchUpDone` | src/emulator.rs:52-57 | Once the loop has stopped while keeping `CatchUp`'s result unchanged, its state is that result: cycles are the start plus the reported costs, nothing changed if the target was already met, and otherwise at least one step ran and the overshoot is below its cost. |
| `Emulation.FiveMicrosecondsAtOneMegahertz` | src/emulator.rs:49-55 | At 1000 ns per cycle, starting at epoch 0 with no cycles, a reading of 5000 ns leads to at least 5 cycles in at most 5 steps. |
| `Emulation.Presented` | src/emulator.rs:47-53 | The screen buffer after a run of steps keeps its length. It is the reference for the buffer after each step's frame is written in turn. |
| `Emulation.NullAudioSink.WriteSample` | src/emulator.rs:86-88 | Writing a sample changes nothing, and the written-sample count stays 0. |
| `Emulation.NullAudioSink.SamplesWritten` | src/emulator.rs:90-92 | The null sink always reports 0 samples written. |
| `Emulation.Emulator.constructor` | src/emulator.rs:30-44 | Given a freshly built machine (no steps taken, no buttons held), a new emulator has epoch equal to the clock reading at construction and both counters at 0. Its pixel buffer is fresh, holds SCREEN_WIDTH*SCREEN_HEIGHT*4 bytes, and every byte is zero. |
| `Emulation.Emulator.Tick` | src/emulator.rs:46-58 | For a reading `now` at or after the epoch, the new counters are `CatchUp` of the old ones toward `(now - start) / CPU_CYCLE_TIME_NS`. Cycles reach the target and never decrease. Instructions grow by exactly the number of steps, and cycles by exactly the sum of their costs. If any step ran, the overshoot is below the last step's cost. If the target was already met, nothing changes. The buffer holds each step's frame written in turn. The epoch and the invariant instructions <= cycles are kept. |
| `Emulation.Emulator.StepUntil` | src/emulator.rs:52-57 | The loop ends with cycles at or above the target, keeps `CatchUp`'s result unchanged, grows instructions by exactly the number of steps, leaves the buffer holding each step's frame written in turn, and keeps instructions <= cycles. |
| `Emulation.Emulator.Pixels` | src/emulator.rs:60-62 | Returns the emulator's own pixel buffer. |
| `Emulation.Emulator.KeyDown` | src/emulator.rs:64-66 | A mapped key presses its button. An unmapped key leaves the game pad unchanged. |
| `Emulation.Emulator.KeyUp` | src/emulator.rs:68-70 | A mapped key releases its button. An unmapped key leaves the game pad unchanged. |
| `Emulation.Emulator.SetButtonPressed` | src/emulator.rs:72-80 | A key found in the keymap sets its button to `pressed`. Any other key changes nothing. |

## Left out

- The GUI in `src/app.rs` is not modelled: window, menus, subscriptions, file dialog, configuration and title. Its aspect-ratio fitting uses floating point.
- `src/main.rs` is not modelled: command line, logging, localisation, window settings, and loading the ROM through `load_rom`.
- The value of `CPU_CYCLE_TIME_NS` is not modelled, because `src/emulator.rs:16` computes it with `f64` division from a constant of the external core. It is an abstract constant of at least 1.
- The values of `SCREEN_WIDTH`, `SCREEN_HEIGHT` and `XRGB8888_PALETTE` are not modelled. They belong to the external core crate, so they are abstract constants.
- `SystemTimeSource::time_ns` is an external clock. Its reading is a parameter.
- The machine's internals are not modelled: `Nes::new(rom)`, the CPU, PPU and APU, `StateManager` and `rom_path`. The stand-in `Nes` makes each step's effect a function of the step index and of the buttons held. The real machine's effect depends on its whole history.
- A step's audio output is not modelled, because the emulator passes it to `NullAudioSink`, which discards it. The sample's `f32` value is not modelled either.
- `pause_emulation`, `resume_emulation` and `Emulator::load_rom` are called from `src/app.rs:263,279,283` but are not defined in `src/emulator.rs`, so they are not modelled.
- The audio ring buffer and audio clock are not modelled, because nothing in the code implements them.
- The `leak()` of the pixel buffer (`src/emulator.rs:42`) is Rust ownership. The buffer is an `array<bv8>` field that the video sink borrows.
- Emulation.Emulator.Tick: requires `now >= startTimeNs`, an assumption about the external clock: `SystemTimeSource` is not part of this model and nothing in `src/emulator.rs` shows that it is monotonic. If a reading fell before the epoch, the `u64` subtraction at `src/emulator.rs:49` would panic in a debug build; in a release build it would wrap, and `tick` would step toward a target near 2^64 / CPU_CYCLE_TIME_NS.
- Emulation.Emulator.Tick: requires the target to be at most `2^64 - 1 - (2^32 - 1)`, so that the `u64` additions at `src/emulator.rs:55-56` cannot overflow. The source relies on this without checking. `HeadroomWhenPeriodAtLeastTwo` shows that it holds for every clock reading once the period is at least 2 ns.
- Emulation.Emulator.Tick: its contract does not state the `frame_written` flag of the sink it creates, because `tick` discards that sink.
- Core.Nes.Step: the step's cycle cost is assumed to be u32. The cast `cycles as u64` at `src/emulator.rs:55` only shows that it is not already u64.
- Video.VideoFrameSink.WriteFrame: requires a frame that fits the buffer and whose indices are all in the palette. The source panics on an out-of-bounds index instead, after it has written the earlier pixels.
