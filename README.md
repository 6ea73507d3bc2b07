# Sound-channel modulation units of NanoBoyAdvance, in Dafny

This project models the three small state machines that modulate a Game Boy
Advance sound channel in the NanoBoyAdvance emulator
(`source/gba/core/apu/channel/sequencer.hpp`):

- **Envelope**: a volume in 0..15 that a divider ramps up or down by one.
  When a step would leave 0..15, the envelope goes inactive and keeps its volume.
- **Sweep**: an 11-bit frequency that a divider ramps by `shadow >> shift`.
  A result of 2048 or more sets the channel kill flag `channel_disabled`.
  A result is committed only when `shift` is non-zero.
- **Sequencer**: the 8-step frame sequencer, run every 16777216 / 512 = 32768
  cycles. The even steps decrement the length counter. Steps 2 and 6 tick the
  sweep. Step 7 ticks the envelope.

Each unit is one module, built the same way:

- a value type for its state (`EnvelopeState`, `SweepState`, `SequencerState`);
- pure transition functions `AfterReset`, `AfterRestart`, `AfterTick` and
  `AfterTicks`, whose contracts state what each operation guarantees;
- lemmas about runs of ticks;
- a class with the emulator's fields (`Envelope`, `Sweep`, `Sequencer`). Its
  `Reset`, `Restart` and `Tick` methods update the fields in place, as the C++
  does. Each method ensures `State() == AfterX(old(State()))`.

The `Sequencer` class owns one `Envelope` and one `Sweep` and calls their
methods. The frame sequencer's schedule has its own module, `FrameSchedule`
(`schedule.dfy`). It says which step clocks which unit, and it counts those
clocks over any run of consecutive steps.

Fields that the C++ leaves uninitialised are not assigned in the Dafny
constructors, so the verifier treats them as arbitrary values. These are
`direction`, the volumes and frequencies, `divider`, `shift` and `step`.
`Sequencer`'s constructor runs `Reset`, as the C++ constructor does. Even so, a
fresh sequencer's sweep keeps arbitrary frequencies and an arbitrary step
counter. The reason is that `enabled` starts false, and `Sweep::Restart` loads
those fields only when the sweep is enabled. The model states this exactly:
the constructor promises nothing about those three fields.

Two points about what the code does and does not guarantee:

- The sweep frequency is an 11-bit register value on the hardware. The code
  stores it in a plain `int` and never masks it, so it stays in 0..2047 only if
  `initial_freq` starts there. The model proves range preservation under that
  assumption.
- A Reset does not bring a unit back to the state of a newly constructed one.
  `Envelope::Restart` only ever sets `active` and never clears it, so an
  envelope that was active or is enabled is still active after a Reset, while
  a new envelope starts inactive. A disabled sweep's Restart leaves `active`,
  both frequencies and the step alone, so a Reset keeps them, while a new
  sweep starts inactive. The model proves what does hold:
  - a Restart right after a Reset changes nothing (`RestartAfterReset`);
  - a Reset forgets everything but `enabled` and `active` for the envelope,
    and everything for an enabled sweep (`ResetForgets`);
  - it does not clear `active` (`ResetKeepsActive`).

## Model

| member | source | states |
|---|---|---|
| EnvelopeUnit.AfterReset | source/gba/core/apu/channel/sequencer.hpp:30-35 | Reset forces Decrement, initial volume 0 and divider 0, then restarts. The volume and step become 0, and `active` becomes true if enabled and is never cleared. |
| EnvelopeUnit.AfterRestart | source/gba/core/apu/channel/sequencer.hpp:37-43 | Restart reloads the volume from `initial_volume` and zeroes the step. It sets `active` exactly when `enabled` (never clearing it) and keeps the configuration. |
| EnvelopeUnit.AfterTick | source/gba/core/apu/channel/sequencer.hpp:45-68 | A tick is a no-op when inactive or when the divider is 0. Otherwise the volume moves by at most one, and only in the configured direction. A volume in 0..15 stays in 0..15. The envelope is deactivated exactly on a boundary whose new volume leaves 0..15, and the volume is then kept. A tick never activates the envelope. Off the boundary a tick only increments the step. On the boundary it resets the step to 0 and, when the new volume is in 0..15, stays active and takes that volume. A step in 0..divider-1 stays in 0..divider-1. |
| EnvelopeUnit.TicksKeepInvariants | source/gba/core/apu/channel/sequencer.hpp:49-64 | Over any number of ticks, a volume starting in 0..15 stays in 0..15, the configuration is unchanged, and a step starting in 0..divider-1 stays in 0..divider-1, whether or not the envelope is still active. |
| EnvelopeUnit.TicksNeverActivate | source/gba/core/apu/channel/sequencer.hpp:45-46 | Ticks never reactivate the envelope. An inactive envelope is frozen until the next Restart. |
| EnvelopeUnit.TicksBeforeBoundary | source/gba/core/apu/channel/sequencer.hpp:49-67 | Before the divider boundary, each tick only increments the step, and the volume is untouched. |
| EnvelopeUnit.StepPastDivider | source/gba/core/apu/channel/sequencer.hpp:45-67 | Once `divider` is lowered to or below the running step, every tick only increments the step: the boundary is never met again and the volume is frozen until the next Restart. |
| EnvelopeUnit.FirstVolumeChange | source/gba/core/apu/channel/sequencer.hpp:37-67 | After a Restart of an envelope that is enabled or still active, with divider d > 0, ticks 0..d-1 leave the volume at `initial_volume`. Tick d resets the step and either changes the volume by one or deactivates the envelope, keeping the volume. |
| EnvelopeUnit.OnePeriod | source/gba/core/apu/channel/sequencer.hpp:45-67 | An active envelope at step 0 whose next volume is in 0..15 reaches, after exactly `divider` ticks, the same state with that volume: the step is back at 0 and nothing else has changed. |
| EnvelopeUnit.RampPeriods | source/gba/core/apu/channel/sequencer.hpp:49-64 | An active envelope at the start of its period changes the volume by exactly one every divider ticks while the ramp stays in 0..15. |
| EnvelopeUnit.DecrementByFourScenario | source/gba/core/apu/channel/sequencer.hpp:37-67 | Volume 8, Decrement, divider 4: after a Restart, the first four ticks give volumes 8, 8, 8, 7. |
| EnvelopeUnit.RestartAfterReset | source/gba/core/apu/channel/sequencer.hpp:30-43 | A Restart right after a Reset changes nothing. |
| EnvelopeUnit.ResetForgets | source/gba/core/apu/channel/sequencer.hpp:30-43 | Two envelopes that agree on `enabled` and `active` are equal after a Reset: Reset forgets the direction, volumes, divider and step. |
| EnvelopeUnit.ResetKeepsActive | source/gba/core/apu/channel/sequencer.hpp:30-43 | An active, disabled envelope is still active after a Reset, because Restart never clears `active`. A new envelope starts inactive (line 70), so a reset envelope is not a new one. |
| EnvelopeUnit.Envelope.constructor | source/gba/core/apu/channel/sequencer.hpp:70-71 | A new envelope is inactive and not enabled. All other fields are indeterminate. |
| EnvelopeUnit.Envelope.Reset | source/gba/core/apu/channel/sequencer.hpp:30-35 | Updates the fields in place to `AfterReset` of the old state. |
| EnvelopeUnit.Envelope.Restart | source/gba/core/apu/channel/sequencer.hpp:37-43 | Updates the fields in place to `AfterRestart` of the old state. |
| EnvelopeUnit.Envelope.Tick | source/gba/core/apu/channel/sequencer.hpp:45-68 | Updates the fields in place to `AfterTick` of the old state. |
| SweepUnit.ShiftRight | source/gba/core/apu/channel/sequencer.hpp:115 | `x >> n` as an arithmetic shift: the result equals `x / 2^n`, rounded towards minus infinity. A non-negative x gives a result in 0..x, strictly below x when n > 0 and x > 0. A negative x gives a result in x..-1. |
| SweepUnit.AfterReset | source/gba/core/apu/channel/sequencer.hpp:88-94 | Reset forces Increment and zeroes initial frequency, divider and shift, then restarts. An enabled sweep ends inactive at frequency 0 with step 0. A disabled one keeps `active`, both frequencies and the step. The kill flag is always cleared. |
| SweepUnit.AfterRestart | source/gba/core/apu/channel/sequencer.hpp:96-108 | Restart always clears `channel_disabled`. Only when enabled does it load both frequencies from `initial_freq`, zero the step, and set `active` to whether the shift or the divider is non-zero. When not enabled, nothing else changes. With `initial_freq` in 0..2047 it establishes or keeps the frequency invariant. |
| SweepUnit.AfterTick | source/gba/core/apu/channel/sequencer.hpp:110-137 | A tick never changes the configuration or `active`. It is a no-op when inactive or when the divider is 0, and off the boundary it only increments the step. On the boundary it resets the step. The kill flag is set exactly by a boundary whose new frequency is 2048 or more, and is never cleared. Both frequencies take the new frequency exactly when it is below 2048 and the shift is non-zero, and are unchanged otherwise. Equal frequencies in 0..2047 stay so. |
| SweepUnit.TicksKeepFreqsValid | source/gba/core/apu/channel/sequencer.hpp:113-128 | Over any number of ticks, `current_freq == shadow_freq` holds and both stay in 0..2047. |
| SweepUnit.DecrementNeverDisables | source/gba/core/apu/channel/sequencer.hpp:115-124 | A decreasing sweep that starts from a valid frequency never sets the kill flag. |
| SweepUnit.TicksKeepChannelDisabled | source/gba/core/apu/channel/sequencer.hpp:123-124 | Once set, the kill flag stays set over any number of ticks. Only a Restart clears it. |
| SweepUnit.ZeroShiftFreezesFreqs | source/gba/core/apu/channel/sequencer.hpp:123-128 | With shift 0, no number of ticks changes either frequency. |
| SweepUnit.StepPastDivider | source/gba/core/apu/channel/sequencer.hpp:110-137 | Once `divider` is lowered to or below the running step, every tick only increments the step: the boundary is never met again and the frequencies are frozen until the next Restart. |
| SweepUnit.ZeroShiftScenario | source/gba/core/apu/channel/sequencer.hpp:96-133 | Frequency 1000, Increment, shift 0, divider 2, after a Restart: the second tick is the boundary and computes 2000. The channel stays on, and the frequency stays 1000. |
| SweepUnit.OverflowScenario | source/gba/core/apu/channel/sequencer.hpp:113-124 | Frequency 1024, Increment, shift 0, divider 1: the first tick computes 2048. It sets the kill flag and leaves the frequency at 1024. |
| SweepUnit.RestartAfterReset | source/gba/core/apu/channel/sequencer.hpp:88-107 | A Restart right after a Reset changes nothing. |
| SweepUnit.ResetForgets | source/gba/core/apu/channel/sequencer.hpp:88-107 | Any two enabled sweeps are equal after a Reset: Reset forgets the whole previous state. |
| SweepUnit.ResetKeepsActive | source/gba/core/apu/channel/sequencer.hpp:88-107 | An active, disabled sweep keeps `active`, both frequencies and the step through a Reset. A new sweep starts inactive (line 139), so a reset sweep is not a new one. |
| SweepUnit.Sweep.constructor | source/gba/core/apu/channel/sequencer.hpp:139-141 | A new sweep is inactive, not enabled and not disabled. All other fields are indeterminate. |
| SweepUnit.Sweep.Reset | source/gba/core/apu/channel/sequencer.hpp:88-94 | Updates the fields in place to `AfterReset` of the old state. |
| SweepUnit.Sweep.Restart | source/gba/core/apu/channel/sequencer.hpp:96-108 | Updates the fields in place to `AfterRestart` of the old state. |
| SweepUnit.Sweep.Tick | source/gba/core/apu/channel/sequencer.hpp:110-137 | Updates the fields in place to `AfterTick` of the old state. |
| FrameSchedule.NextStep | source/gba/core/apu/channel/sequencer.hpp:198 | The next step of the cycle stays in 0..7. |
| FrameSchedule.StepAfterIsMod | source/gba/core/apu/channel/sequencer.hpp:198 | m steps from `start` land on (start + m) mod 8. |
| FrameSchedule.StepAfterCycle | source/gba/core/apu/channel/sequencer.hpp:198 | Eight steps from any step return to that step. |
| FrameSchedule.ClockCountSplit | source/gba/core/apu/channel/sequencer.hpp:182-191 | The clock count of a run of steps is the sum of the counts of its two consecutive parts. |
| FrameSchedule.CycleFromZero | source/gba/core/apu/channel/sequencer.hpp:182-191 | Steps 0..7 hold 4 length clocks, 2 sweep clocks and 1 envelope clock. |
| FrameSchedule.WindowCount | source/gba/core/apu/channel/sequencer.hpp:182-191 | Any 8 consecutive steps, from any starting step, hold exactly 4 length clocks, 2 sweep clocks and 1 envelope clock. |
| SequencerUnit.AfterReset | source/gba/core/apu/channel/sequencer.hpp:162-169 | Reset sets the length to 0 and the step to 0, and the countdown to 32768 (a flat set). It resets the envelope and the sweep. |
| SequencerUnit.AfterRestart | source/gba/core/apu/channel/sequencer.hpp:171-178 | Restart loads `length_default` into the length only when the length is exactly 0. A non-zero length, even a negative one, is kept. It restarts the sweep and the envelope, sets the step to 0 and keeps the countdown. |
| SequencerUnit.AfterTick | source/gba/core/apu/channel/sequencer.hpp:180-201 | A tick keeps the step in 0..7 and moves it to the next step. It adds exactly 32768 to the countdown. It lowers the length by at most one, with no clamp. |
| SequencerUnit.TickActions | source/gba/core/apu/channel/sequencer.hpp:182-198 | By step number: the step becomes (step+1) % 8 and wraps to 0 exactly after step 7. The length drops exactly on even steps. The sweep is ticked exactly on steps with step % 4 == 2, and the envelope exactly on step 7. |
| SequencerUnit.TicksCounters | source/gba/core/apu/channel/sequencer.hpp:182-200 | After n ticks the step has moved n steps on and the countdown has grown by n * 32768. The length has dropped once per length-clocking step passed. |
| SequencerUnit.TicksSweep | source/gba/core/apu/channel/sequencer.hpp:185-189 | After n ticks the sweep has been ticked exactly once per sweep-clocking step passed, and nothing else has been done to it. |
| SequencerUnit.TicksEnvelope | source/gba/core/apu/channel/sequencer.hpp:190 | After n ticks the envelope has been ticked exactly once per envelope-clocking step passed, and nothing else has been done to it. |
| SequencerUnit.EightTicksCounters | source/gba/core/apu/channel/sequencer.hpp:182-200 | Any 8 consecutive ticks return the step to its start and add 8 * 32768 to the countdown. They lower the length by exactly 4, below zero if need be. |
| SequencerUnit.EightTicksUnits | source/gba/core/apu/channel/sequencer.hpp:182-191 | Any 8 consecutive ticks tick the sweep exactly twice and the envelope exactly once. |
| SequencerUnit.Sequencer.constructor | source/gba/core/apu/channel/sequencer.hpp:160-169 | A new sequencer has default length 64, and Reset has run: length 0, step 0, countdown 32768. The envelope is fully reset and inactive. The sweep is inactive, not disabled, Increment, with zero initial frequency, divider and shift. |
| SequencerUnit.Sequencer.Reset | source/gba/core/apu/channel/sequencer.hpp:162-169 | Updates this object, its envelope and its sweep in place to `AfterReset` of the old state. |
| SequencerUnit.Sequencer.Restart | source/gba/core/apu/channel/sequencer.hpp:171-178 | Updates this object, its envelope and its sweep in place to `AfterRestart` of the old state. |
| SequencerUnit.Sequencer.Tick | source/gba/core/apu/channel/sequencer.hpp:180-201 | Runs the `switch` on the step, calling the sweep's and the envelope's `Tick`. Updates the state in place to `AfterTick` of the old state and keeps the step in 0..7. |

## Left out

- `source/gba/core/ppu/ppu.hpp` is not part of this model. It holds only declarations: the scanline renderers, the compositor, blending, colour conversion and the phase handlers have no bodies there.
- `src/gba/apu/apu.hpp` is not part of this model. It covers audio output: a floating-point ring buffer, a resampler from an external library and a dump file. Its operations are only declared.
- The event scheduler is not part of this model. The sequencer's `Event` is kept as its integer `countdown`; the callback lambda that calls `Tick` and the dispatch are not modelled, and `Tick` is called directly.
- Two hardware behaviours that the source mentions only in TODO comments are not modelled, because the code does not do them. One is the immediate frequency calculation and overflow check on a sweep Restart. The other is the second, uncommitted overflow check after a sweep boundary.
- C++ `int` is 32 bits wide, but the model uses unbounded integers. It does not model overflow of the length counter, the step counters or the countdown, or volumes and frequencies far outside their register ranges. Overflow of a signed `int` is undefined behaviour in C++. The volumes and frequencies stay within their register ranges. The step counters stay in 0..divider-1 only while `divider`, a public field, is not lowered below the running step. If it is, the step never meets the boundary again and grows by one per tick without bound until the next Restart (`StepPastDivider`). The length counter is not clamped and falls by 4 every 8 sequencer steps. It reaches `INT_MIN` only after about 2^31 decrements. That is 2^32 sequencer steps, about 97 days of emulated time at 512 steps per second, so whether it happens depends on how long the emulator runs. The countdown's type is declared in `source/gba/core/scheduler.hpp`, which is not part of this model, so no claim is made about its width. The scheduler that counts the countdown down again is not modelled either, so in the model the countdown only grows, by 32768 per step.
- SweepUnit.AfterTick: requires a shift in 0..31, because `>>` by a negative amount or by 32 or more is undefined in C++. The same requirement sits on `Sweep.Tick`, `SequencerUnit.AfterTick` and `Sequencer.Tick`. The hardware register gives 0..7.
- SequencerUnit.Sequencer.Tick: requires the private step counter to be in 0..7 (`Valid()`). Every write to it keeps it there. A value outside that range would make the `switch` do nothing and, for a negative value, C++'s truncating `%` differ from Dafny's.
