/** The frame sequencer of a sound channel: an 8-step cycle, clocked every
    16777216 / 512 cycles, that decrements the length counter on the even
    steps, clocks the sweep on steps 2 and 6 and the envelope on step 7, as
    in the Game Boy sound hardware's frame sequencer. The pure state machine
    (SequencerState and the After* functions) specifies the class Sequencer,
    which owns one Envelope and one Sweep and updates them in place. */
module SequencerUnit {
  import E = EnvelopeUnit
  import S = SweepUnit
  import opened FrameSchedule

  /** Cycles between two sequencer steps: the system clock over 512. */
  const CyclesPerStep := 16777216 / 512

  /** Length loaded by Restart when the length counter has run down to zero. */
  const DefaultLength := 64

  datatype SequencerState = SequencerState(
    countdown: int,
    length: int,
    lengthDefault: int,
    step: int,
    envelope: E.EnvelopeState,
    sweep: S.SweepState)

  /** The step counter is private and every write keeps it in 0..7. */
  predicate StepValid(s: SequencerState) { 0 <= s.step < 8 }

  /** What a tick needs: a valid step, and a sweep shift C++ can evaluate. */
  predicate Tickable(s: SequencerState)
  {
    StepValid(s) && S.ShiftDefined(s.sweep.shift)
  }

  /** Reset: zero length, reset both units, rewind the step counter and arm
      the event one step period ahead. */
  function AfterReset(s: SequencerState): (r: SequencerState)
    ensures StepValid(r) && r.step == 0 && r.length == 0
    ensures r.countdown == 32768 && r.lengthDefault == s.lengthDefault
    ensures r.envelope == E.AfterReset(s.envelope) && r.sweep == S.AfterReset(s.sweep)
  {
    s.(length := 0, envelope := E.AfterReset(s.envelope), sweep := S.AfterReset(s.sweep),
       step := 0, countdown := CyclesPerStep)
  }

  /** Restart: reload the length counter only if it has run down to exactly
      zero, restart both units and rewind the step counter. */
  function AfterRestart(s: SequencerState): (r: SequencerState)
    ensures StepValid(r) && r.step == 0
    ensures s.length != 0 ==> r.length == s.length
    ensures s.length == 0 ==> r.length == s.lengthDefault
    ensures r.countdown == s.countdown && r.lengthDefault == s.lengthDefault
    ensures r.envelope == E.AfterRestart(s.envelope) && r.sweep == S.AfterRestart(s.sweep)
  {
    s.(length := if s.length == 0 then s.lengthDefault else s.length,
       sweep := S.AfterRestart(s.sweep), envelope := E.AfterRestart(s.envelope), step := 0)
  }

  /** One step of the sequencer: the scheduled actions, then the next step,
      then the event re-armed one period after its previous deadline. */
  function AfterTick(s: SequencerState): (r: SequencerState)
    requires Tickable(s)
    ensures Tickable(r) && r.step == NextStep(s.step)
    // additive re-arm: exactly 32768 cycles after the previous deadline
    ensures r.countdown == s.countdown + 32768
    // the length drops by at most one, with no clamping at zero
    ensures s.length - 1 <= r.length <= s.length
    ensures r.lengthDefault == s.lengthDefault
  {
    s.(length := if Clocks(LengthCounter, s.step) then s.length - 1 else s.length,
       sweep := if Clocks(SweepClock, s.step) then S.AfterTick(s.sweep) else s.sweep,
       envelope := if Clocks(EnvelopeClock, s.step) then E.AfterTick(s.envelope) else s.envelope,
       step := (s.step + 1) % 8,
       countdown := s.countdown + CyclesPerStep)
  }

  /** What a single step does, by step number: the even steps decrement the
      length, steps 2 and 6 tick the sweep, step 7 ticks the envelope, and
      step 7 is the one that wraps round to step 0. */
  lemma TickActions(s: SequencerState)
    requires Tickable(s)
    ensures AfterTick(s).step == (s.step + 1) % 8
    ensures AfterTick(s).step == 0 <==> s.step == 7
    ensures AfterTick(s).length == if s.step % 2 == 0 then s.length - 1 else s.length
    ensures AfterTick(s).sweep == if s.step % 4 == 2 then S.AfterTick(s.sweep) else s.sweep
    ensures AfterTick(s).envelope == if s.step == 7 then E.AfterTick(s.envelope) else s.envelope
  {
  }

  /** The state after n steps. */
  function AfterTicks(s: SequencerState, n: nat): (r: SequencerState)
    requires Tickable(s)
    ensures Tickable(r) && r.sweep.shift == s.sweep.shift
  {
    if n == 0 then s else AfterTick(AfterTicks(s, n - 1))
  }

  /** n steps in closed form: the step counter has moved on n steps, the
      deadline n periods, and the length has dropped once per length-clocking
      step passed (with no clamping at zero). */
  lemma {:induction false} TicksCounters(s: SequencerState, n: nat)
    requires Tickable(s)
    ensures AfterTicks(s, n).step == StepAfter(s.step, n)
    ensures AfterTicks(s, n).countdown == s.countdown + n * 32768
    ensures AfterTicks(s, n).length == s.length - ClockCount(LengthCounter, s.step, n)
    ensures AfterTicks(s, n).lengthDefault == s.lengthDefault
  {
    if n > 0 {
      TicksCounters(s, n - 1);
      StepAfterLast(s.step, n - 1);
      ClockCountSplit(LengthCounter, s.step, n - 1, 1);
    }
  }

  /** After n steps the sweep has been ticked exactly once per
      sweep-clocking step passed, with nothing else done to it. */
  lemma {:induction false} TicksSweep(s: SequencerState, n: nat)
    requires Tickable(s)
    ensures AfterTicks(s, n).sweep == S.AfterTicks(s.sweep, ClockCount(SweepClock, s.step, n))
  {
    if n > 0 {
      TicksSweep(s, n - 1);
      TicksCounters(s, n - 1);
      ClockCountSplit(SweepClock, s.step, n - 1, 1);
    }
  }

  /** After n steps the envelope has been ticked exactly once per
      envelope-clocking step passed, with nothing else done to it. */
  lemma {:induction false} TicksEnvelope(s: SequencerState, n: nat)
    requires Tickable(s)
    ensures AfterTicks(s, n).envelope == E.AfterTicks(s.envelope, ClockCount(EnvelopeClock, s.step, n))
  {
    if n > 0 {
      TicksEnvelope(s, n - 1);
      TicksCounters(s, n - 1);
      ClockCountSplit(EnvelopeClock, s.step, n - 1, 1);
    }
  }

  /** Any 8 consecutive steps bring the step counter back to where it was,
      push the deadline 8 periods on and lower the length by exactly 4
      (below zero if need be). */
  lemma EightTicksCounters(s: SequencerState)
    requires Tickable(s)
    ensures AfterTicks(s, 8).step == s.step
    ensures AfterTicks(s, 8).countdown == s.countdown + 8 * 32768
    ensures AfterTicks(s, 8).length == s.length - 4
  {
    TicksCounters(s, 8);
    StepAfterCycle(s.step);
    WindowCount(LengthCounter, s.step);
  }

  /** Any 8 consecutive steps tick the sweep exactly twice and the envelope
      exactly once. */
  lemma EightTicksUnits(s: SequencerState)
    requires Tickable(s)
    ensures AfterTicks(s, 8).sweep == S.AfterTick(S.AfterTick(s.sweep))
    ensures AfterTicks(s, 8).envelope == E.AfterTick(s.envelope)
  {
    TicksSweep(s, 8);
    TicksEnvelope(s, 8);
    WindowCount(SweepClock, s.step);
    WindowCount(EnvelopeClock, s.step);
    assert S.AfterTicks(s.sweep, 1) == S.AfterTick(s.sweep);
    assert S.AfterTicks(s.sweep, 2) == S.AfterTick(S.AfterTicks(s.sweep, 1));
    assert E.AfterTicks(s.envelope, 1) == E.AfterTick(s.envelope);
  }

  /** The sequencer as the emulator holds it. The scheduler event is kept
      only as its countdown; the callback that calls Tick is not modelled. */
  class Sequencer {
    var countdown: int
    var length: int
    var lengthDefault: int
    const envelope: E.Envelope
    const sweep: S.Sweep
    // private in the emulator
    var step: int

    ghost predicate Valid()
      reads this
    {
      0 <= step < 8
    }

    function State(): (r: SequencerState)
      reads this, envelope, sweep
    {
      SequencerState(countdown, length, lengthDefault, step, envelope.State(), sweep.State())
    }

    /** A new sequencer: the default length is 64 and Reset has run. */
    constructor ()
      ensures Valid() && fresh(envelope) && fresh(sweep)
      ensures lengthDefault == DefaultLength && length == 0 && step == 0 && countdown == 32768
      ensures envelope.State() == E.EnvelopeState(false, false, E.Decrement, 0, 0, 0, 0)
      ensures !sweep.active && !sweep.enabled && !sweep.channelDisabled
      ensures sweep.direction == S.Increment && sweep.initialFreq == 0
      ensures sweep.divider == 0 && sweep.shift == 0
    {
      countdown := 0;
      lengthDefault := DefaultLength;
      envelope := new E.Envelope();
      sweep := new S.Sweep();
      new;
      Reset();
    }

    method Reset()
      modifies this, envelope, sweep
      ensures Valid() && State() == AfterReset(old(State()))
    {
      length := 0;
      envelope.Reset();
      sweep.Reset();
      step := 0;
      countdown := CyclesPerStep;
    }

    method Restart()
      modifies this, envelope, sweep
      ensures Valid() && State() == AfterRestart(old(State()))
    {
      if length == 0 {
        length := lengthDefault;
      }
      sweep.Restart();
      envelope.Restart();
      step := 0;
    }

    method Tick()
      requires Valid() && S.ShiftDefined(sweep.shift)
      modifies this, envelope, sweep
      ensures Valid() && State() == AfterTick(old(State()))
    {
      match step {
        case 0 => length := length - 1;
        case 1 =>
        case 2 => length := length - 1; sweep.Tick();
        case 3 =>
        case 4 => length := length - 1;
        case 5 =>
        case 6 => length := length - 1; sweep.Tick();
        case 7 => envelope.Tick();
        case _ =>
      }
      step := (step + 1) % 8;
      countdown := countdown + CyclesPerStep;
    }
  }
}
