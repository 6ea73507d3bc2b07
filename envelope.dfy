/** The volume envelope of a sound channel: a 4-bit volume that a divider
    ramps up or down by one, clocked by the frame sequencer. The pure state
    machine (EnvelopeState and the After* functions) specifies the class
    Envelope, whose methods update the fields in place as the emulator does. */
module EnvelopeUnit {

  /** Envelope direction. The emulator encodes Increment as 1 and Decrement
      as 0 (the opposite of the sweep's direction encoding). */
  datatype Direction = Increment | Decrement

  /** The highest volume the 4-bit volume register can hold. */
  const MaxVolume := 15

  predicate VolumeInRange(v: int) { 0 <= v <= MaxVolume }

  datatype EnvelopeState = EnvelopeState(
    active: bool,
    enabled: bool,
    direction: Direction,
    initialVolume: int,
    currentVolume: int,
    divider: int,
    step: int)

  /** The configuration: what Restart and Tick never change. */
  predicate SameConfig(s: EnvelopeState, t: EnvelopeState)
  {
    t.enabled == s.enabled && t.direction == s.direction &&
    t.initialVolume == s.initialVolume && t.divider == s.divider
  }

  /** The step counter is on its way to the divider boundary. */
  predicate StepInPeriod(s: EnvelopeState)
  {
    0 <= s.step < s.divider
  }

  /** Restart: reload the volume, rewind the step counter, and become active
      if the channel enables the envelope (an inactive, disabled envelope
      stays inactive; an active one is never deactivated here). */
  function AfterRestart(s: EnvelopeState): (r: EnvelopeState)
    ensures SameConfig(s, r)
    ensures r.currentVolume == s.initialVolume && r.step == 0
    ensures r.active <==> s.active || s.enabled
    ensures VolumeInRange(s.initialVolume) ==> VolumeInRange(r.currentVolume)
  {
    s.(currentVolume := s.initialVolume, step := 0, active := s.active || s.enabled)
  }

  /** Reset: Decrement, zero initial volume and divider, then Restart. */
  function AfterReset(s: EnvelopeState): (r: EnvelopeState)
    ensures r.direction == Decrement && r.initialVolume == 0 && r.divider == 0
    ensures r.currentVolume == 0 && r.step == 0 && r.enabled == s.enabled
    ensures r.active <==> s.active || s.enabled
  {
    AfterRestart(s.(direction := Decrement, initialVolume := 0, divider := 0))
  }

  /** The volume the next boundary would produce (before the range check). */
  function NextVolume(s: EnvelopeState): (v: int)
  {
    if s.direction == Increment then s.currentVolume + 1 else s.currentVolume - 1
  }

  /** The tick reaches the divider boundary and acts on the volume. */
  predicate AtBoundary(s: EnvelopeState)
  {
    s.active && s.divider != 0 && s.step == s.divider - 1
  }

  /** One tick of the envelope clock. */
  function AfterTick(s: EnvelopeState): (r: EnvelopeState)
    ensures SameConfig(s, r)
    // disabled by state or by configuration: nothing changes
    ensures !s.active || s.divider == 0 ==> r == s
    // off the boundary only the step counter moves
    ensures s.active && s.divider != 0 && !AtBoundary(s) ==> r == s.(step := s.step + 1)
    // on it the step rewinds and an in-range new volume is committed
    ensures AtBoundary(s) ==> r.step == 0
    ensures AtBoundary(s) && VolumeInRange(NextVolume(s)) ==> r.active && r.currentVolume == NextVolume(s)
    // the volume moves by at most one, and only in the configured direction
    ensures s.direction == Increment ==> s.currentVolume <= r.currentVolume <= s.currentVolume + 1
    ensures s.direction == Decrement ==> s.currentVolume - 1 <= r.currentVolume <= s.currentVolume
    ensures VolumeInRange(s.currentVolume) ==> VolumeInRange(r.currentVolume)
    // a tick never activates the envelope; it deactivates it only when the
    // volume would leave 0..15, and then the volume is kept
    ensures r.active ==> s.active
    ensures s.active && !r.active <==> AtBoundary(s) && !VolumeInRange(NextVolume(s))
    ensures !r.active ==> r.currentVolume == s.currentVolume
    ensures StepInPeriod(s) ==> StepInPeriod(r)
  {
    if !s.active || s.divider == 0 then s
    else if s.step == s.divider - 1 then
      var v := NextVolume(s);
      if VolumeInRange(v) then s.(currentVolume := v, step := 0)
      else s.(active := false, step := 0)
    else s.(step := s.step + 1)
  }

  /** The state after n ticks. */
  function AfterTicks(s: EnvelopeState, n: nat): (r: EnvelopeState)
  {
    if n == 0 then s else AfterTick(AfterTicks(s, n - 1))
  }

  /** Across any number of ticks the volume stays in 0..15, the
      configuration is kept, and the step counter stays inside its period. */
  lemma {:induction false} TicksKeepInvariants(s: EnvelopeState, n: nat)
    ensures SameConfig(s, AfterTicks(s, n))
    ensures VolumeInRange(s.currentVolume) ==> VolumeInRange(AfterTicks(s, n).currentVolume)
    ensures StepInPeriod(s) ==> StepInPeriod(AfterTicks(s, n))
  {
    if n > 0 {
      TicksKeepInvariants(s, n - 1);
    }
  }

  /** Ticks never reactivate an envelope: once inactive it stays inactive
      (and frozen) until the next Restart. */
  lemma {:induction false} TicksNeverActivate(s: EnvelopeState, n: nat)
    ensures AfterTicks(s, n).active ==> s.active
    ensures !s.active ==> AfterTicks(s, n) == s
  {
    if n > 0 {
      TicksNeverActivate(s, n - 1);
    }
  }

  /** Before the boundary each tick only advances the step counter. */
  lemma {:induction false} TicksBeforeBoundary(s: EnvelopeState, k: nat)
    requires s.active && 0 <= s.step && s.step + k < s.divider
    ensures AfterTicks(s, k) == s.(step := s.step + k)
  {
    if k > 0 {
      TicksBeforeBoundary(s, k - 1);
    }
  }

  /** A divider lowered below the running step is never met again: every
      tick only advances the step, and the volume is frozen until the next
      Restart. */
  lemma {:induction false} StepPastDivider(s: EnvelopeState, n: nat)
    requires s.active && 0 < s.divider <= s.step
    ensures AfterTicks(s, n) == s.(step := s.step + n)
  {
    if n > 0 {
      StepPastDivider(s, n - 1);
    }
  }

  /** After a Restart of an envelope that is enabled or still active, with a
      non-zero divider, the volume is unchanged for the first divider - 1
      ticks, and the tick number divider is the first one to act on the
      volume: it moves it by one, or, if that would leave 0..15, deactivates
      the envelope. */
  lemma FirstVolumeChange(s: EnvelopeState, k: nat)
    requires (s.enabled || s.active) && s.divider > 0 && k < s.divider
    ensures AfterTicks(AfterRestart(s), k).currentVolume == s.initialVolume
    ensures AfterTicks(AfterRestart(s), k).active
    ensures var t := AfterTicks(AfterRestart(s), s.divider);
            var v := NextVolume(AfterRestart(s));
            t.step == 0 &&
            (if VolumeInRange(v) then t.active && t.currentVolume == v
             else !t.active && t.currentVolume == s.initialVolume)
  {
    var r := AfterRestart(s);
    TicksBeforeBoundary(r, k);
    TicksBeforeBoundary(r, s.divider - 1);
  }

  /** Ticking a then b times is ticking a + b times. */
  lemma {:induction false} TicksAdd(s: EnvelopeState, a: nat, b: nat)
    ensures AfterTicks(s, a + b) == AfterTicks(AfterTicks(s, a), b)
  {
    if b > 0 {
      TicksAdd(s, a, b - 1);
    }
  }

  /** The volume j boundaries away from v in the configured direction. */
  function RampTarget(s: EnvelopeState, j: nat): (v: int)
  {
    if s.direction == Increment then s.currentVolume + j else s.currentVolume - j
  }

  /** One full period from step 0 of an active envelope moves the volume one
      step, when the new volume is in 0..15, and rewinds the step. */
  lemma OnePeriod(s: EnvelopeState)
    requires s.active && s.divider > 0 && s.step == 0 && VolumeInRange(NextVolume(s))
    ensures AfterTicks(s, s.divider) == s.(currentVolume := NextVolume(s))
  {
    var d: nat := s.divider;
    var u := s.(step := d - 1);
    TicksBeforeBoundary(s, d - 1);
    assert AfterTicks(s, d) == AfterTick(u);
    assert AtBoundary(u) && NextVolume(u) == NextVolume(s);
  }

  /** An active envelope at the start of its period ramps by exactly one
      volume step every divider ticks, as long as the ramp stays in 0..15. */
  lemma {:induction false} RampPeriods(s: EnvelopeState, j: nat)
    requires s.active && s.divider > 0 && s.step == 0
    requires VolumeInRange(s.currentVolume) && VolumeInRange(RampTarget(s, j))
    ensures AfterTicks(s, j * s.divider) == s.(currentVolume := RampTarget(s, j))
  {
    if j > 0 {
      var d := s.divider;
      RampPeriods(s, j - 1);
      var t := s.(currentVolume := RampTarget(s, j - 1));
      assert j * d == (j - 1) * d + d;
      TicksAdd(s, (j - 1) * d, d);
      assert NextVolume(t) == RampTarget(s, j);
      OnePeriod(t);
    }
  }

  /** Volume 8, Decrement, divider 4: the first four ticks give 8, 8, 8, 7. */
  lemma DecrementByFourScenario(s: EnvelopeState)
    requires s.enabled && s.direction == Decrement && s.initialVolume == 8 && s.divider == 4
    ensures AfterTicks(AfterRestart(s), 1).currentVolume == 8
    ensures AfterTicks(AfterRestart(s), 2).currentVolume == 8
    ensures AfterTicks(AfterRestart(s), 3).currentVolume == 8
    ensures AfterTicks(AfterRestart(s), 4).currentVolume == 7
  {
    FirstVolumeChange(s, 1);
    FirstVolumeChange(s, 2);
    FirstVolumeChange(s, 3);
  }

  /** Reset already restarts, so a Restart right after a Reset changes nothing. */
  lemma RestartAfterReset(s: EnvelopeState)
    ensures AfterRestart(AfterReset(s)) == AfterReset(s)
  {
  }

  /** Reset forgets everything but the enable flag and whether the envelope
      was active: two envelopes that agree on those two are equal after it. */
  lemma ResetForgets(s: EnvelopeState, t: EnvelopeState)
    requires s.enabled == t.enabled && s.active == t.active
    ensures AfterReset(s) == AfterReset(t)
  {
  }

  /** Reset never clears active, so an active envelope stays active through
      it, unlike a newly constructed one, which starts inactive. */
  lemma ResetKeepsActive(s: EnvelopeState)
    requires s.active && !s.enabled
    ensures AfterReset(s).active
  {
  }

  /** The envelope as the emulator holds it: fields updated in place. */
  class Envelope {
    var active: bool
    var enabled: bool
    var direction: Direction
    var initialVolume: int
    var currentVolume: int
    var divider: int
    // private in the emulator
    var step: int

    /** Only active and enabled have initial values (false); the other
        fields are indeterminate until Reset. */
    constructor ()
      ensures !active && !enabled
    {
      active := false;
      enabled := false;
    }

    function State(): (r: EnvelopeState)
      reads this
    {
      EnvelopeState(active, enabled, direction, initialVolume, currentVolume, divider, step)
    }

    method Reset()
      modifies this
      ensures State() == AfterReset(old(State()))
    {
      direction := Decrement;
      initialVolume := 0;
      divider := 0;
      Restart();
    }

    method Restart()
      modifies this
      ensures State() == AfterRestart(old(State()))
    {
      currentVolume := initialVolume;
      step := 0;
      if enabled {
        active := true;
      }
    }

    method Tick()
      modifies this
      ensures State() == AfterTick(old(State()))
    {
      if !active || divider == 0 {
        return;
      }
      if step == divider - 1 {
        var newVolume := currentVolume;
        if direction == Increment {
          newVolume := newVolume + 1;
        } else {
          newVolume := newVolume - 1;
        }
        if 0 <= newVolume && newVolume <= 15 {
          currentVolume := newVolume;
        } else {
          active := false;
        }
        step := 0;
      } else {
        step := step + 1;
      }
    }
  }
}
