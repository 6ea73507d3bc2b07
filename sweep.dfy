/** The frequency sweep of the first square-wave channel: an 11-bit
    frequency that a divider ramps by shadow >> shift, and that kills the
    channel when it would reach 2048. The pure state machine (SweepState and
    the After* functions) specifies the class Sweep, whose methods update the
    fields in place as the emulator does. */
module SweepUnit {

  /** Sweep direction. The emulator encodes Increment as 0 and Decrement as
      1 (the opposite of the envelope's direction encoding). */
  datatype Direction = Increment | Decrement

  /** First frequency the 11-bit frequency register cannot hold. */
  const FreqLimit := 2048

  predicate FreqInRange(f: int) { 0 <= f < FreqLimit }

  /** A shift amount for which C++'s `>>` on a 32-bit int is defined. */
  predicate ShiftDefined(shift: int) { 0 <= shift < 32 }

  /** 2 to the power n. */
  function Pow2(n: nat): (r: nat)
    ensures r >= 1
  {
    if n == 0 then 1 else 2 * Pow2(n - 1)
  }

  /** Multiples of a positive d are at least d apart. */
  lemma MulGap(d: int, a: int, b: int)
    requires d > 0
    ensures a < b ==> d * a + d <= d * b
    decreases b - a
  {
    if a + 1 < b {
      MulGap(d, a + 1, b);
      assert d * (a + 1) == d * a + d;
    }
  }

  /** The quotient by d is the q whose multiples of d bracket y. */
  lemma DivUnique(y: int, d: int, q: int)
    requires d > 0 && d * q <= y < d * q + d
    ensures y / d == q
  {
    MulGap(d, y / d, q);
    MulGap(d, q, y / d);
  }

  /** Halving and then dividing by d is dividing by 2 * d. */
  lemma HalfThenDiv(x: int, d: int)
    requires d > 0
    ensures (x / 2) / d == x / (2 * d)
  {
    var q := x / (2 * d);
    var rem := x - 2 * d * q;
    assert 0 <= rem < 2 * d;
    assert x / 2 == d * q + rem / 2;
    DivUnique(x / 2, d, q);
  }

  /** x >> n on a signed integer: an arithmetic shift, that is, n halvings
      rounded towards minus infinity, which is Dafny's `/` by 2^n. */
  function ShiftRight(x: int, n: nat): (r: int)
    ensures r == x / Pow2(n)
    ensures 0 <= x ==> 0 <= r <= x
    ensures x < 0 ==> x <= r < 0
    ensures n > 0 && 0 < x ==> r < x
    decreases n
  {
    if n == 0 then x
    else
      HalfThenDiv(x, Pow2(n - 1));
      ShiftRight(x / 2, n - 1)
  }

  datatype SweepState = SweepState(
    active: bool,
    enabled: bool,
    channelDisabled: bool,
    direction: Direction,
    initialFreq: int,
    currentFreq: int,
    shadowFreq: int,
    divider: int,
    shift: int,
    step: int)

  /** The configuration: what Tick never changes (Restart changes active). */
  predicate SameConfig(s: SweepState, t: SweepState)
  {
    t.enabled == s.enabled && t.direction == s.direction &&
    t.initialFreq == s.initialFreq && t.divider == s.divider && t.shift == s.shift
  }

  /** The frequency invariant: both copies agree and fit in 11 bits. */
  predicate FreqsValid(s: SweepState)
  {
    s.currentFreq == s.shadowFreq && FreqInRange(s.shadowFreq)
  }

  /** Restart: always clears the channel kill flag; only an enabled sweep
      reloads both frequencies, rewinds its step counter and becomes active
      exactly when its shift or divider is non-zero. */
  function AfterRestart(s: SweepState): (r: SweepState)
    ensures SameConfig(s, r) && !r.channelDisabled
    ensures s.enabled ==> r.currentFreq == s.initialFreq && r.shadowFreq == s.initialFreq && r.step == 0
    ensures s.enabled ==> (r.active <==> s.shift != 0 || s.divider != 0)
    ensures !s.enabled ==> r == s.(channelDisabled := false)
    ensures FreqInRange(s.initialFreq) && (s.enabled || FreqsValid(s)) ==> FreqsValid(r)
  {
    if s.enabled then
      s.(channelDisabled := false, currentFreq := s.initialFreq, shadowFreq := s.initialFreq,
         step := 0, active := s.shift != 0 || s.divider != 0)
    else
      s.(channelDisabled := false)
  }

  /** Reset: Increment, zero initial frequency, divider and shift, then Restart. */
  function AfterReset(s: SweepState): (r: SweepState)
    ensures r.direction == Increment && r.initialFreq == 0 && r.divider == 0 && r.shift == 0
    ensures !r.channelDisabled && r.enabled == s.enabled
    ensures s.enabled ==> !r.active && r.currentFreq == 0 && r.shadowFreq == 0 && r.step == 0
    ensures !s.enabled ==> r.active == s.active && r.currentFreq == s.currentFreq &&
                           r.shadowFreq == s.shadowFreq && r.step == s.step
  {
    AfterRestart(s.(direction := Increment, initialFreq := 0, divider := 0, shift := 0))
  }

  /** The frequency computed on a divider boundary (before the overflow check). */
  function NewFreq(s: SweepState): (f: int)
    requires ShiftDefined(s.shift)
  {
    var offset := ShiftRight(s.shadowFreq, s.shift);
    if s.direction == Increment then s.shadowFreq + offset else s.shadowFreq - offset
  }

  /** The tick reaches the divider boundary and computes a new frequency. */
  predicate AtBoundary(s: SweepState)
  {
    s.active && s.divider != 0 && s.step == s.divider - 1
  }

  /** One tick of the sweep clock. */
  function AfterTick(s: SweepState): (r: SweepState)
    requires ShiftDefined(s.shift)
    ensures SameConfig(s, r) && r.active == s.active
    // disabled by state or by configuration: nothing changes
    ensures !s.active || s.divider == 0 ==> r == s
    // off the boundary only the step counter moves; on it, it rewinds
    ensures !AtBoundary(s) ==> r == s.(step := if s.active && s.divider != 0 then s.step + 1 else s.step)
    ensures AtBoundary(s) ==> r.step == 0
    // the kill flag is set exactly by an overflowing boundary, never cleared
    ensures r.channelDisabled <==> s.channelDisabled || (AtBoundary(s) && NewFreq(s) >= FreqLimit)
    // the frequencies change only on a non-overflowing boundary with a non-zero shift
    ensures (AtBoundary(s) && NewFreq(s) < FreqLimit && s.shift != 0) ==>
              r.shadowFreq == NewFreq(s) && r.currentFreq == NewFreq(s)
    ensures !(AtBoundary(s) && NewFreq(s) < FreqLimit && s.shift != 0) ==>
              r.shadowFreq == s.shadowFreq && r.currentFreq == s.currentFreq
    ensures FreqsValid(s) ==> FreqsValid(r)
  {
    if !s.active || s.divider == 0 then s
    else if s.step == s.divider - 1 then
      var f := NewFreq(s);
      if f >= FreqLimit then s.(channelDisabled := true, step := 0)
      else if s.shift != 0 then s.(shadowFreq := f, currentFreq := f, step := 0)
      else s.(step := 0)
    else s.(step := s.step + 1)
  }

  /** The state after n ticks; ticking never changes the configuration. */
  function AfterTicks(s: SweepState, n: nat): (r: SweepState)
    requires ShiftDefined(s.shift)
    ensures SameConfig(s, r) && r.active == s.active
  {
    if n == 0 then s else AfterTick(AfterTicks(s, n - 1))
  }

  /** Across any number of ticks both frequencies stay equal and inside
      0..2047: a decrement cannot go below zero because shadow >> shift is
      at most shadow, and an increment commits only values below 2048. */
  lemma {:induction false} TicksKeepFreqsValid(s: SweepState, n: nat)
    requires ShiftDefined(s.shift) && FreqsValid(s)
    ensures FreqsValid(AfterTicks(s, n))
  {
    if n > 0 {
      TicksKeepFreqsValid(s, n - 1);
    }
  }

  /** A decreasing sweep from a valid frequency never disables the channel:
      shadow - (shadow >> shift) stays below 2048. */
  lemma {:induction false} DecrementNeverDisables(s: SweepState, n: nat)
    requires ShiftDefined(s.shift) && FreqsValid(s) && s.direction == Decrement
    requires !s.channelDisabled
    ensures !AfterTicks(s, n).channelDisabled
  {
    if n > 0 {
      DecrementNeverDisables(s, n - 1);
      TicksKeepFreqsValid(s, n - 1);
    }
  }

  /** Once the channel is disabled it stays disabled until the next Restart. */
  lemma {:induction false} TicksKeepChannelDisabled(s: SweepState, n: nat)
    requires ShiftDefined(s.shift) && s.channelDisabled
    ensures AfterTicks(s, n).channelDisabled
  {
    if n > 0 {
      TicksKeepChannelDisabled(s, n - 1);
    }
  }

  /** With a zero shift the frequencies never change, however many ticks. */
  lemma {:induction false} ZeroShiftFreezesFreqs(s: SweepState, n: nat)
    requires s.shift == 0
    ensures AfterTicks(s, n).shadowFreq == s.shadowFreq
    ensures AfterTicks(s, n).currentFreq == s.currentFreq
  {
    if n > 0 {
      ZeroShiftFreezesFreqs(s, n - 1);
    }
  }

  /** A divider lowered below the running step is never met again: every
      tick only advances the step, and the frequencies are frozen until the
      next Restart. */
  lemma {:induction false} StepPastDivider(s: SweepState, n: nat)
    requires ShiftDefined(s.shift) && s.active && 0 < s.divider <= s.step
    ensures AfterTicks(s, n) == s.(step := s.step + n)
  {
    if n > 0 {
      StepPastDivider(s, n - 1);
    }
  }

  /** Initial frequency 1000, Increment, shift 0, divider 2, after Restart:
      the second tick reaches the boundary and computes 2000, which does not
      overflow, so the channel stays on and, the shift being zero, the
      frequency stays 1000. */
  lemma ZeroShiftScenario(s: SweepState)
    requires s.enabled && s.initialFreq == 1000 && s.direction == Increment
    requires s.shift == 0 && s.divider == 2
    ensures var r := AfterRestart(s);
            AtBoundary(AfterTicks(r, 1)) && NewFreq(AfterTicks(r, 1)) == 2000
    ensures var t := AfterTicks(AfterRestart(s), 2);
            !t.channelDisabled && t.currentFreq == 1000 && t.shadowFreq == 1000 && t.step == 0
  {
  }

  /** Initial frequency 1024, Increment, shift 0, divider 1: the first tick
      computes 2048 and disables the channel, leaving the frequency at 1024. */
  lemma OverflowScenario(s: SweepState)
    requires s.enabled && s.initialFreq == 1024 && s.direction == Increment
    requires s.shift == 0 && s.divider == 1
    ensures var t := AfterTicks(AfterRestart(s), 1);
            t.channelDisabled && t.currentFreq == 1024 && t.shadowFreq == 1024
  {
  }

  /** Reset already restarts, so a Restart right after a Reset changes nothing. */
  lemma RestartAfterReset(s: SweepState)
    ensures AfterRestart(AfterReset(s)) == AfterReset(s)
  {
  }

  /** Reset of an enabled sweep forgets the whole previous state: any two
      enabled sweeps are equal after it. */
  lemma ResetForgets(s: SweepState, t: SweepState)
    requires s.enabled && t.enabled
    ensures AfterReset(s) == AfterReset(t)
  {
  }

  /** Reset of a disabled sweep keeps active, both frequencies and the step,
      unlike a newly constructed sweep, which starts inactive. */
  lemma ResetKeepsActive(s: SweepState)
    requires s.active && !s.enabled
    ensures AfterReset(s).active
    ensures AfterReset(s).currentFreq == s.currentFreq && AfterReset(s).shadowFreq == s.shadowFreq
    ensures AfterReset(s).step == s.step
  {
  }

  /** The sweep as the emulator holds it: fields updated in place. */
  class Sweep {
    var active: bool
    var enabled: bool
    var channelDisabled: bool
    var direction: Direction
    var initialFreq: int
    var currentFreq: int
    var shadowFreq: int
    var divider: int
    var shift: int
    // private in the emulator
    var step: int

    /** Only the three flags have initial values (false); the other fields
        are indeterminate until Reset (and the frequencies and the step until
        an enabled Restart). */
    constructor ()
      ensures !active && !enabled && !channelDisabled
    {
      active := false;
      enabled := false;
      channelDisabled := false;
    }

    function State(): (r: SweepState)
      reads this
    {
      SweepState(active, enabled, channelDisabled, direction, initialFreq,
                 currentFreq, shadowFreq, divider, shift, step)
    }

    method Reset()
      modifies this
      ensures State() == AfterReset(old(State()))
    {
      direction := Increment;
      initialFreq := 0;
      divider := 0;
      shift := 0;
      Restart();
    }

    method Restart()
      modifies this
      ensures State() == AfterRestart(old(State()))
    {
      channelDisabled := false;
      if enabled {
        currentFreq := initialFreq;
        shadowFreq := initialFreq;
        step := 0;
        active := shift != 0 || divider != 0;
      }
    }

    method Tick()
      requires ShiftDefined(shift)
      modifies this
      ensures State() == AfterTick(old(State()))
    {
      if !active || divider == 0 {
        return;
      }
      if step == divider - 1 {
        var newFreq;
        var offset := ShiftRight(shadowFreq, shift);
        if direction == Increment {
          newFreq := shadowFreq + offset;
        } else {
          newFreq := shadowFreq - offset;
        }
        if newFreq >= 2048 {
          channelDisabled := true;
        } else if shift != 0 {
          shadowFreq := newFreq;
          currentFreq := newFreq;
        }
        step := 0;
      } else {
        step := step + 1;
      }
    }
  }
}
