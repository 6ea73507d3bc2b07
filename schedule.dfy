/** The frame sequencer's schedule: which of its 8 steps clock the length
    counter, the sweep and the envelope, and how often each is clocked over a
    run of consecutive steps. */
module FrameSchedule {

  /** What a sequencer step may clock. */
  datatype Clocked = LengthCounter | SweepClock | EnvelopeClock

  /** The schedule: which steps of the cycle clock what. */
  predicate Clocks(u: Clocked, step: int)
  {
    match u
    case LengthCounter => step == 0 || step == 2 || step == 4 || step == 6
    case SweepClock => step == 2 || step == 6
    case EnvelopeClock => step == 7
  }

  /** The step that follows `step` in the cycle 0, 1, ..., 7, 0, ... */
  function NextStep(step: int): (r: int)
    requires 0 <= step < 8
    ensures 0 <= r < 8
  {
    if step == 7 then 0 else step + 1
  }

  /** The step reached m steps after `start`. */
  function StepAfter(start: int, m: nat): (r: int)
    requires 0 <= start < 8
    ensures 0 <= r < 8
    decreases m
  {
    if m == 0 then start else StepAfter(NextStep(start), m - 1)
  }

  /** How many of the n consecutive steps that start at step `start` clock u. */
  function ClockCount(u: Clocked, start: int, n: nat): (c: nat)
    requires 0 <= start < 8
    ensures c <= n
    decreases n
  {
    if n == 0 then 0
    else (if Clocks(u, start) then 1 else 0) + ClockCount(u, NextStep(start), n - 1)
  }

  /** The number of steps of each kind in one full cycle of 8. */
  function PerCycle(u: Clocked): (k: nat)
  {
    match u
    case LengthCounter => 4
    case SweepClock => 2
    case EnvelopeClock => 1
  }

  /** Stepping m times from `start` lands on (start + m) mod 8. */
  lemma {:induction false} StepAfterIsMod(start: int, m: nat)
    requires 0 <= start < 8
    ensures StepAfter(start, m) == (start + m) % 8
    decreases m
  {
    if m > 0 {
      StepAfterIsMod(NextStep(start), m - 1);
      if start == 7 {
        assert start + m == (m - 1) + 8;
      }
    }
  }

  /** The last of m + 1 steps is one step after the first m. */
  lemma {:induction false} StepAfterLast(start: int, m: nat)
    requires 0 <= start < 8
    ensures StepAfter(start, m + 1) == NextStep(StepAfter(start, m))
    decreases m
  {
    if m > 0 {
      StepAfterLast(NextStep(start), m - 1);
    }
  }

  /** Counts add up over two consecutive runs of steps, the second run
      starting where the first one ends. */
  lemma {:induction false} ClockCountSplit(u: Clocked, start: int, m: nat, k: nat)
    requires 0 <= start < 8
    ensures ClockCount(u, start, m + k) == ClockCount(u, start, m) + ClockCount(u, StepAfter(start, m), k)
    decreases m
  {
    if m > 0 {
      ClockCountSplit(u, NextStep(start), m - 1, k);
    }
  }

  /** Stepping from `start` to the end of the cycle wraps round to step 0. */
  lemma {:induction false} StepAfterWraps(start: int)
    requires 0 <= start < 8
    ensures StepAfter(start, 8 - start) == 0
    decreases 8 - start
  {
    if start < 7 {
      StepAfterWraps(start + 1);
    }
  }

  /** Within one cycle, stepping m times from step 0 lands on step m. */
  lemma {:induction false} StepAfterFromZero(m: nat)
    requires m < 8
    ensures StepAfter(0, m) == m
  {
    if m > 0 {
      StepAfterFromZero(m - 1);
      StepAfterLast(0, m - 1);
    }
  }

  /** Stepping m and then k times is stepping m + k times. */
  lemma {:induction false} StepAfterAdd(start: int, m: nat, k: nat)
    requires 0 <= start < 8
    ensures StepAfter(start, m + k) == StepAfter(StepAfter(start, m), k)
    decreases m
  {
    if m > 0 {
      StepAfterAdd(NextStep(start), m - 1, k);
    }
  }

  /** Eight steps from any step come back to that step. */
  lemma StepAfterCycle(start: int)
    requires 0 <= start < 8
    ensures StepAfter(start, 8) == start
  {
    StepAfterAdd(start, 8 - start, start);
    StepAfterWraps(start);
    StepAfterFromZero(start);
  }

  /** The cycle 0, 1, ..., 7 itself. */
  lemma CycleFromZero(u: Clocked)
    ensures ClockCount(u, 0, 8) == PerCycle(u)
  {
    match u {
      case LengthCounter => assert ClockCount(LengthCounter, 0, 8) == 4;
      case SweepClock => assert ClockCount(SweepClock, 0, 8) == 2;
      case EnvelopeClock => assert ClockCount(EnvelopeClock, 0, 8) == 1;
    }
  }

  /** Any 8 consecutive steps, whatever step they start at, clock the length
      counter exactly four times (steps 0, 2, 4, 6), the sweep exactly twice
      (steps 2, 6) and the envelope exactly once (step 7). */
  lemma WindowCount(u: Clocked, start: int)
    requires 0 <= start < 8
    ensures ClockCount(u, start, 8) == PerCycle(u)
  {
    // rotate the window so that it starts at step 0
    StepAfterWraps(start);
    ClockCountSplit(u, start, 8 - start, start);
    StepAfterFromZero(start);
    ClockCountSplit(u, 0, start, 8 - start);
    CycleFromZero(u);
  }
}
