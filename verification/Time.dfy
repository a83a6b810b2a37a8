/** The machine timer: a 64-bit tick counter, and idling until a deadline. */
module Time {
  import opened Wrappers
  import opened Protocol

  /** 10 MHz. */
  const TICKS_PER_SEC: nat := 10_000_000
  const COUNTER_RANGE: nat := 0x1_0000_0000_0000_0000

  /** `now` is the number of ticks since reset. `drift` is unknown and stands
      for everything that takes time between two looks at the clock. */
  class Clock {
    const drift: nat -> nat
    var now: nat
    var looks: nat

    constructor (drift: nat -> nat)
      ensures now == 0
    {
      this.drift := drift;
      now, looks := 0, 0;
    }

    /** `mtime`. The model ends when the counter would wrap. */
    method Mtime() returns (t: Outcome<u64>)
      modifies this
      ensures now == old(now) + drift(old(looks)) && looks == old(looks) + 1
      ensures t == if now < COUNTER_RANGE then Returned(now) else Panicked(ClockOverrun)
    {
      now := now + drift(looks);
      looks := looks + 1;
      t := if now < COUNTER_RANGE then Returned(now) else Panicked(ClockOverrun);
    }

    /** `arm_wakeup(deadline)` and `wfi`: sleeps until the deadline, or not at
        all if that has passed, and takes an unknown time to go on. */
    method WaitUntil(deadline: nat)
      modifies this
      ensures now == (if old(now) < deadline then deadline else old(now)) + drift(old(looks))
      ensures looks == old(looks) + 1
    {
      now := (if now < deadline then deadline else now) + drift(looks);
      looks := looks + 1;
    }

    /** Time taken by something other than waiting. */
    method Spend(ticks: nat)
      modifies this
      ensures now == old(now) + ticks && looks == old(looks)
    {
      now := now + ticks;
    }
  }
}
