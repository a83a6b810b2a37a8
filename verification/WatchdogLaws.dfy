/** When the watchdog fires, and how long the loop can run. */
module WatchdogLaws {
  import opened Seqs
  import opened Protocol
  import opened Turn
  import opened Time
  import opened Driver
  import opened DriverLaws
  import opened Watchdog

  /** `wrapping_sub` of two readings is the time between them, up to whole
      turns of the counter. */
  lemma WrappingElapsed(from_: nat, to: nat)
    requires from_ <= to
    ensures WrappingSub(Reading(to), Reading(from_)) == (to - from_) % COUNTER_RANGE
    ensures WrappingSub(Reading(to), Reading(from_)) == to - from_ <==> to - from_ < COUNTER_RANGE
  {
    var n := 0x1_0000_0000_0000_0000;
    assert to == (to / n) * n + to % n && from_ == (from_ / n) * n + from_ % n;
  }

  lemma AfterAppend(g: Goal, t0: nat, timeout: u64, looks: seq<Look>, l: Look)
    requires g.Valid()
    ensures var w := After(g, t0, timeout, looks);
      && After(g, t0, timeout, looks + [l]) == Pass(w, l, timeout)
      && Results(g, t0, timeout, looks + [l]) == Results(g, t0, timeout, looks) + Applied(w, l, timeout)
      && Answers(looks + [l]) == Answers(looks) + [l.answer]
  {
    Last(looks, l);
  }

  /** The loop's goal is the driver's run over everything applied. */
  lemma {:induction false} GoalIsRun(g: Goal, t0: nat, timeout: u64, looks: seq<Look>)
    requires g.Valid()
    ensures After(g, t0, timeout, looks).goal == Run(g, Results(g, t0, timeout, looks))
    ensures After(g, t0, timeout, looks).lastStep == After(g, t0, timeout, looks).goal.step
  {
    if looks == [] {
    } else {
      hide Next, Pass, Fires, Applied, Settled, Emits;
      var before, l := looks[..|looks| - 1], looks[|looks| - 1];
      GoalIsRun(g, t0, timeout, before);
      var rs := Results(g, t0, timeout, before);
      RunAppend(g, rs, l.answer);
      RunAppend(g, rs + [l.answer], Stalled);
      PassIsRun(After(g, t0, timeout, before), l, timeout);
      Regroup(rs, [l.answer], [Stalled]);
    }
  }

  lemma PassIsRun(w: Watch, l: Look, timeout: u64)
    requires w.goal.Valid() && w.lastStep == w.goal.step
    ensures var w' := Pass(w, l, timeout);
      && w'.lastStep == w'.goal.step
      && w'.started == (if w'.goal.step != w.goal.step then l.restart else w.started)
      && (Fires(w, l, timeout) ==>
            Applied(w, l, timeout) == [l.answer] + [Stalled] && w'.goal == Next(Next(w.goal, l.answer), Stalled))
      && (!Fires(w, l, timeout) ==> Applied(w, l, timeout) == [l.answer] && w'.goal == Next(w.goal, l.answer))
  {
  }

  // ── when a step was first observed ─────────────────────────────────────

  /** The step in force after the first `j` passes. */
  function StepAt(g: Goal, t0: nat, timeout: u64, looks: seq<Look>, j: nat): u32
    requires g.Valid() && j <= |looks|
  {
    After(g, t0, timeout, looks[..j]).goal.step
  }

  /** The step in force after pass `n` was first seen by pass `i`, at `t`. */
  ghost predicate SeenIn(g: Goal, t0: nat, timeout: u64, looks: seq<Look>, n: nat, t: nat, i: nat)
    requires g.Valid() && n <= |looks|
  {
    && i < n && t == looks[i].restart
    && StepAt(g, t0, timeout, looks, i) != StepAt(g, t0, timeout, looks, n)
    && forall j :: i < j <= n ==> StepAt(g, t0, timeout, looks, j) == StepAt(g, t0, timeout, looks, n)
  }

  /** The step in force after pass `n` was first seen at `t`: at the start, if
      no pass has changed the step, and otherwise in the last pass that did. */
  ghost predicate FirstSeen(g: Goal, t0: nat, timeout: u64, looks: seq<Look>, n: nat, t: nat)
    requires g.Valid() && n <= |looks|
  {
    || (t == t0 && forall j :: 0 <= j <= n ==> StepAt(g, t0, timeout, looks, j) == StepAt(g, t0, timeout, looks, n))
    || exists i :: SeenIn(g, t0, timeout, looks, n, t, i)
  }

  /** `step_started` is the moment at which the step in force was first seen. */
  lemma {:induction false} StartedIsFirstSeen(g: Goal, t0: nat, timeout: u64, looks: seq<Look>, n: nat)
    requires g.Valid() && n <= |looks|
    ensures FirstSeen(g, t0, timeout, looks, n, After(g, t0, timeout, looks[..n]).started)
  {
    if n == 0 {
    } else {
      var m := n - 1;
      StartedIsFirstSeen(g, t0, timeout, looks, m);
      StartedStep(g, t0, timeout, looks, m);
      hide After, StepAt;
      var t := After(g, t0, timeout, looks[..m]).started;
      if StepAt(g, t0, timeout, looks, n) != StepAt(g, t0, timeout, looks, m) {
        assert SeenIn(g, t0, timeout, looks, n, looks[m].restart, m);
      } else {
        SameStepSameSight(g, t0, timeout, looks, m, t);
      }
    }
  }

  lemma SameStepSameSight(g: Goal, t0: nat, timeout: u64, looks: seq<Look>, m: nat, t: nat)
    requires g.Valid() && m < |looks| && FirstSeen(g, t0, timeout, looks, m, t)
    requires StepAt(g, t0, timeout, looks, m + 1) == StepAt(g, t0, timeout, looks, m)
    ensures FirstSeen(g, t0, timeout, looks, m + 1, t)
  {
    hide StepAt;
    if i: nat :| SeenIn(g, t0, timeout, looks, m, t, i) {
      assert SeenIn(g, t0, timeout, looks, m + 1, t, i);
    }
  }

  lemma StartedStep(g: Goal, t0: nat, timeout: u64, looks: seq<Look>, n: nat)
    requires g.Valid() && n < |looks|
    ensures After(g, t0, timeout, looks[..n + 1]).started ==
      if StepAt(g, t0, timeout, looks, n + 1) != StepAt(g, t0, timeout, looks, n) then looks[n].restart
      else After(g, t0, timeout, looks[..n]).started
  {
    hide Pass, Applied, Results, Answers;
    assert looks[..n + 1] == looks[..n] + [looks[n]];
    AfterAppend(g, t0, timeout, looks[..n], looks[n]);
    GoalIsRun(g, t0, timeout, looks[..n]);
    PassIsRun(After(g, t0, timeout, looks[..n]), looks[n], timeout);
  }

  // ── exactness ──────────────────────────────────────────────────────────

  /** The real time between the first sight of the step in force and the check
      of pass `j`, as of that pass's poll. */
  function Elapsed(g: Goal, t0: nat, timeout: u64, looks: seq<Look>, j: nat): int
    requires g.Valid() && j < |looks|
  {
    looks[j].check - Polled(After(g, t0, timeout, looks[..j]), looks[j]).started
  }

  lemma {:induction false} StartedInOrder(g: Goal, t0: nat, timeout: u64, looks: seq<Look>, n: nat)
    requires g.Valid() && n <= |looks| && Ordered(t0, looks)
    ensures t0 <= After(g, t0, timeout, looks[..n]).started
    ensures forall j :: n <= j < |looks| ==> After(g, t0, timeout, looks[..n]).started <= looks[j].check
  {
    if n == 0 {
    } else {
      StartedInOrder(g, t0, timeout, looks, n - 1);
      StartedStep(g, t0, timeout, looks, n - 1);
    }
  }

  lemma PolledStarted(g: Goal, t0: nat, timeout: u64, looks: seq<Look>, j: nat)
    requires g.Valid() && j < |looks| && Ordered(t0, looks)
    ensures t0 <= Polled(After(g, t0, timeout, looks[..j]), looks[j]).started <= looks[j].check
  {
    StartedInOrder(g, t0, timeout, looks, j);
  }

  /** Watchdog exactness. If no step outlasts the counter's range, the
      watchdog fires in pass `j` exactly when the goal is still acting after
      the poll and more than `timeout` ticks have really passed since its step
      was first seen. */
  lemma FiresExactly(g: Goal, t0: nat, timeout: u64, looks: seq<Look>, j: nat)
    requires g.Valid() && j < |looks| && Ordered(t0, looks) && Brief(g, t0, timeout, looks)
    ensures Fires(After(g, t0, timeout, looks[..j]), looks[j], timeout) <==>
      Checked(g, t0, timeout, looks, j) && Elapsed(g, t0, timeout, looks, j) > timeout
  {
    PolledStarted(g, t0, timeout, looks, j);
    WrappingElapsed(Polled(After(g, t0, timeout, looks[..j]), looks[j]).started, looks[j].check);
  }

  /** Beyond the counter's range it is exact only up to whole turns: it fires
      when the remainder exceeds the timeout. */
  lemma FiresModulo(g: Goal, t0: nat, timeout: u64, looks: seq<Look>, j: nat)
    requires g.Valid() && j < |looks| && Ordered(t0, looks)
    ensures Fires(After(g, t0, timeout, looks[..j]), looks[j], timeout) <==>
      Checked(g, t0, timeout, looks, j) && Elapsed(g, t0, timeout, looks, j) % COUNTER_RANGE > timeout
  {
    PolledStarted(g, t0, timeout, looks, j);
    WrappingElapsed(Polled(After(g, t0, timeout, looks[..j]), looks[j]).started, looks[j].check);
  }

  /** A step that is left alone for exactly one turn of the counter looks fresh. */
  lemma WholeTurnIsMissed(g: Goal, timeout: u64)
    requires g.Valid() && g.Acting()
    ensures !Fires(Watch(g, g.step, 0), Look(Pending, 0, COUNTER_RANGE), timeout)
  {
    WrappingElapsed(0, COUNTER_RANGE);
  }

  /** A pass that leaves the goal acting has made its check and found the step
      not overdue; its variables are those of the poll. */
  lemma ActingMeansInTime(g: Goal, t0: nat, timeout: u64, looks: seq<Look>, j: nat)
    requires g.Valid() && Ordered(t0, looks) && Brief(g, t0, timeout, looks)
    requires j < |looks| && After(g, t0, timeout, looks[..j + 1]).goal.Acting()
    ensures Checked(g, t0, timeout, looks, j) && 0 <= Elapsed(g, t0, timeout, looks, j) <= timeout
    ensures 0 <= looks[j].check - After(g, t0, timeout, looks[..j + 1]).started <= timeout
  {
    FiresExactly(g, t0, timeout, looks, j);
    PolledStarted(g, t0, timeout, looks, j);
    assert looks[..j + 1] == looks[..j] + [looks[j]];
    AfterAppend(g, t0, timeout, looks[..j], looks[j]);
  }

  /** The watchdog fires at the first overdue check: in a loop that ran, no
      earlier check of any step was overdue. */
  lemma EarlierChecksPassed(g: Goal, t0: nat, timeout: u64, looks: seq<Look>, j: nat)
    requires g.Valid() && Ran(g, t0, timeout, looks) && Ordered(t0, looks) && Brief(g, t0, timeout, looks)
    requires j + 1 < |looks|
    ensures Checked(g, t0, timeout, looks, j) && Elapsed(g, t0, timeout, looks, j) <= timeout
  {
    assert After(g, t0, timeout, looks[..j + 1]).goal.Acting();
    ActingMeansInTime(g, t0, timeout, looks, j);
  }

  /** A stall is prompt: it comes more than the timeout after the step was first
      seen, and by no more than one idle quantum and the time that passes
      between the end of a sleep and the next check. */
  lemma StallIsPrompt(g: Goal, t0: nat, timeout: u64, looks: seq<Look>, j: nat, slack: nat)
    requires g.Valid() && Ran(g, t0, timeout, looks) && Ordered(t0, looks) && Brief(g, t0, timeout, looks)
    requires j < |looks| && Fires(After(g, t0, timeout, looks[..j]), looks[j], timeout)
    requires looks[j].check <= (if j == 0 then t0 else looks[j - 1].check + 100_000) + slack
    ensures timeout < Elapsed(g, t0, timeout, looks, j) <= timeout + 100_000 + slack
  {
    hide Fires, After, Pass, Checked;
    FiresExactly(g, t0, timeout, looks, j);
    StartOrRestart(After(g, t0, timeout, looks[..j]), looks[j]);
    if j == 0 {
      StartsAtStart(g, t0, timeout, looks);
    } else {
      assert After(g, t0, timeout, looks[..j - 1 + 1]).goal.Acting();
      ActingMeansInTime(g, t0, timeout, looks, j - 1);
    }
  }

  lemma StartOrRestart(w: Watch, l: Look)
    requires w.goal.Valid()
    ensures Polled(w, l).started == w.started || Polled(w, l).started == l.restart
  {
  }

  lemma StartsAtStart(g: Goal, t0: nat, timeout: u64, looks: seq<Look>)
    requires g.Valid()
    ensures After(g, t0, timeout, looks[..0]).started == t0
  {
  }

  /** The poll comes first: a turn it completes is applied before any stall,
      and a goal it closes is never stalled. */
  lemma PollWins(w: Watch, l: Look, timeout: u64)
    requires w.goal.Valid() && w.lastStep == w.goal.step
    ensures Applied(w, l, timeout)[0] == l.answer
    ensures !Next(w.goal, l.answer).Acting() ==>
      Applied(w, l, timeout) == [l.answer] && Pass(w, l, timeout).goal == Next(w.goal, l.answer)
    ensures Fires(w, l, timeout) && !l.answer.Pending? && w.goal.Acting() ==>
      Pass(w, l, timeout).goal.step == w.goal.step + 1
  {
  }

  // ── the bound ──────────────────────────────────────────────────────────

  /** `steps` whole steps and `rest` more passes. */
  function PassBudget(steps: nat, timeout: u64, rest: nat): nat {
    MostPasses(steps, timeout) + rest
  }

  lemma NextStepBudget(steps: nat, timeout: u64, rest: nat)
    requires rest <= PassesPerStep(timeout)
    ensures PassBudget(steps, timeout, rest) <= PassBudget(steps + 1, timeout, 0)
  {
  }

  lemma BudgetGrows(few: nat, many: nat, timeout: u64)
    requires few <= many
    ensures PassBudget(few, timeout, 0) <= PassBudget(many, timeout, 0)
  {
    assert few * PassesPerStep(timeout) <= many * PassesPerStep(timeout);
  }

  /** One more pass, in the same step a quantum later or in the next step. */
  lemma BudgetStep(steps: nat, timeout: u64, n: nat, before: nat, after: nat)
    requires before <= timeout && n <= PassBudget(steps, timeout, Quanta(before) + 1)
    ensures before + IDLE_QUANTUM_TICKS <= after ==> n + 1 <= PassBudget(steps, timeout, Quanta(after) + 1)
    ensures n + 1 <= PassBudget(steps + 1, timeout, Quanta(after) + 1)
  {
    NextStepBudget(steps, timeout, Quanta(before) + 2);
  }

  lemma StepMoves(g: Goal, t0: nat, timeout: u64, looks: seq<Look>, j: nat)
    requires g.Valid() && j < |looks| && After(g, t0, timeout, looks[..j + 1]).goal.Acting()
    ensures StepAt(g, t0, timeout, looks, j) <= StepAt(g, t0, timeout, looks, j + 1)
         <= StepAt(g, t0, timeout, looks, j) + 1
    ensures 1 <= StepAt(g, t0, timeout, looks, j) && StepAt(g, t0, timeout, looks, j + 1) <= g.maxSteps
  {
    assert looks[..j + 1] == looks[..j] + [looks[j]];
    AfterAppend(g, t0, timeout, looks[..j], looks[j]);
  }

  lemma StartsAtOne(g: Goal, t0: nat, timeout: u64, looks: seq<Look>)
    requires g.Valid() && g.step == 1
    ensures StepAt(g, t0, timeout, looks, 0) == 1
  {
  }

  /** While the goal is acting, the number of passes is bounded by the steps
      used up and the time spent in the current one. */
  lemma {:induction false} PassesSoFar(g: Goal, t0: nat, timeout: u64, looks: seq<Look>, n: nat)
    requires g.Valid() && g.step == 1 && Ran(g, t0, timeout, looks)
    requires Ordered(t0, looks) && Spaced(looks) && Brief(g, t0, timeout, looks)
    requires n < |looks| && After(g, t0, timeout, looks[..n + 1]).goal.Acting()
    ensures var started := After(g, t0, timeout, looks[..n + 1]).started;
      && 0 <= looks[n].check - started <= timeout
      && n + 1 <= PassBudget(StepAt(g, t0, timeout, looks, n + 1) - 1, timeout, Quanta(looks[n].check - started) + 1)
  {
    hide *;
    ActingMeansInTime(g, t0, timeout, looks, n);
    StartedStep(g, t0, timeout, looks, n);
    StepMoves(g, t0, timeout, looks, n);
    StartsAtOne(g, t0, timeout, looks);
    if n == 0 {
      BudgetStart(timeout, looks[n].check - After(g, t0, timeout, looks[..n + 1]).started, StepAt(g, t0, timeout, looks, 1));
    } else {
      var m := n - 1;
      RanAndSlept(g, t0, timeout, looks, m);
      PassesSoFar(g, t0, timeout, looks, m);
      var before := looks[m].check - After(g, t0, timeout, looks[..n]).started;
      var after := looks[n].check - After(g, t0, timeout, looks[..n + 1]).started;
      BudgetStep(StepAt(g, t0, timeout, looks, n) - 1, timeout, n, before, after);
    }
  }

  lemma BudgetStart(timeout: u64, after: nat, step: u32)
    requires 1 <= step
    ensures 1 <= PassBudget(step - 1, timeout, Quanta(after) + 1)
  {
  }

  lemma RanAndSlept(g: Goal, t0: nat, timeout: u64, looks: seq<Look>, m: nat)
    requires g.Valid() && Ran(g, t0, timeout, looks) && Spaced(looks) && m + 1 < |looks|
    ensures After(g, t0, timeout, looks[..m + 1]).goal.Acting()
    ensures looks[m].check + IDLE_QUANTUM_TICKS <= looks[m + 1].check
  {
  }

  /** Bounded termination: whatever the engine answers, even if it stays
      pending for ever, the loop ends within the pass budget of its steps. */
  lemma LoopIsBounded(g: Goal, t0: nat, timeout: u64, looks: seq<Look>)
    requires g.Valid() && g.step == 1 && Ran(g, t0, timeout, looks)
    requires Ordered(t0, looks) && Spaced(looks) && Brief(g, t0, timeout, looks)
    ensures |looks| <= MostPasses(g.maxSteps, timeout) == g.maxSteps * (timeout / 100_000 + 2)
  {
    assert 1 <= g.maxSteps;
    hide *;
    if |looks| <= 1 {
      OneBudget(g.maxSteps, timeout, |looks|);
    } else {
      LastPass(g, t0, timeout, looks, |looks| - 2);
    }
  }

  lemma LastPass(g: Goal, t0: nat, timeout: u64, looks: seq<Look>, m: nat)
    requires g.Valid() && g.step == 1 && Ran(g, t0, timeout, looks)
    requires Ordered(t0, looks) && Spaced(looks) && Brief(g, t0, timeout, looks)
    requires m + 2 == |looks|
    ensures m + 2 <= MostPasses(g.maxSteps, timeout)
  {
    hide *;
    RanAndSlept(g, t0, timeout, looks, m);
    PassesSoFar(g, t0, timeout, looks, m);
    StepMoves(g, t0, timeout, looks, m);
    var spent := looks[m].check - After(g, t0, timeout, looks[..m + 1]).started;
    LastPassBudget(StepAt(g, t0, timeout, looks, m + 1), g.maxSteps, timeout, m + 1, spent);
  }

  lemma OneBudget(steps: nat, timeout: u64, n: nat)
    requires n <= 1 && 1 <= steps
    ensures n <= MostPasses(steps, timeout)
  {
    BudgetGrows(1, steps, timeout);
  }

  /** The last pass fits into the budget of the step it belongs to. */
  lemma LastPassBudget(step: nat, steps: nat, timeout: u64, n: nat, spent: nat)
    requires 1 <= step <= steps && spent <= timeout
    requires n <= PassBudget(step - 1, timeout, Quanta(spent) + 1)
    ensures n + 1 <= MostPasses(steps, timeout)
  {
    NextStepBudget(step - 1, timeout, Quanta(spent) + 2);
    BudgetGrows(step, steps, timeout);
  }

  // ── extending a trace ──────────────────────────────────────────────────

  /** All that is known of the passes of a loop that ran. */
  ghost predicate Trace(g: Goal, t0: nat, timeout: u64, looks: seq<Look>)
    requires g.Valid()
  {
    Ran(g, t0, timeout, looks) && Ordered(t0, looks) && Spaced(looks) && Brief(g, t0, timeout, looks)
  }

  /** The earliest moment of the next pass. */
  function NotBefore(t0: nat, looks: seq<Look>): nat {
    if looks == [] then t0 else looks[|looks| - 1].check + IDLE_QUANTUM_TICKS
  }

  lemma TraceStart(g: Goal, t0: nat, timeout: u64)
    requires g.Valid() && g.Acting()
    ensures Trace(g, t0, timeout, []) && NotBefore(t0, []) == t0
    ensures After(g, t0, timeout, []) == Watch(g, g.step, t0)
  {
  }

  lemma TraceAppend(g: Goal, t0: nat, timeout: u64, looks: seq<Look>, l: Look)
    requires g.Valid() && Trace(g, t0, timeout, looks) && After(g, t0, timeout, looks).goal.Acting()
    requires NotBefore(t0, looks) <= l.restart <= l.check
    requires Polled(After(g, t0, timeout, looks), l).goal.Acting() ==> l.check < COUNTER_RANGE
    ensures Trace(g, t0, timeout, looks + [l])
  {
    RanAppend(g, t0, timeout, looks, l);
    OrderedAppend(t0, looks, l);
    BriefAppend(g, t0, timeout, looks, l);
  }

  lemma RanAppend(g: Goal, t0: nat, timeout: u64, looks: seq<Look>, l: Look)
    requires g.Valid() && Ran(g, t0, timeout, looks) && After(g, t0, timeout, looks).goal.Acting()
    ensures Ran(g, t0, timeout, looks + [l])
  {
    hide After;
    forall j | 0 <= j < |looks + [l]| ensures After(g, t0, timeout, (looks + [l])[..j]).goal.Acting() {
      assert (looks + [l])[..j] == looks[..j];
      assert j == |looks| ==> looks[..j] == looks;
    }
  }

  lemma OrderedAppend(t0: nat, looks: seq<Look>, l: Look)
    requires Ordered(t0, looks) && Spaced(looks) && NotBefore(t0, looks) <= l.restart <= l.check
    ensures Ordered(t0, looks + [l]) && Spaced(looks + [l])
  {
    forall i | 0 <= i < |looks| ensures looks[i].check <= l.restart && t0 <= l.restart {
      assert i < |looks| - 1 ==> looks[i].check <= looks[|looks| - 1].restart;
    }
  }

  lemma BriefAppend(g: Goal, t0: nat, timeout: u64, looks: seq<Look>, l: Look)
    requires g.Valid() && Brief(g, t0, timeout, looks)
    requires Polled(After(g, t0, timeout, looks), l).goal.Acting() ==> l.check < COUNTER_RANGE
    ensures Brief(g, t0, timeout, looks + [l])
  {
    hide After, Polled;
    var longer := looks + [l];
    forall j | 0 <= j < |longer| && Checked(g, t0, timeout, longer, j)
      ensures longer[j].check - Polled(After(g, t0, timeout, longer[..j]), longer[j]).started < COUNTER_RANGE
    {
      assert longer[..j] == looks[..j];
      if j == |looks| {
        assert looks[..j] == looks;
      } else {
        assert Checked(g, t0, timeout, looks, j);
      }
    }
  }
}
