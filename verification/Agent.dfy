/** The kernel's cooperative loop. */
module Agent {
  import opened Seqs
  import opened Wrappers
  import opened Protocol
  import opened Turn
  import opened Time
  import opened Driver
  import opened DriverLaws
  import opened Watchdog
  import opened WatchdogLaws
  import opened Engines
  import opened GoalDriver

  const GOAL_ID: GoalId := 1
  const MAX_STEPS: u32 := 8

  /** The contexts shown over some passes: those of the goal before each. */
  ghost function Contexts(g: Goal, t0: nat, timeout: u64, looks: seq<Look>): (shown: seq<TickContext>)
    requires g.Valid()
    ensures |shown| == |looks|
  {
    if looks == [] then []
    else
      var before := looks[..|looks| - 1];
      Contexts(g, t0, timeout, before) + [After(g, t0, timeout, before).goal.Context()]
  }

  lemma LogOfApplied(w: Watch, l: Look, timeout: u64)
    requires w.goal.Valid()
    ensures Log(w.goal, [l.answer]) == Emits(w.goal, l.answer)
    ensures Log(w.goal, [l.answer, Stalled]) == Emits(w.goal, l.answer) + Emits(Next(w.goal, l.answer), Stalled)
  {
    RunAppend(w.goal, [], l.answer);
    RunAppend(w.goal, [l.answer], Stalled);
    assert [] + [l.answer] == [l.answer] && [l.answer] + [Stalled] == [l.answer, Stalled];
    assert Log(w.goal, []) + Emits(w.goal, l.answer) == Emits(w.goal, l.answer);
  }

  /** The tick counter has run out. */
  predicate Overran(why: Panic, now: nat) {
    why.ClockOverrun? && COUNTER_RANGE <= now
  }

  /** First half of the loop's body: poll, and note when a new step is seen. */
  method PollAndMark(driver: GoalDriver, inf: Inference, lastStep: u32, stepStarted: u64, clock: Clock, sink: Sink)
    returns (o: Outcome<()>, lastStep': u32, stepStarted': u64, ghost r: TurnResult, ghost restart: nat)
    requires driver.Valid() && driver.state.Acting? && inf.Valid()
    requires {driver, sink, clock} !! inf.Objects()
    requires lastStep == driver.step && stepStarted <= clock.now
    modifies driver, clock, sink, inf.Objects()
    ensures sink.events == old(sink.events) || sink.events == old(sink.events) + Emits(old(driver.Value()), r)
    ensures old(clock.now) <= clock.now
    ensures o.Panicked? ==>
      || Overran(o.why, clock.now)
      || inf.Broke(old(inf.Asked()), old(inf.Answered()), o.why, old(clock.now), clock.now)
    ensures o.Returned? ==>
      && driver.Valid() && inf.Valid()
      && driver.Value() == Next(old(driver.Value()), r)
      && sink.events == old(sink.events) + Emits(old(driver.Value()), r)
      && inf.Asked() == old(inf.Asked()) + [old(driver.Value()).Context()]
      && inf.Answered() == old(inf.Answered()) + [r]
      && old(clock.now) <= restart <= clock.now && stepStarted' <= clock.now
      && lastStep' == driver.step
      && stepStarted' == (if driver.step != lastStep then restart else stepStarted)
  {
    hide Inference.Valid, Inference.Asked, Inference.Answered, Inference.NeverPends, Inference.Broke, Next, Emits;
    lastStep', stepStarted' := lastStep, stepStarted;
    o, r := driver.Poll(inf, clock, sink);
    restart := clock.now;
    if o.Returned? && driver.step != lastStep {
      lastStep' := driver.step;
      var t := clock.Mtime();
      if t.Panicked? {
        o := Panicked(t.why);
      } else {
        stepStarted', restart := t.value, t.value;
      }
    }
  }

  lemma StallCloses(g: Goal)
    requires g.Valid()
    ensures !Next(g, Stalled).Acting()
  {
  }

  lemma ReadsAsIs(t: u64)
    ensures Reading(t) == t
  {
  }

  /** Second half: check the time and stall the goal, or sleep. */
  method CheckOrSleep(driver: GoalDriver, timeout: u64, stepStarted: u64, clock: Clock, sink: Sink)
    returns (o: Outcome<()>, ghost check: nat)
    requires driver.Valid()
    modifies driver, clock, sink
    ensures driver.Valid() && old(clock.now) <= clock.now
    ensures o.Panicked? ==> sink.events == old(sink.events)
    ensures o.Panicked? ==> Overran(o.why, clock.now)
    ensures o.Returned? ==>
      && old(clock.now) <= check <= clock.now
      && (old(driver.state).Acting? ==> check < COUNTER_RANGE)
      && (driver.state.Acting? ==>
            && check == old(clock.now) + clock.drift(old(clock.looks))
            && clock.now == check + 100_000 + clock.drift(old(clock.looks) + 1))
      && if old(driver.state).Acting? && WrappingSub(Reading(check), Reading(stepStarted)) > timeout then
           && driver.Value() == Next(old(driver.Value()), Stalled)
           && sink.events == old(sink.events) + Emits(old(driver.Value()), Stalled)
         else
           && driver.Value() == old(driver.Value())
           && sink.events == old(sink.events)
  {
    hide Next, Emits, Reading, WrappingSub;
    ReadsAsIs(stepStarted);
    check := clock.now;
    if !driver.state.Acting? {
      return Returned(()), check;
    }
    var now := clock.Mtime();
    if now.Panicked? {
      return Panicked(now.why), check;
    }
    check := now.value;
    ReadsAsIs(now.value);
    if WrappingSub(now.value, stepStarted) > timeout {
      StallCloses(driver.Value());
      driver.Advance(Stalled, sink);
      assert !driver.Value().Acting();
    } else {
      clock.WaitUntil(now.value + IDLE_QUANTUM_TICKS);
    }
    return Returned(()), check;
  }

  /** The body of the loop of `drive_goal`. */
  method OnePass(driver: GoalDriver, inf: Inference, timeout: u64, lastStep: u32, stepStarted: u64,
                 clock: Clock, sink: Sink)
    returns (o: Outcome<()>, lastStep': u32, stepStarted': u64, ghost look: Look, ghost applied: seq<TurnResult>)
    requires driver.Valid() && driver.state.Acting? && inf.Valid()
    requires {driver, sink, clock} !! inf.Objects()
    requires lastStep == driver.step && stepStarted <= clock.now && stepStarted < COUNTER_RANGE
    modifies driver, clock, sink, inf.Objects()
    ensures sink.events == old(sink.events) + Log(old(driver.Value()), applied)
    ensures old(clock.now) <= clock.now
    ensures o.Panicked? ==>
      || Overran(o.why, clock.now)
      || inf.Broke(old(inf.Asked()), old(inf.Answered()), o.why, old(clock.now), clock.now)
    ensures o.Returned? ==> var w := Watch(old(driver.Value()), lastStep, stepStarted);
      && driver.Valid() && inf.Valid()
      && Watch(driver.Value(), lastStep', stepStarted') == Pass(w, look, timeout)
      && applied == Applied(w, look, timeout)
      && inf.Asked() == old(inf.Asked()) + [w.goal.Context()]
      && inf.Answered() == old(inf.Answered()) + [look.answer]
      && old(clock.now) <= look.restart <= look.check <= clock.now && stepStarted' <= clock.now
      && (Polled(w, look).goal.Acting() ==> look.check < COUNTER_RANGE)
      && (driver.state.Acting? ==> look.check + IDLE_QUANTUM_TICKS <= clock.now)
  {
    hide Inference.Valid, Inference.Asked, Inference.Answered, Inference.NeverPends, Inference.Broke;
    hide Next, Emits, Log, Pass, Fires, Applied, Polled, Overdue, WrappingSub, Reading;
    ghost var w := Watch(driver.Value(), lastStep, stepStarted);
    NothingLogged(w.goal, sink.events);
    applied := [];
    look := Look(Pending, 0, 0);
    ghost var r, restart, check;
    o, lastStep', stepStarted', r, restart := PollAndMark(driver, inf, lastStep, stepStarted, clock, sink);
    look := Look(r, restart, restart);
    LogOfApplied(w, look, timeout);
    if sink.events != old(sink.events) || o.Returned? {
      applied := [r];
    }
    if o.Returned? {
      o, check := CheckOrSleep(driver, timeout, stepStarted', clock, sink);
      if o.Returned? {
        look := look.(check := check);
        PassInHalves(w, look, timeout);
        Regroup(old(sink.events), Emits(w.goal, r), Emits(Next(w.goal, r), Stalled));
        applied := Applied(w, look, timeout);
      }
    }
  }

  /** A pass is the poll's half and then the check's half. */
  lemma PassInHalves(w: Watch, l: Look, timeout: u64)
    requires w.goal.Valid()
    ensures var g := Next(w.goal, l.answer);
      var started := if g.step != w.lastStep then l.restart else w.started;
      var lastStep := if g.step != w.lastStep then g.step else w.lastStep;
      && Polled(w, l).goal == g
      && if g.Acting() && WrappingSub(Reading(l.check), Reading(started)) > timeout then
           Applied(w, l, timeout) == [l.answer, Stalled]
           && Pass(w, l, timeout) == Watch(Next(g, Stalled), lastStep, started)
         else
           Applied(w, l, timeout) == [l.answer] && Pass(w, l, timeout) == Watch(g, lastStep, started)
  {
  }

  lemma NothingLogged(g: Goal, events: seq<GoalEvent>)
    requires g.Valid()
    ensures events + Log(g, []) == events
  {
  }

  /** `drive_goal`: poll, watch the clock, sleep, until the goal leaves Acting.
      `looks` records what each pass observed, from moment `t0` on, `rs` what
      was applied to the driver, and `began` when the last pass began. */
  method DriveGoal(inf: Inference, objective: string, timeout: u64, clock: Clock, sink: Sink)
    returns (o: Outcome<bool>, polls: nat,
             ghost t0: nat, ghost looks: seq<Look>, ghost rs: seq<TurnResult>, ghost began: nat)
    requires inf.Valid() && {sink, clock} !! inf.Objects()
    modifies clock, sink, inf.Objects()
    ensures sink.events == old(sink.events) + FullLog(NewGoal(objective), rs)
    ensures old(sink.events) <= sink.events
    ensures WellShaped(NewGoal(objective), Run(NewGoal(objective), rs), sink.events[|old(sink.events)|..], Settled(rs))
    ensures old(clock.now) <= t0
    ensures Trace(NewGoal(objective), t0, timeout, looks) && |looks| <= MostPasses(MAX_STEPS, timeout)
    ensures o.Returned? ==> rs == Results(NewGoal(objective), t0, timeout, looks) && polls == |looks|
    ensures o.Returned? ==>
      var f := Run(NewGoal(objective), rs);
      !f.Acting() && (o.value <==> f.state.Done?)
    ensures o.Panicked? ==>
      || Overran(o.why, clock.now)
      || (&& After(NewGoal(objective), t0, timeout, looks).goal.Acting() && NotBefore(t0, looks) <= began
          && inf.Broke(old(inf.Asked()) + Contexts(NewGoal(objective), t0, timeout, looks),
                       old(inf.Answered()) + Answers(looks), o.why, began, clock.now))
    ensures o.Returned? ==> inf.Valid() && inf.Answered() == old(inf.Answered()) + Answers(looks)
    ensures o.Returned? ==> inf.Asked() == old(inf.Asked()) + Contexts(NewGoal(objective), t0, timeout, looks)
  {
    hide Inference.Valid, Inference.Asked, Inference.Answered, Inference.NeverPends, Inference.Broke;
    hide Next, Emits, Log, Run, FullLog, Pass, Fires, Applied, Polled, After, Results, Answers, Contexts, Trace, NotBefore;
    hide WellShaped, Settled;
    var g := NewGoal(objective);
    polls, t0, looks, rs, began := 0, clock.now, [], [], clock.now;
    Beginning(g, timeout, sink.events, inf.Asked(), inf.Answered());
    var driver := new GoalDriver.Start(GOAL_ID, objective, MAX_STEPS, sink);
    var lastStep: u32 := driver.step;
    var reading := clock.Mtime();
    if reading.Panicked? {
      ToldInShape(g, old(sink.events), rs);
      return Panicked(reading.why), polls, t0, looks, rs, began;
    }
    var stepStarted: u64 := reading.value;
    t0 := stepStarted;
    while driver.state.Acting?
      invariant driver.Valid() && inf.Valid() && fresh(driver)
      invariant Watch(driver.Value(), lastStep, stepStarted) == After(g, t0, timeout, looks)
      invariant lastStep == driver.step && stepStarted <= clock.now
      invariant driver.Value() == Run(g, rs) && rs == Results(g, t0, timeout, looks)
      invariant sink.events == old(sink.events) + FullLog(g, rs)
      invariant inf.Answered() == old(inf.Answered()) + Answers(looks)
      invariant inf.Asked() == old(inf.Asked()) + Contexts(g, t0, timeout, looks)
      invariant Trace(g, t0, timeout, looks) && polls == |looks| <= MostPasses(MAX_STEPS, timeout)
      invariant driver.state.Acting? ==> NotBefore(t0, looks) <= clock.now
      decreases MostPasses(MAX_STEPS, timeout) - polls
    {
      polls := polls + 1;
      began := clock.now;
      var pass;
      ghost var look, applied;
      pass, lastStep, stepStarted, look, applied :=
        OnePass(driver, inf, timeout, lastStep, stepStarted, clock, sink);
      RunSplit(g, rs, applied);
      Regroup(old(sink.events), FullLog(g, rs), Log(Run(g, rs), applied));
      if pass.Panicked? {
        rs := rs + applied;
        ToldInShape(g, old(sink.events), rs);
        return Panicked(pass.why), polls, t0, looks, rs, began;
      }
      OneMore(g, t0, timeout, looks, look);
      Regroup(old(inf.Answered()), Answers(looks), [look.answer]);
      Regroup(old(inf.Asked()), Contexts(g, t0, timeout, looks), [After(g, t0, timeout, looks).goal.Context()]);
      looks, rs := looks + [look], rs + applied;
    }
    ToldInShape(g, old(sink.events), rs);
    o := Returned(driver.state.Done?);
  }

  /** The log of a run, after whatever was told before, has its shape. */
  lemma ToldInShape(g: Goal, before: seq<GoalEvent>, rs: seq<TurnResult>)
    requires g.Valid() && g.Acting() && g.step == 1 && g.steer == None
    ensures var told := before + FullLog(g, rs);
      before <= told && WellShaped(g, Run(g, rs), told[|before|..], Settled(rs))
  {
    hide WellShaped, FullLog, Run, Settled;
    LogShape(g, rs);
    assert (before + FullLog(g, rs))[|before|..] == FullLog(g, rs);
  }

  /** The goal that `drive_goal` creates. */
  function NewGoal(objective: string): (g: Goal)
    ensures g.Valid() && g.Acting() && g.step == 1 && g.steer == None
    ensures g.goal == 1 && g.objective == objective && g.maxSteps == 8
  {
    Fresh(GOAL_ID, objective, MAX_STEPS)
  }

  lemma Beginning(g: Goal, timeout: u64, events: seq<GoalEvent>, asked: seq<TickContext>, answered: seq<TurnResult>)
    requires g.Valid() && g.Acting()
    ensures forall t0 :: Trace(g, t0, timeout, []) && NotBefore(t0, []) == t0
    ensures forall t0 :: After(g, t0, timeout, []) == Watch(g, g.step, t0)
    ensures forall t0 :: Results(g, t0, timeout, []) == [] && Contexts(g, t0, timeout, []) == []
    ensures Answers([]) == [] && Run(g, []) == g && FullLog(g, []) == [g.Event("")]
    ensures asked + [] == asked && answered + [] == answered
  {
    forall t0 ensures Trace(g, t0, timeout, []) && NotBefore(t0, []) == t0 {
      TraceStart(g, t0, timeout);
    }
  }

  /** One more pass, on every record of the run. */
  lemma OneMore(g: Goal, t0: nat, timeout: u64, looks: seq<Look>, l: Look)
    requires g.Valid() && g.step == 1
    requires Trace(g, t0, timeout, looks) && After(g, t0, timeout, looks).goal.Acting()
    requires NotBefore(t0, looks) <= l.restart <= l.check
    requires Polled(After(g, t0, timeout, looks), l).goal.Acting() ==> l.check < COUNTER_RANGE
    ensures var w, looks' := After(g, t0, timeout, looks), looks + [l];
      && After(g, t0, timeout, looks') == Pass(w, l, timeout)
      && Results(g, t0, timeout, looks') == Results(g, t0, timeout, looks) + Applied(w, l, timeout)
      && After(g, t0, timeout, looks').goal == Run(g, Results(g, t0, timeout, looks'))
      && After(g, t0, timeout, looks').lastStep == After(g, t0, timeout, looks').goal.step
      && Answers(looks') == Answers(looks) + [l.answer]
      && Contexts(g, t0, timeout, looks') == Contexts(g, t0, timeout, looks) + [w.goal.Context()]
      && Trace(g, t0, timeout, looks') && NotBefore(t0, looks') == l.check + IDLE_QUANTUM_TICKS
      && |looks'| <= MostPasses(g.maxSteps, timeout)
  {
    var looks' := looks + [l];
    AfterAppend(g, t0, timeout, looks, l);
    GoalIsRun(g, t0, timeout, looks');
    TraceAppend(g, t0, timeout, looks, l);
    LoopIsBounded(g, t0, timeout, looks');
    Last(looks, l);
  }
}
