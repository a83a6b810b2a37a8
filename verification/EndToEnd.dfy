/** The polled client against a synchronous driver: over any schedule, the log
    of the loop is the log of a driver that asks the gateway and waits. */
module EndToEnd {
  import opened Seqs
  import opened Wrappers
  import opened Protocol
  import opened Turn
  import opened Verdicts
  import opened Driver
  import opened DriverLaws
  import opened Watchdog
  import opened WatchdogLaws
  import opened GatewayTurns
  import opened Agent

  // ── the synchronous driver ─────────────────────────────────────────────

  /** The gateway's verdict on the last of these prompts. */
  ghost function VerdictOn(s: Session, prompts: seq<string>): Verdict
    requires s.env.Sane()
  {
    var replies := RepliesTo(s, prompts);
    if 0 < |prompts| <= |replies| then VerdictOf(replies[|prompts| - 1]) else CONTINUE_BY_DEFAULT
  }

  /** The prompts of a synchronous run: one per result, built from the goal as
      it stood. */
  function PromptsFor(g: Goal, rs: seq<TurnResult>): seq<string>
    requires g.Valid()
  {
    if rs == [] then []
    else
      var before := rs[..|rs| - 1];
      PromptsFor(g, before) + [StepDirective(Run(g, before).Context())]
  }

  /** The first `n` turns of the synchronous driver: while the goal is acting,
      send the directive, take the whole reply, apply its verdict. */
  ghost function Synchronous(s: Session, g: Goal, n: nat): seq<TurnResult>
    requires s.env.Sane() && g.Valid()
  {
    if n == 0 then []
    else
      var rs := Synchronous(s, g, n - 1);
      var now := Run(g, rs);
      if !now.Acting() then rs
      else rs + [Completed(VerdictOn(s, PromptsFor(g, rs) + [StepDirective(now.Context())]))]
  }

  /** The log of the synchronous driver. */
  ghost function SynchronousLog(s: Session, g: Goal): seq<GoalEvent>
    requires s.env.Sane() && g.Valid()
  {
    FullLog(g, Synchronous(s, g, g.maxSteps))
  }

  // ── the polled history follows it ──────────────────────────────────────

  /** The contexts shown are those of a goal driven by the answers. */
  ghost predicate DrivenBy(g: Goal, asked: seq<TickContext>, answered: seq<TurnResult>)
    requires g.Valid()
  {
    && |asked| == |answered|
    && forall i :: 0 <= i < |asked| ==>
         Run(g, answered[..i]).Acting() && asked[i] == Run(g, answered[..i]).Context()
  }

  lemma DrivenByPrefix(g: Goal, asked: seq<TickContext>, answered: seq<TurnResult>, n: nat)
    requires g.Valid() && DrivenBy(g, asked, answered) && n <= |asked|
    ensures DrivenBy(g, asked[..n], answered[..n])
  {
    hide Run;
    forall i | 0 <= i < n ensures
      Run(g, answered[..n][..i]).Acting() && asked[..n][i] == Run(g, answered[..n][..i]).Context()
    {
      assert answered[..n][..i] == answered[..i];
    }
  }

  /** One poll of a faithful history. */
  lemma FaithfulPoll(s: Session, asked: seq<TickContext>, answered: seq<TurnResult>, ctx: TickContext, r: TurnResult)
    requires s.env.Sane() && Faithful(s, asked + [ctx], answered + [r]) && |asked| == |answered|
    ensures Faithful(s, asked, answered)
    ensures r.Pending? ||
      (InFlight(answered) && r.Completed? && r.verdict == VerdictOn(s, PromptsSent(asked, answered)))
    ensures PromptsSent(asked + [ctx], answered + [r]) ==
      if InFlight(answered) then PromptsSent(asked, answered)
      else PromptsSent(asked, answered) + [StepDirective(ctx)]
    ensures InFlight(answered + [r]) == r.Pending?
  {
    hide StepDirective, VerdictOf, RepliesTo;
    Last(asked, ctx);
    Last(answered, r);
  }

  lemma DrivenPoll(g: Goal, asked: seq<TickContext>, answered: seq<TurnResult>, ctx: TickContext, r: TurnResult)
    requires g.Valid() && |asked| == |answered| && DrivenBy(g, asked + [ctx], answered + [r])
    ensures DrivenBy(g, asked, answered)
    ensures Run(g, answered).Acting() && ctx == Run(g, answered).Context()
  {
    DrivenByPrefix(g, asked + [ctx], answered + [r], |asked|);
    Last(asked, ctx);
    Last(answered, r);
  }

  lemma SynchronousTurn(s: Session, g: Goal, n: nat)
    requires s.env.Sane() && g.Valid() && Run(g, Synchronous(s, g, n)).Acting()
    ensures var rs := Synchronous(s, g, n);
      var prompts := PromptsFor(g, rs) + [StepDirective(Run(g, rs).Context())];
      var r := Completed(VerdictOn(s, prompts));
      Synchronous(s, g, n + 1) == rs + [r] && PromptsFor(g, rs + [r]) == prompts
  {
    hide StepDirective, VerdictOn, Run;
    var rs := Synchronous(s, g, n);
    Last(rs, Completed(VerdictOn(s, PromptsFor(g, rs) + [StepDirective(Run(g, rs).Context())])));
  }

  /** A polled history is in step with the synchronous driver: its completed
      turns are that driver's first turns, and it has sent the same prompts,
      and the next one if a turn is in flight. */
  ghost predicate Follows(s: Session, g: Goal, asked: seq<TickContext>, answered: seq<TurnResult>)
    requires s.env.Sane() && g.Valid() && |asked| == |answered|
  {
    var c := Settled(answered);
    && c == Synchronous(s, g, |c|)
    && Run(g, answered) == Run(g, c)
    && PromptsSent(asked, answered) == PromptsFor(g, c) +
         (if InFlight(answered) then [StepDirective(Run(g, c).Context())] else [])
  }

  lemma FollowsMeans(s: Session, g: Goal, asked: seq<TickContext>, answered: seq<TurnResult>, c: seq<TurnResult>)
    requires s.env.Sane() && g.Valid() && |asked| == |answered| && c == Settled(answered)
    ensures Follows(s, g, asked, answered) <==>
      && c == Synchronous(s, g, |c|)
      && Run(g, answered) == Run(g, c)
      && (InFlight(answered) ==>
            PromptsSent(asked, answered) == PromptsFor(g, c) + [StepDirective(Run(g, c).Context())])
      && (!InFlight(answered) ==> PromptsSent(asked, answered) == PromptsFor(g, c))
  {
    hide Run, PromptsFor, StepDirective, PromptsSent, Settled, Synchronous;
    assert PromptsFor(g, c) + [] == PromptsFor(g, c);
  }

  lemma PollFollows(s: Session, g: Goal, asked: seq<TickContext>, answered: seq<TurnResult>, ctx: TickContext, r: TurnResult)
    requires s.env.Sane() && g.Valid() && |asked| == |answered| && Follows(s, g, asked, answered)
    requires Faithful(s, asked + [ctx], answered + [r]) && DrivenBy(g, asked + [ctx], answered + [r])
    ensures Follows(s, g, asked + [ctx], answered + [r])
  {
    hide *;
    var c := Settled(answered);
    FaithfulPoll(s, asked, answered, ctx, r);
    DrivenPoll(g, asked, answered, ctx, r);
    RunAppend(g, answered, r);
    PendingIsInvisible(g, answered + [r]);
    FollowsMeans(s, g, asked, answered, c);
    if r.Pending? {
      FollowsMeans(s, g, asked + [ctx], answered + [r], c);
    } else {
      SynchronousTurn(s, g, |c|);
      FollowsMeans(s, g, asked + [ctx], answered + [r], c + [r]);
    }
  }

  lemma {:induction false} PollingFollows(s: Session, g: Goal, asked: seq<TickContext>, answered: seq<TurnResult>)
    requires s.env.Sane() && g.Valid()
    requires Faithful(s, asked, answered) && DrivenBy(g, asked, answered)
    ensures Follows(s, g, asked, answered)
  {
    hide *;
    FaithfulLengths(s, asked, answered);
    if asked == [] {
      FollowsNothing(s, g);
    } else {
      var n := |asked| - 1;
      assert asked == asked[..n] + [asked[n]] && answered == answered[..n] + [answered[n]];
      FaithfulPoll(s, asked[..n], answered[..n], asked[n], answered[n]);
      DrivenPoll(g, asked[..n], answered[..n], asked[n], answered[n]);
      PollingFollows(s, g, asked[..n], answered[..n]);
      PollFollows(s, g, asked[..n], answered[..n], asked[n], answered[n]);
    }
  }

  lemma FaithfulLengths(s: Session, asked: seq<TickContext>, answered: seq<TurnResult>)
    requires s.env.Sane() && Faithful(s, asked, answered)
    ensures |asked| == |answered|
  {
  }

  lemma FollowsNothing(s: Session, g: Goal)
    requires s.env.Sane() && g.Valid()
    ensures Follows(s, g, [], [])
  {
  }

  // ── the loop follows it ────────────────────────────────────────────────

  /** While the goal is acting no stall has been applied: the driver has seen
      the answers and nothing else. */
  lemma {:induction false} NoStallWhileActing(g: Goal, t0: nat, timeout: u64, looks: seq<Look>)
    requires g.Valid() && After(g, t0, timeout, looks).goal.Acting()
    ensures Results(g, t0, timeout, looks) == Answers(looks)
    ensures After(g, t0, timeout, looks).goal == Run(g, Answers(looks))
  {
    GoalIsRun(g, t0, timeout, looks);
    if looks == [] {
    } else {
      NoStallWhileActing(g, t0, timeout, looks[..|looks| - 1]);
    }
  }

  /** What a loop that ran has applied: the answers, and then at most one stall. */
  lemma ResultsOfLoop(g: Goal, t0: nat, timeout: u64, looks: seq<Look>)
    requires g.Valid() && Ran(g, t0, timeout, looks) && looks != []
    ensures var n := |looks| - 1;
      Results(g, t0, timeout, looks) == Answers(looks) +
        (if Fires(After(g, t0, timeout, looks[..n]), looks[n], timeout) then [Stalled] else [])
  {
    var n := |looks| - 1;
    assert After(g, t0, timeout, looks[..n]).goal.Acting();
    NoStallWhileActing(g, t0, timeout, looks[..n]);
    Regroup(Answers(looks[..n]), [looks[n].answer], [Stalled]);
  }

  lemma {:induction false} AnswersPrefix(looks: seq<Look>, i: nat)
    requires i <= |looks|
    ensures Answers(looks[..i]) == Answers(looks)[..i]
    decreases |looks|
  {
    if i == |looks| {
      assert looks[..i] == looks;
    } else {
      assert looks[..i] == looks[..|looks| - 1][..i];
      AnswersPrefix(looks[..|looks| - 1], i);
    }
  }

  lemma {:induction false} ContextsAre(g: Goal, t0: nat, timeout: u64, looks: seq<Look>, i: nat)
    requires g.Valid() && i < |looks|
    ensures Contexts(g, t0, timeout, looks)[i] == After(g, t0, timeout, looks[..i]).goal.Context()
    decreases |looks|
  {
    var n := |looks| - 1;
    if i < n {
      assert looks[..i] == looks[..n][..i];
      ContextsAre(g, t0, timeout, looks[..n], i);
    }
  }

  /** The loop shows the engine the goal that its answers drive. */
  lemma LoopIsDriven(g: Goal, t0: nat, timeout: u64, looks: seq<Look>)
    requires g.Valid() && Ran(g, t0, timeout, looks)
    ensures DrivenBy(g, Contexts(g, t0, timeout, looks), Answers(looks))
  {
    var asked, answered := Contexts(g, t0, timeout, looks), Answers(looks);
    forall i | 0 <= i < |asked|
      ensures Run(g, answered[..i]).Acting() && asked[i] == Run(g, answered[..i]).Context()
    {
      assert After(g, t0, timeout, looks[..i]).goal.Acting();
      NoStallWhileActing(g, t0, timeout, looks[..i]);
      AnswersPrefix(looks, i);
      ContextsAre(g, t0, timeout, looks, i);
    }
  }

  // ── the synchronous run ends ───────────────────────────────────────────

  lemma {:induction false} SynchronousShape(s: Session, g: Goal, n: nat)
    requires s.env.Sane() && g.Valid() && g.Acting() && g.step == 1 && g.steer == None
    ensures var rs := Synchronous(s, g, n);
      && |rs| <= n && |rs| <= g.maxSteps && Settled(rs) == rs
      && (|rs| < n ==> !Run(g, rs).Acting())
  {
    hide *;
    if n == 0 {
      SynchronousNothing(s, g);
    } else {
      var m := n - 1;
      SynchronousShape(s, g, m);
      var rs := Synchronous(s, g, m);
      if Run(g, rs).Acting() {
        SynchronousTurn(s, g, m);
        var r := Completed(VerdictOn(s, PromptsFor(g, rs) + [StepDirective(Run(g, rs).Context())]));
        SettledStays(g, rs, r);
        ClosedForm(g, rs);
        ActingStep(g, rs);
      } else {
        SynchronousStops(s, g, m, n);
      }
    }
  }

  lemma SynchronousNothing(s: Session, g: Goal)
    requires s.env.Sane() && g.Valid()
    ensures Synchronous(s, g, 0) == [] && Settled([]) == []
  {
  }

  lemma SettledStays(g: Goal, rs: seq<TurnResult>, r: TurnResult)
    requires g.Valid() && Settled(rs) == rs && !r.Pending?
    ensures Settled(rs + [r]) == rs + [r]
  {
    RunAppend(g, rs, r);
  }

  lemma ActingStep(g: Goal, c: seq<TurnResult>)
    requires g.Valid() && FinalGoal(g, c).Acting()
    ensures |c| < g.maxSteps
  {
  }

  lemma {:induction false} SynchronousStops(s: Session, g: Goal, k: nat, n: nat)
    requires s.env.Sane() && g.Valid() && k <= n
    requires !Run(g, Synchronous(s, g, k)).Acting()
    ensures Synchronous(s, g, n) == Synchronous(s, g, k)
  {
    hide Run, PromptsFor, VerdictOn, StepDirective;
    if k == n {
    } else {
      SynchronousStops(s, g, k, n - 1);
    }
  }

  lemma {:induction false} SynchronousLogGrows(s: Session, g: Goal, k: nat, n: nat)
    requires s.env.Sane() && g.Valid() && k <= n
    ensures FullLog(g, Synchronous(s, g, k)) <= FullLog(g, Synchronous(s, g, n))
  {
    hide *;
    if k == n {
    } else {
      SynchronousLogGrows(s, g, k, n - 1);
      var rs := Synchronous(s, g, n - 1);
      if Run(g, rs).Acting() {
        SynchronousTurn(s, g, n - 1);
        var r := Completed(VerdictOn(s, PromptsFor(g, rs) + [StepDirective(Run(g, rs).Context())]));
        RunSplit(g, rs, [r]);
      } else {
        SynchronousStops(s, g, n - 1, n);
      }
    }
  }

  /** The synchronous driver never fails: only a stall makes a goal fail. */
  lemma {:induction false} SynchronousNeverFails(s: Session, g: Goal, n: nat)
    requires s.env.Sane() && g.Valid() && !g.state.Failed?
    ensures !Run(g, Synchronous(s, g, n)).state.Failed?
  {
    hide *;
    if n == 0 {
      SynchronousNothing(s, g);
      RunOfNothing(g);
    } else {
      SynchronousNeverFails(s, g, n - 1);
      var rs := Synchronous(s, g, n - 1);
      if Run(g, rs).Acting() {
        SynchronousTurn(s, g, n - 1);
        var v := VerdictOn(s, PromptsFor(g, rs) + [StepDirective(Run(g, rs).Context())]);
        RunAppend(g, rs, Completed(v));
        CompletedNeverFails(Run(g, rs), v);
      } else {
        SynchronousStops(s, g, n - 1, n);
      }
    }
  }

  lemma RunOfNothing(g: Goal)
    requires g.Valid()
    ensures Run(g, []) == g
  {
  }

  lemma CompletedNeverFails(g: Goal, v: Verdict)
    requires g.Valid() && !g.state.Failed?
    ensures !Next(g, Completed(v)).state.Failed?
  {
  }

  // ── the refinement ─────────────────────────────────────────────────────

  /** The loop's last pass ended in the watchdog's stall. */
  ghost predicate EndedInStall(g: Goal, t0: nat, timeout: u64, looks: seq<Look>)
    requires g.Valid()
  {
    looks != [] && Fires(After(g, t0, timeout, looks[..|looks| - 1]), looks[|looks| - 1], timeout)
  }

  /** A finished loop over a faithful engine has seen the first turns of the
      synchronous driver, as many as its settled answers. */
  lemma LoopFollows(s: Session, g: Goal, t0: nat, timeout: u64, looks: seq<Look>)
    requires s.env.Sane() && g.Valid() && Ran(g, t0, timeout, looks)
    requires Faithful(s, Contexts(g, t0, timeout, looks), Answers(looks))
    ensures var c := Settled(Answers(looks)); c == Synchronous(s, g, |c|)
    ensures Run(g, Answers(looks)) == Run(g, Settled(Answers(looks)))
    ensures FullLog(g, Answers(looks)) == FullLog(g, Settled(Answers(looks)))
  {
    hide *;
    LoopIsDriven(g, t0, timeout, looks);
    FaithfulLengths(s, Contexts(g, t0, timeout, looks), Answers(looks));
    PollingFollows(s, g, Contexts(g, t0, timeout, looks), Answers(looks));
    FollowsMeans(s, g, Contexts(g, t0, timeout, looks), Answers(looks), Settled(Answers(looks)));
    LogIsSettled(g, Answers(looks));
  }

  lemma LogIsSettled(g: Goal, rs: seq<TurnResult>)
    requires g.Valid()
    ensures FullLog(g, rs) == FullLog(g, Settled(rs))
  {
    PendingIsInvisible(g, rs);
  }

  /** End-to-end refinement. Over every schedule in which no step times out,
      the log of the polled loop is the log of the synchronous driver. If the
      last step does time out, the log is that of the synchronous driver up to
      that step, and then the stall. */
  lemma LoopRefinesSynchronous(s: Session, g: Goal, t0: nat, timeout: u64, looks: seq<Look>)
    requires s.env.Sane() && g.Valid() && g.step == 1 && g.steer == None
    requires Ran(g, t0, timeout, looks) && !After(g, t0, timeout, looks).goal.Acting()
    requires Faithful(s, Contexts(g, t0, timeout, looks), Answers(looks))
    ensures var log, f := FullLog(g, Results(g, t0, timeout, looks)), After(g, t0, timeout, looks).goal;
      if EndedInStall(g, t0, timeout, looks) then
        f.step <= |SynchronousLog(s, g)| && f.state.Failed?
        && log == SynchronousLog(s, g)[..f.step] + [f.Event(STALL_DETAIL)]
      else log == SynchronousLog(s, g)
  {
    hide *;
    var n, c := |looks| - 1, Settled(Answers(looks));
    Finished(g, t0, timeout, looks);
    LoopFollows(s, g, t0, timeout, looks);
    LogOfSynchronous(s, g);
    SynchronousShape(s, g, |c|);
    if EndedInStall(g, t0, timeout, looks) {
      SynchronousLogGrows(s, g, |c|, g.maxSteps);
      StallLog(g, Answers(looks));
      ActingLogLength(g, Answers(looks));
    } else {
      SynchronousStops(s, g, |c|, g.maxSteps);
    }
  }

  lemma LogOfSynchronous(s: Session, g: Goal)
    requires s.env.Sane() && g.Valid()
    ensures SynchronousLog(s, g) == FullLog(g, Synchronous(s, g, g.maxSteps))
  {
  }

  /** What a finished loop has applied, by how it ended. */
  lemma Finished(g: Goal, t0: nat, timeout: u64, looks: seq<Look>)
    requires g.Valid() && Ran(g, t0, timeout, looks) && !After(g, t0, timeout, looks).goal.Acting()
    ensures looks != [] && g.Acting()
    ensures After(g, t0, timeout, looks).goal == Run(g, Results(g, t0, timeout, looks))
    ensures if EndedInStall(g, t0, timeout, looks) then
        Results(g, t0, timeout, looks) == Answers(looks) + [Stalled] && Run(g, Answers(looks)).Acting()
      else Results(g, t0, timeout, looks) == Answers(looks)
  {
    hide Results, Answers;
    assert looks != [];
    var n := |looks| - 1;
    GoalIsRun(g, t0, timeout, looks);
    ResultsOfLoop(g, t0, timeout, looks);
    if !EndedInStall(g, t0, timeout, looks) {
      assert Answers(looks) + [] == Answers(looks);
    } else {
      LastPoll(g, t0, timeout, looks);
    }
  }

  /** The goal after the last poll, before the check that follows it. */
  lemma LastPoll(g: Goal, t0: nat, timeout: u64, looks: seq<Look>)
    requires g.Valid() && Ran(g, t0, timeout, looks) && looks != []
    ensures Polled(After(g, t0, timeout, looks[..|looks| - 1]), looks[|looks| - 1]).goal == Run(g, Answers(looks))
  {
    var before := looks[..|looks| - 1];
    assert After(g, t0, timeout, before).goal.Acting();
    NoStallWhileActing(g, t0, timeout, before);
    RunAppend(g, Answers(before), looks[|looks| - 1].answer);
  }

  lemma StallLog(g: Goal, rs: seq<TurnResult>)
    requires g.Valid() && Run(g, rs).Acting()
    ensures var f := Run(g, rs + [Stalled]);
      && f.state.Failed? && f.step == Run(g, rs).step
      && FullLog(g, rs + [Stalled]) == FullLog(g, rs) + [f.Event(STALL_DETAIL)]
  {
    RunAppend(g, rs, Stalled);
    Regroup([g.Event("")], Log(g, rs), Emits(Run(g, rs), Stalled));
  }

  lemma ActingLogLength(g: Goal, rs: seq<TurnResult>)
    requires g.Valid() && g.Acting() && g.step == 1 && g.steer == None && Run(g, rs).Acting()
    ensures |FullLog(g, rs)| == Run(g, rs).step
  {
    LogShape(g, rs);
  }
}
