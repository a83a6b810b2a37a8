/** Why a goal over the mesh times out, and when it does not. */
module StallLaws {
  import opened Wrappers
  import opened Protocol
  import opened Turn
  import opened Driver
  import opened Watchdog
  import opened WatchdogLaws
  import opened GatewayTurns
  import opened Agent
  import opened EndToEnd
  import opened PollLaws

  // ── single polls of a history ──────────────────────────────────────────

  /** The reply to the prompt in flight had come in by the pump that poll `i`
      began with. */
  ghost predicate InTimeAt(s: Session, asked: seq<TickContext>, answered: seq<TurnResult>, pumped: seq<nat>, i: nat)
    requires s.env.Sane() && |asked| == |answered| == |pumped| && i < |asked|
  {
    RepliedBy(s, PromptsSent(asked[..i], answered[..i]), s.env.arrivals(pumped[i]))
  }

  lemma {:induction false} TimelyAt(
      s: Session, asked: seq<TickContext>, answered: seq<TurnResult>, pumped: seq<nat>, i: nat)
    requires s.env.Sane() && Timely(s, asked, answered, pumped) && i < |asked|
    ensures |asked| == |answered| == |pumped|
    ensures InFlight(answered[..i]) && InTimeAt(s, asked, answered, pumped, i) ==> answered[i].Completed?
    decreases |asked|
  {
    hide RepliedBy, PromptsSent, InFlight;
    var n := |asked| - 1;
    if i < n {
      assert asked[..n][..i] == asked[..i] && answered[..n][..i] == answered[..i];
      TimelyAt(s, asked[..n], answered[..n], pumped[..n], i);
    }
  }

  /** A poll with no turn in flight is pending: it sent the prompt. */
  lemma {:induction false} FaithfulAt(s: Session, asked: seq<TickContext>, answered: seq<TurnResult>, i: nat)
    requires s.env.Sane() && Faithful(s, asked, answered) && i < |asked|
    ensures |asked| == |answered| && !answered[i].Stalled?
    ensures !InFlight(answered[..i]) ==> answered[i].Pending?
    decreases |asked|
  {
    hide Answered, PromptsSent, InFlight;
    var n := |asked| - 1;
    if i < n {
      assert answered[..n][..i] == answered[..i];
      FaithfulAt(s, asked[..n], answered[..n], i);
    }
  }

  // ── single passes of the loop ──────────────────────────────────────────

  /** A pending poll leaves the loop's variables alone; a completed turn that
      leaves the goal acting starts a new step. */
  lemma PollMoves(w: Watch, l: Look)
    requires w.goal.Valid() && w.goal.Acting() && w.lastStep == w.goal.step
    ensures l.answer.Pending? ==> Polled(w, l) == w
    ensures l.answer.Completed? && Polled(w, l).goal.Acting() ==> Polled(w, l).started == l.restart
  {
  }

  lemma LoopBefore(g: Goal, t0: nat, timeout: u64, looks: seq<Look>, n: nat)
    requires g.Valid() && Ran(g, t0, timeout, looks) && n < |looks|
    ensures var w := After(g, t0, timeout, looks[..n]); w.goal.Acting() && w.lastStep == w.goal.step
  {
    GoalIsRun(g, t0, timeout, looks[..n]);
  }

  /** After a pass that completed a turn, the step was first seen in it. */
  lemma SeenLastPass(g: Goal, t0: nat, timeout: u64, looks: seq<Look>, n: nat)
    requires g.Valid() && Ran(g, t0, timeout, looks) && n + 1 < |looks| && looks[n].answer.Completed?
    ensures After(g, t0, timeout, looks[..n + 1]).started == looks[n].restart
  {
    hide After, Polled;
    LoopBefore(g, t0, timeout, looks, n);
    LoopBefore(g, t0, timeout, looks, n + 1);
    assert looks[..n + 1] == looks[..n] + [looks[n]];
    AfterAppend(g, t0, timeout, looks[..n], looks[n]);
    PollMoves(After(g, t0, timeout, looks[..n]), looks[n]);
    StallEnds(After(g, t0, timeout, looks[..n]), looks[n], timeout);
  }

  lemma StallEnds(w: Watch, l: Look, timeout: u64)
    requires w.goal.Valid() && Pass(w, l, timeout).goal.Acting()
    ensures Pass(w, l, timeout) == Polled(w, l)
  {
  }

  lemma {:induction false} AnswersAt(looks: seq<Look>, i: nat)
    requires i < |looks|
    ensures Answers(looks)[i] == looks[i].answer
    decreases |looks|
  {
    var n := |looks| - 1;
    if i < n {
      AnswersAt(looks[..n], i);
    }
  }

  // ── why a run ends in a stall ──────────────────────────────────────────

  /** A run that ends in a stall has spent more than the timeout in its last
      step; and if its last poll waited for the turn in vain, the reply had
      not come in by the pump that the poll began with. */
  lemma StallHasReason(s: Session, g: Goal, t0: nat, timeout: u64, looks: seq<Look>, pumped: seq<nat>)
    requires s.env.Sane() && g.Valid() && Ran(g, t0, timeout, looks)
    requires Ordered(t0, looks) && Brief(g, t0, timeout, looks)
    requires Timely(s, Contexts(g, t0, timeout, looks), Answers(looks), pumped)
    requires EndedInStall(g, t0, timeout, looks)
    ensures |pumped| == |looks|
    ensures var n := |looks| - 1;
      && Elapsed(g, t0, timeout, looks, n) > timeout
      && (InFlight(Answers(looks)[..n]) && looks[n].answer.Pending? ==>
            !InTimeAt(s, Contexts(g, t0, timeout, looks), Answers(looks), pumped, n))
  {
    hide Contexts, Answers, After, Polled, Fires, Elapsed, Timely, InTimeAt, InFlight;
    var n := |looks| - 1;
    FiresExactly(g, t0, timeout, looks, n);
    TimelyAt(s, Contexts(g, t0, timeout, looks), Answers(looks), pumped, n);
    AnswersAt(looks, n);
  }

  /** From the first sight of a step, through the pass that sends its prompt,
      and between any two passes, no more than the timeout goes by. */
  ghost predicate Swift(t0: nat, timeout: u64, looks: seq<Look>) {
    && (looks != [] ==> looks[0].check - t0 <= timeout)
    && forall i, j :: 0 <= i < |looks| && j == i + 1 < |looks| ==> looks[j].check - looks[i].restart <= timeout
  }

  /** Where the passes are swift, only the gateway is to blame: a run that ends
      in a stall was waiting for a reply, more than the timeout after the step
      was first seen, and the reply had not come in by the last poll's pump. */
  lemma StallMeansNoReply(s: Session, g: Goal, t0: nat, timeout: u64, looks: seq<Look>, pumped: seq<nat>)
    requires s.env.Sane() && g.Valid() && Ran(g, t0, timeout, looks)
    requires Ordered(t0, looks) && Brief(g, t0, timeout, looks) && Swift(t0, timeout, looks)
    requires Faithful(s, Contexts(g, t0, timeout, looks), Answers(looks))
    requires Timely(s, Contexts(g, t0, timeout, looks), Answers(looks), pumped)
    requires EndedInStall(g, t0, timeout, looks)
    ensures |pumped| == |looks|
    ensures var n := |looks| - 1;
      && InFlight(Answers(looks)[..n]) && looks[n].answer.Pending?
      && looks[n].check - After(g, t0, timeout, looks[..n]).started > timeout
      && !InTimeAt(s, Contexts(g, t0, timeout, looks), Answers(looks), pumped, n)
  {
    hide Contexts, Answers, After, Polled, Fires, Timely, Faithful, InTimeAt, Ran, Brief;
    var n := |looks| - 1;
    StallHasReason(s, g, t0, timeout, looks, pumped);
    FiresExactly(g, t0, timeout, looks, n);
    LoopBefore(g, t0, timeout, looks, n);
    PollMoves(After(g, t0, timeout, looks[..n]), looks[n]);
    FaithfulAt(s, Contexts(g, t0, timeout, looks), Answers(looks), n);
    AnswersAt(looks, n);
    if InFlight(Answers(looks)[..n]) {
      assert n > 0 && looks[n - 1].restart <= looks[n - 1].check <= looks[n].restart;
    } else {
      StartOfStep(s, g, t0, timeout, looks, n);
    }
  }

  /** The time of first sight, where no turn is in flight. */
  lemma StartOfStep(s: Session, g: Goal, t0: nat, timeout: u64, looks: seq<Look>, n: nat)
    requires s.env.Sane() && g.Valid() && Ran(g, t0, timeout, looks) && n < |looks|
    requires Faithful(s, Contexts(g, t0, timeout, looks), Answers(looks))
    requires !InFlight(Answers(looks)[..n])
    ensures After(g, t0, timeout, looks[..n]).started == if n == 0 then t0 else looks[n - 1].restart
  {
    hide Contexts, Answers, Faithful, Ran;
    if n > 0 {
      AnswersAt(looks, n - 1);
      FaithfulAt(s, Contexts(g, t0, timeout, looks), Answers(looks), n - 1);
      assert Answers(looks)[..n][n - 1] == Answers(looks)[n - 1];
      SeenLastPass(g, t0, timeout, looks, n - 1);
    }
  }

  // ── a condition on the environment ─────────────────────────────────────

  /** The gateway answers every prompt of the synchronous driver, and whatever
      it has sent has come in whenever the client looks. */
  ghost predicate Responsive(s: Session, g: Goal)
    requires s.env.Sane() && g.Valid()
  {
    forall k, n :: 0 < k <= |AllPrompts(s, g)| ==> RepliedBy(s, AllPrompts(s, g)[..k], s.env.arrivals(n))
  }

  lemma ResponsiveAt(s: Session, g: Goal, asked: seq<TickContext>, answered: seq<TurnResult>, pumped: seq<nat>, i: nat)
    requires s.env.Sane() && g.Valid() && g.Acting() && g.step == 1 && g.steer == None && Responsive(s, g)
    requires Faithful(s, asked, answered) && DrivenBy(g, asked, answered)
    requires |asked| == |answered| == |pumped| && i < |asked| && InFlight(answered[..i])
    ensures InTimeAt(s, asked, answered, pumped, i)
  {
    hide Faithful, DrivenBy, RepliedBy, AllPrompts, PromptsSent, InFlight, Run;
    DrivenAt(g, asked, answered, i);
    FaithfulPrefix(s, asked, answered, i);
    DrivenByPrefix(g, asked, answered, i);
    SentAreFirst(s, g, asked[..i], answered[..i]);
    var sent := PromptsSent(asked[..i], answered[..i]);
    assert sent == AllPrompts(s, g)[..|sent|];
  }

  /** A responsive gateway and swift passes: the run does not end in a stall. */
  lemma NoStall(s: Session, g: Goal, t0: nat, timeout: u64, looks: seq<Look>, pumped: seq<nat>)
    requires s.env.Sane() && g.Valid() && g.step == 1 && g.steer == None
    requires Trace(g, t0, timeout, looks) && Swift(t0, timeout, looks) && Responsive(s, g)
    requires Faithful(s, Contexts(g, t0, timeout, looks), Answers(looks))
    requires Timely(s, Contexts(g, t0, timeout, looks), Answers(looks), pumped)
    ensures !EndedInStall(g, t0, timeout, looks)
  {
    hide Contexts, Answers, Faithful, Timely, DrivenBy, Responsive, InTimeAt, InFlight, Ran, Ordered, Brief, Spaced;
    hide Fires, After, Swift;
    if EndedInStall(g, t0, timeout, looks) {
      StallMeansNoReply(s, g, t0, timeout, looks, pumped);
      LoopIsDriven(g, t0, timeout, looks);
      RanMeansActing(g, t0, timeout, looks);
      ResponsiveAt(s, g, Contexts(g, t0, timeout, looks), Answers(looks), pumped, |looks| - 1);
    }
  }

  lemma RanMeansActing(g: Goal, t0: nat, timeout: u64, looks: seq<Look>)
    requires g.Valid() && Ran(g, t0, timeout, looks)
    ensures g.Acting()
  {
  }
}
