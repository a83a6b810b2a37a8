/** Laws of every run of the goal driver. */
module DriverLaws {
  import opened Seqs
  import opened Wrappers
  import opened Protocol
  import opened Turn
  import opened Driver

  predicate Continues(r: TurnResult) {
    r.Completed? && r.verdict.Continue?
  }

  /** Index of the first result that is not a `continue`, or the length. */
  function FirstStop(c: seq<TurnResult>): (k: nat)
    ensures k <= |c|
    ensures forall i :: 0 <= i < k ==> Continues(c[i])
    ensures k < |c| ==> !Continues(c[k])
  {
    if c == [] then 0
    else
      var n := |c| - 1;
      var k := FirstStop(c[..n]);
      if k == n && Continues(c[n]) then n + 1 else k
  }

  // ── what a run comes to, read off its settled results ──────────────────

  /** The state a deciding result leads to. */
  function Ending(r: TurnResult): GoalState {
    match r
    case Completed(Blocked(_)) => GoalState.Blocked
    case Completed(_) => GoalState.Done
    case _ => GoalState.Failed
  }

  function EndingDetail(r: TurnResult): string {
    match r
    case Stalled => STALL_DETAIL
    case Completed(Blocked(reason)) => reason
    case _ => ""
  }

  /** The final goal, without running: the first result that is not a
      `continue` decides if it comes within the budget; otherwise the budget
      decides once it is used up; otherwise the goal is still acting. */
  function FinalGoal(g: Goal, c: seq<TurnResult>): Goal
    requires g.Valid()
  {
    var k := FirstStop(c);
    if k < g.maxSteps && k < |c| then
      g.(state := Ending(c[k]), step := k + 1, steer := None)
    else if g.maxSteps <= |c| then
      g.(state := GoalState.Done, step := g.maxSteps, steer := None)
    else
      g.(step := |c| + 1, steer := SteerAfter(c))
  }

  /** The steer carried by the last result, if that is a `continue`. */
  function SteerAfter(c: seq<TurnResult>): Option<string> {
    if c != [] && Continues(c[|c| - 1]) then c[|c| - 1].verdict.steer else None
  }

  /** Acting(1), …, Acting(n) for goal `g`. */
  function ActingEvents(g: Goal, n: nat): (es: seq<GoalEvent>)
    requires n <= g.maxSteps
    ensures |es| == n
    ensures forall i :: 0 <= i < n ==> es[i] == g.(state := GoalState.Acting, step := i + 1).Event("")
  {
    seq(n, i requires 0 <= i < n => g.(state := GoalState.Acting, step := i + 1).Event(""))
  }

  /** The whole log, without running: the acting events up to the final step,
      then the closing event if the goal has closed. */
  function FinalLog(g: Goal, c: seq<TurnResult>): seq<GoalEvent>
    requires g.Valid()
  {
    var f := FinalGoal(g, c);
    var k := FirstStop(c);
    ActingEvents(g, f.step)
    + (if f.Acting() then []
       else [f.Event(if k < g.maxSteps && k < |c| then EndingDetail(c[k]) else BUDGET_REACHED)])
  }

  /** The complete log of a goal, from its creation on. */
  function FullLog(g: Goal, rs: seq<TurnResult>): seq<GoalEvent>
    requires g.Valid()
  {
    [g.Event("")] + Log(g, rs)
  }

  /** Closed form of every run: final goal and log depend only on the settled
      results, through the first stop and the budget. */
  lemma {:induction false} ClosedForm(g: Goal, rs: seq<TurnResult>)
    requires g.Valid() && g.Acting() && g.step == 1 && g.steer == None
    ensures Run(g, rs) == FinalGoal(g, Settled(rs))
    ensures FullLog(g, rs) == FinalLog(g, Settled(rs))
  {
    if rs == [] {
    } else {
      var before, last := rs[..|rs| - 1], rs[|rs| - 1];
      ClosedForm(g, before);
      hide Run, Log, Settled, FinalGoal, FinalLog, Next, Emits;
      Last(before, last);
      assert rs == before + [last];
      RunAppend(g, before, last);
      Regroup([g.Event("")], Log(g, before), Emits(Run(g, before), last));
      if last.Pending? {
        PendingEmitsNothing(Run(g, before), FinalLog(g, Settled(before)));
      } else {
        ClosedFormStep(g, Settled(before), last);
      }
    }
  }

  lemma PendingEmitsNothing(g: Goal, log: seq<GoalEvent>)
    requires g.Valid()
    ensures Next(g, Pending) == g && log + Emits(g, Pending) == log
  {
  }

  lemma ClosedFormStep(g: Goal, c: seq<TurnResult>, r: TurnResult)
    requires g.Valid() && g.Acting() && g.step == 1 && g.steer == None
    requires !r.Pending?
    requires FinalGoal(g, c).Valid()
    ensures Next(FinalGoal(g, c), r) == FinalGoal(g, c + [r])
    ensures FinalLog(g, c) + Emits(FinalGoal(g, c), r) == FinalLog(g, c + [r])
  {
    assert (c + [r])[..|c + [r]| - 1] == c;
  }

  /** Pending results are invisible: inserting or deleting them anywhere
      changes neither the goal nor the log. */
  lemma {:induction false} PendingIsInvisible(g: Goal, rs: seq<TurnResult>)
    requires g.Valid()
    ensures Run(g, rs) == Run(g, Settled(rs)) && Log(g, rs) == Log(g, Settled(rs))
  {
    if rs == [] {
    } else {
      var before, last := rs[..|rs| - 1], rs[|rs| - 1];
      PendingIsInvisible(g, before);
      if !last.Pending? {
        assert Settled(rs)[..|Settled(rs)| - 1] == Settled(before);
      }
    }
  }

  /** Two runs that differ only in pending results end alike. */
  lemma SameSettledSameRun(g: Goal, rs: seq<TurnResult>, qs: seq<TurnResult>)
    requires g.Valid() && Settled(rs) == Settled(qs)
    ensures Run(g, rs) == Run(g, qs) && FullLog(g, rs) == FullLog(g, qs)
  {
    PendingIsInvisible(g, rs);
    PendingIsInvisible(g, qs);
  }

  /** The states the driver announces; the others are reserved or belong to
      the operator. */
  predicate EverEmitted(s: GoalState) {
    s.Acting? || s.Done? || s.Blocked? || s.Failed?
  }

  /** The event, field by field. */
  predicate Tells(e: GoalEvent, g: Goal, state: GoalState, step: nat, detail: string) {
    && e.goal == g.goal && e.objective == g.objective
    && e.state == state && e.step == step && e.maxSteps == g.maxSteps
    && e.detail == detail && !e.yolo
  }

  /** The closing event of a goal whose settled results are `c`. */
  predicate Closes(e: GoalEvent, g: Goal, c: seq<TurnResult>) {
    var k := FirstStop(c);
    if k < g.maxSteps && k < |c| then
      match c[k]
      case Stalled => Tells(e, g, GoalState.Failed, k + 1, "step stalled — no completion")
      case Completed(Done) => Tells(e, g, GoalState.Done, k + 1, "")
      case Completed(Blocked(reason)) => Tells(e, g, GoalState.Blocked, k + 1, reason)
      case _ => false
    else Tells(e, g, GoalState.Done, g.maxSteps, "step budget reached")
  }

  /** The log of goal `g`, fresh at first, that has come to `f` by the settled
      results `c`. */
  predicate WellShaped(g: Goal, f: Goal, log: seq<GoalEvent>, c: seq<TurnResult>) {
    && 1 <= f.step <= g.maxSteps <= 100
    && |log| == f.step + (if f.Acting() then 0 else 1)
    && (forall i :: 0 <= i < f.step ==> Tells(log[i], g, GoalState.Acting, i + 1, ""))
    && (!f.Acting() ==> Closes(log[f.step], g, c))
    && Tells(log[|log| - 1], g, f.state, f.step, log[|log| - 1].detail)
    && EverEmitted(f.state)
  }

  /** Shape of every log: Acting(1) up to the final step, at most one further
      event, at that same step, which tells how the goal was closed; the last
      entry is the goal as it stands. */
  lemma LogShape(g: Goal, rs: seq<TurnResult>)
    requires g.Valid() && g.Acting() && g.step == 1 && g.steer == None
    ensures WellShaped(g, Run(g, rs), FullLog(g, rs), Settled(rs))
  {
    hide WellShaped;
    ClosedForm(g, rs);
    FinalGoalShape(g, Settled(rs));
    FinalLogShape(g, Settled(rs));
  }

  lemma FinalGoalShape(g: Goal, c: seq<TurnResult>)
    requires g.Valid() && g.Acting()
    ensures var f := FinalGoal(g, c);
      && 1 <= f.step <= g.maxSteps <= 100 && EverEmitted(f.state)
      && f.goal == g.goal && f.objective == g.objective && f.maxSteps == g.maxSteps
  {
  }

  lemma EventTells(g: Goal, f: Goal, detail: string)
    requires f.goal == g.goal && f.objective == g.objective && f.maxSteps == g.maxSteps
    ensures Tells(f.Event(detail), g, f.state, f.step, detail)
  {
  }

  lemma FinalLogShape(g: Goal, c: seq<TurnResult>)
    requires g.Valid() && g.Acting() && forall i :: 0 <= i < |c| ==> !c[i].Pending?
    requires 1 <= FinalGoal(g, c).step <= g.maxSteps <= 100 && EverEmitted(FinalGoal(g, c).state)
    ensures WellShaped(g, FinalGoal(g, c), FinalLog(g, c), c)
  {
    hide EverEmitted, Tells;
    var f, log := FinalGoal(g, c), FinalLog(g, c);
    FinalGoalShape(g, c);
    assert |ActingEvents(g, f.step)| == f.step;
    forall i | 0 <= i < f.step ensures Tells(log[i], g, GoalState.Acting, i + 1, "") {
      EventTells(g, g.(state := GoalState.Acting, step := i + 1), "");
    }
    EventTells(g, f, log[|log| - 1].detail);
  }

  /** A goal that has left Acting is final. */
  lemma {:induction false} ClosedIsFinal(g: Goal, rs: seq<TurnResult>, more: seq<TurnResult>)
    requires g.Valid() && !Run(g, rs).Acting()
    ensures Run(g, rs + more) == Run(g, rs) && FullLog(g, rs + more) == FullLog(g, rs)
    decreases |more|
  {
    if more == [] {
      assert rs + more == rs;
    } else {
      var n := |more| - 1;
      assert (rs + more)[..|rs + more| - 1] == rs + more[..n];
      ClosedIsFinal(g, rs, more[..n]);
    }
  }

  lemma {:induction false} SettledPrefix(rs: seq<TurnResult>, i: nat)
    requires i <= |rs|
    ensures Settled(rs[..i]) <= Settled(rs)
    decreases |rs|
  {
    if i == |rs| {
      assert rs[..i] == rs;
    } else {
      assert rs[..i] == rs[..|rs| - 1][..i];
      SettledPrefix(rs[..|rs| - 1], i);
    }
  }

  lemma RunAppend(g: Goal, rs: seq<TurnResult>, r: TurnResult)
    requires g.Valid()
    ensures Settled(rs + [r]) == if r.Pending? then Settled(rs) else Settled(rs) + [r]
    ensures Run(g, rs + [r]) == Next(Run(g, rs), r)
    ensures Log(g, rs + [r]) == Log(g, rs) + Emits(Run(g, rs), r)
  {
    assert (rs + [r])[..|rs|] == rs;
  }

  /** A run over two stretches of results. */
  lemma {:induction false} RunSplit(g: Goal, rs: seq<TurnResult>, more: seq<TurnResult>)
    requires g.Valid()
    ensures Run(g, rs + more) == Run(Run(g, rs), more)
    ensures FullLog(g, rs + more) == FullLog(g, rs) + Log(Run(g, rs), more)
    decreases |more|
  {
    if more == [] {
      assert rs + more == rs;
    } else {
      var n := |more| - 1;
      assert (rs + more)[..|rs + more| - 1] == rs + more[..n];
      RunSplit(g, rs, more[..n]);
      var last := Emits(Run(g, rs + more[..n]), more[n]);
      Regroup([g.Event("")], Log(g, rs + more[..n]), last);
      Regroup(FullLog(g, rs), Log(Run(g, rs), more[..n]), last);
    }
  }

  /** A settled result uses up a step or ends the goal. */
  lemma Progress(g: Goal, r: TurnResult)
    requires g.Valid() && g.Acting() && !r.Pending?
    ensures Next(g, r).Acting() ==> Next(g, r).step == g.step + 1
  {
  }

  /** Steer transport: the context shown on poll `i`, if that poll belongs to
      step k+1, carries exactly the steer of the `continue` that ended step k,
      however many pending polls the step has had; step 1 carries none. */
  lemma SteerTransport(g: Goal, rs: seq<TurnResult>, i: nat)
    requires g.Valid() && g.Acting() && g.step == 1 && g.steer == None
    requires i <= |rs| && Run(g, rs[..i]).Acting()
    ensures var ctx, k := Run(g, rs[..i]).Context(), Run(g, rs[..i]).step - 1;
      && k == |Settled(rs[..i])| <= |Settled(rs)|
      && ctx.goal == g.goal && ctx.objective == g.objective && ctx.step == k + 1 && ctx.maxSteps == g.maxSteps
      && (k == 0 ==> ctx.steer == None)
      && (k > 0 ==> Continues(Settled(rs)[k - 1]) && ctx.steer == Settled(rs)[k - 1].verdict.steer)
  {
    ClosedForm(g, rs[..i]);
    SettledPrefix(rs, i);
  }
}
