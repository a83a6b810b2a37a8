/** What a faithful poll history looks like step by step, and what it does not
    depend on. */
module PollLaws {
  import opened Wrappers
  import opened Turn
  import opened Verdicts
  import opened VerdictLaws
  import opened DirectiveLaws
  import opened Driver
  import opened DriverLaws
  import opened Frames
  import opened Link
  import opened GatewayTurns
  import opened EndToEnd

  // ── one prompt per step ────────────────────────────────────────────────

  lemma {:induction false} PromptsForEach(g: Goal, rs: seq<TurnResult>)
    requires g.Valid()
    ensures |PromptsFor(g, rs)| == |rs|
    ensures forall j :: 0 <= j < |rs| ==> PromptsFor(g, rs)[j] == StepDirective(Run(g, rs[..j]).Context())
  {
    hide StepDirective, Run;
    if rs == [] {
    } else {
      var before := rs[..|rs| - 1];
      PromptsForEach(g, before);
      forall j | 0 <= j < |rs| ensures PromptsFor(g, rs)[j] == StepDirective(Run(g, rs[..j]).Context()) {
        assert j < |before| ==> before[..j] == rs[..j];
      }
    }
  }

  /** A goal that is acting has used up one step per settled result. */
  lemma ActingAt(g: Goal, rs: seq<TurnResult>)
    requires g.Valid() && g.Acting() && g.step == 1 && g.steer == None && Run(g, rs).Acting()
    ensures Run(g, rs).step == |Settled(rs)| + 1
    ensures forall j :: 0 <= j <= |Settled(rs)| ==>
      Run(g, Settled(rs)[..j]).Acting() && Run(g, Settled(rs)[..j]).step == j + 1
  {
    hide Run, FullLog, FinalLog, ActingEvents;
    var c := Settled(rs);
    ClosedForm(g, rs);
    forall j | 0 <= j <= |c| ensures Run(g, c[..j]).Acting() && Run(g, c[..j]).step == j + 1 {
      SettledAll(c[..j]);
      ClosedForm(g, c[..j]);
      FirstStopPrefix(c, j);
    }
  }

  lemma {:induction false} SettledAll(c: seq<TurnResult>)
    requires forall i :: 0 <= i < |c| ==> !c[i].Pending?
    ensures Settled(c) == c
  {
    if c == [] {
    } else {
      SettledAll(c[..|c| - 1]);
    }
  }

  lemma FirstStopPrefix(c: seq<TurnResult>, j: nat)
    requires j <= |c| && FirstStop(c) == |c|
    ensures FirstStop(c[..j]) == j
  {
  }

  /** The steer of the gateway's verdict on the last of these prompts. */
  ghost function SteerBefore(s: Session, prompts: seq<string>): Option<string>
    requires s.env.Sane()
  {
    if prompts == [] then None
    else match VerdictOn(s, prompts) { case Continue(steer) => steer case _ => None }
  }

  /** The first `k` of the synchronous turns are the turns of a run of `k`. */
  lemma {:induction false} SynchronousPrefix(s: Session, g: Goal, k: nat, n: nat)
    requires s.env.Sane() && g.Valid() && g.Acting() && g.step == 1 && g.steer == None
    requires k <= |Synchronous(s, g, n)|
    ensures k <= n && Synchronous(s, g, n)[..k] == Synchronous(s, g, k) && |Synchronous(s, g, k)| == k
  {
    hide *;
    SynchronousShape(s, g, n);
    if k == n {
      WholeSlice(Synchronous(s, g, n), k);
    } else {
      var rs := Synchronous(s, g, n - 1);
      SynchronousShape(s, g, n - 1);
      if Run(g, rs).Acting() {
        SynchronousTurn(s, g, n - 1);
        SliceOfFirst(rs, Synchronous(s, g, n), k);
      } else {
        SynchronousStops(s, g, n - 1, n);
      }
      SynchronousPrefix(s, g, k, n - 1);
    }
  }

  lemma WholeSlice<T>(rs: seq<T>, k: nat)
    requires k == |rs|
    ensures rs[..k] == rs
  {
  }

  lemma SliceOfFirst<T>(rs: seq<T>, longer: seq<T>, k: nat)
    requires k <= |rs| && rs <= longer
    ensures longer[..k] == rs[..k]
  {
  }

  lemma {:induction false} PromptsForPrefix(g: Goal, rs: seq<TurnResult>, k: nat)
    requires g.Valid() && k <= |rs|
    ensures k <= |PromptsFor(g, rs)| && PromptsFor(g, rs[..k]) == PromptsFor(g, rs)[..k]
    decreases |rs|
  {
    hide StepDirective, Run;
    PromptsForEach(g, rs);
    if k == |rs| {
      assert rs[..k] == rs;
    } else {
      var n := |rs| - 1;
      assert rs[..k] == rs[..n][..k];
      PromptsForEach(g, rs[..n]);
      PromptsForPrefix(g, rs[..n], k);
    }
  }

  /** The goal after `k` synchronous turns carries the steer of the verdict on
      prompt `k`. */
  lemma SteerAfterTurns(s: Session, g: Goal, n: nat, k: nat)
    requires s.env.Sane() && g.Valid() && g.Acting() && g.step == 1 && g.steer == None
    requires k <= |Synchronous(s, g, n)| && Run(g, Synchronous(s, g, n)[..k]).Acting()
    ensures k <= |PromptsFor(g, Synchronous(s, g, n))|
    ensures Run(g, Synchronous(s, g, n)[..k]).steer
         == SteerBefore(s, PromptsFor(g, Synchronous(s, g, n))[..k])
    ensures 0 < k ==> VerdictOn(s, PromptsFor(g, Synchronous(s, g, n))[..k]).Continue?
  {
    hide Run, VerdictOn, PromptsFor, FullLog, FinalLog, Synchronous, StepDirective;
    var c := Synchronous(s, g, n);
    SynchronousPrefix(s, g, k, n);
    SynchronousShape(s, g, k);
    PromptsForPrefix(g, c, k);
    PromptsForEach(g, c[..k]);
    ClosedForm(g, c[..k]);
    if k > 0 {
      LastTurn(s, g, k);
    }
  }

  /** One prompt per step. While the goal is acting, the prompts sent so far
      are one for each step done and one more if a turn is in flight; and
      prompt k+1 directs the agent to step k+1 of the budget, with the
      objective, and with the steer of the gateway's verdict on prompt k. */
  lemma OnePromptPerStep(s: Session, g: Goal, asked: seq<TickContext>, answered: seq<TurnResult>)
    requires s.env.Sane() && g.Valid() && g.Acting() && g.step == 1 && g.steer == None
    requires Faithful(s, asked, answered) && DrivenBy(g, asked, answered) && Run(g, answered).Acting()
    ensures var prompts := PromptsSent(asked, answered);
      && |prompts| == Run(g, answered).step - 1 + (if InFlight(answered) then 1 else 0)
      && forall k :: 0 <= k < |prompts| ==>
           Directs(prompts[k], k + 1, g.maxSteps, g.objective, SteerBefore(s, prompts[..k]))
  {
    hide *;
    FaithfulLengths(s, asked, answered);
    var c, prompts := Settled(answered), PromptsSent(asked, answered);
    PollingFollows(s, g, asked, answered);
    FollowsMeans(s, g, asked, answered, c);
    PromptsForEach(g, c);
    ActingAt(g, answered);
    assert c[..|c|] == c;
    forall k | 0 <= k < |prompts|
      ensures Directs(prompts[k], k + 1, g.maxSteps, g.objective, SteerBefore(s, prompts[..k]))
    {
      assert prompts[..k] == PromptsFor(g, c)[..k];
      SteerAfterTurns(s, g, |c|, k);
      assert Run(g, c[..k]).step == k + 1;
      ContextSays(Run(g, c[..k]));
      DirectiveSays(Run(g, c[..k]).Context());
    }
  }

  /** A context is the goal's own fields. */
  lemma ContextSays(g: Goal)
    ensures var ctx := g.Context();
      && ctx.goal == g.goal && ctx.objective == g.objective
      && ctx.step == g.step && ctx.maxSteps == g.maxSteps && ctx.steer == g.steer
  {
  }

  // ── the prompts are the synchronous driver's ───────────────────────────

  /** Every prompt of the synchronous driver. */
  ghost function AllPrompts(s: Session, g: Goal): seq<string>
    requires s.env.Sane() && g.Valid()
  {
    PromptsFor(g, Synchronous(s, g, g.maxSteps))
  }

  lemma {:induction false} PromptsGrow(s: Session, g: Goal, k: nat, n: nat)
    requires s.env.Sane() && g.Valid() && k <= n
    ensures PromptsFor(g, Synchronous(s, g, k)) <= PromptsFor(g, Synchronous(s, g, n))
  {
    hide *;
    if k == n {
    } else {
      PromptsGrow(s, g, k, n - 1);
      if Run(g, Synchronous(s, g, n - 1)).Acting() {
        SynchronousTurn(s, g, n - 1);
      } else {
        SynchronousStops(s, g, n - 1, n);
      }
    }
  }

  /** The prompts sent while the goal is acting are those of so many
      synchronous turns. */
  lemma SentAreSynchronous(s: Session, g: Goal, asked: seq<TickContext>, answered: seq<TurnResult>) returns (m: nat)
    requires s.env.Sane() && g.Valid() && g.Acting() && g.step == 1 && g.steer == None
    requires Faithful(s, asked, answered) && DrivenBy(g, asked, answered) && Run(g, answered).Acting()
    ensures |asked| == |answered| && m <= g.maxSteps
    ensures PromptsSent(asked, answered) == PromptsFor(g, Synchronous(s, g, m))
    ensures InFlight(answered) ==> PromptsSent(asked, answered) != []
  {
    hide *;
    var c := Settled(answered);
    FaithfulLengths(s, asked, answered);
    PollingFollows(s, g, asked, answered);
    FollowsMeans(s, g, asked, answered, c);
    ClosedForm(g, c);
    SettledAll(c);
    ActingStep(g, c);
    if InFlight(answered) {
      SynchronousTurn(s, g, |c|);
      m := |c| + 1;
    } else {
      m := |c|;
    }
  }

  /** They are the first prompts of the synchronous driver. */
  lemma SentAreFirst(s: Session, g: Goal, asked: seq<TickContext>, answered: seq<TurnResult>)
    requires s.env.Sane() && g.Valid() && g.Acting() && g.step == 1 && g.steer == None
    requires Faithful(s, asked, answered) && DrivenBy(g, asked, answered) && Run(g, answered).Acting()
    ensures |asked| == |answered| && PromptsSent(asked, answered) <= AllPrompts(s, g)
    ensures InFlight(answered) ==> PromptsSent(asked, answered) != []
  {
    hide *;
    var m := SentAreSynchronous(s, g, asked, answered);
    AllPromptsAre(s, g);
    PromptsGrow(s, g, m, g.maxSteps);
  }

  lemma AllPromptsAre(s: Session, g: Goal)
    requires s.env.Sane() && g.Valid()
    ensures AllPrompts(s, g) == PromptsFor(g, Synchronous(s, g, g.maxSteps))
  {
  }

  // ── steer over the mesh ────────────────────────────────────────────────

  /** Steer transport over the mesh. The context of every poll of step k+1,
      pending polls included, carries the steer of the verdict on reply k —
      trimmed, non-empty and on one line, or none. In step 1 there is none. */
  lemma SteerOverMesh(s: Session, g: Goal, asked: seq<TickContext>, answered: seq<TurnResult>, i: nat)
    requires s.env.Sane() && g.Valid() && g.Acting() && g.step == 1 && g.steer == None
    requires Faithful(s, asked, answered) && DrivenBy(g, asked, answered) && i < |asked|
    ensures var k := asked[i].step - 1;
      && (k == 0 ==> asked[i].steer == None)
      && (k > 0 ==>
            && |PromptsFor(g, Synchronous(s, g, k))| == k
            && VerdictOn(s, PromptsFor(g, Synchronous(s, g, k))) == Continue(asked[i].steer)
            && Normal(Continue(asked[i].steer)))
  {
    hide *;
    DrivenAt(g, asked, answered, i);
    var before := answered[..i];
    SteerTransport(g, answered, i);
    FaithfulPrefix(s, asked, answered, i);
    DrivenByPrefix(g, asked, answered, i);
    PollingFollows(s, g, asked[..i], before);
    FollowsMeans(s, g, asked[..i], before, Settled(before));
    SettledPrefix(answered, i);
    var k := asked[i].step - 1;
    if k > 0 {
      LastTurn(s, g, k);
      PromptsForEach(g, Synchronous(s, g, k));
      VerdictIsNormal(s, PromptsFor(g, Synchronous(s, g, k)));
    }
  }

  lemma DrivenAt(g: Goal, asked: seq<TickContext>, answered: seq<TurnResult>, i: nat)
    requires g.Valid() && DrivenBy(g, asked, answered) && i < |asked|
    ensures |asked| == |answered| && Run(g, answered[..i]).Acting()
    ensures asked[i] == Run(g, answered[..i]).Context() && asked[i].step == Run(g, answered[..i]).step
  {
  }

  lemma {:induction false} FaithfulPrefix(s: Session, asked: seq<TickContext>, answered: seq<TurnResult>, i: nat)
    requires s.env.Sane() && Faithful(s, asked, answered) && i <= |asked| == |answered|
    ensures Faithful(s, asked[..i], answered[..i])
    decreases |asked|
  {
    hide PromptsSent, Answered, InFlight;
    if i == |asked| {
      assert asked[..i] == asked && answered[..i] == answered;
    } else {
      var n := |asked| - 1;
      assert asked[..i] == asked[..n][..i] && answered[..i] == answered[..n][..i];
      FaithfulPrefix(s, asked[..n], answered[..n], i);
    }
  }

  /** The last of `k` synchronous turns. */
  lemma LastTurn(s: Session, g: Goal, k: nat)
    requires s.env.Sane() && g.Valid() && 0 < k == |Synchronous(s, g, k)|
    ensures Synchronous(s, g, k)[k - 1] == Completed(VerdictOn(s, PromptsFor(g, Synchronous(s, g, k))))
  {
    hide VerdictOn, Run, StepDirective;
    SynchronousLength(s, g, k - 1);
    SynchronousTurn(s, g, k - 1);
  }

  lemma {:induction false} SynchronousLength(s: Session, g: Goal, n: nat)
    requires s.env.Sane() && g.Valid()
    ensures |Synchronous(s, g, n)| <= n
  {
    hide VerdictOn, Run, StepDirective, PromptsFor;
    if n == 0 {
    } else {
      SynchronousLength(s, g, n - 1);
    }
  }

  lemma VerdictIsNormal(s: Session, prompts: seq<string>)
    requires s.env.Sane()
    ensures Normal(VerdictOn(s, prompts))
  {
    hide RepliesTo, VerdictOf, Normal;
    var replies := RepliesTo(s, prompts);
    if 0 < |prompts| <= |replies| {
      ParsedIsNormal(replies[|prompts| - 1]);
    } else {
      DefaultIsNormal();
    }
  }

  lemma DefaultIsNormal()
    ensures Normal(CONTINUE_BY_DEFAULT)
  {
  }

  // ── the same gateway in two environments ──────────────────────────────────────────────────────────

  lemma {:induction false} SameStream(a: Environment, b: Environment, prompts: seq<string>)
    requires a.gateway == b.gateway
    ensures Stream(a, prompts) == Stream(b, prompts)
  {
    if prompts == [] {
    } else {
      SameStream(a, b, prompts[..|prompts| - 1]);
    }
  }

  lemma {:induction false} SameMsgs(a: Environment, b: Environment, texts: seq<Bytes>)
    requires a.utf8 == b.utf8 && a.classify == b.classify
    ensures Msgs(a, texts) == Msgs(b, texts)
  {
    if texts == [] {
    } else {
      SameMsgs(a, b, texts[..|texts| - 1]);
    }
  }

  lemma SameVerdict(s: Session, t: Session, prompts: seq<string>)
    requires s.env.Sane() && t.env.Sane() && s.skip == t.skip && s.base == t.base
    requires s.env.gateway == t.env.gateway && s.env.parse == t.env.parse
    requires s.env.utf8 == t.env.utf8 && s.env.classify == t.env.classify
    ensures VerdictOn(s, prompts) == VerdictOn(t, prompts)
  {
    hide Stream, Msgs, Replies, VerdictOf, Drain, SelfDelimiting;
    SameStream(s.env, t.env, prompts);
    var all := AllTexts(s, prompts);
    if s.base <= |all| {
      SameMsgs(s.env, t.env, all[s.base..]);
    }
  }

  lemma {:induction false} SameTurns(s: Session, t: Session, g: Goal, n: nat)
    requires s.env.Sane() && t.env.Sane() && g.Valid() && s.skip == t.skip && s.base == t.base
    requires s.env.gateway == t.env.gateway && s.env.parse == t.env.parse
    requires s.env.utf8 == t.env.utf8 && s.env.classify == t.env.classify
    ensures Synchronous(s, g, n) == Synchronous(t, g, n)
  {
    hide VerdictOn, Run, PromptsFor, StepDirective, SelfDelimiting;
    if n == 0 {
    } else {
      SameTurns(s, t, g, n - 1);
      var rs := Synchronous(s, g, n - 1);
      SameVerdict(s, t, PromptsFor(g, rs) + [StepDirective(Run(g, rs).Context())]);
    }
  }
}
