/** `MeshInference`: each goal step is one gateway turn. */
module MeshInference {
  import opened Wrappers
  import opened Turn
  import opened Verdicts
  import opened Frames
  import opened Time
  import opened Link
  import opened Mesh
  import opened GatewayTurns

  /** `parse_goal_step(reply)`, or `continue` when there is nothing to parse. */
  method Judge(reply: string) returns (v: Verdict)
    ensures v == VerdictOf(reply)
  {
    var parsed := ParseGoalStep(reply);
    v := match parsed { case Some(verdict) => verdict case None => CONTINUE_BY_DEFAULT };
  }

  class MeshInference {
    const mesh: Mesh
    var reply: string
    var inFlight: bool

    // history
    ghost const base: nat
    ghost const skip: nat
    ghost var asked: seq<TickContext>
    ghost var answered: seq<TurnResult>
    ghost var pumped: seq<nat> // the pump that each poll began with

    ghost function Session(): Session {
      GatewayTurns.Session.Session(mesh.env, skip, base)
    }

    /** Prompts, messages read and poll history belong together. */
    ghost predicate Going()
      reads `reply, `inFlight, `asked, `answered, mesh
    {
      && mesh.Valid() && |mesh.upgrade| == skip
      && InStep(Session(), mesh.texts, PromptsIn(mesh.frames), asked, answered, reply, inFlight)
    }

    ghost predicate Valid()
      reads this, mesh
    {
      Going() && Timely(Session(), asked, answered, pumped)
    }

    /** What holds even where a poll has panicked: the history before it is
        the gateway's, and the prompts sent are that history's. */
    ghost predicate Accounted()
      reads `asked, `answered, mesh
    {
      && mesh.env.Sane() && Faithful(Session(), asked, answered)
      && PromptsIn(mesh.frames) == PromptsSent(asked, answered)
    }

    lemma GoingIsAccounted()
      requires Going()
      ensures Accounted()
    {
      hide Drain, Faithful, PromptsSent, PromptsIn, RepliesRead;
    }

    /** A panic that has its reason in what the gateway sends after the prompts
        so far, or in time. */
    ghost predicate Excused(why: Panic, began: nat, now: nat)
      reads mesh`frames
    {
      Excuse(mesh.env, PromptsIn(mesh.frames), skip, why, began, now)
    }

    constructor (mesh: Mesh)
      requires mesh.Valid() && PromptsIn(mesh.frames) == []
      ensures Valid() && this.mesh == mesh && asked == [] && answered == [] && pumped == []
      ensures base == |mesh.texts| && skip == |mesh.upgrade|
    {
      this.mesh := mesh;
      reply, inFlight := "", false;
      base, skip := |mesh.texts|, |mesh.upgrade|;
      asked, answered, pumped := [], [], [];
      new;
      assert mesh.texts[base..] == [];
    }

    /** The replies contained in what has been received so far. */
    ghost function RepliesArrived(): seq<string>
      requires mesh.env.Sane()
      reads mesh
    {
      RepliesBy(Session(), PromptsIn(mesh.frames), mesh.received)
    }

    /** They are those among the messages that have been received. */
    lemma ArrivedIsSeen()
      requires mesh.Valid() && |mesh.upgrade| == skip
      ensures RepliesArrived() ==
        var all := Drain(mesh.env.parse, Start(mesh.seen)).texts;
        if base <= |all| then RepliesRead(Session(), all) else []
    {
      hide Drain, PromptsIn, PongsIn, WireOut, SelfDelimiting, RepliesRead;
      assert mesh.Inbound()[skip..mesh.received] == mesh.seen;
    }

    /** A reply that had come in by some pump, and everything up to there has
        been received, has arrived. */
    lemma RepliedHasArrived(pump: nat)
      requires mesh.Valid() && |mesh.upgrade| == skip && mesh.ArrivedBy(pump) <= mesh.received
      requires HasArrivedBy(pump)
      ensures |PromptsIn(mesh.frames)| <= |RepliesArrived()|
    {
      hide Drain, PromptsIn, PongsIn, WireOut, SelfDelimiting, RepliesBy, Stream;
      RepliesByGrow(Session(), PromptsIn(mesh.frames), mesh.ArrivedBy(pump), mesh.received);
    }

    /** `next`. A poll without a turn in flight sends the prompt. Any other
        poll completes the turn exactly when its reply has been received, and
        whenever it had come in by the poll's first pump. */
    method Next(ctx: TickContext, clock: Clock) returns (o: Outcome<TurnResult>)
      requires Valid()
      modifies this, mesh, clock
      ensures old(clock.now) <= clock.now
      ensures o.Panicked? ==> Excused(o.why, old(clock.now), clock.now)
      ensures o.Returned? ==> Valid() && asked == old(asked) + [ctx] && answered == old(answered) + [o.value]
      ensures o.Returned? ==> pumped == old(pumped) + [old(mesh.pumps)]
      ensures o.Panicked? ==> Accounted() && asked == old(asked) && answered == old(answered)
      ensures o.Returned? && old(inFlight) ==>
        (o.value.Completed? <==> |PromptsIn(mesh.frames)| <= |RepliesArrived()|)
      ensures o.Returned? && old(inFlight) && old(HasArrivedBy(mesh.pumps)) ==> o.value.Completed?
    {
      hide InStep, Timely, RepliedBy, PromptsIn, Faithful, PromptsSent, Drain, RepliesArrived, Stream;
      hide Going, Accounted, InFlight, Excused;
      ghost var before, answers, pump := asked, answered, mesh.pumps;
      WaitingMeansInFlight();
      if !inFlight {
        o := SendPrompt(ctx, clock);
      } else {
        o := AwaitReply(ctx, clock);
      }
      if o.Returned? {
        TimelyAppend(Session(), before, answers, pumped, ctx, o.value, pump);
        pumped := pumped + [pump];
      }
    }

    lemma WaitingMeansInFlight()
      requires Valid()
      ensures mesh.env.Sane() && |asked| == |answered| == |pumped| && inFlight == InFlight(answered)
      ensures PromptsIn(mesh.frames) == PromptsSent(asked, answered)
    {
      hide Drain, PromptsIn, RepliesRead, PromptsSent, RepliedBy;
    }

    method SendPrompt(ctx: TickContext, clock: Clock) returns (o: Outcome<TurnResult>)
      requires Going() && !inFlight
      modifies `reply, `inFlight, `asked, `answered, mesh, clock
      ensures old(clock.now) <= clock.now
      ensures o.Returned? ==> Going() && asked == old(asked) + [ctx] && answered == old(answered) + [o.value]
      ensures o.Panicked? ==> Excused(o.why, old(clock.now), clock.now)
      ensures o.Panicked? ==> Accounted() && asked == old(asked) && answered == old(answered)
    {
      hide Drain, Stream, PromptsIn, PongsIn, WireOut, InStep, StepDirective, Arrived, Parted, Faithful, PromptsSent;
      ghost var prompts := PromptsIn(mesh.frames);
      GoingIsAccounted();
      var _ :- mesh.SendText(StepDirective(ctx), clock);
      InStepPrompt(Session(), mesh.texts, prompts, asked, answered, reply, ctx);
      inFlight, reply := true, "";
      asked, answered := asked + [ctx], answered + [Pending];
      return Returned(Pending);
    }

    /** The receive loop of a poll: read messages until the turn completes or
        nothing further has arrived. */
    method AwaitReply(ctx: TickContext, clock: Clock) returns (o: Outcome<TurnResult>)
      requires Going() && inFlight
      modifies `reply, `inFlight, `asked, `answered, mesh, clock
      ensures old(clock.now) <= clock.now
      ensures o.Returned? ==> Going() && asked == old(asked) + [ctx] && answered == old(answered) + [o.value]
      ensures o.Returned? ==> (o.value.Completed? <==> |PromptsIn(mesh.frames)| <= |RepliesArrived()|)
      ensures o.Returned? && old(HasArrivedBy(mesh.pumps)) ==> o.value.Completed?
      ensures o.Panicked? ==> Excused(o.why, old(clock.now), clock.now)
      ensures o.Panicked? ==> Accounted() && asked == old(asked) && answered == old(answered)
    {
      hide Drain, Stream, PromptsIn, PongsIn, WireOut, InStep, Arrived, Parted, VerdictOf, Dead, Garbled, Sessionless;
      hide RepliesArrived, RepliedBy, Faithful, PromptsSent;
      ghost var pump, first := mesh.pumps, true;
      while true
        invariant Going() && inFlight && asked == old(asked) && answered == old(answered)
        invariant PromptsIn(mesh.frames) == old(PromptsIn(mesh.frames))
        invariant if first then mesh.pumps == pump else mesh.ArrivedBy(pump) <= mesh.received
        invariant old(clock.now) <= clock.now
        decreases mesh.Left()
      {
        ghost var before := mesh.texts;
        GoingIsAccounted();
        var next :- mesh.TryNextText(clock);
        first := false;
        match next
        case None =>
          NothingArrived(pump);
          InStepPending(Session(), before, PromptsIn(mesh.frames), asked, answered, reply, ctx);
          asked, answered := asked + [ctx], answered + [Pending];
          return Returned(Pending);
        case Some(text) =>
          var verdict := TakeMessage(text, ctx, before);
          if verdict.Some? {
            return Returned(Completed(verdict.value));
          }
      }
    }

    /** The reply to the prompt in flight has come in by that pump. */
    ghost predicate HasArrivedBy(pump: nat)
      requires mesh.env.Sane()
      reads mesh`frames
    {
      RepliedBy(Session(), PromptsIn(mesh.frames), mesh.env.arrivals(pump))
    }

    /** The body of the receive loop: a delta extends the reply, the end of
        the turn reads the verdict from it, anything else is ignored. */
    method TakeMessage(text: string, ctx: TickContext, ghost before: seq<Bytes>) returns (verdict: Option<Verdict>)
      requires mesh.Valid() && |mesh.upgrade| == skip && inFlight
      requires InStep(Session(), before, PromptsIn(mesh.frames), asked, answered, reply, true)
      requires mesh.Extends(before, mesh.texts, text)
      modifies `reply, `inFlight, `asked, `answered
      ensures Going()
      ensures verdict.None? ==> inFlight && asked == old(asked) && answered == old(answered)
      ensures verdict.Some? ==> asked == old(asked) + [ctx] && answered == old(answered) + [Completed(verdict.value)]
      ensures verdict.Some? ==> |PromptsIn(mesh.frames)| <= |RepliesArrived()|
    {
      hide Drain, Stream, PromptsIn, PongsIn, WireOut, InStep, Arrived, Parted, VerdictOf, RepliesArrived;
      match mesh.env.classify(text)
      case AgentText(delta) =>
        InStepMessage(Session(), before, mesh.texts, text, PromptsIn(mesh.frames), asked, answered, reply);
        reply := reply + delta;
        return None;
      case TurnComplete =>
        ReplyArrived(before, text, ctx);
        inFlight := false;
        var v := Judge(reply);
        asked, answered := asked + [ctx], answered + [Completed(v)];
        return Some(v);
      case Other =>
        InStepMessage(Session(), before, mesh.texts, text, PromptsIn(mesh.frames), asked, answered, reply);
        return None;
    }

    /** Everything received has been read, and the turn is still open: its
        reply has not been received, and had not come in by a pump whose bytes
        have. */
    lemma NothingArrived(pump: nat)
      requires Going() && inFlight && mesh.Here() == Drain(mesh.env.parse, Start(mesh.seen))
      requires mesh.ArrivedBy(pump) <= mesh.received
      ensures |RepliesArrived()| < |PromptsIn(mesh.frames)| && !HasArrivedBy(pump)
    {
      hide Drain, PromptsIn, PongsIn, WireOut, RepliesRead, RepliesArrived, RepliedBy, Stream;
      ArrivedIsSeen();
      if HasArrivedBy(pump) {
        RepliedHasArrived(pump);
      }
    }

    /** The turn in flight has been read to its end. */
    lemma ReplyArrived(before: seq<Bytes>, text: string, ctx: TickContext)
      requires mesh.Valid() && |mesh.upgrade| == skip
      requires InStep(Session(), before, PromptsIn(mesh.frames), asked, answered, reply, true)
      requires mesh.Extends(before, mesh.texts, text) && mesh.env.classify(text).TurnComplete?
      ensures InStep(Session(), mesh.texts, PromptsIn(mesh.frames),
                     asked + [ctx], answered + [Completed(VerdictOf(reply))], reply, false)
      ensures |PromptsIn(mesh.frames)| <= |RepliesArrived()|
    {
      hide Drain, Stream, PromptsIn, VerdictOf, InStep, RepliesRead, RepliesArrived;
      mesh.TextsAreFirst();
      InStepComplete(Session(), before, mesh.texts, text, PromptsIn(mesh.frames), asked, answered, reply, ctx);
      RepliesReadGrow(Session(), mesh.texts, Drain(mesh.env.parse, Start(mesh.seen)).texts);
      ArrivedIsSeen();
    }
  }
}
