/** The kernel's run over a live gateway: connect, then drive one goal. */
module MeshGoal {
  import opened Wrappers
  import opened Protocol
  import opened Turn
  import opened Time
  import opened Driver
  import opened DriverLaws
  import opened Watchdog
  import opened WatchdogLaws
  import opened Frames
  import opened Link
  import opened Mesh
  import opened GatewayTurns
  import opened MeshInference
  import opened Engines
  import opened GoalDriver
  import opened Agent
  import opened EndToEnd
  import opened PollLaws
  import opened StallLaws

  /** The session that a gateway opens: what it sends before any prompt begins
      with the upgrade response, and its first message is the session frame. */
  function SessionWith(env: Environment): Session {
    GatewayTurns.Session.Session(env, UpgradeSize(env), 1)
  }

  function UpgradeSize(env: Environment): nat {
    var judged := env.accept(env.gateway([]));
    if judged.Accepted? then judged.size else 0
  }

  /** What a run that returned has come to: the events are those of the
      synchronous driver, unless the last step timed out; then they are those
      of the synchronous driver up to that step, and the stall. */
  ghost predicate CameTo(s: Session, g: Goal, t0: nat, timeout: u64, looks: seq<Look>, pumped: seq<nat>,
                         events: seq<GoalEvent>, done: bool)
    requires s.env.Sane() && g.Valid()
  {
    var f, synchronous := Watchdog.After(g, t0, timeout, looks).goal, SynchronousLog(s, g);
    && !f.Acting() && (done <==> f.state.Done?)
    && events != [] && events[|events| - 1].state == f.state
    && (EndedInStall(g, t0, timeout, looks) <==> f.state.Failed?)
    && Trace(g, t0, timeout, looks) && |looks| <= MostPasses(g.maxSteps, timeout)
    && Faithful(s, Contexts(g, t0, timeout, looks), Answers(looks))
    && Timely(s, Contexts(g, t0, timeout, looks), Answers(looks), pumped)
    && if EndedInStall(g, t0, timeout, looks) then
         f.step <= |synchronous| && f.state.Failed? && events == synchronous[..f.step] + [f.Event(STALL_DETAIL)]
       else events == synchronous
  }

  /** Why a run panicked. The counter ran out; or the session could not be
      opened; or a poll did, which began at `began`, with no turn finished
      since: it lasted for more than ten seconds, or what the gateway sends
      after the prompts `sent` is no session. These prompts are the first
      ones of the synchronous driver. */
  ghost predicate BrokeOff(env: Environment, g: Goal, why: Panic, start: nat, t0: nat, looks: seq<Look>,
                           sent: seq<string>, began: nat, now: nat)
    requires env.Sane() && g.Valid()
  {
    || Overran(why, now)
    || (looks == [] && began == start && OpeningExcuse(env, UpgradeSize(env), why, began, now))
    || (&& start <= t0 && NotBefore(t0, looks) <= began
        && sent <= AllPrompts(SessionWith(env), g)
        && Excuse(env, sent, UpgradeSize(env), why, began, now))
  }

  /** `run`, with the mesh as the turn engine, for every environment: every
      chunking, fragmentation and timing. */
  method RunOverMesh(env: Environment, request: Bytes, objective: string, timeout: u64, clock: Clock, sink: Sink)
    returns (o: Outcome<bool>, ghost t0: nat, ghost looks: seq<Look>, ghost pumped: seq<nat>,
             ghost sent: seq<string>, ghost began: nat)
    requires env.Sane()
    modifies clock, sink
    ensures o.Returned? ==> old(sink.events) <= sink.events
    ensures o.Returned? ==>
      CameTo(SessionWith(env), NewGoal(objective), t0, timeout, looks, pumped,
             sink.events[|old(sink.events)|..], o.value)
    ensures o.Returned? && Responsive(SessionWith(env), NewGoal(objective)) && Swift(t0, timeout, looks) ==>
      !EndedInStall(NewGoal(objective), t0, timeout, looks)
    ensures o.Panicked? ==>
      BrokeOff(env, NewGoal(objective), o.why, old(clock.now), t0, looks, sent, began, clock.now)
  {
    hide Drain, Stream, PromptsIn, PongsIn, WireOut, SelfDelimiting, Arrived, Parted, Faithful, InStep, SessionWith;
    hide Run, FullLog, Watchdog.After, Results, Answers, Contexts, Trace, Fires, EndedInStall, SynchronousLog, NewGoal;
    hide Dead, Garbled, Sessionless, Timely, NotBefore, AllPrompts, PromptsSent, Responsive, Swift, RepliedBy, CameTo, BrokeOff;
    hide Mesh.InOrder, Mesh.Valid, MostPasses, Excuse, OpeningExcuse;
    ghost var g, events, start := NewGoal(objective), sink.events, clock.now;
    t0, looks, pumped, sent, began := start, [], [], [], start;
    var mesh := new Mesh(env);
    var connected := mesh.Establish(request, clock);
    if connected.Panicked? {
      OpeningFailed(mesh, g, connected.why, t0, sent, began, clock.now);
      return Panicked(connected.why), t0, looks, pumped, sent, began;
    }
    SessionOpened(mesh);
    var remote := new MeshInference(mesh);
    assert remote.Session() == SessionWith(env);
    var inf := OverMesh(remote);
    ghost var rs;
    var polls;
    o, polls, t0, looks, rs, began := DriveGoal(inf, objective, timeout, clock, sink);
    assert [] + Contexts(g, t0, timeout, looks) == Contexts(g, t0, timeout, looks);
    assert [] + Answers(looks) == Answers(looks);
    sent, pumped := PromptsIn(mesh.frames), remote.pumped;
    if o.Returned? {
      RunEnded(SessionWith(env), g, t0, timeout, looks, pumped, mesh.texts, sent, remote.reply, remote.inFlight,
               events, sink.events, rs, o.value);
    } else {
      RunBroke(SessionWith(env), g, t0, timeout, looks, sent, o.why, start, began, clock.now);
    }
  }

  /** What the client knows of its session is determined by the environment. */
  lemma SessionOpened(mesh: Mesh)
    requires mesh.env.Sane() && PromptsIn(mesh.frames) == [] && mesh.FirstTextIsSession()
    requires mesh.env.accept(mesh.Inbound()) == Accepted(|mesh.upgrade|)
    ensures SessionWith(mesh.env) == GatewayTurns.Session.Session(mesh.env, |mesh.upgrade|, |mesh.texts|)
  {
  }

  lemma OpeningFailed(mesh: Mesh, g: Goal, why: Panic, t0: nat, sent: seq<string>, began: nat, now: nat)
    requires mesh.env.Sane() && g.Valid() && PromptsIn(mesh.frames) == []
    requires OpeningExcuse(mesh.env, |mesh.upgrade|, why, began, now)
    requires mesh.env.accept(mesh.Inbound()) != Accepted(|mesh.upgrade|) ==>
      || Late(why, began + ESTABLISH_TIMEOUT, now)
      || (why.ProtocolError? && mesh.env.accept(mesh.Inbound()).Refused?)
    ensures BrokeOff(mesh.env, g, why, began, t0, [], sent, began, now)
  {
    hide Drain, Dead, Garbled, Sessionless, AllPrompts, NotBefore, SelfDelimiting;
  }

  lemma RunEnded(s: Session, g: Goal, t0: nat, timeout: u64, looks: seq<Look>, pumped: seq<nat>,
                 texts: seq<Bytes>, prompts: seq<string>, reply: string, inFlight: bool,
                 before: seq<GoalEvent>, after: seq<GoalEvent>, rs: seq<TurnResult>, done: bool)
    requires s.env.Sane() && g.Valid() && g.step == 1 && g.steer == None && Trace(g, t0, timeout, looks)
    requires |looks| <= MostPasses(g.maxSteps, timeout)
    requires InStep(s, texts, prompts, Contexts(g, t0, timeout, looks), Answers(looks), reply, inFlight)
    requires Timely(s, Contexts(g, t0, timeout, looks), Answers(looks), pumped)
    requires rs == Results(g, t0, timeout, looks) && after == before + FullLog(g, rs)
    requires !Run(g, rs).Acting() && (done <==> Run(g, rs).state.Done?)
    ensures before <= after && CameTo(s, g, t0, timeout, looks, pumped, after[|before|..], done)
    ensures Responsive(s, g) && Swift(t0, timeout, looks) ==> !EndedInStall(g, t0, timeout, looks)
  {
    hide *;
    InStepIsFaithful(s, texts, prompts, Contexts(g, t0, timeout, looks), Answers(looks), reply, inFlight);
    TraceRan(g, t0, timeout, looks);
    GoalIsRun(g, t0, timeout, looks);
    LoopRefinesSynchronous(s, g, t0, timeout, looks);
    LastEvent(g, rs);
    SynchronousLogEnds(s, g);
    if Responsive(s, g) && Swift(t0, timeout, looks) {
      NoStall(s, g, t0, timeout, looks, pumped);
    }
    SinceThen(before, FullLog(g, rs));
    Assembled(s, g, t0, timeout, looks, pumped, FullLog(g, rs), done);
  }

  lemma SinceThen(before: seq<GoalEvent>, more: seq<GoalEvent>)
    ensures before <= before + more && (before + more)[|before|..] == more
  {
  }

  lemma InStepIsFaithful(s: Session, texts: seq<Bytes>, prompts: seq<string>,
                         asked: seq<TickContext>, answered: seq<TurnResult>, reply: string, inFlight: bool)
    requires s.env.Sane() && InStep(s, texts, prompts, asked, answered, reply, inFlight)
    ensures Faithful(s, asked, answered)
  {
    hide Faithful, PromptsSent, OpenReply, Msgs, RepliesRead;
  }

  lemma TraceRan(g: Goal, t0: nat, timeout: u64, looks: seq<Look>)
    requires g.Valid() && Trace(g, t0, timeout, looks)
    ensures Ran(g, t0, timeout, looks) && g.Acting()
  {
  }

  lemma Assembled(s: Session, g: Goal, t0: nat, timeout: u64, looks: seq<Look>, pumped: seq<nat>,
                  events: seq<GoalEvent>, done: bool)
    requires s.env.Sane() && g.Valid() && Trace(g, t0, timeout, looks)
    requires |looks| <= MostPasses(g.maxSteps, timeout)
    requires Faithful(s, Contexts(g, t0, timeout, looks), Answers(looks))
    requires Timely(s, Contexts(g, t0, timeout, looks), Answers(looks), pumped)
    requires var f := Watchdog.After(g, t0, timeout, looks).goal;
      && !f.Acting() && (done <==> f.state.Done?)
      && events != [] && events[|events| - 1].state == f.state
    requires SynchronousLog(s, g) != [] && !SynchronousLog(s, g)[|SynchronousLog(s, g)| - 1].state.Failed?
    requires var f := Watchdog.After(g, t0, timeout, looks).goal;
      if EndedInStall(g, t0, timeout, looks) then
        f.step <= |SynchronousLog(s, g)| && f.state.Failed?
        && events == SynchronousLog(s, g)[..f.step] + [f.Event(STALL_DETAIL)]
      else events == SynchronousLog(s, g)
    ensures CameTo(s, g, t0, timeout, looks, pumped, events, done)
  {
    hide Trace, Faithful, Timely, Contexts, Answers, Watchdog.After, EndedInStall, SynchronousLog, MostPasses;
  }

  lemma SynchronousLogEnds(s: Session, g: Goal)
    requires s.env.Sane() && g.Valid() && g.Acting() && g.step == 1 && g.steer == None
    ensures var log := SynchronousLog(s, g); log != [] && !log[|log| - 1].state.Failed?
  {
    hide Synchronous, FullLog, Run;
    LastEvent(g, Synchronous(s, g, g.maxSteps));
    SynchronousNeverFails(s, g, g.maxSteps);
  }

  lemma LastEvent(g: Goal, rs: seq<TurnResult>)
    requires g.Valid() && g.Acting() && g.step == 1 && g.steer == None
    ensures var log := FullLog(g, rs); log != [] && log[|log| - 1].state == Run(g, rs).state
  {
    hide FullLog, Run;
    LogShape(g, rs);
  }

  lemma RunBroke(s: Session, g: Goal, t0: nat, timeout: u64, looks: seq<Look>,
                 sent: seq<string>, why: Panic, start: nat, began: nat, now: nat)
    requires s.env.Sane() && g.Valid() && g.step == 1 && g.steer == None && Trace(g, t0, timeout, looks)
    requires s == SessionWith(s.env) && start <= t0
    requires Overran(why, now) ||
      (&& Watchdog.After(g, t0, timeout, looks).goal.Acting() && NotBefore(t0, looks) <= began
       && Faithful(s, Contexts(g, t0, timeout, looks), Answers(looks))
       && sent == PromptsSent(Contexts(g, t0, timeout, looks), Answers(looks))
       && Excuse(s.env, sent, s.skip, why, began, now))
    ensures BrokeOff(s.env, g, why, start, t0, looks, sent, began, now)
  {
    hide Faithful, Contexts, Answers, Ordered, Spaced, Brief, Run, Watchdog.After, Excuse, PromptsSent, AllPrompts, NotBefore;
    hide Results;
    if !Overran(why, now) {
      NoStallWhileActing(g, t0, timeout, looks);
      LoopIsDriven(g, t0, timeout, looks);
      SentAreFirst(s, g, Contexts(g, t0, timeout, looks), Answers(looks));
    }
  }
}
