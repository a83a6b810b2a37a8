/** Whole runs over the mesh: over a gateway that converses, and the same
    gateway behind two schedules. */
module MeshRuns {
  import opened Wrappers
  import opened Protocol
  import opened Time
  import opened Driver
  import opened DriverLaws
  import opened Frames
  import opened Rfc6455
  import opened RfcLaws
  import opened Link
  import opened Mesh
  import opened GatewayTurns
  import opened GoalDriver
  import opened Watchdog
  import opened WatchdogLaws
  import opened Agent
  import opened EndToEnd
  import opened PollLaws
  import opened StallLaws
  import opened MeshGoal
  import opened Conversation

  /** The last event announces a failed goal. */
  predicate Failed(events: seq<GoalEvent>)
    requires events != []
  {
    events[|events| - 1].state.Failed?
  }

  // ── over a gateway that converses ──────────────────────────────────────

  /** The gateway's frames hold no protocol error and no close. */
  lemma ConversationIsAlive(s: Session, opening: seq<Frame>, turn: seq<string> -> seq<Frame>, prompts: seq<string>)
    requires s.env.Sane() && Converses(s, opening, turn)
    ensures !Dead(s.env, prompts, s.skip)
  {
    hide Drain, Stream, Converses, Spoken;
    StreamSpeaks(s, opening, turn, prompts);
  }

  lemma LogIsDialogue(s: Session, opening: seq<Frame>, turn: seq<string> -> seq<Frame>, g: Goal)
    requires s.env.Sane() && g.Valid() && Converses(s, opening, turn)
    ensures SynchronousLog(s, g) == FullLog(g, Dialogue(s, turn, g, g.maxSteps))
  {
    hide Converses, Dialogue, FullLog;
    LogOfSynchronous(s, g);
    SynchronousIsDialogue(s, opening, turn, g, g.maxSteps);
  }

  /** Every byte that the gateway sends to the synchronous driver's prompts has
      come in whenever the client looks. */
  ghost predicate Delivered(env: Environment, g: Goal)
    requires env.Sane() && g.Valid()
  {
    forall n :: |Stream(env, AllPrompts(SessionWith(env), g))| <= env.arrivals(n)
  }

  lemma WholeStream(s: Session, prompts: seq<string>)
    requires s.env.Sane() && s.skip <= |Stream(s.env, prompts)|
    ensures RepliesBy(s, prompts, |Stream(s.env, prompts)|) == RepliesTo(s, prompts)
  {
    hide Drain, Stream, SelfDelimiting, RepliesRead;
    var stream := Stream(s.env, prompts);
    assert stream[s.skip..|stream|] == stream[s.skip..];
  }

  lemma DeliveredIsReplied(s: Session, opening: seq<Frame>, turn: seq<string> -> seq<Frame>, all: seq<string>,
                           k: nat, arrived: nat)
    requires s.env.Sane() && Converses(s, opening, turn)
    requires 0 < k <= |all| && |Stream(s.env, all)| <= arrived
    ensures RepliedBy(s, all[..k], arrived)
  {
    hide Converses, RepliesBy, RepliesTo, Stream, SelfDelimiting, Drain, AtBoundary, Spoken, VerdictOn, Said;
    assert all[..k] + all[k..] == all;
    StreamGrows(s.env, all[..k], all[k..]);
    OneReplyPerPrompt(s, opening, turn, all[..k]);
    StreamSpeaks(s, opening, turn, all[..k]);
    WholeStream(s, all[..k]);
  }

  /** A gateway that converses, promptly delivered, is responsive. */
  lemma DeliveredIsResponsive(env: Environment, opening: seq<Frame>, turn: seq<string> -> seq<Frame>, g: Goal)
    requires env.Sane() && g.Valid() && Converses(SessionWith(env), opening, turn) && Delivered(env, g)
    ensures Responsive(SessionWith(env), g)
  {
    var s, all := SessionWith(env), AllPrompts(SessionWith(env), g);
    hide Converses, AllPrompts, RepliedBy, Stream, SelfDelimiting;
    forall k, n | 0 < k <= |all| ensures RepliedBy(s, all[..k], s.env.arrivals(n)) {
      DeliveredIsReplied(s, opening, turn, all, k, s.env.arrivals(n));
    }
  }

  /** `run` over a gateway that converses. Whatever the schedule, the events
      are those of the dialogue — per step the verdict in everything said in
      that step's own turn — or, after a time-out, those up to that step and
      the stall. There is no time-out if the gateway's bytes are delivered and
      the passes are swift; and no panic comes from a protocol error or a close in the
      gateway's frames. */
  method RunOverConversation(env: Environment, ghost opening: seq<Frame>, ghost turn: seq<string> -> seq<Frame>,
                             request: Bytes, objective: string, timeout: u64, clock: Clock, sink: Sink)
    returns (o: Outcome<bool>, ghost t0: nat, ghost looks: seq<Look>)
    requires env.Sane() && Converses(SessionWith(env), opening, turn)
    modifies clock, sink
    ensures o.Returned? ==> old(sink.events) < sink.events
    ensures o.Returned? ==>
      var g, last := NewGoal(objective), sink.events[|sink.events| - 1];
      var log := FullLog(g, Dialogue(SessionWith(env), turn, g, g.maxSteps));
      if last.state.Failed? then
        last.step <= |log| && last.detail == STALL_DETAIL
        && sink.events == old(sink.events) + (log[..last.step] + [last])
      else sink.events == old(sink.events) + log
    ensures o.Returned? && Delivered(env, NewGoal(objective)) && Swift(t0, timeout, looks) ==> !Failed(sink.events)
    ensures o.Panicked? ==> !o.why.PeerClosed?
    ensures o.Panicked? && o.why.ProtocolError? ==> env.accept(env.gateway([])).Refused?
  {
    hide Converses, Dialogue, FullLog, NewGoal, Delivered, Responsive, Swift, Dead, Garbled, Sessionless, AllPrompts;
    hide Watchdog.After, EndedInStall, Timely, Faithful, Contexts, Answers, SynchronousLog, SelfDelimiting;
    ghost var g, events := NewGoal(objective), sink.events;
    ghost var pumped, sent, began;
    o, t0, looks, pumped, sent, began := RunOverMesh(env, request, objective, timeout, clock, sink);
    LogIsDialogue(SessionWith(env), opening, turn, g);
    ConversationIsAlive(SessionWith(env), opening, turn, []);
    ConversationIsAlive(SessionWith(env), opening, turn, sent);
    if Delivered(env, g) {
      DeliveredIsResponsive(env, opening, turn, g);
    }
    if o.Returned? {
      assert sink.events == events + sink.events[|events|..];
    }
  }

  // ── the same gateway behind two schedules ──────────────────────────────

  /** Two environments with the same gateway, codecs and decoder: only the
      schedule differs — when bytes arrive, how they are cut up when they are
      received and when they are read, what the socket accepts — and what the
      client's own frames look like. */
  ghost predicate SameGateway(a: Environment, b: Environment) {
    && a.gateway == b.gateway && a.accept == b.accept && a.parse == b.parse
    && a.utf8 == b.utf8 && a.classify == b.classify
  }

  lemma SameLog(a: Environment, b: Environment, g: Goal)
    requires a.Sane() && b.Sane() && g.Valid() && SameGateway(a, b)
    ensures SynchronousLog(SessionWith(a), g) == SynchronousLog(SessionWith(b), g)
  {
    hide Synchronous, FullLog, SelfDelimiting;
    SameTurns(SessionWith(a), SessionWith(b), g, g.maxSteps);
  }

  /** A run that has not failed has announced the synchronous log. */
  lemma Announced(s: Session, g: Goal, t0: nat, timeout: u64, looks: seq<Look>, pumped: seq<nat>,
                  before: seq<GoalEvent>, after: seq<GoalEvent>, done: bool)
    requires s.env.Sane() && g.Valid() && before <= after
    requires CameTo(s, g, t0, timeout, looks, pumped, after[|before|..], done)
    ensures before < after
    ensures !Failed(after) ==>
      after[|before|..] == SynchronousLog(s, g) && (done <==> after[|after| - 1].state.Done?)
  {
    hide SynchronousLog, Watchdog.After, EndedInStall, Timely, Faithful, Contexts, Answers, Trace;
  }

  /** The schedule does not matter: two runs over the same gateway, by
      different schedules, clocks and timeouts, that return without a stall —
      only a stall makes a goal fail — have announced the same events and come to the same result. */
  method RunTwice(a: Environment, b: Environment, request: Bytes, objective: string, timeoutA: u64, timeoutB: u64,
                  clockA: Clock, clockB: Clock, sinkA: Sink, sinkB: Sink)
    returns (oA: Outcome<bool>, oB: Outcome<bool>)
    requires a.Sane() && b.Sane() && SameGateway(a, b) && sinkA != sinkB
    modifies clockA, clockB, sinkA, sinkB
    ensures oA.Returned? ==> old(sinkA.events) < sinkA.events
    ensures oB.Returned? ==> old(sinkB.events) < sinkB.events
    ensures oA.Returned? && oB.Returned? && !Failed(sinkA.events) && !Failed(sinkB.events) ==>
      oA == oB && sinkA.events[|old(sinkA.events)|..] == sinkB.events[|old(sinkB.events)|..]
  {
    hide NewGoal, AllPrompts, BrokeOff, CameTo, Failed, SameGateway, Responsive, Swift;
    hide EndedInStall, SynchronousLog, SelfDelimiting;
    ghost var beforeA, beforeB := sinkA.events, sinkB.events;
    SameLog(a, b, NewGoal(objective));
    ghost var t0, looks, pumped, sent, began;
    oA, t0, looks, pumped, sent, began := RunOverMesh(a, request, objective, timeoutA, clockA, sinkA);
    if oA.Returned? {
      Announced(SessionWith(a), NewGoal(objective), t0, timeoutA, looks, pumped, beforeA, sinkA.events, oA.value);
    }
    ghost var afterA := sinkA.events;
    assert sinkB.events == beforeB;
    oB, t0, looks, pumped, sent, began := RunOverMesh(b, request, objective, timeoutB, clockB, sinkB);
    if oB.Returned? {
      Announced(SessionWith(b), NewGoal(objective), t0, timeoutB, looks, pumped, beforeB, sinkB.events, oB.value);
    }
    assert sinkA.events == afterA;
  }
}
