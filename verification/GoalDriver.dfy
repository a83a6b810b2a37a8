/** `GoalDriver`: the goal held in place, events going to a sink. */
module GoalDriver {
  import opened Seqs
  import opened Wrappers
  import opened Protocol
  import opened Turn
  import opened Time
  import opened Driver
  import opened DriverLaws
  import opened Engines

  class Sink {
    var events: seq<GoalEvent>

    constructor ()
      ensures events == []
    {
      events := [];
    }

    method Emit(e: GoalEvent)
      modifies this
      ensures events == old(events) + [e]
    {
      events := events + [e];
    }
  }

  class GoalDriver {
    const goal: GoalId
    const objective: string
    var state: GoalState
    var step: u32
    const maxSteps: u32
    var steer: Option<string>

    function Value(): Goal
      reads this
    {
      Goal(goal, objective, state, step, maxSteps, steer)
    }

    ghost predicate Valid()
      reads this
    {
      Value().Valid()
    }

    /** `start`. */
    constructor Start(goal: GoalId, objective: string, maxSteps: u32, sink: Sink)
      modifies sink
      ensures Valid() && Value() == Fresh(goal, objective, maxSteps)
      ensures sink.events == old(sink.events) + [Value().Event("")]
      ensures Value().Event("") == GoalStateChanged(goal, objective, GoalState.Acting, 1, Clamp(maxSteps), "", false)
    {
      this.goal, this.objective := goal, objective;
      state, step, steer := GoalState.Acting, 1, None;
      this.maxSteps := Clamp(maxSteps);
      new;
      EmitState("", sink);
    }

    method EmitState(detail: string, sink: Sink)
      modifies sink
      ensures sink.events == old(sink.events) + [Value().Event(detail)]
      ensures Value().Event(detail) == GoalStateChanged(goal, objective, state, step, maxSteps, detail, false)
    {
      sink.Emit(GoalStateChanged(goal, objective, state, step, maxSteps, detail, false));
    }

    /** `advance`. */
    method Advance(result: TurnResult, sink: Sink)
      requires Valid()
      modifies this, sink
      ensures Valid() && Value() == Next(old(Value()), result)
      ensures sink.events == old(sink.events) + Emits(old(Value()), result)
    {
      if !state.Acting? {
        return;
      }
      if result.Pending? {
        return;
      }
      steer := None;
      match result
      case Stalled =>
        state := GoalState.Failed;
        EmitState(STALL_DETAIL, sink);
      case Completed(Done) =>
        state := GoalState.Done;
        EmitState("", sink);
      case Completed(Blocked(reason)) =>
        state := GoalState.Blocked;
        EmitState(reason, sink);
      case Completed(Continue(next)) =>
        if step >= maxSteps {
          state := GoalState.Done;
          EmitState(BUDGET_REACHED, sink);
        } else {
          step := step + 1;
          steer := next;
          EmitState("", sink);
        }
    }

    /** `poll`: consult the engine once, if the goal is acting. `r` is what the
        engine answered. */
    method Poll(inf: Inference, clock: Clock, sink: Sink) returns (o: Outcome<()>, ghost r: TurnResult)
      requires Valid() && inf.Valid()
      requires {this, sink, clock} !! inf.Objects()
      modifies this, sink, clock, inf.Objects()
      ensures old(clock.now) <= clock.now
      ensures o.Panicked? ==> sink.events == old(sink.events)
      ensures o.Panicked? ==> !inf.NeverPends()
      ensures o.Panicked? ==> inf.Broke(old(inf.Asked()), old(inf.Answered()), o.why, old(clock.now), clock.now)
      ensures o.Returned? ==> Valid() && inf.Valid()
      ensures o.Returned? ==> Value() == Next(old(Value()), r)
      ensures o.Returned? ==> sink.events == old(sink.events) + Emits(old(Value()), r)
      ensures o.Returned? ==> inf.Answered() == old(inf.Answered()) + (if old(Value()).Acting() then [r] else [])
      ensures o.Returned? ==>
        inf.Asked() == old(inf.Asked()) + (if old(Value()).Acting() then [old(Value()).Context()] else [])
      ensures o.Returned? && old(Value()).Acting() && inf.NeverPends() ==> !r.Pending?
    {
      hide Inference.Valid, Inference.Asked, Inference.Answered, Inference.NeverPends, Inference.Broke;
      if !state.Acting? {
        return Returned(()), Pending;
      }
      o, r := Consult(inf, clock, sink);
    }

    method Consult(inf: Inference, clock: Clock, sink: Sink) returns (o: Outcome<()>, ghost r: TurnResult)
      requires Valid() && inf.Valid() && state.Acting?
      requires {this, sink, clock} !! inf.Objects()
      modifies this, sink, clock, inf.Objects()
      ensures old(clock.now) <= clock.now
      ensures o.Panicked? ==> sink.events == old(sink.events)
      ensures o.Panicked? ==> !inf.NeverPends()
      ensures o.Panicked? ==> inf.Broke(old(inf.Asked()), old(inf.Answered()), o.why, old(clock.now), clock.now)
      ensures o.Returned? ==> Valid() && inf.Valid()
      ensures o.Returned? ==> Value() == Next(old(Value()), r)
      ensures o.Returned? ==> sink.events == old(sink.events) + Emits(old(Value()), r)
      ensures o.Returned? ==> inf.Answered() == old(inf.Answered()) + [r]
      ensures o.Returned? ==> inf.Asked() == old(inf.Asked()) + [old(Value()).Context()]
      ensures o.Returned? && inf.NeverPends() ==> !r.Pending?
    {
      hide Inference.Valid, Inference.Asked, Inference.Answered, Inference.NeverPends, Inference.Broke;
      r := Pending;
      var ctx := TickContext(goal, objective, step, maxSteps, steer);
      var result :- inf.Next(ctx, clock);
      r := result;
      if result.Pending? {
        return Returned(()), r;
      }
      Advance(result, sink);
      return Returned(()), r;
    }

    /** `run`: for engines whose turns always complete, poll until the goal
        leaves Acting. `rs` is what the engine answered. */
    method Run(inf: Inference, clock: Clock, sink: Sink) returns (final: GoalState, ghost rs: seq<TurnResult>)
      requires Valid() && inf.Valid() && inf.NeverPends()
      requires {this, sink, clock} !! inf.Objects()
      modifies this, sink, clock, inf.Objects()
      ensures sink.events == old(sink.events) + Log(old(Value()), rs)
      ensures Valid() && inf.Valid() && inf.Answered() == old(inf.Answered()) + rs
      ensures Value() == Driver.Run(old(Value()), rs) && !Value().Acting() && final == state
    {
      hide Inference.Valid, Inference.Asked, Inference.Answered, Inference.NeverPends, Inference.Broke;
      rs := [];
      ghost var g, events, answered := Value(), sink.events, inf.Answered();
      RunNothing(g, events, answered);
      hide Next, Emits, Log, Driver.Run;
      while state.Acting?
        invariant Valid() && inf.Valid()
        invariant Value() == Driver.Run(g, rs)
        invariant sink.events == events + Log(g, rs)
        invariant inf.Answered() == answered + rs
        decreases maxSteps - step, state.Acting?
      {
        ghost var r;
        var polled: Outcome<()>;
        polled, r := Poll(inf, clock, sink);
        assert polled.Returned?;
        RunAppend(g, rs, r);
        Progress(Driver.Run(g, rs), r);
        Regroup(events, Log(g, rs), Emits(Driver.Run(g, rs), r));
        Regroup(answered, rs, [r]);
        rs := rs + [r];
      }
      return state, rs;
    }
  }

  lemma RunNothing(g: Goal, events: seq<GoalEvent>, answered: seq<TurnResult>)
    requires g.Valid()
    ensures Driver.Run(g, []) == g && events + Log(g, []) == events && answered + [] == answered
  {
  }
}
