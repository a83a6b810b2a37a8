/** The goal driver as a transition function: one observed turn result takes a
    goal to its next value and emits at most one event. */
module Driver {
  import opened Wrappers
  import opened Protocol
  import opened Turn

  const MAX_STEPS_CEIL: u32 := 100
  const BUDGET_REACHED := "step budget reached"
  const STALL_DETAIL := "step stalled — no completion"

  datatype Goal = Goal(
    goal: GoalId,
    objective: string,
    state: GoalState,
    step: u32,
    maxSteps: u32,
    steer: Option<string>)
  {
    ghost predicate Valid() {
      1 <= step <= maxSteps <= MAX_STEPS_CEIL
    }

    predicate Acting() {
      state.Acting?
    }

    function Context(): TickContext {
      TickContext(goal, objective, step, maxSteps, steer)
    }

    function Event(detail: string): GoalEvent {
      GoalStateChanged(goal, objective, state, step, maxSteps, detail, false)
    }
  }

  /** `u32::clamp(1, MAX_STEPS_CEIL)`. */
  function Clamp(maxSteps: u32): (c: u32)
    ensures 1 <= c <= 100
    ensures 1 <= maxSteps <= 100 ==> c == maxSteps
    ensures (maxSteps > 100 ==> c == 100) && (maxSteps == 0 ==> c == 1)
  {
    if maxSteps < 1 then 1 else if maxSteps > MAX_STEPS_CEIL then MAX_STEPS_CEIL else maxSteps
  }

  /** The value of a goal that has just been created. */
  function Fresh(goal: GoalId, objective: string, maxSteps: u32): (g: Goal)
    ensures g.Valid() && g.Acting() && g.step == 1
  {
    Goal(goal, objective, GoalState.Acting, 1, Clamp(maxSteps), None)
  }

  /** The goal after one turn result. */
  function Next(g: Goal, r: TurnResult): (g': Goal)
    requires g.Valid()
    ensures g'.Valid()
    ensures g'.goal == g.goal && g'.objective == g.objective && g'.maxSteps == g.maxSteps
    ensures g.step <= g'.step <= g.step + 1
  {
    if !g.Acting() then g
    else
      match r
      case Pending => g
      case Stalled => g.(state := GoalState.Failed, steer := None)
      case Completed(Done) => g.(state := GoalState.Done, steer := None)
      case Completed(Blocked(_)) => g.(state := GoalState.Blocked, steer := None)
      case Completed(Continue(steer)) =>
        if g.step >= g.maxSteps then g.(state := GoalState.Done, steer := None)
        else g.(step := g.step + 1, steer := steer)
  }

  /** The detail string that goes with a result. */
  function Detail(g: Goal, r: TurnResult): string {
    match r
    case Stalled => STALL_DETAIL
    case Completed(Blocked(reason)) => reason
    case Completed(Continue(_)) => if g.step >= g.maxSteps then BUDGET_REACHED else ""
    case _ => ""
  }

  /** The events one turn result emits. */
  function Emits(g: Goal, r: TurnResult): (es: seq<GoalEvent>)
    requires g.Valid()
    ensures |es| <= 1
  {
    if g.Acting() && !r.Pending? then [Next(g, r).Event(Detail(g, r))] else []
  }

  /** The goal after a sequence of results. */
  function Run(g: Goal, rs: seq<TurnResult>): (g': Goal)
    requires g.Valid()
    ensures g'.Valid()
    ensures g'.goal == g.goal && g'.objective == g.objective && g'.maxSteps == g.maxSteps
  {
    if rs == [] then g else Next(Run(g, rs[..|rs| - 1]), rs[|rs| - 1])
  }

  /** The events of a sequence of results. */
  function Log(g: Goal, rs: seq<TurnResult>): seq<GoalEvent>
    requires g.Valid()
  {
    if rs == [] then []
    else
      var before := rs[..|rs| - 1];
      Log(g, before) + Emits(Run(g, before), rs[|rs| - 1])
  }

  /** The results that are transitions. */
  function Settled(rs: seq<TurnResult>): (c: seq<TurnResult>)
    ensures forall i :: 0 <= i < |c| ==> !c[i].Pending?
  {
    if rs == [] then []
    else
      var before, last := Settled(rs[..|rs| - 1]), rs[|rs| - 1];
      if last.Pending? then before else before + [last]
  }
}
