/** What passes between the goal driver and a turn engine. */
module Turn {
  import opened Wrappers
  import opened Protocol

  /** The agent's reported outcome for the in-flight step. */
  datatype Verdict =
    | Continue(steer: Option<string>)
    | Done
    | Blocked(reason: string)

  /** How the turn engine observed the in-flight step. */
  datatype TurnResult =
    | Completed(verdict: Verdict)
    | Pending
    | Stalled

  /** What the driver shows the engine for one poll. */
  datatype TickContext = TickContext(
    goal: GoalId,
    objective: string,
    step: u32,
    maxSteps: u32,
    steer: Option<string>)

  const CONTINUE_BY_DEFAULT: Verdict := Continue(None)
}
