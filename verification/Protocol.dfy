/** The part of the colony's wire vocabulary that the goal driver emits. */
module Protocol {

  type u32 = x: int | 0 <= x < 0x1_0000_0000
  type u64 = x: int | 0 <= x < 0x1_0000_0000_0000_0000

  type GoalId = u64

  datatype GoalState = Planning | Acting | Blocked | Reflecting | Done | Failed | Cancelled

  datatype GoalEvent = GoalStateChanged(
    goal: GoalId,
    objective: string,
    state: GoalState,
    step: u32,
    maxSteps: u32,
    detail: string,
    yolo: bool)
}
