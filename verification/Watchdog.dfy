/** The cooperative loop as a transition function: one pass polls once, keeps
    track of when the step in force was first observed, and stalls a goal whose
    step has been quiet for too long. */
module Watchdog {
  import opened Protocol
  import opened Turn
  import opened Time
  import opened Driver

  /** `u64::wrapping_sub`. */
  function WrappingSub(a: u64, b: u64): u64 {
    (a - b) % 0x1_0000_0000_0000_0000
  }

  /** The counter's reading at a moment. */
  function Reading(t: nat): u64 {
    t % 0x1_0000_0000_0000_0000
  }

  /** What one pass observes: the answer of its poll, the moment at which a
      new step is first seen, and the moment of the watchdog check. */
  datatype Look = Look(answer: TurnResult, restart: nat, check: nat)

  /** The loop's own variables, with the moment behind `step_started`. */
  datatype Watch = Watch(goal: Goal, lastStep: u32, started: nat)

  /** The poll's half of a pass. */
  function Polled(w: Watch, l: Look): (w': Watch)
    requires w.goal.Valid()
    ensures w'.goal.Valid() && w'.goal.maxSteps == w.goal.maxSteps
  {
    var g := Next(w.goal, l.answer);
    if g.step != w.lastStep then Watch(g, g.step, l.restart) else Watch(g, w.lastStep, w.started)
  }

  /** The check: more than `timeout` ticks have passed by the counter. */
  predicate Overdue(w: Watch, l: Look, timeout: u64) {
    WrappingSub(Reading(l.check), Reading(w.started)) > timeout
  }

  /** The watchdog fires in this pass. */
  predicate Fires(w: Watch, l: Look, timeout: u64)
    requires w.goal.Valid()
  {
    Polled(w, l).goal.Acting() && Overdue(Polled(w, l), l, timeout)
  }

  /** One whole pass. */
  function Pass(w: Watch, l: Look, timeout: u64): (w': Watch)
    requires w.goal.Valid()
    ensures w'.goal.Valid() && w'.goal.maxSteps == w.goal.maxSteps
  {
    var p := Polled(w, l);
    if Fires(w, l, timeout) then p.(goal := Next(p.goal, Stalled)) else p
  }

  /** The results a pass applies. */
  function Applied(w: Watch, l: Look, timeout: u64): seq<TurnResult>
    requires w.goal.Valid()
  {
    if Fires(w, l, timeout) then [l.answer, Stalled] else [l.answer]
  }

  /** The loop's variables after some passes. */
  function After(g: Goal, t0: nat, timeout: u64, looks: seq<Look>): (w: Watch)
    requires g.Valid()
    ensures w.goal.Valid() && w.goal.maxSteps == g.maxSteps
  {
    if looks == [] then Watch(g, g.step, t0)
    else Pass(After(g, t0, timeout, looks[..|looks| - 1]), looks[|looks| - 1], timeout)
  }

  /** Everything applied to the driver over some passes. */
  function Results(g: Goal, t0: nat, timeout: u64, looks: seq<Look>): seq<TurnResult>
    requires g.Valid()
  {
    if looks == [] then []
    else
      var before := looks[..|looks| - 1];
      Results(g, t0, timeout, before) + Applied(After(g, t0, timeout, before), looks[|looks| - 1], timeout)
  }

  /** The answers of the polls alone. */
  function Answers(looks: seq<Look>): (rs: seq<TurnResult>)
    ensures |rs| == |looks|
  {
    if looks == [] then [] else Answers(looks[..|looks| - 1]) + [looks[|looks| - 1].answer]
  }

  /** Each pass but the last leaves the goal acting: the loop ran for all of
      them. */
  ghost predicate Ran(g: Goal, t0: nat, timeout: u64, looks: seq<Look>)
    requires g.Valid()
  {
    g.Acting() && forall j :: 0 <= j < |looks| ==> After(g, t0, timeout, looks[..j]).goal.Acting()
  }

  // ── time ───────────────────────────────────────────────────────────────

  /** The moments of the passes are in order. */
  ghost predicate Ordered(t0: nat, looks: seq<Look>) {
    && (forall j :: 0 <= j < |looks| ==> t0 <= looks[j].restart <= looks[j].check)
    && (forall i, j :: 0 <= i < j < |looks| ==> looks[i].check <= looks[j].restart)
  }

  /** The idle quantum between watchdog checks: 10 ms. */
  const IDLE_QUANTUM_TICKS: nat := TICKS_PER_SEC / 100

  /** The sleep between two passes lasts at least the idle quantum. */
  ghost predicate Spaced(looks: seq<Look>) {
    forall i, j :: 0 <= i < |looks| && j == i + 1 < |looks| ==>
      looks[i].check + IDLE_QUANTUM_TICKS <= looks[j].check
  }

  /** Whole idle quanta in a span of time. */
  function Quanta(ticks: nat): (q: nat)
    ensures q == ticks / IDLE_QUANTUM_TICKS
  {
    ticks / 100_000
  }

  /** The number of passes one step can last. */
  function PassesPerStep(timeout: u64): nat {
    Quanta(timeout) + 2
  }

  /** The number of passes that so many steps can last. */
  function MostPasses(steps: nat, timeout: u64): nat {
    steps * PassesPerStep(timeout)
  }

  /** The check of pass `j` is made: its poll leaves the goal acting. */
  predicate Checked(g: Goal, t0: nat, timeout: u64, looks: seq<Look>, j: nat)
    requires g.Valid() && j < |looks|
  {
    Polled(After(g, t0, timeout, looks[..j]), looks[j]).goal.Acting()
  }

  /** Every check is made within the counter's range from the first sight of
      the step it checks. */
  ghost predicate Brief(g: Goal, t0: nat, timeout: u64, looks: seq<Look>)
    requires g.Valid()
  {
    forall j :: 0 <= j < |looks| && Checked(g, t0, timeout, looks, j) ==>
      looks[j].check - Polled(After(g, t0, timeout, looks[..j]), looks[j]).started < COUNTER_RANGE
  }
}
