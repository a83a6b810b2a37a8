/** The compiled-in transcript engine. */
module Scripted {
  import opened Wrappers
  import opened Turn

  datatype ScriptStep =
    | Go
    | GoWith(steer: string)
    | Finish
    | Block(reason: string)
    | Stall
    | Hang // the turn stays in flight; the entry is not consumed

  /** What a poll that looks at entry `i` observes; past the end the engine has
      gone quiet. */
  function Observe(steps: seq<ScriptStep>, i: nat): TurnResult {
    if i >= |steps| then Stalled
    else
      match steps[i]
      case Go => Completed(Continue(None))
      case GoWith(steer) => Completed(Continue(Some(steer)))
      case Finish => Completed(Done)
      case Block(reason) => Completed(Blocked(reason))
      case Stall => Stalled
      case Hang => Pending
  }

  /** The first entry that hangs, or the length. */
  function FirstHang(steps: seq<ScriptStep>): (p: nat)
    ensures p <= |steps|
    ensures forall i :: 0 <= i < p ==> !steps[i].Hang?
    ensures p < |steps| ==> steps[p].Hang?
  {
    if steps == [] || steps[0].Hang? then 0 else 1 + FirstHang(steps[1..])
  }

  /** The entry that poll number `n` looks at: the script advances by one per
      poll, up to the first entry that hangs. */
  function Position(steps: seq<ScriptStep>, n: nat): nat {
    var p := FirstHang(steps);
    if p < |steps| && p < n then p else n
  }

  /** The first `n` answers of a script. */
  function Transcript(steps: seq<ScriptStep>, n: nat): (rs: seq<TurnResult>)
    ensures |rs| == n
    ensures forall i :: 0 <= i < n ==> rs[i] == Observe(steps, Position(steps, i))
  {
    seq(n, i requires 0 <= i < n => Observe(steps, Position(steps, i)))
  }

  class ScriptedInference {
    const steps: seq<ScriptStep>
    var at: nat
    ghost var asked: seq<TickContext>
    ghost var answered: seq<TurnResult>

    ghost predicate Valid()
      reads this
    {
      && |asked| == |answered|
      && at == Position(steps, |answered|)
      && answered == Transcript(steps, |answered|)
    }

    constructor (steps: seq<ScriptStep>)
      ensures Valid() && this.steps == steps && asked == [] && answered == []
    {
      this.steps := steps;
      at, asked, answered := 0, [], [];
    }

    /** `next`. */
    method Next(ctx: TickContext) returns (r: TurnResult)
      requires Valid()
      modifies this
      ensures Valid() && asked == old(asked) + [ctx] && answered == old(answered) + [r]
      ensures r == Observe(steps, old(at))
    {
      if at < |steps| && steps[at].Hang? {
        r := Pending;
      } else {
        r := Observe(steps, at);
        at := at + 1;
      }
      asked, answered := asked + [ctx], answered + [r];
    }
  }

  const SCRIPT_SUCCESS := [Go, GoWith("summarize sensor coverage, then wrap up"), Finish]
  const SCRIPT_STALL := [Go, Stall]
  const SCRIPT_HANG := [Go, Hang]
}
