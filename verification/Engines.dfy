/** The turn engines a goal can be driven by. */
module Engines {
  import opened Wrappers
  import opened Turn
  import opened Time
  import opened Scripted
  import opened MeshInference

  /** Stands for every other implementor of the `Inference` trait: the answer
      may depend on everything it has been shown, and takes some time. */
  class AnyInference {
    const answer: seq<TickContext> -> TurnResult
    const takes: nat -> nat
    var asked: seq<TickContext>
    ghost var answered: seq<TurnResult>

    ghost predicate Valid()
      reads this
    {
      |asked| == |answered|
      && forall i {:trigger answered[i]} :: 0 <= i < |asked| ==> answered[i] == answer(asked[..i + 1])
    }

    constructor (answer: seq<TickContext> -> TurnResult, takes: nat -> nat)
      ensures Valid() && this.answer == answer && asked == [] && answered == []
    {
      this.answer, this.takes := answer, takes;
      asked, answered := [], [];
    }

    method Next(ctx: TickContext, clock: Clock) returns (r: TurnResult)
      requires Valid()
      modifies this, clock
      ensures old(clock.now) <= clock.now
      ensures Valid() && asked == old(asked) + [ctx] && answered == old(answered) + [r]
      ensures r == answer(asked)
    {
      clock.Spend(takes(|asked|));
      asked := asked + [ctx];
      r := answer(asked);
      answered := answered + [r];
      forall i | 0 <= i < |old(asked)| ensures answered[i] == answer(asked[..i + 1]) {
        assert answered[i] == old(answered)[i];
        assert asked[..i + 1] == old(asked)[..i + 1];
      }
      assert asked[..|asked|] == asked;
    }
  }

  datatype Inference =
    | FromScript(script: ScriptedInference)
    | OverMesh(remote: MeshInference)
    | FromElsewhere(other: AnyInference)
  {
    ghost function Objects(): set<object> {
      match this
      case FromScript(script) => {script}
      case OverMesh(remote) => {remote, remote.mesh}
      case FromElsewhere(other) => {other}
    }

    ghost predicate Valid()
      reads Objects()
    {
      match this
      case FromScript(script) => script.Valid()
      case OverMesh(remote) => remote.Valid()
      case FromElsewhere(other) => other.Valid()
    }

    /** The contexts shown so far. */
    ghost function Asked(): seq<TickContext>
      reads Objects()
    {
      match this
      case FromScript(script) => script.asked
      case OverMesh(remote) => remote.asked
      case FromElsewhere(other) => other.asked
    }

    /** The answers given so far. */
    ghost function Answered(): seq<TurnResult>
      reads Objects()
    {
      match this
      case FromScript(script) => script.answered
      case OverMesh(remote) => remote.answered
      case FromElsewhere(other) => other.answered
    }

    /** A panic during a poll that began at `began` has its reason: only the
        mesh ever has one. */
    ghost predicate Excused(why: Panic, began: nat, now: nat)
      reads Objects()
    {
      OverMesh? && remote.Excused(why, began, now)
    }

    /** A poll that began at `began`, after this history, has panicked. */
    ghost predicate Broke(asked: seq<TickContext>, answered: seq<TurnResult>, why: Panic, began: nat, now: nat)
      reads Objects()
    {
      Excused(why, began, now) && remote.Accounted() && Asked() == asked && Answered() == answered
    }

    /** The engine's turns always complete. */
    ghost predicate NeverPends() {
      match this
      case FromScript(script) => FirstHang(script.steps) == |script.steps|
      case OverMesh(remote) => false
      case FromElsewhere(other) => forall shown :: !other.answer(shown).Pending?
    }

    method Next(ctx: TickContext, clock: Clock) returns (o: Outcome<TurnResult>)
      requires Valid()
      modifies Objects(), clock
      ensures old(clock.now) <= clock.now
      ensures o.Returned? ==> Valid() && Asked() == old(Asked()) + [ctx] && Answered() == old(Answered()) + [o.value]
      ensures o.Returned? && NeverPends() ==> !o.value.Pending?
      ensures o.Panicked? ==> !NeverPends()
      ensures o.Panicked? ==> Broke(old(Asked()), old(Answered()), o.why, old(clock.now), clock.now)
    {
      hide ScriptedInference.Valid, AnyInference.Valid, MeshInference.Valid, MeshInference.Accounted, MeshInference.Excused;
      match this
      case FromScript(script) =>
        var r := script.Next(ctx);
        o := Returned(r);
      case OverMesh(remote) =>
        o := remote.Next(ctx, clock);
      case FromElsewhere(other) =>
        var r := other.Next(ctx, clock);
        o := Returned(r);
    }
  }
}
