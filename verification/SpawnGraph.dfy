/** The spawn graph of a folded history, and the scan that collects a subtree. */
module SpawnGraph {
  import opened Seqs
  import opened Colony
  import opened FoldLaws
  import opened Forest

  // ── the birth clock ────────────────────────────────────────────────────

  /** The birth clock of a history as a rank. */
  ghost function Rank(ops: seq<Op>): SessionId -> nat {
    s => Birth(ops, s)
  }

  /** Child `c` is a session, and was born after `p` unless it is `p`. */
  ghost predicate Climbing(ops: seq<Op>, p: SessionId, c: SessionId) {
    c in Fold(ops).sessions && (c != p ==> Birth(ops, p) < Birth(ops, c))
  }

  /** Over every history, spawn edges lead to existing sessions, and the birth
      clock increases along each edge except a session's edge to itself. */
  lemma {:induction false} EdgesClimb(ops: seq<Op>)
    ensures forall p, c :: c in Kids(Fold(ops).sessions, p) ==> Climbing(ops, p, c)
  {
    if ops == [] {
    } else {
      var before := ops[..|ops| - 1];
      EdgesClimb(before);
      forall p, c | c in Kids(Fold(ops).sessions, p) ensures Climbing(ops, p, c) {
        EdgeClimbs(ops, p, c);
      }
    }
  }

  lemma {:induction false} PresentMeansBorn(ops: seq<Op>, s: SessionId)
    ensures s in Fold(ops).sessions <==> Birth(ops, s) > 0
  {
    if ops == [] {
    } else {
      PresentMeansBorn(ops[..|ops| - 1], s);
      StepOnSession(Fold(ops[..|ops| - 1]), ops[|ops| - 1], s);
    }
  }

  lemma EdgeClimbs(ops: seq<Op>, p: SessionId, c: SessionId)
    requires ops != [] && c in Kids(Fold(ops).sessions, p)
    requires c in Kids(Fold(ops[..|ops| - 1]).sessions, p) ==> Climbing(ops[..|ops| - 1], p, c)
    ensures Climbing(ops, p, c)
  {
    var before, op := ops[..|ops| - 1], ops[|ops| - 1];
    hide Fold, Step;
    FoldLast(ops);
    StepOnSession(Fold(before), op, p);
    StepOnSession(Fold(before), op, c);
    PresentMeansBorn(before, p);
    PresentMeansBorn(before, c);
  }

  // ── reachability ───────────────────────────────────────────────────────

  ghost predicate IsPath(sessions: Sessions, path: seq<SessionId>) {
    && path != []
    && forall i :: 0 <= i < |path| - 1 ==> path[i + 1] in Kids(sessions, path[i])
  }

  ghost predicate Joins(sessions: Sessions, path: seq<SessionId>, p: SessionId, x: SessionId) {
    IsPath(sessions, path) && path[0] == p && path[|path| - 1] == x
  }

  ghost predicate Reaches(sessions: Sessions, p: SessionId, x: SessionId) {
    exists path :: Joins(sessions, path, p, x)
  }

  predicate SelfSpawner(sessions: Sessions, x: SessionId) {
    x in Kids(sessions, x)
  }

  ghost predicate NoSelfSpawnerBelow(sessions: Sessions, root: SessionId) {
    forall x :: Reaches(sessions, root, x) ==> !SelfSpawner(sessions, x)
  }

  lemma ReachesSelf(sessions: Sessions, x: SessionId)
    ensures Reaches(sessions, x, x)
  {
    assert Joins(sessions, [x], x, x);
  }

  lemma ReachesKid(sessions: Sessions, root: SessionId, p: SessionId, c: SessionId)
    requires Reaches(sessions, root, p) && c in Kids(sessions, p)
    ensures Reaches(sessions, root, c)
  {
    var path :| Joins(sessions, path, root, p);
    assert Joins(sessions, path + [c], root, c);
  }

  /** The part of the spawn graph below `root`. */
  ghost function ReachGraph(sessions: Sessions, root: SessionId): Graph {
    map x | x in sessions.Keys + {root} && Reaches(sessions, root, x) :: Kids(sessions, x)
  }

  lemma ReachGraphClimbs(ops: seq<Op>, root: SessionId)
    requires NoSelfSpawnerBelow(Fold(ops).sessions, root)
    ensures Climbs(ReachGraph(Fold(ops).sessions, root), Rank(ops), |ops|)
    ensures root in ReachGraph(Fold(ops).sessions, root)
  {
    var sessions := Fold(ops).sessions;
    var g := ReachGraph(sessions, root);
    EdgesClimb(ops);
    ReachesSelf(sessions, root);
    forall p, i | p in g && 0 <= i < |g[p]|
      ensures g[p][i] in g && Birth(ops, p) < Birth(ops, g[p][i])
    {
      assert g[p] == Kids(sessions, p);
      ReachesKid(sessions, root, p, g[p][i]);
    }
  }

  /** The subtree as a specification: level order of the spawn lists. */
  ghost function SubtreeOrder(ops: seq<Op>, root: SessionId): (out: seq<SessionId>)
    requires NoSelfSpawnerBelow(Fold(ops).sessions, root)
    ensures Within(ReachGraph(Fold(ops).sessions, root), out)
    ensures out == [root] + AllKids(ReachGraph(Fold(ops).sessions, root), out)
  {
    ReachGraphClimbs(ops, root);
    LevelOrderIsClosed(ReachGraph(Fold(ops).sessions, root), Rank(ops), |ops|, [root], 0);
    LevelOrder(ReachGraph(Fold(ops).sessions, root), Rank(ops), |ops|, [root], 0)
  }

  /** Scanning one entry takes one path off the queue: its children come in,
      the entry itself goes out. */
  lemma ScanShrinks(g: Graph, rank: SessionId -> nat, top: nat, out: seq<SessionId>, i: nat)
    requires Climbs(g, rank, top) && Within(g, out) && i < |out|
    ensures Within(g, out + g[out[i]])
    ensures WeighAll(g, rank, top, ONE, out[i..], 0)
          > WeighAll(g, rank, top, ONE, (out + g[out[i]])[i + 1..], 0)
  {
    var x, rest := out[i], out[i + 1..];
    assert out[i..] == [x] + rest;
    assert (out + g[x])[i + 1..] == rest + g[x];
    WeighAppend(g, rank, top, ONE, [x], rest, 0);
    WeighAppend(g, rank, top, ONE, rest, g[x], 0);
    WeighFloor(g, rank, top, ONE, g[x], 0, rank(x) + 1);
    assert [x][..0] == [];
  }

  /** One iteration of the scan keeps the list equal to its start followed by
      the children of what has been scanned, and shrinks the queue. */
  lemma ScanStep(g: Graph, rank: SessionId -> nat, top: nat, start: seq<SessionId>, out: seq<SessionId>, i: nat)
    requires Climbs(g, rank, top) && Within(g, out) && i < |out|
    requires out == start + AllKids(g, out[..i])
    ensures var out' := out + g[out[i]];
      && Within(g, out')
      && out' == start + AllKids(g, out'[..i + 1])
      && WeighAll(g, rank, top, ONE, out[i..], 0) > WeighAll(g, rank, top, ONE, out'[i + 1..], 0)
  {
    hide WeighAll, AllKids, Climbs;
    var out' := out + g[out[i]];
    ScanShrinks(g, rank, top, out, i);
    NextIn(out, g[out[i]], i);
    KidsOfNext(g, out[..i], out[i]);
    EdgesStay(g, rank, top, out[i]);
    Regroup(start, AllKids(g, out[..i]), g[out[i]]);
  }

  lemma NextIn(out: seq<SessionId>, kids: seq<SessionId>, i: nat)
    requires i < |out|
    ensures (out + kids)[..i + 1] == out[..i] + [out[i]]
  {
  }

  lemma KidsOfNext(g: Graph, xs: seq<SessionId>, x: SessionId)
    requires Within(g, xs) && x in g
    ensures Within(g, xs + [x]) && AllKids(g, xs + [x]) == AllKids(g, xs) + g[x]
  {
    assert (xs + [x])[..|xs|] == xs;
  }

  lemma EdgesStay(g: Graph, rank: SessionId -> nat, top: nat, x: SessionId)
    requires Climbs(g, rank, top) && x in g
    ensures Within(g, g[x])
  {
  }
}
