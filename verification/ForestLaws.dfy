/** The subtree against the parent links, for histories in which every
    registered child is new and its parent exists. */
module ForestLaws {
  import opened Wrappers
  import opened Colony
  import opened FoldLaws
  import opened Forest
  import opened SpawnGraph
  import opened SubtreeLaws

  ghost predicate Orderly(ops: seq<Op>) {
    forall i :: 0 <= i < |ops| && ops[i].RegisterChild? ==>
      ops[i].child !in Fold(ops[..i]).sessions && ops[i].parent in Fold(ops[..i]).sessions
  }

  predicate ParentIs(sessions: Sessions, c: SessionId, p: SessionId) {
    c in sessions && sessions[c].parent == Some(p)
  }

  ghost predicate NoRepeats(xs: seq<SessionId>) {
    forall i, j :: 0 <= i < j < |xs| ==> xs[i] != xs[j]
  }

  /** Spawn lists and parent links say the same, and no child is listed twice. */
  ghost predicate Agrees(sessions: Sessions) {
    && (forall p, c :: c in Kids(sessions, p) <==> ParentIs(sessions, c, p))
    && (forall p :: NoRepeats(Kids(sessions, p)))
  }

  /** An orderly operation on one session's spawn list and parent link. */
  lemma OrderlyStep(before: State, op: Op, p: SessionId)
    requires op.RegisterChild? ==> op.child !in before.sessions && op.parent in before.sessions
    ensures Kids(Step(before, op).sessions, p) ==
      (if op.RegisterChild? && op.parent == p then Kids(before.sessions, p) + [op.child]
       else Kids(before.sessions, p))
    ensures forall q :: ParentIs(Step(before, op).sessions, p, q) <==>
      (if Registers(op, p) then q == op.parent else ParentIs(before.sessions, p, q))
  {
    StepOnSession(before, op, p);
  }

  lemma AppendNew(xs: seq<SessionId>, x: SessionId)
    requires NoRepeats(xs) && x !in xs
    ensures NoRepeats(xs + [x])
  {
  }

  lemma AgreesStep(before: State, op: Op)
    requires Agrees(before.sessions)
    requires op.RegisterChild? ==> op.child !in before.sessions && op.parent in before.sessions
    ensures Agrees(Step(before, op).sessions)
  {
    var after := Step(before, op).sessions;
    forall p, c ensures c in Kids(after, p) <==> ParentIs(after, c, p) {
      OrderlyStep(before, op, p);
      OrderlyStep(before, op, c);
      assert c in Kids(before.sessions, p) <==> ParentIs(before.sessions, c, p);
    }
    forall p ensures NoRepeats(Kids(after, p)) {
      OrderlyStep(before, op, p);
      if op.RegisterChild? && op.parent == p {
        assert op.child in Kids(before.sessions, p) <==> ParentIs(before.sessions, op.child, p);
        AppendNew(Kids(before.sessions, p), op.child);
      }
    }
  }

  /** In an orderly history a session is on a spawn list exactly when that
      list's owner is its parent, and on no list twice. */
  lemma {:induction false} SpawnListsMatchParents(ops: seq<Op>)
    requires Orderly(ops)
    ensures Agrees(Fold(ops).sessions)
  {
    if ops == [] {
    } else {
      var n := |ops| - 1;
      var before := ops[..n];
      assert forall i :: 0 <= i < n ==> before[..i] == ops[..i];
      SpawnListsMatchParents(before);
      AgreesStep(Fold(before), ops[n]);
    }
  }

  lemma {:induction false} OrderlyIsProper(ops: seq<Op>, root: SessionId)
    requires Orderly(ops)
    ensures NoSelfSpawnerBelow(Fold(ops).sessions, root)
  {
    ProperHistoriesAlwaysEnd(ops, root);
  }

  // ── parent chains ──────────────────────────────────────────────────────

  /** `path` read backwards is a chain of parent links. */
  ghost predicate ParentChain(sessions: Sessions, path: seq<SessionId>, root: SessionId, x: SessionId) {
    && path != [] && path[0] == root && path[|path| - 1] == x
    && forall i :: 0 <= i < |path| - 1 ==> ParentIs(sessions, path[i + 1], path[i])
  }

  /** Following parent links from `x` leads to `root`. */
  ghost predicate DescendsFrom(sessions: Sessions, root: SessionId, x: SessionId) {
    exists path :: ParentChain(sessions, path, root, x)
  }

  lemma ReachesIsDescends(sessions: Sessions, root: SessionId, x: SessionId)
    requires Agrees(sessions)
    ensures Reaches(sessions, root, x) <==> DescendsFrom(sessions, root, x)
  {
    if Reaches(sessions, root, x) {
      var path :| Joins(sessions, path, root, x);
      assert ParentChain(sessions, path, root, x);
    }
    if DescendsFrom(sessions, root, x) {
      var path :| ParentChain(sessions, path, root, x);
      assert Joins(sessions, path, root, x);
    }
  }

  /** Number of parent links above `x`. */
  ghost function Depth(ops: seq<Op>, x: SessionId): nat
    decreases Birth(ops, x)
  {
    var ctx := Lookup(Fold(ops).sessions, x);
    if ctx.Some? && ctx.value.parent.Some? && Birth(ops, ctx.value.parent.value) < Birth(ops, x) then
      1 + Depth(ops, ctx.value.parent.value)
    else 0
  }

  lemma KidsAreOneDeeper(ops: seq<Op>, p: SessionId, c: SessionId)
    requires Orderly(ops) && c in Kids(Fold(ops).sessions, p)
    ensures Depth(ops, c) == Depth(ops, p) + 1
  {
    SpawnListsMatchParents(ops);
    OrderlyIsProper(ops, p);
    ReachesSelf(Fold(ops).sessions, p);
    EdgesClimb(ops);
  }

  // ── each once ──────────────────────────────────────────────────────────

  /** Children know their one parent, and no list repeats. */
  ghost predicate Treelike(g: Graph, parent: SessionId -> Option<SessionId>) {
    && (forall p :: p in g ==> NoRepeats(g[p]))
    && (forall p, c :: p in g && c in g[p] ==> parent(c) == Some(p))
  }

  lemma {:induction false} KidsCount(g: Graph, xs: seq<SessionId>, q: SessionId, x: SessionId)
    requires Within(g, xs)
    requires forall p :: p in g && x in g[p] ==> p == q
    requires forall p :: p in g ==> NoRepeats(g[p])
    ensures multiset(AllKids(g, xs))[x] <= multiset(xs)[q]
  {
    if xs == [] {
    } else {
      var n := |xs| - 1;
      KidsCount(g, xs[..n], q, x);
      assert xs == xs[..n] + [xs[n]];
      OccursOnce(g[xs[n]], x);
    }
  }

  lemma {:induction false} OccursOnce(xs: seq<SessionId>, x: SessionId)
    requires NoRepeats(xs)
    ensures multiset(xs)[x] == if x in xs then 1 else 0
  {
    if xs == [] {
    } else {
      var n := |xs| - 1;
      assert xs == xs[..n] + [xs[n]];
      OccursOnce(xs[..n], x);
    }
  }

  lemma {:induction false} NotAKidNotCounted(g: Graph, xs: seq<SessionId>, x: SessionId)
    requires Within(g, xs) && forall p :: p in g ==> x !in g[p]
    ensures x !in AllKids(g, xs)
  {
    if xs == [] {
    } else {
      NotAKidNotCounted(g, xs[..|xs| - 1], x);
    }
  }

  /** On a list closed from `root` in a graph with unique parents, every node
      occurs at most once. */
  lemma {:induction false} AtMostOnce(g: Graph, parent: SessionId -> Option<SessionId>,
                                      rank: SessionId -> nat, top: nat, root: SessionId,
                                      out: seq<SessionId>, x: SessionId)
    requires Climbs(g, rank, top) && root in g && Within(g, out)
    requires out == [root] + AllKids(g, out)
    requires Treelike(g, parent)
    requires forall p :: p in g ==> rank(root) <= rank(p)
    requires x in g
    ensures multiset(out)[x] <= 1
    decreases rank(x)
  {
    assert multiset(out)[x] == (if x == root then 1 else 0) + multiset(AllKids(g, out))[x];
    if p :| p in g && x in g[p] {
      var i :| 0 <= i < |g[p]| && g[p][i] == x;
      assert rank(p) < rank(x);
      assert parent(x) == Some(p);
      KidsCount(g, out, p, x);
      AtMostOnce(g, parent, rank, top, root, out, p);
    } else {
      NotAKidNotCounted(g, out, x);
    }
  }

  lemma {:induction false} PathClimbs(ops: seq<Op>, path: seq<SessionId>)
    requires IsPath(Fold(ops).sessions, path)
    ensures Birth(ops, path[0]) <= Birth(ops, path[|path| - 1])
  {
    if |path| == 1 {
    } else {
      var m := |path| - 1;
      PathClimbs(ops, path[..m]);
      EdgesClimb(ops);
      assert path[m] in Kids(Fold(ops).sessions, path[m - 1]);
    }
  }

  lemma {:induction false} CountedLength(out: seq<SessionId>, keys: set<SessionId>)
    requires forall x :: multiset(out)[x] <= 1
    requires forall x :: x in out ==> x in keys
    ensures |out| <= |keys|
  {
    if out == [] {
    } else {
      var n := |out| - 1;
      assert out == out[..n] + [out[n]];
      assert forall x :: multiset(out[..n])[x] <= multiset(out)[x];
      assert multiset(out)[out[n]] == multiset(out[..n])[out[n]] + 1;
      CountedLength(out[..n], keys - {out[n]});
    }
  }

  lemma WithinIsMembership(g: Graph, xs: seq<SessionId>)
    requires Within(g, xs)
    ensures forall x :: x in xs ==> x in g
  {
  }

  /** The members of a subtree are the sessions its root reaches. */
  lemma SubtreeIsReach(ops: seq<Op>, root: SessionId, x: SessionId)
    requires NoSelfSpawnerBelow(Fold(ops).sessions, root)
    ensures x in SubtreeOrder(ops, root) <==> Reaches(Fold(ops).sessions, root, x)
  {
    var sessions := Fold(ops).sessions;
    var g := ReachGraph(sessions, root);
    WithinIsMembership(g, SubtreeOrder(ops, root));
    if Reaches(sessions, root, x) {
      var path :| Joins(sessions, path, root, x);
      PathListed(sessions, g, root, SubtreeOrder(ops, root), path);
    }
  }

  lemma {:induction false} PathListed(sessions: Sessions, g: Graph, root: SessionId,
                                      out: seq<SessionId>, path: seq<SessionId>)
    requires Within(g, out) && out == [root] + AllKids(g, out)
    requires forall p :: p in g ==> g[p] == Kids(sessions, p)
    requires IsPath(sessions, path) && path[0] == root
    ensures path[|path| - 1] in out
  {
    if |path| == 1 {
    } else {
      var m := |path| - 1;
      PathListed(sessions, g, root, out, path[..m]);
      ListedKid(g, out, path[m - 1], path[m]);
    }
  }

  lemma {:induction false} ListedKid(g: Graph, xs: seq<SessionId>, p: SessionId, c: SessionId)
    requires Within(g, xs) && p in xs && c in g[p]
    ensures c in AllKids(g, xs)
  {
    var n := |xs| - 1;
    if p != xs[n] {
      ListedKid(g, xs[..n], p, c);
    }
  }

  // ── depth order ────────────────────────────────────────────────────────

  ghost predicate DepthSorted(depth: SessionId -> nat, xs: seq<SessionId>, least: nat) {
    && (forall i :: 0 <= i < |xs| ==> least <= depth(xs[i]))
    && (forall i, j :: 0 <= i < j < |xs| ==> depth(xs[i]) <= depth(xs[j]))
  }

  ghost predicate AllAtDepth(depth: SessionId -> nat, xs: seq<SessionId>, d: nat) {
    forall i :: 0 <= i < |xs| ==> depth(xs[i]) == d
  }

  /** Children are one deeper than their parent. */
  ghost predicate Deepens(depth: SessionId -> nat, g: Graph) {
    forall p :: p in g ==> AllAtDepth(depth, g[p], depth(p) + 1)
  }

  lemma {:induction false} KidsDepth(depth: SessionId -> nat, g: Graph, xs: seq<SessionId>, d: nat)
    requires Within(g, xs) && Deepens(depth, g) && AllAtDepth(depth, xs, d)
    ensures AllAtDepth(depth, AllKids(g, xs), d + 1)
  {
    if xs == [] {
    } else {
      KidsDepth(depth, g, xs[..|xs| - 1], d);
    }
  }

  lemma {:induction false} LevelsAreSorted(depth: SessionId -> nat, g: Graph, rank: SessionId -> nat, top: nat,
                                           xs: seq<SessionId>, floor: nat, d: nat)
    requires Climbs(g, rank, top) && Within(g, xs) && Above(rank, xs, floor)
    requires Deepens(depth, g) && AllAtDepth(depth, xs, d)
    ensures DepthSorted(depth, LevelOrder(g, rank, top, xs, floor), d)
    decreases top + 1 - floor
  {
    if xs == [] {
    } else {
      assert rank(xs[0]) <= top;
      AllKidsClimb(g, rank, top, xs, floor);
      KidsDepth(depth, g, xs, d);
      LevelsAreSorted(depth, g, rank, top, AllKids(g, xs), floor + 1, d + 1);
    }
  }

  /** The depth of a session, as a function of the session. */
  ghost function DepthIn(ops: seq<Op>): SessionId -> nat {
    x => Depth(ops, x)
  }

  lemma ReachGraphDeepens(ops: seq<Op>, root: SessionId)
    requires Orderly(ops)
    ensures Deepens(DepthIn(ops), ReachGraph(Fold(ops).sessions, root))
  {
    hide Fold, Orderly, Depth, Reaches;
    var g := ReachGraph(Fold(ops).sessions, root);
    forall p | p in g ensures AllAtDepth(DepthIn(ops), g[p], DepthIn(ops)(p) + 1) {
      KidsAtDepth(ops, p);
    }
  }

  lemma KidsAtDepth(ops: seq<Op>, p: SessionId)
    requires Orderly(ops)
    ensures AllAtDepth(DepthIn(ops), Kids(Fold(ops).sessions, p), DepthIn(ops)(p) + 1)
  {
    hide Fold, Orderly, Depth, Kids;
    var kids := Kids(Fold(ops).sessions, p);
    forall i | 0 <= i < |kids| ensures DepthIn(ops)(kids[i]) == DepthIn(ops)(p) + 1 {
      KidsAreOneDeeper(ops, p, kids[i]);
    }
  }

  // ── the theorem ────────────────────────────────────────────────────────

  /** `x` occurs in the subtree once if its parent chain reaches the root, and
      not at all otherwise. */
  ghost predicate ListedAsDescendant(ops: seq<Op>, root: SessionId, x: SessionId)
    requires NoSelfSpawnerBelow(Fold(ops).sessions, root)
  {
    multiset(SubtreeOrder(ops, root))[x] == if DescendsFrom(Fold(ops).sessions, root, x) then 1 else 0
  }

  /** In an orderly history the subtree of a root lists exactly the sessions
      whose parent chain reaches the root, each once. */
  lemma SubtreeListsDescendants(ops: seq<Op>, root: SessionId)
    requires Orderly(ops)
    ensures NoSelfSpawnerBelow(Fold(ops).sessions, root)
    ensures forall x :: ListedAsDescendant(ops, root, x)
  {
    OrderlyIsProper(ops, root);
    forall x ensures ListedAsDescendant(ops, root, x) {
      ListedOnce(ops, root, x);
    }
  }

  /** It lists them in non-decreasing depth. */
  lemma SubtreeIsSortedByDepth(ops: seq<Op>, root: SessionId)
    requires Orderly(ops)
    ensures NoSelfSpawnerBelow(Fold(ops).sessions, root)
    ensures DepthSorted(DepthIn(ops), SubtreeOrder(ops, root), Depth(ops, root))
  {
    OrderlyIsProper(ops, root);
    ReachGraphClimbs(ops, root);
    ReachGraphDeepens(ops, root);
    LevelsAreSorted(DepthIn(ops), ReachGraph(Fold(ops).sessions, root), Rank(ops), |ops|,
                    [root], 0, Depth(ops, root));
  }

  /** It is no longer than the number of sessions, if its root is one. */
  lemma SubtreeIsNoLongerThanTheColony(ops: seq<Op>, root: SessionId)
    requires Orderly(ops) && root in Fold(ops).sessions
    ensures NoSelfSpawnerBelow(Fold(ops).sessions, root)
    ensures |SubtreeOrder(ops, root)| <= |Fold(ops).sessions|
  {
    SubtreeListsDescendants(ops, root);
    var sessions, out := Fold(ops).sessions, SubtreeOrder(ops, root);
    WithinIsMembership(ReachGraph(sessions, root), out);
    forall x ensures multiset(out)[x] <= 1 {
      assert ListedAsDescendant(ops, root, x);
    }
    CountedLength(out, sessions.Keys);
    assert |sessions.Keys| == |sessions|;
  }

  lemma ListedOnce(ops: seq<Op>, root: SessionId, x: SessionId)
    requires Orderly(ops) && NoSelfSpawnerBelow(Fold(ops).sessions, root)
    ensures ListedAsDescendant(ops, root, x)
  {
    var sessions := Fold(ops).sessions;
    SpawnListsMatchParents(ops);
    ReachesIsDescends(sessions, root, x);
    SubtreeIsReach(ops, root, x);
    if x in SubtreeOrder(ops, root) {
      var g := ReachGraph(sessions, root);
      UniqueParents(sessions, g);
      RootIsOldest(ops, root);
      ReachGraphClimbs(ops, root);
      WithinIsMembership(g, SubtreeOrder(ops, root));
      AtMostOnce(g, ParentLink(sessions), Rank(ops), |ops|, root, SubtreeOrder(ops, root), x);
    }
  }

  /** The parent link as a function. */
  function ParentLink(sessions: Sessions): SessionId -> Option<SessionId> {
    c => if c in sessions then sessions[c].parent else None
  }

  lemma UniqueParents(sessions: Sessions, g: Graph)
    requires Agrees(sessions) && forall p :: p in g ==> g[p] == Kids(sessions, p)
    ensures Treelike(g, ParentLink(sessions))
  {
    forall p, c | p in g && c in g[p] ensures ParentLink(sessions)(c) == Some(p) {
      assert ParentIs(sessions, c, p);
    }
  }

  lemma RootIsOldest(ops: seq<Op>, root: SessionId)
    ensures forall p :: p in ReachGraph(Fold(ops).sessions, root) ==> Birth(ops, root) <= Birth(ops, p)
  {
    forall p | p in ReachGraph(Fold(ops).sessions, root) ensures Birth(ops, root) <= Birth(ops, p) {
      var path :| Joins(Fold(ops).sessions, path, root, p);
      PathClimbs(ops, path);
    }
  }
}
