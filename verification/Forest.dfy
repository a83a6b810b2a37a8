/** Spawn graphs: nodes with ordered lists of children, along which a rank
    strictly increases. The same child may be listed more than once. */
module Forest {
  import opened Colony

  type Graph = map<SessionId, seq<SessionId>>

  /** Every child is a node of the graph and ranks above its parent; `top`
      bounds all ranks. */
  ghost predicate Climbs(g: Graph, rank: SessionId -> nat, top: nat) {
    && (forall p :: p in g ==> rank(p) <= top)
    && (forall p, i :: p in g && 0 <= i < |g[p]| ==> g[p][i] in g && rank(p) < rank(g[p][i]))
  }

  ghost predicate Within(g: Graph, xs: seq<SessionId>) {
    forall i :: 0 <= i < |xs| ==> xs[i] in g
  }

  ghost predicate Above(rank: SessionId -> nat, xs: seq<SessionId>, floor: nat) {
    forall i :: 0 <= i < |xs| ==> floor <= rank(xs[i])
  }

  /** The children of all of `xs`, in order. */
  ghost function AllKids(g: Graph, xs: seq<SessionId>): seq<SessionId>
    requires Within(g, xs)
  {
    if xs == [] then [] else AllKids(g, xs[..|xs| - 1]) + g[xs[|xs| - 1]]
  }

  lemma {:induction false} AllKidsClimb(g: Graph, rank: SessionId -> nat, top: nat, xs: seq<SessionId>, floor: nat)
    requires Climbs(g, rank, top) && Within(g, xs) && Above(rank, xs, floor)
    ensures Within(g, AllKids(g, xs)) && Above(rank, AllKids(g, xs), floor + 1)
  {
    if xs == [] {
    } else {
      AllKidsClimb(g, rank, top, xs[..|xs| - 1], floor);
    }
  }

  lemma {:induction false} AllKidsAppend(g: Graph, xs: seq<SessionId>, ys: seq<SessionId>)
    requires Within(g, xs) && Within(g, ys)
    ensures Within(g, xs + ys) && AllKids(g, xs + ys) == AllKids(g, xs) + AllKids(g, ys)
    decreases |ys|
  {
    if ys == [] {
      assert xs + ys == xs;
    } else {
      assert (xs + ys)[..|xs + ys| - 1] == xs + ys[..|ys| - 1];
      AllKidsAppend(g, xs, ys[..|ys| - 1]);
    }
  }

  // ── level order ────────────────────────────────────────────────────────

  /** The nodes of `level`, then their children, then theirs, level by level. */
  ghost function LevelOrder(g: Graph, rank: SessionId -> nat, top: nat, level: seq<SessionId>, floor: nat): seq<SessionId>
    requires Climbs(g, rank, top) && Within(g, level) && Above(rank, level, floor)
    decreases top + 1 - floor
  {
    if level == [] then []
    else
      assert rank(level[0]) <= top;
      AllKidsClimb(g, rank, top, level, floor);
      level + LevelOrder(g, rank, top, AllKids(g, level), floor + 1)
  }

  /** A level order is its first level followed by its own members' children. */
  lemma {:induction false} LevelOrderIsClosed(g: Graph, rank: SessionId -> nat, top: nat,
                                              xs: seq<SessionId>, floor: nat)
    requires Climbs(g, rank, top) && Within(g, xs) && Above(rank, xs, floor)
    ensures var out := LevelOrder(g, rank, top, xs, floor);
      Within(g, out) && out == xs + AllKids(g, out)
    decreases top + 1 - floor
  {
    if xs == [] {
    } else {
      assert rank(xs[0]) <= top;
      AllKidsClimb(g, rank, top, xs, floor);
      var kids := AllKids(g, xs);
      LevelOrderIsClosed(g, rank, top, kids, floor + 1);
      AllKidsAppend(g, xs, LevelOrder(g, rank, top, kids, floor + 1));
    }
  }

  // ── weights ────────────────────────────────────────────────────────────

  /** Every node counts once. */
  const ONE: SessionId -> nat := y => 1

  /** Only `x` counts. */
  function Just(x: SessionId): SessionId -> nat {
    y => if y == x then 1 else 0
  }

  /** Sum of `hit` over every spawn path that starts at `p`. */
  ghost function Weigh(g: Graph, rank: SessionId -> nat, top: nat, hit: SessionId -> nat, p: SessionId): nat
    requires Climbs(g, rank, top) && p in g
    decreases top - rank(p), |g[p]| + 1
  {
    hit(p) + WeighAll(g, rank, top, hit, g[p], rank(p) + 1)
  }

  ghost function WeighAll(g: Graph, rank: SessionId -> nat, top: nat, hit: SessionId -> nat, xs: seq<SessionId>, floor: nat): nat
    requires Climbs(g, rank, top) && Within(g, xs) && Above(rank, xs, floor)
    decreases top + 1 - floor, |xs|
  {
    if xs == [] then 0
    else
      var n := |xs| - 1;
      assert floor <= rank(xs[n]) <= top;
      WeighAll(g, rank, top, hit, xs[..n], floor) + Weigh(g, rank, top, hit, xs[n])
  }

  /** Sum of `hit` over a list. */
  ghost function Hits(hit: SessionId -> nat, xs: seq<SessionId>): nat {
    if xs == [] then 0 else Hits(hit, xs[..|xs| - 1]) + hit(xs[|xs| - 1])
  }

  lemma {:induction false} WeighFloor(g: Graph, rank: SessionId -> nat, top: nat, hit: SessionId -> nat,
                                      xs: seq<SessionId>, floor: nat, floor': nat)
    requires Climbs(g, rank, top) && Within(g, xs) && Above(rank, xs, floor) && Above(rank, xs, floor')
    ensures WeighAll(g, rank, top, hit, xs, floor) == WeighAll(g, rank, top, hit, xs, floor')
    decreases |xs|
  {
    if xs == [] {
    } else {
      WeighFloor(g, rank, top, hit, xs[..|xs| - 1], floor, floor');
    }
  }

  lemma {:induction false} WeighAppend(g: Graph, rank: SessionId -> nat, top: nat, hit: SessionId -> nat,
                                       xs: seq<SessionId>, ys: seq<SessionId>, floor: nat)
    requires Climbs(g, rank, top) && Within(g, xs) && Within(g, ys)
    requires Above(rank, xs, floor) && Above(rank, ys, floor)
    ensures Within(g, xs + ys) && Above(rank, xs + ys, floor)
    ensures WeighAll(g, rank, top, hit, xs + ys, floor)
         == WeighAll(g, rank, top, hit, xs, floor) + WeighAll(g, rank, top, hit, ys, floor)
    decreases |ys|
  {
    if ys == [] {
      assert xs + ys == xs;
    } else {
      assert (xs + ys)[..|xs + ys| - 1] == xs + ys[..|ys| - 1];
      WeighAppend(g, rank, top, hit, xs, ys[..|ys| - 1], floor);
    }
  }

  /** The weight of a list is what its own members hit plus the weight of
      their children. */
  lemma {:induction false} WeighKids(g: Graph, rank: SessionId -> nat, top: nat, hit: SessionId -> nat,
                                     xs: seq<SessionId>, floor: nat)
    requires Climbs(g, rank, top) && Within(g, xs) && Above(rank, xs, floor)
    ensures Within(g, AllKids(g, xs)) && Above(rank, AllKids(g, xs), floor + 1)
    ensures WeighAll(g, rank, top, hit, xs, floor)
         == Hits(hit, xs) + WeighAll(g, rank, top, hit, AllKids(g, xs), floor + 1)
    decreases |xs|
  {
    AllKidsClimb(g, rank, top, xs, floor);
    if xs == [] {
    } else {
      var n := |xs| - 1;
      var x := xs[n];
      WeighKids(g, rank, top, hit, xs[..n], floor);
      WeighAppend(g, rank, top, hit, AllKids(g, xs[..n]), g[x], floor + 1);
      WeighFloor(g, rank, top, hit, g[x], floor + 1, rank(x) + 1);
    }
  }

  lemma {:induction false} HitsCount(xs: seq<SessionId>, x: SessionId)
    ensures Hits(Just(x), xs) == multiset(xs)[x]
  {
    if xs == [] {
    } else {
      assert xs == xs[..|xs| - 1] + [xs[|xs| - 1]];
      HitsCount(xs[..|xs| - 1], x);
    }
  }

  lemma {:induction false} HitsLength(xs: seq<SessionId>)
    ensures Hits(ONE, xs) == |xs|
  {
    if xs == [] {
    } else {
      HitsLength(xs[..|xs| - 1]);
    }
  }

  /** A list that consists of `xs` followed by its own members' children is
      hit as often as spawn paths leave `xs`. */
  lemma ClosedListWeight(g: Graph, rank: SessionId -> nat, top: nat, hit: SessionId -> nat,
                         xs: seq<SessionId>, out: seq<SessionId>)
    requires Climbs(g, rank, top) && Within(g, xs) && Within(g, out)
    requires out == xs + AllKids(g, out)
    ensures Above(rank, xs, 0)
    ensures Hits(hit, out) == WeighAll(g, rank, top, hit, xs, 0)
  {
    var kids := AllKids(g, out);
    WeighKids(g, rank, top, hit, out, 0);
    WeighAppend(g, rank, top, hit, xs, kids, 0);
    WeighFloor(g, rank, top, hit, kids, 0, 1);
  }

  /** Such a list is unique: it is the level order of `xs`. */
  lemma {:induction false} ClosedListIsLevelOrder(g: Graph, rank: SessionId -> nat, top: nat,
                                                  xs: seq<SessionId>, floor: nat, out: seq<SessionId>)
    requires Climbs(g, rank, top) && Within(g, xs) && Within(g, out) && Above(rank, xs, floor)
    requires out == xs + AllKids(g, out)
    ensures out == LevelOrder(g, rank, top, xs, floor)
    decreases |out|
  {
    if xs == [] {
      ClosedListWeight(g, rank, top, ONE, xs, out);
      HitsLength(out);
    } else {
      var rest := AllKids(g, out);
      assert rest == out[|xs|..];
      AllKidsAppend(g, xs, rest);
      AllKidsClimb(g, rank, top, xs, floor);
      ClosedListIsLevelOrder(g, rank, top, AllKids(g, xs), floor + 1, rest);
    }
  }
}
