/** When the subtree scan ends, and what it collects. */
module SubtreeLaws {
  import opened Colony
  import opened FoldLaws
  import opened Forest
  import opened SpawnGraph

  // ── termination ────────────────────────────────────────────────────────

  /** The work list after `n` iterations of the scan. */
  function ScanTo(sessions: Sessions, root: SessionId, n: nat): (out: seq<SessionId>)
    ensures out != []
  {
    if n == 0 then [root]
    else
      var out := ScanTo(sessions, root, n - 1);
      if n - 1 < |out| then out + Kids(sessions, out[n - 1]) else out
  }

  /** The loop exits: the index has caught up with the list. */
  ghost predicate ScanEnds(sessions: Sessions, root: SessionId) {
    exists n :: |ScanTo(sessions, root, n)| <= n
  }

  lemma {:induction false} ScanEndsBelow(g: Graph, rank: SessionId -> nat, top: nat,
                                         sessions: Sessions, root: SessionId, n: nat)
    requires Climbs(g, rank, top) && root in g
    requires forall x :: x in g ==> g[x] == Kids(sessions, x)
    requires Within(g, ScanTo(sessions, root, n)) && n <= |ScanTo(sessions, root, n)|
    requires ScanTo(sessions, root, n) == [root] + AllKids(g, ScanTo(sessions, root, n)[..n])
    ensures ScanEnds(sessions, root)
    decreases WeighAll(g, rank, top, ONE, ScanTo(sessions, root, n)[n..], 0)
  {
    var out := ScanTo(sessions, root, n);
    if n < |out| {
      ScanStep(g, rank, top, [root], out, n);
      assert ScanTo(sessions, root, n + 1) == out + g[out[n]];
      ScanEndsBelow(g, rank, top, sessions, root, n + 1);
    }
  }

  /** A scanned self-spawner is always queued once more. */
  lemma {:induction false} SelfSpawnerStaysQueued(sessions: Sessions, root: SessionId, x: SessionId, n: nat)
    requires SelfSpawner(sessions, x)
    requires n <= |ScanTo(sessions, root, n)| && x in ScanTo(sessions, root, n)
    ensures x in ScanTo(sessions, root, n)[n..]
  {
    if n == 0 {
    } else {
      var out, out' := ScanTo(sessions, root, n - 1), ScanTo(sessions, root, n);
      if n - 1 < |out| {
        var kids := Kids(sessions, out[n - 1]);
        assert out' == out + kids && out'[n..] == out[n..] + kids;
        if x !in kids {
          SelfSpawnerStaysQueued(sessions, root, x, n - 1);
          assert x in out[n - 1..] && out[n - 1..] == [out[n - 1]] + out[n..];
        }
      }
    }
  }

  /** What has been scanned has all its children on the list. */
  lemma {:induction false} ScannedKidsListed(sessions: Sessions, root: SessionId, n: nat, j: nat)
    requires n <= |ScanTo(sessions, root, n)| && j < n
    ensures forall c :: c in Kids(sessions, ScanTo(sessions, root, n)[j]) ==> c in ScanTo(sessions, root, n)
  {
    var out := ScanTo(sessions, root, n - 1);
    if n - 1 < |out| && j < n - 1 {
      ScannedKidsListed(sessions, root, n - 1, j);
      assert ScanTo(sessions, root, n)[j] == out[j];
    }
  }

  /** If the scan has ended after `n` iterations, it has met everything that
      the root reaches. */
  lemma {:induction false} EndedMeetsAll(sessions: Sessions, root: SessionId, n: nat, path: seq<SessionId>)
    requires |ScanTo(sessions, root, n)| == n
    requires IsPath(sessions, path) && path[0] == root
    ensures path[|path| - 1] in ScanTo(sessions, root, n)
    decreases |path|
  {
    var out := ScanTo(sessions, root, n);
    if |path| == 1 {
      RootListed(sessions, root, n);
    } else {
      var m := |path| - 1;
      EndedMeetsAll(sessions, root, n, path[..m]);
      var j :| 0 <= j < |out| && out[j] == path[m - 1];
      ScannedKidsListed(sessions, root, n, j);
    }
  }

  lemma {:induction false} RootListed(sessions: Sessions, root: SessionId, n: nat)
    ensures root in ScanTo(sessions, root, n)
  {
    if n == 0 {
    } else {
      RootListed(sessions, root, n - 1);
    }
  }

  /** The first exit is exact: until then the index is below the length. */
  lemma {:induction false} ExitIsExact(sessions: Sessions, root: SessionId, n: nat)
    requires |ScanTo(sessions, root, n)| <= n
    ensures exists m :: |ScanTo(sessions, root, m)| == m
  {
    if |ScanTo(sessions, root, n)| < n {
      ExitIsExact(sessions, root, n - 1);
    }
  }

  /** Over every history, the scan from `root` ends if and only if no session
      that `root` reaches has spawned itself. */
  lemma ScanEndsExactlyWhen(ops: seq<Op>, root: SessionId)
    ensures ScanEnds(Fold(ops).sessions, root) <==> NoSelfSpawnerBelow(Fold(ops).sessions, root)
  {
    var sessions := Fold(ops).sessions;
    if NoSelfSpawnerBelow(sessions, root) {
      ReachGraphClimbs(ops, root);
      var g := ReachGraph(sessions, root);
      assert ScanTo(sessions, root, 0) == [root] + AllKids(g, []);
      ScanEndsBelow(g, Rank(ops), |ops|, sessions, root, 0);
    }
    if ScanEnds(sessions, root) {
      var n :| |ScanTo(sessions, root, n)| <= n;
      ExitIsExact(sessions, root, n);
      var m :| |ScanTo(sessions, root, m)| == m;
      forall x | Reaches(sessions, root, x) ensures !SelfSpawner(sessions, x) {
        var path :| Joins(sessions, path, root, x);
        EndedMeetsAll(sessions, root, m, path);
        if SelfSpawner(sessions, x) {
          SelfSpawnerStaysQueued(sessions, root, x, m);
        }
      }
    }
  }

  /** A history in which no session is registered under itself: every scan
      ends, because the birth clock increases along every edge. */
  lemma {:induction false} NoSelfRegistrationNoSelfSpawner(ops: seq<Op>, x: SessionId)
    requires forall i :: 0 <= i < |ops| && ops[i].RegisterChild? ==> ops[i].child != ops[i].parent
    ensures !SelfSpawner(Fold(ops).sessions, x)
  {
    if ops == [] {
    } else {
      var n := |ops| - 1;
      NoSelfRegistrationNoSelfSpawner(ops[..n], x);
      StepOnSession(Fold(ops[..n]), ops[n], x);
    }
  }

  lemma ProperHistoriesAlwaysEnd(ops: seq<Op>, root: SessionId)
    requires forall i :: 0 <= i < |ops| && ops[i].RegisterChild? ==> ops[i].child != ops[i].parent
    ensures NoSelfSpawnerBelow(Fold(ops).sessions, root) && ScanEnds(Fold(ops).sessions, root)
  {
    forall x ensures !SelfSpawner(Fold(ops).sessions, x) {
      NoSelfRegistrationNoSelfSpawner(ops, x);
    }
    ScanEndsExactlyWhen(ops, root);
  }

  /** The excluded case is real: right after a session is registered under
      itself, the scan from it never ends. */
  lemma SelfRegistrationNeverEnds(ops: seq<Op>, x: SessionId)
    ensures !ScanEnds(Fold(ops + [RegisterChild(x, x)]).sessions, x)
  {
    var op := RegisterChild(x, x);
    FoldAppend(ops, op);
    StepOnSession(Fold(ops), op, x);
    var sessions := Fold(ops + [op]).sessions;
    ReachesSelf(sessions, x);
    assert Kids(sessions, x) == [x];
    ScanEndsExactlyWhen(ops + [op], x);
  }

  // ── what is collected ──────────────────────────────────────────────────

  /** Number of distinct spawn paths from `p` to `x`, repeated edges counted
      as often as they are listed. */
  ghost function SpawnPaths(ops: seq<Op>, root: SessionId, p: SessionId, x: SessionId): nat
    requires NoSelfSpawnerBelow(Fold(ops).sessions, root) && p in ReachGraph(Fold(ops).sessions, root)
  {
    ReachGraphClimbs(ops, root);
    Weigh(ReachGraph(Fold(ops).sessions, root), Rank(ops), |ops|, Just(x), p)
  }

  /** A session occurs in its root's subtree once per spawn path to it. */
  lemma SubtreeCountsPaths(ops: seq<Op>, root: SessionId, x: SessionId)
    requires NoSelfSpawnerBelow(Fold(ops).sessions, root)
    ensures root in ReachGraph(Fold(ops).sessions, root)
    ensures multiset(SubtreeOrder(ops, root))[x] == SpawnPaths(ops, root, root, x)
  {
    ReachGraphClimbs(ops, root);
    var g, rank, top := ReachGraph(Fold(ops).sessions, root), Rank(ops), |ops|;
    var out := SubtreeOrder(ops, root);
    ClosedListWeight(g, rank, top, Just(x), [root], out);
    HitsCount(out, x);
    assert [root][..0] == [];
  }
}
