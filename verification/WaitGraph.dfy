/**
 The wait-for graph of blocked senders. Process `i` has an edge to `d` exactly when it is
 blocked sending to `d`, so every process has at most one outgoing edge and the walk of
 deadlock() (kernel/proc.c) is the iteration of one partial function.
 */
module WaitGraph {
  import opened Options

  /** edges[i] is the process that `i` is blocked sending to, if any. */
  type Graph = seq<Option<nat>>

  ghost predicate InRange(g: Graph) {
    forall i :: 0 <= i < |g| && g[i].Some? ==> g[i].value < |g|
  }

  /** The process reached from `i` by `k` hops, or None when the chain ends earlier. */
  ghost function Follow(g: Graph, i: nat, k: nat): (r: Option<nat>)
    requires InRange(g) && i < |g|
    ensures r.Some? ==> r.value < |g|
    decreases k
  {
    if k == 0 then Some(i)
    else if g[i].Some? then Follow(g, g[i].value, k - 1)
    else None
  }

  /** The chain of senders that starts at `i` comes to an end. */
  ghost predicate Ends(g: Graph, i: nat)
    requires InRange(g) && i < |g|
  {
    exists k: nat :: Follow(g, i, k).None?
  }

  /** Every chain of senders comes to an end: nobody is waiting for itself. */
  ghost predicate Grounded(g: Graph)
    requires InRange(g)
  {
    forall i | 0 <= i < |g| :: Ends(g, i)
  }

  ghost predicate Reaches(g: Graph, a: nat, b: nat)
    requires InRange(g) && a < |g|
  {
    exists k: nat :: Follow(g, a, k) == Some(b)
  }

  lemma {:induction false} FollowAdd(g: Graph, i: nat, a: nat, b: nat)
    requires InRange(g) && i < |g|
    ensures Follow(g, i, a).Some? ==> Follow(g, i, a + b) == Follow(g, Follow(g, i, a).value, b)
    ensures Follow(g, i, a).None? ==> Follow(g, i, a + b).None?
    decreases a
  {
    if a > 0 && g[i].Some? {
      FollowAdd(g, g[i].value, a - 1, b);
      assert Follow(g, i, a + b) == Follow(g, g[i].value, a - 1 + b);
    }
  }

  /** No process of a grounded graph is reachable from itself in one or more hops. */
  lemma {:induction false} GroundedIsAcyclic(g: Graph, i: nat, k: nat)
    requires InRange(g) && i < |g| && Ends(g, i) && k > 0
    ensures Follow(g, i, k) != Some(i)
  {
    if Follow(g, i, k) == Some(i) {
      var e: nat :| Follow(g, i, e).None?;
      CycleNeverEnds(g, i, k, e);
      assert k * e >= e by { MulAtLeast(k, e); }
      FollowAdd(g, i, e, k * e - e);
      assert false;
    }
  }

  lemma MulAtLeast(k: nat, e: nat)
    requires k > 0
    ensures k * e >= e
  {
    assert k * e == e + (k - 1) * e;
  }

  lemma {:induction false} CycleNeverEnds(g: Graph, i: nat, k: nat, m: nat)
    requires InRange(g) && i < |g| && Follow(g, i, k) == Some(i)
    ensures Follow(g, i, k * m) == Some(i)
    decreases m
  {
    if m > 0 {
      CycleNeverEnds(g, i, k, m - 1);
      FollowAdd(g, i, k * (m - 1), k);
      assert k * (m - 1) + k == k * m;
    } else {
      assert k * m == 0;
    }
  }

  // ---------------------------------------------------------------- length of a chain

  /** The set of processes met in the first `k` hops, counting the start. */
  ghost function Visited(g: Graph, i: nat, k: nat): (v: set<nat>)
    requires InRange(g) && i < |g|
  {
    if k == 0 then {}
    else
      var before := Visited(g, i, k - 1);
      if Follow(g, i, k - 1).Some? then before + {Follow(g, i, k - 1).value} else before
  }

  lemma {:induction false} VisitedAt(g: Graph, i: nat, k: nat, x: nat) returns (j: nat)
    requires InRange(g) && i < |g| && x in Visited(g, i, k)
    ensures j < k && Follow(g, i, j) == Some(x) && x < |g|
  {
    if x in Visited(g, i, k - 1) {
      j := VisitedAt(g, i, k - 1, x);
    } else {
      j := k - 1;
    }
  }

  lemma {:induction false} VisitedGrows(g: Graph, i: nat, k: nat)
    requires InRange(g) && Grounded(g) && i < |g| && k > 0
    requires Follow(g, i, k - 1).Some?
    ensures |Visited(g, i, k)| == k
    decreases k
  {
    var x := Follow(g, i, k - 1).value;
    if k > 1 {
      if Follow(g, i, k - 2).None? {
        FollowAdd(g, i, k - 2, 1);
      }
      VisitedGrows(g, i, k - 1);
    }
    if x in Visited(g, i, k - 1) {
      var j := VisitedAt(g, i, k - 1, x);
      FollowAdd(g, i, j, k - 1 - j);
      GroundedIsAcyclic(g, x, k - 1 - j);
    }
  }

  /** The indices of a table of `n` entries. */
  ghost function Pids(n: nat): (s: set<nat>)
    ensures |s| == n
    ensures forall x: nat :: x in s <==> x < n
  {
    if n == 0 then {} else Pids(n - 1) + {n - 1}
  }

  lemma SubsetSize(a: set<nat>, b: set<nat>)
    requires a <= b
    ensures |a| <= |b|
  {
    if a != {} {
      var x :| x in a;
      SubsetSize(a - {x}, b - {x});
    }
  }

  /** In a grounded graph of n processes every chain ends within n hops. */
  lemma {:induction false} EndsWithinTableSize(g: Graph, i: nat)
    requires InRange(g) && Grounded(g) && i < |g|
    ensures Follow(g, i, |g|).None?
  {
    var n := |g|;
    if Follow(g, i, n).Some? {
      VisitedGrows(g, i, n + 1);
      forall x | x in Visited(g, i, n + 1) ensures x in Pids(n) {
        var j := VisitedAt(g, i, n + 1, x);
      }
      SubsetSize(Visited(g, i, n + 1), Pids(n));
    }
  }

  // ---------------------------------------------------------------- changing one edge

  /** Removing edges shortens chains. */
  lemma {:induction false} FewerEdges(g: Graph, h: Graph, i: nat, k: nat)
    requires InRange(g) && |h| == |g| && i < |g|
    requires forall x :: 0 <= x < |g| && h[x].Some? ==> h[x] == g[x]
    requires Follow(g, i, k).None?
    ensures InRange(h) && Follow(h, i, k).None?
    decreases k
  {
    if h[i].Some? {
      FewerEdges(g, h, g[i].value, k - 1);
    }
  }

  lemma FewerEdgesGrounded(g: Graph, h: Graph)
    requires InRange(g) && Grounded(g) && |h| == |g|
    requires forall x :: 0 <= x < |g| && h[x].Some? ==> h[x] == g[x]
    ensures InRange(h) && Grounded(h)
  {
    forall i | 0 <= i < |h| ensures Ends(h, i) {
      assert Ends(g, i);
      var k: nat :| Follow(g, i, k).None?;
      FewerEdges(g, h, i, k);
    }
  }

  /** A chain that avoids `me` does not see an edge added at `me`. */
  lemma {:induction false} ChainAvoids(g: Graph, h: Graph, me: nat, i: nat, k: nat)
    requires InRange(g) && InRange(h) && |h| == |g| && me < |g| && i < |g|
    requires forall x :: 0 <= x < |g| && x != me ==> h[x] == g[x]
    requires forall j: nat :: j < k ==> Follow(g, i, j) != Some(me)
    ensures Follow(h, i, k) == Follow(g, i, k)
    decreases k
  {
    if k > 0 {
      assert Follow(g, i, 0) != Some(me);
      if g[i].Some? {
        forall j: nat | j < k - 1 ensures Follow(g, g[i].value, j) != Some(me) {
          assert Follow(g, i, j + 1) == Follow(g, g[i].value, j);
        }
        ChainAvoids(g, h, me, g[i].value, k - 1);
      }
    }
  }

  /** Chains through the new edge continue along the chain of its target. */
  lemma {:induction false} ChainThrough(g: Graph, h: Graph, me: nat, dest: nat, i: nat, k: nat, e: nat)
    requires InRange(g) && InRange(h) && |h| == |g| && me < |g| && i < |g| && dest < |g|
    requires forall x :: 0 <= x < |g| && x != me ==> h[x] == g[x]
    requires g[me].None? && h[me] == Some(dest)
    requires Follow(h, dest, e).None?
    requires Follow(g, i, k).None?
    ensures Follow(h, i, k + e).None?
    decreases k
  {
    if i == me {
      assert Follow(h, me, 1 + e) == Follow(h, dest, e);
      FollowAdd(h, me, 1 + e, k - 1);
    } else if g[i].Some? {
      ChainThrough(g, h, me, dest, g[i].value, k - 1, e);
      assert Follow(h, i, k + e) == Follow(h, g[i].value, k - 1 + e);
    }
  }

  /**
   Letting `me` wait for `dest` keeps the graph free of cycles exactly when `dest` is not,
   directly or through others, waiting for `me` already.
   */
  lemma {:induction false} AddEdgeGroundedIff(g: Graph, me: nat, dest: nat)
    requires InRange(g) && Grounded(g) && me < |g| && dest < |g| && g[me].None?
    ensures InRange(g[me := Some(dest)])
    ensures Grounded(g[me := Some(dest)]) <==> !Reaches(g, dest, me)
  {
    var h := g[me := Some(dest)];
    assert InRange(h);
    if Reaches(g, dest, me) {
      var k := FirstArrival(g, dest, me);
      ChainAvoids(g, h, me, dest, k);
      assert Follow(h, me, k + 1) == Follow(h, dest, k) == Some(me);
      if Grounded(h) {
        assert Ends(h, me);
        GroundedIsAcyclic(h, me, k + 1);
      }
    } else {
      assert Ends(g, dest);
      var e: nat :| Follow(g, dest, e).None?;
      ChainAvoids(g, h, me, dest, e);
      forall i | 0 <= i < |h| ensures Ends(h, i) {
        assert Ends(g, i);
        var k: nat :| Follow(g, i, k).None?;
        ChainThrough(g, h, me, dest, i, k, e);
      }
    }
  }

  /** The first time a chain arrives at `b`. */
  lemma {:induction false} FirstArrival(g: Graph, a: nat, b: nat) returns (k: nat)
    requires InRange(g) && a < |g| && Reaches(g, a, b)
    ensures Follow(g, a, k) == Some(b)
    ensures forall j: nat :: j < k ==> Follow(g, a, j) != Some(b)
  {
    var m: nat :| Follow(g, a, m) == Some(b);
    k := 0;
    while Follow(g, a, k) != Some(b)
      invariant k <= m
      invariant forall j: nat :: j < k ==> Follow(g, a, j) != Some(b)
      decreases m - k
    {
      k := k + 1;
    }
  }
}
