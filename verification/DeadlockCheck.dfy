/** deadlock() of kernel/proc.c: the walk along the chain of blocked senders. */
module DeadlockCheck {
  import opened Options
  import opened WaitGraph
  import opened Rendezvous
  import opened ProcTable

  /** The fields that deadlock() follows show the wait-for graph `g`. */
  ghost predicate ShowsGraph(procs: Table, g: Graph)
    reads procs`flags, procs`sendTo, procs`msg
  {
    && |g| == |procs| && InRange(g)
    && (forall i :: 0 <= i < |procs| ==> (procs[i].flags & SENDING != 0 <==> g[i].Some?))
    && (forall i :: 0 <= i < |procs| && g[i].Some? ==>
          procs[i].sendTo == g[i].value && procs[i].msg != null)
  }

  lemma TableShowsGraph(procs: Table, c: Queued)
    requires Shows(procs, c) && Shape(c)
    ensures ShowsGraph(procs, Edges(c))
  {
    forall i | 0 <= i < |procs|
      ensures procs[i].flags & SENDING != 0 <==> Edges(c)[i].Some?
      ensures Edges(c)[i].Some? ==> procs[i].sendTo == Edges(c)[i].value && procs[i].msg != null
    {
      assert Represents(procs[i], c.procs[i], |procs|);
    }
  }

  /** The loop that prints the chain of a deadlock, here as the pids whose names it prints. */
  method PrintChain(procs: Table, src: nat, dest: nat, ghost g: Graph, ghost hops: nat) returns (printed: seq<nat>)
    requires ShowsGraph(procs, g) && src < |procs| && dest < |procs| && hops > 0
    requires Follow(g, dest, hops) == Some(src)
    requires forall j: nat :: 0 < j < hops ==> Follow(g, dest, j) != Some(src)
    ensures |printed| == hops + 1 && printed[0] == dest && printed[hops] == src
    ensures forall j :: 0 <= j <= hops ==> Follow(g, dest, j) == Some(printed[j])
  {
    var p := procs[dest];
    printed := [p.pid];
    HopOnChain(g, dest, hops, 0);
    assert p.msg != null;
    p := procs[p.sendTo];
    printed := printed + [p.pid];
    while p != procs[src]
      invariant 2 <= |printed| <= hops + 1 && p.pid < |procs| && p == procs[p.pid]
      invariant printed[0] == dest && printed[|printed| - 1] == p.pid
      invariant forall j :: 0 <= j < |printed| ==> Follow(g, dest, j) == Some(printed[j])
      decreases hops - |printed|
    {
      HopOnChain(g, dest, hops, |printed| - 1);
      assert p.msg != null;
      p := procs[p.sendTo];
      printed := printed + [p.pid];
    }
  }

  /** deadlock(): whether `dest` waits, directly or through others, for `src`. */
  method Deadlocks(procs: Table, src: nat, dest: nat, ghost g: Graph) returns (r: int)
    requires ShowsGraph(procs, g) && Grounded(g) && src < |procs| && dest < |procs| && src != dest
    ensures r == if Reaches(g, dest, src) then 1 else 0
  {
    EndsWithinTableSize(g, dest);
    var p := procs[dest];
    ghost var k := 0;
    while true
      invariant k < |procs| && p.pid < |procs| && p == procs[p.pid]
      invariant Follow(g, dest, k) == Some(p.pid)
      invariant forall j: nat :: j <= k ==> Follow(g, dest, j) != Some(src)
      decreases |procs| - k
    {
      NextHop(g, dest, k);
      if p.flags & SENDING != 0 {
        if p.sendTo == src {
          var _ := PrintChain(procs, src, dest, g, k + 1);
          return 1;
        }
        p := procs[p.sendTo];
        k := k + 1;
      } else {
        EndOfChain(g, dest, k, src);
        break;
      }
    }
    return 0;
  }

  /** Before its end a chain hops along an edge. */
  lemma HopOnChain(g: Graph, i: nat, hops: nat, k: nat)
    requires InRange(g) && i < |g| && k < hops && Follow(g, i, hops).Some?
    ensures var x := Follow(g, i, k);
            x.Some? && g[x.value].Some? && Follow(g, i, k + 1) == g[x.value]
  {
    FollowAdd(g, i, k, hops - k);
    FollowAdd(g, i, k, 1);
  }

  /** One more hop on a chain that ends within the size of the table. */
  lemma NextHop(g: Graph, i: nat, k: nat)
    requires InRange(g) && i < |g| && k < |g| && Follow(g, i, k).Some? && Follow(g, i, |g|).None?
    ensures Follow(g, i, k + 1) == g[Follow(g, i, k).value]
    ensures Follow(g, i, k + 1).Some? ==> k + 1 < |g|
  {
    FollowAdd(g, i, k, 1);
  }

  lemma EndOfChain(g: Graph, i: nat, k: nat, src: nat)
    requires InRange(g) && i < |g| && Follow(g, i, k + 1).None?
    requires forall j: nat :: j <= k ==> Follow(g, i, j) != Some(src)
    ensures !Reaches(g, i, src)
  {
    forall j: nat ensures Follow(g, i, j) != Some(src) {
      if j > k {
        FollowAdd(g, i, k + 1, j - k - 1);
      }
    }
  }
}
