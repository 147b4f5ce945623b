/**
 A rendezvous does not depend on who arrives first: a send to `r` and a receive by `r` have
 the same effect on the process table in either order, whatever `r` is waiting for.
 */
module Commutation {
  import opened Options
  import opened Messages
  import opened WaitGraph
  import opened Rendezvous

  lemma RunnableIsChainEnd(c: Ipc, r: nat, s: nat)
    requires Shape(c) && r < |c.procs| && s != r && !c.procs[r].status.Sending?
    ensures !Reaches(Edges(c), r, s)
  {
    forall k: nat ensures Follow(Edges(c), r, k) != Some(s) {
      assert Edges(c)[r].None?;
    }
  }

  lemma RemoveAppended(q: seq<nat>, s: nat)
    requires s !in q
    ensures Remove(q + [s], s) == q
  {
    var k := IndexOf(q + [s], s);
    assert forall j :: 0 <= j < |q| ==> q[j] in q;
    assert k == |q|;
  }

  lemma IndexOfUnique(q: seq<nat>, x: nat, k: nat)
    requires k < |q| && q[k] == x && forall j :: 0 <= j < k ==> q[j] != x
    ensures IndexOf(q, x) == k
  {
  }

  lemma RemoveFromLonger(q: seq<nat>, x: nat, s: nat)
    requires x in q && s != x
    ensures Remove(q + [s], x) == Remove(q, x) + [s]
  {
    IndexOfUnique(q + [s], x, IndexOf(q, x));
  }

  lemma NotSendingAfterReceive(c: Ipc, r: nat, src: Source, m: Message)
    requires Coherent(c) && IsReady(c, r) && SourceInRange(src, r, |c.procs|)
    ensures !Receive(c, r, src, m).procs[r].status.Sending?
    ensures forall s :: 0 <= s < |c.procs| && s != r && c.procs[s].status.Ready? ==>
              Receive(c, r, src, m).procs[s] == c.procs[s]
  {
    if !TakesInterrupt(c, r, src) && Candidate(c, r, src).Some? {
      CandidateQueued(c, r, src);
    }
  }

  /** `r` is given the interrupt, `s` has to queue up. */
  lemma CommuteInterrupt(c: Ipc, s: nat, r: nat, m: Message, src: Source, m2: Message)
    requires Coherent(c) && IsReady(c, s) && IsReady(c, r) && s != r
    requires SourceInRange(src, r, |c.procs|)
    requires Shape(Enqueue(c, s, r, m)) && QueuesExact(Enqueue(c, s, r, m))
    requires TakesInterrupt(c, r, src)
    ensures Receive(Enqueue(c, s, r, m), r, src, m2) == Enqueue(Receive(c, r, src, m2), s, r, m)
  {
  }

  /** `r` is given the message of `x`, who was there before `s`. */
  lemma CommuteTake(c: Ipc, s: nat, r: nat, x: nat, m: Message)
    requires Coherent(c) && IsReady(c, s) && IsReady(c, r) && s != r
    requires x < |c.procs| && x != r && x in c.queues[r]
    ensures Take(Enqueue(c, s, r, m), r, x) == Enqueue(Take(c, r, x), s, r, m)
  {
    assert QueueExact(c, r);
    RemoveFromLonger(c.queues[r], x, s);
    var a := Take(Enqueue(c, s, r, m), r, x);
    var b := Enqueue(Take(c, r, x), s, r, m);
    assert a.procs == b.procs;
    assert a.queues == b.queues;
  }

  /** `r` is given the message of `s`, whether `s` queued up or found `r` waiting. */
  lemma CommuteMeet(c: Ipc, s: nat, r: nat, m: Message, src: Source, m2: Message)
    requires Coherent(c) && IsReady(c, s) && IsReady(c, r) && s != r
    requires SourceInRange(src, r, |c.procs|)
    requires !TakesInterrupt(c, r, src) && Candidate(c, r, src).None?
    ensures Take(Enqueue(c, s, r, m), r, s) == Handover(Receive(c, r, src, m2), s, r, m)
  {
    assert QueueExact(c, r);
    RemoveAppended(c.queues[r], s);
    var a := Take(Enqueue(c, s, r, m), r, s);
    var b := Handover(Receive(c, r, src, m2), s, r, m);
    assert a.procs == b.procs;
    assert a.queues == b.queues;
  }

  /** `r` blocks waiting for somebody else, `s` has to queue up. */
  lemma CommuteBlock(c: Ipc, s: nat, r: nat, m: Message, src: Source, m2: Message)
    requires Coherent(c) && IsReady(c, s) && IsReady(c, r) && s != r
    requires SourceInRange(src, r, |c.procs|)
    requires Shape(Enqueue(c, s, r, m)) && QueuesExact(Enqueue(c, s, r, m))
    requires !TakesInterrupt(c, r, src) && Candidate(c, r, src).None?
    requires Candidate(Enqueue(c, s, r, m), r, src).None?
    ensures Receive(Enqueue(c, s, r, m), r, src, m2) == Enqueue(Receive(c, r, src, m2), s, r, m)
  {
  }

  /** Who `r` would take once `s` has queued up behind the others. */
  lemma CandidateAfterEnqueue(c: Ipc, s: nat, r: nat, m: Message, src: Source)
    requires Coherent(c) && IsReady(c, s) && IsReady(c, r) && s != r
    requires SourceInRange(src, r, |c.procs|)
    requires Shape(Enqueue(c, s, r, m))
    ensures Candidate(Enqueue(c, s, r, m), r, src) ==
            if Candidate(c, r, src).Some? then Candidate(c, r, src)
            else if WaitsFor(Receiving(src), s) then Some(s) else None
  {
  }

  /** The send is refused in neither order, and both orders give the same table. */
  lemma SendReceiveCommute(c: Ipc, s: nat, r: nat, m: Message, src: Source, m2: Message)
    requires Coherent(c) && IsReady(c, s) && IsReady(c, r) && s != r
    requires SourceInRange(src, r, |c.procs|)
    ensures Send(c, s, r, m).Sent?
    ensures var sendFirst := Send(c, s, r, m).ipc;
            var receiveFirst := Receive(c, r, src, m2);
            && Coherent(sendFirst) && Coherent(receiveFirst)
            && Send(receiveFirst, s, r, m) == Sent(Receive(sendFirst, r, src, m2))
  {
    RunnableIsChainEnd(c, r, s);
    SendCoherent(c, s, r, m);
    ReceiveCoherent(c, r, src, m2);
    EnqueueShape(c, s, r, m);
    NotSendingAfterReceive(c, r, src, m2);
    RunnableIsChainEnd(Receive(c, r, src, m2), r, s);
    CandidateAfterEnqueue(c, s, r, m, src);
    if TakesInterrupt(c, r, src) {
      CommuteInterrupt(c, s, r, m, src, m2);
    } else if Candidate(c, r, src).Some? {
      CandidateQueued(c, r, src);
      CommuteTake(c, s, r, Candidate(c, r, src).value, m);
    } else if WaitsFor(Receiving(src), s) {
      CommuteMeet(c, s, r, m, src, m2);
    } else {
      CommuteBlock(c, s, r, m, src, m2);
    }
  }
}
