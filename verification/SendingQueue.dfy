/** The loops of msg_send and msg_receive that walk and change the queue of blocked senders. */
module SendingQueue {
  import opened Options
  import opened Messages
  import opened Rendezvous
  import opened QueueLinks
  import opened ProcTable

  lemma ThreadedSize(procs: Table, c: Queued)
    requires Threaded(procs, c)
    ensures |c.procs| == |c.queues| == |procs|
  {
  }

  /** What the pointers of a threaded table say at entry `k` of queue `r`. */
  lemma EntryPointers(procs: Table, c: Queued, r: nat, k: nat)
    requires Threaded(procs, c) && r < |procs| && k < |c.queues[r]|
    ensures var q := c.queues[r];
            && q[k] < |procs| && procs[r].qSending == Ptr(procs, Some(q[0])) != null
            && procs[q[k]].nextSending == (if k + 1 < |q| then Ptr(procs, Some(q[k + 1])) else null)
            && (k + 1 < |q| ==> q[k + 1] < |procs|)
  {
    QueueEntry(c, r, 0);
    QueueEntry(c, r, k);
    if k + 1 < |c.queues[r]| {
      QueueEntry(c, r, k + 1);
    }
  }

  /** Nobody is in two queues, and whoever is in none has no successor. */
  lemma InOneQueueAtMost(procs: Table, c: Queued, i: nat)
    requires Threaded(procs, c) && |c.procs| == |procs| && i < |procs|
    ensures forall r, t :: 0 <= r < |procs| && 0 <= t < |procs| && i in c.queues[r] && i in c.queues[t] ==> r == t
    ensures (forall r :: 0 <= r < |procs| ==> i !in c.queues[r]) ==> procs[i].nextSending == null
  {
    forall r | 0 <= r < |procs| ensures i in c.queues[r] <==> c.procs[i].status == Sending(r) {
      assert QueueExact(c, r);
    }
    LinksAt(c);
    assert StatusInRange(c.procs[i].status, i, |procs|);
  }

  /** The loop of msg_send that walks to the end of a queue that is not empty. */
  method LastInQueue(procs: Table, dest: nat, ghost c: Queued) returns (p: Process)
    requires Threaded(procs, c) && dest < |procs| && c.queues[dest] != []
    ensures var q := c.queues[dest]; p == Ptr(procs, Some(q[|q| - 1]))
  {
    hide Threaded, Shape, QueuesExact;
    ThreadedSize(procs, c);
    ghost var q := c.queues[dest];
    EntryPointers(procs, c, dest, 0);
    p := procs[dest].qSending;
    ghost var k := 0;
    while p.nextSending != null
      invariant k < |q| && q[k] < |procs| && p == procs[q[k]]
      decreases |q| - k
    {
      EntryPointers(procs, c, dest, k);
      p := p.nextSending;
      k := k + 1;
    }
    EntryPointers(procs, c, dest, k);
  }

  /** msg_send: append process `sender` to the queue of `dest`. */
  method AppendSender(procs: Table, dest: nat, sender: nat, ghost c: Queued, ghost m: Message)
    requires Threaded(procs, c) && dest < |procs| && sender != dest && IsReady(c, sender)
    modifies procs`qSending, procs`nextSending
    ensures Threaded(procs, Enqueue(c, sender, dest, m))
  {
    hide Shape, QueuesExact, LinksOf, Enqueue;
    ThreadedSize(procs, c);
    LinksEnqueue(c, sender, dest, m);
    if c.queues[dest] == [] {
      EmptyQueue(c, dest);
    } else {
      QueueEntry(c, dest, 0);
    }
    if procs[dest].qSending != null {
      var p := LastInQueue(procs, dest, c);
      p.nextSending := procs[sender];
    } else {
      procs[dest].qSending := procs[sender];
    }
    procs[sender].nextSending := null;
  }

  /** `prev` is the entry in front of entry `k` of `q`. */
  ghost predicate IsPrevious(procs: Table, q: seq<nat>, k: nat, prev: Process?)
    requires k < |q|
  {
    prev == if k == 0 then null else Ptr(procs, Some(q[k - 1]))
  }

  /** msg_receive: search the queue of `r` for `from` and remember its predecessor. */
  method FindPrevious(procs: Table, r: nat, from: nat, ghost c: Queued) returns (prev: Process?)
    requires Threaded(procs, c) && r < |procs| && from in c.queues[r]
    ensures IsPrevious(procs, c.queues[r], IndexOf(c.queues[r], from), prev)
  {
    hide Threaded, Shape, QueuesExact;
    ThreadedSize(procs, c);
    ghost var q, found := c.queues[r], IndexOf(c.queues[r], from);
    ghost var k := 0;
    prev := null;
    EntryPointers(procs, c, r, 0);
    var p := procs[r].qSending;
    while p != null
      invariant k <= found && p == Ptr(procs, Some(q[k])) && IsPrevious(procs, q, k, prev)
      decreases found - k
    {
      EntryPointers(procs, c, r, k);
      if p.pid == from {
        break;
      }
      prev := p;
      p := p.nextSending;
      k := k + 1;
    }
    EntryPointers(procs, c, r, k);
  }

  /** msg_receive: the entry to remove is the first of the queue of `r`. */
  method UnlinkFirst(procs: Table, r: nat, pFrom: Process, ghost l: Links)
    requires Linked(procs, l) && r < |procs| && pFrom.pid < |procs| && pFrom == procs[pFrom.pid]
    modifies procs`qSending, procs`nextSending
    ensures Linked(procs, Links(l.head[r := l.next[pFrom.pid]], l.next[pFrom.pid := None]))
  {
    procs[r].qSending := pFrom.nextSending;
    pFrom.nextSending := null;
  }

  /** msg_receive: the entry to remove is behind `prev`. */
  method UnlinkBehind(procs: Table, prev: Process, pFrom: Process, ghost l: Links)
    requires Linked(procs, l) && prev != pFrom
    requires prev.pid < |procs| && prev == procs[prev.pid]
    requires pFrom.pid < |procs| && pFrom == procs[pFrom.pid]
    modifies procs`qSending, procs`nextSending
    ensures Linked(procs, Links(l.head, l.next[prev.pid := l.next[pFrom.pid]][pFrom.pid := None]))
  {
    prev.nextSending := pFrom.nextSending;
    pFrom.nextSending := null;
  }

  /** msg_receive: take `from`, behind `prev`, out of the queue of `r`. */
  method Unlink(procs: Table, r: nat, from: nat, prev: Process?, ghost c: Queued)
    requires Threaded(procs, c) && IsReady(c, r) && from < |procs| && from in c.queues[r]
    requires IsPrevious(procs, c.queues[r], IndexOf(c.queues[r], from), prev)
    modifies procs`qSending, procs`nextSending
    ensures Threaded(procs, Take(c, r, from))
  {
    ghost var q, k := c.queues[r], IndexOf(c.queues[r], from);
    LinksTake(c, r, k);
    EntryPointers(procs, c, r, 0);
    assert |c.procs| == |procs|;
    assert if k == 0 then procs[r].qSending == procs[from] && prev == null
           else procs[r].qSending.pid == q[0] != from && prev == procs[q[k - 1]];
    hide Linked, Shape, QueuesExact, LinksOf, Take;
    var pFrom := procs[from];
    if pFrom == procs[r].qSending {
      UnlinkFirst(procs, r, pFrom, LinksOf(c));
    } else {
      UnlinkBehind(procs, prev, pFrom, LinksOf(c));
    }
  }
}
