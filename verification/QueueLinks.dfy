/**
 The successor pointers that a threaded queue must have: which pid follows which, as a function
 of the queues, and how that function changes when a sender is appended or taken out.
 */
module QueueLinks {
  import opened Options
  import opened Messages
  import opened Rendezvous

  ghost function Head(q: seq<nat>): Option<nat> {
    if q == [] then None else Some(q[0])
  }

  /** The entry behind `x` in `q`. */
  ghost function After(q: seq<nat>, x: nat): Option<nat> {
    if x in q && IndexOf(q, x) + 1 < |q| then Some(q[IndexOf(q, x) + 1]) else None
  }

  /** What next_sending of process `i` should designate. */
  ghost function NextOf(c: Ipc, i: nat): Option<nat>
    requires i < |c.procs|
  {
    match c.procs[i].status
    case Sending(d) => if d < |c.queues| then After(c.queues[d], i) else None
    case _ => None
  }

  lemma IndexIn(q: seq<nat>, k: nat)
    requires NoDup(q) && k < |q|
    ensures q[k] in q && IndexOf(q, q[k]) == k
    ensures After(q, q[k]) == if k + 1 < |q| then Some(q[k + 1]) else None
  {
  }

  lemma AfterAppend(q: seq<nat>, s: nat, x: nat)
    requires NoDup(q) && s !in q && x in q
    ensures After(q + [s], x) == if IndexOf(q, x) + 1 == |q| then Some(s) else After(q, x)
    ensures After(q + [s], s) == None
  {
    AppendMembers(q, s);
    var r, k := q + [s], IndexOf(q, x);
    IndexIn(r, k);
    assert r[k] == x;
    IndexIn(r, |q|);
  }

  /** Appending `me` to the queue of `dest`: only the old last entry and `me` are affected. */
  lemma NextEnqueue(c: Ipc, me: nat, dest: nat, m: Message, i: nat)
    requires Shape(c) && QueuesExact(c) && IsReady(c, me) && dest < |c.procs| && me != dest
    requires i < |c.procs|
    ensures var q := c.queues[dest];
            NextOf(Enqueue(c, me, dest, m), i) ==
              if i == me then None
              else if q != [] && i == q[|q| - 1] then Some(me)
              else NextOf(c, i)
  {
    var d, q := Enqueue(c, me, dest, m), c.queues[dest];
    assert QueueExact(c, dest);
    if i == me {
      assert |q| < |d.queues[dest]| && d.queues[dest][|q|] == me;
      AppendMembers(q, me);
      IndexIn(d.queues[dest], |q|);
    } else if c.procs[i].status == Sending(dest) {
      AfterAppend(q, me, i);
      if q != [] {
        IndexIn(q, |q| - 1);
      }
    } else if q != [] {
      assert q[|q| - 1] in q;
    }
  }

  lemma AfterRemove(q: seq<nat>, k: nat, x: nat)
    requires NoDup(q) && k < |q| && x in q && x != q[k]
    ensures x in Remove(q, q[k])
    ensures After(Remove(q, q[k]), x) ==
              if IndexOf(q, x) + 1 == k then After(q, q[k]) else After(q, x)
  {
    IndexIn(q, k);
    RemoveMembers(q, q[k]);
    var r, j := Remove(q, q[k]), IndexOf(q, x);
    IndexIn(r, if j < k then j else j - 1);
  }

  /** Taking entry `k` out of the queue of `me`: only its predecessor and itself are affected. */
  lemma NextTake(c: Ipc, me: nat, k: nat, i: nat)
    requires Shape(c) && QueuesExact(c) && IsReady(c, me) && k < |c.queues[me]| && i < |c.procs|
    ensures c.queues[me][k] < |c.procs|
    ensures var q := c.queues[me];
            NextOf(Take(c, me, q[k]), i) ==
              if i == q[k] then None
              else if k > 0 && i == q[k - 1] then NextOf(c, q[k])
              else NextOf(c, i)
  {
    var q := c.queues[me];
    assert QueueExact(c, me);
    assert q[k] in q;
    var d := Take(c, me, q[k]);
    if i == q[k] {
    } else if c.procs[i].status == Sending(me) {
      AfterRemove(q, k, i);
      if k > 0 {
        IndexIn(q, k - 1);
      }
    } else {
      if k > 0 {
        assert q[k - 1] in q;
      }
      if c.procs[i].status.Sending? {
        assert d.procs[i].status == c.procs[i].status;
        assert c.procs[i].status.dest != me;
      }
    }
  }

  lemma HeadTake(c: Ipc, me: nat, k: nat)
    requires Shape(c) && QueuesExact(c) && IsReady(c, me) && k < |c.queues[me]|
    ensures var q := c.queues[me];
            && q[k] < |c.procs| && q[k] in q
            && Head(Take(c, me, q[k]).queues[me]) == if k == 0 then NextOf(c, q[k]) else Head(q)
  {
    var q := c.queues[me];
    assert QueueExact(c, me);
    assert q[k] in q;
    IndexIn(q, k);
  }

  // ---------------------------------------------------------------- all links of a table

  /** The pointers of a table: the head of each queue, and each process's successor. */
  datatype Links = Links(head: seq<Option<nat>>, next: seq<Option<nat>>)

  ghost function HeadsUpTo(c: Ipc, n: nat): (h: seq<Option<nat>>)
    requires n <= |c.queues|
    ensures |h| == n
  {
    if n == 0 then [] else HeadsUpTo(c, n - 1) + [Head(c.queues[n - 1])]
  }

  ghost function NextsUpTo(c: Ipc, n: nat): (x: seq<Option<nat>>)
    requires n <= |c.procs|
    ensures |x| == n
  {
    if n == 0 then [] else NextsUpTo(c, n - 1) + [NextOf(c, n - 1)]
  }

  ghost function LinksOf(c: Ipc): (l: Links)
    ensures |l.head| == |c.queues| && |l.next| == |c.procs|
  {
    Links(HeadsUpTo(c, |c.queues|), NextsUpTo(c, |c.procs|))
  }

  lemma {:induction false} HeadsUpToAt(c: Ipc, n: nat, r: nat)
    requires r < n <= |c.queues|
    ensures HeadsUpTo(c, n)[r] == Head(c.queues[r])
  {
    if r < n - 1 {
      HeadsUpToAt(c, n - 1, r);
    }
  }

  lemma {:induction false} NextsUpToAt(c: Ipc, n: nat, i: nat)
    requires i < n <= |c.procs|
    ensures NextsUpTo(c, n)[i] == NextOf(c, i)
  {
    if i < n - 1 {
      NextsUpToAt(c, n - 1, i);
    }
  }

  lemma LinksAt(c: Ipc)
    ensures forall r :: 0 <= r < |c.queues| ==> LinksOf(c).head[r] == Head(c.queues[r])
    ensures forall i :: 0 <= i < |c.procs| ==> LinksOf(c).next[i] == NextOf(c, i)
  {
    forall r | 0 <= r < |c.queues| ensures LinksOf(c).head[r] == Head(c.queues[r]) {
      HeadsUpToAt(c, |c.queues|, r);
    }
    forall i | 0 <= i < |c.procs| ensures LinksOf(c).next[i] == NextOf(c, i) {
      NextsUpToAt(c, |c.procs|, i);
    }
  }

  /** Tables with the same queues and the same senders are linked alike. */
  lemma LinksSame(c: Ipc, d: Ipc)
    requires |d.procs| == |c.procs| && d.queues == c.queues
    requires forall i :: 0 <= i < |c.procs| ==>
               (c.procs[i].status.Sending? || d.procs[i].status.Sending? ==>
                  d.procs[i].status == c.procs[i].status)
    ensures LinksOf(d) == LinksOf(c)
  {
    LinksAt(c);
    LinksAt(d);
    assert LinksOf(d).head == LinksOf(c).head;
    forall i | 0 <= i < |c.procs| ensures LinksOf(d).next[i] == LinksOf(c).next[i] {
      assert NextOf(d, i) == NextOf(c, i);
    }
    assert LinksOf(d).next == LinksOf(c).next;
  }

  lemma LinksHandover(c: Ipc, me: nat, dest: nat, m: Message)
    requires IsReady(c, me) && dest < |c.procs| && c.procs[dest].status.Receiving?
    ensures LinksOf(Handover(c, me, dest, m)) == LinksOf(c)
  {
    LinksSame(c, Handover(c, me, dest, m));
  }

  lemma LinksAwait(c: Ipc, me: nat, src: Source, m: Message)
    requires IsReady(c, me)
    ensures LinksOf(Await(c, me, src, m)) == LinksOf(c)
    ensures LinksOf(TakePending(c, me)) == LinksOf(c)
  {
    LinksSame(c, Await(c, me, src, m));
    LinksSame(c, TakePending(c, me));
  }

  lemma LinksInform(c: Ipc, t: nat)
    requires t < |c.procs|
    ensures LinksOf(Inform(c, t)) == LinksOf(c)
  {
    LinksSame(c, Inform(c, t));
  }

  /** The pointers that msg_send changes when it appends `me` to the queue of `dest`. */
  ghost function AppendLinks(l: Links, q: seq<nat>, me: nat, dest: nat): Links
    requires me < |l.next| && dest < |l.head| && (q != [] ==> q[|q| - 1] < |l.next|)
  {
    if q == [] then Links(l.head[dest := Some(me)], l.next[me := None])
    else Links(l.head, l.next[q[|q| - 1] := Some(me)][me := None])
  }

  lemma LinksEnqueue(c: Queued, me: nat, dest: nat, m: Message)
    requires IsReady(c, me) && dest < |c.procs| && me != dest
    ensures var q := c.queues[dest];
            && (q != [] ==> q[|q| - 1] < |c.procs| && q[|q| - 1] != me)
            && LinksOf(Enqueue(c, me, dest, m)) == AppendLinks(LinksOf(c), q, me, dest)
  {
    var d, q := Enqueue(c, me, dest, m), c.queues[dest];
    if q != [] {
      QueueEntry(c, dest, |q| - 1);
    }
    LinksAt(c);
    LinksAt(d);
    var l := AppendLinks(LinksOf(c), q, me, dest);
    assert LinksOf(d).head == l.head;
    forall i | 0 <= i < |c.procs| ensures LinksOf(d).next[i] == l.next[i] {
      NextEnqueue(c, me, dest, m, i);
    }
    assert LinksOf(d).next == l.next;
  }

  /** The pointers that msg_receive changes when it takes entry `k` out of the queue of `me`. */
  ghost function UnlinkLinks(l: Links, q: seq<nat>, k: nat, me: nat): Links
    requires k < |q| && q[k] < |l.next| && me < |l.head| && (k > 0 ==> q[k - 1] < |l.next|)
  {
    if k == 0 then Links(l.head[me := l.next[q[0]]], l.next[q[0] := None])
    else Links(l.head, l.next[q[k - 1] := l.next[q[k]]][q[k] := None])
  }

  lemma LinksTake(c: Queued, me: nat, k: nat)
    requires IsReady(c, me) && k < |c.queues[me]|
    ensures var q := c.queues[me];
            && q[k] < |c.procs| && q[k] in q && (k > 0 ==> q[k - 1] < |c.procs| && q[k - 1] != q[k])
            && LinksOf(Take(c, me, q[k])) == UnlinkLinks(LinksOf(c), q, k, me)
  {
    var q := c.queues[me];
    HeadTake(c, me, k);
    QueueEntry(c, me, k);
    if k > 0 {
      QueueEntry(c, me, k - 1);
    }
    var d := Take(c, me, q[k]);
    LinksAt(c);
    LinksAt(d);
    var l := UnlinkLinks(LinksOf(c), q, k, me);
    forall r | 0 <= r < |c.queues| ensures LinksOf(d).head[r] == l.head[r] {}
    assert LinksOf(d).head == l.head;
    forall i | 0 <= i < |c.procs| ensures LinksOf(d).next[i] == l.next[i] {
      NextTake(c, me, k, i);
    }
    assert LinksOf(d).next == l.next;
  }

  /** Entry `k` of a queue is a blocked sender and is linked to entry `k + 1`. */
  lemma QueueEntry(c: Ipc, r: nat, k: nat)
    requires Shape(c) && QueuesExact(c) && r < |c.queues| && k < |c.queues[r]|
    ensures var q := c.queues[r];
            && q[k] < |c.procs| && c.procs[q[k]].status == Sending(r)
            && IndexOf(q, q[k]) == k
            && LinksOf(c).next[q[k]] == (if k + 1 < |q| then Some(q[k + 1]) else None)
            && LinksOf(c).head[r] == Some(q[0])
  {
    assert QueueExact(c, r);
    assert c.queues[r][k] in c.queues[r];
    IndexIn(c.queues[r], k);
    LinksAt(c);
  }

  lemma EmptyQueue(c: Ipc, r: nat)
    requires r < |c.queues| && c.queues[r] == []
    ensures LinksOf(c).head[r] == None
  {
    LinksAt(c);
  }
}
