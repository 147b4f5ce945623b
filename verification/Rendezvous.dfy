/**
 The synchronous message passing of kernel/proc.c on values: what msg_send, msg_receive and
 inform_int do to the process table, with each queue of blocked senders as a sequence of pids.
 The operations name the process they act for, so they can be composed in any order.
 */
module Rendezvous {
  import opened Options
  import opened Messages
  import opened WaitGraph

  /** Whom a receiver is willing to hear from: ANY, INTERRUPT, or one process. */
  datatype Source = AnyProc | Hardware | From(pid: nat)

  /** p_flags together with the field it makes meaningful. */
  datatype Status = Ready | Sending(dest: nat) | Receiving(src: Source)

  /** One process: its status, the buffer of its latest sendrec call, and has_int_msg. */
  datatype Proc = Proc(status: Status, buf: Message, intr: bool)

  /** The process table, and for each process the senders blocked on it, oldest first. */
  datatype Ipc = Ipc(procs: seq<Proc>, queues: seq<seq<nat>>)

  // ---------------------------------------------------------------- queues

  ghost predicate NoDup(q: seq<nat>) {
    forall i, j :: 0 <= i < j < |q| ==> q[i] != q[j]
  }

  ghost function IndexFrom(q: seq<nat>, x: nat, i: nat): (k: nat)
    requires exists j :: i <= j < |q| && q[j] == x
    ensures i <= k < |q| && q[k] == x
    ensures forall j :: i <= j < k ==> q[j] != x
    decreases |q| - i
  {
    if q[i] == x then i else IndexFrom(q, x, i + 1)
  }

  /** The first position of `x` in `q`. */
  ghost function IndexOf(q: seq<nat>, x: nat): (k: nat)
    requires x in q
    ensures k < |q| && q[k] == x
    ensures forall j :: 0 <= j < k ==> q[j] != x
  {
    IndexFrom(q, x, 0)
  }

  ghost function RemoveAt(q: seq<nat>, k: nat): seq<nat>
    requires k < |q|
  {
    q[..k] + q[k + 1..]
  }

  ghost function Remove(q: seq<nat>, x: nat): seq<nat>
    requires x in q
  {
    RemoveAt(q, IndexOf(q, x))
  }

  lemma RemoveMembers(q: seq<nat>, x: nat)
    requires NoDup(q) && x in q
    ensures NoDup(Remove(q, x))
    ensures forall y :: y in Remove(q, x) <==> y in q && y != x
  {
    var k := IndexOf(q, x);
    var r := Remove(q, x);
    forall y | y in q && y != x ensures y in r {
      var j :| 0 <= j < |q| && q[j] == y;
      assert if j < k then r[j] == y else r[j - 1] == y;
    }
  }

  lemma AppendMembers(q: seq<nat>, x: nat)
    requires NoDup(q) && x !in q
    ensures NoDup(q + [x])
    ensures forall y :: y in q + [x] <==> y in q || y == x
  {
  }

  // ---------------------------------------------------------------- well-formedness

  ghost predicate SourceInRange(src: Source, me: nat, n: nat) {
    src.From? ==> src.pid < n && src.pid != me
  }

  ghost predicate StatusInRange(st: Status, me: nat, n: nat) {
    match st
    case Ready => true
    case Sending(d) => d < n && d != me
    case Receiving(src) => SourceInRange(src, me, n)
  }

  ghost predicate Shape(c: Ipc) {
    && |c.procs| == |c.queues|
    && forall i :: 0 <= i < |c.procs| ==> StatusInRange(c.procs[i].status, i, |c.procs|)
  }

  ghost function EdgeOf(p: Proc): Option<nat> {
    if p.status.Sending? then Some(p.status.dest) else None
  }

  ghost function Edges(c: Ipc): (g: Graph)
    ensures |g| == |c.procs|
    ensures forall i :: 0 <= i < |g| ==> g[i] == EdgeOf(c.procs[i])
    ensures Shape(c) ==> InRange(g)
  {
    seq(|c.procs|, i requires 0 <= i < |c.procs| => EdgeOf(c.procs[i]))
  }

  /** Queue `r` lists exactly the processes blocked sending to `r`, each once. */
  ghost predicate QueueExact(c: Ipc, r: nat)
    requires Shape(c) && r < |c.queues|
  {
    && NoDup(c.queues[r])
    && (forall p: nat :: p in c.queues[r] ==> p < |c.procs|)
    && (forall p: nat :: p < |c.procs| ==> (p in c.queues[r] <==> c.procs[p].status == Sending(r)))
  }

  ghost predicate QueuesExact(c: Ipc)
    requires Shape(c)
  {
    forall r :: 0 <= r < |c.queues| ==> QueueExact(c, r)
  }

  /** A table whose queues are exact. */
  type Queued = c: Ipc | Shape(c) && QueuesExact(c) ghost witness Ipc([], [])

  /** Nobody is left waiting for something that is already there. */
  ghost predicate NothingMissed(c: Ipc, r: nat)
    requires Shape(c) && r < |c.procs|
  {
    c.procs[r].status.Receiving? ==>
      match c.procs[r].status.src
      case AnyProc => c.queues[r] == [] && !c.procs[r].intr
      case Hardware => !c.procs[r].intr
      case From(s) => c.procs[s].status != Sending(r)
  }

  ghost predicate NoMissedRendezvous(c: Ipc)
    requires Shape(c)
  {
    forall r :: 0 <= r < |c.procs| ==> NothingMissed(c, r)
  }

  /** The invariant the asserts of kernel/proc.c are parts of. */
  ghost predicate Coherent(c: Ipc) {
    && Shape(c)
    && QueuesExact(c)
    && NoMissedRendezvous(c)
    && Grounded(Edges(c))
  }

  ghost predicate IsReady(c: Ipc, p: nat) {
    p < |c.procs| && c.procs[p].status.Ready?
  }

  // ---------------------------------------------------------------- operations

  /** Outcome of a send: the kernel panics on a deadlock, otherwise the table changes. */
  datatype SendResult = Deadlock | Sent(ipc: Ipc)

  /** Whether a process with status `st` is waiting for a message from `s`. */
  ghost predicate WaitsFor(st: Status, s: nat) {
    st == Receiving(AnyProc) || st == Receiving(From(s))
  }

  /** The message as it leaves `me`: sys_sendrec fills in the source. */
  ghost function Stamped(m: Message, me: nat): Message {
    m.(source := me)
  }

  /** The table once sys_sendrec has filled in the source of the caller's buffer. */
  ghost function Present(c: Ipc, me: nat, m: Message): Ipc
    requires me < |c.procs|
  {
    c.(procs := c.procs[me := c.procs[me].(buf := Stamped(m, me))])
  }

  /** sys_sendrec with SEND: hand the message over if `dest` waits for it, otherwise queue up. */
  ghost function Send(c: Ipc, me: nat, dest: nat, m: Message): SendResult
    requires Shape(c) && me < |c.procs| && dest < |c.procs| && me != dest
  {
    if Reaches(Edges(c), dest, me) then Deadlock
    else if WaitsFor(c.procs[dest].status, me) then Sent(Handover(c, me, dest, m))
    else Sent(Enqueue(c, me, dest, m))
  }

  ghost function Handover(c: Ipc, me: nat, dest: nat, m: Message): Ipc
    requires me < |c.procs| && dest < |c.procs|
  {
    c.(procs := c.procs[me := c.procs[me].(buf := Stamped(m, me))]
                       [dest := c.procs[dest].(status := Ready, buf := Stamped(m, me))])
  }

  ghost function Enqueue(c: Ipc, me: nat, dest: nat, m: Message): Ipc
    requires me < |c.procs| && dest < |c.queues|
  {
    Ipc(c.procs[me := c.procs[me].(status := Sending(dest), buf := Stamped(m, me))],
        c.queues[dest := c.queues[dest] + [me]])
  }

  /** The sender whose message a receive would take at once, if there is one. */
  ghost function Candidate(c: Ipc, me: nat, src: Source): Option<nat>
    requires Shape(c) && me < |c.procs| && SourceInRange(src, me, |c.procs|)
  {
    match src
    case AnyProc => if c.queues[me] == [] then None else Some(c.queues[me][0])
    case Hardware => None
    case From(s) => if c.procs[s].status == Sending(me) then Some(s) else None
  }

  /** Whether a receive is answered by an interrupt that has been pending. */
  ghost predicate TakesInterrupt(c: Ipc, me: nat, src: Source)
    requires me < |c.procs|
  {
    c.procs[me].intr && !src.From?
  }

  /** `me` is given the interrupt that was pending. */
  ghost function TakePending(c: Ipc, me: nat): Ipc
    requires me < |c.procs|
  {
    c.(procs := c.procs[me := c.procs[me].(buf := INTERRUPT_MESSAGE, intr := false)])
  }

  /** `me` blocks until it hears from `src`. */
  ghost function Await(c: Ipc, me: nat, src: Source, m: Message): Ipc
    requires me < |c.procs|
  {
    c.(procs := c.procs[me := c.procs[me].(status := Receiving(src), buf := Stamped(m, me))])
  }

  /** sys_sendrec with RECEIVE: a pending interrupt first, then a waiting sender, else block. */
  ghost function Receive(c: Ipc, me: nat, src: Source, m: Message): (d: Ipc)
    requires Shape(c) && QueuesExact(c) && me < |c.procs| && SourceInRange(src, me, |c.procs|)
    ensures |d.procs| == |c.procs| && |d.queues| == |c.queues|
  {
    if TakesInterrupt(c, me, src) then TakePending(c, me)
    else
      match Candidate(c, me, src)
      case Some(s) => CandidateQueued(c, me, src); Take(c, me, s)
      case None => Await(c, me, src, m)
  }

  /** Remove `s` from the queue of `me` and copy its message. */
  ghost function Take(c: Ipc, me: nat, s: nat): Ipc
    requires me < |c.procs| && s < |c.procs| && me < |c.queues| && s in c.queues[me]
  {
    Ipc(c.procs[me := c.procs[me].(buf := c.procs[s].buf)]
               [s := c.procs[s].(status := Ready)],
        c.queues[me := Remove(c.queues[me], s)])
  }

  /** inform_int: wake a process that waits for interrupts, otherwise remember the interrupt. */
  ghost function Inform(c: Ipc, t: nat): Ipc
    requires t < |c.procs|
  {
    var p := c.procs[t];
    if p.status == Receiving(AnyProc) || p.status == Receiving(Hardware) then
      c.(procs := c.procs[t := Proc(Ready, p.buf.(source := INTERRUPT, mtype := HARD_INT), false)])
    else
      c.(procs := c.procs[t := p.(intr := true)])
  }

  lemma CandidateQueued(c: Ipc, me: nat, src: Source)
    requires Shape(c) && QueuesExact(c) && me < |c.procs| && SourceInRange(src, me, |c.procs|)
    requires Candidate(c, me, src).Some?
    ensures var s := Candidate(c, me, src).value;
            s < |c.procs| && s != me && s in c.queues[me] && c.procs[s].status == Sending(me)
  {
    var s := Candidate(c, me, src).value;
    assert QueueExact(c, me);
    assert s in c.queues[me];
    assert StatusInRange(c.procs[s].status, s, |c.procs|);
  }

  // ---------------------------------------------------------------- the invariant is kept

  lemma HandoverCoherent(c: Ipc, me: nat, dest: nat, m: Message)
    requires Coherent(c) && IsReady(c, me) && dest < |c.procs| && me != dest
    requires WaitsFor(c.procs[dest].status, me)
    ensures Coherent(Handover(c, me, dest, m))
  {
    var d := Handover(c, me, dest, m);
    forall r | 0 <= r < |d.queues| ensures QueueExact(d, r) {
      assert QueueExact(c, r);
    }
    forall r | 0 <= r < |d.procs| ensures NothingMissed(d, r) {
      assert NothingMissed(c, r);
    }
    FewerEdgesGrounded(Edges(c), Edges(d));
  }

  lemma EnqueueShape(c: Ipc, me: nat, dest: nat, m: Message)
    requires Coherent(c) && IsReady(c, me) && dest < |c.procs| && me != dest
    ensures Shape(Enqueue(c, me, dest, m)) && QueuesExact(Enqueue(c, me, dest, m))
  {
    var d := Enqueue(c, me, dest, m);
    forall r | 0 <= r < |d.queues| ensures QueueExact(d, r) {
      assert QueueExact(c, r);
      if r == dest {
        AppendMembers(c.queues[dest], me);
      }
    }
  }

  lemma EnqueueCoherent(c: Ipc, me: nat, dest: nat, m: Message)
    requires Coherent(c) && IsReady(c, me) && dest < |c.procs| && me != dest
    requires !WaitsFor(c.procs[dest].status, me)
    requires !Reaches(Edges(c), dest, me)
    ensures Coherent(Enqueue(c, me, dest, m))
  {
    var d := Enqueue(c, me, dest, m);
    EnqueueShape(c, me, dest, m);
    forall r | 0 <= r < |d.procs| ensures NothingMissed(d, r) {
      assert NothingMissed(c, r);
    }
    AddEdgeGroundedIff(Edges(c), me, dest);
    assert Edges(d) == Edges(c)[me := Some(dest)];
  }

  /**
   msg_send keeps the invariant, and its deadlock check is exact: it panics precisely when
   letting the sender wait would close a cycle of senders.
   */
  lemma SendCoherent(c: Ipc, me: nat, dest: nat, m: Message)
    requires Coherent(c) && IsReady(c, me) && dest < |c.procs| && me != dest
    ensures Send(c, me, dest, m).Sent? ==> Coherent(Send(c, me, dest, m).ipc)
    ensures Send(c, me, dest, m).Deadlock? <==>
            !(InRange(Edges(Enqueue(c, me, dest, m))) && Grounded(Edges(Enqueue(c, me, dest, m))))
  {
    AddEdgeGroundedIff(Edges(c), me, dest);
    assert Edges(Enqueue(c, me, dest, m)) == Edges(c)[me := Some(dest)];
    if Send(c, me, dest, m).Sent? {
      if WaitsFor(c.procs[dest].status, me) {
        HandoverCoherent(c, me, dest, m);
      } else {
        EnqueueCoherent(c, me, dest, m);
      }
    }
  }

  lemma TakeCoherent(c: Ipc, me: nat, s: nat)
    requires Coherent(c) && IsReady(c, me) && s < |c.procs| && s in c.queues[me]
    ensures Coherent(Take(c, me, s))
  {
    var d := Take(c, me, s);
    assert QueueExact(c, me);
    forall r | 0 <= r < |d.queues| ensures QueueExact(d, r) {
      assert QueueExact(c, r);
      if r == me {
        RemoveMembers(c.queues[me], s);
      }
    }
    forall r | 0 <= r < |d.procs| ensures NothingMissed(d, r) {
      assert NothingMissed(c, r);
    }
    FewerEdgesGrounded(Edges(c), Edges(d));
  }

  lemma ReceiveCoherent(c: Ipc, me: nat, src: Source, m: Message)
    requires Coherent(c) && IsReady(c, me) && SourceInRange(src, me, |c.procs|)
    ensures Coherent(Receive(c, me, src, m))
  {
    var d := Receive(c, me, src, m);
    if !TakesInterrupt(c, me, src) && Candidate(c, me, src).Some? {
      CandidateQueued(c, me, src);
      TakeCoherent(c, me, Candidate(c, me, src).value);
    } else {
      forall r | 0 <= r < |d.queues| ensures QueueExact(d, r) {
        assert QueueExact(c, r);
      }
      forall r | 0 <= r < |d.procs| ensures NothingMissed(d, r) {
        assert NothingMissed(c, r);
      }
      FewerEdgesGrounded(Edges(c), Edges(d));
    }
  }

  lemma InformCoherent(c: Ipc, t: nat)
    requires Coherent(c) && t < |c.procs|
    ensures Coherent(Inform(c, t))
  {
    var d := Inform(c, t);
    forall r | 0 <= r < |d.queues| ensures QueueExact(d, r) {
      assert QueueExact(c, r);
    }
    forall r | 0 <= r < |d.procs| ensures NothingMissed(d, r) {
      assert NothingMissed(c, r);
    }
    FewerEdgesGrounded(Edges(c), Edges(d));
  }

  lemma PresentCoherent(c: Ipc, me: nat, m: Message)
    requires Coherent(c) && me < |c.procs|
    ensures Coherent(Present(c, me, m)) && Edges(Present(c, me, m)) == Edges(c)
  {
    var d := Present(c, me, m);
    assert Edges(d) == Edges(c);
    forall r | 0 <= r < |d.queues| ensures QueueExact(d, r) && NothingMissed(d, r) {
      assert QueueExact(c, r) && NothingMissed(c, r);
    }
  }

  /** Both operations replace what the caller's buffer held before. */
  lemma PresentAbsorbed(c: Ipc, me: nat, m: Message)
    requires Coherent(c) && IsReady(c, me)
    ensures Coherent(Present(c, me, m))
    ensures forall dest: nat :: dest < |c.procs| && dest != me ==>
              Send(Present(c, me, m), me, dest, m) == Send(c, me, dest, m)
    ensures forall src :: SourceInRange(src, me, |c.procs|) ==>
              Receive(Present(c, me, m), me, src, m) == Receive(c, me, src, m)
  {
    PresentCoherent(c, me, m);
    var d := Present(c, me, m);
    forall src | SourceInRange(src, me, |c.procs|)
      ensures Receive(d, me, src, m) == Receive(c, me, src, m)
    {
      assert Candidate(d, me, src) == Candidate(c, me, src);
      if Candidate(c, me, src).Some? {
        CandidateQueued(c, me, src);
      }
    }
  }
}
