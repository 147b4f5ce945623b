/**
 msg_send, msg_receive and inform_int of kernel/proc.c on the process table. `c` is what the
 table stands for when the routine is entered; the contracts say what it stands for at the end.
 */
module IpcCode {
  import opened Options
  import opened Messages
  import opened WaitGraph
  import opened Rendezvous
  import opened QueueLinks
  import opened ProcTable
  import opened DeadlockCheck
  import opened SendingQueue
  import opened Transfer

  /** How a call ended: at once, with the caller blocked, or in a panic. */
  datatype Outcome = Finished | Blocked | Panicked

  // ---------------------------------------------------------------- msg_send

  /** The branch of msg_send that finds `dest` waiting. */
  method DeliverTo(procs: Table, sender: nat, dest: nat, m: MessageBuffer, ghost c: Ipc)
    requires EntriesShow(procs, c) && Threaded(procs, c)
    requires sender < |procs| && dest < |procs| && sender != dest
    requires IsReady(c, sender) && c.procs[dest].status.Receiving?
    requires m == procs[sender].buffer && m.m.source == sender
    modifies procs`flags, procs`msg, procs`recvFrom, procs[dest].buffer`m
    ensures m.m == old(m.m)
    ensures EntriesShow(procs, Handover(c, sender, dest, m.m))
    ensures Threaded(procs, Handover(c, sender, dest, m.m))
    ensures Rests(procs[sender], |procs|) && Rests(procs[dest], |procs|)
  {
    hide Represents, Linked;
    LinksHandover(c, sender, dest, m.m);
    HandOver(procs, sender, dest, m, c);
  }

  /** The branch of msg_send that has to wait, up to the call of block(). */
  method QueueUp(procs: Table, sender: nat, dest: nat, m: MessageBuffer, ghost c: Queued)
    requires EntriesShow(procs, c) && Threaded(procs, c)
    requires sender < |procs| && dest < |procs| && sender != dest && IsReady(c, sender)
    requires m == procs[sender].buffer && m.m.source == sender
    modifies procs`flags, procs`sendTo, procs`msg, procs`qSending, procs`nextSending
    ensures m.m == old(m.m)
    ensures EntriesShow(procs, Enqueue(c, sender, dest, m.m))
    ensures Threaded(procs, Enqueue(c, sender, dest, m.m))
    ensures BlockedSending(procs[sender], dest, |procs|)
  {
    hide Threaded;
    BlockSender(procs, sender, dest, m, c);
    AppendSender(procs, dest, sender, c, m.m);
  }

  /** The test of msg_send for a deadlock. */
  method Refuses(procs: Table, sender: nat, dest: nat, ghost c: Queued, ghost m: Message) returns (d: int)
    requires EntriesShow(procs, c) && Threaded(procs, c) && Grounded(Edges(c))
    requires sender < |procs| && dest < |procs| && sender != dest
    ensures d != 0 <==> Send(c, sender, dest, m).Deadlock?
  {
    TableShowsGraph(procs, c);
    d := Deadlocks(procs, sender, dest, Edges(c));
  }

  /** msg_send, up to the call of block(). */
  method MsgSend(procs: Table, sender: nat, dest: nat, m: MessageBuffer, ghost c: Queued)
    returns (o: Outcome)
    requires EntriesShow(procs, c) && Threaded(procs, c) && Grounded(Edges(c))
    requires sender < |procs| && dest < |procs| && sender != dest && IsReady(c, sender)
    requires m == procs[sender].buffer && m.m.source == sender
    modifies procs`flags, procs`msg, procs`recvFrom, procs`sendTo,
             procs`qSending, procs`nextSending, procs[dest].buffer`m
    ensures m.m == old(m.m)
    ensures o.Panicked? <==> Send(c, sender, dest, m.m).Deadlock?
    ensures o.Panicked? ==> EntriesShow(procs, c) && Threaded(procs, c)
    ensures !o.Panicked? ==> EntriesShow(procs, Send(c, sender, dest, m.m).ipc)
    ensures !o.Panicked? ==> Threaded(procs, Send(c, sender, dest, m.m).ipc)
    ensures !o.Panicked? ==> (o.Finished? <==> IsReady(Send(c, sender, dest, m.m).ipc, sender))
    ensures o.Finished? ==> Rests(procs[sender], |procs|) && Rests(procs[dest], |procs|)
    ensures o.Blocked? ==> BlockedSending(procs[sender], dest, |procs|)
  {
    hide Threaded;
    var d := Refuses(procs, sender, dest, c, m.m);
    if d != 0 {
      return Panicked;
    }
    assert Represents(procs[dest], c.procs[dest], |procs|);
    FieldsTellWaiting(procs[dest], c.procs[dest], sender, |procs|);
    if WaitsForFields(procs[dest], sender, |procs|) {
      DeliverTo(procs, sender, dest, m, c);
      o := Finished;
    } else {
      QueueUp(procs, sender, dest, m, c);
      o := Blocked;
    }
  }

  // ---------------------------------------------------------------- msg_receive

  /** The branch of msg_receive for an interrupt that has been pending. */
  method TakeInterrupt(procs: Table, me: nat, m: MessageBuffer, ghost c: Ipc)
    requires EntriesShow(procs, c) && Threaded(procs, c)
    requires me < |procs| && IsReady(c, me) && m == procs[me].buffer
    modifies m`m, procs`hasIntMsg
    ensures EntriesShow(procs, TakePending(c, me))
    ensures Threaded(procs, TakePending(c, me))
    ensures Rests(procs[me], |procs|) && !procs[me].hasIntMsg
  {
    hide Represents, Linked;
    LinksAwait(c, me, AnyProc, m.m);
    AnswerWithInterrupt(procs, me, m, c);
  }

  /** The sender at the head of the queue of `me`, if the queue is not empty. */
  method FirstSender(procs: Table, me: nat, ghost c: Queued) returns (from: Process?)
    requires EntriesShow(procs, c) && Threaded(procs, c) && me < |procs|
    ensures from == Ptr(procs, Candidate(c, me, AnyProc))
  {
    from := procs[me].qSending;
    if c.queues[me] == [] {
      EmptyQueue(c, me);
    } else {
      QueueEntry(c, me, 0);
    }
  }

  /** Process `s` and its predecessor in the queue of `me`, if `s` is sending to `me`. */
  method SenderFrom(procs: Table, me: nat, s: nat, ghost c: Queued) returns (from: Process?, prev: Process?)
    requires EntriesShow(procs, c) && Threaded(procs, c)
    requires me < |procs| && s < |procs| && s != me
    ensures from == Ptr(procs, Candidate(c, me, From(s)))
    ensures from != null ==> s in c.queues[me]
    ensures from != null ==> IsPrevious(procs, c.queues[me], IndexOf(c.queues[me], s), prev)
  {
    from, prev := null, null;
    assert Represents(procs[s], c.procs[s], |procs|);
    FieldsTellSending(procs[s], c.procs[s], me, |procs|);
    if SendsToFields(procs[s], me) {
      CandidateQueued(c, me, From(s));
      from := procs[s];
      prev := FindPrevious(procs, me, s, c);
    }
  }

  /** The branch of msg_receive that takes the message of a blocked sender. */
  method TakeMessage(procs: Table, me: nat, from: nat, prev: Process?, m: MessageBuffer, ghost c: Queued)
    requires EntriesShow(procs, c) && Threaded(procs, c)
    requires me < |procs| && from < |procs| && me != from && IsReady(c, me)
    requires from in c.queues[me] && c.procs[from].status == Sending(me)
    requires IsPrevious(procs, c.queues[me], IndexOf(c.queues[me], from), prev)
    requires m == procs[me].buffer
    modifies m`m, procs`flags, procs`sendTo, procs`msg, procs`qSending, procs`nextSending
    ensures EntriesShow(procs, Take(c, me, from))
    ensures Threaded(procs, Take(c, me, from))
  {
    hide Threaded;
    Unlink(procs, me, from, prev, c);
    ReleaseSender(procs, me, from, m, c);
  }

  /** The branch of msg_receive that has to wait, up to the call of block(). */
  method WaitForMessage(procs: Table, me: nat, code: int, m: MessageBuffer, ghost src: Source, ghost c: Ipc)
    requires EntriesShow(procs, c) && Threaded(procs, c)
    requires me < |procs| && IsReady(c, me)
    requires m == procs[me].buffer && m.m.source == me && code == Code(src, |procs|)
    modifies procs`flags, procs`recvFrom, procs`msg
    ensures EntriesShow(procs, Await(c, me, src, m.m))
    ensures Threaded(procs, Await(c, me, src, m.m))
    ensures SourceInRange(src, me, |procs|) ==> BlockedReceiving(procs[me], |procs|)
  {
    hide Represents, Linked;
    LinksAwait(c, me, src, m.m);
    BlockReceiver(procs, me, code, m, src, c);
  }

  /** What the asserts of both searches of msg_receive say about receiver and sender. */
  lemma SearchAsserts(procs: Table, me: nat, src: Source, c: Queued)
    requires EntriesShow(procs, c) && Threaded(procs, c)
    requires me < |procs| && SourceInRange(src, me, |procs|) && IsReady(c, me)
    ensures Rests(procs[me], |procs|)
    ensures Candidate(c, me, src).Some? ==>
              && Candidate(c, me, src).value < |procs|
              && procs[me].qSending != null
              && BlockedSending(procs[Candidate(c, me, src).value], me, |procs|)
  {
    EntryAssertsHold(procs, c, me);
    if Candidate(c, me, src).Some? {
      CandidateQueued(c, me, src);
      var s := Candidate(c, me, src).value;
      EntryAssertsHold(procs, c, s);
      EntryPointers(procs, c, me, IndexOf(c.queues[me], s));
    }
  }

  /** The search of msg_receive for a sender that is already waiting. */
  method FindSender(procs: Table, me: nat, code: int, ghost src: Source, ghost c: Queued)
    returns (from: Process?, prev: Process?)
    requires EntriesShow(procs, c) && Threaded(procs, c)
    requires me < |procs| && code == Code(src, |procs|) && SourceInRange(src, me, |procs|) && IsReady(c, me)
    ensures Rests(procs[me], |procs|)
    ensures from != null ==> procs[me].qSending != null && BlockedSending(from, me, |procs|)
    ensures from == Ptr(procs, Candidate(c, me, src))
    ensures from != null ==> from.pid in c.queues[me]
    ensures from != null ==> IsPrevious(procs, c.queues[me], IndexOf(c.queues[me], from.pid), prev)
  {
    from, prev := null, null;
    SearchAsserts(procs, me, src, c);
    if code == Any(|procs|) {
      from := FirstSender(procs, me, c);
    } else if 0 <= code < |procs| {
      from, prev := SenderFrom(procs, me, code, c);
    }
  }

  /** Which of the three branches of msg_receive is taken, and whether it blocks. */
  lemma ReceiveBranches(c: Queued, me: nat, src: Source, m: Message)
    requires IsReady(c, me) && SourceInRange(src, me, |c.procs|) && m.source == me
    ensures TakesInterrupt(c, me, src) ==> Receive(c, me, src, m) == TakePending(c, me)
    ensures !TakesInterrupt(c, me, src) ==>
              match Candidate(c, me, src)
              case Some(s) =>
                && s < |c.procs| && s != me && s in c.queues[me] && c.procs[s].status == Sending(me)
                && Receive(c, me, src, m) == Take(c, me, s)
              case None => Receive(c, me, src, m) == Await(c, me, src, m)
    ensures IsReady(Receive(c, me, src, m), me) <==>
              TakesInterrupt(c, me, src) || Candidate(c, me, src).Some?
  {
    if Candidate(c, me, src).Some? {
      CandidateQueued(c, me, src);
    }
  }

  /** msg_receive, up to the call of block(). */
  method MsgReceive(procs: Table, me: nat, code: int, m: MessageBuffer, ghost src: Source, ghost c: Queued)
    returns (o: Outcome)
    requires EntriesShow(procs, c) && Threaded(procs, c)
    requires me < |procs| && IsReady(c, me)
    requires code == Code(src, |procs|) && SourceInRange(src, me, |procs|)
    requires m == procs[me].buffer && m.m.source == me
    modifies m`m, procs`flags, procs`msg, procs`recvFrom, procs`sendTo, procs`hasIntMsg,
             procs`qSending, procs`nextSending
    ensures EntriesShow(procs, Receive(c, me, src, old(m.m)))
    ensures Threaded(procs, Receive(c, me, src, old(m.m)))
    ensures o == if IsReady(Receive(c, me, src, old(m.m)), me) then Finished else Blocked
    ensures o.Blocked? ==> m.m == old(m.m)
  {
    hide Threaded;
    EntryFields(procs, c, me);
    ReceiveBranches(c, me, src, m.m);
    if procs[me].hasIntMsg && (code == Any(|procs|) || code == INTERRUPT) {
      TakeInterrupt(procs, me, m, c);
      return Finished;
    }
    var from, prev := FindSender(procs, me, code, src, c);
    assert from != null <==> Candidate(c, me, src).Some?;
    if from != null {
      assert from.pid == Candidate(c, me, src).value;
      TakeMessage(procs, me, from.pid, prev, m, c);
      o := Finished;
    } else {
      WaitForMessage(procs, me, code, m, src, c);
      o := Blocked;
    }
  }

  // ---------------------------------------------------------------- inform_int

  /** inform_int. */
  method InformInt(procs: Table, task: nat, ghost c: Ipc)
    requires EntriesShow(procs, c) && Threaded(procs, c)
    requires task < |procs| && StatusInRange(c.procs[task].status, task, |procs|)
    modifies procs`flags, procs`msg, procs`recvFrom, procs`hasIntMsg, procs[task].buffer`m
    ensures EntriesShow(procs, Inform(c, task))
    ensures Threaded(procs, Inform(c, task))
  {
    LinksInform(c, task);
    InformTask(procs, task, c);
  }
}
