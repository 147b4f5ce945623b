/**
 The field updates of msg_send, msg_receive and inform_int: copying a message, blocking a
 process and letting one run again. Each is tied to its effect on the table as a value.
 */
module Transfer {
  import opened Messages
  import opened Rendezvous
  import opened ProcTable

  // ---------------------------------------------------------------- sys_sendrec

  /** sys_sendrec: the caller presents `m`, and the kernel fills in who the caller is. */
  method StampSource(procs: Table, me: nat, m: MessageBuffer, ghost c: Ipc)
    requires EntriesShow(procs, c) && me < |procs| && IsReady(c, me) && m.owner == me
    modifies m`m, {procs[me]}`buffer
    ensures EntriesShow(procs, Present(c, me, old(m.m)))
    ensures m.m == Stamped(old(m.m), me) && procs[me].buffer == m
    ensures m.m.source == me && SameContent(m.m, old(m.m))
  {
    assert forall i :: 0 <= i < |procs| ==> Represents(procs[i], c.procs[i], |procs|);
    m.m := m.m.(source := me);
    procs[me].buffer := m;
  }

  // ---------------------------------------------------------------- msg_send

  /** `p` waits for a message from `s`, as the fields tell. */
  predicate WaitsForFields(p: Process, s: nat, n: nat)
    reads p`flags, p`recvFrom
  {
    p.flags & RECEIVING != 0 && (p.recvFrom == s || p.recvFrom == Any(n))
  }

  lemma FieldsTellWaiting(p: Process, a: Proc, s: nat, n: nat)
    requires Represents(p, a, n) && StatusInRange(a.status, p.pid, n) && s < n
    ensures WaitsForFields(p, s, n) <==> WaitsFor(a.status, s)
  {
  }

  /** Copy `m` to the buffer of a receiver and make the receiver runnable. */
  method CopyAndWake(p: Process, m: MessageBuffer, ghost a: Proc, n: nat)
    requires Represents(p, a, n) && a.status.Receiving? && m != p.buffer
    modifies p`flags, p`msg, p`recvFrom, p.buffer`m
    ensures Represents(p, a.(status := Ready, buf := m.m), n)
  {
    assert p.msg != null;
    p.msg.m := m.m;
    p.msg := null;
    p.flags := p.flags & !RECEIVING;
    p.recvFrom := NoTask(n);
    assert p.flags == 0 && p.msg == null && p.recvFrom == NoTask(n) && p.sendTo == NoTask(n);
  }

  /** msg_send when `dest` waits: copy the message to it and let it run. */
  method HandOver(procs: Table, sender: nat, dest: nat, m: MessageBuffer, ghost c: Ipc)
    requires EntriesShow(procs, c) && sender < |procs| && dest < |procs| && sender != dest
    requires IsReady(c, sender) && c.procs[dest].status.Receiving?
    requires m == procs[sender].buffer && m.m.source == sender
    modifies procs`flags, procs`msg, procs`recvFrom, procs[dest].buffer`m
    ensures EntriesShow(procs, Handover(c, sender, dest, m.m)) && m.m == old(m.m)
    ensures Rests(procs[sender], |procs|) && Rests(procs[dest], |procs|)
  {
    assert Represents(procs[sender], c.procs[sender], |procs|);
    assert Represents(procs[dest], c.procs[dest], |procs|);
    CopyAndWake(procs[dest], m, c.procs[dest], |procs|);
  }

  /** Mark a sender as blocked on `dest`, with its message in `m`. */
  method MarkSending(p: Process, dest: nat, m: MessageBuffer, ghost a: Proc, n: nat)
    requires Represents(p, a, n) && a.status.Ready? && m == p.buffer
    modifies p`flags, p`sendTo, p`msg
    ensures Represents(p, a.(status := Sending(dest)), n)
  {
    p.flags := p.flags | SENDING;
    assert p.flags == SENDING;
    p.sendTo := dest;
    p.msg := m;
    assert p.recvFrom == NoTask(n);
  }

  /** msg_send when `dest` does not wait: the sender blocks; AppendSender changes the queue. */
  method BlockSender(procs: Table, sender: nat, dest: nat, m: MessageBuffer, ghost c: Ipc)
    requires EntriesShow(procs, c) && sender < |procs| && dest < |procs| && sender != dest
    requires IsReady(c, sender) && m == procs[sender].buffer && m.m.source == sender
    requires |c.queues| == |procs|
    modifies procs`flags, procs`sendTo, procs`msg
    ensures EntriesShow(procs, Enqueue(c, sender, dest, m.m))
    ensures BlockedSending(procs[sender], dest, |procs|)
  {
    assert Represents(procs[sender], c.procs[sender], |procs|);
    MarkSending(procs[sender], dest, m, c.procs[sender], |procs|);
  }

  // ---------------------------------------------------------------- msg_receive

  /** Whether `p` is blocked sending to `r`, as the fields tell. */
  predicate SendsToFields(p: Process, r: nat)
    reads p`flags, p`sendTo
  {
    p.flags & SENDING != 0 && p.sendTo == r
  }

  lemma FieldsTellSending(p: Process, a: Proc, r: nat, n: nat)
    requires Represents(p, a, n) && r < n
    ensures SendsToFields(p, r) <==> a.status == Sending(r)
  {
  }

  /** Copy the message of a blocked sender to `m` and let the sender run. */
  method CopyAndRelease(p: Process, m: MessageBuffer, ghost a: Proc, n: nat)
    requires Represents(p, a, n) && a.status.Sending? && m != p.buffer
    modifies m`m, p`flags, p`sendTo, p`msg
    ensures Represents(p, a.(status := Ready), n) && m.m == a.buf
  {
    assert p.msg != null;
    m.m := p.msg.m;
    p.msg := null;
    p.sendTo := NoTask(n);
    p.flags := p.flags & !SENDING;
    assert p.flags == 0;
  }

  /** Give the message of `from` to `me` and let `from` run; the queue is changed by Unlink. */
  method ReleaseSender(procs: Table, me: nat, from: nat, m: MessageBuffer, ghost c: Ipc)
    requires EntriesShow(procs, c) && me < |procs| && from < |procs| && me != from
    requires IsReady(c, me) && c.procs[from].status == Sending(me)
    requires |c.queues| == |procs| && from in c.queues[me]
    requires m == procs[me].buffer
    modifies m`m, procs`flags, procs`sendTo, procs`msg
    ensures EntriesShow(procs, Take(c, me, from))
  {
    assert Represents(procs[me], c.procs[me], |procs|);
    assert Represents(procs[from], c.procs[from], |procs|);
    CopyAndRelease(procs[from], m, c.procs[from], |procs|);
  }

  /** Mark a receiver as blocked, waiting for `src` (whose code is `code`). */
  method MarkReceiving(p: Process, code: int, m: MessageBuffer, ghost src: Source, ghost a: Proc, n: nat)
    requires Represents(p, a, n) && a.status.Ready? && m == p.buffer && code == Code(src, n)
    modifies p`flags, p`recvFrom, p`msg
    ensures Represents(p, a.(status := Receiving(src)), n)
  {
    p.flags := p.flags | RECEIVING;
    p.msg := m;
    p.recvFrom := code;
    assert p.flags == RECEIVING && p.sendTo == NoTask(n);
  }

  /** msg_receive when nobody is sending a suitable message. */
  method BlockReceiver(procs: Table, me: nat, code: int, m: MessageBuffer, ghost src: Source, ghost c: Ipc)
    requires EntriesShow(procs, c) && me < |procs| && IsReady(c, me)
    requires m == procs[me].buffer && m.m.source == me && code == Code(src, |procs|)
    modifies procs`flags, procs`recvFrom, procs`msg
    ensures EntriesShow(procs, Await(c, me, src, m.m))
    ensures SourceInRange(src, me, |procs|) ==> BlockedReceiving(procs[me], |procs|)
  {
    assert Represents(procs[me], c.procs[me], |procs|);
    MarkReceiving(procs[me], code, m, src, c.procs[me], |procs|);
  }

  /** Copy the interrupt message to the buffer of a process that has an interrupt pending. */
  method CopyPending(p: Process, m: MessageBuffer, ghost a: Proc, n: nat)
    requires Represents(p, a, n) && a.status.Ready? && m == p.buffer
    modifies m`m, p`hasIntMsg
    ensures Represents(p, a.(buf := INTERRUPT_MESSAGE, intr := false), n)
  {
    m.m := ZERO_MESSAGE.(source := INTERRUPT, mtype := HARD_INT);
    p.hasIntMsg := false;
    assert p.flags == 0 && p.msg == null && p.sendTo == NoTask(n) && !p.hasIntMsg;
  }

  /** msg_receive when an interrupt is pending. */
  method AnswerWithInterrupt(procs: Table, me: nat, m: MessageBuffer, ghost c: Ipc)
    requires EntriesShow(procs, c) && me < |procs| && IsReady(c, me)
    requires m == procs[me].buffer
    modifies m`m, procs`hasIntMsg
    ensures EntriesShow(procs, TakePending(c, me))
    ensures Rests(procs[me], |procs|) && !procs[me].hasIntMsg
  {
    assert Represents(procs[me], c.procs[me], |procs|);
    CopyPending(procs[me], m, c.procs[me], |procs|);
  }

  // ---------------------------------------------------------------- inform_int

  /** Whether `p` waits for an interrupt, as the fields tell. */
  predicate ListensFields(p: Process, n: nat)
    reads p`flags, p`recvFrom
  {
    p.flags & RECEIVING != 0 && (p.recvFrom == INTERRUPT || p.recvFrom == Any(n))
  }

  lemma FieldsTellListening(p: Process, a: Proc, n: nat)
    requires Represents(p, a, n) && StatusInRange(a.status, p.pid, n)
    ensures ListensFields(p, n) <==> a.status == Receiving(AnyProc) || a.status == Receiving(Hardware)
  {
  }

  /** Leave the interrupt message in the buffer of a listening process and let it run. */
  method WakeWithInterrupt(p: Process, ghost a: Proc, n: nat)
    requires Represents(p, a, n) && a.status.Receiving?
    modifies p`flags, p`msg, p`recvFrom, p`hasIntMsg, p.buffer`m
    ensures Represents(p, Proc(Ready, a.buf.(source := INTERRUPT, mtype := HARD_INT), false), n)
  {
    p.msg.m := p.msg.m.(source := INTERRUPT, mtype := HARD_INT);
    p.msg := null;
    p.hasIntMsg := false;
    p.flags := p.flags & !RECEIVING;
    p.recvFrom := NoTask(n);
    assert p.flags == 0 && p.msg == null && p.recvFrom == NoTask(n) && p.sendTo == NoTask(n);
  }

  /** inform_int. */
  method InformTask(procs: Table, task: nat, ghost c: Ipc)
    requires EntriesShow(procs, c) && task < |procs| && StatusInRange(c.procs[task].status, task, |procs|)
    modifies procs`flags, procs`msg, procs`recvFrom, procs`hasIntMsg, procs[task].buffer`m
    ensures EntriesShow(procs, Inform(c, task))
  {
    var p := procs[task];
    assert Represents(p, c.procs[task], |procs|);
    FieldsTellListening(p, c.procs[task], |procs|);
    if ListensFields(p, |procs|) {
      WakeWithInterrupt(p, c.procs[task], |procs|);
    } else {
      p.hasIntMsg := true;
    }
  }
}
