/**
 The process table of kernel/proc.c as objects: each PROCESS with its fields, each MESSAGE
 buffer an object of its own, and the queue of blocked senders threaded through the table.
 */
module ProcTable {
  import opened Options
  import opened Messages
  import opened Rendezvous
  import opened QueueLinks

  const SENDING: bv8 := 0x02
  const RECEIVING: bv8 := 0x04

  const SEND := 1
  const RECEIVE := 2

  /** A MESSAGE in the memory of process `owner`. */
  class MessageBuffer {
    ghost const owner: nat
    var m: Message

    constructor (m: Message, ghost owner: nat)
      ensures this.m == m && this.owner == owner
    {
      this.m, this.owner := m, owner;
    }
  }

  class Process {
    const pid: nat
    var ticks: nat
    var priority: nat
    var flags: bv8
    var msg: MessageBuffer?
    var recvFrom: int
    var sendTo: int
    var hasIntMsg: bool
    var qSending: Process?
    var nextSending: Process?

    /** The buffer of the latest sendrec call, which `msg` points to while the process waits. */
    ghost var buffer: MessageBuffer

    constructor (pid: nat, priority: nat, noTask: int, buffer: MessageBuffer)
      ensures this.pid == pid && ticks == this.priority == priority && this.buffer == buffer
      ensures flags == 0 && msg == null && recvFrom == sendTo == noTask && !hasIntMsg
      ensures qSending == nextSending == null
    {
      this.pid, this.ticks, this.priority := pid, priority, priority;
      this.flags, this.msg, this.recvFrom, this.sendTo := 0, null, noTask, noTask;
      this.hasIntMsg, this.qSending, this.nextSending := false, null, null;
      this.buffer := buffer;
    }
  }

  // ---------------------------------------------------------------- meaning of the fields

  /** ANY and NO_TASK, which lie behind the pids of a table of `n` processes. */
  function Any(n: nat): int { n + 10 }
  function NoTask(n: nat): int { n + 20 }

  /** The integer that stands for a source in p_recvfrom. */
  function Code(src: Source, n: nat): int {
    match src
    case AnyProc => Any(n)
    case Hardware => INTERRUPT
    case From(p) => p
  }

  /** The values of p_flags, p_recvfrom and p_sendto that stand for a status. */
  ghost function FlagsOf(st: Status): bv8 {
    match st
    case Ready => 0
    case Sending(_) => SENDING
    case Receiving(_) => RECEIVING
  }

  ghost function RecvFromOf(st: Status, n: nat): int {
    if st.Receiving? then Code(st.src, n) else NoTask(n)
  }

  ghost function SendToOf(st: Status, n: nat): int {
    if st.Sending? then st.dest else NoTask(n)
  }

  /** The values of the fields that interprocess communication uses. */
  datatype Fields = Fields(flags: bv8, recvFrom: int, sendTo: int, hasIntMsg: bool,
                           msg: MessageBuffer?, content: Message, owner: nat)

  ghost function FieldsOf(p: Process): Fields
    reads p`flags, p`msg, p`recvFrom, p`sendTo, p`hasIntMsg, p`buffer, p.buffer`m
  {
    Fields(p.flags, p.recvFrom, p.sendTo, p.hasIntMsg, p.msg, p.buffer.m, p.buffer.owner)
  }

  /** The values that stand for `a`, for a process whose latest buffer is `buffer`. */
  ghost function FieldsFor(a: Proc, pid: nat, buffer: MessageBuffer, n: nat): Fields {
    Fields(FlagsOf(a.status), RecvFromOf(a.status, n), SendToOf(a.status, n), a.intr,
           if a.status.Ready? then null else buffer, a.buf, pid)
  }

  ghost predicate Represents(p: Process, a: Proc, n: nat)
    reads p`flags, p`msg, p`recvFrom, p`sendTo, p`hasIntMsg, p`buffer, p.buffer`m
  {
    FieldsOf(p) == FieldsFor(a, p.pid, p.buffer, n)
  }

  /** p_flags is 0, SENDING or RECEIVING, and it decides which other fields are set. */
  lemma FlagsDecideFields(p: Process, a: Proc, n: nat)
    requires Represents(p, a, n) && StatusInRange(a.status, p.pid, n)
    ensures p.flags == 0 || p.flags == SENDING || p.flags == RECEIVING
    ensures p.flags == 0 <==> p.msg == null
    ensures p.flags == SENDING <==> p.sendTo != NoTask(n)
    ensures p.flags == SENDING ==> 0 <= p.sendTo < n && p.sendTo != p.pid
    ensures p.flags == RECEIVING <==> p.recvFrom != NoTask(n)
    ensures p.flags == RECEIVING ==>
              p.recvFrom == Any(n) || p.recvFrom == INTERRUPT || (0 <= p.recvFrom < n && p.recvFrom != p.pid)
  {
    match a.status
    case Ready =>
    case Sending(d) => assert d < n;
    case Receiving(src) => assert SourceInRange(src, p.pid, n);
  }

  // ---------------------------------------------------------------- what the asserts say

  /** Neither sending nor receiving, in all the fields that the asserts look at. */
  predicate Rests(p: Process, n: nat)
    reads p`flags, p`msg, p`recvFrom, p`sendTo
  {
    p.flags == 0 && p.msg == null && p.recvFrom == NoTask(n) && p.sendTo == NoTask(n)
  }

  /** Blocked sending to `dest`. */
  predicate BlockedSending(p: Process, dest: int, n: nat)
    reads p`flags, p`msg, p`recvFrom, p`sendTo
  {
    p.flags == SENDING && p.msg != null && p.recvFrom == NoTask(n) && p.sendTo == dest
  }

  /** Blocked receiving. */
  predicate BlockedReceiving(p: Process, n: nat)
    reads p`flags, p`msg, p`recvFrom, p`sendTo
  {
    p.flags == RECEIVING && p.msg != null && p.recvFrom != NoTask(n) && p.sendTo == NoTask(n)
  }

  /** An object that stands for a process meets the asserts about the status of that process. */
  lemma AssertsHold(p: Process, a: Proc, n: nat)
    requires Represents(p, a, n) && StatusInRange(a.status, p.pid, n)
    ensures a.status.Ready? ==> Rests(p, n)
    ensures a.status.Sending? ==> BlockedSending(p, a.status.dest, n)
    ensures a.status.Receiving? ==> BlockedReceiving(p, n)
  {
  }

  lemma EntryAssertsHold(procs: Table, c: Ipc, i: nat)
    requires EntriesShow(procs, c) && i < |procs|
    requires StatusInRange(c.procs[i].status, i, |procs|)
    ensures c.procs[i].status.Ready? ==> Rests(procs[i], |procs|)
    ensures c.procs[i].status.Sending? ==> BlockedSending(procs[i], c.procs[i].status.dest, |procs|)
    ensures c.procs[i].status.Receiving? ==> BlockedReceiving(procs[i], |procs|)
  {
    AssertsHold(procs[i], c.procs[i], |procs|);
  }

  // ---------------------------------------------------------------- threaded queues

  /** The table is indexed by pid, so different entries are different objects. */
  ghost predicate Indexed(procs: seq<Process>) {
    forall i :: 0 <= i < |procs| ==> procs[i].pid == i
  }

  type Table = procs: seq<Process> | Indexed(procs) witness []

  ghost function Ptr(procs: Table, p: Option<nat>): Process? {
    if p.Some? && p.value < |procs| then procs[p.value] else null
  }

  ghost predicate Linked(procs: Table, l: Links)
    reads procs`qSending, procs`nextSending
  {
    && |l.head| == |l.next| == |procs|
    && (forall i :: 0 <= i < |procs| ==>
          procs[i].qSending == Ptr(procs, l.head[i]) && procs[i].nextSending == Ptr(procs, l.next[i]))
  }

  /** Following nextSending from qSending of `r` visits exactly queue `r`, in order. */
  ghost predicate Threaded(procs: Table, c: Ipc)
    reads procs`qSending, procs`nextSending
  {
    Linked(procs, LinksOf(c))
  }

  /** Every entry of the table stands for the entry of `c`. */
  ghost predicate EntriesShow(procs: Table, c: Ipc)
    reads procs`flags, procs`msg, procs`recvFrom, procs`sendTo, procs`hasIntMsg,
          procs`buffer, BuffersOf(procs)`m
  {
    && |c.procs| == |procs|
    && (forall i :: 0 <= i < |procs| ==> Represents(procs[i], c.procs[i], |procs|))
  }

  /** What an entry that stands for a process tells without its other fields. */
  lemma EntryFields(procs: Table, c: Ipc, i: nat)
    requires EntriesShow(procs, c) && i < |procs|
    ensures |c.procs| == |procs| && (procs[i].hasIntMsg <==> c.procs[i].intr)
  {
    assert Represents(procs[i], c.procs[i], |procs|);
  }

  /** The objects of the table stand for `c`. */
  ghost predicate Shows(procs: Table, c: Ipc)
    reads procs`flags, procs`msg, procs`recvFrom, procs`sendTo, procs`hasIntMsg,
          procs`qSending, procs`nextSending, procs`buffer, BuffersOf(procs)`m
  {
    EntriesShow(procs, c) && Threaded(procs, c)
  }

  ghost function BuffersOf(procs: Table): set<MessageBuffer>
    reads procs`buffer
  {
    set i | 0 <= i < |procs| :: procs[i].buffer
  }
}
