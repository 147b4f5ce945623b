/**
 Exactly-once, authentic, in-order delivery. A log of accepted sends and of receipts is kept
 beside the kernel; receipts record what the receiver finds in its buffer.
 */
module Delivery {
  import opened Options
  import opened Messages
  import opened Rendezvous
  import opened KernelSystem

  /** A send the kernel accepted; its position in the log is its ticket. */
  datatype Letter = Letter(from: nat, to: nat, msg: Message)

  /** A receiver was given the message of a ticket and found `got` in its buffer. */
  datatype Receipt = Receipt(ticket: nat, to: nat, got: Message)

  /** The kernel with its logs; `open` maps each blocked sender to its ticket. */
  datatype Post = Post(s: State, accepted: seq<Letter>, receipts: seq<Receipt>, open: map<nat, nat>)

  ghost predicate PostInit(p: Post) {
    Init(p.s) && p.accepted == [] && p.receipts == [] && p.open == map[]
  }

  ghost function Log(p: Post, step: Step): Post
    requires Inv(p.s) && Enabled(p.s, step)
    requires forall i: nat :: i < |p.s.ipc.procs| && p.s.ipc.procs[i].status.Sending? ==> i in p.open
  {
    var me := p.s.current;
    var c := p.s.ipc;
    var t := Apply(p.s, step);
    match step
    case SendStep(dest, m) =>
      if t.halted then p.(s := t)
      else
        var ticket := |p.accepted|;
        var q := p.(s := t, accepted := p.accepted + [Letter(me, dest, m)]);
        if WaitsFor(c.procs[dest].status, me)
        then q.(receipts := p.receipts + [Receipt(ticket, dest, t.ipc.procs[dest].buf)])
        else q.(open := p.open[me := ticket])
    case ReceiveStep(src, m) =>
      if TakesInterrupt(c, me, src) || Candidate(c, me, src).None? then p.(s := t)
      else
        var s := Candidate(c, me, src).value;
        CandidateQueued(c, me, src);
        p.(s := t,
           receipts := p.receipts + [Receipt(p.open[s], me, t.ipc.procs[me].buf)],
           open := p.open - {s})
    case InformStep(_) => p.(s := t)
    case TickStep(_) => p.(s := t)
  }

  // ---------------------------------------------------------------- invariant of the logs

  /** Exactly the blocked senders have an open ticket. */
  ghost predicate OpenExact(p: Post) {
    forall i: nat :: i in p.open <==> i < |p.s.ipc.procs| && p.s.ipc.procs[i].status.Sending?
  }

  /** An open ticket is its sender's latest letter, and the sender's buffer still holds it. */
  ghost predicate OpenMatches(p: Post)
    requires OpenExact(p)
  {
    forall i: nat :: i in p.open ==>
      && p.open[i] < |p.accepted|
      && p.accepted[p.open[i]].from == i
      && p.s.ipc.procs[i].status == Sending(p.accepted[p.open[i]].to)
      && p.s.ipc.procs[i].buf == Stamped(p.accepted[p.open[i]].msg, i)
      && (forall t: nat :: p.open[i] < t < |p.accepted| ==> p.accepted[t].from != i)
  }

  /** Every receipt belongs to a letter to that receiver and shows the letter's message. */
  ghost predicate ReceiptsMatch(p: Post) {
    forall j :: 0 <= j < |p.receipts| ==>
      var r := p.receipts[j];
      && r.ticket < |p.accepted|
      && r.to == p.accepted[r.ticket].to
      && r.got == Stamped(p.accepted[r.ticket].msg, p.accepted[r.ticket].from)
      && (p.accepted[r.ticket].from in p.open ==> p.open[p.accepted[r.ticket].from] != r.ticket)
  }

  /** Receipts of one sender's letters come in the order of its sends, and never twice. */
  ghost predicate InOrder(p: Post)
    requires ReceiptsMatch(p)
  {
    forall i, j :: 0 <= i < j < |p.receipts|
      && p.accepted[p.receipts[i].ticket].from == p.accepted[p.receipts[j].ticket].from
      ==> p.receipts[i].ticket < p.receipts[j].ticket
  }

  ghost predicate Received(p: Post, t: nat) {
    exists j :: 0 <= j < |p.receipts| && p.receipts[j].ticket == t
  }

  ghost predicate NothingLost(p: Post) {
    forall t: nat :: t < |p.accepted| ==>
      Received(p, t) || (p.accepted[t].from in p.open && p.open[p.accepted[t].from] == t)
  }

  ghost predicate LogInv(p: Post) {
    && OpenExact(p) && OpenMatches(p)
    && ReceiptsMatch(p) && InOrder(p) && NothingLost(p)
  }

  /** What a step that neither blocks, unblocks nor alters a sender leaves alone. */
  lemma LogUntouched(p: Post, t: State)
    requires LogInv(p) && |t.ipc.procs| == |p.s.ipc.procs|
    requires forall i :: 0 <= i < |t.ipc.procs| ==>
               (t.ipc.procs[i].status.Sending? <==> p.s.ipc.procs[i].status.Sending?)
    requires forall i :: 0 <= i < |t.ipc.procs| && t.ipc.procs[i].status.Sending? ==>
               t.ipc.procs[i].status == p.s.ipc.procs[i].status && t.ipc.procs[i].buf == p.s.ipc.procs[i].buf
    ensures LogInv(p.(s := t))
  {
    var q := p.(s := t);
    assert OpenMatches(q);
    forall k: nat | k < |q.accepted| && !(q.accepted[k].from in q.open && q.open[q.accepted[k].from] == k)
      ensures Received(q, k)
    {
      assert Received(p, k);
    }
  }

  /** A new letter is received or waits, and the others are where they were. */
  lemma OneMoreLetter(p: Post, q: Post)
    requires NothingLost(p) && |q.accepted| == |p.accepted| + 1
    requires p.accepted <= q.accepted && p.receipts <= q.receipts
    requires forall i: nat :: i in p.open ==> i in q.open && q.open[i] == p.open[i]
    requires var n := |p.accepted|;
             Received(q, n) || (q.accepted[n].from in q.open && q.open[q.accepted[n].from] == n)
    ensures NothingLost(q)
  {
    forall k: nat | k < |p.accepted| && Received(p, k) ensures Received(q, k) {
      var j :| 0 <= j < |p.receipts| && p.receipts[j].ticket == k;
      assert q.receipts[j].ticket == k;
    }
    forall k: nat | k < |p.accepted| ensures q.accepted[k] == p.accepted[k] {}
  }

  /** A send that blocks opens a new ticket. */
  lemma LogEnqueue(p: Post, q: Post, me: nat, dest: nat, m: Message)
    requires LogInv(p) && me < |p.s.ipc.procs| && !p.s.ipc.procs[me].status.Sending?
    requires |q.s.ipc.procs| == |p.s.ipc.procs|
    requires q.s.ipc.procs[me].status == Sending(dest) && q.s.ipc.procs[me].buf == Stamped(m, me)
    requires forall i :: 0 <= i < |p.s.ipc.procs| && i != me ==> q.s.ipc.procs[i] == p.s.ipc.procs[i]
    requires q.accepted == p.accepted + [Letter(me, dest, m)] && q.receipts == p.receipts
    requires q.open == p.open[me := |p.accepted|]
    ensures LogInv(q)
  {
    hide NothingLost, Received;
    OneMoreLetter(p, q);
    assert OpenExact(q);
    assert OpenMatches(q);
    assert ReceiptsMatch(q);
    assert InOrder(q);
  }

  /** A send that is handed over at once gets a ticket and its receipt. */
  lemma LogHandover(p: Post, q: Post, me: nat, dest: nat, m: Message)
    requires LogInv(p) && me < |p.s.ipc.procs| && !p.s.ipc.procs[me].status.Sending?
    requires |q.s.ipc.procs| == |p.s.ipc.procs|
    requires forall i :: 0 <= i < |p.s.ipc.procs| ==>
               (q.s.ipc.procs[i].status.Sending? <==> p.s.ipc.procs[i].status.Sending?)
    requires forall i :: 0 <= i < |p.s.ipc.procs| && p.s.ipc.procs[i].status.Sending? ==>
               q.s.ipc.procs[i] == p.s.ipc.procs[i]
    requires q.accepted == p.accepted + [Letter(me, dest, m)] && q.open == p.open
    requires q.receipts == p.receipts + [Receipt(|p.accepted|, dest, Stamped(m, me))]
    ensures LogInv(q)
  {
    hide NothingLost;
    assert q.receipts[|p.receipts|].ticket == |p.accepted|;
    OneMoreLetter(p, q);
    assert OpenExact(q);
    assert OpenMatches(q);
    assert ReceiptsMatch(q);
    assert InOrder(q);
  }

  /** `q` is `p` after a receive that took the message of `s`. */
  ghost predicate Taken(p: Post, q: Post, me: nat, s: nat) {
    && s in p.open && me < |p.s.ipc.procs| && s < |p.s.ipc.procs| && s != me
    && |q.s.ipc.procs| == |p.s.ipc.procs|
    && !p.s.ipc.procs[me].status.Sending? && !q.s.ipc.procs[me].status.Sending?
    && !q.s.ipc.procs[s].status.Sending?
    && (forall i :: 0 <= i < |p.s.ipc.procs| && i != s && i != me ==> q.s.ipc.procs[i] == p.s.ipc.procs[i])
    && q.accepted == p.accepted && q.open == p.open - {s}
    && q.receipts == p.receipts + [Receipt(p.open[s], me, p.s.ipc.procs[s].buf)]
  }

  lemma TakenOpen(p: Post, q: Post, me: nat, s: nat)
    requires LogInv(p) && Taken(p, q, me, s)
    ensures OpenExact(q) && OpenMatches(q)
  {
    assert OpenExact(q);
  }

  lemma TakenReceipts(p: Post, q: Post, me: nat, s: nat)
    requires LogInv(p) && Taken(p, q, me, s) && p.s.ipc.procs[s].status == Sending(me)
    ensures ReceiptsMatch(q) && InOrder(q)
  {
    forall j | 0 <= j < |p.receipts| ensures q.receipts[j] == p.receipts[j] {}
    assert ReceiptsMatch(q);
  }

  lemma TakenNothingLost(p: Post, q: Post, me: nat, s: nat)
    requires LogInv(p) && Taken(p, q, me, s)
    ensures NothingLost(q)
  {
    forall k: nat | k < |q.accepted| && !(q.accepted[k].from in q.open && q.open[q.accepted[k].from] == k)
      ensures Received(q, k)
    {
      if k == p.open[s] {
        assert q.receipts[|p.receipts|].ticket == k;
      } else {
        assert Received(p, k);
        var j :| 0 <= j < |p.receipts| && p.receipts[j].ticket == k;
        assert q.receipts[j].ticket == k;
      }
    }
  }

  /** What a send does to the process table, before anybody is rescheduled. */
  lemma SendEffect(s: State, dest: nat, m: Message)
    requires Inv(s) && Enabled(s, SendStep(dest, m))
    ensures var t, r := Apply(s, SendStep(dest, m)), Send(s.ipc, s.current, dest, m);
            && t.halted == r.Deadlock? && |t.ipc.procs| == |s.ipc.procs|
            && t.ipc == if r.Deadlock? then Present(s.ipc, s.current, m) else r.ipc
  {
  }

  lemma SendLogStep(p: Post, dest: nat, m: Message)
    requires Inv(p.s) && Enabled(p.s, SendStep(dest, m)) && LogInv(p)
    ensures LogInv(Log(p, SendStep(dest, m)))
  {
    hide ReceiptsMatch, InOrder, NothingLost, OpenMatches, Apply;
    SendEffect(p.s, dest, m);
    var me, c := p.s.current, p.s.ipc;
    var q := Log(p, SendStep(dest, m));
    if Send(c, me, dest, m).Deadlock? {
      LogUntouched(p, q.s);
    } else if WaitsFor(c.procs[dest].status, me) {
      LogHandover(p, q, me, dest, m);
    } else {
      LogEnqueue(p, q, me, dest, m);
    }
  }

  /** The log entry of a receive that takes a message at once. */
  lemma ReceiveIsTaken(p: Post, src: Source, m: Message, s: nat)
    requires Inv(p.s) && Enabled(p.s, ReceiveStep(src, m)) && OpenExact(p)
    requires !TakesInterrupt(p.s.ipc, p.s.current, src)
    requires Candidate(p.s.ipc, p.s.current, src) == Some(s)
    ensures s < |p.s.ipc.procs| && p.s.ipc.procs[s].status == Sending(p.s.current)
    ensures Taken(p, Log(p, ReceiveStep(src, m)), p.s.current, s)
  {
    var me, c := p.s.current, p.s.ipc;
    CandidateQueued(c, me, src);
    assert Receive(c, me, src, m) == Take(c, me, s);
    assert Apply(p.s, ReceiveStep(src, m)).ipc == Take(c, me, s);
  }

  lemma ReceiveUntouched(p: Post, src: Source, m: Message)
    requires Inv(p.s) && Enabled(p.s, ReceiveStep(src, m)) && LogInv(p)
    requires TakesInterrupt(p.s.ipc, p.s.current, src) || Candidate(p.s.ipc, p.s.current, src).None?
    ensures LogInv(Log(p, ReceiveStep(src, m)))
  {
    LogUntouched(p, Apply(p.s, ReceiveStep(src, m)));
  }

  lemma ReceiveLogStep(p: Post, src: Source, m: Message)
    requires Inv(p.s) && Enabled(p.s, ReceiveStep(src, m)) && LogInv(p)
    ensures LogInv(Log(p, ReceiveStep(src, m)))
  {
    var me := p.s.current;
    if TakesInterrupt(p.s.ipc, me, src) || Candidate(p.s.ipc, me, src).None? {
      ReceiveUntouched(p, src, m);
    } else {
      var q := Log(p, ReceiveStep(src, m));
      var s := Candidate(p.s.ipc, me, src).value;
      ReceiveIsTaken(p, src, m, s);
      TakenOpen(p, q, me, s);
      TakenReceipts(p, q, me, s);
      TakenNothingLost(p, q, me, s);
    }
  }

  lemma LogStep(p: Post, step: Step)
    requires Inv(p.s) && Enabled(p.s, step) && LogInv(p)
    ensures Inv(Log(p, step).s) && LogInv(Log(p, step))
  {
    StepInv(p.s, step);
    match step
    case SendStep(dest, m) => SendLogStep(p, dest, m);
    case ReceiveStep(src, m) => ReceiveLogStep(p, src, m);
    case InformStep(_) => LogUntouched(p, Apply(p.s, step));
    case TickStep(_) => LogUntouched(p, Apply(p.s, step));
  }

  // ---------------------------------------------------------------- whole runs

  /** A run of the kernel with its logs. */
  ghost predicate PostRun(ps: seq<Post>, steps: seq<Step>) {
    && |ps| == |steps| + 1
    && PostInit(ps[0])
    && forall i :: 0 <= i < |steps| ==>
         && Enabled(ps[i].s, steps[i])
         && (Inv(ps[i].s) && OpenExact(ps[i]) ==> ps[i + 1] == Log(ps[i], steps[i]))
  }

  lemma {:induction false} PostRunInv(ps: seq<Post>, steps: seq<Step>, n: nat)
    requires PostRun(ps, steps) && n <= |steps|
    ensures Inv(ps[n].s) && LogInv(ps[n])
  {
    if n == 0 {
      InitInv(ps[0].s);
    } else {
      PostRunInv(ps, steps, n - 1);
      LogStep(ps[n - 1], steps[n - 1]);
    }
  }

  /** The letter of ticket `t` still waits: its sender is in the receiver's queue, once. */
  ghost predicate Waiting(p: Post, t: nat)
    requires Inv(p.s) && t < |p.accepted|
  {
    var l := p.accepted[t];
    && l.from < |p.s.ipc.procs| && l.to < |p.s.ipc.queues|
    && l.from in p.s.ipc.queues[l.to]
    && p.s.ipc.procs[l.from].buf.source == l.from && SameContent(p.s.ipc.procs[l.from].buf, l.msg)
    && l.from in p.open && p.open[l.from] == t
  }

  /**
   In every reachable state each accepted send either still waits in the receiver's queue or
   was received, not both; it is received at most once, by the process it was sent to, with the
   type and payload that the sender gave it and the sender's pid as its source; and two messages
   of one sender are received in the order in which they were sent.
   */
  lemma ExactlyOnceDelivery(ps: seq<Post>, steps: seq<Step>, n: nat)
    requires PostRun(ps, steps) && n <= |steps|
    ensures Inv(ps[n].s) && ReceiptsMatch(ps[n]) && InOrder(ps[n])
    ensures forall j :: 0 <= j < |ps[n].receipts| ==>
              var r := ps[n].receipts[j];
              && r.to == ps[n].accepted[r.ticket].to && r.got.source == ps[n].accepted[r.ticket].from
              && SameContent(r.got, ps[n].accepted[r.ticket].msg)
    ensures forall t: nat :: t < |ps[n].accepted| ==> (Waiting(ps[n], t) <==> !Received(ps[n], t))
    ensures forall i, j :: 0 <= i < j < |ps[n].receipts| ==> ps[n].receipts[i].ticket != ps[n].receipts[j].ticket
  {
    PostRunInv(ps, steps, n);
    var p := ps[n];
    forall t: nat | t < |p.accepted| ensures Waiting(p, t) <==> !Received(p, t) {
      var l := p.accepted[t];
      if l.from in p.open && p.open[l.from] == t {
        assert StatusInRange(p.s.ipc.procs[l.from].status, l.from, |p.s.ipc.procs|);
        assert QueueExact(p.s.ipc, l.to);
      }
    }
  }
}
