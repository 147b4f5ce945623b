/** What a blocked sender, and a task with a pending interrupt, can rely on over whole runs. */
module Waiting {
  import opened Options
  import opened Messages
  import opened Rendezvous
  import opened KernelSystem

  // ---------------------------------------------------------------- no overtaking

  /** In state `s` the step makes `r` take the head of its queue with a RECEIVE from ANY. */
  ghost predicate TakesHead(s: State, step: Step, r: nat)
    requires Inv(s)
  {
    && step.ReceiveStep? && step.src == AnyProc && s.current == r && !s.halted
    && !s.ipc.procs[r].intr && s.ipc.queues[r] != []
  }

  ghost function HeadsTaken(ss: seq<State>, steps: seq<Step>, r: nat): nat
    requires IsRun(ss, steps)
    decreases |steps|
  {
    if steps == [] then 0
    else
      var n := |steps| - 1;
      RunPrefix(ss, steps, n);
      HeadsTaken(ss[..n + 1], steps[..n], r) + if TakesHead(ss[n], steps[n], r) then 1 else 0
  }

  /**
   The discipline of a queue: a step leaves it alone, or the current process joins at the end,
   or its owner removes one entry and keeps the order of the others; a RECEIVE from ANY that
   takes a message removes the head.
   */
  lemma QueueDiscipline(s: State, step: Step, r: nat)
    requires Inv(s) && Enabled(s, step) && r < |s.ipc.queues|
    ensures |Apply(s, step).ipc.queues| == |s.ipc.queues|
    ensures var q, q' := s.ipc.queues[r], Apply(s, step).ipc.queues[r];
            if TakesHead(s, step, r) then q' == q[1..]
            else
              || q' == q
              || (step.SendStep? && step.dest == r && q' == q + [s.current])
              || (step.ReceiveStep? && step.src.From? && s.current == r && step.src.pid in q
                  && q' == Remove(q, step.src.pid))
  {
    if step.ReceiveStep? && s.current == r {
      if !TakesInterrupt(s.ipc, r, step.src) && Candidate(s.ipc, r, step.src).Some? {
        CandidateQueued(s.ipc, r, step.src);
        if step.src == AnyProc {
          assert Remove(s.ipc.queues[r], s.ipc.queues[r][0]) == s.ipc.queues[r][1..];
        }
      }
    }
  }

  lemma IndexAfterRemove(q: seq<nat>, x: nat, p: nat)
    requires x in q && p in Remove(q, x) && p != x
    ensures p in q && IndexOf(Remove(q, x), p) <= IndexOf(q, p)
    ensures q[0] == x ==> IndexOf(Remove(q, x), p) < IndexOf(q, p)
  {
    var k, r := IndexOf(q, x), Remove(q, x);
    var j := IndexOf(r, p);
    assert r[j] == if j < k then q[j] else q[j + 1];
    var i := IndexOf(q, p);
    assert i != k;
    assert r[if i < k then i else i - 1] == p;
  }

  /** One step brings a waiting sender no further back, and closer when the head is taken. */
  lemma PositionStep(s: State, step: Step, r: nat, p: nat)
    requires Inv(s) && Enabled(s, step) && r < |s.ipc.queues| && p in s.ipc.queues[r]
    requires r < |Apply(s, step).ipc.queues| && p in Apply(s, step).ipc.queues[r]
    ensures IndexOf(Apply(s, step).ipc.queues[r], p) + (if TakesHead(s, step, r) then 1 else 0)
            <= IndexOf(s.ipc.queues[r], p)
  {
    var q, q' := s.ipc.queues[r], Apply(s, step).ipc.queues[r];
    QueueDiscipline(s, step, r);
    assert QueueExact(s.ipc, r);
    if TakesHead(s, step, r) {
      assert Remove(q, q[0]) == q[1..];
      assert p != q[0] by {
        RemoveMembers(q, q[0]);
      }
      IndexAfterRemove(q, q[0], p);
    } else if step.SendStep? && step.dest == r && q' == q + [s.current] {
      var i := IndexOf(q, p);
      assert q'[i] == p;
    } else if step.ReceiveStep? && step.src.From? && s.current == r && step.src.pid in q {
      if q' == Remove(q, step.src.pid) {
        RemoveMembers(q, step.src.pid);
        IndexAfterRemove(q, step.src.pid, p);
      }
    }
  }

  lemma {:induction false} PositionOverRun(ss: seq<State>, steps: seq<Step>, r: nat, p: nat)
    requires IsRun(ss, steps)
    requires forall i :: 0 <= i < |ss| ==> r < |ss[i].ipc.queues| && p in ss[i].ipc.queues[r]
    ensures IndexOf(ss[|steps|].ipc.queues[r], p) + HeadsTaken(ss, steps, r) <= IndexOf(ss[0].ipc.queues[r], p)
    decreases |steps|
  {
    if steps != [] {
      var n := |steps| - 1;
      RunPrefix(ss, steps, n);
      PositionOverRun(ss[..n + 1], steps[..n], r, p);
      assert ss[..n + 1][n] == ss[n] && ss[n + 1] == Apply(ss[n], steps[n]);
      PositionStep(ss[n], steps[n], r, p);
    }
  }

  /**
   No overtaking: once `r` has taken k + 1 messages with RECEIVE from ANY, the sender that was
   at position k of its queue has been served.
   */
  lemma NoOvertaking(ss: seq<State>, steps: seq<Step>, r: nat, p: nat)
    requires IsRun(ss, steps) && r < |ss[0].ipc.queues| && p in ss[0].ipc.queues[r]
    requires HeadsTaken(ss, steps, r) >= IndexOf(ss[0].ipc.queues[r], p) + 1
    ensures exists i :: 0 <= i < |ss| && r < |ss[i].ipc.queues| && p !in ss[i].ipc.queues[r]
  {
    forall i | 0 <= i < |ss| ensures |ss[i].ipc.queues| == |ss[0].ipc.queues| {
      SameSize(ss, steps, i);
    }
    if forall i :: 0 <= i < |ss| ==> p in ss[i].ipc.queues[r] {
      PositionOverRun(ss, steps, r, p);
    }
  }

  lemma {:induction false} SameSize(ss: seq<State>, steps: seq<Step>, n: nat)
    requires IsRun(ss, steps) && n <= |steps|
    ensures |ss[n].ipc.queues| == |ss[0].ipc.queues| == |ss[n].ipc.procs|
  {
    if n > 0 {
      SameSize(ss, steps, n - 1);
      StepInv(ss[n - 1], steps[n - 1]);
    }
  }

  // ---------------------------------------------------------------- interrupts

  /** The step is a receive by `t` that an interrupt may answer. */
  ghost predicate ListensForInterrupt(s: State, step: Step, t: nat) {
    s.current == t && step.ReceiveStep? && !step.src.From?
  }

  /** An interrupt wakes its task if the task listens; otherwise it is left pending. */
  lemma InformPromise(s: State, t: nat)
    requires Inv(s) && Enabled(s, InformStep(t))
    ensures var p, p' := s.ipc.procs[t], Apply(s, InformStep(t)).ipc.procs[t];
            if p.status.Receiving? && !p.status.src.From?
            then p'.status.Ready? && p'.buf == p.buf.(source := INTERRUPT, mtype := HARD_INT) && !p'.intr
            else p' == p.(intr := true)
  {
  }

  /** A pending interrupt stays pending until its task listens. */
  lemma PendingStep(s: State, step: Step, t: nat)
    requires Inv(s) && Enabled(s, step) && t < |s.ipc.procs| && s.ipc.procs[t].intr
    requires !ListensForInterrupt(s, step, t)
    ensures t < |Apply(s, step).ipc.procs| && Apply(s, step).ipc.procs[t].intr
  {
    hide Tick, LoadOf, Edges, TtyRuns;
    assert NothingMissed(s.ipc, t);
  }

  lemma {:induction false} PendingStays(ss: seq<State>, steps: seq<Step>, t: nat, n: nat)
    requires IsRun(ss, steps) && t < |ss[0].ipc.procs| && ss[0].ipc.procs[t].intr && n <= |steps|
    requires forall i :: 0 <= i < n ==> !ListensForInterrupt(ss[i], steps[i], t)
    ensures t < |ss[n].ipc.procs| && ss[n].ipc.procs[t].intr
  {
    if n > 0 {
      PendingStays(ss, steps, t, n - 1);
      PendingStep(ss[n - 1], steps[n - 1], t);
    }
  }

  /**
   A task that listens while an interrupt is pending is given the interrupt at once: the call
   returns, and nothing else has changed.
   */
  lemma ListenTakesPending(s: State, step: Step, t: nat)
    requires Inv(s) && Enabled(s, step) && ListensForInterrupt(s, step, t)
    requires t < |s.ipc.procs| && s.ipc.procs[t].intr
    ensures Apply(s, step) == s.(ipc := s.ipc.(procs := s.ipc.procs[t := Proc(Ready, INTERRUPT_MESSAGE, false)]))
  {
  }

  /**
   Interrupts are coalesced but never lost: one that found its task not listening is still
   pending in every later state, until the task's next RECEIVE from ANY or INTERRUPT; that call
   is answered at once with the interrupt message, ahead of every queued sender.
   */
  lemma PendingUntilHeard(ss: seq<State>, steps: seq<Step>, t: nat, n: nat)
    requires IsRun(ss, steps) && t < |ss[0].ipc.procs| && ss[0].ipc.procs[t].intr && n < |steps|
    requires forall i :: 0 <= i < n ==> !ListensForInterrupt(ss[i], steps[i], t)
    ensures t < |ss[n].ipc.procs| && ss[n].ipc.procs[t].intr
    ensures ListensForInterrupt(ss[n], steps[n], t) ==>
              && t < |ss[n + 1].ipc.procs|
              && ss[n + 1].ipc.procs[t] == Proc(Ready, INTERRUPT_MESSAGE, false)
              && ss[n + 1].ipc.queues == ss[n].ipc.queues && ss[n + 1].current == t
  {
    PendingStays(ss, steps, t, n);
    if ListensForInterrupt(ss[n], steps[n], t) {
      ListenTakesPending(ss[n], steps[n], t);
    }
  }

  /** Nothing but a delivery touches the buffer of a blocked receiver. */
  lemma BlockedBuffer(s: State, step: Step, t: nat)
    requires Inv(s) && Enabled(s, step) && t < |s.ipc.procs| && s.ipc.procs[t].status.Receiving?
    ensures t < |Apply(s, step).ipc.procs|
    ensures var p, p' := s.ipc.procs[t], Apply(s, step).ipc.procs[t];
            p'.status.Receiving? ==> p'.status == p.status && p'.buf == p.buf
  {
    if step.ReceiveStep? && !TakesInterrupt(s.ipc, s.current, step.src)
       && Candidate(s.ipc, s.current, step.src).Some? {
      CandidateQueued(s.ipc, s.current, step.src);
    }
  }

  lemma {:induction false} BlockedBufferStays(ss: seq<State>, steps: seq<Step>, t: nat, a: nat, b: nat)
    requires IsRun(ss, steps) && a <= b <= |steps|
    requires forall i :: a <= i <= b ==> t < |ss[i].ipc.procs| && ss[i].ipc.procs[t].status.Receiving?
    ensures ss[b].ipc.procs[t].status == ss[a].ipc.procs[t].status
    ensures ss[b].ipc.procs[t].buf == ss[a].ipc.procs[t].buf
    decreases b
  {
    hide Apply, Inv, Enabled;
    if a < b {
      BlockedBufferStays(ss, steps, t, a, b - 1);
      RunStep(ss, steps, b - 1);
      BlockedBuffer(ss[b - 1], steps[b - 1], t);
    }
  }

  /**
   Without one pending, the task that called send_recv(RECEIVE) with ANY or INTERRUPT, which
   clears the buffer first, waits; an interrupt after any wait leaves the very message of an
   interrupt that was pending.
   */
  lemma LaterInterruptMessage(ss: seq<State>, steps: seq<Step>, t: nat, n: nat)
    requires IsRun(ss, steps) && 0 < n < |steps| && t < |ss[0].ipc.procs|
    requires ListensForInterrupt(ss[0], steps[0], t) && steps[0].m == ZERO_MESSAGE
    requires forall i :: 1 <= i <= n ==> t < |ss[i].ipc.procs| && ss[i].ipc.procs[t].status.Receiving?
    requires steps[n] == InformStep(t)
    ensures t < |ss[n + 1].ipc.procs|
    ensures ss[n + 1].ipc.procs[t] == Proc(Ready, INTERRUPT_MESSAGE, false)
  {
    assert ss[1] == Apply(ss[0], ReceiveStep(steps[0].src, ZERO_MESSAGE));
    FirstReceive(ss[0], steps[0].src, t);
    BlockedBufferStays(ss, steps, t, 1, n);
    assert ss[n + 1] == Apply(ss[n], InformStep(t));
    InformPromise(ss[n], t);
  }

  lemma FirstReceive(s: State, src: Source, t: nat)
    requires Inv(s) && Enabled(s, ReceiveStep(src, ZERO_MESSAGE)) && s.current == t
    requires !src.From?
    requires var s' := Apply(s, ReceiveStep(src, ZERO_MESSAGE)); t < |s'.ipc.procs| && s'.ipc.procs[t].status.Receiving?
    ensures Apply(s, ReceiveStep(src, ZERO_MESSAGE)).ipc.procs[t] ==
              Proc(Receiving(src), Stamped(ZERO_MESSAGE, t), false)
  {
    if Candidate(s.ipc, t, src).Some? {
      CandidateQueued(s.ipc, t, src);
    }
  }

  // ---------------------------------------------------------------- the assert after block()

  /**
   msg_receive ends with an assert that a process which had to block has no interrupt pending.
   It holds exactly when the call listens to interrupts or none was pending before.
   */
  lemma PendingAfterBlocking(s: State, src: Source, m: Message)
    requires Inv(s) && Enabled(s, ReceiveStep(src, m))
    ensures var p' := Receive(s.ipc, s.current, src, m).procs[s.current];
            p'.status.Receiving? ==> (!p'.intr <==> !src.From? || !s.ipc.procs[s.current].intr)
  {
    if Candidate(s.ipc, s.current, src).Some? {
      CandidateQueued(s.ipc, s.current, src);
    }
  }

  /** So it fails for a task that is informed and then receives from a process that sends nothing. */
  lemma PendingAfterBlockingFails(s: State, p: nat, m: Message)
    requires Inv(s) && Enabled(s, ReceiveStep(From(p), m)) && !s.ipc.procs[p].status.Sending?
    ensures Inv(Apply(s, InformStep(s.current)))
    ensures var t := Apply(s, InformStep(s.current));
            && t.current == s.current && Enabled(t, ReceiveStep(From(p), m))
            && Receive(t.ipc, t.current, From(p), m).procs[t.current].status.Receiving?
            && Receive(t.ipc, t.current, From(p), m).procs[t.current].intr
  {
    StepInv(s, InformStep(s.current));
  }
}
