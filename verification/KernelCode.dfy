/**
 kernel/proc.c and clock_handler of kernel/clock.c on the process table, with their loops and
 pointer updates; every method is tied to the step of KernelSystem that it performs.
 */
module KernelCode {
  import opened Messages
  import opened WaitGraph
  import opened Rendezvous
  import opened Scheduling
  import opened QueueLinks
  import opened KernelSystem
  import opened ProcTable
  import opened Transfer
  import opened IpcCode

  /** Where the wall clock counter starts over (include/time.h). */
  const MAX_TICKS: nat := 0x7FFF_ABCD

  /** p_flags tells who can run. */
  ghost predicate FlagsShow(procs: Table, ready: seq<bool>)
    reads procs`flags
  {
    |ready| == |procs| && forall i :: 0 <= i < |procs| ==> (procs[i].flags == 0 <==> ready[i])
  }

  lemma EntriesShowFlags(procs: Table, c: Ipc)
    requires EntriesShow(procs, c)
    ensures FlagsShow(procs, ReadyOf(c))
  {
    forall i | 0 <= i < |procs| ensures procs[i].flags == 0 <==> ReadyOf(c)[i] {
      assert Represents(procs[i], c.procs[i], |procs|);
    }
  }

  /** The state that kernel_main sets up. */
  ghost function InitialState(prio: seq<nat>): State {
    State(Ipc(seq(|prio|, i => Proc(Ready, ZERO_MESSAGE, false)), seq(|prio|, i => [])),
          prio, prio, TASK_TTY, false)
  }

  /** The loop of kernel_main: everybody runnable with full ticks, nobody in a queue. */
  method NewTable(prio: seq<nat>) returns (table: Table)
    ensures |table| == |prio| && fresh(table)
    ensures forall i :: 0 <= i < |table| ==>
              table[i].ticks == table[i].priority == prio[i] && fresh(table[i].buffer)
    ensures EntriesShow(table, InitialState(prio).ipc)
    ensures Threaded(table, InitialState(prio).ipc)
  {
    table := [];
    var n := |prio|;
    while |table| < n
      invariant |table| <= n && fresh(table)
      invariant forall i :: 0 <= i < |table| ==>
        && table[i].ticks == table[i].priority == prio[i] && fresh(table[i].buffer)
        && table[i].qSending == table[i].nextSending == null
      invariant forall i :: 0 <= i < |table| ==>
        Represents(table[i], Proc(Ready, ZERO_MESSAGE, false), n)
    {
      var b := new MessageBuffer(ZERO_MESSAGE, |table|);
      var p := new Process(|table|, prio[|table|], NoTask(n), b);
      table := table + [p];
    }
    LinksAt(InitialState(prio).ipc);
  }

  // ---------------------------------------------------------------- sys_sendrec

  /** The arguments of a sendrec call ask for this step. */
  ghost predicate AsksFor(step: Step, call: int, srcDest: int, m: Message, n: nat) {
    match step
    case SendStep(dest, mm) => call == SEND && srcDest == dest && mm == m
    case ReceiveStep(src, mm) => call == RECEIVE && srcDest == Code(src, n) && mm == m
    case _ => false
  }

  /** The process table at the end of a sendrec call of `me`, before anybody is rescheduled. */
  ghost function Called(c: Ipc, me: nat, step: Step): Ipc
    requires Coherent(c) && IsReady(c, me)
    requires step.SendStep? ==> step.dest < |c.procs| && step.dest != me
    requires step.ReceiveStep? ==> SourceInRange(step.src, me, |c.procs|)
  {
    match step
    case SendStep(dest, m) =>
      (match Send(c, me, dest, m)
       case Deadlock => Present(c, me, m)
       case Sent(d) => d)
    case ReceiveStep(src, m) => Receive(c, me, src, m)
    case _ => c
  }

  /** Serving the call from the table in which the message is already stamped. */
  lemma CalledFromPresent(c: Ipc, me: nat, m: Message)
    requires Coherent(c) && IsReady(c, me)
    ensures Coherent(Present(c, me, m)) && LinksOf(Present(c, me, m)) == LinksOf(c)
    ensures forall dest: nat :: dest < |c.procs| && dest != me ==>
              Send(Present(c, me, m), me, dest, Stamped(m, me)) == Send(c, me, dest, m)
    ensures forall src :: SourceInRange(src, me, |c.procs|) ==>
              Receive(Present(c, me, m), me, src, Stamped(m, me)) == Receive(c, me, src, m)
  {
    PresentAbsorbed(c, me, m);
    var d := Present(c, me, m);
    LinksSame(c, d);
    forall dest: nat | dest < |c.procs| && dest != me
      ensures Send(d, me, dest, Stamped(m, me)) == Send(c, me, dest, m)
    {
      assert Send(d, me, dest, Stamped(m, me)) == Send(d, me, dest, m);
    }
    forall src | SourceInRange(src, me, |c.procs|)
      ensures Receive(d, me, src, Stamped(m, me)) == Receive(c, me, src, m)
    {
      assert Receive(d, me, src, Stamped(m, me)) == Receive(d, me, src, m);
    }
  }

  /** sys_sendrec with SEND, from the table `d` in which the message is stamped. */
  method StampAndSend(procs: Table, me: nat, dest: nat, m: MessageBuffer, ghost c: Ipc, ghost d: Queued)
    returns (o: Outcome)
    requires EntriesShow(procs, c) && me < |c.procs| && d == Present(c, me, m.m)
    requires Threaded(procs, d) && Grounded(Edges(d))
    requires IsReady(c, me) && dest < |procs| && dest != me && m.owner == me
    modifies m`m, procs`flags, procs`msg, procs`recvFrom, procs`sendTo, procs`qSending,
             procs`nextSending, {procs[me]}`buffer, procs[dest].buffer`m
    ensures procs[me].buffer == m && m.m.source == me && SameContent(m.m, old(m.m))
    ensures o.Panicked? <==> Send(d, me, dest, Stamped(old(m.m), me)).Deadlock?
    ensures o.Panicked? ==> EntriesShow(procs, d) && Threaded(procs, d)
    ensures !o.Panicked? ==> EntriesShow(procs, Send(d, me, dest, Stamped(old(m.m), me)).ipc)
    ensures !o.Panicked? ==> Threaded(procs, Send(d, me, dest, Stamped(old(m.m), me)).ipc)
    ensures !o.Panicked? ==> (o.Finished? <==> IsReady(Send(d, me, dest, Stamped(old(m.m), me)).ipc, me))
  {
    hide Threaded;
    StampSource(procs, me, m, c);
    o := MsgSend(procs, me, dest, m, d);
  }

  /** sys_sendrec with SEND. */
  method ServeSend(procs: Table, me: nat, dest: nat, m: MessageBuffer, ghost c: Ipc) returns (o: Outcome)
    requires EntriesShow(procs, c) && Threaded(procs, c) && Coherent(c)
    requires me < |procs| && IsReady(c, me) && dest < |procs| && dest != me && m.owner == me
    modifies m`m, procs`flags, procs`msg, procs`recvFrom, procs`sendTo, procs`qSending,
             procs`nextSending, {procs[me]}`buffer, procs[dest].buffer`m
    ensures procs[me].buffer == m && m.m.source == me && SameContent(m.m, old(m.m))
    ensures o.Panicked? <==> Send(c, me, dest, old(m.m)).Deadlock?
    ensures o.Blocked? <==> !IsReady(Called(c, me, SendStep(dest, old(m.m))), me)
    ensures EntriesShow(procs, Called(c, me, SendStep(dest, old(m.m))))
    ensures Threaded(procs, Called(c, me, SendStep(dest, old(m.m))))
  {
    hide Linked;
    ghost var d, e := Present(c, me, m.m), Called(c, me, SendStep(dest, m.m));
    CalledFromPresent(c, me, m.m);
    assert Send(c, me, dest, m.m).Deadlock? ==> e == d;
    assert Send(c, me, dest, m.m).Sent? ==> e == Send(d, me, dest, Stamped(m.m, me)).ipc;
    o := StampAndSend(procs, me, dest, m, c, d);
  }

  /** sys_sendrec with RECEIVE. */
  method ServeReceive(procs: Table, me: nat, code: int, m: MessageBuffer, ghost src: Source, ghost c: Ipc)
    returns (o: Outcome)
    requires EntriesShow(procs, c) && Threaded(procs, c) && Coherent(c)
    requires me < |procs| && IsReady(c, me) && m.owner == me
    requires code == Code(src, |procs|) && SourceInRange(src, me, |procs|)
    modifies m`m, procs`flags, procs`msg, procs`recvFrom, procs`sendTo, procs`hasIntMsg,
             procs`qSending, procs`nextSending, {procs[me]}`buffer
    ensures procs[me].buffer == m
    ensures o.Blocked? ==> m.m.source == me && SameContent(m.m, old(m.m))
    ensures o == if IsReady(Receive(c, me, src, old(m.m)), me) then Finished else Blocked
    ensures EntriesShow(procs, Receive(c, me, src, old(m.m)))
    ensures Threaded(procs, Receive(c, me, src, old(m.m)))
  {
    hide Linked;
    ghost var d, e := Present(c, me, m.m), Receive(c, me, src, m.m);
    CalledFromPresent(c, me, m.m);
    assert e == Receive(d, me, src, Stamped(m.m, me));
    StampSource(procs, me, m, c);
    o := MsgReceive(procs, me, code, m, src, d);
  }

  /** A SEND step in terms of the table that serving the call leaves. */
  lemma ApplySend(s: State, dest: nat, m: Message)
    requires Inv(s) && Enabled(s, SendStep(dest, m))
    ensures var t := s.(ipc := Called(s.ipc, s.current, SendStep(dest, m)));
            && |t.ipc.procs| == |s.ipc.procs| && CpuInv(t.(current := TASK_TTY)) && LoadOf(t).CanRun()
            && Apply(s, SendStep(dest, m)).ipc == t.ipc
            && StatusInRange(t.ipc.procs[s.current].status, s.current, |t.ipc.procs|)
            && (!IsReady(t.ipc, s.current) ==> t.ipc.procs[s.current].status == Sending(dest))
            && Apply(s, SendStep(dest, m)) ==
                 if Send(s.ipc, s.current, dest, m).Deadlock? then t.(halted := true)
                 else if IsReady(t.ipc, t.current) then t
                 else Reschedule(t)
  {
    var t := s.(ipc := Called(s.ipc, s.current, SendStep(dest, m)));
    TtyStaysReady(s, SendStep(dest, m));
    TtyCanRun(t);
  }

  /** A RECEIVE step in terms of the table that serving the call leaves. */
  lemma ApplyReceive(s: State, src: Source, m: Message)
    requires Inv(s) && Enabled(s, ReceiveStep(src, m))
    ensures var t := s.(ipc := Receive(s.ipc, s.current, src, m));
            && LoadOf(t).CanRun()
            && Apply(s, ReceiveStep(src, m)).ipc == t.ipc
            && StatusInRange(t.ipc.procs[s.current].status, s.current, |t.ipc.procs|)
            && (!IsReady(t.ipc, s.current) ==> t.ipc.procs[s.current].status == Receiving(src))
            && Apply(s, ReceiveStep(src, m)) ==
                 if IsReady(t.ipc, t.current) then t else Reschedule(t)
  {
    var t := s.(ipc := Receive(s.ipc, s.current, src, m));
    TtyStaysReady(s, ReceiveStep(src, m));
    TtyCanRun(t);
    if Candidate(s.ipc, s.current, src).Some? {
      CandidateQueued(s.ipc, s.current, src);
    }
  }

  /** The process that runs has paid one tick. */
  ghost function Charged(s: State): State
    requires Live(s)
  {
    s.(ticks := s.ticks[s.current := s.ticks[s.current] - 1])
  }

  lemma TickCases(s: State, nested: bool)
    requires CpuInv(s)
    ensures Tick(s, nested).ipc == s.ipc
    ensures !Live(s) ==> Tick(s, nested) == s
    ensures Live(s) && nested ==> Tick(s, nested) == Charged(s)
    ensures Live(s) ==> LoadOf(Charged(s)).CanRun()
    ensures Live(s) && !nested ==> Tick(s, nested) == Reschedule(Charged(s))
  {
    if Live(s) {
      TtyCanRun(Charged(s));
    }
  }

  /** A step that is no call: an interrupt or a clock tick. */
  lemma ApplyOther(s: State, step: Step)
    requires Inv(s) && Enabled(s, step)
    ensures CpuInv(s)
    ensures step.InformStep? ==>
              && StatusInRange(s.ipc.procs[step.task].status, step.task, |s.ipc.procs|)
              && Apply(s, step) == s.(ipc := Inform(s.ipc, step.task))
    ensures step.TickStep? ==> Apply(s, step) == Tick(s, step.nested) && Tick(s, step.nested).ipc == s.ipc
  {
    if step.TickStep? {
      TickCases(s, step.nested);
    }
  }

  /** The kernel's variables. Methods are told, as a ghost, the state the objects stand for. */
  class Kernel {
    /** proc_table */
    const procs: Table

    /** p_proc_ready: the process that runs, and whose system call is served. */
    var pProcReady: Process

    /** The wall clock counter (`ticks` of kernel/clock.c). */
    var wallClock: nat

    /** Set by panic, which never returns in the source. */
    var panicked: bool

    /** kernel_main */
    constructor (prio: seq<nat>)
      requires prio != [] && prio[TASK_TTY] > 0
      ensures Init(InitialState(prio)) && StandsFor(InitialState(prio))
      ensures fresh(procs) && fresh(BuffersOf(procs))
    {
      var table := NewTable(prio);
      procs, pProcReady, panicked, wallClock := table, table[TASK_TTY], false, 0;
    }

    /** The processor time accounts. */
    ghost predicate TicksShow(ticks: seq<nat>, priority: seq<nat>)
      reads procs`ticks, procs`priority
    {
      && |ticks| == |priority| == |procs|
      && (forall i :: 0 <= i < |procs| ==> procs[i].ticks == ticks[i] && procs[i].priority == priority[i])
    }

    /** The variables that schedule() and clock_handler() work on stand for those of `s`. */
    ghost predicate CpuShows(s: State)
      reads this`pProcReady, this`panicked, procs`ticks, procs`priority
    {
      && s.current < |procs| && procs[s.current] == pProcReady
      && panicked == s.halted
      && TicksShow(s.ticks, s.priority)
    }

    /** The objects stand for the abstract state `s`. */
    ghost predicate StandsFor(s: State)
      reads this`pProcReady, this`panicked, procs, BuffersOf(procs)`m
    {
      CpuShows(s) && EntriesShow(procs, s.ipc) && Threaded(procs, s.ipc)
    }

    // -------------------------------------------------------------- schedule

    /** The scan of schedule() over the whole table; 0 when nobody runnable has ticks left. */
    method FindGreatest(ghost s: State, ghost ready: seq<bool>) returns (greatest: nat)
      requires CpuShows(s) && FlagsShow(procs, ready)
      modifies this`pProcReady
      ensures greatest == 0 <==> Exhausted(ready, s.ticks)
      ensures greatest == 0 ==> pProcReady == old(pProcReady)
      ensures greatest != 0 ==> pProcReady.pid < |procs| && procs[pProcReady.pid] == pProcReady
                                && IsChoice(ready, s.ticks, pProcReady.pid)
    {
      greatest := 0;
      for i := 0 to |procs|
        invariant var b := Scan(ready, s.ticks, i);
                  if b == -1 then greatest == 0 && pProcReady == old(pProcReady)
                  else greatest == s.ticks[b] && greatest > 0 && pProcReady == procs[b]
      {
        var p := procs[i];
        if p.flags == 0 {
          if p.ticks > greatest {
            greatest := p.ticks;
            pProcReady := p;
          }
        }
      }
      ScanFindsChoice(ready, s.ticks);
    }

    /** The second loop of schedule(): new ticks for everybody who can run. */
    method RefillTicks(ghost s: State, ghost ready: seq<bool>)
      requires CpuShows(s) && FlagsShow(procs, ready)
      modifies procs`ticks
      ensures CpuShows(s.(ticks := Refill(Load(ready, s.ticks, s.priority))))
    {
      ghost var after := Refill(Load(ready, s.ticks, s.priority));
      for i := 0 to |procs|
        invariant forall j :: 0 <= j < |procs| ==>
          procs[j].ticks == if j < i then after[j] else s.ticks[j]
      {
        var p := procs[i];
        if p.flags == 0 {
          p.ticks := p.priority;
        }
      }
    }

    /** schedule(): at most two rounds when somebody runnable has a positive priority. */
    method Schedule(ghost s: State)
      requires CpuShows(s) && FlagsShow(procs, ReadyOf(s.ipc)) && LoadOf(s).CanRun()
      modifies this`pProcReady, procs`ticks
      ensures CpuShows(Reschedule(s))
    {
      ghost var l := LoadOf(s);
      ghost var t := s;
      var greatest := 0;
      ghost var rounds := 0;
      while greatest == 0
        invariant rounds <= 2 && (greatest == 0 ==> rounds <= 1)
        invariant t == s.(ticks := if rounds == 0 then s.ticks else ScheduledTicks(l), current := t.current)
        invariant CpuShows(t)
        invariant rounds == 1 && greatest == 0 ==> Exhausted(l.ready, l.ticks)
        invariant greatest != 0 ==> rounds > 0 && IsChoice(l.ready, t.ticks, t.current)
        decreases 2 - rounds
      {
        greatest := FindGreatest(t, l.ready);
        t := t.(current := pProcReady.pid);
        if greatest == 0 {
          if rounds == 1 {
            RefillStuckIff(l);
          }
          RefillTicks(t, l.ready);
          t := t.(ticks := Refill(Load(l.ready, t.ticks, t.priority)));
        }
        rounds := rounds + 1;
      }
      ScanFindsChoice(l.ready, t.ticks);
    }

    /** clock_handler: the process that runs pays one tick. */
    method Charge(ghost s: State)
      requires CpuShows(s) && pProcReady.ticks > 0
      modifies procs`ticks
      ensures Live(s) && CpuShows(Charged(s))
    {
      pProcReady.ticks := pProcReady.ticks - 1;
    }

    /** clock_handler: the wall clock counter goes on, and starts over at MAX_TICKS. */
    method AdvanceClock()
      modifies this`wallClock
      ensures wallClock == if old(wallClock) + 1 >= MAX_TICKS then 0 else old(wallClock) + 1
    {
      wallClock := wallClock + 1;
      if wallClock >= MAX_TICKS {
        wallClock := 0;
      }
    }

    /** clock_handler: charge the process that runs, and reschedule unless the kernel was entered. */
    method ChargeAndSchedule(nested: bool, ghost s: State)
      requires StandsFor(s) && CpuInv(s)
      modifies this`pProcReady, procs`ticks
      ensures CpuShows(Tick(s, nested))
    {
      hide EntriesShow, Threaded, FlagsShow;
      EntriesShowFlags(procs, s.ipc);
      TickCases(s, nested);
      assert Live(s) <==> pProcReady.ticks > 0;
      if pProcReady.ticks == 0 {
        return;
      }
      Charge(s);
      if nested {
        return;
      }
      Schedule(Charged(s));
    }

    /**
     clock_handler(). It writes nothing that StandsFor says about s.ipc, and a tick leaves s.ipc
     alone.
     */
    method ClockHandler(nested: bool, ghost s: State)
      requires StandsFor(s) && CpuInv(s)
      modifies this`pProcReady, this`wallClock, procs`ticks
      ensures CpuShows(Tick(s, nested))
      ensures wallClock == if old(wallClock) + 1 >= MAX_TICKS then 0 else old(wallClock) + 1
    {
      hide CpuShows, Threaded;
      AdvanceClock();
      ChargeAndSchedule(nested, s);
    }

    // -------------------------------------------------------------- sys_sendrec, inform_int

    /** block(): another process runs from here on. */
    method Block(ghost s: State)
      requires CpuShows(s) && LoadOf(s).CanRun() && EntriesShow(procs, s.ipc)
      requires s.current < |procs| && !IsReady(s.ipc, s.current)
      modifies this`pProcReady, procs`ticks
      ensures CpuShows(Reschedule(s))
    {
      assert Represents(procs[s.current], s.ipc.procs[s.current], |procs|);
      assert pProcReady.flags != 0;
      EntriesShowFlags(procs, s.ipc);
      Schedule(s);
    }

    method InformInt(task: nat, ghost s: State)
      requires StandsFor(s) && task < |procs|
      requires StatusInRange(s.ipc.procs[task].status, task, |procs|)
      modifies procs`flags, procs`msg, procs`recvFrom, procs`hasIntMsg, procs[task].buffer`m
      ensures CpuShows(s.(ipc := Inform(s.ipc, task)))
      ensures EntriesShow(procs, Inform(s.ipc, task))
      ensures Threaded(procs, Inform(s.ipc, task))
    {
      hide EntriesShow, Threaded;
      IpcCode.InformInt(procs, task, s.ipc);
    }

    /** Run somebody else after a call that blocked, and stop after one that panicked. */
    method Conclude(o: Outcome, ghost t: State, ghost u: State)
      requires CpuShows(t) && EntriesShow(procs, t.ipc) && Threaded(procs, t.ipc)
      requires !t.halted && t.current < |procs| && LoadOf(t).CanRun()
      requires o.Blocked? <==> !IsReady(t.ipc, t.current)
      requires u == match o
                    case Panicked => t.(halted := true)
                    case Finished => t
                    case Blocked => Reschedule(t)
      modifies this`pProcReady, this`panicked, procs`ticks
      ensures CpuShows(u)
      ensures EntriesShow(procs, u.ipc)
      ensures Threaded(procs, u.ipc)
    {
      hide Threaded;
      if o.Panicked? {
        panicked := true;
      } else if o.Blocked? {
        Block(t);
      }
    }

    /** sys_sendrec with SEND, called by the process that runs. */
    method SysSend(dest: nat, m: MessageBuffer, ghost s: State)
      requires StandsFor(s) && Inv(s) && Enabled(s, SendStep(dest, m.m)) && m.owner == s.current
      modifies this`pProcReady, this`panicked, procs`ticks,
               m`m, procs`flags, procs`msg, procs`recvFrom, procs`sendTo, procs`qSending,
               procs`nextSending, {pProcReady}`buffer, procs[dest].buffer`m
      ensures old(pProcReady).buffer == m && m.m.source == s.current && SameContent(m.m, old(m.m))
      ensures CpuShows(Apply(s, SendStep(dest, old(m.m))))
      ensures EntriesShow(procs, Apply(s, SendStep(dest, old(m.m))).ipc)
      ensures Threaded(procs, Apply(s, SendStep(dest, old(m.m))).ipc)
      ensures !IsReady(Apply(s, SendStep(dest, old(m.m))).ipc, s.current) ==>
                BlockedSending(procs[s.current], dest, |procs|)
    {
      hide EntriesShow, Threaded;
      ghost var t := s.(ipc := Called(s.ipc, s.current, SendStep(dest, m.m)));
      ghost var u := Apply(s, SendStep(dest, m.m));
      ApplySend(s, dest, m.m);
      var o := ServeSend(procs, pProcReady.pid, dest, m, s.ipc);
      Conclude(o, t, u);
      EntryAssertsHold(procs, u.ipc, s.current);
    }

    /** sys_sendrec with RECEIVE, called by the process that runs. */
    method SysReceive(code: int, m: MessageBuffer, ghost src: Source, ghost s: State)
      requires StandsFor(s) && Inv(s) && Enabled(s, ReceiveStep(src, m.m)) && m.owner == s.current
      requires code == Code(src, |procs|)
      modifies this`pProcReady, this`panicked, procs`ticks,
               m`m, procs`flags, procs`msg, procs`recvFrom, procs`sendTo, procs`hasIntMsg,
               procs`qSending, procs`nextSending, {pProcReady}`buffer
      ensures old(pProcReady).buffer == m
      ensures !IsReady(Apply(s, ReceiveStep(src, old(m.m))).ipc, s.current) ==>
                m.m.source == s.current && SameContent(m.m, old(m.m))
      ensures CpuShows(Apply(s, ReceiveStep(src, old(m.m))))
      ensures EntriesShow(procs, Apply(s, ReceiveStep(src, old(m.m))).ipc)
      ensures Threaded(procs, Apply(s, ReceiveStep(src, old(m.m))).ipc)
      ensures !IsReady(Apply(s, ReceiveStep(src, old(m.m))).ipc, s.current) ==>
                BlockedReceiving(procs[s.current], |procs|)
    {
      hide EntriesShow, Threaded;
      ghost var t := s.(ipc := Receive(s.ipc, s.current, src, m.m));
      ghost var u := Apply(s, ReceiveStep(src, m.m));
      ApplyReceive(s, src, m.m);
      var o := ServeReceive(procs, pProcReady.pid, code, m, src, s.ipc);
      Conclude(o, t, u);
      EntryAssertsHold(procs, u.ipc, s.current);
    }

    /** sys_sendrec: `step` is what the arguments ask for, if the function code is known. */
    method SysSendRec(call: int, srcDest: int, m: MessageBuffer, ghost s: State, ghost step: Step)
      requires StandsFor(s) && Inv(s) && Enabled(s, step) && m.owner == s.current
      requires call == SEND || call == RECEIVE ==> AsksFor(step, call, srcDest, m.m, |procs|)
      modifies this`pProcReady, this`panicked, procs`ticks,
               m`m, procs`flags, procs`msg, procs`recvFrom, procs`sendTo, procs`hasIntMsg,
               procs`qSending, procs`nextSending, {pProcReady}`buffer, BuffersOf(procs)`m
      ensures call == SEND || call == RECEIVE ==> old(pProcReady).buffer == m
      ensures call == SEND ==> m.m.source == s.current && SameContent(m.m, old(m.m))
      ensures call == SEND || call == RECEIVE ==> StandsFor(Apply(s, step))
      ensures call != SEND && call != RECEIVE ==> panicked
    {
      hide EntriesShow, Threaded;
      if call == SEND {
        SysSend(srcDest, m, s);
      } else if call == RECEIVE {
        SysReceive(srcDest, m, step.src, s);
      } else {
        panicked := true;
      }
    }

    // -------------------------------------------------------------- runs

    /** One step: a call with a buffer of the caller's own, an interrupt, or a clock tick. */
    method Perform(step: Step, ghost s: State)
      requires StandsFor(s) && Inv(s) && Enabled(s, step)
      modifies this`pProcReady, this`panicked, this`wallClock, procs, BuffersOf(procs)`m
      ensures StandsFor(Apply(s, step))
      ensures forall i :: 0 <= i < |procs| ==> procs[i].buffer == old(procs[i].buffer) || fresh(procs[i].buffer)
    {
      hide EntriesShow, Threaded, Tick;
      match step
      case SendStep(dest, m) =>
        var b := new MessageBuffer(m, pProcReady.pid);
        SysSendRec(SEND, dest, b, s, step);
      case ReceiveStep(src, m) =>
        var b := new MessageBuffer(m, pProcReady.pid);
        SysSendRec(RECEIVE, Code(src, |procs|), b, s, step);
      case InformStep(task) =>
        InformInt(task, s);
      case TickStep(nested) =>
        ApplyOther(s, step);
        ClockHandler(nested, s);
    }

    /** Any run of the transition system, performed on the objects. */
    method Run(steps: seq<Step>, ghost ss: seq<State>)
      requires IsRun(ss, steps) && StandsFor(ss[0])
      modifies this`pProcReady, this`panicked, this`wallClock, procs, BuffersOf(procs)`m
      ensures StandsFor(ss[|steps|])
    {
      hide StandsFor;
      ghost var known := BuffersOf(procs);
      for i := 0 to |steps|
        invariant StandsFor(ss[i])
        invariant forall j :: 0 <= j < |procs| ==> procs[j].buffer in known || fresh(procs[j].buffer)
      {
        RunStep(ss, steps, i);
        Perform(steps[i], ss[i]);
      }
    }
  }
}
