/**
 The kernel as a transition system. A step is a sendrec call of the current process, an
 interrupt told to a task, or a clock tick; every call is atomic with respect to the others.
 */
module KernelSystem {
  import opened Options
  import opened Messages
  import opened WaitGraph
  import opened Rendezvous
  import opened Scheduling

  /** The terminal task polls and never calls sendrec, so it is always runnable. */
  const TASK_TTY: nat := 0

  /** `halted` is the panic after a detected deadlock; nothing happens in such a state. */
  datatype State = State(ipc: Ipc, ticks: seq<nat>, priority: seq<nat>, current: nat, halted: bool)

  /** `nested` ticks arrive while the kernel is already entered (k_reenter != 0). */
  datatype Step =
    | SendStep(dest: nat, m: Message)
    | ReceiveStep(src: Source, m: Message)
    | InformStep(task: nat)
    | TickStep(nested: bool)

  ghost function ReadyOf(c: Ipc): (ready: seq<bool>)
    ensures |ready| == |c.procs|
    ensures forall i :: 0 <= i < |ready| ==> ready[i] == c.procs[i].status.Ready?
  {
    seq(|c.procs|, i requires 0 <= i < |c.procs| => c.procs[i].status.Ready?)
  }

  ghost function LoadOf(s: State): Load {
    Load(ReadyOf(s.ipc), s.ticks, s.priority)
  }

  ghost predicate Accounted(s: State) {
    && |s.ticks| == |s.priority| == |s.ipc.procs|
    && (forall i :: 0 <= i < |s.ticks| ==> s.ticks[i] <= s.priority[i])
  }

  /** The terminal task can run, so schedule() always finds somebody. */
  ghost predicate TtyRuns(s: State) {
    IsReady(s.ipc, TASK_TTY) && |s.priority| == |s.ipc.procs| && s.priority[TASK_TTY] > 0
  }

  /** The part of the invariant that schedule() and clock_handler() depend on. */
  ghost predicate CpuInv(s: State) {
    Accounted(s) && TtyRuns(s) && IsReady(s.ipc, s.current)
  }

  ghost predicate Inv(s: State) {
    Coherent(s.ipc) && CpuInv(s)
  }

  /** kernel_main: everybody runnable with full ticks, no queues, the terminal task first. */
  ghost predicate Init(s: State) {
    && |s.ipc.procs| == |s.ipc.queues| == |s.priority| > 0
    && (forall i :: 0 <= i < |s.ipc.procs| ==> s.ipc.procs[i].status.Ready? && !s.ipc.procs[i].intr)
    && (forall i :: 0 <= i < |s.ipc.queues| ==> s.ipc.queues[i] == [])
    && s.ticks == s.priority && s.priority[TASK_TTY] > 0
    && s.current == TASK_TTY && !s.halted
  }

  lemma InitInv(s: State)
    requires Init(s)
    ensures Inv(s) && s.ticks[s.current] > 0
  {
    var c := s.ipc;
    forall r | 0 <= r < |c.queues| ensures QueueExact(c, r) {}
    forall i | 0 <= i < |c.procs| ensures Ends(Edges(c), i) {
      assert Follow(Edges(c), i, 1).None?;
    }
  }

  /** What the source demands of the caller of each kernel entry. */
  ghost predicate Enabled(s: State, step: Step) {
    !s.halted &&
    match step
    case SendStep(dest, _) => s.current != TASK_TTY && dest < |s.ipc.procs| && dest != s.current
    case ReceiveStep(src, _) => s.current != TASK_TTY && SourceInRange(src, s.current, |s.ipc.procs|)
    case InformStep(task) => task < |s.ipc.procs|
    case TickStep(_) => true
  }

  lemma TtyCanRun(s: State)
    requires TtyRuns(s) && |s.ticks| == |s.ipc.procs|
    ensures LoadOf(s).CanRun()
  {
    assert LoadOf(s).ready[TASK_TTY] && LoadOf(s).priority[TASK_TTY] > 0;
  }

  /** schedule(). */
  ghost function Reschedule(s: State): (t: State)
    requires LoadOf(s).CanRun()
    ensures |t.ticks| == |t.ipc.procs| && IsChoice(ReadyOf(t.ipc), t.ticks, t.current)
  {
    s.(ticks := ScheduledTicks(LoadOf(s)), current := Chosen(LoadOf(s)))
  }

  /** block(): the caller is rescheduled when the call left it waiting. */
  ghost function Settle(s: State): State
    requires TtyRuns(s) && |s.ticks| == |s.ipc.procs| && s.current < |s.ipc.procs|
  {
    TtyCanRun(s);
    if s.ipc.procs[s.current].status.Ready? then s else Reschedule(s)
  }

  /** clock_handler(). */
  ghost function Tick(s: State, nested: bool): (t: State)
    requires CpuInv(s)
    ensures CpuInv(t) && t == s.(ticks := t.ticks, current := t.current)
  {
    if s.ticks[s.current] == 0 then s
    else
      var charged := s.(ticks := s.ticks[s.current := s.ticks[s.current] - 1]);
      TtyCanRun(charged);
      if nested then charged else Reschedule(charged)
  }

  /** The effect of one step; its proofs only show that rescheduling is possible. */
  ghost function Apply(s: State, step: Step): State
    requires Inv(s) && Enabled(s, step)
  {
    match step
    case SendStep(dest, m) =>
      (match Send(s.ipc, s.current, dest, m)
       case Deadlock => s.(ipc := Present(s.ipc, s.current, m), halted := true)
       case Sent(c) => TtyStaysReady(s, step); Settle(s.(ipc := c)))
    case ReceiveStep(src, m) =>
      TtyStaysReady(s, step);
      Settle(s.(ipc := Receive(s.ipc, s.current, src, m)))
    case InformStep(task) => s.(ipc := Inform(s.ipc, task))
    case TickStep(nested) => Tick(s, nested)
  }

  /** Only the caller of sendrec can stop being runnable. */
  lemma TtyStaysReady(s: State, step: Step)
    requires Inv(s) && Enabled(s, step)
    ensures step.SendStep? && Send(s.ipc, s.current, step.dest, step.m).Sent? ==>
              forall i :: 0 <= i < |s.ipc.procs| && i != s.current && IsReady(s.ipc, i) ==>
                IsReady(Send(s.ipc, s.current, step.dest, step.m).ipc, i)
    ensures step.SendStep? && Send(s.ipc, s.current, step.dest, step.m).Sent? ==>
              |Send(s.ipc, s.current, step.dest, step.m).ipc.procs| == |s.ipc.procs|
    ensures step.ReceiveStep? ==>
              forall i :: 0 <= i < |s.ipc.procs| && i != s.current && IsReady(s.ipc, i) ==>
                IsReady(Receive(s.ipc, s.current, step.src, step.m), i)
  {
  }

  // ---------------------------------------------------------------- invariance

  lemma SettleInv(s: State, t: State)
    requires CpuInv(s) && TtyRuns(t) && Coherent(t.ipc)
    requires t == s.(ipc := t.ipc) && |t.ipc.procs| == |s.ipc.procs|
    ensures Inv(Settle(t))
  {
    hide Coherent;
    TtyCanRun(t);
  }

  /** Every step keeps the invariant, so the asserts it implies never fail. */
  lemma StepInv(s: State, step: Step)
    requires Inv(s) && Enabled(s, step)
    ensures Inv(Apply(s, step))
  {
    hide QueuesExact, NoMissedRendezvous, Grounded, StatusInRange, Tick, Settle;
    match step
    case SendStep(dest, m) =>
      SendCoherent(s.ipc, s.current, dest, m);
      PresentCoherent(s.ipc, s.current, m);
      TtyStaysReady(s, step);
      if Send(s.ipc, s.current, dest, m).Sent? {
        SettleInv(s, s.(ipc := Send(s.ipc, s.current, dest, m).ipc));
      }
    case ReceiveStep(src, m) =>
      ReceiveCoherent(s.ipc, s.current, src, m);
      TtyStaysReady(s, step);
      SettleInv(s, s.(ipc := Receive(s.ipc, s.current, src, m)));
    case InformStep(task) =>
      InformCoherent(s.ipc, task);
    case TickStep(_) =>
  }

  /**
   A caller that does not have to wait goes on, with the ticks it had, and so does whoever is
   interrupted; only a caller that blocks gives up the CPU, to a process that can run.
   */
  lemma CallerKeepsCpu(s: State, step: Step)
    requires Inv(s) && Enabled(s, step) && !step.TickStep?
    ensures var t := Apply(s, step);
            if t.halted || IsReady(t.ipc, s.current) then t.current == s.current && t.ticks == s.ticks
            else IsReady(t.ipc, t.current) && t.current != s.current
  {
    StepInv(s, step);
    TtyStaysReady(s, step);
  }

  /** A run: ss[0], steps[0], ss[1], steps[1], ..., ss[|steps|]. */
  ghost predicate IsRun(ss: seq<State>, steps: seq<Step>) {
    && |ss| == |steps| + 1
    && Inv(ss[0])
    && forall i :: 0 <= i < |steps| ==>
         Inv(ss[i]) && Enabled(ss[i], steps[i]) && ss[i + 1] == Apply(ss[i], steps[i])
  }

  /** The states a run visits, without asking for the invariant. */
  ghost predicate Visits(ss: seq<State>, steps: seq<Step>) {
    && |ss| == |steps| + 1
    && Init(ss[0])
    && forall i :: 0 <= i < |steps| ==>
         Enabled(ss[i], steps[i]) && (Inv(ss[i]) ==> ss[i + 1] == Apply(ss[i], steps[i]))
  }

  /** The invariant holds in every state of every run from the initial state. */
  lemma {:induction false} ReachableInv(ss: seq<State>, steps: seq<Step>, n: nat)
    requires Visits(ss, steps) && n <= |steps|
    ensures Inv(ss[n])
  {
    if n == 0 {
      InitInv(ss[0]);
    } else {
      ReachableInv(ss, steps, n - 1);
      StepInv(ss[n - 1], steps[n - 1]);
    }
  }

  lemma RunStep(ss: seq<State>, steps: seq<Step>, i: nat)
    requires IsRun(ss, steps) && i < |steps|
    ensures Inv(ss[i]) && Enabled(ss[i], steps[i]) && ss[i + 1] == Apply(ss[i], steps[i])
  {
  }

  lemma RunLastInv(ss: seq<State>, steps: seq<Step>)
    requires IsRun(ss, steps)
    ensures Inv(ss[|steps|])
  {
    if |steps| > 0 {
      StepInv(ss[|steps| - 1], steps[|steps| - 1]);
    }
  }

  lemma VisitsIsRun(ss: seq<State>, steps: seq<Step>)
    requires Visits(ss, steps)
    ensures IsRun(ss, steps)
  {
    forall i | 0 <= i <= |steps| ensures Inv(ss[i]) {
      ReachableInv(ss, steps, i);
    }
  }

  /** Everything but the last step of a run is a run. */
  lemma RunPrefix(ss: seq<State>, steps: seq<Step>, n: nat)
    requires IsRun(ss, steps) && n <= |steps|
    ensures IsRun(ss[..n + 1], steps[..n])
  {
  }

  // ---------------------------------------------------------------- a process keeps the CPU

  /** The current process has ticks left, so the next clock tick reschedules. */
  ghost predicate Live(s: State) {
    s.current < |s.ticks| && s.ticks[s.current] > 0
  }

  /**
   The one way to lose this: a nested tick takes the last tick of the current process, because
   clock_handler then returns before it reaches schedule().
   */
  lemma LiveIff(s: State, step: Step)
    requires Inv(s) && Enabled(s, step) && Live(s)
    ensures Live(Apply(s, step)) <==> !(step == TickStep(true) && s.ticks[s.current] == 1)
  {
    match step
    case SendStep(dest, m) =>
      if Send(s.ipc, s.current, dest, m).Sent? {
        TtyStaysReady(s, step);
        TtyCanRun(s.(ipc := Send(s.ipc, s.current, dest, m).ipc));
      }
    case ReceiveStep(src, m) =>
      TtyStaysReady(s, step);
      TtyCanRun(s.(ipc := Receive(s.ipc, s.current, src, m)));
    case InformStep(task) =>
    case TickStep(nested) =>
      TtyCanRun(s.(ticks := s.ticks[s.current := s.ticks[s.current] - 1]));
  }

  /** And once it is lost, no number of clock ticks ever takes the CPU away again. */
  lemma {:induction false} NotLiveMonopolises(ss: seq<State>, steps: seq<Step>)
    requires IsRun(ss, steps) && !Live(ss[0])
    requires forall i :: 0 <= i < |steps| ==> steps[i].TickStep? || steps[i].InformStep?
    ensures ss[|steps|].current == ss[0].current && !Live(ss[|steps|])
    decreases |steps|
  {
    if steps != [] {
      var n := |steps| - 1;
      RunPrefix(ss, steps, n);
      NotLiveMonopolises(ss[..n + 1], steps[..n]);
      assert ss[..n + 1][n] == ss[n];
    }
  }
}
