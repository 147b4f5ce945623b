/** Waiting times and CPU shares over whole runs. */
module Fairness {
  import opened Rendezvous
  import opened Scheduling
  import opened KernelSystem
  import opened Epochs

  // ---------------------------------------------------------------- bounded waiting

  ghost function TickCount(steps: seq<Step>): nat {
    if steps == [] then 0
    else TickCount(steps[..|steps| - 1]) + if steps[|steps| - 1].TickStep? then 1 else 0
  }

  /** An upper bound on the clock ticks before `p` is chosen. */
  ghost function Budget(s: State, p: nat): nat
    requires p < |s.ticks|
  {
    Sum(s.ticks) + if s.ticks[p] > 0 then 0 else Sum(s.priority)
  }

  /** The step is not a nested tick that takes the last tick of the current process. */
  ghost predicate Timely(s: State, step: Step) {
    step == TickStep(true) ==> s.current < |s.ticks| && s.ticks[s.current] != 1
  }

  lemma {:induction false} StaysLive(ss: seq<State>, steps: seq<Step>, n: nat)
    requires IsRun(ss, steps) && Live(ss[0]) && n <= |steps|
    requires forall i :: 0 <= i < |steps| ==> Timely(ss[i], steps[i])
    ensures Live(ss[n])
  {
    if n > 0 {
      StaysLive(ss, steps, n - 1);
      LiveIff(ss[n - 1], steps[n - 1]);
    }
  }

  /** Rescheduling does not increase the budget of a runnable process of positive priority. */
  lemma RescheduleBudget(s: State, p: nat)
    requires Accounted(s) && LoadOf(s).CanRun() && p < |s.ticks|
    requires IsReady(s.ipc, p) && s.priority[p] > 0
    ensures |Reschedule(s).ticks| == |s.ticks|
    ensures Budget(Reschedule(s), p) <= Budget(s, p)
    ensures Exhausted(ReadyOf(s.ipc), s.ticks) ==> Budget(Reschedule(s), p) <= Sum(s.priority)
  {
    var t := Reschedule(s);
    SumMonotone(t.ticks, s.priority);
    if Exhausted(ReadyOf(s.ipc), s.ticks) {
      assert ReadyOf(s.ipc)[p];
      assert s.ticks[p] == 0 && t.ticks[p] == s.priority[p];
    }
  }

  /** A clock tick charged to somebody else. */
  lemma TickBudget(s: State, nested: bool, p: nat)
    requires CpuInv(s) && Live(s) && p < |s.ticks| && s.current != p && s.priority[p] > 0 && IsReady(s.ipc, p)
    ensures p < |Tick(s, nested).ticks| && Budget(Tick(s, nested), p) + 1 <= Budget(s, p)
  {
    var charged := s.(ticks := s.ticks[s.current := s.ticks[s.current] - 1]);
    SumUpdate(s.ticks, s.current, s.ticks[s.current] - 1);
    TtyCanRun(charged);
    if !nested {
      RescheduleBudget(charged, p);
    }
  }

  /** One step of somebody else costs at least one unit of the budget if it is a clock tick. */
  lemma StepBudget(s: State, step: Step, p: nat)
    requires Inv(s) && Enabled(s, step) && Live(s)
    requires p < |s.ticks| && s.current != p && s.priority[p] > 0
    requires IsReady(s.ipc, p) && IsReady(Apply(s, step).ipc, p)
    ensures Apply(s, step).priority == s.priority && p < |Apply(s, step).ticks|
    ensures Budget(Apply(s, step), p) + (if step.TickStep? then 1 else 0) <= Budget(s, p)
  {
    hide Tick, QueuesExact, NoMissedRendezvous;
    match step
    case SendStep(dest, m) =>
      if Send(s.ipc, s.current, dest, m).Sent? {
        SettleBudget(s, step, s.(ipc := Send(s.ipc, s.current, dest, m).ipc), p);
      }
    case ReceiveStep(src, m) =>
      SettleBudget(s, step, s.(ipc := Receive(s.ipc, s.current, src, m)), p);
    case InformStep(task) =>
    case TickStep(nested) =>
      TickBudget(s, nested, p);
  }

  lemma SettleBudget(s: State, step: Step, t: State, p: nat)
    requires Inv(s) && Enabled(s, step) && p < |s.ticks| && s.current != p && s.priority[p] > 0
    requires t == s.(ipc := t.ipc) && |t.ipc.procs| == |s.ipc.procs|
    requires TtyRuns(t) && IsReady(t.ipc, p)
    ensures |Settle(t).ticks| == |s.ticks| && Budget(Settle(t), p) <= Budget(s, p)
  {
    TtyCanRun(t);
    RescheduleBudget(t, p);
  }

  /** As long as a runnable process is passed over, ticks are paid for out of its budget. */
  lemma {:induction false} WaitingCost(ss: seq<State>, steps: seq<Step>, p: nat)
    requires IsRun(ss, steps) && p < |ss[0].ticks| && ss[0].priority[p] > 0
    requires forall i :: 0 <= i < |steps| ==> Live(ss[i])
    requires forall i :: 0 <= i < |ss| ==> IsReady(ss[i].ipc, p)
    requires forall i :: 0 <= i < |steps| ==> ss[i].current != p
    ensures ss[|steps|].priority == ss[0].priority && p < |ss[|steps|].ticks|
    ensures TickCount(steps) + Budget(ss[|steps|], p) <= Budget(ss[0], p)
    decreases |steps|
  {
    hide Apply, Inv, Enabled, Budget, Live;
    if steps != [] {
      var n := |steps| - 1;
      RunPrefix(ss, steps, n);
      WaitingCost(ss[..n + 1], steps[..n], p);
      assert ss[..n + 1][n] == ss[n];
      assert Inv(ss[n]) && Enabled(ss[n], steps[n]) && ss[n + 1] == Apply(ss[n], steps[n]);
      StepBudget(ss[n], steps[n], p);
    }
  }

  /**
   Bounded waiting: in any mix of calls, interrupts and clock ticks, a process of positive
   priority that stays runnable is given the CPU before twice the sum of all priorities ticks,
   provided no nested tick takes the last tick of the process it interrupts.
   */
  lemma {:induction false} BoundedWaiting(ss: seq<State>, steps: seq<Step>, p: nat)
    requires IsRun(ss, steps) && Live(ss[0]) && p < |ss[0].ticks| && ss[0].priority[p] > 0
    requires forall i :: 0 <= i < |steps| ==> Timely(ss[i], steps[i])
    requires forall i :: 0 <= i < |ss| ==> IsReady(ss[i].ipc, p)
    requires TickCount(steps) >= 2 * Sum(ss[0].priority)
    ensures exists i :: 0 <= i < |steps| && ss[i].current == p
  {
    if forall i :: 0 <= i < |steps| ==> ss[i].current != p {
      forall i | 0 <= i < |steps| ensures Live(ss[i]) {
        StaysLive(ss, steps, i);
      }
      WaitingCost(ss, steps, p);
      SumMonotone(ss[0].ticks, ss[0].priority);
      SumAtLeast(ss[0].priority, p);
      var t := ss[|steps|];
      RunLastInv(ss, steps);
      if t.ticks[p] > 0 {
        SumAtLeast(t.ticks, p);
      }
      assert Budget(t, p) > 0;
    }
  }

  /**
   The proviso is needed: after such a tick nobody else is given the CPU, however many clock
   ticks and interrupts follow.
   */
  lemma UntimelyTickStarves(s: State, ss: seq<State>, steps: seq<Step>)
    requires Inv(s) && Live(s) && !s.halted && !Timely(s, TickStep(true))
    requires IsRun(ss, steps) && ss[0] == Apply(s, TickStep(true))
    requires forall i :: 0 <= i < |steps| ==> steps[i].TickStep? || steps[i].InformStep?
    ensures forall i :: 0 <= i < |ss| ==> ss[i].current == s.current
  {
    forall i | 0 <= i < |ss| ensures ss[i].current == s.current {
      RunPrefix(ss, steps, i);
      NotLiveMonopolises(ss[..i + 1], steps[..i]);
    }
  }

  // ---------------------------------------------------------------- proportional share

  /** The state after `k` clock ticks and nothing else. */
  ghost function Ticks(s: State, k: nat): (t: State)
    requires CpuInv(s)
    ensures CpuInv(t) && t == s.(ticks := t.ticks, current := t.current)
  {
    if k == 0 then s else Tick(Ticks(s, k - 1), false)
  }

  /** How many of the first `k` ticks each process is charged. */
  ghost function Charges(s: State, k: nat): (v: seq<nat>)
    requires CpuInv(s)
    ensures |v| == |s.ticks|
  {
    if k == 0 then seq(|s.ticks|, i => 0)
    else
      var v := Charges(s, k - 1);
      var c := Ticks(s, k - 1).current;
      v[c := v[c] + 1]
  }

  ghost function ClockOf(s: State, k: nat): Clock
    requires CpuInv(s)
  {
    Clock(Ticks(s, k).ticks, Ticks(s, k).current, Charges(s, k))
  }

  /** clock_handler() charges the current process and reschedules. */
  lemma TickIsNextTick(t: State, charged: seq<nat>)
    requires CpuInv(t) && Decided(LoadOf(t), Clock(t.ticks, t.current, charged))
    ensures NextTick(LoadOf(t), Clock(t.ticks, t.current, charged)) ==
            Clock(Tick(t, false).ticks, Tick(t, false).current, charged[t.current := charged[t.current] + 1])
  {
  }

  /** AfterTicks ignores the ticks in the load, so the load of the start serves throughout. */
  lemma NextTickSameLoad(l: Load, l': Load, c: Clock)
    requires Decided(l, c) && l'.ready == l.ready && l'.priority == l.priority && Decided(l', c)
    ensures NextTick(l, c) == NextTick(l', c)
  {
  }

  lemma {:induction false} TicksAreAfterTicks(s: State, k: nat)
    requires CpuInv(s) && Decided(LoadOf(s), ClockOf(s, 0))
    ensures ClockOf(s, k) == AfterTicks(LoadOf(s), ClockOf(s, 0), k)
  {
    hide IsChoice, NextTick, Reschedule, ScheduledTicks, Accounted, Tick;
    if k > 0 {
      TicksAreAfterTicks(s, k - 1);
      var t := Ticks(s, k - 1);
      var l, c := LoadOf(s), ClockOf(s, k - 1);
      assert LoadOf(t).CanRun() by { TtyCanRun(t); }
      NextTickSameLoad(l, LoadOf(t), c);
      TickIsNextTick(t, Charges(s, k - 1));
    }
  }

  /** The number of clock ticks between two refills. */
  ghost function Epoch(s: State): nat
    requires CpuInv(s)
  {
    Sum(OfRunnable(ReadyOf(s.ipc), s.priority))
  }

  /** The state in which schedule() leaves the table right after a refill. */
  ghost predicate JustRefilled(s: State) {
    && CpuInv(s)
    && (forall i :: 0 <= i < |s.ticks| && ReadyOf(s.ipc)[i] ==> s.ticks[i] == s.priority[i])
    && IsChoice(ReadyOf(s.ipc), s.ticks, s.current)
  }

  lemma EvenAfterTicks(s: State, k: nat)
    requires JustRefilled(s) && k < Epoch(s)
    ensures Even(ReadyOf(s.ipc), Ticks(s, k).ticks, Charges(s, k))
  {
    TtyCanRun(s);
    assert Fresh(LoadOf(s), ClockOf(s, 0));
    TicksAreAfterTicks(s, k);
    EpochProgress(LoadOf(s), ClockOf(s, 0), k);
  }

  lemma {:induction false} EpochEnds(s: State)
    requires JustRefilled(s)
    ensures Ticks(s, Epoch(s)) == s
    ensures Charges(s, Epoch(s)) == OfRunnable(ReadyOf(s.ipc), s.priority)
  {
    hide Even;
    var l, c, n := LoadOf(s), ClockOf(s, 0), Epoch(s);
    TtyCanRun(s);
    assert Fresh(l, c);
    assert n > 0 by {
      SumAtLeast(OfRunnable(l.ready, l.priority), TASK_TTY);
    }
    TicksAreAfterTicks(s, n);
    EpochProgress(l, c, n - 1);
    LastTick(l, c, AfterTicks(l, c, n - 1), n - 1);
    assert AfterTicks(l, c, n) == NextTick(l, AfterTicks(l, c, n - 1));
  }

  /**
   Proportional share: with a fixed set of runnable processes, an epoch of clock ticks brings
   the table back to where it was and charges every runnable process exactly its priority; at
   every point in between a process that was charged is within one tick of the most that is left.
   */
  lemma {:induction false} ProportionalShare(s: State)
    requires JustRefilled(s)
    ensures Ticks(s, Epoch(s)) == s
    ensures Charges(s, Epoch(s)) == OfRunnable(ReadyOf(s.ipc), s.priority)
    ensures forall k: nat :: k < Epoch(s) ==>
              Even(ReadyOf(s.ipc), Ticks(s, k).ticks, Charges(s, k))
  {
    hide Even, Ticks, Charges, Epoch, JustRefilled;
    EpochEnds(s);
    forall k: nat | k < Epoch(s) ensures Even(ReadyOf(s.ipc), Ticks(s, k).ticks, Charges(s, k)) {
      EvenAfterTicks(s, k);
    }
  }
}
