/**
 How long a call takes: in ticks of the clock, a call of a server of the highest level returns
 within a bound that counts the callers in front and the time that the server and the callers
 it answers take themselves.
 */
module CallLatency {
  import opened Options
  import opened Messages
  import opened Rendezvous
  import opened Scheduling
  import opened KernelSystem
  import opened Fairness
  import opened Waiting
  import opened Rpc

  // ---------------------------------------------------------------- a call in progress

  /** Nobody has a higher level, so the server itself calls nobody. */
  ghost predicate IsTop(levels: seq<nat>, d: nat) {
    d < |levels| && forall i :: 0 <= i < |levels| ==> levels[i] <= levels[d]
  }

  /** The server takes requests and answers them, and hears of no interrupt. */
  ghost predicate Serving(c: Ipc, gs: seq<Stage>, d: nat) {
    && d < |gs| == |c.procs|
    && (gs[d].Idle? || gs[d].Listening? || gs[d].Answering?)
    && !c.procs[d].intr
    && (c.procs[d].status.Ready? ==> NextOf(gs[d], c.procs[d]) != Stuck)
  }

  /** What a step must not do to the server. */
  ghost predicate Undisturbed(s: State, step: Step, d: nat) {
    step != InformStep(d) && (s.current == d && step.ReceiveStep? ==> step.src != Hardware)
  }

  /** `p` is in a call of `d` that has not returned. */
  ghost predicate InCall(c: Ipc, gs: seq<Stage>, d: nat, p: nat) {
    && |gs| == |c.procs| && p < |gs| && d < |gs|
    && ((gs[p].Calling? && gs[p].server == d)
        || (gs[p].Awaiting? && gs[p].server == d && c.procs[p].status.Receiving?))
  }

  /** The calls of the kernel that are needed before the server listens again. */
  ghost function Busy(c: Ipc, gs: seq<Stage>, d: nat): nat
    requires d < |gs| == |c.procs|
  {
    if c.procs[d].status.Sending? then 1
    else if c.procs[d].status.Ready? && ClientOf(gs[d], c.procs[d]).Some? then 2
    else 0
  }

  /** The calls of the kernel that are needed before the call of `p` returns, at most. */
  ghost function Left(c: Ipc, gs: seq<Stage>, d: nat, p: nat): nat
    requires Coherent(c) && InCall(c, gs, d, p)
  {
    if c.procs[p].status == Sending(d) then
      assert QueueExact(c, d);
      3 * (IndexOf(c.queues[d], p) + 1) + Busy(c, gs, d)
    else if gs[p].Calling? && c.procs[d].status.Ready? then 2
    else 1
  }

  /** Who has to make the next of these calls: the server, or the caller it sends an answer to. */
  ghost function Helper(c: Ipc, d: nat): nat
    requires d < |c.procs|
  {
    if c.procs[d].status.Sending? then c.procs[d].status.dest else d
  }

  /** While a call is in progress the helper can run; if it is a caller, it awaits its answer next. */
  lemma HelperRuns(c: Ipc, gs: seq<Stage>, levels: seq<nat>, d: nat, p: nat)
    requires Coherent(c) && Disciplined(c, gs, levels) && IsTop(levels, d)
    requires Serving(c, gs, d) && InCall(c, gs, d, p)
    ensures p != d && IsReady(c, Helper(c, d))
    ensures Helper(c, d) != d ==> gs[Helper(c, d)].Calling? && gs[Helper(c, d)].server == d
    ensures c.procs[d].status.Ready? || c.procs[d].status.Sending?
    ensures c.procs[p].status != Sending(d) ==>
              if c.procs[d].status.Ready? then ClientOf(gs[d], c.procs[d]) == Some(p)
              else c.procs[d].status == Sending(p) && gs[p].Calling?
  {
    hide Edges;
    DisciplineAt(c, gs, levels, p, d);
    DisciplineAt(c, gs, levels, d, p);
    assert NothingMissed(c, d) && QueueExact(c, d);
  }

  // ---------------------------------------------------------------- one step

  /** The call of `p` is over, or fewer calls of the kernel are left. */
  ghost predicate Closer(c: Ipc, gs: seq<Stage>, e: Ipc, hs: seq<Stage>, d: nat, p: nat)
    requires Coherent(c) && InCall(c, gs, d, p) && Coherent(e) && |hs| == |gs| == |e.procs|
  {
    || (hs[p].Awaiting? && e.procs[p].status.Ready?)
    || (InCall(e, hs, d, p) && Left(e, hs, d, p) < Left(c, gs, d, p))
  }

  /** The call is no further from its end, and waits for the same process. */
  ghost predicate Stays(c: Ipc, gs: seq<Stage>, e: Ipc, hs: seq<Stage>, d: nat, p: nat)
    requires Coherent(c) && InCall(c, gs, d, p) && Coherent(e) && |hs| == |gs| == |e.procs|
  {
    InCall(e, hs, d, p) && Left(e, hs, d, p) <= Left(c, gs, d, p) && Helper(e, d) == Helper(c, d)
  }

  /** Nothing matters but the server, its queue and the caller. */
  lemma UntouchedStays(c: Ipc, gs: seq<Stage>, e: Ipc, hs: seq<Stage>, d: nat, p: nat)
    requires Coherent(c) && InCall(c, gs, d, p) && Coherent(e) && |hs| == |gs| == |e.procs|
    requires e.procs[d] == c.procs[d] && e.procs[p] == c.procs[p] && e.queues[d] == c.queues[d]
    requires hs[d] == gs[d] && hs[p] == gs[p]
    ensures Stays(c, gs, e, hs, d, p)
  {
    hide Edges;
  }

  lemma InformStays(c: Ipc, gs: seq<Stage>, levels: seq<nat>, d: nat, p: nat, t: nat)
    requires Coherent(c) && Disciplined(c, gs, levels) && IsTop(levels, d)
    requires Serving(c, gs, d) && InCall(c, gs, d, p) && t < |gs| && t != d
    ensures Coherent(Inform(c, t)) && Stays(c, gs, Inform(c, t), gs, d, p)
  {
    hide Disciplined, Edges;
    InformCoherent(c, t);
    HelperRuns(c, gs, levels, d, p);
    DisciplineAt(c, gs, levels, p, d);
  }

  /** The server answers somebody. */
  lemma AnswerCloser(c: Ipc, gs: seq<Stage>, levels: seq<nat>, d: nat, p: nat, q: nat, m: Message)
    requires Coherent(c) && Disciplined(c, gs, levels) && IsTop(levels, d)
    requires Serving(c, gs, d) && InCall(c, gs, d, p) && IsReady(c, d)
    requires NextOf(gs[d], c.procs[d]) == Free(Some(q))
    requires q < |gs| && q != d && Send(c, d, q, m).Sent? && Coherent(Send(c, d, q, m).ipc)
    ensures Closer(c, gs, Send(c, d, q, m).ipc, gs[d := Answering(q)], d, p)
  {
    hide Disciplined, Edges;
    HelperRuns(c, gs, levels, d, p);
    DisciplineAt(c, gs, levels, p, d);
    DisciplineAt(c, gs, levels, q, d);
  }

  /** The server listens: it takes the request of the caller at the head of its queue. */
  lemma ListenCloser(c: Ipc, gs: seq<Stage>, levels: seq<nat>, d: nat, p: nat, m: Message)
    requires Coherent(c) && Disciplined(c, gs, levels) && IsTop(levels, d)
    requires Serving(c, gs, d) && InCall(c, gs, d, p) && IsReady(c, d)
    requires NextOf(gs[d], c.procs[d]) == Free(None) && Coherent(Receive(c, d, AnyProc, m))
    ensures Closer(c, gs, Receive(c, d, AnyProc, m), gs[d := Listening], d, p)
  {
    hide Disciplined, Edges;
    HelperRuns(c, gs, levels, d, p);
    DisciplineAt(c, gs, levels, p, d);
    assert QueueExact(c, d);
    var x := c.queues[d][0];
    CandidateQueued(c, d, AnyProc);
    SenderIsClient(c, gs, levels, d, x);
    if x != p {
      RemoveMembers(c.queues[d], x);
      IndexAfterRemove(c.queues[d], x, p);
    }
  }

  lemma IndexAfterAppend(q: seq<nat>, x: nat, p: nat)
    requires p in q
    ensures p in q + [x] && IndexOf(q + [x], p) == IndexOf(q, p)
  {
    assert (q + [x])[IndexOf(q, p)] == p;
  }

  /** Somebody else asks the server and has to queue up. */
  lemma QueueingStays(c: Ipc, gs: seq<Stage>, e: Ipc, hs: seq<Stage>, d: nat, p: nat, me: nat)
    requires Coherent(c) && InCall(c, gs, d, p) && Coherent(e) && |hs| == |gs| == |e.procs|
    requires e.procs[d] == c.procs[d] && e.procs[p] == c.procs[p] && e.queues[d] == c.queues[d] + [me]
    requires hs[d] == gs[d] && hs[p] == gs[p]
    ensures Stays(c, gs, e, hs, d, p)
  {
    hide Edges;
    if c.procs[p].status == Sending(d) {
      assert QueueExact(c, d);
      IndexAfterAppend(c.queues[d], me, p);
    }
  }

  /** Somebody else sends a request or an answer. */
  lemma SendStays(c: Ipc, gs: seq<Stage>, levels: seq<nat>, d: nat, p: nat, me: nat, q: nat, m: Message, g: Stage)
    requires Coherent(c) && Disciplined(c, gs, levels) && IsTop(levels, d)
    requires Serving(c, gs, d) && InCall(c, gs, d, p) && IsReady(c, me) && me != d
    requires NextOf(gs[me], c.procs[me]).Free?
    requires q < |gs| && q != me && Send(c, me, q, m).Sent? && Coherent(Send(c, me, q, m).ipc)
    ensures me != Helper(c, d)
    ensures Stays(c, gs, Send(c, me, q, m).ipc, gs[me := g], d, p)
  {
    hide Disciplined, Edges, Stays;
    HelperRuns(c, gs, levels, d, p);
    DisciplineAt(c, gs, levels, p, d);
    if q != d {
      UntouchedStays(c, gs, Send(c, me, q, m).ipc, gs[me := g], d, p);
    } else {
      QueueingStays(c, gs, Send(c, me, q, m).ipc, gs[me := g], d, p, me);
    }
  }

  /** A caller awaits its answer. */
  lemma AwaitNearer(c: Ipc, gs: seq<Stage>, levels: seq<nat>, d: nat, p: nat, me: nat, m: Message)
    requires Coherent(c) && Disciplined(c, gs, levels) && IsTop(levels, d)
    requires Serving(c, gs, d) && InCall(c, gs, d, p) && IsReady(c, me) && me != d && gs[me].Calling?
    requires var k, s := gs[me].client, gs[me].server;
             SourceInRange(From(s), me, |gs|) && Coherent(Receive(c, me, From(s), m))
    ensures var k, s := gs[me].client, gs[me].server;
            var e, hs := Receive(c, me, From(s), m), gs[me := Awaiting(k, s)];
            Closer(c, gs, e, hs, d, p) || (me != Helper(c, d) && Stays(c, gs, e, hs, d, p))
  {
    hide Disciplined, Edges, Receive;
    HelperRuns(c, gs, levels, d, p);
    DisciplineAt(c, gs, levels, p, d);
    DisciplineAt(c, gs, levels, me, d);
    var e, hs := Receive(c, me, From(gs[me].server), m), gs[me := Awaiting(gs[me].client, gs[me].server)];
    ReceiveEntries(c, me, From(gs[me].server), m);
    if me != p && me != Helper(c, d) {
      UntouchedStays(c, gs, e, hs, d, p);
    } else if me != p {
      SenderIsClient(c, gs, levels, me, d);
    }
  }

  /** Somebody else listens or waits for its device. */
  lemma ReceiveStays(c: Ipc, gs: seq<Stage>, levels: seq<nat>, d: nat, p: nat, me: nat, src: Source, m: Message,
                     g: Stage)
    requires Coherent(c) && Disciplined(c, gs, levels) && IsTop(levels, d)
    requires Serving(c, gs, d) && InCall(c, gs, d, p) && IsReady(c, me) && me != d
    requires NextOf(gs[me], c.procs[me]).Free? && !src.From? && Coherent(Receive(c, me, src, m))
    ensures me != Helper(c, d)
    ensures Stays(c, gs, Receive(c, me, src, m), gs[me := g], d, p)
  {
    hide Disciplined, Edges, Receive, Stays;
    HelperRuns(c, gs, levels, d, p);
    DisciplineAt(c, gs, levels, p, d);
    ReceiveEntries(c, me, src, m);
    UntouchedStays(c, gs, Receive(c, me, src, m), gs[me := g], d, p);
  }

  // ---------------------------------------------------------------- one step of the world

  ghost predicate IsServing(w: World, d: nat) {
    Serving(w.s.ipc, w.stages, d)
  }

  ghost predicate IsInCall(w: World, d: nat, p: nat) {
    InCall(w.s.ipc, w.stages, d, p)
  }

  lemma QuietStep(s: State, step: Step, d: nat)
    requires Inv(s) && Enabled(s, step) && d < |s.ipc.procs| && !s.ipc.procs[d].intr && step != InformStep(d)
    ensures d < |Apply(s, step).ipc.procs| && !Apply(s, step).ipc.procs[d].intr
  {
    hide Tick, LoadOf, Edges, TtyRuns;
  }

  lemma ServingStep(w: World, levels: seq<nat>, step: Step, d: nat)
    requires WorldInv(w, levels) && Obeys(w, levels, step) && IsTop(levels, d)
    requires IsServing(w, d) && Undisturbed(w.s, step, d)
    ensures IsServing(Advance(w, step), d)
  {
    hide Disciplined, HistoryFits, Inv, Apply;
    WorldStep(w, levels, step);
    QuietStep(w.s, step, d);
    DisciplineAt(w.s.ipc, w.stages, levels, d, d);
    DisciplineAt(Advance(w, step).s.ipc, Advance(w, step).stages, levels, d, d);
    StuckIff(w, levels, step, d);
  }

  /**
   A step brings the call nearer to its end, or leaves it waiting for the same process, and then
   it was not a call of the kernel by that process.
   */
  ghost predicate Advances(w: World, w': World, step: Step, d: nat, p: nat)
    requires Inv(w.s) && IsInCall(w, d, p) && Inv(w'.s) && |w'.stages| == |w.stages| == |w'.s.ipc.procs|
  {
    || (!step.TickStep? && Closer(w.s.ipc, w.stages, w'.s.ipc, w'.stages, d, p))
    || (&& Stays(w.s.ipc, w.stages, w'.s.ipc, w'.stages, d, p)
        && (w.s.current == Helper(w.s.ipc, d) ==> step.TickStep? || step.InformStep?))
  }

  lemma CallStep(w: World, levels: seq<nat>, step: Step, d: nat, p: nat)
    requires WorldInv(w, levels) && Obeys(w, levels, step) && IsTop(levels, d)
    requires IsServing(w, d) && Undisturbed(w.s, step, d) && IsInCall(w, d, p)
    ensures WorldInv(Advance(w, step), levels)
    ensures Advances(w, Advance(w, step), step, d, p)
  {
    hide Disciplined, HistoryFits, Coherent, Closer, Stays, Tick;
    WorldStep(w, levels, step);
    var c, gs, me, w' := w.s.ipc, w.stages, w.s.current, Advance(w, step);
    DisciplineAt(c, gs, levels, d, me);
    match step
    case SendStep(q, m) =>
      if me == d {
        AnswerCloser(c, gs, levels, d, p, q, m);
      } else {
        SendStays(c, gs, levels, d, p, me, q, m, w'.stages[me]);
      }
    case ReceiveStep(src, m) =>
      if me == d {
        ListenCloser(c, gs, levels, d, p, m);
      } else if src.From? {
        AwaitNearer(c, gs, levels, d, p, me, m);
      } else {
        ReceiveStays(c, gs, levels, d, p, me, src, m, w'.stages[me]);
      }
    case InformStep(t) => InformStays(c, gs, levels, d, p, t);
    case TickStep(_) => UntouchedStays(c, gs, w'.s.ipc, w'.stages, d, p);
  }

  // ---------------------------------------------------------------- the price of a call in ticks

  ghost predicate AllPositive(s: State) {
    forall i :: 0 <= i < |s.priority| ==> s.priority[i] > 0
  }

  /** An upper bound on the ticks until the call returns, if its helpers take none themselves. */
  ghost function Price(w: World, d: nat, p: nat): nat
    requires Inv(w.s) && IsInCall(w, d, p) && Helper(w.s.ipc, d) < |w.s.ticks|
  {
    2 * Sum(w.s.priority) * Left(w.s.ipc, w.stages, d, p) + Budget(w.s, Helper(w.s.ipc, d))
  }

  lemma BudgetBound(s: State, x: nat)
    requires Accounted(s) && x < |s.ticks|
    ensures Budget(s, x) <= 2 * Sum(s.priority)
  {
    SumMonotone(s.ticks, s.priority);
  }

  lemma ChargedBudget(s: State, t: State, x: nat)
    requires CpuInv(s) && Live(s) && s.current == x
    requires t == s.(ticks := s.ticks[x := s.ticks[x] - 1])
    ensures Budget(t, x) <= Budget(s, x) + Sum(s.priority)
  {
    SumUpdate(s.ticks, x, s.ticks[x] - 1);
  }

  /** A tick charged to `x` itself. */
  lemma OwnTick(s: State, nested: bool, x: nat)
    requires CpuInv(s) && Live(s) && s.current == x && s.priority[x] > 0
    ensures Budget(Tick(s, nested), x) <= Budget(s, x) + Sum(s.priority)
  {
    hide Budget, Reschedule;
    var charged := s.(ticks := s.ticks[x := s.ticks[x] - 1]);
    ChargedBudget(s, charged, x);
    TtyCanRun(charged);
    if !nested {
      RescheduleBudget(charged, x);
    }
  }

  /** The call is as far from its end as before: a tick of somebody else is paid for. */
  lemma BudgetPays(s: State, step: Step, x: nat)
    requires Inv(s) && Enabled(s, step) && Live(s) && x < |s.ticks| && s.priority[x] > 0
    requires IsReady(s.ipc, x) && IsReady(Apply(s, step).ipc, x)
    requires s.current == x ==> step.TickStep? || step.InformStep?
    ensures Apply(s, step).priority == s.priority && x < |Apply(s, step).ticks|
    ensures Budget(Apply(s, step), x) + (if step.TickStep? then 1 else 0) <=
              Budget(s, x) + if step.TickStep? && s.current == x then Sum(s.priority) + 1 else 0
  {
    if s.current != x {
      StepBudget(s, step, x);
    } else if step.TickStep? {
      OwnTick(s, step.nested, x);
    }
  }

  lemma PriorityStays(s: State, step: Step)
    requires Inv(s) && Enabled(s, step)
    ensures Apply(s, step).priority == s.priority
  {
    hide Tick, LoadOf, Edges, TtyRuns, Send, Receive;
  }

  /** What a tick of the clock costs when it is charged to the process the call waits for. */
  ghost function OwnPrice(w: World, step: Step, d: nat): nat {
    if step.TickStep? && d < |w.s.ipc.procs| && w.s.current == Helper(w.s.ipc, d)
    then Sum(w.s.priority) + 1 else 0
  }

  lemma {:induction false} MoreTimes(m: nat, a: nat, b: nat)
    requires a <= b
    ensures m * a <= m * b && (a < b ==> m * a + m <= m * b)
    decreases b
  {
    if a < b {
      MoreTimes(m, a, b - 1);
      assert m * b == m * (b - 1) + m;
    }
  }

  /** A step that brings the call nearer to its end. */
  lemma CloserPays(w: World, w': World, d: nat, p: nat)
    requires Inv(w.s) && IsInCall(w, d, p) && Inv(w'.s) && IsInCall(w', d, p)
    requires Helper(w.s.ipc, d) < |w.s.ticks| && Helper(w'.s.ipc, d) < |w'.s.ticks|
    requires w'.s.priority == w.s.priority
    requires Left(w'.s.ipc, w'.stages, d, p) < Left(w.s.ipc, w.stages, d, p)
    ensures Price(w', d, p) <= Price(w, d, p)
  {
    hide Left, Coherent, Budget;
    BudgetBound(w'.s, Helper(w'.s.ipc, d));
    MoreTimes(2 * Sum(w.s.priority), Left(w'.s.ipc, w'.stages, d, p), Left(w.s.ipc, w.stages, d, p));
  }

  /** Unless the call returns, every tick is paid for out of its price. */
  lemma PriceStep(w: World, levels: seq<nat>, step: Step, d: nat, p: nat)
    requires WorldInv(w, levels) && Obeys(w, levels, step) && IsTop(levels, d) && AllPositive(w.s) && Live(w.s)
    requires IsServing(w, d) && Undisturbed(w.s, step, d) && IsInCall(w, d, p)
    requires !HasReturned(Advance(w, step), p)
    ensures WorldInv(Advance(w, step), levels) && IsServing(Advance(w, step), d) && IsInCall(Advance(w, step), d, p)
    ensures Advance(w, step).s.priority == w.s.priority
    ensures Helper(w.s.ipc, d) < |w.s.ticks| && Helper(Advance(w, step).s.ipc, d) < |Advance(w, step).s.ticks|
    ensures Price(Advance(w, step), d, p) + (if step.TickStep? then 1 else 0) <=
              Price(w, d, p) + OwnPrice(w, step, d)
  {
    hide Disciplined, HistoryFits, Coherent, Left, Budget, Tick, Send, Receive;
    var w', x := Advance(w, step), Helper(w.s.ipc, d);
    CallStep(w, levels, step, d, p);
    ServingStep(w, levels, step, d);
    PriorityStays(w.s, step);
    HelperRuns(w.s.ipc, w.stages, levels, d, p);
    HelperRuns(w'.s.ipc, w'.stages, levels, d, p);
    if Left(w'.s.ipc, w'.stages, d, p) < Left(w.s.ipc, w.stages, d, p) && !step.TickStep? {
      CloserPays(w, w', d, p);
    } else {
      BudgetPays(w.s, step, x);
      MoreTimes(2 * Sum(w.s.priority), Left(w'.s.ipc, w'.stages, d, p), Left(w.s.ipc, w.stages, d, p));
    }
  }

  // ---------------------------------------------------------------- whole runs

  /**
   Any part of a run of layered calls, with a server of the highest level that is left alone, in
   which no process loses its ticks to a nested tick.
   */
  ghost predicate CallRun(ws: seq<World>, levels: seq<nat>, steps: seq<Step>, d: nat) {
    && |ws| == |steps| + 1
    && WorldInv(ws[0], levels) && Live(ws[0].s) && AllPositive(ws[0].s)
    && IsTop(levels, d) && IsServing(ws[0], d)
    && forall i :: 0 <= i < |steps| ==>
         && Obeys(ws[i], levels, steps[i]) && Timely(ws[i].s, steps[i]) && Undisturbed(ws[i].s, steps[i], d)
         && (Inv(ws[i].s) ==> ws[i + 1] == Advance(ws[i], steps[i]))
  }

  /** What the first `n` steps have cost that were ticks charged to whoever had to make the next call. */
  ghost function OwnCost(ws: seq<World>, steps: seq<Step>, d: nat, n: nat): nat
    requires n <= |steps| < |ws|
  {
    if n == 0 then 0
    else OwnCost(ws, steps, d, n - 1) + OwnPrice(ws[n - 1], steps[n - 1], d)
  }

  lemma LiveStep(w: World, levels: seq<nat>, step: Step)
    requires WorldInv(w, levels) && Obeys(w, levels, step) && Live(w.s) && Timely(w.s, step)
    ensures WorldInv(Advance(w, step), levels) && Live(Advance(w, step).s)
  {
    hide Apply;
    WorldStep(w, levels, step);
    LiveIff(w.s, step);
  }

  /** How far the call has come after `n` steps, if it has not returned. */
  ghost predicate StillCalling(w0: World, w: World, levels: seq<nat>, d: nat, p: nat) {
    && WorldInv(w, levels) && Live(w.s) && w.s.priority == w0.s.priority
    && IsServing(w, d) && IsInCall(w, d, p) && Helper(w.s.ipc, d) < |w.s.ticks|
  }

  lemma CallStarts(w: World, levels: seq<nat>, d: nat, p: nat)
    requires WorldInv(w, levels) && Live(w.s) && IsTop(levels, d) && IsServing(w, d) && IsInCall(w, d, p)
    ensures StillCalling(w, w, levels, d, p)
  {
    HelperRuns(w.s.ipc, w.stages, levels, d, p);
  }

  lemma CallGoesOn(w0: World, w: World, levels: seq<nat>, step: Step, d: nat, p: nat)
    requires StillCalling(w0, w, levels, d, p) && AllPositive(w0.s) && IsTop(levels, d)
    requires Obeys(w, levels, step) && Timely(w.s, step) && Undisturbed(w.s, step, d)
    requires !HasReturned(Advance(w, step), p)
    ensures StillCalling(w0, Advance(w, step), levels, d, p)
    ensures Price(Advance(w, step), d, p) + (if step.TickStep? then 1 else 0) <= Price(w, d, p) + OwnPrice(w, step, d)
  {
    hide Advance, Obeys, Timely, Undisturbed, Price, OwnPrice;
    LiveStep(w, levels, step);
    PriceStep(w, levels, step, d, p);
  }

  lemma TickCountNext(steps: seq<Step>, n: nat)
    requires 0 < n <= |steps|
    ensures TickCount(steps[..n]) == TickCount(steps[..n - 1]) + if steps[n - 1].TickStep? then 1 else 0
  {
    assert steps[..n][..n - 1] == steps[..n - 1];
  }

  lemma {:induction false} CallCost(ws: seq<World>, levels: seq<nat>, steps: seq<Step>, d: nat, p: nat, n: nat)
    requires CallRun(ws, levels, steps, d) && n <= |steps| && IsInCall(ws[0], d, p)
    requires forall i :: 0 <= i <= n ==> !HasReturned(ws[i], p)
    ensures StillCalling(ws[0], ws[0], levels, d, p) && StillCalling(ws[0], ws[n], levels, d, p)
    ensures TickCount(steps[..n]) + Price(ws[n], d, p) <= Price(ws[0], d, p) + OwnCost(ws, steps, d, n)
    decreases n
  {
    hide Advance, Enabled, Timely, Undisturbed, Price, OwnPrice, TickCount, Coherent, Disciplined, HistoryFits;
    if n == 0 {
      CallStarts(ws[0], levels, d, p);
      NoTicks(steps);
    } else {
      CallCost(ws, levels, steps, d, p, n - 1);
      assert ws[n] == Advance(ws[n - 1], steps[n - 1]) && !HasReturned(ws[n], p);
      CallGoesOn(ws[0], ws[n - 1], levels, steps[n - 1], d, p);
      TickCountNext(steps, n);
    }
  }

  lemma NoTicks(steps: seq<Step>)
    ensures TickCount(steps[..0]) == 0
  {
  }

  /** The callers in front of `p` in the queue of the server. */
  ghost function Ahead(w: World, d: nat, p: nat): nat
    requires Inv(w.s) && p < |w.s.ipc.procs| && d < |w.s.ipc.procs|
  {
    if w.s.ipc.procs[p].status == Sending(d) then
      assert QueueExact(w.s.ipc, d);
      IndexOf(w.s.ipc.queues[d], p)
    else 0
  }

  /** Twice the sum of all priorities for every call of the kernel that may be needed. */
  ghost function Allowance(w: World, d: nat, p: nat): nat
    requires Inv(w.s) && p < |w.s.ipc.procs| && d < |w.s.ipc.procs|
  {
    2 * Sum(w.s.priority) * (3 * Ahead(w, d, p) + 5)
  }

  lemma PriceBounds(w: World, d: nat, p: nat)
    requires Inv(w.s) && IsInCall(w, d, p) && Helper(w.s.ipc, d) < |w.s.ticks|
    ensures 2 * Sum(w.s.priority) <= Price(w, d, p) <= Allowance(w, d, p) + 2 * Sum(w.s.priority)
  {
    hide Budget, Coherent, IndexOf;
    var m := 2 * Sum(w.s.priority);
    BudgetBound(w.s, Helper(w.s.ipc, d));
    MoreTimes(m, 1, Left(w.s.ipc, w.stages, d, p));
    MoreTimes(m, Left(w.s.ipc, w.stages, d, p), 3 * Ahead(w, d, p) + 5);
  }

  /**
   How many ticks a call can take. As long as it has not returned, there were no more of them
   than its allowance: twice the sum of all priorities for each call of the kernel that may be
   needed, three for each caller in front and five for the rest. To this come, for each tick
   that was charged to the server or to the caller that the server is answering, the sum of all
   priorities and the tick itself.
   */
  lemma CallTicks(ws: seq<World>, levels: seq<nat>, steps: seq<Step>, d: nat, p: nat, n: nat)
    requires CallRun(ws, levels, steps, d) && n <= |steps| && IsInCall(ws[0], d, p)
    requires forall i :: 0 <= i <= n ==> !HasReturned(ws[i], p)
    ensures TickCount(steps[..n]) <= Allowance(ws[0], d, p) + OwnCost(ws, steps, d, n)
  {
    hide HasReturned, TickCount, Allowance, OwnCost, Price, Coherent, Disciplined, HistoryFits;
    CallCost(ws, levels, steps, d, p, n);
    PriceBounds(ws[0], d, p);
    PriceBounds(ws[n], d, p);
  }

  /** Whoever has to make the next call makes it before the next tick when it is given the CPU. */
  ghost predicate Prompt(ws: seq<World>, steps: seq<Step>, d: nat, n: nat)
    requires n <= |steps| < |ws|
  {
    forall i :: 0 <= i < n && steps[i].TickStep? && d < |ws[i].s.ipc.procs| ==>
      ws[i].s.current != Helper(ws[i].s.ipc, d)
  }

  lemma {:induction false} PromptCostsNothing(ws: seq<World>, steps: seq<Step>, d: nat, n: nat)
    requires n <= |steps| < |ws| && Prompt(ws, steps, d, n)
    ensures OwnCost(ws, steps, d, n) == 0
  {
    if n > 0 {
      PromptCostsNothing(ws, steps, d, n - 1);
    }
  }

  /**
   So a call of a server that answers promptly returns, within twice the sum of all priorities
   ticks for each call of the kernel that may be needed.
   */
  lemma CallReturns(ws: seq<World>, levels: seq<nat>, steps: seq<Step>, d: nat, p: nat)
    requires CallRun(ws, levels, steps, d) && IsInCall(ws[0], d, p) && Prompt(ws, steps, d, |steps|)
    requires TickCount(steps) > Allowance(ws[0], d, p)
    ensures exists i :: 0 <= i < |ws| && HasReturned(ws[i], p)
  {
    hide HasReturned, TickCount, Allowance, OwnCost, Prompt;
    PromptCostsNothing(ws, steps, d, |steps|);
    assert steps[..|steps|] == steps;
    if forall i :: 0 <= i < |ws| ==> !HasReturned(ws[i], p) {
      CallTicks(ws, levels, steps, d, p, |steps|);
    }
  }

  // ---------------------------------------------------------------- from boot on

  /** In a run from boot nobody disturbs `d`, and no nested tick takes a last tick. */
  ghost predicate Quiet(ws: seq<World>, steps: seq<Step>, d: nat)
    requires |ws| == |steps| + 1
  {
    forall i :: 0 <= i < |steps| ==> Timely(ws[i].s, steps[i]) && Undisturbed(ws[i].s, steps[i], d)
  }

  lemma {:induction false} QuietFromBoot(ws: seq<World>, levels: seq<nat>, steps: seq<Step>, d: nat, n: nat)
    requires WorldRun(ws, levels, steps) && Quiet(ws, steps, d) && IsTop(levels, d) && n <= |steps|
    ensures WorldInv(ws[n], levels) && Live(ws[n].s) && IsServing(ws[n], d)
    ensures ws[n].s.priority == ws[0].s.priority
  {
    hide Advance, Undisturbed, Timely;
    WorldRunInv(ws, levels, steps, n);
    if n > 0 {
      QuietFromBoot(ws, levels, steps, d, n - 1);
      LiveStep(ws[n - 1], levels, steps[n - 1]);
      ServingStep(ws[n - 1], levels, steps[n - 1], d);
      AdvancePriority(ws[n - 1], steps[n - 1]);
    }
  }

  lemma AdvancePriority(w: World, step: Step)
    requires Inv(w.s) && Enabled(w.s, step) && w.s.current < |w.stages|
    ensures Advance(w, step).s.priority == w.s.priority
  {
    hide Apply;
    PriorityStays(w.s, step);
  }

  /** What follows after any step of such a run is a run of the kind that the theorems are about. */
  lemma QuietIsCallRun(ws: seq<World>, levels: seq<nat>, steps: seq<Step>, d: nat, i: nat)
    requires WorldRun(ws, levels, steps) && Quiet(ws, steps, d) && IsTop(levels, d) && i <= |steps|
    requires AllPositive(ws[0].s)
    ensures CallRun(ws[i..], levels, steps[i..], d)
  {
    hide Advance, Obeys, Undisturbed, Timely;
    QuietFromBoot(ws, levels, steps, d, i);
    assert forall j :: 0 <= j < |steps| - i ==> steps[i..][j] == steps[i + j];
    assert forall j :: 0 <= j <= |steps| - i ==> ws[i..][j] == ws[i + j];
  }

  lemma SysIsTop(n: nat)
    requires TASK_SYS < n
    ensures IsTop(SourceLevels(n), TASK_SYS)
  {
  }

  /**
   In a run of the system from boot, every call of TASK_SYS returns: whenever a process is in
   such a call, it will have returned after that many ticks, if TASK_SYS, and the caller that it
   is answering, make their next call before the next tick when they are given the CPU.
   */
  lemma SysCallsReturn(ws: seq<World>, steps: seq<Step>, n: nat, i: nat, p: nat)
    requires TASK_SYS < n && WorldRun(ws, SourceLevels(n), steps) && i <= |steps|
    requires Quiet(ws, steps, TASK_SYS) && AllPositive(ws[0].s) && IsInCall(ws[i], TASK_SYS, p)
    requires Prompt(ws[i..], steps[i..], TASK_SYS, |steps| - i)
    requires Inv(ws[i].s) && TickCount(steps[i..]) > Allowance(ws[i], TASK_SYS, p)
    ensures exists j :: i <= j <= |steps| && HasReturned(ws[j], p)
  {
    hide Prompt, HasReturned, TickCount, Allowance, Quiet, CallRun, InCall;
    SysIsTop(n);
    QuietIsCallRun(ws, SourceLevels(n), steps, TASK_SYS, i);
    CallReturns(ws[i..], SourceLevels(n), steps[i..], TASK_SYS, p);
    var k :| 0 <= k < |ws[i..]| && HasReturned(ws[i..][k], p);
    assert ws[i..][k] == ws[i + k];
  }
}
