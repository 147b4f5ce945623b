/**
 Remote procedure calls on top of the kernel, as the tasks and the users of the system use it:
 a client calls send_recv(BOTH), a server loops over RECEIVE from ANY and SEND to the requester,
 and a server may itself call servers of a higher level, or wait for its device, in between.
 */
module Rpc {
  import opened Options
  import opened Messages
  import opened WaitGraph
  import opened Rendezvous
  import opened KernelSystem
  import opened Commutation

  /**
   Where the program of a process stands, after its latest call of the kernel. `client` is the
   requester that a server still has to answer.
   */
  datatype Stage =
    | Idle
    | Listening                                        // RECEIVE from ANY
    | Calling(client: Option<nat>, server: nat)        // the SEND half of BOTH
    | Awaiting(client: Option<nat>, server: nat)       // the RECEIVE half of BOTH
    | DeviceWait(client: Option<nat>)                  // RECEIVE from INTERRUPT
    | Answering(to: nat)                               // SEND to the requester

  /** What the program of a runnable process will do next. */
  datatype Next =
    | Free(client: Option<nat>)
    | MustAwait(client: Option<nat>, server: nat)
    | Stuck                                            // a server that listened got an interrupt

  datatype Event =
    | Asked(client: nat, server: nat)
    | Answered(client: nat, server: nat, m: Message)

  /** The kernel, the programs, and what was asked and answered so far. */
  datatype World = World(s: State, stages: seq<Stage>, history: seq<Event>)

  ghost function NextOf(g: Stage, p: Proc): Next {
    match g
    case Idle => Free(None)
    case Listening => if p.buf.source < 0 then Stuck else Free(Some(p.buf.source))
    case Calling(k, d) => MustAwait(k, d)
    case Awaiting(k, _) => Free(k)
    case DeviceWait(k) => Free(k)
    case Answering(_) => Free(None)
  }

  /** The requester that `p` has taken a request of and not answered. */
  ghost function ClientOf(g: Stage, p: Proc): Option<nat> {
    match g
    case Listening => if p.status.Ready? && p.buf.source >= 0 then Some(p.buf.source) else None
    case Calling(k, _) => k
    case Awaiting(k, _) => k
    case DeviceWait(k) => k
    case _ => None
  }

  // ---------------------------------------------------------------- the discipline

  /** A call of a server of a higher level, with send_recv(BOTH). */
  ghost predicate MayAsk(levels: seq<nat>, next: Next, me: nat, d: nat) {
    next.Free? && me < |levels| && d < |levels| && levels[me] < levels[d]
  }

  ghost predicate MayAnswer(next: Next, d: nat) {
    next == Free(Some(d))
  }

  ghost predicate MayReceive(levels: seq<nat>, next: Next, me: nat, src: Source) {
    match src
    case AnyProc => next == Free(None)
    case Hardware => next.Free?
    case From(d) => next.MustAwait? && next.server == d
  }

  /** The step follows the discipline; interrupts and clock ticks come at any time. */
  ghost predicate Obeys(w: World, levels: seq<nat>, step: Step) {
    && Enabled(w.s, step)
    && w.s.current < |w.stages| && w.s.current < |w.s.ipc.procs|
    && var next := NextOf(w.stages[w.s.current], w.s.ipc.procs[w.s.current]);
       match step
       case SendStep(d, m) => MayAnswer(next, d) || MayAsk(levels, next, w.s.current, d)
       case ReceiveStep(src, m) => MayReceive(levels, next, w.s.current, src)
       case _ => true
  }

  ghost function StageAfter(next: Next, step: Step): Stage {
    match step
    case SendStep(d, _) =>
      if MayAnswer(next, d) then Answering(d)
      else if next.Free? then Calling(next.client, d) else Idle
    case ReceiveStep(src, _) =>
      (match src
       case AnyProc => Listening
       case Hardware => if next.Free? then DeviceWait(next.client) else Idle
       case From(d) => if next.MustAwait? then Awaiting(next.client, d) else Idle)
    case _ => Idle
  }

  ghost function Advance(w: World, step: Step): World
    requires Inv(w.s) && Enabled(w.s, step) && w.s.current < |w.stages|
  {
    var me := w.s.current;
    var next := NextOf(w.stages[me], w.s.ipc.procs[me]);
    match step
    case SendStep(d, m) =>
      World(Apply(w.s, step), w.stages[me := StageAfter(next, step)],
            w.history + [if MayAnswer(next, d) then Answered(d, me, m) else Asked(me, d)])
    case ReceiveStep(_, _) =>
      World(Apply(w.s, step), w.stages[me := StageAfter(next, step)], w.history)
    case _ => w.(s := Apply(w.s, step))
  }

  // ---------------------------------------------------------------- invariant

  /** The stage of `p` and its status fit together. */
  ghost predicate StageFits(c: Ipc, gs: seq<Stage>, levels: seq<nat>, p: nat)
    requires |gs| == |levels| == |c.procs| && p < |gs|
  {
    var q := c.procs[p];
    && (q.status.Sending? ==> q.buf.source == p)
    && match gs[p]
       case Idle => q.status.Ready?
       case Listening => q.status == Receiving(AnyProc) || (q.status.Ready? && q.buf.source < |gs|)
       case Calling(_, d) =>
         d < |gs| && levels[p] < levels[d] && (q.status.Ready? || q.status == Sending(d))
       case Awaiting(_, d) =>
         d < |gs| && levels[p] < levels[d] && (q.status.Ready? || q.status == Receiving(From(d)))
       case DeviceWait(_) => q.status.Ready? || q.status == Receiving(Hardware)
       case Answering(k) =>
         q.status.Ready?
         || (q.status == Sending(k) && k < |gs| && c.procs[k].status.Ready?
             && gs[k].Calling? && gs[k].server == p)
  }

  /** `d` took the request of `p`, and `p` has not been given an answer. */
  ghost predicate Open(c: Ipc, gs: seq<Stage>, p: nat, d: nat)
    requires |gs| == |c.procs| && p < |gs|
  {
    || (gs[p].Calling? && gs[p].server == d && c.procs[p].status.Ready?)
    || (gs[p].Awaiting? && gs[p].server == d && c.procs[p].status.Receiving?)
  }

  /** An open request is being served, unless its answer is queued. */
  ghost predicate OpenIsServed(c: Ipc, gs: seq<Stage>, p: nat, d: nat)
    requires |gs| == |c.procs| && p < |gs| && d < |gs|
  {
    Open(c, gs, p, d) ==>
      (ClientOf(gs[d], c.procs[d]) == Some(p)) != (c.procs[d].status == Sending(p))
  }

  /** Whom a process serves has an open request there. */
  ghost predicate ServedIsOpen(c: Ipc, gs: seq<Stage>, d: nat)
    requires |gs| == |c.procs| && d < |gs|
  {
    match ClientOf(gs[d], c.procs[d])
    case Some(p) => p < |gs| && Open(c, gs, p, d)
    case None => true
  }

  ghost predicate Disciplined(c: Ipc, gs: seq<Stage>, levels: seq<nat>) {
    && |gs| == |levels| == |c.procs|
    && (forall p :: 0 <= p < |gs| ==> StageFits(c, gs, levels, p))
    && (forall p, d :: 0 <= p < |gs| && 0 <= d < |gs| ==> OpenIsServed(c, gs, p, d))
    && (forall d :: 0 <= d < |gs| ==> ServedIsOpen(c, gs, d))
  }

  /** The discipline at one process, or at two. */
  lemma DisciplineAt(c: Ipc, gs: seq<Stage>, levels: seq<nat>, p: nat, d: nat)
    requires Disciplined(c, gs, levels) && p < |gs| && d < |gs|
    ensures |gs| == |levels| == |c.procs|
    ensures StageFits(c, gs, levels, p) && OpenIsServed(c, gs, p, d) && ServedIsOpen(c, gs, d)
  {
  }

  lemma DisciplineHolds(c: Ipc, gs: seq<Stage>, levels: seq<nat>)
    requires |gs| == |levels| == |c.procs|
    requires forall p :: 0 <= p < |gs| ==> StageFits(c, gs, levels, p)
    requires forall p, d :: 0 <= p < |gs| && 0 <= d < |gs| ==> OpenIsServed(c, gs, p, d)
    requires forall d :: 0 <= d < |gs| ==> ServedIsOpen(c, gs, d)
    ensures Disciplined(c, gs, levels)
  {
  }

  // ---------------------------------------------------------------- no call is refused

  /** Where the chain of senders can lead from a server of a level above that of `me`. */
  ghost predicate OutOfReach(c: Ipc, gs: seq<Stage>, levels: seq<nat>, me: nat, x: nat)
    requires |gs| == |levels| == |c.procs| && me < |gs|
  {
    x < |gs| && (levels[me] < levels[x] || (gs[x].Calling? && c.procs[x].status.Ready?))
  }

  /** A request edge leads up, and behind an answer edge the chain ends. */
  lemma {:induction false} ChainStaysOut(c: Ipc, gs: seq<Stage>, levels: seq<nat>, me: nat, x: nat, k: nat)
    requires Shape(c) && Disciplined(c, gs, levels) && me < |gs| && x < |gs|
    requires OutOfReach(c, gs, levels, me, x)
    ensures var y := Follow(Edges(c), x, k);
            y.Some? ==> OutOfReach(c, gs, levels, me, y.value)
    decreases k
  {
    if k > 0 && Edges(c)[x].Some? {
      assert StageFits(c, gs, levels, x);
      ChainStaysOut(c, gs, levels, me, Edges(c)[x].value, k - 1);
    }
  }

  lemma AskIsSafe(c: Ipc, gs: seq<Stage>, levels: seq<nat>, me: nat, d: nat)
    requires Shape(c) && Disciplined(c, gs, levels) && me < |gs| && d < |gs|
    requires NextOf(gs[me], c.procs[me]).Free? && levels[me] < levels[d]
    ensures !Reaches(Edges(c), d, me)
  {
    forall k: nat ensures Follow(Edges(c), d, k) != Some(me) {
      ChainStaysOut(c, gs, levels, me, d, k);
    }
  }

  lemma AnswerIsSafe(c: Ipc, gs: seq<Stage>, levels: seq<nat>, me: nat, p: nat)
    requires Shape(c) && Disciplined(c, gs, levels) && me < |gs| && IsReady(c, me)
    requires NextOf(gs[me], c.procs[me]) == Free(Some(p))
    ensures p < |gs| && Open(c, gs, p, me) && p != me && !Reaches(Edges(c), p, me)
  {
    assert ServedIsOpen(c, gs, me);
    assert StageFits(c, gs, levels, p);
    RunnableIsChainEnd(c, p, me);
  }

  // ---------------------------------------------------------------- the invariant is kept

  lemma InformKeeps(c: Ipc, gs: seq<Stage>, levels: seq<nat>, t: nat)
    requires Shape(c) && Disciplined(c, gs, levels) && t < |gs|
    ensures Disciplined(Inform(c, t), gs, levels)
  {
    var e := Inform(c, t);
    forall p | 0 <= p < |gs| ensures StageFits(e, gs, levels, p) {
      assert StageFits(c, gs, levels, p);
    }
    forall d | 0 <= d < |gs| ensures ServedIsOpen(e, gs, d) {
      assert ServedIsOpen(c, gs, d);
      if ClientOf(gs[d], c.procs[d]).Some? {
        assert StageFits(c, gs, levels, ClientOf(gs[d], c.procs[d]).value);
      }
    }
    forall p, d | 0 <= p < |gs| && 0 <= d < |gs| ensures OpenIsServed(e, gs, p, d) {
      assert OpenIsServed(c, gs, p, d);
      assert StageFits(c, gs, levels, p);
    }
  }

  /** The request meets a server that listens. */
  lemma AskMeets(c: Ipc, gs: seq<Stage>, levels: seq<nat>, me: nat, d: nat, m: Message)
    requires Coherent(c) && Disciplined(c, gs, levels) && me < |gs| && d < |gs| && IsReady(c, me)
    requires NextOf(gs[me], c.procs[me]).Free? && levels[me] < levels[d]
    requires WaitsFor(c.procs[d].status, me)
    ensures Disciplined(Handover(c, me, d, m), gs[me := Calling(NextOf(gs[me], c.procs[me]).client, d)], levels)
  {
    hide Disciplined;
    DisciplineAt(c, gs, levels, me, me);
    var k := NextOf(gs[me], c.procs[me]).client;
    var e, hs := Handover(c, me, d, m), gs[me := Calling(k, d)];
    DisciplineAt(c, gs, levels, d, me);
    assert ClientOf(hs[me], e.procs[me]) == ClientOf(gs[me], c.procs[me]);
    forall p | 0 <= p < |gs| ensures StageFits(e, hs, levels, p) {
      DisciplineAt(c, gs, levels, p, p);
    }
    forall x | 0 <= x < |gs| ensures ServedIsOpen(e, hs, x) {
      DisciplineAt(c, gs, levels, x, x);
    }
    forall p, x | 0 <= p < |gs| && 0 <= x < |gs| ensures OpenIsServed(e, hs, p, x) {
      DisciplineAt(c, gs, levels, p, x);
    }
    DisciplineHolds(e, hs, levels);
  }

  /** The request has to queue up. */
  lemma AskQueues(c: Ipc, gs: seq<Stage>, levels: seq<nat>, me: nat, d: nat, m: Message)
    requires Coherent(c) && Disciplined(c, gs, levels) && me < |gs| && d < |gs| && IsReady(c, me)
    requires NextOf(gs[me], c.procs[me]).Free? && levels[me] < levels[d]
    requires !WaitsFor(c.procs[d].status, me)
    ensures Disciplined(Enqueue(c, me, d, m), gs[me := Calling(NextOf(gs[me], c.procs[me]).client, d)], levels)
  {
    hide Disciplined;
    DisciplineAt(c, gs, levels, me, me);
    var k := NextOf(gs[me], c.procs[me]).client;
    var e, hs := Enqueue(c, me, d, m), gs[me := Calling(k, d)];
    DisciplineAt(c, gs, levels, d, me);
    assert ClientOf(hs[me], e.procs[me]) == ClientOf(gs[me], c.procs[me]);
    forall p | 0 <= p < |gs| ensures StageFits(e, hs, levels, p) {
      DisciplineAt(c, gs, levels, p, p);
    }
    forall x | 0 <= x < |gs| ensures ServedIsOpen(e, hs, x) {
      DisciplineAt(c, gs, levels, x, x);
    }
    forall p, x | 0 <= p < |gs| && 0 <= x < |gs| ensures OpenIsServed(e, hs, p, x) {
      DisciplineAt(c, gs, levels, p, x);
    }
    DisciplineHolds(e, hs, levels);
  }

  lemma AskKeeps(c: Ipc, gs: seq<Stage>, levels: seq<nat>, me: nat, d: nat, m: Message)
    requires Coherent(c) && Disciplined(c, gs, levels) && me < |gs| && d < |gs| && IsReady(c, me)
    requires NextOf(gs[me], c.procs[me]).Free? && levels[me] < levels[d]
    ensures Send(c, me, d, m).Sent?
    ensures Disciplined(Send(c, me, d, m).ipc, gs[me := Calling(NextOf(gs[me], c.procs[me]).client, d)], levels)
  {
    AskIsSafe(c, gs, levels, me, d);
    if WaitsFor(c.procs[d].status, me) {
      AskMeets(c, gs, levels, me, d, m);
    } else {
      AskQueues(c, gs, levels, me, d, m);
    }
  }

  lemma AnswerKeeps(c: Ipc, gs: seq<Stage>, levels: seq<nat>, me: nat, q: nat, m: Message)
    requires Coherent(c) && Disciplined(c, gs, levels) && me < |gs| && IsReady(c, me)
    requires NextOf(gs[me], c.procs[me]) == Free(Some(q))
    ensures q < |gs| && q != me && Send(c, me, q, m).Sent?
    ensures Disciplined(Send(c, me, q, m).ipc, gs[me := Answering(q)], levels)
  {
    hide Disciplined;
    DisciplineAt(c, gs, levels, me, me);
    AnswerIsSafe(c, gs, levels, me, q);
    var e, hs := Send(c, me, q, m).ipc, gs[me := Answering(q)];
    DisciplineAt(c, gs, levels, q, me);
    forall p | 0 <= p < |gs| ensures StageFits(e, hs, levels, p) {
      DisciplineAt(c, gs, levels, p, p);
    }
    forall x | 0 <= x < |gs| ensures ServedIsOpen(e, hs, x) {
      DisciplineAt(c, gs, levels, x, x);
    }
    forall p, x | 0 <= p < |gs| && 0 <= x < |gs| ensures OpenIsServed(e, hs, p, x) {
      DisciplineAt(c, gs, levels, p, x);
    }
    DisciplineHolds(e, hs, levels);
  }

  /** Who sends to a process that is not itself calling is a client of it. */
  lemma SenderIsClient(c: Ipc, gs: seq<Stage>, levels: seq<nat>, me: nat, x: nat)
    requires Shape(c) && Disciplined(c, gs, levels) && me < |gs| && x < |gs|
    requires c.procs[x].status == Sending(me)
    ensures if gs[me].Calling? && gs[me].server == x then gs[x] == Answering(me)
            else gs[x].Calling? && gs[x].server == me
    ensures c.procs[x].buf.source == x
  {
    assert StageFits(c, gs, levels, x) && StageFits(c, gs, levels, me);
  }

  /** What a receive does to the entries of the table, and which queues it leaves alone. */
  lemma ReceiveEntries(c: Ipc, me: nat, src: Source, m: Message)
    requires Coherent(c) && IsReady(c, me) && SourceInRange(src, me, |c.procs|)
    ensures var was, now, s := c.procs, Receive(c, me, src, m).procs, Candidate(c, me, src);
            if TakesInterrupt(c, me, src) then now == was[me := Proc(Ready, INTERRUPT_MESSAGE, false)]
            else if s.Some? then
              && s.value < |was| && s.value != me && was[s.value].status == Sending(me)
              && now == was[me := was[me].(buf := was[s.value].buf)][s.value := was[s.value].(status := Ready)]
            else now == was[me := was[me].(status := Receiving(src), buf := Stamped(m, me))]
    ensures forall r :: 0 <= r < |c.queues| && r != me ==> Receive(c, me, src, m).queues[r] == c.queues[r]
  {
    if Candidate(c, me, src).Some? {
      CandidateQueued(c, me, src);
    }
  }

  /** A server that listens is given the request of `s`. */
  lemma ListenMeets(c: Ipc, e: Ipc, gs: seq<Stage>, levels: seq<nat>, me: nat, s: nat)
    requires Shape(c) && Disciplined(c, gs, levels) && me < |gs| && IsReady(c, me) && s < |gs| && s != me
    requires NextOf(gs[me], c.procs[me]) == Free(None) && c.procs[s].status == Sending(me)
    requires e.procs == c.procs[me := c.procs[me].(buf := c.procs[s].buf)][s := c.procs[s].(status := Ready)]
    ensures Disciplined(e, gs[me := Listening], levels)
  {
    hide Disciplined;
    DisciplineAt(c, gs, levels, me, me);
    var hs := gs[me := Listening];
    SenderIsClient(c, gs, levels, me, s);
    forall p | 0 <= p < |gs| ensures StageFits(e, hs, levels, p) {
      DisciplineAt(c, gs, levels, p, p);
    }
    forall x | 0 <= x < |gs| ensures ServedIsOpen(e, hs, x) {
      DisciplineAt(c, gs, levels, x, x);
    }
    forall p, x | 0 <= p < |gs| && 0 <= x < |gs| ensures OpenIsServed(e, hs, p, x) {
      DisciplineAt(c, gs, levels, p, x);
    }
    DisciplineHolds(e, hs, levels);
  }

  /** A server that listens gets an interrupt or waits. */
  lemma ListenWaits(c: Ipc, e: Ipc, gs: seq<Stage>, levels: seq<nat>, me: nat, m: Message)
    requires Shape(c) && Disciplined(c, gs, levels) && me < |gs| && IsReady(c, me)
    requires NextOf(gs[me], c.procs[me]) == Free(None)
    requires || e.procs == c.procs[me := Proc(Ready, INTERRUPT_MESSAGE, false)]
             || e.procs == c.procs[me := c.procs[me].(status := Receiving(AnyProc), buf := Stamped(m, me))]
    ensures Disciplined(e, gs[me := Listening], levels)
  {
    hide Disciplined;
    DisciplineAt(c, gs, levels, me, me);
    var hs := gs[me := Listening];
    forall p | 0 <= p < |gs| ensures StageFits(e, hs, levels, p) {
      DisciplineAt(c, gs, levels, p, p);
    }
    forall x | 0 <= x < |gs| ensures ServedIsOpen(e, hs, x) {
      DisciplineAt(c, gs, levels, x, x);
    }
    forall p, x | 0 <= p < |gs| && 0 <= x < |gs| ensures OpenIsServed(e, hs, p, x) {
      DisciplineAt(c, gs, levels, p, x);
    }
    DisciplineHolds(e, hs, levels);
  }

  lemma ListenKeeps(c: Ipc, gs: seq<Stage>, levels: seq<nat>, me: nat, m: Message)
    requires Coherent(c) && Disciplined(c, gs, levels) && me < |gs| && IsReady(c, me)
    requires NextOf(gs[me], c.procs[me]) == Free(None)
    ensures Disciplined(Receive(c, me, AnyProc, m), gs[me := Listening], levels)
  {
    var e := Receive(c, me, AnyProc, m);
    ReceiveEntries(c, me, AnyProc, m);
    if !TakesInterrupt(c, me, AnyProc) && Candidate(c, me, AnyProc).Some? {
      ListenMeets(c, e, gs, levels, me, Candidate(c, me, AnyProc).value);
    } else {
      ListenWaits(c, e, gs, levels, me, m);
    }
  }

  /** The answer has been waiting for the caller. */
  lemma AwaitMeets(c: Ipc, e: Ipc, gs: seq<Stage>, levels: seq<nat>, me: nat)
    requires Shape(c) && Disciplined(c, gs, levels) && me < |gs| && IsReady(c, me) && gs[me].Calling?
    requires var d := gs[me].server;
             && d < |gs| && d != me && c.procs[d].status == Sending(me)
             && e.procs == c.procs[me := c.procs[me].(buf := c.procs[d].buf)][d := c.procs[d].(status := Ready)]
    ensures Disciplined(e, gs[me := Awaiting(gs[me].client, gs[me].server)], levels)
  {
    hide Disciplined;
    DisciplineAt(c, gs, levels, me, me);
    var d, hs := gs[me].server, gs[me := Awaiting(gs[me].client, gs[me].server)];
    DisciplineAt(c, gs, levels, me, d);
    SenderIsClient(c, gs, levels, me, d);
    forall p | 0 <= p < |gs| ensures StageFits(e, hs, levels, p) {
      DisciplineAt(c, gs, levels, p, p);
    }
    forall x | 0 <= x < |gs| ensures ServedIsOpen(e, hs, x) {
      DisciplineAt(c, gs, levels, x, x);
    }
    forall p, x | 0 <= p < |gs| && 0 <= x < |gs| ensures OpenIsServed(e, hs, p, x) {
      DisciplineAt(c, gs, levels, p, x);
    }
    DisciplineHolds(e, hs, levels);
  }

  /** The caller waits for its answer. */
  lemma AwaitWaits(c: Ipc, e: Ipc, gs: seq<Stage>, levels: seq<nat>, me: nat, m: Message)
    requires Shape(c) && Disciplined(c, gs, levels) && me < |gs| && IsReady(c, me) && gs[me].Calling?
    requires var d := gs[me].server;
             && d < |gs| && d != me && c.procs[d].status != Sending(me)
             && e.procs == c.procs[me := c.procs[me].(status := Receiving(From(d)), buf := Stamped(m, me))]
    ensures Disciplined(e, gs[me := Awaiting(gs[me].client, gs[me].server)], levels)
  {
    hide Disciplined;
    DisciplineAt(c, gs, levels, me, me);
    var d, hs := gs[me].server, gs[me := Awaiting(gs[me].client, gs[me].server)];
    DisciplineAt(c, gs, levels, me, d);
    forall p | 0 <= p < |gs| ensures StageFits(e, hs, levels, p) {
      DisciplineAt(c, gs, levels, p, p);
    }
    forall x | 0 <= x < |gs| ensures ServedIsOpen(e, hs, x) {
      DisciplineAt(c, gs, levels, x, x);
    }
    forall p, x | 0 <= p < |gs| && 0 <= x < |gs| ensures OpenIsServed(e, hs, p, x) {
      DisciplineAt(c, gs, levels, p, x);
    }
    DisciplineHolds(e, hs, levels);
  }

  lemma AwaitKeeps(c: Ipc, gs: seq<Stage>, levels: seq<nat>, me: nat, m: Message)
    requires Coherent(c) && Disciplined(c, gs, levels) && me < |gs| && IsReady(c, me) && gs[me].Calling?
    ensures var d := gs[me].server; SourceInRange(From(d), me, |gs|)
    ensures var k, d := gs[me].client, gs[me].server;
            Disciplined(Receive(c, me, From(d), m), gs[me := Awaiting(k, d)], levels)
  {
    var d := gs[me].server;
    assert StageFits(c, gs, levels, me);
    ReceiveEntries(c, me, From(d), m);
    if c.procs[d].status == Sending(me) {
      AwaitMeets(c, Receive(c, me, From(d), m), gs, levels, me);
    } else {
      AwaitWaits(c, Receive(c, me, From(d), m), gs, levels, me, m);
    }
  }

  lemma DeviceWaitKeeps(c: Ipc, gs: seq<Stage>, levels: seq<nat>, me: nat, m: Message)
    requires Coherent(c) && Disciplined(c, gs, levels) && me < |gs| && IsReady(c, me)
    requires NextOf(gs[me], c.procs[me]).Free?
    ensures var k := NextOf(gs[me], c.procs[me]).client;
            Disciplined(Receive(c, me, Hardware, m), gs[me := DeviceWait(k)], levels)
  {
    hide Disciplined, Grounded, NoMissedRendezvous, QueuesExact, Edges, Receive;
    DisciplineAt(c, gs, levels, me, me);
    var k := NextOf(gs[me], c.procs[me]).client;
    var e, hs := Receive(c, me, Hardware, m), gs[me := DeviceWait(k)];
    ReceiveEntries(c, me, Hardware, m);
    assert ClientOf(hs[me], e.procs[me]) == ClientOf(gs[me], c.procs[me]);
    forall p | 0 <= p < |gs| ensures StageFits(e, hs, levels, p) {
      DisciplineAt(c, gs, levels, p, p);
    }
    forall x | 0 <= x < |gs| ensures ServedIsOpen(e, hs, x) {
      DisciplineAt(c, gs, levels, x, x);
    }
    forall p, x | 0 <= p < |gs| && 0 <= x < |gs| ensures OpenIsServed(e, hs, p, x) {
      DisciplineAt(c, gs, levels, p, x);
    }
    DisciplineHolds(e, hs, levels);
  }

  // ---------------------------------------------------------------- exactly one answer

  /** What the history says about the requests of one client. */
  datatype Ledger = Balanced | Outstanding(server: nat) | Broken

  /** Requests and answers alternate, each answer from the server that was asked; else Broken. */
  ghost function LedgerOf(h: seq<Event>, p: nat): Ledger {
    if h == [] then Balanced
    else
      var before := LedgerOf(h[..|h| - 1], p);
      match h[|h| - 1]
      case Asked(k, d) =>
        if k != p then before else if before == Balanced then Outstanding(d) else Broken
      case Answered(k, d, _) =>
        if k != p then before else if before == Outstanding(d) then Balanced else Broken
  }

  /** The latest answer to `p`, as its server sent it. */
  ghost function LastAnswer(h: seq<Event>, p: nat): Option<Message> {
    if h == [] then None
    else match h[|h| - 1]
         case Answered(k, _, m) => if k == p then Some(m) else LastAnswer(h[..|h| - 1], p)
         case _ => LastAnswer(h[..|h| - 1], p)
  }

  lemma OneMoreEvent(h: seq<Event>, e: Event, p: nat)
    ensures LedgerOf(h + [e], p) ==
              match e
              case Asked(k, d) =>
                if k != p then LedgerOf(h, p)
                else if LedgerOf(h, p) == Balanced then Outstanding(d) else Broken
              case Answered(k, d, _) =>
                if k != p then LedgerOf(h, p)
                else if LedgerOf(h, p) == Outstanding(d) then Balanced else Broken
    ensures LastAnswer(h + [e], p) ==
              if e.Answered? && e.client == p then Some(e.m) else LastAnswer(h, p)
  {
    assert (h + [e])[..|h|] == h;
  }

  /** The server that still owes `p` an answer. */
  ghost function Unanswered(c: Ipc, gs: seq<Stage>, p: nat): Option<nat>
    requires |gs| == |c.procs| && p < |gs|
  {
    match gs[p]
    case Calling(_, d) => if d < |gs| && c.procs[d].status == Sending(p) then None else Some(d)
    case Awaiting(_, d) => if c.procs[p].status.Receiving? then Some(d) else None
    case _ => None
  }

  /** The answer that `p` has, or that is queued for it. */
  ghost function AnswerAt(c: Ipc, gs: seq<Stage>, p: nat): Option<Message>
    requires |gs| == |c.procs| && p < |gs|
  {
    match gs[p]
    case Calling(_, d) => if d < |gs| && c.procs[d].status == Sending(p) then Some(c.procs[d].buf) else None
    case Awaiting(_, d) => if c.procs[p].status.Ready? then Some(c.procs[p].buf) else None
    case _ => None
  }

  ghost predicate LedgerFits(c: Ipc, gs: seq<Stage>, h: seq<Event>, p: nat)
    requires |gs| == |c.procs| && p < |gs|
  {
    && LedgerOf(h, p) == (if Unanswered(c, gs, p).Some? then Outstanding(Unanswered(c, gs, p).value) else Balanced)
    && (AnswerAt(c, gs, p).Some? ==>
          LastAnswer(h, p).Some?
          && AnswerAt(c, gs, p).value == Stamped(LastAnswer(h, p).value, gs[p].server))
  }

  ghost predicate HistoryFits(c: Ipc, gs: seq<Stage>, h: seq<Event>)
    requires |gs| == |c.procs|
  {
    forall p :: 0 <= p < |gs| ==> LedgerFits(c, gs, h, p)
  }

  /** What a step that neither asks nor answers leaves as it was. */
  ghost predicate SameCalls(c: Ipc, gs: seq<Stage>, e: Ipc, hs: seq<Stage>, p: nat)
    requires |gs| == |c.procs| == |hs| == |e.procs| && p < |gs|
  {
    && Unanswered(e, hs, p) == Unanswered(c, gs, p)
    && (AnswerAt(e, hs, p).Some? ==>
          AnswerAt(e, hs, p) == AnswerAt(c, gs, p) && hs[p].server == gs[p].server)
  }

  lemma InformSameCalls(c: Ipc, gs: seq<Stage>, levels: seq<nat>, t: nat)
    requires Shape(c) && Disciplined(c, gs, levels) && t < |gs|
    ensures forall p :: 0 <= p < |gs| ==> SameCalls(c, gs, Inform(c, t), gs, p)
  {
    forall p | 0 <= p < |gs| ensures SameCalls(c, gs, Inform(c, t), gs, p) {
      assert StageFits(c, gs, levels, p);
    }
  }

  lemma AskCalls(c: Ipc, gs: seq<Stage>, levels: seq<nat>, me: nat, d: nat, m: Message)
    requires Coherent(c) && Disciplined(c, gs, levels) && me < |gs| && d < |gs| && IsReady(c, me)
    requires NextOf(gs[me], c.procs[me]).Free? && levels[me] < levels[d] && Send(c, me, d, m).Sent?
    ensures var e, hs := Send(c, me, d, m).ipc, gs[me := Calling(NextOf(gs[me], c.procs[me]).client, d)];
            && Unanswered(c, gs, me) == None && Unanswered(e, hs, me) == Some(d) && AnswerAt(e, hs, me) == None
            && forall p :: 0 <= p < |gs| && p != me ==> SameCalls(c, gs, e, hs, p)
  {
    var e, hs := Send(c, me, d, m).ipc, gs[me := Calling(NextOf(gs[me], c.procs[me]).client, d)];
    assert StageFits(c, gs, levels, d) && StageFits(c, gs, levels, me);
    forall p | 0 <= p < |gs| && p != me ensures SameCalls(c, gs, e, hs, p) {
      assert StageFits(c, gs, levels, p);
    }
  }

  lemma AnswerCalls(c: Ipc, gs: seq<Stage>, levels: seq<nat>, me: nat, q: nat, m: Message)
    requires Coherent(c) && Disciplined(c, gs, levels) && me < |gs| && IsReady(c, me)
    requires NextOf(gs[me], c.procs[me]) == Free(Some(q)) && q < |gs| && q != me && Send(c, me, q, m).Sent?
    ensures var e, hs := Send(c, me, q, m).ipc, gs[me := Answering(q)];
            && Unanswered(c, gs, q) == Some(me) && Unanswered(e, hs, q) == None
            && hs[q] == gs[q] && (gs[q].Calling? || gs[q].Awaiting?) && gs[q].server == me
            && AnswerAt(e, hs, q) == Some(Stamped(m, me))
            && forall p :: 0 <= p < |gs| && p != q ==> SameCalls(c, gs, e, hs, p)
  {
    AnswerIsSafe(c, gs, levels, me, q);
    var e, hs := Send(c, me, q, m).ipc, gs[me := Answering(q)];
    assert StageFits(c, gs, levels, q) && OpenIsServed(c, gs, q, me);
    forall p | 0 <= p < |gs| && p != q ensures SameCalls(c, gs, e, hs, p) {
      assert StageFits(c, gs, levels, p);
    }
  }

  lemma ReceiveSameCalls(c: Ipc, gs: seq<Stage>, levels: seq<nat>, me: nat, src: Source, m: Message, g: Stage)
    requires Coherent(c) && Disciplined(c, gs, levels) && me < |gs| && IsReady(c, me)
    requires SourceInRange(src, me, |gs|)
    requires MayReceive(levels, NextOf(gs[me], c.procs[me]), me, src)
    requires g == StageAfter(NextOf(gs[me], c.procs[me]), ReceiveStep(src, m))
    ensures var e, hs := Receive(c, me, src, m), gs[me := g];
            forall p :: 0 <= p < |gs| ==> SameCalls(c, gs, e, hs, p)
  {
    hide Grounded, NoMissedRendezvous, QueuesExact, Edges, Receive;
    var e, hs := Receive(c, me, src, m), gs[me := g];
    ReceiveEntries(c, me, src, m);
    if !TakesInterrupt(c, me, src) && Candidate(c, me, src).Some? {
      SenderIsClient(c, gs, levels, me, Candidate(c, me, src).value);
    }
    forall p | 0 <= p < |gs| ensures SameCalls(c, gs, e, hs, p) {
      assert StageFits(c, gs, levels, p);
    }
  }

  // ---------------------------------------------------------------- whole runs

  ghost predicate WorldInv(w: World, levels: seq<nat>) {
    && Inv(w.s) && !w.s.halted
    && Disciplined(w.s.ipc, w.stages, levels)
    && HistoryFits(w.s.ipc, w.stages, w.history)
  }

  /** At boot nobody has called anybody. */
  ghost predicate WorldInit(w: World, levels: seq<nat>) {
    && Init(w.s) && |w.stages| == |levels| == |w.s.ipc.procs| && w.history == []
    && forall p :: 0 <= p < |w.stages| ==> w.stages[p] == Idle
  }

  lemma InitWorldInv(w: World, levels: seq<nat>)
    requires WorldInit(w, levels)
    ensures WorldInv(w, levels)
  {
    InitInv(w.s);
    forall p | 0 <= p < |w.stages|
      ensures StageFits(w.s.ipc, w.stages, levels, p) && LedgerFits(w.s.ipc, w.stages, w.history, p)
    {
    }
  }

  lemma SameCallsFit(c: Ipc, gs: seq<Stage>, e: Ipc, hs: seq<Stage>, h: seq<Event>)
    requires |gs| == |c.procs| == |hs| == |e.procs| && HistoryFits(c, gs, h)
    requires forall p :: 0 <= p < |gs| ==> SameCalls(c, gs, e, hs, p)
    ensures HistoryFits(e, hs, h)
  {
    forall p | 0 <= p < |gs| ensures LedgerFits(e, hs, h, p) {
      assert LedgerFits(c, gs, h, p) && SameCalls(c, gs, e, hs, p);
    }
  }

  lemma AskFits(c: Ipc, gs: seq<Stage>, e: Ipc, hs: seq<Stage>, h: seq<Event>, me: nat, d: nat)
    requires |gs| == |c.procs| == |hs| == |e.procs| && HistoryFits(c, gs, h) && me < |gs|
    requires Unanswered(c, gs, me) == None && Unanswered(e, hs, me) == Some(d) && AnswerAt(e, hs, me) == None
    requires forall p :: 0 <= p < |gs| && p != me ==> SameCalls(c, gs, e, hs, p)
    ensures HistoryFits(e, hs, h + [Asked(me, d)])
  {
    forall p | 0 <= p < |gs| ensures LedgerFits(e, hs, h + [Asked(me, d)], p) {
      assert LedgerFits(c, gs, h, p) && (p != me ==> SameCalls(c, gs, e, hs, p));
      OneMoreEvent(h, Asked(me, d), p);
    }
  }

  lemma AnswerFits(c: Ipc, gs: seq<Stage>, e: Ipc, hs: seq<Stage>, h: seq<Event>, me: nat, q: nat, m: Message)
    requires |gs| == |c.procs| == |hs| == |e.procs| && HistoryFits(c, gs, h) && q < |gs|
    requires Unanswered(c, gs, q) == Some(me) && Unanswered(e, hs, q) == None
    requires (hs[q].Calling? || hs[q].Awaiting?) && hs[q].server == me
    requires AnswerAt(e, hs, q) == Some(Stamped(m, me))
    requires forall p :: 0 <= p < |gs| && p != q ==> SameCalls(c, gs, e, hs, p)
    ensures HistoryFits(e, hs, h + [Answered(q, me, m)])
  {
    forall p | 0 <= p < |gs| ensures LedgerFits(e, hs, h + [Answered(q, me, m)], p) {
      assert LedgerFits(c, gs, h, p) && (p != q ==> SameCalls(c, gs, e, hs, p));
      OneMoreEvent(h, Answered(q, me, m), p);
    }
  }

  lemma AskStep(w: World, levels: seq<nat>, d: nat, m: Message)
    requires WorldInv(w, levels) && Obeys(w, levels, SendStep(d, m))
    requires MayAsk(levels, NextOf(w.stages[w.s.current], w.s.ipc.procs[w.s.current]), w.s.current, d)
    requires !MayAnswer(NextOf(w.stages[w.s.current], w.s.ipc.procs[w.s.current]), d)
    ensures WorldInv(Advance(w, SendStep(d, m)), levels)
  {
    var me, c, gs := w.s.current, w.s.ipc, w.stages;
    var w' := Advance(w, SendStep(d, m));
    StepInv(w.s, SendStep(d, m));
    AskKeeps(c, gs, levels, me, d, m);
    AskCalls(c, gs, levels, me, d, m);
    assert w'.s.ipc == Send(c, me, d, m).ipc;
    AskFits(c, gs, w'.s.ipc, w'.stages, w.history, me, d);
  }

  lemma AnswerStep(w: World, levels: seq<nat>, q: nat, m: Message)
    requires WorldInv(w, levels) && Obeys(w, levels, SendStep(q, m))
    requires MayAnswer(NextOf(w.stages[w.s.current], w.s.ipc.procs[w.s.current]), q)
    ensures WorldInv(Advance(w, SendStep(q, m)), levels)
    ensures Open(w.s.ipc, w.stages, q, w.s.current)
  {
    var me, c, gs := w.s.current, w.s.ipc, w.stages;
    var w' := Advance(w, SendStep(q, m));
    StepInv(w.s, SendStep(q, m));
    AnswerIsSafe(c, gs, levels, me, q);
    AnswerKeeps(c, gs, levels, me, q, m);
    AnswerCalls(c, gs, levels, me, q, m);
    assert w'.s.ipc == Send(c, me, q, m).ipc;
    AnswerFits(c, gs, w'.s.ipc, w'.stages, w.history, me, q, m);
  }

  lemma ReceivingStep(w: World, levels: seq<nat>, src: Source, m: Message)
    requires WorldInv(w, levels) && Obeys(w, levels, ReceiveStep(src, m))
    ensures WorldInv(Advance(w, ReceiveStep(src, m)), levels)
  {
    var me, c, gs := w.s.current, w.s.ipc, w.stages;
    var w' := Advance(w, ReceiveStep(src, m));
    StepInv(w.s, ReceiveStep(src, m));
    match src {
      case AnyProc => ListenKeeps(c, gs, levels, me, m);
      case Hardware => DeviceWaitKeeps(c, gs, levels, me, m);
      case From(d) => AwaitKeeps(c, gs, levels, me, m);
    }
    var g := StageAfter(NextOf(gs[me], c.procs[me]), ReceiveStep(src, m));
    ReceiveSameCalls(c, gs, levels, me, src, m, g);
    assert w'.s.ipc == Receive(c, me, src, m);
    SameCallsFit(c, gs, w'.s.ipc, w'.stages, w.history);
  }

  /** A step of the discipline is never refused and keeps the books in order. */
  lemma WorldStep(w: World, levels: seq<nat>, step: Step)
    requires WorldInv(w, levels) && Obeys(w, levels, step)
    ensures WorldInv(Advance(w, step), levels)
  {
    match step
    case SendStep(d, m) =>
      if MayAnswer(NextOf(w.stages[w.s.current], w.s.ipc.procs[w.s.current]), d) {
        AnswerStep(w, levels, d, m);
      } else {
        AskStep(w, levels, d, m);
      }
    case ReceiveStep(src, m) => ReceivingStep(w, levels, src, m);
    case InformStep(t) =>
      StepInv(w.s, step);
      InformKeeps(w.s.ipc, w.stages, levels, t);
      InformSameCalls(w.s.ipc, w.stages, levels, t);
      SameCallsFit(w.s.ipc, w.stages, Inform(w.s.ipc, t), w.stages, w.history);
    case TickStep(_) => StepInv(w.s, step);
  }

  ghost predicate WorldRun(ws: seq<World>, levels: seq<nat>, steps: seq<Step>) {
    && |ws| == |steps| + 1
    && WorldInit(ws[0], levels)
    && forall i :: 0 <= i < |steps| ==>
         Obeys(ws[i], levels, steps[i]) && (Inv(ws[i].s) ==> ws[i + 1] == Advance(ws[i], steps[i]))
  }

  lemma {:induction false} WorldRunInv(ws: seq<World>, levels: seq<nat>, steps: seq<Step>, n: nat)
    requires WorldRun(ws, levels, steps) && n <= |steps|
    ensures WorldInv(ws[n], levels)
  {
    if n == 0 {
      InitWorldInv(ws[0], levels);
    } else {
      WorldRunInv(ws, levels, steps, n - 1);
      WorldStep(ws[n - 1], levels, steps[n - 1]);
    }
  }

  /** `p` has come back from a call of send_recv(BOTH) and not called the kernel since. */
  ghost predicate HasReturned(w: World, p: nat) {
    p < |w.stages| && p < |w.s.ipc.procs| && w.stages[p].Awaiting? && w.s.ipc.procs[p].status.Ready?
  }

  /**
   Layered calls, in every interleaving: the kernel never panics and no send is refused; for
   each client requests and answers alternate, every answer coming from the server asked; and
   a client whose call returned has the type and payload of that answer, as its server sent it,
   in its buffer, and the server as the source.
   */
  lemma LayeredCallsNeverPanic(ws: seq<World>, levels: seq<nat>, steps: seq<Step>, n: nat, p: nat)
    requires WorldRun(ws, levels, steps) && n <= |steps| && p < |levels|
    ensures Inv(ws[n].s) && !ws[n].s.halted
    ensures n < |steps| && steps[n].SendStep? ==>
              Send(ws[n].s.ipc, ws[n].s.current, steps[n].dest, steps[n].m).Sent?
    ensures LedgerOf(ws[n].history, p) != Broken
    ensures HasReturned(ws[n], p) ==>
              && LedgerOf(ws[n].history, p) == Balanced
              && LastAnswer(ws[n].history, p).Some?
              && ws[n].s.ipc.procs[p].buf.source == ws[n].stages[p].server
              && SameContent(ws[n].s.ipc.procs[p].buf, LastAnswer(ws[n].history, p).value)
  {
    WorldRunInv(ws, levels, steps, n);
    assert LedgerFits(ws[n].s.ipc, ws[n].stages, ws[n].history, p);
    if n < |steps| && steps[n].SendStep? {
      WorldRunInv(ws, levels, steps, n + 1);
    }
  }

  /** An answer goes only to a process whose request the server took and has not answered. */
  lemma AnswersAreAwaited(ws: seq<World>, levels: seq<nat>, steps: seq<Step>, n: nat)
    requires WorldRun(ws, levels, steps) && n < |steps| && steps[n].SendStep?
    requires Obeys(ws[n], levels, steps[n])
    requires MayAnswer(NextOf(ws[n].stages[ws[n].s.current], ws[n].s.ipc.procs[ws[n].s.current]), steps[n].dest)
    ensures Inv(ws[n].s) && |ws[n].stages| == |ws[n].s.ipc.procs|
    ensures Open(ws[n].s.ipc, ws[n].stages, steps[n].dest, ws[n].s.current)
    ensures LedgerOf(ws[n].history, steps[n].dest) == Outstanding(ws[n].s.current)
  {
    WorldRunInv(ws, levels, steps, n);
    AnswerStep(ws[n], levels, steps[n].dest, steps[n].m);
    var w, q := ws[n], steps[n].dest;
    assert LedgerFits(w.s.ipc, w.stages, w.history, q);
    AnswerCalls(w.s.ipc, w.stages, levels, w.s.current, q, steps[n].m);
  }

  // ---------------------------------------------------------------- nobody waits in a circle

  /** Whom a process waits for, be it to take a message or to send one. */
  ghost function WaitsOn(c: Ipc, p: nat): Option<nat>
    requires p < |c.procs|
  {
    match c.procs[p].status
    case Sending(d) => Some(d)
    case Receiving(src) => if src.From? then Some(src.pid) else None
    case Ready => None
  }

  /** Going from `p` to whom it waits for, again and again, ends after `k` processes at `x`. */
  ghost predicate WaitLeadsTo(c: Ipc, p: nat, k: nat, x: nat)
    requires Shape(c) && p < |c.procs|
    decreases k
  {
    if k == 0 then p == x && WaitsOn(c, p).None?
    else WaitsOn(c, p).Some? && WaitsOn(c, p).value < |c.procs| && WaitLeadsTo(c, WaitsOn(c, p).value, k - 1, x)
  }

  /** A process that can go on by itself, or as soon as its device does. */
  ghost predicate GoesOn(c: Ipc, x: nat) {
    x < |c.procs| && (c.procs[x].status.Ready? || c.procs[x].status == Receiving(Hardware))
  }

  /** A process in the middle of a call waits for one that is not listening. */
  lemma CalledIsBusy(c: Ipc, gs: seq<Stage>, levels: seq<nat>, p: nat)
    requires Coherent(c) && Disciplined(c, gs, levels) && p < |gs| && WaitsOn(c, p).Some?
    ensures var d := WaitsOn(c, p).value;
            && d < |gs| && c.procs[d].status != Receiving(AnyProc)
            && (levels[p] < levels[d] || c.procs[d].status.Ready?)
  {
    var d := WaitsOn(c, p).value;
    assert StageFits(c, gs, levels, p) && NothingMissed(c, p) && StatusInRange(c.procs[p].status, p, |gs|);
    assert QueueExact(c, d) && NothingMissed(c, d) && StageFits(c, gs, levels, d);
    assert OpenIsServed(c, gs, p, d);
  }

  lemma {:induction false} WaitEnds(c: Ipc, gs: seq<Stage>, levels: seq<nat>, p: nat, top: nat)
    returns (k: nat, x: nat)
    requires Coherent(c) && Disciplined(c, gs, levels) && p < |gs| && c.procs[p].status != Receiving(AnyProc)
    requires forall i :: 0 <= i < |levels| ==> levels[i] <= top
    ensures WaitLeadsTo(c, p, k, x) && GoesOn(c, x)
    decreases top - levels[p]
  {
    if WaitsOn(c, p).None? {
      k, x := 0, p;
    } else {
      CalledIsBusy(c, gs, levels, p);
      var d := WaitsOn(c, p).value;
      if c.procs[d].status.Ready? {
        k, x := 1, d;
        assert WaitLeadsTo(c, d, 0, d);
      } else {
        k, x := WaitEnds(c, gs, levels, d, top);
        k := k + 1;
      }
    }
  }

  ghost function Highest(levels: seq<nat>): (top: nat)
    ensures forall i :: 0 <= i < |levels| ==> levels[i] <= top
  {
    if levels == [] then 0
    else
      var h := Highest(levels[..|levels| - 1]);
      if levels[|levels| - 1] > h then levels[|levels| - 1] else h
  }

  /**
   Layered calls do not wait in a circle, not even one of receivers, which deadlock() would not
   notice: whoever waits for somebody waits, in the end, for a process that can go on.
   */
  lemma WaitersHaveRunner(ws: seq<World>, levels: seq<nat>, steps: seq<Step>, n: nat, p: nat)
    returns (k: nat, x: nat)
    requires WorldRun(ws, levels, steps) && n <= |steps| && p < |levels|
    requires p < |ws[n].s.ipc.procs| ==> ws[n].s.ipc.procs[p].status != Receiving(AnyProc)
    ensures Coherent(ws[n].s.ipc) && |ws[n].s.ipc.procs| == |levels|
    ensures WaitLeadsTo(ws[n].s.ipc, p, k, x) && GoesOn(ws[n].s.ipc, x)
  {
    WorldRunInv(ws, levels, steps, n);
    k, x := WaitEnds(ws[n].s.ipc, ws[n].stages, levels, p, Highest(levels));
  }

  // ---------------------------------------------------------------- the calls of the source

  const TASK_SYS: nat := 1
  const TASK_HD: nat := 2
  const TASK_FS: nat := 3

  /** Everybody may ask for the time, and the file system reads and writes disks. */
  ghost predicate SourceCalls(me: nat, d: nat) {
    (d == TASK_SYS && me != TASK_SYS) || (d == TASK_HD && me == TASK_FS)
  }

  ghost function SourceLevels(n: nat): (levels: seq<nat>)
    ensures |levels| == n
    ensures forall i :: 0 <= i < n ==> levels[i] == if i == TASK_SYS then 2 else if i == TASK_HD then 1 else 0
  {
    seq(n, i => if i == TASK_SYS then 2 else if i == TASK_HD then 1 else 0)
  }

  /** The calls that occur in the source lead up, so the theorem applies to them. */
  lemma SourceCallsLeadUp(n: nat, me: nat, d: nat, next: Next)
    requires me < n && d < n && SourceCalls(me, d) && next.Free?
    ensures MayAsk(SourceLevels(n), next, me, d)
  {
  }

  // ---------------------------------------------------------------- a server that is interrupted

  /** A server found an interrupt instead of a request; its program then serves nobody any more. */
  ghost predicate IsStuck(w: World, d: nat) {
    && d < |w.stages| && d < |w.s.ipc.procs|
    && w.s.ipc.procs[d].status.Ready? && NextOf(w.stages[d], w.s.ipc.procs[d]) == Stuck
  }

  lemma StuckReceiveIff(w: World, levels: seq<nat>, src: Source, m: Message, d: nat)
    requires WorldInv(w, levels) && Obeys(w, levels, ReceiveStep(src, m)) && d < |w.stages|
    ensures IsStuck(Advance(w, ReceiveStep(src, m)), d) <==>
              IsStuck(w, d) || (src == AnyProc && w.s.current == d && w.s.ipc.procs[d].intr)
  {
    hide Grounded, NoMissedRendezvous, QueuesExact, Edges, OpenIsServed, ServedIsOpen, HistoryFits, Receive;
    var me, c := w.s.current, w.s.ipc;
    assert StageFits(c, w.stages, levels, d);
    assert Advance(w, ReceiveStep(src, m)).s.ipc == Receive(c, me, src, m);
    ReceiveEntries(c, me, src, m);
    if !TakesInterrupt(c, me, src) && Candidate(c, me, src).Some? {
      SenderIsClient(c, w.stages, levels, me, Candidate(c, me, src).value);
    }
  }

  lemma SentAdvance(w: World, levels: seq<nat>, to: nat, m: Message)
    requires WorldInv(w, levels) && Obeys(w, levels, SendStep(to, m))
    ensures Send(w.s.ipc, w.s.current, to, m).Sent?
    ensures Advance(w, SendStep(to, m)).s.ipc == Send(w.s.ipc, w.s.current, to, m).ipc
  {
    WorldStep(w, levels, SendStep(to, m));
  }

  lemma StuckSendIff(w: World, levels: seq<nat>, to: nat, m: Message, d: nat)
    requires WorldInv(w, levels) && Obeys(w, levels, SendStep(to, m)) && d < |w.stages|
    ensures IsStuck(Advance(w, SendStep(to, m)), d) <==> IsStuck(w, d)
  {
    hide Coherent, Apply, Edges, OpenIsServed, ServedIsOpen, HistoryFits;
    assert StageFits(w.s.ipc, w.stages, levels, d);
    SentAdvance(w, levels, to, m);
  }

  /**
   A server gets stuck exactly when an interrupt meets its RECEIVE from ANY, because it arrives
   while the server waits there or because it was pending before; and it stays stuck.
   */
  lemma StuckIff(w: World, levels: seq<nat>, step: Step, d: nat)
    requires WorldInv(w, levels) && Obeys(w, levels, step) && d < |w.stages|
    ensures IsStuck(Advance(w, step), d) <==>
              || IsStuck(w, d)
              || (step == InformStep(d) && w.s.ipc.procs[d].status == Receiving(AnyProc))
              || (step.ReceiveStep? && step.src == AnyProc && w.s.current == d && w.s.ipc.procs[d].intr)
  {
    match step
    case SendStep(to, m) => StuckSendIff(w, levels, to, m, d);
    case ReceiveStep(src, m) => StuckReceiveIff(w, levels, src, m, d);
    case _ => assert StageFits(w.s.ipc, w.stages, levels, d);
  }

  /** A stuck server calls the kernel no more, and no step pays what it owes. */
  lemma StuckStep(w: World, levels: seq<nat>, step: Step, d: nat, p: nat)
    requires WorldInv(w, levels) && Obeys(w, levels, step) && IsStuck(w, d) && p < |levels|
    ensures WorldInv(Advance(w, step), levels) && IsStuck(Advance(w, step), d)
    ensures w.s.current == d ==> step.InformStep? || step.TickStep?
    ensures LedgerOf(w.history, p) == Outstanding(d) ==> LedgerOf(Advance(w, step).history, p) == Outstanding(d)
  {
    hide Apply, Inv;
    WorldStep(w, levels, step);
    StuckIff(w, levels, step, d);
    if step.SendStep? {
      var me := w.s.current;
      var e := if MayAnswer(NextOf(w.stages[me], w.s.ipc.procs[me]), step.dest)
               then Answered(step.dest, me, step.m) else Asked(me, step.dest);
      OneMoreEvent(w.history, e, p);
      assert LedgerFits(Advance(w, step).s.ipc, Advance(w, step).stages, Advance(w, step).history, p);
    }
  }

  /** Who has asked and not been answered has not returned from the call. */
  lemma OutstandingWaits(w: World, levels: seq<nat>, p: nat, d: nat)
    requires WorldInv(w, levels) && p < |levels| && LedgerOf(w.history, p) == Outstanding(d)
    ensures !HasReturned(w, p)
  {
    assert LedgerFits(w.s.ipc, w.stages, w.history, p);
  }

  /**
   A server that is stuck is stuck for ever: it calls the kernel no more, and whoever has asked
   it and not been answered never returns from that call.
   */
  lemma {:induction false} StuckForEver(ws: seq<World>, levels: seq<nat>, steps: seq<Step>, d: nat, i: nat, n: nat)
    requires WorldRun(ws, levels, steps) && i <= n <= |steps| && d < |levels| && IsStuck(ws[i], d)
    ensures IsStuck(ws[n], d)
    ensures forall j :: i <= j < n && ws[j].s.current == d ==> steps[j].InformStep? || steps[j].TickStep?
    ensures forall p :: 0 <= p < |levels| && LedgerOf(ws[i].history, p) == Outstanding(d) ==>
              LedgerOf(ws[n].history, p) == Outstanding(d) && !HasReturned(ws[n], p)
    decreases n
  {
    hide Advance, Obeys, IsStuck, LedgerOf, HasReturned, WorldInit;
    WorldRunInv(ws, levels, steps, n);
    if i < n {
      StuckForEver(ws, levels, steps, d, i, n - 1);
      WorldRunInv(ws, levels, steps, n - 1);
      StuckStep(ws[n - 1], levels, steps[n - 1], d, d);
    }
    forall p | 0 <= p < |levels| && LedgerOf(ws[i].history, p) == Outstanding(d)
      ensures LedgerOf(ws[n].history, p) == Outstanding(d) && !HasReturned(ws[n], p)
    {
      if i < n {
        StuckStep(ws[n - 1], levels, steps[n - 1], d, p);
      }
      OutstandingWaits(ws[n], levels, p, d);
    }
  }

  /** With two processes of priority 1, the first clock tick gives the CPU to the other one. */
  lemma OtherRuns(s: State)
    requires Inv(s) && |s.ipc.procs| == 2 && IsReady(s.ipc, 1)
    requires s.ticks == s.priority == [1, 1] && s.current == TASK_TTY
    ensures Tick(s, false).current == 1
  {
    TtyCanRun(s.(ticks := [0, 1]));
    assert s.ticks[s.current := s.ticks[s.current] - 1] == [0, 1];
    assert ReadyOf(s.ipc)[1];
  }

  lemma ListeningWaits(w: World, levels: seq<nat>, m: Message)
    requires WorldInv(w, levels) && Obeys(w, levels, ReceiveStep(AnyProc, m))
    requires w.s.ipc.queues[w.s.current] == [] && !w.s.ipc.procs[w.s.current].intr
    ensures var w', me := Advance(w, ReceiveStep(AnyProc, m)), w.s.current;
            && |w'.s.ipc.procs| == |w.s.ipc.procs| && w'.s.ipc.procs[me].status == Receiving(AnyProc)
            && w'.stages == w.stages[me := Listening] && !w'.s.halted
  {
    hide Coherent, Disciplined, HistoryFits;
    WorldStep(w, levels, ReceiveStep(AnyProc, m));
  }

  /** It happens: a server listens, and its task is informed of an interrupt. */
  lemma StuckHappens() returns (ws: seq<World>, levels: seq<nat>, steps: seq<Step>)
    ensures WorldRun(ws, levels, steps) && |levels| == 2 && IsStuck(ws[|steps|], 1)
  {
    hide Tick, Coherent, Disciplined, HistoryFits, Settle, Receive;
    var idle := Proc(Ready, ZERO_MESSAGE, false);
    var s := State(Ipc([idle, idle], [[], []]), [1, 1], [1, 1], TASK_TTY, false);
    levels, steps := [0, 1], [TickStep(false), ReceiveStep(AnyProc, ZERO_MESSAGE), InformStep(1)];
    var w0 := World(s, [Idle, Idle], []);
    InitWorldInv(w0, levels);
    var w1 := Advance(w0, steps[0]);
    WorldStep(w0, levels, steps[0]);
    OtherRuns(s);
    var w2 := Advance(w1, steps[1]);
    WorldStep(w1, levels, steps[1]);
    ListeningWaits(w1, levels, ZERO_MESSAGE);
    ws := [w0, w1, w2, Advance(w2, steps[2])];
  }
}
