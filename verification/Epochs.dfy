/** The bookkeeping of one scheduling epoch on vectors: ticks left, ticks charged, priorities. */
module Epochs {
  import opened Scheduling

  /** The vector `v` with the entries of processes that cannot run replaced by 0. */
  ghost function OfRunnable(ready: seq<bool>, v: seq<nat>): (m: seq<nat>)
    requires |ready| == |v|
    ensures |m| == |v| && forall i :: 0 <= i < |m| ==> m[i] == if ready[i] then v[i] else 0
  {
    seq(|v|, i requires 0 <= i < |v| => if ready[i] then v[i] else 0)
  }

  lemma SumZeroIff(ready: seq<bool>, v: seq<nat>)
    requires |ready| == |v|
    ensures Sum(OfRunnable(ready, v)) == 0 <==> Exhausted(ready, v)
  {
    var m := OfRunnable(ready, v);
    if Sum(m) == 0 {
      forall i | 0 <= i < |v| && ready[i] ensures v[i] == 0 {
        SumAtLeast(m, i);
      }
    }
    if Exhausted(ready, v) {
      SumOfZeros(m);
    }
  }

  lemma {:induction false} SumOfZeros(m: seq<nat>)
    requires forall i :: 0 <= i < |m| ==> m[i] == 0
    ensures Sum(m) == 0
    decreases |m|
  {
    if m != [] {
      SumOfZeros(m[..|m| - 1]);
    }
  }

  /** What runnable processes have left and were charged adds up to their priorities. */
  ghost predicate Balanced(ready: seq<bool>, priority: seq<nat>, start: seq<nat>, ticks: seq<nat>, charged: seq<nat>)
    requires |ready| == |priority| == |start| == |ticks| == |charged|
  {
    forall i :: 0 <= i < |ready| ==>
      if ready[i] then ticks[i] + charged[i] == priority[i]
      else ticks[i] == start[i] && charged[i] == 0
  }

  /** Nobody has more than one tick more left than a process that was charged. */
  ghost predicate Even(ready: seq<bool>, ticks: seq<nat>, charged: seq<nat>)
    requires |ready| == |ticks| == |charged|
  {
    forall i, j :: 0 <= i < |ready| && 0 <= j < |ready| && charged[i] > 0 && ready[j] ==>
      ticks[j] <= ticks[i] + 1
  }

  ghost predicate Underway(ready: seq<bool>, priority: seq<nat>, start: seq<nat>,
                           ticks: seq<nat>, charged: seq<nat>, k: nat)
  {
    && |ready| == |priority| == |start| == |ticks| == |charged|
    && Balanced(ready, priority, start, ticks, charged)
    && Even(ready, ticks, charged)
    && Sum(OfRunnable(ready, ticks)) + k == Sum(OfRunnable(ready, priority))
  }

  lemma UnderwayStart(ready: seq<bool>, priority: seq<nat>, start: seq<nat>)
    requires |ready| == |priority| == |start|
    requires forall i :: 0 <= i < |ready| && ready[i] ==> start[i] == priority[i]
    ensures Underway(ready, priority, start, start, seq(|start|, i => 0), 0)
  {
    assert OfRunnable(ready, start) == OfRunnable(ready, priority);
  }

  /** Charging one tick to the choice of schedule() keeps the books. */
  lemma UnderwayStep(ready: seq<bool>, priority: seq<nat>, start: seq<nat>,
                     ticks: seq<nat>, charged: seq<nat>, k: nat, c: nat)
    requires Underway(ready, priority, start, ticks, charged, k)
    requires IsChoice(ready, ticks, c)
    ensures Underway(ready, priority, start, ticks[c := ticks[c] - 1], charged[c := charged[c] + 1], k + 1)
  {
    var after := ticks[c := ticks[c] - 1];
    assert OfRunnable(ready, after) == OfRunnable(ready, ticks)[c := ticks[c] - 1];
    SumUpdate(OfRunnable(ready, ticks), c, ticks[c] - 1);
  }

  // ---------------------------------------------------------------- ticks of one epoch

  /** What clock ticks change while the set of runnable processes stays the same. */
  datatype Clock = Clock(ticks: seq<nat>, current: nat, charged: seq<nat>)

  /** The processor time bookkeeping is in order, and schedule() has just decided. */
  ghost predicate Decided(l: Load, c: Clock) {
    && l.CanRun() && |c.ticks| == |c.charged| == |l.ready|
    && IsChoice(l.ready, c.ticks, c.current)
  }

  /** Charge the current process one tick and let schedule() decide anew. */
  ghost function NextTick(l: Load, c: Clock): (d: Clock)
    requires Decided(l, c)
    ensures Decided(l, d)
  {
    var left := Load(l.ready, c.ticks[c.current := c.ticks[c.current] - 1], l.priority);
    assert left.CanRun() by {
      var i :| 0 <= i < |l.ready| && l.ready[i] && l.priority[i] > 0;
      assert left.ready[i] && left.priority[i] > 0;
    }
    Clock(ScheduledTicks(left), Chosen(left), c.charged[c.current := c.charged[c.current] + 1])
  }

  ghost function AfterTicks(l: Load, c: Clock, k: nat): (d: Clock)
    requires Decided(l, c)
    ensures Decided(l, d)
  {
    if k == 0 then c else NextTick(l, AfterTicks(l, c, k - 1))
  }

  ghost predicate MidEpoch(l: Load, start: seq<nat>, c: Clock, k: nat) {
    Underway(l.ready, l.priority, start, c.ticks, c.charged, k)
  }

  /** The clock right after a refill. */
  ghost predicate Fresh(l: Load, c: Clock) {
    && Decided(l, c)
    && (forall i :: 0 <= i < |l.ready| && l.ready[i] ==> c.ticks[i] == l.priority[i])
    && c.charged == seq(|l.ready|, i => 0)
  }

  /** The books after charging the current process, before schedule() decides. */
  lemma ChargeUnderway(l: Load, start: seq<nat>, d: Clock, k: nat)
    requires Decided(l, d) && MidEpoch(l, start, d, k)
    ensures Underway(l.ready, l.priority, start, d.ticks[d.current := d.ticks[d.current] - 1],
                     d.charged[d.current := d.charged[d.current] + 1], k + 1)
  {
    UnderwayStep(l.ready, l.priority, start, d.ticks, d.charged, k, d.current);
  }

  /** Before the last tick of an epoch schedule() finds ticks left and refills nobody. */
  lemma NoRefillYet(l: Load, start: seq<nat>, d: Clock, k: nat)
    requires Decided(l, d) && MidEpoch(l, start, d, k) && k + 1 < Sum(OfRunnable(l.ready, l.priority))
    ensures NextTick(l, d).ticks == d.ticks[d.current := d.ticks[d.current] - 1]
  {
    ChargeUnderway(l, start, d, k);
    SumZeroIff(l.ready, d.ticks[d.current := d.ticks[d.current] - 1]);
  }

  lemma MidEpochStep(l: Load, start: seq<nat>, d: Clock, k: nat)
    requires Decided(l, d) && MidEpoch(l, start, d, k) && k + 1 < Sum(OfRunnable(l.ready, l.priority))
    ensures MidEpoch(l, start, NextTick(l, d), k + 1)
  {
    NoRefillYet(l, start, d, k);
    ChargeUnderway(l, start, d, k);
  }

  lemma {:induction false} EpochProgress(l: Load, c: Clock, k: nat)
    requires Fresh(l, c) && k < Sum(OfRunnable(l.ready, l.priority))
    ensures MidEpoch(l, c.ticks, AfterTicks(l, c, k), k)
    decreases k
  {
    hide Underway, IsChoice, NextTick;
    if k == 0 {
      UnderwayStart(l.ready, l.priority, c.ticks);
    } else {
      EpochProgress(l, c, k - 1);
      MidEpochStep(l, c.ticks, AfterTicks(l, c, k - 1), k - 1);
    }
  }

  /** The last tick of an epoch refills everybody who can run. */
  lemma LastTick(l: Load, c: Clock, d: Clock, k: nat)
    requires Fresh(l, c) && Decided(l, d) && MidEpoch(l, c.ticks, d, k)
    requires k + 1 == Sum(OfRunnable(l.ready, l.priority))
    ensures NextTick(l, d) == Clock(c.ticks, c.current, OfRunnable(l.ready, l.priority))
  {
    ChargeUnderway(l, c.ticks, d, k);
    var left := d.ticks[d.current := d.ticks[d.current] - 1];
    SumZeroIff(l.ready, left);
    var e := NextTick(l, d);
    RefillRestores(l, c.ticks, left, e.charged);
    assert e.ticks == c.ticks;
    ScanFindsChoice(l.ready, c.ticks);
  }

  lemma RefillRestores(l: Load, start: seq<nat>, left: seq<nat>, charged: seq<nat>)
    requires l.Valid() && |start| == |left| == |charged| == |l.ready|
    requires forall i :: 0 <= i < |l.ready| && l.ready[i] ==> start[i] == l.priority[i]
    requires Balanced(l.ready, l.priority, start, left, charged) && Exhausted(l.ready, left)
    ensures Refill(Load(l.ready, left, l.priority)) == start
    ensures charged == OfRunnable(l.ready, l.priority)
  {
  }
}
