/**
 The choice made by schedule() (kernel/proc.c) and the accounting of clock_handler()
 (kernel/clock.c), on the vectors of remaining ticks and priorities.
 */
module Scheduling {

  /** A process table as schedule() sees it: who is runnable, ticks left, and priorities. */
  datatype Load = Load(ready: seq<bool>, ticks: seq<nat>, priority: seq<nat>) {
    ghost predicate Valid() {
      |ready| == |ticks| == |priority|
    }

    /** Somebody runnable will have ticks after a refill, so schedule() comes to an end. */
    ghost predicate CanRun() {
      Valid() && exists i :: 0 <= i < |ready| && ready[i] && priority[i] > 0
    }
  }

  /** The scan of schedule() over the first `n` entries: the winner so far, or -1. */
  function Scan(ready: seq<bool>, ticks: seq<nat>, n: nat): (best: int)
    requires n <= |ready| == |ticks|
    ensures -1 <= best < n
  {
    if n == 0 then -1
    else
      var b := Scan(ready, ticks, n - 1);
      if ready[n - 1] && ticks[n - 1] > (if b == -1 then 0 else ticks[b]) then n - 1 else b
  }

  /** `i` is runnable with the most ticks left, and the first such process in the table. */
  ghost predicate IsChoice(ready: seq<bool>, ticks: seq<nat>, i: nat)
    requires |ready| == |ticks|
  {
    && i < |ready| && ready[i] && ticks[i] > 0
    && (forall j :: 0 <= j < |ready| && ready[j] ==> ticks[j] <= ticks[i])
    && (forall j :: 0 <= j < i && ready[j] ==> ticks[j] < ticks[i])
  }

  ghost predicate Exhausted(ready: seq<bool>, ticks: seq<nat>)
    requires |ready| == |ticks|
  {
    forall j :: 0 <= j < |ready| && ready[j] ==> ticks[j] == 0
  }

  lemma {:induction false} ScanPrefix(ready: seq<bool>, ticks: seq<nat>, n: nat)
    requires n <= |ready| == |ticks|
    ensures var b := Scan(ready, ticks, n);
            && (b == -1 ==> forall j :: 0 <= j < n && ready[j] ==> ticks[j] == 0)
            && (b != -1 ==>
                  && ready[b] && ticks[b] > 0
                  && (forall j :: 0 <= j < n && ready[j] ==> ticks[j] <= ticks[b])
                  && (forall j :: 0 <= j < b && ready[j] ==> ticks[j] < ticks[b]))
  {
    if n > 0 {
      ScanPrefix(ready, ticks, n - 1);
    }
  }

  /** The scan finds the choice exactly when some runnable process has ticks left. */
  lemma ScanFindsChoice(ready: seq<bool>, ticks: seq<nat>)
    requires |ready| == |ticks|
    ensures var b := Scan(ready, ticks, |ready|);
            && (b == -1 <==> Exhausted(ready, ticks))
            && (forall i: nat :: i == b <==> IsChoice(ready, ticks, i))
  {
    ScanPrefix(ready, ticks, |ready|);
  }

  /** The refill of schedule(): only runnable processes get new ticks. */
  ghost function Refill(l: Load): (t: seq<nat>)
    requires l.Valid()
    ensures |t| == |l.ticks|
    ensures forall i :: 0 <= i < |t| ==> t[i] == if l.ready[i] then l.priority[i] else l.ticks[i]
  {
    seq(|l.ticks|, i requires 0 <= i < |l.ticks| => if l.ready[i] then l.priority[i] else l.ticks[i])
  }

  /** The ticks schedule() leaves behind. */
  ghost function ScheduledTicks(l: Load): (t: seq<nat>)
    requires l.Valid()
    ensures |t| == |l.ticks|
  {
    if Exhausted(l.ready, l.ticks) then Refill(l) else l.ticks
  }

  /** The process schedule() selects. */
  ghost function Chosen(l: Load): (i: nat)
    requires l.CanRun()
    ensures IsChoice(l.ready, ScheduledTicks(l), i)
  {
    var t := ScheduledTicks(l);
    ScanFindsChoice(l.ready, t);
    assert !Exhausted(l.ready, t) by {
      var i :| 0 <= i < |l.ready| && l.ready[i] && l.priority[i] > 0;
      if Exhausted(l.ready, l.ticks) {
        assert t[i] == l.priority[i];
      }
    }
    Scan(l.ready, t, |l.ready|)
  }

  /** With nobody runnable of positive priority and no ticks left, a round changes nothing. */
  lemma RefillStuckIff(l: Load)
    requires l.Valid() && Exhausted(l.ready, l.ticks)
    ensures Exhausted(l.ready, Refill(l)) <==> !l.CanRun()
  {
    if !l.CanRun() {
    } else {
      var i :| 0 <= i < |l.ready| && l.ready[i] && l.priority[i] > 0;
      assert Refill(l)[i] > 0;
    }
  }

  // ---------------------------------------------------------------- sums

  ghost function Sum(s: seq<nat>): nat {
    if s == [] then 0 else Sum(s[..|s| - 1]) + s[|s| - 1]
  }

  lemma {:induction false} SumUpdate(s: seq<nat>, i: nat, v: nat)
    requires i < |s|
    ensures Sum(s[i := v]) == Sum(s) - s[i] + v
    decreases |s|
  {
    var n := |s| - 1;
    if i == n {
      assert s[i := v][..n] == s[..n];
    } else {
      assert s[i := v][..n] == s[..n][i := v];
      SumUpdate(s[..n], i, v);
    }
  }

  lemma {:induction false} SumMonotone(s: seq<nat>, t: seq<nat>)
    requires |s| == |t| && forall i :: 0 <= i < |s| ==> s[i] <= t[i]
    ensures Sum(s) <= Sum(t)
    decreases |s|
  {
    if s != [] {
      SumMonotone(s[..|s| - 1], t[..|t| - 1]);
    }
  }

  lemma {:induction false} SumAtLeast(s: seq<nat>, i: nat)
    requires i < |s|
    ensures s[i] <= Sum(s)
    decreases |s|
  {
    if i < |s| - 1 {
      SumAtLeast(s[..|s| - 1], i);
    }
  }
}
