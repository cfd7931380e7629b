/** What `schedule` reports. */
module ListSchedulingReport {
  /* The order, the entries, the makespan, the number of late transactions and the utilization, each said in terms
     of the transactions and the entries. */

  import opened ListScheduling
  import opened ListSchedulingBounds
  import opened Options
  import opened RealSums
  import opened StableSort

  // ---------------------------------------------------------------- the order

  /** x goes before y, where i and j are their places in the input. */
  predicate GoesFirst(x: Transaction, i: nat, y: Transaction, j: nat) {
    x.priority > y.priority
    || (x.priority == y.priority && (x.arrivalTime < y.arrivalTime || (x.arrivalTime == y.arrivalTime && i < j)))
  }

  /** Higher priority first, then earlier arrival, then the order of the input. */
  lemma OrderIs(txns: seq<Transaction>, order: seq<nat>)
    requires StableOrder(NotAfter, txns, order)
    ensures |order| == |txns| && forall a :: 0 <= a < |order| ==> order[a] < |txns|
    ensures forall a, b :: 0 <= a < b < |order| ==> GoesFirst(txns[order[a]], order[a], txns[order[b]], order[b])
  {
    forall a, b | 0 <= a < b < |order|
      ensures GoesFirst(txns[order[a]], order[a], txns[order[b]], order[b])
    {
      assert Before(NotAfter, txns, order[a], order[b]);
    }
  }

  // ---------------------------------------------------------------- the entries

  /** When resource r is free after the first k entries: at the end of the last of them on r, or at 0. */
  function FreeAt(ts: seq<Transaction>, entries: seq<ScheduleEntry>, k: nat, r: nat): real
    requires k <= |ts| == |entries|
  {
    if k == 0 then 0.0
    else if entries[k - 1].resourceId == r then entries[k - 1].startTime + ts[k - 1].duration
    else FreeAt(ts, entries, k - 1, r)
  }

  /** Each transaction gets the first of the resources that are free earliest, from when it is free and the
      transaction has arrived. */
  ghost predicate Greedy(ts: seq<Transaction>, entries: seq<ScheduleEntry>, m: nat, k: nat)
    requires k < |ts| == |entries|
  {
    var e, free := entries[k], FreeAt(ts, entries, k, entries[k].resourceId);
    && e.txnId == ts[k].id && e.resourceId < m
    && e.startTime == (if free >= ts[k].arrivalTime then free else ts[k].arrivalTime)
    && (forall r :: 0 <= r < m ==> free <= FreeAt(ts, entries, k, r))
    && (forall r :: 0 <= r < e.resourceId ==> free < FreeAt(ts, entries, k, r))
  }

  lemma {:induction false} FreePrefix(ts: seq<Transaction>, entries: seq<ScheduleEntry>, t: Transaction,
                                      e: ScheduleEntry, k: nat, r: nat)
    requires k <= |ts| == |entries|
    ensures FreeAt(ts + [t], entries + [e], k, r) == FreeAt(ts, entries, k, r)
  {
    if k > 0 {
      FreePrefix(ts, entries, t, e, k - 1, r);
    }
  }

  ghost predicate AvailIs(m: nat, ts: seq<Transaction>, p: Plan) {
    && |p.avail| == m && |p.entries| == |ts|
    && (forall r :: 0 <= r < m ==> p.avail[r] == FreeAt(ts, p.entries, |ts|, r))
    && forall k :: 0 <= k < |ts| ==> Greedy(ts, p.entries, m, k)
  }

  lemma GreedyStays(ts: seq<Transaction>, entries: seq<ScheduleEntry>, m: nat, t: Transaction, e: ScheduleEntry, k: nat)
    requires k < |ts| == |entries| && Greedy(ts, entries, m, k)
    ensures Greedy(ts + [t], entries + [e], m, k)
  {
    forall r: nat
      ensures FreeAt(ts + [t], entries + [e], k, r) == FreeAt(ts, entries, k, r)
    {
      FreePrefix(ts, entries, t, e, k, r);
    }
  }

  lemma ExtendIs(m: nat, ts: seq<Transaction>, p: Plan, t: Transaction)
    requires m > 0 && AvailIs(m, ts, p)
    ensures AvailIs(m, ts + [t], Extend(p, t))
  {
    var p', e := Extend(p, t), Extend(p, t).entries[|ts|];
    forall k | 0 <= k < |ts|
      ensures Greedy(ts + [t], p'.entries, m, k)
    {
      GreedyStays(ts, p.entries, m, t, e, k);
    }
    forall r: nat
      ensures FreeAt(ts + [t], p'.entries, |ts|, r) == FreeAt(ts, p.entries, |ts|, r)
    {
      FreePrefix(ts, p.entries, t, e, |ts|, r);
    }
  }

  lemma {:induction false} PlanIsGreedy(m: nat, ts: seq<Transaction>)
    requires m > 0
    ensures AvailIs(m, ts, PlanFor(m, ts))
  {
    if ts != [] {
      var k := |ts| - 1;
      PlanIsGreedy(m, ts[..k]);
      ExtendIs(m, ts[..k], PlanFor(m, ts[..k]), ts[k]);
      assert ts == ts[..k] + [ts[k]];
    }
  }

  // ---------------------------------------------------------------- the totals

  ghost function LateOnes(ts: seq<Transaction>, entries: seq<ScheduleEntry>): set<nat>
    requires |ts| == |entries|
  {
    set k | 0 <= k < |ts| && ts[k].deadline.Some? && entries[k].startTime + ts[k].duration > ts[k].deadline.value
  }

  lemma {:induction false} MissedAreLate(ts: seq<Transaction>, entries: seq<ScheduleEntry>)
    requires |ts| == |entries|
    ensures MissedCount(ts, entries) == |LateOnes(ts, entries)|
  {
    if ts != [] {
      var k := |ts| - 1;
      MissedAreLate(ts[..k], entries[..k]);
      var before := LateOnes(ts[..k], entries[..k]);
      assert LateOnes(ts, entries) == before + (if Misses(ts[k], entries[k]) then {k} else {});
    }
  }

  lemma IdleMeansNoWork(m: nat, ts: seq<Transaction>)
    requires m > 0 && Timely(ts) && Greatest(PlanFor(m, ts).avail) == 0.0
    ensures Total(ts) == 0.0
  {
    PlanFeasible(m, ts);
    SumAtMost(Durations(ts), 0.0);
    SumAtLeast(Durations(ts), 0.0);
    TimesZero(|ts|);
  }

  /** The share u of x. */
  function Of(u: real, x: real): real {
    u * x
  }

  lemma WholeShare(total: real, x: real)
    requires x > 0.0 && total / x <= 1.0
    ensures Of(if total / x < 1.0 then total / x else 1.0, x) == total
  {
    assert total / x * x == total;
  }

  lemma CapacityIs(m: nat, makespan: real)
    requires m > 0 && makespan > 0.0
    ensures Capacity(m, makespan) == Product(m, makespan)
  {
  }

  lemma NoShare(x: real)
    requires x > 0.0
    ensures 0.0 / x == 0.0
  {
  }

  lemma UsesShare(m: nat, ts: seq<Transaction>, makespan: real)
    requires m > 0 && Timely(ts) && makespan == Greatest(PlanFor(m, ts).avail)
    ensures var u := Utilization(m, Total(ts), makespan);
            if makespan > 0.0 then Of(u, Product(m, makespan)) == Total(ts) else u == 0.0
  {
    UtilizationNeedsNoCap(m, ts);
    if makespan == 0.0 {
      IdleMeansNoWork(m, ts);
      NoShare(Capacity(m, makespan));
    } else {
      CapacityIs(m, makespan);
      WholeShare(Total(ts), Product(m, makespan));
    }
  }

  /** The last resource to be free is free then. */
  ghost predicate OverAt(ts: seq<Transaction>, entries: seq<ScheduleEntry>, m: nat, makespan: real)
    requires |ts| == |entries|
  {
    && (forall i: nat :: i < m ==> FreeAt(ts, entries, |ts|, i) <= makespan)
    && (makespan == 0.0 || exists i: nat :: i < m && FreeAt(ts, entries, |ts|, i) == makespan)
  }

  lemma MakespanIs(m: nat, ts: seq<Transaction>, makespan: real)
    requires m > 0 && makespan == Greatest(PlanFor(m, ts).avail)
    ensures var entries := PlanFor(m, ts).entries;
            OverAt(ts, entries, m, makespan)
  {
    PlanIsGreedy(m, ts);
    var p := PlanFor(m, ts);
    if makespan != 0.0 {
      var i: nat :| i < |p.avail| && p.avail[i] == makespan;
      assert FreeAt(ts, p.entries, |ts|, i) == makespan;
    }
  }

  /** Everything that `schedule` returns, for the transactions in their one stable order: who goes where and when,
      the end of the last, how many are late, and the share of the capacity that the work takes. */
  lemma ReportExactly(txns: seq<Transaction>, m: nat, order: seq<nat>, r: ScheduleResult)
    requires Scheduled(txns, m, order, r)
    ensures |order| == |txns| == |r.assignments| && forall a :: 0 <= a < |order| ==> order[a] < |txns|
    ensures forall a, b :: 0 <= a < b < |order| ==> GoesFirst(txns[order[a]], order[a], txns[order[b]], order[b])
    ensures var ts := Picked(txns, order);
            && (forall k :: 0 <= k < |ts| ==> Greedy(ts, r.assignments, m, k))
            && OverAt(ts, r.assignments, m, r.makespan)
            && r.missedDeadlines == |LateOnes(ts, r.assignments)|
  {
    var ts := Picked(txns, order);
    OrderIs(txns, order);
    PlanIsGreedy(m, ts);
    MissedAreLate(ts, r.assignments);
    MakespanIs(m, ts, r.makespan);
  }

  /** The utilization is the share of m times the makespan that the work takes. */
  lemma UtilizationExactly(txns: seq<Transaction>, m: nat, order: seq<nat>, r: ScheduleResult)
    requires Scheduled(txns, m, order, r) && Timely(txns)
    ensures if r.makespan > 0.0 then Of(r.utilization, Product(m, r.makespan)) == Sum(Durations(txns))
            else r.utilization == 0.0
  {
    var ts := Picked(txns, order);
    OrderIs(txns, order);
    UsesShare(m, ts, r.makespan);
    TotalOfSorted(txns, ts);
  }
}
