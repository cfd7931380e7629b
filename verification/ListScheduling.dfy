/** The scheduler of results/v1/txn_scheduling_best.rs. */
module ListScheduling {
  /* Priority list scheduling over real times: what it computes. That its schedules are feasible, and how
     far they can be from the best possible, is in `ListSchedulingBounds`. */

  import opened Options
  import opened RealSums
  import opened StableSort

  datatype Transaction = Transaction(
    id: nat,
    duration: real,
    resourceRequirement: nat,
    priority: nat,
    arrivalTime: real,
    deadline: Option<real>)

  datatype ScheduleEntry = ScheduleEntry(txnId: nat, resourceId: nat, startTime: real)

  datatype ScheduleResult = ScheduleResult(
    assignments: seq<ScheduleEntry>,
    makespan: real,
    missedDeadlines: nat,
    utilization: real)

  // ---------------------------------------------------------------- the order of the transactions

  /** Higher priority first, then earlier arrival. */
  predicate NotAfter(a: Transaction, b: Transaction) {
    a.priority > b.priority || (a.priority == b.priority && a.arrivalTime <= b.arrivalTime)
  }

  // ---------------------------------------------------------------- the greedy plan

  /** When each resource is next available, and the entries made so far. */
  datatype Plan = Plan(avail: seq<real>, entries: seq<ScheduleEntry>)

  function StartOn(avail: seq<real>, t: Transaction): real
    requires avail != []
  {
    Max(avail[LeastIndex(avail)], t.arrivalTime)
  }

  function Extend(p: Plan, t: Transaction): Plan
    requires p.avail != []
  {
    var i := LeastIndex(p.avail);
    var start := StartOn(p.avail, t);
    Plan(p.avail[i := start + t.duration], p.entries + [ScheduleEntry(t.id, i, start)])
  }

  function Zeros(m: nat): seq<real> {
    seq(m, _ => 0.0)
  }

  function PlanFor(m: nat, ts: seq<Transaction>): (p: Plan)
    requires m > 0
    ensures |p.avail| == m && |p.entries| == |ts|
  {
    if ts == [] then Plan(Zeros(m), []) else Extend(PlanFor(m, ts[..|ts| - 1]), ts[|ts| - 1])
  }

  function Finish(t: Transaction, e: ScheduleEntry): real {
    e.startTime + t.duration
  }

  predicate Misses(t: Transaction, e: ScheduleEntry) {
    t.deadline.Some? && Finish(t, e) > t.deadline.value
  }

  function MissedCount(ts: seq<Transaction>, entries: seq<ScheduleEntry>): nat
    requires |ts| == |entries|
  {
    if ts == [] then 0
    else
      var k := |ts| - 1;
      MissedCount(ts[..k], entries[..k]) + if Misses(ts[k], entries[k]) then 1 else 0
  }

  function Durations(ts: seq<Transaction>): seq<real> {
    seq(|ts|, k requires 0 <= k < |ts| => ts[k].duration)
  }

  function Total(ts: seq<Transaction>): real {
    Sum(Durations(ts))
  }

  function Greatest(s: seq<real>): (r: real)
    ensures r >= 0.0 && forall k :: 0 <= k < |s| ==> s[k] <= r
    ensures r == 0.0 || r in s
  {
    if s == [] then 0.0 else Max(Greatest(s[..|s| - 1]), s[|s| - 1])
  }

  // ---------------------------------------------------------------- schedule

  /** Reserve a resource from when it is free and the transaction has arrived. */
  method TryReserve(avail: array<real>, i: nat, arrivalTime: real, duration: real) returns (start: real)
    requires i < avail.Length
    modifies avail
    ensures start == Max(old(avail[i]), arrivalTime)
    ensures avail[..] == old(avail[..])[i := start + duration]
  {
    start := Max(avail[i], arrivalTime);
    avail[i] := start + duration;
  }

  /** The first resource that is available earliest. */
  method BestResource(avail: array<real>) returns (best: nat)
    requires avail.Length > 0
    ensures best == LeastIndex(avail[..])
  {
    best := 0;
    var n := avail.Length;
    for k := 1 to n
      invariant best < k && best == LeastIndex(avail[..k])
    {
      assert avail[..k + 1][..k] == avail[..k];
      if avail[k] < avail[best] {
        best := k;
      }
    }
    assert avail[..n] == avail[..];
  }

  method Makespan(avail: array<real>) returns (makespan: real)
    ensures makespan == Greatest(avail[..])
  {
    makespan := 0.0;
    for k := 0 to avail.Length
      invariant makespan == Greatest(avail[..k])
    {
      assert avail[..k + 1][..k] == avail[..k];
      if avail[k] > makespan {
        makespan := avail[k];
      }
    }
    assert avail[..avail.Length] == avail[..];
  }

  function Capacity(m: nat, makespan: real): (c: real)
    requires m > 0
    ensures c > 0.0
  {
    if makespan > 0.0 then makespan * m as real else 1.0
  }

  function Utilization(m: nat, total: real, makespan: real): real
    requires m > 0
  {
    var u := total / Capacity(m, makespan);
    if u < 1.0 then u else 1.0
  }

  lemma PlanSnoc(m: nat, ts: seq<Transaction>, t: Transaction)
    requires m > 0
    ensures PlanFor(m, ts + [t]) == Extend(PlanFor(m, ts), t)
  {
    assert (ts + [t])[..|ts|] == ts;
  }

  lemma TotalSnoc(ts: seq<Transaction>, t: Transaction)
    ensures Total(ts + [t]) == Total(ts) + t.duration
  {
    assert Durations(ts + [t]) == Durations(ts) + [t.duration];
    SumSnoc(Durations(ts), t.duration);
  }

  lemma MissedSnoc(ts: seq<Transaction>, entries: seq<ScheduleEntry>, t: Transaction, e: ScheduleEntry)
    requires |ts| == |entries|
    ensures MissedCount(ts + [t], entries + [e]) == MissedCount(ts, entries) + if Misses(t, e) then 1 else 0
  {
    assert (ts + [t])[..|ts|] == ts && (entries + [e])[..|ts|] == entries;
  }

  /** What the loop of `schedule` has computed after the transactions `ts`. */
  ghost predicate Progress(m: nat, ts: seq<Transaction>, avail: seq<real>, assignments: seq<ScheduleEntry>,
                           busy: real, missed: nat)
  {
    && m > 0
    && Plan(avail, assignments) == PlanFor(m, ts)
    && busy == Total(ts)
    && missed == MissedCount(ts, assignments)
  }

  lemma NoProgress(m: nat)
    requires m > 0
    ensures Progress(m, [], Zeros(m), [], 0.0, 0)
  {
    assert Durations([]) == [];
  }

  lemma Progresses(m: nat, ts: seq<Transaction>, avail: seq<real>, assignments: seq<ScheduleEntry>, busy: real,
                   missed: nat, t: Transaction)
    requires Progress(m, ts, avail, assignments, busy, missed)
    ensures var p := Extend(Plan(avail, assignments), t);
            Progress(m, ts + [t], p.avail, p.entries, busy + t.duration,
                     missed + if Misses(t, p.entries[|ts|]) then 1 else 0)
  {
    PlanSnoc(m, ts, t);
    TotalSnoc(ts, t);
    var i := LeastIndex(avail);
    MissedSnoc(ts, assignments, t, ScheduleEntry(t.id, i, StartOn(avail, t)));
  }

  /** Reserve the best resource for one transaction. */
  method Place(avail: array<real>, t: Transaction) returns (entry: ScheduleEntry)
    requires avail.Length > 0
    modifies avail
    ensures entry == ScheduleEntry(t.id, LeastIndex(old(avail[..])), StartOn(old(avail[..]), t))
    ensures avail[..] == old(avail[..])[entry.resourceId := entry.startTime + t.duration]
  {
    var best := BestResource(avail);
    var start := TryReserve(avail, best, t.arrivalTime, t.duration);
    entry := ScheduleEntry(t.id, best, start);
  }

  /** The result for transactions in the order in which they are scheduled. */
  function ResultFor(m: nat, sorted: seq<Transaction>): ScheduleResult
    requires m > 0
  {
    var plan := PlanFor(m, sorted);
    ScheduleResult(plan.entries, Greatest(plan.avail), MissedCount(sorted, plan.entries),
                   Utilization(m, Total(sorted), Greatest(plan.avail)))
  }

  ghost predicate Scheduled(txns: seq<Transaction>, m: nat, order: seq<nat>, r: ScheduleResult) {
    && m > 0
    && StableOrder(NotAfter, txns, order)
    && multiset(Picked(txns, order)) == multiset(txns)
    && r == ResultFor(m, Picked(txns, order))
  }

  /** The loop over the sorted transactions, and what it adds up to. */
  method ScheduleSorted(ts: seq<Transaction>, m: nat) returns (r: ScheduleResult)
    requires m > 0
    ensures r == ResultFor(m, ts)
  {
    var avail := new real[m](_ => 0.0);
    var assignments: seq<ScheduleEntry> := [];
    var missed, busy := 0, 0.0;
    assert avail[..] == Zeros(m);
    NoProgress(m);
    for k := 0 to |ts|
      invariant Progress(m, ts[..k], avail[..], assignments, busy, missed)
    {
      var t := ts[k];
      assert ts[..k + 1] == ts[..k] + [t];
      Progresses(m, ts[..k], avail[..], assignments, busy, missed, t);
      var entry := Place(avail, t);
      busy := busy + t.duration;
      assignments := assignments + [entry];
      if t.deadline.Some? && Finish(t, entry) > t.deadline.value {
        missed := missed + 1;
      }
    }
    assert ts[..|ts|] == ts;
    var makespan := Makespan(avail);
    r := ScheduleResult(assignments, makespan, missed, Utilization(m, busy, makespan));
  }

  /** The greedy plan over the transactions in their one stable order, its makespan, its late
      transactions and the share of the capacity it uses. */
  method Schedule(txns: seq<Transaction>, m: nat) returns (r: ScheduleResult)
    requires m > 0
    ensures exists order :: Scheduled(txns, m, order, r)
  {
    var order := Sort(NotAfter, txns);
    r := ScheduleSorted(Picked(txns, order), m);
    assert Scheduled(txns, m, order, r);
  }
}
