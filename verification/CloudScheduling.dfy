/** Greedy cheapest-first scheduling, over real times and costs. */
module CloudScheduling {
  /* The scheduler of tools/vf-evolve/tasks/cloud_scheduling/initial.rs. */

  import opened Options
  import opened RealSums
  import opened StableSort

  datatype Job = Job(
    id: nat,
    cpuCores: nat,
    memoryGb: real,
    durationHours: real,
    deadlineHours: real,
    priority: nat,
    arrivalTime: real)

  datatype InstanceType = InstanceType(
    id: nat,
    cpuCores: nat,
    memoryGb: real,
    costPerHour: real,
    availableCount: nat)

  datatype ScheduleEntry = ScheduleEntry(
    jobId: nat,
    instanceTypeId: nat,
    startTime: real,
    endTime: real,
    cost: real)

  datatype SchedulingResult = SchedulingResult(
    schedule: seq<ScheduleEntry>,
    totalCost: real,
    missedDeadlines: nat,
    avgWaitTime: real)

  // ---------------------------------------------------------------- the choice for one job

  predicate CheaperOrEqual(a: InstanceType, b: InstanceType) {
    a.costPerHour <= b.costPerHour
  }

  predicate ArrivesFirst(a: Job, b: Job) {
    a.arrivalTime <= b.arrivalTime
  }

  predicate Fits(it: InstanceType, job: Job) {
    it.cpuCores >= job.cpuCores && it.memoryGb >= job.memoryGb
  }

  /** The first position of a type with the given id, from `from` on. */
  function PositionFrom(types: seq<InstanceType>, id: nat, from: nat): (i: nat)
    requires exists k :: from <= k < |types| && types[k].id == id
    ensures from <= i < |types| && types[i].id == id
    ensures forall k :: from <= k < i ==> types[k].id != id
    decreases |types| - from
  {
    if types[from].id == id then from else PositionFrom(types, id, from + 1)
  }

  /** The position whose copies are used for the type at position k: the first with its id. */
  function Original(types: seq<InstanceType>, k: nat): (i: nat)
    requires k < |types|
    ensures i <= k && types[i].id == types[k].id
  {
    PositionFrom(types, types[k].id, 0)
  }

  /** The type at position k fits and has copies to run on. */
  predicate Suitable(types: seq<InstanceType>, k: nat, job: Job)
    requires k < |types|
  {
    Fits(types[k], job) && types[Original(types, k)].availableCount > 0
  }

  ghost predicate Positions(types: seq<InstanceType>, order: seq<nat>) {
    forall a :: 0 <= a < |order| ==> order[a] < |types|
  }

  /** The first suitable type in the given order. */
  function Choose(types: seq<InstanceType>, order: seq<nat>, job: Job): (choice: Option<nat>)
    requires Positions(types, order)
    ensures choice.Some? ==> choice.value < |types|
  {
    if order == [] then None
    else if Suitable(types, order[0], job) then Some(order[0])
    else Choose(types, order[1..], job)
  }

  // ---------------------------------------------------------------- the plan

  /** Which job, in order of arrival, runs on which copy of which type. */
  datatype Placed = Placed(job: nat, typeIdx: nat, copy: nat)

  /** The state after some jobs: when each copy is free, the schedule with its placements, and the
      number of jobs for which nothing was found. */
  datatype Plan = Plan(avail: seq<seq<real>>, schedule: seq<ScheduleEntry>, placed: seq<Placed>, dropped: nat)

  function JobCost(hours: real, rate: real): real {
    hours * rate
  }

  function NewEntry(job: Job, it: InstanceType, free: real): ScheduleEntry {
    var start := Max(free, job.arrivalTime);
    ScheduleEntry(job.id, it.id, start, start + job.durationHours, JobCost(job.durationHours, it.costPerHour))
  }

  ghost predicate Shaped(types: seq<InstanceType>, avail: seq<seq<real>>) {
    |avail| == |types| && forall i :: 0 <= i < |types| ==> |avail[i]| == types[i].availableCount
  }

  function Extend(types: seq<InstanceType>, order: seq<nat>, p: Plan, job: Job, n: nat): (p': Plan)
    requires Positions(types, order) && Shaped(types, p.avail)
    ensures Shaped(types, p'.avail)
  {
    match Choose(types, order, job)
    case None => p.(dropped := p.dropped + 1)
    case Some(k) =>
      var i := Original(types, k);
      assert Suitable(types, k, job) by { ChosenSuitable(types, order, job); }
      var c := LeastIndex(p.avail[i]);
      var e := NewEntry(job, types[i], p.avail[i][c]);
      Plan(p.avail[i := p.avail[i][c := e.endTime]], p.schedule + [e], p.placed + [Placed(n, i, c)], p.dropped)
  }

  /** What is chosen is suitable, and nothing before it in the order is. */
  lemma {:induction false} ChosenSuitable(types: seq<InstanceType>, order: seq<nat>, job: Job)
    requires Positions(types, order)
    ensures match Choose(types, order, job)
            case None => forall a :: 0 <= a < |order| ==> !Suitable(types, order[a], job)
            case Some(k) => exists a :: 0 <= a < |order| && order[a] == k && Suitable(types, k, job)
                              && forall b :: 0 <= b < a ==> !Suitable(types, order[b], job)
  {
    if order != [] && !Suitable(types, order[0], job) {
      ChosenSuitable(types, order[1..], job);
      if Choose(types, order, job).Some? {
        var k := Choose(types, order, job).value;
        var a :| 0 <= a < |order| - 1 && order[1..][a] == k && Suitable(types, k, job)
                 && forall b :: 0 <= b < a ==> !Suitable(types, order[1..][b], job);
        assert order[a + 1] == k;
        forall b | 0 <= b < a + 1
          ensures !Suitable(types, order[b], job)
        {
          assert b == 0 || order[b] == order[1..][b - 1];
        }
      }
    }
  }

  function Idle(types: seq<InstanceType>): (avail: seq<seq<real>>)
    ensures Shaped(types, avail)
  {
    seq(|types|, i requires 0 <= i < |types| => seq(types[i].availableCount, _ => 0.0))
  }

  /** The plan for the jobs in order of arrival. */
  function PlanFor(types: seq<InstanceType>, order: seq<nat>, jobs: seq<Job>): (p: Plan)
    requires Positions(types, order)
    ensures Shaped(types, p.avail)
  {
    if jobs == [] then Plan(Idle(types), [], [], 0)
    else Extend(types, order, PlanFor(types, order, jobs[..|jobs| - 1]), jobs[|jobs| - 1], |jobs| - 1)
  }

  // ---------------------------------------------------------------- the totals

  function TotalCost(schedule: seq<ScheduleEntry>): real {
    if schedule == [] then 0.0 else TotalCost(schedule[..|schedule| - 1]) + schedule[|schedule| - 1].cost
  }

  ghost predicate Matching(jobs: seq<Job>, schedule: seq<ScheduleEntry>, placed: seq<Placed>) {
    |schedule| == |placed| && forall k :: 0 <= k < |placed| ==> placed[k].job < |jobs|
  }

  function TotalWait(jobs: seq<Job>, schedule: seq<ScheduleEntry>, placed: seq<Placed>): real
    requires Matching(jobs, schedule, placed)
  {
    if schedule == [] then 0.0
    else
      var k := |schedule| - 1;
      TotalWait(jobs, schedule[..k], placed[..k]) + (schedule[k].startTime - jobs[placed[k].job].arrivalTime)
  }

  predicate Late(job: Job, e: ScheduleEntry) {
    e.endTime > job.arrivalTime + job.deadlineHours
  }

  function LateCount(jobs: seq<Job>, schedule: seq<ScheduleEntry>, placed: seq<Placed>): nat
    requires Matching(jobs, schedule, placed)
  {
    if schedule == [] then 0
    else
      var k := |schedule| - 1;
      LateCount(jobs, schedule[..k], placed[..k]) + if Late(jobs[placed[k].job], schedule[k]) then 1 else 0
  }

  lemma CostSnoc(schedule: seq<ScheduleEntry>, e: ScheduleEntry)
    ensures TotalCost(schedule + [e]) == TotalCost(schedule) + e.cost
  {
    assert (schedule + [e])[..|schedule|] == schedule;
  }

  lemma CountsSnoc(jobs: seq<Job>, schedule: seq<ScheduleEntry>, placed: seq<Placed>, e: ScheduleEntry, q: Placed)
    requires Matching(jobs, schedule, placed) && q.job < |jobs|
    ensures TotalWait(jobs, schedule + [e], placed + [q])
         == TotalWait(jobs, schedule, placed) + (e.startTime - jobs[q.job].arrivalTime)
    ensures LateCount(jobs, schedule + [e], placed + [q])
         == LateCount(jobs, schedule, placed) + if Late(jobs[q.job], e) then 1 else 0
  {
    assert (schedule + [e])[..|schedule|] == schedule && (placed + [q])[..|schedule|] == placed;
  }

  // ---------------------------------------------------------------- schedule_jobs

  /** `iter().position` on the ids. */
  method Position(types: seq<InstanceType>, k: nat) returns (i: nat)
    requires k < |types|
    ensures i == Original(types, k)
  {
    i := 0;
    while types[i].id != types[k].id
      invariant i <= k
      invariant Original(types, k) == PositionFrom(types, types[k].id, i)
      decreases k - i
    {
      i := i + 1;
    }
  }

  /** `min_by` on the copies: the first of the least. */
  method EarliestCopy(avail: seq<real>) returns (c: nat)
    requires avail != []
    ensures c == LeastIndex(avail)
  {
    c := 0;
    for k := 1 to |avail|
      invariant c < k && c == LeastIndex(avail[..k])
    {
      assert avail[..k + 1][..k] == avail[..k];
      if avail[k] < avail[c] {
        c := k;
      }
    }
    assert avail[..|avail|] == avail;
  }

  /** The inner loop: the first type in order of cost that fits and has copies. */
  method FindOption(types: seq<InstanceType>, order: seq<nat>, avail: array<seq<real>>, job: Job)
    returns (choice: Option<(nat, nat, real)>)
    requires Positions(types, order) && Shaped(types, avail[..])
    ensures match Choose(types, order, job)
            case None => choice == None
            case Some(k) =>
              var i := Original(types, k);
              && avail[i] != []
              && choice == Some((i, LeastIndex(avail[i]), Max(avail[i][LeastIndex(avail[i])], job.arrivalTime)))
  {
    assert order[0..] == order;
    for a := 0 to |order|
      invariant Choose(types, order, job) == Choose(types, order[a..], job)
    {
      assert order[a..][0] == order[a] && order[a..][1..] == order[a + 1..];
      var k := order[a];
      if types[k].cpuCores >= job.cpuCores && types[k].memoryGb >= job.memoryGb {
        var i := Position(types, k);
        assert |avail[..][i]| == types[i].availableCount;
        if |avail[i]| > 0 {
          var c := EarliestCopy(avail[i]);
          return Some((i, c, Max(avail[i][c], job.arrivalTime)));
        }
      }
    }
    choice := None;
  }

  ghost predicate Progress(types: seq<InstanceType>, order: seq<nat>, jobs: seq<Job>, n: nat, p: Plan,
                           cost: real, missed: nat, wait: real)
  {
    && n <= |jobs| && Positions(types, order)
    && p == PlanFor(types, order, jobs[..n])
    && Matching(jobs, p.schedule, p.placed)
    && cost == TotalCost(p.schedule)
    && missed == p.dropped + LateCount(jobs, p.schedule, p.placed)
    && wait == TotalWait(jobs, p.schedule, p.placed)
  }

  lemma PlanSnoc(types: seq<InstanceType>, order: seq<nat>, jobs: seq<Job>, n: nat)
    requires n < |jobs| && Positions(types, order)
    ensures PlanFor(types, order, jobs[..n + 1])
         == Extend(types, order, PlanFor(types, order, jobs[..n]), jobs[n], n)
  {
    assert jobs[..n + 1][..n] == jobs[..n];
  }

  lemma Dropped(types: seq<InstanceType>, order: seq<nat>, jobs: seq<Job>, n: nat, p: Plan,
                cost: real, missed: nat, wait: real)
    requires n < |jobs| && Progress(types, order, jobs, n, p, cost, missed, wait)
    requires Choose(types, order, jobs[n]).None?
    ensures Progress(types, order, jobs, n + 1, p.(dropped := p.dropped + 1), cost, missed + 1, wait)
  {
    PlanSnoc(types, order, jobs, n);
  }

  lemma Scheduled(types: seq<InstanceType>, order: seq<nat>, jobs: seq<Job>, n: nat, p: Plan,
                  cost: real, missed: nat, wait: real, i: nat, c: nat, e: ScheduleEntry)
    requires n < |jobs| && Progress(types, order, jobs, n, p, cost, missed, wait)
    requires Choose(types, order, jobs[n]).Some? && i == Original(types, Choose(types, order, jobs[n]).value)
    requires p.avail[i] != [] && c == LeastIndex(p.avail[i]) && e == NewEntry(jobs[n], types[i], p.avail[i][c])
    ensures Progress(types, order, jobs, n + 1,
                     Plan(p.avail[i := p.avail[i][c := e.endTime]], p.schedule + [e], p.placed + [Placed(n, i, c)],
                          p.dropped),
                     cost + e.cost, missed + (if Late(jobs[n], e) then 1 else 0),
                     wait + (e.startTime - jobs[n].arrivalTime))
  {
    PlanSnoc(types, order, jobs, n);
    CostSnoc(p.schedule, e);
    CountsSnoc(jobs, p.schedule, p.placed, e, Placed(n, i, c));
  }

  function Average(wait: real, n: nat): real {
    if n == 0 then 0.0 else wait / n as real
  }

  /** The result for types in order of cost and jobs in order of arrival. */
  ghost predicate ResultFor(types: seq<InstanceType>, order: seq<nat>, jobs: seq<Job>, r: SchedulingResult)
    requires Positions(types, order)
  {
    var p := PlanFor(types, order, jobs);
    && Matching(jobs, p.schedule, p.placed)
    && r == SchedulingResult(p.schedule, TotalCost(p.schedule), p.dropped + LateCount(jobs, p.schedule, p.placed),
                             Average(TotalWait(jobs, p.schedule, p.placed), |jobs|))
  }

  ghost predicate ScheduledInOrder(jobs: seq<Job>, types: seq<InstanceType>, order: seq<nat>, arrivals: seq<nat>,
                                   r: SchedulingResult)
  {
    && StableOrder(CheaperOrEqual, types, order)
    && StableOrder(ArrivesFirst, jobs, arrivals)
    && ResultFor(types, order, Picked(jobs, arrivals), r)
  }

  /** Run the job on the chosen copy. */
  method Book(types: seq<InstanceType>, avail: array<seq<real>>, job: Job, i: nat, c: nat, start: real)
    returns (entry: ScheduleEntry)
    requires i < |types| == avail.Length && c < |avail[i]| && start == Max(avail[i][c], job.arrivalTime)
    modifies avail
    ensures entry == NewEntry(job, types[i], old(avail[..])[i][c])
    ensures avail[..] == old(avail[..])[i := old(avail[..])[i][c := entry.endTime]]
  {
    var end := start + job.durationHours;
    var cost := JobCost(job.durationHours, types[i].costPerHour);
    avail[i] := avail[i][c := end];
    entry := ScheduleEntry(job.id, types[i].id, start, end, cost);
  }

  /** One job: booked on the cheapest type that can take it, or dropped. */
  method ScheduleNext(types: seq<InstanceType>, order: seq<nat>, avail: array<seq<real>>, jobs: seq<Job>, n: nat,
                      ghost p: Plan, cost: real, missed: nat, wait: real)
    returns (ghost p': Plan, entry: Option<ScheduleEntry>, cost': real, missed': nat, wait': real)
    requires Positions(types, order) && n < |jobs| && avail[..] == p.avail
    requires Progress(types, order, jobs, n, p, cost, missed, wait)
    modifies avail
    ensures avail[..] == p'.avail && Progress(types, order, jobs, n + 1, p', cost', missed', wait')
    ensures p'.schedule == if entry.Some? then p.schedule + [entry.value] else p.schedule
  {
    var job := jobs[n];
    var best := FindOption(types, order, avail, job);
    entry, cost', missed', wait' := None, cost, missed, wait;
    if best.Some? {
      var (i, c, start) := best.value;
      var e := Book(types, avail, job, i, c, start);
      Scheduled(types, order, jobs, n, p, cost, missed, wait, i, c, e);
      p' := Plan(p.avail[i := p.avail[i][c := e.endTime]], p.schedule + [e], p.placed + [Placed(n, i, c)], p.dropped);
      entry := Some(e);
      cost' := cost + e.cost;
      wait' := wait + (e.startTime - job.arrivalTime);
      if Late(job, e) {
        missed' := missed + 1;
      }
    } else {
      Dropped(types, order, jobs, n, p, cost, missed, wait);
      p' := p.(dropped := p.dropped + 1);
      missed' := missed + 1;
    }
  }

  /** The loop over the jobs in order of arrival. */
  method ScheduleSorted(types: seq<InstanceType>, order: seq<nat>, jobs: seq<Job>) returns (r: SchedulingResult)
    requires Positions(types, order)
    ensures ResultFor(types, order, jobs, r)
  {
    var avail := new seq<real>[|types|](i requires 0 <= i < |types| => seq(types[i].availableCount, _ => 0.0));
    var schedule: seq<ScheduleEntry>, totalCost, missed, totalWait := [], 0.0, 0, 0.0;
    ghost var p := Plan(Idle(types), [], [], 0);
    assert avail[..] == Idle(types);
    for n := 0 to |jobs|
      invariant avail[..] == p.avail && schedule == p.schedule
      invariant Progress(types, order, jobs, n, p, totalCost, missed, totalWait)
    {
      var entry: Option<ScheduleEntry>;
      p, entry, totalCost, missed, totalWait :=
        ScheduleNext(types, order, avail, jobs, n, p, totalCost, missed, totalWait);
      if entry.Some? {
        schedule := schedule + [entry.value];
      }
    }
    assert jobs[..|jobs|] == jobs;
    r := SchedulingResult(schedule, totalCost, missed, Average(totalWait, |jobs|));
  }

  /** Cheapest types first, jobs in order of arrival, each on the earliest copy of its choice. */
  method ScheduleJobs(jobs: seq<Job>, types: seq<InstanceType>) returns (r: SchedulingResult)
    ensures exists order, arrivals :: ScheduledInOrder(jobs, types, order, arrivals, r)
  {
    var order := Sort(CheaperOrEqual, types);
    var arrivals := Sort(ArrivesFirst, jobs);
    r := ScheduleSorted(types, order, Picked(jobs, arrivals));
    assert ScheduledInOrder(jobs, types, order, arrivals, r);
  }
}
