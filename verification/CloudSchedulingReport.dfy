/** What `schedule_jobs` reports. */
module CloudSchedulingReport {
  /* The two orders, the entries, the cost, the number of missed deadlines and the average wait, each said in terms of
     the jobs, the types and the entries. */

  import opened CloudScheduling
  import opened Options
  import opened RealSums
  import opened StableSort

  // ---------------------------------------------------------------- the orders

  /** Cheapest type first, then the order of the input. */
  lemma TypeOrderIs(types: seq<InstanceType>, order: seq<nat>)
    requires StableOrder(CheaperOrEqual, types, order)
    ensures |order| == |types| && forall a :: 0 <= a < |order| ==> order[a] < |types|
    ensures forall a, b :: 0 <= a < b < |order| ==>
              var x, y := types[order[a]].costPerHour, types[order[b]].costPerHour;
              x < y || (x == y && order[a] < order[b])
  {
    forall a, b | 0 <= a < b < |order|
      ensures Before(CheaperOrEqual, types, order[a], order[b])
    {
    }
  }

  /** Jobs in order of arrival, then of the input. */
  lemma JobOrderIs(jobs: seq<Job>, arrivals: seq<nat>)
    requires StableOrder(ArrivesFirst, jobs, arrivals)
    ensures |arrivals| == |jobs| && forall a :: 0 <= a < |arrivals| ==> arrivals[a] < |jobs|
    ensures forall a, b :: 0 <= a < b < |arrivals| ==>
              var x, y := jobs[arrivals[a]].arrivalTime, jobs[arrivals[b]].arrivalTime;
              x < y || (x == y && arrivals[a] < arrivals[b])
  {
    forall a, b | 0 <= a < b < |arrivals|
      ensures Before(ArrivesFirst, jobs, arrivals[a], arrivals[b])
    {
    }
  }

  // ---------------------------------------------------------------- the choice

  /** The type whose copies stand for every type with this id. */
  predicate FirstWith(types: seq<InstanceType>, id: nat, i: nat) {
    i < |types| && types[i].id == id && forall j :: 0 <= j < i ==> types[j].id != id
  }

  /** The type at position k is large enough, and there is a copy to run on. */
  ghost predicate CanTake(types: seq<InstanceType>, k: nat, job: Job)
    requires k < |types|
  {
    && types[k].cpuCores >= job.cpuCores && types[k].memoryGb >= job.memoryGb
    && exists i: nat :: FirstWith(types, types[k].id, i) && types[i].availableCount > 0
  }

  /** Type i is the one that the first type in order that can take the job runs on. */
  ghost predicate FirstChoice(types: seq<InstanceType>, order: seq<nat>, job: Job, i: nat)
    requires Positions(types, order)
  {
    exists a: nat :: a < |order| && CanTake(types, order[a], job) && FirstWith(types, types[order[a]].id, i)
                     && forall b :: 0 <= b < a ==> !CanTake(types, order[b], job)
  }

  lemma SuitableIs(types: seq<InstanceType>, k: nat, job: Job)
    requires k < |types|
    ensures Suitable(types, k, job) <==> CanTake(types, k, job)
    ensures FirstWith(types, types[k].id, Original(types, k))
  {
    var i := Original(types, k);
    assert FirstWith(types, types[k].id, i);
    forall j: nat | FirstWith(types, types[k].id, j)
      ensures j == i
    {
    }
  }

  lemma ChoiceIs(types: seq<InstanceType>, order: seq<nat>, job: Job)
    requires Positions(types, order)
    ensures match Choose(types, order, job)
            case None => forall a :: 0 <= a < |order| ==> !CanTake(types, order[a], job)
            case Some(k) => FirstChoice(types, order, job, Original(types, k))
  {
    ChosenSuitable(types, order, job);
    forall a | 0 <= a < |order|
      ensures Suitable(types, order[a], job) <==> CanTake(types, order[a], job)
      ensures FirstWith(types, types[order[a]].id, Original(types, order[a]))
    {
      SuitableIs(types, order[a], job);
    }
  }

  // ---------------------------------------------------------------- the entries

  /** When a copy is free after the first k entries: at the end of the last of them on it, or at 0. */
  function FreeAt(schedule: seq<ScheduleEntry>, placed: seq<Placed>, k: nat, i: nat, c: nat): real
    requires k <= |schedule| == |placed|
  {
    if k == 0 then 0.0
    else if placed[k - 1].typeIdx == i && placed[k - 1].copy == c then schedule[k - 1].endTime
    else FreeAt(schedule, placed, k - 1, i, c)
  }

  /** Each job runs on its first choice, on the first of the copies that are free earliest, from when that copy is
      free and the job has arrived, and for what that type costs. */
  ghost predicate Greedy(types: seq<InstanceType>, order: seq<nat>, jobs: seq<Job>, schedule: seq<ScheduleEntry>,
                         placed: seq<Placed>, k: nat)
    requires Positions(types, order) && k < |schedule| == |placed|
  {
    var e, q := schedule[k], placed[k];
    && q.job < |jobs| && q.typeIdx < |types| && FirstChoice(types, order, jobs[q.job], q.typeIdx)
    && q.copy < types[q.typeIdx].availableCount
    && var free := FreeAt(schedule, placed, k, q.typeIdx, q.copy);
       && (forall c :: 0 <= c < types[q.typeIdx].availableCount ==> free <= FreeAt(schedule, placed, k, q.typeIdx, c))
       && (forall c :: 0 <= c < q.copy ==> free < FreeAt(schedule, placed, k, q.typeIdx, c))
       && Runs(e, jobs[q.job], types[q.typeIdx], free)
  }

  predicate Runs(e: ScheduleEntry, job: Job, it: InstanceType, free: real) {
    && e.jobId == job.id && e.instanceTypeId == it.id
    && e.startTime == (if free >= job.arrivalTime then free else job.arrivalTime)
    && e.endTime == e.startTime + job.durationHours
    && e.cost == job.durationHours * it.costPerHour
  }

  /** A job without an entry: no type can take it. */
  ghost predicate Unplaced(types: seq<InstanceType>, order: seq<nat>, jobs: seq<Job>, n: nat)
    requires Positions(types, order) && n < |jobs|
  {
    forall a :: 0 <= a < |order| ==> !CanTake(types, order[a], jobs[n])
  }

  lemma {:induction false} FreePrefix(schedule: seq<ScheduleEntry>, placed: seq<Placed>, e: ScheduleEntry, q: Placed,
                                      k: nat, i: nat, c: nat)
    requires k <= |schedule| == |placed|
    ensures FreeAt(schedule + [e], placed + [q], k, i, c) == FreeAt(schedule, placed, k, i, c)
  {
    if k > 0 {
      FreePrefix(schedule, placed, e, q, k - 1, i, c);
    }
  }

  /** The plan after the first n jobs. */
  ghost predicate PlanIs(types: seq<InstanceType>, order: seq<nat>, jobs: seq<Job>, n: nat, p: Plan) {
    && Positions(types, order) && n <= |jobs| && Shaped(types, p.avail) && |p.schedule| == |p.placed|
    && |p.placed| + p.dropped == n
    && (forall k :: 0 <= k < |p.placed| ==> p.placed[k].job < n)
    && (forall j, k :: 0 <= j < k < |p.placed| ==> p.placed[j].job < p.placed[k].job)
    && (forall i: nat, c: nat :: i < |types| && c < types[i].availableCount ==>
          p.avail[i][c] == FreeAt(p.schedule, p.placed, |p.placed|, i, c))
    && (forall k :: 0 <= k < |p.placed| ==> Greedy(types, order, jobs, p.schedule, p.placed, k))
    && (forall m :: 0 <= m < n && (forall k :: 0 <= k < |p.placed| ==> p.placed[k].job != m) ==>
          Unplaced(types, order, jobs, m))
  }

  lemma GreedyStays(types: seq<InstanceType>, order: seq<nat>, jobs: seq<Job>, schedule: seq<ScheduleEntry>,
                    placed: seq<Placed>, e: ScheduleEntry, q: Placed, k: nat)
    requires Positions(types, order) && k < |schedule| == |placed| && Greedy(types, order, jobs, schedule, placed, k)
    ensures Greedy(types, order, jobs, schedule + [e], placed + [q], k)
  {
    forall i: nat, c: nat
      ensures FreeAt(schedule + [e], placed + [q], k, i, c) == FreeAt(schedule, placed, k, i, c)
    {
      FreePrefix(schedule, placed, e, q, k, i, c);
    }
  }

  lemma PlacedIs(types: seq<InstanceType>, order: seq<nat>, jobs: seq<Job>, n: nat, p: Plan)
    requires n < |jobs| && PlanIs(types, order, jobs, n, p) && Choose(types, order, jobs[n]).Some?
    ensures var p' := Extend(types, order, p, jobs[n], n);
            && |p'.schedule| == |p'.placed| == |p.placed| + 1 && p'.dropped == p.dropped
            && p'.placed[..|p.placed|] == p.placed && p'.placed[|p.placed|].job == n
            && (forall i: nat, c: nat :: i < |types| && c < types[i].availableCount ==>
                  p'.avail[i][c] == FreeAt(p'.schedule, p'.placed, |p'.placed|, i, c))
            && Greedy(types, order, jobs, p'.schedule, p'.placed, |p.placed|)
  {
    ChoiceIs(types, order, jobs[n]);
    ChosenSuitable(types, order, jobs[n]);
    var i := Original(types, Choose(types, order, jobs[n]).value);
    var c := LeastIndex(p.avail[i]);
    var e, q := NewEntry(jobs[n], types[i], p.avail[i][c]), Placed(n, i, c);
    forall j: nat, d: nat
      ensures FreeAt(p.schedule + [e], p.placed + [q], |p.placed|, j, d)
           == FreeAt(p.schedule, p.placed, |p.placed|, j, d)
    {
      FreePrefix(p.schedule, p.placed, e, q, |p.placed|, j, d);
    }
  }

  lemma ExtendIs(types: seq<InstanceType>, order: seq<nat>, jobs: seq<Job>, n: nat, p: Plan)
    requires n < |jobs| && PlanIs(types, order, jobs, n, p)
    ensures PlanIs(types, order, jobs, n + 1, Extend(types, order, p, jobs[n], n))
  {
    var p' := Extend(types, order, p, jobs[n], n);
    if Choose(types, order, jobs[n]).None? {
      ChoiceIs(types, order, jobs[n]);
    } else {
      PlacedIs(types, order, jobs, n, p);
      forall k | 0 <= k < |p.placed|
        ensures Greedy(types, order, jobs, p'.schedule, p'.placed, k)
      {
        GreedyStays(types, order, jobs, p.schedule, p.placed, p'.schedule[|p.placed|], p'.placed[|p.placed|], k);
      }
      forall m | 0 <= m < n + 1 && (forall k :: 0 <= k < |p'.placed| ==> p'.placed[k].job != m)
        ensures Unplaced(types, order, jobs, m)
      {
        assert forall k :: 0 <= k < |p.placed| ==> p'.placed[k] == p.placed[k];
      }
    }
  }

  lemma {:induction false} PlanIsGreedy(types: seq<InstanceType>, order: seq<nat>, jobs: seq<Job>, n: nat)
    requires Positions(types, order) && n <= |jobs|
    ensures PlanIs(types, order, jobs, n, PlanFor(types, order, jobs[..n]))
  {
    if n > 0 {
      PlanIsGreedy(types, order, jobs, n - 1);
      PlanSnoc(types, order, jobs, n - 1);
      ExtendIs(types, order, jobs, n - 1, PlanFor(types, order, jobs[..n - 1]));
    }
  }

  // ---------------------------------------------------------------- the totals

  ghost function Costs(schedule: seq<ScheduleEntry>): seq<real> {
    seq(|schedule|, k requires 0 <= k < |schedule| => schedule[k].cost)
  }

  ghost function Waits(jobs: seq<Job>, schedule: seq<ScheduleEntry>, placed: seq<Placed>): seq<real>
    requires Matching(jobs, schedule, placed)
  {
    seq(|schedule|, k requires 0 <= k < |schedule| => schedule[k].startTime - jobs[placed[k].job].arrivalTime)
  }

  ghost function LateOnes(jobs: seq<Job>, schedule: seq<ScheduleEntry>, placed: seq<Placed>): set<nat>
    requires Matching(jobs, schedule, placed)
  {
    set k | 0 <= k < |schedule| &&
            schedule[k].endTime > jobs[placed[k].job].arrivalTime + jobs[placed[k].job].deadlineHours
  }

  lemma {:induction false} CostIsSum(schedule: seq<ScheduleEntry>)
    ensures TotalCost(schedule) == Sum(Costs(schedule))
  {
    if schedule != [] {
      var k := |schedule| - 1;
      CostIsSum(schedule[..k]);
      assert Costs(schedule)[..k] == Costs(schedule[..k]);
    }
  }

  lemma {:induction false} WaitIsSum(jobs: seq<Job>, schedule: seq<ScheduleEntry>, placed: seq<Placed>)
    requires Matching(jobs, schedule, placed)
    ensures TotalWait(jobs, schedule, placed) == Sum(Waits(jobs, schedule, placed))
  {
    if schedule != [] {
      var k := |schedule| - 1;
      WaitIsSum(jobs, schedule[..k], placed[..k]);
      assert Waits(jobs, schedule, placed)[..k] == Waits(jobs, schedule[..k], placed[..k]);
    }
  }

  lemma {:induction false} LateAre(jobs: seq<Job>, schedule: seq<ScheduleEntry>, placed: seq<Placed>)
    requires Matching(jobs, schedule, placed)
    ensures LateCount(jobs, schedule, placed) == |LateOnes(jobs, schedule, placed)|
  {
    if schedule != [] {
      var k := |schedule| - 1;
      LateAre(jobs, schedule[..k], placed[..k]);
      var before := LateOnes(jobs, schedule[..k], placed[..k]);
      assert LateOnes(jobs, schedule, placed) == before + (if Late(jobs[placed[k].job], schedule[k]) then {k} else {});
    }
  }

  /** The average of numbers that add up to x. */
  predicate AverageIs(average: real, n: nat, x: real) {
    if n == 0 then average == 0.0 else Product(n, average) == x
  }

  lemma AverageDivides(x: real, n: nat)
    ensures AverageIs(Average(x, n), n, x)
  {
    if n > 0 {
      assert x / n as real * n as real == x;
    }
  }

  /** Everything that `schedule_jobs` returns, for types in order of cost and jobs in order of arrival: the entries,
      what they cost, the jobs that are late or have no entry, and the average wait over all jobs. */
  lemma ReportExactly(jobs: seq<Job>, types: seq<InstanceType>, order: seq<nat>, arrivals: seq<nat>,
                      r: SchedulingResult)
    returns (placed: seq<Placed>)
    requires ScheduledInOrder(jobs, types, order, arrivals, r)
    ensures |placed| == |r.schedule| <= |jobs|
    ensures var sorted := Picked(jobs, arrivals);
            && Matching(sorted, r.schedule, placed)
            && (forall j, k :: 0 <= j < k < |placed| ==> placed[j].job < placed[k].job)
            && (forall k :: 0 <= k < |placed| ==> Greedy(types, order, sorted, r.schedule, placed, k))
            && (forall n :: 0 <= n < |sorted| && (forall k :: 0 <= k < |placed| ==> placed[k].job != n) ==>
                  Unplaced(types, order, sorted, n))
            && r.totalCost == Sum(Costs(r.schedule))
            && r.missedDeadlines == |jobs| - |r.schedule| + |LateOnes(sorted, r.schedule, placed)|
            && AverageIs(r.avgWaitTime, |jobs|, Sum(Waits(sorted, r.schedule, placed)))
  {
    var sorted := Picked(jobs, arrivals);
    JobOrderIs(jobs, arrivals);
    TypeOrderIs(types, order);
    assert sorted[..|sorted|] == sorted;
    PlanIsGreedy(types, order, sorted, |sorted|);
    placed := PlanFor(types, order, sorted).placed;
    CostIsSum(r.schedule);
    WaitIsSum(sorted, r.schedule, placed);
    LateAre(sorted, r.schedule, placed);
    AverageDivides(TotalWait(sorted, r.schedule, placed), |jobs|);
  }
}
