/** What the plans of `CloudScheduling` guarantee. */
module CloudSchedulingProofs {
  /* No type ever runs more jobs than it has copies, exactly the jobs that some type can take are
     scheduled, and no other assignment of those jobs is cheaper. Type ids are meant to be distinct;
     where they are not, a job can land on a type that is too small, and exactly when is stated too. */

  import opened CloudScheduling
  import opened Collections
  import opened Options
  import opened RealSums
  import opened StableSort

  ghost predicate DistinctIds(types: seq<InstanceType>) {
    forall i, j :: 0 <= i < j < |types| ==> types[i].id != types[j].id
  }

  ghost predicate Durable(jobs: seq<Job>) {
    forall n :: 0 <= n < |jobs| ==> jobs[n].durationHours >= 0.0
  }

  // ---------------------------------------------------------------- capacity

  ghost predicate EntryOk(types: seq<InstanceType>, job: Job, q: Placed, e: ScheduleEntry, avail: seq<seq<real>>)
    requires Shaped(types, avail)
  {
    && q.typeIdx < |types| && Original(types, q.typeIdx) == q.typeIdx
    && q.copy < |avail[q.typeIdx]|
    && e.jobId == job.id && e.instanceTypeId == types[q.typeIdx].id
    && e.startTime >= job.arrivalTime && e.endTime == e.startTime + job.durationHours
    && e.cost == JobCost(job.durationHours, types[q.typeIdx].costPerHour)
    && e.endTime <= avail[q.typeIdx][q.copy]
  }

  ghost predicate SameCopy(a: Placed, b: Placed) {
    a.typeIdx == b.typeIdx && a.copy == b.copy
  }

  /** Every entry is as it should be, and the jobs on one copy follow one another. */
  ghost predicate Settled(types: seq<InstanceType>, jobs: seq<Job>, n: nat, p: Plan) {
    && n <= |jobs| && Shaped(types, p.avail) && Matching(jobs, p.schedule, p.placed)
    && |p.placed| + p.dropped == n
    && (forall k :: 0 <= k < |p.placed| ==> p.placed[k].job < n)
    && (forall j, k :: 0 <= j < k < |p.placed| ==> p.placed[j].job < p.placed[k].job)
    && (forall k :: 0 <= k < |p.placed| ==>
          EntryOk(types, jobs[p.placed[k].job], p.placed[k], p.schedule[k], p.avail))
    && (forall j, k :: 0 <= j < k < |p.placed| && SameCopy(p.placed[j], p.placed[k]) ==>
          p.schedule[j].endTime <= p.schedule[k].startTime)
  }

  /** The type whose copy is used for a chosen type, where it exists and has a copy. */
  lemma ChosenCopy(types: seq<InstanceType>, order: seq<nat>, job: Job)
    requires Positions(types, order) && Choose(types, order, job).Some?
    ensures var i := Original(types, Choose(types, order, job).value);
            types[i].availableCount > 0 && Original(types, i) == i
  {
    ChosenSuitable(types, order, job);
  }

  lemma EntryStays(types: seq<InstanceType>, job: Job, q: Placed, e: ScheduleEntry, avail: seq<seq<real>>,
                   i: nat, c: nat, x: real)
    requires Shaped(types, avail) && EntryOk(types, job, q, e, avail)
    requires i < |avail| && c < |avail[i]| && x >= avail[i][c]
    ensures EntryOk(types, job, q, e, avail[i := avail[i][c := x]])
  {
  }

  lemma ExtendSettled(types: seq<InstanceType>, order: seq<nat>, jobs: seq<Job>, n: nat, p: Plan)
    requires Positions(types, order) && Durable(jobs) && n < |jobs| && Settled(types, jobs, n, p)
    ensures Settled(types, jobs, n + 1, Extend(types, order, p, jobs[n], n))
  {
    if Choose(types, order, jobs[n]).Some? {
      ChosenCopy(types, order, jobs[n]);
      var i := Original(types, Choose(types, order, jobs[n]).value);
      var c := LeastIndex(p.avail[i]);
      var e := NewEntry(jobs[n], types[i], p.avail[i][c]);
      var q := Placed(n, i, c);
      var avail' := p.avail[i := p.avail[i][c := e.endTime]];
      assert EntryOk(types, jobs[n], q, e, avail');
      forall k | 0 <= k < |p.placed|
        ensures EntryOk(types, jobs[p.placed[k].job], p.placed[k], p.schedule[k], avail')
        ensures SameCopy(p.placed[k], q) ==> p.schedule[k].endTime <= e.startTime
      {
        EntryStays(types, jobs[p.placed[k].job], p.placed[k], p.schedule[k], p.avail, i, c, e.endTime);
      }
    }
  }

  lemma NothingSettled(types: seq<InstanceType>, jobs: seq<Job>)
    ensures Settled(types, jobs, 0, Plan(Idle(types), [], [], 0))
  {
  }

  lemma {:induction false} PlanSettled(types: seq<InstanceType>, order: seq<nat>, jobs: seq<Job>, n: nat)
    requires Positions(types, order) && Durable(jobs) && n <= |jobs|
    ensures Settled(types, jobs, n, PlanFor(types, order, jobs[..n]))
  {
    if n == 0 {
      NothingSettled(types, jobs);
    } else {
      PlanSettled(types, order, jobs, n - 1);
      PlanSnoc(types, order, jobs, n - 1);
      ExtendSettled(types, order, jobs, n - 1, PlanFor(types, order, jobs[..n - 1]));
    }
  }

  /** The entries of a type that are running at time x. */
  ghost function Running(schedule: seq<ScheduleEntry>, id: nat, x: real): set<nat> {
    set k | 0 <= k < |schedule| && schedule[k].instanceTypeId == id && schedule[k].startTime <= x < schedule[k].endTime
  }

  ghost function CopiesOf(placed: seq<Placed>, ks: set<nat>): set<nat>
    requires forall k :: k in ks ==> k < |placed|
  {
    set k | k in ks :: placed[k].copy
  }

  lemma {:induction false} DifferentCopies(placed: seq<Placed>, ks: set<nat>)
    requires forall k :: k in ks ==> k < |placed|
    requires forall j, k :: j in ks && k in ks && j < k ==> placed[j].copy != placed[k].copy
    ensures |CopiesOf(placed, ks)| == |ks|
  {
    if ks != {} {
      var k :| k in ks;
      DifferentCopies(placed, ks - {k});
      assert CopiesOf(placed, ks) == CopiesOf(placed, ks - {k}) + {placed[k].copy};
      assert placed[k].copy !in CopiesOf(placed, ks - {k});
    }
  }

  lemma SameId(types: seq<InstanceType>, i: nat, j: nat)
    requires i < |types| && j < |types| && types[i].id == types[j].id
    requires Original(types, i) == i && Original(types, j) == j
    ensures i == j
  {
  }

  lemma SettledCapacity(types: seq<InstanceType>, jobs: seq<Job>, n: nat, p: Plan, i: nat, x: real)
    requires Settled(types, jobs, n, p) && i < |types|
    ensures |Running(p.schedule, types[i].id, x)| <= types[Original(types, i)].availableCount
  {
    var o := Original(types, i);
    var ks := Running(p.schedule, types[i].id, x);
    forall k | k in ks
      ensures p.placed[k].typeIdx == o && p.placed[k].copy < types[o].availableCount
    {
      assert EntryOk(types, jobs[p.placed[k].job], p.placed[k], p.schedule[k], p.avail);
      SameId(types, p.placed[k].typeIdx, o);
    }
    forall j, k | j in ks && k in ks && j < k
      ensures p.placed[j].copy != p.placed[k].copy
    {
      assert p.schedule[j].endTime > p.schedule[k].startTime;
      assert !SameCopy(p.placed[j], p.placed[k]);
    }
    DifferentCopies(p.placed, ks);
    SubsetCardinality(CopiesOf(p.placed, ks), Below(types[o].availableCount));
  }

  /** At every instant at most `available_count` scheduled jobs of a type are running. */
  lemma Capacity(types: seq<InstanceType>, order: seq<nat>, jobs: seq<Job>, i: nat, x: real)
    requires Positions(types, order) && Durable(jobs) && DistinctIds(types) && i < |types|
    ensures |Running(PlanFor(types, order, jobs).schedule, types[i].id, x)| <= types[i].availableCount
  {
    PlanSettled(types, order, jobs, |jobs|);
    assert jobs[..|jobs|] == jobs;
    SettledCapacity(types, jobs, |jobs|, PlanFor(types, order, jobs), i, x);
  }

  // ---------------------------------------------------------------- who is scheduled

  ghost predicate HasHome(types: seq<InstanceType>, job: Job) {
    exists i :: 0 <= i < |types| && Fits(types[i], job) && types[i].availableCount > 0
  }

  ghost predicate IsPlaced(p: Plan, n: nat) {
    exists k :: 0 <= k < |p.placed| && p.placed[k].job == n
  }

  lemma DistinctOriginal(types: seq<InstanceType>, k: nat)
    requires DistinctIds(types) && k < |types|
    ensures Original(types, k) == k
  {
  }

  /** Something is chosen exactly when some type with a copy fits. */
  lemma ChoosesHome(types: seq<InstanceType>, order: seq<nat>, job: Job)
    requires DistinctIds(types) && StableOrder(CheaperOrEqual, types, order)
    ensures Choose(types, order, job).Some? <==> HasHome(types, job)
  {
    ChosenSuitable(types, order, job);
    if HasHome(types, job) {
      var i: nat :| i < |types| && Fits(types[i], job) && types[i].availableCount > 0;
      DistinctOriginal(types, i);
      var a := PositionOf(CheaperOrEqual, types, order, i);
      assert Suitable(types, order[a], job);
    }
    if Choose(types, order, job).Some? {
      DistinctOriginal(types, Choose(types, order, job).value);
    }
  }

  lemma {:induction false} PlacedAre(types: seq<InstanceType>, order: seq<nat>, jobs: seq<Job>, n: nat, m: nat)
    requires Positions(types, order) && Durable(jobs) && n <= |jobs|
    ensures IsPlaced(PlanFor(types, order, jobs[..n]), m) <==> m < n && Choose(types, order, jobs[m]).Some?
  {
    if n > 0 {
      PlacedAre(types, order, jobs, n - 1, m);
      PlanSettled(types, order, jobs, n - 1);
      PlanSnoc(types, order, jobs, n - 1);
      ExtendPlaces(types, order, PlanFor(types, order, jobs[..n - 1]), jobs[n - 1], n - 1, m);
    }
  }

  lemma ExtendPlaces(types: seq<InstanceType>, order: seq<nat>, p: Plan, job: Job, n: nat, m: nat)
    requires Positions(types, order) && Shaped(types, p.avail)
    ensures IsPlaced(Extend(types, order, p, job, n), m)
       <==> IsPlaced(p, m) || (m == n && Choose(types, order, job).Some?)
  {
    var p' := Extend(types, order, p, job, n);
    if IsPlaced(p, m) {
      var k :| 0 <= k < |p.placed| && p.placed[k].job == m;
      assert p'.placed[k].job == m;
    }
    if m == n && Choose(types, order, job).Some? {
      assert p'.placed[|p.placed|].job == m;
    }
  }

  /** The scheduled jobs are exactly those that fit some type with a copy. */
  lemma ScheduledExactly(types: seq<InstanceType>, order: seq<nat>, jobs: seq<Job>, n: nat)
    requires DistinctIds(types) && StableOrder(CheaperOrEqual, types, order) && Durable(jobs) && n < |jobs|
    ensures IsPlaced(PlanFor(types, order, jobs), n) <==> HasHome(types, jobs[n])
  {
    assert jobs[..|jobs|] == jobs;
    PlacedAre(types, order, jobs, |jobs|, n);
    ChoosesHome(types, order, jobs[n]);
  }

  // ---------------------------------------------------------------- the cost is minimal

  /** `other` assigns to every scheduled job a type with a copy that fits it. */
  ghost predicate Assignment(types: seq<InstanceType>, jobs: seq<Job>, placed: seq<Placed>, other: seq<nat>) {
    && |other| == |placed|
    && forall k :: 0 <= k < |placed| ==>
         && placed[k].job < |jobs| && other[k] < |types|
         && Fits(types[other[k]], jobs[placed[k].job]) && types[other[k]].availableCount > 0
  }

  function AssignmentCost(types: seq<InstanceType>, jobs: seq<Job>, placed: seq<Placed>, other: seq<nat>): real
    requires |other| == |placed|
    requires forall k :: 0 <= k < |placed| ==> placed[k].job < |jobs| && other[k] < |types|
  {
    if placed == [] then 0.0
    else
      var k := |placed| - 1;
      AssignmentCost(types, jobs, placed[..k], other[..k])
      + JobCost(jobs[placed[k].job].durationHours, types[other[k]].costPerHour)
  }

  lemma CheaperJob(hours: real, low: real, high: real)
    requires hours >= 0.0 && low <= high
    ensures JobCost(hours, low) <= JobCost(hours, high)
  {
  }

  /** The chosen type is the cheapest that could have been chosen. */
  lemma ChosenCheapest(types: seq<InstanceType>, order: seq<nat>, job: Job, other: nat)
    requires DistinctIds(types) && StableOrder(CheaperOrEqual, types, order)
    requires other < |types| && Fits(types[other], job) && types[other].availableCount > 0
    ensures Choose(types, order, job).Some?
    ensures var i := Original(types, Choose(types, order, job).value);
            Fits(types[i], job) && types[i].costPerHour <= types[other].costPerHour
  {
    ChosenSuitable(types, order, job);
    DistinctOriginal(types, other);
    var b := PositionOf(CheaperOrEqual, types, order, other);
    assert Suitable(types, order[b], job);
    var k := Choose(types, order, job).value;
    DistinctOriginal(types, k);
    var a :| 0 <= a < |order| && order[a] == k && Suitable(types, k, job)
             && forall c :: 0 <= c < a ==> !Suitable(types, order[c], job);
    assert a < b ==> Before(CheaperOrEqual, types, order[a], order[b]);
  }

  lemma CostPrefix(types: seq<InstanceType>, jobs: seq<Job>, placed: seq<Placed>, q: Placed, other: seq<nat>)
    requires Assignment(types, jobs, placed + [q], other)
    ensures var k := |placed|;
            && q.job < |jobs| && Assignment(types, jobs, placed, other[..k])
            && AssignmentCost(types, jobs, placed + [q], other)
               == AssignmentCost(types, jobs, placed, other[..k])
                  + JobCost(jobs[q.job].durationHours, types[other[k]].costPerHour)
  {
    assert (placed + [q])[..|placed|] == placed && (placed + [q])[|placed|] == q;
    forall k | 0 <= k < |placed|
      ensures placed[k].job < |jobs| && other[k] < |types|
      ensures Fits(types[other[k]], jobs[placed[k].job]) && types[other[k]].availableCount > 0
    {
      assert (placed + [q])[k] == placed[k];
    }
  }

  /** One more job costs no more than any assignment gives it. */
  lemma NoCheaperStep(types: seq<InstanceType>, order: seq<nat>, jobs: seq<Job>, n: nat, p: Plan, other: seq<nat>)
    requires DistinctIds(types) && StableOrder(CheaperOrEqual, types, order) && Durable(jobs) && n < |jobs|
    requires Shaped(types, p.avail) && Choose(types, order, jobs[n]).Some?
    requires Assignment(types, jobs, Extend(types, order, p, jobs[n], n).placed, other)
    ensures var k := |p.placed|;
            && Assignment(types, jobs, p.placed, other[..k])
            && (TotalCost(p.schedule) <= AssignmentCost(types, jobs, p.placed, other[..k]) ==>
                  TotalCost(Extend(types, order, p, jobs[n], n).schedule)
                  <= AssignmentCost(types, jobs, Extend(types, order, p, jobs[n], n).placed, other))
  {
    ChosenCopy(types, order, jobs[n]);
    var i := Original(types, Choose(types, order, jobs[n]).value);
    var c := LeastIndex(p.avail[i]);
    CostPrefix(types, jobs, p.placed, Placed(n, i, c), other);
    ChosenCheapest(types, order, jobs[n], other[|p.placed|]);
    CheaperJob(jobs[n].durationHours, types[i].costPerHour, types[other[|p.placed|]].costPerHour);
    CostSnoc(p.schedule, NewEntry(jobs[n], types[i], p.avail[i][c]));
  }

  lemma {:induction false} NoCheaperPrefix(types: seq<InstanceType>, order: seq<nat>, jobs: seq<Job>, n: nat,
                                           other: seq<nat>)
    requires DistinctIds(types) && StableOrder(CheaperOrEqual, types, order) && Durable(jobs) && n <= |jobs|
    requires Assignment(types, jobs, PlanFor(types, order, jobs[..n]).placed, other)
    ensures TotalCost(PlanFor(types, order, jobs[..n]).schedule)
         <= AssignmentCost(types, jobs, PlanFor(types, order, jobs[..n]).placed, other)
  {
    if n > 0 {
      var p, p' := PlanFor(types, order, jobs[..n - 1]), PlanFor(types, order, jobs[..n]);
      PlanSnoc(types, order, jobs, n - 1);
      assert p' == Extend(types, order, p, jobs[n - 1], n - 1);
      if Choose(types, order, jobs[n - 1]).None? {
        assert p'.placed == p.placed && p'.schedule == p.schedule;
        NoCheaperPrefix(types, order, jobs, n - 1, other);
      } else {
        NoCheaperStep(types, order, jobs, n - 1, p, other);
        NoCheaperPrefix(types, order, jobs, n - 1, other[..|p.placed|]);
      }
    }
  }

  /** No assignment of the scheduled jobs to types with copies that fit them costs less. */
  lemma NoCheaperAssignment(types: seq<InstanceType>, order: seq<nat>, jobs: seq<Job>, other: seq<nat>)
    requires DistinctIds(types) && StableOrder(CheaperOrEqual, types, order) && Durable(jobs)
    requires Assignment(types, jobs, PlanFor(types, order, jobs).placed, other)
    ensures TotalCost(PlanFor(types, order, jobs).schedule)
         <= AssignmentCost(types, jobs, PlanFor(types, order, jobs).placed, other)
  {
    assert jobs[..|jobs|] == jobs;
    NoCheaperPrefix(types, order, jobs, |jobs|, other);
  }

  // ---------------------------------------------------------------- what schedule_jobs returns

  /** For each entry the position of its job in the input. */
  function InputPositions(arrivals: seq<nat>, placed: seq<Placed>): seq<nat>
    requires forall k :: 0 <= k < |placed| ==> placed[k].job < |arrivals|
  {
    seq(|placed|, k requires 0 <= k < |placed| => arrivals[placed[k].job])
  }

  /** `other` gives every job of `who` a type with a copy that fits it. */
  ghost predicate Homes(types: seq<InstanceType>, jobs: seq<Job>, who: seq<nat>, other: seq<nat>) {
    && |other| == |who|
    && forall k :: 0 <= k < |who| ==>
         && who[k] < |jobs| && other[k] < |types|
         && Fits(types[other[k]], jobs[who[k]]) && types[other[k]].availableCount > 0
  }

  function CostOf(types: seq<InstanceType>, jobs: seq<Job>, who: seq<nat>, other: seq<nat>): real
    requires |other| == |who|
    requires forall k :: 0 <= k < |who| ==> who[k] < |jobs| && other[k] < |types|
  {
    if who == [] then 0.0
    else
      var k := |who| - 1;
      CostOf(types, jobs, who[..k], other[..k]) + JobCost(jobs[who[k]].durationHours, types[other[k]].costPerHour)
  }

  lemma {:induction false} CostsAgree(types: seq<InstanceType>, jobs: seq<Job>, arrivals: seq<nat>, placed: seq<Placed>,
                                      other: seq<nat>)
    requires forall a :: 0 <= a < |arrivals| ==> arrivals[a] < |jobs|
    requires forall k :: 0 <= k < |placed| ==> placed[k].job < |arrivals|
    requires Homes(types, jobs, InputPositions(arrivals, placed), other)
    ensures Assignment(types, Picked(jobs, arrivals), placed, other)
    ensures AssignmentCost(types, Picked(jobs, arrivals), placed, other)
         == CostOf(types, jobs, InputPositions(arrivals, placed), other)
  {
    var who := InputPositions(arrivals, placed);
    forall k | 0 <= k < |placed|
      ensures other[k] < |types| && Fits(types[other[k]], jobs[arrivals[placed[k].job]])
      ensures types[other[k]].availableCount > 0
    {
      assert who[k] == arrivals[placed[k].job];
    }
    if placed != [] {
      var k := |placed| - 1;
      assert InputPositions(arrivals, placed[..k]) == who[..k];
      CostsAgree(types, jobs, arrivals, placed[..k], other[..k]);
    }
  }

  lemma ScheduledAre(types: seq<InstanceType>, order: seq<nat>, jobs: seq<Job>, arrivals: seq<nat>, placed: seq<Placed>)
    requires DistinctIds(types) && StableOrder(CheaperOrEqual, types, order) && Durable(jobs)
    requires StableOrder(ArrivesFirst, jobs, arrivals)
    requires placed == PlanFor(types, order, Picked(jobs, arrivals)).placed
    requires forall k :: 0 <= k < |placed| ==> placed[k].job < |arrivals|
    ensures forall n :: 0 <= n < |jobs| ==> (n in InputPositions(arrivals, placed) <==> HasHome(types, jobs[n]))
  {
    var sorted, who := Picked(jobs, arrivals), InputPositions(arrivals, placed);
    forall n | 0 <= n < |jobs|
      ensures n in who <==> HasHome(types, jobs[n])
    {
      var p := PositionOf(ArrivesFirst, jobs, arrivals, n);
      ScheduledExactly(types, order, sorted, p);
      if HasHome(types, jobs[n]) {
        var k :| 0 <= k < |placed| && placed[k].job == p;
        assert who[k] == n;
      }
      if n in who {
        var k :| 0 <= k < |who| && who[k] == n;
        OnePosition(jobs, arrivals, p, placed[k].job);
      }
    }
  }

  lemma OnePosition(jobs: seq<Job>, arrivals: seq<nat>, p: nat, q: nat)
    requires StableOrder(ArrivesFirst, jobs, arrivals) && p < |arrivals| && q < |arrivals|
    requires arrivals[p] == arrivals[q]
    ensures p == q
  {
    if p < q {
      Strict(ArrivesFirst, jobs, arrivals, p, q);
    } else if q < p {
      Strict(ArrivesFirst, jobs, arrivals, q, p);
    }
  }

  lemma PositionsDiffer(jobs: seq<Job>, arrivals: seq<nat>, placed: seq<Placed>)
    requires StableOrder(ArrivesFirst, jobs, arrivals)
    requires forall k :: 0 <= k < |placed| ==> placed[k].job < |arrivals|
    requires forall j, k :: 0 <= j < k < |placed| ==> placed[j].job < placed[k].job
    ensures NoDup(InputPositions(arrivals, placed))
  {
    forall j, k | 0 <= j < k < |placed|
      ensures arrivals[placed[j].job] != arrivals[placed[k].job]
    {
      Strict(ArrivesFirst, jobs, arrivals, placed[j].job, placed[k].job);
    }
  }

  /** Whatever `schedule_jobs` returns, in terms of the jobs and types as they were given: no type runs
      more jobs than it has copies; exactly the jobs that some type with a copy fits have an entry, and
      one each; and no assignment of those jobs to types that fit them costs less. */
  lemma ScheduleGuarantees(jobs: seq<Job>, types: seq<InstanceType>, order: seq<nat>, arrivals: seq<nat>,
                           r: SchedulingResult)
    returns (who: seq<nat>)
    requires ScheduledInOrder(jobs, types, order, arrivals, r) && DistinctIds(types) && Durable(jobs)
    ensures forall i: nat, x :: i < |types| ==> |Running(r.schedule, types[i].id, x)| <= types[i].availableCount
    ensures |who| == |r.schedule| && NoDup(who)
    ensures forall k :: 0 <= k < |who| ==> who[k] < |jobs| && r.schedule[k].jobId == jobs[who[k]].id
    ensures forall n :: 0 <= n < |jobs| ==> (n in who <==> HasHome(types, jobs[n]))
    ensures forall other :: Homes(types, jobs, who, other) ==> r.totalCost <= CostOf(types, jobs, who, other)
  {
    var sorted := Picked(jobs, arrivals);
    var p := PlanFor(types, order, sorted);
    assert sorted[..|sorted|] == sorted;
    PlanSettled(types, order, sorted, |sorted|);
    who := InputPositions(arrivals, p.placed);
    forall i: nat, x | i < |types|
      ensures |Running(r.schedule, types[i].id, x)| <= types[i].availableCount
    {
      Capacity(types, order, sorted, i, x);
    }
    PositionsDiffer(jobs, arrivals, p.placed);
    ScheduledAre(types, order, jobs, arrivals, p.placed);
    forall k | 0 <= k < |who|
      ensures who[k] < |jobs| && r.schedule[k].jobId == jobs[who[k]].id
    {
      assert EntryOk(types, sorted[p.placed[k].job], p.placed[k], p.schedule[k], p.avail);
    }
    forall other | Homes(types, jobs, who, other)
      ensures r.totalCost <= CostOf(types, jobs, who, other)
    {
      CostsAgree(types, jobs, arrivals, p.placed, other);
      NoCheaperAssignment(types, order, sorted, other);
    }
  }

  // ---------------------------------------------------------------- repeated ids

  predicate Dominates(a: InstanceType, b: InstanceType) {
    a.cpuCores >= b.cpuCores && a.memoryGb >= b.memoryGb
  }

  ghost predicate HasCopies(types: seq<InstanceType>, k: nat)
    requires k < |types|
  {
    types[Original(types, k)].availableCount > 0
  }

  /** The type at place a in the order can be chosen: no earlier type takes every job that it takes. */
  ghost predicate Reachable(types: seq<InstanceType>, order: seq<nat>, a: nat)
    requires Positions(types, order) && a < |order|
  {
    HasCopies(types, order[a])
    && forall b :: 0 <= b < a && HasCopies(types, order[b]) ==> !Dominates(types[order[b]], types[order[a]])
  }

  /** A job is run on a type that fits it. */
  ghost predicate Adequate(types: seq<InstanceType>, order: seq<nat>, job: Job)
    requires Positions(types, order)
  {
    Choose(types, order, job).Some? ==> Fits(types[Original(types, Choose(types, order, job).value)], job)
  }

  lemma AdequateIfDominating(types: seq<InstanceType>, order: seq<nat>, job: Job)
    requires Positions(types, order)
    requires forall a :: 0 <= a < |order| && Reachable(types, order, a) ==>
               Dominates(types[Original(types, order[a])], types[order[a]])
    ensures Adequate(types, order, job)
  {
    ChosenSuitable(types, order, job);
    if Choose(types, order, job).Some? {
      var k := Choose(types, order, job).value;
      var a :| 0 <= a < |order| && order[a] == k && Suitable(types, k, job)
               && forall b :: 0 <= b < a ==> !Suitable(types, order[b], job);
      assert Reachable(types, order, a);
    }
  }

  lemma DominatingIfAdequate(types: seq<InstanceType>, order: seq<nat>, a: nat)
    requires Positions(types, order) && a < |order| && Reachable(types, order, a)
    requires forall job :: Adequate(types, order, job)
    ensures Dominates(types[Original(types, order[a])], types[order[a]])
  {
    var it := types[order[a]];
    var job := Job(0, it.cpuCores, it.memoryGb, 0.0, 0.0, 0, 0.0);
    assert Adequate(types, order, job);
    ChosenSuitable(types, order, job);
    assert Suitable(types, order[a], job);
    var k := Choose(types, order, job).value;
    var b :| 0 <= b < |order| && order[b] == k && Suitable(types, k, job)
             && forall c :: 0 <= c < b ==> !Suitable(types, order[c], job);
  }

  /** Whether every job is run on a type that fits it is decided by the types alone: exactly when the
      first type with the same id is as large as every type that can be chosen. */
  lemma AdequateExactly(types: seq<InstanceType>, order: seq<nat>)
    requires Positions(types, order)
    ensures (forall job :: Adequate(types, order, job))
       <==> (forall a :: 0 <= a < |order| && Reachable(types, order, a) ==>
               Dominates(types[Original(types, order[a])], types[order[a]]))
  {
    if forall job :: Adequate(types, order, job) {
      forall a | 0 <= a < |order| && Reachable(types, order, a)
        ensures Dominates(types[Original(types, order[a])], types[order[a]])
      {
        DominatingIfAdequate(types, order, a);
      }
    }
    if forall a :: 0 <= a < |order| && Reachable(types, order, a) ==>
         Dominates(types[Original(types, order[a])], types[order[a]]) {
      forall job
        ensures Adequate(types, order, job)
      {
        AdequateIfDominating(types, order, job);
      }
    }
  }

  /** Distinct ids are enough. */
  lemma DistinctIdsAdequate(types: seq<InstanceType>, order: seq<nat>, job: Job)
    requires Positions(types, order) && DistinctIds(types)
    ensures Adequate(types, order, job)
  {
    AdequateIfDominating(types, order, job);
  }

  /** With a repeated id a job does run on a type that is too small for it. */
  lemma RepeatedIdFails() returns (types: seq<InstanceType>, order: seq<nat>, job: Job)
    ensures StableOrder(CheaperOrEqual, types, order) && !Adequate(types, order, job)
    ensures exists i :: 0 <= i < |types| && Fits(types[i], job) && types[i].availableCount > 0
  {
    types := [InstanceType(1, 1, 1.0, 5.0, 1), InstanceType(1, 8, 8.0, 1.0, 1)];
    order := [1, 0];
    job := Job(0, 4, 4.0, 1.0, 1.0, 0, 0.0);
    assert Original(types, 1) == 0;
    assert Suitable(types, 1, job);
    assert Choose(types, order, job) == Some(1);
    assert Fits(types[1], job);
  }
}
