/** How good the plans of `ListScheduling` are. */
module ListSchedulingBounds {
  /* They are feasible, they are never much longer than the work demands, and with all transactions
     present from the start they are within a factor 2 - 1/m of any feasible schedule. */

  import opened ListScheduling
  import opened RealSums
  import opened StableSort

  // ---------------------------------------------------------------- feasible schedules

  datatype Placement = Placement(resource: nat, start: real)

  predicate Disjoint(s: real, d: real, s': real, d': real) {
    s + d <= s' || s' + d' <= s
  }

  /** A schedule of `ts` on m resources that is over at `finish`: nothing starts before 0 and no two
      transactions overlap on one resource. */
  ghost predicate Feasible(ts: seq<Transaction>, p: seq<Placement>, m: nat, finish: real) {
    && |p| == |ts|
    && (forall k :: 0 <= k < |ts| ==> p[k].resource < m && 0.0 <= p[k].start && p[k].start + ts[k].duration <= finish)
    && (forall j, k :: 0 <= j < k < |ts| && p[j].resource == p[k].resource ==>
          Disjoint(p[j].start, ts[j].duration, p[k].start, ts[k].duration))
  }

  function Placements(entries: seq<ScheduleEntry>): seq<Placement> {
    seq(|entries|, k requires 0 <= k < |entries| => Placement(entries[k].resourceId, entries[k].startTime))
  }

  ghost predicate Timely(ts: seq<Transaction>) {
    forall k :: 0 <= k < |ts| ==> ts[k].duration >= 0.0 && ts[k].arrivalTime >= 0.0
  }

  /** Everything booked on a resource is over when the resource is next available. */
  ghost predicate Booked(ts: seq<Transaction>, p: Plan) {
    && |p.entries| == |ts|
    && (forall r :: 0 <= r < |p.avail| ==> p.avail[r] >= 0.0)
    && (forall k :: 0 <= k < |ts| ==>
          var e := p.entries[k];
          && e.txnId == ts[k].id
          && e.resourceId < |p.avail|
          && e.startTime >= ts[k].arrivalTime
          && Finish(ts[k], e) <= p.avail[e.resourceId])
    && (forall j, k :: 0 <= j < k < |ts| && p.entries[j].resourceId == p.entries[k].resourceId ==>
          Finish(ts[j], p.entries[j]) <= p.entries[k].startTime)
  }

  lemma ExtendBooked(ts: seq<Transaction>, p: Plan, t: Transaction)
    requires p.avail != [] && Booked(ts, p) && t.duration >= 0.0 && t.arrivalTime >= 0.0
    ensures Booked(ts + [t], Extend(p, t))
  {
  }

  /** Every transaction is placed once, on a resource that exists, not before it arrives, and no two
      overlap. */
  lemma {:induction false} PlanBooked(m: nat, ts: seq<Transaction>)
    requires m > 0 && Timely(ts)
    ensures Booked(ts, PlanFor(m, ts))
  {
    if ts != [] {
      var k := |ts| - 1;
      PlanBooked(m, ts[..k]);
      ExtendBooked(ts[..k], PlanFor(m, ts[..k]), ts[k]);
      assert ts == ts[..k] + [ts[k]];
    }
  }

  /** The plan is feasible and over at its own makespan. */
  lemma PlanFeasible(m: nat, ts: seq<Transaction>)
    requires m > 0 && Timely(ts)
    ensures Feasible(ts, Placements(PlanFor(m, ts).entries), m, Greatest(PlanFor(m, ts).avail))
  {
    PlanBooked(m, ts);
  }

  // ---------------------------------------------------------------- work fits into m * finish

  datatype Interval = Interval(start: real, length: real)

  function Lengths(s: seq<Interval>): seq<real> {
    seq(|s|, k requires 0 <= k < |s| => s[k].length)
  }

  ghost predicate Apart(s: seq<Interval>) {
    forall j, k :: 0 <= j < |s| && 0 <= k < |s| && j != k ==> Disjoint(s[j].start, s[j].length, s[k].start, s[k].length)
  }

  ghost predicate Within(s: seq<Interval>, finish: real) {
    forall k :: 0 <= k < |s| ==>
      s[k].start >= 0.0 && s[k].length >= 0.0 && (s[k].length > 0.0 ==> s[k].start + s[k].length <= finish)
  }

  function LatestEnd(s: seq<Interval>): (i: nat)
    requires s != []
    ensures i < |s| && forall k :: 0 <= k < |s| ==> s[k].start + s[k].length <= s[i].start + s[i].length
  {
    if |s| == 1 then 0
    else
      var k := |s| - 1;
      var i := LatestEnd(s[..k]);
      if s[i].start + s[i].length < s[k].start + s[k].length then k else i
  }

  lemma WithoutKeeps(s: seq<Interval>, i: nat)
    requires i < |s| && Apart(s)
    ensures Apart(Without(s, i))
    ensures Lengths(Without(s, i)) == Without(Lengths(s), i)
    ensures forall k :: 0 <= k < |s| - 1 ==> Without(s, i)[k] == s[if k < i then k else k + 1]
  {
  }

  /** Disjoint intervals within [0, finish] are together no longer than finish. */
  lemma {:induction false} DisjointFit(s: seq<Interval>, finish: real)
    requires Apart(s) && Within(s, finish) && finish >= 0.0
    ensures Sum(Lengths(s)) <= finish
    decreases |s|
  {
    if s == [] {
      assert Lengths(s) == [];
    } else {
      var i := if exists z :: 0 <= z < |s| && s[z].length == 0.0
        then var z :| 0 <= z < |s| && s[z].length == 0.0; z
        else LatestEnd(s);
      WithoutKeeps(s, i);
      SumWithout(Lengths(s), i);
      var finish' := if s[i].length == 0.0 then finish else s[i].start;
      forall k | 0 <= k < |s| - 1 && Without(s, i)[k].length > 0.0
        ensures Without(s, i)[k].start + Without(s, i)[k].length <= finish'
      {
        var j := if k < i then k else k + 1;
        assert Disjoint(s[j].start, s[j].length, s[i].start, s[i].length);
      }
      DisjointFit(Without(s, i), finish');
    }
  }

  /** What a schedule puts on resource r. */
  function On(ts: seq<Transaction>, p: seq<Placement>, r: nat): seq<Interval>
    requires |p| == |ts|
  {
    if ts == [] then []
    else
      var k := |ts| - 1;
      var rest := On(ts[..k], p[..k], r);
      if p[k].resource == r then rest + [Interval(p[k].start, ts[k].duration)] else rest
  }

  ghost predicate FromPlacement(ts: seq<Transaction>, p: seq<Placement>, r: nat, v: Interval)
    requires |p| == |ts|
  {
    exists k :: 0 <= k < |ts| && p[k].resource == r && v == Interval(p[k].start, ts[k].duration)
  }

  lemma FeasiblePrefix(ts: seq<Transaction>, p: seq<Placement>, m: nat, finish: real, n: nat)
    requires Feasible(ts, p, m, finish) && n <= |ts|
    ensures Feasible(ts[..n], p[..n], m, finish)
  {
  }

  lemma {:induction false} OnIsApart(ts: seq<Transaction>, p: seq<Placement>, m: nat, finish: real, r: nat)
    requires Feasible(ts, p, m, finish) && forall k :: 0 <= k < |ts| ==> ts[k].duration >= 0.0
    ensures Apart(On(ts, p, r)) && Within(On(ts, p, r), finish)
    ensures forall v :: v in On(ts, p, r) ==> FromPlacement(ts, p, r, v)
  {
    if ts != [] {
      var k := |ts| - 1;
      FeasiblePrefix(ts, p, m, finish, k);
      OnIsApart(ts[..k], p[..k], m, finish, r);
      var before := On(ts[..k], p[..k], r);
      forall v | v in before
        ensures FromPlacement(ts, p, r, v)
        ensures p[k].resource == r ==> Disjoint(v.start, v.length, p[k].start, ts[k].duration)
      {
        assert FromPlacement(ts[..k], p[..k], r, v);
        var j :| 0 <= j < k && p[..k][j].resource == r && v == Interval(p[..k][j].start, ts[..k][j].duration);
        assert p[j].resource == r && v == Interval(p[j].start, ts[j].duration);
      }
      if p[k].resource == r {
        assert FromPlacement(ts, p, r, Interval(p[k].start, ts[k].duration));
      }
    }
  }

  function Loads(ts: seq<Transaction>, p: seq<Placement>, m: nat): seq<real>
    requires |p| == |ts|
  {
    seq(m, r requires 0 <= r < m => Sum(Lengths(On(ts, p, r))))
  }

  lemma LengthsSnoc(s: seq<Interval>, v: Interval)
    ensures Sum(Lengths(s + [v])) == Sum(Lengths(s)) + v.length
  {
    assert Lengths(s + [v]) == Lengths(s) + [v.length];
    SumSnoc(Lengths(s), v.length);
  }

  lemma LoadsSnoc(ts: seq<Transaction>, p: seq<Placement>, m: nat)
    requires |p| == |ts| > 0 && p[|ts| - 1].resource < m
    ensures var k := |ts| - 1;
            var before := Loads(ts[..k], p[..k], m);
            Loads(ts, p, m) == before[p[k].resource := before[p[k].resource] + ts[k].duration]
  {
    var k := |ts| - 1;
    forall r | 0 <= r < m
      ensures Loads(ts, p, m)[r]
           == Loads(ts[..k], p[..k], m)[r] + if r == p[k].resource then ts[k].duration else 0.0
    {
      LengthsSnoc(On(ts[..k], p[..k], r), Interval(p[k].start, ts[k].duration));
    }
  }

  lemma ZeroSum(n: nat)
    ensures Sum(Zeros(n)) == 0.0
  {
    TimesZero(n);
    SumAtMost(Zeros(n), 0.0);
    SumAtLeast(Zeros(n), 0.0);
  }

  lemma {:induction false} LoadsAddUp(ts: seq<Transaction>, p: seq<Placement>, m: nat)
    requires |p| == |ts| && forall k :: 0 <= k < |ts| ==> p[k].resource < m
    ensures Sum(Loads(ts, p, m)) == Total(ts)
  {
    if ts == [] {
      assert Durations(ts) == [];
      assert Lengths([]) == [];
      assert Loads(ts, p, m) == Zeros(m);
      ZeroSum(m);
    } else {
      var k := |ts| - 1;
      LoadsAddUp(ts[..k], p[..k], m);
      LoadsSnoc(ts, p, m);
      SumUpdate(Loads(ts[..k], p[..k], m), p[k].resource, Loads(ts[..k], p[..k], m)[p[k].resource] + ts[k].duration);
      TotalSnoc(ts[..k], ts[k]);
      assert ts == ts[..k] + [ts[k]];
    }
  }

  /** m resources do no more than m * finish of work by `finish`. */
  lemma WorkFits(ts: seq<Transaction>, p: seq<Placement>, m: nat, finish: real)
    requires Feasible(ts, p, m, finish) && finish >= 0.0 && forall k :: 0 <= k < |ts| ==> ts[k].duration >= 0.0
    ensures Total(ts) <= Times(m, finish)
  {
    forall r | 0 <= r < m
      ensures Loads(ts, p, m)[r] <= finish
    {
      OnIsApart(ts, p, m, finish, r);
      DisjointFit(On(ts, p, r), finish);
    }
    LoadsAddUp(ts, p, m);
    SumAtMost(Loads(ts, p, m), finish);
  }

  // ---------------------------------------------------------------- the plan is not much longer than that

  /** Availability times, none counted below `a`. */
  function Raised(avail: seq<real>, a: real): seq<real> {
    seq(|avail|, k requires 0 <= k < |avail| => Max(avail[k], a))
  }

  /** Together the resources are available not much later than the work demands, and none of them
      much later than that. */
  ghost predicate Short(avail: seq<real>, a: real, work: real, d: real) {
    && avail != []
    && Sum(Raised(avail, a)) <= Times(|avail|, a) + work
    && forall r :: 0 <= r < |avail| ==> Early(|avail|, avail[r], a, work, d)
  }

  ghost predicate Early(m: nat, x: real, a: real, work: real, d: real)
    requires m > 0
  {
    Times(m, x) <= Times(m, a) + work + Times(m - 1, d)
  }

  lemma RaisedUpdate(avail: seq<real>, a: real, i: nat, x: real)
    requires i < |avail|
    ensures Sum(Raised(avail[i := x], a)) == Sum(Raised(avail, a)) - Max(avail[i], a) + Max(x, a)
  {
    assert Raised(avail[i := x], a) == Raised(avail, a)[i := Max(x, a)];
    SumUpdate(Raised(avail, a), i, Max(x, a));
  }

  /** The least of m terms is at most their mean. */
  lemma LeastBelowMean(avail: seq<real>, a: real, i: nat)
    requires i < |avail| && forall k :: 0 <= k < |avail| ==> avail[i] <= avail[k]
    ensures Times(|avail|, avail[i]) <= Sum(Raised(avail, a))
    ensures Times(|avail|, a) <= Sum(Raised(avail, a))
  {
    SumAtLeast(Raised(avail, a), avail[i]);
    SumAtLeast(Raised(avail, a), a);
  }

  lemma FinishEarly(m: nat, s: real, a: real, work: real, t: real, d: real)
    requires m > 0 && Times(m, s) <= Times(m, a) + work && t <= d
    ensures Early(m, s + t, a, work + t, d)
  {
    TimesAdd(m, s, t);
    assert Times(m, t) == Times(m - 1, t) + t;
    TimesMonotone(m - 1, t, d);
  }

  lemma ExtendShort(p: Plan, t: Transaction, a: real, work: real, d: real)
    requires p.avail != [] && Short(p.avail, a, work, d) && work >= 0.0
    requires 0.0 <= t.duration <= d && t.arrivalTime <= a
    ensures Short(Extend(p, t).avail, a, work + t.duration, d)
  {
    var i, s := LeastIndex(p.avail), StartOn(p.avail, t);
    RaisedUpdate(p.avail, a, i, s + t.duration);
    LeastBelowMean(p.avail, a, i);
    TimesMonotone(|p.avail|, t.arrivalTime, a);
    FinishEarly(|p.avail|, s, a, work, t.duration, d);
    forall r | 0 <= r < |p.avail|
      ensures Early(|p.avail|, Extend(p, t).avail[r], a, work + t.duration, d)
    {
      assert Early(|p.avail|, p.avail[r], a, work, d);
    }
  }

  ghost predicate Bounded(ts: seq<Transaction>, a: real, d: real) {
    forall k :: 0 <= k < |ts| ==> 0.0 <= ts[k].duration <= d && ts[k].arrivalTime <= a
  }

  lemma NonNegativeTimes(n: nat, x: real)
    requires x >= 0.0
    ensures Times(n, x) >= 0.0
  {
    TimesZero(n);
    TimesMonotone(n, 0.0, x);
  }

  lemma StartShort(m: nat, a: real, d: real)
    requires m > 0 && a >= 0.0 && d >= 0.0
    ensures Short(Zeros(m), a, 0.0, d)
  {
    SumAtMost(Raised(Zeros(m), a), a);
    TimesZero(m);
    NonNegativeTimes(m, a);
    NonNegativeTimes(m - 1, d);
  }

  lemma {:induction false} PlanShort(m: nat, ts: seq<Transaction>, a: real, d: real)
    requires m > 0 && a >= 0.0 && d >= 0.0 && Bounded(ts, a, d)
    ensures Short(PlanFor(m, ts).avail, a, Total(ts), d) && Total(ts) >= 0.0
  {
    if ts == [] {
      assert Durations(ts) == [];
      StartShort(m, a, d);
    } else {
      var k := |ts| - 1;
      PlanShort(m, ts[..k], a, d);
      TotalSnoc(ts[..k], ts[k]);
      assert ts == ts[..k] + [ts[k]];
      ExtendShort(PlanFor(m, ts[..k]), ts[k], a, Total(ts[..k]), d);
    }
  }

  lemma ZeroEarly(m: nat, a: real, work: real, d: real)
    requires m > 0 && a >= 0.0 && work >= 0.0 && d >= 0.0
    ensures Early(m, 0.0, a, work, d)
  {
    TimesZero(m);
    NonNegativeTimes(m, a);
    NonNegativeTimes(m - 1, d);
  }

  lemma GreatestEarly(avail: seq<real>, a: real, work: real, d: real)
    requires Short(avail, a, work, d) && a >= 0.0 && work >= 0.0 && d >= 0.0
    ensures Early(|avail|, Greatest(avail), a, work, d)
  {
    if Greatest(avail) == 0.0 {
      ZeroEarly(|avail|, a, work, d);
    } else {
      var r :| 0 <= r < |avail| && avail[r] == Greatest(avail);
      assert Early(|avail|, avail[r], a, work, d);
    }
  }

  lemma EarlyProduct(m: nat, x: real, a: real, work: real, d: real)
    requires m > 0 && Early(m, x, a, work, d)
    ensures Product(m, x) <= Product(m, a) + work + Product(m - 1, d)
  {
    TimesProduct(m, x);
    TimesProduct(m, a);
    TimesProduct(m - 1, d);
  }

  /** List scheduling: makespan <= latest arrival + work / m + (1 - 1/m) * longest duration, here
      multiplied by m. */
  lemma MakespanBound(m: nat, ts: seq<Transaction>, a: real, d: real)
    requires m > 0 && a >= 0.0 && d >= 0.0 && Bounded(ts, a, d)
    ensures Product(m, Greatest(PlanFor(m, ts).avail)) <= Product(m, a) + Total(ts) + Product(m - 1, d)
  {
    PlanShort(m, ts, a, d);
    GreatestEarly(PlanFor(m, ts).avail, a, Total(ts), d);
    EarlyProduct(m, Greatest(PlanFor(m, ts).avail), a, Total(ts), d);
  }

  lemma TwiceTimes(m: nat, finish: real)
    requires m > 0
    ensures Times(m, finish) + Times(m - 1, finish) == Product(2 * m - 1, finish)
  {
    var n: nat := m - 1;
    TimesSum(m, n, finish);
    TimesProduct(m + n, finish);
    assert m + n == 2 * m - 1;
  }

  lemma Twice(m: nat, x: real, work: real, finish: real)
    requires m > 0 && Early(m, x, 0.0, work, finish) && work <= Times(m, finish)
    ensures Product(m, x) <= Product(2 * m - 1, finish)
  {
    TimesZero(m);
    TwiceTimes(m, finish);
    TimesProduct(m, x);
  }

  /** The factor 2 - 1/m, from what is known of any feasible schedule: the work fits, and so does each
      transaction. */
  lemma WithinTwice(m: nat, ts: seq<Transaction>, finish: real)
    requires m > 0 && finish >= 0.0 && Bounded(ts, 0.0, finish) && Total(ts) <= Times(m, finish)
    ensures Product(m, Greatest(PlanFor(m, ts).avail)) <= Product(2 * m - 1, finish)
  {
    PlanShort(m, ts, 0.0, finish);
    GreatestEarly(PlanFor(m, ts).avail, 0.0, Total(ts), finish);
    Twice(m, Greatest(PlanFor(m, ts).avail), Total(ts), finish);
  }

  lemma FeasibleBounded(ts: seq<Transaction>, best: seq<Placement>, m: nat, finish: real)
    requires Feasible(ts, best, m, finish)
    requires forall k :: 0 <= k < |ts| ==> ts[k].duration >= 0.0 && ts[k].arrivalTime == 0.0
    ensures Bounded(ts, 0.0, finish)
  {
    forall k | 0 <= k < |ts|
      ensures ts[k].duration <= finish
    {
      assert best[k].start + ts[k].duration <= finish;
    }
  }

  /** When everything has arrived at 0, the plan is within 2 - 1/m of any feasible schedule of the
      same transactions on the same resources. */
  lemma WithinTwiceOptimal(m: nat, ts: seq<Transaction>, best: seq<Placement>, finish: real)
    requires m > 0 && finish >= 0.0 && Feasible(ts, best, m, finish)
    requires forall k :: 0 <= k < |ts| ==> ts[k].duration >= 0.0 && ts[k].arrivalTime == 0.0
    ensures Product(m, Greatest(PlanFor(m, ts).avail)) <= Product(2 * m - 1, finish)
  {
    FeasibleBounded(ts, best, m, finish);
    WorkFits(ts, best, m, finish);
    WithinTwice(m, ts, finish);
  }

  lemma Quotient(x: real, y: real)
    requires y > 0.0 && 0.0 <= x <= y
    ensures 0.0 <= x / y <= 1.0
  {
  }

  lemma CapacityTimes(m: nat, makespan: real, work: real)
    requires m > 0 && makespan >= 0.0 && 0.0 <= work <= Times(m, makespan)
    ensures work <= Capacity(m, makespan)
  {
    TimesProduct(m, makespan);
    TimesZero(m);
    if makespan > 0.0 {
      assert makespan * m as real == m as real * makespan;
    }
  }

  /** Utilization is at most 1 by itself: the cap in `schedule` never changes it. */
  lemma UtilizationNeedsNoCap(m: nat, ts: seq<Transaction>)
    requires m > 0 && Timely(ts)
    ensures var makespan := Greatest(PlanFor(m, ts).avail);
            0.0 <= Total(ts) / Capacity(m, makespan) <= 1.0
  {
    var makespan := Greatest(PlanFor(m, ts).avail);
    PlanFeasible(m, ts);
    WorkFits(ts, Placements(PlanFor(m, ts).entries), m, makespan);
    TimesZero(|ts|);
    SumAtLeast(Durations(ts), 0.0);
    CapacityTimes(m, makespan, Total(ts));
    Quotient(Total(ts), Capacity(m, makespan));
  }

  lemma SameMembers(ts: seq<Transaction>, sorted: seq<Transaction>)
    requires multiset(sorted) == multiset(ts)
    ensures |ts| == |sorted| && forall t :: t in sorted <==> t in ts
  {
    assert |multiset(ts)| == |ts| && |multiset(sorted)| == |sorted|;
    assert forall t :: t in sorted <==> t in multiset(sorted);
    assert forall t :: t in ts <==> t in multiset(ts);
  }

  lemma MultisetWithout(s: seq<Transaction>, i: nat)
    requires i < |s|
    ensures multiset(Without(s, i)) == multiset(s) - multiset{s[i]}
  {
    Rejoin(s, i);
    assert multiset(s) == multiset(s[..i] + [s[i]] + s[i + 1..]);
  }

  lemma RestOfMultiset(ts: seq<Transaction>, sorted: seq<Transaction>, i: nat)
    requires multiset(sorted) == multiset(ts) && ts != [] && i < |sorted| && sorted[i] == ts[|ts| - 1]
    ensures multiset(Without(sorted, i)) == multiset(ts[..|ts| - 1])
  {
    MultisetWithout(sorted, i);
    MultisetWithout(ts, |ts| - 1);
    assert Without(ts, |ts| - 1) == ts[..|ts| - 1];
  }

  /** Sorting does not change the total work. */
  lemma {:induction false} TotalOfSorted(ts: seq<Transaction>, sorted: seq<Transaction>)
    requires multiset(sorted) == multiset(ts)
    ensures Total(sorted) == Total(ts)
    decreases |ts|
  {
    SameMembers(ts, sorted);
    if ts == [] {
      assert sorted == ts;
    } else {
      var k := |ts| - 1;
      assert ts[k] in sorted;
      var i: nat :| i < |sorted| && sorted[i] == ts[k];
      RestOfMultiset(ts, sorted, i);
      TotalOfSorted(ts[..k], Without(sorted, i));
      assert Durations(Without(sorted, i)) == Without(Durations(sorted), i);
      SumWithout(Durations(sorted), i);
      TotalSnoc(ts[..k], ts[k]);
      assert ts == ts[..k] + [ts[k]];
    }
  }

  // ---------------------------------------------------------------- what schedule returns

  lemma SortedBounded(ts: seq<Transaction>, sorted: seq<Transaction>, a: real, d: real)
    requires multiset(sorted) == multiset(ts) && Bounded(ts, a, d)
    ensures Bounded(sorted, a, d)
  {
    SameMembers(ts, sorted);
    forall k | 0 <= k < |sorted|
      ensures 0.0 <= sorted[k].duration <= d && sorted[k].arrivalTime <= a
    {
      assert sorted[k] in ts;
    }
  }

  /** The bound for whatever `schedule` returns, in terms of the transactions as they were given. */
  lemma ScheduleBound(txns: seq<Transaction>, m: nat, order: seq<nat>, r: ScheduleResult, a: real, d: real)
    requires Scheduled(txns, m, order, r) && a >= 0.0 && d >= 0.0 && Bounded(txns, a, d)
    ensures Product(m, r.makespan) <= Product(m, a) + Total(txns) + Product(m - 1, d)
  {
    var sorted := Picked(txns, order);
    SortedBounded(txns, sorted, a, d);
    TotalOfSorted(txns, sorted);
    MakespanBound(m, sorted, a, d);
  }

  /** With all arrivals at 0, what `schedule` returns is within 2 - 1/m of any feasible schedule of the
      transactions as they were given. */
  lemma ScheduleWithinTwice(txns: seq<Transaction>, m: nat, order: seq<nat>, r: ScheduleResult,
                            best: seq<Placement>, finish: real)
    requires Scheduled(txns, m, order, r) && finish >= 0.0 && Feasible(txns, best, m, finish)
    requires forall k :: 0 <= k < |txns| ==> txns[k].duration >= 0.0 && txns[k].arrivalTime == 0.0
    ensures Product(m, r.makespan) <= Product(2 * m - 1, finish)
  {
    var sorted := Picked(txns, order);
    FeasibleBounded(txns, best, m, finish);
    SortedBounded(txns, sorted, 0.0, finish);
    TotalOfSorted(txns, sorted);
    WorkFits(txns, best, m, finish);
    WithinTwice(m, sorted, finish);
  }
}
