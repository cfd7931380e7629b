/** What the standard library's stable `sort_by` promises, for any ordering of the elements. */
module StableSort {
  import opened Collections

  /** The ordering is total and transitive on the elements of s. */
  ghost predicate Orders<T>(le: (T, T) -> bool, s: seq<T>) {
    && (forall i, j :: 0 <= i < |s| && 0 <= j < |s| ==> le(s[i], s[j]) || le(s[j], s[i]))
    && (forall i, j, k :: 0 <= i < |s| && 0 <= j < |s| && 0 <= k < |s| && le(s[i], s[j]) && le(s[j], s[k]) ==>
          le(s[i], s[k]))
  }

  /** Position i comes before position j in the stable order. */
  predicate Before<T>(le: (T, T) -> bool, s: seq<T>, i: nat, j: nat)
    requires i < |s| && j < |s|
  {
    le(s[i], s[j]) && (le(s[j], s[i]) ==> i < j)
  }

  ghost predicate OrderOf<T>(le: (T, T) -> bool, s: seq<T>, order: seq<nat>, n: nat)
    requires n <= |s|
  {
    && |order| == n
    && (forall a :: 0 <= a < n ==> order[a] < n)
    && (forall a, b :: 0 <= a < b < n ==> Before(le, s, order[a], order[b]))
  }

  /** The positions of the elements of s in the order that a stable sort gives them. */
  ghost predicate StableOrder<T>(le: (T, T) -> bool, s: seq<T>, order: seq<nat>) {
    OrderOf(le, s, order, |s|)
  }

  function Picked<T>(s: seq<T>, order: seq<nat>): seq<T>
    requires forall a :: 0 <= a < |order| ==> order[a] < |s|
  {
    seq(|order|, a requires 0 <= a < |order| => s[order[a]])
  }

  function Insert<T>(s: seq<T>, p: nat, x: T): seq<T>
    requires p <= |s|
  {
    s[..p] + [x] + s[p..]
  }

  lemma InsertMultiset<T>(s: seq<T>, p: nat, x: T)
    requires p <= |s|
    ensures multiset(Insert(s, p, x)) == multiset(s) + multiset{x}
  {
    assert s == s[..p] + s[p..];
  }

  lemma InsertedOrder<T>(le: (T, T) -> bool, s: seq<T>, order: seq<nat>, k: nat, p: nat)
    requires Orders(le, s) && k < |s| && p <= k && OrderOf(le, s, order, k)
    requires forall a :: 0 <= a < p ==> le(s[order[a]], s[k])
    requires p < k ==> !le(s[order[p]], s[k])
    ensures OrderOf(le, s, Insert(order, p, k), k + 1)
  {
    forall a | p <= a < k
      ensures Before(le, s, k, order[a])
    {
      assert a == p || Before(le, s, order[p], order[a]);
    }
    var order' := Insert(order, p, k);
    forall a, b | 0 <= a < b < k + 1
      ensures Before(le, s, order'[a], order'[b])
    {
      var a0, b0 := if a < p then a else a - 1, if b < p then b else b - 1;
      if a != p && b != p {
        assert Before(le, s, order[a0], order[b0]);
      }
    }
  }

  lemma PickedInserted<T>(le: (T, T) -> bool, s: seq<T>, order: seq<nat>, k: nat, p: nat)
    requires k < |s| && p <= k && OrderOf(le, s, order, k)
    requires multiset(Picked(s, order)) == multiset(s[..k])
    ensures multiset(Picked(s, Insert(order, p, k))) == multiset(s[..k + 1])
  {
    InsertMultiset(Picked(s, order), p, s[k]);
    assert Picked(s, Insert(order, p, k)) == Insert(Picked(s, order), p, s[k]);
    assert s[..k + 1] == s[..k] + [s[k]];
  }

  method FindSlot<T>(le: (T, T) -> bool, s: seq<T>, order: seq<nat>, k: nat) returns (p: nat)
    requires Orders(le, s) && k < |s| && OrderOf(le, s, order, k)
    ensures p <= k && OrderOf(le, s, Insert(order, p, k), k + 1)
  {
    p := 0;
    while p < k && le(s[order[p]], s[k])
      invariant p <= k
      invariant forall a :: 0 <= a < p ==> le(s[order[a]], s[k])
    {
      p := p + 1;
    }
    InsertedOrder(le, s, order, k, p);
  }

  method Sort<T>(le: (T, T) -> bool, s: seq<T>) returns (order: seq<nat>)
    requires Orders(le, s)
    ensures StableOrder(le, s, order)
    ensures multiset(Picked(s, order)) == multiset(s)
  {
    order := [];
    for k := 0 to |s|
      invariant OrderOf(le, s, order, k)
      invariant multiset(Picked(s, order)) == multiset(s[..k])
    {
      var p := FindSlot(le, s, order, k);
      PickedInserted(le, s, order, k, p);
      order := Insert(order, p, k);
    }
    assert s[..|s|] == s;
  }

  lemma Strict<T>(le: (T, T) -> bool, s: seq<T>, order: seq<nat>, p: nat, q: nat)
    requires StableOrder(le, s, order) && p < q < |s|
    ensures order[p] != order[q]
  {
    assert Before(le, s, order[p], order[q]);
  }

  lemma NextBefore<T>(le: (T, T) -> bool, s: seq<T>, a: seq<nat>, b: seq<nat>, k: nat)
    requires Orders(le, s) && StableOrder(le, s, a) && StableOrder(le, s, b) && k < |s|
    requires a[..k] == b[..k] && a[k] != b[k]
    ensures Before(le, s, a[k], b[k])
  {
    var q := PositionOf(le, s, a, b[k]);
    if q < k {
      assert a[..k][q] == b[..k][q];
      Strict(le, s, b, q, k);
    }
  }

  /** A stable sort has only one result. */
  lemma {:induction false} OneStableOrder<T>(le: (T, T) -> bool, s: seq<T>, a: seq<nat>, b: seq<nat>, k: nat)
    requires Orders(le, s) && StableOrder(le, s, a) && StableOrder(le, s, b) && k <= |s|
    ensures a[..k] == b[..k]
  {
    if k > 0 {
      OneStableOrder(le, s, a, b, k - 1);
      if a[k - 1] != b[k - 1] {
        NextBefore(le, s, a, b, k - 1);
        NextBefore(le, s, b, a, k - 1);
      }
    }
  }

  /** Every position of s occurs in its stable order. */
  lemma PositionOf<T>(le: (T, T) -> bool, s: seq<T>, order: seq<nat>, i: nat) returns (p: nat)
    requires StableOrder(le, s, order) && i < |s|
    ensures p < |order| && order[p] == i
  {
    if forall p :: 0 <= p < |order| ==> order[p] != i {
      FewPlaces(le, s, order, i, |order|);
      assert false;
    }
    p :| 0 <= p < |order| && order[p] == i;
  }

  function Below(n: nat): (r: set<nat>)
    ensures |r| == n && forall i: nat :: i in r <==> i < n
  {
    if n == 0 then {} else Below(n - 1) + {n - 1}
  }

  lemma {:induction false} FewPlaces<T>(le: (T, T) -> bool, s: seq<T>, order: seq<nat>, i: nat, k: nat)
    requires StableOrder(le, s, order) && i < |s| && k <= |order|
    requires forall p :: 0 <= p < |order| ==> order[p] != i
    ensures k < |s|
  {
    var used := set p | 0 <= p < k :: order[p];
    Distinct(le, s, order, k);
    assert used <= Below(|s|) - {i};
    SubsetCardinality(used, Below(|s|) - {i});
  }

  lemma {:induction false} Distinct<T>(le: (T, T) -> bool, s: seq<T>, order: seq<nat>, k: nat)
    requires StableOrder(le, s, order) && k <= |order|
    ensures |set p | 0 <= p < k :: order[p]| == k
  {
    if k > 0 {
      Distinct(le, s, order, k - 1);
      var before := set p | 0 <= p < k - 1 :: order[p];
      forall p | 0 <= p < k - 1
        ensures order[p] != order[k - 1]
      {
        assert Before(le, s, order[p], order[k - 1]);
      }
      assert order[k - 1] !in before;
      assert (set p | 0 <= p < k :: order[p]) == before + {order[k - 1]};
    }
  }
}
