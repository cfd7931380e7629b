/** Sums and extremes of real sequences, shared by the two schedulers. */
module RealSums {

  function Max(a: real, b: real): (r: real)
    ensures r >= a && r >= b && (r == a || r == b)
  {
    if a >= b then a else b
  }

  function Sum(s: seq<real>): real {
    if s == [] then 0.0 else Sum(s[..|s| - 1]) + s[|s| - 1]
  }

  lemma SumSnoc(s: seq<real>, x: real)
    ensures Sum(s + [x]) == Sum(s) + x
  {
    assert (s + [x])[..|s|] == s;
  }

  lemma {:induction false} SumConcat(s: seq<real>, t: seq<real>)
    ensures Sum(s + t) == Sum(s) + Sum(t)
    decreases |t|
  {
    if t == [] {
      assert s + t == s;
    } else {
      var k := |t| - 1;
      assert s + t == (s + t[..k]) + [t[k]];
      SumConcat(s, t[..k]);
      SumSnoc(s + t[..k], t[k]);
    }
  }

  lemma {:induction false} SumUpdate(s: seq<real>, i: nat, x: real)
    requires i < |s|
    ensures Sum(s[i := x]) == Sum(s) - s[i] + x
  {
    var k := |s| - 1;
    if i == k {
      assert s[i := x][..k] == s[..k];
    } else {
      assert s[i := x][..k] == s[..k][i := x];
      SumUpdate(s[..k], i, x);
    }
  }

  /** A sum without one of its terms. */
  function Without<T>(s: seq<T>, i: nat): seq<T>
    requires i < |s|
  {
    s[..i] + s[i + 1..]
  }

  lemma SumAround(a: seq<real>, x: real, b: seq<real>)
    ensures Sum(a + [x] + b) == Sum(a + b) + x
  {
    SumConcat(a + [x], b);
    SumSnoc(a, x);
    SumConcat(a, b);
  }

  lemma Rejoin<T>(s: seq<T>, i: nat)
    requires i < |s|
    ensures s[..i] + [s[i]] + s[i + 1..] == s
  {
  }

  lemma SumWithout(s: seq<real>, i: nat)
    requires i < |s|
    ensures Sum(s) == Sum(Without(s, i)) + s[i]
  {
    Rejoin(s, i);
    SumAround(s[..i], s[i], s[i + 1..]);
  }

  /** n * x, as a sum: the solver handles it better than the product. */
  function Times(n: nat, x: real): real {
    if n == 0 then 0.0 else Times(n - 1, x) + x
  }

  function Product(n: nat, x: real): real {
    n as real * x
  }

  lemma NextProduct(n: nat, x: real)
    ensures Product(n + 1, x) == Product(n, x) + x
  {
  }

  lemma {:induction false} TimesProduct(n: nat, x: real)
    ensures Times(n, x) == Product(n, x)
  {
    if n > 0 {
      TimesProduct(n - 1, x);
      NextProduct(n - 1, x);
    }
  }

  lemma {:induction false} TimesAdd(n: nat, x: real, y: real)
    ensures Times(n, x + y) == Times(n, x) + Times(n, y)
  {
    if n > 0 {
      TimesAdd(n - 1, x, y);
    }
  }

  lemma {:induction false} TimesMonotone(n: nat, x: real, y: real)
    requires x <= y
    ensures Times(n, x) <= Times(n, y)
  {
    if n > 0 {
      TimesMonotone(n - 1, x, y);
    }
  }

  lemma {:induction false} TimesSum(m: nat, n: nat, x: real)
    ensures Times(m + n, x) == Times(m, x) + Times(n, x)
  {
    if n > 0 {
      TimesSum(m, n - 1, x);
    }
  }

  lemma {:induction false} TimesZero(n: nat)
    ensures Times(n, 0.0) == 0.0
  {
    if n > 0 {
      TimesZero(n - 1);
    }
  }

  /** A sum of n terms that are all at most b is at most n * b. */
  lemma {:induction false} SumAtMost(s: seq<real>, b: real)
    requires forall k :: 0 <= k < |s| ==> s[k] <= b
    ensures Sum(s) <= Times(|s|, b)
  {
    if s != [] {
      SumAtMost(s[..|s| - 1], b);
    }
  }

  lemma {:induction false} SumAtLeast(s: seq<real>, b: real)
    requires forall k :: 0 <= k < |s| ==> s[k] >= b
    ensures Sum(s) >= Times(|s|, b)
  {
    if s != [] {
      SumAtLeast(s[..|s| - 1], b);
    }
  }

  /** The first position of a least element. */
  function LeastIndex(s: seq<real>): (i: nat)
    requires s != []
    ensures i < |s| && forall k :: 0 <= k < |s| ==> s[i] <= s[k]
    ensures forall k :: 0 <= k < i ==> s[i] < s[k]
  {
    if |s| == 1 then 0
    else
      var i := LeastIndex(s[..|s| - 1]);
      if s[|s| - 1] < s[i] then |s| - 1 else i
  }
}
