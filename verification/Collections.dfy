/** Counting facts about sequences and sets that several modules need. */
module Collections {

  ghost predicate NoDup<T>(s: seq<T>) {
    forall i, j :: 0 <= i < j < |s| ==> s[i] != s[j]
  }

  ghost function Elements<T>(s: seq<T>): set<T> {
    set x | x in s
  }

  lemma {:induction false} NoDupCardinality<T>(s: seq<T>)
    requires NoDup(s)
    ensures |Elements(s)| == |s|
  {
    if s != [] {
      var k := |s| - 1;
      NoDupCardinality(s[..k]);
      assert s[k] !in s[..k];
      assert Elements(s) == Elements(s[..k]) + {s[k]};
    }
  }

  lemma {:induction false} SubsetCardinality<T>(a: set<T>, b: set<T>)
    requires a <= b
    ensures |a| <= |b|
  {
    if a != {} {
      var x :| x in a;
      SubsetCardinality(a - {x}, b - {x});
    }
  }

  /** Two majorities of one set share a member. */
  lemma MajoritiesMeet<T>(all: set<T>, a: set<T>, b: set<T>) returns (x: T)
    requires a <= all && b <= all
    requires |a| > |all| / 2 && |b| > |all| / 2
    ensures x in a && x in b
  {
    if a * b == {} {
      assert |a + b| == |a| + |b|;
      SubsetCardinality(a + b, all);
      assert false;
    }
    x :| x in a * b;
  }
}
