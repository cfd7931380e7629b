/** Listing numbered things in the order of their ranks. */
module RankedOrder {

  ghost predicate Distinct(rank: map<nat, nat>) {
    forall t, u :: t in rank && u in rank && t != u ==> rank[t] != rank[u]
  }

  /** The order lists exactly the ranked things, by ascending rank. */
  ghost predicate Ranked(rank: map<nat, nat>, order: seq<nat>) {
    && (forall t :: t in order <==> t in rank)
    && (forall i :: 0 <= i < |order| ==> order[i] in rank)
    && forall i, j :: 0 <= i < j < |order| ==> rank[order[i]] < rank[order[j]]
  }

  lemma {:induction false} Highest(rank: map<nat, nat>, among: set<nat>) returns (t: nat)
    requires among != {} && among <= rank.Keys
    ensures t in among && forall u :: u in among ==> rank[u] <= rank[t]
    decreases |among|
  {
    t :| t in among;
    if among != {t} {
      var v := Highest(rank, among - {t});
      if rank[v] > rank[t] {
        t := v;
      }
    }
  }

  lemma {:induction false} Order(rank: map<nat, nat>) returns (order: seq<nat>)
    requires Distinct(rank)
    ensures Ranked(rank, order)
    decreases |rank|
  {
    if rank == map[] {
      order := [];
    } else {
      assert rank.Keys != {};
      var t := Highest(rank, rank.Keys);
      var rest := rank - {t};
      assert rest.Keys == rank.Keys - {t};
      assert |rest.Keys| == |rest| && |rank.Keys| == |rank|;
      var front := Order(rest);
      order := front + [t];
      Appended(rank, rest, front, t);
    }
  }

  lemma Appended(rank: map<nat, nat>, rest: map<nat, nat>, front: seq<nat>, t: nat)
    requires Distinct(rank) && t in rank && rest == rank - {t} && Ranked(rest, front)
    requires forall u :: u in rank ==> rank[u] <= rank[t]
    ensures Ranked(rank, front + [t])
  {
    var order := front + [t];
    forall u
      ensures u in order <==> u in rank
    {
      assert u in order <==> u in front || u == t;
    }
  }

  /** The thing at position p comes before exactly the higher ranked ones. */
  lemma RankDecides(rank: map<nat, nat>, order: seq<nat>, p: nat, q: nat)
    requires Ranked(rank, order) && p < |order| && q < |order|
    ensures p < q <==> rank[order[p]] < rank[order[q]]
  {
  }
}
