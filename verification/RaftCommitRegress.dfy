/** Commit progress fails of the code: a run of five nodes in which a follower's commit index goes back
    from 3 to 2. The false reports of two nodes make a leader commit entries that a later leader cuts
    off its log, and it then announces a commit index past the end of its log. */
module RaftCommitRegress {
  import opened Collections
  import opened Options
  import opened RaftNode
  import opened RaftEffects
  import opened RaftCluster
  import opened RaftScript

  const A: NodeId := 0
  const B: NodeId := 1
  const C: NodeId := 2
  const D: NodeId := 3
  const E: NodeId := 4
  const IDS: seq<NodeId> := [A, B, C, D, E]

  /** The first k entries of a log all of one term. */
  function Row(term: nat, k: nat): (r: seq<Entry>)
    ensures |r| == k && forall j :: 0 <= j < k ==> r[j] == Entry(j + 1, term, [])
  {
    seq(k, j requires 0 <= j < k => Entry(j + 1, term, []))
  }

  lemma NextInRow(term: nat, k: nat)
    ensures Row(term, k) + [Entry(k + 1, term, [])] == Row(term, k + 1)
  {
  }

  /** The log that the leader of term 3 leaves behind: the first entry of term 2, and one of its own. */
  function Cut(): seq<Entry> {
    [Entry(1, 2, []), Entry(2, 3, [])]
  }

  ghost predicate Five(s: Cluster) {
    A in s.nodes && B in s.nodes && C in s.nodes && D in s.nodes && E in s.nodes
  }

  /** A node that takes node p to have matched m entries. */
  ghost predicate Takes(n: Node, p: NodeId, m: nat) {
    p in n.matchIndex && n.matchIndex[p] == m
  }

  ghost predicate SendsFrom(n: Node, p: NodeId, next: nat) {
    p in n.nextIndex && n.nextIndex[p] == next
  }

  // ---------------------------------------------------------------- term 1: two nodes get a tail

  lemma Elected1() returns (t: Trace, s: Cluster)
    ensures At(t, s, IDS) && Five(s)
    ensures Is(s.nodes[A], Leader, 1, Row(1, 0), 0) && SendsFrom(s.nodes[A], B, 1)
    ensures Is(s.nodes[B], Follower, 1, [], 0) && Is(s.nodes[C], Follower, 1, [], 0)
    ensures Is(s.nodes[D], Follower, 0, [], 0) && Is(s.nodes[E], Follower, 0, [], 0)
  {
    t, s := Start(IDS);
    t, s := ThenElected(t, s, IDS, A, C, B);
  }

  /** A has proposed k entries, and sent them to B. */
  lemma {:induction false} Proposed1(k: nat) returns (t: Trace, s: Cluster)
    ensures At(t, s, IDS) && Five(s)
    ensures Is(s.nodes[A], Leader, 1, Row(1, k), 0) && SendsFrom(s.nodes[A], B, 1)
    ensures Is(s.nodes[B], Follower, 1, [], 0) && Is(s.nodes[C], Follower, 1, [], 0)
    ensures Is(s.nodes[D], Follower, 0, [], 0) && Is(s.nodes[E], Follower, 0, [], 0)
    ensures k > 0 ==> Delivered(s, B, AppendEntries(1, A, 0, 0, Row(1, k), 0))
  {
    if k == 0 {
      t, s := Elected1();
    } else {
      t, s := Proposed1(k - 1);
        t, s := ThenProposes(t, s, IDS, A, B);
      NextInRow(1, k - 1);
      PayloadRow(s.nodes[A], 1, k);
    }
  }

  lemma Tails() returns (t: Trace, s: Cluster)
    ensures At(t, s, IDS) && Five(s)
    ensures Is(s.nodes[A], Leader, 1, Row(1, 4), 0) && Is(s.nodes[B], Follower, 1, Row(1, 4), 0)
    ensures Is(s.nodes[C], Follower, 1, [], 0) && Is(s.nodes[D], Follower, 0, [], 0)
            && Is(s.nodes[E], Follower, 0, [], 0)
  {
    t, s := Proposed1(4);
    MergeIntoEmpty(Row(1, 4));
    t, s := ThenAccepts(t, s, IDS, B, AppendEntries(1, A, 0, 0, Row(1, 4), 0));
  }

  // ---------------------------------------------------------------- term 2: false reports, a real commit of nothing

  lemma Elected2() returns (t: Trace, s: Cluster)
    ensures At(t, s, IDS) && Five(s)
    ensures Is(s.nodes[A], Leader, 1, Row(1, 4), 0) && Is(s.nodes[B], Follower, 1, Row(1, 4), 0)
    ensures Is(s.nodes[C], Leader, 2, Row(2, 0), 0) && Leads(s.nodes[C], s.nodes.Keys)
    ensures Is(s.nodes[D], Follower, 2, [], 0) && Is(s.nodes[E], Follower, 2, [], 0)
    ensures Delivered(s, A, AppendEntries(2, C, 0, 0, [], 0)) && Delivered(s, B, AppendEntries(2, C, 0, 0, [], 0))
  {
    t, s := Tails();
    t, s := ThenElected(t, s, IDS, C, D, E);
    Payload(s.nodes[C], 1);
  }

  /** A and B accept C's empty heartbeats and report their four entries of term 1. */
  lemma Reported2() returns (t: Trace, s: Cluster)
    ensures At(t, s, IDS) && Five(s)
    ensures Is(s.nodes[A], Follower, 2, Row(1, 4), 0) && Is(s.nodes[B], Follower, 2, Row(1, 4), 0)
    ensures Is(s.nodes[C], Leader, 2, Row(2, 0), 0) && Leads(s.nodes[C], s.nodes.Keys)
    ensures Is(s.nodes[D], Follower, 2, [], 0) && Is(s.nodes[E], Follower, 2, [], 0)
    ensures Delivered(s, C, AppendEntriesResponse(2, A, true, 4))
            && Delivered(s, C, AppendEntriesResponse(2, B, true, 4))
  {
    t, s := Elected2();
    t, s := ThenAccepts(t, s, IDS, A, AppendEntries(2, C, 0, 0, [], 0));
    t, s := ThenAccepts(t, s, IDS, B, AppendEntries(2, C, 0, 0, [], 0));
  }

  /** What does not change any more of A, B and E, while C replicates. */
  ghost predicate Others2(s: Cluster) {
    && Five(s)
    && Is(s.nodes[A], Follower, 2, Row(1, 4), 0) && Is(s.nodes[B], Follower, 2, Row(1, 4), 0)
    && Delivered(s, C, AppendEntriesResponse(2, A, true, 4))
  }

  ghost predicate Leader2(s: Cluster, k: nat, commit: nat)
    requires Five(s)
  {
    && Is(s.nodes[C], Leader, 2, Row(2, k), commit)
    && Takes(s.nodes[C], A, 4) && Takes(s.nodes[C], B, 4) && Takes(s.nodes[C], C, k)
    && SendsFrom(s.nodes[C], D, 1) && SendsFrom(s.nodes[C], E, 1)
  }

  lemma Counted2() returns (t: Trace, s: Cluster)
    ensures At(t, s, IDS) && Others2(s) && Leader2(s, 0, 0)
    ensures Is(s.nodes[D], Follower, 2, [], 0) && Is(s.nodes[E], Follower, 2, [], 0)
  {
    t, s := Reported2();
    t, s := ThenNotes(t, s, IDS, C, A, 4);
    t, s := ThenNotes(t, s, IDS, C, B, 4);
  }

  lemma PayloadRow(n: Node, term: nat, k: nat)
    requires n.term == term && n.log == Row(term, k)
    ensures AppendMessage(n, 1) == AppendEntries(term, n.id, 0, 0, Row(term, k), n.commitIndex)
  {
    Payload(n, 1);
    assert Row(term, k)[0..] == Row(term, k);
  }

  /** C proposes its next entry and sends what it has to p. */
  lemma Proposes2(t: Trace, s: Cluster, k: nat, commit: nat, p: NodeId) returns (t': Trace, s': Cluster)
    requires At(t, s, IDS) && Others2(s) && Leader2(s, k, commit) && p in {D, E}
    ensures At(t', s', IDS) && Others2(s') && Leader2(s', k + 1, commit)
    ensures s'.nodes[D] == s.nodes[D] && s'.nodes[E] == s.nodes[E]
    ensures Delivered(s', p, AppendEntries(2, C, 0, 0, Row(2, k + 1), commit))
  {
    t', s' := ThenProposes(t, s, IDS, C, p);
    NextInRow(2, k);
    PayloadRow(s'.nodes[C], 2, k + 1);
  }

  lemma Sent2() returns (t: Trace, s: Cluster)
    ensures At(t, s, IDS) && Others2(s) && Leader2(s, 1, 0)
    ensures Is(s.nodes[D], Follower, 2, [], 0) && Is(s.nodes[E], Follower, 2, [], 0)
    ensures Delivered(s, D, AppendEntries(2, C, 0, 0, Row(2, 1), 0))
  {
    t, s := Counted2();
    t, s := Proposes2(t, s, 0, 0, D);
  }

  /** D gets the first entry of term 2 only. */
  lemma Shared2() returns (t: Trace, s: Cluster)
    ensures At(t, s, IDS) && Others2(s) && Leader2(s, 1, 0)
    ensures Is(s.nodes[D], Follower, 2, Row(2, 1), 0) && Is(s.nodes[E], Follower, 2, [], 0)
  {
    t, s := Sent2();
    MergeIntoEmpty(Row(2, 1));
    t, s := ThenAccepts(t, s, IDS, D, AppendEntries(2, C, 0, 0, Row(2, 1), 0));
  }

  /** C commits its whole log when A's report arrives once more. */
  lemma Commits2(t: Trace, s: Cluster, k: nat, commit: nat) returns (t': Trace, s': Cluster)
    requires At(t, s, IDS) && Others2(s) && Leader2(s, k, commit) && commit < k <= 4
    ensures At(t', s', IDS) && Others2(s') && Leader2(s', k, k)
    ensures s'.nodes[D] == s.nodes[D] && s'.nodes[E] == s.nodes[E]
  {
    ThreeOf();
    t', s' := ThenCommits(t, s, IDS, C, A, 4, {A, B, C});
  }

  lemma ThreeOf()
    ensures |{A, B, C}| == 3
  {
    assert {A, B, C} == {A, B} + {C};
  }

  lemma Committed2() returns (t: Trace, s: Cluster)
    ensures At(t, s, IDS) && Others2(s) && Leader2(s, 3, 3)
    ensures Is(s.nodes[D], Follower, 2, Row(2, 1), 0) && Is(s.nodes[E], Follower, 2, [], 0)
  {
    t, s := Shared2();
    t, s := Proposes2(t, s, 1, 0, D);
    t, s := Proposes2(t, s, 2, 0, D);
    t, s := Commits2(t, s, 3, 0);
  }

  /** E gets four entries with commit index 3, and C then commits the fourth. */
  lemma Ahead2() returns (t: Trace, s: Cluster)
    ensures At(t, s, IDS) && Others2(s) && Leader2(s, 4, 4)
    ensures Is(s.nodes[D], Follower, 2, Row(2, 1), 0) && Is(s.nodes[E], Follower, 2, Row(2, 4), 3)
  {
    t, s := Committed2();
    t, s := Proposes2(t, s, 3, 3, E);
    MergeIntoEmpty(Row(2, 4));
    t, s := ThenAccepts(t, s, IDS, E, AppendEntries(2, C, 0, 0, Row(2, 4), 3));
    t, s := Commits2(t, s, 4, 3);
  }

  // ---------------------------------------------------------------- term 3: the leader of term 2 is cut

  lemma Elected3() returns (t: Trace, s: Cluster)
    ensures At(t, s, IDS) && Five(s)
    ensures Is(s.nodes[A], Follower, 3, Row(1, 4), 0) && Is(s.nodes[B], Follower, 3, Row(1, 4), 0)
    ensures Is(s.nodes[C], Leader, 2, Row(2, 4), 4) && Is(s.nodes[E], Follower, 2, Row(2, 4), 3)
    ensures Is(s.nodes[D], Leader, 3, Row(2, 1), 0) && SendsFrom(s.nodes[D], C, 2)
  {
    t, s := Ahead2();
    t, s := ThenElected(t, s, IDS, D, A, B);
  }

  lemma Payload3(n: Node)
    requires n.id == D && n.term == 3 && n.commitIndex == 0 && n.log == Row(2, 1) + [Entry(2, 3, [])]
    ensures AppendMessage(n, 2) == AppendEntries(3, D, 1, 2, [Entry(2, 3, [])], 0)
  {
    assert n.log == Cut();
    Indexed();
    Payload(n, 2);
  }

  lemma Proposed3() returns (t: Trace, s: Cluster)
    ensures At(t, s, IDS) && Five(s)
    ensures Is(s.nodes[A], Follower, 3, Row(1, 4), 0) && Is(s.nodes[B], Follower, 3, Row(1, 4), 0)
    ensures Is(s.nodes[C], Leader, 2, Row(2, 4), 4) && Is(s.nodes[E], Follower, 2, Row(2, 4), 3)
    ensures Delivered(s, C, AppendEntries(3, D, 1, 2, [Entry(2, 3, [])], 0))
  {
    t, s := Elected3();
    t, s := ThenProposes(t, s, IDS, D, C);
    Payload3(s.nodes[D]);
  }

  lemma CutByMerge()
    ensures Merge(Row(2, 4), [Entry(2, 3, [])]) == Cut()
  {
    MergeSingle(Row(2, 4), Entry(2, 3, []));
  }

  /** C's log now ends before its commit index. */
  lemma Cut3() returns (t: Trace, s: Cluster)
    ensures At(t, s, IDS) && Five(s)
    ensures Is(s.nodes[A], Follower, 3, Row(1, 4), 0) && Is(s.nodes[B], Follower, 3, Row(1, 4), 0)
    ensures Is(s.nodes[E], Follower, 2, Row(2, 4), 3)
    ensures var n := s.nodes[C];
            n.role == Follower && n.term == 3 && n.log == Cut() && n.commitIndex == 4 && n.electionElapsed == 0
  {
    t, s := Proposed3();
    CutByMerge();
    t, s := ThenAccepts(t, s, IDS, C, AppendEntries(3, D, 1, 2, [Entry(2, 3, [])], 0));
  }

  // ---------------------------------------------------------------- term 4: it leads again

  ghost predicate Leader4(n: Node) {
    n.id == C && n.role == Leader && n.term == 4 && n.log == Cut() && n.commitIndex == 4 && SendsFrom(n, E, 3)
  }

  lemma Elected4() returns (t: Trace, s: Cluster)
    ensures At(t, s, IDS) && Five(s) && Is(s.nodes[E], Follower, 2, Row(2, 4), 3) && Leader4(s.nodes[C])
    ensures Envelope(E, AppendMessage(s.nodes[C], 3)) in s.network
  {
    t, s := Cut3();
    t, s := ThenElected(t, s, IDS, C, A, B);
  }

  lemma Indexed()
    ensures forall k :: 0 <= k < |Cut()| ==> Cut()[k].index == k + 1
    ensures Cut()[2..] == [] && Cut()[1..] == [Entry(2, 3, [])]
  {
  }

  lemma Heartbeat4(n: Node)
    requires n.id == C && n.term == 4 && n.log == Cut() && n.commitIndex == 4
    ensures AppendMessage(n, 3) == AppendEntries(4, C, 2, 3, [], 4)
  {
    Indexed();
    Payload(n, 3);
  }

  lemma Retry4(n: Node)
    requires n.id == C && n.term == 4 && n.log == Cut() && n.commitIndex == 4
    ensures AppendMessage(n, 2) == AppendEntries(4, C, 1, 2, [Entry(2, 3, [])], 4)
  {
    Indexed();
    Payload(n, 2);
  }

  /** E rejects the heartbeat. */
  lemma Rejected4() returns (t: Trace, s: Cluster)
    ensures At(t, s, IDS) && Five(s) && Is(s.nodes[E], Follower, 4, Row(2, 4), 3) && Leader4(s.nodes[C])
    ensures Delivered(s, C, AppendEntriesResponse(4, E, false, 0))
  {
    t, s := Elected4();
    Heartbeat4(s.nodes[C]);
    t, s := ThenRejects(t, s, IDS, E, AppendEntries(4, C, 2, 3, [], 4));
  }

  /** C tries again one entry earlier. */
  lemma Retried4() returns (t: Trace, s: Cluster)
    ensures At(t, s, IDS) && Five(s) && Is(s.nodes[E], Follower, 4, Row(2, 4), 3)
    ensures Delivered(s, E, AppendEntries(4, C, 1, 2, [Entry(2, 3, [])], 4))
  {
    t, s := Rejected4();
    t, s := ThenResends(t, s, IDS, C, E);
    Retry4(s.nodes[C]);
  }

  /** Commit progress fails: the commit index of E, which was 3, is 2 after one more step. */
  lemma CommitGoesBack() returns (states: seq<Cluster>, moves: seq<Move>, k: nat)
    ensures Run(states, moves) && k + 1 == |moves|
    ensures E in states[k].nodes && E in states[k + 1].nodes
    ensures states[k].nodes[E].commitIndex == 3 && states[k + 1].nodes[E].commitIndex == 2
  {
    var t, s := Retried4();
    CutByMerge();
    var msg := AppendEntries(4, C, 1, 2, [Entry(2, 3, [])], 4);
    k := |t.moves|;
    Accepts(s.nodes[E], msg);
    RunLonger(t, s, Move(E, Receive(msg)));
    states, moves := t.states + [Next(s, Move(E, Receive(msg)))], t.moves + [Move(E, Receive(msg))];
  }
}
