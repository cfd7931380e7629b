/** Leader Completeness and State Machine Safety fail of the code. A follower that accepts an
    AppendEntries reports the length of its whole log as matched, so the leader counts entries that it
    never sent as replicated. This is a run of three nodes in which two of them apply different
    entries at index 1. */
module RaftCommitFails {
  import opened Collections
  import opened Options
  import opened RaftNode
  import opened RaftEffects
  import opened RaftCluster
  import opened RaftScript
  import opened RaftCommitSafety

  const A: NodeId := 0
  const B: NodeId := 1
  const C: NodeId := 2
  const IDS: seq<NodeId> := [A, B, C]

  const X: Entry := Entry(1, 1, [])
  const Y: Entry := Entry(2, 3, [])
  const Z: Entry := Entry(1, 2, [])

  ghost predicate Three(s: Cluster) {
    A in s.nodes && B in s.nodes && C in s.nodes
  }

  /** Node A leads term 1 and has an entry that nobody else gets. */
  lemma FirstTerm() returns (t: Trace, s: Cluster)
    ensures At(t, s, IDS) && Three(s)
    ensures Is(s.nodes[A], Leader, 1, [X], 0) && Is(s.nodes[B], Follower, 1, [], 0)
            && Is(s.nodes[C], Follower, 0, [], 0)
  {
    t, s := Start(IDS);
    t, s := ThenElected(t, s, IDS, A, B, B);
    t, s := ThenProposes(t, s, IDS, A, B);
  }

  /** Node B is elected leader of term 2 by C and sends A a heartbeat. */
  lemma SecondElection() returns (t: Trace, s: Cluster)
    ensures At(t, s, IDS) && Three(s)
    ensures Is(s.nodes[A], Leader, 1, [X], 0) && Is(s.nodes[B], Leader, 2, [], 0) && Is(s.nodes[C], Follower, 2, [], 0)
    ensures Leads(s.nodes[B], s.nodes.Keys) && Delivered(s, A, AppendEntries(2, B, 0, 0, [], 0))
  {
    t, s := FirstTerm();
    t, s := ThenElected(t, s, IDS, B, C, C);
    Payload(s.nodes[B], 1);
  }

  /** B has an entry of its own. */
  lemma SecondTerm() returns (t: Trace, s: Cluster)
    ensures At(t, s, IDS) && Three(s)
    ensures Is(s.nodes[A], Leader, 1, [X], 0) && Is(s.nodes[B], Leader, 2, [Z], 0) && Is(s.nodes[C], Follower, 2, [], 0)
    ensures A in s.nodes[B].matchIndex && B in s.nodes[B].matchIndex
    ensures s.nodes[B].matchIndex[A] == 0 && s.nodes[B].matchIndex[B] == 1
    ensures Delivered(s, A, AppendEntries(2, B, 0, 0, [], 0))
  {
    t, s := SecondElection();
    t, s := ThenProposes(t, s, IDS, B, A);
  }

  /** A accepts B's empty heartbeat and reports its own entry as matched. */
  lemma WronglyReported() returns (t: Trace, s: Cluster)
    ensures At(t, s, IDS) && Three(s)
    ensures Is(s.nodes[A], Follower, 2, [X], 0) && Is(s.nodes[B], Leader, 2, [Z], 0)
            && Is(s.nodes[C], Follower, 2, [], 0)
    ensures A in s.nodes[B].matchIndex && B in s.nodes[B].matchIndex
    ensures s.nodes[B].matchIndex[A] == 0 && s.nodes[B].matchIndex[B] == 1
    ensures Delivered(s, B, AppendEntriesResponse(2, A, true, 1))
  {
    t, s := SecondTerm();
    t, s := ThenAccepts(t, s, IDS, A, AppendEntries(2, B, 0, 0, [], 0));
  }

  /** B commits and applies an entry that no other node has. */
  lemma WronglyCommitted() returns (t: Trace, s: Cluster)
    ensures At(t, s, IDS) && Three(s)
    ensures Is(s.nodes[A], Follower, 2, [X], 0) && Is(s.nodes[B], Leader, 2, [Z], 1)
            && Is(s.nodes[C], Follower, 2, [], 0)
    ensures s.nodes[B].committed == [Z]
  {
    t, s := WronglyReported();
    t, s := ThenCommits(t, s, IDS, B, A, 1, {A, B});
    assert s.nodes[B].committed == [Z];
  }

  /** A is elected leader of term 3 without the committed entry. */
  lemma ThirdTerm() returns (t: Trace, s: Cluster)
    ensures At(t, s, IDS) && Three(s)
    ensures Is(s.nodes[A], Leader, 3, [X], 0) && Is(s.nodes[B], Leader, 2, [Z], 1) && Is(s.nodes[C], Follower, 3, [], 0)
    ensures Leads(s.nodes[A], s.nodes.Keys) && s.nodes[B].committed == [Z]
    ensures Delivered(s, C, AppendEntries(3, A, 1, 1, [], 0))
  {
    t, s := WronglyCommitted();
    t, s := ThenElected(t, s, IDS, A, C, C);
    Payload(s.nodes[A], 2);
    assert [X][1..] == [];
  }

  /** Leader Completeness fails: the leader of term 3 does not have an entry committed in term 2. So
      some AppendEntries of the run was admitted without being vouched for. */
  lemma LeaderCompletenessFails() returns (states: seq<Cluster>, moves: seq<Move>)
    ensures Run(states, moves) && !VouchedRun(states, moves)
    ensures var s := states[|moves|];
            && IsLeader(s, A, 3) && IsLeader(s, B, 2)
            && s.nodes[B].commitIndex == 1 && s.nodes[B].log == [Z] && Z.term == 2
            && Z !in s.nodes[A].log
  {
    var t, s := ThirdTerm();
    states, moves := t.states, t.moves;
    assert [Z][..1] == [Z] && [X][0] != [Z][0];
    if VouchedRun(states, moves) {
      LeaderCompleteness(states, moves, |moves|, |moves|, B, A, 3);
      assert false;
    }
  }

  /** A proposes once more. */
  lemma Proposed() returns (t: Trace, s: Cluster)
    ensures At(t, s, IDS) && Three(s)
    ensures Is(s.nodes[A], Leader, 3, [X, Y], 0) && Is(s.nodes[C], Follower, 3, [], 0) && s.nodes[B].committed == [Z]
    ensures A in s.nodes[A].matchIndex && s.nodes[A].matchIndex[A] == 2
    ensures C in s.nodes[A].matchIndex && s.nodes[A].matchIndex[C] == 0
    ensures C in s.nodes[A].nextIndex && s.nodes[A].nextIndex[C] == 2
    ensures Delivered(s, C, AppendEntries(3, A, 1, 1, [], 0))
  {
    t, s := ThirdTerm();
    t, s := ThenProposes(t, s, IDS, A, C);
    assert s.nodes[A].log == [X, Y];
  }

  /** C rejects A's heartbeat. */
  lemma Rejected() returns (t: Trace, s: Cluster)
    ensures At(t, s, IDS) && Three(s)
    ensures Is(s.nodes[A], Leader, 3, [X, Y], 0) && Is(s.nodes[C], Follower, 3, [], 0) && s.nodes[B].committed == [Z]
    ensures A in s.nodes[A].matchIndex && s.nodes[A].matchIndex[A] == 2
    ensures C in s.nodes[A].matchIndex && s.nodes[A].matchIndex[C] == 0
    ensures C in s.nodes[A].nextIndex && s.nodes[A].nextIndex[C] == 2
    ensures Delivered(s, A, AppendEntriesResponse(3, C, false, 0))
  {
    t, s := Proposed();
    t, s := ThenRejects(t, s, IDS, C, AppendEntries(3, A, 1, 1, [], 0));
  }

  /** A sends C its log from the start. */
  lemma Retried() returns (t: Trace, s: Cluster)
    ensures At(t, s, IDS) && Three(s)
    ensures Is(s.nodes[A], Leader, 3, [X, Y], 0) && Is(s.nodes[C], Follower, 3, [], 0) && s.nodes[B].committed == [Z]
    ensures A in s.nodes[A].matchIndex && s.nodes[A].matchIndex[A] == 2
    ensures C in s.nodes[A].matchIndex && s.nodes[A].matchIndex[C] == 0
    ensures Delivered(s, C, AppendEntries(3, A, 0, 0, [X, Y], 0))
  {
    t, s := Rejected();
    t, s := ThenResends(t, s, IDS, A, C);
    Payload(s.nodes[A], 1);
    assert [X, Y][0..] == [X, Y];
  }

  /** C accepts it. */
  lemma Answered() returns (t: Trace, s: Cluster)
    ensures At(t, s, IDS) && Three(s) && Is(s.nodes[A], Leader, 3, [X, Y], 0) && s.nodes[B].committed == [Z]
    ensures A in s.nodes[A].matchIndex && s.nodes[A].matchIndex[A] == 2
    ensures C in s.nodes[A].matchIndex && s.nodes[A].matchIndex[C] == 0
    ensures Delivered(s, A, AppendEntriesResponse(3, C, true, 2))
  {
    t, s := Retried();
    MergeIntoEmpty([X, Y]);
    t, s := ThenAccepts(t, s, IDS, C, AppendEntries(3, A, 0, 0, [X, Y], 0));
  }

  /** A commits on C's answer. */
  lemma CommittedAgain() returns (t: Trace, s: Cluster)
    ensures At(t, s, IDS) && Three(s)
    ensures s.nodes[A].committed == [X, Y] && s.nodes[B].committed == [Z]
  {
    t, s := Answered();
    t, s := ThenCommits(t, s, IDS, A, C, 2, {A, C});
    assert s.nodes[A].committed == [X, Y];
  }

  /** State Machine Safety fails: two nodes have applied different entries at index 1. */
  lemma StateMachineSafetyFails() returns (states: seq<Cluster>, moves: seq<Move>)
    ensures Run(states, moves)
    ensures var s := states[|moves|];
            && A in s.nodes && B in s.nodes
            && |s.nodes[A].committed| > 0 && |s.nodes[B].committed| > 0
            && s.nodes[A].committed[0].index == s.nodes[B].committed[0].index
            && s.nodes[A].committed[0] != s.nodes[B].committed[0]
  {
    var t, s := CommittedAgain();
    states, moves := t.states, t.moves;
  }
}
