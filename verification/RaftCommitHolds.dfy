/** A vouched run in which an entry is committed. */
module RaftCommitHolds {
  import opened Options
  import opened RaftNode
  import opened RaftEffects
  import opened RaftCluster
  import opened RaftCommitSafety
  import opened RaftScript

  const A: NodeId := 0
  const B: NodeId := 1
  const C: NodeId := 2
  const IDS: seq<NodeId> := [A, B, C]

  const X: Entry := Entry(1, 1, [])

  lemma Elected() returns (t: Trace, s: Cluster)
    ensures At(t, s, IDS) && Vouches(t) && A in s.nodes && B in s.nodes
    ensures Is(s.nodes[A], Leader, 1, [], 0) && Leads(s.nodes[A], s.nodes.Keys) && Is(s.nodes[B], Follower, 1, [], 0)
  {
    t, s := Start(IDS);
    t, s := ThenElected(t, s, IDS, A, B, B);
  }

  lemma FirstPayload(n: Node)
    requires n.id == A && n.term == 1 && n.log == [X] && n.commitIndex == 0
    ensures AppendMessage(n, 1) == AppendEntries(1, A, 0, 0, [X], 0)
  {
    assert [X][0..] == [X];
    Payload(n, 1);
  }

  /** A leads term 1 and has sent B its first entry. */
  lemma Proposed() returns (t: Trace, s: Cluster)
    ensures At(t, s, IDS) && Vouches(t) && A in s.nodes && B in s.nodes
    ensures Is(s.nodes[A], Leader, 1, [X], 0) && Is(s.nodes[B], Follower, 1, [], 0)
    ensures A in s.nodes[A].matchIndex && s.nodes[A].matchIndex[A] == 1
    ensures B in s.nodes[A].matchIndex && s.nodes[A].matchIndex[B] == 0
    ensures Delivered(s, B, AppendEntries(1, A, 0, 0, [X], 0))
  {
    t, s := Elected();
    t, s := ThenProposes(t, s, IDS, A, B);
    assert s.nodes[A].log == [X];
    FirstPayload(s.nodes[A]);
  }

  /** B takes it over, and the message vouches for all of B's log. */
  lemma Answered() returns (t: Trace, s: Cluster)
    ensures At(t, s, IDS) && Vouches(t) && A in s.nodes
    ensures Is(s.nodes[A], Leader, 1, [X], 0)
    ensures A in s.nodes[A].matchIndex && s.nodes[A].matchIndex[A] == 1
    ensures B in s.nodes[A].matchIndex && s.nodes[A].matchIndex[B] == 0
    ensures Delivered(s, A, AppendEntriesResponse(1, B, true, 1))
  {
    t, s := Proposed();
    MergeIntoEmpty([X]);
    t, s := ThenAccepts(t, s, IDS, B, AppendEntries(1, A, 0, 0, [X], 0));
  }

  /** Vouched runs do commit: here the leader of term 1 commits and applies its first entry. */
  lemma VouchedCommit() returns (states: seq<Cluster>, moves: seq<Move>)
    ensures VouchedRun(states, moves)
    ensures var s := states[|moves|]; IsLeader(s, A, 1) && s.nodes[A].commitIndex == 1 && s.nodes[A].committed == [X]
  {
    var t, s := Answered();
    t, s := ThenCommits(t, s, IDS, A, B, 1, {A, B});
    assert s.nodes[A].committed == [X];
    states, moves := t.states, t.moves;
  }
}
