/** Runs of a Raft cluster put together step by step, to show what the code can reach. */
module RaftScript {
  import opened Collections
  import opened Options
  import opened RaftNode
  import opened RaftEffects
  import opened RaftCluster
  import RaftCommitSafety
  import RaftLedger

  datatype Trace = Trace(states: seq<Cluster>, moves: seq<Move>)

  /** The run of t ends in s, a cluster of the given nodes. */
  ghost predicate At(t: Trace, s: Cluster, ids: seq<NodeId>) {
    && NoDup(ids)
    && Run(t.states, t.moves) && t.states[|t.moves|] == s
    && s.nodes.Keys == Elements(ids)
    && forall i :: i in s.nodes ==> s.nodes[i].id == i && s.nodes[i].peers == Without(ids, i)
  }

  /** No admitted AppendEntries of the run leaves a tail that it does not vouch for. */
  ghost predicate Vouches(t: Trace) {
    RaftCommitSafety.VouchedRun(t.states, t.moves)
  }

  function Without(ids: seq<NodeId>, i: NodeId): seq<NodeId> {
    if ids == [] then []
    else
      var front := Without(ids[..|ids| - 1], i);
      if ids[|ids| - 1] == i then front else front + [ids[|ids| - 1]]
  }

  lemma {:induction false} WithoutIs(ids: seq<NodeId>, i: NodeId)
    requires NoDup(ids)
    ensures NoDup(Without(ids, i))
    ensures forall p :: p in Without(ids, i) <==> p in ids && p != i
    ensures |Without(ids, i)| == if i in ids then |ids| - 1 else |ids|
  {
    if ids != [] {
      var k := |ids| - 1;
      WithoutIs(ids[..k], i);
      assert ids == ids[..k] + [ids[k]];
      assert ids[k] !in ids[..k];
    }
  }

  lemma InIds(t: Trace, s: Cluster, ids: seq<NodeId>, i: NodeId)
    requires At(t, s, ids) && i in s.nodes
    ensures |s.nodes[i].peers| + 1 == |ids|
    ensures forall p :: p in s.nodes[i].peers <==> p in s.nodes && p != i
  {
    WithoutIs(ids, i);
    assert forall p :: p in s.nodes.Keys <==> p in ids;
  }

  /** What is known of a node at a moment of a run. */
  ghost predicate Is(n: Node, role: Role, term: nat, log: seq<Entry>, commit: nat) {
    && n.role == role && n.term == term && n.log == log
    && n.commitIndex == commit && n.lastApplied == commit && |n.committed| == commit
    && n.electionElapsed == 0
  }

  /** A step that leaves role, term, commitment and election timer as they were. */
  ghost predicate SameRole(n: Node, n': Node) {
    && n'.role == n.role && n'.term == n.term && n'.commitIndex == n.commitIndex && n'.lastApplied == n.lastApplied
    && n'.committed == n.committed && n'.electionElapsed == n.electionElapsed
  }

  /** A step that leaves log, commitment and election timer as they were. */
  ghost predicate SameLog(n: Node, n': Node) {
    && n'.log == n.log && n'.commitIndex == n.commitIndex && n'.lastApplied == n.lastApplied
    && n'.committed == n.committed && n'.electionElapsed == 0
  }

  lemma Start(ids: seq<NodeId>) returns (t: Trace, s: Cluster)
    requires NoDup(ids)
    ensures At(t, s, ids)
    ensures Vouches(t)
    ensures forall i :: i in ids ==> i in s.nodes && Is(s.nodes[i], Follower, 0, [], 0)
  {
    s := Cluster(map i | i in Elements(ids) :: InitialNode(i, Without(ids, i)), {});
    t := Trace([s], []);
    assert s.nodes.Keys == Elements(ids);
    forall i | i in s.nodes
      ensures NoDup(s.nodes[i].peers) && forall p :: p in s.nodes[i].peers <==> p in s.nodes && p != i
    {
      WithoutIs(ids, i);
    }
  }

  /** Only node i has changed, and what it has to say is in the network. */
  ghost predicate Moved(s: Cluster, i: NodeId, s': Cluster) {
    && s'.nodes.Keys == s.nodes.Keys && i in s.nodes
    && (forall k :: k in s.nodes && k != i ==> s'.nodes[k] == s.nodes[k])
    && s.network <= s'.network
    && (forall e :: e in s'.nodes[i].outbox ==> e in s'.network)
  }

  lemma {:induction false} RunLonger(t: Trace, s: Cluster, m: Move)
    requires Run(t.states, t.moves) && t.states[|t.moves|] == s && Enabled(s, m)
    ensures Run(t.states + [Next(s, m)], t.moves + [m])
  {
    var states, moves := t.states + [Next(s, m)], t.moves + [m];
    forall k | 0 <= k < |moves|
      ensures Enabled(states[k], moves[k]) && states[k + 1] == Next(states[k], moves[k])
    {
      if k < |t.moves| {
        assert states[k] == t.states[k] && states[k + 1] == t.states[k + 1] && moves[k] == t.moves[k];
      }
    }
  }

  lemma VouchesLonger(t: Trace, s: Cluster, m: Move)
    requires Vouches(t) && t.states[|t.moves|] == s && Enabled(s, m)
    requires Run(t.states + [Next(s, m)], t.moves + [m]) && RaftLedger.VouchedStep(s.nodes[m.id], m.action)
    ensures Vouches(Trace(t.states + [Next(s, m)], t.moves + [m]))
  {
    var states, moves := t.states + [Next(s, m)], t.moves + [m];
    forall k | 0 <= k < |moves| && moves[k].id in states[k].nodes
      ensures RaftLedger.VouchedStep(states[k].nodes[moves[k].id], moves[k].action)
    {
      if k < |t.moves| {
        assert states[k] == t.states[k] && moves[k] == t.moves[k];
      }
    }
  }

  /** One more move. */
  lemma Then(t: Trace, s: Cluster, ids: seq<NodeId>, m: Move) returns (t': Trace, s': Cluster)
    requires At(t, s, ids) && Enabled(s, m)
    ensures At(t', s', ids) && Moved(s, m.id, s') && s'.nodes[m.id] == NodeStep(s.nodes[m.id], m.action)
    ensures Vouches(t) && RaftLedger.VouchedStep(s.nodes[m.id], m.action) ==> Vouches(t')
  {
    s' := Next(s, m);
    t' := Trace(t.states + [s'], t.moves + [m]);
    RunLonger(t, s, m);
    if Vouches(t) && RaftLedger.VouchedStep(s.nodes[m.id], m.action) {
      VouchesLonger(t, s, m);
    }
    StepEffect(s.nodes[m.id], m.action);
  }

  /** A move of node i by which it receives a message. */
  ghost predicate Delivered(s: Cluster, i: NodeId, msg: Message) {
    i in s.nodes && Envelope(i, msg) in s.network
  }

  // ---------------------------------------------------------------- an election timeout

  function TickTimes(n: Node, k: nat): Node {
    if k == 0 then n else TickNode(TickTimes(n, k - 1))
  }

  lemma {:induction false} TicksBefore(n: Node, k: nat)
    requires n.role != Leader && n.electionElapsed == 0 && k < ELECTION_TIMEOUT
    ensures TickTimes(n, k) == n.(electionElapsed := k)
  {
    if k > 0 {
      TicksBefore(n, k - 1);
    }
  }

  lemma TenthTick(n: Node)
    requires n.role != Leader && |n.peers| >= 1
    ensures TickNode(n.(electionElapsed := 9)) == SendVoteRequests(Candidacy(n))
  {
  }

  lemma {:induction false} ThenTicks(t: Trace, s: Cluster, ids: seq<NodeId>, i: NodeId, k: nat)
    returns (t': Trace, s': Cluster)
    requires At(t, s, ids) && i in s.nodes && k > 0
    ensures At(t', s', ids) && Moved(s, i, s') && s'.nodes[i] == TickTimes(s.nodes[i], k)
    ensures Vouches(t) ==> Vouches(t')
  {
    t', s' := t, s;
    if k > 1 {
      t', s' := ThenTicks(t, s, ids, i, k - 1);
    } else {
      assert TickTimes(s.nodes[i], 0) == s.nodes[i];
    }
    t', s' := Then(t', s', ids, Move(i, Tick));
  }

  /** The envelope with which a node that stands next asks p for its vote. */
  function Request(n: Node, p: NodeId): Envelope {
    Envelope(p, RequestVote(n.term + 1, n.id, LastIndex(n.log), LastTerm(n.log)))
  }

  lemma Asked(n: Node)
    ensures forall p :: p in n.peers ==> Request(n, p) in SendVoteRequests(Candidacy(n)).outbox
  {
    var c := Candidacy(n);
    forall p | p in n.peers
      ensures Request(n, p) in VoteRequests(c, c.peers)
    {
      var k :| 0 <= k < |c.peers| && c.peers[k] == p;
      assert VoteRequests(c, c.peers)[k] == Request(n, p);
    }
  }

  lemma TenTicks(n: Node)
    requires n.role != Leader && n.electionElapsed == 0 && |n.peers| >= 1
    ensures TickTimes(n, 10) == SendVoteRequests(Candidacy(n))
  {
    TicksBefore(n, 9);
    TenthTick(n);
  }

  /** Ten ticks: node i stands for election and asks everyone else. */
  lemma ThenStands(t: Trace, s: Cluster, ids: seq<NodeId>, i: NodeId) returns (t': Trace, s': Cluster)
    requires At(t, s, ids) && i in s.nodes && |ids| >= 2
    requires s.nodes[i].role != Leader && s.nodes[i].electionElapsed == 0
    ensures At(t', s', ids) && Moved(s, i, s')
    ensures Vouches(t) ==> Vouches(t')
    ensures var n, n' := s.nodes[i], s'.nodes[i];
            && n'.id == i && n'.peers == n.peers && n'.role == Candidate && n'.term == n.term + 1 && n'.votes == [i]
            && SameLog(n, n')
    ensures forall p :: p in s.nodes && p != i ==> Request(s.nodes[i], p) in s'.network
  {
    InIds(t, s, ids, i);
    TenTicks(s.nodes[i]);
    Asked(s.nodes[i]);
    t', s' := ThenTicks(t, s, ids, i, 10);
  }

  // ---------------------------------------------------------------- votes

  lemma Votes(n: Node, candidate: Node)
    requires candidate.term >= n.term && UpToDate(n.log, LastIndex(candidate.log), LastTerm(candidate.log))
    ensures var n' := NodeStep(n, Receive(Request(candidate, n.id).msg));
            && n'.id == n.id && n'.role == Follower && n'.term == candidate.term + 1 && SameLog(n, n')
            && Envelope(candidate.id, RequestVoteResponse(candidate.term + 1, n.id, true)) in n'.outbox
  {
  }

  /** The move by which node v grants its vote to a candidate that stood with the given record. */
  ghost predicate VoteMove(s: Cluster, v: NodeId, s': Cluster, candidate: Node) {
    && Moved(s, v, s')
    && s'.nodes[v].role == Follower && s'.nodes[v].term == candidate.term + 1 && SameLog(s.nodes[v], s'.nodes[v])
    && Envelope(candidate.id, RequestVoteResponse(candidate.term + 1, v, true)) in s'.network
  }

  /** Node v grants its vote to a candidate that has just stood. */
  lemma ThenVotes(t: Trace, s: Cluster, ids: seq<NodeId>, v: NodeId, candidate: Node) returns (t': Trace, s': Cluster)
    requires At(t, s, ids) && v in s.nodes && Request(candidate, v) in s.network
    requires candidate.term >= s.nodes[v].term
    requires UpToDate(s.nodes[v].log, LastIndex(candidate.log), LastTerm(candidate.log))
    ensures At(t', s', ids) && VoteMove(s, v, s', candidate)
    ensures Vouches(t) ==> Vouches(t')
  {
    Votes(s.nodes[v], candidate);
    t', s' := Then(t, s, ids, Move(v, Receive(Request(candidate, v).msg)));
  }

  lemma Counts(n: Node, voter: NodeId)
    requires n.role == Candidate && voter !in n.votes && |n.votes| + 1 < QuorumSize(|n.peers| + 1)
    ensures NodeStep(n, Receive(RequestVoteResponse(n.term, voter, true))) == n.(votes := n.votes + [voter])
  {
  }

  /** The move by which candidate i adds a vote to its tally. */
  ghost predicate CountMove(s: Cluster, i: NodeId, s': Cluster, voter: NodeId) {
    && Moved(s, i, s')
    && var n, n' := s.nodes[i], s'.nodes[i];
       SameRole(n, n') && n'.log == n.log && n'.votes == n.votes + [voter]
  }

  /** A candidate counts a vote that is not yet enough. */
  lemma ThenCounts(t: Trace, s: Cluster, ids: seq<NodeId>, i: NodeId, voter: NodeId) returns (t': Trace, s': Cluster)
    requires At(t, s, ids) && i in s.nodes && s.nodes[i].role == Candidate
    requires Delivered(s, i, RequestVoteResponse(s.nodes[i].term, voter, true))
    requires voter !in s.nodes[i].votes && |s.nodes[i].votes| + 1 < QuorumSize(|ids|)
    ensures At(t', s', ids) && CountMove(s, i, s', voter)
    ensures Vouches(t) ==> Vouches(t')
  {
    InIds(t, s, ids, i);
    Counts(s.nodes[i], voter);
    t', s' := Then(t, s, ids, Move(i, Receive(RequestVoteResponse(s.nodes[i].term, voter, true))));
  }

  lemma CountsLast(n: Node, voter: NodeId)
    requires n.role == Candidate && voter !in n.votes && |n.votes| + 1 >= QuorumSize(|n.peers| + 1)
    ensures NodeStep(n, Receive(RequestVoteResponse(n.term, voter, true)))
        == BecomeLeader(n.(votes := n.votes + [voter]))
  {
  }

  lemma Sends(n: Node, peers: seq<NodeId>, p: NodeId)
    requires p in peers
    ensures Envelope(p, AppendMessage(n, Lookup(n.nextIndex, p, 1))) in Heartbeats(n, peers)
  {
    var k :| 0 <= k < |peers| && peers[k] == p;
    assert Heartbeats(n, peers)[k] == Envelope(p, AppendMessage(n, Lookup(n.nextIndex, peers[k], 1)));
  }

  /** A leader that has just been elected, as it takes its peers to be. */
  ghost predicate Leads(n: Node, ids: set<NodeId>) {
    && n.id in n.matchIndex && n.matchIndex[n.id] == |n.log|
    && forall p :: p in ids && p != n.id ==>
         && p in n.nextIndex && n.nextIndex[p] == |n.log| + 1
         && p in n.matchIndex && n.matchIndex[p] == 0
  }

  lemma NewLeader(m: Node, ids: set<NodeId>)
    requires forall p :: p in m.peers <==> p in ids && p != m.id
    ensures var n' := BecomeLeader(m);
            && n' == m.(role := Leader, heartbeatElapsed := 0, nextIndex := n'.nextIndex,
                        matchIndex := n'.matchIndex, outbox := n'.outbox)
            && Leads(n', ids)
            && forall p :: p in ids && p != m.id ==> Envelope(p, AppendMessage(n', |m.log| + 1)) in n'.outbox
  {
    SetAllKeys(m.nextIndex, m.peers, |m.log| + 1);
    SetAllKeys(m.matchIndex, m.peers, 0);
    var n' := BecomeLeader(m);
    forall p | p in ids && p != m.id
      ensures Envelope(p, AppendMessage(n', |m.log| + 1)) in n'.outbox
    {
      var l := n'.(outbox := m.outbox);
      Sends(l, l.peers, p);
      assert AppendMessage(l, |m.log| + 1) == AppendMessage(n', |m.log| + 1);
    }
  }

  /** A candidate counts the vote that makes it leader, and sends its first heartbeats. */
  lemma ThenWins(t: Trace, s: Cluster, ids: seq<NodeId>, i: NodeId, voter: NodeId) returns (t': Trace, s': Cluster)
    requires At(t, s, ids) && i in s.nodes && s.nodes[i].role == Candidate
    requires Delivered(s, i, RequestVoteResponse(s.nodes[i].term, voter, true))
    requires voter !in s.nodes[i].votes && |s.nodes[i].votes| + 1 >= QuorumSize(|ids|)
    ensures At(t', s', ids) && Moved(s, i, s') && Leads(s'.nodes[i], s.nodes.Keys)
    ensures Vouches(t) ==> Vouches(t')
    ensures s'.nodes[i].role == Leader && s'.nodes[i].term == s.nodes[i].term
    ensures s.nodes[i].electionElapsed == 0 ==> SameLog(s.nodes[i], s'.nodes[i])
    ensures forall p :: p in s.nodes && p != i ==>
              Envelope(p, AppendMessage(s'.nodes[i], |s.nodes[i].log| + 1)) in s'.network
  {
    var n := s.nodes[i];
    InIds(t, s, ids, i);
    CountsLast(n, voter);
    NewLeader(n.(votes := n.votes + [voter]), s.nodes.Keys);
    t', s' := Then(t, s, ids, Move(i, Receive(RequestVoteResponse(n.term, voter, true))));
  }

  /** Node v is ready to vote for a node that stands with this record. */
  ghost predicate Votable(s: Cluster, candidate: Node, v: NodeId) {
    && v in s.nodes && v != candidate.id && s.nodes[v].term <= candidate.term
    && UpToDate(s.nodes[v].log, LastIndex(candidate.log), LastTerm(candidate.log))
  }

  /** Node i has stood, and has the votes of none or one of the others. */
  ghost predicate Polling(s0: Cluster, s: Cluster, i: NodeId, v: Option<NodeId>) {
    && i in s0.nodes && s0.nodes[i].id == i && s.nodes.Keys == s0.nodes.Keys && s0.network <= s.network
    && (forall k :: k in s0.nodes && k != i && v != Some(k) ==> s.nodes[k] == s0.nodes[k])
    && (v.Some? ==> v.value in s0.nodes && v.value != i && Voted(s0, s, v.value, s0.nodes[i].term + 1))
    && s.nodes[i].role == Candidate && s.nodes[i].term == s0.nodes[i].term + 1 && SameLog(s0.nodes[i], s.nodes[i])
    && s.nodes[i].votes == (if v.Some? then [i, v.value] else [i])
    && forall p :: p in s0.nodes && p != i ==> Request(s0.nodes[i], p) in s.network
  }

  ghost predicate Voted(s: Cluster, s': Cluster, v: NodeId, term: nat)
    requires v in s.nodes
  {
    v in s'.nodes && s'.nodes[v].role == Follower && s'.nodes[v].term == term && SameLog(s.nodes[v], s'.nodes[v])
  }

  /** Node i has been elected by v and w, which may be one node; everybody else is as before. */
  ghost predicate Elected(s: Cluster, s': Cluster, i: NodeId, v: NodeId, w: NodeId) {
    && i in s.nodes && v in s.nodes && w in s.nodes && s'.nodes.Keys == s.nodes.Keys && s.network <= s'.network
    && (forall k :: k in s.nodes && k != i && k != v && k != w ==> s'.nodes[k] == s.nodes[k])
    && Voted(s, s', v, s.nodes[i].term + 1) && Voted(s, s', w, s.nodes[i].term + 1)
    && s'.nodes[i].role == Leader && s'.nodes[i].term == s.nodes[i].term + 1 && SameLog(s.nodes[i], s'.nodes[i])
    && Leads(s'.nodes[i], s.nodes.Keys)
    && forall p :: p in s.nodes && p != i ==>
         Envelope(p, AppendMessage(s'.nodes[i], |s.nodes[i].log| + 1)) in s'.network
  }

  lemma PollsOne(s0: Cluster, s: Cluster, s1: Cluster, s2: Cluster, i: NodeId, v: NodeId)
    requires Polling(s0, s, i, None) && v != i && v in s0.nodes
    requires VoteMove(s, v, s1, s0.nodes[i]) && CountMove(s1, i, s2, v)
    ensures Polling(s0, s2, i, Some(v))
  {
    assert [i] + [v] == [i, v];
  }

  lemma ThenPolls(t: Trace, s: Cluster, s0: Cluster, ids: seq<NodeId>, i: NodeId, v: NodeId)
    returns (t': Trace, s': Cluster)
    requires At(t, s, ids) && Polling(s0, s, i, None) && Votable(s0, s0.nodes[i], v) && 2 < QuorumSize(|ids|)
    ensures At(t', s', ids) && Polling(s0, s', i, Some(v))
    ensures Vouches(t) ==> Vouches(t')
  {
    var t1, s1 := ThenVotes(t, s, ids, v, s0.nodes[i]);
    t', s' := ThenCounts(t1, s1, ids, i, v);
    PollsOne(s0, s, s1, s', i, v);
  }

  lemma WinsPoll(s0: Cluster, s: Cluster, s1: Cluster, s2: Cluster, i: NodeId, v: Option<NodeId>, w: NodeId)
    requires Polling(s0, s, i, v) && w in s0.nodes && w != i && v != Some(w)
    requires VoteMove(s, w, s1, s0.nodes[i]) && Moved(s1, i, s2) && SameLog(s1.nodes[i], s2.nodes[i])
    requires s2.nodes[i].role == Leader && s2.nodes[i].term == s1.nodes[i].term && Leads(s2.nodes[i], s1.nodes.Keys)
    requires forall p :: p in s1.nodes && p != i ==>
               Envelope(p, AppendMessage(s2.nodes[i], |s1.nodes[i].log| + 1)) in s2.network
    ensures Elected(s0, s2, i, if v.Some? then v.value else w, w)
  {
  }

  /** The last vote that a candidate needs. */
  lemma ThenDecided(t: Trace, s: Cluster, s0: Cluster, ids: seq<NodeId>, i: NodeId, v: Option<NodeId>, w: NodeId)
    returns (t': Trace, s': Cluster)
    requires At(t, s, ids) && Polling(s0, s, i, v) && Votable(s0, s0.nodes[i], w) && v != Some(w)
    requires QuorumSize(|ids|) == if v.Some? then 3 else 2
    ensures At(t', s', ids) && Elected(s0, s', i, if v.Some? then v.value else w, w)
    ensures Vouches(t) ==> Vouches(t')
  {
    var t1, s1 := ThenVotes(t, s, ids, w, s0.nodes[i]);
    t', s' := ThenWins(t1, s1, ids, i, w);
    WinsPoll(s0, s, s1, s', i, v, w);
  }

  lemma ThenAsks(t: Trace, s: Cluster, ids: seq<NodeId>, i: NodeId) returns (t': Trace, s': Cluster)
    requires At(t, s, ids) && i in s.nodes && |ids| >= 2
    requires s.nodes[i].role != Leader && s.nodes[i].electionElapsed == 0
    ensures At(t', s', ids) && Polling(s, s', i, None)
    ensures Vouches(t) ==> Vouches(t')
  {
    t', s' := ThenStands(t, s, ids, i);
  }

  /** Node i stands for election and is elected: in a cluster of three by one vote besides its own, in
      one of five by two. */
  lemma ThenElected(t: Trace, s: Cluster, ids: seq<NodeId>, i: NodeId, v: NodeId, w: NodeId)
    returns (t': Trace, s': Cluster)
    requires At(t, s, ids) && i in s.nodes && s.nodes[i].role != Leader && s.nodes[i].electionElapsed == 0
    requires QuorumSize(|ids|) == if v == w then 2 else 3
    requires Votable(s, s.nodes[i], v) && Votable(s, s.nodes[i], w)
    ensures At(t', s', ids) && Elected(s, s', i, v, w)
    ensures Vouches(t) ==> Vouches(t')
  {
    var t1, s1 := ThenAsks(t, s, ids, i);
    if v == w {
      t', s' := ThenDecided(t1, s1, s, ids, i, None, w);
    } else {
      t1, s1 := ThenPolls(t1, s1, s, ids, i, v);
      t', s' := ThenDecided(t1, s1, s, ids, i, Some(v), w);
    }
  }

  // ---------------------------------------------------------------- replication

  lemma Proposes(n: Node, p: NodeId)
    requires n.role == Leader && p in n.peers
    ensures var n' := NodeStep(n, Propose([]));
            && SameRole(n, n') && n'.log == n.log + [Entry(|n.log| + 1, n.term, [])]
            && n'.nextIndex == n.nextIndex && n'.matchIndex == n.matchIndex[n.id := |n.log| + 1]
            && Envelope(p, AppendMessage(n', Lookup(n.nextIndex, p, 1))) in n'.outbox
  {
    var l := n.(log := n.log + [Entry(|n.log| + 1, n.term, [])], matchIndex := n.matchIndex[n.id := |n.log| + 1]);
    Sends(l, l.peers, p);
    assert AppendMessage(l, Lookup(n.nextIndex, p, 1))
        == AppendMessage(NodeStep(n, Propose([])), Lookup(n.nextIndex, p, 1));
  }

  /** A leader proposes an empty command and sends it to p, among others. */
  lemma ThenProposes(t: Trace, s: Cluster, ids: seq<NodeId>, i: NodeId, p: NodeId) returns (t': Trace, s': Cluster)
    requires At(t, s, ids) && i in s.nodes && s.nodes[i].role == Leader && p in s.nodes && p != i
    ensures At(t', s', ids) && Moved(s, i, s')
    ensures Vouches(t) ==> Vouches(t')
    ensures var n, n' := s.nodes[i], s'.nodes[i];
            && SameRole(n, n') && n'.log == n.log + [Entry(|n.log| + 1, n.term, [])]
            && n'.nextIndex == n.nextIndex && n'.matchIndex == n.matchIndex[i := |n.log| + 1]
    ensures Envelope(p, AppendMessage(s'.nodes[i], Lookup(s.nodes[i].nextIndex, p, 1))) in s'.network
  {
    InIds(t, s, ids, i);
    Proposes(s.nodes[i], p);
    t', s' := Then(t, s, ids, Move(i, Propose([])));
  }

  /** The payload for a next index inside the log. */
  lemma Payload(n: Node, next: nat)
    requires forall k :: 0 <= k < |n.log| ==> n.log[k].index == k + 1
    requires 1 <= next <= |n.log| + 1
    ensures AppendMessage(n, next)
         == AppendEntries(n.term, n.id, next - 1, TermAt(n.log, next - 1), n.log[next - 1..], n.commitIndex)
  {
    EntriesFromSuffix(n.log, next);
  }

  /** The commit index that an admitted AppendEntries leaves. */
  function CommitAfter(n: Node, msg: Message): nat
    requires msg.AppendEntries?
  {
    if msg.leaderCommit > n.commitIndex then Min(msg.leaderCommit, LastNew(n, msg)) else n.commitIndex
  }

  lemma Accepts(n: Node, msg: Message)
    requires Admits(n, Receive(msg)) && n.commitIndex == n.lastApplied == |n.committed|
    ensures var n', log := NodeStep(n, Receive(msg)), Merge(n.log, msg.entries);
            && n'.role == Follower && n'.term == msg.term && n'.log == log && n'.electionElapsed == 0
            && n'.commitIndex == CommitAfter(n, msg)
            && (n.commitIndex <= CommitAfter(n, msg) <= |log| ==>
                  n'.lastApplied == CommitAfter(n, msg) == |n'.committed|)
            && Envelope(msg.leader, AppendEntriesResponse(msg.term, n.id, true, |log|)) in n'.outbox
  {
    var m := if msg.term > n.term then n.(term := msg.term, votedFor := None, votes := []) else n;
    ApplyShape(Accepted(m.(role := Follower, electionElapsed := 0), msg.entries, msg.leaderCommit));
  }

  /** Node i admits an AppendEntries and reports the length of its log. */
  lemma ThenAccepts(t: Trace, s: Cluster, ids: seq<NodeId>, i: NodeId, msg: Message) returns (t': Trace, s': Cluster)
    requires At(t, s, ids) && msg.AppendEntries? && Delivered(s, i, msg) && Admits(s.nodes[i], Receive(msg))
    requires s.nodes[i].commitIndex == s.nodes[i].lastApplied == |s.nodes[i].committed|
    ensures At(t', s', ids) && Moved(s, i, s')
    ensures Vouches(t) && RaftLedger.Vouched(s.nodes[i], msg) ==> Vouches(t')
    ensures var n, n' := s.nodes[i], s'.nodes[i];
            && n'.role == Follower && n'.term == msg.term && n'.log == Merge(n.log, msg.entries)
            && n'.electionElapsed == 0 && n'.commitIndex == CommitAfter(n, msg)
            && (n.commitIndex <= n'.commitIndex <= |n'.log| ==> n'.lastApplied == n'.commitIndex == |n'.committed|)
    ensures Envelope(msg.leader, AppendEntriesResponse(msg.term, i, true, |s'.nodes[i].log|)) in s'.network
  {
    Accepts(s.nodes[i], msg);
    t', s' := Then(t, s, ids, Move(i, Receive(msg)));
  }

  lemma Rejects(n: Node, msg: Message)
    requires msg.AppendEntries? && n.term <= msg.term && !Matches(n.log, msg.prevIndex, msg.prevTerm)
    ensures var n' := NodeStep(n, Receive(msg));
            && n'.role == Follower && n'.term == msg.term && SameLog(n, n')
            && Envelope(msg.leader, AppendEntriesResponse(msg.term, n.id, false, 0)) in n'.outbox
  {
  }

  lemma Resends(n: Node, follower: NodeId)
    requires n.role == Leader && follower in n.nextIndex && n.nextIndex[follower] >= 2
    ensures var n', next := NodeStep(n, Receive(AppendEntriesResponse(n.term, follower, false, 0))),
                            n.nextIndex[follower] - 1;
            && SameRole(n, n') && n'.log == n.log && n'.matchIndex == n.matchIndex
            && n'.nextIndex == n.nextIndex[follower := next]
            && Envelope(follower, AppendMessage(n', next)) in n'.outbox
  {
    var next := n.nextIndex[follower] - 1;
    assert AppendMessage(n, next)
        == AppendMessage(NodeStep(n, Receive(AppendEntriesResponse(n.term, follower, false, 0))), next);
  }

  /** Node i rejects an AppendEntries that does not fit its log. */
  lemma ThenRejects(t: Trace, s: Cluster, ids: seq<NodeId>, i: NodeId, msg: Message) returns (t': Trace, s': Cluster)
    requires At(t, s, ids) && msg.AppendEntries? && Delivered(s, i, msg)
    requires s.nodes[i].term <= msg.term && !Matches(s.nodes[i].log, msg.prevIndex, msg.prevTerm)
    ensures At(t', s', ids) && Moved(s, i, s')
    ensures Vouches(t) ==> Vouches(t')
    ensures s'.nodes[i].role == Follower && s'.nodes[i].term == msg.term && SameLog(s.nodes[i], s'.nodes[i])
    ensures Envelope(msg.leader, AppendEntriesResponse(msg.term, i, false, 0)) in s'.network
  {
    Rejects(s.nodes[i], msg);
    t', s' := Then(t, s, ids, Move(i, Receive(msg)));
  }

  /** After a rejection the leader tries again one entry earlier. */
  lemma ThenResends(t: Trace, s: Cluster, ids: seq<NodeId>, i: NodeId, follower: NodeId)
    returns (t': Trace, s': Cluster)
    requires At(t, s, ids) && i in s.nodes && s.nodes[i].role == Leader
    requires follower in s.nodes[i].nextIndex && s.nodes[i].nextIndex[follower] >= 2
    requires Delivered(s, i, AppendEntriesResponse(s.nodes[i].term, follower, false, 0))
    ensures At(t', s', ids) && Moved(s, i, s')
    ensures Vouches(t) ==> Vouches(t')
    ensures var n, n' := s.nodes[i], s'.nodes[i];
            && SameRole(n, n') && n'.log == n.log && n'.matchIndex == n.matchIndex
            && Envelope(follower, AppendMessage(n', n.nextIndex[follower] - 1)) in s'.network
  {
    Resends(s.nodes[i], follower);
    t', s' := Then(t, s, ids, Move(i, Receive(AppendEntriesResponse(s.nodes[i].term, follower, false, 0))));
  }

  // ---------------------------------------------------------------- reported matches

  /** What a leader takes its peers to have matched after a report. */
  function MatchedAfter(n: Node, follower: NodeId, matched: nat): map<NodeId, nat> {
    if matched > Lookup(n.matchIndex, follower, 0) then n.matchIndex[follower := matched] else n.matchIndex
  }

  function NextAfter(n: Node, follower: NodeId, matched: nat): map<NodeId, nat> {
    if matched > Lookup(n.matchIndex, follower, 0) then n.nextIndex[follower := matched + 1] else n.nextIndex
  }

  /** A leader takes over a reported match; with no entry to commit it does no more. */
  lemma Notes(n: Node, follower: NodeId, matched: nat)
    requires n.role == Leader && |n.log| <= n.commitIndex
    ensures var n' := NodeStep(n, Receive(AppendEntriesResponse(n.term, follower, true, matched)));
            && SameRole(n, n') && n'.log == n.log && n'.matchIndex == MatchedAfter(n, follower, matched)
            && n'.nextIndex == NextAfter(n, follower, matched)
  {
  }

  lemma ThenNotes(t: Trace, s: Cluster, ids: seq<NodeId>, i: NodeId, follower: NodeId, matched: nat)
    returns (t': Trace, s': Cluster)
    requires At(t, s, ids) && i in s.nodes && s.nodes[i].role == Leader && |s.nodes[i].log| <= s.nodes[i].commitIndex
    requires Delivered(s, i, AppendEntriesResponse(s.nodes[i].term, follower, true, matched))
    ensures At(t', s', ids) && Moved(s, i, s')
    ensures Vouches(t) ==> Vouches(t')
    ensures var n, n' := s.nodes[i], s'.nodes[i];
            && SameRole(n, n') && n'.log == n.log && n'.matchIndex == MatchedAfter(n, follower, matched)
            && n'.nextIndex == NextAfter(n, follower, matched)
  {
    Notes(s.nodes[i], follower, matched);
    t', s' := Then(t, s, ids, Move(i, Receive(AppendEntriesResponse(s.nodes[i].term, follower, true, matched))));
  }

  /** A leader that has committed and applied its whole log after a report. */
  ghost predicate CommitsAll(n: Node, n': Node, follower: NodeId, matched: nat) {
    && n'.role == n.role && n'.term == n.term && n'.log == n.log && n'.electionElapsed == n.electionElapsed
    && n.commitIndex <= |n.log| && n'.commitIndex == n'.lastApplied == |n.log|
    && n'.committed == n.committed + n.log[n.commitIndex..]
    && n'.matchIndex == MatchedAfter(n, follower, matched) && n'.nextIndex == NextAfter(n, follower, matched)
  }

  /** A reported match that completes a quorum for the whole log commits and applies it. */
  lemma Commits(n: Node, follower: NodeId, matched: nat, q: set<NodeId>)
    requires n.role == Leader && n.commitIndex == n.lastApplied == |n.committed| && n.commitIndex < |n.log|
    requires n.log[|n.log| - 1].term == n.term
    requires var m := MatchedAfter(n, follower, matched); forall f :: f in q ==> f in m && m[f] >= |n.log|
    requires |q| >= QuorumSize(|n.peers| + 1)
    ensures CommitsAll(n, NodeStep(n, Receive(AppendEntriesResponse(n.term, follower, true, matched))),
                       follower, matched)
  {
    var m := AfterMatch(n, AppendEntriesResponse(n.term, follower, true, matched));
    SubsetCardinality(q, Reporters(m, |n.log|));
    assert Committable(m, |n.log|);
    assert HighestCommittable(m, |n.log|) == Some(|n.log|);
    ApplyShape(m.(commitIndex := |n.log|));
  }

  lemma ThenCommits(t: Trace, s: Cluster, ids: seq<NodeId>, i: NodeId, follower: NodeId, matched: nat, q: set<NodeId>)
    returns (t': Trace, s': Cluster)
    requires At(t, s, ids) && i in s.nodes
    requires Delivered(s, i, AppendEntriesResponse(s.nodes[i].term, follower, true, matched))
    requires var n := s.nodes[i];
             && n.role == Leader && n.commitIndex == n.lastApplied == |n.committed| && n.commitIndex < |n.log|
             && n.log[|n.log| - 1].term == n.term
    requires var m := MatchedAfter(s.nodes[i], follower, matched);
             forall f :: f in q ==> f in m && m[f] >= |s.nodes[i].log|
    requires |q| >= QuorumSize(|ids|)
    ensures At(t', s', ids) && Moved(s, i, s')
    ensures Vouches(t) ==> Vouches(t')
    ensures CommitsAll(s.nodes[i], s'.nodes[i], follower, matched)
  {
    InIds(t, s, ids, i);
    Commits(s.nodes[i], follower, matched, q);
    t', s' := Then(t, s, ids, Move(i, Receive(AppendEntriesResponse(s.nodes[i].term, follower, true, matched))));
  }

  // ---------------------------------------------------------------- merging

  lemma {:induction false} MergeIntoEmpty(entries: seq<Entry>)
    requires forall k :: 0 <= k < |entries| ==> entries[k].index == k + 1
    ensures Merge([], entries) == entries
  {
    if entries != [] {
      MergeIntoEmpty(entries[..|entries| - 1]);
    }
  }

  lemma MergeSingle(log: seq<Entry>, e: Entry)
    ensures Merge(log, [e]) == MergeOne(log, e)
  {
    assert [e][..0] == [];
    assert Merge(log, []) == log;
  }
}
