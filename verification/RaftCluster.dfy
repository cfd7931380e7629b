/** A cluster of Raft nodes, and its runs. */
module RaftCluster {
  /* The network is a growing set of envelopes: whatever stands in a node's outbox may be delivered
     to its addressee at any later time, any number of times, in any order, or never. A run is any
     interleaving of ticks, proposals, deliveries and acknowledgements on the nodes.

     The proofs keep a `History` beside the cluster: who voted for whom in each term, who was
     elected by which quorum, and the log of each term's leader. The history is computed from the
     run; the theorems do not mention it. */

  import opened Collections
  import opened Options
  import opened RaftNode
  import opened RaftEffects

  datatype Cluster = Cluster(nodes: map<NodeId, Node>, network: set<Envelope>)

  datatype Move = Move(id: NodeId, action: Action)

  /** Every node knows exactly the other nodes, without repetition. */
  ghost predicate Wired(s: Cluster) {
    forall i :: i in s.nodes ==>
      && s.nodes[i].id == i
      && NoDup(s.nodes[i].peers)
      && (forall p :: p in s.nodes[i].peers <==> p in s.nodes && p != i)
  }

  ghost predicate Initial(s: Cluster) {
    && Wired(s)
    && s.network == {}
    && forall i :: i in s.nodes ==> s.nodes[i] == InitialNode(i, s.nodes[i].peers)
  }

  ghost predicate Enabled(s: Cluster, m: Move) {
    m.id in s.nodes && (m.action.Receive? ==> Envelope(m.id, m.action.msg) in s.network)
  }

  function Update(s: Cluster, i: NodeId, n': Node): Cluster {
    Cluster(s.nodes[i := n'], s.network + set e | e in n'.outbox)
  }

  function Next(s: Cluster, m: Move): Cluster
    requires m.id in s.nodes
  {
    Update(s, m.id, NodeStep(s.nodes[m.id], m.action))
  }

  ghost predicate Run(states: seq<Cluster>, moves: seq<Move>) {
    && |states| == |moves| + 1
    && Initial(states[0])
    && forall i :: 0 <= i < |moves| ==> Enabled(states[i], moves[i]) && states[i + 1] == Next(states[i], moves[i])
  }

  ghost predicate IsLeader(s: Cluster, i: NodeId, term: nat) {
    i in s.nodes && s.nodes[i].role == Leader && s.nodes[i].term == term
  }

  // ---------------------------------------------------------------- the history of a run

  datatype Election = Election(leader: NodeId, quorum: set<NodeId>)

  datatype History = History(
    votes: map<(nat, NodeId), NodeId>,
    elected: map<nat, Election>,
    logs: map<nat, seq<Entry>>)

  function Vote(h: History, term: nat, voter: NodeId): Option<NodeId> {
    if (term, voter) in h.votes then Some(h.votes[(term, voter)]) else None
  }

  ghost function Record(h: History, n: Node, n': Node): History {
    History(
      if n'.votedFor.Some? then h.votes[(n'.term, n'.id) := n'.votedFor.value] else h.votes,
      if NewlyLeader(n, n') then h.elected[n'.term := Election(n'.id, Elements(n'.votes))] else h.elected,
      if n'.role == Leader then h.logs[n'.term := n'.log] else h.logs)
  }

  ghost function HistoryOf(states: seq<Cluster>, moves: seq<Move>): History
    requires Run(states, moves)
    decreases |moves|
  {
    if moves == [] then History(map[], map[], map[])
    else
      var k := |moves| - 1;
      assert Enabled(states[k], moves[k]);
      Record(HistoryOf(states[..k + 1], moves[..k]), states[k].nodes[moves[k].id], states[k + 1].nodes[moves[k].id])
  }

  // ---------------------------------------------------------------- what every step keeps

  /** What stands in an outbox is in the network. */
  ghost predicate Posted(s: Cluster) {
    forall i, e :: i in s.nodes && e in s.nodes[i].outbox ==> e in s.network
  }

  /** The votes on record are those the nodes hold; a node has voted only up to its own term. */
  ghost predicate VotesAgree(s: Cluster, h: History) {
    && (forall i :: i in s.nodes ==> Vote(h, s.nodes[i].term, i) == s.nodes[i].votedFor)
    && (forall t, i :: (t, i) in h.votes ==> i in s.nodes && t <= s.nodes[i].term)
  }

  /** Every granted vote in the network was cast for its addressee. */
  ghost predicate BallotsTrue(s: Cluster, h: History) {
    forall e :: e in s.network && e.msg.RequestVoteResponse? && e.msg.granted ==>
      Vote(h, e.msg.term, e.msg.voter) == Some(e.to)
  }

  ghost predicate TallyTrue(n: Node, h: History) {
    && n.term >= 1
    && NoDup(n.votes)
    && forall v :: v in n.votes ==> Vote(h, n.term, v) == Some(n.id)
  }

  ghost predicate TalliesTrue(s: Cluster, h: History) {
    forall i :: i in s.nodes && s.nodes[i].role != Follower ==> TallyTrue(s.nodes[i], h)
  }

  /** The election of term t: a quorum of votes on record, and a winner who has not gone back. */
  ghost predicate Legitimate(s: Cluster, h: History, t: nat, e: Election) {
    && e.leader in s.nodes
    && e.quorum <= s.nodes.Keys
    && |e.quorum| >= QuorumSize(|s.nodes|)
    && (forall v :: v in e.quorum ==> Vote(h, t, v) == Some(e.leader))
    && s.nodes[e.leader].term >= t
    && (s.nodes[e.leader].term == t ==> s.nodes[e.leader].role == Leader)
  }

  ghost predicate ElectionsTrue(s: Cluster, h: History) {
    forall t :: t in h.elected ==> Legitimate(s, h, t, h.elected[t])
  }

  ghost predicate LeadersElected(s: Cluster, h: History) {
    && h.logs.Keys == h.elected.Keys
    && forall i :: i in s.nodes && s.nodes[i].role == Leader ==>
         var t := s.nodes[i].term;
         t in h.elected && h.elected[t].leader == i && h.logs[t] == s.nodes[i].log
  }

  /** Nobody replicates to itself, and AppendEntries come only from the elected leader. */
  ghost predicate Addressed(s: Cluster, h: History) {
    forall e :: e in s.network ==>
      && (e.msg.AppendEntries? ==>
            e.to != e.msg.leader && e.msg.term in h.elected && h.elected[e.msg.term].leader == e.msg.leader)
      && (e.msg.AppendEntriesResponse? ==> e.to != e.msg.follower)
  }

  /** Each entry sits at its own index, has a real term, and everything up to it is a prefix of the
      log of that term's leader. */
  ghost predicate BackedAt(log: seq<Entry>, logs: map<nat, seq<Entry>>, k: nat)
    requires k < |log|
  {
    && log[k].index == k + 1
    && log[k].term >= 1
    && log[k].term in logs
    && k < |logs[log[k].term]|
    && log[..k + 1] == logs[log[k].term][..k + 1]
  }

  ghost predicate Backed(log: seq<Entry>, logs: map<nat, seq<Entry>>) {
    forall k: nat :: k < |log| ==> BackedAt(log, logs, k)
  }

  ghost predicate LogsBacked(s: Cluster, h: History) {
    && (forall i :: i in s.nodes ==> Backed(s.nodes[i].log, h.logs))
    && (forall t :: t in h.logs ==> Backed(h.logs[t], h.logs))
  }

  /** An AppendEntries payload is the slice of the leader's log after its previous index, or, when
      that index is past the log, empty with a term no entry has. */
  ghost predicate SliceOf(log: seq<Entry>, prevIndex: nat, prevTerm: nat, entries: seq<Entry>) {
    || (prevIndex + |entries| <= |log|
        && entries == log[prevIndex..prevIndex + |entries|]
        && (prevIndex > 0 ==> log[prevIndex - 1].term == prevTerm))
    || (prevIndex > 0 && prevTerm == 0 && entries == [])
  }

  ghost predicate AppendsTrue(s: Cluster, h: History) {
    forall e :: e in s.network && e.msg.AppendEntries? ==>
      e.msg.term in h.logs && SliceOf(h.logs[e.msg.term], e.msg.prevIndex, e.msg.prevTerm, e.msg.entries)
  }

  lemma ClusterSize(s: Cluster, i: NodeId)
    requires Wired(s) && i in s.nodes
    ensures |s.nodes[i].peers| + 1 == |s.nodes|
  {
    var peers := s.nodes[i].peers;
    NoDupCardinality(peers);
    assert s.nodes.Keys == Elements(peers) + {i};
  }

  ghost predicate Steps(s: Cluster, m: Move, n': Node) {
    Enabled(s, m) && Effect(s.nodes[m.id], m.action, n')
  }

  // ---------------------------------------------------------------- elections

  /** The votes on record after a step: the old ones, plus the one vote the stepping node now holds. */
  lemma VotesGrow(s: Cluster, h: History, m: Move, n': Node, t: nat, v: NodeId)
    requires Wired(s) && VotesAgree(s, h) && Steps(s, m, n')
    ensures var h' := Record(h, s.nodes[m.id], n');
            && (Vote(h, t, v).Some? ==> Vote(h', t, v) == Vote(h, t, v))
            && (t == n'.term && v == m.id ==> Vote(h', t, v) == n'.votedFor)
            && ((t, v) != (n'.term, m.id) ==> Vote(h', t, v) == Vote(h, t, v))
  {
    if n'.term > s.nodes[m.id].term && (n'.term, m.id) in h.votes {
      assert false;
    }
  }

  lemma KeepsVotes(s: Cluster, h: History, m: Move, n': Node)
    requires Wired(s) && Posted(s) && VotesAgree(s, h) && BallotsTrue(s, h) && Steps(s, m, n')
    ensures var h' := Record(h, s.nodes[m.id], n');
            VotesAgree(Update(s, m.id, n'), h') && BallotsTrue(Update(s, m.id, n'), h')
  {
    var n := s.nodes[m.id];
    var s', h' := Update(s, m.id, n'), Record(h, n, n');
    forall i | i in s'.nodes
      ensures Vote(h', s'.nodes[i].term, i) == s'.nodes[i].votedFor
    {
      VotesGrow(s, h, m, n', s'.nodes[i].term, i);
    }
    forall e | e in s'.network && e.msg.RequestVoteResponse? && e.msg.granted
      ensures Vote(h', e.msg.term, e.msg.voter) == Some(e.to)
    {
      VotesGrow(s, h, m, n', e.msg.term, e.msg.voter);
      if e !in s.network {
        assert e in n.outbox || Sent(n, m.action, n', e);
      }
    }
  }

  lemma KeepsTallies(s: Cluster, h: History, m: Move, n': Node)
    requires Wired(s) && VotesAgree(s, h) && BallotsTrue(s, h) && TalliesTrue(s, h) && Steps(s, m, n')
    ensures TalliesTrue(Update(s, m.id, n'), Record(h, s.nodes[m.id], n'))
  {
    var n := s.nodes[m.id];
    var s', h' := Update(s, m.id, n'), Record(h, n, n');
    forall i | i in s'.nodes && s'.nodes[i].role != Follower
      ensures TallyTrue(s'.nodes[i], h')
    {
      forall v | v in s'.nodes[i].votes
        ensures Vote(h', s'.nodes[i].term, v) == Some(i)
      {
        VotesGrow(s, h, m, n', s'.nodes[i].term, v);
      }
    }
  }

  /** A newly elected leader holds a quorum of votes on record. */
  lemma WinnerHasQuorum(s: Cluster, h: History, m: Move, n': Node) returns (q: set<NodeId>)
    requires Wired(s) && VotesAgree(s, h) && BallotsTrue(s, h) && TalliesTrue(s, h) && Posted(s) && Steps(s, m, n')
    requires NewlyLeader(s.nodes[m.id], n')
    ensures q == Elements(n'.votes)
    ensures q <= s.nodes.Keys && |q| >= QuorumSize(|s.nodes|)
    ensures forall v :: v in q ==> Vote(Record(h, s.nodes[m.id], n'), n'.term, v) == Some(m.id)
  {
    var s', h' := Update(s, m.id, n'), Record(h, s.nodes[m.id], n');
    q := Elements(n'.votes);
    KeepsVotes(s, h, m, n');
    KeepsTallies(s, h, m, n');
    assert s'.nodes[m.id] == n' && TallyTrue(n', h');
    ClusterSize(s, m.id);
    NoDupCardinality(n'.votes);
    forall v | v in q
      ensures v in s.nodes
    {
      assert Vote(h', n'.term, v) == Some(m.id);
      assert (n'.term, v) in h'.votes;
    }
  }

  ghost predicate ElectionInv(s: Cluster, h: History) {
    && Wired(s)
    && Posted(s)
    && VotesAgree(s, h)
    && BallotsTrue(s, h)
    && TalliesTrue(s, h)
    && ElectionsTrue(s, h)
  }

  /** Two legitimate elections of one term have the same winner, so a node that has just won a term
      won one that nobody had won before. */
  lemma FreshTerm(s: Cluster, h: History, m: Move, n': Node)
    requires ElectionInv(s, h) && Steps(s, m, n')
    requires NewlyLeader(s.nodes[m.id], n')
    ensures n'.term !in h.elected
  {
    var q := WinnerHasQuorum(s, h, m, n');
    if n'.term in h.elected {
      var e := h.elected[n'.term];
      assert Legitimate(s, h, n'.term, e);
      var v := MajoritiesMeet(s.nodes.Keys, q, e.quorum);
      VotesGrow(s, h, m, n', n'.term, v);
      assert false;
    }
  }

  /** A past election stays legitimate: its winner cannot become a follower of its own term, because
      only the winner replicates in that term and nobody replicates to itself. */
  lemma StaysLegitimate(s: Cluster, h: History, m: Move, n': Node, t: nat, e: Election)
    requires Wired(s) && VotesAgree(s, h) && Addressed(s, h) && Steps(s, m, n')
    requires t in h.elected && h.elected[t] == e && Legitimate(s, h, t, e)
    ensures Legitimate(Update(s, m.id, n'), Record(h, s.nodes[m.id], n'), t, e)
  {
    var h' := Record(h, s.nodes[m.id], n');
    assert Update(s, m.id, n').nodes.Keys == s.nodes.Keys;
    forall v | v in e.quorum
      ensures Vote(h', t, v) == Some(e.leader)
    {
      VotesGrow(s, h, m, n', t, v);
    }
  }

  lemma KeepsElections(s: Cluster, h: History, m: Move, n': Node)
    requires ElectionInv(s, h) && Addressed(s, h) && Steps(s, m, n')
    ensures ElectionsTrue(Update(s, m.id, n'), Record(h, s.nodes[m.id], n'))
  {
    var n := s.nodes[m.id];
    var s', h' := Update(s, m.id, n'), Record(h, n, n');
    forall t | t in h'.elected
      ensures Legitimate(s', h', t, h'.elected[t])
    {
      if NewlyLeader(n, n') && t == n'.term {
        var q := WinnerHasQuorum(s, h, m, n');
        assert s'.nodes.Keys == s.nodes.Keys;
        assert h'.elected[t] == Election(m.id, q);
        assert s'.nodes[m.id] == n';
      } else {
        assert Legitimate(s, h, t, h.elected[t]);
        StaysLegitimate(s, h, m, n', t, h.elected[t]);
      }
    }
  }

  // ---------------------------------------------------------------- the history only grows

  ghost predicate Extends(h: History, h': History) {
    && (forall t :: t in h.elected ==> t in h'.elected && h'.elected[t] == h.elected[t])
    && (forall t :: t in h.logs ==> t in h'.logs && h.logs[t] <= h'.logs[t])
  }

  /** The stepping node opens a term's record only when it is freshly elected. */
  ghost predicate Fresh(h: History, n: Node, n': Node) {
    NewlyLeader(n, n') ==> n'.term !in h.elected
  }

  lemma KeepsLeaders(s: Cluster, h: History, m: Move, n': Node)
    requires Wired(s) && LeadersElected(s, h) && Steps(s, m, n') && Fresh(h, s.nodes[m.id], n')
    ensures LeadersElected(Update(s, m.id, n'), Record(h, s.nodes[m.id], n'))
    ensures Extends(h, Record(h, s.nodes[m.id], n'))
  {
    var n := s.nodes[m.id];
    var s', h' := Update(s, m.id, n'), Record(h, n, n');
    forall i | i in s'.nodes && s'.nodes[i].role == Leader
      ensures var t := s'.nodes[i].term;
              t in h'.elected && h'.elected[t].leader == i && h'.logs[t] == s'.nodes[i].log
    {
      if i != m.id {
        assert s'.nodes[i] == s.nodes[i];
      }
    }
  }

  lemma KeepsAddressed(s: Cluster, h: History, m: Move, n': Node)
    requires Wired(s) && Posted(s) && Addressed(s, h) && LeadersElected(s, h)
    requires Steps(s, m, n') && Fresh(h, s.nodes[m.id], n')
    ensures Addressed(Update(s, m.id, n'), Record(h, s.nodes[m.id], n'))
  {
    var n := s.nodes[m.id];
    var s', h' := Update(s, m.id, n'), Record(h, n, n');
    KeepsLeaders(s, h, m, n');
    assert s'.nodes[m.id] == n';
    forall e | e in s'.network && e !in s.network
      ensures Sent(n, m.action, n', e)
    {
      assert e !in n.outbox;
    }
  }

  // ---------------------------------------------------------------- logs

  lemma BackedExtends(log: seq<Entry>, h: History, h': History)
    requires Backed(log, h.logs) && Extends(h, h')
    ensures Backed(log, h'.logs)
  {
    forall k: nat | k < |log|
      ensures BackedAt(log, h'.logs, k)
    {
      assert BackedAt(log, h.logs, k);
      var l, l' := h.logs[log[k].term], h'.logs[log[k].term];
      assert l'[..k + 1] == l[..k + 1];
    }
  }

  /** Two backed logs with the same term at one position are the same up to it. */
  lemma BackedAgree(a: seq<Entry>, b: seq<Entry>, logs: map<nat, seq<Entry>>, k: nat)
    requires Backed(a, logs) && Backed(b, logs)
    requires k < |a| && k < |b| && a[k].term == b[k].term
    ensures a[..k + 1] == b[..k + 1]
  {
    assert BackedAt(a, logs, k) && BackedAt(b, logs, k);
  }

  /** One entry of the leader's log merged into a log that already begins with everything before it. */
  lemma MergeOneAccepts(log: seq<Entry>, leader: seq<Entry>, logs: map<nat, seq<Entry>>, q: nat, r: seq<Entry>)
    requires Backed(log, logs) && Backed(leader, logs)
    requires q < |leader| && q <= |r| && r[..q] == leader[..q] && (r == log || r == leader[..q])
    ensures var r' := MergeOne(r, leader[q]);
            (r' == log || r' == leader[..q + 1]) && q + 1 <= |r'| && r'[..q + 1] == leader[..q + 1]
  {
    assert BackedAt(leader, logs, q);
    assert leader[..q + 1] == leader[..q] + [leader[q]];
    if q < |r| && r[q].term == leader[q].term {
      BackedAgree(log, leader, logs, q);
    }
  }

  /** The truncate-and-append loop on a slice of the leader's log either finds nothing to change or
      leaves exactly the leader's prefix; either way the log then begins with it. */
  lemma {:induction false} MergeAccepts(log: seq<Entry>, leader: seq<Entry>, logs: map<nat, seq<Entry>>,
                                        p: nat, entries: seq<Entry>)
    requires Backed(log, logs) && Backed(leader, logs)
    requires p + |entries| <= |leader| && entries == leader[p..p + |entries|]
    requires p <= |log| && log[..p] == leader[..p]
    ensures var r, q := Merge(log, entries), p + |entries|;
            (r == log || r == leader[..q]) && q <= |r| && r[..q] == leader[..q]
  {
    if entries != [] {
      var k := |entries| - 1;
      assert entries[k] == leader[p + k];
      assert entries[..k] == leader[p..p + k];
      MergeAccepts(log, leader, logs, p, entries[..k]);
      MergeOneAccepts(log, leader, logs, p + k, Merge(log, entries[..k]));
    }
  }

  /** What accepting an AppendEntries does to a log: it comes to begin with the slice of the leader's
      log, and is otherwise unchanged or cut to that slice. */
  lemma AcceptedLog(log: seq<Entry>, leader: seq<Entry>, logs: map<nat, seq<Entry>>,
                    p: nat, prevTerm: nat, entries: seq<Entry>)
    requires Backed(log, logs) && Backed(leader, logs)
    requires SliceOf(leader, p, prevTerm, entries) && Matches(log, p, prevTerm)
    ensures var r, q := Merge(log, entries), p + |entries|;
            && q <= |leader| && entries == leader[p..q]
            && (r == log || r == leader[..q])
            && q <= |r| && r[..q] == leader[..q]
  {
    if p > 0 {
      assert BackedAt(log, logs, p - 1);
      BackedAgree(log, leader, logs, p - 1);
    }
    MergeAccepts(log, leader, logs, p, entries);
  }

  lemma PrefixBacked(log: seq<Entry>, logs: map<nat, seq<Entry>>, q: nat)
    requires Backed(log, logs) && q <= |log|
    ensures Backed(log[..q], logs)
  {
    forall k: nat | k < q
      ensures BackedAt(log[..q], logs, k)
    {
      assert BackedAt(log, logs, k);
      assert log[..q][..k + 1] == log[..k + 1];
    }
  }

  /** A leader's proposal: its new log is itself the record of its term. */
  lemma ProposalBacked(log: seq<Entry>, e: Entry, logs: map<nat, seq<Entry>>)
    requires Backed(log, logs)
    requires e.index == |log| + 1 && e.term >= 1 && e.term in logs && logs[e.term] == log + [e]
    ensures Backed(log + [e], logs)
  {
    forall k: nat | k < |log + [e]|
      ensures BackedAt(log + [e], logs, k)
    {
      if k < |log| {
        assert BackedAt(log, logs, k);
        assert (log + [e])[..k + 1] == log[..k + 1];
      }
    }
  }

  /** The stepping node's new log is backed by the new record. */
  lemma NewLogBacked(s: Cluster, h: History, m: Move, n': Node)
    requires TalliesTrue(s, h) && LogsBacked(s, h) && AppendsTrue(s, h) && Steps(s, m, n')
    requires Extends(h, Record(h, s.nodes[m.id], n'))
    ensures Backed(n'.log, Record(h, s.nodes[m.id], n').logs)
  {
    var n := s.nodes[m.id];
    var h' := Record(h, n, n');
    if n'.log == n.log {
      BackedExtends(n.log, h, h');
    } else if m.action.Propose? {
      BackedExtends(n.log, h, h');
      assert TallyTrue(n, h);
      ProposalBacked(n.log, Entry(|n.log| + 1, n.term, m.action.data), h'.logs);
    } else {
      var msg := m.action.msg;
      assert Envelope(m.id, msg) in s.network && Envelope(m.id, msg).msg.AppendEntries?;
      var l := h.logs[msg.term];
      AcceptedLog(n.log, l, h.logs, msg.prevIndex, msg.prevTerm, msg.entries);
      PrefixBacked(l, h.logs, msg.prevIndex + |msg.entries|);
      BackedExtends(n'.log, h, h');
    }
  }

  lemma KeepsLogs(s: Cluster, h: History, m: Move, n': Node)
    requires TalliesTrue(s, h) && LogsBacked(s, h) && AppendsTrue(s, h) && Steps(s, m, n')
    requires Extends(h, Record(h, s.nodes[m.id], n'))
    ensures LogsBacked(Update(s, m.id, n'), Record(h, s.nodes[m.id], n'))
  {
    var s', h' := Update(s, m.id, n'), Record(h, s.nodes[m.id], n');
    NewLogBacked(s, h, m, n');
    forall i | i in s'.nodes
      ensures Backed(s'.nodes[i].log, h'.logs)
    {
      if i != m.id {
        BackedExtends(s.nodes[i].log, h, h');
      }
    }
    forall t | t in h'.logs
      ensures Backed(h'.logs[t], h'.logs)
    {
      if !(n'.role == Leader && t == n'.term) {
        BackedExtends(h.logs[t], h, h');
      }
    }
  }

  // ---------------------------------------------------------------- AppendEntries payloads

  lemma SuffixSnoc(log: seq<Entry>, k: nat, from: nat)
    requires |log| == k + 1
    ensures from <= k ==> log[from..] == log[..k][from..] + [log[k]]
    ensures from == k + 1 ==> log[from..] == []
  {
  }

  lemma {:induction false} EntriesFromSuffix(log: seq<Entry>, next: nat)
    requires forall k :: 0 <= k < |log| ==> log[k].index == k + 1
    ensures EntriesFrom(log, next) == if Pred(next) <= |log| then log[Pred(next)..] else []
  {
    if log != [] {
      var k := |log| - 1;
      EntriesFromSuffix(log[..k], next);
      SuffixSnoc(log, k, Pred(next));
    }
  }

  lemma BackedIndices(log: seq<Entry>, logs: map<nat, seq<Entry>>)
    requires Backed(log, logs)
    ensures forall k :: 0 <= k < |log| ==> log[k].index == k + 1
  {
    forall k | 0 <= k < |log|
      ensures log[k].index == k + 1
    {
      assert BackedAt(log, logs, k);
    }
  }

  lemma SliceExtends(log: seq<Entry>, log': seq<Entry>, prevIndex: nat, prevTerm: nat, entries: seq<Entry>)
    requires SliceOf(log, prevIndex, prevTerm, entries) && log <= log'
    ensures SliceOf(log', prevIndex, prevTerm, entries)
  {
    if prevIndex + |entries| <= |log| {
      assert log'[prevIndex..prevIndex + |entries|] == log[prevIndex..prevIndex + |entries|];
    }
  }

  /** Whatever the next index of a peer, what a leader sends it is a slice of its own log. */
  lemma AppendIsSlice(n: Node, next: nat, logs: map<nat, seq<Entry>>)
    requires Backed(n.log, logs)
    ensures var msg := AppendMessage(n, next);
            SliceOf(n.log, msg.prevIndex, msg.prevTerm, msg.entries)
  {
    BackedIndices(n.log, logs);
    EntriesFromSuffix(n.log, next);
  }

  lemma KeepsAppends(s: Cluster, h: History, m: Move, n': Node)
    requires Posted(s) && AppendsTrue(s, h) && Steps(s, m, n')
    requires Extends(h, Record(h, s.nodes[m.id], n')) && Backed(n'.log, Record(h, s.nodes[m.id], n').logs)
    ensures AppendsTrue(Update(s, m.id, n'), Record(h, s.nodes[m.id], n'))
  {
    var n := s.nodes[m.id];
    var s', h' := Update(s, m.id, n'), Record(h, n, n');
    forall e | e in s'.network && e.msg.AppendEntries?
      ensures e.msg.term in h'.logs
      ensures SliceOf(h'.logs[e.msg.term], e.msg.prevIndex, e.msg.prevTerm, e.msg.entries)
    {
      if e in s.network {
        SliceExtends(h.logs[e.msg.term], h'.logs[e.msg.term], e.msg.prevIndex, e.msg.prevTerm, e.msg.entries);
      } else {
        assert e !in n.outbox && Sent(n, m.action, n', e);
        var next: nat :| e.msg == AppendMessage(n', next);
        AppendIsSlice(n', next, h'.logs);
      }
    }
  }

  // ---------------------------------------------------------------- runs

  ghost predicate LogInv(s: Cluster, h: History) {
    && LeadersElected(s, h)
    && Addressed(s, h)
    && LogsBacked(s, h)
    && AppendsTrue(s, h)
  }

  ghost predicate Inv(s: Cluster, h: History) {
    ElectionInv(s, h) && LogInv(s, h)
  }

  lemma KeepsElectionInv(s: Cluster, h: History, m: Move, n': Node)
    requires ElectionInv(s, h) && Addressed(s, h) && Steps(s, m, n')
    ensures ElectionInv(Update(s, m.id, n'), Record(h, s.nodes[m.id], n'))
  {
    KeepsVotes(s, h, m, n');
    KeepsTallies(s, h, m, n');
    KeepsElections(s, h, m, n');
  }

  lemma KeepsLogInv(s: Cluster, h: History, m: Move, n': Node)
    requires Wired(s) && Posted(s) && TalliesTrue(s, h) && LogInv(s, h)
    requires Steps(s, m, n') && Fresh(h, s.nodes[m.id], n')
    ensures LogInv(Update(s, m.id, n'), Record(h, s.nodes[m.id], n'))
    ensures Extends(h, Record(h, s.nodes[m.id], n'))
  {
    KeepsLeaders(s, h, m, n');
    KeepsAddressed(s, h, m, n');
    NewLogBacked(s, h, m, n');
    KeepsLogs(s, h, m, n');
    KeepsAppends(s, h, m, n');
  }

  lemma KeepsInv(s: Cluster, h: History, m: Move, n': Node)
    requires Inv(s, h) && Steps(s, m, n')
    ensures Inv(Update(s, m.id, n'), Record(h, s.nodes[m.id], n'))
    ensures Extends(h, Record(h, s.nodes[m.id], n'))
  {
    if NewlyLeader(s.nodes[m.id], n') {
      FreshTerm(s, h, m, n');
    }
    KeepsElectionInv(s, h, m, n');
    KeepsLogInv(s, h, m, n');
  }

  ghost function HistoryAt(states: seq<Cluster>, moves: seq<Move>, k: nat): History
    requires Run(states, moves) && k <= |moves|
  {
    HistoryOf(states[..k + 1], moves[..k])
  }

  lemma HistoryStep(states: seq<Cluster>, moves: seq<Move>, k: nat)
    requires Run(states, moves) && k < |moves|
    ensures Enabled(states[k], moves[k]) && moves[k].id in states[k + 1].nodes
    ensures Steps(states[k], moves[k], states[k + 1].nodes[moves[k].id])
    ensures states[k + 1] == Update(states[k], moves[k].id, states[k + 1].nodes[moves[k].id])
    ensures HistoryAt(states, moves, k + 1)
         == Record(HistoryAt(states, moves, k), states[k].nodes[moves[k].id], states[k + 1].nodes[moves[k].id])
  {
    StepEffect(states[k].nodes[moves[k].id], moves[k].action);
    assert states[..k + 2][..k + 1] == states[..k + 1];
    assert moves[..k + 1][..k] == moves[..k];
  }

  lemma {:induction false} RunInv(states: seq<Cluster>, moves: seq<Move>, k: nat)
    requires Run(states, moves) && k <= |moves|
    ensures Inv(states[k], HistoryAt(states, moves, k))
  {
    if k > 0 {
      RunInv(states, moves, k - 1);
      HistoryStep(states, moves, k - 1);
      KeepsInv(states[k - 1], HistoryAt(states, moves, k - 1), moves[k - 1], states[k].nodes[moves[k - 1].id]);
    }
  }

  lemma StepExtends(states: seq<Cluster>, moves: seq<Move>, k: nat)
    requires Run(states, moves) && k < |moves|
    ensures Extends(HistoryAt(states, moves, k), HistoryAt(states, moves, k + 1))
  {
    RunInv(states, moves, k);
    HistoryStep(states, moves, k);
    KeepsInv(states[k], HistoryAt(states, moves, k), moves[k], states[k + 1].nodes[moves[k].id]);
  }

  lemma ExtendsFurther(h: History, h': History, h'': History)
    requires Extends(h, h') && Extends(h', h'')
    ensures Extends(h, h'')
  {
  }

  lemma {:induction false} RunExtends(states: seq<Cluster>, moves: seq<Move>, i: nat, j: nat)
    requires Run(states, moves) && i <= j <= |moves|
    ensures Extends(HistoryAt(states, moves, i), HistoryAt(states, moves, j))
    decreases j
  {
    if i < j {
      RunExtends(states, moves, i, j - 1);
      StepExtends(states, moves, j - 1);
      ExtendsFurther(HistoryAt(states, moves, i), HistoryAt(states, moves, j - 1), HistoryAt(states, moves, j));
    }
  }

  // ---------------------------------------------------------------- the theorems

  /** Election Safety: over a whole run, at most one node is ever leader of a given term. */
  lemma ElectionSafety(states: seq<Cluster>, moves: seq<Move>, i: nat, j: nat, a: NodeId, b: NodeId, term: nat)
    requires Run(states, moves) && i < |states| && j < |states|
    requires IsLeader(states[i], a, term) && IsLeader(states[j], b, term)
    ensures a == b
  {
    RunInv(states, moves, i);
    RunInv(states, moves, j);
    RunExtends(states, moves, i, |moves|);
    RunExtends(states, moves, j, |moves|);
  }

  /** Log Matching, between any two nodes at any two moments: entries with the same index and term
      stand at the same place, and the logs are identical up to and including them. */
  lemma LogMatching(states: seq<Cluster>, moves: seq<Move>, i: nat, j: nat, a: NodeId, b: NodeId, k: nat, l: nat)
    requires Run(states, moves) && i < |states| && j < |states|
    requires a in states[i].nodes && b in states[j].nodes
    requires k < |states[i].nodes[a].log| && l < |states[j].nodes[b].log|
    requires states[i].nodes[a].log[k].index == states[j].nodes[b].log[l].index
    requires states[i].nodes[a].log[k].term == states[j].nodes[b].log[l].term
    ensures k == l
    ensures states[i].nodes[a].log[..k + 1] == states[j].nodes[b].log[..k + 1]
  {
    var h := HistoryAt(states, moves, |moves|);
    RunInv(states, moves, i);
    RunInv(states, moves, j);
    RunExtends(states, moves, i, |moves|);
    RunExtends(states, moves, j, |moves|);
    BackedExtends(states[i].nodes[a].log, HistoryAt(states, moves, i), h);
    BackedExtends(states[j].nodes[b].log, HistoryAt(states, moves, j), h);
    assert BackedAt(states[i].nodes[a].log, h.logs, k) && BackedAt(states[j].nodes[b].log, h.logs, l);
    BackedAgree(states[i].nodes[a].log, states[j].nodes[b].log, h.logs, k);
  }

  /** Leader Append-Only: between two moments at which a node leads the same term its log only grows. */
  lemma LeaderAppendOnly(states: seq<Cluster>, moves: seq<Move>, i: nat, j: nat, a: NodeId, term: nat)
    requires Run(states, moves) && i <= j < |states|
    requires IsLeader(states[i], a, term) && IsLeader(states[j], a, term)
    ensures states[i].nodes[a].log <= states[j].nodes[a].log
  {
    RunInv(states, moves, i);
    RunInv(states, moves, j);
    RunExtends(states, moves, i, j);
  }

  /** A step does not touch the record of a term whose winner does not lead it afterwards. */
  lemma RecordUntouched(s: Cluster, h: History, m: Move, n': Node, term: nat)
    requires Wired(s) && Steps(s, m, n') && Extends(h, Record(h, s.nodes[m.id], n'))
    requires LeadersElected(Update(s, m.id, n'), Record(h, s.nodes[m.id], n'))
    requires var h' := Record(h, s.nodes[m.id], n');
             term in h'.logs && term in h'.elected && !IsLeader(Update(s, m.id, n'), h'.elected[term].leader, term)
    ensures var h' := Record(h, s.nodes[m.id], n');
            term in h.logs && term in h.elected && h.elected[term] == h'.elected[term] && h.logs[term] == h'.logs[term]
  {
    assert Update(s, m.id, n').nodes[m.id] == n';
  }

  lemma HeldBefore(states: seq<Cluster>, moves: seq<Move>, k: nat, term: nat)
    requires Run(states, moves) && k < |moves|
    requires var h' := HistoryAt(states, moves, k + 1);
             term in h'.logs && term in h'.elected && !IsLeader(states[k + 1], h'.elected[term].leader, term)
    ensures var h, h' := HistoryAt(states, moves, k), HistoryAt(states, moves, k + 1);
            term in h.logs && term in h.elected && h.elected[term] == h'.elected[term] && h.logs[term] == h'.logs[term]
  {
    RunInv(states, moves, k);
    RunInv(states, moves, k + 1);
    HistoryStep(states, moves, k);
    RunExtends(states, moves, k, k + 1);
    RecordUntouched(states[k], HistoryAt(states, moves, k), moves[k], states[k + 1].nodes[moves[k].id], term);
  }

  lemma RecordIsHeld(states: seq<Cluster>, moves: seq<Move>, k: nat, term: nat)
    requires Run(states, moves) && k <= |moves| && term in HistoryAt(states, moves, k).logs
    ensures var h := HistoryAt(states, moves, k);
            && term in h.elected
            && (IsLeader(states[k], h.elected[term].leader, term) ==>
                  states[k].nodes[h.elected[term].leader].log == h.logs[term])
    ensures k > 0
  {
    RunInv(states, moves, k);
  }

  /** The log on record for a term was, at some earlier moment, the log of that term's leader. */
  lemma {:induction false} LeaderLogWasHeld(states: seq<Cluster>, moves: seq<Move>, k: nat, term: nat) returns (j: nat)
    requires Run(states, moves) && k <= |moves|
    requires term in HistoryAt(states, moves, k).logs
    ensures j <= k
    ensures var h := HistoryAt(states, moves, k);
            && term in h.elected
            && IsLeader(states[j], h.elected[term].leader, term)
            && states[j].nodes[h.elected[term].leader].log == h.logs[term]
  {
    RecordIsHeld(states, moves, k, term);
    if IsLeader(states[k], HistoryAt(states, moves, k).elected[term].leader, term) {
      j := k;
    } else {
      HeldBefore(states, moves, k - 1, term);
      j := LeaderLogWasHeld(states, moves, k - 1, term);
    }
  }

  /** The log begins with the record of the message's term, as far as the message reaches. */
  ghost predicate BeginsWithRecord(h: History, msg: Message, log: seq<Entry>)
    requires msg.AppendEntries?
  {
    var q := msg.prevIndex + |msg.entries|;
    && msg.term in h.logs && msg.term in h.elected && h.elected[msg.term].leader == msg.leader
    && q <= |h.logs[msg.term]| && q <= |log| && log[..q] == h.logs[msg.term][..q]
  }

  lemma AcceptedRecord(s: Cluster, h: History, m: Move)
    requires LogsBacked(s, h) && AppendsTrue(s, h) && Addressed(s, h) && LeadersElected(s, h) && Enabled(s, m)
    requires Admits(s.nodes[m.id], m.action)
    ensures BeginsWithRecord(h, m.action.msg, NodeStep(s.nodes[m.id], m.action).log)
  {
    var msg := m.action.msg;
    assert Envelope(m.id, msg) in s.network && Envelope(m.id, msg).msg.AppendEntries?;
    AcceptedLog(s.nodes[m.id].log, h.logs[msg.term], h.logs, msg.prevIndex, msg.prevTerm, msg.entries);
    AcceptedMerges(s.nodes[m.id], msg);
  }

  lemma StepOfRun(states: seq<Cluster>, moves: seq<Move>, k: nat)
    requires Run(states, moves) && k < |moves|
    ensures Enabled(states[k], moves[k]) && moves[k].id in states[k + 1].nodes
    ensures states[k + 1].nodes[moves[k].id] == NodeStep(states[k].nodes[moves[k].id], moves[k].action)
  {
    assert states[k + 1] == Next(states[k], moves[k]);
  }

  lemma RunAcceptedRecord(states: seq<Cluster>, moves: seq<Move>, k: nat)
    requires Run(states, moves) && k < |moves| && moves[k].id in states[k].nodes
    requires Admits(states[k].nodes[moves[k].id], moves[k].action)
    ensures BeginsWithRecord(HistoryAt(states, moves, k), moves[k].action.msg,
                             NodeStep(states[k].nodes[moves[k].id], moves[k].action).log)
  {
    StepOfRun(states, moves, k);
    RunInv(states, moves, k);
    AcceptedRecord(states[k], HistoryAt(states, moves, k), moves[k]);
  }

  /** Accepted prefix: after a node accepts an AppendEntries, however stale or often delivered, its
      log begins with the first prevIndex + |entries| entries that the sender's log held at some
      earlier moment of the run while the sender was leader of the message's term. */
  lemma AcceptedPrefix(states: seq<Cluster>, moves: seq<Move>, k: nat) returns (j: nat)
    requires Run(states, moves) && k < |moves| && moves[k].id in states[k].nodes
    requires Admits(states[k].nodes[moves[k].id], moves[k].action)
    ensures j <= k
    ensures var msg := moves[k].action.msg;
            var q := msg.prevIndex + |msg.entries|;
            && IsLeader(states[j], msg.leader, msg.term)
            && moves[k].id in states[k + 1].nodes
            && q <= |states[j].nodes[msg.leader].log|
            && q <= |states[k + 1].nodes[moves[k].id].log|
            && states[k + 1].nodes[moves[k].id].log[..q] == states[j].nodes[msg.leader].log[..q]
  {
    StepOfRun(states, moves, k);
    RunAcceptedRecord(states, moves, k);
    j := LeaderLogWasHeld(states, moves, k, moves[k].action.msg.term);
  }

  /** Log Matching as a test: a log is a prefix of another exactly when it is not longer and its last
      entry has the term that the other has there. */
  lemma PrefixExactly(log: seq<Entry>, leader: seq<Entry>, logs: map<nat, seq<Entry>>)
    requires Backed(log, logs) && Backed(leader, logs)
    ensures log <= leader <==> |log| <= |leader| && LastTerm(log) == TermAt(leader, |log|)
  {
    if log != [] && |log| <= |leader| && log[|log| - 1].term == leader[|log| - 1].term {
      BackedAgree(log, leader, logs, |log| - 1);
      assert log[..|log|] == log;
    }
  }

  /** A success reply reports the length of the whole log as matched. Against any log that the sender
      has held as leader of that term, the report is true exactly when that log reaches as far and the
      node's last entry has its term there; an unmatched tail makes it false. */
  lemma MatchReportExactly(states: seq<Cluster>, moves: seq<Move>, k: nat, j: nat)
    requires Run(states, moves) && k < |moves| && j < |states|
    requires moves[k].id in states[k].nodes && moves[k].id in states[k + 1].nodes
    requires Admits(states[k].nodes[moves[k].id], moves[k].action)
    requires IsLeader(states[j], moves[k].action.msg.leader, moves[k].action.msg.term)
    ensures var log, leader := states[k + 1].nodes[moves[k].id].log, states[j].nodes[moves[k].action.msg.leader].log;
            log <= leader <==> |log| <= |leader| && LastTerm(log) == TermAt(leader, |log|)
  {
    var h := HistoryAt(states, moves, |moves|);
    var log, leader := states[k + 1].nodes[moves[k].id].log, states[j].nodes[moves[k].action.msg.leader].log;
    RunInv(states, moves, k + 1);
    RunInv(states, moves, j);
    RunExtends(states, moves, k + 1, |moves|);
    RunExtends(states, moves, j, |moves|);
    BackedExtends(log, HistoryAt(states, moves, k + 1), h);
    BackedExtends(leader, HistoryAt(states, moves, j), h);
    PrefixExactly(log, leader, h.logs);
  }

  /** An AppendEntries that is not rejected leaves the merged log. */
  lemma AcceptedMerges(n: Node, msg: Message)
    requires msg.AppendEntries? && n.term <= msg.term && Matches(n.log, msg.prevIndex, msg.prevTerm)
    ensures ReceiveNode(n, msg).log == Merge(n.log, msg.entries)
  {
    var m := if msg.term > n.term then n.(term := msg.term, votedFor := None, votes := []) else n;
    ApplyShape(Accepted(m.(role := Follower, electionElapsed := 0), msg.entries, msg.leaderCommit));
  }

  // ---------------------------------------------------------------- the committed stream

  /** The entries a step appends to `pending_committed`. */
  function Emitted(n: Node, a: Action): seq<Entry> {
    var n' := NodeStep(n, a);
    if a.Advance? || |n'.committed| < |n.committed| then [] else n'.committed[|n.committed|..]
  }

  /** Everything node i has pushed to `pending_committed` over a run, in order. */
  ghost function Stream(states: seq<Cluster>, moves: seq<Move>, k: nat, i: NodeId): seq<Entry>
    requires Run(states, moves) && k <= |moves|
  {
    if k == 0 then []
    else
      assert Enabled(states[k - 1], moves[k - 1]);
      Stream(states, moves, k - 1, i)
        + if moves[k - 1].id == i then Emitted(states[k - 1].nodes[i], moves[k - 1].action) else []
  }

  /** An accepted AppendEntries calls `apply_committed` with the commit index inside the log. */
  lemma AcceptsWithinLog(s: Cluster, h: History, m: Move)
    requires LogsBacked(s, h) && AppendsTrue(s, h) && Enabled(s, m)
    requires m.action.Receive? && m.action.msg.AppendEntries?
    requires Matches(s.nodes[m.id].log, m.action.msg.prevIndex, m.action.msg.prevTerm)
    ensures ApplySafe(s.nodes[m.id], m.action.msg)
  {
    var msg := m.action.msg;
    assert Envelope(m.id, msg) in s.network && Envelope(m.id, msg).msg.AppendEntries?;
    var log, leader := s.nodes[m.id].log, h.logs[msg.term];
    AcceptedLog(log, leader, h.logs, msg.prevIndex, msg.prevTerm, msg.entries);
    BackedIndices(leader, h.logs);
    BackedIndices(log, h.logs);
  }

  ghost predicate ApplySafe(n: Node, msg: Message)
    requires msg.AppendEntries?
  {
    var r := Accepted(n, msg.entries, msg.leaderCommit);
    && (msg.leaderCommit > n.commitIndex ==> r.commitIndex <= |r.log|)
    && (forall k :: 0 <= k < |r.log| ==> r.log[k].index == k + 1)
  }

  /** What a step emits is the stretch of the new log between the two applied counters. */
  ghost predicate EmitsStretch(n: Node, a: Action) {
    var n' := NodeStep(n, a);
    && n.lastApplied <= n'.lastApplied
    && (n.lastApplied == n'.lastApplied ==> Emitted(n, a) == [])
    && (n.lastApplied < n'.lastApplied ==>
          n'.lastApplied <= |n'.log| && Emitted(n, a) == n'.log[n.lastApplied..n'.lastApplied])
  }

  lemma AppendEmits(n: Node, a: Action)
    requires a.Receive? && a.msg.AppendEntries?
    requires Matches(n.log, a.msg.prevIndex, a.msg.prevTerm) ==> ApplySafe(n, a.msg)
    ensures EmitsStretch(n, a)
  {
    var f0 := if a.msg.term > n.term then n.(term := a.msg.term, votedFor := None, votes := []) else n;
    ApplyShape(Accepted(f0.(role := Follower, electionElapsed := 0), a.msg.entries, a.msg.leaderCommit));
  }

  lemma ResponseEmits(n: Node, a: Action)
    requires a.Receive? && a.msg.AppendEntriesResponse?
    ensures EmitsStretch(n, a)
  {
    if a.msg.success && n.role == Leader && a.msg.term == n.term {
      var p := AfterMatch(n, a.msg);
      HighestCommittableIsGreatest(p, |p.log|);
      match HighestCommittable(p, |p.log|)
      case None =>
      case Some(i) => ApplyShape(p.(commitIndex := i));
    }
  }

  lemma AppendStepEmits(s: Cluster, h: History, m: Move)
    requires LogsBacked(s, h) && AppendsTrue(s, h) && Enabled(s, m)
    requires m.action.Receive? && m.action.msg.AppendEntries?
    ensures EmitsStretch(s.nodes[m.id], m.action)
  {
    if Matches(s.nodes[m.id].log, m.action.msg.prevIndex, m.action.msg.prevTerm) {
      AcceptsWithinLog(s, h, m);
    }
    AppendEmits(s.nodes[m.id], m.action);
  }

  lemma OthersEmit(n: Node, a: Action)
    requires a.Receive? ==> !a.msg.AppendEntries? && !a.msg.AppendEntriesResponse?
    ensures EmitsStretch(n, a)
  {
  }

  lemma StepEmits(s: Cluster, h: History, m: Move)
    requires LogsBacked(s, h) && AppendsTrue(s, h) && Enabled(s, m)
    ensures EmitsStretch(s.nodes[m.id], m.action)
  {
    if m.action.Receive? && m.action.msg.AppendEntries? {
      AppendStepEmits(s, h, m);
    } else if m.action.Receive? && m.action.msg.AppendEntriesResponse? {
      ResponseEmits(s.nodes[m.id], m.action);
    } else {
      OthersEmit(s.nodes[m.id], m.action);
    }
  }

  ghost predicate InsideLog(n: Node) {
    && n.commitIndex <= |n.log|
    && forall i :: 0 <= i < |n.log| ==> n.log[i].index == i + 1
  }

  lemma AcceptCallInside(s: Cluster, h: History, m: Move)
    requires LogsBacked(s, h) && AppendsTrue(s, h) && Enabled(s, m) && SetsCommit(s.nodes[m.id], m.action)
    ensures var r := ApplyCall(s.nodes[m.id], m.action); r.Some? && InsideLog(r.value)
  {
    AcceptsWithinLog(s, h, m);
  }

  lemma ResponseCallInside(n: Node, a: Action, logs: map<nat, seq<Entry>>)
    requires Backed(n.log, logs) && !SetsCommit(n, a) && ApplyCall(n, a).Some?
    ensures InsideLog(ApplyCall(n, a).value)
  {
    BackedIndices(n.log, logs);
    HighestCommittableIsGreatest(AfterMatch(n, a.msg), |n.log|);
  }

  lemma CallInside(s: Cluster, h: History, m: Move)
    requires LogsBacked(s, h) && AppendsTrue(s, h) && Enabled(s, m) && ApplyCall(s.nodes[m.id], m.action).Some?
    ensures InsideLog(ApplyCall(s.nodes[m.id], m.action).value)
  {
    if SetsCommit(s.nodes[m.id], m.action) {
      AcceptCallInside(s, h, m);
    } else {
      ResponseCallInside(s.nodes[m.id], m.action, h.logs);
    }
  }

  lemma NoCall(n: Node, a: Action)
    requires ApplyCall(n, a).None?
    ensures NodeStep(n, a).lastApplied == n.lastApplied && Emitted(n, a) == []
  {
    CallsApply(n, a);
  }

  /** In every run, whenever a step calls `apply_committed`, from either of its two call sites, the
      commit index is inside the log and every entry stands at its own index. A step that does not call
      it applies nothing. */
  lemma AppliesWithinLog(states: seq<Cluster>, moves: seq<Move>, k: nat)
    requires Run(states, moves) && k < |moves| && moves[k].id in states[k].nodes
    ensures var n, a := states[k].nodes[moves[k].id], moves[k].action;
            match ApplyCall(n, a)
            case Some(r) => NodeStep(n, a) == ApplyCommitted(r).(outbox := NodeStep(n, a).outbox) && InsideLog(r)
            case None => NodeStep(n, a).lastApplied == n.lastApplied && Emitted(n, a) == []
  {
    var n, a := states[k].nodes[moves[k].id], moves[k].action;
    if ApplyCall(n, a).Some? {
      RunInv(states, moves, k);
      assert Enabled(states[k], moves[k]);
      CallInside(states[k], HistoryAt(states, moves, k), moves[k]);
      CallsApply(n, a);
    } else {
      NoCall(n, a);
    }
  }

  /** Entries with the indices 1, 2, 3, ... */
  ghost predicate Counted(stream: seq<Entry>) {
    forall j :: 0 <= j < |stream| ==> stream[j].index == j + 1
  }

  lemma StreamGrows(stream: seq<Entry>, n: Node, a: Action)
    requires Counted(stream) && |stream| == n.lastApplied
    requires EmitsStretch(n, a) && Counted(NodeStep(n, a).log)
    ensures Counted(stream + Emitted(n, a)) && |stream + Emitted(n, a)| == NodeStep(n, a).lastApplied
  {
  }

  lemma StepGrowsStream(states: seq<Cluster>, moves: seq<Move>, k: nat, stream: seq<Entry>)
    requires Run(states, moves) && k < |moves| && moves[k].id in states[k].nodes
    requires Counted(stream) && |stream| == states[k].nodes[moves[k].id].lastApplied
    ensures var n := states[k].nodes[moves[k].id];
            && Counted(stream + Emitted(n, moves[k].action))
            && |stream + Emitted(n, moves[k].action)| == NodeStep(n, moves[k].action).lastApplied
  {
    RunInv(states, moves, k);
    RunInv(states, moves, k + 1);
    HistoryStep(states, moves, k);
    StepEmits(states[k], HistoryAt(states, moves, k), moves[k]);
    BackedIndices(states[k + 1].nodes[moves[k].id].log, HistoryAt(states, moves, k + 1).logs);
    StreamGrows(stream, states[k].nodes[moves[k].id], moves[k].action);
  }

  /** Apply stream: over a whole run every node pushes entries with indices 1, 2, 3, ... to its
      committed stream, with no gap and no repeat, and its applied counter counts them. */
  lemma {:induction false} ApplyStream(states: seq<Cluster>, moves: seq<Move>, k: nat, i: NodeId)
    requires Run(states, moves) && k <= |moves| && i in states[0].nodes
    ensures i in states[k].nodes
    ensures |Stream(states, moves, k, i)| == states[k].nodes[i].lastApplied
    ensures Counted(Stream(states, moves, k, i))
  {
    if k > 0 {
      ApplyStream(states, moves, k - 1, i);
      assert Enabled(states[k - 1], moves[k - 1]) && states[k] == Next(states[k - 1], moves[k - 1]);
      if moves[k - 1].id == i {
        StepGrowsStream(states, moves, k - 1, Stream(states, moves, k - 1, i));
      }
    }
  }
}
