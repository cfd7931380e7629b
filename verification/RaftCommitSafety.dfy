/** Safety of what Raft commits. */
module RaftCommitSafety {
  /* Leader Completeness and State Machine Safety for runs in which every admitted AppendEntries is
     vouched for. RaftCommitFails.dfy has a run in which one is not. */

  import opened Collections
  import opened Options
  import opened RaftNode
  import opened RaftEffects
  import opened RaftCluster
  import opened RaftLedger

  // ---------------------------------------------------------------- commitment

  /** The nodes that have held entry k of term t's log in term t. */
  ghost function Holders(nodes: set<NodeId>, h: History, l: Ledger, t: nat, k: nat): set<NodeId> {
    set i | i in nodes && Marked(h, l, t, i, k)
  }

  /** Entry k of term t's log, counted from 1, was committed in term t: it is of term t, and a quorum
      has held it in term t. */
  ghost predicate Committed(nodes: set<NodeId>, h: History, l: Ledger, t: nat, k: nat) {
    && t in h.logs && 1 <= k <= |h.logs[t]| && h.logs[t][k - 1].term == t
    && |Holders(nodes, h, l, t, k)| >= QuorumSize(|nodes|)
  }

  /** A log committed by some term up to the given one. */
  ghost predicate Safe(nodes: set<NodeId>, h: History, l: Ledger, log: seq<Entry>, term: nat) {
    log == [] || exists t: nat, k: nat :: t <= term && Committed(nodes, h, l, t, k) && log <= h.logs[t][..k]
  }

  /** Leader Completeness on the record: every later term was won with the committed prefix. The
      quorum that held it and the quorum that elected share a node, and that node voted for a log
      that had what it had held. */
  lemma {:induction false} LaterBaseHas(s: Cluster, h: History, l: Ledger, t: nat, k: nat, t': nat)
    requires ElectionsTrue(s, h) && VotesKeep(h, l)
    requires Committed(s.nodes.Keys, h, l, t, k) && t < t' && t' in h.elected
    ensures h.logs[t][..k] <= Base(h, l, t')
    decreases t'
  {
    var e := h.elected[t'];
    assert Legitimate(s, h, t', e);
    var v := MajoritiesMeet(s.nodes.Keys, Holders(s.nodes.Keys, h, l, t, k), e.quorum);
    assert Vote(h, t', v) == Some(e.leader);
    assert Counts(h, t', v) && Marked(h, l, t, v, k);
    if Lost(h, l, h.logs[t][..k], t, t') {
      var u :| t < u < t' && u in h.elected && !(h.logs[t][..k] <= Base(h, l, u));
      LaterBaseHas(s, h, l, t, k, u);
      assert false;
    }
  }

  /** What term t committed is in the log of every later term's leader, and in its own. */
  lemma LaterLogHas(s: Cluster, h: History, l: Ledger, t: nat, k: nat, t': nat)
    requires ElectionsTrue(s, h) && LeadersStood(h, l) && VotesKeep(h, l)
    requires Committed(s.nodes.Keys, h, l, t, k) && t <= t' && t' in h.elected
    ensures t' in h.logs && h.logs[t][..k] <= h.logs[t']
  {
    assert GrownFrom(l.ballots[(t', h.elected[t'].leader)], h.logs[t'], t');
    if t < t' {
      LaterBaseHas(s, h, l, t, k, t');
    }
  }

  lemma SafeInLeader(s: Cluster, h: History, l: Ledger, log: seq<Entry>, term: nat, t': nat)
    requires ElectionsTrue(s, h) && LeadersStood(h, l) && VotesKeep(h, l)
    requires Safe(s.nodes.Keys, h, l, log, term) && term <= t' && t' in h.elected
    ensures t' in h.logs && log <= h.logs[t']
  {
    assert GrownFrom(l.ballots[(t', h.elected[t'].leader)], h.logs[t'], t');
    if log != [] {
      var t: nat, k: nat :| t <= term && Committed(s.nodes.Keys, h, l, t, k) && log <= h.logs[t][..k];
      LaterLogHas(s, h, l, t, k, t');
    }
  }

  /** Two committed logs agree as far as both go. */
  lemma SafeAgree(s: Cluster, h: History, l: Ledger, a: seq<Entry>, b: seq<Entry>, ta: nat, tb: nat)
    requires ElectionsTrue(s, h) && LeadersStood(h, l) && VotesKeep(h, l) && h.logs.Keys == h.elected.Keys
    requires Safe(s.nodes.Keys, h, l, a, ta) && Safe(s.nodes.Keys, h, l, b, tb)
    ensures a <= b || b <= a
  {
    if a != [] && b != [] {
      var t: nat, k: nat :| t <= ta && Committed(s.nodes.Keys, h, l, t, k) && a <= h.logs[t][..k];
      var u: nat, j: nat :| u <= tb && Committed(s.nodes.Keys, h, l, u, j) && b <= h.logs[u][..j];
      if t <= u {
        OrderedAgree(s, h, l, a, t, k, b, u, j);
      } else {
        OrderedAgree(s, h, l, b, u, j, a, t, k);
      }
    }
  }

  lemma OrderedAgree(s: Cluster, h: History, l: Ledger, a: seq<Entry>, t: nat, k: nat, b: seq<Entry>, u: nat, j: nat)
    requires ElectionsTrue(s, h) && LeadersStood(h, l) && VotesKeep(h, l) && h.logs.Keys == h.elected.Keys
    requires Committed(s.nodes.Keys, h, l, t, k) && a <= h.logs[t][..k]
    requires Committed(s.nodes.Keys, h, l, u, j) && b <= h.logs[u][..j]
    requires t <= u
    ensures a <= b || b <= a
  {
    InLaterLog(s, h, l, a, t, k, u);
    PrefixesAgree(a, b, h.logs[u]);
  }

  lemma InLaterLog(s: Cluster, h: History, l: Ledger, log: seq<Entry>, t: nat, k: nat, t': nat)
    requires ElectionsTrue(s, h) && LeadersStood(h, l) && VotesKeep(h, l)
    requires Committed(s.nodes.Keys, h, l, t, k) && log <= h.logs[t][..k] && t <= t' && t' in h.elected
    ensures t' in h.logs && log <= h.logs[t']
  {
    LaterLogHas(s, h, l, t, k, t');
  }

  lemma PrefixesAgree(a: seq<Entry>, b: seq<Entry>, log: seq<Entry>)
    requires a <= log && b <= log
    ensures a <= b || b <= a
  {
    assert a == log[..|a|] && b == log[..|b|];
  }

  // ---------------------------------------------------------------- what stays committed

  lemma CommittedStays(nodes: set<NodeId>, h: History, l: Ledger, h': History, l': Ledger, t: nat, k: nat)
    requires Committed(nodes, h, l, t, k) && Extends(h, h') && Grows(l, l')
    ensures Committed(nodes, h', l', t, k) && h'.logs[t][..k] == h.logs[t][..k]
  {
    forall i | i in Holders(nodes, h, l, t, k)
      ensures i in Holders(nodes, h', l', t, k)
    {
      assert Marked(h, l, t, i, k);
    }
    SubsetCardinality(Holders(nodes, h, l, t, k), Holders(nodes, h', l', t, k));
  }

  lemma SafeStays(nodes: set<NodeId>, h: History, l: Ledger, h': History, l': Ledger,
                  log: seq<Entry>, term: nat, shorter: seq<Entry>, term': nat)
    requires Safe(nodes, h, l, log, term) && Extends(h, h') && Grows(l, l')
    requires shorter <= log && term <= term'
    ensures Safe(nodes, h', l', shorter, term')
  {
    if shorter != [] {
      var t: nat, k: nat :| t <= term && Committed(nodes, h, l, t, k) && log <= h.logs[t][..k];
      CommittedStays(nodes, h, l, h', l', t, k);
    }
  }

  // ---------------------------------------------------------------- the invariant

  /** What a leader takes a node to have matched the node has held. */
  ghost predicate LeaderMatches(n: Node, l: Ledger) {
    forall f :: f in n.matchIndex && n.matchIndex[f] >= 1 ==>
      (n.term, f) in l.held && n.matchIndex[f] <= l.held[(n.term, f)]
  }

  ghost predicate MatchesHeld(s: Cluster, l: Ledger) {
    && (forall i :: i in s.nodes ==> s.nodes[i].matchIndex.Keys <= s.nodes.Keys)
    && (forall i :: i in s.nodes && s.nodes[i].role == Leader ==> LeaderMatches(s.nodes[i], l))
  }

  /** A node has applied exactly what its commit index covers, and that was committed in a term up to
      its own. */
  ghost predicate NodeSafe(nodes: set<NodeId>, h: History, l: Ledger, n: Node) {
    && n.lastApplied == n.commitIndex <= |n.log|
    && Safe(nodes, h, l, n.log[..n.commitIndex], n.term)
  }

  ghost predicate NodesSafe(s: Cluster, h: History, l: Ledger) {
    forall i :: i in s.nodes ==> NodeSafe(s.nodes.Keys, h, l, s.nodes[i])
  }

  /** The commit index that a leader announces covers a committed part of its log, and a payload runs
      at least as far. */
  ghost predicate AnnouncesSafe(nodes: set<NodeId>, h: History, l: Ledger, msg: Message)
    requires msg.AppendEntries?
  {
    && msg.term in h.logs
    && msg.leaderCommit <= |h.logs[msg.term]|
    && Safe(nodes, h, l, h.logs[msg.term][..msg.leaderCommit], msg.term)
    && (msg.entries != [] ==> msg.leaderCommit <= msg.prevIndex + |msg.entries|)
  }

  ghost predicate MessagesSafe(s: Cluster, h: History, l: Ledger) {
    forall e :: e in s.network && e.msg.AppendEntries? ==> AnnouncesSafe(s.nodes.Keys, h, l, e.msg)
  }

  ghost predicate CommitInv(s: Cluster, h: History, l: Ledger) {
    MatchesHeld(s, l) && NodesSafe(s, h, l) && MessagesSafe(s, h, l)
  }

  /** Everything about a state and what is on record for it. */
  ghost predicate FullInv(s: Cluster, h: History, l: Ledger) {
    Inv(s, h) && BallotInv(s, h, l) && HeldInv(s, h, l) && CommitInv(s, h, l)
  }

  lemma KeepsMatches(s: Cluster, h: History, l: Ledger, m: Move, n': Node)
    requires Wired(s) && AnswersTrue(s, l) && HeldTrue(s, h, l) && MatchesHeld(s, l) && Acts(s, m, n')
    requires Grows(l, Note(l, s.nodes[m.id], m.action, n'))
    ensures MatchesHeld(Update(s, m.id, n'), Note(l, s.nodes[m.id], m.action, n'))
  {
    var n := s.nodes[m.id];
    var s', l' := Update(s, m.id, n'), Note(l, n, m.action, n');
    assert s'.nodes.Keys == s.nodes.Keys;
    if m.action.Receive? && m.action.msg.AppendEntriesResponse? && m.action.msg.success {
      ResponderHeld(s, h, l, m);
    }
    NewMatchKeys(s, m, n');
    if n'.role == Leader {
      NewMatches(s, l, m, n');
    }
    forall i | i in s'.nodes && i != m.id && s'.nodes[i].role == Leader
      ensures LeaderMatches(s'.nodes[i], l')
    {
      MatchesStay(s.nodes[i], l, l');
    }
  }

  lemma MatchesStay(n: Node, l: Ledger, l': Ledger)
    requires LeaderMatches(n, l) && Grows(l, l')
    ensures LeaderMatches(n, l')
  {
  }

  lemma ResponderHeld(s: Cluster, h: History, l: Ledger, m: Move)
    requires Enabled(s, m) && AnswersTrue(s, l) && HeldTrue(s, h, l)
    requires m.action.Receive? && m.action.msg.AppendEntriesResponse? && m.action.msg.success
    ensures var msg := m.action.msg;
            && msg.follower in s.nodes
            && (msg.term, msg.follower) in l.held && msg.matched <= l.held[(msg.term, msg.follower)]
  {
    assert Envelope(m.id, m.action.msg) in s.network && Envelope(m.id, m.action.msg).msg.AppendEntriesResponse?;
  }

  lemma NewMatches(s: Cluster, l: Ledger, m: Move, n': Node)
    requires Wired(s) && MatchesHeld(s, l) && Acts(s, m, n') && n'.role == Leader
    requires Grows(l, Note(l, s.nodes[m.id], m.action, n')) && n'.matchIndex.Keys <= s.nodes.Keys
    requires m.action.Receive? && m.action.msg.AppendEntriesResponse? && m.action.msg.success ==>
               && (m.action.msg.term, m.action.msg.follower) in l.held
               && m.action.msg.matched <= l.held[(m.action.msg.term, m.action.msg.follower)]
    ensures LeaderMatches(n', Note(l, s.nodes[m.id], m.action, n'))
  {
    assert s.nodes[m.id].role == Leader ==> LeaderMatches(s.nodes[m.id], l);
  }

  /** Matches are reported by nodes of the cluster. */
  lemma NewMatchKeys(s: Cluster, m: Move, n': Node)
    requires Wired(s) && Acts(s, m, n') && s.nodes[m.id].matchIndex.Keys <= s.nodes.Keys
    requires m.action.Receive? && m.action.msg.AppendEntriesResponse? && m.action.msg.success ==>
               m.action.msg.follower in s.nodes
    ensures n'.matchIndex.Keys <= s.nodes.Keys
  {
  }

  /** A leader that counts a quorum of matches commits. */
  lemma LeaderCommits(s: Cluster, h: History, l: Ledger, i: NodeId, c: nat)
    requires Wired(s) && LeadersElected(s, h) && MatchesHeld(s, l) && i in s.nodes && s.nodes[i].role == Leader
    requires 1 <= c <= |s.nodes[i].log| && Committable(s.nodes[i], c)
    ensures Committed(s.nodes.Keys, h, l, s.nodes[i].term, c)
    ensures s.nodes[i].log[..c] == h.logs[s.nodes[i].term][..c]
  {
    var n := s.nodes[i];
    ClusterSize(s, i);
    forall f | f in Reporters(n, c)
      ensures f in Holders(s.nodes.Keys, h, l, n.term, c)
    {
      assert n.matchIndex[f] >= 1;
    }
    SubsetCardinality(Reporters(n, c), Holders(s.nodes.Keys, h, l, n.term, c));
  }

  /** The sender of an AppendEntries has in its log what the receiver has committed. */
  lemma SenderHasCommitted(s: Cluster, h: History, l: Ledger, m: Move)
    requires ElectionsTrue(s, h) && LeadersElected(s, h) && AppendsTrue(s, h) && LeadersStood(h, l) && VotesKeep(h, l)
    requires Enabled(s, m) && Admits(s.nodes[m.id], m.action) && NodeSafe(s.nodes.Keys, h, l, s.nodes[m.id])
    ensures m.action.msg.term in h.logs
    ensures s.nodes[m.id].log[..s.nodes[m.id].commitIndex] <= h.logs[m.action.msg.term]
  {
    var n, msg := s.nodes[m.id], m.action.msg;
    assert Envelope(m.id, msg) in s.network && Envelope(m.id, msg).msg.AppendEntries?;
    SafeInLeader(s, h, l, n.log[..n.commitIndex], n.term, msg.term);
  }

  lemma GrowsOrAdmits(n: Node, a: Action, n': Node)
    requires Steady(n, n') && LogEffect(n, a, n')
    ensures n.log <= n'.log || Admits(n, a)
  {
  }

  lemma PrefixOfPrefix(p: seq<Entry>, log: seq<Entry>, c: nat)
    requires c <= |log| && log <= p
    ensures log[..c] <= p
  {
  }

  /** What a node has committed survives whatever happens to its log. */
  lemma StepKeepsSafe(s: Cluster, h: History, l: Ledger, m: Move, n': Node)
    requires Wired(s) && ElectionsTrue(s, h) && LogInv(s, h) && LeadersStood(h, l) && VotesKeep(h, l)
    requires Acts(s, m, n') && NodeSafe(s.nodes.Keys, h, l, s.nodes[m.id])
    ensures s.nodes[m.id].log[..s.nodes[m.id].commitIndex] <= n'.log
  {
    var n := s.nodes[m.id];
    GrowsOrAdmits(n, m.action, n');
    if Admits(n, m.action) {
      SenderHasCommitted(s, h, l, m);
      AdmittedKeeps(s, h, m, n', n.log[..n.commitIndex]);
    } else {
      PrefixOfPrefix(n'.log, n.log, n.commitIndex);
    }
  }

  /** The last index that a message vouches for, as the code takes it, is inside the merged log. */
  lemma LastNewInside(s: Cluster, h: History, m: Move, n': Node)
    requires LogsBacked(s, h) && AppendsTrue(s, h) && Acts(s, m, n') && Admits(s.nodes[m.id], m.action)
    ensures LastNew(s.nodes[m.id], m.action.msg) <= |n'.log|
    ensures m.action.msg.entries == [] ==> LastNew(s.nodes[m.id], m.action.msg) == |s.nodes[m.id].log|
    ensures var msg := m.action.msg; msg.entries != [] ==>
              LastNew(s.nodes[m.id], msg) == msg.prevIndex + |msg.entries|
  {
    var n, msg := s.nodes[m.id], m.action.msg;
    assert Envelope(m.id, msg) in s.network && Envelope(m.id, msg).msg.AppendEntries?;
    AcceptedLog(n.log, h.logs[msg.term], h.logs, msg.prevIndex, msg.prevTerm, msg.entries);
    BackedIndices(h.logs[msg.term], h.logs);
  }

  /** A prefix of the sender's log is safe up to the commit index that the sender announces. */
  lemma TakesOver(nodes: set<NodeId>, h: History, l: Ledger, msg: Message, log: seq<Entry>, c: nat)
    requires msg.AppendEntries? && AnnouncesSafe(nodes, h, l, msg)
    requires log <= h.logs[msg.term] && c <= |log| && c <= msg.leaderCommit
    ensures Safe(nodes, h, l, log[..c], msg.term)
  {
    var leader := h.logs[msg.term];
    assert log[..c] == leader[..c];
    SafeStays(nodes, h, l, h, l, leader[..msg.leaderCommit], msg.term, log[..c], msg.term);
  }

  /** A follower that takes over the announced commit index takes over a committed prefix, and does
      not go back. */
  lemma FollowerCommits(s: Cluster, h: History, l: Ledger, m: Move, n': Node)
    requires LogsBacked(s, h) && AppendsTrue(s, h) && MessagesSafe(s, h, l) && Acts(s, m, n')
    requires SetsCommit(s.nodes[m.id], m.action) && VouchedStep(s.nodes[m.id], m.action)
    requires s.nodes[m.id].commitIndex <= |s.nodes[m.id].log|
    ensures var n, c := s.nodes[m.id], Min(m.action.msg.leaderCommit, LastNew(s.nodes[m.id], m.action.msg));
            && n.commitIndex <= c <= |n'.log|
            && Safe(s.nodes.Keys, h, l, n'.log[..c], n'.term)
  {
    var n, msg := s.nodes[m.id], m.action.msg;
    var c := Min(msg.leaderCommit, LastNew(n, msg));
    assert Envelope(m.id, msg) in s.network && Envelope(m.id, msg).msg.AppendEntries?;
    assert AnnouncesSafe(s.nodes.Keys, h, l, msg);
    LastNewInside(s, h, m, n');
    AdmittedPrefix(s, h, m, n');
    TakesOver(s.nodes.Keys, h, l, msg, n'.log, c);
  }

  lemma AdmittedPrefix(s: Cluster, h: History, m: Move, n': Node)
    requires LogsBacked(s, h) && AppendsTrue(s, h) && Acts(s, m, n')
    requires Admits(s.nodes[m.id], m.action) && VouchedStep(s.nodes[m.id], m.action)
    ensures m.action.msg.term in h.logs && n'.term == m.action.msg.term && n'.log <= h.logs[m.action.msg.term]
  {
    assert Envelope(m.id, m.action.msg) in s.network && Envelope(m.id, m.action.msg).msg.AppendEntries?;
    AdmittedBacked(s, h, m, n');
    VouchedIsPrefix(s, h, m, n');
  }

  lemma NodeStaysSafe(nodes: set<NodeId>, h: History, l: Ledger, h': History, l': Ledger, n: Node)
    requires NodeSafe(nodes, h, l, n) && Extends(h, h') && Grows(l, l')
    ensures NodeSafe(nodes, h', l', n)
  {
    SafeStays(nodes, h, l, h', l', n.log[..n.commitIndex], n.term, n.log[..n.commitIndex], n.term);
  }

  /** A step that leaves the commit index alone leaves the committed prefix alone. */
  lemma QuietStepsSafely(nodes: set<NodeId>, h: History, l: Ledger, h': History, l': Ledger, n: Node, n': Node)
    requires NodeSafe(nodes, h, l, n) && Extends(h, h') && Grows(l, l')
    requires n'.commitIndex == n.commitIndex && n'.lastApplied == n.lastApplied && n.term <= n'.term
    requires n.log[..n.commitIndex] <= n'.log
    ensures NodeSafe(nodes, h', l', n')
  {
    assert n'.log[..n'.commitIndex] == n.log[..n.commitIndex];
    SafeStays(nodes, h, l, h', l', n.log[..n.commitIndex], n.term, n'.log[..n.commitIndex], n'.term);
  }

  lemma LeaderStepsSafely(s: Cluster, h: History, l: Ledger, i: NodeId)
    requires Wired(s) && LeadersElected(s, h) && MatchesHeld(s, l) && i in s.nodes && s.nodes[i].role == Leader
    requires var n := s.nodes[i];
             1 <= n.commitIndex <= |n.log| && Committable(n, n.commitIndex) && n.lastApplied == n.commitIndex
    ensures NodeSafe(s.nodes.Keys, h, l, s.nodes[i])
  {
    var n := s.nodes[i];
    LeaderCommits(s, h, l, i, n.commitIndex);
    assert Committed(s.nodes.Keys, h, l, n.term, n.commitIndex);
  }

  lemma FollowerStepsSafely(s: Cluster, h: History, l: Ledger, h': History, l': Ledger, m: Move, n': Node)
    requires LogsBacked(s, h) && AppendsTrue(s, h) && MessagesSafe(s, h, l) && Acts(s, m, n')
    requires SetsCommit(s.nodes[m.id], m.action) && VouchedStep(s.nodes[m.id], m.action)
    requires Extends(h, h') && Grows(l, l') && NodeSafe(s.nodes.Keys, h, l, s.nodes[m.id])
    ensures s.nodes[m.id].commitIndex <= n'.commitIndex && NodeSafe(s.nodes.Keys, h', l', n')
  {
    FollowerCommits(s, h, l, m, n');
    NodeStaysSafe(s.nodes.Keys, h, l, h', l', n');
  }

  /** The stepping node: its commit index does not go back, and covers a committed prefix. */
  lemma StepsSafely(s: Cluster, h: History, l: Ledger, m: Move, n': Node, s': Cluster, h': History, l': Ledger)
    requires LogsBacked(s, h) && AppendsTrue(s, h) && MessagesSafe(s, h, l) && Acts(s, m, n')
    requires NodeSafe(s.nodes.Keys, h, l, s.nodes[m.id]) && VouchedStep(s.nodes[m.id], m.action)
    requires s' == Update(s, m.id, n') && Extends(h, h') && Grows(l, l')
    requires Wired(s') && LeadersElected(s', h') && MatchesHeld(s', l')
    requires s.nodes[m.id].log[..s.nodes[m.id].commitIndex] <= n'.log
    ensures s.nodes[m.id].commitIndex <= n'.commitIndex
    ensures NodeSafe(s.nodes.Keys, h', l', n')
  {
    var n := s.nodes[m.id];
    assert s'.nodes.Keys == s.nodes.Keys && s'.nodes[m.id] == n';
    if SetsCommit(n, m.action) {
      FollowerStepsSafely(s, h, l, h', l', m, n');
    } else if n'.commitIndex == n.commitIndex && n'.lastApplied == n.lastApplied {
      QuietStepsSafely(s.nodes.Keys, h, l, h', l', n, n');
    } else {
      LeaderStepsSafely(s', h', l', m.id);
    }
  }

  /** What a safe leader sends is safe. */
  lemma SendsSafely(nodes: set<NodeId>, h: History, l: Ledger, n: Node, next: nat)
    requires NodeSafe(nodes, h, l, n) && n.term in h.logs && h.logs[n.term] == n.log && Backed(n.log, h.logs)
    ensures AnnouncesSafe(nodes, h, l, AppendMessage(n, next))
  {
    BackedIndices(n.log, h.logs);
    EntriesFromSuffix(n.log, next);
  }

  lemma AnnounceStays(nodes: set<NodeId>, h: History, l: Ledger, h': History, l': Ledger, msg: Message)
    requires msg.AppendEntries? && AnnouncesSafe(nodes, h, l, msg) && Extends(h, h') && Grows(l, l')
    ensures AnnouncesSafe(nodes, h', l', msg)
  {
    var c := msg.leaderCommit;
    assert h'.logs[msg.term][..c] == h.logs[msg.term][..c];
    SafeStays(nodes, h, l, h', l', h.logs[msg.term][..c], msg.term, h'.logs[msg.term][..c], msg.term);
  }

  lemma KeepsMessages(s: Cluster, h: History, l: Ledger, m: Move, n': Node)
    requires Posted(s) && MessagesSafe(s, h, l) && Acts(s, m, n')
    requires var n := s.nodes[m.id];
             var s', h', l' := Update(s, m.id, n'), Record(h, n, n'), Note(l, n, m.action, n');
             Inv(s', h') && Extends(h, h') && Grows(l, l') && NodeSafe(s.nodes.Keys, h', l', n')
    ensures MessagesSafe(Update(s, m.id, n'), Record(h, s.nodes[m.id], n'), Note(l, s.nodes[m.id], m.action, n'))
  {
    var n, nodes := s.nodes[m.id], s.nodes.Keys;
    var s', h', l' := Update(s, m.id, n'), Record(h, n, n'), Note(l, n, m.action, n');
    assert s'.nodes.Keys == nodes && s'.nodes[m.id] == n';
    forall e | e in s'.network && e.msg.AppendEntries?
      ensures AnnouncesSafe(nodes, h', l', e.msg)
    {
      if e in s.network {
        AnnounceStays(nodes, h, l, h', l', e.msg);
      } else {
        assert e !in n.outbox && Sent(n, m.action, n', e);
        var next: nat :| e.msg == AppendMessage(n', next);
        SendsSafely(nodes, h', l', n', next);
      }
    }
  }

  lemma KeepsNodesSafe(s: Cluster, h: History, l: Ledger, i: NodeId, n': Node, h': History, l': Ledger)
    requires NodesSafe(s, h, l) && Extends(h, h') && Grows(l, l')
    requires i in s.nodes && NodeSafe(s.nodes.Keys, h', l', n')
    ensures NodesSafe(Update(s, i, n'), h', l')
  {
    var s' := Update(s, i, n');
    assert s'.nodes.Keys == s.nodes.Keys;
    forall k | k in s'.nodes
      ensures NodeSafe(s'.nodes.Keys, h', l', s'.nodes[k])
    {
      if k != i {
        NodeStaysSafe(s.nodes.Keys, h, l, h', l', s.nodes[k]);
      }
    }
  }

  lemma KeepsCommitInv(s: Cluster, h: History, l: Ledger, m: Move, n': Node, s': Cluster, h': History, l': Ledger)
    requires Inv(s, h) && LeadersStood(h, l) && AnswersTrue(s, l) && HeldTrue(s, h, l) && VotesKeep(h, l)
    requires CommitInv(s, h, l) && Acts(s, m, n') && VouchedStep(s.nodes[m.id], m.action)
    requires s' == Update(s, m.id, n') && h' == Record(h, s.nodes[m.id], n')
    requires l' == Note(l, s.nodes[m.id], m.action, n')
    requires Inv(s', h') && Extends(h, h') && Grows(l, l')
    ensures CommitInv(s', h', l')
    ensures s.nodes[m.id].commitIndex <= n'.commitIndex
    ensures s.nodes[m.id].log[..s.nodes[m.id].commitIndex] <= n'.log
  {
    KeepsMatches(s, h, l, m, n');
    StepKeepsSafe(s, h, l, m, n');
    StepsSafely(s, h, l, m, n', s', h', l');
    KeepsMessages(s, h, l, m, n');
    KeepsNodesSafe(s, h, l, m.id, n', h', l');
  }

  /** The invariant is kept by every vouched step, and the commit index does not go back. */
  lemma KeepsFullInv(s: Cluster, h: History, l: Ledger, m: Move, n': Node, s': Cluster, h': History, l': Ledger)
    requires FullInv(s, h, l) && Acts(s, m, n') && VouchedStep(s.nodes[m.id], m.action)
    requires s' == Update(s, m.id, n') && h' == Record(h, s.nodes[m.id], n')
    requires l' == Note(l, s.nodes[m.id], m.action, n')
    ensures FullInv(s', h', l') && Extends(h, h') && Grows(l, l')
    ensures s.nodes[m.id].commitIndex <= n'.commitIndex
    ensures s.nodes[m.id].log[..s.nodes[m.id].commitIndex] <= n'.log
  {
    KeepsInv(s, h, m, n');
    NoteGrows(s, h, l, m, n');
    KeepsBallotInv(s, h, l, m, n');
    KeepsHeldInv(s, h, l, m, n');
    KeepsCommitInv(s, h, l, m, n', s', h', l');
  }

  // ---------------------------------------------------------------- runs

  ghost function LedgerAt(states: seq<Cluster>, moves: seq<Move>, k: nat): Ledger
    requires Run(states, moves) && k <= |moves|
  {
    if k == 0 then Ledger(map[], map[])
    else
      assert Enabled(states[k - 1], moves[k - 1]);
      Note(LedgerAt(states, moves, k - 1), states[k - 1].nodes[moves[k - 1].id], moves[k - 1].action,
           states[k].nodes[moves[k - 1].id])
  }

  lemma LedgerStep(states: seq<Cluster>, moves: seq<Move>, k: nat)
    requires Run(states, moves) && k < |moves|
    ensures moves[k].id in states[k].nodes && moves[k].id in states[k + 1].nodes
    ensures Acts(states[k], moves[k], states[k + 1].nodes[moves[k].id])
    ensures LedgerAt(states, moves, k + 1)
         == Note(LedgerAt(states, moves, k), states[k].nodes[moves[k].id], moves[k].action,
                 states[k + 1].nodes[moves[k].id])
  {
    HistoryStep(states, moves, k);
    StepProgress(states[k].nodes[moves[k].id], moves[k].action);
  }

  lemma StartInv(states: seq<Cluster>, moves: seq<Move>)
    requires Run(states, moves)
    ensures FullInv(states[0], HistoryAt(states, moves, 0), LedgerAt(states, moves, 0))
  {
    RunInv(states, moves, 0);
    StartBallots(states[0]);
    assert forall i :: i in states[0].nodes ==> states[0].nodes[i] == InitialNode(i, states[0].nodes[i].peers);
  }

  lemma StartBallots(s: Cluster)
    requires Initial(s)
    ensures BallotInv(s, History(map[], map[], map[]), Ledger(map[], map[]))
  {
    assert forall i :: i in s.nodes ==> s.nodes[i] == InitialNode(i, s.nodes[i].peers);
  }

  /** Ballots are true in every run, vouched for or not. */
  lemma {:induction false} RunBallots(states: seq<Cluster>, moves: seq<Move>, k: nat)
    requires Run(states, moves) && k <= |moves|
    ensures Inv(states[k], HistoryAt(states, moves, k))
    ensures BallotInv(states[k], HistoryAt(states, moves, k), LedgerAt(states, moves, k))
  {
    RunInv(states, moves, k);
    if k == 0 {
      StartBallots(states[0]);
    } else {
      RunBallots(states, moves, k - 1);
      HistoryStep(states, moves, k - 1);
      LedgerStep(states, moves, k - 1);
      KeepsBallotInv(states[k - 1], HistoryAt(states, moves, k - 1), LedgerAt(states, moves, k - 1), moves[k - 1],
                     states[k].nodes[moves[k - 1].id]);
    }
  }

  lemma StepGrows(states: seq<Cluster>, moves: seq<Move>, k: nat)
    requires Run(states, moves) && k < |moves|
    ensures Grows(LedgerAt(states, moves, k), LedgerAt(states, moves, k + 1))
  {
    RunBallots(states, moves, k);
    LedgerStep(states, moves, k);
    NoteGrows(states[k], HistoryAt(states, moves, k), LedgerAt(states, moves, k), moves[k],
              states[k + 1].nodes[moves[k].id]);
  }

  lemma GrowsFurther(l: Ledger, l': Ledger, l'': Ledger)
    requires Grows(l, l') && Grows(l', l'')
    ensures Grows(l, l'')
  {
  }

  lemma {:induction false} BallotsGrow(states: seq<Cluster>, moves: seq<Move>, i: nat, j: nat)
    requires Run(states, moves) && i <= j <= |moves|
    ensures Grows(LedgerAt(states, moves, i), LedgerAt(states, moves, j))
    decreases j
  {
    if i < j {
      BallotsGrow(states, moves, i, j - 1);
      StepGrows(states, moves, j - 1);
      GrowsFurther(LedgerAt(states, moves, i), LedgerAt(states, moves, j - 1), LedgerAt(states, moves, j));
    }
  }

  // ---------------------------------------------------------------- the guard is exact

  /** A log that was merged with a message is a prefix of the term's log only if the message vouches
      for it: whatever the leader appends later is of its own term. */
  lemma PrefixIsVouched(s: Cluster, h: History, m: Move, n': Node, base: seq<Entry>, leader: seq<Entry>)
    requires Acts(s, m, n') && Admits(s.nodes[m.id], m.action)
    requires GrownFrom(base, leader, m.action.msg.term)
    requires |base| <= m.action.msg.prevIndex + |m.action.msg.entries| <= |n'.log|
    requires n'.log <= leader
    ensures Vouched(s.nodes[m.id], m.action.msg)
  {
  }

  /** The message of an admitted step, against the log of its term at any later moment. */
  lemma VouchedByRecord(states: seq<Cluster>, moves: seq<Move>, k: nat, j: nat)
    requires Run(states, moves) && k < |moves| && k <= j <= |moves| && moves[k].id in states[k].nodes
    requires Admits(states[k].nodes[moves[k].id], moves[k].action)
    ensures moves[k].action.msg.term in HistoryAt(states, moves, j).logs
    ensures Vouched(states[k].nodes[moves[k].id], moves[k].action.msg)
       <==> NodeStep(states[k].nodes[moves[k].id], moves[k].action).log
              <= HistoryAt(states, moves, j).logs[moves[k].action.msg.term]
  {
    var m, h, l := moves[k], HistoryAt(states, moves, k), LedgerAt(states, moves, k);
    var n', msg := NodeStep(states[k].nodes[m.id], m.action), m.action.msg;
    var h', l' := HistoryAt(states, moves, j), LedgerAt(states, moves, j);
    RunBallots(states, moves, k);
    RunBallots(states, moves, j);
    RunExtends(states, moves, k, j);
    BallotsGrow(states, moves, k, j);
    LedgerStep(states, moves, k);
    AdmittedReach(states[k], h, l, m, n');
    BaseStays(h, l, h', l', msg.term);
    assert GrownFrom(l'.ballots[(msg.term, h'.elected[msg.term].leader)], h'.logs[msg.term], msg.term);
    if Vouched(states[k].nodes[m.id], msg) {
      AdmittedPrefix(states[k], h, m, n');
    } else if n'.log <= h'.logs[msg.term] {
      PrefixIsVouched(states[k], h, m, n', Base(h', l', msg.term), h'.logs[msg.term]);
    }
  }

  lemma AdmittedReach(s: Cluster, h: History, l: Ledger, m: Move, n': Node)
    requires LogsBacked(s, h) && AppendsTrue(s, h) && AppendsReach(s, h, l) && Acts(s, m, n')
    requires Admits(s.nodes[m.id], m.action)
    ensures var msg := m.action.msg;
            && msg.term in h.logs && msg.term in h.elected
            && |Base(h, l, msg.term)| <= msg.prevIndex + |msg.entries| <= |n'.log|
  {
    var n, msg := s.nodes[m.id], m.action.msg;
    assert Envelope(m.id, msg) in s.network && Envelope(m.id, msg).msg.AppendEntries?;
    AcceptedLog(n.log, h.logs[msg.term], h.logs, msg.prevIndex, msg.prevTerm, msg.entries);
    if msg.prevIndex > 0 {
      assert BackedAt(n.log, h.logs, msg.prevIndex - 1);
    }
    assert ReachesBase(h, l, msg);
  }

  /** The guard is exact for the report: what an admitted AppendEntries leaves, and reports as matched,
      is a prefix of a log that the sender holds as leader of that term, at some moment of the run, if
      and only if the message vouches for it. */
  lemma VouchedExactly(states: seq<Cluster>, moves: seq<Move>, k: nat)
    requires Run(states, moves) && k < |moves| && moves[k].id in states[k].nodes
    requires Admits(states[k].nodes[moves[k].id], moves[k].action)
    ensures Vouched(states[k].nodes[moves[k].id], moves[k].action.msg)
       <==> exists j :: 0 <= j < |states|
              && IsLeader(states[j], moves[k].action.msg.leader, moves[k].action.msg.term)
              && NodeStep(states[k].nodes[moves[k].id], moves[k].action).log
                   <= states[j].nodes[moves[k].action.msg.leader].log
  {
    var m, msg := moves[k], moves[k].action.msg;
    var log := NodeStep(states[k].nodes[m.id], m.action).log;
    VouchedByRecord(states, moves, k, k);
    VouchedByRecord(states, moves, k, |moves|);
    SenderLeads(states, moves, k);
    var j := LeaderLogWasHeld(states, moves, k, msg.term);
    forall i | 0 <= i < |states| && IsLeader(states[i], msg.leader, msg.term)
      ensures states[i].nodes[msg.leader].log <= HistoryAt(states, moves, |moves|).logs[msg.term]
    {
      LeaderInRecord(states, moves, i, msg.leader, msg.term);
    }
  }

  lemma LeaderInRecord(states: seq<Cluster>, moves: seq<Move>, i: nat, b: NodeId, term: nat)
    requires Run(states, moves) && i <= |moves| && IsLeader(states[i], b, term)
    ensures term in HistoryAt(states, moves, |moves|).logs
    ensures states[i].nodes[b].log <= HistoryAt(states, moves, |moves|).logs[term]
  {
    RunInv(states, moves, i);
    RunExtends(states, moves, i, |moves|);
  }

  lemma SenderLeads(states: seq<Cluster>, moves: seq<Move>, k: nat)
    requires Run(states, moves) && k < |moves| && moves[k].action.Receive? && moves[k].action.msg.AppendEntries?
    ensures var h, msg := HistoryAt(states, moves, k), moves[k].action.msg;
            msg.term in h.elected && msg.term in h.logs && h.elected[msg.term].leader == msg.leader
  {
    RunInv(states, moves, k);
    var m := moves[k];
    assert Enabled(states[k], m);
    assert Envelope(m.id, m.action.msg) in states[k].network && Envelope(m.id, m.action.msg).msg.AppendEntries?;
  }

  // ---------------------------------------------------------------- vouched runs

  /** A run in which no admitted AppendEntries leaves a tail that it does not vouch for. */
  ghost predicate VouchedRun(states: seq<Cluster>, moves: seq<Move>) {
    && Run(states, moves)
    && forall k :: 0 <= k < |moves| && moves[k].id in states[k].nodes ==>
         VouchedStep(states[k].nodes[moves[k].id], moves[k].action)
  }

  lemma {:induction false} RunFullInv(states: seq<Cluster>, moves: seq<Move>, k: nat)
    requires VouchedRun(states, moves) && k <= |moves|
    ensures FullInv(states[k], HistoryAt(states, moves, k), LedgerAt(states, moves, k))
  {
    if k == 0 {
      StartInv(states, moves);
    } else {
      RunFullInv(states, moves, k - 1);
      StepFullInv(states, moves, k - 1);
    }
  }

  /** One step of a vouched run. */
  lemma StepFullInv(states: seq<Cluster>, moves: seq<Move>, k: nat)
    requires VouchedRun(states, moves) && k < |moves|
    requires FullInv(states[k], HistoryAt(states, moves, k), LedgerAt(states, moves, k))
    ensures FullInv(states[k + 1], HistoryAt(states, moves, k + 1), LedgerAt(states, moves, k + 1))
    ensures Extends(HistoryAt(states, moves, k), HistoryAt(states, moves, k + 1))
    ensures Grows(LedgerAt(states, moves, k), LedgerAt(states, moves, k + 1))
    ensures moves[k].id in states[k].nodes && moves[k].id in states[k + 1].nodes
    ensures var n, n' := states[k].nodes[moves[k].id], states[k + 1].nodes[moves[k].id];
            n.commitIndex <= |n.log| && n.commitIndex <= n'.commitIndex && n.log[..n.commitIndex] <= n'.log
  {
    HistoryStep(states, moves, k);
    LedgerStep(states, moves, k);
    KeepsFullInv(states[k], HistoryAt(states, moves, k), LedgerAt(states, moves, k), moves[k],
                 states[k + 1].nodes[moves[k].id], states[k + 1],
                 HistoryAt(states, moves, k + 1), LedgerAt(states, moves, k + 1));
  }

  /** What a node has committed at some moment is safe on the record of the whole run. */
  lemma SafeInRun(states: seq<Cluster>, moves: seq<Move>, i: nat, a: NodeId)
    requires VouchedRun(states, moves) && i <= |moves| && a in states[i].nodes
    ensures states[|moves|].nodes.Keys == states[i].nodes.Keys
    ensures var n := states[i].nodes[a];
            && n.lastApplied == n.commitIndex <= |n.log|
            && Safe(states[|moves|].nodes.Keys, HistoryAt(states, moves, |moves|), LedgerAt(states, moves, |moves|),
                    n.log[..n.commitIndex], n.term)
  {
    var k := |moves|;
    var h, l := HistoryAt(states, moves, i), LedgerAt(states, moves, i);
    RunFullInv(states, moves, i);
    RunExtends(states, moves, i, k);
    BallotsGrow(states, moves, i, k);
    SameNodes(states, moves, i);
    SameNodes(states, moves, k);
    assert NodeSafe(states[i].nodes.Keys, h, l, states[i].nodes[a]);
    NodeStaysSafe(states[i].nodes.Keys, h, l, HistoryAt(states, moves, k), LedgerAt(states, moves, k),
                  states[i].nodes[a]);
  }

  lemma {:induction false} SameNodes(states: seq<Cluster>, moves: seq<Move>, k: nat)
    requires Run(states, moves) && k <= |moves|
    ensures states[k].nodes.Keys == states[0].nodes.Keys
  {
    if k > 0 {
      SameNodes(states, moves, k - 1);
      assert Enabled(states[k - 1], moves[k - 1]) && states[k] == Next(states[k - 1], moves[k - 1]);
    }
  }

  // ---------------------------------------------------------------- the theorems

  lemma SafeInBase(s: Cluster, h: History, l: Ledger, log: seq<Entry>, term: nat, t': nat)
    requires ElectionsTrue(s, h) && VotesKeep(h, l)
    requires Safe(s.nodes.Keys, h, l, log, term) && term < t' && t' in h.elected
    ensures log <= Base(h, l, t')
  {
    if log != [] {
      var t: nat, k: nat :| t <= term && Committed(s.nodes.Keys, h, l, t, k) && log <= h.logs[t][..k];
      LaterBaseHas(s, h, l, t, k, t');
    }
  }

  /** A leader's log begins with the log with which its term was won. */
  lemma BaseInLeader(states: seq<Cluster>, moves: seq<Move>, j: nat, b: NodeId, term: nat)
    requires VouchedRun(states, moves) && j <= |moves| && IsLeader(states[j], b, term)
    ensures term in HistoryAt(states, moves, |moves|).elected
    ensures Base(HistoryAt(states, moves, |moves|), LedgerAt(states, moves, |moves|), term) <= states[j].nodes[b].log
  {
    var h, l := HistoryAt(states, moves, j), LedgerAt(states, moves, j);
    RunFullInv(states, moves, j);
    RunExtends(states, moves, j, |moves|);
    BallotsGrow(states, moves, j, |moves|);
    BaseStays(h, l, HistoryAt(states, moves, |moves|), LedgerAt(states, moves, |moves|), term);
    assert GrownFrom(l.ballots[(term, h.elected[term].leader)], h.logs[term], term);
  }

  /** Leader Completeness: whatever some node's commit index covers in a term is in the log of every
      leader of a later term, at every moment at which it leads. */
  lemma LeaderCompleteness(states: seq<Cluster>, moves: seq<Move>, i: nat, j: nat, a: NodeId, b: NodeId, term: nat)
    requires VouchedRun(states, moves) && i < |states| && j < |states|
    requires a in states[i].nodes && IsLeader(states[j], b, term) && states[i].nodes[a].term < term
    ensures var n := states[i].nodes[a];
            n.commitIndex <= |n.log| && n.log[..n.commitIndex] <= states[j].nodes[b].log
  {
    var k, n := |moves|, states[i].nodes[a];
    SafeInRun(states, moves, i, a);
    BaseInLeader(states, moves, j, b, term);
    RunFullInv(states, moves, k);
    SafeInBase(states[k], HistoryAt(states, moves, k), LedgerAt(states, moves, k),
               n.log[..n.commitIndex], n.term, term);
  }

  /** What a vouched step does to any one node. */
  ghost predicate SafeStep(n: Node, n': Node) {
    && n.lastApplied == n.commitIndex <= |n.log|
    && n'.lastApplied == n'.commitIndex <= |n'.log|
    && n.commitIndex <= n'.commitIndex
    && n.log[..n.commitIndex] <= n'.log
  }

  lemma StepIsSafe(states: seq<Cluster>, moves: seq<Move>, k: nat, a: NodeId)
    requires VouchedRun(states, moves) && k < |moves| && a in states[k].nodes
    ensures a in states[k + 1].nodes && SafeStep(states[k].nodes[a], states[k + 1].nodes[a])
  {
    SameNodes(states, moves, k);
    SameNodes(states, moves, k + 1);
    SafeInRun(states, moves, k, a);
    SafeInRun(states, moves, k + 1, a);
    assert Enabled(states[k], moves[k]) && states[k + 1] == Next(states[k], moves[k]);
    if moves[k].id == a {
      RunFullInv(states, moves, k);
      StepFullInv(states, moves, k);
    }
  }

  /** The commit index of a node never goes back, and what it covers never changes. */
  lemma {:induction false} CommitNeverGoesBack(states: seq<Cluster>, moves: seq<Move>, i: nat, j: nat, a: NodeId)
    requires VouchedRun(states, moves) && i <= j < |states| && a in states[i].nodes
    ensures a in states[j].nodes
    ensures var n, n' := states[i].nodes[a], states[j].nodes[a];
            && n.commitIndex <= |n.log| && n.commitIndex <= n'.commitIndex <= |n'.log|
            && n.log[..n.commitIndex] <= n'.log[..n'.commitIndex]
    decreases j
  {
    if i < j {
      CommitNeverGoesBack(states, moves, i, j - 1, a);
      StepIsSafe(states, moves, j - 1, a);
    } else {
      SafeInRun(states, moves, i, a);
    }
  }

  lemma EmitsNext(n: Node, a: Action)
    requires EmitsStretch(n, a) && SafeStep(n, NodeStep(n, a))
    ensures var n' := NodeStep(n, a); n.log[..n.commitIndex] + Emitted(n, a) == n'.log[..n'.commitIndex]
  {
  }

  lemma StreamStep(states: seq<Cluster>, moves: seq<Move>, k: nat, a: NodeId)
    requires VouchedRun(states, moves) && k < |moves| && a in states[k].nodes
    ensures a in states[k + 1].nodes && SafeStep(states[k].nodes[a], states[k + 1].nodes[a])
    ensures var n, n' := states[k].nodes[a], states[k + 1].nodes[a];
            n'.log[..n'.commitIndex]
              == n.log[..n.commitIndex] + if moves[k].id == a then Emitted(n, moves[k].action) else []
  {
    StepIsSafe(states, moves, k, a);
    assert Enabled(states[k], moves[k]) && states[k + 1] == Next(states[k], moves[k]);
    if moves[k].id == a {
      RunInv(states, moves, k);
      StepEmits(states[k], HistoryAt(states, moves, k), moves[k]);
      EmitsNext(states[k].nodes[a], moves[k].action);
    }
  }

  /** What a node has applied is what its commit index covers. */
  lemma {:induction false} StreamIsCommitted(states: seq<Cluster>, moves: seq<Move>, k: nat, a: NodeId)
    requires VouchedRun(states, moves) && k <= |moves| && a in states[0].nodes
    ensures a in states[k].nodes && states[k].nodes[a].commitIndex <= |states[k].nodes[a].log|
    ensures Stream(states, moves, k, a) == states[k].nodes[a].log[..states[k].nodes[a].commitIndex]
  {
    if k == 0 {
      SafeInRun(states, moves, 0, a);
    } else {
      StreamIsCommitted(states, moves, k - 1, a);
      StreamStep(states, moves, k - 1, a);
    }
  }

  /** What two nodes have committed, at any two moments, agrees as far as both go. */
  lemma CommittedAgree(states: seq<Cluster>, moves: seq<Move>, i: nat, j: nat, a: NodeId, b: NodeId)
    requires VouchedRun(states, moves) && i <= |moves| && j <= |moves|
    requires a in states[i].nodes && b in states[j].nodes
    ensures var n, n' := states[i].nodes[a], states[j].nodes[b];
            && n.commitIndex <= |n.log| && n'.commitIndex <= |n'.log|
            && (n.log[..n.commitIndex] <= n'.log[..n'.commitIndex]
                || n'.log[..n'.commitIndex] <= n.log[..n.commitIndex])
  {
    var k, n, n' := |moves|, states[i].nodes[a], states[j].nodes[b];
    SafeInRun(states, moves, i, a);
    SafeInRun(states, moves, j, b);
    RunFullInv(states, moves, k);
    SafeAgree(states[k], HistoryAt(states, moves, k), LedgerAt(states, moves, k),
              n.log[..n.commitIndex], n'.log[..n'.commitIndex], n.term, n'.term);
  }

  /** State Machine Safety: what any two nodes have applied, at any two moments, agrees as far as both
      go. */
  lemma StateMachineSafety(states: seq<Cluster>, moves: seq<Move>, i: nat, j: nat, a: NodeId, b: NodeId)
    requires VouchedRun(states, moves) && i <= |moves| && j <= |moves| && a in states[0].nodes && b in states[0].nodes
    ensures var x, y := Stream(states, moves, i, a), Stream(states, moves, j, b); x <= y || y <= x
  {
    StreamIsCommitted(states, moves, i, a);
    StreamIsCommitted(states, moves, j, b);
    CommittedAgree(states, moves, i, j, a, b);
  }
}
