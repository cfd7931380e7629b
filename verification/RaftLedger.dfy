/** Ballots and holdings of a Raft run. */
module RaftLedger {
  /* Who stood for election with which log, and how much of a leader's log each node has held. The
     ledger is kept beside a run like the history of RaftCluster.dfy. Its invariants are the
     induction behind Leader Completeness: what a node has held of a term's log it still has, or a
     later term was won without it; and the same is true of every log that it has voted for.

     An AppendEntries is answered with the length of the follower's whole log. The invariants need
     every such answer to be true, so each step that admits an AppendEntries must be `Vouched`. */

  import opened Collections
  import opened Options
  import opened RaftNode
  import opened RaftEffects
  import opened RaftCluster

  datatype Ledger = Ledger(ballots: map<(nat, NodeId), seq<Entry>>, held: map<(nat, NodeId), nat>)

  /** The log with which a node stood for election in a term. */
  function Ballot(l: Ledger, term: nat, node: NodeId): seq<Entry> {
    if (term, node) in l.ballots then l.ballots[(term, node)] else []
  }

  /** How many entries of a term's log a node has held in that term. */
  function Held(l: Ledger, term: nat, node: NodeId): nat {
    if (term, node) in l.held then l.held[(term, node)] else 0
  }

  function Max(a: nat, b: nat): nat {
    if a >= b then a else b
  }

  predicate Stands(n: Node, n': Node) {
    n'.role != Follower && n'.term != n.term
  }

  predicate Holds(n: Node, a: Action, n': Node) {
    n'.role == Leader || Admits(n, a)
  }

  function Note(l: Ledger, n: Node, a: Action, n': Node): Ledger {
    Ledger(
      if Stands(n, n') then l.ballots[(n'.term, n'.id) := n'.log] else l.ballots,
      if Holds(n, a, n') then l.held[(n'.term, n'.id) := Max(Held(l, n'.term, n'.id), |n'.log|)] else l.held)
  }

  // ---------------------------------------------------------------- the guard

  /** After the merge the log ends where the message ends, or with an entry of the message's term:
      no tail is left that the message does not vouch for. */
  predicate Vouched(n: Node, msg: Message)
    requires msg.AppendEntries?
  {
    var log := Merge(n.log, msg.entries);
    |log| == msg.prevIndex + |msg.entries| || LastTerm(log) == msg.term
  }

  predicate VouchedStep(n: Node, a: Action) {
    Admits(n, a) ==> Vouched(n, a.msg)
  }

  ghost predicate Acts(s: Cluster, m: Move, n': Node) {
    Steps(s, m, n') && Progress(s.nodes[m.id], m.action, n')
  }

  // ---------------------------------------------------------------- terms along a log

  ghost predicate Below(log: seq<Entry>, term: nat) {
    forall k :: 0 <= k < |log| ==> log[k].term < term
  }

  ghost predicate TermsTrue(s: Cluster, h: History) {
    && (forall i :: i in s.nodes ==> Below(s.nodes[i].log, s.nodes[i].term + 1))
    && (forall t :: t in h.logs ==> Below(h.logs[t], t + 1))
  }

  /** A leader appends entries of its own term to the log with which it was elected. */
  ghost predicate GrownFrom(base: seq<Entry>, log: seq<Entry>, term: nat) {
    base <= log && forall k :: |base| <= k < |log| ==> log[k].term == term
  }

  lemma BackedOrdered(log: seq<Entry>, h: History, j: nat, k: nat)
    requires Backed(log, h.logs) && j <= k < |log|
    requires forall t :: t in h.logs ==> Below(h.logs[t], t + 1)
    ensures log[j].term <= log[k].term
  {
    assert BackedAt(log, h.logs, k);
    assert log[j] == log[..k + 1][j];
  }

  // ---------------------------------------------------------------- ballots

  /** A node stood with the log that it had, all of an earlier term. */
  ghost predicate StoodWith(s: Cluster, h: History, t: nat, c: NodeId, log: seq<Entry>) {
    c in s.nodes && t <= s.nodes[c].term && Backed(log, h.logs) && Below(log, t)
  }

  ghost predicate Stood(s: Cluster, h: History, l: Ledger) {
    && (forall t, c :: (t, c) in l.ballots ==> StoodWith(s, h, t, c, l.ballots[(t, c)]))
    && (forall i :: i in s.nodes && s.nodes[i].role == Candidate ==>
          (s.nodes[i].term, i) in l.ballots && l.ballots[(s.nodes[i].term, i)] == s.nodes[i].log)
  }

  /** What a vote request says of its sender's log is true of the log it stood with. */
  ghost predicate Asks(l: Ledger, msg: Message)
    requires msg.RequestVote?
  {
    && (msg.term, msg.candidate) in l.ballots
    && msg.lastLogIndex == LastIndex(l.ballots[(msg.term, msg.candidate)])
    && msg.lastLogTerm == LastTerm(l.ballots[(msg.term, msg.candidate)])
  }

  ghost predicate RequestsTrue(s: Cluster, l: Ledger) {
    forall e :: e in s.network && e.msg.RequestVote? ==> Asks(l, e.msg)
  }

  ghost predicate VotesStood(h: History, l: Ledger) {
    forall t, i :: (t, i) in h.votes ==> (t, h.votes[(t, i)]) in l.ballots
  }

  ghost predicate LeadersStood(h: History, l: Ledger) {
    forall t :: t in h.elected ==>
      && (t, h.elected[t].leader) in l.ballots
      && t in h.logs
      && GrownFrom(l.ballots[(t, h.elected[t].leader)], h.logs[t], t)
  }

  /** The log with which the winner of term t was elected. */
  function Base(h: History, l: Ledger, t: nat): seq<Entry> {
    if t in h.elected then Ballot(l, t, h.elected[t].leader) else []
  }

  /** An AppendEntries runs past the log with which its term was won, or cannot be admitted. */
  ghost predicate ReachesBase(h: History, l: Ledger, msg: Message)
    requires msg.AppendEntries?
  {
    || (msg.term in h.elected && |Base(h, l, msg.term)| <= msg.prevIndex + |msg.entries|)
    || (msg.prevIndex > 0 && msg.prevTerm == 0)
  }

  ghost predicate AppendsReach(s: Cluster, h: History, l: Ledger) {
    forall e :: e in s.network && e.msg.AppendEntries? ==> ReachesBase(h, l, e.msg)
  }

  // ---------------------------------------------------------------- holdings

  ghost predicate HeldTrue(s: Cluster, h: History, l: Ledger) {
    forall t, i :: (t, i) in l.held ==>
      i in s.nodes && t <= s.nodes[i].term && t in h.logs && l.held[(t, i)] <= |h.logs[t]|
  }

  /** A node that reports a match has held that much of the term's log. */
  ghost predicate AnswersTrue(s: Cluster, l: Ledger) {
    forall e :: e in s.network && e.msg.AppendEntriesResponse? && e.msg.success ==>
      (e.msg.term, e.msg.follower) in l.held && e.msg.matched <= l.held[(e.msg.term, e.msg.follower)]
  }

  /** Entry k of term t's log, counted from 1, is of term t, and node i has held it in term t. */
  ghost predicate Marked(h: History, l: Ledger, t: nat, i: NodeId, k: nat) {
    && t in h.logs && 1 <= k <= |h.logs[t]| && h.logs[t][k - 1].term == t
    && (t, i) in l.held && k <= l.held[(t, i)]
  }

  /** Some term strictly between the two was won without the prefix. */
  ghost predicate Lost(h: History, l: Ledger, prefix: seq<Entry>, from: nat, to: nat) {
    exists u :: from < u < to && u in h.elected && !(prefix <= Base(h, l, u))
  }

  ghost predicate Kept(h: History, l: Ledger, t: nat, k: nat, log: seq<Entry>, to: nat)
    requires t in h.logs && k <= |h.logs[t]|
  {
    h.logs[t][..k] <= log || Lost(h, l, h.logs[t][..k], t, to)
  }

  /** What a node has held it still has, unless a later term up to its own was won without it. */
  ghost predicate NodesKeep(s: Cluster, h: History, l: Ledger) {
    forall t, i, k :: Marked(h, l, t, i, k) ==>
      i in s.nodes && Kept(h, l, t, k, s.nodes[i].log, s.nodes[i].term + 1)
  }

  /** A vote that counts: nobody has won the term yet, or the voter is in the winner's quorum. */
  ghost predicate Counts(h: History, t: nat, i: NodeId) {
    (t, i) in h.votes && (t in h.elected ==> i in h.elected[t].quorum)
  }

  /** The log for which a node voted has what the voter had held, unless a term in between was won
      without it. */
  ghost predicate VotesKeep(h: History, l: Ledger) {
    forall t', i, t, k :: Counts(h, t', i) && t < t' && Marked(h, l, t, i, k) ==>
      Kept(h, l, t, k, Ballot(l, t', h.votes[(t', i)]), t')
  }

  // ---------------------------------------------------------------- the ledger only grows

  ghost predicate Grows(l: Ledger, l': Ledger) {
    && (forall c :: c in l.ballots ==> c in l'.ballots && l'.ballots[c] == l.ballots[c])
    && (forall c :: c in l.held ==> c in l'.held && l.held[c] <= l'.held[c])
  }

  lemma NoteGrows(s: Cluster, h: History, l: Ledger, m: Move, n': Node)
    requires Wired(s) && Stood(s, h, l) && Acts(s, m, n')
    ensures Grows(l, Note(l, s.nodes[m.id], m.action, n'))
  {
    var n := s.nodes[m.id];
    if Stands(n, n') && (n'.term, n'.id) in l.ballots {
      assert false;
    }
  }

  lemma StoodExtends(s: Cluster, h: History, t: nat, c: NodeId, log: seq<Entry>, s': Cluster, h': History)
    requires StoodWith(s, h, t, c, log) && Extends(h, h')
    requires c in s'.nodes && s.nodes[c].term <= s'.nodes[c].term
    ensures StoodWith(s', h', t, c, log)
  {
    BackedExtends(log, h, h');
  }

  lemma KeepsStood(s: Cluster, h: History, l: Ledger, m: Move, n': Node)
    requires Wired(s) && LogsBacked(s, h) && TermsTrue(s, h) && Stood(s, h, l) && Acts(s, m, n')
    requires Extends(h, Record(h, s.nodes[m.id], n'))
    ensures Stood(Update(s, m.id, n'), Record(h, s.nodes[m.id], n'), Note(l, s.nodes[m.id], m.action, n'))
  {
    var n := s.nodes[m.id];
    var s', h', l' := Update(s, m.id, n'), Record(h, n, n'), Note(l, n, m.action, n');
    NoteGrows(s, h, l, m, n');
    forall t, c | (t, c) in l'.ballots
      ensures StoodWith(s', h', t, c, l'.ballots[(t, c)])
    {
      if (t, c) in l.ballots {
        StoodExtends(s, h, t, c, l.ballots[(t, c)], s', h');
      } else {
        assert n'.log == n.log;
        BackedExtends(n.log, h, h');
      }
    }
    forall i | i in s'.nodes && s'.nodes[i].role == Candidate
      ensures (s'.nodes[i].term, i) in l'.ballots && l'.ballots[(s'.nodes[i].term, i)] == s'.nodes[i].log
    {
      if i != m.id {
        assert s'.nodes[i] == s.nodes[i];
      }
    }
  }

  lemma KeepsRequests(s: Cluster, h: History, l: Ledger, m: Move, n': Node)
    requires Wired(s) && Posted(s) && Stood(s, h, l) && RequestsTrue(s, l) && Acts(s, m, n')
    requires Stood(Update(s, m.id, n'), Record(h, s.nodes[m.id], n'), Note(l, s.nodes[m.id], m.action, n'))
    ensures RequestsTrue(Update(s, m.id, n'), Note(l, s.nodes[m.id], m.action, n'))
  {
    var n := s.nodes[m.id];
    var s', l' := Update(s, m.id, n'), Note(l, n, m.action, n');
    NoteGrows(s, h, l, m, n');
    assert s'.nodes[m.id] == n';
    forall e | e in s'.network && e.msg.RequestVote?
      ensures Asks(l', e.msg)
    {
      if e in s.network {
        assert Asks(l, e.msg);
      } else {
        assert e !in n.outbox && Sent(n, m.action, n', e);
      }
    }
  }

  lemma KeepsVotesStood(s: Cluster, h: History, l: Ledger, m: Move, n': Node)
    requires Wired(s) && VotesAgree(s, h) && Stood(s, h, l) && RequestsTrue(s, l) && VotesStood(h, l) && Acts(s, m, n')
    ensures VotesStood(Record(h, s.nodes[m.id], n'), Note(l, s.nodes[m.id], m.action, n'))
  {
    var n := s.nodes[m.id];
    var h', l' := Record(h, n, n'), Note(l, n, m.action, n');
    NoteGrows(s, h, l, m, n');
    forall t, i | (t, i) in h'.votes
      ensures (t, h'.votes[(t, i)]) in l'.ballots
    {
      if (t, i) != (n'.term, m.id) || (n'.term == n.term && n'.votedFor == n.votedFor) {
        VotesGrow(s, h, m, n', t, i);
        assert Vote(h, t, i) == Vote(h', t, i);
      } else if !(n'.role != Follower && n'.term == n.term + 1 && n'.votedFor == Some(n.id)) {
        assert Envelope(m.id, m.action.msg) in s.network && Envelope(m.id, m.action.msg).msg.RequestVote?;
        assert Asks(l, m.action.msg);
      }
    }
  }

  lemma KeepsTerms(s: Cluster, h: History, m: Move, n': Node)
    requires Wired(s) && LogsBacked(s, h) && AppendsTrue(s, h) && TermsTrue(s, h) && Acts(s, m, n')
    ensures TermsTrue(Update(s, m.id, n'), Record(h, s.nodes[m.id], n'))
  {
    var n := s.nodes[m.id];
    if n'.log != n.log && !m.action.Propose? {
      var msg := m.action.msg;
      assert Envelope(m.id, msg) in s.network && Envelope(m.id, msg).msg.AppendEntries?;
      AcceptedLog(n.log, h.logs[msg.term], h.logs, msg.prevIndex, msg.prevTerm, msg.entries);
    }
    assert Below(n'.log, n'.term + 1);
  }

  lemma KeepsLeadersStood(s: Cluster, h: History, l: Ledger, m: Move, n': Node)
    requires Wired(s) && LeadersElected(s, h) && Stood(s, h, l) && LeadersStood(h, l) && Acts(s, m, n')
    requires Fresh(h, s.nodes[m.id], n')
    ensures LeadersStood(Record(h, s.nodes[m.id], n'), Note(l, s.nodes[m.id], m.action, n'))
  {
    var n := s.nodes[m.id];
    var h', l' := Record(h, n, n'), Note(l, n, m.action, n');
    NoteGrows(s, h, l, m, n');
    KeepsLeaders(s, h, m, n');
    forall t | t in h'.elected
      ensures (t, h'.elected[t].leader) in l'.ballots && t in h'.logs
      ensures GrownFrom(l'.ballots[(t, h'.elected[t].leader)], h'.logs[t], t)
    {
      if t in h.elected {
        assert GrownFrom(l.ballots[(t, h.elected[t].leader)], h.logs[t], t);
        LogGrown(s, h, m, n', t, l.ballots[(t, h.elected[t].leader)]);
      } else {
        WinnerStood(s, h, l, m, n');
      }
    }
  }

  /** A leader's step appends an entry of its own term to its term's log, or nothing. */
  lemma LogGrown(s: Cluster, h: History, m: Move, n': Node, t: nat, base: seq<Entry>)
    requires Wired(s) && LeadersElected(s, h) && Acts(s, m, n') && Fresh(h, s.nodes[m.id], n')
    requires t in h.elected && t in h.logs && GrownFrom(base, h.logs[t], t)
    ensures var h' := Record(h, s.nodes[m.id], n'); t in h'.logs && GrownFrom(base, h'.logs[t], t)
  {
  }

  /** A new leader stood with the log that it has. */
  lemma WinnerStood(s: Cluster, h: History, l: Ledger, m: Move, n': Node)
    requires Wired(s) && Stood(s, h, l) && Acts(s, m, n') && NewlyLeader(s.nodes[m.id], n')
    ensures var l' := Note(l, s.nodes[m.id], m.action, n');
            (n'.term, m.id) in l'.ballots && l'.ballots[(n'.term, m.id)] == n'.log
  {
    assert s.nodes[m.id].id == m.id;
  }

  lemma SendsReach(h: History, l: Ledger, n: Node, next: nat)
    requires Backed(n.log, h.logs) && n.term in h.elected && Base(h, l, n.term) <= n.log
    ensures ReachesBase(h, l, AppendMessage(n, next))
  {
    BackedIndices(n.log, h.logs);
    EntriesFromSuffix(n.log, next);
  }

  lemma KeepsReach(s: Cluster, h: History, l: Ledger, m: Move, n': Node, s': Cluster, h': History, l': Ledger)
    requires Posted(s) && AppendsReach(s, h, l) && LeadersStood(h, l) && Acts(s, m, n')
    requires s' == Update(s, m.id, n') && Extends(h, h') && Grows(l, l')
    requires LeadersElected(s', h') && LogsBacked(s', h') && LeadersStood(h', l')
    ensures AppendsReach(s', h', l')
  {
    var n := s.nodes[m.id];
    assert s'.nodes[m.id] == n';
    forall e | e in s'.network && e.msg.AppendEntries?
      ensures ReachesBase(h', l', e.msg)
    {
      if e in s.network {
        assert ReachesBase(h, l, e.msg);
        if e.msg.term in h.elected {
          BaseStays(h, l, h', l', e.msg.term);
        }
      } else {
        assert e !in n.outbox && Sent(n, m.action, n', e);
        var next: nat :| e.msg == AppendMessage(n', next);
        assert GrownFrom(l'.ballots[(n'.term, m.id)], h'.logs[n'.term], n'.term);
        SendsReach(h', l', n', next);
      }
    }
  }

  lemma BaseStays(h: History, l: Ledger, h': History, l': Ledger, t: nat)
    requires LeadersStood(h, l) && Extends(h, h') && Grows(l, l') && t in h.elected
    ensures t in h'.elected && Base(h', l', t) == Base(h, l, t)
  {
  }

  // ---------------------------------------------------------------- holdings are true

  /** Under the guard an admitted AppendEntries leaves a prefix of the sender's log. */
  lemma VouchedIsPrefix(s: Cluster, h: History, m: Move, n': Node)
    requires LogsBacked(s, h) && AppendsTrue(s, h) && Acts(s, m, n')
    requires Admits(s.nodes[m.id], m.action) && Vouched(s.nodes[m.id], m.action.msg)
    requires Backed(n'.log, h.logs)
    ensures n'.log <= h.logs[m.action.msg.term]
  {
    var msg := m.action.msg;
    assert Envelope(m.id, msg) in s.network && Envelope(m.id, msg).msg.AppendEntries?;
    AcceptedLog(s.nodes[m.id].log, h.logs[msg.term], h.logs, msg.prevIndex, msg.prevTerm, msg.entries);
    if LastTerm(n'.log) == msg.term && n'.log != [] {
      assert BackedAt(n'.log, h.logs, |n'.log| - 1);
      assert n'.log[..|n'.log|] == n'.log;
    }
  }

  /** An admitted AppendEntries leaves a log that is backed by the record as it stood. */
  lemma AdmittedBacked(s: Cluster, h: History, m: Move, n': Node)
    requires LogsBacked(s, h) && AppendsTrue(s, h) && Acts(s, m, n') && Admits(s.nodes[m.id], m.action)
    ensures Backed(n'.log, h.logs)
  {
    var msg := m.action.msg;
    assert Envelope(m.id, msg) in s.network && Envelope(m.id, msg).msg.AppendEntries?;
    AcceptedLog(s.nodes[m.id].log, h.logs[msg.term], h.logs, msg.prevIndex, msg.prevTerm, msg.entries);
    PrefixBacked(h.logs[msg.term], h.logs, msg.prevIndex + |msg.entries|);
  }

  /** Whatever a step notes as held is a prefix of the term's log. */
  lemma NewlyHeld(s: Cluster, h: History, m: Move, n': Node)
    requires LogsBacked(s, h) && AppendsTrue(s, h) && Acts(s, m, n')
    requires Extends(h, Record(h, s.nodes[m.id], n'))
    requires VouchedStep(s.nodes[m.id], m.action) && Holds(s.nodes[m.id], m.action, n')
    ensures var h' := Record(h, s.nodes[m.id], n'); n'.term in h'.logs && n'.log <= h'.logs[n'.term]
  {
    if n'.role != Leader {
      AdmittedBacked(s, h, m, n');
      VouchedIsPrefix(s, h, m, n');
      assert Envelope(m.id, m.action.msg) in s.network && Envelope(m.id, m.action.msg).msg.AppendEntries?;
    }
  }

  lemma KeepsHeld(s: Cluster, h: History, l: Ledger, m: Move, n': Node)
    requires Wired(s) && LogsBacked(s, h) && AppendsTrue(s, h) && HeldTrue(s, h, l) && Acts(s, m, n')
    requires Extends(h, Record(h, s.nodes[m.id], n')) && VouchedStep(s.nodes[m.id], m.action)
    ensures HeldTrue(Update(s, m.id, n'), Record(h, s.nodes[m.id], n'), Note(l, s.nodes[m.id], m.action, n'))
  {
    var n := s.nodes[m.id];
    var s', h', l' := Update(s, m.id, n'), Record(h, n, n'), Note(l, n, m.action, n');
    if Holds(n, m.action, n') {
      NewlyHeld(s, h, m, n');
    }
    forall t, i | (t, i) in l'.held
      ensures i in s'.nodes && t <= s'.nodes[i].term && t in h'.logs && l'.held[(t, i)] <= |h'.logs[t]|
    {
      if (t, i) in l.held {
        assert l.held[(t, i)] <= |h.logs[t]|;
      }
    }
  }

  lemma KeepsAnswers(s: Cluster, h: History, l: Ledger, m: Move, n': Node)
    requires Wired(s) && Posted(s) && AnswersTrue(s, l) && Acts(s, m, n')
    requires Grows(l, Note(l, s.nodes[m.id], m.action, n'))
    ensures AnswersTrue(Update(s, m.id, n'), Note(l, s.nodes[m.id], m.action, n'))
  {
    var n := s.nodes[m.id];
    var s', l' := Update(s, m.id, n'), Note(l, n, m.action, n');
    forall e | e in s'.network && e.msg.AppendEntriesResponse? && e.msg.success
      ensures (e.msg.term, e.msg.follower) in l'.held && e.msg.matched <= l'.held[(e.msg.term, e.msg.follower)]
    {
      if e in s.network {
        assert (e.msg.term, e.msg.follower) in l.held;
      } else {
        assert e !in n.outbox && Sent(n, m.action, n', e);
      }
    }
  }

  // ---------------------------------------------------------------- what was held is kept

  lemma LostStays(h: History, l: Ledger, h': History, l': Ledger, prefix: seq<Entry>, from: nat, to: nat, to': nat)
    requires LeadersStood(h, l) && Extends(h, h') && Grows(l, l') && to <= to'
    requires Lost(h, l, prefix, from, to)
    ensures Lost(h', l', prefix, from, to')
  {
    var u :| from < u < to && u in h.elected && !(prefix <= Base(h, l, u));
    BaseStays(h, l, h', l', u);
  }

  lemma KeptStays(h: History, l: Ledger, h': History, l': Ledger, t: nat, k: nat, log: seq<Entry>, to: nat, to': nat)
    requires LeadersStood(h, l) && Extends(h, h') && Grows(l, l') && to <= to'
    requires t in h.logs && k <= |h.logs[t]| && Kept(h, l, t, k, log, to)
    ensures Kept(h', l', t, k, log, to')
  {
    assert h'.logs[t][..k] == h.logs[t][..k];
    if Lost(h, l, h.logs[t][..k], t, to) {
      LostStays(h, l, h', l', h.logs[t][..k], t, to, to');
    }
  }

  lemma MergeOneKeeps(r: seq<Entry>, leader: seq<Entry>, q: nat, k: nat)
    requires q < |leader| && leader[q].index == q + 1
    requires k <= |r| && k <= |leader| && r[..k] == leader[..k]
    ensures k <= |MergeOne(r, leader[q])| && MergeOne(r, leader[q])[..k] == leader[..k]
  {
    if q < k {
      assert r[q] == r[..k][q] == leader[..k][q];
    }
  }

  lemma SliceFront(leader: seq<Entry>, p: nat, entries: seq<Entry>)
    requires p + |entries| <= |leader| && entries == leader[p..p + |entries|] && entries != []
    ensures var last := |entries| - 1; entries[..last] == leader[p..p + last] && entries[last] == leader[p + last]
  {
  }

  /** The merge leaves alone whatever the log and the leader's log have in common. */
  lemma {:induction false} MergeKeepsCommon(log: seq<Entry>, leader: seq<Entry>, logs: map<nat, seq<Entry>>,
                                            p: nat, entries: seq<Entry>, k: nat)
    requires Backed(leader, logs)
    requires p + |entries| <= |leader| && entries == leader[p..p + |entries|]
    requires k <= |log| && k <= |leader| && log[..k] == leader[..k]
    ensures k <= |Merge(log, entries)| && Merge(log, entries)[..k] == leader[..k]
  {
    if entries != [] {
      var last := |entries| - 1;
      SliceFront(leader, p, entries);
      MergeKeepsCommon(log, leader, logs, p, entries[..last], k);
      assert BackedAt(leader, logs, p + last);
      MergeOneKeeps(Merge(log, entries[..last]), leader, p + last, k);
    }
  }

  /** A prefix of the sender's log that a node has before an AppendEntries it has afterwards. */
  lemma AdmittedKeeps(s: Cluster, h: History, m: Move, n': Node, p: seq<Entry>)
    requires LogsBacked(s, h) && AppendsTrue(s, h) && Acts(s, m, n') && Admits(s.nodes[m.id], m.action)
    requires m.action.msg.term in h.logs && p <= s.nodes[m.id].log && p <= h.logs[m.action.msg.term]
    ensures p <= n'.log
  {
    var n, msg := s.nodes[m.id], m.action.msg;
    var leader := h.logs[msg.term];
    assert Envelope(m.id, msg) in s.network && Envelope(m.id, msg).msg.AppendEntries?;
    AcceptedLog(n.log, leader, h.logs, msg.prevIndex, msg.prevTerm, msg.entries);
    MergeKeepsCommon(n.log, leader, h.logs, msg.prevIndex, msg.entries, |p|);
    assert n.log[..|p|] == p == leader[..|p|];
  }

  /** What the stepping node had held before the step is kept by the step. */
  lemma StepKeepsMark(s: Cluster, h: History, l: Ledger, m: Move, n': Node, t: nat, k: nat)
    requires Wired(s) && LogInv(s, h) && LeadersStood(h, l) && HeldTrue(s, h, l) && NodesKeep(s, h, l)
    requires Acts(s, m, n') && Marked(h, l, t, m.id, k)
    ensures Kept(h, l, t, k, n'.log, n'.term + 1)
  {
    var n, p := s.nodes[m.id], h.logs[t][..k];
    if Lost(h, l, p, t, n.term + 1) {
      LostStays(h, l, h, l, p, t, n.term + 1, n'.term + 1);
    } else if n'.log != n.log && !m.action.Propose? {
      var msg := m.action.msg;
      assert Envelope(m.id, msg) in s.network && Envelope(m.id, msg).msg.AppendEntries?;
      var u := msg.term;
      assert u in h.elected && GrownFrom(l.ballots[(u, h.elected[u].leader)], h.logs[u], u);
      if t == u || p <= Base(h, l, u) {
        AdmittedKeeps(s, h, m, n', p);
      } else {
        assert t < u < n'.term + 1;
      }
    }
  }

  /** A mark on record after a step was there before, or is the stepping node's in its present term
      and inside its present log. */
  lemma MarkBefore(s: Cluster, h: History, l: Ledger, m: Move, n': Node, t: nat, i: NodeId, k: nat)
    requires HeldTrue(s, h, l) && Acts(s, m, n') && Extends(h, Record(h, s.nodes[m.id], n'))
    requires Marked(Record(h, s.nodes[m.id], n'), Note(l, s.nodes[m.id], m.action, n'), t, i, k)
    ensures Marked(h, l, t, i, k)
         || (Holds(s.nodes[m.id], m.action, n') && t == n'.term && i == n'.id && k <= |n'.log|)
  {
    var h', l' := Record(h, s.nodes[m.id], n'), Note(l, s.nodes[m.id], m.action, n');
    if (t, i) in l.held && k <= l.held[(t, i)] {
      assert h.logs[t][k - 1] == h'.logs[t][k - 1];
    }
  }

  lemma KeepsNodes(s: Cluster, h: History, l: Ledger, m: Move, n': Node)
    requires Wired(s) && LogInv(s, h) && LeadersStood(h, l) && HeldTrue(s, h, l) && NodesKeep(s, h, l)
    requires Acts(s, m, n') && VouchedStep(s.nodes[m.id], m.action)
    requires Extends(h, Record(h, s.nodes[m.id], n')) && Grows(l, Note(l, s.nodes[m.id], m.action, n'))
    ensures NodesKeep(Update(s, m.id, n'), Record(h, s.nodes[m.id], n'), Note(l, s.nodes[m.id], m.action, n'))
  {
    var n := s.nodes[m.id];
    var s', h', l' := Update(s, m.id, n'), Record(h, n, n'), Note(l, n, m.action, n');
    forall t, i, k | Marked(h', l', t, i, k)
      ensures i in s'.nodes && Kept(h', l', t, k, s'.nodes[i].log, s'.nodes[i].term + 1)
    {
      MarkBefore(s, h, l, m, n', t, i, k);
      if Marked(h, l, t, i, k) {
        if i == m.id {
          StepKeepsMark(s, h, l, m, n', t, k);
        }
        KeptStays(h, l, h', l', t, k, s'.nodes[i].log, s'.nodes[i].term + 1, s'.nodes[i].term + 1);
      } else {
        NewlyHeld(s, h, m, n');
      }
    }
  }

  // ---------------------------------------------------------------- what was held is voted for

  /** The heart of Leader Completeness. A log that is at least as up to date as one with the prefix
      has the prefix too, when every term in between was won with it. */
  lemma UpToDateHas(h: History, l: Ledger, t: nat, k: nat, t': nat, voter: seq<Entry>, candidate: seq<Entry>)
    requires forall u :: u in h.logs ==> Below(h.logs[u], u + 1)
    requires h.logs.Keys == h.elected.Keys && LeadersStood(h, l)
    requires Backed(voter, h.logs) && Backed(candidate, h.logs) && Below(candidate, t')
    requires t in h.logs && 1 <= k <= |h.logs[t]| && h.logs[t][k - 1].term == t
    requires h.logs[t][..k] <= voter && !Lost(h, l, h.logs[t][..k], t, t')
    requires UpToDate(voter, LastIndex(candidate), LastTerm(candidate))
    ensures h.logs[t][..k] <= candidate
  {
    var p := h.logs[t][..k];
    assert p[k - 1] == voter[k - 1];
    BackedOrdered(voter, h, k - 1, |voter| - 1);
    BackedIndices(voter, h.logs);
    BackedIndices(candidate, h.logs);
    if candidate != [] {
      var last := |candidate| - 1;
      var u := candidate[last].term;
      assert BackedAt(candidate, h.logs, last);
      assert candidate[..last + 1] == candidate;
      if u > t {
        LaterWinnerHas(h, l, t, k, t', u);
        ReachesPast(h, t, k, u, last);
      }
    }
  }

  /** An entry of a later term stands behind a prefix of an earlier term. */
  lemma ReachesPast(h: History, t: nat, k: nat, u: nat, last: nat)
    requires t in h.logs && k <= |h.logs[t]| && Below(h.logs[t], t + 1)
    requires u in h.logs && h.logs[t][..k] <= h.logs[u]
    requires t < u && last < |h.logs[u]| && h.logs[u][last].term == u
    ensures last >= k
  {
    if last < k {
      assert false;
    }
  }

  lemma LaterWinnerHas(h: History, l: Ledger, t: nat, k: nat, t': nat, u: nat)
    requires h.logs.Keys == h.elected.Keys && LeadersStood(h, l)
    requires t in h.logs && k <= |h.logs[t]| && !Lost(h, l, h.logs[t][..k], t, t')
    requires t < u < t' && u in h.logs
    ensures h.logs[t][..k] <= h.logs[u]
  {
    assert h.logs[t][..k] <= Base(h, l, u);
    assert GrownFrom(l.ballots[(u, h.elected[u].leader)], h.logs[u], u);
  }

  /** Nobody wins a term before it is over for the voter: what was lost up to it was lost before it. */
  lemma LostBefore(h: History, l: Ledger, p: seq<Entry>, t: nat, to: nat, t': nat)
    requires Lost(h, l, p, t, to) && to <= t' + 1 && t' !in h.elected
    ensures Lost(h, l, p, t, t')
  {
    var u :| t < u < to && u in h.elected && !(p <= Base(h, l, u));
    assert u < t';
  }

  /** A vote granted to a request is for a log that has what the voter has. */
  lemma GrantedKeeps(s: Cluster, h: History, l: Ledger, i: NodeId, msg: Message, t: nat, k: nat)
    requires LogInv(s, h) && TermsTrue(s, h) && Stood(s, h, l) && LeadersStood(h, l)
    requires i in s.nodes && msg.RequestVote? && Asks(l, msg)
    requires UpToDate(s.nodes[i].log, msg.lastLogIndex, msg.lastLogTerm)
    requires t in h.logs && 1 <= k <= |h.logs[t]| && h.logs[t][k - 1].term == t && h.logs[t][..k] <= s.nodes[i].log
    ensures Kept(h, l, t, k, Ballot(l, msg.term, msg.candidate), msg.term)
  {
    var ballot := l.ballots[(msg.term, msg.candidate)];
    assert StoodWith(s, h, msg.term, msg.candidate, ballot);
    if !Lost(h, l, h.logs[t][..k], t, msg.term) {
      UpToDateHas(h, l, t, k, msg.term, s.nodes[i].log, ballot);
    }
  }

  /** The vote that a step casts is for a log that has what the voter had held. */
  lemma NewVoteKeeps(s: Cluster, h: History, l: Ledger, m: Move, n': Node, t: nat, k: nat)
    requires Wired(s) && LogInv(s, h) && TermsTrue(s, h) && Stood(s, h, l) && RequestsTrue(s, l) && LeadersStood(h, l)
    requires NodesKeep(s, h, l) && Acts(s, m, n') && Marked(h, l, t, m.id, k)
    requires n'.votedFor.Some? && !(n'.term == s.nodes[m.id].term && n'.votedFor == s.nodes[m.id].votedFor)
    requires n'.term !in h.elected && t < n'.term
    ensures Kept(h, l, t, k, Ballot(Note(l, s.nodes[m.id], m.action, n'), n'.term, n'.votedFor.value), n'.term)
  {
    var n, p := s.nodes[m.id], h.logs[t][..k];
    assert Kept(h, l, t, k, n.log, n.term + 1);
    if Lost(h, l, p, t, n.term + 1) {
      LostBefore(h, l, p, t, n.term + 1, n'.term);
    } else if !(n'.role != Follower && n'.term == n.term + 1 && n'.votedFor == Some(n.id)) {
      var msg := m.action.msg;
      assert Envelope(m.id, msg) in s.network && Envelope(m.id, msg).msg.RequestVote?;
      GrantedKeeps(s, h, l, m.id, msg, t, k);
      BallotStays(s, h, l, m, n', msg.term, msg.candidate);
    }
  }

  lemma BallotStays(s: Cluster, h: History, l: Ledger, m: Move, n': Node, t: nat, c: NodeId)
    requires Wired(s) && Stood(s, h, l) && Acts(s, m, n') && (t, c) in l.ballots
    ensures Ballot(Note(l, s.nodes[m.id], m.action, n'), t, c) == Ballot(l, t, c)
  {
    NoteGrows(s, h, l, m, n');
  }

  /** A vote on record after a step that still counts was cast before and counted, or by this step in
      a term that nobody has won yet. */
  lemma CountsBefore(s: Cluster, h: History, m: Move, n': Node, t: nat, i: NodeId)
    requires Wired(s) && VotesAgree(s, h) && ElectionsTrue(s, h) && Acts(s, m, n')
    requires Extends(h, Record(h, s.nodes[m.id], n')) && Counts(Record(h, s.nodes[m.id], n'), t, i)
    ensures var n, h' := s.nodes[m.id], Record(h, s.nodes[m.id], n');
            || (Counts(h, t, i) && h.votes[(t, i)] == h'.votes[(t, i)])
            || (t == n'.term && i == m.id && t !in h.elected && n'.votedFor == Some(h'.votes[(t, i)])
                && !(n'.term == n.term && n'.votedFor == n.votedFor))
  {
    var n, h' := s.nodes[m.id], Record(h, s.nodes[m.id], n');
    VotesGrow(s, h, m, n', t, i);
    if t in h.elected {
      assert Legitimate(s, h, t, h.elected[t]);
      assert Vote(h, t, i) == Some(h.elected[t].leader);
    }
  }

  /** Nobody has voted in a term later than its own. */
  lemma VotesPast(s: Cluster, h: History, t: nat, i: NodeId)
    requires VotesAgree(s, h) && (t, i) in h.votes
    ensures i in s.nodes && t <= s.nodes[i].term
  {
  }

  /** One vote that counts and one mark, after a step. */
  lemma KeepsVote(s: Cluster, h: History, l: Ledger, m: Move, n': Node, t': nat, i: NodeId, t: nat, k: nat)
    requires ElectionInv(s, h) && LogInv(s, h) && TermsTrue(s, h)
    requires Stood(s, h, l) && RequestsTrue(s, l) && VotesStood(h, l) && LeadersStood(h, l)
    requires NodesKeep(s, h, l) && VotesKeep(h, l) && Acts(s, m, n')
    requires Extends(h, Record(h, s.nodes[m.id], n')) && Counts(Record(h, s.nodes[m.id], n'), t', i)
    requires t < t' && Marked(h, l, t, i, k)
    ensures var h', l' := Record(h, s.nodes[m.id], n'), Note(l, s.nodes[m.id], m.action, n');
            Kept(h, l, t, k, Ballot(l', t', h'.votes[(t', i)]), t')
  {
    var h' := Record(h, s.nodes[m.id], n');
    CountsBefore(s, h, m, n', t', i);
    if Counts(h, t', i) && h.votes[(t', i)] == h'.votes[(t', i)] {
      BallotStays(s, h, l, m, n', t', h.votes[(t', i)]);
    } else {
      NewVoteKeeps(s, h, l, m, n', t, k);
    }
  }

  lemma KeepsVotesKept(s: Cluster, h: History, l: Ledger, m: Move, n': Node)
    requires ElectionInv(s, h) && LogInv(s, h) && TermsTrue(s, h)
    requires Stood(s, h, l) && RequestsTrue(s, l) && VotesStood(h, l) && LeadersStood(h, l)
    requires HeldTrue(s, h, l) && NodesKeep(s, h, l) && VotesKeep(h, l) && Acts(s, m, n')
    requires Extends(h, Record(h, s.nodes[m.id], n')) && VotesAgree(Update(s, m.id, n'), Record(h, s.nodes[m.id], n'))
    ensures VotesKeep(Record(h, s.nodes[m.id], n'), Note(l, s.nodes[m.id], m.action, n'))
  {
    var n := s.nodes[m.id];
    var s', h', l' := Update(s, m.id, n'), Record(h, n, n'), Note(l, n, m.action, n');
    NoteGrows(s, h, l, m, n');
    forall t', i, t, k | Counts(h', t', i) && t < t' && Marked(h', l', t, i, k)
      ensures Kept(h', l', t, k, Ballot(l', t', h'.votes[(t', i)]), t')
    {
      VotesPast(s', h', t', i);
      MarkBefore(s, h, l, m, n', t, i, k);
      KeepsVote(s, h, l, m, n', t', i, t, k);
      KeptStays(h, l, h', l', t, k, Ballot(l', t', h'.votes[(t', i)]), t', t');
    }
  }

  // ---------------------------------------------------------------- the invariant

  ghost predicate BallotInv(s: Cluster, h: History, l: Ledger) {
    && TermsTrue(s, h)
    && Stood(s, h, l)
    && RequestsTrue(s, l)
    && VotesStood(h, l)
    && LeadersStood(h, l)
    && AppendsReach(s, h, l)
  }

  ghost predicate HeldInv(s: Cluster, h: History, l: Ledger) {
    && HeldTrue(s, h, l)
    && AnswersTrue(s, l)
    && NodesKeep(s, h, l)
    && VotesKeep(h, l)
  }

  lemma KeepsBallotInv(s: Cluster, h: History, l: Ledger, m: Move, n': Node)
    requires Inv(s, h) && BallotInv(s, h, l) && Acts(s, m, n')
    ensures BallotInv(Update(s, m.id, n'), Record(h, s.nodes[m.id], n'), Note(l, s.nodes[m.id], m.action, n'))
  {
    if NewlyLeader(s.nodes[m.id], n') {
      FreshTerm(s, h, m, n');
    }
    KeepsLeaders(s, h, m, n');
    KeepsTerms(s, h, m, n');
    KeepsStood(s, h, l, m, n');
    KeepsRequests(s, h, l, m, n');
    KeepsVotesStood(s, h, l, m, n');
    KeepsLeadersStood(s, h, l, m, n');
    NoteGrows(s, h, l, m, n');
    KeepsInv(s, h, m, n');
    KeepsReach(s, h, l, m, n', Update(s, m.id, n'), Record(h, s.nodes[m.id], n'), Note(l, s.nodes[m.id], m.action, n'));
  }

  lemma KeepsHeldInv(s: Cluster, h: History, l: Ledger, m: Move, n': Node)
    requires Inv(s, h) && BallotInv(s, h, l) && HeldInv(s, h, l) && Acts(s, m, n')
    requires VouchedStep(s.nodes[m.id], m.action)
    ensures HeldInv(Update(s, m.id, n'), Record(h, s.nodes[m.id], n'), Note(l, s.nodes[m.id], m.action, n'))
  {
    KeepsInv(s, h, m, n');
    NoteGrows(s, h, l, m, n');
    KeepsHeld(s, h, l, m, n');
    KeepsAnswers(s, h, l, m, n');
    KeepsNodes(s, h, l, m, n');
    KeepsVotesKept(s, h, l, m, n');
  }
}
