/** What one step of one Raft node may change: the facts about the handlers of RaftNode.dfy on
    which the cluster proof rests. Each predicate is proved for every handler. */
module RaftEffects {
  import opened Options
  import opened RaftNode

  /** Identity and wiring never change, terms never go back, a vote is never changed within a term. */
  ghost predicate Steady(n: Node, n': Node) {
    && n'.id == n.id
    && n'.peers == n.peers
    && n.term <= n'.term
    && (n'.term == n.term && n.votedFor.Some? ==> n'.votedFor == n.votedFor)
  }

  ghost predicate NewlyLeader(n: Node, n': Node) {
    n'.role == Leader && !(n.role == Leader && n.term == n'.term)
  }

  /** A node that is not a follower kept its role and tally, has just stood for election with its
      own vote, or has just counted one granted vote of its own term. */
  ghost predicate RoleEffect(n: Node, a: Action, n': Node) {
    && (n'.role != Follower ==>
          || (n'.role == n.role && n'.term == n.term && n'.votes == n.votes)
          || (n.role != Leader && n'.term == n.term + 1 && n'.votes == [n.id] && n'.votedFor == Some(n.id))
          || (n.role == Candidate && n'.term == n.term && Counted(n, a, n')))
    && (NewlyLeader(n, n') ==> n.role != Leader && |n'.votes| >= QuorumSize(|n.peers| + 1) && n'.log == n.log)
    && (n.role == Leader && n'.term == n.term && n'.role != Leader ==>
          a.Receive? && a.msg.AppendEntries? && a.msg.term == n.term)
  }

  ghost predicate Counted(n: Node, a: Action, n': Node) {
    || n'.votes == n.votes
    || (a.Receive? && a.msg.RequestVoteResponse? && a.msg.granted && a.msg.term == n.term
        && a.msg.voter !in n.votes && n'.votes == n.votes + [a.msg.voter])
  }

  /** The log changes only by a leader's proposal or by an accepted AppendEntries. */
  ghost predicate LogEffect(n: Node, a: Action, n': Node) {
    || n'.log == n.log
    || (n.role == Leader && n'.role == Leader && n'.term == n.term && a.Propose?
        && n'.log == n.log + [Entry(|n.log| + 1, n.term, a.data)])
    || (a.Receive? && a.msg.AppendEntries? && n'.term == a.msg.term && n'.role == Follower
        && Matches(n.log, a.msg.prevIndex, a.msg.prevTerm) && n'.log == Merge(n.log, a.msg.entries))
  }

  ghost predicate AppendFrom(n: Node, msg: Message) {
    exists next: nat :: msg == AppendMessage(n, next)
  }

  /** An AppendEntries that passes both rejections of its handler. */
  predicate Admits(n: Node, a: Action) {
    && a.Receive? && a.msg.AppendEntries?
    && n.term <= a.msg.term
    && Matches(n.log, a.msg.prevIndex, a.msg.prevTerm)
  }

  /** What may newly stand in the outbox. */
  ghost predicate Sent(n: Node, a: Action, n': Node, e: Envelope) {
    match e.msg
    case RequestVote(term, candidate, lastLogIndex, lastLogTerm) =>
      n'.role == Candidate && term == n'.term && candidate == n'.id
      && lastLogIndex == LastIndex(n'.log) && lastLogTerm == LastTerm(n'.log)
    case RequestVoteResponse(term, voter, granted) =>
      term == n'.term && voter == n'.id && (granted ==> n'.votedFor == Some(e.to))
    case AppendEntries(_, _, _, _, _, _) =>
      n'.role == Leader && AppendFrom(n', e.msg)
      && (e.to in n.peers || (a.Receive? && a.msg.AppendEntriesResponse? && a.msg.follower == e.to))
    case AppendEntriesResponse(term, follower, success, matched) =>
      follower == n'.id && a.Receive? && a.msg.AppendEntries? && a.msg.leader == e.to
      && (success ==> Admits(n, a) && term == n'.term && matched == |n'.log|)
  }

  ghost predicate OutboxEffect(n: Node, a: Action, n': Node) {
    forall e :: e in n'.outbox ==> e in n.outbox || Sent(n, a, n', e)
  }

  ghost predicate Effect(n: Node, a: Action, n': Node) {
    && Steady(n, n')
    && RoleEffect(n, a, n')
    && LogEffect(n, a, n')
    && OutboxEffect(n, a, n')
  }

  // ---------------------------------------------------------------- applying

  function ApplyOne(n: Node): Node {
    n.(lastApplied := n.lastApplied + 1,
       committed := if n.lastApplied < |n.log| then n.committed + [n.log[n.lastApplied]] else n.committed)
  }

  lemma {:induction false} ApplyFrame(n: Node)
    ensures var r := ApplyCommitted(n);
            && r == n.(lastApplied := r.lastApplied, committed := r.committed)
            && r.lastApplied == (if n.lastApplied < n.commitIndex then n.commitIndex else n.lastApplied)
    decreases n.commitIndex - n.lastApplied
  {
    if n.lastApplied < n.commitIndex {
      ApplyFrame(ApplyOne(n));
      assert ApplyCommitted(n) == ApplyCommitted(ApplyOne(n));
    }
  }

  function Between(log: seq<Entry>, from: nat, to: nat): seq<Entry> {
    if from < to <= |log| then log[from..to] else []
  }

  lemma {:induction false} ApplyEmits(n: Node)
    requires n.commitIndex <= |n.log|
    ensures ApplyCommitted(n).committed == n.committed + Between(n.log, n.lastApplied, n.commitIndex)
    decreases n.commitIndex - n.lastApplied
  {
    if n.lastApplied < n.commitIndex {
      ApplyEmits(ApplyOne(n));
      assert ApplyCommitted(n) == ApplyCommitted(ApplyOne(n));
      assert Between(n.log, n.lastApplied, n.commitIndex)
          == [n.log[n.lastApplied]] + Between(n.log, n.lastApplied + 1, n.commitIndex);
    }
  }

  /** `apply_committed` moves only the applied counter and the committed stream. With the commit
      index inside the log it emits exactly the entries between the two counters. */
  lemma ApplyShape(n: Node)
    ensures var r := ApplyCommitted(n);
            && r == n.(lastApplied := r.lastApplied, committed := r.committed)
            && r.lastApplied == (if n.lastApplied < n.commitIndex then n.commitIndex else n.lastApplied)
            && (n.commitIndex <= |n.log| ==>
                  r.committed == n.committed
                    + (if n.lastApplied < n.commitIndex then n.log[n.lastApplied..n.commitIndex] else []))
  {
    ApplyFrame(n);
    if n.commitIndex <= |n.log| {
      ApplyEmits(n);
    }
  }

  /** The committed index found by the downward scan: the greatest index that a quorum reports and
      whose entry is of the current term; `None` exactly when there is none. */
  lemma {:induction false} HighestCommittableIsGreatest(n: Node, top: nat)
    requires top <= |n.log|
    ensures match HighestCommittable(n, top)
            case None => forall i :: n.commitIndex < i <= top ==> !Committable(n, i)
            case Some(c) => n.commitIndex < c <= top && Committable(n, c)
                            && forall i :: c < i <= top ==> !Committable(n, i)
    decreases top
  {
    if top > n.commitIndex && !Committable(n, top) {
      HighestCommittableIsGreatest(n, top - 1);
    }
  }

  // ---------------------------------------------------------------- commit progress

  /** A leader's record with a reported match taken over. */
  function AfterMatch(n: Node, msg: Message): Node
    requires msg.AppendEntriesResponse?
  {
    if msg.matched > Lookup(n.matchIndex, msg.follower, 0) then
      n.(nextIndex := n.nextIndex[msg.follower := msg.matched + 1],
         matchIndex := n.matchIndex[msg.follower := msg.matched])
    else n
  }

  /** The branch of `handle_append_entries` that sets the commit index is reached. */
  predicate SetsCommit(n: Node, a: Action) {
    Admits(n, a) && a.msg.leaderCommit > n.commitIndex
  }

  /** The last index that the message vouches for, as the code takes it. */
  function LastNew(n: Node, msg: Message): nat
    requires msg.AppendEntries?
  {
    if msg.entries == [] then |n.log| else msg.entries[|msg.entries| - 1].index
  }

  lemma AppendCommit(n: Node, a: Action)
    requires a.Receive? && a.msg.AppendEntries?
    ensures NodeStep(n, a).commitIndex
         == if SetsCommit(n, a) then Min(a.msg.leaderCommit, LastNew(n, a.msg)) else n.commitIndex
  {
    var m := if a.msg.term > n.term then n.(term := a.msg.term, votedFor := None, votes := []) else n;
    ApplyShape(Accepted(m.(role := Follower, electionElapsed := 0), a.msg.entries, a.msg.leaderCommit));
  }

  lemma ResponseCommit(n: Node, a: Action)
    requires a.Receive? && a.msg.AppendEntriesResponse?
    ensures NodeStep(n, a).commitIndex >= n.commitIndex
  {
    if a.msg.term == n.term && n.role == Leader && a.msg.success {
      var m := AfterMatch(n, a.msg);
      HighestCommittableIsGreatest(m, |m.log|);
      match HighestCommittable(m, |m.log|)
      case None =>
      case Some(i) => ApplyShape(m.(commitIndex := i));
    }
  }

  /** Commit progress fails of the code. The commit index goes back exactly when an accepted
      AppendEntries announces a higher commit index but vouches only for entries below the node's. */
  lemma CommitGoesBackExactly(n: Node, a: Action)
    ensures NodeStep(n, a).commitIndex < n.commitIndex
       <==> SetsCommit(n, a) && LastNew(n, a.msg) < n.commitIndex
  {
    if a.Receive? && a.msg.AppendEntries? {
      AppendCommit(n, a);
    } else if a.Receive? && a.msg.AppendEntriesResponse? {
      ResponseCommit(n, a);
    }
  }

  // ---------------------------------------------------------------- handler by handler

  lemma HeartbeatsSent(n: Node, a: Action, m: Node)
    requires m.role == Leader && m.peers == n.peers
    ensures forall e :: e in SendHeartbeats(m).outbox ==> e in m.outbox || Sent(n, a, SendHeartbeats(m), e)
  {
    var r := SendHeartbeats(m);
    forall e | e in r.outbox && e !in m.outbox
      ensures Sent(n, a, r, e)
    {
      assert e in Heartbeats(m, m.peers);
      var i :| 0 <= i < |m.peers| && e == Heartbeats(m, m.peers)[i];
      assert e.msg == AppendMessage(r, Lookup(m.nextIndex, m.peers[i], 1));
    }
  }

  lemma BecomeLeaderEffect(n: Node, a: Action, m: Node)
    requires m.peers == n.peers && m.outbox == n.outbox
    ensures OutboxEffect(n, a, BecomeLeader(m))
    ensures var r := BecomeLeader(m);
            r.role == Leader && r.term == m.term && r.votes == m.votes && r.votedFor == m.votedFor
            && r.log == m.log && r.id == m.id && r.peers == m.peers
  {
    HeartbeatsSent(n, a, m.(
      role := Leader,
      heartbeatElapsed := 0,
      nextIndex := SetAll(m.nextIndex, m.peers, |m.log| + 1),
      matchIndex := SetAll(m.matchIndex, m.peers, 0)[m.id := |m.log|]));
  }

  lemma TickEffect(n: Node)
    ensures Effect(n, Tick, TickNode(n))
  {
    if n.role == Leader {
      if n.heartbeatElapsed + 1 >= HEARTBEAT_INTERVAL {
        HeartbeatsSent(n, Tick, n.(heartbeatElapsed := 0));
      }
    } else if n.electionElapsed + 1 >= ELECTION_TIMEOUT {
      var c := Candidacy(n.(electionElapsed := n.electionElapsed + 1));
      if |c.votes| >= QuorumSize(|c.peers| + 1) {
        BecomeLeaderEffect(n, Tick, c);
      } else {
        forall e | e in SendVoteRequests(c).outbox && e !in n.outbox
          ensures Sent(n, Tick, SendVoteRequests(c), e)
        {
          assert e in VoteRequests(c, c.peers);
        }
      }
    }
  }

  lemma ProposeEffect(n: Node, data: seq<byte>)
    ensures Effect(n, Propose(data), ProposeNode(n, data))
  {
    if n.role == Leader {
      var index := |n.log| + 1;
      HeartbeatsSent(n, Propose(data),
        n.(log := n.log + [Entry(index, n.term, data)], matchIndex := n.matchIndex[n.id := index]));
    }
  }

  lemma RequestVoteEffect(n: Node, a: Action)
    requires a.Receive? && a.msg.RequestVote?
    ensures Effect(n, a, NodeStep(n, a))
  {
  }

  lemma VoteResponseEffect(n: Node, a: Action)
    requires a.Receive? && a.msg.RequestVoteResponse?
    ensures Effect(n, a, NodeStep(n, a))
  {
    var term, voter, granted := a.msg.term, a.msg.voter, a.msg.granted;
    if term == n.term && n.role == Candidate {
      var m := if granted && voter !in n.votes then n.(votes := n.votes + [voter]) else n;
      BecomeLeaderEffect(n, a, m);
    }
  }

  lemma AppendEntriesEffect(n: Node, a: Action)
    requires a.Receive? && a.msg.AppendEntries?
    ensures Effect(n, a, NodeStep(n, a))
  {
    var m := if a.msg.term > n.term then n.(term := a.msg.term, votedFor := None, votes := []) else n;
    var f := m.(role := Follower, electionElapsed := 0);
    ApplyShape(Accepted(f, a.msg.entries, a.msg.leaderCommit));
  }

  lemma AppendEntriesResponseEffect(n: Node, a: Action)
    requires a.Receive? && a.msg.AppendEntriesResponse?
    ensures Effect(n, a, NodeStep(n, a))
  {
    var follower := a.msg.follower;
    if a.msg.term == n.term && n.role == Leader {
      if a.msg.success {
        var m := AfterMatch(n, a.msg);
        match HighestCommittable(m, |m.log|)
        case None =>
        case Some(i) => ApplyShape(m.(commitIndex := i));
      } else {
        var next := if Pred(Lookup(n.nextIndex, follower, 1)) < 1 then 1 else Pred(Lookup(n.nextIndex, follower, 1));
        var r := NodeStep(n, a);
        assert AppendMessage(n, next) == AppendMessage(r, next);
      }
    }
  }

  lemma StepEffect(n: Node, a: Action)
    ensures Effect(n, a, NodeStep(n, a))
  {
    match a
    case Tick => TickEffect(n);
    case Propose(data) => ProposeEffect(n, data);
    case Advance =>
    case Receive(msg) =>
      match msg
      case RequestVote(_, _, _, _) => RequestVoteEffect(n, a);
      case RequestVoteResponse(_, _, _) => VoteResponseEffect(n, a);
      case AppendEntries(_, _, _, _, _, _) => AppendEntriesEffect(n, a);
      case AppendEntriesResponse(_, _, _, _) => AppendEntriesResponseEffect(n, a);
  }

  // ---------------------------------------------------------------- votes, progress and commitment

  /** A node that casts a new vote stands for election itself, or has found the log of the one it
      votes for at least as up to date as its own. */
  ghost predicate VoteEffect(n: Node, a: Action, n': Node) {
    n'.votedFor.Some? && !(n'.term == n.term && n'.votedFor == n.votedFor) ==>
      && n'.log == n.log
      && (|| (n'.role != Follower && n'.term == n.term + 1 && n'.votedFor == Some(n.id))
          || (a.Receive? && a.msg.RequestVote? && a.msg.term == n'.term && n'.votedFor == Some(a.msg.candidate)
              && UpToDate(n.log, a.msg.lastLogIndex, a.msg.lastLogTerm)))
  }

  /** What a leader takes a peer to have matched: its own log, a reported match, or what it took before. */
  ghost predicate MatchEffect(n: Node, a: Action, n': Node) {
    && (forall f :: f in n'.matchIndex ==>
          f in n.matchIndex || f == n.id || f in n.peers
          || (a.Receive? && a.msg.AppendEntriesResponse? && a.msg.success && f == a.msg.follower))
    && (n'.role == Leader ==> forall f :: f in n'.matchIndex && n'.matchIndex[f] >= 1 ==>
          || (n.role == Leader && n'.term == n.term && f in n.matchIndex && n'.matchIndex[f] == n.matchIndex[f])
          || (f == n.id && n'.matchIndex[f] == |n'.log|)
          || (NewlyLeader(n, n') && f != n.id && f !in n.peers)
          || (a.Receive? && a.msg.AppendEntriesResponse? && a.msg.success && a.msg.term == n'.term
              && f == a.msg.follower && n'.matchIndex[f] == a.msg.matched))
  }

  /** The commit index moves by an accepted AppendEntries or by a leader that counts a quorum. Each
      move applies everything up to it. */
  ghost predicate CommitEffect(n: Node, a: Action, n': Node) {
    || (n'.commitIndex == n.commitIndex && n'.lastApplied == n.lastApplied && !SetsCommit(n, a))
    || (&& (|| (SetsCommit(n, a) && n'.commitIndex == Min(a.msg.leaderCommit, LastNew(n, a.msg)))
            || (n.role == Leader && n'.role == Leader && n'.term == n.term && n'.log == n.log
                && n.commitIndex < n'.commitIndex <= |n'.log| && Committable(n', n'.commitIndex)))
        && n'.lastApplied == if n.lastApplied < n'.commitIndex then n'.commitIndex else n.lastApplied)
  }

  /** An admitted AppendEntries leaves a follower of its term with the merged log. */
  ghost predicate AdmitEffect(n: Node, a: Action, n': Node) {
    Admits(n, a) ==> n'.role == Follower && n'.term == a.msg.term && n'.log == Merge(n.log, a.msg.entries)
  }

  ghost predicate Progress(n: Node, a: Action, n': Node) {
    && VoteEffect(n, a, n')
    && MatchEffect(n, a, n')
    && CommitEffect(n, a, n')
    && AdmitEffect(n, a, n')
  }

  lemma {:induction false} SetAllKeys(m: map<NodeId, nat>, keys: seq<NodeId>, v: nat)
    ensures forall f :: f in SetAll(m, keys, v) <==> f in m || f in keys
    ensures forall f :: f in keys ==> SetAll(m, keys, v)[f] == v
  {
    if keys != [] {
      SetAllKeys(m, keys[..|keys| - 1], v);
      assert keys == keys[..|keys| - 1] + [keys[|keys| - 1]];
    }
  }

  lemma TickProgress(n: Node)
    ensures Progress(n, Tick, TickNode(n))
  {
    SetAllKeys(n.matchIndex, n.peers, 0);
  }

  lemma VoteResponseProgress(n: Node, a: Action)
    requires a.Receive? && a.msg.RequestVoteResponse?
    ensures Progress(n, a, NodeStep(n, a))
  {
    SetAllKeys(n.matchIndex, n.peers, 0);
  }

  lemma AppendEntriesCommits(n: Node, a: Action)
    requires a.Receive? && a.msg.AppendEntries?
    ensures CommitEffect(n, a, NodeStep(n, a))
  {
    var m := if a.msg.term > n.term then n.(term := a.msg.term, votedFor := None, votes := []) else n;
    ApplyFrame(Accepted(m.(role := Follower, electionElapsed := 0), a.msg.entries, a.msg.leaderCommit));
  }

  lemma AppendEntriesAdmits(n: Node, a: Action)
    requires a.Receive? && a.msg.AppendEntries?
    ensures AdmitEffect(n, a, NodeStep(n, a))
  {
    var m := if a.msg.term > n.term then n.(term := a.msg.term, votedFor := None, votes := []) else n;
    ApplyFrame(Accepted(m.(role := Follower, electionElapsed := 0), a.msg.entries, a.msg.leaderCommit));
  }

  lemma AppendEntriesFrame(n: Node, a: Action)
    requires a.Receive? && a.msg.AppendEntries?
    ensures var n' := NodeStep(n, a);
            && n'.matchIndex == n.matchIndex
            && (n'.votedFor == None || (n'.votedFor == n.votedFor && n'.term == n.term))
            && (n'.role == Leader ==> n.role == Leader && n'.term == n.term)
  {
    var m := if a.msg.term > n.term then n.(term := a.msg.term, votedFor := None, votes := []) else n;
    ApplyFrame(Accepted(m.(role := Follower, electionElapsed := 0), a.msg.entries, a.msg.leaderCommit));
  }

  lemma SuccessCommits(n: Node, a: Action)
    requires a.Receive? && a.msg.AppendEntriesResponse? && a.msg.term == n.term && n.role == Leader && a.msg.success
    ensures CommitEffect(n, a, NodeStep(n, a))
  {
    var m, n' := AfterMatch(n, a.msg), NodeStep(n, a);
    HighestCommittableIsGreatest(m, |m.log|);
    match HighestCommittable(m, |m.log|)
    case None =>
    case Some(i) =>
      ApplyFrame(m.(commitIndex := i));
      assert Reporters(n', i) == Reporters(m, i);
  }

  lemma SuccessMatches(n: Node, a: Action)
    requires a.Receive? && a.msg.AppendEntriesResponse? && a.msg.term == n.term && n.role == Leader && a.msg.success
    ensures VoteEffect(n, a, NodeStep(n, a)) && MatchEffect(n, a, NodeStep(n, a)) && AdmitEffect(n, a, NodeStep(n, a))
  {
    var m := AfterMatch(n, a.msg);
    match HighestCommittable(m, |m.log|)
    case None =>
    case Some(i) => ApplyFrame(m.(commitIndex := i));
  }

  lemma AppendEntriesResponseProgress(n: Node, a: Action)
    requires a.Receive? && a.msg.AppendEntriesResponse?
    ensures Progress(n, a, NodeStep(n, a))
  {
    if a.msg.term == n.term && n.role == Leader && a.msg.success {
      SuccessMatches(n, a);
      SuccessCommits(n, a);
    }
  }

  /** The record with which a step calls `apply_committed`, from either of its two call sites. */
  function ApplyCall(n: Node, a: Action): Option<Node> {
    if SetsCommit(n, a) then
      var m := if a.msg.term > n.term then n.(term := a.msg.term, votedFor := None, votes := []) else n;
      Some(Accepted(m.(role := Follower, electionElapsed := 0), a.msg.entries, a.msg.leaderCommit))
    else if a.Receive? && a.msg.AppendEntriesResponse? && a.msg.term == n.term && n.role == Leader && a.msg.success then
      var m := AfterMatch(n, a.msg);
      match HighestCommittable(m, |m.log|)
      case None => None
      case Some(i) => Some(m.(commitIndex := i))
    else None
  }

  lemma CallsApply(n: Node, a: Action)
    ensures var n' := NodeStep(n, a);
            match ApplyCall(n, a)
            case Some(r) => n' == ApplyCommitted(r).(outbox := n'.outbox)
            case None => n'.lastApplied == n.lastApplied && (a.Advance? || n'.committed == n.committed)
  {
  }

  /** Every handler casts votes, takes matches and moves the commit index only in these ways. */
  lemma StepProgress(n: Node, a: Action)
    ensures Progress(n, a, NodeStep(n, a))
  {
    match a
    case Tick => TickProgress(n);
    case Propose(data) =>
    case Advance =>
    case Receive(msg) =>
      match msg
      case RequestVote(_, _, _, _) =>
      case RequestVoteResponse(_, _, _) => VoteResponseProgress(n, a);
      case AppendEntries(_, _, _, _, _, _) =>
        AppendEntriesAdmits(n, a);
        AppendEntriesFrame(n, a);
        AppendEntriesCommits(n, a);
      case AppendEntriesResponse(_, _, _, _) => AppendEntriesResponseProgress(n, a);
  }
}
