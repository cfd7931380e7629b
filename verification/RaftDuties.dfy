/** What a step of a Raft node must do. */
module RaftDuties {
  /* `RaftEffects` bounds what a step may do; here is what it owes: which messages it adds to the outbox, what
     it answers, and which fields it moves, on the fields alone. A majority is more than half of the cluster. */

  import opened Options
  import opened RaftNode
  import opened RaftEffects
  import opened RaftCluster

  // ---------------------------------------------------------------- what is sent

  function NextFor(n: Node, p: NodeId): nat {
    if p in n.nextIndex then n.nextIndex[p] else 1
  }

  function TermBefore(log: seq<Entry>, count: nat): nat {
    if 0 < count <= |log| then log[count - 1].term else 0
  }

  /** The AppendEntries that a leader owes p: whatever of its log p is not known to have. */
  predicate Carries(n: Node, e: Envelope, p: NodeId) {
    && e.to == p && e.msg.AppendEntries? && e.msg.term == n.term && e.msg.leader == n.id
    && e.msg.leaderCommit == n.commitIndex
    && e.msg.prevIndex + 1 == NextFor(n, p)
    && e.msg.prevTerm == TermBefore(n.log, e.msg.prevIndex)
    && e.msg.entries == if e.msg.prevIndex <= |n.log| then n.log[e.msg.prevIndex..] else []
  }

  /** One for each peer, in peer order, behind what was there. */
  ghost predicate SentToAll(before: seq<Envelope>, n': Node) {
    && |n'.outbox| == |before| + |n'.peers| && before <= n'.outbox
    && forall i :: 0 <= i < |n'.peers| ==> Carries(n', n'.outbox[|before| + i], n'.peers[i])
  }

  ghost predicate Numbered(log: seq<Entry>) {
    forall k :: 0 <= k < |log| ==> log[k].index == k + 1
  }

  ghost predicate NextPositive(n: Node) {
    forall p :: p in n.nextIndex ==> n.nextIndex[p] >= 1
  }

  // ---------------------------------------------------------------- what stands

  ghost predicate SameLog(n: Node, n': Node) {
    n'.log == n.log && n'.commitIndex == n.commitIndex && n'.lastApplied == n.lastApplied && n'.committed == n.committed
  }

  ghost predicate SameBallot(n: Node, n': Node) {
    n'.term == n.term && n'.votedFor == n.votedFor && n'.votes == n.votes
  }

  ghost predicate SameProgress(n: Node, n': Node) {
    n'.nextIndex == n.nextIndex && n'.matchIndex == n.matchIndex
  }

  ghost predicate SameTimers(n: Node, n': Node) {
    n'.electionElapsed == n.electionElapsed && n'.heartbeatElapsed == n.heartbeatElapsed
  }

  /** A newer term: the vote and the tally are forgotten. */
  ghost predicate Renewed(n: Node, term: nat, n': Node) {
    if term > n.term then n'.term == term && n'.votedFor == None && n'.votes == [] else SameBallot(n, n')
  }

  // ---------------------------------------------------------------- the duties

  predicate Majority(n: Node, votes: seq<NodeId>) {
    2 * |votes| > |n.peers| + 1
  }

  /** A new leader takes its peers to have nothing and itself everything, and tells them at once. */
  ghost predicate Crowned(n: Node, n': Node) {
    && n'.role == Leader && n'.heartbeatElapsed == 0
    && n'.nextIndex.Keys == n.nextIndex.Keys + (set p | p in n.peers)
    && n'.matchIndex.Keys == n.matchIndex.Keys + (set p | p in n.peers) + {n.id}
    && (forall p :: p in n'.nextIndex ==> n'.nextIndex[p] == if p in n.peers then |n.log| + 1 else n.nextIndex[p])
    && (forall p :: p in n'.matchIndex ==>
          n'.matchIndex[p] == if p == n.id then |n.log| else if p in n.peers then 0 else n.matchIndex[p])
    && SentToAll(n.outbox, n')
  }

  /** Every third tick of a leader sends to every peer. */
  ghost predicate LeaderTickDuty(n: Node, n': Node) {
    && n'.role == Leader && SameBallot(n, n') && SameLog(n, n') && SameProgress(n, n')
    && n'.electionElapsed == n.electionElapsed
    && if n.heartbeatElapsed + 1 >= 3 then n'.heartbeatElapsed == 0 && SentToAll(n.outbox, n')
       else n'.heartbeatElapsed == n.heartbeatElapsed + 1 && n'.outbox == n.outbox
  }

  /** A follower or candidate stands for election at its tenth tick. */
  ghost predicate OtherTickDuty(n: Node, n': Node) {
    && SameLog(n, n')
    && if n.electionElapsed + 1 >= 10 then
         && n'.term == n.term + 1 && n'.votedFor == Some(n.id) && n'.votes == [n.id] && n'.electionElapsed == 0
         && if Majority(n, [n.id]) then Crowned(n, n')
            else
              && n'.role == Candidate && SameProgress(n, n') && n'.heartbeatElapsed == n.heartbeatElapsed
              && |n'.outbox| == |n.outbox| + |n.peers| && n.outbox <= n'.outbox
              && forall i :: 0 <= i < |n.peers| ==>
                   n'.outbox[|n.outbox| + i]
                     == Envelope(n.peers[i], RequestVote(n'.term, n.id, |n.log|, TermBefore(n.log, |n.log|)))
       else
         && n'.role == n.role && SameBallot(n, n') && SameProgress(n, n') && n'.outbox == n.outbox
         && n'.electionElapsed == n.electionElapsed + 1 && n'.heartbeatElapsed == n.heartbeatElapsed
  }

  ghost predicate ProposeDuty(n: Node, data: seq<byte>, n': Node) {
    if n.role != Leader then n' == n
    else
      && n'.role == Leader && SameBallot(n, n') && SameTimers(n, n')
      && n'.log == n.log + [Entry(|n.log| + 1, n.term, data)]
      && n'.commitIndex == n.commitIndex && n'.lastApplied == n.lastApplied && n'.committed == n.committed
      && n'.nextIndex == n.nextIndex && n'.matchIndex == n.matchIndex[n.id := |n.log| + 1]
      && SentToAll(n.outbox, n')
  }

  /** Every request for a vote is answered. */
  ghost predicate RequestVoteDuty(n: Node, msg: Message, n': Node)
    requires msg.RequestVote?
  {
    var last := TermBefore(n.log, |n.log|);
    var granted := msg.term >= n.term
                   && (msg.term > n.term || n.votedFor == None || n.votedFor == Some(msg.candidate))
                   && (msg.lastLogTerm > last || (msg.lastLogTerm == last && msg.lastLogIndex >= |n.log|));
    && SameLog(n, n') && SameProgress(n, n') && n'.heartbeatElapsed == n.heartbeatElapsed
    && n'.term == (if msg.term > n.term then msg.term else n.term)
    && n'.role == (if msg.term > n.term then Follower else n.role)
    && n'.votes == (if msg.term > n.term then [] else n.votes)
    && n'.votedFor == (if granted then Some(msg.candidate) else if msg.term > n.term then None else n.votedFor)
    && n'.electionElapsed == (if granted then 0 else n.electionElapsed)
    && n'.outbox == n.outbox + [Envelope(msg.candidate, RequestVoteResponse(n'.term, n.id, granted))]
  }

  /** A candidate counts each voter once and is leader as soon as it has a majority. */
  ghost predicate VoteResponseDuty(n: Node, msg: Message, n': Node)
    requires msg.RequestVoteResponse?
  {
    && SameLog(n, n') && n'.electionElapsed == n.electionElapsed
    && if msg.term > n.term then
         && Renewed(n, msg.term, n') && n'.role == Follower && SameProgress(n, n') && SameTimers(n, n')
         && n'.outbox == n.outbox
       else if n.role != Candidate || msg.term != n.term then n' == n
       else
         && n'.term == n.term && n'.votedFor == n.votedFor
         && n'.votes == (if msg.granted && msg.voter !in n.votes then n.votes + [msg.voter] else n.votes)
         && if Majority(n, n'.votes) then Crowned(n, n')
            else n'.role == Candidate && SameProgress(n, n') && SameTimers(n, n') && n'.outbox == n.outbox
  }

  /** The log has the entry before the message's. */
  predicate Fits(n: Node, msg: Message)
    requires msg.AppendEntries?
  {
    msg.prevIndex == 0 || (msg.prevIndex <= |n.log| && n.log[msg.prevIndex - 1].term == msg.prevTerm)
  }

  /** A message of an older term is refused and changes nothing else; any other makes a follower, and is
      answered with the length of the log or, if it does not fit, refused. */
  ghost predicate AppendEntriesDuty(n: Node, msg: Message, n': Node)
    requires msg.AppendEntries?
  {
    && SameProgress(n, n') && n'.heartbeatElapsed == n.heartbeatElapsed
    && if msg.term < n.term then
         && n'.role == n.role && SameBallot(n, n') && SameLog(n, n') && SameTimers(n, n')
         && n'.outbox == n.outbox + [Envelope(msg.leader, AppendEntriesResponse(n.term, n.id, false, 0))]
       else
         && n'.role == Follower && n'.electionElapsed == 0 && Renewed(n, msg.term, n')
         && if !Fits(n, msg) then
              && SameLog(n, n')
              && n'.outbox == n.outbox + [Envelope(msg.leader, AppendEntriesResponse(msg.term, n.id, false, 0))]
            else
              && n'.outbox == n.outbox
                   + [Envelope(msg.leader, AppendEntriesResponse(msg.term, n.id, true, |n'.log|))]
              && (msg.leaderCommit <= n.commitIndex ==>
                    n'.commitIndex == n.commitIndex && n'.lastApplied == n.lastApplied && n'.committed == n.committed)
  }

  /** A leader takes a better match over and steps back and sends again after a refusal. */
  ghost predicate AppendResponseDuty(n: Node, msg: Message, n': Node)
    requires msg.AppendEntriesResponse?
  {
    var f := msg.follower;
    && n'.log == n.log && SameTimers(n, n')
    && if msg.term > n.term then
         && Renewed(n, msg.term, n') && n'.role == Follower && SameLog(n, n') && SameProgress(n, n')
         && n'.outbox == n.outbox
       else if n.role != Leader || msg.term != n.term then n' == n
       else if msg.success then
         && n'.role == Leader && SameBallot(n, n') && n'.outbox == n.outbox
         && if f !in n.matchIndex && msg.matched == 0 then SameProgress(n, n')
            else if f in n.matchIndex && msg.matched <= n.matchIndex[f] then SameProgress(n, n')
            else n'.matchIndex == n.matchIndex[f := msg.matched] && n'.nextIndex == n.nextIndex[f := msg.matched + 1]
       else
         && n'.role == Leader && SameBallot(n, n') && SameLog(n, n') && n'.matchIndex == n.matchIndex
         && n'.nextIndex == n.nextIndex[f := if NextFor(n, f) >= 2 then NextFor(n, f) - 1 else 1]
         && |n'.outbox| == |n.outbox| + 1 && n.outbox <= n'.outbox && Carries(n', n'.outbox[|n.outbox|], f)
  }

  ghost predicate Duty(n: Node, a: Action, n': Node) {
    && n'.id == n.id && n'.peers == n.peers
    && match a
       case Tick => if n.role == Leader then LeaderTickDuty(n, n') else OtherTickDuty(n, n')
       case Propose(data) => ProposeDuty(n, data, n')
       case Advance => n' == n.(outbox := [], committed := [])
       case Receive(msg) =>
         match msg
         case RequestVote(_, _, _, _) => RequestVoteDuty(n, msg, n')
         case RequestVoteResponse(_, _, _) => VoteResponseDuty(n, msg, n')
         case AppendEntries(_, _, _, _, _, _) => AppendEntriesDuty(n, msg, n')
         case AppendEntriesResponse(_, _, _, _) => AppendResponseDuty(n, msg, n')
  }

  // ---------------------------------------------------------------- handler by handler

  lemma CarriesPayload(n: Node, p: NodeId)
    requires Numbered(n.log) && NextFor(n, p) >= 1
    ensures Carries(n, Envelope(p, AppendMessage(n, Lookup(n.nextIndex, p, 1))), p)
  {
    EntriesFromSuffix(n.log, NextFor(n, p));
  }

  lemma HeartbeatReaches(n: Node, i: nat)
    requires Numbered(n.log) && NextPositive(n) && i < |n.peers|
    ensures var n' := SendHeartbeats(n);
            |n.outbox| + i < |n'.outbox| && Carries(n', n'.outbox[|n.outbox| + i], n.peers[i])
  {
    CarriesPayload(SendHeartbeats(n), n.peers[i]);
  }

  lemma HeartbeatsReachAll(n: Node)
    requires Numbered(n.log) && NextPositive(n)
    ensures SentToAll(n.outbox, SendHeartbeats(n))
  {
    var n' := SendHeartbeats(n);
    forall i | 0 <= i < |n.peers|
      ensures Carries(n', n'.outbox[|n.outbox| + i], n.peers[i])
    {
      HeartbeatReaches(n, i);
    }
  }

  lemma CrownedIs(n: Node)
    requires Numbered(n.log) && NextPositive(n)
    ensures Crowned(n, BecomeLeader(n))
  {
    SetAllKeys(n.nextIndex, n.peers, |n.log| + 1);
    SetAllKeys(n.matchIndex, n.peers, 0);
    SetAllOthers(n.nextIndex, n.peers, |n.log| + 1);
    SetAllOthers(n.matchIndex, n.peers, 0);
    HeartbeatsReachAll(n.(
      role := Leader,
      heartbeatElapsed := 0,
      nextIndex := SetAll(n.nextIndex, n.peers, |n.log| + 1),
      matchIndex := SetAll(n.matchIndex, n.peers, 0)[n.id := |n.log|]));
  }

  lemma {:induction false} SetAllOthers(m: map<NodeId, nat>, keys: seq<NodeId>, v: nat)
    ensures forall f :: f in m && f !in keys ==> f in SetAll(m, keys, v) && SetAll(m, keys, v)[f] == m[f]
  {
    if keys != [] {
      SetAllOthers(m, keys[..|keys| - 1], v);
      SetAllKeys(m, keys, v);
    }
  }

  lemma LeaderTick(n: Node)
    requires Numbered(n.log) && NextPositive(n) && n.role == Leader
    ensures LeaderTickDuty(n, TickNode(n))
  {
    HeartbeatsReachAll(n.(heartbeatElapsed := 0));
  }

  lemma CrownedFrom(n: Node, c: Node, n': Node)
    requires Crowned(c, n') && c.nextIndex == n.nextIndex && c.matchIndex == n.matchIndex && c.peers == n.peers
    requires c.id == n.id && c.log == n.log && c.outbox == n.outbox
    ensures Crowned(n, n')
  {
  }

  /** What an election does before it sends anything. */
  lemma StandsForElection(n: Node)
    requires Numbered(n.log) && NextPositive(n)
    ensures var n' := StartElection(n);
            && n'.term == n.term + 1 && n'.votedFor == Some(n.id) && n'.votes == [n.id] && n'.electionElapsed == 0
            && SameLog(n, n') && n'.id == n.id && n'.peers == n.peers
            && (Majority(n, [n.id]) ==> Crowned(n, n'))
            && (!Majority(n, [n.id]) ==> n' == SendVoteRequests(Candidacy(n)))
  {
    var c := Candidacy(n);
    if Majority(n, [n.id]) {
      CrownedIs(c);
      CrownedFrom(n, c, BecomeLeader(c));
    }
  }

  lemma RequestsReachAll(n: Node)
    requires Numbered(n.log)
    ensures var n' := SendVoteRequests(n);
            && |n'.outbox| == |n.outbox| + |n.peers| && n.outbox <= n'.outbox
            && forall i :: 0 <= i < |n.peers| ==>
                 n'.outbox[|n.outbox| + i]
                   == Envelope(n.peers[i], RequestVote(n.term, n.id, |n.log|, TermBefore(n.log, |n.log|)))
  {
    assert LastIndex(n.log) == |n.log| && LastTerm(n.log) == TermBefore(n.log, |n.log|);
    forall i | 0 <= i < |n.peers|
      ensures SendVoteRequests(n).outbox[|n.outbox| + i] == VoteRequests(n, n.peers)[i]
    {
    }
  }

  lemma OtherTick(n: Node)
    requires Numbered(n.log) && NextPositive(n) && n.role != Leader
    ensures OtherTickDuty(n, TickNode(n))
  {
    if n.electionElapsed + 1 >= 10 {
      var m := n.(electionElapsed := n.electionElapsed + 1);
      StandsForElection(m);
      RequestsReachAll(Candidacy(m));
      if Majority(n, [n.id]) {
        CrownedFrom(n, m, TickNode(n));
      }
    }
  }

  lemma ProposesDutifully(n: Node, data: seq<byte>)
    requires Numbered(n.log) && NextPositive(n)
    ensures Duty(n, Propose(data), ProposeNode(n, data))
  {
    if n.role == Leader {
      var index := |n.log| + 1;
      HeartbeatsReachAll(
        n.(log := n.log + [Entry(index, n.term, data)], matchIndex := n.matchIndex[n.id := index]));
    }
  }

  lemma VotesDutifully(n: Node, msg: Message)
    requires Numbered(n.log) && msg.RequestVote?
    ensures RequestVoteDuty(n, msg, ReceiveNode(n, msg))
  {
  }

  lemma CountsVote(n: Node, msg: Message)
    requires Numbered(n.log) && NextPositive(n) && msg.RequestVoteResponse? && msg.term == n.term && n.role == Candidate
    ensures VoteResponseDuty(n, msg, ReceiveNode(n, msg))
  {
    var m := if msg.granted && msg.voter !in n.votes then n.(votes := n.votes + [msg.voter]) else n;
    assert ReceiveNode(n, msg) == if Majority(n, m.votes) then BecomeLeader(m) else m;
    if Majority(n, m.votes) {
      CrownedIs(m);
      CrownedFrom(n, m, BecomeLeader(m));
    }
  }

  lemma CountsDutifully(n: Node, msg: Message)
    requires Numbered(n.log) && NextPositive(n) && msg.RequestVoteResponse?
    ensures VoteResponseDuty(n, msg, ReceiveNode(n, msg))
  {
    if msg.term == n.term && n.role == Candidate {
      CountsVote(n, msg);
    }
  }

  lemma AppendsDutifully(n: Node, msg: Message)
    requires msg.AppendEntries?
    ensures AppendEntriesDuty(n, msg, ReceiveNode(n, msg))
  {
    var m := if msg.term > n.term then n.(term := msg.term, votedFor := None, votes := []) else n;
    ApplyFrame(Accepted(m.(role := Follower, electionElapsed := 0), msg.entries, msg.leaderCommit));
  }

  lemma TakesMatch(n: Node, msg: Message)
    requires msg.AppendEntriesResponse? && msg.success && n.role == Leader && msg.term == n.term
    ensures AppendResponseDuty(n, msg, ReceiveNode(n, msg))
  {
    var m := AfterMatch(n, msg);
    match HighestCommittable(m, |m.log|)
    case None =>
    case Some(i) => ApplyFrame(m.(commitIndex := i));
  }

  lemma StepsBack(n: Node, msg: Message)
    requires Numbered(n.log) && msg.AppendEntriesResponse? && !msg.success && n.role == Leader && msg.term == n.term
    ensures AppendResponseDuty(n, msg, ReceiveNode(n, msg))
  {
    var f, n' := msg.follower, ReceiveNode(n, msg);
    CarriesPayload(n', f);
  }

  /** Every step of a node with a numbered log does its duty. */
  lemma StepDuty(n: Node, a: Action)
    requires Numbered(n.log) && NextPositive(n)
    ensures Duty(n, a, NodeStep(n, a))
  {
    StepEffect(n, a);
    match a
    case Tick => if n.role == Leader { LeaderTick(n); } else { OtherTick(n); }
    case Propose(data) => ProposesDutifully(n, data);
    case Advance =>
    case Receive(msg) =>
      match msg
      case RequestVote(_, _, _, _) => VotesDutifully(n, msg);
      case RequestVoteResponse(_, _, _) => CountsDutifully(n, msg);
      case AppendEntries(_, _, _, _, _, _) => AppendsDutifully(n, msg);
      case AppendEntriesResponse(_, _, _, _) =>
        if n.role == Leader && msg.term == n.term {
          if msg.success {
            TakesMatch(n, msg);
          } else {
            StepsBack(n, msg);
          }
        }
  }

  // ---------------------------------------------------------------- the log and the commit index

  /** The message's entries, in a row behind `prev`. */
  ghost predicate InARow(prev: nat, entries: seq<Entry>) {
    forall i :: 0 <= i < |entries| ==> entries[i].index == prev + 1 + i
  }

  /** The first i entries are in the log already, by their terms. */
  ghost predicate Present(log: seq<Entry>, prev: nat, entries: seq<Entry>, i: nat) {
    i <= |entries| && prev + i <= |log| && forall j :: 0 <= j < i ==> log[prev + j].term == entries[j].term
  }

  /** An accepted message changes nothing if the log has all its entries. Otherwise the log is kept up to the
      first entry that it does not have, and that entry and the rest of the message stand behind. */
  lemma {:induction false} MergeExactly(log: seq<Entry>, prev: nat, entries: seq<Entry>) returns (i: nat)
    requires Numbered(log) && prev <= |log| && InARow(prev, entries)
    ensures Present(log, prev, entries, i) && (i < |entries| ==> !Present(log, prev, entries, i + 1))
    ensures Merge(log, entries) == if i == |entries| then log else log[..prev + i] + entries[i..]
  {
    i := 0;
    if entries != [] {
      var k := |entries| - 1;
      i := MergeExactly(log, prev, entries[..k]);
      if i < k {
        Replaced(log, prev, entries, i);
      } else {
        AllPresent(log, prev, entries);
        if Present(log, prev, entries, k + 1) {
          i := k + 1;
        }
      }
    }
  }

  lemma Replaced(log: seq<Entry>, prev: nat, entries: seq<Entry>, i: nat)
    requires i < |entries| - 1 && InARow(prev, entries)
    requires var front := entries[..|entries| - 1];
             && Present(log, prev, front, i) && !Present(log, prev, front, i + 1)
             && Merge(log, front) == log[..prev + i] + front[i..]
    ensures Present(log, prev, entries, i) && !Present(log, prev, entries, i + 1)
    ensures Merge(log, entries) == log[..prev + i] + entries[i..]
  {
    PresentFront(log, prev, entries, i);
    PresentFront(log, prev, entries, i + 1);
    MergeBehind(log[..prev + i], entries, i);
  }

  lemma AllPresent(log: seq<Entry>, prev: nat, entries: seq<Entry>)
    requires entries != [] && InARow(prev, entries)
    requires var k := |entries| - 1;
             Present(log, prev, entries[..k], k) && Merge(log, entries[..k]) == log
    ensures var k := |entries| - 1;
            && Present(log, prev, entries, k)
            && Merge(log, entries)
                 == if Present(log, prev, entries, k + 1) then log else log[..prev + k] + entries[k..]
  {
    var k := |entries| - 1;
    PresentFront(log, prev, entries, k);
    PresentFront(log, prev, entries, k + 1);
    MergeLast(log, prev + k, entries[k]);
    assert entries[k..] == [entries[k]];
  }

  lemma PresentFront(log: seq<Entry>, prev: nat, entries: seq<Entry>, i: nat)
    requires entries != []
    ensures var k := |entries| - 1;
            && (i <= k ==> (Present(log, prev, entries[..k], i) <==> Present(log, prev, entries, i)))
            && (i == k + 1 ==>
                  (Present(log, prev, entries, i) <==>
                   Present(log, prev, entries, k) && prev + k < |log| && log[prev + k].term == entries[k].term))
  {
    var k := |entries| - 1;
    assert forall j :: 0 <= j < k ==> entries[..k][j] == entries[j];
  }

  /** One more entry behind entries that were not there. */
  lemma MergeBehind(kept: seq<Entry>, entries: seq<Entry>, i: nat)
    requires i < |entries| - 1 && entries[|entries| - 1].index == |kept| + |entries| - i
    ensures MergeOne(kept + entries[..|entries| - 1][i..], entries[|entries| - 1]) == kept + entries[i..]
  {
  }

  lemma MergeLast(log: seq<Entry>, at: nat, e: Entry)
    requires at <= |log| && e.index == at + 1
    ensures MergeOne(log, e) == if at < |log| && log[at].term == e.term then log else log[..at] + [e]
  {
  }

  /** The commit index and the applied counter after an accepted message. */
  lemma AppendCommits(n: Node, msg: Message)
    requires msg.AppendEntries? && msg.term >= n.term && Fits(n, msg) && msg.leaderCommit > n.commitIndex
    ensures var n' := ReceiveNode(n, msg);
            var last := if msg.entries == [] then |n'.log| else msg.entries[|msg.entries| - 1].index;
            && n'.log == Merge(n.log, msg.entries)
            && n'.commitIndex == (if msg.leaderCommit <= last then msg.leaderCommit else last)
            && n'.lastApplied == (if n.lastApplied < n'.commitIndex then n'.commitIndex else n.lastApplied)
            && (n'.commitIndex <= |n'.log| ==>
                  n'.committed == n.committed
                    + if n.lastApplied < n'.commitIndex then n'.log[n.lastApplied..n'.commitIndex] else [])
  {
    var m := if msg.term > n.term then n.(term := msg.term, votedFor := None, votes := []) else n;
    ApplyShape(Accepted(m.(role := Follower, electionElapsed := 0), msg.entries, msg.leaderCommit));
  }

  /** A majority of the cluster is known to have the first i entries, and the last of them is of this term. */
  ghost predicate Backing(n: Node, i: nat) {
    && 1 <= i <= |n.log| && n.log[i - 1].term == n.term
    && 2 * |set k | k in n.matchIndex && n.matchIndex[k] >= i| > |n.peers| + 1
  }

  /** After a success a leader has committed the most that it can, and applied it. */
  lemma CommitsMost(n: Node, msg: Message)
    requires msg.AppendEntriesResponse? && msg.success && n.role == Leader && msg.term == n.term
    ensures var n' := ReceiveNode(n, msg);
            && n.commitIndex <= n'.commitIndex && (n'.commitIndex > n.commitIndex ==> Backing(n', n'.commitIndex))
            && (forall i: nat :: i > n'.commitIndex ==> !Backing(n', i))
            && (n'.commitIndex == n.commitIndex ==> n'.lastApplied == n.lastApplied && n'.committed == n.committed)
            && (n'.commitIndex > n.commitIndex ==>
                  && n'.lastApplied == (if n.lastApplied < n'.commitIndex then n'.commitIndex else n.lastApplied)
                  && n'.committed == n.committed
                       + if n.lastApplied < n'.commitIndex then n'.log[n.lastApplied..n'.commitIndex] else [])
  {
    var m, n' := AfterMatch(n, msg), ReceiveNode(n, msg);
    HighestCommittableIsGreatest(m, |m.log|);
    match HighestCommittable(m, |m.log|)
    case None => BackingIs(m);
    case Some(c) =>
      ApplyShape(m.(commitIndex := c));
      BackingIs(m);
      BackingSame(m, n');
  }

  lemma BackingIs(n: Node)
    ensures forall i: nat :: Backing(n, i) <==> 1 <= i <= |n.log| && Committable(n, i)
  {
    forall i: nat
      ensures Backing(n, i) <==> 1 <= i <= |n.log| && Committable(n, i)
    {
      assert Reporters(n, i) == set k | k in n.matchIndex && n.matchIndex[k] >= i;
    }
  }

  lemma BackingSame(n: Node, n': Node)
    requires n'.log == n.log && n'.term == n.term && n'.matchIndex == n.matchIndex && n'.peers == n.peers
    ensures forall i: nat :: Backing(n, i) <==> Backing(n', i)
  {
  }

  // ---------------------------------------------------------------- runs

  lemma KeepsNextPositive(n: Node, a: Action)
    requires Numbered(n.log) && NextPositive(n)
    ensures NextPositive(NodeStep(n, a))
  {
    StepDuty(n, a);
  }

  lemma {:induction false} RunReady(states: seq<Cluster>, moves: seq<Move>, k: nat)
    requires Run(states, moves) && k <= |moves|
    ensures forall i :: i in states[k].nodes ==> Numbered(states[k].nodes[i].log) && NextPositive(states[k].nodes[i])
  {
    RunInv(states, moves, k);
    forall i | i in states[k].nodes
      ensures Numbered(states[k].nodes[i].log)
    {
      BackedIndices(states[k].nodes[i].log, HistoryAt(states, moves, k).logs);
    }
    if k > 0 {
      RunReady(states, moves, k - 1);
      StepOfRun(states, moves, k - 1);
      assert states[k] == Next(states[k - 1], moves[k - 1]);
      KeepsNextPositive(states[k - 1].nodes[moves[k - 1].id], moves[k - 1].action);
    }
  }

  /** In every run each step does its node's duty, leaves the other nodes alone, and posts what is in the
      node's outbox; nothing leaves the network and nothing else enters it. */
  lemma RunDuty(states: seq<Cluster>, moves: seq<Move>, k: nat)
    requires Run(states, moves) && k < |moves|
    ensures var s, s', i := states[k], states[k + 1], moves[k].id;
            && i in s.nodes && s'.nodes.Keys == s.nodes.Keys
            && Duty(s.nodes[i], moves[k].action, s'.nodes[i])
            && (forall j :: j in s.nodes && j != i ==> s'.nodes[j] == s.nodes[j])
            && forall e :: e in s'.network <==> e in s.network || e in s'.nodes[i].outbox
  {
    RunReady(states, moves, k);
    StepOfRun(states, moves, k);
    assert states[k + 1] == Next(states[k], moves[k]);
    StepDuty(states[k].nodes[moves[k].id], moves[k].action);
  }

  ghost predicate LeadsFrom(states: seq<Cluster>, i: NodeId, j: nat, k: nat)
    requires k < |states|
  {
    forall m :: j <= m <= k ==> i in states[m].nodes && states[m].nodes[i].role == Leader
  }

  /** Only ticks move the timer of a leader. */
  lemma {:induction false} TimerRests(states: seq<Cluster>, moves: seq<Move>, i: NodeId, j: nat, k: nat)
    requires Run(states, moves) && j <= k <= |moves| && LeadsFrom(states, i, j, k)
    requires forall m :: j <= m < k ==> moves[m] != Move(i, Tick)
    ensures states[k].nodes[i].heartbeatElapsed == states[j].nodes[i].heartbeatElapsed
    decreases k
  {
    if j < k {
      TimerRests(states, moves, i, j, k - 1);
      TimerStep(states, moves, i, k - 1);
    }
  }

  lemma TimerStep(states: seq<Cluster>, moves: seq<Move>, i: NodeId, m: nat)
    requires Run(states, moves) && m < |moves| && LeadsFrom(states, i, m, m + 1) && moves[m] != Move(i, Tick)
    ensures states[m + 1].nodes[i].heartbeatElapsed == states[m].nodes[i].heartbeatElapsed
  {
    RunDuty(states, moves, m);
    if moves[m].id == i {
      DutyTimer(states[m].nodes[i], moves[m].action, states[m + 1].nodes[i]);
    }
  }

  lemma DutyTimer(n: Node, a: Action, n': Node)
    requires Duty(n, a, n') && n.role == Leader && n'.role == Leader && a != Tick
    ensures n'.heartbeatElapsed == n.heartbeatElapsed
  {
  }

  /** What n owes to p is in the network. */
  ghost predicate Told(s: Cluster, n: Node, p: NodeId) {
    exists e :: e in s.network && Carries(n, e, p)
  }

  ghost predicate Beats(s: Cluster, i: NodeId) {
    i in s.nodes && forall p :: p in s.nodes[i].peers ==> Told(s, s.nodes[i], p)
  }

  lemma TickBeats(states: seq<Cluster>, moves: seq<Move>, i: NodeId, m: nat)
    requires Run(states, moves) && m < |moves| && moves[m] == Move(i, Tick) && i in states[m].nodes
    requires states[m].nodes[i].role == Leader
    ensures i in states[m + 1].nodes && states[m + 1].nodes[i].role == Leader
    ensures states[m].nodes[i].heartbeatElapsed + 1 >= 3 ==> Beats(states[m + 1], i)
    ensures states[m].nodes[i].heartbeatElapsed + 1 < 3 ==>
              states[m + 1].nodes[i].heartbeatElapsed == states[m].nodes[i].heartbeatElapsed + 1
  {
    RunDuty(states, moves, m);
    var n, n' := states[m].nodes[i], states[m + 1].nodes[i];
    if n.heartbeatElapsed + 1 >= 3 {
      forall p | p in n'.peers
        ensures Told(states[m + 1], n', p)
      {
        var q :| 0 <= q < |n'.peers| && n'.peers[q] == p;
        assert Carries(n', n'.outbox[|n.outbox| + q], p);
        assert n'.outbox[|n.outbox| + q] in n'.outbox;
      }
    }
  }

  /** Heartbeats: of any three ticks in a row of a node that leads all the while, one sends an AppendEntries to
      every peer, whatever else the node does in between. */
  lemma ThreeTicks(states: seq<Cluster>, moves: seq<Move>, i: NodeId, a: nat, b: nat, c: nat) returns (m: nat)
    requires Run(states, moves) && a < b < c < |moves| && LeadsFrom(states, i, a, c)
    requires moves[a] == Move(i, Tick) && moves[b] == Move(i, Tick) && moves[c] == Move(i, Tick)
    requires forall k :: a < k < c && k != b ==> moves[k] != Move(i, Tick)
    ensures (m == a || m == b || m == c) && Beats(states[m + 1], i)
  {
    assert |states| == |moves| + 1;
    TickBeats(states, moves, i, a);
    TimerRests(states, moves, i, a + 1, b);
    TickBeats(states, moves, i, b);
    TimerRests(states, moves, i, b + 1, c);
    TickBeats(states, moves, i, c);
    var elapsed := states[a].nodes[i].heartbeatElapsed;
    m := if elapsed >= 2 then a else if elapsed == 1 then b else c;
  }

  /** Somebody has answered a request of this term. */
  ghost predicate VoteAnswered(s: Cluster, to: NodeId, voter: NodeId, term: nat) {
    exists e :: e in s.network && e.to == to && e.msg.RequestVoteResponse? && e.msg.voter == voter && e.msg.term >= term
  }

  ghost predicate AppendAnswered(s: Cluster, to: NodeId, follower: NodeId, term: nat) {
    exists e :: e in s.network && e.to == to && e.msg.AppendEntriesResponse? && e.msg.follower == follower
                && e.msg.term >= term
  }

  lemma AnswersLast(n: Node, msg: Message, n': Node)
    requires msg.RequestVote? || msg.AppendEntries?
    requires Duty(n, Receive(msg), n')
    ensures n'.outbox != []
    ensures var e := n'.outbox[|n'.outbox| - 1];
            && (msg.RequestVote? ==>
                  e.to == msg.candidate && e.msg.RequestVoteResponse? && e.msg.voter == n.id && e.msg.term >= msg.term)
            && (msg.AppendEntries? ==>
                  && e.to == msg.leader && e.msg.AppendEntriesResponse? && e.msg.follower == n.id
                  && e.msg.term >= msg.term)
  {
  }

  /** Every request that a node receives is answered to whoever sent it. */
  lemma Answered(states: seq<Cluster>, moves: seq<Move>, k: nat)
    requires Run(states, moves) && k < |moves| && moves[k].action.Receive?
    ensures var i, msg := moves[k].id, moves[k].action.msg;
            && (msg.RequestVote? ==> VoteAnswered(states[k + 1], msg.candidate, i, msg.term))
            && (msg.AppendEntries? ==> AppendAnswered(states[k + 1], msg.leader, i, msg.term))
  {
    RunInv(states, moves, k);
    RunDuty(states, moves, k);
    var n, n', msg := states[k].nodes[moves[k].id], states[k + 1].nodes[moves[k].id], moves[k].action.msg;
    if msg.RequestVote? || msg.AppendEntries? {
      AnswersLast(n, msg, n');
      assert n'.outbox[|n'.outbox| - 1] in states[k + 1].network;
    }
  }

  /** In every run, what an accepted message leaves of the log and adds to it. */
  lemma AcceptsExactly(states: seq<Cluster>, moves: seq<Move>, k: nat) returns (i: nat)
    requires Run(states, moves) && k < |moves| && moves[k].id in states[k].nodes
    requires Admits(states[k].nodes[moves[k].id], moves[k].action)
    ensures moves[k].id in states[k + 1].nodes
    ensures var log, log' := states[k].nodes[moves[k].id].log, states[k + 1].nodes[moves[k].id].log;
            var prev, entries := moves[k].action.msg.prevIndex, moves[k].action.msg.entries;
            && Present(log, prev, entries, i) && (i < |entries| ==> !Present(log, prev, entries, i + 1))
            && log' == if i == |entries| then log else log[..prev + i] + entries[i..]
  {
    var n, msg := states[k].nodes[moves[k].id], moves[k].action.msg;
    StepOfRun(states, moves, k);
    RunReady(states, moves, k);
    SentInARow(states, moves, k);
    AcceptedMerges(n, msg);
    i := MergeExactly(n.log, msg.prevIndex, msg.entries);
  }

  lemma SliceInARow(log: seq<Entry>, prev: nat, prevTerm: nat, entries: seq<Entry>)
    requires Numbered(log) && SliceOf(log, prev, prevTerm, entries)
    ensures InARow(prev, entries)
  {
  }

  lemma DeliveredInARow(s: Cluster, h: History, to: NodeId, msg: Message)
    requires AppendsTrue(s, h) && LogsBacked(s, h) && Envelope(to, msg) in s.network && msg.AppendEntries?
    ensures InARow(msg.prevIndex, msg.entries)
  {
    assert Envelope(to, msg).msg.AppendEntries?;
    BackedIndices(h.logs[msg.term], h.logs);
    SliceInARow(h.logs[msg.term], msg.prevIndex, msg.prevTerm, msg.entries);
  }

  lemma SentInARow(states: seq<Cluster>, moves: seq<Move>, k: nat)
    requires Run(states, moves) && k < |moves| && moves[k].action.Receive? && moves[k].action.msg.AppendEntries?
    ensures InARow(moves[k].action.msg.prevIndex, moves[k].action.msg.entries)
  {
    RunInv(states, moves, k);
    StepOfRun(states, moves, k);
    DeliveredInARow(states[k], HistoryAt(states, moves, k), moves[k].id, moves[k].action.msg);
  }
}
