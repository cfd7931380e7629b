/** One node of the Raft cluster in results/v2/raft_consensus_best.rs. */
module RaftNode {
  /* The functions are the specification: each maps the record `Node` (the source's `NodeInner`)
     to the record that one handler leaves behind. The class `Server` at the end is the handlers
     themselves, with the source's loops and in-place updates, each proved to perform exactly its
     specification function. `RaftCluster` proves what the specification achieves in a cluster. */

  import opened Options

  type NodeId = nat
  newtype byte = x: int | 0 <= x < 256

  datatype Role = Follower | Candidate | Leader

  datatype Entry = Entry(index: nat, term: nat, data: seq<byte>)

  datatype Message =
    | RequestVote(term: nat, candidate: NodeId, lastLogIndex: nat, lastLogTerm: nat)
    | RequestVoteResponse(term: nat, voter: NodeId, granted: bool)
    | AppendEntries(term: nat, leader: NodeId, prevIndex: nat, prevTerm: nat,
                    entries: seq<Entry>, leaderCommit: nat)
    | AppendEntriesResponse(term: nat, follower: NodeId, success: bool, matched: nat)

  datatype Envelope = Envelope(to: NodeId, msg: Message)

  const ELECTION_TIMEOUT: nat := 10
  const HEARTBEAT_INTERVAL: nat := 3

  datatype Node = Node(
    id: NodeId,
    peers: seq<NodeId>,
    role: Role,
    term: nat,
    votedFor: Option<NodeId>,
    log: seq<Entry>,
    commitIndex: nat,
    lastApplied: nat,
    nextIndex: map<NodeId, nat>,
    matchIndex: map<NodeId, nat>,
    votes: seq<NodeId>,
    electionElapsed: nat,
    heartbeatElapsed: nat,
    outbox: seq<Envelope>,
    committed: seq<Entry>)

  datatype Action =
    | Tick
    | Propose(data: seq<byte>)
    | Receive(msg: Message)
    | Advance

  // ---------------------------------------------------------------- small pieces

  function InitialNode(id: NodeId, peers: seq<NodeId>): Node {
    Node(id, peers, Follower, 0, None, [], 0, 0, map[], map[], [], 0, 0, [], [])
  }

  function QuorumSize(clusterSize: nat): nat {
    clusterSize / 2 + 1
  }

  function Min(a: nat, b: nat): nat {
    if a <= b then a else b
  }

  /** Subtraction that stops at 0, as `saturating_sub(1)`. */
  function Pred(n: nat): nat {
    if n == 0 then 0 else n - 1
  }

  function Lookup(m: map<NodeId, nat>, k: NodeId, default: nat): nat {
    if k in m then m[k] else default
  }

  function LastIndex(log: seq<Entry>): nat {
    if log == [] then 0 else log[|log| - 1].index
  }

  function LastTerm(log: seq<Entry>): nat {
    if log == [] then 0 else log[|log| - 1].term
  }

  /** The term of the entry before position `prev`; 0 when there is none. */
  function TermAt(log: seq<Entry>, prev: nat): nat {
    if 1 <= prev <= |log| then log[prev - 1].term else 0
  }

  /** The entries whose own index is at least `next`, in log order. */
  function EntriesFrom(log: seq<Entry>, next: nat): seq<Entry> {
    if log == [] then []
    else
      var front := EntriesFrom(log[..|log| - 1], next);
      if log[|log| - 1].index >= next then front + [log[|log| - 1]] else front
  }

  function Emit(n: Node, to: NodeId, msg: Message): Node {
    n.(outbox := n.outbox + [Envelope(to, msg)])
  }

  /** A reply or response carrying a newer term: adopt it and forget the election. */
  function StepDown(n: Node, term: nat): Node {
    n.(term := term, role := Follower, votedFor := None, votes := [])
  }

  // ---------------------------------------------------------------- sending

  function AppendMessage(n: Node, next: nat): Message {
    AppendEntries(n.term, n.id, Pred(next), TermAt(n.log, Pred(next)), EntriesFrom(n.log, next), n.commitIndex)
  }

  function Heartbeats(n: Node, peers: seq<NodeId>): seq<Envelope> {
    seq(|peers|, i requires 0 <= i < |peers| =>
      Envelope(peers[i], AppendMessage(n, Lookup(n.nextIndex, peers[i], 1))))
  }

  function SendHeartbeats(n: Node): Node {
    n.(outbox := n.outbox + Heartbeats(n, n.peers))
  }

  function VoteRequests(n: Node, peers: seq<NodeId>): seq<Envelope> {
    seq(|peers|, i requires 0 <= i < |peers| =>
      Envelope(peers[i], RequestVote(n.term, n.id, LastIndex(n.log), LastTerm(n.log))))
  }

  // ---------------------------------------------------------------- elections

  function SetAll(m: map<NodeId, nat>, keys: seq<NodeId>, v: nat): map<NodeId, nat> {
    if keys == [] then m else SetAll(m, keys[..|keys| - 1], v)[keys[|keys| - 1] := v]
  }

  function BecomeLeader(n: Node): Node {
    SendHeartbeats(n.(
      role := Leader,
      heartbeatElapsed := 0,
      nextIndex := SetAll(n.nextIndex, n.peers, |n.log| + 1),
      matchIndex := SetAll(n.matchIndex, n.peers, 0)[n.id := |n.log|]))
  }

  function Candidacy(n: Node): Node {
    n.(term := n.term + 1, role := Candidate, votedFor := Some(n.id), votes := [n.id], electionElapsed := 0)
  }

  function SendVoteRequests(n: Node): Node {
    n.(outbox := n.outbox + VoteRequests(n, n.peers))
  }

  function StartElection(n: Node): Node {
    var c := Candidacy(n);
    if |c.votes| >= QuorumSize(|c.peers| + 1) then BecomeLeader(c) else SendVoteRequests(c)
  }

  function UpToDate(log: seq<Entry>, lastLogIndex: nat, lastLogTerm: nat): bool {
    lastLogTerm > LastTerm(log) || (lastLogTerm == LastTerm(log) && lastLogIndex >= LastIndex(log))
  }

  function HandleRequestVote(n: Node, term: nat, candidate: NodeId, lastLogIndex: nat, lastLogTerm: nat): Node {
    var m := if term > n.term then StepDown(n, term) else n;
    var grant := term >= m.term && (m.votedFor.None? || m.votedFor == Some(candidate))
                 && UpToDate(m.log, lastLogIndex, lastLogTerm);
    var v := if grant then m.(votedFor := Some(candidate), electionElapsed := 0) else m;
    Emit(v, candidate, RequestVoteResponse(v.term, v.id, grant))
  }

  function HandleVoteResponse(n: Node, term: nat, voter: NodeId, granted: bool): Node {
    if term > n.term then StepDown(n, term)
    else if n.role != Candidate || term != n.term then n
    else
      var m := if granted && voter !in n.votes then n.(votes := n.votes + [voter]) else n;
      if |m.votes| >= QuorumSize(|m.peers| + 1) then BecomeLeader(m) else m
  }

  // ---------------------------------------------------------------- log replication

  /** Places one entry: kept if its slot already holds that term, otherwise the log is cut there
      first. Index 0 wraps around to the largest slot in the source, which is past any log. */
  function MergeOne(log: seq<Entry>, e: Entry): seq<Entry> {
    if 1 <= e.index <= |log| then
      if log[e.index - 1].term != e.term then log[..e.index - 1] + [e] else log
    else log + [e]
  }

  function Merge(log: seq<Entry>, entries: seq<Entry>): seq<Entry> {
    if entries == [] then log
    else MergeOne(Merge(log, entries[..|entries| - 1]), entries[|entries| - 1])
  }

  function ApplyCommitted(n: Node): Node
    decreases n.commitIndex - n.lastApplied
  {
    if n.lastApplied < n.commitIndex then
      ApplyCommitted(n.(lastApplied := n.lastApplied + 1,
                        committed := if n.lastApplied < |n.log| then n.committed + [n.log[n.lastApplied]]
                                     else n.committed))
    else n
  }

  function Matches(log: seq<Entry>, prevIndex: nat, prevTerm: nat): bool {
    prevIndex == 0 || (prevIndex <= |log| && log[prevIndex - 1].term == prevTerm)
  }

  /** The record with which `apply_committed` is called when an AppendEntries raises the commit index. */
  function Accepted(n: Node, entries: seq<Entry>, leaderCommit: nat): Node {
    var log := Merge(n.log, entries);
    if leaderCommit > n.commitIndex then
      n.(log := log,
         commitIndex := Min(leaderCommit, if entries == [] then |log| else entries[|entries| - 1].index))
    else n.(log := log)
  }

  function HandleAppendEntries(n: Node, term: nat, leader: NodeId, prevIndex: nat, prevTerm: nat,
                               entries: seq<Entry>, leaderCommit: nat): Node {
    var m := if term > n.term then n.(term := term, votedFor := None, votes := []) else n;
    if term < m.term then
      Emit(m, leader, AppendEntriesResponse(m.term, m.id, false, 0))
    else
      var f := m.(role := Follower, electionElapsed := 0);
      if !Matches(f.log, prevIndex, prevTerm) then
        Emit(f, leader, AppendEntriesResponse(f.term, f.id, false, 0))
      else
        var a := Accepted(f, entries, leaderCommit);
        var b := if leaderCommit > n.commitIndex then ApplyCommitted(a) else a;
        Emit(b, leader, AppendEntriesResponse(b.term, b.id, true, |b.log|))
  }

  /** The nodes whose last reported match reaches index i. */
  function Reporters(n: Node, i: nat): set<NodeId> {
    set k | k in n.matchIndex && n.matchIndex[k] >= i
  }

  function Replicated(n: Node, i: nat): nat {
    |Reporters(n, i)|
  }

  function Committable(n: Node, i: nat): bool
    requires 1 <= i <= |n.log|
  {
    Replicated(n, i) >= QuorumSize(|n.peers| + 1) && n.log[i - 1].term == n.term
  }

  /** The greatest committable index above the commit index and at most `top`, if there is one. */
  function HighestCommittable(n: Node, top: nat): Option<nat>
    requires top <= |n.log|
  {
    if top <= n.commitIndex then None
    else if Committable(n, top) then Some(top)
    else HighestCommittable(n, top - 1)
  }

  function TryAdvanceCommit(n: Node): Node {
    match HighestCommittable(n, |n.log|)
    case None => n
    case Some(i) => ApplyCommitted(n.(commitIndex := i))
  }

  function HandleAppendEntriesResponse(n: Node, term: nat, follower: NodeId, success: bool, matched: nat): Node {
    if term > n.term then StepDown(n, term)
    else if n.role != Leader || term != n.term then n
    else if success then
      TryAdvanceCommit(
        if matched > Lookup(n.matchIndex, follower, 0)
        then n.(nextIndex := n.nextIndex[follower := matched + 1], matchIndex := n.matchIndex[follower := matched])
        else n)
    else
      var next := Pred(Lookup(n.nextIndex, follower, 1));
      var next := if next < 1 then 1 else next;
      Emit(n.(nextIndex := n.nextIndex[follower := next]), follower, AppendMessage(n, next))
  }

  // ---------------------------------------------------------------- the operations

  function TickNode(n: Node): Node {
    if n.role == Leader then
      if n.heartbeatElapsed + 1 >= HEARTBEAT_INTERVAL then SendHeartbeats(n.(heartbeatElapsed := 0))
      else n.(heartbeatElapsed := n.heartbeatElapsed + 1)
    else
      if n.electionElapsed + 1 >= ELECTION_TIMEOUT then StartElection(n.(electionElapsed := n.electionElapsed + 1))
      else n.(electionElapsed := n.electionElapsed + 1)
  }

  function ProposeNode(n: Node, data: seq<byte>): Node {
    if n.role != Leader then n
    else
      var index := |n.log| + 1;
      SendHeartbeats(n.(log := n.log + [Entry(index, n.term, data)], matchIndex := n.matchIndex[n.id := index]))
  }

  function ReceiveNode(n: Node, msg: Message): Node {
    match msg
    case RequestVote(t, c, li, lt) => HandleRequestVote(n, t, c, li, lt)
    case RequestVoteResponse(t, v, g) => HandleVoteResponse(n, t, v, g)
    case AppendEntries(t, l, pi, pt, es, lc) => HandleAppendEntries(n, t, l, pi, pt, es, lc)
    case AppendEntriesResponse(t, f, s, m) => HandleAppendEntriesResponse(n, t, f, s, m)
  }

  function NodeStep(n: Node, a: Action): Node {
    match a
    case Tick => TickNode(n)
    case Propose(data) => ProposeNode(n, data)
    case Receive(msg) => ReceiveNode(n, msg)
    case Advance => n.(outbox := [], committed := [])
  }

  // ---------------------------------------------------------------- the handlers, in place

  datatype ProposeResult = Appended(index: nat) | NotLeader

  /** `NodeInner` with the handlers that update it. Every method leaves the record that its
      specification function gives for the record it found. */
  class Server {
    const id: NodeId
    const peers: seq<NodeId>
    var role: Role
    var currentTerm: nat
    var votedFor: Option<NodeId>
    var log: seq<Entry>
    var commitIndex: nat
    var lastApplied: nat
    var nextIndex: map<NodeId, nat>
    var matchIndex: map<NodeId, nat>
    var votesReceived: seq<NodeId>
    var electionElapsed: nat
    var heartbeatElapsed: nat
    var pendingMessages: seq<Envelope>
    var pendingCommitted: seq<Entry>

    ghost function View(): Node
      reads this
    {
      Node(id, peers, role, currentTerm, votedFor, log, commitIndex, lastApplied, nextIndex, matchIndex,
           votesReceived, electionElapsed, heartbeatElapsed, pendingMessages, pendingCommitted)
    }

    constructor (id: NodeId, peers: seq<NodeId>)
      ensures View() == InitialNode(id, peers)
    {
      this.id, this.peers := id, peers;
      role, currentTerm, votedFor, log := Follower, 0, None, [];
      commitIndex, lastApplied, nextIndex, matchIndex := 0, 0, map[], map[];
      votesReceived, electionElapsed, heartbeatElapsed := [], 0, 0;
      pendingMessages, pendingCommitted := [], [];
    }

    method Tick()
      modifies this
      ensures View() == TickNode(old(View()))
    {
      if role == Leader {
        heartbeatElapsed := heartbeatElapsed + 1;
        if heartbeatElapsed >= HEARTBEAT_INTERVAL {
          heartbeatElapsed := 0;
          DoSendHeartbeats();
        }
      } else {
        electionElapsed := electionElapsed + 1;
        if electionElapsed >= ELECTION_TIMEOUT {
          DoStartElection();
        }
      }
    }

    method ProposeEntry(data: seq<byte>) returns (result: ProposeResult)
      modifies this
      ensures View() == ProposeNode(old(View()), data)
      ensures result == if old(role) == Leader then Appended(|log|) else NotLeader
      ensures result.Appended? ==> log == old(log) + [Entry(result.index, currentTerm, data)]
    {
      if role != Leader {
        return NotLeader;
      }
      var index := |log| + 1;
      log := log + [Entry(index, currentTerm, data)];
      matchIndex := matchIndex[id := index];
      DoSendHeartbeats();
      result := Appended(index);
    }

    method Step(msg: Message)
      modifies this
      ensures View() == ReceiveNode(old(View()), msg)
    {
      match msg
      case RequestVote(t, c, li, lt) => DoHandleRequestVote(t, c, li, lt);
      case RequestVoteResponse(t, v, g) => DoHandleVoteResponse(t, v, g);
      case AppendEntries(t, l, pi, pt, es, lc) => DoHandleAppendEntries(t, l, pi, pt, es, lc);
      case AppendEntriesResponse(t, f, s, m) => DoHandleAppendEntriesResponse(t, f, s, m);
    }

    method AdvanceReady()
      modifies this
      ensures View() == NodeStep(old(View()), Advance)
    {
      pendingMessages := [];
      pendingCommitted := [];
    }

    method DoStartElection()
      modifies this
      ensures View() == StartElection(old(View()))
    {
      currentTerm := currentTerm + 1;
      role := Candidate;
      votedFor := Some(id);
      votesReceived := [id];
      electionElapsed := 0;
      assert View() == Candidacy(old(View()));
      if |votesReceived| >= QuorumSize(|peers| + 1) {
        DoBecomeLeader();
        return;
      }
      DoSendVoteRequests();
    }

    method DoSendVoteRequests()
      modifies this`pendingMessages
      ensures View() == SendVoteRequests(old(View()))
    {
      ghost var c := View();
      for i := 0 to |peers|
        invariant pendingMessages == c.outbox + VoteRequests(c, peers[..i])
      {
        var msg := RequestVote(currentTerm, id, LastIndex(log), LastTerm(log));
        pendingMessages := pendingMessages + [Envelope(peers[i], msg)];
        assert VoteRequests(c, peers[..i + 1]) == VoteRequests(c, peers[..i]) + [Envelope(peers[i], msg)];
      }
      assert peers[..|peers|] == peers;
    }

    /** The filtering iterator of the two send sites. */
    method CollectFrom(next: nat) returns (entries: seq<Entry>)
      ensures entries == EntriesFrom(log, next)
    {
      entries := [];
      for i := 0 to |log|
        invariant entries == EntriesFrom(log[..i], next)
      {
        if log[i].index >= next {
          entries := entries + [log[i]];
        }
        assert log[..i + 1][..i] == log[..i];
      }
      assert log[..|log|] == log;
    }

    method DoSendHeartbeats()
      modifies this`pendingMessages
      ensures View() == SendHeartbeats(old(View()))
    {
      ghost var n := View();
      for i := 0 to |peers|
        invariant pendingMessages == n.outbox + Heartbeats(n, peers[..i])
      {
        var next := Lookup(nextIndex, peers[i], 1);
        var entries := CollectFrom(next);
        var msg := AppendEntries(currentTerm, id, Pred(next), TermAt(log, Pred(next)), entries, commitIndex);
        pendingMessages := pendingMessages + [Envelope(peers[i], msg)];
        assert Heartbeats(n, peers[..i + 1]) == Heartbeats(n, peers[..i]) + [Envelope(peers[i], msg)];
      }
      assert peers[..|peers|] == peers;
    }

    method DoHandleRequestVote(term: nat, candidate: NodeId, lastLogIndex: nat, lastLogTerm: nat)
      modifies this
      ensures View() == HandleRequestVote(old(View()), term, candidate, lastLogIndex, lastLogTerm)
    {
      if term > currentTerm {
        currentTerm := term;
        role := Follower;
        votedFor := None;
        votesReceived := [];
      }
      var myIndex, myTerm := LastIndex(log), LastTerm(log);
      var logOk := lastLogTerm > myTerm || (lastLogTerm == myTerm && lastLogIndex >= myIndex);
      var granted := term >= currentTerm && (votedFor.None? || votedFor == Some(candidate)) && logOk;
      if granted {
        votedFor := Some(candidate);
        electionElapsed := 0;
      }
      pendingMessages := pendingMessages + [Envelope(candidate, RequestVoteResponse(currentTerm, id, granted))];
    }

    method DoHandleVoteResponse(term: nat, voter: NodeId, granted: bool)
      modifies this
      ensures View() == HandleVoteResponse(old(View()), term, voter, granted)
    {
      if term > currentTerm {
        currentTerm := term;
        role := Follower;
        votedFor := None;
        votesReceived := [];
        return;
      }
      if role != Candidate || term != currentTerm {
        return;
      }
      if granted && voter !in votesReceived {
        votesReceived := votesReceived + [voter];
      }
      if |votesReceived| >= QuorumSize(|peers| + 1) {
        DoBecomeLeader();
      }
    }

    method DoBecomeLeader()
      modifies this
      ensures View() == BecomeLeader(old(View()))
    {
      role := Leader;
      heartbeatElapsed := 0;
      ResetProgress();
      matchIndex := matchIndex[id := |log|];
      DoSendHeartbeats();
    }

    method ResetProgress()
      modifies this`nextIndex, this`matchIndex
      ensures nextIndex == SetAll(old(nextIndex), peers, |log| + 1)
      ensures matchIndex == SetAll(old(matchIndex), peers, 0)
    {
      for i := 0 to |peers|
        invariant nextIndex == SetAll(old(nextIndex), peers[..i], |log| + 1)
        invariant matchIndex == SetAll(old(matchIndex), peers[..i], 0)
      {
        nextIndex := nextIndex[peers[i] := |log| + 1];
        matchIndex := matchIndex[peers[i] := 0];
        assert peers[..i + 1][..i] == peers[..i];
      }
      assert peers[..|peers|] == peers;
    }

    method DoHandleAppendEntries(term: nat, leader: NodeId, prevIndex: nat, prevTerm: nat,
                                 entries: seq<Entry>, leaderCommit: nat)
      modifies this
      ensures View() == HandleAppendEntries(old(View()), term, leader, prevIndex, prevTerm, entries, leaderCommit)
    {
      if term > currentTerm {
        currentTerm := term;
        votedFor := None;
        votesReceived := [];
      }
      if term < currentTerm {
        pendingMessages := pendingMessages + [Envelope(leader, AppendEntriesResponse(currentTerm, id, false, 0))];
        return;
      }
      role := Follower;
      electionElapsed := 0;
      if prevIndex > 0 {
        var hasEntry := prevIndex - 1 < |log| && log[prevIndex - 1].term == prevTerm;
        if !hasEntry {
          pendingMessages := pendingMessages + [Envelope(leader, AppendEntriesResponse(currentTerm, id, false, 0))];
          return;
        }
      }
      AcceptEntries(entries, leaderCommit);
      pendingMessages := pendingMessages + [Envelope(leader, AppendEntriesResponse(currentTerm, id, true, |log|))];
    }

    /** The part of `handle_append_entries` after both rejections. */
    method AcceptEntries(entries: seq<Entry>, leaderCommit: nat)
      modifies this`log, this`commitIndex, this`lastApplied, this`pendingCommitted
      ensures var a := Accepted(old(View()), entries, leaderCommit);
              View() == if leaderCommit > old(commitIndex) then ApplyCommitted(a) else a
    {
      PlaceEntries(entries);
      if leaderCommit > commitIndex {
        var lastNew := if entries == [] then |log| else entries[|entries| - 1].index;
        commitIndex := Min(leaderCommit, lastNew);
        DoApplyCommitted();
      }
    }

    /** The truncate-and-append loop of `handle_append_entries`. */
    method PlaceEntries(entries: seq<Entry>)
      modifies this`log
      ensures log == Merge(old(log), entries)
    {
      for i := 0 to |entries|
        invariant log == Merge(old(log), entries[..i])
      {
        var e := entries[i];
        if e.index > 0 && e.index - 1 < |log| {
          if log[e.index - 1].term != e.term {
            log := log[..e.index - 1];
            log := log + [e];
          }
        } else {
          log := log + [e];
        }
        assert entries[..i + 1][..i] == entries[..i];
      }
      assert entries[..|entries|] == entries;
    }

    method DoApplyCommitted()
      modifies this`lastApplied, this`pendingCommitted
      ensures View() == ApplyCommitted(old(View()))
    {
      while lastApplied < commitIndex
        invariant ApplyCommitted(View()) == ApplyCommitted(old(View()))
      {
        lastApplied := lastApplied + 1;
        if lastApplied - 1 < |log| {
          pendingCommitted := pendingCommitted + [log[lastApplied - 1]];
        }
      }
    }

    method DoHandleAppendEntriesResponse(term: nat, follower: NodeId, success: bool, matched: nat)
      modifies this
      ensures View() == HandleAppendEntriesResponse(old(View()), term, follower, success, matched)
    {
      if term > currentTerm {
        currentTerm := term;
        role := Follower;
        votedFor := None;
        votesReceived := [];
        return;
      }
      if role != Leader || term != currentTerm {
        return;
      }
      if success {
        var currentMatch := Lookup(matchIndex, follower, 0);
        if matched > currentMatch {
          nextIndex := nextIndex[follower := matched + 1];
          matchIndex := matchIndex[follower := matched];
        }
        DoTryAdvanceCommit();
      } else {
        var next := Lookup(nextIndex, follower, 1);
        var newNext := if Pred(next) < 1 then 1 else Pred(next);
        nextIndex := nextIndex[follower := newNext];
        var entries := CollectFrom(newNext);
        var prev := Pred(newNext);
        pendingMessages := pendingMessages +
          [Envelope(follower, AppendEntries(currentTerm, id, prev, TermAt(log, prev), entries, commitIndex))];
      }
    }

    /** Scans the uncommitted indices from the end of the log downwards. */
    method DoTryAdvanceCommit()
      modifies this`commitIndex, this`lastApplied, this`pendingCommitted
      ensures View() == TryAdvanceCommit(old(View()))
    {
      var n := |log|;
      while n > commitIndex
        invariant 0 <= n <= |log|
        invariant View() == old(View())
        invariant HighestCommittable(View(), n) == HighestCommittable(View(), |log|)
      {
        var reporters := set k | k in matchIndex && matchIndex[k] >= n;
        assert reporters == Reporters(View(), n);
        var replicated := |reporters|;
        if replicated >= QuorumSize(|peers| + 1) {
          if log[n - 1].term == currentTerm {
            commitIndex := n;
            DoApplyCommitted();
            break;
          }
        }
        n := n - 1;
      }
    }
  }
}
