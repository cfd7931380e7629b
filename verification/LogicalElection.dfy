/** Leader election on logical states and voter sets. */
module LogicalElection {
  /* The protocol of results/v2/raft_election_best.rs with each packed word replaced by what it
     stands for and each vote mask by the set of its voters. `PackedElection` shows that the words
     refine this.

     Operations on any one server are taken one at a time. Vote requests and heartbeats may be
     anything; only responses have to be real: each was returned by some server for a request in the
     name of the candidate it is delivered to. They may be lost, duplicated and reordered. */

  import opened Collections
  import opened Options
  import opened PackedWord

  type ServerId = nat
  type Term = nat

  datatype VoteRequest = VoteRequest(term: Term, candidate: ServerId)
  datatype VoteResponse = VoteResponse(term: Term, granted: bool, voter: ServerId)
  datatype Heartbeat = Heartbeat(term: Term, leader: ServerId)

  /** One server: its logical state and the servers it counts as having voted for it. */
  datatype Face = Face(l: Logical, voters: set<ServerId>)

  // ---------------------------------------------------------------- one server

  /** A timed-out server stands for the next term with its own vote; alone it has already won. */
  function AfterTimeout(l: Logical, id: ServerId, alone: bool): Logical {
    Logical(l.term + 1, Some(id), if alone then Leader else Candidate)
  }

  function Updated(l: Logical, term: Term): Logical {
    if term > l.term then Logical(term, None, Follower) else l
  }

  predicate Grants(l: Logical, req: VoteRequest) {
    var m := Updated(l, req.term);
    req.term >= m.term && (m.votedFor.None? || m.votedFor == Some(req.candidate))
  }

  function AfterVoteRequest(l: Logical, req: VoteRequest): Logical {
    var m := Updated(l, req.term);
    if Grants(l, req) then m.(votedFor := Some(req.candidate)) else m
  }

  function Asked(f: Face, req: VoteRequest): Face {
    var l' := AfterVoteRequest(f.l, req);
    Face(l', if l'.role == Follower && f.l.role != Follower then {} else f.voters)
  }

  function VoteReply(l: Logical, id: ServerId, req: VoteRequest): VoteResponse {
    VoteResponse(Updated(l, req.term).term, Grants(l, req), id)
  }

  /** Whether a response is counted at all. */
  predicate Counts(l: Logical, resp: VoteResponse, members: set<ServerId>) {
    l.role == Candidate && resp.term == l.term && resp.granted && resp.voter in members
  }

  function Quorum(members: set<ServerId>): nat {
    |members| / 2 + 1
  }

  function Answered(f: Face, id: ServerId, resp: VoteResponse, members: set<ServerId>): Face {
    if resp.term > f.l.term then Face(Logical(resp.term, None, Follower), {})
    else if !Counts(f.l, resp, members) then f
    else
      var voters := f.voters + {resp.voter};
      Face(if |voters| >= Quorum(members) then Logical(f.l.term, Some(id), Leader) else f.l, voters)
  }

  function AfterHeartbeat(l: Logical, hb: Heartbeat): Logical {
    if hb.term > l.term then Logical(hb.term, None, Follower)
    else if hb.term == l.term then l.(role := Follower)
    else l
  }

  function Heard(f: Face, hb: Heartbeat): Face {
    Face(AfterHeartbeat(f.l, hb), if hb.term >= f.l.term then {} else f.voters)
  }

  // ---------------------------------------------------------------- the cluster

  datatype Action =
    | DoTimeout(id: ServerId)
    | DoVoteRequest(id: ServerId, req: VoteRequest)
    | DoVoteResponse(id: ServerId, resp: VoteResponse)
    | DoHeartbeat(id: ServerId, hb: Heartbeat)

  datatype Delivery = Delivery(to: ServerId, resp: VoteResponse)

  datatype Cluster = Cluster(servers: map<ServerId, Face>, responses: set<Delivery>)

  ghost predicate Initial(y: Cluster) {
    && y.responses == {}
    && (forall i :: i in y.servers ==> y.servers[i] == Face(Logical(0, None, Follower), {}))
  }

  predicate Enabled(y: Cluster, a: Action) {
    && a.id in y.servers
    && (a.DoVoteResponse? ==> Delivery(a.id, a.resp) in y.responses)
  }

  function Stepped(y: Cluster, a: Action): Face
    requires a.id in y.servers
  {
    match a
    case DoTimeout(id) => Face(AfterTimeout(y.servers[id].l, id, |y.servers.Keys| == 1), {id})
    case DoVoteRequest(id, req) => Asked(y.servers[id], req)
    case DoVoteResponse(id, resp) => Answered(y.servers[id], id, resp, y.servers.Keys)
    case DoHeartbeat(id, hb) => Heard(y.servers[id], hb)
  }

  function Replies(l: Logical, a: Action): set<Delivery> {
    match a
    case DoVoteRequest(id, req) => {Delivery(req.candidate, VoteReply(l, id, req))}
    case _ => {}
  }

  function Next(y: Cluster, a: Action): Cluster
    requires a.id in y.servers
  {
    Cluster(y.servers[a.id := Stepped(y, a)], y.responses + Replies(y.servers[a.id].l, a))
  }

  // ---------------------------------------------------------------- who voted for whom

  datatype Ballot = Ballot(term: Term, voter: ServerId)

  type Votes = map<Ballot, ServerId>

  function Record(votes: Votes, id: ServerId, l: Logical): Votes {
    match l.votedFor
    case None => votes
    case Some(c) => votes[Ballot(l.term, id) := c]
  }

  ghost predicate VotedFor(votes: Votes, term: Term, voter: ServerId, c: ServerId) {
    Ballot(term, voter) in votes && votes[Ballot(term, voter)] == c
  }

  ghost predicate Grown(votes: Votes, votes': Votes) {
    forall b :: b in votes ==> b in votes' && votes'[b] == votes[b]
  }

  /** The recorded votes of one server are those of its state and of earlier terms. */
  ghost predicate Agrees(votes: Votes, id: ServerId, l: Logical) {
    && (l.votedFor.Some? ==> VotedFor(votes, l.term, id, l.votedFor.value))
    && (l.votedFor.None? ==> Ballot(l.term, id) !in votes)
    && (forall t :: t > l.term ==> Ballot(t, id) !in votes)
  }

  /** A candidate voted for itself and counts only servers that voted for it; a leader counts a quorum. */
  ghost predicate Backed(votes: Votes, members: set<ServerId>, id: ServerId, f: Face) {
    f.l.role != Follower ==>
      && f.l.votedFor == Some(id)
      && (forall v :: v in f.voters ==> v in members && VotedFor(votes, f.l.term, v, id))
      && (f.l.role == Leader ==> |f.voters| >= Quorum(members))
  }

  ghost predicate Real(votes: Votes, d: Delivery) {
    d.resp.granted ==> VotedFor(votes, d.resp.term, d.resp.voter, d.to)
  }

  ghost predicate Inv(y: Cluster, votes: Votes) {
    && (forall i :: i in y.servers ==> Agrees(votes, i, y.servers[i].l))
    && (forall i :: i in y.servers ==> Backed(votes, y.servers.Keys, i, y.servers[i]))
    && (forall d :: d in y.responses ==> Real(votes, d))
  }

  /** No step changes a vote within a term or goes back to an earlier term. */
  lemma VotesStand(y: Cluster, a: Action, votes: Votes)
    requires Enabled(y, a)
    requires Backed(votes, y.servers.Keys, a.id, y.servers[a.id])
    ensures var l, l' := y.servers[a.id].l, Stepped(y, a).l;
            l'.term >= l.term
            && (l'.term == l.term && l.votedFor.Some? ==> l'.votedFor == l.votedFor)
  {
  }

  lemma RecordGrows(votes: Votes, id: ServerId, l: Logical, l': Logical)
    requires Agrees(votes, id, l)
    requires l'.term >= l.term && (l'.term == l.term && l.votedFor.Some? ==> l'.votedFor == l.votedFor)
    ensures Grown(votes, Record(votes, id, l'))
    ensures Agrees(Record(votes, id, l'), id, l')
    ensures forall i, m: Logical :: i != id && Agrees(votes, i, m) ==> Agrees(Record(votes, id, l'), i, m)
  {
  }

  lemma BackedGrows(votes: Votes, votes': Votes, members: set<ServerId>, id: ServerId, f: Face)
    requires Backed(votes, members, id, f) && Grown(votes, votes')
    ensures Backed(votes', members, id, f)
  {
  }

  lemma SteppedBacked(y: Cluster, a: Action, votes: Votes)
    requires Enabled(y, a) && Inv(y, votes)
    requires Grown(votes, Record(votes, a.id, Stepped(y, a).l))
    ensures Backed(Record(votes, a.id, Stepped(y, a).l), y.servers.Keys, a.id, Stepped(y, a))
  {
    var f, f' := y.servers[a.id], Stepped(y, a);
    BackedGrows(votes, Record(votes, a.id, f'.l), y.servers.Keys, a.id, f);
    match a
    case DoTimeout(id) =>
    case DoVoteRequest(id, req) =>
    case DoVoteResponse(id, resp) => assert Real(votes, Delivery(id, resp));
    case DoHeartbeat(id, hb) =>
  }

  lemma KeepsInv(y: Cluster, a: Action, votes: Votes)
    requires Enabled(y, a) && Inv(y, votes)
    ensures Inv(Next(y, a), Record(votes, a.id, Stepped(y, a).l))
    ensures Grown(votes, Record(votes, a.id, Stepped(y, a).l))
  {
    var l' := Stepped(y, a).l;
    var votes' := Record(votes, a.id, l');
    VotesStand(y, a, votes);
    RecordGrows(votes, a.id, y.servers[a.id].l, l');
    SteppedBacked(y, a, votes);
    var y' := Next(y, a);
    assert y'.servers.Keys == y.servers.Keys;
    forall i | i in y'.servers
      ensures Backed(votes', y'.servers.Keys, i, y'.servers[i])
    {
      if i != a.id {
        BackedGrows(votes, votes', y.servers.Keys, i, y.servers[i]);
      }
    }
  }

  // ---------------------------------------------------------------- runs

  ghost predicate Run(states: seq<Cluster>, actions: seq<Action>) {
    && |states| == |actions| + 1
    && Initial(states[0])
    && forall k :: 0 <= k < |actions| ==>
         Enabled(states[k], actions[k]) && states[k + 1] == Next(states[k], actions[k])
  }

  /** The votes given in the first k steps of a run. */
  ghost function History(states: seq<Cluster>, actions: seq<Action>, k: nat): Votes
    requires Run(states, actions) && k <= |actions|
  {
    if k == 0 then map[]
    else Record(History(states, actions, k - 1), actions[k - 1].id, Stepped(states[k - 1], actions[k - 1]).l)
  }

  lemma {:induction false} RunInv(states: seq<Cluster>, actions: seq<Action>, k: nat)
    requires Run(states, actions) && k <= |actions|
    ensures Inv(states[k], History(states, actions, k))
    ensures states[k].servers.Keys == states[0].servers.Keys
  {
    if k > 0 {
      RunInv(states, actions, k - 1);
      KeepsInv(states[k - 1], actions[k - 1], History(states, actions, k - 1));
    }
  }

  lemma {:induction false} VotesLast(states: seq<Cluster>, actions: seq<Action>, j: nat, k: nat)
    requires Run(states, actions) && j <= k <= |actions|
    ensures Grown(History(states, actions, j), History(states, actions, k))
    decreases k
  {
    if j < k {
      VotesLast(states, actions, j, k - 1);
      RunInv(states, actions, k - 1);
      KeepsInv(states[k - 1], actions[k - 1], History(states, actions, k - 1));
    }
  }

  predicate IsLeader(y: Cluster, id: ServerId, term: Term) {
    id in y.servers && y.servers[id].l.role == Leader && y.servers[id].l.term == term
  }

  /** Two quorums that voted in the same term share a voter, who voted only once. */
  lemma OneWinner(votes: Votes, members: set<ServerId>, f: Face, a: ServerId, g: Face, b: ServerId)
    requires Backed(votes, members, a, f) && Backed(votes, members, b, g)
    requires f.l.role == Leader && g.l.role == Leader && f.l.term == g.l.term
    ensures a == b
  {
    assert f.voters <= members && g.voters <= members;
    var v := MajoritiesMeet(members, f.voters, g.voters);
    assert VotedFor(votes, f.l.term, v, a) && VotedFor(votes, f.l.term, v, b);
  }

  /** Election Safety: at most one server is ever leader of a term, at whatever two points of a run. */
  lemma ElectionSafety(states: seq<Cluster>, actions: seq<Action>, j: nat, k: nat, a: ServerId, b: ServerId, term: Term)
    requires Run(states, actions) && j <= k <= |actions|
    requires IsLeader(states[j], a, term) && IsLeader(states[k], b, term)
    ensures a == b
  {
    RunInv(states, actions, j);
    RunInv(states, actions, k);
    VotesLast(states, actions, j, k);
    var f, g, members := states[j].servers[a], states[k].servers[b], states[0].servers.Keys;
    BackedGrows(History(states, actions, j), History(states, actions, k), members, a, f);
    OneWinner(History(states, actions, k), members, f, a, g, b);
  }

  // ---------------------------------------------------------------- run_election

  predicate Leads(y: Cluster, id: ServerId) {
    id in y.servers && y.servers[id].l.role == Leader
  }

  /** Ask one server for its vote and hand the reply to the candidate. */
  function Round(y: Cluster, id: ServerId, req: VoteRequest, other: ServerId): (y': Cluster)
    requires id in y.servers && other in y.servers
    ensures y'.servers.Keys == y.servers.Keys
  {
    Next(Next(y, DoVoteRequest(other, req)), DoVoteResponse(id, VoteReply(y.servers[other].l, other, req)))
  }

  /** Ask servers in turn until the candidate leads. */
  function Campaign(y: Cluster, id: ServerId, req: VoteRequest, others: seq<ServerId>): (y': Cluster)
    requires id in y.servers && forall k :: k in others ==> k in y.servers
    ensures y'.servers.Keys == y.servers.Keys
    decreases |others|
  {
    if others == [] || Leads(y, id) then y
    else Campaign(Round(y, id, req, others[0]), id, req, others[1..])
  }

  function Election(y: Cluster, id: ServerId, others: seq<ServerId>): (y': Cluster)
    requires id in y.servers && forall k :: k in others ==> k in y.servers
    ensures y'.servers.Keys == y.servers.Keys
  {
    Campaign(Next(y, DoTimeout(id)), id, VoteRequest(y.servers[id].l.term + 1, id), others)
  }

  lemma RoundKeepsInv(y: Cluster, id: ServerId, req: VoteRequest, other: ServerId, votes: Votes)
    returns (votes': Votes)
    requires id in y.servers && other in y.servers && req.candidate == id
    requires Inv(y, votes)
    ensures Inv(Round(y, id, req, other), votes') && Grown(votes, votes')
  {
    var ask := DoVoteRequest(other, req);
    var answer := DoVoteResponse(id, VoteReply(y.servers[other].l, other, req));
    KeepsInv(y, ask, votes);
    votes' := Record(votes, other, Stepped(y, ask).l);
    KeepsInv(Next(y, ask), answer, votes');
    votes' := Record(votes', id, Stepped(Next(y, ask), answer).l);
  }

  /** An election is made of protocol steps, so it keeps what they keep. */
  lemma {:induction false} CampaignKeepsInv(y: Cluster, id: ServerId, req: VoteRequest, others: seq<ServerId>,
                                            votes: Votes)
    returns (votes': Votes)
    requires id in y.servers && req.candidate == id && forall k :: k in others ==> k in y.servers
    requires Inv(y, votes)
    ensures Inv(Campaign(y, id, req, others), votes') && Grown(votes, votes')
    decreases |others|
  {
    votes' := votes;
    if others != [] && !Leads(y, id) {
      votes' := RoundKeepsInv(y, id, req, others[0], votes);
      votes' := CampaignKeepsInv(Round(y, id, req, others[0]), id, req, others[1..], votes');
    }
  }

  ghost predicate Standing(f: Face, id: ServerId, term: Term, members: set<ServerId>, voters: set<ServerId>) {
    f == Face(Logical(term, Some(id), if |voters| >= Quorum(members) then Leader else Candidate), voters)
  }

  /** A server of an earlier term grants its vote. */
  lemma RoundGains(y: Cluster, id: ServerId, req: VoteRequest, other: ServerId)
    requires id in y.servers && other in y.servers && id != other && req.candidate == id
    requires y.servers[other].l.term < req.term && y.servers[id].l.term == req.term
    requires y.servers[id].l == Logical(req.term, Some(id), Candidate)
    ensures Standing(Round(y, id, req, other).servers[id], id, req.term, y.servers.Keys,
                     y.servers[id].voters + {other})
    ensures forall k :: k in y.servers && k != id && k != other ==> Round(y, id, req, other).servers[k] == y.servers[k]
  {
    assert Next(y, DoVoteRequest(other, req)).servers.Keys == y.servers.Keys;
  }

  lemma RoundRemains(y: Cluster, id: ServerId, req: VoteRequest, others: seq<ServerId>, voters: set<ServerId>)
    requires id in y.servers && req.candidate == id && id !in others && NoDup(others) && others != []
    requires forall k :: k in others ==> k in y.servers && y.servers[k].l.term < req.term
    requires voters + Elements(others) == y.servers.Keys
    requires Standing(y.servers[id], id, req.term, y.servers.Keys, voters) && !Leads(y, id)
    ensures var y' := Round(y, id, req, others[0]);
            && Standing(y'.servers[id], id, req.term, y'.servers.Keys, voters + {others[0]})
            && (forall k :: k in others[1..] ==> k in y'.servers && y'.servers[k].l.term < req.term)
            && voters + {others[0]} + Elements(others[1..]) == y'.servers.Keys
  {
    assert others[0] in others && others[0] !in others[1..];
    RoundGains(y, id, req, others[0]);
    assert Elements(others) == {others[0]} + Elements(others[1..]);
  }

  /** A candidate whose remaining voters are all behind its term, and together with the votes it has
      make up the cluster, wins. */
  lemma {:induction false} CampaignWins(y: Cluster, id: ServerId, req: VoteRequest, others: seq<ServerId>,
                                        voters: set<ServerId>)
    requires id in y.servers && req.candidate == id && id !in others && NoDup(others)
    requires forall k :: k in others ==> k in y.servers && y.servers[k].l.term < req.term
    requires voters + Elements(others) == y.servers.Keys
    requires Standing(y.servers[id], id, req.term, y.servers.Keys, voters)
    ensures Campaign(y, id, req, others).servers[id].l == Logical(req.term, Some(id), Leader)
    decreases |others|
  {
    if others == [] {
      assert voters == y.servers.Keys;
    } else if !Leads(y, id) {
      RoundRemains(y, id, req, others, voters);
      CampaignWins(Round(y, id, req, others[0]), id, req, others[1..], voters + {others[0]});
    }
  }

  lemma Alone(members: set<ServerId>, id: ServerId)
    requires id in members
    ensures |members| == 1 <==> 1 >= Quorum(members)
  {
    assert |members| > 0;
  }

  lemma TimeoutStands(y: Cluster, id: ServerId)
    requires id in y.servers
    ensures Standing(Next(y, DoTimeout(id)).servers[id], id, y.servers[id].l.term + 1, y.servers.Keys, {id})
    ensures Next(y, DoTimeout(id)).servers.Keys == y.servers.Keys
    ensures forall k :: k in y.servers && k != id ==> Next(y, DoTimeout(id)).servers[k] == y.servers[k]
  {
    Alone(y.servers.Keys, id);
  }

  lemma StoodWins(y: Cluster, y1: Cluster, id: ServerId, others: seq<ServerId>, term: Term)
    requires id in y.servers && NoDup(others) && y1.servers.Keys == y.servers.Keys
    requires forall k :: k in others <==> k in y.servers && k != id
    requires forall k :: k in y.servers && k != id ==> y1.servers[k] == y.servers[k] && y.servers[k].l.term < term
    requires Standing(y1.servers[id], id, term, y.servers.Keys, {id})
    ensures Campaign(y1, id, VoteRequest(term, id), others).servers[id].l == Logical(term, Some(id), Leader)
  {
    assert {id} + Elements(others) == y.servers.Keys;
    CampaignWins(y1, id, VoteRequest(term, id), others, {id});
  }

  lemma TimedOutWins(y: Cluster, id: ServerId, others: seq<ServerId>, term: Term)
    requires id in y.servers && NoDup(others) && term == y.servers[id].l.term + 1
    requires forall k :: k in others <==> k in y.servers && k != id
    requires forall k :: k in y.servers ==> y.servers[k].l.term < term
    ensures Campaign(Next(y, DoTimeout(id)), id, VoteRequest(term, id), others).servers[id].l
         == Logical(term, Some(id), Leader)
  {
    TimeoutStands(y, id);
    StoodWins(y, Next(y, DoTimeout(id)), id, others, term);
  }

  lemma ElectionIs(y: Cluster, id: ServerId, others: seq<ServerId>, term: Term)
    requires id in y.servers && (forall k :: k in others ==> k in y.servers) && term == y.servers[id].l.term + 1
    ensures Election(y, id, others) == Campaign(Next(y, DoTimeout(id)), id, VoteRequest(term, id), others)
  {
  }

  /** An election that starts level with or ahead of every other server elects the candidate. */
  lemma ElectionWins(y: Cluster, id: ServerId, others: seq<ServerId>)
    requires id in y.servers && NoDup(others)
    requires forall k :: k in others <==> k in y.servers && k != id
    requires forall k :: k in y.servers ==> y.servers[k].l.term <= y.servers[id].l.term
    ensures Election(y, id, others).servers[id].l == Logical(y.servers[id].l.term + 1, Some(id), Leader)
  {
    ElectionIs(y, id, others, y.servers[id].l.term + 1);
    TimedOutWins(y, id, others, y.servers[id].l.term + 1);
  }
}
