/** Leader election over packed words. */
module PackedElection {
  /* The words of results/v2/raft_election_best.rs, with the operations on any one server taken one at
     a time: a compare-and-swap then succeeds at once and each retry loop runs once. The packed words
     and vote masks are shown to refine the logical states and voter sets of `LogicalElection`, which
     carries Election Safety over to them. */

  import opened Collections
  import opened LogicalElection
  import opened Options
  import opened PackedWord

  /** The packed word and the vote mask. */
  datatype Server = Server(packed: bv64, votes: bv64)

  /** The servers and the bit of each one in every vote mask. */
  datatype Machine = Machine(servers: map<ServerId, Server>, bits: map<ServerId, nat>)

  const INITIAL: Logical := Logical(0, None, Follower)

  function View(s: Server): Logical {
    Unpack(s.packed)
  }

  function Voters(bits: map<ServerId, nat>, mask: bv64): set<ServerId> {
    set v | v in bits && Test(mask, bits[v])
  }

  function FaceOf(bits: map<ServerId, nat>, s: Server): Face {
    Face(View(s), Voters(bits, s.votes))
  }

  predicate InRange(term: Term, id: ServerId) {
    term < TERM_LIMIT && id < ID_LIMIT
  }

  ghost predicate BitsOk(bits: map<ServerId, nat>) {
    && (forall i :: i in bits ==> bits[i] < 64)
    && (forall i, j :: i in bits && j in bits && i != j ==> bits[i] != bits[j])
  }

  /** Every bit set in a mask is the bit of some server. */
  ghost predicate MaskOk(bits: map<ServerId, nat>, mask: bv64) {
    forall k :: 0 <= k < 64 && Test(mask, k) ==> k in bits.Values
  }

  ghost predicate Valid(m: Machine) {
    && m.bits.Keys == m.servers.Keys
    && BitsOk(m.bits)
    && forall i :: i in m.servers ==> MaskOk(m.bits, m.servers[i].votes)
  }

  // ---------------------------------------------------------------- the operations on words

  function TimeoutServer(s: Server, id: ServerId, bit: nat, alone: bool): Server {
    Server(Pack(AfterTimeout(View(s), id, alone)), Bit(bit))
  }

  function VoteRequestServer(s: Server, req: VoteRequest): Server {
    var l' := AfterVoteRequest(View(s), req);
    var packed := Pack(l');
    if s.packed == packed then s
    else Server(packed, if l'.role == Follower && View(s).role != Follower then 0 else s.votes)
  }

  function VoteResponseServer(bits: map<ServerId, nat>, clusterSize: nat, id: ServerId, s: Server,
                              resp: VoteResponse): Server
  {
    var l := View(s);
    if resp.term > l.term then Server(Pack(Logical(resp.term, None, Follower)), 0)
    else if !Counts(l, resp, bits.Keys) then s
    else
      var votes := Or(s.votes, Bit(bits[resp.voter]));
      Server(if CountOnes(votes) >= clusterSize / 2 + 1 then Pack(Logical(l.term, Some(id), Leader)) else s.packed,
             votes)
  }

  /** What `handle_vote_response` reports. */
  predicate ReportsWin(bits: map<ServerId, nat>, clusterSize: nat, s: Server, resp: VoteResponse) {
    var l := View(s);
    resp.term == l.term
    && (l.role == Leader
        || (Counts(l, resp, bits.Keys) && CountOnes(Or(s.votes, Bit(bits[resp.voter]))) >= clusterSize / 2 + 1))
  }

  function HeartbeatServer(s: Server, hb: Heartbeat): Server {
    var l := View(s);
    if hb.term >= l.term
    then Server(Pack(Logical(hb.term, if hb.term > l.term then None else l.votedFor, Follower)), 0)
    else s
  }

  // ---------------------------------------------------------------- masks are voter sets

  lemma NoVoters(bits: map<ServerId, nat>)
    ensures Voters(bits, 0) == {} && MaskOk(bits, 0)
  {
    forall k: nat | true
      ensures !Test(0, k)
    {
      EmptyMask(k);
    }
  }

  lemma FirstVoter(bits: map<ServerId, nat>, id: ServerId)
    requires BitsOk(bits) && id in bits
    ensures Voters(bits, Bit(bits[id])) == {id} && MaskOk(bits, Bit(bits[id]))
  {
    forall k: nat | k < 64
      ensures Test(Bit(bits[id]), k) <==> k == bits[id]
    {
      OneBit(bits[id], k);
    }
  }

  lemma NextVoter(bits: map<ServerId, nat>, mask: bv64, id: ServerId)
    requires BitsOk(bits) && MaskOk(bits, mask) && id in bits
    ensures Voters(bits, Or(mask, Bit(bits[id]))) == Voters(bits, mask) + {id}
    ensures MaskOk(bits, Or(mask, Bit(bits[id])))
  {
    forall k: nat | k < 64
      ensures Test(Or(mask, Bit(bits[id])), k) <==> Test(mask, k) || k == bits[id]
    {
      SetBit(mask, bits[id], k);
    }
  }

  ghost function BitsOf(bits: map<ServerId, nat>, ids: set<ServerId>): set<nat>
    requires ids <= bits.Keys
  {
    set i | i in ids :: bits[i]
  }

  lemma {:induction false} DistinctBits(bits: map<ServerId, nat>, ids: set<ServerId>)
    requires BitsOk(bits) && ids <= bits.Keys
    ensures |BitsOf(bits, ids)| == |ids|
  {
    if ids != {} {
      var i :| i in ids;
      DistinctBits(bits, ids - {i});
      assert BitsOf(bits, ids) == BitsOf(bits, ids - {i}) + {bits[i]};
      assert bits[i] !in BitsOf(bits, ids - {i});
    }
  }

  /** The population count of a mask is the number of servers that voted. */
  lemma CountIsVoters(bits: map<ServerId, nat>, mask: bv64)
    requires BitsOk(bits) && MaskOk(bits, mask)
    ensures CountOnes(mask) == |Voters(bits, mask)|
  {
    CountIsCardinality(mask, 64);
    DistinctBits(bits, Voters(bits, mask));
    assert SetBits(mask, 64) == BitsOf(bits, Voters(bits, mask));
  }

  /** Two vote masks whose population counts are each at least a quorum have a bit in common. */
  lemma QuorumsShareABit(bits: map<ServerId, nat>, a: bv64, b: bv64) returns (k: nat)
    requires BitsOk(bits) && MaskOk(bits, a) && MaskOk(bits, b)
    requires CountOnes(a) >= |bits| / 2 + 1 && CountOnes(b) >= |bits| / 2 + 1
    ensures k in bits.Values && Test(a, k) && Test(b, k)
  {
    CountIsVoters(bits, a);
    CountIsVoters(bits, b);
    assert |bits| == |bits.Keys|;
    var v := MajoritiesMeet(bits.Keys, Voters(bits, a), Voters(bits, b));
    k := bits[v];
  }

  // ---------------------------------------------------------------- each operation refines its logical one

  lemma TimeoutRefines(bits: map<ServerId, nat>, s: Server, id: ServerId, alone: bool)
    requires BitsOk(bits) && id in bits && InRange(View(s).term + 1, id)
    ensures FaceOf(bits, TimeoutServer(s, id, bits[id], alone)) == Face(AfterTimeout(View(s), id, alone), {id})
    ensures MaskOk(bits, TimeoutServer(s, id, bits[id], alone).votes)
  {
    PackUnpack(AfterTimeout(View(s), id, alone));
    FirstVoter(bits, id);
  }

  lemma VoteRequestView(s: Server, req: VoteRequest)
    requires InRange(req.term, req.candidate)
    ensures View(VoteRequestServer(s, req)) == AfterVoteRequest(View(s), req)
  {
    UnpackFits(s.packed);
    PackUnpack(AfterVoteRequest(View(s), req));
  }

  lemma VoteRequestRefines(bits: map<ServerId, nat>, s: Server, req: VoteRequest)
    requires MaskOk(bits, s.votes) && InRange(req.term, req.candidate)
    ensures FaceOf(bits, VoteRequestServer(s, req)) == Asked(FaceOf(bits, s), req)
    ensures MaskOk(bits, VoteRequestServer(s, req).votes)
  {
    VoteRequestView(s, req);
    NoVoters(bits);
  }

  /** A newer term: the word is reset to it. */
  lemma NewerTermReset(resp: VoteResponse)
    requires resp.term < TERM_LIMIT
    ensures View(Server(Pack(Logical(resp.term, None, Follower)), 0)) == Logical(resp.term, None, Follower)
  {
    PackUnpack(Logical(resp.term, None, Follower));
  }

  /** A won election: the word names the winner as leader of the term that it had. */
  lemma WonWord(s: Server, id: ServerId, votes: bv64)
    requires id < ID_LIMIT
    ensures View(Server(Pack(Logical(View(s).term, Some(id), Leader)), votes))
        == Logical(View(s).term, Some(id), Leader)
  {
    UnpackFits(s.packed);
    PackUnpack(Logical(View(s).term, Some(id), Leader));
  }

  /** Counting the ones of the new mask is counting the voters, the new one included. */
  lemma MaskCounts(bits: map<ServerId, nat>, mask: bv64, voter: ServerId)
    requires BitsOk(bits) && MaskOk(bits, mask) && voter in bits
    ensures var votes := Or(mask, Bit(bits[voter]));
            && MaskOk(bits, votes) && Voters(bits, votes) == Voters(bits, mask) + {voter}
            && CountOnes(votes) == |Voters(bits, mask) + {voter}|
  {
    NextVoter(bits, mask, voter);
    CountIsVoters(bits, Or(mask, Bit(bits[voter])));
  }

  lemma VoteCountRefines(m: Machine, id: ServerId, s: Server, resp: VoteResponse)
    requires m.bits.Keys == m.servers.Keys && BitsOk(m.bits)
    requires MaskOk(m.bits, s.votes) && InRange(resp.term, id) && resp.term <= View(s).term
    requires Counts(View(s), resp, m.bits.Keys)
    ensures FaceOf(m.bits, VoteResponseServer(m.bits, |m.servers|, id, s, resp))
         == Answered(FaceOf(m.bits, s), id, resp, m.servers.Keys)
    ensures MaskOk(m.bits, VoteResponseServer(m.bits, |m.servers|, id, s, resp).votes)
  {
    MaskCounts(m.bits, s.votes, resp.voter);
    assert |m.servers| == |m.servers.Keys|;
    WonWord(s, id, Or(s.votes, Bit(m.bits[resp.voter])));
  }

  lemma VoteResponseRefines(m: Machine, id: ServerId, s: Server, resp: VoteResponse)
    requires m.bits.Keys == m.servers.Keys && BitsOk(m.bits)
    requires MaskOk(m.bits, s.votes) && InRange(resp.term, id)
    ensures FaceOf(m.bits, VoteResponseServer(m.bits, |m.servers|, id, s, resp))
         == Answered(FaceOf(m.bits, s), id, resp, m.servers.Keys)
    ensures MaskOk(m.bits, VoteResponseServer(m.bits, |m.servers|, id, s, resp).votes)
  {
    if resp.term > View(s).term {
      NewerTermReset(resp);
      NoVoters(m.bits);
    } else if Counts(View(s), resp, m.bits.Keys) {
      VoteCountRefines(m, id, s, resp);
    }
  }

  /** The report is true: the candidate leads the response's term afterwards. */
  lemma ReportIsTrue(bits: map<ServerId, nat>, clusterSize: nat, id: ServerId, s: Server, resp: VoteResponse)
    requires InRange(resp.term, id)
    ensures var l' := View(VoteResponseServer(bits, clusterSize, id, s, resp));
            && (ReportsWin(bits, clusterSize, s, resp) <==> l'.role == Leader && l'.term == resp.term)
            && (View(s).role != Leader && l'.role == Leader ==> l'.term == resp.term)
  {
    if resp.term > View(s).term {
      NewerTermReset(resp);
    } else if Counts(View(s), resp, bits.Keys) {
      CountedReport(bits, clusterSize, id, s, resp);
    }
  }

  lemma CountedReport(bits: map<ServerId, nat>, clusterSize: nat, id: ServerId, s: Server, resp: VoteResponse)
    requires InRange(resp.term, id) && resp.term <= View(s).term && Counts(View(s), resp, bits.Keys)
    ensures var l' := View(VoteResponseServer(bits, clusterSize, id, s, resp));
            && (ReportsWin(bits, clusterSize, s, resp) <==> l'.role == Leader)
            && l'.term == resp.term && View(s).role != Leader
  {
    WonWord(s, id, Or(s.votes, Bit(bits[resp.voter])));
  }

  lemma HeartbeatRefines(bits: map<ServerId, nat>, s: Server, hb: Heartbeat)
    requires MaskOk(bits, s.votes) && hb.term < TERM_LIMIT
    ensures FaceOf(bits, HeartbeatServer(s, hb)) == Heard(FaceOf(bits, s), hb)
    ensures MaskOk(bits, HeartbeatServer(s, hb).votes)
  {
    UnpackFits(s.packed);
    PackUnpack(Logical(hb.term, if hb.term > View(s).term then None else View(s).votedFor, Follower));
    NoVoters(bits);
  }

  // ---------------------------------------------------------------- the cluster of words

  datatype System = System(machine: Machine, responses: set<Delivery>)

  ghost function Faces(bits: map<ServerId, nat>, servers: map<ServerId, Server>): map<ServerId, Face> {
    map i | i in servers :: FaceOf(bits, servers[i])
  }

  ghost function Abs(y: System): Cluster {
    Cluster(Faces(y.machine.bits, y.machine.servers), y.responses)
  }

  ghost predicate Starts(y: System) {
    && Valid(y.machine)
    && y.responses == {}
    && forall i :: i in y.machine.servers ==> y.machine.servers[i] == Server(Pack(INITIAL), 0)
  }

  /** An action is possible when the packed layout can hold the numbers in it. */
  ghost predicate Possible(y: System, a: Action) {
    && y.machine.bits.Keys == y.machine.servers.Keys
    && a.id in y.machine.servers
    && a.id < ID_LIMIT
    && match a
       case DoTimeout(id) => View(y.machine.servers[id]).term + 1 < TERM_LIMIT
       case DoVoteRequest(_, req) => InRange(req.term, req.candidate)
       case DoVoteResponse(id, resp) => Delivery(id, resp) in y.responses && resp.term < TERM_LIMIT
       case DoHeartbeat(_, hb) => hb.term < TERM_LIMIT
  }

  function SteppedServer(m: Machine, a: Action): Server
    requires a.id in m.servers && m.bits.Keys == m.servers.Keys
  {
    match a
    case DoTimeout(id) => TimeoutServer(m.servers[id], id, m.bits[id], |m.servers| == 1)
    case DoVoteRequest(id, req) => VoteRequestServer(m.servers[id], req)
    case DoVoteResponse(id, resp) => VoteResponseServer(m.bits, |m.servers|, id, m.servers[id], resp)
    case DoHeartbeat(id, hb) => HeartbeatServer(m.servers[id], hb)
  }

  function Put(y: System, i: ServerId, s': Server, replies: set<Delivery>): System {
    System(y.machine.(servers := y.machine.servers[i := s']), y.responses + replies)
  }

  function NextSystem(y: System, a: Action): System
    requires a.id in y.machine.servers && y.machine.bits.Keys == y.machine.servers.Keys
  {
    Put(y, a.id, SteppedServer(y.machine, a), Replies(View(y.machine.servers[a.id]), a))
  }

  lemma StepRefines(y: System, a: Action)
    requires Valid(y.machine) && Possible(y, a)
    ensures FaceOf(y.machine.bits, SteppedServer(y.machine, a)) == Stepped(Abs(y), a)
    ensures MaskOk(y.machine.bits, SteppedServer(y.machine, a).votes)
  {
    var m := y.machine;
    assert Abs(y).servers.Keys == m.servers.Keys;
    assert |m.servers| == |m.servers.Keys|;
    match a
    case DoTimeout(id) => TimeoutRefines(m.bits, m.servers[id], id, |m.servers| == 1);
    case DoVoteRequest(id, req) => VoteRequestRefines(m.bits, m.servers[id], req);
    case DoVoteResponse(id, resp) => VoteResponseRefines(m, id, m.servers[id], resp);
    case DoHeartbeat(id, hb) => HeartbeatRefines(m.bits, m.servers[id], hb);
  }

  lemma FacesPut(bits: map<ServerId, nat>, servers: map<ServerId, Server>, i: ServerId, s': Server)
    ensures Faces(bits, servers[i := s']) == Faces(bits, servers)[i := FaceOf(bits, s')]
  {
  }

  lemma PutValid(m: Machine, i: ServerId, s': Server)
    requires Valid(m) && i in m.servers && MaskOk(m.bits, s'.votes)
    ensures Valid(m.(servers := m.servers[i := s']))
  {
    var m' := m.(servers := m.servers[i := s']);
    forall k | k in m'.servers
      ensures MaskOk(m'.bits, m'.servers[k].votes)
    {
      if k != i {
        assert MaskOk(m.bits, m.servers[k].votes);
      }
    }
  }

  /** One operation on words is the logical operation on what they stand for. */
  lemma NextRefines(y: System, a: Action)
    requires Valid(y.machine) && Possible(y, a)
    ensures Valid(NextSystem(y, a).machine)
    ensures Enabled(Abs(y), a) && Abs(NextSystem(y, a)) == Next(Abs(y), a)
  {
    StepRefines(y, a);
    PutValid(y.machine, a.id, SteppedServer(y.machine, a));
    FacesPut(y.machine.bits, y.machine.servers, a.id, SteppedServer(y.machine, a));
  }

  ghost predicate PackedRun(states: seq<System>, actions: seq<Action>) {
    && |states| == |actions| + 1
    && Starts(states[0])
    && forall k :: 0 <= k < |actions| ==>
         Possible(states[k], actions[k]) && states[k + 1] == NextSystem(states[k], actions[k])
  }

  lemma StartRefines(y: System)
    requires Starts(y)
    ensures Initial(Abs(y))
  {
    PackUnpack(INITIAL);
    NoVoters(y.machine.bits);
  }

  lemma {:induction false} RunValid(states: seq<System>, actions: seq<Action>, k: nat)
    requires PackedRun(states, actions) && k <= |actions|
    ensures Valid(states[k].machine)
  {
    if k > 0 {
      RunValid(states, actions, k - 1);
      NextRefines(states[k - 1], actions[k - 1]);
    }
  }

  lemma StepOfRun(states: seq<System>, actions: seq<Action>, k: nat)
    requires PackedRun(states, actions) && k < |actions|
    ensures Valid(states[k].machine) && Valid(states[k + 1].machine) && Enabled(Abs(states[k]), actions[k])
    ensures Abs(states[k + 1]) == Next(Abs(states[k]), actions[k])
  {
    RunValid(states, actions, k);
    RunValid(states, actions, k + 1);
    NextRefines(states[k], actions[k]);
  }

  /** A run of the packed election is a run of the logical one. */
  lemma RunRefines(states: seq<System>, actions: seq<Action>) returns (faces: seq<Cluster>)
    requires PackedRun(states, actions)
    ensures |faces| == |states|
    ensures forall k :: 0 <= k < |states| ==> Valid(states[k].machine) && faces[k] == Abs(states[k])
    ensures Run(faces, actions)
  {
    forall k | 0 <= k < |states|
      ensures Valid(states[k].machine)
    {
      RunValid(states, actions, k);
    }
    faces := seq(|states|, k requires 0 <= k < |states| => Abs(states[k]));
    StartRefines(states[0]);
    forall k | 0 <= k < |actions|
      ensures Enabled(faces[k], actions[k]) && faces[k + 1] == Next(faces[k], actions[k])
    {
      StepOfRun(states, actions, k);
    }
  }

  ghost predicate LeadsTerm(y: System, id: ServerId, term: Term) {
    && id in y.machine.servers
    && UnpackRole(y.machine.servers[id].packed) == Leader
    && UnpackTerm(y.machine.servers[id].packed) == term
  }

  /** Election Safety on the words themselves. */
  lemma PackedElectionSafety(states: seq<System>, actions: seq<Action>, j: nat, k: nat,
                             a: ServerId, b: ServerId, term: Term)
    requires PackedRun(states, actions) && j <= k <= |actions|
    requires LeadsTerm(states[j], a, term) && LeadsTerm(states[k], b, term)
    ensures a == b
  {
    var faces := RunRefines(states, actions);
    assert IsLeader(faces[j], a, term) && IsLeader(faces[k], b, term);
    ElectionSafety(faces, actions, j, k, a, b, term);
  }

  // ---------------------------------------------------------------- run_election on words

  type Words = map<ServerId, Server>

  function RoundWords(bits: map<ServerId, nat>, words: Words, id: ServerId, req: VoteRequest, other: ServerId): Words
    requires id in words && other in words && words.Keys == bits.Keys
  {
    var words1 := words[other := VoteRequestServer(words[other], req)];
    words1[id := VoteResponseServer(bits, |words|, id, words1[id], VoteReply(View(words[other]), other, req))]
  }

  predicate LeadsWords(words: Words, id: ServerId) {
    id in words && View(words[id]).role == Leader
  }

  function CampaignWords(bits: map<ServerId, nat>, words: Words, id: ServerId, req: VoteRequest,
                         others: seq<ServerId>): (words': Words)
    requires id in words && words.Keys == bits.Keys && forall k :: k in others ==> k in words
    ensures words'.Keys == words.Keys
    decreases |others|
  {
    if others == [] || LeadsWords(words, id) then words
    else CampaignWords(bits, RoundWords(bits, words, id, req, others[0]), id, req, others[1..])
  }

  function StandWords(bits: map<ServerId, nat>, words: Words, id: ServerId): Words
    requires id in words && words.Keys == bits.Keys
  {
    words[id := TimeoutServer(words[id], id, bits[id], |words| == 1)]
  }

  ghost predicate SmallIds(words: Words) {
    forall i :: i in words ==> i < ID_LIMIT
  }

  lemma CampaignOn(bits: map<ServerId, nat>, words: Words, id: ServerId, req: VoteRequest, others: seq<ServerId>)
    requires id in words && words.Keys == bits.Keys && forall k :: k in others ==> k in words
    requires others != [] && !LeadsWords(words, id)
    ensures CampaignWords(bits, words, id, req, others)
         == CampaignWords(bits, RoundWords(bits, words, id, req, others[0]), id, req, others[1..])
  {
  }

  lemma CampaignOver(bits: map<ServerId, nat>, words: Words, id: ServerId, req: VoteRequest, others: seq<ServerId>)
    requires id in words && words.Keys == bits.Keys && forall k :: k in others ==> k in words
    requires others == [] || LeadsWords(words, id)
    ensures CampaignWords(bits, words, id, req, others) == words
  {
  }

  lemma RoundRefines(y: System, id: ServerId, req: VoteRequest, other: ServerId) returns (y': System)
    requires Valid(y.machine) && SmallIds(y.machine.servers) && InRange(req.term, req.candidate)
    requires req.candidate == id && id in y.machine.servers && other in y.machine.servers
    ensures y'.machine == Machine(RoundWords(y.machine.bits, y.machine.servers, id, req, other), y.machine.bits)
    ensures Valid(y'.machine) && Abs(y') == Round(Abs(y), id, req, other)
  {
    var reply := VoteReply(View(y.machine.servers[other]), other, req);
    UnpackFits(y.machine.servers[other].packed);
    NextRefines(y, DoVoteRequest(other, req));
    var y1 := NextSystem(y, DoVoteRequest(other, req));
    SameSize(y.machine.servers, y1.machine.servers);
    NextRefines(y1, DoVoteResponse(id, reply));
    y' := NextSystem(y1, DoVoteResponse(id, reply));
  }

  lemma SameSize(a: Words, b: Words)
    requires a.Keys == b.Keys
    ensures |a| == |b|
  {
    assert |a| == |a.Keys| && |b| == |b.Keys|;
  }

  lemma {:induction false} CampaignRefines(y: System, id: ServerId, req: VoteRequest, others: seq<ServerId>)
    returns (y': System)
    requires Valid(y.machine) && SmallIds(y.machine.servers) && InRange(req.term, req.candidate)
    requires req.candidate == id && id in y.machine.servers && forall k :: k in others ==> k in y.machine.servers
    ensures y'.machine == Machine(CampaignWords(y.machine.bits, y.machine.servers, id, req, others), y.machine.bits)
    ensures Valid(y'.machine) && Abs(y') == Campaign(Abs(y), id, req, others)
    decreases |others|
  {
    y' := y;
    assert LeadsWords(y.machine.servers, id) == Leads(Abs(y), id);
    if others != [] && !LeadsWords(y.machine.servers, id) {
      y' := RoundRefines(y, id, req, others[0]);
      y' := CampaignRefines(y', id, req, others[1..]);
    }
  }

  lemma StandIs(y: System, id: ServerId)
    requires id in y.machine.servers && y.machine.bits.Keys == y.machine.servers.Keys
    ensures NextSystem(y, DoTimeout(id)).machine
         == Machine(StandWords(y.machine.bits, y.machine.servers, id), y.machine.bits)
  {
  }

  lemma StandRefines(y: System, id: ServerId) returns (y': System)
    requires Valid(y.machine) && SmallIds(y.machine.servers)
    requires id in y.machine.servers && View(y.machine.servers[id]).term + 1 < TERM_LIMIT
    ensures y'.machine == Machine(StandWords(y.machine.bits, y.machine.servers, id), y.machine.bits)
    ensures Valid(y'.machine) && Abs(y') == Next(Abs(y), DoTimeout(id))
  {
    NextRefines(y, DoTimeout(id));
    StandIs(y, id);
    y' := NextSystem(y, DoTimeout(id));
  }

  lemma StandKeys(bits: map<ServerId, nat>, words: Words, id: ServerId)
    requires id in words && words.Keys == bits.Keys && SmallIds(words)
    ensures StandWords(bits, words, id).Keys == words.Keys && SmallIds(StandWords(bits, words, id))
  {
    KeysStay(words, id, TimeoutServer(words[id], id, bits[id], |words| == 1));
  }

  lemma KeysStay(words: Words, id: ServerId, s': Server)
    requires id in words
    ensures words[id := s'].Keys == words.Keys && (SmallIds(words) ==> SmallIds(words[id := s']))
  {
  }

  /** `run_election` on words is the election of the logical protocol: it stands, then campaigns. */
  lemma ElectionRefines(y: System, id: ServerId, req: VoteRequest, others: seq<ServerId>)
    returns (y1: System, y2: System)
    requires Valid(y.machine) && SmallIds(y.machine.servers)
    requires id in y.machine.servers && req == VoteRequest(View(y.machine.servers[id]).term + 1, id)
    requires req.term < TERM_LIMIT
    requires forall k :: k in others ==> k in y.machine.servers
    ensures y1.machine == Machine(StandWords(y.machine.bits, y.machine.servers, id), y.machine.bits)
    ensures y2.machine == Machine(CampaignWords(y.machine.bits, y1.machine.servers, id, req, others), y.machine.bits)
    ensures Abs(y1) == Next(Abs(y), DoTimeout(id)) && Abs(y2) == Campaign(Abs(y1), id, req, others)
    ensures Valid(y2.machine)
  {
    y1 := StandRefines(y, id);
    StandKeys(y.machine.bits, y.machine.servers, id);
    y2 := CampaignRefines(y1, id, req, others);
  }

  lemma FaceTerms(y: System)
    ensures forall k :: k in y.machine.servers ==> Abs(y).servers[k].l == View(y.machine.servers[k])
  {
  }

  /** A server that no other is ahead of becomes leader of the next term when it runs an election. */
  lemma ElectionElects(y: System, id: ServerId, req: VoteRequest, others: seq<ServerId>)
    requires Valid(y.machine) && SmallIds(y.machine.servers)
    requires id in y.machine.servers && req == VoteRequest(View(y.machine.servers[id]).term + 1, id)
    requires req.term < TERM_LIMIT
    requires NoDup(others) && forall k :: k in others <==> k in y.machine.servers && k != id
    requires forall k :: k in y.machine.servers ==> View(y.machine.servers[k]).term < req.term
    ensures View(CampaignWords(y.machine.bits, StandWords(y.machine.bits, y.machine.servers, id), id, req, others)[id])
         == Logical(req.term, Some(id), Leader)
  {
    var y1, y2 := ElectionRefines(y, id, req, others);
    FaceTerms(y);
    FaceTerms(y2);
    TimedOutWins(Abs(y), id, others, req.term);
  }
}
