/** The operations of `RaftElection`, in place. */
module ElectionOperations {
  /* The operations of results/v2/raft_election_best.rs as they update the atomic words of one server,
     proved equal to the word functions of `PackedElection`; and `run_election`, which strings them
     together. */

  import opened Collections
  import opened LogicalElection
  import opened Options
  import opened PackedElection
  import opened PackedWord

  datatype Error = ServerNotFound | NotCandidate

  datatype Result<T> = Ok(value: T) | Err(error: Error)

  class ServerAtomic {
    var packed: bv64
    var votesReceived: bv64

    constructor (packed: bv64, votesReceived: bv64)
      ensures this.packed == packed && this.votesReceived == votesReceived
    {
      this.packed := packed;
      this.votesReceived := votesReceived;
    }

    ghost function Word(): Server
      reads this
    {
      Server(packed, votesReceived)
    }

    method Timeout(id: ServerId, selfBit: nat, clusterSize: nat) returns (request: VoteRequest)
      modifies this
      ensures Word() == TimeoutServer(old(Word()), id, selfBit, clusterSize == 1)
      ensures request == VoteRequest(View(old(Word())).term + 1, id)
    {
      var newTerm := UnpackTerm(packed) + 1;
      packed := Pack(Logical(newTerm, Some(id), Candidate));
      votesReceived := Bit(selfBit);
      if clusterSize == 1 {
        packed := Pack(Logical(newTerm, Some(id), Leader));
      }
      request := VoteRequest(newTerm, id);
    }

    method HandleVoteRequest(id: ServerId, req: VoteRequest) returns (response: VoteResponse)
      modifies this
      ensures Word() == VoteRequestServer(old(Word()), req)
      ensures response == VoteReply(View(old(Word())), id, req)
    {
      var oldPacked := packed;
      var currentTerm, votedFor, state := UnpackTerm(oldPacked), UnpackVotedFor(oldPacked), UnpackRole(oldPacked);
      if req.term > currentTerm {
        currentTerm := req.term;
        state := Follower;
        votedFor := None;
      }
      var granted := req.term >= currentTerm && (votedFor.None? || votedFor == Some(req.candidate));
      if granted {
        votedFor := Some(req.candidate);
      }
      var newPacked := Pack(Logical(currentTerm, votedFor, state));
      response := VoteResponse(currentTerm, granted, id);
      if oldPacked == newPacked {
        return;
      }
      packed := newPacked;
      if state == Follower && UnpackRole(oldPacked) != Follower {
        votesReceived := 0;
      }
    }

    method HandleVoteResponse(id: ServerId, resp: VoteResponse, bits: map<ServerId, nat>, clusterSize: nat)
      returns (leads: bool)
      modifies this
      ensures Word() == VoteResponseServer(bits, clusterSize, id, old(Word()), resp)
      ensures id < ID_LIMIT ==> leads == ReportsWin(bits, clusterSize, old(Word()), resp)
    {
      var oldPacked := packed;
      var currentTerm, state := UnpackTerm(oldPacked), UnpackRole(oldPacked);
      if resp.term > currentTerm {
        packed := Pack(Logical(resp.term, None, Follower));
        votesReceived := 0;
        return false;
      }
      if state != Candidate || resp.term != currentTerm {
        return state == Leader && resp.term == currentTerm;
      }
      if resp.granted && resp.voter in bits {
        votesReceived := Or(votesReceived, Bit(bits[resp.voter]));
        if CountOnes(votesReceived) >= clusterSize / 2 + 1 {
          packed := Pack(Logical(currentTerm, Some(id), Leader));
          if id < ID_LIMIT {
            WonWord(Server(oldPacked, 0), id, votesReceived);
          }
          return UnpackRole(packed) == Leader && UnpackTerm(packed) == currentTerm;
        }
      }
      leads := false;
    }

    method HandleHeartbeat(hb: Heartbeat)
      modifies this
      ensures Word() == HeartbeatServer(old(Word()), hb)
    {
      var oldPacked := packed;
      var currentTerm := UnpackTerm(oldPacked);
      if hb.term >= currentTerm {
        var votedFor := if hb.term > currentTerm then None else UnpackVotedFor(oldPacked);
        var newPacked := Pack(Logical(hb.term, votedFor, Follower));
        if oldPacked != newPacked {
          packed := newPacked;
        }
        votesReceived := 0;
      }
    }
  }

  class RaftElection {
    const servers: map<ServerId, ServerAtomic>
    const bits: map<ServerId, nat>

    ghost function Words(): map<ServerId, Server>
      reads servers.Values
    {
      map i | i in servers :: servers[i].Word()
    }

    ghost function State(): Machine
      reads servers.Values
    {
      Machine(Words(), bits)
    }

    ghost predicate Wired() {
      forall i, j :: i in servers && j in servers && i != j ==> servers[i] != servers[j]
    }

    ghost function Cell(id: ServerId): set<object> {
      if id in servers then {servers[id]} else {}
    }

    constructor (ids: seq<ServerId>)
      requires 0 < |ids| <= 64
      ensures Wired() && servers.Keys == Elements(ids)
      ensures Starts(System(State(), {}))
    {
      var servers': map<ServerId, ServerAtomic> := map[];
      var bits': map<ServerId, nat> := map[];
      for k := 0 to |ids|
        invariant servers'.Keys == bits'.Keys == Elements(ids[..k])
        invariant forall i :: i in servers' ==> fresh(servers'[i]) && servers'[i].Word() == Server(Pack(INITIAL), 0)
        invariant forall i, j :: i in servers' && j in servers' && i != j ==> servers'[i] != servers'[j]
        invariant forall i :: i in bits' ==> bits'[i] < k && ids[bits'[i]] == i
      {
        var cell := new ServerAtomic(Pack(INITIAL), 0);
        bits' := bits'[ids[k] := k];
        servers' := servers'[ids[k] := cell];
        assert ids[..k + 1] == ids[..k] + [ids[k]];
      }
      assert ids[..|ids|] == ids;
      servers := servers';
      bits := bits';
      new;
      NoVoters(bits);
    }

    method TimeoutAt(id: ServerId) returns (request: VoteRequest)
      requires Wired() && bits.Keys == servers.Keys && id in servers
      modifies servers[id]
      ensures request == VoteRequest(View(old(servers[id].Word())).term + 1, id)
      ensures Words() == old(Words())[id := TimeoutServer(old(servers[id].Word()), id, bits[id], |servers| == 1)]
    {
      request := servers[id].Timeout(id, bits[id], |servers|);
    }

    method Timeout(id: ServerId) returns (r: Result<VoteRequest>)
      requires Wired() && bits.Keys == servers.Keys
      modifies Cell(id)
      ensures id !in servers ==> r == Err(ServerNotFound)
      ensures id in servers ==> r == Ok(VoteRequest(View(old(Words())[id]).term + 1, id))
      ensures id in servers ==>
                Words() == old(Words())[id := TimeoutServer(old(Words())[id], id, bits[id], |servers| == 1)]
    {
      if id !in servers {
        return Err(ServerNotFound);
      }
      var request := TimeoutAt(id);
      r := Ok(request);
    }

    method HandleVoteRequest(id: ServerId, req: VoteRequest) returns (r: Result<VoteResponse>)
      requires Wired()
      modifies Cell(id)
      ensures id !in servers ==> r == Err(ServerNotFound)
      ensures id in servers ==> r == Ok(VoteReply(View(old(Words())[id]), id, req))
      ensures id in servers ==> Words() == old(Words())[id := VoteRequestServer(old(Words())[id], req)]
    {
      if id !in servers {
        return Err(ServerNotFound);
      }
      var response := servers[id].HandleVoteRequest(id, req);
      r := Ok(response);
    }

    method HandleVoteResponse(id: ServerId, resp: VoteResponse) returns (r: Result<bool>)
      requires Wired()
      modifies Cell(id)
      ensures id !in servers ==> r == Err(ServerNotFound)
      ensures id in servers ==>
                Words() == old(Words())[id := VoteResponseServer(bits, |servers|, id, old(Words())[id], resp)]
      ensures id in servers && id < ID_LIMIT ==> r == Ok(ReportsWin(bits, |servers|, old(Words())[id], resp))
      ensures id in servers ==> r.Ok?
    {
      if id !in servers {
        return Err(ServerNotFound);
      }
      var won := servers[id].HandleVoteResponse(id, resp, bits, |servers|);
      r := Ok(won);
    }

    method HandleHeartbeat(id: ServerId, hb: Heartbeat) returns (r: Result<bool>)
      requires Wired()
      modifies Cell(id)
      ensures r == if id in servers then Ok(true) else Err(ServerNotFound)
      ensures id in servers ==> Words() == old(Words())[id := HeartbeatServer(old(Words())[id], hb)]
    {
      if id !in servers {
        return Err(ServerNotFound);
      }
      servers[id].HandleHeartbeat(hb);
      r := Ok(true);
    }

    /** Only a leader gets a heartbeat, and it carries the leader's own term. */
    method CreateHeartbeat(id: ServerId) returns (r: Result<Heartbeat>)
      ensures r == if id !in servers then Err(ServerNotFound)
                   else if View(servers[id].Word()).role == Leader
                   then Ok(Heartbeat(View(servers[id].Word()).term, id))
                   else Err(NotCandidate)
    {
      if id !in servers {
        return Err(ServerNotFound);
      }
      var packed := servers[id].packed;
      if UnpackRole(packed) != Leader {
        return Err(NotCandidate);
      }
      r := Ok(Heartbeat(UnpackTerm(packed), id));
    }

    method GetState(id: ServerId) returns (state: Option<Role>)
      ensures state == if id in servers then Some(View(servers[id].Word()).role) else None
    {
      state := if id in servers then Some(UnpackRole(servers[id].packed)) else None;
    }

    // -------------------------------------------------------------- run_election

    lemma SizeOf()
      ensures |Words()| == |servers|
    {
      assert Words().Keys == servers.Keys;
      assert |Words()| == |Words().Keys| && |servers| == |servers.Keys|;
    }

    method AnswerOne(id: ServerId, resp: VoteResponse) returns (won: bool)
      requires Wired() && bits.Keys == servers.Keys && id in servers && InRange(resp.term, id)
      requires !LeadsWords(Words(), id)
      modifies servers[id]
      ensures Words() == old(Words())[id := VoteResponseServer(bits, |servers|, id, old(Words())[id], resp)]
      ensures won == LeadsWords(Words(), id)
    {
      ReportIsTrue(bits, |servers|, id, Words()[id], resp);
      var leads := HandleVoteResponse(id, resp);
      won := leads.value;
    }

    method AskOne(id: ServerId, req: VoteRequest, other: ServerId) returns (won: bool)
      requires Wired() && bits.Keys == servers.Keys && id in servers && other in servers && id != other
      requires InRange(req.term, id)
      requires !LeadsWords(Words(), id)
      modifies servers[id], servers[other]
      ensures Words() == RoundWords(bits, old(Words()), id, req, other)
      ensures won == LeadsWords(Words(), id)
    {
      UnpackFits(servers[other].packed);
      SizeOf();
      var response := HandleVoteRequest(other, req);
      won := AnswerOne(id, response.value);
    }

    /** The other servers, in no particular order. */
    method Others(id: ServerId) returns (others: seq<ServerId>)
      ensures NoDup(others) && forall k :: k in others <==> k in servers && k != id
    {
      others := [];
      var rest := servers.Keys - {id};
      while rest != {}
        invariant NoDup(others) && id !in rest && rest <= servers.Keys
        invariant forall k :: k in others ==> k !in rest
        invariant forall k :: k in others || k in rest <==> k in servers && k != id
        decreases |rest|
      {
        var k :| k in rest;
        others := others + [k];
        rest := rest - {k};
      }
    }

    method Stand(id: ServerId) returns (r: Result<VoteRequest>, leads: bool)
      requires Wired() && bits.Keys == servers.Keys
      modifies Cell(id)
      ensures id !in servers ==> r == Err(ServerNotFound)
      ensures id in servers ==> r == Ok(VoteRequest(View(old(Words())[id]).term + 1, id))
      ensures id in servers ==> Words() == StandWords(bits, old(Words()), id) && leads == LeadsWords(Words(), id)
    {
      SizeOf();
      r := Timeout(id);
      var state := GetState(id);
      leads := state == Some(Leader);
    }

    method Campaign(id: ServerId, req: VoteRequest, others: seq<ServerId>) returns (won: bool)
      requires Wired() && bits.Keys == servers.Keys && id in servers
      requires forall k :: k in others ==> k in servers && k != id
      requires InRange(req.term, id) && !LeadsWords(Words(), id)
      modifies servers.Values
      ensures Words() == CampaignWords(bits, old(Words()), id, req, others)
      ensures won == LeadsWords(Words(), id)
    {
      won := false;
      var k := 0;
      while k < |others|
        invariant 0 <= k <= |others|
        invariant !LeadsWords(Words(), id)
        invariant CampaignWords(bits, old(Words()), id, req, others)
               == CampaignWords(bits, Words(), id, req, others[k..])
      {
        assert others[k..][0] == others[k] && others[k..][1..] == others[k + 1..];
        CampaignOn(bits, Words(), id, req, others[k..]);
        won := AskOne(id, req, others[k]);
        if won {
          CampaignOver(bits, Words(), id, req, others[k + 1..]);
          return;
        }
        k := k + 1;
      }
      CampaignOver(bits, Words(), id, req, others[k..]);
    }

    /** The part of `run_election` after the candidacy: unless it leads already, the candidate asks the
        others, and reads its own state at the end. */
    method Conclude(id: ServerId, req: VoteRequest, others: seq<ServerId>, leads: bool) returns (won: bool)
      requires Wired() && bits.Keys == servers.Keys && id in servers
      requires forall k :: k in others ==> k in servers && k != id
      requires InRange(req.term, id) && leads == LeadsWords(Words(), id)
      modifies servers.Values
      ensures Words() == CampaignWords(bits, old(Words()), id, req, others)
      ensures won == LeadsWords(Words(), id)
    {
      if leads {
        CampaignOver(bits, Words(), id, req, others);
        return true;
      }
      won := Campaign(id, req, others);
      if won {
        return;
      }
      var state := GetState(id);
      won := state == Some(Leader);
    }

    /** Stands for election, then asks the others in some order, and reports whether it leads. */
    method RunElection(id: ServerId)
      returns (r: Result<bool>, ghost req: VoteRequest, ghost stood: map<ServerId, Server>, ghost others: seq<ServerId>)
      requires Wired() && bits.Keys == servers.Keys && SmallIds(Words())
      requires id in servers ==> View(Words()[id]).term + 1 < TERM_LIMIT
      modifies servers.Values
      ensures id !in servers ==> r == Err(ServerNotFound)
      ensures NoDup(others) && forall k :: k in others <==> k in servers && k != id
      ensures id in servers ==> r == Ok(LeadsWords(Words(), id))
      ensures id in servers ==> req == VoteRequest(View(old(Words())[id]).term + 1, id)
      ensures id in servers ==> stood == StandWords(bits, old(Words()), id)
      ensures id in servers ==> Words() == CampaignWords(bits, stood, id, req, others)
    {
      var toAsk := Others(id);
      others := toAsk;
      var timedOut, leads := Stand(id);
      stood := Words();
      if timedOut.Err? {
        req := VoteRequest(0, id);
        r := Err(timedOut.error);
        return;
      }
      req := timedOut.value;
      assert id in Words().Keys;
      var won := Conclude(id, timedOut.value, toAsk, leads);
      r := Ok(won);
    }
  }
}
