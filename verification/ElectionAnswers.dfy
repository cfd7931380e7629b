/** What the servers of an election answer. */
module ElectionAnswers {
  /* The steps of `LogicalElection` on the fields, and what they come to over a run: a vote is granted exactly to
     whoever may have it, and a candidate leads exactly when it counts more than half of the servers. */

  import opened LogicalElection
  import opened Options
  import opened PackedWord

  predicate Free(votedFor: Option<nat>, candidate: ServerId) {
    votedFor == None || votedFor == Some(candidate)
  }

  predicate Most(voters: set<ServerId>, members: set<ServerId>) {
    2 * |voters| > |members|
  }

  /** A server whose election timer fires stands for the next term. */
  ghost predicate TimesOut(members: set<ServerId>, id: ServerId, f: Face, f': Face) {
    && f'.l.term == f.l.term + 1 && f'.l.votedFor == Some(id) && f'.voters == {id}
    && f'.l.role == if Most({id}, members) then Leader else Candidate
  }

  /** A request of a newer term renews the server; a request that is not of an older one gets the vote if it is
      still free. */
  ghost predicate Replied(f: Face, req: VoteRequest, granted: bool, f': Face) {
    if req.term > f.l.term then
      && granted && f' == Face(Logical(req.term, Some(req.candidate), Follower), f'.voters)
      && f'.voters == if f.l.role == Follower then f.voters else {}
    else if req.term == f.l.term && Free(f.l.votedFor, req.candidate) then
      granted && f' == Face(Logical(f.l.term, Some(req.candidate), f.l.role), f.voters)
    else !granted && f' == f
  }

  /** A candidate counts the votes granted to it in its term, each server once, and leads as soon as it has most. */
  ghost predicate Counted(members: set<ServerId>, id: ServerId, f: Face, resp: VoteResponse, f': Face) {
    if resp.term > f.l.term then f' == Face(Logical(resp.term, None, Follower), {})
    else if f.l.role == Candidate && resp.term == f.l.term && resp.granted && resp.voter in members then
      && f'.voters == f.voters + {resp.voter}
      && f'.l == if Most(f'.voters, members) then Logical(f.l.term, Some(id), Leader) else f.l
    else f' == f
  }

  /** A heartbeat that is not stale makes a follower, and only a newer term frees the vote. */
  ghost predicate Follows(f: Face, hb: Heartbeat, f': Face) {
    if hb.term > f.l.term then f' == Face(Logical(hb.term, None, Follower), {})
    else if hb.term == f.l.term then f' == Face(Logical(f.l.term, f.l.votedFor, Follower), {})
    else f' == f
  }

  /** Every step does this to its server, nothing to any other, and sends what it answers. */
  lemma StepIs(y: Cluster, a: Action)
    requires Enabled(y, a)
    ensures var y', f := Next(y, a), y.servers[a.id];
            && y'.servers.Keys == y.servers.Keys
            && (forall i :: i in y.servers && i != a.id ==> y'.servers[i] == y.servers[i])
            && var f' := y'.servers[a.id];
               match a
               case DoTimeout(id) => TimesOut(y.servers.Keys, id, f, f') && y'.responses == y.responses
               case DoVoteRequest(id, req) =>
                 exists granted ::
                   && Replied(f, req, granted, f')
                   && y'.responses == y.responses + {Delivery(req.candidate, VoteResponse(f'.l.term, granted, id))}
               case DoVoteResponse(id, resp) => Counted(y.servers.Keys, id, f, resp, f') && y'.responses == y.responses
               case DoHeartbeat(_, hb) => Follows(f, hb, f') && y'.responses == y.responses
  {
    match a
    case DoTimeout(id) => Alone(y.servers.Keys, id); AloneIsMost(y.servers.Keys, id);
    case DoVoteRequest(id, req) => assert Replied(y.servers[id], req, Grants(y.servers[id].l, req), Stepped(y, a));
    case DoVoteResponse(_, _) =>
    case DoHeartbeat(_, _) =>
  }

  lemma AloneIsMost(members: set<ServerId>, id: ServerId)
    requires id in members
    ensures |members| == 1 <==> Most({id}, members)
  {
    assert |members| > 0;
  }

  // ---------------------------------------------------------------- over a run

  /** Server i has voted in the term, for somebody else. */
  ghost predicate Taken(votes: Votes, term: Term, i: ServerId, candidate: ServerId) {
    Ballot(term, i) in votes && votes[Ballot(term, i)] != candidate
  }

  /** In every run a request is granted if and only if it is not of an older term than the server's and the server
      has never voted for anybody else in its term; and the answer is sent to the candidate. */
  lemma GrantedExactly(states: seq<Cluster>, actions: seq<Action>, k: nat)
    requires Run(states, actions) && k < |actions| && actions[k].DoVoteRequest?
    ensures var id, req, votes := actions[k].id, actions[k].req, History(states, actions, k);
            && id in states[k].servers && id in states[k + 1].servers
            && var granted := req.term >= states[k].servers[id].l.term && !Taken(votes, req.term, id, req.candidate);
               && Delivery(req.candidate, VoteResponse(states[k + 1].servers[id].l.term, granted, id))
                    in states[k + 1].responses
               && (granted ==> VotedFor(History(states, actions, k + 1), req.term, id, req.candidate))
               && (!granted ==> states[k + 1].servers == states[k].servers)
  {
    var id, req := actions[k].id, actions[k].req;
    assert Enabled(states[k], actions[k]) && states[k + 1] == Next(states[k], actions[k]);
    RunInv(states, actions, k);
    StepIs(states[k], actions[k]);
    assert Agrees(History(states, actions, k), id, states[k].servers[id].l);
    assert states[k + 1].servers[id] == Stepped(states[k], actions[k]);
    if !Grants(states[k].servers[id].l, req) {
      assert states[k + 1].servers == states[k].servers;
    }
  }

  /** A server that counts more than half of the servers leads, and a leader does. */
  ghost predicate LeadsExactly(members: set<ServerId>, f: Face) {
    f.l.role == Leader || f.l.role == Candidate ==> (f.l.role == Leader <==> Most(f.voters, members))
  }

  lemma KeepsLeading(y: Cluster, a: Action)
    requires Enabled(y, a) && LeadsExactly(y.servers.Keys, y.servers[a.id])
    ensures LeadsExactly(y.servers.Keys, Next(y, a).servers[a.id])
  {
    StepIs(y, a);
  }

  /** In every run a server that stands for election leads if and only if it counts the votes of more than half of
      the servers. */
  lemma {:induction false} MajorityLeads(states: seq<Cluster>, actions: seq<Action>, k: nat, i: ServerId)
    requires Run(states, actions) && k <= |actions| && i in states[0].servers
    ensures i in states[k].servers && LeadsExactly(states[k].servers.Keys, states[k].servers[i])
    ensures states[k].servers.Keys == states[0].servers.Keys
  {
    if k > 0 {
      MajorityLeads(states, actions, k - 1, i);
      assert Enabled(states[k - 1], actions[k - 1]);
      StepIs(states[k - 1], actions[k - 1]);
      if actions[k - 1].id == i {
        KeepsLeading(states[k - 1], actions[k - 1]);
      }
    }
  }
}
