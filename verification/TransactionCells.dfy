/** The operations of two-phase commit on its cells. */
module TransactionCells {
  /* The operations of results/v1/two_phase_commit_best.rs on the cells of one transaction, each run
     from start to end, and the two drivers `run_commit` and `run_abort`. A weak compare-and-swap may
     fail although the cell holds the expected value; `spurious` counts how often that happened. */

  import opened Collections
  import opened Options
  import opened TwoPhaseCommit

  datatype Decision = Commit | Abort

  datatype RunResult = Ok(decision: Decision) | Err(error: Error)

  /** Preparing and counting a resource manager in one go keeps the invariant. */
  lemma PrepareKeeps(c: Cells, total: nat, prepared: set<RmId>, rm: RmId)
    requires Inv(State(c, total, map[]), prepared) && rm in c.rms && c.rms[rm] == Working
    ensures Inv(State(RmSet(c, rm, Prepared).(count := c.count + 1), total, map[]), prepared + {rm})
    ensures RmSet(c, rm, Prepared).rms.Keys == c.rms.Keys
  {
    assert Counting(map[]) == {};
    assert RmOk(c.tm, Working, rm in prepared);
    if c.count == total {
      FullCount(State(c, total, map[]), prepared);
    }
  }

  /** The vote of one resource manager when `aborting`, if any, votes no and the others vote yes. */
  function VoteOf(rm: RmId, aborting: Option<RmId>): RmState {
    if aborting == Some(rm) then RmAborted else Prepared
  }

  /** The first k ids are distinct and have voted. */
  ghost predicate Voted(ids: seq<RmId>, rms: map<RmId, RmState>, k: nat, aborting: Option<RmId>)
    requires k <= |ids|
  {
    NoDup(ids[..k]) && forall rm :: rm in ids[..k] ==> rm in rms && rms[rm] == VoteOf(rm, aborting)
  }

  lemma AllVoted(ids: seq<RmId>, rms: map<RmId, RmState>, aborting: Option<RmId>)
    requires Voted(ids, rms, |ids|, aborting)
    ensures NoDup(ids) && forall rm :: rm in ids ==> rm in rms && rms[rm] == VoteOf(rm, aborting)
  {
    assert ids[..|ids|] == ids;
  }

  /** Nobody else has. */
  ghost predicate Others(ids: seq<RmId>, rms: map<RmId, RmState>, k: nat)
    requires k <= |ids|
  {
    forall rm :: rm in rms && rm !in ids[..k] ==> rms[rm] == Working
  }

  lemma NextVoted(ids: seq<RmId>, rms: map<RmId, RmState>, k: nat, vote: RmState, aborting: Option<RmId>)
    requires k < |ids| && Voted(ids, rms, k, aborting) && vote == VoteOf(ids[k], aborting)
    requires ids[k] in rms && rms[ids[k]] == Working
    ensures Voted(ids, rms[ids[k] := vote], k + 1, aborting)
    ensures Others(ids, rms, k) ==> Others(ids, rms[ids[k] := vote], k + 1)
  {
    assert ids[..k + 1] == ids[..k] + [ids[k]];
  }

  /** A vote that finds its resource manager no longer working is a repetition. */
  lemma RefusedRepeats(ids: seq<RmId>, rms: map<RmId, RmState>, k: nat)
    requires k < |ids|
    ensures Others(ids, rms, k) && ids[k] in rms && rms[ids[k]] != Working ==> !NoDup(ids)
  {
    if ids[k] in ids[..k] {
      var j :| 0 <= j < k && ids[..k][j] == ids[k];
      assert ids[j] == ids[k];
    }
  }

  /** The first k ids have committed, the others are prepared. */
  ghost predicate Delivered(ids: seq<RmId>, rms: map<RmId, RmState>, k: nat) {
    forall j :: 0 <= j < |ids| ==> ids[j] in rms && rms[ids[j]] == if j < k then RmCommitted else Prepared
  }

  lemma NextDelivered(ids: seq<RmId>, rms: map<RmId, RmState>, k: nat)
    requires k < |ids| && NoDup(ids) && Delivered(ids, rms, k)
    ensures Delivered(ids, rms[ids[k] := RmCommitted], k + 1)
  {
  }

  class TxnInner {
    var tm: TmState
    var rms: map<RmId, RmState>
    var count: nat
    const ids: seq<RmId>

    ghost var spurious: nat
    /** The resource managers that have prepared at some time. */
    ghost var prepared: set<RmId>

    ghost function View(): Cells
      reads this
    {
      Cells(tm, rms, count)
    }

    /** The invariant of `TwoPhaseCommit` between operations. */
    ghost predicate Valid()
      reads this
    {
      && rms.Keys == Elements(ids)
      && Inv(State(View(), |ids|, map[]), prepared)
    }

    ghost predicate Unvoted()
      reads this
    {
      count == 0 && forall r :: r in rms ==> rms[r] == Working
    }

    ghost predicate Fresh()
      reads this
    {
      tm == Init && Unvoted()
    }

    constructor (ids: seq<RmId>)
      ensures this.ids == ids && Valid() && Fresh() && spurious == 0
    {
      var rms': map<RmId, RmState> := map[];
      for k := 0 to |ids|
        invariant rms'.Keys == Elements(ids[..k])
        invariant forall r :: r in rms' ==> rms'[r] == Working
      {
        rms' := rms'[ids[k] := Working];
        assert ids[..k + 1] == ids[..k] + [ids[k]];
      }
      assert ids[..|ids|] == ids;
      ElementsBound(ids);
      this.ids := ids;
      tm, rms, count := Init, rms', 0;
      spurious, prepared := 0, {};
      new;
      assert Counting(map[]) == {};
    }

    // -------------------------------------------------------------- weak compare-and-swap

    method SetTmState(from: TmState, to: TmState) returns (ok: bool)
      modifies this`tm, this`spurious
      ensures spurious >= old(spurious)
      ensures ok ==> old(tm) == from && tm == to && spurious == old(spurious)
      ensures !ok ==> tm == old(tm)
      ensures !ok && spurious == old(spurious) ==> old(tm) != from
    {
      var fails := *;
      if tm != from {
        return false;
      }
      if fails {
        spurious := spurious + 1;
        return false;
      }
      tm := to;
      ok := true;
    }

    method SetRmState(rm: RmId, from: RmState, to: RmState) returns (ok: bool)
      modifies this`rms, this`spurious
      ensures spurious >= old(spurious)
      ensures ok ==> rm in old(rms) && old(rms)[rm] == from && rms == old(rms)[rm := to] && spurious == old(spurious)
      ensures !ok ==> rms == old(rms)
      ensures !ok && spurious == old(spurious) ==> rm !in old(rms) || old(rms)[rm] != from
    {
      var fails := *;
      if rm !in rms || rms[rm] != from {
        return false;
      }
      if fails {
        spurious := spurious + 1;
        return false;
      }
      rms := rms[rm := to];
      ok := true;
    }

    // -------------------------------------------------------------- the operations

    method TmPrepare() returns (r: Outcome)
      requires Valid()
      modifies this`tm, this`spurious
      ensures Valid() && spurious >= old(spurious)
      ensures r == Done ==> old(tm) == Init && tm == Preparing && spurious == old(spurious)
      ensures r != Done ==> r == Failed(InvalidState) && tm == old(tm)
      ensures r != Done && spurious == old(spurious) ==> old(tm) != Init
    {
      var ok := SetTmState(Init, Preparing);
      r := if ok then Done else Failed(InvalidState);
    }

    /** The error reported for a vote that did not take effect. */
    method VoteFailure(rm: RmId) returns (r: Outcome)
      ensures r == Failed(VoteError(View(), rm))
    {
      if rm !in rms {
        return Failed(RmNotFound);
      }
      var currentState := rms[rm];
      r := if currentState != Working then Failed(InvalidState) else Failed(RmNotFound);
    }

    method RmPrepare(rm: RmId) returns (r: Outcome)
      requires Valid()
      modifies this`rms, this`count, this`spurious, this`prepared
      ensures Valid() && spurious >= old(spurious)
      ensures r == Done ==>
                && rm in old(rms) && old(rms)[rm] == Working && spurious == old(spurious)
                && rms == old(rms)[rm := Prepared] && count == old(count) + 1 && prepared == old(prepared) + {rm}
      ensures r != Done ==>
                && r == Failed(VoteError(old(View()), rm))
                && rms == old(rms) && count == old(count) && prepared == old(prepared)
      ensures r != Done && spurious == old(spurious) ==> rm !in old(rms) || old(rms)[rm] != Working
    {
      ghost var before := View();
      var ok := SetRmState(rm, Working, Prepared);
      if ok {
        count := count + 1;
        PrepareKeeps(before, |ids|, prepared, rm);
        prepared := prepared + {rm};
        return Done;
      }
      r := VoteFailure(rm);
    }

    method RmChooseToAbort(rm: RmId) returns (r: Outcome)
      requires Valid()
      modifies this`rms, this`spurious
      ensures Valid() && spurious >= old(spurious)
      ensures r == Done ==>
                && rm in old(rms) && old(rms)[rm] == Working && spurious == old(spurious)
                && rms == old(rms)[rm := RmAborted]
      ensures r != Done ==> r == Failed(VoteError(old(View()), rm)) && rms == old(rms)
      ensures r != Done && spurious == old(spurious) ==> rm !in old(rms) || old(rms)[rm] != Working
    {
      var ok := SetRmState(rm, Working, RmAborted);
      if ok {
        assert RmOk(tm, Working, rm in prepared);
        assert rms.Keys == old(rms).Keys;
        return Done;
      }
      r := VoteFailure(rm);
    }

    method TmCommit() returns (r: Outcome)
      requires Valid()
      modifies this`tm, this`spurious
      ensures Valid()
      ensures r == Done ==> old(tm) == Preparing && tm == Committed && count == |ids| && spurious == old(spurious)
      ensures r != Done ==> tm == old(tm)
      ensures old(tm) != Preparing ==> r == Failed(InvalidState)
      ensures old(tm) == Preparing && count != |ids| ==> r == Failed(NotAllPrepared)
      ensures r != Pending && spurious >= old(spurious)
      ensures r != Done && spurious == old(spurious) ==> old(tm) != Preparing || count != |ids|
    {
      if tm != Preparing {
        return Failed(InvalidState);
      }
      var preparedCount := count;
      if preparedCount != |ids| {
        return Failed(NotAllPrepared);
      }
      var ok := SetTmState(Preparing, Committed);
      r := if ok then Done else Failed(InvalidState);
    }

    method TmAbort() returns (r: Outcome)
      requires Valid()
      modifies this`tm, this`spurious
      ensures Valid()
      ensures r == Done ==> old(tm) in {Init, Preparing} && tm == Aborted && spurious == old(spurious)
      ensures r != Done ==> tm == old(tm)
      ensures old(tm) in {Committed, Aborted} ==> r == Failed(AlreadyDecided)
      ensures r != Pending && spurious >= old(spurious)
      ensures r != Done && spurious == old(spurious) ==> old(tm) in {Committed, Aborted}
    {
      var currentState := tm;
      if currentState == Committed || currentState == Aborted {
        return Failed(AlreadyDecided);
      }
      var ok := SetTmState(currentState, Aborted);
      r := if ok then Done else Failed(InvalidState);
    }

    method RmRcvCommit(rm: RmId) returns (r: Outcome)
      requires Valid()
      modifies this`rms, this`spurious
      ensures Valid() && spurious >= old(spurious)
      ensures r == Done ==>
                && tm == Committed && rm in old(rms) && old(rms)[rm] == Prepared
                && rms == old(rms)[rm := RmCommitted] && spurious == old(spurious)
      ensures r != Done ==> rms == old(rms) && r == Failed(if tm == Committed then RmNotFound else InvalidState)
      ensures r != Done && spurious == old(spurious) ==> tm != Committed || rm !in rms || rms[rm] != Prepared
    {
      if tm != Committed {
        return Failed(InvalidState);
      }
      var ok := SetRmState(rm, Prepared, RmCommitted);
      if ok {
        assert RmOk(tm, Prepared, rm in prepared);
        assert rms.Keys == old(rms).Keys;
      }
      r := if ok then Done else Failed(RmNotFound);
    }

    /** The result of the compare-and-swap is ignored, so a spurious failure is reported as done. */
    method RmRcvAbort(rm: RmId) returns (r: Outcome)
      requires Valid()
      modifies this`rms, this`spurious
      ensures Valid() && spurious >= old(spurious)
      ensures r == if tm != Aborted then Failed(InvalidState)
                   else if rm !in old(rms) then Failed(RmNotFound)
                   else if old(rms)[rm] == RmCommitted then Failed(InvalidState)
                   else Done
      ensures rms == old(rms) || (r == Done && rms == old(rms)[rm := RmAborted])
      ensures r == Done && spurious == old(spurious) ==> rms == old(rms)[rm := RmAborted]
    {
      if tm != Aborted {
        return Failed(InvalidState);
      }
      if rm !in rms {
        return Failed(RmNotFound);
      }
      var currentState := rms[rm];
      match currentState {
        case Working =>
          var _ := SetRmState(rm, Working, RmAborted);
        case Prepared =>
          var _ := SetRmState(rm, Prepared, RmAborted);
        case RmAborted =>
        case RmCommitted =>
          return Failed(InvalidState);
      }
      assert RmOk(tm, currentState, rm in prepared);
      assert rms.Keys == old(rms).Keys;
      r := Done;
    }

    // -------------------------------------------------------------- run_commit and run_abort

    /** The first k ids have voted, and if nobody had voted before, then nobody else has. */
    ghost predicate VotedSoFar(unvoted: bool, k: nat, aborting: Option<RmId>)
      requires k <= |ids|
      reads this
    {
      Voted(ids, rms, k, aborting) && (unvoted ==> Others(ids, rms, k) && (aborting.None? ==> count == k))
    }

    /** The vote of the k-th id: yes, unless it is the one that aborts. */
    method VoteNext(k: nat, aborting: Option<RmId>, ghost unvoted: bool) returns (r: Outcome)
      requires Valid() && k < |ids| && VotedSoFar(unvoted, k, aborting)
      modifies this`rms, this`count, this`spurious, this`prepared
      ensures Valid() && spurious >= old(spurious) && r != Pending
      ensures r == Done ==> VotedSoFar(unvoted, k + 1, aborting)
      ensures r != Done && spurious == old(spurious) && unvoted ==> !NoDup(ids)
    {
      assert ids[k] in Elements(ids);
      if aborting == Some(ids[k]) {
        r := RmChooseToAbort(ids[k]);
      } else {
        r := RmPrepare(ids[k]);
      }
      if r == Done {
        NextVoted(ids, old(rms), k, VoteOf(ids[k], aborting), aborting);
      } else {
        RefusedRepeats(ids, old(rms), k);
      }
    }

    /** All vote, in the order of the id list: all yes, or one of them no. */
    method VoteAll(aborting: Option<RmId>) returns (r: Outcome)
      requires Valid()
      modifies this`rms, this`count, this`spurious, this`prepared
      ensures Valid() && spurious >= old(spurious) && r != Pending
      ensures r == Done ==> Voted(ids, rms, |ids|, aborting)
      ensures old(Unvoted()) && spurious == old(spurious) && r != Done ==> !NoDup(ids)
      ensures old(Unvoted()) && r == Done && aborting.None? ==> count == |ids|
    {
      ghost var unvoted := Unvoted();
      assert VotedSoFar(unvoted, 0, aborting);
      for k := 0 to |ids|
        invariant Valid() && spurious >= old(spurious)
        invariant VotedSoFar(unvoted, k, aborting)
      {
        r := VoteNext(k, aborting, unvoted);
        if r != Done {
          return;
        }
      }
      r := Done;
    }

    method CommitAll() returns (r: Outcome)
      requires Valid() && NoDup(ids) && tm == Committed
      requires forall rm :: rm in ids ==> rm in rms && rms[rm] == Prepared
      modifies this`rms, this`spurious
      ensures Valid() && spurious >= old(spurious) && r != Pending
      ensures r == Done ==> forall rm :: rm in ids ==> rm in rms && rms[rm] == RmCommitted
      ensures spurious == old(spurious) ==> r == Done
    {
      for k := 0 to |ids|
        invariant Valid() && spurious >= old(spurious)
        invariant Delivered(ids, rms, k)
      {
        ghost var before := rms;
        r := RmRcvCommit(ids[k]);
        if r != Done {
          return;
        }
        NextDelivered(ids, before, k);
      }
      r := Done;
    }

    /** A run that reports a commit has committed everywhere. A new transaction commits, short of a
        spurious failure, exactly when no id is listed twice. */
    method RunCommit() returns (r: RunResult)
      requires Valid()
      modifies this
      ensures Valid()
      ensures r.Ok? ==> r == Ok(Commit) && tm == Committed && NoDup(ids)
      ensures r.Ok? ==> forall rm :: rm in ids ==> rm in rms && rms[rm] == RmCommitted
      ensures old(Fresh()) && spurious == old(spurious) ==> (r.Ok? <==> NoDup(ids))
    {
      var outcome := TmPrepare();
      if outcome != Done {
        return Err(outcome.error);
      }
      outcome := VoteAll(None);
      if outcome != Done {
        return Err(outcome.error);
      }
      AllVoted(ids, rms, None);
      outcome := TmCommit();
      if outcome != Done {
        return Err(outcome.error);
      }
      outcome := CommitAll();
      if outcome != Done {
        return Err(outcome.error);
      }
      r := Ok(Commit);
    }

    method AbortAll() returns (r: Outcome)
      requires Valid() && tm == Aborted && forall rm :: rm in ids ==> rm in rms && rms[rm] in {Prepared, RmAborted}
      modifies this`rms, this`spurious
      ensures Valid() && spurious >= old(spurious) && r == Done
      ensures spurious == old(spurious) ==> forall rm :: rm in ids ==> rm in rms && rms[rm] == RmAborted
    {
      for k := 0 to |ids|
        invariant Valid() && spurious >= old(spurious)
        invariant forall rm :: rm in ids ==> rm in rms && rms[rm] in {Prepared, RmAborted}
        invariant spurious == old(spurious) ==> forall rm :: rm in ids[..k] ==> rms[rm] == RmAborted
      {
        var state := rms[ids[k]];
        if state != RmAborted {
          var outcome := RmRcvAbort(ids[k]);
          if outcome != Done {
            return outcome;
          }
        }
        assert ids[..k + 1] == ids[..k] + [ids[k]];
      }
      assert ids[..|ids|] == ids;
      r := Done;
    }

    /** A run that reports an abort has decided to abort; short of a spurious failure it has aborted
        everywhere, and a new transaction gets there exactly when no id is listed twice. */
    method RunAbort(abortingRm: RmId) returns (r: RunResult)
      requires Valid()
      modifies this
      ensures Valid()
      ensures r.Ok? ==> r == Ok(Abort) && tm == Aborted && NoDup(ids)
      ensures r.Ok? && spurious == old(spurious) ==> forall rm :: rm in ids ==> rm in rms && rms[rm] == RmAborted
      ensures old(Fresh()) && spurious == old(spurious) ==> (r.Ok? <==> NoDup(ids))
    {
      var outcome := TmPrepare();
      if outcome != Done {
        return Err(outcome.error);
      }
      outcome := VoteAll(Some(abortingRm));
      if outcome != Done {
        return Err(outcome.error);
      }
      AllVoted(ids, rms, Some(abortingRm));
      outcome := TmAbort();
      if outcome != Done {
        return Err(outcome.error);
      }
      outcome := AbortAll();
      r := if outcome == Done then Ok(Abort) else Err(InvalidState);
    }
  }
}
