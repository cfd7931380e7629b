/** What the callers of a two-phase commit are told. */
module TwoPhaseAnswers {
  /* Every change of a cell has an author, who is told that it is done; every refusal has the cause that it names.
     The statements are about the cells before and after a step and about the caller's previous step. */

  import opened Collections
  import opened TwoPhaseCommit

  // ---------------------------------------------------------------- who changes what

  predicate Decided(tm: TmState) {
    tm == Committed || tm == Aborted
  }

  /** The coordinator's cell changes by a compare-and-swap that finds what it expects, and by nothing else. */
  lemma CoordinatorMoves(ids: seq<RmId>, states: seq<State>, actions: seq<Action>, k: nat)
    requires Run(ids, states, actions) && k < |actions| && Enabled(states[k], actions[k])
    ensures var s, a, before, after := states[k], actions[k], states[k].cells.tm, states[k + 1].cells.tm;
            match a
            case TmPrepareCas(_, spurious) => after == if before == Init && !spurious then Preparing else before
            case TmCommitCas(_, spurious) => after == if before == Preparing && !spurious then Committed else before
            case TmAbortCas(t, spurious) =>
              after == if s.threads[t].TmAbortSaw? && before == s.threads[t].seen && !spurious then Aborted else before
            case _ => after == before
  {
  }

  /** A resource manager's cell changes in four ways: it prepares or aborts by itself, or follows the coordinator. */
  ghost predicate ManagerMove(s: State, a: Action, r: RmId, before: RmState, after: RmState) {
    match a
    case RmPrepareCas(_, rm, spurious) =>
      after == if rm == r && before == Working && !spurious then Prepared else before
    case RmChooseAbortCas(_, rm, spurious) =>
      after == if rm == r && before == Working && !spurious then RmAborted else before
    case RmRcvCommitCas(t, spurious) =>
      && t in s.threads && s.threads[t].RmRcvCommitSaw?
      && after == (if s.threads[t].rm == r && before == Prepared && !spurious then RmCommitted else before)
      && (after != before ==> s.cells.tm == Committed)
    case RmRcvAbortCas(t, spurious) =>
      && t in s.threads && s.threads[t].RmRcvAbortLoaded?
      && after == (if s.threads[t].rm == r && before == s.threads[t].state && !spurious then RmAborted else before)
      && (after != before ==> s.cells.tm == Aborted)
    case _ => after == before
  }

  lemma ManagerStep(s: State, a: Action, r: RmId)
    requires Enabled(s, a) && PcOk(s.cells, s.total, s.threads[a.t]) && r in s.cells.rms
    ensures r in Next(s, a).cells.rms && ManagerMove(s, a, r, s.cells.rms[r], Next(s, a).cells.rms[r])
  {
  }

  lemma ManagerMoves(ids: seq<RmId>, states: seq<State>, actions: seq<Action>, k: nat, r: RmId)
    requires Run(ids, states, actions) && k < |actions| && r in ids
    ensures r in states[k].cells.rms && r in states[k + 1].cells.rms
    ensures ManagerMove(states[k], actions[k], r, states[k].cells.rms[r], states[k + 1].cells.rms[r])
  {
    RunInv(ids, states, actions, k);
    assert r in Elements(ids) && Enabled(states[k], actions[k]) && states[k + 1] == Next(states[k], actions[k]);
    ManagerStep(states[k], actions[k], r);
  }

  // ---------------------------------------------------------------- the caller's previous step

  /** The last step of t before k was number j. */
  ghost predicate LastStep(actions: seq<Action>, j: nat, k: nat, t: ThreadId) {
    j < k <= |actions| && actions[j].t == t && forall m :: j < m < k ==> actions[m].t != t
  }

  /** A thread in the middle of an operation is where its own last step has put it. */
  lemma {:induction false} LastStepOf(ids: seq<RmId>, states: seq<State>, actions: seq<Action>, k: nat, t: ThreadId)
    returns (j: nat)
    requires Run(ids, states, actions) && k <= |actions| && t in states[k].threads && !states[k].threads[t].Rest?
    ensures LastStep(actions, j, k, t) && Enabled(states[j], actions[j])
    ensures states[k].threads[t] == StepPc(states[j], actions[j])
  {
    assert k > 0 && Enabled(states[k - 1], actions[k - 1]);
    if actions[k - 1].t == t {
      j := k - 1;
    } else {
      j := LastStepOf(ids, states, actions, k - 1, t);
    }
  }

  // ---------------------------------------------------------------- what is told

  ghost predicate Changed(s: State, s': State, r: RmId, from: RmState, to: RmState) {
    r in s.cells.rms && s.cells.rms[r] == from && r in s'.cells.rms && s'.cells.rms[r] == to
  }

  predicate Told(pc: Pc, o: Outcome) {
    pc == Rest(o)
  }

  /** The first step of an operation, and what its caller is told if it is the last one as well. */
  ghost predicate FirstTold(s: State, a: Action, s': State, told: Pc) {
    var before, after := s.cells.tm, s'.cells.tm;
    match a
    case TmPrepareCas(_, _) => Told(told, if before == Init && after == Preparing then Done else Failed(InvalidState))
    case RmPrepareCas(_, _, _) => !told.Rest?
    case RmChooseAbortCas(_, rm, _) => if Changed(s, s', rm, Working, RmAborted) then Told(told, Done) else !told.Rest?
    case TmCommitLoad(_) => if before == Preparing then !told.Rest? else Told(told, Failed(InvalidState))
    case TmAbortLoad(_) => if Decided(before) then Told(told, Failed(AlreadyDecided)) else !told.Rest?
    case RmRcvCommitLoad(_, _) => if before == Committed then !told.Rest? else Told(told, Failed(InvalidState))
    case RmRcvAbortLoad(_, _) => if before == Aborted then !told.Rest? else Told(told, Failed(InvalidState))
    case _ => true
  }

  predicate First(a: Action) {
    a.TmPrepareCas? || a.RmPrepareCas? || a.RmChooseAbortCas? || a.TmCommitLoad? || a.TmAbortLoad?
    || a.RmRcvCommitLoad? || a.RmRcvAbortLoad?
  }

  /** A later step, after step `b` of the same caller, which found `r` and left `r'`. */
  ghost predicate LaterTold(r: State, b: Action, r': State, s: State, a: Action, s': State, told: Pc) {
    match a
    case RmPrepareAdd(_) =>
      && b.RmPrepareCas? && Changed(r, r', b.rm, Working, Prepared)
      && s'.cells.count == s.cells.count + 1 && Told(told, Done)
    case RmVoteLook(_) =>
      && (b.RmPrepareCas? || b.RmChooseAbortCas?) && r'.cells == r.cells
      && Told(told, Failed(if b.rm in s.cells.rms && s.cells.rms[b.rm] != Working then InvalidState else RmNotFound))
    case TmCommitCount(_) =>
      && b.TmCommitLoad? && r.cells.tm == Preparing
      && if s.cells.count == s.total then !told.Rest? else Told(told, Failed(NotAllPrepared))
    case TmCommitCas(_, _) =>
      && b.TmCommitCount? && r.cells.count == r.total
      && Told(told, if s.cells.tm == Preparing && s'.cells.tm == Committed then Done else Failed(InvalidState))
    case TmAbortCas(_, spurious) =>
      && b.TmAbortLoad? && !Decided(r.cells.tm)
      && (s'.cells.tm != s.cells.tm <==> s.cells.tm == r.cells.tm && !spurious)
      && Told(told, if s'.cells.tm != s.cells.tm then Done else Failed(InvalidState))
    case RmRcvCommitCas(_, spurious) =>
      && b.RmRcvCommitLoad? && r.cells.tm == Committed
      && (Changed(s, s', b.rm, Prepared, RmCommitted) <==>
            b.rm in s.cells.rms && s.cells.rms[b.rm] == Prepared && !spurious)
      && Told(told, if Changed(s, s', b.rm, Prepared, RmCommitted) then Done else Failed(RmNotFound))
    case RmRcvAbortLook(_) =>
      && b.RmRcvAbortLoad? && r.cells.tm == Aborted
      && (if b.rm !in s.cells.rms then Told(told, Failed(RmNotFound))
          else if s.cells.rms[b.rm] == RmCommitted then Told(told, Failed(InvalidState))
          else if s.cells.rms[b.rm] == RmAborted then Told(told, Done)
          else !told.Rest?)
    case RmRcvAbortCas(_, _) => b.RmRcvAbortLook? && Told(told, Done)
    case _ => true
  }

  lemma FirstSteps(s: State, a: Action)
    requires Enabled(s, a) && First(a)
    ensures FirstTold(s, a, Next(s, a), StepPc(s, a))
  {
  }

  lemma LaterSteps(r: State, b: Action, s: State, a: Action)
    requires Enabled(r, b) && Enabled(s, a) && !First(a) && s.threads[a.t] == StepPc(r, b)
    ensures LaterTold(r, b, Next(r, b), s, a, Next(s, a), StepPc(s, a))
  {
  }

  /** In every run each step tells its caller the truth: `Done` exactly when the operation has changed the cell it
      is about (or, for a delivered abort, need not have), and a refusal for the cause that it names. Nobody
      else is told anything. */
  lemma AnswersTrue(ids: seq<RmId>, states: seq<State>, actions: seq<Action>, k: nat) returns (j: nat)
    requires Run(ids, states, actions) && k < |actions|
    ensures var s, a, s' := states[k], actions[k], states[k + 1];
            && a.t in s.threads && s'.threads.Keys == s.threads.Keys
            && (forall u :: u in s.threads && u != a.t ==> s'.threads[u] == s.threads[u])
            && (First(a) ==> FirstTold(s, a, s', s'.threads[a.t]))
            && (!First(a) ==>
                  && LastStep(actions, j, k, a.t)
                  && LaterTold(states[j], actions[j], states[j + 1], s, a, s', s'.threads[a.t]))
  {
    var s, a := states[k], actions[k];
    assert Enabled(s, a) && states[k + 1] == Next(s, a);
    j := 0;
    if First(a) {
      FirstSteps(s, a);
    } else {
      j := LastStepOf(ids, states, actions, k, a.t);
      assert states[j + 1] == Next(states[j], actions[j]);
      LaterSteps(states[j], actions[j], s, a);
    }
  }

  /** The counter counts the steps that follow a prepare. */
  lemma CountMoves(ids: seq<RmId>, states: seq<State>, actions: seq<Action>, k: nat)
    requires Run(ids, states, actions) && k < |actions|
    ensures states[k + 1].cells.count == states[k].cells.count + if actions[k].RmPrepareAdd? then 1 else 0
    ensures states[k + 1].total == states[k].total
  {
    assert Enabled(states[k], actions[k]);
  }

  /** A thread at rest may start any operation; any other can go on, and can start nothing else. */
  lemma OfferedExactly(s: State, t: ThreadId)
    requires t in s.threads
    ensures forall a: Action :: a.t == t && First(a) ==> (Enabled(s, a) <==> s.threads[t].Rest?)
    ensures (exists a: Action :: a.t == t && !First(a) && Enabled(s, a)) <==> !s.threads[t].Rest?
  {
    match s.threads[t]
    case Rest(_) =>
    case RmPrepareCounting => assert Enabled(s, RmPrepareAdd(t));
    case RmVoteFailed(_) => assert Enabled(s, RmVoteLook(t));
    case TmCommitSawPreparing => assert Enabled(s, TmCommitCount(t));
    case TmCommitSawAll => assert Enabled(s, TmCommitCas(t, false));
    case TmAbortSaw(_) => assert Enabled(s, TmAbortCas(t, false));
    case RmRcvCommitSaw(_) => assert Enabled(s, RmRcvCommitCas(t, false));
    case RmRcvAbortSaw(_) => assert Enabled(s, RmRcvAbortLook(t));
    case RmRcvAbortLoaded(_, _) => assert Enabled(s, RmRcvAbortCas(t, false));
  }
}
