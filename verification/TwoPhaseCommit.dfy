/** Two-phase commit under any interleaving of its atomic operations. */
module TwoPhaseCommit {
  /* One transaction of results/v1/two_phase_commit_best.rs: every load, compare-and-swap and
     `fetch_add` is a step of its own, a weak compare-and-swap may fail for no reason, and any number
     of threads start any operation at any time. */

  import opened Collections

  type RmId = nat
  type ThreadId = nat

  datatype RmState = Working | Prepared | RmCommitted | RmAborted

  datatype TmState = Init | Preparing | Committed | Aborted

  datatype Error = RmNotFound | InvalidState | AlreadyDecided | NotAllPrepared

  datatype Outcome = Pending | Done | Failed(error: Error)

  /** The atomic cells of a transaction. */
  datatype Cells = Cells(tm: TmState, rms: map<RmId, RmState>, count: nat)

  /** Where a thread is: at rest with the result of its last operation, or between two atomic
      operations of the method named. */
  datatype Pc =
    | Rest(last: Outcome)
    | RmPrepareCounting
    | RmVoteFailed(rm: RmId)
    | TmCommitSawPreparing
    | TmCommitSawAll
    | TmAbortSaw(seen: TmState)
    | RmRcvCommitSaw(rm: RmId)
    | RmRcvAbortSaw(rm: RmId)
    | RmRcvAbortLoaded(rm: RmId, state: RmState)

  datatype State = State(cells: Cells, total: nat, threads: map<ThreadId, Pc>)

  datatype Action =
    | TmPrepareCas(t: ThreadId, spurious: bool)
    | RmPrepareCas(t: ThreadId, rm: RmId, spurious: bool)
    | RmPrepareAdd(t: ThreadId)
    | RmChooseAbortCas(t: ThreadId, rm: RmId, spurious: bool)
    | RmVoteLook(t: ThreadId)
    | TmCommitLoad(t: ThreadId)
    | TmCommitCount(t: ThreadId)
    | TmCommitCas(t: ThreadId, spurious: bool)
    | TmAbortLoad(t: ThreadId)
    | TmAbortCas(t: ThreadId, spurious: bool)
    | RmRcvCommitLoad(t: ThreadId, rm: RmId)
    | RmRcvCommitCas(t: ThreadId, spurious: bool)
    | RmRcvAbortLoad(t: ThreadId, rm: RmId)
    | RmRcvAbortLook(t: ThreadId)
    | RmRcvAbortCas(t: ThreadId, spurious: bool)

  predicate Enabled(s: State, a: Action) {
    && a.t in s.threads
    && var pc := s.threads[a.t];
       match a
       case TmPrepareCas(_, _) => pc.Rest?
       case RmPrepareCas(_, _, _) => pc.Rest?
       case RmPrepareAdd(_) => pc.RmPrepareCounting?
       case RmChooseAbortCas(_, _, _) => pc.Rest?
       case RmVoteLook(_) => pc.RmVoteFailed?
       case TmCommitLoad(_) => pc.Rest?
       case TmCommitCount(_) => pc.TmCommitSawPreparing?
       case TmCommitCas(_, _) => pc.TmCommitSawAll?
       case TmAbortLoad(_) => pc.Rest?
       case TmAbortCas(_, _) => pc.TmAbortSaw?
       case RmRcvCommitLoad(_, _) => pc.Rest?
       case RmRcvCommitCas(_, _) => pc.RmRcvCommitSaw?
       case RmRcvAbortLoad(_, _) => pc.Rest?
       case RmRcvAbortLook(_) => pc.RmRcvAbortSaw?
       case RmRcvAbortCas(_, _) => pc.RmRcvAbortLoaded?
  }

  predicate TmSwaps(c: Cells, from: TmState, spurious: bool) {
    c.tm == from && !spurious
  }

  predicate RmSwaps(c: Cells, rm: RmId, from: RmState, spurious: bool) {
    rm in c.rms && c.rms[rm] == from && !spurious
  }

  function RmSet(c: Cells, rm: RmId, to: RmState): Cells {
    c.(rms := c.rms[rm := to])
  }

  /** The error of a vote whose compare-and-swap failed. */
  function VoteError(c: Cells, rm: RmId): Error {
    if rm in c.rms && c.rms[rm] != Working then InvalidState else RmNotFound
  }

  function Result(ok: bool, error: Error): Pc {
    Rest(if ok then Done else Failed(error))
  }

  function StepCells(s: State, a: Action): Cells
    requires Enabled(s, a)
  {
    var c, pc := s.cells, s.threads[a.t];
    match a
    case TmPrepareCas(_, sp) => if TmSwaps(c, Init, sp) then c.(tm := Preparing) else c
    case RmPrepareCas(_, rm, sp) => if RmSwaps(c, rm, Working, sp) then RmSet(c, rm, Prepared) else c
    case RmPrepareAdd(_) => c.(count := c.count + 1)
    case RmChooseAbortCas(_, rm, sp) => if RmSwaps(c, rm, Working, sp) then RmSet(c, rm, RmAborted) else c
    case TmCommitCas(_, sp) => if TmSwaps(c, Preparing, sp) then c.(tm := Committed) else c
    case TmAbortCas(_, sp) => if TmSwaps(c, pc.seen, sp) then c.(tm := Aborted) else c
    case RmRcvCommitCas(_, sp) => if RmSwaps(c, pc.rm, Prepared, sp) then RmSet(c, pc.rm, RmCommitted) else c
    case RmRcvAbortCas(_, sp) => if RmSwaps(c, pc.rm, pc.state, sp) then RmSet(c, pc.rm, RmAborted) else c
    case _ => c
  }

  function StepPc(s: State, a: Action): Pc
    requires Enabled(s, a)
  {
    var c, pc := s.cells, s.threads[a.t];
    match a
    case TmPrepareCas(_, sp) => Result(TmSwaps(c, Init, sp), InvalidState)
    case RmPrepareCas(_, rm, sp) => if RmSwaps(c, rm, Working, sp) then RmPrepareCounting else RmVoteFailed(rm)
    case RmPrepareAdd(_) => Rest(Done)
    case RmChooseAbortCas(_, rm, sp) => if RmSwaps(c, rm, Working, sp) then Rest(Done) else RmVoteFailed(rm)
    case RmVoteLook(_) => Rest(Failed(VoteError(c, pc.rm)))
    case TmCommitLoad(_) => if c.tm == Preparing then TmCommitSawPreparing else Rest(Failed(InvalidState))
    case TmCommitCount(_) => if c.count == s.total then TmCommitSawAll else Rest(Failed(NotAllPrepared))
    case TmCommitCas(_, sp) => Result(TmSwaps(c, Preparing, sp), InvalidState)
    case TmAbortLoad(_) =>
      if c.tm == Committed || c.tm == Aborted then Rest(Failed(AlreadyDecided)) else TmAbortSaw(c.tm)
    case TmAbortCas(_, sp) => Result(TmSwaps(c, pc.seen, sp), InvalidState)
    case RmRcvCommitLoad(_, rm) => if c.tm == Committed then RmRcvCommitSaw(rm) else Rest(Failed(InvalidState))
    case RmRcvCommitCas(_, sp) => Result(RmSwaps(c, pc.rm, Prepared, sp), RmNotFound)
    case RmRcvAbortLoad(_, rm) => if c.tm == Aborted then RmRcvAbortSaw(rm) else Rest(Failed(InvalidState))
    case RmRcvAbortLook(_) =>
      if pc.rm !in c.rms then Rest(Failed(RmNotFound))
      else if c.rms[pc.rm] == RmCommitted then Rest(Failed(InvalidState))
      else if c.rms[pc.rm] == RmAborted then Rest(Done)
      else RmRcvAbortLoaded(pc.rm, c.rms[pc.rm])
    case RmRcvAbortCas(_, _) => Rest(Done)
  }

  function Update(s: State, t: ThreadId, c: Cells, pc: Pc): State {
    State(c, s.total, s.threads[t := pc])
  }

  function Next(s: State, a: Action): State
    requires Enabled(s, a)
  {
    Update(s, a.t, StepCells(s, a), StepPc(s, a))
  }

  /** A new transaction over the resource managers `ids`; the same id may be listed twice. */
  ghost predicate Initial(s: State, ids: seq<RmId>) {
    && s.cells.tm == Init && s.cells.count == 0 && s.total == |ids|
    && s.cells.rms.Keys == Elements(ids)
    && (forall r :: r in s.cells.rms ==> s.cells.rms[r] == Working)
    && (forall t :: t in s.threads ==> s.threads[t].Rest?)
  }

  ghost predicate Run(ids: seq<RmId>, states: seq<State>, actions: seq<Action>) {
    && |states| == |actions| + 1
    && Initial(states[0], ids)
    && forall k :: 0 <= k < |actions| ==>
         Enabled(states[k], actions[k]) && states[k + 1] == Next(states[k], actions[k])
  }

  // ---------------------------------------------------------------- the invariant

  /** The resource managers that have prepared at some time. */
  function EverAfter(s: State, a: Action, ever: set<RmId>): set<RmId> {
    if a.RmPrepareCas? && RmSwaps(s.cells, a.rm, Working, a.spurious) then ever + {a.rm} else ever
  }

  ghost function Counting(threads: map<ThreadId, Pc>): set<ThreadId> {
    set t | t in threads && threads[t].RmPrepareCounting?
  }

  ghost predicate RmOk(tm: TmState, state: RmState, prepared: bool) {
    && (state == Prepared ==> prepared)
    && (state == RmCommitted ==> prepared && tm == Committed)
    && (state == RmAborted && prepared ==> tm == Aborted)
    && (state == Working ==> !prepared)
  }

  ghost predicate PcOk(c: Cells, total: nat, pc: Pc) {
    && (pc.TmCommitSawAll? ==> c.count == total)
    && (pc.TmAbortSaw? ==> pc.seen == Init || pc.seen == Preparing)
    && (pc.RmRcvCommitSaw? ==> c.tm == Committed)
    && (pc.RmRcvAbortSaw? || pc.RmRcvAbortLoaded? ==> c.tm == Aborted)
    && (pc.RmRcvAbortLoaded? ==> pc.state == Working || pc.state == Prepared)
  }

  ghost predicate Inv(s: State, ever: set<RmId>) {
    && ever <= s.cells.rms.Keys && |s.cells.rms.Keys| <= s.total
    && (forall r :: r in s.cells.rms ==> RmOk(s.cells.tm, s.cells.rms[r], r in ever))
    && s.cells.count + |Counting(s.threads)| == |ever|
    && (s.cells.tm == Committed ==> s.cells.count == s.total)
    && (forall t :: t in s.threads ==> PcOk(s.cells, s.total, s.threads[t]))
  }

  lemma {:induction false} ElementsBound<T>(s: seq<T>)
    ensures |Elements(s)| <= |s|
  {
    if s != [] {
      var k := |s| - 1;
      ElementsBound(s[..k]);
      assert Elements(s) == Elements(s[..k]) + {s[k]};
    }
  }

  lemma InitialInv(s: State, ids: seq<RmId>)
    requires Initial(s, ids)
    ensures Inv(s, {})
  {
    ElementsBound(ids);
    assert Counting(s.threads) == {};
  }

  /** When the counter has reached the number of ids, every resource manager has prepared and no
      thread is still on its way to the counter. */
  lemma FullCount(s: State, ever: set<RmId>)
    requires Inv(s, ever) && s.cells.count == s.total
    ensures ever == s.cells.rms.Keys && Counting(s.threads) == {}
  {
    SubsetCardinality(ever, s.cells.rms.Keys);
    if ever != s.cells.rms.Keys {
      var r :| r in s.cells.rms.Keys && r !in ever;
      SubsetCardinality(ever, s.cells.rms.Keys - {r});
      assert false;
    }
  }

  lemma CountingUpdate(threads: map<ThreadId, Pc>, t: ThreadId, pc: Pc)
    requires t in threads
    ensures |Counting(threads[t := pc])|
         == |Counting(threads)| + (if pc.RmPrepareCounting? then 1 else 0)
            - (if threads[t].RmPrepareCounting? then 1 else 0)
  {
    if pc.RmPrepareCounting? {
      assert Counting(threads[t := pc]) == Counting(threads) + {t};
    } else {
      assert Counting(threads[t := pc]) == Counting(threads) - {t};
    }
  }

  lemma KeepsCount(s: State, a: Action, ever: set<RmId>)
    requires Enabled(s, a) && Inv(s, ever)
    ensures StepCells(s, a).count + |Counting(s.threads[a.t := StepPc(s, a)])| == |EverAfter(s, a, ever)|
    ensures EverAfter(s, a, ever) <= s.cells.rms.Keys && StepCells(s, a).rms.Keys == s.cells.rms.Keys
  {
    CountingUpdate(s.threads, a.t, StepPc(s, a));
    if a.RmPrepareCas? && RmSwaps(s.cells, a.rm, Working, a.spurious) {
      assert RmOk(s.cells.tm, s.cells.rms[a.rm], a.rm in ever);
    }
  }

  /** What one step may do to the coordinator, the counter and one resource manager. */
  lemma StepMoves(s: State, a: Action, ever: set<RmId>)
    requires Enabled(s, a) && Inv(s, ever)
    ensures var c, c' := s.cells, StepCells(s, a);
            && (c.tm == Committed || c.tm == Aborted ==> c'.tm == c.tm)
            && (c'.tm == Committed ==> c'.count == c.count && c.count == s.total)
            && c'.count >= c.count
            && (c.count == s.total ==> c'.count == c.count)
  {
    assert PcOk(s.cells, s.total, s.threads[a.t]);
    if s.cells.count == s.total {
      FullCount(s, ever);
      assert a.t !in Counting(s.threads);
    }
  }

  lemma KeepsRm(s: State, a: Action, ever: set<RmId>, r: RmId)
    requires Enabled(s, a) && Inv(s, ever) && r in s.cells.rms
    ensures r in StepCells(s, a).rms
    ensures RmOk(StepCells(s, a).tm, StepCells(s, a).rms[r], r in EverAfter(s, a, ever))
  {
    assert PcOk(s.cells, s.total, s.threads[a.t]);
    assert RmOk(s.cells.tm, s.cells.rms[r], r in ever);
    StepMoves(s, a, ever);
    if StepCells(s, a).tm == Committed {
      FullCount(s, ever);
    }
  }

  lemma KeepsPc(s: State, a: Action, ever: set<RmId>, pc: Pc)
    requires Enabled(s, a) && Inv(s, ever) && PcOk(s.cells, s.total, pc)
    ensures PcOk(StepCells(s, a), s.total, pc)
  {
    StepMoves(s, a, ever);
  }

  lemma StepPcOk(s: State, a: Action, ever: set<RmId>)
    requires Enabled(s, a) && Inv(s, ever)
    ensures PcOk(StepCells(s, a), s.total, StepPc(s, a))
  {
  }

  lemma KeepsInv(s: State, a: Action, ever: set<RmId>)
    requires Enabled(s, a) && Inv(s, ever)
    ensures Inv(Next(s, a), EverAfter(s, a, ever))
  {
    KeepsCount(s, a, ever);
    StepMoves(s, a, ever);
    forall r | r in s.cells.rms
      ensures RmOk(StepCells(s, a).tm, StepCells(s, a).rms[r], r in EverAfter(s, a, ever))
    {
      KeepsRm(s, a, ever, r);
    }
    StepPcOk(s, a, ever);
    forall t | t in s.threads
      ensures PcOk(StepCells(s, a), s.total, s.threads[t])
    {
      KeepsPc(s, a, ever, s.threads[t]);
    }
  }

  // ---------------------------------------------------------------- over whole runs

  ghost function Ever(ids: seq<RmId>, states: seq<State>, actions: seq<Action>, k: nat): set<RmId>
    requires Run(ids, states, actions) && k <= |actions|
  {
    if k == 0 then {} else EverAfter(states[k - 1], actions[k - 1], Ever(ids, states, actions, k - 1))
  }

  lemma {:induction false} RunInv(ids: seq<RmId>, states: seq<State>, actions: seq<Action>, k: nat)
    requires Run(ids, states, actions) && k <= |actions|
    ensures Inv(states[k], Ever(ids, states, actions, k))
    ensures states[k].cells.rms.Keys == Elements(ids) && states[k].total == |ids|
  {
    if k == 0 {
      InitialInv(states[0], ids);
    } else {
      RunInv(ids, states, actions, k - 1);
      KeepsInv(states[k - 1], actions[k - 1], Ever(ids, states, actions, k - 1));
      KeepsCount(states[k - 1], actions[k - 1], Ever(ids, states, actions, k - 1));
    }
  }

  /** `prepared_count` lags behind the prepares by exactly the threads between the two operations. */
  lemma PreparedCountExact(ids: seq<RmId>, states: seq<State>, actions: seq<Action>, k: nat)
    requires Run(ids, states, actions) && k <= |actions|
    ensures states[k].cells.count == |Ever(ids, states, actions, k)| - |Counting(states[k].threads)|
  {
    RunInv(ids, states, actions, k);
  }

  /** Every decision in c, of the coordinator or of a resource manager, stands in c'. */
  ghost predicate Stands(c: Cells, c': Cells) {
    && (c.tm == Committed || c.tm == Aborted ==> c'.tm == c.tm)
    && (forall r :: r in c.rms && (c.rms[r] == RmCommitted || c.rms[r] == RmAborted) ==>
          r in c'.rms && c'.rms[r] == c.rms[r])
  }

  lemma StepStands(s: State, a: Action)
    requires Enabled(s, a) && PcOk(s.cells, s.total, s.threads[a.t])
    ensures Stands(s.cells, StepCells(s, a))
  {
  }

  /** Decisions are final, for the coordinator and for each resource manager. */
  lemma {:induction false} DecisionsLast(ids: seq<RmId>, states: seq<State>, actions: seq<Action>, j: nat, k: nat)
    requires Run(ids, states, actions) && j <= k <= |actions|
    ensures Stands(states[j].cells, states[k].cells)
    decreases k
  {
    if j < k {
      DecisionsLast(ids, states, actions, j, k - 1);
      RunInv(ids, states, actions, k - 1);
      StepStands(states[k - 1], actions[k - 1]);
    }
  }

  /** A committed transaction: every resource manager has prepared, none has aborted. */
  lemma CommitMeansPrepared(ids: seq<RmId>, states: seq<State>, actions: seq<Action>, k: nat, r: RmId)
    requires Run(ids, states, actions) && k <= |actions| && states[k].cells.tm == Committed
    requires r in ids
    ensures r in states[k].cells.rms && states[k].cells.rms[r] in {Prepared, RmCommitted}
  {
    RunInv(ids, states, actions, k);
    FullCount(states[k], Ever(ids, states, actions, k));
    assert r in Elements(ids);
    assert RmOk(Committed, states[k].cells.rms[r], r in Ever(ids, states, actions, k));
  }

  /** A resource manager commits only when the coordinator has, and one that prepared aborts only
      when the coordinator has. */
  lemma RmFollowsTm(ids: seq<RmId>, states: seq<State>, actions: seq<Action>, k: nat, r: RmId)
    requires Run(ids, states, actions) && k <= |actions| && r in states[k].cells.rms
    ensures states[k].cells.rms[r] == RmCommitted ==> states[k].cells.tm == Committed
    ensures states[k].cells.rms[r] == RmAborted && r in Ever(ids, states, actions, k) ==> states[k].cells.tm == Aborted
  {
    RunInv(ids, states, actions, k);
    assert RmOk(states[k].cells.tm, states[k].cells.rms[r], r in Ever(ids, states, actions, k));
  }

  /** Agreement: no resource manager commits at any point of a run in which one aborts at any point. */
  lemma Agreement(ids: seq<RmId>, states: seq<State>, actions: seq<Action>, j: nat, k: nat, a: RmId, b: RmId)
    requires Run(ids, states, actions) && j <= |actions| && k <= |actions|
    requires a in states[j].cells.rms && b in states[k].cells.rms
    requires states[j].cells.rms[a] == RmCommitted
    ensures states[k].cells.rms[b] != RmAborted
  {
    if states[k].cells.rms[b] == RmAborted {
      var m := if j < k then k else j;
      DecisionsLast(ids, states, actions, j, m);
      DecisionsLast(ids, states, actions, k, m);
      RmFollowsTm(ids, states, actions, m, a);
      RunInv(ids, states, actions, k);
      assert b in Elements(ids);
      CommitMeansPrepared(ids, states, actions, m, b);
      assert false;
    }
  }

  /** A transaction whose id list repeats an id is never committed: the counter cannot reach the
      number of ids. */
  lemma RepeatedIdNeverCommits(ids: seq<RmId>, states: seq<State>, actions: seq<Action>, k: nat)
    requires Run(ids, states, actions) && k <= |actions|
    requires states[k].cells.tm == Committed
    ensures NoDup(ids)
  {
    RunInv(ids, states, actions, k);
    FullCount(states[k], Ever(ids, states, actions, k));
    assert |Elements(ids)| == |ids|;
    AllDistinct(ids);
  }

  lemma {:induction false} AllDistinct<T>(s: seq<T>)
    requires |Elements(s)| == |s|
    ensures NoDup(s)
  {
    if s != [] {
      var k := |s| - 1;
      assert Elements(s) == Elements(s[..k]) + {s[k]};
      ElementsBound(s[..k]);
      if s[k] in s[..k] {
        assert false;
      }
      AllDistinct(s[..k]);
    }
  }
}
