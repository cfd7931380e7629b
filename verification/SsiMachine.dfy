/** The SSI state machine of crates/vf-stateright/src/ssi.rs. */
module SsiMachine {
  /* `Apply` maps a state and an action to the next state, as the source does. The two queries that scan
     the history with a loop are methods, proved against functions. */

  import opened Options

  type TxnId = nat
  type Key = nat

  datatype Status = NotStarted | Active | Committed | Aborted

  datatype Reason = Voluntary | ReadConflict | WriteConflict | DangerousStructure

  datatype Operation =
    | Begin(txn: TxnId)
    | Read(txn: TxnId, key: Key, version: Option<TxnId>)
    | Write(txn: TxnId, key: Key)
    | Commit(txn: TxnId)
    | Abort(txn: TxnId, reason: Reason)

  datatype State = State(
    history: seq<Operation>,
    status: map<TxnId, Status>,
    snapshot: map<TxnId, nat>,
    writeLocks: map<Key, Option<TxnId>>,
    sireads: map<Key, set<TxnId>>,
    inConflict: map<TxnId, bool>,
    outConflict: map<TxnId, bool>)

  datatype Action =
    | DoBegin(txn: TxnId)
    | DoRead(txn: TxnId, key: Key)
    | DoWrite(txn: TxnId, key: Key)
    | DoCommit(txn: TxnId)
    | DoAbort(txn: TxnId)

  function NewState(txns: set<TxnId>, keys: set<Key>): State {
    State([],
          map t | t in txns :: NotStarted,
          map t | t in txns :: 0,
          map k | k in keys :: None,
          map k | k in keys :: {},
          map t | t in txns :: false,
          map t | t in txns :: false)
  }

  // ---------------------------------------------------------------- queries

  predicate Has(s: State, t: TxnId, status: Status) {
    t in s.status && s.status[t] == status
  }

  predicate Flag(flags: map<TxnId, bool>, t: TxnId) {
    t in flags && flags[t]
  }

  function SnapshotOf(s: State, t: TxnId): nat {
    if t in s.snapshot then s.snapshot[t] else 0
  }

  function Holder(s: State, k: Key): Option<TxnId> {
    if k in s.writeLocks then s.writeLocks[k] else None
  }

  function ReadersOf(s: State, k: Key): set<TxnId> {
    if k in s.sireads then s.sireads[k] else {}
  }

  predicate Dangerous(s: State, t: TxnId) {
    Flag(s.inConflict, t) && Flag(s.outConflict, t)
  }

  predicate CommittedWrite(s: State, i: nat, k: Key) {
    i < |s.history| && s.history[i].Write? && s.history[i].key == k && Has(s, s.history[i].txn, Committed)
  }

  /** The writer of the last committed write to k among the first n operations. */
  function LastCommittedWriter(s: State, k: Key, n: nat): Option<TxnId>
    requires n <= |s.history|
  {
    if n == 0 then None
    else if CommittedWrite(s, n - 1, k) then Some(s.history[n - 1].txn)
    else LastCommittedWriter(s, k, n - 1)
  }

  function LatestVersion(s: State, k: Key, time: nat): Option<TxnId> {
    LastCommittedWriter(s, k, if time < |s.history| then time + 1 else |s.history|)
  }

  predicate NewerWrite(s: State, i: nat, k: Key, after: nat, exclude: TxnId) {
    && i < |s.history|
    && s.history[i].Write?
    && s.history[i].key == k
    && s.history[i].txn != exclude
    && i > after
    && (Has(s, s.history[i].txn, Active) || Has(s, s.history[i].txn, Committed))
  }

  function NewerWriters(s: State, k: Key, after: nat, exclude: TxnId): set<TxnId> {
    set i: nat | i < |s.history| && NewerWrite(s, i, k, after, exclude) :: s.history[i].txn
  }

  predicate CommittedAfter(s: State, t: TxnId, time: nat) {
    exists i :: time < i < |s.history| && s.history[i] == Commit(t)
  }

  function ConcurrentReaders(s: State, t: TxnId, k: Key): set<TxnId> {
    set r | r in ReadersOf(s, k) && r != t
            && (Has(s, r, Active) || (Has(s, r, Committed) && CommittedAfter(s, r, SnapshotOf(s, t))))
  }

  // ---------------------------------------------------------------- apply

  function Raise(flags: map<TxnId, bool>, txns: set<TxnId>): map<TxnId, bool> {
    flags + map t | t in txns :: true
  }

  function Release(locks: map<Key, Option<TxnId>>, t: TxnId): map<Key, Option<TxnId>> {
    map k | k in locks :: if locks[k] == Some(t) then None else locks[k]
  }

  function Forget(sireads: map<Key, set<TxnId>>, t: TxnId): map<Key, set<TxnId>> {
    map k | k in sireads :: sireads[k] - {t}
  }

  /** The part of every abort that all the abort branches share; the write locks are theirs to keep
      or release. */
  function Abandon(s: State, t: TxnId, reason: Reason, locks: map<Key, Option<TxnId>>): State {
    s.(history := s.history + [Abort(t, reason)],
       status := s.status[t := Aborted],
       writeLocks := locks,
       sireads := Forget(s.sireads, t),
       inConflict := s.inConflict[t := false],
       outConflict := s.outConflict[t := false])
  }

  function ApplyBegin(s: State, t: TxnId): State {
    s.(history := s.history + [Begin(t)], status := s.status[t := Active], snapshot := s.snapshot[t := |s.history|])
  }

  function ApplyRead(s: State, t: TxnId, k: Key): State {
    var time := SnapshotOf(s, t);
    var version := if Holder(s, k) == Some(t) then Some(t) else LatestVersion(s, k, time);
    var writers := NewerWriters(s, k, time, t);
    if exists w :: w in writers && Has(s, w, Committed) && Flag(s.outConflict, w) then
      Abandon(s, t, ReadConflict, s.writeLocks)
    else
      s.(history := s.history + [Read(t, k, version)],
         sireads := s.sireads[k := ReadersOf(s, k) + {t}],
         inConflict := Raise(s.inConflict, writers),
         outConflict := if writers == {} then s.outConflict else s.outConflict[t := true])
  }

  function ApplyWrite(s: State, t: TxnId, k: Key): State {
    var readers := ConcurrentReaders(s, t, k);
    if exists r :: r in readers && Has(s, r, Committed) && Flag(s.inConflict, r) then
      Abandon(s, t, WriteConflict, if Holder(s, k) == Some(t) then s.writeLocks[k := None] else s.writeLocks)
    else
      s.(history := s.history + [Write(t, k)],
         writeLocks := s.writeLocks[k := Some(t)],
         outConflict := Raise(s.outConflict, readers),
         inConflict := if readers == {} then s.inConflict else s.inConflict[t := true])
  }

  function ApplyCommit(s: State, t: TxnId): State {
    if Dangerous(s, t) then Abandon(s, t, DangerousStructure, Release(s.writeLocks, t))
    else
      s.(history := s.history + [Commit(t)],
         status := s.status[t := Committed],
         writeLocks := Release(s.writeLocks, t))
  }

  function Apply(s: State, a: Action): Option<State> {
    match a
    case DoBegin(t) => if Has(s, t, NotStarted) then Some(ApplyBegin(s, t)) else None
    case DoRead(t, k) => if Has(s, t, Active) then Some(ApplyRead(s, t, k)) else None
    case DoWrite(t, k) =>
      if !Has(s, t, Active) then None
      else if Holder(s, k).Some? && Holder(s, k) != Some(t) then None
      else Some(ApplyWrite(s, t, k))
    case DoCommit(t) => if Has(s, t, Active) then Some(ApplyCommit(s, t)) else None
    case DoAbort(t) =>
      if Has(s, t, Active) then Some(Abandon(s, t, Voluntary, Release(s.writeLocks, t))) else None
  }

  // ---------------------------------------------------------------- the checks the source runs

  ghost predicate NoCommittedDangerousStructures(s: State) {
    forall t :: Has(s, t, Committed) ==> !Dangerous(s, t)
  }

  /** Two committed writes to one key whose transactions overlapped, as the source's check sees it. */
  ghost predicate Overlap(s: State, k: Key, i: nat, j: nat) {
    && i < j && CommittedWrite(s, i, k) && CommittedWrite(s, j, k)
    && SnapshotOf(s, s.history[i].txn) < j
    && SnapshotOf(s, s.history[j].txn) < i
  }

  ghost predicate FirstCommitterWins(s: State) {
    forall k, i: nat, j: nat :: k in s.writeLocks ==> !Overlap(s, k, i, j)
  }

  /** The loop of `latest_version`: it stops at the first position past the snapshot. */
  method FindLatestVersion(s: State, k: Key, time: nat) returns (writer: Option<TxnId>)
    ensures writer == LatestVersion(s, k, time)
    ensures match writer
            case Some(t) =>
              (exists i: nat :: i <= time && CommittedWrite(s, i, k) && s.history[i].txn == t
                 && forall j: nat :: i < j <= time ==> !CommittedWrite(s, j, k))
            case None => forall i: nat :: i <= time ==> !CommittedWrite(s, i, k)
  {
    writer := None;
    ghost var at: nat := 0;
    var i := 0;
    while i < |s.history|
      invariant 0 <= i <= |s.history| && i <= time + 1
      invariant writer == LastCommittedWriter(s, k, i)
      invariant match writer
                case Some(t) => at < i && CommittedWrite(s, at, k) && s.history[at].txn == t
                                && forall j: nat :: at < j < i ==> !CommittedWrite(s, j, k)
                case None => forall j: nat :: j < i ==> !CommittedWrite(s, j, k)
    {
      if i > time {
        break;
      }
      if CommittedWrite(s, i, k) {
        writer := Some(s.history[i].txn);
        at := i;
      }
      i := i + 1;
    }
  }

  /** The pairwise loop of `first_committer_wins` over the committed writes to one key. */
  method CheckFirstCommitterWins(s: State, k: Key) returns (ok: bool)
    ensures ok <==> forall i: nat, j: nat :: !Overlap(s, k, i, j)
  {
    for i := 0 to |s.history|
      invariant forall a: nat, b: nat :: a < i ==> !Overlap(s, k, a, b)
    {
      if CommittedWrite(s, i, k) {
        for j := i + 1 to |s.history|
          invariant forall b: nat :: b < j ==> !Overlap(s, k, i, b)
        {
          if CommittedWrite(s, j, k)
             && SnapshotOf(s, s.history[i].txn) < j && SnapshotOf(s, s.history[j].txn) < i {
            assert Overlap(s, k, i, j);
            return false;
          }
        }
      }
    }
    ok := true;
  }
}
