/** What every run of the state machine of `SsiMachine` keeps. */
module SsiMachineProofs {
  /* Conflict detection is complete, no committed transaction is a pivot, and writes to a key are
     serialized by its lock. */

  import opened Options
  import opened SsiMachine

  // ---------------------------------------------------------------- runs

  ghost predicate Run(states: seq<State>, actions: seq<Action>) {
    && |states| == |actions| + 1
    && (exists txns, keys :: states[0] == NewState(txns, keys))
    && forall i :: 0 <= i < |actions| ==> Apply(states[i], actions[i]) == Some(states[i + 1])
  }

  // ---------------------------------------------------------------- detected edges

  /** r read k at i, w wrote k at j, and at that moment r was active or had committed only after w
      began. */
  ghost predicate ReadThenWrite(s: State, r: TxnId, w: TxnId, k: Key, i: nat, j: nat) {
    && i < j < |s.history|
    && s.history[i].Read? && s.history[i].txn == r && s.history[i].key == k
    && s.history[j] == Write(w, k)
    && forall c :: 0 <= c < j && s.history[c] == Commit(r) ==> c > SnapshotOf(s, w)
  }

  /** w wrote k at j, after r's snapshot, and r read k later, at i. */
  ghost predicate WriteThenRead(s: State, r: TxnId, w: TxnId, k: Key, j: nat, i: nat) {
    && SnapshotOf(s, r) < j < i < |s.history|
    && s.history[j] == Write(w, k)
    && s.history[i].Read? && s.history[i].txn == r && s.history[i].key == k
  }

  /** A detected rw-edge from reader r to writer w, neither of them aborted. */
  ghost predicate Edge(s: State, r: TxnId, w: TxnId) {
    && r != w
    && !Has(s, r, Aborted) && !Has(s, w, Aborted)
    && exists k, i: nat, j: nat :: ReadThenWrite(s, r, w, k, i, j) || WriteThenRead(s, r, w, k, j, i)
  }

  // ---------------------------------------------------------------- the invariant

  predicate Ends(op: Operation, t: TxnId) {
    op == Commit(t) || (op.Abort? && op.txn == t)
  }

  /** Whoever appears in the history has started. */
  ghost predicate Started(s: State) {
    forall i :: 0 <= i < |s.history| ==>
      s.history[i].txn in s.status && s.status[s.history[i].txn] != NotStarted
  }

  ghost predicate CommitRecorded(s: State, t: TxnId) {
    exists i :: 0 <= i < |s.history| && s.history[i] == Commit(t)
  }

  ghost predicate EndRecorded(s: State, t: TxnId) {
    exists i :: 0 <= i < |s.history| && Ends(s.history[i], t)
  }

  /** Whoever has ended says so in the history. */
  ghost predicate EndsRecorded(s: State) {
    && (forall t :: Has(s, t, Committed) ==> CommitRecorded(s, t))
    && (forall t :: Has(s, t, Aborted) ==> EndRecorded(s, t))
  }

  /** An end in the history is the last of its transaction, and its status shows it. */
  ghost predicate EndsLast(s: State) {
    && (forall i, j :: 0 <= i < j < |s.history| ==> !Ends(s.history[i], s.history[j].txn))
    && (forall i, t :: 0 <= i < |s.history| && Ends(s.history[i], t) ==> !Has(s, t, Active))
    && (forall i, t :: 0 <= i < |s.history| && s.history[i] == Commit(t) ==> Has(s, t, Committed))
  }

  ghost predicate StatusTrue(s: State) {
    Started(s) && EndsRecorded(s) && EndsLast(s)
  }

  ghost predicate ReadsRemembered(s: State) {
    forall i :: 0 <= i < |s.history| && s.history[i].Read? && !Has(s, s.history[i].txn, Aborted) ==>
      s.history[i].txn in ReadersOf(s, s.history[i].key)
  }

  ghost predicate EdgesFlagged(s: State) {
    forall r, w :: Edge(s, r, w) ==> Flag(s.outConflict, r) && Flag(s.inConflict, w)
  }

  ghost predicate LocksHeld(s: State) {
    forall i :: 0 <= i < |s.history| && s.history[i].Write? && Has(s, s.history[i].txn, Active) ==>
      Holder(s, s.history[i].key) == Some(s.history[i].txn)
  }

  ghost predicate EndedBetween(s: State, t: TxnId, i: nat, j: nat) {
    exists m :: i < m < j <= |s.history| && Ends(s.history[m], t)
  }

  /** Writes to one key by different transactions. */
  ghost predicate ConflictingWrites(s: State, i: nat, j: nat) {
    && i < j < |s.history| && s.history[i].Write? && s.history[j].Write?
    && s.history[i].key == s.history[j].key && s.history[i].txn != s.history[j].txn
  }

  ghost predicate WritesApart(s: State) {
    forall i: nat, j: nat :: ConflictingWrites(s, i, j) ==> EndedBetween(s, s.history[i].txn, i, j)
  }

  ghost predicate Inv(s: State) {
    && StatusTrue(s)
    && ReadsRemembered(s)
    && EdgesFlagged(s)
    && NoCommittedDangerousStructures(s)
    && LocksHeld(s)
    && WritesApart(s)
  }

  // ---------------------------------------------------------------- one step at a time

  /** Every step appends one operation of the acting transaction, which was active or not started,
      and changes nobody else's status or snapshot. */
  ghost predicate Appends(s: State, a: Action, s': State) {
    && |s'.history| == |s.history| + 1
    && s'.history[..|s.history|] == s.history
    && s'.history[|s.history|].txn == a.txn
    && (if a.DoBegin? then Has(s, a.txn, NotStarted) else Has(s, a.txn, Active))
    && (forall t :: t != a.txn ==>
          (t in s'.status <==> t in s.status) && (t in s.status ==> s'.status[t] == s.status[t])
          && SnapshotOf(s', t) == SnapshotOf(s, t))
    && (!a.DoBegin? ==> SnapshotOf(s', a.txn) == SnapshotOf(s, a.txn))
    && a.txn in s'.status
    && s'.status[a.txn] == (match s'.history[|s.history|]
                            case Commit(_) => Committed
                            case Abort(_, _) => Aborted
                            case _ => Active)
  }

  lemma AbandonAppends(s: State, a: Action, reason: Reason, locks: map<Key, Option<TxnId>>)
    requires Has(s, a.txn, Active) && !a.DoBegin?
    ensures Appends(s, a, Abandon(s, a.txn, reason, locks))
  {
  }

  lemma ReadAppends(s: State, t: TxnId, k: Key)
    requires Has(s, t, Active)
    ensures Appends(s, DoRead(t, k), ApplyRead(s, t, k))
  {
    AbandonAppends(s, DoRead(t, k), ReadConflict, s.writeLocks);
  }

  lemma WriteAppends(s: State, t: TxnId, k: Key)
    requires Has(s, t, Active)
    ensures Appends(s, DoWrite(t, k), ApplyWrite(s, t, k))
  {
    AbandonAppends(s, DoWrite(t, k), WriteConflict,
                   if Holder(s, k) == Some(t) then s.writeLocks[k := None] else s.writeLocks);
  }

  lemma StepAppends(s: State, a: Action)
    requires Apply(s, a).Some?
    ensures Appends(s, a, Apply(s, a).value)
  {
    match a
    case DoBegin(t) =>
    case DoRead(t, k) => ReadAppends(s, t, k);
    case DoWrite(t, k) => WriteAppends(s, t, k);
    case DoCommit(t) => AbandonAppends(s, a, DangerousStructure, Release(s.writeLocks, t));
    case DoAbort(t) => AbandonAppends(s, a, Voluntary, Release(s.writeLocks, t));
  }

  lemma KeepsStarted(s: State, a: Action, s': State)
    requires Started(s) && Appends(s, a, s')
    ensures Started(s')
  {
    forall i | 0 <= i < |s'.history|
      ensures s'.history[i].txn in s'.status && s'.status[s'.history[i].txn] != NotStarted
    {
      if i < |s.history| {
        assert s'.history[i] == s.history[i];
      }
    }
  }

  lemma KeepsEndsRecorded(s: State, a: Action, s': State)
    requires EndsRecorded(s) && Appends(s, a, s')
    ensures EndsRecorded(s')
  {
    var n := |s.history|;
    assert forall i :: 0 <= i < n ==> s'.history[i] == s.history[i];
    forall t | Has(s', t, Committed)
      ensures CommitRecorded(s', t)
    {
      if t == a.txn {
        assert s'.history[n] == Commit(t);
      } else {
        assert CommitRecorded(s, t);
        var i :| 0 <= i < n && s.history[i] == Commit(t);
        assert s'.history[i] == Commit(t);
      }
    }
    forall t | Has(s', t, Aborted)
      ensures EndRecorded(s', t)
    {
      if t == a.txn {
        assert Ends(s'.history[n], t);
      } else {
        assert EndRecorded(s, t);
        var i :| 0 <= i < n && Ends(s.history[i], t);
        assert Ends(s'.history[i], t);
      }
    }
  }

  lemma KeepsEndsLast(s: State, a: Action, s': State)
    requires Started(s) && EndsLast(s) && Appends(s, a, s')
    ensures EndsLast(s')
  {
    var n := |s.history|;
    assert forall i :: 0 <= i < n ==> s'.history[i] == s.history[i];
    forall i, t | 0 <= i < |s'.history| && Ends(s'.history[i], t)
      ensures !Has(s', t, Active)
      ensures s'.history[i] == Commit(t) ==> Has(s', t, Committed)
      ensures i < n ==> t != a.txn
    {
      if i < n {
        assert Ends(s.history[i], t) && s.history[i].txn == t && !Has(s, t, Active);
      }
    }
  }

  lemma KeepsStatus(s: State, a: Action, s': State)
    requires StatusTrue(s) && Appends(s, a, s')
    ensures StatusTrue(s')
  {
    KeepsStarted(s, a, s');
    KeepsEndsRecorded(s, a, s');
    KeepsEndsLast(s, a, s');
  }

  /** Only a transaction that aborts is forgotten as a reader; one that reads is remembered. */
  ghost predicate ReadersEffect(s: State, a: Action, s': State) {
    && (forall k, t :: t in ReadersOf(s, k) && !Has(s', t, Aborted) ==> t in ReadersOf(s', k))
    && (s'.history != [] && s'.history[|s'.history| - 1].Read? ==>
          a.txn in ReadersOf(s', s'.history[|s'.history| - 1].key))
  }

  lemma StepReaders(s: State, a: Action)
    requires Apply(s, a).Some?
    ensures ReadersEffect(s, a, Apply(s, a).value)
  {
  }

  lemma KeepsReads(s: State, a: Action, s': State)
    requires ReadsRemembered(s) && StatusTrue(s) && Appends(s, a, s') && ReadersEffect(s, a, s')
    ensures ReadsRemembered(s')
  {
    forall i | 0 <= i < |s'.history| && s'.history[i].Read? && !Has(s', s'.history[i].txn, Aborted)
      ensures s'.history[i].txn in ReadersOf(s', s'.history[i].key)
    {
      if i < |s.history| {
        assert s'.history[i] == s.history[i];
      }
    }
  }

  /** A transaction that stays active keeps its locks, and one that writes gets one that no other had. */
  ghost predicate LocksEffect(s: State, a: Action, s': State) {
    && (forall k, t :: Holder(s, k) == Some(t) && Has(s', t, Active) ==> Holder(s', k) == Some(t))
    && (s'.history != [] && s'.history[|s'.history| - 1].Write? ==>
          var k := s'.history[|s'.history| - 1].key;
          Holder(s', k) == Some(a.txn) && (Holder(s, k).None? || Holder(s, k) == Some(a.txn)))
  }

  lemma StepLocks(s: State, a: Action)
    requires Apply(s, a).Some?
    ensures LocksEffect(s, a, Apply(s, a).value)
  {
  }

  lemma KeepsLocks(s: State, a: Action, s': State)
    requires LocksHeld(s) && Started(s) && Appends(s, a, s') && LocksEffect(s, a, s')
    ensures LocksHeld(s')
  {
    forall i | 0 <= i < |s'.history| && s'.history[i].Write? && Has(s', s'.history[i].txn, Active)
      ensures Holder(s', s'.history[i].key) == Some(s'.history[i].txn)
    {
      if i < |s.history| {
        assert s'.history[i] == s.history[i];
      }
    }
  }

  /** A writer whose lock another transaction could take has ended after its write. */
  lemma EarlierWriterEnded(s: State, i: nat, t: TxnId)
    requires LocksHeld(s) && StatusTrue(s)
    requires i < |s.history| && s.history[i].Write? && s.history[i].txn == t && Holder(s, s.history[i].key) != Some(t)
    ensures EndedBetween(s, t, i, |s.history|)
  {
    assert !Has(s, t, Active);
    assert Has(s, t, Committed) || Has(s, t, Aborted);
    if Has(s, t, Committed) {
      assert CommitRecorded(s, t);
    }
    assert EndRecorded(s, t);
    var m :| 0 <= m < |s.history| && Ends(s.history[m], t);
    assert m >= i;
  }

  lemma EndedLater(s: State, s': State, t: TxnId, i: nat, j: nat)
    requires EndedBetween(s, t, i, j) && s.history <= s'.history
    ensures EndedBetween(s', t, i, j)
  {
    var m :| i < m < j && Ends(s.history[m], t);
    assert Ends(s'.history[m], t);
  }

  lemma KeepsWritesApart(s: State, a: Action, s': State)
    requires WritesApart(s) && LocksHeld(s) && StatusTrue(s) && Appends(s, a, s') && LocksEffect(s, a, s')
    ensures WritesApart(s')
  {
    var n := |s.history|;
    forall i: nat, j: nat | ConflictingWrites(s', i, j)
      ensures EndedBetween(s', s'.history[i].txn, i, j)
    {
      assert s'.history[i] == s.history[i];
      if j < n {
        assert s'.history[j] == s.history[j];
        assert ConflictingWrites(s, i, j);
      } else {
        EarlierWriterEnded(s, i, s.history[i].txn);
      }
      EndedLater(s, s', s.history[i].txn, i, j);
    }
  }

  // ---------------------------------------------------------------- flags

  /** Flags of transactions that do not abort are never lowered. */
  ghost predicate FlagsGrow(s: State, s': State) {
    forall t :: !Has(s', t, Aborted) ==>
      && (Flag(s.inConflict, t) ==> Flag(s'.inConflict, t))
      && (Flag(s.outConflict, t) ==> Flag(s'.outConflict, t))
  }

  lemma AbandonFlagsGrow(s: State, t: TxnId, reason: Reason, locks: map<Key, Option<TxnId>>)
    ensures FlagsGrow(s, Abandon(s, t, reason, locks))
  {
  }

  lemma ReadFlagsGrow(s: State, t: TxnId, k: Key)
    ensures FlagsGrow(s, ApplyRead(s, t, k))
  {
    AbandonFlagsGrow(s, t, ReadConflict, s.writeLocks);
  }

  lemma WriteFlagsGrow(s: State, t: TxnId, k: Key)
    ensures FlagsGrow(s, ApplyWrite(s, t, k))
  {
    AbandonFlagsGrow(s, t, WriteConflict, if Holder(s, k) == Some(t) then s.writeLocks[k := None] else s.writeLocks);
  }

  lemma StepFlagsGrow(s: State, a: Action)
    requires Apply(s, a).Some?
    ensures FlagsGrow(s, Apply(s, a).value)
  {
    match a
    case DoBegin(_) =>
    case DoRead(t, k) => ReadFlagsGrow(s, t, k);
    case DoWrite(t, k) => WriteFlagsGrow(s, t, k);
    case DoCommit(t) => AbandonFlagsGrow(s, t, DangerousStructure, Release(s.writeLocks, t));
    case DoAbort(t) => AbandonFlagsGrow(s, t, Voluntary, Release(s.writeLocks, t));
  }

  /** An edge of the new state is an edge of the old one, or its later end has just been appended. */
  lemma EdgeIsOldOrNew(s: State, a: Action, s': State, r: TxnId, w: TxnId, k: Key, i: nat, j: nat)
    requires StatusTrue(s) && Appends(s, a, s')
    requires !Has(s', r, Aborted) && !Has(s', w, Aborted)
    ensures ReadThenWrite(s', r, w, k, i, j) && j < |s.history| ==> ReadThenWrite(s, r, w, k, i, j)
    ensures WriteThenRead(s', r, w, k, j, i) && i < |s.history| ==> WriteThenRead(s, r, w, k, j, i)
    ensures !Has(s, r, Aborted) && !Has(s, w, Aborted)
  {
    assert forall c :: 0 <= c < |s.history| ==> s'.history[c] == s.history[c];
  }

  lemma NewWriteFlagged(s: State, t: TxnId, k: Key, r: TxnId, i: nat)
    requires StatusTrue(s) && ReadsRemembered(s) && Apply(s, DoWrite(t, k)).Some?
    requires var s' := ApplyWrite(s, t, k); ReadThenWrite(s', r, t, k, i, |s.history|) && r != t && !Has(s', r, Aborted)
    ensures var s' := ApplyWrite(s, t, k); Flag(s'.outConflict, r) && Flag(s'.inConflict, t)
  {
    var s' := ApplyWrite(s, t, k);
    assert s'.history[|s.history|] == Write(t, k);
    assert s'.history[i] == s.history[i];
    assert r in ReadersOf(s, k);
    if !Has(s, r, Active) {
      assert Has(s, r, Committed);
      var c :| 0 <= c < |s.history| && s.history[c] == Commit(r);
      assert s'.history[c] == Commit(r);
      assert CommittedAfter(s, r, SnapshotOf(s, t));
    }
    assert r in ConcurrentReaders(s, t, k);
  }

  lemma NewReadFlagged(s: State, t: TxnId, k: Key, w: TxnId, j: nat)
    requires StatusTrue(s) && Apply(s, DoRead(t, k)).Some?
    requires var s' := ApplyRead(s, t, k); WriteThenRead(s', t, w, k, j, |s.history|) && w != t && !Has(s', w, Aborted)
    ensures var s' := ApplyRead(s, t, k); Flag(s'.outConflict, t) && Flag(s'.inConflict, w)
  {
    var s' := ApplyRead(s, t, k);
    assert s'.history[j] == s.history[j];
    assert NewerWrite(s, j, k, SnapshotOf(s, t), t);
    assert w in NewerWriters(s, k, SnapshotOf(s, t), t);
  }

  lemma EdgeFlagged(s: State, a: Action, r: TxnId, w: TxnId, k: Key, i: nat, j: nat)
    requires StatusTrue(s) && ReadsRemembered(s) && EdgesFlagged(s) && Apply(s, a).Some?
    requires Appends(s, a, Apply(s, a).value) && FlagsGrow(s, Apply(s, a).value)
    requires var s' := Apply(s, a).value;
             r != w && !Has(s', r, Aborted) && !Has(s', w, Aborted)
             && (ReadThenWrite(s', r, w, k, i, j) || WriteThenRead(s', r, w, k, j, i))
    ensures var s' := Apply(s, a).value;
            Flag(s'.outConflict, r) && Flag(s'.inConflict, w)
  {
    var s' := Apply(s, a).value;
    EdgeIsOldOrNew(s, a, s', r, w, k, i, j);
    if (if ReadThenWrite(s', r, w, k, i, j) then j else i) < |s.history| {
      assert Edge(s, r, w);
    } else if ReadThenWrite(s', r, w, k, i, j) {
      assert a == DoWrite(w, k);
      NewWriteFlagged(s, w, k, r, i);
    } else {
      assert a == DoRead(r, k);
      NewReadFlagged(s, r, k, w, j);
    }
  }

  lemma KeepsEdges(s: State, a: Action)
    requires StatusTrue(s) && ReadsRemembered(s) && EdgesFlagged(s) && Apply(s, a).Some?
    ensures EdgesFlagged(Apply(s, a).value)
  {
    var s' := Apply(s, a).value;
    StepAppends(s, a);
    StepFlagsGrow(s, a);
    forall r, w | Edge(s', r, w)
      ensures Flag(s'.outConflict, r) && Flag(s'.inConflict, w)
    {
      var k, i: nat, j: nat :| ReadThenWrite(s', r, w, k, i, j) || WriteThenRead(s', r, w, k, j, i);
      EdgeFlagged(s, a, r, w, k, i, j);
    }
  }

  lemma AbandonNoDanger(s: State, t: TxnId, reason: Reason, locks: map<Key, Option<TxnId>>)
    requires NoCommittedDangerousStructures(s)
    ensures NoCommittedDangerousStructures(Abandon(s, t, reason, locks))
  {
    forall u | Has(Abandon(s, t, reason, locks), u, Committed)
      ensures !Dangerous(Abandon(s, t, reason, locks), u)
    {
      assert Has(s, u, Committed);
    }
  }

  lemma ReadNoDanger(s: State, t: TxnId, k: Key)
    requires NoCommittedDangerousStructures(s) && Has(s, t, Active)
    ensures NoCommittedDangerousStructures(ApplyRead(s, t, k))
  {
    AbandonNoDanger(s, t, ReadConflict, s.writeLocks);
    forall u | Has(ApplyRead(s, t, k), u, Committed)
      ensures !Dangerous(ApplyRead(s, t, k), u)
    {
      assert Has(s, u, Committed) && u != t;
    }
  }

  lemma WriteNoDanger(s: State, t: TxnId, k: Key)
    requires NoCommittedDangerousStructures(s) && Has(s, t, Active)
    ensures NoCommittedDangerousStructures(ApplyWrite(s, t, k))
  {
    AbandonNoDanger(s, t, WriteConflict, if Holder(s, k) == Some(t) then s.writeLocks[k := None] else s.writeLocks);
    forall u | Has(ApplyWrite(s, t, k), u, Committed)
      ensures !Dangerous(ApplyWrite(s, t, k), u)
    {
      assert Has(s, u, Committed) && u != t;
    }
  }

  lemma CommitNoDanger(s: State, t: TxnId)
    requires NoCommittedDangerousStructures(s) && Has(s, t, Active)
    ensures NoCommittedDangerousStructures(ApplyCommit(s, t))
  {
    AbandonNoDanger(s, t, DangerousStructure, Release(s.writeLocks, t));
    forall u | Has(ApplyCommit(s, t), u, Committed)
      ensures !Dangerous(ApplyCommit(s, t), u)
    {
      assert u != t ==> Has(s, u, Committed);
    }
  }

  lemma BeginNoDanger(s: State, t: TxnId)
    requires NoCommittedDangerousStructures(s)
    ensures NoCommittedDangerousStructures(ApplyBegin(s, t))
  {
    forall u | Has(ApplyBegin(s, t), u, Committed)
      ensures !Dangerous(ApplyBegin(s, t), u)
    {
      assert Has(s, u, Committed);
    }
  }

  lemma KeepsNoDanger(s: State, a: Action)
    requires NoCommittedDangerousStructures(s) && Apply(s, a).Some?
    ensures NoCommittedDangerousStructures(Apply(s, a).value)
  {
    match a
    case DoBegin(t) => BeginNoDanger(s, t);
    case DoRead(t, k) => ReadNoDanger(s, t, k);
    case DoWrite(t, k) => WriteNoDanger(s, t, k);
    case DoCommit(t) => CommitNoDanger(s, t);
    case DoAbort(t) => AbandonNoDanger(s, t, Voluntary, Release(s.writeLocks, t));
  }

  lemma KeepsInv(s: State, a: Action)
    requires Inv(s) && Apply(s, a).Some?
    ensures Inv(Apply(s, a).value)
  {
    StepAppends(s, a);
    KeepsStatus(s, a, Apply(s, a).value);
    StepReaders(s, a);
    KeepsReads(s, a, Apply(s, a).value);
    KeepsEdges(s, a);
    KeepsNoDanger(s, a);
    StepLocks(s, a);
    KeepsLocks(s, a, Apply(s, a).value);
    KeepsWritesApart(s, a, Apply(s, a).value);
  }

  lemma {:induction false} RunInv(states: seq<State>, actions: seq<Action>, n: nat)
    requires Run(states, actions) && n <= |actions|
    ensures Inv(states[n])
  {
    if n > 0 {
      RunInv(states, actions, n - 1);
      KeepsInv(states[n - 1], actions[n - 1]);
    }
  }

  // ---------------------------------------------------------------- the theorems

  /** Conflict detection is complete: in every run each detected edge has both its flags set. */
  lemma DetectionComplete(states: seq<State>, actions: seq<Action>, n: nat, r: TxnId, w: TxnId)
    requires Run(states, actions) && n <= |actions| && Edge(states[n], r, w)
    ensures Flag(states[n].outConflict, r) && Flag(states[n].inConflict, w)
  {
    RunInv(states, actions, n);
  }

  /** No committed pivot: no committed transaction has both an incoming and an outgoing detected edge. */
  lemma NoCommittedPivot(states: seq<State>, actions: seq<Action>, n: nat, r: TxnId, t: TxnId, w: TxnId)
    requires Run(states, actions) && n <= |actions|
    requires Edge(states[n], r, t) && Edge(states[n], t, w)
    ensures !Has(states[n], t, Committed)
    ensures NoCommittedDangerousStructures(states[n])
  {
    RunInv(states, actions, n);
  }

  /** Write-lock discipline: between writes to one key by different transactions, the first writer
      commits or aborts. */
  lemma WriteLockDiscipline(states: seq<State>, actions: seq<Action>, n: nat, i: nat, j: nat)
    requires Run(states, actions) && n <= |actions| && ConflictingWrites(states[n], i, j)
    ensures exists m :: i < m < j && Ends(states[n].history[m], states[n].history[i].txn)
  {
    RunInv(states, actions, n);
  }

  /** So committed writes to a key stand in the order of their transactions' commits. */
  lemma CommitOrderIsWriteOrder(states: seq<State>, actions: seq<Action>, n: nat, k: Key, i: nat, j: nat,
                                c: nat, d: nat)
    requires Run(states, actions) && n <= |actions|
    requires CommittedWrite(states[n], i, k) && CommittedWrite(states[n], j, k)
    requires states[n].history[i].txn != states[n].history[j].txn
    requires c < |states[n].history| && states[n].history[c] == Commit(states[n].history[i].txn)
    requires d < |states[n].history| && states[n].history[d] == Commit(states[n].history[j].txn)
    ensures i < j <==> c < d
  {
    var s := states[n];
    RunInv(states, actions, n);
    if i < j {
      EarlierWriterCommitsFirst(s, k, i, j, c, d);
    } else {
      EarlierWriterCommitsFirst(s, k, j, i, d, c);
    }
  }

  lemma EarlierWriterCommitsFirst(s: State, k: Key, i: nat, j: nat, c: nat, d: nat)
    requires StatusTrue(s) && WritesApart(s)
    requires CommittedWrite(s, i, k) && CommittedWrite(s, j, k) && i < j
    requires s.history[i].txn != s.history[j].txn
    requires c < |s.history| && s.history[c] == Commit(s.history[i].txn)
    requires d < |s.history| && s.history[d] == Commit(s.history[j].txn)
    ensures i < c < j < d
  {
    var t, u := s.history[i].txn, s.history[j].txn;
    assert ConflictingWrites(s, i, j) && EndedBetween(s, t, i, j);
    var m :| i < m < j && Ends(s.history[m], t);
    assert Ends(s.history[c], t) && Ends(s.history[d], u);
    assert m == c;
  }

  // ---------------------------------------------------------------- what reads return

  lemma RunAppends(states: seq<State>, actions: seq<Action>, n: nat)
    requires Run(states, actions) && n < |actions|
    ensures Apply(states[n], actions[n]) == Some(states[n + 1])
    ensures |states[n + 1].history| == |states[n].history| + 1 && states[n].history <= states[n + 1].history
  {
    assert Apply(states[n], actions[n]) == Some(states[n + 1]);
    StepAppends(states[n], actions[n]);
  }

  lemma HistoryGrows(states: seq<State>, actions: seq<Action>, n: nat)
    requires Run(states, actions) && n < |actions|
    ensures |states[n + 1].history| == |states[n].history| + 1 && states[n].history <= states[n + 1].history
  {
    RunAppends(states, actions, n);
  }

  /** From the empty history, one operation at a time. */
  ghost predicate Grows(states: seq<State>) {
    && (|states| > 0 ==> states[0].history == [])
    && forall n: nat :: n + 1 < |states| ==>
         |states[n + 1].history| == |states[n].history| + 1 && states[n].history <= states[n + 1].history
  }

  lemma {:induction false} GrowthLength(states: seq<State>, n: nat)
    requires Grows(states) && n < |states|
    ensures |states[n].history| == n
  {
    if n > 0 {
      GrowthLength(states, n - 1);
    }
  }

  lemma {:induction false} GrowthPrefix(states: seq<State>, i: nat, n: nat)
    requires Grows(states) && i <= n < |states|
    ensures states[i].history <= states[n].history
    decreases n
  {
    if i < n {
      GrowthPrefix(states, i, n - 1);
      assert states[n - 1].history <= states[n].history;
    }
  }

  /** The i-th operation of a history is what the i-th action appended. */
  lemma HistoryIsSteps(states: seq<State>, actions: seq<Action>, i: nat, n: nat)
    requires Run(states, actions) && i <= n <= |actions|
    ensures |states[i].history| == i && states[i].history <= states[n].history
  {
    assert Grows(states) by {
      forall m: nat | m + 1 < |states|
        ensures |states[m + 1].history| == |states[m].history| + 1 && states[m].history <= states[m + 1].history
      {
        HistoryGrows(states, actions, m);
      }
    }
    GrowthLength(states, i);
    GrowthPrefix(states, i, n);
  }

  ghost predicate ReadAt(s: State, i: nat, t: TxnId, k: Key, version: Option<TxnId>) {
    i < |s.history| && s.history[i] == Read(t, k, version)
  }

  lemma ReadStep(s: State, a: Action, t: TxnId, k: Key, version: Option<TxnId>)
    requires Apply(s, a).Some? && ReadAt(Apply(s, a).value, |s.history|, t, k, version)
    ensures a == DoRead(t, k) && Has(s, t, Active)
    ensures version == if Holder(s, k) == Some(t) then Some(t) else LatestVersion(s, k, SnapshotOf(s, t))
  {
  }

  /** The read that stands at position i was made in the i-th state. */
  lemma ReadWasMade(states: seq<State>, actions: seq<Action>, n: nat, i: nat, t: TxnId, k: Key, version: Option<TxnId>)
    requires Run(states, actions) && n <= |actions| && ReadAt(states[n], i, t, k, version)
    ensures i < n && actions[i] == DoRead(t, k) && Has(states[i], t, Active)
    ensures version == if Holder(states[i], k) == Some(t) then Some(t)
                       else LatestVersion(states[i], k, SnapshotOf(states[i], t))
  {
    HistoryIsSteps(states, actions, n, n);
    HistoryIsSteps(states, actions, i, i);
    HistoryIsSteps(states, actions, i + 1, n);
    RunAppends(states, actions, i);
    ReadStep(states[i], actions[i], t, k, version);
  }

  /** A transaction reads its own writes. */
  lemma ReadYourWrites(states: seq<State>, actions: seq<Action>, n: nat, j: nat, i: nat, t: TxnId, k: Key,
                       version: Option<TxnId>)
    requires Run(states, actions) && n <= |actions| && ReadAt(states[n], i, t, k, version)
    requires j < i && states[n].history[j] == Write(t, k)
    ensures version == Some(t)
  {
    ReadWasMade(states, actions, n, i, t, k, version);
    HistoryIsSteps(states, actions, i, n);
    RunInv(states, actions, i);
    assert states[i].history[j] == states[n].history[j];
  }

  /** The last write to k up to a point by a transaction that has committed, if there is one. */
  lemma {:induction false} LastCommittedIs(s: State, k: Key, n: nat)
    requires n <= |s.history|
    ensures match LastCommittedWriter(s, k, n)
            case Some(w) => exists j: nat :: j < n && CommittedWrite(s, j, k) && s.history[j].txn == w
                              && forall m: nat :: j < m < n ==> !CommittedWrite(s, m, k)
            case None => forall j: nat :: j < n ==> !CommittedWrite(s, j, k)
  {
    if n > 0 && !CommittedWrite(s, n - 1, k) {
      LastCommittedIs(s, k, n - 1);
    }
  }

  /** A read of a key that the transaction has not locked returns the writer of the last write at or
      before its snapshot among those of transactions that have committed by the time of the read. */
  lemma ReadsLastCommitted(states: seq<State>, actions: seq<Action>, n: nat, i: nat, t: TxnId, k: Key,
                           version: Option<TxnId>)
    requires Run(states, actions) && n <= |actions| && ReadAt(states[n], i, t, k, version)
    requires i < n && Holder(states[i], k) != Some(t)
    ensures var s, time := states[i], SnapshotOf(states[i], t);
            match version
            case Some(w) => exists j: nat :: j <= time && CommittedWrite(s, j, k) && s.history[j].txn == w
                              && forall m: nat :: j < m <= time ==> !CommittedWrite(s, m, k)
            case None => forall j: nat :: j <= time ==> !CommittedWrite(s, j, k)
  {
    ReadWasMade(states, actions, n, i, t, k, version);
    var s, time := states[i], SnapshotOf(states[i], t);
    LastCommittedIs(s, k, if time < |s.history| then time + 1 else |s.history|);
  }

  // ---------------------------------------------------------------- first committer wins

  /** The test that `write` does not make: t has not written k before, and nobody has committed a write
      to k since t's snapshot. */
  predicate WriteClear(s: State, t: TxnId, k: Key) {
    && Holder(s, k) != Some(t)
    && forall w :: w in NewerWriters(s, k, SnapshotOf(s, t), t) ==> !Has(s, w, Committed)
  }

  /** A snapshot is the position of a Begin, which precedes everything else of its transaction. */
  ghost predicate SnapshotsFirst(s: State) {
    forall i :: 0 <= i < |s.history| && !s.history[i].Begin? ==> SnapshotOf(s, s.history[i].txn) < i
  }

  ghost predicate ActiveSnapshots(s: State) {
    forall t :: Has(s, t, Active) ==> SnapshotOf(s, t) < |s.history|
  }

  /** Who holds a key has written it, and every written key has a lock cell. */
  ghost predicate LocksWritten(s: State) {
    && (forall k, t :: Holder(s, k) == Some(t) ==> exists i :: 0 <= i < |s.history| && s.history[i] == Write(t, k))
    && (forall i :: 0 <= i < |s.history| && s.history[i].Write? ==> s.history[i].key in s.writeLocks)
  }

  lemma KeepsSnapshots(s: State, a: Action, s': State)
    requires SnapshotsFirst(s) && ActiveSnapshots(s) && Started(s) && Appends(s, a, s')
    requires a.DoBegin? ==> s'.history[|s.history|].Begin? && SnapshotOf(s', a.txn) == |s.history|
    ensures SnapshotsFirst(s') && ActiveSnapshots(s')
  {
    forall i | 0 <= i < |s'.history| && !s'.history[i].Begin?
      ensures SnapshotOf(s', s'.history[i].txn) < i
    {
      if i < |s.history| {
        assert s'.history[i] == s.history[i];
      }
    }
  }

  /** A step gives no lock but to a writer of the key, and removes no lock cell. */
  ghost predicate LockCells(s: State, a: Action, s': State) {
    && s'.history != [] && s.writeLocks.Keys <= s'.writeLocks.Keys
    && var last := s'.history[|s'.history| - 1];
       && (forall k, t :: Holder(s', k) == Some(t) && Holder(s, k) != Some(t) ==> last == Write(t, k))
       && (last.Write? ==> last.key in s'.writeLocks)
  }

  lemma StepLockCells(s: State, a: Action)
    requires Apply(s, a).Some?
    ensures LockCells(s, a, Apply(s, a).value)
  {
  }

  lemma KeepsLocksWritten(s: State, a: Action, s': State)
    requires LocksWritten(s) && Appends(s, a, s') && LockCells(s, a, s')
    ensures LocksWritten(s')
  {
    forall k, t | Holder(s', k) == Some(t)
      ensures exists i :: 0 <= i < |s'.history| && s'.history[i] == Write(t, k)
    {
      if Holder(s, k) == Some(t) {
        var i :| 0 <= i < |s.history| && s.history[i] == Write(t, k);
        assert s'.history[i] == Write(t, k);
      } else {
        assert s'.history[|s.history|] == Write(t, k);
      }
    }
    forall i | 0 <= i < |s'.history| && s'.history[i].Write?
      ensures s'.history[i].key in s'.writeLocks
    {
      if i < |s.history| {
        assert s'.history[i] == s.history[i];
      }
    }
  }

  lemma StepSnapshots(s: State, a: Action)
    requires SnapshotsFirst(s) && ActiveSnapshots(s) && LocksWritten(s) && Started(s) && Apply(s, a).Some?
    ensures var s' := Apply(s, a).value; SnapshotsFirst(s') && ActiveSnapshots(s') && LocksWritten(s')
  {
    StepAppends(s, a);
    KeepsSnapshots(s, a, Apply(s, a).value);
    StepLockCells(s, a);
    KeepsLocksWritten(s, a, Apply(s, a).value);
  }

  lemma {:induction false} RunSnapshots(states: seq<State>, actions: seq<Action>, n: nat)
    requires Run(states, actions) && n <= |actions|
    ensures SnapshotsFirst(states[n]) && ActiveSnapshots(states[n]) && LocksWritten(states[n])
  {
    if n > 0 {
      RunSnapshots(states, actions, n - 1);
      RunInv(states, actions, n - 1);
      assert Apply(states[n - 1], actions[n - 1]) == Some(states[n]);
      StepSnapshots(states[n - 1], actions[n - 1]);
    }
  }

  /** From one moment of a run to a later one: what has started keeps its snapshot, and what has
      committed stays so. */
  ghost predicate Later(s: State, s': State) {
    && s.history <= s'.history
    && forall t :: t in s.status && s.status[t] != NotStarted ==>
         SnapshotOf(s', t) == SnapshotOf(s, t) && (Has(s, t, Committed) ==> Has(s', t, Committed))
  }

  lemma StepLater(s: State, a: Action, s': State, s'': State)
    requires Later(s, s') && Appends(s', a, s'')
    requires forall t :: t in s.status && s.status[t] != NotStarted ==> t in s'.status && s'.status[t] != NotStarted
    ensures Later(s, s'')
    ensures forall t :: t in s.status && s.status[t] != NotStarted ==> t in s''.status && s''.status[t] != NotStarted
  {
  }

  lemma {:induction false} RunLater(states: seq<State>, actions: seq<Action>, m: nat, n: nat)
    requires Run(states, actions) && m <= n <= |actions|
    ensures Later(states[m], states[n]) && |states[m].history| == m
    ensures forall t :: t in states[m].status && states[m].status[t] != NotStarted ==>
              t in states[n].status && states[n].status[t] != NotStarted
    decreases n
  {
    HistoryIsSteps(states, actions, m, m);
    if m < n {
      RunLater(states, actions, m, n - 1);
      assert Apply(states[n - 1], actions[n - 1]) == Some(states[n]);
      StepAppends(states[n - 1], actions[n - 1]);
      StepLater(states[m], actions[n - 1], states[n - 1], states[n]);
    }
  }

  /** A write that stands at position m was made in the m-th state, by an active transaction. */
  lemma WriteWasMade(states: seq<State>, actions: seq<Action>, n: nat, m: nat, t: TxnId, k: Key)
    requires Run(states, actions) && n <= |actions| && m < |states[n].history| && states[n].history[m] == Write(t, k)
    ensures m < n && Has(states[m], t, Active) && Later(states[m], states[n]) && |states[m].history| == m
  {
    HistoryIsSteps(states, actions, n, n);
    RunLater(states, actions, m, n);
    RunLater(states, actions, m + 1, n);
    assert Apply(states[m], actions[m]) == Some(states[m + 1]);
    StepAppends(states[m], actions[m]);
    assert states[m + 1].history[m] == Write(t, k);
  }

  /** A write that is not clear, and whose transaction commits, is the later one of an overlap. */
  lemma UnclearOverlaps(s: State, s': State, t: TxnId, k: Key)
    requires StatusTrue(s) && SnapshotsFirst(s) && SnapshotsFirst(s') && LocksWritten(s) && LocksWritten(s')
    requires Later(s, s') && |s.history| < |s'.history| && s'.history[|s.history|] == Write(t, k)
    requires Has(s, t, Active) && Has(s', t, Committed) && !WriteClear(s, t, k)
    ensures !FirstCommitterWins(s')
  {
    var m := |s.history|;
    var i := UnclearWriter(s, t, k);
    assert s'.history[i] == s.history[i];
    assert Overlap(s', k, i, m);
  }

  /** What makes a write unclear is an earlier write, since the snapshot, of its own or by a
      transaction that has committed. */
  lemma UnclearWriter(s: State, t: TxnId, k: Key) returns (i: nat)
    requires SnapshotsFirst(s) && LocksWritten(s) && !WriteClear(s, t, k)
    ensures i < |s.history| && s.history[i] == Write(s.history[i].txn, k) && SnapshotOf(s, t) < i
    ensures s.history[i].txn == t || Has(s, s.history[i].txn, Committed)
  {
    if Holder(s, k) == Some(t) {
      i :| 0 <= i < |s.history| && s.history[i] == Write(t, k);
    } else {
      var w :| w in NewerWriters(s, k, SnapshotOf(s, t), t) && Has(s, w, Committed);
      i :| i < |s.history| && NewerWrite(s, i, k, SnapshotOf(s, t), t) && s.history[i].txn == w;
    }
  }

  /** The later write of an overlap was not clear. */
  lemma OverlapUnclear(s: State, s': State, k: Key, i: nat, m: nat)
    requires Inv(s) && StatusTrue(s') && WritesApart(s') && Later(s, s') && |s.history| == m
    requires Overlap(s', k, i, m) && Has(s, s'.history[m].txn, Active)
    ensures !WriteClear(s, s'.history[m].txn, k)
  {
    var w, t := s'.history[i].txn, s'.history[m].txn;
    assert s.history[i] == s'.history[i];
    if w != t {
      assert ConflictingWrites(s', i, m);
      var e :| i < e < m && Ends(s'.history[e], w);
      assert CommitRecorded(s', w);
      var c :| 0 <= c < |s'.history| && s'.history[c] == Commit(w);
      assert c == e;
      assert s.history[e] == Commit(w);
      assert Has(s, w, Committed) && SnapshotOf(s', t) == SnapshotOf(s, t);
      assert NewerWrite(s, i, k, SnapshotOf(s, t), t);
      assert w in NewerWriters(s, k, SnapshotOf(s, t), t);
    }
  }

  ghost predicate CommitsWrite(s: State, m: nat, t: TxnId, k: Key) {
    m < |s.history| && s.history[m] == Write(t, k) && Has(s, t, Committed)
  }

  /** The documented FirstCommitterWins holds of a reachable state exactly when every write of a
      transaction that has since committed was clear at the moment at which it was made. `write` does
      not look: see the run below. A transaction that writes a key twice fails it by itself. */
  lemma FirstCommitterWinsExactly(states: seq<State>, actions: seq<Action>, n: nat)
    requires Run(states, actions) && n <= |actions|
    ensures FirstCommitterWins(states[n]) <==>
            forall m: nat, t, k :: m < n && CommitsWrite(states[n], m, t, k) ==> WriteClear(states[m], t, k)
  {
    var s' := states[n];
    RunInv(states, actions, n);
    RunSnapshots(states, actions, n);
    forall m: nat, t, k | m < n && CommitsWrite(s', m, t, k) && !WriteClear(states[m], t, k)
      ensures !FirstCommitterWins(s')
    {
      WriteWasMade(states, actions, n, m, t, k);
      RunInv(states, actions, m);
      RunSnapshots(states, actions, m);
      UnclearOverlaps(states[m], s', t, k);
    }
    forall k, i: nat, m: nat | Overlap(s', k, i, m)
      ensures m < n && CommitsWrite(s', m, s'.history[m].txn, k) && !WriteClear(states[m], s'.history[m].txn, k)
    {
      WriteWasMade(states, actions, n, m, s'.history[m].txn, k);
      RunInv(states, actions, m);
      OverlapUnclear(states[m], s', k, i, m);
    }
  }
}
