/** When the SSI machine is serializable. */
module SsiSerializability {
  /* It is not always: `SerializabilityFails` is a lost update. Two tests that the operations of `SsiMachine` do not
     make are enough, one at each read and one at each write of a transaction that goes on to commit. Both look
     only at the state before the operation. The proof ranks the committed transactions: one that has read
     behind somebody stands at its snapshot, any other at its commit. */

  import opened Options
  import opened RankedOrder
  import opened SsiMachine
  import opened SsiMachineProofs

  // ---------------------------------------------------------------- serializability

  predicate Wrote(s: State, t: TxnId, k: Key) {
    exists i :: 0 <= i < |s.history| && s.history[i] == Write(t, k)
  }

  /** The last writer of k when the listed transactions run one after another. */
  function SerialWriter(s: State, order: seq<TxnId>, k: Key): Option<TxnId> {
    if order == [] then None
    else if Wrote(s, order[|order| - 1], k) then Some(order[|order| - 1])
    else SerialWriter(s, order[..|order| - 1], k)
  }

  /** The read at position i is by the p-th transaction of the order, of a key that it had not written. */
  ghost predicate ReadBy(s: State, order: seq<TxnId>, p: nat, i: nat) {
    && p < |order| && i < |s.history| && s.history[i].Read? && s.history[i].txn == order[p]
    && forall j :: 0 <= j < i ==> s.history[j] != Write(order[p], s.history[i].key)
  }

  /** Run one after another in this order, the committed transactions read what they have read, and the
      last writer of each key is the same. */
  ghost predicate SerialOrder(s: State, order: seq<TxnId>) {
    && (forall i, j :: 0 <= i < j < |order| ==> order[i] != order[j])
    && (forall t :: t in order <==> Has(s, t, Committed))
    && (forall p: nat, i: nat :: ReadBy(s, order, p, i) ==>
          s.history[i].version == SerialWriter(s, order[..p], s.history[i].key))
    && (forall k :: SerialWriter(s, order, k) == LastCommittedWriter(s, k, |s.history|))
  }

  ghost predicate Serializable(s: State) {
    exists order :: SerialOrder(s, order)
  }

  lemma {:induction false} SerialWriterIsLast(s: State, order: seq<TxnId>, k: Key, p: nat)
    requires p < |order| && Wrote(s, order[p], k) && forall q :: p < q < |order| ==> !Wrote(s, order[q], k)
    ensures SerialWriter(s, order, k) == Some(order[p])
  {
    if p < |order| - 1 {
      SerialWriterIsLast(s, order[..|order| - 1], k, p);
    }
  }

  // ---------------------------------------------------------------- the two tests

  /** The commit of w stands before the given time. */
  predicate CommittedBy(s: State, w: TxnId, time: nat) {
    exists c :: 0 <= c < |s.history| && c < time && s.history[c] == Commit(w)
  }

  /** A write of k up to t's snapshot by another transaction that has not aborted. */
  predicate SeenWrite(s: State, t: TxnId, k: Key, j: nat) {
    && j <= SnapshotOf(s, t) && j < |s.history| && s.history[j].Write? && s.history[j].key == k
    && s.history[j].txn != t && (Has(s, s.history[j].txn, Active) || Has(s, s.history[j].txn, Committed))
  }

  /** The test that `read` does not make: whoever else has written k by t's snapshot, and has not
      aborted, had committed by then. A transaction that holds k's lock reads its own write. */
  predicate ReadClear(s: State, t: TxnId, k: Key) {
    Holder(s, k) == Some(t)
    || forall j: nat :: j < |s.history| && SeenWrite(s, t, k, j) ==> CommittedBy(s, s.history[j].txn, SnapshotOf(s, t))
  }

  /** The test that `write` does not make: whoever else has committed a write to k had committed by t's
      snapshot. */
  predicate WriteFresh(s: State, t: TxnId, k: Key) {
    forall j: nat :: j < |s.history| && CommittedWrite(s, j, k) && s.history[j].txn != t ==>
      CommittedBy(s, s.history[j].txn, SnapshotOf(s, t))
  }

  /** Every read of a transaction that has committed by the n-th state was clear when it was made. */
  ghost predicate ReadsClear(states: seq<State>, n: nat)
    requires n < |states|
  {
    forall i: nat, t, k, version :: i < n && ReadAt(states[n], i, t, k, version) && Has(states[n], t, Committed) ==>
      ReadClear(states[i], t, k)
  }

  /** And every write of one was fresh. */
  ghost predicate WritesFresh(states: seq<State>, n: nat)
    requires n < |states|
  {
    forall i: nat, t, k :: i < n && CommitsWrite(states[n], i, t, k) ==> WriteFresh(states[i], t, k)
  }

  // ---------------------------------------------------------------- ranks

  /** Whoever has started began at its snapshot. */
  ghost predicate SnapshotsBegin(s: State) {
    forall t :: t in s.status && s.status[t] != NotStarted ==>
      SnapshotOf(s, t) < |s.history| && s.history[SnapshotOf(s, t)] == Begin(t)
  }

  lemma KeepsBegins(s: State, a: Action, s': State)
    requires SnapshotsBegin(s) && Appends(s, a, s')
    requires a.DoBegin? ==> s'.history[|s.history|] == Begin(a.txn) && SnapshotOf(s', a.txn) == |s.history|
    ensures SnapshotsBegin(s')
  {
    assert forall i :: 0 <= i < |s.history| ==> s'.history[i] == s.history[i];
  }

  lemma {:induction false} RunBegins(states: seq<State>, actions: seq<Action>, n: nat)
    requires Run(states, actions) && n <= |actions|
    ensures SnapshotsBegin(states[n])
  {
    if n > 0 {
      RunBegins(states, actions, n - 1);
      assert Apply(states[n - 1], actions[n - 1]) == Some(states[n]);
      StepAppends(states[n - 1], actions[n - 1]);
      KeepsBegins(states[n - 1], actions[n - 1], states[n]);
    }
  }

  /** What the proof needs to know of a history. */
  ghost predicate WellFormed(s: State) {
    StatusTrue(s) && SnapshotsBegin(s) && SnapshotsFirst(s)
  }

  ghost function CommitPos(s: State, t: TxnId): (c: nat)
    requires CommitRecorded(s, t)
    ensures c < |s.history| && s.history[c] == Commit(t)
  {
    var c: nat :| c < |s.history| && s.history[c] == Commit(t);
    c
  }

  ghost function Rank(s: State, t: TxnId): nat
    requires CommitRecorded(s, t)
  {
    if Flag(s.outConflict, t) then SnapshotOf(s, t) else CommitPos(s, t)
  }

  /** A transaction begins first and commits last. */
  lemma Bounds(s: State, t: TxnId, i: nat)
    requires WellFormed(s) && Has(s, t, Committed) && i < |s.history| && s.history[i].txn == t && !s.history[i].Begin?
    ensures CommitRecorded(s, t) && SnapshotOf(s, t) < i <= CommitPos(s, t)
  {
    assert CommitRecorded(s, t);
    assert Ends(s.history[CommitPos(s, t)], t);
  }

  lemma OneCommit(s: State, t: TxnId, c: nat)
    requires WellFormed(s) && Has(s, t, Committed) && c < |s.history| && s.history[c] == Commit(t)
    ensures CommitRecorded(s, t) && c == CommitPos(s, t)
  {
    assert CommitRecorded(s, t);
    assert Ends(s.history[c], t) && Ends(s.history[CommitPos(s, t)], t);
  }

  lemma RankBounds(s: State, t: TxnId)
    requires WellFormed(s) && Has(s, t, Committed)
    ensures CommitRecorded(s, t) && SnapshotOf(s, t) < CommitPos(s, t)
    ensures SnapshotOf(s, t) <= Rank(s, t) <= CommitPos(s, t)
    ensures Rank(s, t) < |s.history| && s.history[Rank(s, t)].txn == t
    ensures s.history[SnapshotOf(s, t)] == Begin(t)
  {
    assert CommitRecorded(s, t);
    Bounds(s, t, CommitPos(s, t));
  }

  ghost function Ranks(s: State): map<TxnId, nat>
    requires WellFormed(s)
  {
    map t | t in s.status && Has(s, t, Committed) :: assert CommitRecorded(s, t); Rank(s, t)
  }

  lemma RanksDistinct(s: State)
    requires WellFormed(s)
    ensures Distinct(Ranks(s))
  {
    forall t, u | t in Ranks(s) && u in Ranks(s) && t != u
      ensures Ranks(s)[t] != Ranks(s)[u]
    {
      RankBounds(s, t);
      RankBounds(s, u);
    }
  }

  // ---------------------------------------------------------------- what the tests give

  /** Of two committed writes to a key by different transactions, the earlier was committed by the
      later writer's snapshot. */
  ghost predicate WritesSettled(s: State) {
    forall k, i: nat, j: nat :: WrittenTwice(s, k, i, j) ==>
      CommittedBy(s, s.history[i].txn, SnapshotOf(s, s.history[j].txn))
  }

  ghost predicate WrittenTwice(s: State, k: Key, i: nat, j: nat) {
    i < j && CommittedWrite(s, i, k) && CommittedWrite(s, j, k) && s.history[i].txn != s.history[j].txn
  }

  /** A read that returns the last committed write up to the reader's snapshot, where all the committed
      writes up to the snapshot were committed by then. */
  ghost predicate ReadSettled(s: State, i: nat, t: TxnId, k: Key)
    requires i < |s.history| && s.history[i].Read?
  {
    && SnapshotOf(s, t) < |s.history|
    && s.history[i].version == LastCommittedWriter(s, k, SnapshotOf(s, t) + 1)
    && forall j: nat :: j <= SnapshotOf(s, t) && CommittedWrite(s, j, k) ==>
         CommittedBy(s, s.history[j].txn, SnapshotOf(s, t))
  }

  /** A committed read of a key that the reader had not written. */
  ghost predicate ForeignRead(s: State, i: nat, t: TxnId, k: Key) {
    && i < |s.history| && s.history[i].Read? && s.history[i].txn == t && s.history[i].key == k
    && Has(s, t, Committed) && forall j :: 0 <= j < i ==> s.history[j] != Write(t, k)
  }

  lemma CommittedByLater(s: State, s': State, w: TxnId, time: nat)
    requires CommittedBy(s, w, time) && s.history <= s'.history
    ensures CommittedBy(s', w, time)
  {
    var c :| 0 <= c < |s.history| && c < time && s.history[c] == Commit(w);
    assert s'.history[c] == Commit(w);
  }

  /** The earlier writer has committed when the later one writes. */
  lemma EarlierCommitted(s: State, s': State, k: Key, i: nat, j: nat)
    requires Inv(s) && StatusTrue(s') && WritesApart(s') && Later(s, s') && |s.history| == j
    requires WrittenTwice(s', k, i, j)
    ensures CommittedWrite(s, i, k) && s.history[i] == s'.history[i]
  {
    var w := s'.history[i].txn;
    assert s.history[i] == s'.history[i];
    assert ConflictingWrites(s', i, j);
    var e :| i < e < j && Ends(s'.history[e], w);
    assert CommitRecorded(s', w);
    var c :| 0 <= c < |s'.history| && s'.history[c] == Commit(w);
    assert c == e;
    assert s.history[e] == Commit(w);
  }

  lemma FreshSettles(states: seq<State>, actions: seq<Action>, n: nat)
    requires Run(states, actions) && n <= |actions| && WritesFresh(states, n)
    ensures WritesSettled(states[n])
  {
    var s' := states[n];
    RunInv(states, actions, n);
    forall k, i: nat, j: nat | WrittenTwice(s', k, i, j)
      ensures CommittedBy(s', s'.history[i].txn, SnapshotOf(s', s'.history[j].txn))
    {
      var t := s'.history[j].txn;
      WriteWasMade(states, actions, n, j, t, k);
      RunInv(states, actions, j);
      EarlierCommitted(states[j], s', k, i, j);
      assert CommitsWrite(s', j, t, k) && WriteFresh(states[j], t, k);
      CommittedByLater(states[j], s', s'.history[i].txn, SnapshotOf(s', t));
    }
  }

  /** Up to the reader's snapshot, who has committed by the end had committed by the read. */
  lemma ReadSees(s: State, s': State, t: TxnId, k: Key, j: nat)
    requires StatusTrue(s) && StatusTrue(s') && Later(s, s') && Has(s, t, Active) && Holder(s, k) != Some(t)
    requires ReadClear(s, t, k) && j <= SnapshotOf(s, t) < |s.history|
    requires j < |s'.history| && s'.history[j].txn == t ==> !s'.history[j].Write?
    ensures CommittedWrite(s', j, k) ==>
              CommittedBy(s', s'.history[j].txn, SnapshotOf(s', t)) && CommittedWrite(s, j, k)
    ensures CommittedWrite(s, j, k) ==> CommittedWrite(s', j, k)
    ensures s.history[j] == s'.history[j] && SnapshotOf(s', t) == SnapshotOf(s, t)
  {
    assert s.history[j] == s'.history[j];
    var w := s.history[j].txn;
    if CommittedWrite(s', j, k) {
      StillLive(s, s', w);
      assert SeenWrite(s, t, k, j);
      assert CommittedBy(s, w, SnapshotOf(s, t));
      CommittedByLater(s, s', w, SnapshotOf(s, t));
    }
  }

  lemma StillLive(s: State, s': State, w: TxnId)
    requires StatusTrue(s) && StatusTrue(s') && Later(s, s') && Has(s', w, Committed)
    requires exists j :: 0 <= j < |s.history| && s.history[j].txn == w
    ensures Has(s, w, Active) || Has(s, w, Committed)
  {
    if Has(s, w, Aborted) {
      assert EndRecorded(s, w) && CommitRecorded(s', w);
      var e :| 0 <= e < |s.history| && Ends(s.history[e], w);
      var c :| 0 <= c < |s'.history| && s'.history[c] == Commit(w);
      assert Ends(s'.history[e], w) && Ends(s'.history[c], w);
      assert c == e;
    }
  }

  lemma {:induction false} SameLast(s: State, s': State, k: Key, n: nat)
    requires n <= |s.history| && n <= |s'.history|
    requires forall j: nat :: j < n ==> s.history[j] == s'.history[j]
    requires forall j: nat :: j < n ==> (CommittedWrite(s, j, k) <==> CommittedWrite(s', j, k))
    ensures LastCommittedWriter(s, k, n) == LastCommittedWriter(s', k, n)
  {
    if n > 0 {
      assert CommittedWrite(s, n - 1, k) <==> CommittedWrite(s', n - 1, k);
      SameLast(s, s', k, n - 1);
    }
  }

  lemma ClearSettles(states: seq<State>, actions: seq<Action>, n: nat, i: nat, t: TxnId, k: Key)
    requires Run(states, actions) && n <= |actions| && ReadsClear(states, n) && ForeignRead(states[n], i, t, k)
    ensures ReadSettled(states[n], i, t, k)
  {
    var s' := states[n];
    var version := s'.history[i].version;
    assert ReadAt(s', i, t, k, version);
    ReadWasMade(states, actions, n, i, t, k, version);
    RunInv(states, actions, n);
    RunSnapshots(states, actions, n);
    RunInv(states, actions, i);
    RunSnapshots(states, actions, i);
    RunLater(states, actions, i, n);
    var s := states[i];
    NotHeld(s, s', i, t, k);
    assert ReadClear(s, t, k);
    var time := SnapshotOf(s, t);
    forall j: nat | j <= time
      ensures CommittedWrite(s', j, k) ==> CommittedBy(s', s'.history[j].txn, SnapshotOf(s', t))
      ensures CommittedWrite(s, j, k) <==> CommittedWrite(s', j, k)
      ensures s.history[j] == s'.history[j] && SnapshotOf(s', t) == time
    {
      ReadSees(s, s', t, k, j);
    }
    assert SnapshotOf(s', t) == time;
    SameLast(s, s', k, time + 1);
  }

  lemma NotHeld(s: State, s': State, i: nat, t: TxnId, k: Key)
    requires LocksWritten(s) && s.history <= s'.history && |s.history| == i && ForeignRead(s', i, t, k)
    ensures Holder(s, k) != Some(t)
  {
  }

  // ---------------------------------------------------------------- ranks respect the conflicts

  lemma BeforeSnapshot(s: State, w: TxnId, t: TxnId)
    requires WellFormed(s) && Has(s, w, Committed) && Has(s, t, Committed) && CommittedBy(s, w, SnapshotOf(s, t))
    ensures CommitRecorded(s, w) && CommitRecorded(s, t)
    ensures Rank(s, w) <= CommitPos(s, w) < SnapshotOf(s, t) <= Rank(s, t)
  {
    var c :| 0 <= c < |s.history| && c < SnapshotOf(s, t) && s.history[c] == Commit(w);
    OneCommit(s, w, c);
    RankBounds(s, w);
    RankBounds(s, t);
  }

  /** Writes: the earlier writer of a key ranks lower. */
  lemma WriteBeforeWrite(s: State, k: Key, i: nat, j: nat)
    requires WellFormed(s) && WritesSettled(s)
    requires WrittenTwice(s, k, i, j)
    ensures CommitRecorded(s, s.history[i].txn) && CommitRecorded(s, s.history[j].txn)
    ensures Rank(s, s.history[i].txn) < Rank(s, s.history[j].txn)
  {
    BeforeSnapshot(s, s.history[i].txn, s.history[j].txn);
  }

  /** Both ends of a detected edge: the reader stands at its snapshot, the writer at its commit. */
  lemma EdgeRanks(s: State, t: TxnId, u: TxnId, j: nat)
    requires WellFormed(s) && EdgesFlagged(s) && NoCommittedDangerousStructures(s)
    requires Has(s, t, Committed) && Has(s, u, Committed) && Edge(s, t, u)
    requires SnapshotOf(s, t) < j < |s.history| && s.history[j].txn == u && !s.history[j].Begin?
    ensures CommitRecorded(s, t) && CommitRecorded(s, u) && Rank(s, t) < Rank(s, u)
  {
    assert Flag(s.outConflict, t) && Flag(s.inConflict, u) && !Dangerous(s, u);
    Bounds(s, u, j);
    RankBounds(s, t);
  }

  /** Anti-dependency: a reader that had not seen a write of the key ranks below the writer. */
  lemma ReadBeforeWrite(s: State, i: nat, t: TxnId, u: TxnId, k: Key, j: nat)
    requires WellFormed(s) && EdgesFlagged(s) && NoCommittedDangerousStructures(s)
    requires ForeignRead(s, i, t, k) && ReadSettled(s, i, t, k)
    requires CommittedWrite(s, j, k) && s.history[j].txn == u && u != t && !CommittedBy(s, u, SnapshotOf(s, t))
    ensures CommitRecorded(s, t) && CommitRecorded(s, u) && Rank(s, t) < Rank(s, u)
  {
    Bounds(s, t, i);
    Bounds(s, u, j);
    RankBounds(s, t);
    RankBounds(s, u);
    assert j > SnapshotOf(s, t);
    if j < i {
      assert WriteThenRead(s, t, u, k, j, i);
      EdgeRanks(s, t, u, j);
    } else if CommitPos(s, t) > SnapshotOf(s, u) {
      forall c | 0 <= c < j && s.history[c] == Commit(t)
        ensures c > SnapshotOf(s, u)
      {
        OneCommit(s, t, c);
      }
      assert ReadThenWrite(s, t, u, k, i, j);
      EdgeRanks(s, t, u, j);
    }
  }

  // ---------------------------------------------------------------- the serial order

  lemma {:induction false} NoSerialWriter(s: State, order: seq<TxnId>, k: Key)
    requires forall q :: 0 <= q < |order| ==> !Wrote(s, order[q], k)
    ensures SerialWriter(s, order, k) == None
  {
    if order != [] {
      NoSerialWriter(s, order[..|order| - 1], k);
    }
  }

  /** The first p of the order wrote k exactly in the committed writes before the given time. */
  ghost predicate Covers(s: State, order: seq<TxnId>, p: nat, k: Key, time: nat) {
    && p <= |order| && time <= |s.history|
    && (forall j: nat :: j < time && CommittedWrite(s, j, k) ==> s.history[j].txn in order[..p])
    && (forall j: nat, q: nat :: q < p && CommittedWrite(s, j, k) && s.history[j].txn == order[q] ==> j < time)
  }

  lemma WroteCommitted(s: State, order: seq<TxnId>, q: nat, k: Key) returns (j: nat)
    requires WellFormed(s) && Ranked(Ranks(s), order) && q < |order| && Wrote(s, order[q], k)
    ensures CommittedWrite(s, j, k) && s.history[j].txn == order[q]
  {
    j :| 0 <= j < |s.history| && s.history[j] == Write(order[q], k);
  }

  /** Then its last writer is the last committed writer before that time. */
  lemma SerialIsLast(s: State, order: seq<TxnId>, p: nat, k: Key, time: nat)
    requires WellFormed(s) && WritesSettled(s) && Ranked(Ranks(s), order) && Covers(s, order, p, k, time)
    ensures SerialWriter(s, order[..p], k) == LastCommittedWriter(s, k, time)
  {
    LastCommittedIs(s, k, time);
    match LastCommittedWriter(s, k, time)
    case None =>
      forall q | 0 <= q < p
        ensures !Wrote(s, order[..p][q], k)
      {
        if Wrote(s, order[q], k) {
          var j := WroteCommitted(s, order, q, k);
        }
      }
      NoSerialWriter(s, order[..p], k);
    case Some(w) =>
      var j: nat :| j < time && CommittedWrite(s, j, k) && s.history[j].txn == w
                    && forall m: nat :: j < m < time ==> !CommittedWrite(s, m, k);
      var q: nat :| q < p && order[..p][q] == w;
      assert s.history[j] == Write(w, k);
      forall r | q < r < p
        ensures !Wrote(s, order[..p][r], k)
      {
        if Wrote(s, order[r], k) {
          var i := WroteCommitted(s, order, r, k);
          LaterRanksHigher(s, order, q, r, k, i, j);
        }
      }
      SerialWriterIsLast(s, order[..p], k, q);
  }

  /** A later place in the order has a later write. */
  lemma LaterRanksHigher(s: State, order: seq<TxnId>, q: nat, r: nat, k: Key, i: nat, j: nat)
    requires WellFormed(s) && WritesSettled(s) && Ranked(Ranks(s), order) && q < r < |order|
    requires CommittedWrite(s, j, k) && s.history[j].txn == order[q]
    requires CommittedWrite(s, i, k) && s.history[i].txn == order[r]
    ensures j < i
  {
    RankDecides(Ranks(s), order, q, r);
    if i < j {
      WriteBeforeWrite(s, k, i, j);
    }
  }

  lemma PlaceOf(s: State, order: seq<TxnId>, u: TxnId) returns (q: nat)
    requires WellFormed(s) && Ranked(Ranks(s), order) && Has(s, u, Committed)
    ensures q < |order| && order[q] == u
  {
    assert u in Ranks(s);
    q :| 0 <= q < |order| && order[q] == u;
  }

  /** Whoever had committed by the reader's snapshot stands before it. */
  lemma SeenBefore(s: State, order: seq<TxnId>, p: nat, u: TxnId)
    requires WellFormed(s) && Ranked(Ranks(s), order) && p < |order| && Has(s, u, Committed)
    requires CommittedBy(s, u, SnapshotOf(s, order[p]))
    ensures u in order[..p]
  {
    BeforeSnapshot(s, u, order[p]);
    var q := PlaceOf(s, order, u);
    RankDecides(Ranks(s), order, q, p);
    assert order[..p][q] == u;
  }

  /** Whoever stands before a reader of a key that it has written had committed by the reader's snapshot. */
  lemma BeforeSeen(s: State, order: seq<TxnId>, p: nat, i: nat, k: Key, q: nat, j: nat)
    requires WellFormed(s) && EdgesFlagged(s) && NoCommittedDangerousStructures(s) && Ranked(Ranks(s), order)
    requires p < |order| && ForeignRead(s, i, order[p], k) && ReadSettled(s, i, order[p], k)
    requires q < p && CommittedWrite(s, j, k) && s.history[j].txn == order[q]
    ensures j <= SnapshotOf(s, order[p])
  {
    RankDecides(Ranks(s), order, q, p);
    if CommittedBy(s, order[q], SnapshotOf(s, order[p])) {
      BeforeSnapshot(s, order[q], order[p]);
      Bounds(s, order[q], j);
    } else {
      ReadBeforeWrite(s, i, order[p], order[q], k, j);
    }
  }

  /** What a reader sees is what the transactions before it in the order have written. */
  lemma ReadCovered(s: State, order: seq<TxnId>, p: nat, i: nat, k: Key)
    requires WellFormed(s) && EdgesFlagged(s) && NoCommittedDangerousStructures(s) && Ranked(Ranks(s), order)
    requires p < |order| && ForeignRead(s, i, order[p], k) && ReadSettled(s, i, order[p], k)
    ensures Covers(s, order, p, k, SnapshotOf(s, order[p]) + 1)
  {
    var time := SnapshotOf(s, order[p]);
    forall j: nat | j < time + 1 && CommittedWrite(s, j, k)
      ensures s.history[j].txn in order[..p]
    {
      SeenBefore(s, order, p, s.history[j].txn);
    }
    forall j: nat, q: nat | q < p && CommittedWrite(s, j, k) && s.history[j].txn == order[q]
      ensures j < time + 1
    {
      BeforeSeen(s, order, p, i, k, q, j);
    }
  }

  lemma AllCovered(s: State, order: seq<TxnId>, k: Key)
    requires WellFormed(s) && Ranked(Ranks(s), order)
    ensures Covers(s, order, |order|, k, |s.history|)
  {
    assert order[..|order|] == order;
  }

  lemma RankedIsSerial(s: State, order: seq<TxnId>)
    requires WellFormed(s) && EdgesFlagged(s) && NoCommittedDangerousStructures(s) && WritesSettled(s)
    requires forall i, t, k :: ForeignRead(s, i, t, k) ==> ReadSettled(s, i, t, k)
    requires Ranked(Ranks(s), order)
    ensures SerialOrder(s, order)
  {
    forall p: nat, i: nat | ReadBy(s, order, p, i)
      ensures s.history[i].version == SerialWriter(s, order[..p], s.history[i].key)
    {
      var t, k := order[p], s.history[i].key;
      assert ForeignRead(s, i, t, k);
      ReadCovered(s, order, p, i, k);
      SerialIsLast(s, order, p, k, SnapshotOf(s, t) + 1);
    }
    forall k
      ensures SerialWriter(s, order, k) == LastCommittedWriter(s, k, |s.history|)
    {
      AllCovered(s, order, k);
      SerialIsLast(s, order, |order|, k, |s.history|);
      assert order[..|order|] == order;
    }
  }

  /** Serializability: if every read of a transaction that has committed was clear, and every write of
      one was fresh, in the state in which it was made, then some serial order of the committed
      transactions explains all their reads and the last writer of every key. */
  lemma SerializableIfClear(states: seq<State>, actions: seq<Action>, n: nat)
    requires Run(states, actions) && n <= |actions| && ReadsClear(states, n) && WritesFresh(states, n)
    ensures Serializable(states[n])
  {
    var s := states[n];
    RunInv(states, actions, n);
    RunBegins(states, actions, n);
    RunSnapshots(states, actions, n);
    FreshSettles(states, actions, n);
    forall i: nat, t, k | ForeignRead(s, i, t, k)
      ensures ReadSettled(s, i, t, k)
    {
      ClearSettles(states, actions, n, i, t, k);
    }
    RanksDistinct(s);
    var order := Order(Ranks(s));
    RankedIsSerial(s, order);
  }

  // ---------------------------------------------------------------- a lost update

  /** A lost update: transaction 2 reads key 1, transaction 1 writes it and commits, transaction 2 writes
      it and commits. These are the states of that run. */
  function LostUpdate(n: nat): State
    requires n <= 7
  {
    var h := [Begin(1), Begin(2), Read(2, 1, None), Write(1, 1), Commit(1), Write(2, 1), Commit(2)];
    State(h[..n],
          map[1 := if n == 0 then NotStarted else if n <= 4 then Active else Committed,
              2 := if n <= 1 then NotStarted else if n <= 6 then Active else Committed],
          map[1 := 0, 2 := if n <= 1 then 0 else 1],
          map[1 := if n == 4 then Some(1) else if n == 6 then Some(2) else None],
          map[1 := if n <= 2 then {} else {2}],
          map[1 := n >= 4, 2 := false],
          map[1 := false, 2 := n >= 4])
  }

  function LostUpdateAction(n: nat): Action
    requires n < 7
  {
    [DoBegin(1), DoBegin(2), DoRead(2, 1), DoWrite(1, 1), DoCommit(1), DoWrite(2, 1), DoCommit(2)][n]
  }

  lemma LostUpdateHistory(n: nat)
    requires n < 7
    ensures LostUpdate(n + 1).history == LostUpdate(n).history + [LostUpdate(7).history[n]]
  {
  }

  lemma LostUpdateBegin(n: nat)
    requires n < 2
    ensures Apply(LostUpdate(n), LostUpdateAction(n)) == Some(LostUpdate(n + 1))
  {
    LostUpdateHistory(n);
    var s, t := LostUpdate(n), LostUpdateAction(n).txn;
    assert s.status[t := Active] == LostUpdate(n + 1).status;
    assert s.snapshot[t := |s.history|] == LostUpdate(n + 1).snapshot;
    assert s.writeLocks == LostUpdate(n + 1).writeLocks;
  }

  lemma LostUpdateRead()
    ensures Apply(LostUpdate(2), DoRead(2, 1)) == Some(LostUpdate(3))
  {
    LostUpdateHistory(2);
    var s := LostUpdate(2);
    assert LatestVersion(s, 1, 1) == None by {
      LastCommittedIs(s, 1, 2);
    }
    assert NewerWriters(s, 1, 1, 2) == {} && Raise(s.inConflict, {}) == s.inConflict;
    assert ReadersOf(s, 1) + {2} == {2};
    assert s.sireads[1 := {2}] == LostUpdate(3).sireads;
  }

  lemma LostUpdateReaders()
    ensures var s, s' := LostUpdate(3), LostUpdate(4);
            && ConcurrentReaders(s, 1, 1) == {2}
            && Raise(s.outConflict, {2}) == s'.outConflict
            && s.inConflict[1 := true] == s'.inConflict
            && s.writeLocks[1 := Some(1)] == s'.writeLocks
  {
  }

  lemma LostUpdateFirstWrite()
    ensures Apply(LostUpdate(3), DoWrite(1, 1)) == Some(LostUpdate(4))
  {
    LostUpdateHistory(3);
    LostUpdateReaders();
    assert !Has(LostUpdate(3), 2, Committed);
  }

  lemma LostUpdateSecondWrite()
    ensures Apply(LostUpdate(5), DoWrite(2, 1)) == Some(LostUpdate(6))
  {
    LostUpdateHistory(5);
    var s := LostUpdate(5);
    assert ConcurrentReaders(s, 2, 1) == {} && Raise(s.outConflict, {}) == s.outConflict;
    assert s.writeLocks[1 := Some(2)] == LostUpdate(6).writeLocks;
  }

  lemma LostUpdateCommit(n: nat)
    requires n == 4 || n == 6
    ensures Apply(LostUpdate(n), LostUpdateAction(n)) == Some(LostUpdate(n + 1))
  {
    LostUpdateHistory(n);
    var s, t := LostUpdate(n), LostUpdateAction(n).txn;
    assert Release(s.writeLocks, t) == LostUpdate(n + 1).writeLocks;
    assert s.status[t := Committed] == LostUpdate(n + 1).status;
    assert s.history + [Commit(t)] == LostUpdate(n + 1).history;
  }

  lemma LostUpdateStep(n: nat)
    requires n < 7
    ensures Apply(LostUpdate(n), LostUpdateAction(n)) == Some(LostUpdate(n + 1))
  {
    if n < 2 {
      LostUpdateBegin(n);
    } else if n == 2 {
      LostUpdateRead();
    } else if n == 3 {
      LostUpdateFirstWrite();
    } else if n == 5 {
      LostUpdateSecondWrite();
    } else {
      LostUpdateCommit(n);
    }
  }

  lemma LostUpdateStarts()
    ensures LostUpdate(0) == NewState({1, 2}, {1})
  {
    assert LostUpdate(0).status == NewState({1, 2}, {1}).status;
    assert LostUpdate(0).sireads == NewState({1, 2}, {1}).sireads;
    assert LostUpdate(0).writeLocks == NewState({1, 2}, {1}).writeLocks;
  }

  lemma LostUpdateRuns() returns (states: seq<State>, actions: seq<Action>)
    ensures Run(states, actions) && |actions| == 7 && states[7] == LostUpdate(7)
  {
    states := seq(8, i requires 0 <= i < 8 => LostUpdate(i));
    actions := seq(7, i requires 0 <= i < 7 => LostUpdateAction(i));
    LostUpdateStarts();
    forall i | 0 <= i < 7
      ensures Apply(states[i], actions[i]) == Some(states[i + 1])
    {
      LostUpdateStep(i);
    }
  }

  /** Both transactions commit a write to key 1 that the other did not see. */
  lemma FirstCommitterWinsFails() returns (states: seq<State>, actions: seq<Action>)
    ensures Run(states, actions) && !FirstCommitterWins(states[|actions|])
  {
    states, actions := LostUpdateRuns();
    var s := LostUpdate(7);
    assert s.history == [Begin(1), Begin(2), Read(2, 1, None), Write(1, 1), Commit(1), Write(2, 1), Commit(2)];
    assert Overlap(s, 1, 3, 5) && 1 in s.writeLocks;
  }

  lemma LostUpdateEnds()
    ensures var s := LostUpdate(7);
            && s.history == [Begin(1), Begin(2), Read(2, 1, None), Write(1, 1), Commit(1), Write(2, 1), Commit(2)]
            && LastCommittedWriter(s, 1, 7) == Some(2)
  {
    var s := LostUpdate(7);
    assert CommittedWrite(s, 5, 1) && LastCommittedWriter(s, 1, 6) == Some(2);
    assert !CommittedWrite(s, 6, 1);
  }

  /** In either order, transaction 2 reads transaction 1's write or transaction 1 writes last. */
  lemma EitherOrder(order: seq<TxnId>, p: nat, q: nat)
    requires forall i, j :: 0 <= i < j < |order| ==> order[i] != order[j]
    requires forall t :: t in order ==> t == 1 || t == 2
    requires p < |order| && q < |order| && order[p] == 1 && order[q] == 2
    ensures p < q ==> SerialWriter(LostUpdate(7), order[..q], 1) == Some(1)
    ensures q < p ==> SerialWriter(LostUpdate(7), order, 1) == Some(1)
  {
    var s := LostUpdate(7);
    assert s.history[3] == Write(1, 1);
    if p < q {
      SerialWriterIsLast(s, order[..q], 1, p);
    } else {
      SerialWriterIsLast(s, order, 1, p);
    }
  }

  lemma LostUpdateUnordered(order: seq<TxnId>)
    ensures !SerialOrder(LostUpdate(7), order)
  {
    var s := LostUpdate(7);
    LostUpdateEnds();
    assert Has(s, 1, Committed) && Has(s, 2, Committed);
    assert s.history[2] == Read(2, 1, None);
    if SerialOrder(s, order) {
      var p :| 0 <= p < |order| && order[p] == 1;
      var q :| 0 <= q < |order| && order[q] == 2;
      EitherOrder(order, p, q);
      assert ReadBy(s, order, q, 2);
      assert false;
    }
  }

  /** Serializability fails of the code: the same run commits both transactions, and no serial order of
      the two explains it. */
  lemma SerializabilityFails() returns (states: seq<State>, actions: seq<Action>)
    ensures Run(states, actions) && !Serializable(states[|actions|])
  {
    states, actions := LostUpdateRuns();
    forall order
      ensures !SerialOrder(states[|actions|], order)
    {
      LostUpdateUnordered(order);
    }
  }

  // ---------------------------------------------------------------- neither test can be left out

  /** Transaction 1 writes key 1; transaction 2 begins and reads key 2; transaction 1 writes key 2 and commits.
      Then transaction 2 reads key 1, and sees the write, or writes it; and commits. Each of the two
      transactions must come before the other. These are the states of the two runs. */
  function Crossing(seen: bool, n: nat): State
    requires n <= 8
  {
    State(CrossingHistory(seen)[..n],
          map[1 := if n == 0 then NotStarted else if n <= 5 then Active else Committed,
              2 := if n <= 2 then NotStarted else if n <= 7 then Active else Committed],
          map[1 := 0, 2 := if n <= 2 then 0 else 2],
          map[1 := if 2 <= n <= 5 then Some(1) else if n == 7 && !seen then Some(2) else None,
              2 := if n == 5 then Some(1) else None],
          map[1 := if n >= 7 && seen then {2} else {}, 2 := if n >= 4 then {2} else {}],
          map[1 := n >= 5, 2 := false],
          map[1 := false, 2 := n >= 5])
  }

  function CrossingHistory(seen: bool): (h: seq<Operation>)
    ensures |h| == 8
  {
    [Begin(1), Write(1, 1), Begin(2), Read(2, 2, None), Write(1, 2), Commit(1),
     if seen then Read(2, 1, Some(1)) else Write(2, 1), Commit(2)]
  }

  function CrossingAction(seen: bool, n: nat): Action
    requires n < 8
  {
    [DoBegin(1), DoWrite(1, 1), DoBegin(2), DoRead(2, 2), DoWrite(1, 2), DoCommit(1),
     if seen then DoRead(2, 1) else DoWrite(2, 1), DoCommit(2)][n]
  }

  lemma CrossingAppends(seen: bool, n: nat)
    requires n < 8
    ensures Crossing(seen, n + 1).history == Crossing(seen, n).history + [CrossingHistory(seen)[n]]
  {
  }

  lemma CrossingBegin(seen: bool, n: nat)
    requires n == 0 || n == 2
    ensures Apply(Crossing(seen, n), CrossingAction(seen, n)) == Some(Crossing(seen, n + 1))
  {
    CrossingAppends(seen, n);
    var s, s', t := Crossing(seen, n), Crossing(seen, n + 1), CrossingAction(seen, n).txn;
    assert s.status[t := Active] == s'.status;
    assert s.snapshot[t := |s.history|] == s'.snapshot;
    assert s.writeLocks == s'.writeLocks && s.sireads == s'.sireads;
  }

  lemma CrossingFirstWrite(seen: bool)
    ensures Apply(Crossing(seen, 1), DoWrite(1, 1)) == Some(Crossing(seen, 2))
  {
    CrossingAppends(seen, 1);
    var s, s' := Crossing(seen, 1), Crossing(seen, 2);
    assert ConcurrentReaders(s, 1, 1) == {} && Raise(s.outConflict, {}) == s.outConflict;
    assert s.writeLocks[1 := Some(1)] == s'.writeLocks && s.sireads == s'.sireads;
  }

  lemma CrossingFirstRead(seen: bool)
    ensures Apply(Crossing(seen, 3), DoRead(2, 2)) == Some(Crossing(seen, 4))
  {
    CrossingAppends(seen, 3);
    var s, s' := Crossing(seen, 3), Crossing(seen, 4);
    assert LatestVersion(s, 2, 2) == None by {
      LastCommittedIs(s, 2, 3);
    }
    assert NewerWriters(s, 2, 2, 2) == {} && Raise(s.inConflict, {}) == s.inConflict;
    assert ReadersOf(s, 2) + {2} == {2};
    assert s.sireads[2 := {2}] == s'.sireads;
  }

  lemma CrossingReaders(seen: bool)
    ensures var s, s' := Crossing(seen, 4), Crossing(seen, 5);
            && ConcurrentReaders(s, 1, 2) == {2}
            && Raise(s.outConflict, {2}) == s'.outConflict
            && s.inConflict[1 := true] == s'.inConflict
            && s.writeLocks[2 := Some(1)] == s'.writeLocks
  {
  }

  lemma CrossingSecondWrite(seen: bool)
    ensures Apply(Crossing(seen, 4), DoWrite(1, 2)) == Some(Crossing(seen, 5))
  {
    CrossingAppends(seen, 4);
    CrossingReaders(seen);
    assert !Has(Crossing(seen, 4), 2, Committed);
  }

  lemma CrossingReleases(seen: bool, n: nat)
    requires n == 5 || n == 7
    ensures Release(Crossing(seen, n).writeLocks, CrossingAction(seen, n).txn) == Crossing(seen, n + 1).writeLocks
  {
  }

  lemma CrossingCommit(seen: bool, n: nat)
    requires n == 5 || n == 7
    ensures Apply(Crossing(seen, n), CrossingAction(seen, n)) == Some(Crossing(seen, n + 1))
  {
    CrossingAppends(seen, n);
    CrossingReleases(seen, n);
    var s, s', t := Crossing(seen, n), Crossing(seen, n + 1), CrossingAction(seen, n).txn;
    assert s.status[t := Committed] == s'.status;
    assert s.sireads == s'.sireads;
  }

  lemma CrossingReadsBack()
    ensures Apply(Crossing(true, 6), DoRead(2, 1)) == Some(Crossing(true, 7))
  {
    CrossingAppends(true, 6);
    var s, s' := Crossing(true, 6), Crossing(true, 7);
    assert CommittedWrite(s, 1, 1) && !CommittedWrite(s, 2, 1);
    assert LastCommittedWriter(s, 1, 2) == Some(1);
    assert LatestVersion(s, 1, 2) == Some(1);
    assert NewerWriters(s, 1, 2, 2) == {} && Raise(s.inConflict, {}) == s.inConflict;
    assert ReadersOf(s, 1) + {2} == {2};
    assert s.sireads[1 := {2}] == s'.sireads;
  }

  lemma CrossingWritesBack()
    ensures Apply(Crossing(false, 6), DoWrite(2, 1)) == Some(Crossing(false, 7))
  {
    CrossingAppends(false, 6);
    var s, s' := Crossing(false, 6), Crossing(false, 7);
    assert ConcurrentReaders(s, 2, 1) == {} && Raise(s.outConflict, {}) == s.outConflict;
    assert s.writeLocks[1 := Some(2)] == s'.writeLocks && s.sireads == s'.sireads;
  }

  lemma CrossingStep(seen: bool, n: nat)
    requires n < 8
    ensures Apply(Crossing(seen, n), CrossingAction(seen, n)) == Some(Crossing(seen, n + 1))
  {
    if n == 0 || n == 2 {
      CrossingBegin(seen, n);
    } else if n == 1 {
      CrossingFirstWrite(seen);
    } else if n == 3 {
      CrossingFirstRead(seen);
    } else if n == 4 {
      CrossingSecondWrite(seen);
    } else if n == 6 {
      if seen {
        CrossingReadsBack();
      } else {
        CrossingWritesBack();
      }
    } else {
      CrossingCommit(seen, n);
    }
  }

  lemma CrossingStarts(seen: bool)
    ensures Crossing(seen, 0) == NewState({1, 2}, {1, 2})
  {
    assert Crossing(seen, 0).status == NewState({1, 2}, {1, 2}).status;
    assert Crossing(seen, 0).sireads == NewState({1, 2}, {1, 2}).sireads;
    assert Crossing(seen, 0).writeLocks == NewState({1, 2}, {1, 2}).writeLocks;
  }

  lemma CrossingRuns(seen: bool) returns (states: seq<State>, actions: seq<Action>)
    ensures Run(states, actions) && |actions| == 8 && forall n :: 0 <= n <= 8 ==> states[n] == Crossing(seen, n)
  {
    states := seq(9, i requires 0 <= i < 9 => Crossing(seen, i));
    actions := seq(8, i requires 0 <= i < 8 => CrossingAction(seen, i));
    CrossingStarts(seen);
    forall i | 0 <= i < 8
      ensures Apply(states[i], actions[i]) == Some(states[i + 1])
    {
      CrossingStep(seen, i);
    }
  }

  lemma CrossingOps(seen: bool, n: nat)
    requires n <= 8
    ensures var h := Crossing(seen, n).history;
            && |h| == n
            && (n > 1 ==> h[1] == Write(1, 1)) && (n > 3 ==> h[3] == Read(2, 2, None))
            && (n > 4 ==> h[4] == Write(1, 2)) && (n > 5 ==> h[5] == Commit(1))
            && (n > 6 ==> h[6] == if seen then Read(2, 1, Some(1)) else Write(2, 1))
            && forall i :: 0 <= i < n && i != 1 && i != 4 && (i != 6 || seen) ==> !h[i].Write?
  {
  }

  lemma CrossingWins(seen: bool)
    ensures FirstCommitterWins(Crossing(seen, 8))
  {
    var s := Crossing(seen, 8);
    CrossingOps(seen, 8);
    forall k, i: nat, j: nat
      ensures !Overlap(s, k, i, j)
    {
      assert Overlap(s, k, i, j) ==> i == 1 && j == 6;
    }
  }

  /** With 1 before 2, 2 would read 1's write of key 2; with 2 before 1, 2 would read no write of key 1, and
      1 would write it last. */
  lemma CrossingUnordered(seen: bool, order: seq<TxnId>)
    ensures !SerialOrder(Crossing(seen, 8), order)
  {
    var s := Crossing(seen, 8);
    CrossingOps(seen, 8);
    assert Has(s, 1, Committed) && Has(s, 2, Committed);
    if SerialOrder(s, order) {
      var p :| 0 <= p < |order| && order[p] == 1;
      var q :| 0 <= q < |order| && order[q] == 2;
      CrossingEither(seen, order, p, q);
      assert ReadBy(s, order, q, 3);
      assert seen ==> ReadBy(s, order, q, 6);
      assert false;
    }
  }

  lemma CrossingEither(seen: bool, order: seq<TxnId>, p: nat, q: nat)
    requires forall i, j :: 0 <= i < j < |order| ==> order[i] != order[j]
    requires forall t :: t in order ==> t == 1 || t == 2
    requires p < |order| && q < |order| && order[p] == 1 && order[q] == 2
    ensures var s := Crossing(seen, 8);
            && (p < q ==> SerialWriter(s, order[..q], 2) == Some(1))
            && (q < p ==> SerialWriter(s, order[..q], 1) == None && SerialWriter(s, order, 1) == Some(1))
            && (!seen ==> LastCommittedWriter(s, 1, 8) == Some(2))
  {
    var s := Crossing(seen, 8);
    CrossingOps(seen, 8);
    assert s.history[1] == Write(1, 1) && s.history[4] == Write(1, 2);
    if p < q {
      SerialWriterIsLast(s, order[..q], 2, p);
    } else {
      NoSerialWriter(s, order[..q], 1);
      SerialWriterIsLast(s, order, 1, p);
    }
    if !seen {
      assert CommittedWrite(s, 6, 1) && !CommittedWrite(s, 7, 1);
      assert LastCommittedWriter(s, 1, 7) == Some(2);
    }
  }

  lemma CrossingNotSerializable(seen: bool)
    ensures !Serializable(Crossing(seen, 8))
  {
    forall order
      ensures !SerialOrder(Crossing(seen, 8), order)
    {
      CrossingUnordered(seen, order);
    }
  }

  /** Without the test at reads: no other transaction writes what one has written, so every write is fresh
      and the state passes the source's check of serializability; still no serial order explains the run. */
  lemma ReadTestNeeded() returns (states: seq<State>, actions: seq<Action>)
    ensures Run(states, actions) && WritesFresh(states, |actions|) && !Serializable(states[|actions|])
    ensures FirstCommitterWins(states[|actions|]) && NoCommittedDangerousStructures(states[|actions|])
  {
    states, actions := CrossingRuns(true);
    CrossingOps(true, 8);
    CrossingWins(true);
    CrossingNotSerializable(true);
    RunInv(states, actions, 8);
    forall i: nat, t, k | i < 8 && CommitsWrite(states[8], i, t, k)
      ensures WriteFresh(states[i], t, k)
    {
      CrossingOps(true, i);
    }
  }

  /** Without the test at writes: every read is clear and the state passes the source's check; still no
      serial order explains the run. */
  lemma WriteTestNeeded() returns (states: seq<State>, actions: seq<Action>)
    ensures Run(states, actions) && ReadsClear(states, |actions|) && !Serializable(states[|actions|])
    ensures FirstCommitterWins(states[|actions|]) && NoCommittedDangerousStructures(states[|actions|])
  {
    states, actions := CrossingRuns(false);
    CrossingOps(false, 8);
    CrossingWins(false);
    CrossingNotSerializable(false);
    RunInv(states, actions, 8);
    forall i: nat, t, k, version | i < 8 && ReadAt(states[8], i, t, k, version)
      ensures ReadClear(states[i], t, k)
    {
      CrossingOps(false, i);
    }
  }
}
