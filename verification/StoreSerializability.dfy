/** When the SSI store is serializable. */
module StoreSerializability {
  /* Two tests that the store does not make are enough, one at each write and one at each read of a
     transaction that goes on to commit; both look only at the state before the call. As in
     `SsiSerializability` the committed transactions are ranked: one that has read behind somebody stands
     at its begin, any other at its commit. The contents come from `SnapshotRefinement`. */

  import opened Options
  import opened RankedOrder
  import opened SnapshotRefinement
  import opened SsiStore

  // ---------------------------------------------------------------- the calls that take effect

  ghost predicate CommitsAt(states: seq<Db>, calls: seq<Call>, t: TxnId, c: nat)
    requires Run(states, calls)
  {
    c < |calls| && calls[c] == CallCommit(t) && CommitAllowed(states[c], t)
  }

  ghost predicate WritesAt(states: seq<Db>, calls: seq<Call>, t: TxnId, k: Key, j: nat)
    requires Run(states, calls)
  {
    j < |calls| && calls[j].CallWrite? && calls[j].t == t && calls[j].k == k && WriteAllowed(states[j], t, k)
  }

  ghost predicate ReadsAt(states: seq<Db>, calls: seq<Call>, t: TxnId, k: Key, i: nat)
    requires Run(states, calls)
  {
    i < |calls| && calls[i] == CallRead(t, k) && IsActive(states[i], t)
  }

  /** The transaction has committed by the end of the run. */
  ghost predicate Durable(states: seq<Db>, calls: seq<Call>, t: TxnId)
    requires Run(states, calls)
  {
    HasCommitted(states[|calls|], t)
  }

  /** The value that t last wrote to k among the first m calls. */
  ghost function LastWrite(states: seq<Db>, calls: seq<Call>, m: nat, t: TxnId, k: Key): Option<Value>
    requires Run(states, calls) && m <= |calls|
  {
    if m == 0 then None
    else if WritesAt(states, calls, t, k, m - 1) then Some(calls[m - 1].v)
    else LastWrite(states, calls, m - 1, t, k)
  }

  // ---------------------------------------------------------------- serializability

  /** The value of k after the listed transactions have run one after another. */
  ghost function SerialValue(states: seq<Db>, calls: seq<Call>, order: seq<TxnId>, k: Key): Option<Value>
    requires Run(states, calls)
  {
    if order == [] then None
    else
      var last := LastWrite(states, calls, |calls|, order[|order| - 1], k);
      if last.Some? then last else SerialValue(states, calls, order[..|order| - 1], k)
  }

  /** A read by the p-th transaction of the order, of a key that it has not written. */
  ghost predicate ReadBy(states: seq<Db>, calls: seq<Call>, order: seq<TxnId>, p: nat, i: nat, k: Key)
    requires Run(states, calls)
  {
    && p < |order| && ReadsAt(states, calls, order[p], k, i)
    && forall j: nat :: j < i ==> !WritesAt(states, calls, order[p], k, j)
  }

  /** Run one after another in this order, the committed transactions read what they have read, and leave
      the contents that are there. */
  ghost predicate SerialOrder(states: seq<Db>, calls: seq<Call>, order: seq<TxnId>)
    requires Run(states, calls)
  {
    && (forall i, j :: 0 <= i < j < |order| ==> order[i] != order[j])
    && (forall t :: t in order <==> Durable(states, calls, t))
    && (forall p: nat, i: nat, k :: ReadBy(states, calls, order, p, i, k) ==>
          ReadResult(states[i], order[p], k) == SerialValue(states, calls, order[..p], k))
    && (forall k :: CurrentValue(states[|calls|], k) == SerialValue(states, calls, order, k))
  }

  ghost predicate Serializable(states: seq<Db>, calls: seq<Call>)
    requires Run(states, calls)
  {
    exists order :: SerialOrder(states, calls, order)
  }

  // ---------------------------------------------------------------- the two tests

  /** The test that `write` does not make: nobody else has committed a version of k since t's snapshot. */
  predicate WriteFresh(d: Db, t: TxnId, k: Key) {
    t in d.txns ==>
      forall v :: v in VersionsOf(d, k) && v.writer != t && v.ts != PENDING ==> v.ts <= d.txns[t].snapshotTs
  }

  /** The test that `read` does not make: the call does not come upon a committed transaction that has
      itself read behind somebody. */
  predicate ReadUncaught(d: Db, c: Call) {
    forall w :: w in d.txns ==> !CaughtBetween(d, c, w)
  }

  ghost predicate WritesFresh(states: seq<Db>, calls: seq<Call>)
    requires Run(states, calls)
  {
    forall j: nat, t, k :: WritesAt(states, calls, t, k, j) && Durable(states, calls, t) ==> WriteFresh(states[j], t, k)
  }

  ghost predicate ReadsUncaught(states: seq<Db>, calls: seq<Call>)
    requires Run(states, calls)
  {
    forall i: nat, t, k :: ReadsAt(states, calls, t, k, i) && Durable(states, calls, t) ==>
      ReadUncaught(states[i], calls[i])
  }

  // ---------------------------------------------------------------- what becomes of a transaction

  /** From one moment to a later one. */
  ghost predicate Evolves(x: Txn, x': Txn) {
    && x'.snapshotTs == x.snapshotTs && x.writeSet <= x'.writeSet
    && (x.inConflict ==> x'.inConflict) && (x.outConflict ==> x'.outConflict)
    && (x.status != Active ==> x'.status == x.status)
    && (x.status == Committed ==> x'.outConflict == x.outConflict)
  }

  lemma StepEvolves(d: Db, c: Call, t: TxnId)
    requires t in d.txns && t != d.nextTxn
    ensures t in SnapshotRefinement.Store(d, c).txns && Evolves(d.txns[t], SnapshotRefinement.Store(d, c).txns[t])
  {
  }

  lemma StepStarts(d: Db, c: Call, t: TxnId)
    requires t !in d.txns && t in SnapshotRefinement.Store(d, c).txns
    ensures c == CallBegin && t == d.nextTxn
  {
  }

  lemma StepCommits(d: Db, c: Call, t: TxnId)
    requires !HasCommitted(d, t) && HasCommitted(SnapshotRefinement.Store(d, c), t)
    ensures c == CallCommit(t) && CommitAllowed(d, t)
  {
  }

  lemma Fresh(states: seq<Db>, calls: seq<Call>, m: nat, t: TxnId)
    requires Run(states, calls) && m <= |calls| && t in states[m].txns
    ensures t < states[m].nextTxn && states[m].txns[t].snapshotTs < states[m].timestamp
  {
    RunCopies(states, calls, m);
    assert ClockOk(states[m], t);
  }

  lemma {:induction false} RunEvolves(states: seq<Db>, calls: seq<Call>, m: nat, n: nat, t: TxnId)
    requires Run(states, calls) && m <= n <= |calls| && t in states[m].txns
    ensures t in states[n].txns && Evolves(states[m].txns[t], states[n].txns[t])
    decreases n
  {
    if m < n {
      RunEvolves(states, calls, m, n - 1, t);
      Fresh(states, calls, n - 1, t);
      StepEvolves(states[n - 1], calls[n - 1], t);
    }
  }

  lemma {:induction false} BeginExists(states: seq<Db>, calls: seq<Call>, n: nat, t: TxnId) returns (b: nat)
    requires Run(states, calls) && n <= |calls| && t in states[n].txns
    ensures b < n && BeganAt(states, calls, t, b)
  {
    if t in states[n - 1].txns {
      b := BeginExists(states, calls, n - 1, t);
    } else {
      StepStarts(states[n - 1], calls[n - 1], t);
      b := n - 1;
    }
  }

  lemma {:induction false} CommitExists(states: seq<Db>, calls: seq<Call>, n: nat, t: TxnId) returns (c: nat)
    requires Run(states, calls) && n <= |calls| && HasCommitted(states[n], t)
    ensures c < n && CommitsAt(states, calls, t, c)
  {
    if HasCommitted(states[n - 1], t) {
      c := CommitExists(states, calls, n - 1, t);
    } else {
      StepCommits(states[n - 1], calls[n - 1], t);
      c := n - 1;
    }
  }

  /** Transaction t begins with call b and commits with call c. */
  ghost predicate Span(states: seq<Db>, calls: seq<Call>, t: TxnId, b: nat, c: nat)
    requires Run(states, calls)
  {
    && b < c < |calls| && BeganAt(states, calls, t, b) && CommitsAt(states, calls, t, c)
    && (forall m: nat :: m <= b ==> t !in states[m].txns)
    && (forall m: nat :: b < m <= c ==> IsActive(states[m], t) && states[m].txns[t].snapshotTs == states[b].timestamp)
    && (forall m: nat :: c < m <= |calls| ==> HasCommitted(states[m], t))
  }

  lemma NotBefore(states: seq<Db>, calls: seq<Call>, t: TxnId, b: nat, m: nat)
    requires Run(states, calls) && BeganAt(states, calls, t, b) && m <= b
    ensures t !in states[m].txns
  {
    if t in states[m].txns {
      RunEvolves(states, calls, m, b, t);
      Fresh(states, calls, b, t);
      assert false;
    }
  }

  lemma ActiveBetween(states: seq<Db>, calls: seq<Call>, t: TxnId, b: nat, c: nat, m: nat)
    requires Run(states, calls) && BeganAt(states, calls, t, b) && CommitsAt(states, calls, t, c) && b < m <= c
    ensures IsActive(states[m], t) && states[m].txns[t].snapshotTs == states[b].timestamp
  {
    assert states[b + 1] == BeginDb(states[b]);
    RunEvolves(states, calls, b + 1, m, t);
    RunEvolves(states, calls, m, c, t);
  }

  lemma CommittedAfter(states: seq<Db>, calls: seq<Call>, t: TxnId, c: nat, m: nat)
    requires Run(states, calls) && CommitsAt(states, calls, t, c) && c < m <= |calls|
    ensures HasCommitted(states[m], t)
  {
    assert states[c + 1] == CommitDb(states[c], t);
    RunEvolves(states, calls, c + 1, m, t);
  }

  lemma HasSpan(states: seq<Db>, calls: seq<Call>, t: TxnId) returns (b: nat, c: nat)
    requires Run(states, calls) && Durable(states, calls, t)
    ensures Span(states, calls, t, b, c)
  {
    b := BeginExists(states, calls, |calls|, t);
    c := CommitExists(states, calls, |calls|, t);
    if c <= b {
      NotBefore(states, calls, t, b, c);
      assert false;
    }
    forall m: nat | m <= b ensures t !in states[m].txns { NotBefore(states, calls, t, b, m); }
    forall m: nat | b < m <= c
      ensures IsActive(states[m], t) && states[m].txns[t].snapshotTs == states[b].timestamp
    {
      ActiveBetween(states, calls, t, b, c, m);
    }
    forall m: nat | c < m <= |calls| ensures HasCommitted(states[m], t) { CommittedAfter(states, calls, t, c, m); }
  }

  lemma SpanExists(states: seq<Db>, calls: seq<Call>, t: TxnId)
    requires Run(states, calls) && Durable(states, calls, t)
    ensures exists p: (nat, nat) :: Span(states, calls, t, p.0, p.1)
  {
    var b, c := HasSpan(states, calls, t);
    assert Span(states, calls, t, (b, c).0, (b, c).1);
  }

  ghost function SpanOf(states: seq<Db>, calls: seq<Call>, t: TxnId): (p: (nat, nat))
    requires Run(states, calls) && Durable(states, calls, t)
    ensures Span(states, calls, t, p.0, p.1)
  {
    SpanExists(states, calls, t);
    var p: (nat, nat) :| Span(states, calls, t, p.0, p.1);
    p
  }

  ghost function BeginOf(states: seq<Db>, calls: seq<Call>, t: TxnId): nat
    requires Run(states, calls) && Durable(states, calls, t)
  {
    SpanOf(states, calls, t).0
  }

  ghost function CommitOf(states: seq<Db>, calls: seq<Call>, t: TxnId): nat
    requires Run(states, calls) && Durable(states, calls, t)
  {
    SpanOf(states, calls, t).1
  }

  /** The span of a committed transaction, its only one. */
  lemma Lives(states: seq<Db>, calls: seq<Call>, t: TxnId)
    requires Run(states, calls) && Durable(states, calls, t)
    ensures Span(states, calls, t, BeginOf(states, calls, t), CommitOf(states, calls, t))
  {
  }

  lemma OneCommit(states: seq<Db>, calls: seq<Call>, t: TxnId, c: nat)
    requires Run(states, calls) && CommitsAt(states, calls, t, c)
    ensures Durable(states, calls, t) && CommitOf(states, calls, t) == c
  {
    CommittedAfter(states, calls, t, c, |calls|);
    Lives(states, calls, t);
    var c' := CommitOf(states, calls, t);
    if c < c' {
      CommittedAfter(states, calls, t, c, c');
    }
  }

  ghost function Rank(states: seq<Db>, calls: seq<Call>, t: TxnId): nat
    requires Run(states, calls) && Durable(states, calls, t)
  {
    if states[|calls|].txns[t].outConflict then BeginOf(states, calls, t) else CommitOf(states, calls, t)
  }

  lemma RankBounds(states: seq<Db>, calls: seq<Call>, t: TxnId)
    requires Run(states, calls) && Durable(states, calls, t)
    ensures BeginOf(states, calls, t) <= Rank(states, calls, t) <= CommitOf(states, calls, t) < |calls|
    ensures BeginOf(states, calls, t) < CommitOf(states, calls, t)
  {
    Lives(states, calls, t);
  }

  ghost function Ranks(states: seq<Db>, calls: seq<Call>): map<TxnId, nat>
    requires Run(states, calls)
  {
    map t | t in states[|calls|].txns && Durable(states, calls, t) :: Rank(states, calls, t)
  }

  /** The call at which a transaction stands is its own begin or its own commit. */
  lemma RankOwner(states: seq<Db>, calls: seq<Call>, t: TxnId)
    requires Run(states, calls) && Durable(states, calls, t)
    ensures var r := Rank(states, calls, t);
            r < |calls| && ((calls[r] == CallBegin && states[r].nextTxn == t) || calls[r] == CallCommit(t))
  {
    Lives(states, calls, t);
  }

  lemma RanksDistinct(states: seq<Db>, calls: seq<Call>)
    requires Run(states, calls)
    ensures Distinct(Ranks(states, calls))
  {
    forall t, u | t in Ranks(states, calls) && u in Ranks(states, calls) && t != u
      ensures Ranks(states, calls)[t] != Ranks(states, calls)[u]
    {
      RankOwner(states, calls, t);
      RankOwner(states, calls, u);
    }
  }

  // ---------------------------------------------------------------- calls, clocks and versions

  /** Whatever a committed transaction does, it does between its begin and its commit. */
  lemma WithinSpan(states: seq<Db>, calls: seq<Call>, t: TxnId, i: nat)
    requires Run(states, calls) && Durable(states, calls, t) && i < |calls| && IsActive(states[i], t)
    ensures BeginOf(states, calls, t) < i <= CommitOf(states, calls, t)
  {
    Lives(states, calls, t);
  }

  lemma {:induction false} ClockGrows(states: seq<Db>, calls: seq<Call>, m: nat, n: nat)
    requires Run(states, calls) && m <= n <= |calls|
    ensures states[m].timestamp <= states[n].timestamp
    decreases n
  {
    if m < n {
      ClockGrows(states, calls, m, n - 1);
      assert states[n] == SnapshotRefinement.Store(states[n - 1], calls[n - 1]);
    }
  }

  /** The clock tells whether u committed before t began. */
  lemma ClockTells(states: seq<Db>, calls: seq<Call>, u: TxnId, t: TxnId)
    requires Run(states, calls) && Durable(states, calls, u) && Durable(states, calls, t)
    ensures var c, b := CommitOf(states, calls, u), BeginOf(states, calls, t);
            && c < |calls| && b < |calls| && c != b
            && (c < b ==> states[c].timestamp < states[b].timestamp)
            && (b < c ==> states[b].timestamp < states[c].timestamp)
  {
    Lives(states, calls, u);
    Lives(states, calls, t);
    var c, b := CommitOf(states, calls, u), BeginOf(states, calls, t);
    if c < b {
      assert states[c + 1] == CommitDb(states[c], u);
      ClockGrows(states, calls, c + 1, b);
    } else if b < c {
      assert states[b + 1] == BeginDb(states[b]);
      ClockGrows(states, calls, b + 1, c);
    }
  }

  ghost predicate HasVersion(d: Db, k: Key, u: TxnId, ts: nat) {
    exists v :: v in VersionsOf(d, k) && v.writer == u && v.ts == ts
  }

  lemma SettledKeeps(vs: seq<Version>, v: Version)
    requires v in vs && v.ts != PENDING
    ensures v in Settled(vs)
  {
  }

  /** A committed version is never dropped or changed. */
  lemma StepKeepsVersion(d: Db, c: Call, k: Key, v: Version)
    requires Ok(d) && d.timestamp < PENDING && v in VersionsOf(d, k) && v.ts != PENDING
    ensures v in VersionsOf(SnapshotRefinement.Store(d, c), k)
  {
    SettledKeeps(VersionsOf(d, k), v);
    match c
    case CallBegin =>
    case CallRead(_, _) =>
    case CallWrite(t, j, x) => if WriteAllowed(d, t, j) { WriteList(d, t, j, x); }
    case CallCommit(t) =>
      if CommitAllowed(d, t) {
        CommitList(d, t, k);
      } else if IsActive(d, t) {
        DiscardList(d, t, k);
      }
    case CallAbort(t) => if IsActive(d, t) { DiscardList(d, t, k); }
  }

  lemma {:induction false} KeepsVersion(states: seq<Db>, calls: seq<Call>, m: nat, n: nat, k: Key, v: Version)
    requires Run(states, calls) && m <= n <= |calls| && v in VersionsOf(states[m], k) && v.ts != PENDING
    ensures v in VersionsOf(states[n], k)
    decreases n
  {
    if m < n {
      KeepsVersion(states, calls, m, n - 1, k, v);
      RunCopies(states, calls, n - 1);
      StepKeepsVersion(states[n - 1], calls[n - 1], k, v);
    }
  }

  /** A key that an active transaction has written has its pending version in front. */
  lemma PendingVersion(states: seq<Db>, calls: seq<Call>, u: TxnId, k: Key, j: nat, m: nat)
    requires Run(states, calls) && WritesAt(states, calls, u, k, j) && j < m <= |calls| && IsActive(states[m], u)
    ensures PendingInFront(states[m], u, k) && OwnsLock(states[m], u, k)
  {
    assert states[j + 1] == WriteDb(states[j], u, k, calls[j].v);
    RunEvolves(states, calls, j + 1, m, u);
    RunCopies(states, calls, m);
    assert LockOk(states[m], u, k);
  }

  /** A committed transaction's version of a key, after its write: pending until the commit, then stamped
      with the clock of the commit. */
  lemma VersionAfter(states: seq<Db>, calls: seq<Call>, u: TxnId, k: Key, j: nat, m: nat)
    requires Run(states, calls) && Durable(states, calls, u) && WritesAt(states, calls, u, k, j) && j < m <= |calls|
    ensures var c := CommitOf(states, calls, u);
            c < |calls| && HasVersion(states[m], k, u, if m <= c then PENDING else states[c].timestamp)
  {
    Lives(states, calls, u);
    WithinSpan(states, calls, u, j);
    var c := CommitOf(states, calls, u);
    if m <= c {
      PendingVersion(states, calls, u, k, j, m);
      assert VersionsOf(states[m], k)[0] in VersionsOf(states[m], k);
    } else {
      StampedVersion(states, calls, u, k, j, c);
      var v :| v in VersionsOf(states[c + 1], k) && v.writer == u && v.ts == states[c].timestamp;
      KeepsVersion(states, calls, c + 1, m, k, v);
    }
  }

  lemma StampedVersion(states: seq<Db>, calls: seq<Call>, u: TxnId, k: Key, j: nat, c: nat)
    requires Run(states, calls) && WritesAt(states, calls, u, k, j) && CommitsAt(states, calls, u, c) && j < c
    ensures HasVersion(states[c + 1], k, u, states[c].timestamp)
  {
    PendingVersion(states, calls, u, k, j, c);
    RunCopies(states, calls, c);
    assert states[c + 1] == CommitDb(states[c], u);
    CommitList(states[c], u, k);
    var vs := VersionsOf(states[c], k);
    var v := vs[0].(ts := states[c].timestamp);
    assert ([v] + Settled(vs))[0] == v;
  }

  // ---------------------------------------------------------------- ranks respect the conflicts

  /** Two committed writers of one key: one has committed before the other began. */
  lemma WritersApart(states: seq<Db>, calls: seq<Call>, u: TxnId, t: TxnId, k: Key, i: nat, j: nat)
    requires Run(states, calls) && WritesFresh(states, calls) && u != t && i < j
    requires Durable(states, calls, u) && Durable(states, calls, t)
    requires WritesAt(states, calls, u, k, i) && WritesAt(states, calls, t, k, j)
    ensures CommitOf(states, calls, u) < BeginOf(states, calls, t)
  {
    WithinSpan(states, calls, u, i);
    WithinSpan(states, calls, t, j);
    Lives(states, calls, u);
    Lives(states, calls, t);
    var c := CommitOf(states, calls, u);
    if IsActive(states[j], u) {
      PendingVersion(states, calls, u, k, i, j);
      assert false;
    }
    VersionAfter(states, calls, u, k, i, j);
    Fresh(states, calls, c, u);
    assert WriteFresh(states[j], t, k);
    ClockTells(states, calls, u, t);
  }

  lemma WritersOrdered(states: seq<Db>, calls: seq<Call>, u: TxnId, t: TxnId, k: Key, i: nat, j: nat)
    requires Run(states, calls) && WritesFresh(states, calls) && u != t
    requires Durable(states, calls, u) && Durable(states, calls, t)
    requires WritesAt(states, calls, u, k, i) && WritesAt(states, calls, t, k, j)
    ensures CommitOf(states, calls, u) < BeginOf(states, calls, t)
            || CommitOf(states, calls, t) < BeginOf(states, calls, u)
  {
    if i < j {
      WritersApart(states, calls, u, t, k, i, j);
    } else if j < i {
      WritersApart(states, calls, t, u, k, j, i);
    }
  }

  /** Whoever had an incoming conflict before its commit has no outgoing one. */
  lemma IncomingStands(states: seq<Db>, calls: seq<Call>, u: TxnId, m: nat)
    requires Run(states, calls) && Durable(states, calls, u) && m <= CommitOf(states, calls, u)
    requires u in states[m].txns && states[m].txns[u].inConflict
    ensures Rank(states, calls, u) == CommitOf(states, calls, u)
  {
    Lives(states, calls, u);
    var c := CommitOf(states, calls, u);
    RunEvolves(states, calls, m, c, u);
    assert states[c + 1] == CommitDb(states[c], u);
    RunEvolves(states, calls, c + 1, |calls|, u);
  }

  lemma OutgoingStands(states: seq<Db>, calls: seq<Call>, t: TxnId, m: nat)
    requires Run(states, calls) && Durable(states, calls, t) && m <= |calls|
    requires t in states[m].txns && states[m].txns[t].outConflict
    ensures Rank(states, calls, t) == BeginOf(states, calls, t)
  {
    RunEvolves(states, calls, m, |calls|, t);
  }

  lemma ReadFlags(d: Db, t: TxnId, u: TxnId, k: Key, ts: nat)
    requires IsActive(d, t) && u != t && Running(d, u) && HasVersion(d, k, u, ts) && ts > d.txns[t].snapshotTs
    ensures ReadsBehind(d, CallRead(t, k), u)
    ensures var d' := ReadDb(d, t, k);
            && t in d'.txns && d'.txns[t].outConflict && u in d'.txns && d'.txns[u].inConflict
  {
    var v :| v in VersionsOf(d, k) && v.writer == u && v.ts == ts;
    assert u in NewerWriters(d, t, k, d.txns[t].snapshotTs);
  }

  /** A read past a newer write: the reader stands at its begin, the writer at its commit. */
  lemma ReadPastWrite(states: seq<Db>, calls: seq<Call>, t: TxnId, u: TxnId, k: Key, i: nat, j: nat)
    requires Run(states, calls) && ReadsUncaught(states, calls) && u != t && j < i
    requires Durable(states, calls, t) && Durable(states, calls, u)
    requires ReadsAt(states, calls, t, k, i) && WritesAt(states, calls, u, k, j)
    requires BeginOf(states, calls, t) < CommitOf(states, calls, u)
    ensures Rank(states, calls, t) == BeginOf(states, calls, t) && Rank(states, calls, u) == CommitOf(states, calls, u)
  {
    Lives(states, calls, t);
    Lives(states, calls, u);
    WithinSpan(states, calls, t, i);
    WithinSpan(states, calls, u, j);
    VersionAfter(states, calls, u, k, j, i);
    ClockTells(states, calls, u, t);
    var c := CommitOf(states, calls, u);
    var ts := if i <= c then PENDING else states[c].timestamp;
    ReadFlags(states[i], t, u, k, ts);
    assert states[i + 1] == ReadDb(states[i], t, k);
    OutgoingStands(states, calls, t, i + 1);
    if i < c {
      IncomingStands(states, calls, u, i + 1);
    } else {
      assert ReadUncaught(states[i], calls[i]) && HasCommitted(states[i], u);
      RunEvolves(states, calls, i, |calls|, u);
    }
  }

  ghost predicate Remembered(d: Db, t: TxnId, k: Key) {
    k in d.sireads && t in d.sireads[k]
  }

  lemma {:induction false} StaysRemembered(states: seq<Db>, calls: seq<Call>, t: TxnId, k: Key, i: nat, m: nat)
    requires Run(states, calls) && Durable(states, calls, t) && ReadsAt(states, calls, t, k, i) && i < m <= |calls|
    ensures Remembered(states[m], t, k)
    decreases m
  {
    assert states[m] == SnapshotRefinement.Store(states[m - 1], calls[m - 1]);
    if m > i + 1 {
      StaysRemembered(states, calls, t, k, i, m - 1);
      if calls[m - 1] == CallAbort(t) {
        NeverAborts(states, calls, t, m - 1);
      }
    }
  }

  lemma NeverAborts(states: seq<Db>, calls: seq<Call>, t: TxnId, m: nat)
    requires Run(states, calls) && Durable(states, calls, t) && m < |calls| && calls[m] == CallAbort(t)
    ensures !IsActive(states[m], t)
  {
    Lives(states, calls, t);
    if IsActive(states[m], t) {
      WithinSpan(states, calls, t, m);
      assert states[m + 1] == AbortDb(states[m], t);
      RunEvolves(states, calls, m + 1, |calls|, t);
      assert false;
    }
  }

  lemma WriteFlags(d: Db, t: TxnId, u: TxnId, k: Key, v: Value)
    requires WriteAllowed(d, u, k) && u != t && Running(d, t) && Remembered(d, t, k)
    ensures var d' := WriteDb(d, u, k, v);
            && u in d'.txns && d'.txns[u].inConflict && t in d'.txns
            && (IsActive(d, t) ==> d'.txns[t].outConflict)
  {
    assert t in ConcurrentReaders(d, u, k);
  }

  /** A write after a read: the writer stands at its commit, the reader below it. */
  lemma WriteAfterRead(states: seq<Db>, calls: seq<Call>, t: TxnId, u: TxnId, k: Key, i: nat, j: nat)
    requires Run(states, calls) && u != t && i < j
    requires Durable(states, calls, t) && Durable(states, calls, u)
    requires ReadsAt(states, calls, t, k, i) && WritesAt(states, calls, u, k, j)
    ensures Rank(states, calls, t) < Rank(states, calls, u)
  {
    Lives(states, calls, t);
    Lives(states, calls, u);
    WithinSpan(states, calls, t, i);
    WithinSpan(states, calls, u, j);
    StaysRemembered(states, calls, t, k, i, j);
    WriteFlags(states[j], t, u, k, calls[j].v);
    assert states[j + 1] == WriteDb(states[j], u, k, calls[j].v);
    IncomingStands(states, calls, u, j + 1);
    RankBounds(states, calls, t);
    if IsActive(states[j], t) {
      OutgoingStands(states, calls, t, j + 1);
    }
  }

  /** Anti-dependency: a reader that began before a writer of the key committed ranks below it. */
  lemma ReadBeforeWrite(states: seq<Db>, calls: seq<Call>, t: TxnId, u: TxnId, k: Key, i: nat, j: nat)
    requires Run(states, calls) && ReadsUncaught(states, calls) && u != t
    requires Durable(states, calls, t) && Durable(states, calls, u)
    requires ReadsAt(states, calls, t, k, i) && WritesAt(states, calls, u, k, j)
    requires BeginOf(states, calls, t) < CommitOf(states, calls, u)
    ensures Rank(states, calls, t) < Rank(states, calls, u)
  {
    if j < i {
      ReadPastWrite(states, calls, t, u, k, i, j);
    } else {
      WriteAfterRead(states, calls, t, u, k, i, j);
    }
  }

  // ---------------------------------------------------------------- contents by commits

  /** The value of k that the last commit among the first m calls has left. */
  ghost function CommittedValue(states: seq<Db>, calls: seq<Call>, m: nat, k: Key): Option<Value>
    requires Run(states, calls) && m <= |calls|
  {
    if m == 0 then None
    else if LeavesAt(states, calls, m - 1, k) then LastWrite(states, calls, m - 1, calls[m - 1].t, k)
    else CommittedValue(states, calls, m - 1, k)
  }

  /** Call c is a commit of a transaction that has written k. */
  ghost predicate LeavesAt(states: seq<Db>, calls: seq<Call>, c: nat, k: Key)
    requires Run(states, calls)
  {
    c < |calls| && calls[c].CallCommit? && CommitAllowed(states[c], calls[c].t)
    && LastWrite(states, calls, c, calls[c].t, k).Some?
  }

  lemma {:induction false} WroteAt(states: seq<Db>, calls: seq<Call>, m: nat, t: TxnId, k: Key) returns (j: nat)
    requires Run(states, calls) && m <= |calls| && LastWrite(states, calls, m, t, k).Some?
    ensures j < m && WritesAt(states, calls, t, k, j)
  {
    if WritesAt(states, calls, t, k, m - 1) {
      j := m - 1;
    } else {
      j := WroteAt(states, calls, m - 1, t, k);
    }
  }

  /** What one call does to a transaction's private buffer and to the committed contents. */
  lemma BufferStep(d: Db, m: Model, c: Call, t: TxnId, k: Key)
    requires c.CallWrite? ==> (WriteAllowed(d, c.t, c.k) <==> MayWrite(m, c.t, c.k))
    requires t in Copy(d, m, c).buffers
    ensures c.CallWrite? && c.t == t && c.k == k && WriteAllowed(d, t, k) ==>
              Get(Copy(d, m, c).buffers[t], k) == Some(c.v)
    ensures !(c.CallWrite? && c.t == t && c.k == k && WriteAllowed(d, t, k)) ==>
              Get(Copy(d, m, c).buffers[t], k)
                == if (c == CallBegin && t == d.nextTxn) || t !in m.buffers then None else Get(m.buffers[t], k)
  {
  }

  lemma {:induction false} BufferIsWrites(states: seq<Db>, calls: seq<Call>, m: nat, t: TxnId, k: Key)
    requires Run(states, calls) && m <= |calls| && t in ModelAt(states, calls, m).buffers
    ensures Get(ModelAt(states, calls, m).buffers[t], k) == LastWrite(states, calls, m, t, k)
  {
    if m > 0 {
      var d, before, c := states[m - 1], ModelAt(states, calls, m - 1), calls[m - 1];
      RunCopies(states, calls, m - 1);
      if c.CallWrite? {
        WriteDecided(d, before, c.t, c.k);
      }
      BufferStep(d, before, c, t, k);
      if c == CallBegin && t == d.nextTxn {
        assert ClockOk(d, t);
        NothingYet(states, calls, m - 1, t, k);
      } else if t in before.buffers {
        BufferIsWrites(states, calls, m - 1, t, k);
      }
    }
  }

  lemma {:induction false} NothingYet(states: seq<Db>, calls: seq<Call>, m: nat, t: TxnId, k: Key)
    requires Run(states, calls) && m <= |calls| && t !in states[m].txns
    ensures LastWrite(states, calls, m, t, k) == None
  {
    if LastWrite(states, calls, m, t, k).Some? {
      var j := WroteAt(states, calls, m, t, k);
      RunEvolves(states, calls, j, m, t);
      assert false;
    }
  }

  lemma CurrentStep(d: Db, m: Model, c: Call, k: Key)
    ensures Get(Copy(d, m, c).current, k)
         == if c.CallCommit? && c.t in m.active && c.t in m.buffers && !IsPivot(d, c.t) && k in m.buffers[c.t]
            then Get(m.buffers[c.t], k) else Get(m.current, k)
  {
  }

  lemma {:induction false} CurrentIsCommitted(states: seq<Db>, calls: seq<Call>, m: nat, k: Key)
    requires Run(states, calls) && m <= |calls|
    ensures CurrentValue(states[m], k) == CommittedValue(states, calls, m, k)
  {
    CurrentIsLastCommitted(states, calls, m, k);
    if m > 0 {
      var d, before, c := states[m - 1], ModelAt(states, calls, m - 1), calls[m - 1];
      CurrentIsCommitted(states, calls, m - 1, k);
      CurrentIsLastCommitted(states, calls, m - 1, k);
      RunCopies(states, calls, m - 1);
      CurrentStep(d, before, c, k);
      if c.CallCommit? {
        CommitDecided(d, before, c.t);
        if CommitAllowed(d, c.t) {
          BufferIsWrites(states, calls, m - 1, c.t, k);
        }
      }
    } else {
      assert states[0] == EMPTY;
    }
  }

  /** The last commit among the first m calls that leaves a value of k, if there is one. */
  lemma {:induction false} LastLeaves(states: seq<Db>, calls: seq<Call>, m: nat, k: Key) returns (last: Option<nat>)
    requires Run(states, calls) && m <= |calls|
    ensures match last
            case None => CommittedValue(states, calls, m, k) == None
                         && forall c: nat :: c < m ==> !LeavesAt(states, calls, c, k)
            case Some(c) => c < m && LeavesAt(states, calls, c, k)
                            && CommittedValue(states, calls, m, k) == LastWrite(states, calls, c, calls[c].t, k)
                            && forall c': nat :: c < c' < m ==> !LeavesAt(states, calls, c', k)
  {
    if m == 0 {
      last := None;
    } else if LeavesAt(states, calls, m - 1, k) {
      last := Some(m - 1);
    } else {
      last := LastLeaves(states, calls, m - 1, k);
    }
  }

  /** Nothing is written after the commit. */
  lemma {:induction false} WrittenByCommit(states: seq<Db>, calls: seq<Call>, t: TxnId, k: Key, m: nat)
    requires Run(states, calls) && Durable(states, calls, t) && CommitOf(states, calls, t) <= m <= |calls|
    ensures CommitOf(states, calls, t) < |calls|
    ensures LastWrite(states, calls, m, t, k) == LastWrite(states, calls, CommitOf(states, calls, t), t, k)
  {
    Lives(states, calls, t);
    var c := CommitOf(states, calls, t);
    if m > c {
      if WritesAt(states, calls, t, k, m - 1) {
        WithinSpan(states, calls, t, m - 1);
      }
      WrittenByCommit(states, calls, t, k, m - 1);
    }
  }

  ghost predicate Writer(states: seq<Db>, calls: seq<Call>, t: TxnId, k: Key)
    requires Run(states, calls)
  {
    Durable(states, calls, t) && LastWrite(states, calls, |calls|, t, k).Some?
  }

  /** A committed transaction leaves a value of k at its commit exactly if it has written k. */
  lemma LeavesIfWriter(states: seq<Db>, calls: seq<Call>, t: TxnId, k: Key)
    requires Run(states, calls) && Durable(states, calls, t)
    ensures Writer(states, calls, t, k) <==> LeavesAt(states, calls, CommitOf(states, calls, t), k)
    ensures var c := CommitOf(states, calls, t);
            c < |calls| && calls[c] == CallCommit(t)
            && LastWrite(states, calls, c, t, k) == LastWrite(states, calls, |calls|, t, k)
  {
    Lives(states, calls, t);
    WrittenByCommit(states, calls, t, k, |calls|);
  }

  lemma Leaver(states: seq<Db>, calls: seq<Call>, c: nat, k: Key)
    requires Run(states, calls) && LeavesAt(states, calls, c, k)
    ensures var t := calls[c].t;
            Durable(states, calls, t) && CommitOf(states, calls, t) == c && Writer(states, calls, t, k)
  {
    assert CommitsAt(states, calls, calls[c].t, c);
    OneCommit(states, calls, calls[c].t, c);
    LeavesIfWriter(states, calls, calls[c].t, k);
  }

  // ---------------------------------------------------------------- the serial order

  /** The first p of the order that have written k are those that have committed before call m. */
  ghost predicate Covers(states: seq<Db>, calls: seq<Call>, order: seq<TxnId>, p: nat, k: Key, m: nat)
    requires Run(states, calls)
  {
    && p <= |order| && m <= |calls|
    && forall t :: Writer(states, calls, t, k) ==> (t in order[..p] <==> CommitOf(states, calls, t) < m)
  }

  ghost predicate Ordered(states: seq<Db>, calls: seq<Call>, order: seq<TxnId>)
    requires Run(states, calls)
  {
    Ranked(Ranks(states, calls), order)
  }

  lemma {:induction false} NoSerialValue(states: seq<Db>, calls: seq<Call>, order: seq<TxnId>, k: Key)
    requires Run(states, calls)
    requires forall q :: 0 <= q < |order| ==> LastWrite(states, calls, |calls|, order[q], k) == None
    ensures SerialValue(states, calls, order, k) == None
  {
    if order != [] {
      NoSerialValue(states, calls, order[..|order| - 1], k);
    }
  }

  lemma {:induction false} SerialValueIsLast(states: seq<Db>, calls: seq<Call>, order: seq<TxnId>, k: Key, p: nat)
    requires Run(states, calls) && p < |order| && LastWrite(states, calls, |calls|, order[p], k).Some?
    requires forall q :: p < q < |order| ==> LastWrite(states, calls, |calls|, order[q], k) == None
    ensures SerialValue(states, calls, order, k) == LastWrite(states, calls, |calls|, order[p], k)
  {
    if p < |order| - 1 {
      SerialValueIsLast(states, calls, order[..|order| - 1], k, p);
    }
  }

  lemma MemberDurable(states: seq<Db>, calls: seq<Call>, order: seq<TxnId>, q: nat)
    requires Run(states, calls) && Ordered(states, calls, order) && q < |order|
    ensures Durable(states, calls, order[q]) && Ranks(states, calls)[order[q]] == Rank(states, calls, order[q])
  {
    assert order[q] in Ranks(states, calls);
  }

  lemma PlaceOf(states: seq<Db>, calls: seq<Call>, order: seq<TxnId>, t: TxnId) returns (q: nat)
    requires Run(states, calls) && Ordered(states, calls, order) && Durable(states, calls, t)
    ensures q < |order| && order[q] == t
  {
    assert t in Ranks(states, calls);
    q :| 0 <= q < |order| && order[q] == t;
  }

  /** Of two writers of a key the one with the higher place has committed later. */
  lemma LaterCommits(states: seq<Db>, calls: seq<Call>, order: seq<TxnId>, q: nat, r: nat, k: Key)
    requires Run(states, calls) && WritesFresh(states, calls) && Ordered(states, calls, order) && q < r < |order|
    requires Writer(states, calls, order[q], k) && Writer(states, calls, order[r], k)
    ensures CommitOf(states, calls, order[q]) < CommitOf(states, calls, order[r])
  {
    MemberDurable(states, calls, order, q);
    MemberDurable(states, calls, order, r);
    RankDecides(Ranks(states, calls), order, q, r);
    RankBounds(states, calls, order[q]);
    RankBounds(states, calls, order[r]);
    var i := WroteAt(states, calls, |calls|, order[q], k);
    var j := WroteAt(states, calls, |calls|, order[r], k);
    WritersOrdered(states, calls, order[q], order[r], k, i, j);
  }

  lemma CoveredMember(states: seq<Db>, calls: seq<Call>, order: seq<TxnId>, p: nat, k: Key, m: nat, r: nat)
    requires Run(states, calls) && Ordered(states, calls, order) && Covers(states, calls, order, p, k, m) && r < p
    requires LastWrite(states, calls, |calls|, order[r], k).Some?
    ensures Writer(states, calls, order[r], k) && CommitOf(states, calls, order[r]) < m
    ensures LeavesAt(states, calls, CommitOf(states, calls, order[r]), k)
  {
    MemberDurable(states, calls, order, r);
    assert order[..p][r] == order[r];
    LeavesIfWriter(states, calls, order[r], k);
  }

  /** Then they leave the value that the last commit before call m has left. */
  lemma SerialIsCommitted(states: seq<Db>, calls: seq<Call>, order: seq<TxnId>, p: nat, k: Key, m: nat)
    requires Run(states, calls) && WritesFresh(states, calls) && Ordered(states, calls, order)
    requires Covers(states, calls, order, p, k, m)
    ensures SerialValue(states, calls, order[..p], k) == CommittedValue(states, calls, m, k)
  {
    var last := LastLeaves(states, calls, m, k);
    match last
    case None =>
      forall r | 0 <= r < p
        ensures LastWrite(states, calls, |calls|, order[..p][r], k) == None
      {
        if LastWrite(states, calls, |calls|, order[r], k).Some? {
          CoveredMember(states, calls, order, p, k, m, r);
        }
      }
      NoSerialValue(states, calls, order[..p], k);
    case Some(c) =>
      Leaver(states, calls, c, k);
      LeavesIfWriter(states, calls, calls[c].t, k);
      assert calls[c].t in order[..p];
      var q: nat :| q < p && order[..p][q] == calls[c].t;
      forall r | q < r < p
        ensures LastWrite(states, calls, |calls|, order[..p][r], k) == None
      {
        if LastWrite(states, calls, |calls|, order[r], k).Some? {
          CoveredMember(states, calls, order, p, k, m, r);
          LaterCommits(states, calls, order, q, r, k);
        }
      }
      SerialValueIsLast(states, calls, order[..p], k, q);
  }

  /** Whoever has written a key stands before a reader of it exactly if it had committed before the
      reader began. */
  lemma WriterBeforeReader(states: seq<Db>, calls: seq<Call>, order: seq<TxnId>, p: nat, i: nat, k: Key, u: TxnId)
    requires Run(states, calls) && ReadsUncaught(states, calls) && Ordered(states, calls, order)
    requires ReadBy(states, calls, order, p, i, k) && Durable(states, calls, order[p])
    requires Writer(states, calls, u, k)
    ensures u in order[..p] <==> CommitOf(states, calls, u) < BeginOf(states, calls, order[p])
  {
    var t := order[p];
    var q := PlaceOf(states, calls, order, u);
    MemberDurable(states, calls, order, p);
    MemberDurable(states, calls, order, q);
    RankDecides(Ranks(states, calls), order, q, p);
    RankBounds(states, calls, t);
    RankBounds(states, calls, u);
    var j := WroteAt(states, calls, |calls|, u, k);
    if u == t {
      SelfUnread(states, calls, order, p, i, k);
    } else if BeginOf(states, calls, t) < CommitOf(states, calls, u) {
      ReadBeforeWrite(states, calls, t, u, k, i, j);
    } else {
      ClockTells(states, calls, u, t);
    }
    PlacedBefore(states, calls, order, p, q);
  }

  lemma PlacedBefore(states: seq<Db>, calls: seq<Call>, order: seq<TxnId>, p: nat, q: nat)
    requires Run(states, calls) && Ordered(states, calls, order) && p < |order| && q < |order|
    ensures order[q] in order[..p] <==> q < p
  {
    if q < p {
      assert order[..p][q] == order[q];
    }
    if order[q] in order[..p] {
      var r :| 0 <= r < p && order[..p][r] == order[q];
      RankDecides(Ranks(states, calls), order, r, q);
      RankDecides(Ranks(states, calls), order, q, r);
    }
  }

  /** A transaction does not stand before itself. */
  lemma SelfUnread(states: seq<Db>, calls: seq<Call>, order: seq<TxnId>, p: nat, i: nat, k: Key)
    requires Run(states, calls) && Ordered(states, calls, order) && p < |order| && Durable(states, calls, order[p])
    ensures order[p] !in order[..p] && !(CommitOf(states, calls, order[p]) < BeginOf(states, calls, order[p]))
  {
    PlacedBefore(states, calls, order, p, p);
    RankBounds(states, calls, order[p]);
  }

  lemma ReadIsSerial(states: seq<Db>, calls: seq<Call>, order: seq<TxnId>, p: nat, i: nat, k: Key)
    requires Run(states, calls) && WritesFresh(states, calls) && ReadsUncaught(states, calls)
    requires Ordered(states, calls, order) && ReadBy(states, calls, order, p, i, k)
    ensures ReadResult(states[i], order[p], k) == SerialValue(states, calls, order[..p], k)
  {
    var t := order[p];
    MemberDurable(states, calls, order, p);
    Lives(states, calls, t);
    WithinSpan(states, calls, t, i);
    var b := BeginOf(states, calls, t);
    ReadsSeeTheirSnapshot(states, calls, t, b, i, k);
    CurrentIsCommitted(states, calls, b, k);
    forall u | Writer(states, calls, u, k)
      ensures u in order[..p] <==> CommitOf(states, calls, u) < b
    {
      WriterBeforeReader(states, calls, order, p, i, k, u);
    }
    SerialIsCommitted(states, calls, order, p, k, b);
  }

  lemma ContentsAreSerial(states: seq<Db>, calls: seq<Call>, order: seq<TxnId>, k: Key)
    requires Run(states, calls) && WritesFresh(states, calls) && Ordered(states, calls, order)
    ensures CurrentValue(states[|calls|], k) == SerialValue(states, calls, order, k)
  {
    assert order[..|order|] == order;
    forall u | Writer(states, calls, u, k)
      ensures u in order[..|order|] <==> CommitOf(states, calls, u) < |calls|
    {
      var q := PlaceOf(states, calls, order, u);
      RankBounds(states, calls, u);
    }
    SerialIsCommitted(states, calls, order, |order|, k, |calls|);
    CurrentIsCommitted(states, calls, |calls|, k);
  }

  /** Serializability: if every write of a transaction that has committed was fresh, and no read of one came
      upon a committed transaction that had itself read behind somebody, then some serial order of the
      committed transactions explains all their reads and the contents at the end. */
  lemma SerializableIfFresh(states: seq<Db>, calls: seq<Call>)
    requires Run(states, calls) && WritesFresh(states, calls) && ReadsUncaught(states, calls)
    ensures Serializable(states, calls)
  {
    RanksDistinct(states, calls);
    var order := Order(Ranks(states, calls));
    forall p: nat, i: nat, k | ReadBy(states, calls, order, p, i, k)
      ensures ReadResult(states[i], order[p], k) == SerialValue(states, calls, order[..p], k)
    {
      ReadIsSerial(states, calls, order, p, i, k);
    }
    forall k
      ensures CurrentValue(states[|calls|], k) == SerialValue(states, calls, order, k)
    {
      ContentsAreSerial(states, calls, order, k);
    }
    assert SerialOrder(states, calls, order);
  }
}
