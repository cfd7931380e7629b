/** Version lists are snapshots. */
module SnapshotRefinement {
  /* The version lists of `SsiStore` refine a copy of the database at every begin. `Model` is a database
     that copies itself whole at every begin: the committed contents, one private copy per transaction
     taken when it began, and one write buffer per transaction. `Copies` relates the two, and every
     operation of the store is shown to be the corresponding operation of the model. */

  import opened Options
  import opened SsiStore

  datatype Model = Model(
    active: set<TxnId>,
    current: map<Key, Value>,
    snapshots: map<TxnId, map<Key, Value>>,
    buffers: map<TxnId, map<Key, Value>>)

  datatype Call =
    | CallBegin
    | CallRead(t: TxnId, k: Key)
    | CallWrite(t: TxnId, k: Key, v: Value)
    | CallCommit(t: TxnId)
    | CallAbort(t: TxnId)

  function Get(m: map<Key, Value>, k: Key): Option<Value> {
    if k in m then Some(m[k]) else None
  }

  function Put(m: map<Key, Value>, k: Key, v: Value): map<Key, Value> {
    m[k := v]
  }

  // ---------------------------------------------------------------- the two machines

  function Store(d: Db, c: Call): Db {
    match c
    case CallBegin => BeginDb(d)
    case CallRead(t, k) => ReadDb(d, t, k)
    case CallWrite(t, k, v) => WriteDb(d, t, k, v)
    case CallCommit(t) => CommitDb(d, t)
    case CallAbort(t) => AbortDb(d, t)
  }

  predicate IsPivot(d: Db, t: TxnId) {
    t in d.txns && d.txns[t].inConflict && d.txns[t].outConflict
  }

  /** The model has no locks: a key is taken while it is in the buffer of somebody else who is active. */
  predicate MayWrite(m: Model, t: TxnId, k: Key) {
    t in m.active && t in m.buffers
    && forall u :: u in m.active && u != t && u in m.buffers ==> k !in m.buffers[u]
  }

  /** The model's operation; `d` only numbers the transactions and knows the pivots. */
  function Copy(d: Db, m: Model, c: Call): Model {
    match c
    case CallBegin =>
      m.(active := m.active + {d.nextTxn}, snapshots := m.snapshots[d.nextTxn := m.current],
         buffers := m.buffers[d.nextTxn := map[]])
    case CallRead(_, _) => m
    case CallWrite(t, k, v) => if MayWrite(m, t, k) then m.(buffers := m.buffers[t := Put(m.buffers[t], k, v)]) else m
    case CallCommit(t) =>
      m.(active := m.active - {t},
         current := if t in m.active && t in m.buffers && !IsPivot(d, t) then m.current + m.buffers[t] else m.current)
    case CallAbort(t) => m.(active := m.active - {t})
  }

  // ---------------------------------------------------------------- the invariant of the version lists

  predicate OwnsLock(d: Db, t: TxnId, k: Key) {
    k in d.writeLocks && d.writeLocks[k] == Some(t)
  }

  /** Newest first; committed versions are older than the clock; a pending version can only be the
      first, and its writer is active and holds the key's lock. */
  ghost predicate ListOk(d: Db, k: Key) {
    var vs := VersionsOf(d, k);
    && (forall i, j :: 0 <= i < j < |vs| ==> vs[i].ts > vs[j].ts)
    && (forall i :: 0 <= i < |vs| ==>
          if vs[i].ts == PENDING then i == 0 && IsActive(d, vs[i].writer) && OwnsLock(d, vs[i].writer, k)
          else vs[i].ts < d.timestamp && vs[i].writer in d.txns && d.txns[vs[i].writer].status == Committed)
  }

  predicate Wrote(d: Db, t: TxnId, k: Key) {
    IsActive(d, t) && k in d.txns[t].writeSet
  }

  ghost predicate PendingInFront(d: Db, t: TxnId, k: Key) {
    VersionsOf(d, k) != [] && VersionsOf(d, k)[0].ts == PENDING && VersionsOf(d, k)[0].writer == t
  }

  /** An active transaction owns exactly the locks of the keys it wrote, and each of those keys has
      its pending version in front. */
  ghost predicate LockOk(d: Db, t: TxnId, k: Key) {
    && (OwnsLock(d, t, k) <==> Wrote(d, t, k))
    && (Wrote(d, t, k) ==> PendingInFront(d, t, k))
  }

  ghost predicate ClockOk(d: Db, t: TxnId) {
    t in d.txns ==> t < d.nextTxn && d.txns[t].snapshotTs < d.timestamp
  }

  ghost predicate Ok(d: Db) {
    && d.timestamp <= PENDING
    && (forall k :: ListOk(d, k))
    && (forall t :: ClockOk(d, t))
    && (forall t, k :: LockOk(d, t, k))
  }

  /** The relation: same active transactions and, key by key, same committed contents, same private copies,
      same buffered writes. */
  ghost predicate SameCurrent(d: Db, m: Model, k: Key) {
    CurrentValue(d, k) == Get(m.current, k)
  }

  ghost predicate Known(d: Db, m: Model, t: TxnId) {
    t in d.txns ==> t in m.snapshots && t in m.buffers
  }

  ghost predicate SameSnapshot(d: Db, m: Model, t: TxnId, k: Key) {
    t in d.txns && t in m.snapshots ==>
      Visible(VersionsOf(d, k), d.txns[t].snapshotTs) == Get(m.snapshots[t], k)
  }

  ghost predicate SameBuffer(d: Db, m: Model, t: TxnId, k: Key) {
    t in m.buffers && IsActive(d, t) ==>
      && (k in m.buffers[t] <==> Wrote(d, t, k))
      && (k in m.buffers[t] && VersionsOf(d, k) != [] ==> m.buffers[t][k] == VersionsOf(d, k)[0].value)
  }

  ghost predicate SameActive(d: Db, m: Model, t: TxnId) {
    t in m.active <==> IsActive(d, t)
  }

  ghost predicate Copies(d: Db, m: Model) {
    && (forall t :: SameActive(d, m, t))
    && (forall k :: SameCurrent(d, m, k))
    && (forall t :: Known(d, m, t))
    && (forall t, k :: SameSnapshot(d, m, t, k))
    && (forall t, k :: SameBuffer(d, m, t, k))
  }

  // ---------------------------------------------------------------- lists

  lemma {:induction false} VisibleSame(vs: seq<Version>, a: nat, b: nat)
    requires forall i :: 0 <= i < |vs| ==> (VisibleAt(vs[i], a) <==> VisibleAt(vs[i], b))
    ensures Visible(vs, a) == Visible(vs, b)
  {
    if vs != [] {
      assert vs[0] in vs;
      VisibleSame(vs[1..], a, b);
    }
  }

  ghost predicate Newest(vs: seq<Version>) {
    forall i, j :: 0 <= i < j < |vs| ==> vs[i].ts > vs[j].ts
  }

  /** Sorting an already sorted list moves nothing. */
  lemma {:induction false} SortedStays(vs: seq<Version>)
    requires Newest(vs)
    ensures NewestFirst(vs) == vs
  {
    if vs != [] {
      SortedStays(vs[1..]);
    }
  }

  lemma {:induction false} NothingPending(vs: seq<Version>, t: TxnId)
    requires forall i :: 0 <= i < |vs| ==> vs[i].ts != PENDING
    ensures WithoutPending(vs, t) == vs
  {
    if vs != [] {
      NothingPending(vs[..|vs| - 1], t);
    }
  }

  lemma {:induction false} NothingWritten(vs: seq<Version>, t: TxnId)
    requires forall i :: 0 <= i < |vs| ==> vs[i].writer != t
    ensures WithoutWriter(vs, t) == vs
  {
    if vs != [] {
      NothingWritten(vs[..|vs| - 1], t);
    }
  }

  lemma {:induction false} WithoutPendingHead(v: Version, vs: seq<Version>, t: TxnId)
    requires v.writer == t && v.ts == PENDING
    requires forall i :: 0 <= i < |vs| ==> vs[i].ts != PENDING
    ensures WithoutPending([v] + vs, t) == vs
  {
    if vs == [] {
      assert [v] + vs == [v];
      assert [v][..0] == [];
    } else {
      var k := |vs| - 1;
      assert ([v] + vs)[..k + 1] == [v] + vs[..k];
      WithoutPendingHead(v, vs[..k], t);
    }
  }

  lemma {:induction false} WithoutWriterHead(v: Version, vs: seq<Version>, t: TxnId)
    requires v.writer == t
    requires forall i :: 0 <= i < |vs| ==> vs[i].writer != t
    ensures WithoutWriter([v] + vs, t) == vs
  {
    if vs == [] {
      assert [v] + vs == [v];
      assert [v][..0] == [];
    } else {
      var k := |vs| - 1;
      assert ([v] + vs)[..k + 1] == [v] + vs[..k];
      WithoutWriterHead(v, vs[..k], t);
    }
  }

  /** The committed versions of a key: its list without the pending version in front. */
  ghost function Settled(vs: seq<Version>): seq<Version> {
    if vs != [] && vs[0].ts == PENDING then vs[1..] else vs
  }

  lemma PendingInvisible(vs: seq<Version>, ts: nat)
    ensures Visible(Settled(vs), ts) == Visible(vs, ts)
  {
  }

  // ---------------------------------------------------------------- what a call does to one key's list

  lemma WriteList(d: Db, t: TxnId, k: Key, v: Value)
    requires Ok(d) && WriteAllowed(d, t, k)
    ensures VersionsOf(WriteDb(d, t, k, v), k) == [Version(v, t, PENDING)] + Settled(VersionsOf(d, k))
    ensures forall j :: j != k ==> VersionsOf(WriteDb(d, t, k, v), j) == VersionsOf(d, j)
  {
    var vs := VersionsOf(d, k);
    assert ListOk(d, k);
    if vs != [] && vs[0].ts == PENDING {
      assert OwnsLock(d, vs[0].writer, k) && LockOk(d, t, k);
      assert vs[0].writer == t;
      assert vs == [vs[0]] + vs[1..];
      WithoutPendingHead(vs[0], vs[1..], t);
    } else {
      NothingPending(vs, t);
    }
  }

  lemma DiscardList(d: Db, t: TxnId, k: Key)
    requires Ok(d) && IsActive(d, t)
    ensures VersionsOf(Discard(d, t), k) == if OwnsLock(d, t, k) then Settled(VersionsOf(d, k)) else VersionsOf(d, k)
  {
    var vs := VersionsOf(d, k);
    assert ListOk(d, k) && LockOk(d, t, k);
    if OwnsLock(d, t, k) {
      assert vs == [vs[0]] + vs[1..];
      WithoutWriterHead(vs[0], vs[1..], t);
    }
  }

  lemma CommitList(d: Db, t: TxnId, k: Key)
    requires Ok(d) && CommitAllowed(d, t) && d.timestamp < PENDING
    ensures var vs := VersionsOf(d, k);
            VersionsOf(CommitDb(d, t), k)
              == if OwnsLock(d, t, k) && vs != [] then [vs[0].(ts := d.timestamp)] + Settled(vs) else vs
  {
    var vs := VersionsOf(d, k);
    assert ListOk(d, k) && LockOk(d, t, k);
    if OwnsLock(d, t, k) {
      var stamped := Stamp(vs, t, d.timestamp);
      assert stamped == [vs[0].(ts := d.timestamp)] + vs[1..];
      SortedStays(stamped);
    }
  }

  // ---------------------------------------------------------------- every call keeps the invariant

  /** Nothing that the invariant or the relation looks at has changed. */
  ghost predicate SameShape(d: Db, d': Db) {
    && d'.data == d.data && d'.writeLocks == d.writeLocks && d'.timestamp == d.timestamp && d'.nextTxn == d.nextTxn
    && d'.txns.Keys == d.txns.Keys
    && forall t :: t in d.txns ==>
         && d'.txns[t].status == d.txns[t].status
         && d'.txns[t].snapshotTs == d.txns[t].snapshotTs
         && d'.txns[t].writeSet == d.txns[t].writeSet
  }

  lemma ShapeKeeps(d: Db, d': Db, m: Model)
    requires SameShape(d, d') && Ok(d) && Copies(d, m)
    ensures Ok(d') && Copies(d', m)
  {
    forall k ensures ListOk(d', k) && SameCurrent(d', m, k) { assert ListOk(d, k) && SameCurrent(d, m, k); }
    forall t ensures ClockOk(d', t) && Known(d', m, t) { assert ClockOk(d, t) && Known(d, m, t); }
    forall t, k ensures LockOk(d', t, k) { assert LockOk(d, t, k); }
    forall t ensures SameActive(d', m, t) { assert SameActive(d, m, t); }
    forall t, k ensures SameSnapshot(d', m, t, k) { assert SameSnapshot(d, m, t, k); }
    forall t, k ensures SameBuffer(d', m, t, k) { assert SameBuffer(d, m, t, k); }
  }

  lemma KeepsOkBegin(d: Db)
    requires Ok(d) && d.timestamp < PENDING
    ensures d.nextTxn !in d.txns && Ok(BeginDb(d))
  {
    var d' := BeginDb(d);
    assert ClockOk(d, d.nextTxn);
    forall k ensures ListOk(d', k) { assert ListOk(d, k); }
    forall t ensures ClockOk(d', t) { assert ClockOk(d, t); }
    forall t, k ensures LockOk(d', t, k) { assert LockOk(d, t, k); }
  }

  /** What a write changes besides flags and read sets. */
  lemma WriteTxns(d: Db, t: TxnId, k: Key, v: Value, u: TxnId)
    requires WriteAllowed(d, t, k)
    ensures var d' := WriteDb(d, t, k, v);
            && (u in d'.txns <==> u in d.txns)
            && (u in d.txns ==>
                  && d'.txns[u].status == d.txns[u].status
                  && d'.txns[u].snapshotTs == d.txns[u].snapshotTs
                  && d'.txns[u].writeSet == if u == t then d.txns[u].writeSet + {k} else d.txns[u].writeSet)
  {
  }

  lemma KeepsOkWrite(d: Db, t: TxnId, k: Key, v: Value)
    requires Ok(d) && WriteAllowed(d, t, k)
    ensures Ok(WriteDb(d, t, k, v))
  {
    var d' := WriteDb(d, t, k, v);
    WriteList(d, t, k, v);
    forall j
      ensures ListOk(d', j)
    {
      assert ListOk(d, j);
      forall u ensures IsActive(d', u) <==> IsActive(d, u) { WriteTxns(d, t, k, v, u); }
      WriteLists(d, d', t, k, v, j);
    }
    forall u ensures ClockOk(d', u) { assert ClockOk(d, u); WriteTxns(d, t, k, v, u); }
    forall u, j
      ensures LockOk(d', u, j)
    {
      WriteTxns(d, t, k, v, u);
      assert LockOk(d, u, j);
    }
  }

  lemma WriteLists(d: Db, d': Db, t: TxnId, k: Key, v: Value, j: Key)
    requires ListOk(d, j) && IsActive(d', t) && OwnsLock(d', t, k)
    requires d'.timestamp == d.timestamp <= PENDING
    requires forall u :: IsActive(d', u) <==> IsActive(d, u)
    requires forall u :: u in d.txns ==> u in d'.txns && d'.txns[u].status == d.txns[u].status
    requires j != k ==> VersionsOf(d', j) == VersionsOf(d, j) && (forall u :: OwnsLock(d', u, j) <==> OwnsLock(d, u, j))
    requires j == k ==> VersionsOf(d', k) == [Version(v, t, PENDING)] + Settled(VersionsOf(d, k))
    ensures ListOk(d', j)
  {
  }

  lemma SettledNewest(vs: seq<Version>)
    requires Newest(vs)
    ensures Newest(Settled(vs))
  {
    var rest := Settled(vs);
    forall i, j | 0 <= i < j < |rest|
      ensures rest[i].ts > rest[j].ts
    {
      var k := |vs| - |rest|;
      assert rest[i] == vs[i + k] && rest[j] == vs[j + k];
    }
  }

  /** The committed versions of a key are all older than the clock, and their writers have committed. */
  lemma SettledMembers(d: Db, k: Key)
    requires ListOk(d, k)
    ensures var rest := Settled(VersionsOf(d, k));
            && Newest(rest)
            && forall i :: 0 <= i < |rest| ==>
                 && rest[i].ts != PENDING && rest[i].ts < d.timestamp
                 && rest[i].writer in d.txns && d.txns[rest[i].writer].status == Committed
  {
    var vs, rest := VersionsOf(d, k), Settled(VersionsOf(d, k));
    SettledNewest(vs);
    forall i | 0 <= i < |rest|
      ensures rest[i].ts != PENDING && rest[i].ts < d.timestamp
      ensures rest[i].writer in d.txns && d.txns[rest[i].writer].status == Committed
    {
      assert rest[i] == vs[i + |vs| - |rest|];
    }
  }

  lemma DiscardListOk(d: Db, t: TxnId, j: Key)
    requires Ok(d) && IsActive(d, t)
    ensures ListOk(Discard(d, t), j)
  {
    assert ListOk(d, j) && LockOk(d, t, j);
    DiscardList(d, t, j);
    SettledMembers(d, j);
  }

  lemma KeepsOkDiscard(d: Db, t: TxnId)
    requires Ok(d) && IsActive(d, t)
    ensures Ok(Discard(d, t))
  {
    var d' := Discard(d, t);
    forall j ensures ListOk(d', j) { DiscardListOk(d, t, j); }
    forall u ensures ClockOk(d', u) { assert ClockOk(d, u); }
    forall u, j
      ensures LockOk(d', u, j)
    {
      assert LockOk(d, u, j) && LockOk(d, t, j);
      DiscardList(d, t, j);
    }
  }

  lemma CommitListOk(d: Db, t: TxnId, j: Key)
    requires Ok(d) && CommitAllowed(d, t) && d.timestamp < PENDING
    ensures ListOk(CommitDb(d, t), j)
  {
    assert ListOk(d, j) && LockOk(d, t, j);
    CommitList(d, t, j);
    SettledMembers(d, j);
  }

  lemma KeepsOkCommit(d: Db, t: TxnId)
    requires Ok(d) && CommitAllowed(d, t) && d.timestamp < PENDING
    ensures Ok(CommitDb(d, t))
  {
    var d' := CommitDb(d, t);
    forall j ensures ListOk(d', j) { CommitListOk(d, t, j); }
    forall u ensures ClockOk(d', u) { assert ClockOk(d, u); }
    forall u, j
      ensures LockOk(d', u, j)
    {
      assert LockOk(d, u, j) && LockOk(d, t, j);
      CommitList(d, t, j);
    }
  }

  // ---------------------------------------------------------------- every call is the model's call

  lemma ClockIrrelevant(d: Db, k: Key, ts: nat)
    requires ListOk(d, k) && d.timestamp <= ts
    ensures Visible(VersionsOf(d, k), ts) == CurrentValue(d, k)
  {
    VisibleSame(VersionsOf(d, k), ts, d.timestamp);
  }

  lemma CopiesBegin(d: Db, m: Model)
    requires Ok(d) && Copies(d, m) && d.timestamp < PENDING
    ensures Copies(BeginDb(d), Copy(d, m, CallBegin))
  {
    var d', m' := BeginDb(d), Copy(d, m, CallBegin);
    KeepsOkBegin(d);
    forall k
      ensures SameCurrent(d', m', k)
    {
      assert ListOk(d, k) && SameCurrent(d, m, k);
      ClockIrrelevant(d, k, d'.timestamp);
    }
    forall t ensures Known(d', m', t) && SameActive(d', m', t) { assert Known(d, m, t) && SameActive(d, m, t); }
    forall t, k
      ensures SameSnapshot(d', m', t, k)
    {
      assert SameSnapshot(d, m, t, k) && SameCurrent(d, m, k);
    }
    forall t, k ensures SameBuffer(d', m', t, k) { assert SameBuffer(d, m, t, k) && Known(d, m, t); }
  }

  /** The locks and the buffers give the same answer. */
  lemma WriteDecided(d: Db, m: Model, t: TxnId, k: Key)
    requires Ok(d) && Copies(d, m)
    ensures WriteAllowed(d, t, k) <==> MayWrite(m, t, k)
  {
    assert Known(d, m, t) && SameActive(d, m, t);
    forall u | u in m.buffers
      ensures u in m.active && k in m.buffers[u] <==> OwnsLock(d, u, k)
    {
      assert SameActive(d, m, u) && SameBuffer(d, m, u, k) && LockOk(d, u, k);
    }
    if HolderOf(d, k).Some? {
      var u := HolderOf(d, k).value;
      assert OwnsLock(d, u, k) && LockOk(d, u, k) && Known(d, m, u);
    }
  }

  lemma CommitDecided(d: Db, m: Model, t: TxnId)
    requires Copies(d, m)
    ensures CommitAllowed(d, t) <==> t in m.active && t in m.buffers && !IsPivot(d, t)
  {
    assert Known(d, m, t) && SameActive(d, m, t);
  }

  lemma CopiesWrite(d: Db, m: Model, t: TxnId, k: Key, v: Value)
    requires Ok(d) && Copies(d, m) && WriteAllowed(d, t, k)
    ensures Copies(WriteDb(d, t, k, v), Copy(d, m, CallWrite(t, k, v)))
  {
    var d', m' := WriteDb(d, t, k, v), Copy(d, m, CallWrite(t, k, v));
    WriteList(d, t, k, v);
    WriteDecided(d, m, t, k);
    forall j
      ensures SameCurrent(d', m', j)
    {
      assert SameCurrent(d, m, j);
      PendingInvisible(VersionsOf(d, k), d.timestamp);
    }
    forall u
      ensures Known(d', m', u) && SameActive(d', m', u)
    {
      assert Known(d, m, u) && SameActive(d, m, u);
      WriteTxns(d, t, k, v, u);
    }
    forall u, j
      ensures SameSnapshot(d', m', u, j)
    {
      WriteTxns(d, t, k, v, u);
      assert SameSnapshot(d, m, u, j);
      if u in d.txns {
        PendingInvisible(VersionsOf(d, k), d.txns[u].snapshotTs);
      }
    }
    forall u, j
      ensures SameBuffer(d', m', u, j)
    {
      WriteTxns(d, t, k, v, u);
      WriteTxns(d, t, k, v, t);
      assert SameBuffer(d, m, u, j) && LockOk(d, u, j);
    }
  }

  lemma CopiesDiscard(d: Db, m: Model, t: TxnId)
    requires Ok(d) && Copies(d, m) && IsActive(d, t)
    ensures Copies(Discard(d, t), m.(active := m.active - {t}))
  {
    var d', m' := Discard(d, t), m.(active := m.active - {t});
    forall j
      ensures SameCurrent(d', m', j)
    {
      assert SameCurrent(d, m, j);
      DiscardList(d, t, j);
      PendingInvisible(VersionsOf(d, j), d.timestamp);
    }
    forall u ensures Known(d', m', u) && SameActive(d', m', u) { assert Known(d, m, u) && SameActive(d, m, u); }
    forall u, j
      ensures SameSnapshot(d', m', u, j)
    {
      assert SameSnapshot(d, m, u, j);
      DiscardList(d, t, j);
      if u in d.txns {
        PendingInvisible(VersionsOf(d, j), d.txns[u].snapshotTs);
      }
    }
    forall u, j
      ensures SameBuffer(d', m', u, j)
    {
      assert SameBuffer(d, m, u, j) && LockOk(d, u, j) && LockOk(d, t, j);
      DiscardList(d, t, j);
    }
  }

  /** What a snapshot taken before the commit sees is untouched by it; the current value of a written
      key becomes the buffered one. */
  lemma CommittedView(d: Db, t: TxnId, k: Key, ts: nat)
    requires Ok(d) && CommitAllowed(d, t) && d.timestamp < PENDING
    ensures ts < d.timestamp ==> Visible(VersionsOf(CommitDb(d, t), k), ts) == Visible(VersionsOf(d, k), ts)
    ensures Wrote(d, t, k) ==>
              VersionsOf(d, k) != [] && CurrentValue(CommitDb(d, t), k) == Some(VersionsOf(d, k)[0].value)
    ensures !Wrote(d, t, k) ==> CurrentValue(CommitDb(d, t), k) == CurrentValue(d, k)
  {
    var vs := VersionsOf(d, k);
    assert ListOk(d, k) && LockOk(d, t, k);
    CommitList(d, t, k);
    PendingInvisible(vs, ts);
    if Wrote(d, t, k) {
      assert ([vs[0].(ts := d.timestamp)] + Settled(vs))[1..] == Settled(vs);
    } else {
      ClockIrrelevant(d, k, d.timestamp + 1);
    }
  }

  lemma CopiesCommit(d: Db, m: Model, t: TxnId)
    requires Ok(d) && Copies(d, m) && CommitAllowed(d, t) && d.timestamp < PENDING
    ensures Copies(CommitDb(d, t), Copy(d, m, CallCommit(t)))
  {
    var d', m' := CommitDb(d, t), Copy(d, m, CallCommit(t));
    CommitDecided(d, m, t);
    forall k
      ensures SameCurrent(d', m', k)
    {
      assert SameCurrent(d, m, k) && SameBuffer(d, m, t, k);
      CommittedView(d, t, k, 0);
    }
    forall u ensures Known(d', m', u) && SameActive(d', m', u) { assert Known(d, m, u) && SameActive(d, m, u); }
    forall u, k
      ensures SameSnapshot(d', m', u, k)
    {
      assert SameSnapshot(d, m, u, k) && ClockOk(d, u);
      if u in d.txns {
        CommittedView(d, t, k, d.txns[u].snapshotTs);
      }
    }
    forall u, k
      ensures SameBuffer(d', m', u, k)
    {
      assert SameBuffer(d, m, u, k) && LockOk(d, u, k) && LockOk(d, t, k);
      CommitList(d, t, k);
    }
  }

  lemma ReadShape(d: Db, t: TxnId, k: Key)
    ensures SameShape(d, ReadDb(d, t, k))
  {
  }

  /** Every call keeps the invariant and is the model's call. */
  lemma Refines(d: Db, m: Model, c: Call)
    requires Ok(d) && Copies(d, m) && d.timestamp < PENDING
    ensures Ok(Store(d, c)) && Copies(Store(d, c), Copy(d, m, c))
  {
    match c
    case CallBegin => KeepsOkBegin(d); CopiesBegin(d, m);
    case CallRead(t, k) => ReadShape(d, t, k); ShapeKeeps(d, ReadDb(d, t, k), m);
    case CallWrite(t, k, v) =>
      WriteDecided(d, m, t, k);
      if WriteAllowed(d, t, k) { KeepsOkWrite(d, t, k, v); CopiesWrite(d, m, t, k, v); }
    case CallCommit(t) =>
      CommitDecided(d, m, t);
      assert SameActive(d, m, t);
      if CommitAllowed(d, t) {
        KeepsOkCommit(d, t);
        CopiesCommit(d, m, t);
      } else if IsActive(d, t) {
        KeepsOkDiscard(d, t);
        CopiesDiscard(d, m, t);
      } else {
        assert m.active - {t} == m.active;
      }
    case CallAbort(t) =>
      assert SameActive(d, m, t);
      if IsActive(d, t) {
        KeepsOkDiscard(d, t);
        CopiesDiscard(d, m, t);
        ShapeKeeps(Discard(d, t), AbortDb(d, t), Copy(d, m, c));
      } else {
        assert m.active - {t} == m.active;
      }
  }

  // ---------------------------------------------------------------- runs

  ghost predicate Run(states: seq<Db>, calls: seq<Call>) {
    && |states| == |calls| + 1
    && states[0] == EMPTY
    && forall i :: 0 <= i < |calls| ==> states[i].timestamp < PENDING && states[i + 1] == Store(states[i], calls[i])
  }

  /** The model driven by the same calls. */
  ghost function ModelAt(states: seq<Db>, calls: seq<Call>, n: nat): Model
    requires Run(states, calls) && n <= |calls|
  {
    if n == 0 then Model({}, map[], map[], map[])
    else Copy(states[n - 1], ModelAt(states, calls, n - 1), calls[n - 1])
  }

  lemma {:induction false} RunCopies(states: seq<Db>, calls: seq<Call>, n: nat)
    requires Run(states, calls) && n <= |calls|
    ensures Ok(states[n]) && Copies(states[n], ModelAt(states, calls, n))
  {
    if n > 0 {
      RunCopies(states, calls, n - 1);
      Refines(states[n - 1], ModelAt(states, calls, n - 1), calls[n - 1]);
    }
  }

  /** Transaction t began with call number b. */
  ghost predicate BeganAt(states: seq<Db>, calls: seq<Call>, t: TxnId, b: nat)
    requires Run(states, calls)
  {
    b < |calls| && calls[b] == CallBegin && states[b].nextTxn == t
  }

  lemma SnapshotTaken(d: Db, m: Model)
    ensures Copy(d, m, CallBegin).snapshots == m.snapshots[d.nextTxn := m.current]
    ensures Store(d, CallBegin).nextTxn == d.nextTxn + 1
  {
  }

  lemma SnapshotKept(d: Db, m: Model, c: Call, t: TxnId)
    requires t in m.snapshots && t < d.nextTxn
    ensures t in Copy(d, m, c).snapshots && Copy(d, m, c).snapshots[t] == m.snapshots[t]
    ensures t < Store(d, c).nextTxn
  {
  }

  lemma {:induction false} SnapshotStays(states: seq<Db>, calls: seq<Call>, t: TxnId, b: nat, n: nat)
    requires Run(states, calls) && BeganAt(states, calls, t, b) && b < n <= |calls|
    ensures t in ModelAt(states, calls, n).snapshots && t < states[n].nextTxn
    ensures ModelAt(states, calls, n).snapshots[t] == ModelAt(states, calls, b).current
    decreases n
  {
    if n == b + 1 {
      SnapshotTaken(states[b], ModelAt(states, calls, b));
    } else {
      SnapshotStays(states, calls, t, b, n - 1);
      SnapshotKept(states[n - 1], ModelAt(states, calls, n - 1), calls[n - 1], t);
    }
  }

  /** Snapshot refinement: whatever commits, aborts and pending writes follow, a read by an active
      transaction returns what the committed database held when the transaction began. */
  lemma ReadsSeeTheirSnapshot(states: seq<Db>, calls: seq<Call>, t: TxnId, b: nat, n: nat, k: Key)
    requires Run(states, calls) && BeganAt(states, calls, t, b) && b < n <= |calls|
    requires IsActive(states[n], t)
    ensures ReadResult(states[n], t, k) == CurrentValue(states[b], k)
  {
    RunCopies(states, calls, n);
    RunCopies(states, calls, b);
    SnapshotStays(states, calls, t, b, n);
    assert SameSnapshot(states[n], ModelAt(states, calls, n), t, k);
    assert SameCurrent(states[b], ModelAt(states, calls, b), k);
  }

  /** The current value of a key is the one the last successful commit that wrote it left there. */
  lemma CurrentIsLastCommitted(states: seq<Db>, calls: seq<Call>, n: nat, k: Key)
    requires Run(states, calls) && n <= |calls|
    ensures CurrentValue(states[n], k) == Get(ModelAt(states, calls, n).current, k)
  {
    RunCopies(states, calls, n);
    assert SameCurrent(states[n], ModelAt(states, calls, n), k);
  }

  /** The sort at commit never moves anything: the list it is given is already newest first. */
  lemma SortIsIdle(states: seq<Db>, calls: seq<Call>, n: nat, t: TxnId, k: Key)
    requires Run(states, calls) && n <= |calls| && states[n].timestamp < PENDING
    requires CommitAllowed(states[n], t) && k in states[n].txns[t].writeSet
    ensures var stamped := Stamp(VersionsOf(states[n], k), t, states[n].timestamp);
            NewestFirst(stamped) == stamped
  {
    RunCopies(states, calls, n);
    var d := states[n];
    assert ListOk(d, k) && LockOk(d, t, k);
    SortedStays(Stamp(VersionsOf(d, k), t, d.timestamp));
  }

  // ---------------------------------------------------------------- pivots

  predicate HasCommitted(d: Db, t: TxnId) {
    t in d.txns && d.txns[t].status == Committed
  }

  /** The call is a read, by an active transaction, of a key of which w has written a newer version. */
  predicate ReadsBehind(d: Db, c: Call, w: TxnId) {
    c.CallRead? && IsActive(d, c.t) && c.t != w && w in NewerWriters(d, c.t, c.k, d.txns[c.t].snapshotTs)
  }

  /** Transaction w has committed, has read behind somebody, and now somebody reads behind it. */
  predicate CaughtBetween(d: Db, c: Call, w: TxnId) {
    HasCommitted(d, w) && d.txns[w].outConflict && ReadsBehind(d, c, w)
  }

  /** What one call does to a committed transaction: only a reader behind it raises a flag, and only
      the incoming one. */
  lemma CommittedFrozen(d: Db, c: Call, w: TxnId)
    requires HasCommitted(d, w) && w != d.nextTxn
    ensures HasCommitted(Store(d, c), w)
    ensures Store(d, c).txns[w].outConflict == d.txns[w].outConflict
    ensures IsPivot(Store(d, c), w) <==> IsPivot(d, w) || CaughtBetween(d, c, w)
  {
  }

  /** A transaction that commits is no pivot at that moment. */
  lemma JustCommitted(d: Db, c: Call, w: TxnId)
    requires HasCommitted(Store(d, c), w) && !HasCommitted(d, w) && w != d.nextTxn
    ensures !IsPivot(Store(d, c), w)
  {
  }

  lemma {:induction false} CommittedBefore(states: seq<Db>, calls: seq<Call>, m: nat, n: nat, w: TxnId)
    requires Run(states, calls) && m <= n <= |calls| && HasCommitted(states[m], w)
    ensures HasCommitted(states[n], w)
    decreases n
  {
    if m < n {
      CommittedBefore(states, calls, m, n - 1, w);
      RunCopies(states, calls, n - 1);
      assert ClockOk(states[n - 1], w);
      CommittedFrozen(states[n - 1], calls[n - 1], w);
    }
  }

  /** The store tests for a pivot only when a transaction commits, so a committed transaction can still
      become one. It has, exactly when some call since its commit caught it between two others. */
  lemma {:induction false} PivotsExactly(states: seq<Db>, calls: seq<Call>, n: nat, w: TxnId)
    requires Run(states, calls) && n <= |calls| && HasCommitted(states[n], w)
    ensures IsPivot(states[n], w) <==> exists m :: 0 <= m < n && CaughtBetween(states[m], calls[m], w)
  {
    if n > 0 {
      var d, c := states[n - 1], calls[n - 1];
      RunCopies(states, calls, n - 1);
      assert ClockOk(d, w);
      assert states[n] == Store(d, c);
      if HasCommitted(d, w) {
        PivotsExactly(states, calls, n - 1, w);
        CommittedFrozen(d, c, w);
      } else {
        JustCommitted(d, c, w);
        forall m | 0 <= m < n && HasCommitted(states[m], w)
          ensures false
        {
          CommittedBefore(states, calls, m, n - 1, w);
        }
      }
    }
  }

  // ---------------------------------------------------------------- a committed pivot

  /** Transactions 1, 2 and 3 begin; 3 writes key 0; 2 reads it, writes key 1 and commits; 1 reads key 1. */
  const PIVOT_CALLS: seq<Call> := [
    CallBegin, CallBegin, CallBegin, CallWrite(3, 0, 0), CallRead(2, 0), CallWrite(2, 1, 0), CallCommit(2),
    CallRead(1, 1)]

  function After(calls: seq<Call>, n: nat): Db
    requires n <= |calls|
  {
    if n == 0 then EMPTY else Store(After(calls, n - 1), calls[n - 1])
  }

  lemma {:induction false} ClockCounts(calls: seq<Call>, n: nat)
    requires n <= |calls|
    ensures After(calls, n).timestamp <= n + 1
  {
    if n > 0 {
      ClockCounts(calls, n - 1);
    }
  }

  ghost predicate Began(d: Db, t: TxnId, inConflict: bool, outConflict: bool) {
    && IsActive(d, t) && d.txns[t].snapshotTs == t
    && d.txns[t].inConflict == inConflict && d.txns[t].outConflict == outConflict
  }

  lemma PivotBegins()
    ensures var d := After(PIVOT_CALLS, 3);
            && Began(d, 1, false, false) && Began(d, 2, false, false) && Began(d, 3, false, false)
            && d.timestamp == 4 && d.data == map[] && d.writeLocks == map[] && d.sireads == map[]
  {
    assert After(PIVOT_CALLS, 0) == EMPTY;
    assert After(PIVOT_CALLS, 1) == BeginDb(EMPTY);
    assert After(PIVOT_CALLS, 2) == BeginDb(BeginDb(EMPTY));
    assert After(PIVOT_CALLS, 3) == BeginDb(BeginDb(BeginDb(EMPTY)));
  }

  /** A first write of a key that nobody has read. */
  lemma WritesKey(d: Db, t: TxnId, k: Key)
    requires WriteAllowed(d, t, k) && VersionsOf(d, k) == [] && k !in d.sireads
    ensures var d' := WriteDb(d, t, k, 0);
            && VersionsOf(d', k) == [Version(0, t, PENDING)]
            && (forall j :: j != k ==> VersionsOf(d', j) == VersionsOf(d, j))
            && (forall j :: j != k ==> HolderOf(d', j) == HolderOf(d, j))
            && d'.timestamp == d.timestamp && d'.sireads == d.sireads
            && t in d'.txns && d'.txns[t] == d.txns[t].(writeSet := d.txns[t].writeSet + {k})
            && forall u :: u != t && u in d.txns ==> u in d'.txns && d'.txns[u] == d.txns[u]
  {
    assert ConcurrentReaders(d, t, k) == {} && WithoutPending([], t) == [];
  }

  lemma PivotWrites()
    ensures var d := After(PIVOT_CALLS, 4);
            && Began(d, 1, false, false) && Began(d, 2, false, false) && Began(d, 3, false, false)
            && d.timestamp == 4 && VersionsOf(d, 0) == [Version(0, 3, PENDING)] && VersionsOf(d, 1) == []
            && HolderOf(d, 1) == None && d.sireads == map[]
  {
    PivotBegins();
    var d := After(PIVOT_CALLS, 3);
    assert After(PIVOT_CALLS, 4) == WriteDb(d, 3, 0, 0);
    WritesKey(d, 3, 0);
  }

  lemma PivotReads()
    ensures var d := After(PIVOT_CALLS, 5);
            && Began(d, 1, false, false) && Began(d, 2, false, true)
            && d.timestamp == 4 && VersionsOf(d, 1) == [] && HolderOf(d, 1) == None && 1 !in d.sireads
  {
    PivotWrites();
    var d := After(PIVOT_CALLS, 4);
    assert After(PIVOT_CALLS, 5) == ReadDb(d, 2, 0);
    assert VersionsOf(d, 0)[0] in VersionsOf(d, 0);
    assert 3 in NewerWriters(d, 2, 0, 2);
    assert NewerWriters(d, 2, 0, 2) == {3};
  }

  lemma PivotWritesBack()
    ensures var d := After(PIVOT_CALLS, 6);
            && Began(d, 1, false, false) && Began(d, 2, false, true) && 1 in d.txns[2].writeSet
            && d.timestamp == 4 && VersionsOf(d, 1) == [Version(0, 2, PENDING)]
  {
    PivotReads();
    var d := After(PIVOT_CALLS, 5);
    assert After(PIVOT_CALLS, 6) == WriteDb(d, 2, 1, 0);
    WritesKey(d, 2, 1);
  }

  lemma StampsFirst(v: Version, ts: nat)
    requires v.ts == PENDING
    ensures NewestFirst(Stamp([v], v.writer, ts)) == [v.(ts := ts)]
  {
    assert Stamp([v], v.writer, ts) == [v.(ts := ts)];
    SortedStays([v.(ts := ts)]);
  }

  /** A commit of one key. */
  lemma CommitsKey(d: Db, t: TxnId, k: Key, v: Version)
    requires CommitAllowed(d, t) && k in d.txns[t].writeSet && VersionsOf(d, k) == [v]
    requires v.writer == t && v.ts == PENDING
    ensures VersionsOf(CommitDb(d, t), k) == [v.(ts := d.timestamp)]
    ensures HasCommitted(CommitDb(d, t), t) && CommitDb(d, t).txns[t].outConflict == d.txns[t].outConflict
    ensures forall u :: u != t && u in d.txns ==> u in CommitDb(d, t).txns && CommitDb(d, t).txns[u] == d.txns[u]
  {
    StampsFirst(v, d.timestamp);
  }

  lemma PivotCommits()
    ensures var d := After(PIVOT_CALLS, 7);
            && Began(d, 1, false, false) && HasCommitted(d, 2) && d.txns[2].outConflict
            && VersionsOf(d, 1) == [Version(0, 2, 4)]
  {
    PivotWritesBack();
    assert After(PIVOT_CALLS, 7) == CommitDb(After(PIVOT_CALLS, 6), 2);
    CommitsKey(After(PIVOT_CALLS, 6), 2, 1, Version(0, 2, PENDING));
  }

  /** A committed transaction becomes a pivot: the run of these calls. */
  lemma CommittedPivot() returns (states: seq<Db>, calls: seq<Call>)
    ensures Run(states, calls) && HasCommitted(states[|calls|], 2) && IsPivot(states[|calls|], 2)
  {
    calls := PIVOT_CALLS;
    states := seq(9, i requires 0 <= i < 9 => After(calls, i));
    forall i | 0 <= i < |calls|
      ensures states[i].timestamp < PENDING && states[i + 1] == Store(states[i], calls[i])
    {
      ClockCounts(calls, i);
    }
    PivotCommits();
    var d := states[7];
    assert VersionsOf(d, 1)[0] in VersionsOf(d, 1);
    assert CaughtBetween(d, calls[7], 2);
    RunCopies(states, calls, 7);
    assert ClockOk(d, 2);
    CommittedFrozen(d, calls[7], 2);
  }
}
