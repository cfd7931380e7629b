/** Store runs without a serial order. */
module StoreAnomalies {
  /* `StoreSerializability` asks for one test at writes and one at reads. Each of these runs meets one of the two. */

  import opened Options
  import opened SnapshotRefinement
  import opened SsiStore
  import opened StoreSerializability

  // ---------------------------------------------------------------- what a serial order gives

  lemma {:induction false} LastWriteIs(states: seq<Db>, calls: seq<Call>, m: nat, t: TxnId, k: Key, j: nat)
    requires Run(states, calls) && j < m <= |calls| && WritesAt(states, calls, t, k, j)
    requires forall i: nat :: j < i < m ==> !WritesAt(states, calls, t, k, i)
    ensures LastWrite(states, calls, m, t, k) == Some(calls[j].v)
  {
    if m > j + 1 {
      LastWriteIs(states, calls, m - 1, t, k, j);
    }
  }

  lemma NeverWrites(states: seq<Db>, calls: seq<Call>, t: TxnId, k: Key)
    requires Run(states, calls) && forall i: nat :: !WritesAt(states, calls, t, k, i)
    ensures LastWrite(states, calls, |calls|, t, k) == None
  {
    if LastWrite(states, calls, |calls|, t, k).Some? {
      var j := WroteAt(states, calls, |calls|, t, k);
      assert false;
    }
  }

  /** The write of the q-th transaction is the last of the key before place p. */
  lemma SerialWrite(states: seq<Db>, calls: seq<Call>, order: seq<TxnId>, k: Key, j: nat, q: nat, p: nat)
    requires Run(states, calls) && q < p <= |order| && WritesAt(states, calls, order[q], k, j)
    requires forall i: nat, r: nat :: q <= r < p && WritesAt(states, calls, order[r], k, i) ==> i == j && r == q
    ensures SerialValue(states, calls, order[..p], k) == Some(calls[j].v)
  {
    LastWriteIs(states, calls, |calls|, order[q], k, j);
    forall r: nat | q < r < p
      ensures LastWrite(states, calls, |calls|, order[r], k) == None
    {
      NeverWrites(states, calls, order[r], k);
    }
    SerialValueIsLast(states, calls, order[..p], k, q);
  }

  lemma SerialNone(states: seq<Db>, calls: seq<Call>, order: seq<TxnId>, k: Key, p: nat)
    requires Run(states, calls) && p <= |order|
    requires forall i: nat, r: nat :: r < p ==> !WritesAt(states, calls, order[r], k, i)
    ensures SerialValue(states, calls, order[..p], k) == None
  {
    forall r: nat | r < p
      ensures LastWrite(states, calls, |calls|, order[r], k) == None
    {
      NeverWrites(states, calls, order[r], k);
    }
    NoSerialValue(states, calls, order[..p], k);
  }

  // ---------------------------------------------------------------- a lost update

  /** Transactions 1 and 2 begin; 2 reads key 0, 1 writes it and commits, 2 writes it and commits. */
  const UPDATES: seq<Call> := [
    CallBegin, CallBegin, CallRead(2, 0), CallWrite(1, 0, 1), CallCommit(1), CallWrite(2, 0, 2), CallCommit(2)]

  function UpdateVersions(n: nat): seq<Version> {
    if n <= 4 then [Version(1, 1, PENDING)]
    else if n == 5 then [Version(1, 1, 3)]
    else [Version(2, 2, if n == 6 then PENDING else 4), Version(1, 1, 3)]
  }

  function UpdateTxns(n: nat): map<TxnId, Txn> {
    var first := Txn(if n < 5 then Active else Committed, 1, if n < 4 then {} else {0}, {}, n >= 4, false);
    var second := Txn(if n < 7 then Active else Committed, 2, if n < 6 then {} else {0}, if n < 3 then {} else {0},
                      false, n >= 4);
    if n == 0 then map[] else if n == 1 then map[1 := first] else map[1 := first, 2 := second]
  }

  function Update(n: nat): Db {
    Db(if n < 2 then n + 1 else if n < 5 then 3 else if n < 7 then 4 else 5,
       if n < 2 then n + 1 else 3,
       UpdateTxns(n),
       if n < 4 then map[] else map[0 := if n == 4 then Some(1) else if n == 6 then Some(2) else None],
       if n < 3 then map[] else map[0 := {2}],
       if n < 4 then map[] else map[0 := UpdateVersions(n)],
       if n < 5 then {} else if n < 7 then {1} else {1, 2})
  }

  lemma UpdateRead()
    ensures Update(3) == ReadDb(Update(2), 2, 0)
  {
    var d, me := Update(2), Txn(Active, 2, {}, {}, false, false);
    assert NewerWriters(d, 2, 0, 2) == {} && FlagWriters(d.txns, {}) == d.txns;
    assert d.txns[2] == me && me.readSet + {0} == {0} && {} + {2} == {2};
    assert d.txns[2 := me.(readSet := {0})] == UpdateTxns(3);
  }

  lemma UpdateWrite()
    ensures Update(4) == WriteDb(Update(3), 1, 0, 1)
  {
    var d, me := Update(3), Txn(Active, 1, {}, {}, false, false);
    assert ConcurrentReaders(d, 1, 0) == {2};
    assert d.txns[1] == me && me.writeSet + {0} == {0} && WithoutPending([], 1) == [];
    assert FlagReaders(d.txns, {2})[1 := me.(inConflict := true, writeSet := {0})] == UpdateTxns(4);
    assert [Version(1, 1, PENDING)] + [] == UpdateVersions(4);
  }

  lemma UpdateWritesOver()
    ensures Update(6) == WriteDb(Update(5), 2, 0, 2)
  {
    var d, me := Update(5), UpdateTxns(5)[2];
    assert ConcurrentReaders(d, 2, 0) == {} && FlagReaders(d.txns, {}) == d.txns;
    assert me.writeSet + {0} == {0} && d.txns[2 := me.(writeSet := {0})] == UpdateTxns(6);
    assert UpdateVersions(5)[..0] == [] && WithoutPending([], 2) == [];
    assert WithoutPending(UpdateVersions(5), 2) == UpdateVersions(5);
    assert [Version(2, 2, PENDING)] + UpdateVersions(5) == UpdateVersions(6);
    assert d.writeLocks[0 := Some(2)] == Update(6).writeLocks && d.data[0 := UpdateVersions(6)] == Update(6).data;
  }

  lemma UpdateCommit()
    ensures Update(5) == CommitDb(Update(4), 1)
  {
    var d := Update(4);
    StampsFirst(Version(1, 1, PENDING), 3);
    assert CommitDb(d, 1).txns == UpdateTxns(5);
    assert CommitDb(d, 1).writeLocks == Update(5).writeLocks;
    assert CommitDb(d, 1).data == Update(5).data;
  }

  lemma UpdateCommits()
    ensures Update(7) == CommitDb(Update(6), 2)
  {
    var d := Update(6);
    assert Stamp(UpdateVersions(6), 2, 4) == UpdateVersions(7);
    SortedStays(UpdateVersions(7));
    assert CommitDb(d, 2).txns == UpdateTxns(7);
    assert CommitDb(d, 2).writeLocks == Update(7).writeLocks;
    assert CommitDb(d, 2).data == Update(7).data;
  }

  lemma UpdateStep(n: nat)
    requires n < 7
    ensures Update(n + 1) == SnapshotRefinement.Store(Update(n), UPDATES[n])
  {
    if n < 2 {
      assert UpdateTxns(n)[n + 1 := Txn(Active, n + 1, {}, {}, false, false)] == UpdateTxns(n + 1);
    } else if n == 2 {
      UpdateRead();
    } else if n == 3 {
      UpdateWrite();
    } else if n == 4 {
      UpdateCommit();
    } else if n == 5 {
      UpdateWritesOver();
    } else {
      UpdateCommits();
    }
  }

  lemma UpdateRuns() returns (states: seq<Db>)
    ensures Run(states, UPDATES) && forall i: nat :: i <= 7 ==> states[i] == Update(i)
  {
    states := seq(8, i requires 0 <= i < 8 => Update(i));
    forall i | 0 <= i < 7
      ensures states[i + 1] == SnapshotRefinement.Store(states[i], UPDATES[i])
    {
      UpdateStep(i);
    }
  }

  lemma UpdateFacts(states: seq<Db>)
    requires Run(states, UPDATES) && forall i: nat :: i <= 7 ==> states[i] == Update(i)
    ensures Durable(states, UPDATES, 1) && Durable(states, UPDATES, 2)
    ensures WritesAt(states, UPDATES, 1, 0, 3) && ReadsAt(states, UPDATES, 2, 0, 2)
    ensures ReadResult(states[2], 2, 0) == None && CurrentValue(states[7], 0) == Some(2)
    ensures forall t, k, j: nat :: WritesAt(states, UPDATES, t, k, j) ==> (t == 1 && j == 3) || (t == 2 && j == 5)
  {
    assert states[7] == Update(7) && states[2] == Update(2) && states[3] == Update(3);
    assert Visible(UpdateVersions(7), 5) == Some(2);
  }

  /** In either order transaction 2 reads transaction 1's write or transaction 1 writes last. */
  lemma UpdateUnordered(states: seq<Db>, order: seq<TxnId>)
    requires Run(states, UPDATES) && forall i: nat :: i <= 7 ==> states[i] == Update(i)
    ensures !SerialOrder(states, UPDATES, order)
  {
    UpdateFacts(states);
    if SerialOrder(states, UPDATES, order) {
      var q :| 0 <= q < |order| && order[q] == 1;
      var p :| 0 <= p < |order| && order[p] == 2;
      assert order[..|order|] == order && ReadBy(states, UPDATES, order, p, 2, 0);
      if q < p {
        SerialWrite(states, UPDATES, order, 0, 3, q, p);
      } else {
        SerialWrite(states, UPDATES, order, 0, 3, q, |order|);
      }
      assert false;
    }
  }

  /** Without the test at writes: no read comes upon anybody, and still no serial order explains the run. */
  lemma WriteTestNeeded() returns (states: seq<Db>, calls: seq<Call>)
    ensures Run(states, calls) && ReadsUncaught(states, calls) && !Serializable(states, calls)
  {
    states := UpdateRuns();
    calls := UPDATES;
    forall order
      ensures !SerialOrder(states, calls, order)
    {
      UpdateUnordered(states, order);
    }
    assert states[2] == Update(2);
  }

  // ---------------------------------------------------------------- a read behind a committed reader

  /** Transaction 1 reads key 0, 2 writes it and commits; 3 begins; 1 writes key 1 and commits; 3 reads 2's
      write of key 0, and key 1 without 1's write, and commits. */
  const BEHIND: seq<Call> := [
    CallBegin, CallRead(1, 0), CallBegin, CallWrite(2, 0, 0), CallCommit(2), CallBegin, CallWrite(1, 1, 0),
    CallCommit(1), CallRead(3, 0), CallRead(3, 1), CallCommit(3)]

  function BehindTxns(n: nat): map<TxnId, Txn> {
    var first := Txn(if n < 8 then Active else Committed, 1, if n < 7 then {} else {1}, if n < 2 then {} else {0},
                     n >= 10, n >= 4);
    var second := Txn(if n < 5 then Active else Committed, 2, if n < 4 then {} else {0}, {}, n >= 4, false);
    var third := Txn(if n < 11 then Active else Committed, 4, {}, if n < 9 then {} else if n == 9 then {0} else {0, 1},
                     false, n >= 10);
    if n == 0 then map[]
    else if n < 3 then map[1 := first]
    else if n < 6 then map[1 := first, 2 := second]
    else map[1 := first, 2 := second, 3 := third]
  }

  function BehindData(n: nat): map<Key, seq<Version>> {
    if n < 4 then map[]
    else if n == 4 then map[0 := [Version(0, 2, PENDING)]]
    else if n < 7 then map[0 := [Version(0, 2, 3)]]
    else map[0 := [Version(0, 2, 3)], 1 := [Version(0, 1, if n == 7 then PENDING else 5)]]
  }

  function Behind(n: nat): Db {
    Db(if n == 0 then 1 else if n < 3 then 2 else if n < 5 then 3 else if n == 5 then 4 else if n < 8 then 5
       else if n < 11 then 6 else 7,
       if n == 0 then 1 else if n < 3 then 2 else if n < 6 then 3 else 4,
       BehindTxns(n),
       if n < 4 then map[] else if n < 7 then map[0 := if n == 4 then Some(2) else None]
       else map[0 := None, 1 := if n == 7 then Some(1) else None],
       if n < 2 then map[] else if n < 9 then map[0 := {1}] else if n == 9 then map[0 := {1, 3}]
       else map[0 := {1, 3}, 1 := {3}],
       BehindData(n),
       if n < 5 then {} else if n < 8 then {2} else if n < 11 then {2, 1} else {2, 1, 3})
  }

  lemma BehindBegin(n: nat)
    requires n == 0 || n == 2 || n == 5
    ensures Behind(n + 1) == BeginDb(Behind(n))
  {
    var d := Behind(n);
    assert d.txns[d.nextTxn := Txn(Active, d.timestamp, {}, {}, false, false)] == BehindTxns(n + 1);
  }

  lemma BehindFirstRead()
    ensures Behind(2) == ReadDb(Behind(1), 1, 0)
  {
    var d, me := Behind(1), BehindTxns(1)[1];
    assert NewerWriters(d, 1, 0, 1) == {} && FlagWriters(d.txns, {}) == d.txns;
    assert me.readSet + {0} == {0} && {} + {1} == {1};
    assert d.txns[1 := me.(readSet := {0})] == BehindTxns(2);
  }

  lemma BehindFirstWrite()
    ensures Behind(4) == WriteDb(Behind(3), 2, 0, 0)
  {
    var d, me := Behind(3), BehindTxns(3)[2];
    assert ConcurrentReaders(d, 2, 0) == {1};
    assert me.writeSet + {0} == {0} && WithoutPending([], 2) == [];
    assert FlagReaders(d.txns, {1})[2 := me.(inConflict := true, writeSet := {0})] == BehindTxns(4);
    assert [Version(0, 2, PENDING)] + [] == [Version(0, 2, PENDING)];
  }

  lemma BehindFirstCommit()
    ensures Behind(5) == CommitDb(Behind(4), 2)
  {
    var d := Behind(4);
    StampsFirst(Version(0, 2, PENDING), 3);
    assert CommitDb(d, 2).txns == BehindTxns(5);
    assert CommitDb(d, 2).writeLocks == Behind(5).writeLocks;
    assert CommitDb(d, 2).data == BehindData(5);
  }

  lemma BehindSecondWrite()
    ensures Behind(7) == WriteDb(Behind(6), 1, 1, 0)
  {
    var d, me := Behind(6), BehindTxns(6)[1];
    assert ConcurrentReaders(d, 1, 1) == {} && FlagReaders(d.txns, {}) == d.txns;
    assert me.writeSet + {1} == {1} && d.txns[1 := me.(writeSet := {1})] == BehindTxns(7);
    assert WithoutPending([], 1) == [] && [Version(0, 1, PENDING)] + [] == [Version(0, 1, PENDING)];
    assert d.writeLocks[1 := Some(1)] == Behind(7).writeLocks;
    assert d.data[1 := [Version(0, 1, PENDING)]] == BehindData(7);
  }

  lemma BehindSecondCommit()
    ensures Behind(8) == CommitDb(Behind(7), 1)
  {
    var d := Behind(7);
    StampsFirst(Version(0, 1, PENDING), 5);
    assert CommitDb(d, 1).txns == BehindTxns(8);
    assert CommitDb(d, 1).writeLocks == Behind(8).writeLocks;
    assert CommitDb(d, 1).data == BehindData(8);
  }

  lemma BehindSecondRead()
    ensures Behind(9) == ReadDb(Behind(8), 3, 0)
  {
    var d, me := Behind(8), BehindTxns(8)[3];
    assert NewerWriters(d, 3, 0, 4) == {} && FlagWriters(d.txns, {}) == d.txns;
    assert me.readSet + {0} == {0} && {1} + {3} == {1, 3};
    assert d.txns[3 := me.(readSet := {0})] == BehindTxns(9);
    assert d.sireads[0 := {1, 3}] == Behind(9).sireads;
  }

  lemma BehindThirdRead()
    ensures Behind(10) == ReadDb(Behind(9), 3, 1)
  {
    var d, me := Behind(9), BehindTxns(9)[3];
    assert VersionsOf(d, 1)[0] in VersionsOf(d, 1);
    assert NewerWriters(d, 3, 1, 4) == {1};
    assert me.readSet + {1} == {0, 1} && {} + {3} == {3};
    assert FlagWriters(d.txns, {1})[3 := me.(outConflict := true, readSet := {0, 1})] == BehindTxns(10);
    assert d.sireads[1 := {3}] == Behind(10).sireads;
  }

  lemma BehindThirdCommit()
    ensures Behind(11) == CommitDb(Behind(10), 3)
  {
    var d := Behind(10);
    assert CommitDb(d, 3).txns == BehindTxns(11);
    assert CommitDb(d, 3).writeLocks == Behind(11).writeLocks;
    assert CommitDb(d, 3).data == BehindData(11);
  }

  lemma BehindEarlyStep(n: nat)
    requires n < 6
    ensures Behind(n + 1) == SnapshotRefinement.Store(Behind(n), BEHIND[n])
  {
    match n
    case 1 => BehindFirstRead();
    case 3 => BehindFirstWrite();
    case 4 => BehindFirstCommit();
    case _ => BehindBegin(n);
  }

  lemma BehindStep(n: nat)
    requires n < 11
    ensures Behind(n + 1) == SnapshotRefinement.Store(Behind(n), BEHIND[n])
  {
    match n
    case 6 => BehindSecondWrite();
    case 7 => BehindSecondCommit();
    case 8 => BehindSecondRead();
    case 9 => BehindThirdRead();
    case 10 => BehindThirdCommit();
    case _ => BehindEarlyStep(n);
  }

  lemma BehindRuns() returns (states: seq<Db>)
    ensures Run(states, BEHIND) && forall i: nat :: i <= 11 ==> states[i] == Behind(i)
  {
    states := seq(12, i requires 0 <= i < 12 => Behind(i));
    forall i | 0 <= i < 11
      ensures states[i + 1] == SnapshotRefinement.Store(states[i], BEHIND[i])
    {
      BehindStep(i);
    }
  }

  lemma BehindWrites(states: seq<Db>)
    requires Run(states, BEHIND) && forall i: nat :: i <= 11 ==> states[i] == Behind(i)
    ensures WritesAt(states, BEHIND, 2, 0, 3) && WritesAt(states, BEHIND, 1, 1, 6)
    ensures forall t, k, j: nat :: WritesAt(states, BEHIND, t, k, j) ==>
              (t == 2 && k == 0 && j == 3) || (t == 1 && k == 1 && j == 6)
  {
    assert states[3] == Behind(3) && states[6] == Behind(6);
  }

  lemma BehindReads(states: seq<Db>)
    requires Run(states, BEHIND) && forall i: nat :: i <= 11 ==> states[i] == Behind(i)
    ensures Durable(states, BEHIND, 1) && Durable(states, BEHIND, 2) && Durable(states, BEHIND, 3)
    ensures ReadsAt(states, BEHIND, 1, 0, 1) && ReadsAt(states, BEHIND, 3, 0, 8) && ReadsAt(states, BEHIND, 3, 1, 9)
    ensures ReadResult(states[1], 1, 0) == None && ReadResult(states[8], 3, 0) == Some(0)
    ensures ReadResult(states[9], 3, 1) == None
  {
    assert states[11] == Behind(11) && states[1] == Behind(1) && states[8] == Behind(8) && states[9] == Behind(9);
  }

  /** Transaction 1 reads key 0 before 2 has written it. */
  lemma FirstBeforeSecond(states: seq<Db>, order: seq<TxnId>, p: nat, q: nat)
    requires Run(states, BEHIND) && forall i: nat :: i <= 11 ==> states[i] == Behind(i)
    requires SerialOrder(states, BEHIND, order) && p < |order| && q < |order| && order[p] == 1 && order[q] == 2
    ensures p < q
  {
    BehindWrites(states);
    BehindReads(states);
    assert ReadBy(states, BEHIND, order, p, 1, 0);
    if q < p {
      SerialWrite(states, BEHIND, order, 0, 3, q, p);
      assert false;
    }
  }

  /** Transaction 3 reads it after. */
  lemma SecondBeforeThird(states: seq<Db>, order: seq<TxnId>, q: nat, r: nat)
    requires Run(states, BEHIND) && forall i: nat :: i <= 11 ==> states[i] == Behind(i)
    requires SerialOrder(states, BEHIND, order) && q < |order| && r < |order| && order[q] == 2 && order[r] == 3
    ensures q < r
  {
    BehindWrites(states);
    BehindReads(states);
    assert ReadBy(states, BEHIND, order, r, 8, 0);
    if r < q {
      SerialNone(states, BEHIND, order, 0, r);
      assert false;
    }
  }

  /** But it reads key 1 before 1 has written it. */
  lemma ThirdBeforeFirst(states: seq<Db>, order: seq<TxnId>, p: nat, r: nat)
    requires Run(states, BEHIND) && forall i: nat :: i <= 11 ==> states[i] == Behind(i)
    requires SerialOrder(states, BEHIND, order) && p < |order| && r < |order| && order[p] == 1 && order[r] == 3
    ensures r < p
  {
    BehindWrites(states);
    BehindReads(states);
    assert ReadBy(states, BEHIND, order, r, 9, 1);
    if p < r {
      SerialWrite(states, BEHIND, order, 1, 6, p, r);
      assert false;
    }
  }

  lemma BehindUnordered(states: seq<Db>, order: seq<TxnId>)
    requires Run(states, BEHIND) && forall i: nat :: i <= 11 ==> states[i] == Behind(i)
    ensures !SerialOrder(states, BEHIND, order)
  {
    if SerialOrder(states, BEHIND, order) {
      BehindReads(states);
      var p :| 0 <= p < |order| && order[p] == 1;
      var q :| 0 <= q < |order| && order[q] == 2;
      var r :| 0 <= r < |order| && order[r] == 3;
      FirstBeforeSecond(states, order, p, q);
      SecondBeforeThird(states, order, q, r);
      ThirdBeforeFirst(states, order, p, r);
      assert false;
    }
  }

  /** Without the test at reads: every write is fresh, and still no serial order explains the run. */
  lemma ReadTestNeeded() returns (states: seq<Db>, calls: seq<Call>)
    ensures Run(states, calls) && WritesFresh(states, calls) && !Serializable(states, calls)
  {
    states := BehindRuns();
    calls := BEHIND;
    forall order
      ensures !SerialOrder(states, calls, order)
    {
      BehindUnordered(states, order);
    }
    assert states[3] == Behind(3) && states[6] == Behind(6);
  }
}
