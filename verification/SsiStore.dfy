/** The multi-version store of crates/vf-examples/src/ssi.rs. */
module SsiStore {
  /* The functions over `Db` specify what each operation does to the record behind the mutex; the class
     at the end is the operations in place, with the source's loops, each proved to perform its
     function. `SnapshotRefinement` proves what the version lists are for. */

  import opened Options

  type TxnId = nat
  type Key = nat
  type Value = nat

  /** The timestamp of a pending version (u64::MAX). */
  const PENDING: nat := 0xFFFF_FFFF_FFFF_FFFF

  datatype Status = Active | Committed | Aborted

  datatype Version = Version(value: Value, writer: TxnId, ts: nat)

  datatype Txn = Txn(status: Status, snapshotTs: nat, writeSet: set<Key>, readSet: set<Key>,
                     inConflict: bool, outConflict: bool)

  datatype Db = Db(
    timestamp: nat,
    nextTxn: TxnId,
    txns: map<TxnId, Txn>,
    writeLocks: map<Key, Option<TxnId>>,
    sireads: map<Key, set<TxnId>>,
    data: map<Key, seq<Version>>,
    committed: set<TxnId>)

  const EMPTY: Db := Db(1, 1, map[], map[], map[], map[], {})

  // ---------------------------------------------------------------- versions

  predicate VisibleAt(v: Version, ts: nat) {
    v.ts <= ts && v.ts != PENDING
  }

  /** The first version in the list that is visible at ts. */
  function Visible(vs: seq<Version>, ts: nat): Option<Value> {
    if vs == [] then None
    else if VisibleAt(vs[0], ts) then Some(vs[0].value)
    else Visible(vs[1..], ts)
  }

  function VersionsOf(d: Db, k: Key): seq<Version> {
    if k in d.data then d.data[k] else []
  }

  /** The versions that are not pending writes of t, in order. */
  function WithoutPending(vs: seq<Version>, t: TxnId): seq<Version> {
    if vs == [] then []
    else
      var front := WithoutPending(vs[..|vs| - 1], t);
      var v := vs[|vs| - 1];
      if v.writer == t && v.ts == PENDING then front else front + [v]
  }

  /** The versions that t did not write, in order. */
  function WithoutWriter(vs: seq<Version>, t: TxnId): seq<Version> {
    if vs == [] then []
    else
      var front := WithoutWriter(vs[..|vs| - 1], t);
      var v := vs[|vs| - 1];
      if v.writer == t then front else front + [v]
  }

  function StampOne(v: Version, t: TxnId, ts: nat): Version {
    if v.writer == t && v.ts == PENDING then v.(ts := ts) else v
  }

  function Stamp(vs: seq<Version>, t: TxnId, ts: nat): seq<Version> {
    seq(|vs|, i requires 0 <= i < |vs| => StampOne(vs[i], t, ts))
  }

  /** Stable insertion from the back: newest first. */
  function Insert(v: Version, vs: seq<Version>): seq<Version> {
    if vs == [] || v.ts >= vs[0].ts then [v] + vs else [vs[0]] + Insert(v, vs[1..])
  }

  /** `sort_by` on descending timestamps, which is stable. */
  function NewestFirst(vs: seq<Version>): seq<Version> {
    if vs == [] then [] else Insert(vs[0], NewestFirst(vs[1..]))
  }

  // ---------------------------------------------------------------- conflicts

  predicate IsActive(d: Db, t: TxnId) {
    t in d.txns && d.txns[t].status == Active
  }

  predicate Running(d: Db, t: TxnId) {
    t in d.txns && d.txns[t].status != Aborted
  }

  function ConcurrentReaders(d: Db, t: TxnId, k: Key): set<TxnId> {
    set r | r in (if k in d.sireads then d.sireads[k] else {}) && r != t && Running(d, r)
  }

  function NewerWriters(d: Db, t: TxnId, k: Key, ts: nat): set<TxnId> {
    set v | v in VersionsOf(d, k) && v.writer != t && v.ts > ts && Running(d, v.writer) :: v.writer
  }

  function FlagWriters(txns: map<TxnId, Txn>, writers: set<TxnId>): map<TxnId, Txn> {
    map t | t in txns :: if t in writers then txns[t].(inConflict := true) else txns[t]
  }

  function FlagReaders(txns: map<TxnId, Txn>, readers: set<TxnId>): map<TxnId, Txn> {
    map t | t in txns :: if t in readers && txns[t].status == Active then txns[t].(outConflict := true) else txns[t]
  }

  // ---------------------------------------------------------------- operations

  function BeginDb(d: Db): Db {
    d.(timestamp := d.timestamp + 1, nextTxn := d.nextTxn + 1,
       txns := d.txns[d.nextTxn := Txn(Active, d.timestamp, {}, {}, false, false)])
  }

  function ReadDb(d: Db, t: TxnId, k: Key): Db {
    if !IsActive(d, t) then d
    else
      var writers := NewerWriters(d, t, k, d.txns[t].snapshotTs);
      var txns := FlagWriters(d.txns, writers);
      var me := txns[t];
      d.(txns := txns[t := me.(outConflict := me.outConflict || writers != {}, readSet := me.readSet + {k})],
         sireads := d.sireads[k := (if k in d.sireads then d.sireads[k] else {}) + {t}])
  }

  function ReadResult(d: Db, t: TxnId, k: Key): Option<Value> {
    if IsActive(d, t) then Visible(VersionsOf(d, k), d.txns[t].snapshotTs) else None
  }

  function HolderOf(d: Db, k: Key): Option<TxnId> {
    if k in d.writeLocks then d.writeLocks[k] else None
  }

  predicate WriteAllowed(d: Db, t: TxnId, k: Key) {
    IsActive(d, t) && (HolderOf(d, k).None? || HolderOf(d, k) == Some(t))
  }

  function WriteDb(d: Db, t: TxnId, k: Key, v: Value): Db {
    if !WriteAllowed(d, t, k) then d
    else
      var readers := ConcurrentReaders(d, t, k);
      var txns := FlagReaders(d.txns, readers);
      var me := txns[t];
      d.(txns := txns[t := me.(inConflict := me.inConflict || readers != {}, writeSet := me.writeSet + {k})],
         writeLocks := d.writeLocks[k := Some(t)],
         data := d.data[k := [Version(v, t, PENDING)] + WithoutPending(VersionsOf(d, k), t)])
  }

  function ReleaseAll(locks: map<Key, Option<TxnId>>, t: TxnId, keys: set<Key>): map<Key, Option<TxnId>> {
    map k | k in locks :: if k in keys && locks[k] == Some(t) then None else locks[k]
  }

  function DropAll(data: map<Key, seq<Version>>, t: TxnId, keys: set<Key>): map<Key, seq<Version>> {
    map k | k in data :: if k in keys then WithoutWriter(data[k], t) else data[k]
  }

  function StampAll(data: map<Key, seq<Version>>, t: TxnId, keys: set<Key>, ts: nat): map<Key, seq<Version>> {
    map k | k in data :: if k in keys then NewestFirst(Stamp(data[k], t, ts)) else data[k]
  }

  function Forget(sireads: map<Key, set<TxnId>>, t: TxnId): map<Key, set<TxnId>> {
    map k | k in sireads :: sireads[k] - {t}
  }

  function Discard(d: Db, t: TxnId): Db
    requires t in d.txns
  {
    d.(txns := d.txns[t := d.txns[t].(status := Aborted)],
       writeLocks := ReleaseAll(d.writeLocks, t, d.txns[t].writeSet),
       data := DropAll(d.data, t, d.txns[t].writeSet))
  }

  predicate CommitAllowed(d: Db, t: TxnId) {
    IsActive(d, t) && !(d.txns[t].inConflict && d.txns[t].outConflict)
  }

  function CommitDb(d: Db, t: TxnId): Db {
    if !IsActive(d, t) then d
    else if !CommitAllowed(d, t) then Discard(d, t)
    else
      d.(timestamp := d.timestamp + 1,
         txns := d.txns[t := d.txns[t].(status := Committed)],
         writeLocks := ReleaseAll(d.writeLocks, t, d.txns[t].writeSet),
         data := StampAll(d.data, t, d.txns[t].writeSet, d.timestamp),
         committed := d.committed + {t})
  }

  function AbortDb(d: Db, t: TxnId): Db {
    if !IsActive(d, t) then d
    else Discard(d, t).(sireads := Forget(d.sireads, t))
  }

  function CurrentValue(d: Db, k: Key): Option<Value> {
    Visible(VersionsOf(d, k), d.timestamp)
  }

  // ---------------------------------------------------------------- the operations, in place

  class Store {
    var timestamp: nat
    var nextTxn: TxnId
    var txns: map<TxnId, Txn>
    var writeLocks: map<Key, Option<TxnId>>
    var sireads: map<Key, set<TxnId>>
    var data: map<Key, seq<Version>>
    var committed: set<TxnId>

    ghost function View(): Db
      reads this
    {
      Db(timestamp, nextTxn, txns, writeLocks, sireads, data, committed)
    }

    constructor ()
      ensures View() == EMPTY
    {
      timestamp, nextTxn := 1, 1;
      txns, writeLocks, sireads, data, committed := map[], map[], map[], map[], {};
    }

    method FindVisible(k: Key, ts: nat) returns (value: Option<Value>)
      ensures value == Visible(VersionsOf(View(), k), ts)
    {
      if k in data {
        var versions := data[k];
        for i := 0 to |versions|
          invariant Visible(versions[i..], ts) == Visible(versions, ts)
        {
          if VisibleAt(versions[i], ts) {
            return Some(versions[i].value);
          }
        }
      }
      value := None;
    }

    method Begin() returns (t: TxnId)
      requires timestamp < PENDING
      modifies this
      ensures View() == BeginDb(old(View())) && t == old(nextTxn)
    {
      t := nextTxn;
      nextTxn := nextTxn + 1;
      var snapshotTs := timestamp;
      timestamp := timestamp + 1;
      txns := txns[t := Txn(Active, snapshotTs, {}, {}, false, false)];
    }

    method CollectNewerWriters(t: TxnId, k: Key, ts: nat) returns (writers: set<TxnId>)
      ensures writers == NewerWriters(View(), t, k, ts)
    {
      writers := {};
      if k in data {
        var versions := data[k];
        for i := 0 to |versions|
          invariant writers == set v | v in versions[..i] && v.writer != t && v.ts > ts && Running(View(), v.writer)
                                 :: v.writer
        {
          var v := versions[i];
          if v.writer != t && v.ts > ts && v.writer in txns && txns[v.writer].status != Aborted {
            writers := writers + {v.writer};
          }
          assert versions[..i + 1] == versions[..i] + [v];
        }
        assert versions[..|versions|] == versions;
      }
    }

    method ReadKey(t: TxnId, k: Key) returns (value: Option<Value>)
      modifies this
      ensures View() == ReadDb(old(View()), t, k)
      ensures value == ReadResult(old(View()), t, k)
    {
      if t !in txns || txns[t].status != Active {
        return None;
      }
      var snapshotTs := txns[t].snapshotTs;
      var writers := CollectNewerWriters(t, k, snapshotTs);
      RaiseInConflict(writers);
      if writers != {} {
        txns := txns[t := txns[t].(outConflict := true)];
      }
      txns := txns[t := txns[t].(readSet := txns[t].readSet + {k})];
      sireads := sireads[k := (if k in sireads then sireads[k] else {}) + {t}];
      value := FindVisible(k, snapshotTs);
    }

    method RaiseInConflict(writers: set<TxnId>)
      modifies this`txns
      ensures txns == FlagWriters(old(txns), writers)
    {
      var todo := writers;
      while todo != {}
        invariant todo <= writers
        invariant txns == FlagWriters(old(txns), writers - todo)
        decreases |todo|
      {
        var w :| w in todo;
        if w in txns {
          txns := txns[w := txns[w].(inConflict := true)];
        }
        todo := todo - {w};
      }
    }

    method RaiseOutConflict(readers: set<TxnId>)
      modifies this`txns
      ensures txns == FlagReaders(old(txns), readers)
    {
      var todo := readers;
      while todo != {}
        invariant todo <= readers
        invariant txns == FlagReaders(old(txns), readers - todo)
        decreases |todo|
      {
        var r :| r in todo;
        if r in txns && txns[r].status == Active {
          txns := txns[r := txns[r].(outConflict := true)];
        }
        todo := todo - {r};
      }
    }

    method WriteKey(t: TxnId, k: Key, v: Value) returns (ok: bool)
      modifies this
      ensures View() == WriteDb(old(View()), t, k, v)
      ensures ok == WriteAllowed(old(View()), t, k)
    {
      if t !in txns || txns[t].status != Active {
        return false;
      }
      var holder := if k in writeLocks then writeLocks[k] else None;
      if holder.Some? && holder != Some(t) {
        return false;
      }
      MarkWriter(t, k);
      writeLocks := writeLocks[k := Some(t)];
      PlacePending(t, k, v);
      ok := true;
    }

    /** The conflict flags of a write, and its entry in the write set. */
    method MarkWriter(t: TxnId, k: Key)
      requires t in txns
      modifies this`txns
      ensures var readers := ConcurrentReaders(old(View()), t, k);
              var marked := FlagReaders(old(txns), readers);
              var me := marked[t];
              txns == marked[t := me.(inConflict := me.inConflict || readers != {}, writeSet := me.writeSet + {k})]
    {
      var readers := set r | r in (if k in sireads then sireads[k] else {})
                             && r != t && r in txns && txns[r].status != Aborted;
      RaiseOutConflict(readers);
      if readers != {} {
        txns := txns[t := txns[t].(inConflict := true)];
      }
      txns := txns[t := txns[t].(writeSet := txns[t].writeSet + {k})];
    }

    method PlacePending(t: TxnId, k: Key, v: Value)
      modifies this`data
      ensures data == old(data)[k := [Version(v, t, PENDING)] + WithoutPending(VersionsOf(old(View()), k), t)]
    {
      var kept := RetainNotPending(if k in data then data[k] else [], t);
      data := data[k := [Version(v, t, PENDING)] + kept];
    }

    static method RetainNotPending(versions: seq<Version>, t: TxnId) returns (kept: seq<Version>)
      ensures kept == WithoutPending(versions, t)
    {
      kept := [];
      for i := 0 to |versions|
        invariant kept == WithoutPending(versions[..i], t)
      {
        if !(versions[i].writer == t && versions[i].ts == PENDING) {
          kept := kept + [versions[i]];
        }
        assert versions[..i + 1][..i] == versions[..i];
      }
      assert versions[..|versions|] == versions;
    }

    static method RetainOthers(versions: seq<Version>, t: TxnId) returns (kept: seq<Version>)
      ensures kept == WithoutWriter(versions, t)
    {
      kept := [];
      for i := 0 to |versions|
        invariant kept == WithoutWriter(versions[..i], t)
      {
        if versions[i].writer != t {
          kept := kept + [versions[i]];
        }
        assert versions[..i + 1][..i] == versions[..i];
      }
      assert versions[..|versions|] == versions;
    }

    method Commit(t: TxnId) returns (ok: bool)
      requires timestamp < PENDING
      modifies this
      ensures View() == CommitDb(old(View()), t)
      ensures ok == CommitAllowed(old(View()), t)
    {
      if t !in txns || txns[t].status != Active {
        return false;
      }
      var writeSet := txns[t].writeSet;
      if txns[t].inConflict && txns[t].outConflict {
        txns := txns[t := txns[t].(status := Aborted)];
        ReleaseLocks(t, writeSet);
        DropVersions(t, writeSet);
        return false;
      }
      var commitTs := timestamp;
      timestamp := timestamp + 1;
      StampVersions(t, writeSet, commitTs);
      ReleaseLocks(t, writeSet);
      txns := txns[t := txns[t].(status := Committed)];
      committed := committed + {t};
      ok := true;
    }

    method Abort(t: TxnId)
      modifies this
      ensures View() == AbortDb(old(View()), t)
    {
      if t !in txns || txns[t].status != Active {
        return;
      }
      var writeSet := txns[t].writeSet;
      txns := txns[t := txns[t].(status := Aborted)];
      ReleaseLocks(t, writeSet);
      DropVersions(t, writeSet);
      sireads := Forget(sireads, t);
    }

    method ReleaseLocks(t: TxnId, keys: set<Key>)
      modifies this`writeLocks
      ensures writeLocks == ReleaseAll(old(writeLocks), t, keys)
    {
      var todo := keys;
      while todo != {}
        invariant todo <= keys
        invariant writeLocks == ReleaseAll(old(writeLocks), t, keys - todo)
        decreases |todo|
      {
        var k :| k in todo;
        if k in writeLocks && writeLocks[k] == Some(t) {
          writeLocks := writeLocks[k := None];
        }
        todo := todo - {k};
      }
    }

    method DropVersions(t: TxnId, keys: set<Key>)
      modifies this`data
      ensures data == DropAll(old(data), t, keys)
    {
      var todo := keys;
      while todo != {}
        invariant todo <= keys
        invariant data == DropAll(old(data), t, keys - todo)
        decreases |todo|
      {
        var k :| k in todo;
        if k in data {
          var kept := RetainOthers(data[k], t);
          data := data[k := kept];
        }
        todo := todo - {k};
      }
    }

    /** The loop over the write set, the loop over each key's versions, and the sort. */
    method StampVersions(t: TxnId, keys: set<Key>, ts: nat)
      modifies this`data
      ensures data == StampAll(old(data), t, keys, ts)
    {
      var todo := keys;
      while todo != {}
        invariant todo <= keys
        invariant data == StampAll(old(data), t, keys - todo, ts)
        decreases |todo|
      {
        var k :| k in todo;
        if k in data {
          var versions := data[k];
          for i := 0 to |versions|
            invariant |versions| == |data[k]|
            invariant forall j :: 0 <= j < i ==> versions[j] == StampOne(data[k][j], t, ts)
            invariant forall j :: i <= j < |versions| ==> versions[j] == data[k][j]
          {
            if versions[i].writer == t && versions[i].ts == PENDING {
              versions := versions[i := versions[i].(ts := ts)];
            }
          }
          assert versions == Stamp(data[k], t, ts);
          data := data[k := NewestFirst(versions)];
        }
        todo := todo - {k};
      }
    }

    method GetCurrentValue(k: Key) returns (value: Option<Value>)
      ensures value == CurrentValue(View(), k)
    {
      value := FindVisible(k, timestamp);
    }
  }
}
