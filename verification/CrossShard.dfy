/** Cross-shard optimistic transactions. */
module CrossShard {
  /* The transactions of tools/vf-evolve/tasks/cross_shard_ssi/initial.rs. Every critical section of
     the source is one step: a snapshot version is read shard by shard, a read locks one shard and
     then the transaction table, a commit takes its shard locks one at a time, validates, applies and
     releases shard by shard. The class at the end is the same operations executed by one caller,
     with the source's loops. */

  import opened Options

  type TxnId = nat

  datatype Shard = Shard(data: map<nat, nat>, version: nat)

  datatype Read = Read(shard: nat, key: nat)

  datatype Write = Write(shard: nat, key: nat, value: nat)

  datatype TxnState = TxnState(readLog: seq<Read>, writeLog: seq<Write>, snapshot: seq<nat>)

  // ---------------------------------------------------------------- pure pieces

  function Get(data: map<nat, nat>, key: nat): Option<nat> {
    if key in data then Some(data[key]) else None
  }

  function Put(data: map<nat, nat>, key: nat, value: nat): map<nat, nat> {
    data[key := value]
  }

  function InvolvedSet(st: TxnState): set<nat> {
    (set r | r in st.readLog :: r.shard) + (set w | w in st.writeLog :: w.shard)
  }

  /** The members of `ids` below n, ascending and without repetition. */
  function Ascending(ids: set<nat>, n: nat): seq<nat> {
    if n == 0 then []
    else Ascending(ids, n - 1) + if n - 1 in ids then [n - 1] else []
  }

  predicate WritesTo(writes: seq<Write>, s: nat) {
    exists i :: 0 <= i < |writes| && writes[i].shard == s
  }

  /** The buffered writes to shard s, inserted in buffer order. */
  function ApplyTo(data: map<nat, nat>, writes: seq<Write>, s: nat): map<nat, nat> {
    if writes == [] then data
    else
      var w := writes[|writes| - 1];
      var before := ApplyTo(data, writes[..|writes| - 1], s);
      if w.shard == s then Put(before, w.key, w.value) else before
  }

  function ApplyShard(shard: Shard, writes: seq<Write>, s: nat): Shard {
    if WritesTo(writes, s) then Shard(ApplyTo(shard.data, writes, s), shard.version + 1) else shard
  }

  // ---------------------------------------------------------------- the concurrent system

  /** Where the client of one transaction is. */
  datatype Pc =
    | Beginning(versions: seq<nat>)
    | Idle
    | WantRead(shard: nat, key: nat)
    | Reading(shard: nat, key: nat)
    | Locking(st: TxnState, involved: seq<nat>, k: nat)
    | Validating(st: TxnState, involved: seq<nat>, k: nat)
    | Applying(st: TxnState, involved: seq<nat>, k: nat)
    | Releasing(involved: seq<nat>, k: nat, ok: bool)
    | Ended(ok: bool)

  datatype Observation = Observation(shard: nat, key: nat, value: Option<nat>)

  /** A committed transaction: what its reads returned and what it wrote. */
  datatype Committed = Committed(id: TxnId, observed: seq<Observation>, writeLog: seq<Write>, snapshot: seq<nat>)

  /** `shards`, `txns` and `nextId` are the source's fields and `holders` the state of the shard
      mutexes. `pcs` are the clients. `seen` and `order` record what reads returned and the order
      in which commits passed validation; no step depends on them. */
  datatype System = System(
    shards: seq<Shard>,
    holders: seq<Option<TxnId>>,
    txns: map<TxnId, TxnState>,
    nextId: nat,
    pcs: map<TxnId, Pc>,
    seen: map<TxnId, seq<Observation>>,
    order: seq<Committed>)

  datatype Op = OpRead(shard: nat, key: nat) | OpWrite(shard: nat, key: nat, value: nat) | OpCommit | OpAbort

  datatype Action = Start | Invoke(id: TxnId, op: Op) | Resume(id: TxnId)

  ghost predicate Initial(y: System) {
    && (forall s :: 0 <= s < |y.shards| ==> y.shards[s] == Shard(map[], 0))
    && |y.holders| == |y.shards|
    && (forall s :: 0 <= s < |y.holders| ==> y.holders[s] == None)
    && y.txns == map[] && y.nextId == 1 && y.pcs == map[] && y.seen == map[] && y.order == []
  }

  /** The shard lock a client is waiting for, if its next step needs one. */
  function Wanted(y: System, pc: Pc): Option<nat> {
    match pc
    case Beginning(vs) => if |vs| < |y.shards| then Some(|vs|) else None
    case WantRead(s, _) => Some(s)
    case Locking(_, involved, k) => if k < |involved| then Some(involved[k]) else None
    case _ => None
  }

  predicate Unfinished(pc: Pc) {
    !pc.Idle? && !pc.Ended?
  }

  /** An unfinished client can take its next step when the lock it needs is free. */
  predicate CanResume(y: System, t: TxnId) {
    && t in y.pcs
    && Unfinished(y.pcs[t])
    && match Wanted(y, y.pcs[t])
       case None => true
       case Some(s) => s < |y.holders| && y.holders[s].None?
  }

  predicate Enabled(y: System, a: Action) {
    match a
    case Start => true
    case Invoke(t, op) =>
      && t in y.pcs && !Unfinished(y.pcs[t])
      && (op.OpRead? ==> op.shard < |y.shards|)
      && (op.OpWrite? ==> op.shard < |y.shards|)
    case Resume(t) => CanResume(y, t)
  }

  function StartTxn(y: System): System {
    y.(nextId := y.nextId + 1, pcs := y.pcs[y.nextId := Beginning([])], seen := y.seen[y.nextId := []])
  }

  function At(y: System, t: TxnId, pc: Pc): System {
    y.(pcs := y.pcs[t := pc])
  }

  /** A call on a transaction; on one that has ended every call leaves the state as it is. */
  function InvokeOp(y: System, t: TxnId, op: Op): System {
    if t !in y.txns then y
    else
      var st := y.txns[t];
      match op
      case OpRead(s, k) => At(y, t, WantRead(s, k))
      case OpWrite(s, k, v) => y.(txns := y.txns[t := st.(writeLog := st.writeLog + [Write(s, k, v)])])
      case OpCommit =>
        At(y.(txns := y.txns - {t}), t, Locking(st, Ascending(InvolvedSet(st), |y.shards|), 0))
      case OpAbort => At(y.(txns := y.txns - {t}), t, Ended(false))
  }

  function SeenBy(y: System, t: TxnId): seq<Observation> {
    if t in y.seen then y.seen[t] else []
  }

  ghost predicate InRange(y: System, pc: Pc) {
    match pc
    case WantRead(s, _) => s < |y.shards|
    case Locking(st, involved, k) => k <= |involved| && IndicesOk(y, st, involved)
    case Validating(st, involved, k) => k <= |involved| && IndicesOk(y, st, involved)
    case Applying(st, involved, k) => k <= |involved| && IndicesOk(y, st, involved)
    case Releasing(involved, k, _) => k <= |involved| && forall i :: 0 <= i < |involved| ==> involved[i] < |y.shards|
    case _ => true
  }

  ghost predicate IndicesOk(y: System, st: TxnState, involved: seq<nat>) {
    |st.snapshot| == |y.shards| && forall i :: 0 <= i < |involved| ==> involved[i] < |y.shards|
  }

  ghost function ResumeTxn(y: System, t: TxnId): System
    requires |y.holders| == |y.shards| && CanResume(y, t) && InRange(y, y.pcs[t])
  {
    match y.pcs[t]
    case Beginning(vs) =>
      if |vs| < |y.shards| then At(y, t, Beginning(vs + [y.shards[|vs|].version]))
      else At(y.(txns := y.txns[t := TxnState([], [], vs)]), t, Idle)
    case WantRead(s, k) =>
      At(y.(seen := y.seen[t := SeenBy(y, t) + [Observation(s, k, Get(y.shards[s].data, k))]]), t, Reading(s, k))
    case Reading(s, k) =>
      At(if t in y.txns then y.(txns := y.txns[t := y.txns[t].(readLog := y.txns[t].readLog + [Read(s, k)])]) else y,
         t, Idle)
    case Locking(st, involved, k) =>
      if k < |involved|
      then At(y.(holders := y.holders[involved[k] := Some(t)]), t, Locking(st, involved, k + 1))
      else At(y, t, Validating(st, involved, 0))
    case Validating(st, involved, k) =>
      if k < |involved| then
        if y.shards[involved[k]].version != st.snapshot[involved[k]]
        then At(y, t, Releasing(involved, 0, false))
        else At(y, t, Validating(st, involved, k + 1))
      else
        At(y.(order := y.order + [Committed(t, SeenBy(y, t), st.writeLog, st.snapshot)]), t, Applying(st, involved, 0))
    case Applying(st, involved, k) =>
      if k < |involved| then
        var s := involved[k];
        At(y.(shards := y.shards[s := ApplyShard(y.shards[s], st.writeLog, s)]), t, Applying(st, involved, k + 1))
      else At(y, t, Releasing(involved, 0, true))
    case Releasing(involved, k, ok) =>
      if k < |involved|
      then At(y.(holders := y.holders[involved[k] := None]), t, Releasing(involved, k + 1, ok))
      else At(y, t, Ended(ok))
  }

  // ---------------------------------------------------------------- serial re-execution

  function EmptyStore(n: nat): seq<map<nat, nat>> {
    seq(n, _ => map[])
  }

  /** One transaction run alone: its writes in buffer order, the last one to a key winning. */
  function RunAlone(store: seq<map<nat, nat>>, writes: seq<Write>): seq<map<nat, nat>> {
    if writes == [] then store
    else
      var w := writes[|writes| - 1];
      var before := RunAlone(store, writes[..|writes| - 1]);
      if w.shard < |before| then
        var data: map<nat, nat> := before[w.shard][w.key := w.value];
        before[w.shard := data]
      else before
  }

  /** The committed transactions run one at a time, in commit order, from empty shards. */
  function Replay(order: seq<Committed>, n: nat): seq<map<nat, nat>> {
    if order == [] then EmptyStore(n)
    else RunAlone(Replay(order[..|order| - 1], n), order[|order| - 1].writeLog)
  }

  predicate Answers(data: map<nat, nat>, o: Observation) {
    match o.value
    case Some(v) => o.key in data && data[o.key] == v
    case None => o.key !in data
  }

  /** Every read of the i-th committed transaction returned what the store holds when the
      transaction is re-run in its place, before its own writes. */
  ghost predicate ReadsAgree(order: seq<Committed>, i: nat, n: nat)
    requires i < |order|
  {
    forall o :: o in order[i].observed ==>
      o.shard < |Replay(order[..i], n)| && Answers(Replay(order[..i], n)[o.shard], o)
  }

  // ---------------------------------------------------------------- one caller at a time

  datatype CommitResult = Ok | WriteConflict | TxnNotFound

  /** `CrossShardSsi` as one caller meets it: each method is a whole operation. */
  class Store {
    const shards: array<Shard>
    var txns: map<TxnId, TxnState>
    var nextTxnId: nat

    ghost predicate Valid()
      reads this
    {
      forall t :: t in txns ==>
        && |txns[t].snapshot| == shards.Length
        && (forall r :: r in txns[t].readLog ==> r.shard < shards.Length)
        && (forall w :: w in txns[t].writeLog ==> w.shard < shards.Length)
    }

    constructor (numShards: nat)
      requires numShards > 0
      ensures Valid() && fresh(shards) && shards.Length == numShards
      ensures forall s :: 0 <= s < numShards ==> shards[s] == Shard(map[], 0)
      ensures txns == map[] && nextTxnId == 1
    {
      shards := new Shard[numShards](_ => Shard(map[], 0));
      txns := map[];
      nextTxnId := 1;
    }

    method BeginTxn() returns (id: TxnId)
      requires Valid()
      modifies this
      ensures Valid()
      ensures id == old(nextTxnId) && nextTxnId == id + 1
      ensures id in txns && txns == old(txns)[id := txns[id]]
      ensures txns[id].readLog == [] && txns[id].writeLog == [] && |txns[id].snapshot| == shards.Length
      ensures forall s :: 0 <= s < shards.Length ==> txns[id].snapshot[s] == shards[s].version
    {
      id := nextTxnId;
      nextTxnId := nextTxnId + 1;
      var versions: seq<nat> := [];
      for s := 0 to shards.Length
        invariant |versions| == s
        invariant forall i :: 0 <= i < s ==> versions[i] == shards[i].version
      {
        versions := versions + [shards[s].version];
      }
      txns := txns[id := TxnState([], [], versions)];
    }

    method ReadKey(t: TxnId, shard: nat, key: nat) returns (value: Option<nat>)
      requires Valid() && shard < shards.Length
      modifies this`txns
      ensures Valid()
      ensures value == Get(shards[shard].data, key)
      ensures txns == if t in old(txns)
                      then old(txns)[t := old(txns)[t].(readLog := old(txns)[t].readLog + [Read(shard, key)])]
                      else old(txns)
    {
      value := Get(shards[shard].data, key);
      if t in txns {
        txns := txns[t := txns[t].(readLog := txns[t].readLog + [Read(shard, key)])];
      }
    }

    method WriteKey(t: TxnId, shard: nat, key: nat, value: nat)
      requires Valid() && shard < shards.Length
      modifies this`txns
      ensures Valid()
      ensures txns == if t in old(txns)
                      then old(txns)[t := old(txns)[t].(writeLog := old(txns)[t].writeLog + [Write(shard, key, value)])]
                      else old(txns)
    {
      if t in txns {
        txns := txns[t := txns[t].(writeLog := txns[t].writeLog + [Write(shard, key, value)])];
      }
    }

    /** A commit with nobody else at work: it fails exactly when the transaction is unknown or the
        version of an involved shard has moved since its snapshot. Otherwise the shards become
        what running the transaction alone makes of them, and the version of exactly the shards it
        wrote goes up by one. */
    method Commit(t: TxnId) returns (result: CommitResult)
      requires Valid()
      modifies this`txns, shards
      ensures Valid() && txns == old(txns) - {t}
      ensures t !in old(txns) ==> result == TxnNotFound
      ensures t in old(txns) ==>
                (result == Ok) ==
                (forall s :: s in InvolvedSet(old(txns)[t]) && s < shards.Length ==>
                   old(shards[s]).version == old(txns)[t].snapshot[s])
      ensures result != Ok ==> shards[..] == old(shards[..])
      ensures t in old(txns) && result != Ok ==> result == WriteConflict
      ensures result == Ok ==> t in old(txns) && forall s :: 0 <= s < shards.Length ==>
                && shards[s].data == ApplyTo(old(shards[s]).data, old(txns)[t].writeLog, s)
                && shards[s].version == old(shards[s]).version + if WritesTo(old(txns)[t].writeLog, s) then 1 else 0
    {
      if t !in txns {
        return TxnNotFound;
      }
      var st := txns[t];
      txns := txns - {t};
      var involved := Ascending(InvolvedSet(st), shards.Length);
      AscendingMembers(InvolvedSet(st), shards.Length);
      for i := 0 to |involved|
        invariant forall j :: 0 <= j < i ==> shards[involved[j]].version == st.snapshot[involved[j]]
      {
        if shards[involved[i]].version != st.snapshot[involved[i]] {
          assert involved[i] in InvolvedSet(st);
          return WriteConflict;
        }
      }
      ApplyWrites(st.writeLog, involved);
      forall s | 0 <= s < shards.Length
        ensures shards[s].data == ApplyTo(old(shards[s]).data, st.writeLog, s)
        ensures shards[s].version == old(shards[s]).version + if WritesTo(st.writeLog, s) then 1 else 0
      {
        if s !in involved {
          UntouchedShard(old(shards[s]).data, st.writeLog, s);
        } else if !WritesTo(st.writeLog, s) {
          UntouchedShard(old(shards[s]).data, st.writeLog, s);
        }
      }
      result := Ok;
    }

    /** The two nested loops that apply the buffered writes guard by guard. */
    method ApplyWrites(writes: seq<Write>, involved: seq<nat>)
      requires forall i :: 0 <= i < |involved| ==> involved[i] < shards.Length
      requires forall i, j :: 0 <= i < j < |involved| ==> involved[i] < involved[j]
      modifies shards
      ensures forall s :: 0 <= s < shards.Length ==>
                shards[s] == if s in involved then ApplyShard(old(shards[s]), writes, s) else old(shards[s])
    {
      for i := 0 to |involved|
        invariant forall s :: 0 <= s < shards.Length ==>
                    shards[s] == if s in involved[..i] then ApplyShard(old(shards[s]), writes, s) else old(shards[s])
      {
        var s := involved[i];
        assert s !in involved[..i];
        if WritesTo(writes, s) {
          for j := 0 to |writes|
            invariant shards[s] == Shard(ApplyTo(old(shards[s]).data, writes[..j], s), old(shards[s]).version)
            invariant forall r :: 0 <= r < shards.Length && r != s ==>
                        shards[r] == if r in involved[..i] then ApplyShard(old(shards[r]), writes, r)
                                     else old(shards[r])
          {
            if writes[j].shard == s {
              shards[s] := Shard(Put(shards[s].data, writes[j].key, writes[j].value), shards[s].version);
            }
            assert writes[..j + 1][..j] == writes[..j];
          }
          assert writes[..|writes|] == writes;
          shards[s] := Shard(shards[s].data, shards[s].version + 1);
        }
        assert involved[..i + 1] == involved[..i] + [s];
      }
    }

    method Abort(t: TxnId)
      requires Valid()
      modifies this`txns
      ensures Valid() && txns == old(txns) - {t}
    {
      txns := txns - {t};
    }
  }

  lemma {:induction false} AscendingMembers(ids: set<nat>, n: nat)
    ensures forall s :: s in Ascending(ids, n) <==> s in ids && s < n
    ensures forall i :: 0 <= i < |Ascending(ids, n)| ==> Ascending(ids, n)[i] in ids && Ascending(ids, n)[i] < n
    ensures forall i, j :: 0 <= i < j < |Ascending(ids, n)| ==> Ascending(ids, n)[i] < Ascending(ids, n)[j]
  {
    if n > 0 {
      AscendingMembers(ids, n - 1);
    }
  }

  lemma {:induction false} UntouchedShard(data: map<nat, nat>, writes: seq<Write>, s: nat)
    requires !WritesTo(writes, s)
    ensures ApplyTo(data, writes, s) == data
  {
    if writes != [] {
      var w := writes[|writes| - 1];
      assert writes[|writes| - 1].shard != s;
      if WritesTo(writes[..|writes| - 1], s) {
        var i :| 0 <= i < |writes| - 1 && writes[..|writes| - 1][i].shard == s;
        assert false;
      }
      UntouchedShard(data, writes[..|writes| - 1], s);
    }
  }
}
