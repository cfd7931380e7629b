/** What cross-shard commits keep. */
module CrossShardProofs {
  /* Serializability and deadlock freedom of the interleaved commits of CrossShard.dfy. */

  import opened Options
  import opened CrossShard

  // ---------------------------------------------------------------- what every step keeps

  ghost predicate Ascends(involved: seq<nat>) {
    forall i, j :: 0 <= i < j < |involved| ==> involved[i] < involved[j]
  }

  ghost predicate Holds(pc: Pc, s: nat) {
    match pc
    case Locking(_, involved, k) => k <= |involved| && s in involved[..k]
    case Validating(_, involved, _) => s in involved
    case Applying(_, involved, _) => s in involved
    case Releasing(involved, k, _) => k <= |involved| && s in involved[k..]
    case _ => false
  }

  ghost predicate Shaped(y: System) {
    && |y.holders| == |y.shards|
    && (forall t :: t in y.pcs ==> t < y.nextId && InRange(y, y.pcs[t]))
    && (forall t :: t in y.txns ==> t in y.pcs)
  }

  /** A shard's mutex is held by exactly the client whose position says so. */
  ghost predicate LocksMatch(y: System) {
    && |y.holders| == |y.shards|
    && (forall s :: 0 <= s < |y.holders| && y.holders[s].Some? ==> y.holders[s].value in y.pcs)
    && (forall t, s: nat :: t in y.pcs && s < |y.holders| ==> (y.holders[s] == Some(t) <==> Holds(y.pcs[t], s)))
  }

  /** What a live transaction has read is still there, as long as the shard's version has not moved
      since the transaction's snapshot. */
  ghost predicate Tracks(y: System, t: TxnId, st: TxnState) {
    && |st.snapshot| == |y.shards|
    && (forall s :: 0 <= s < |y.shards| ==> st.snapshot[s] <= y.shards[s].version)
    && (forall w :: w in st.writeLog ==> w.shard < |y.shards|)
    && forall o :: o in SeenBy(y, t) ==>
         o.shard < |y.shards|
         && (y.shards[o.shard].version == st.snapshot[o.shard] ==> Get(y.shards[o.shard].data, o.key) == o.value)
  }

  ghost predicate Logged(y: System, t: TxnId, st: TxnState)
    requires t in y.pcs
  {
    forall o :: o in SeenBy(y, t) ==> Read(o.shard, o.key) in st.readLog || y.pcs[t] == Reading(o.shard, o.key)
  }

  ghost predicate Involves(y: System, t: TxnId, st: TxnState, involved: seq<nat>) {
    && Ascends(involved)
    && (forall o :: o in SeenBy(y, t) ==> o.shard in involved)
    && (forall w :: w in st.writeLog ==> w.shard in involved)
  }

  ghost predicate ThreadInv(y: System, t: TxnId)
    requires t in y.pcs && Shaped(y)
  {
    match y.pcs[t]
    case Beginning(vs) =>
      && t !in y.txns && SeenBy(y, t) == [] && |vs| <= |y.shards|
      && forall s :: 0 <= s < |vs| ==> vs[s] <= y.shards[s].version
    case Idle => t in y.txns && Tracks(y, t, y.txns[t]) && Logged(y, t, y.txns[t])
    case WantRead(_, _) => t in y.txns && Tracks(y, t, y.txns[t]) && Logged(y, t, y.txns[t])
    case Reading(_, _) => t in y.txns && Tracks(y, t, y.txns[t]) && Logged(y, t, y.txns[t])
    case Locking(st, involved, _) => t !in y.txns && Tracks(y, t, st) && Involves(y, t, st, involved)
    case Validating(st, involved, k) =>
      && t !in y.txns && Tracks(y, t, st) && Involves(y, t, st, involved)
      && forall i :: 0 <= i < k ==> y.shards[involved[i]].version == st.snapshot[involved[i]]
    case Applying(st, involved, _) => t !in y.txns && Involves(y, t, st, involved)
    case Releasing(involved, _, _) => t !in y.txns && Ascends(involved)
    case Ended(_) => t !in y.txns
  }

  ghost predicate ThreadsInv(y: System) {
    Shaped(y) && forall t :: t in y.pcs ==> ThreadInv(y, t)
  }

  /** Committed, but this shard's writes are not in yet. */
  ghost predicate Pending(pc: Pc, s: nat) {
    pc.Applying? && pc.k <= |pc.involved| && s in pc.involved[pc.k..]
  }

  /** The contents of shard s once the commit in progress on it, if any, has been applied. */
  ghost function Settled(y: System, s: nat): map<nat, nat>
    requires s < |y.shards| && |y.holders| == |y.shards|
  {
    if y.holders[s].Some? && y.holders[s].value in y.pcs && Pending(y.pcs[y.holders[s].value], s)
    then ApplyTo(y.shards[s].data, y.pcs[y.holders[s].value].st.writeLog, s)
    else y.shards[s].data
  }

  ghost predicate DataInv(y: System) {
    && |y.holders| == |y.shards|
    && |Replay(y.order, |y.shards|)| == |y.shards|
    && forall s: nat :: s < |y.shards| ==> Replay(y.order, |y.shards|)[s] == Settled(y, s)
  }

  ghost predicate OrderInv(y: System) {
    forall i: nat :: i < |y.order| ==> ReadsAgree(y.order, i, |y.shards|)
  }

  ghost predicate Inv(y: System) {
    ThreadsInv(y) && LocksMatch(y) && DataInv(y) && OrderInv(y)
  }

  /** The client is past its commit point. */
  ghost predicate Decided(pc: Pc) {
    pc.Applying? || (pc.Releasing? && pc.ok) || (pc.Ended? && pc.ok)
  }

  ghost predicate InOrder(order: seq<Committed>, t: TxnId) {
    exists i :: 0 <= i < |order| && order[i].id == t
  }

  /** The order lists exactly the transactions past their commit point, each once. */
  ghost predicate Accounted(y: System) {
    && (forall t :: InOrder(y.order, t) <==> t in y.pcs && Decided(y.pcs[t]))
    && (forall i, j :: 0 <= i < j < |y.order| ==> y.order[i].id != y.order[j].id)
  }

  // ---------------------------------------------------------------- steps

  ghost function Next(y: System, a: Action): System
    requires Shaped(y) && Enabled(y, a)
  {
    match a
    case Start => StartTxn(y)
    case Invoke(t, op) => InvokeOp(y, t, op)
    case Resume(t) => ResumeTxn(y, t)
  }

  /** What a step of client u leaves alone: the other clients, and every shard whose mutex u does not
      hold; a shard's contents change only together with its version. */
  ghost predicate Frame(y: System, y': System, u: TxnId) {
    && |y'.shards| == |y.shards| && |y.holders| == |y.shards|
    && (forall t :: t in y.pcs && t != u ==>
          && t in y'.pcs && y'.pcs[t] == y.pcs[t]
          && SeenBy(y', t) == SeenBy(y, t)
          && (t in y'.txns <==> t in y.txns) && (t in y.txns ==> y'.txns[t] == y.txns[t]))
    && (forall s: nat :: s < |y.shards| ==>
          y'.shards[s] == y.shards[s]
          || (y.holders[s] == Some(u) && y'.shards[s].version > y.shards[s].version))
  }

  lemma ThreadFramed(y: System, y': System, u: TxnId, t: TxnId)
    requires Shaped(y) && Shaped(y') && LocksMatch(y) && Frame(y, y', u)
    requires t in y.pcs && t != u && ThreadInv(y, t)
    ensures ThreadInv(y', t)
  {
    match y.pcs[t]
    case Validating(st, involved, k) =>
      forall i | 0 <= i < k
        ensures y'.shards[involved[i]].version == st.snapshot[involved[i]]
      {
        assert Holds(y.pcs[t], involved[i]);
      }
    case _ =>
  }

  lemma OthersKept(y: System, y': System, u: TxnId)
    requires ThreadsInv(y) && LocksMatch(y) && Shaped(y') && Frame(y, y', u)
    ensures forall t :: t in y.pcs && t != u ==> ThreadInv(y', t)
  {
    forall t | t in y.pcs && t != u
      ensures ThreadInv(y', t)
    {
      ThreadFramed(y, y', u, t);
    }
  }

  /** A step that changes no shard, no mutex and no record keeps the store settled. */
  lemma DataFramed(y: System, y': System, u: TxnId)
    requires LocksMatch(y) && DataInv(y) && OrderInv(y) && Frame(y, y', u)
    requires y'.shards == y.shards && y'.holders == y.holders && y'.order == y.order
    requires u in y.pcs && u in y'.pcs
    requires !y.pcs[u].Applying? && !y'.pcs[u].Applying?
    ensures DataInv(y') && OrderInv(y')
  {
    forall s: nat | s < |y.shards|
      ensures Settled(y', s) == Settled(y, s)
    {
    }
  }

  lemma LocksFramed(y: System, y': System, u: TxnId)
    requires LocksMatch(y) && Frame(y, y', u) && y'.holders == y.holders
    requires u in y.pcs && y'.pcs.Keys == y.pcs.Keys
    requires forall s: nat :: Holds(y'.pcs[u], s) <==> Holds(y.pcs[u], s)
    ensures LocksMatch(y')
  {
  }

  lemma StartFrame(y: System)
    requires Shaped(y)
    ensures var y' := StartTxn(y);
            && y.nextId !in y.pcs && Shaped(y') && Frame(y, y', y.nextId)
            && (y.nextId !in y.txns ==> ThreadInv(y', y.nextId))
  {
    var y' := StartTxn(y);
    assert forall t :: t in y.pcs ==> SeenBy(y', t) == SeenBy(y, t);
  }

  lemma StartData(y: System)
    requires LocksMatch(y) && DataInv(y) && OrderInv(y) && y.nextId !in y.pcs
    ensures LocksMatch(StartTxn(y)) && DataInv(StartTxn(y)) && OrderInv(StartTxn(y))
  {
    var y' := StartTxn(y);
    forall s: nat | s < |y.shards|
      ensures Settled(y', s) == Settled(y, s)
    {
    }
  }

  lemma KeepsStart(y: System)
    requires Inv(y)
    ensures Inv(StartTxn(y))
  {
    StartFrame(y);
    OthersKept(y, StartTxn(y), y.nextId);
    StartData(y);
  }

  lemma InvokedThread(y: System, t: TxnId, op: Op)
    requires Shaped(y) && t in y.pcs && t in y.txns && ThreadInv(y, t) && Enabled(y, Invoke(t, op))
    ensures Shaped(InvokeOp(y, t, op)) && ThreadInv(InvokeOp(y, t, op), t)
  {
    if op.OpCommit? {
      var st := y.txns[t];
      var involved := Ascending(InvolvedSet(st), |y.shards|);
      AscendingMembers(InvolvedSet(st), |y.shards|);
      forall o | o in SeenBy(y, t)
        ensures o.shard in involved
      {
        assert Read(o.shard, o.key) in st.readLog;
        assert o.shard in InvolvedSet(st);
      }
      forall w | w in st.writeLog
        ensures w.shard in involved
      {
        assert w.shard in InvolvedSet(st);
      }
    }
  }

  /** An invocation moves only the client, which holds no lock before or after it. */
  lemma InvokeFrame(y: System, t: TxnId, op: Op)
    requires Shaped(y) && t in y.pcs && t in y.txns && ThreadInv(y, t) && Enabled(y, Invoke(t, op))
    ensures var y' := InvokeOp(y, t, op);
            && Frame(y, y', t)
            && y'.shards == y.shards && y'.holders == y.holders && y'.order == y.order
            && t in y'.pcs && !y.pcs[t].Applying? && !y'.pcs[t].Applying? && y'.pcs.Keys == y.pcs.Keys
            && forall s: nat :: !Holds(y.pcs[t], s) && !Holds(y'.pcs[t], s)
  {
  }

  lemma KeepsInvoke(y: System, t: TxnId, op: Op)
    requires Inv(y) && Enabled(y, Invoke(t, op))
    ensures Inv(InvokeOp(y, t, op))
  {
    if t in y.txns {
      var y' := InvokeOp(y, t, op);
      InvokedThread(y, t, op);
      InvokeFrame(y, t, op);
      OthersKept(y, y', t);
      DataFramed(y, y', t);
      LocksFramed(y, y', t);
    }
  }

  // ---------------------------------------------------------------- resuming, position by position

  ghost predicate Resumes(y: System, t: TxnId) {
    Shaped(y) && CanResume(y, t)
  }

  /** Only client t has moved, and the locks it holds are the same. */
  ghost predicate Quiet(y: System, y': System, t: TxnId) {
    && Shaped(y) && Shaped(y') && t in y.pcs && t in y'.pcs && ThreadInv(y', t) && Frame(y, y', t)
    && y'.shards == y.shards && y'.holders == y.holders && y'.order == y.order
    && y'.pcs.Keys == y.pcs.Keys && !y'.pcs[t].Applying?
    && forall s: nat :: Holds(y'.pcs[t], s) <==> Holds(y.pcs[t], s)
  }

  lemma QuietVersion(y: System, t: TxnId)
    requires Resumes(y, t) && ThreadInv(y, t) && y.pcs[t].Beginning? && |y.pcs[t].versions| < |y.shards|
    ensures Quiet(y, ResumeTxn(y, t), t)
  {
    MoveOnly(y, t, ResumeTxn(y, t).pcs[t]);
  }

  lemma BegunThread(y: System, t: TxnId)
    requires Resumes(y, t) && ThreadInv(y, t) && y.pcs[t].Beginning? && |y.pcs[t].versions| == |y.shards|
    ensures Shaped(ResumeTxn(y, t)) && t in ResumeTxn(y, t).pcs && ThreadInv(ResumeTxn(y, t), t)
  {
  }

  lemma QuietBegun(y: System, t: TxnId)
    requires Resumes(y, t) && ThreadInv(y, t) && y.pcs[t].Beginning? && |y.pcs[t].versions| == |y.shards|
    ensures Quiet(y, ResumeTxn(y, t), t)
  {
    BegunThread(y, t);
  }

  lemma QuietBegin(y: System, t: TxnId)
    requires Resumes(y, t) && ThreadInv(y, t) && y.pcs[t].Beginning?
    ensures Quiet(y, ResumeTxn(y, t), t)
  {
    if |y.pcs[t].versions| < |y.shards| {
      QuietVersion(y, t);
    } else {
      QuietBegun(y, t);
    }
  }

  lemma WantReadThread(y: System, t: TxnId)
    requires Resumes(y, t) && ThreadInv(y, t) && y.pcs[t].WantRead?
    ensures Shaped(ResumeTxn(y, t)) && t in ResumeTxn(y, t).pcs && ThreadInv(ResumeTxn(y, t), t)
  {
    var y' := ResumeTxn(y, t);
    var s, k := y.pcs[t].shard, y.pcs[t].key;
    assert forall o :: o in SeenBy(y', t) ==> o in SeenBy(y, t) || o == Observation(s, k, Get(y.shards[s].data, k));
  }

  lemma QuietWantRead(y: System, t: TxnId)
    requires Resumes(y, t) && ThreadInv(y, t) && y.pcs[t].WantRead?
    ensures Quiet(y, ResumeTxn(y, t), t)
  {
    WantReadThread(y, t);
  }

  lemma ReadingThread(y: System, t: TxnId)
    requires Resumes(y, t) && ThreadInv(y, t) && y.pcs[t].Reading?
    ensures Shaped(ResumeTxn(y, t)) && t in ResumeTxn(y, t).pcs && ThreadInv(ResumeTxn(y, t), t)
  {
    assert Read(y.pcs[t].shard, y.pcs[t].key) in ResumeTxn(y, t).txns[t].readLog;
  }

  lemma QuietReading(y: System, t: TxnId)
    requires Resumes(y, t) && ThreadInv(y, t) && y.pcs[t].Reading?
    ensures Quiet(y, ResumeTxn(y, t), t)
  {
    ReadingThread(y, t);
  }

  lemma LockedThread(y: System, t: TxnId)
    requires Resumes(y, t) && ThreadInv(y, t)
    requires y.pcs[t].Locking? && y.pcs[t].k == |y.pcs[t].involved|
    ensures Shaped(ResumeTxn(y, t)) && t in ResumeTxn(y, t).pcs && ThreadInv(ResumeTxn(y, t), t)
  {
    assert y.pcs[t].involved[..y.pcs[t].k] == y.pcs[t].involved;
  }

  lemma QuietLocked(y: System, t: TxnId)
    requires Resumes(y, t) && ThreadInv(y, t)
    requires y.pcs[t].Locking? && y.pcs[t].k == |y.pcs[t].involved|
    ensures Quiet(y, ResumeTxn(y, t), t)
  {
    LockedThread(y, t);
  }

  lemma MoveOnly(y: System, t: TxnId, pc: Pc)
    requires Shaped(y) && t in y.pcs && InRange(y, pc)
    ensures Shaped(At(y, t, pc)) && Frame(y, At(y, t, pc), t)
  {
  }

  /** A client that only moves keeps what it knows of the shards. */
  lemma MovedTracks(y: System, t: TxnId, pc: Pc, st: TxnState, involved: seq<nat>)
    requires Tracks(y, t, st) && Involves(y, t, st, involved)
    ensures Tracks(At(y, t, pc), t, st) && Involves(At(y, t, pc), t, st, involved)
  {
    assert SeenBy(At(y, t, pc), t) == SeenBy(y, t);
  }

  lemma ValidatedMoves(y: System, t: TxnId)
    requires Resumes(y, t) && y.pcs[t].Validating? && y.pcs[t].k < |y.pcs[t].involved|
    requires var i := y.pcs[t].involved[y.pcs[t].k]; y.shards[i].version == y.pcs[t].st.snapshot[i]
    ensures ResumeTxn(y, t) == At(y, t, Validating(y.pcs[t].st, y.pcs[t].involved, y.pcs[t].k + 1))
    ensures InRange(y, Validating(y.pcs[t].st, y.pcs[t].involved, y.pcs[t].k + 1))
  {
  }

  lemma ValidatedThread(y: System, t: TxnId)
    requires Resumes(y, t) && ThreadInv(y, t)
    requires y.pcs[t].Validating? && y.pcs[t].k < |y.pcs[t].involved|
    requires var i := y.pcs[t].involved[y.pcs[t].k]; y.shards[i].version == y.pcs[t].st.snapshot[i]
    ensures var y' := At(y, t, Validating(y.pcs[t].st, y.pcs[t].involved, y.pcs[t].k + 1));
            Shaped(y') && ThreadInv(y', t) && Frame(y, y', t)
  {
    var st, involved := y.pcs[t].st, y.pcs[t].involved;
    ValidatedMoves(y, t);
    MoveOnly(y, t, Validating(st, involved, y.pcs[t].k + 1));
    MovedTracks(y, t, Validating(st, involved, y.pcs[t].k + 1), st, involved);
  }

  lemma QuietValidated(y: System, t: TxnId)
    requires Resumes(y, t) && ThreadInv(y, t)
    requires y.pcs[t].Validating? && y.pcs[t].k < |y.pcs[t].involved|
    requires var i := y.pcs[t].involved[y.pcs[t].k]; y.shards[i].version == y.pcs[t].st.snapshot[i]
    ensures Quiet(y, ResumeTxn(y, t), t)
  {
    ValidatedMoves(y, t);
    ValidatedThread(y, t);
  }

  lemma QuietRefused(y: System, t: TxnId)
    requires Resumes(y, t) && ThreadInv(y, t)
    requires y.pcs[t].Validating? && y.pcs[t].k < |y.pcs[t].involved|
    requires var i := y.pcs[t].involved[y.pcs[t].k]; y.shards[i].version != y.pcs[t].st.snapshot[i]
    ensures Quiet(y, ResumeTxn(y, t), t)
  {
    var involved := y.pcs[t].involved;
    assert involved[0..] == involved;
    MoveOnly(y, t, Releasing(involved, 0, false));
  }

  lemma QuietValidating(y: System, t: TxnId)
    requires Resumes(y, t) && ThreadInv(y, t)
    requires y.pcs[t].Validating? && y.pcs[t].k < |y.pcs[t].involved|
    ensures Quiet(y, ResumeTxn(y, t), t)
  {
    var i := y.pcs[t].involved[y.pcs[t].k];
    if y.shards[i].version == y.pcs[t].st.snapshot[i] {
      QuietValidated(y, t);
    } else {
      QuietRefused(y, t);
    }
  }

  lemma ReleasedThread(y: System, t: TxnId)
    requires Resumes(y, t) && ThreadInv(y, t)
    requires y.pcs[t].Releasing? && y.pcs[t].k == |y.pcs[t].involved|
    ensures Shaped(ResumeTxn(y, t)) && t in ResumeTxn(y, t).pcs && ThreadInv(ResumeTxn(y, t), t)
  {
  }

  lemma QuietReleased(y: System, t: TxnId)
    requires Resumes(y, t) && ThreadInv(y, t)
    requires y.pcs[t].Releasing? && y.pcs[t].k == |y.pcs[t].involved|
    ensures Quiet(y, ResumeTxn(y, t), t)
  {
    ReleasedThread(y, t);
  }

  lemma KeepsQuiet(y: System, y': System, t: TxnId)
    requires Inv(y) && Quiet(y, y', t) && !y.pcs[t].Applying?
    ensures Inv(y')
  {
    OthersKept(y, y', t);
    DataFramed(y, y', t);
    LocksFramed(y, y', t);
  }

  /** Taking or dropping one lock. */
  lemma LocksMove(y: System, y': System, t: TxnId, s: nat)
    requires LocksMatch(y) && Frame(y, y', t) && t in y.pcs && y'.pcs.Keys == y.pcs.Keys
    requires s < |y.holders| && (y'.holders == y.holders[s := Some(t)] || y'.holders == y.holders[s := None])
    requires y.holders[s] == None || y.holders[s] == Some(t)
    requires forall r: nat :: Holds(y'.pcs[t], r) <==> if r == s then y'.holders[s] == Some(t) else Holds(y.pcs[t], r)
    ensures LocksMatch(y')
  {
    forall u, r: nat | u in y'.pcs && r < |y'.holders|
      ensures y'.holders[r] == Some(u) <==> Holds(y'.pcs[u], r)
    {
      if u != t {
        assert y'.pcs[u] == y.pcs[u];
      }
    }
  }

  lemma DataLockMoved(y: System, y': System, t: TxnId, s: nat)
    requires LocksMatch(y) && DataInv(y) && OrderInv(y) && Frame(y, y', t) && t in y.pcs && t in y'.pcs
    requires y'.shards == y.shards && y'.order == y.order
    requires s < |y.holders| && (y'.holders == y.holders[s := Some(t)] || y'.holders == y.holders[s := None])
    requires y.holders[s] == None || y.holders[s] == Some(t)
    requires !y.pcs[t].Applying? && !y'.pcs[t].Applying?
    ensures DataInv(y') && OrderInv(y')
  {
    forall r: nat | r < |y.shards|
      ensures Settled(y', r) == Settled(y, r)
    {
    }
  }

  lemma LockStep(y: System, t: TxnId)
    requires Resumes(y, t) && ThreadInv(y, t)
    requires (y.pcs[t].Locking? || y.pcs[t].Releasing?) && y.pcs[t].k < |y.pcs[t].involved|
    ensures Shaped(ResumeTxn(y, t)) && ThreadInv(ResumeTxn(y, t), t) && Frame(y, ResumeTxn(y, t), t)
  {
  }

  lemma KeepsLock(y: System, t: TxnId)
    requires Inv(y) && Resumes(y, t) && y.pcs[t].Locking? && y.pcs[t].k < |y.pcs[t].involved|
    ensures Inv(ResumeTxn(y, t))
  {
    var y' := ResumeTxn(y, t);
    var involved, k := y.pcs[t].involved, y.pcs[t].k;
    assert ThreadInv(y, t);
    assert involved[..k + 1] == involved[..k] + [involved[k]];
    LockStep(y, t);
    OthersKept(y, y', t);
    DataLockMoved(y, y', t, involved[k]);
    LocksMove(y, y', t, involved[k]);
  }

  lemma KeepsRelease(y: System, t: TxnId)
    requires Inv(y) && Resumes(y, t) && y.pcs[t].Releasing? && y.pcs[t].k < |y.pcs[t].involved|
    ensures Inv(ResumeTxn(y, t))
  {
    var y' := ResumeTxn(y, t);
    var involved, k := y.pcs[t].involved, y.pcs[t].k;
    assert ThreadInv(y, t);
    assert involved[k..] == [involved[k]] + involved[k + 1..];
    assert Holds(y.pcs[t], involved[k]);
    LockStep(y, t);
    OthersKept(y, y', t);
    DataLockMoved(y, y', t, involved[k]);
    LocksMove(y, y', t, involved[k]);
  }

  // ---------------------------------------------------------------- committing

  /** Running a transaction alone changes each shard as applying its writes shard by shard does. */
  lemma {:induction false} RunAloneByShard(store: seq<map<nat, nat>>, writes: seq<Write>, s: nat)
    requires s < |store|
    ensures |RunAlone(store, writes)| == |store|
    ensures RunAlone(store, writes)[s] == ApplyTo(store[s], writes, s)
  {
    if writes != [] {
      RunAloneByShard(store, writes[..|writes| - 1], s);
    }
  }

  /** The commit point: validation has passed under all the locks, so every read of the transaction
      still agrees with the store that its predecessors in the order leave. */
  lemma CommitPointReads(y: System, t: TxnId)
    requires Inv(y) && Resumes(y, t) && y.pcs[t].Validating? && y.pcs[t].k == |y.pcs[t].involved|
    ensures var y' := ResumeTxn(y, t); OrderInv(y')
  {
    var y' := ResumeTxn(y, t);
    var st, involved := y.pcs[t].st, y.pcs[t].involved;
    assert ThreadInv(y, t);
    var n := |y.shards|;
    forall i: nat | i < |y'.order|
      ensures ReadsAgree(y'.order, i, n)
    {
      if i < |y.order| {
        assert ReadsAgree(y.order, i, n);
        assert y'.order[..i] == y.order[..i];
      } else {
        assert y'.order[..i] == y.order;
        forall o | o in y'.order[i].observed
          ensures o.shard < n && Get(Replay(y.order, n)[o.shard], o.key) == o.value
        {
          var j :| 0 <= j < |involved| && involved[j] == o.shard;
          assert y.shards[involved[j]].version == st.snapshot[involved[j]];
          assert Holds(y.pcs[t], o.shard);
          assert Settled(y, o.shard) == y.shards[o.shard].data;
        }
      }
    }
  }

  lemma CommitPointData(y: System, t: TxnId)
    requires LocksMatch(y) && DataInv(y) && Resumes(y, t) && ThreadInv(y, t)
    requires y.pcs[t].Validating? && y.pcs[t].k == |y.pcs[t].involved|
    ensures DataInv(ResumeTxn(y, t))
  {
    var y' := ResumeTxn(y, t);
    var st, involved := y.pcs[t].st, y.pcs[t].involved;
    var n := |y.shards|;
    assert y'.order[..|y.order|] == y.order;
    assert involved[0..] == involved;
    if n > 0 {
      RunAloneByShard(Replay(y.order, n), st.writeLog, 0);
    } else {
      NoShards(Replay(y.order, n), st.writeLog);
    }
    forall s: nat | s < n
      ensures Replay(y'.order, n)[s] == Settled(y', s)
    {
      RunAloneByShard(Replay(y.order, n), st.writeLog, s);
      assert Replay(y.order, n)[s] == Settled(y, s);
      if s in involved {
        assert Holds(y.pcs[t], s);
      } else {
        assert !WritesTo(st.writeLog, s);
        UntouchedShard(Settled(y, s), st.writeLog, s);
        assert !Holds(y.pcs[t], s);
      }
    }
  }

  lemma {:induction false} NoShards(store: seq<map<nat, nat>>, writes: seq<Write>)
    requires |store| == 0
    ensures RunAlone(store, writes) == store
  {
    if writes != [] {
      NoShards(store, writes[..|writes| - 1]);
    }
  }

  lemma CommitPointMoves(y: System, t: TxnId)
    requires Resumes(y, t) && ThreadInv(y, t) && y.pcs[t].Validating? && y.pcs[t].k == |y.pcs[t].involved|
    ensures var y' := ResumeTxn(y, t);
            Shaped(y') && ThreadInv(y', t) && Frame(y, y', t) && y'.holders == y.holders && y'.pcs.Keys == y.pcs.Keys
  {
  }

  lemma KeepsCommitPoint(y: System, t: TxnId)
    requires Inv(y) && Resumes(y, t) && y.pcs[t].Validating? && y.pcs[t].k == |y.pcs[t].involved|
    ensures Inv(ResumeTxn(y, t))
  {
    var y' := ResumeTxn(y, t);
    assert ThreadInv(y, t);
    CommitPointMoves(y, t);
    OthersKept(y, y', t);
    LocksFramed(y, y', t);
    CommitPointReads(y, t);
    CommitPointData(y, t);
  }

  /** Applying one shard turns its pending contents into its contents. */
  lemma AppliedShard(y: System, t: TxnId, s: nat)
    requires LocksMatch(y) && Resumes(y, t) && ThreadInv(y, t)
    requires y.pcs[t].Applying? && y.pcs[t].k < |y.pcs[t].involved| && s == y.pcs[t].involved[y.pcs[t].k]
    ensures Settled(ResumeTxn(y, t), s) == Settled(y, s)
  {
    var st, involved, k := y.pcs[t].st, y.pcs[t].involved, y.pcs[t].k;
    assert involved[k..] == [involved[k]] + involved[k + 1..];
    assert Holds(y.pcs[t], s);
    assert s !in involved[k + 1..];
    if !WritesTo(st.writeLog, s) {
      UntouchedShard(y.shards[s].data, st.writeLog, s);
    }
  }

  lemma UnappliedShard(y: System, t: TxnId, s: nat)
    requires LocksMatch(y) && Resumes(y, t) && s < |y.shards|
    requires y.pcs[t].Applying? && y.pcs[t].k < |y.pcs[t].involved| && s != y.pcs[t].involved[y.pcs[t].k]
    ensures Settled(ResumeTxn(y, t), s) == Settled(y, s)
  {
    OtherwisePending(y.pcs[t].involved, y.pcs[t].k, s);
  }

  lemma OtherwisePending(involved: seq<nat>, k: nat, s: nat)
    requires k < |involved| && s != involved[k]
    ensures s in involved[k..] <==> s in involved[k + 1..]
  {
    assert involved[k..] == [involved[k]] + involved[k + 1..];
  }

  lemma ApplyData(y: System, t: TxnId)
    requires LocksMatch(y) && DataInv(y) && Resumes(y, t) && ThreadInv(y, t)
    requires y.pcs[t].Applying? && y.pcs[t].k < |y.pcs[t].involved|
    ensures DataInv(ResumeTxn(y, t))
  {
    var y' := ResumeTxn(y, t);
    forall s: nat | s < |y.shards|
      ensures Replay(y'.order, |y'.shards|)[s] == Settled(y', s)
    {
      if s == y.pcs[t].involved[y.pcs[t].k] {
        AppliedShard(y, t, s);
      } else {
        UnappliedShard(y, t, s);
      }
    }
  }

  lemma ApplyStep(y: System, t: TxnId)
    requires Resumes(y, t) && ThreadInv(y, t) && LocksMatch(y) && y.pcs[t].Applying?
    ensures Shaped(ResumeTxn(y, t)) && ThreadInv(ResumeTxn(y, t), t) && Frame(y, ResumeTxn(y, t), t)
  {
    if y.pcs[t].k < |y.pcs[t].involved| {
      assert Holds(y.pcs[t], y.pcs[t].involved[y.pcs[t].k]);
    }
  }

  lemma ApplyDone(y: System, t: TxnId)
    requires LocksMatch(y) && DataInv(y) && Resumes(y, t) && y.pcs[t].Applying? && y.pcs[t].k == |y.pcs[t].involved|
    ensures DataInv(ResumeTxn(y, t))
  {
    forall s: nat | s < |y.shards|
      ensures Settled(ResumeTxn(y, t), s) == Settled(y, s)
    {
    }
  }

  /** An apply step, given that it keeps the store settled. */
  lemma ApplyFramed(y: System, t: TxnId)
    requires ThreadsInv(y) && LocksMatch(y) && Resumes(y, t) && y.pcs[t].Applying? && ThreadInv(y, t)
    requires y.pcs[t].k == |y.pcs[t].involved| ==> y.pcs[t].involved[0..] == y.pcs[t].involved
    ensures ThreadsInv(ResumeTxn(y, t)) && LocksMatch(ResumeTxn(y, t))
  {
    ApplyStep(y, t);
    OthersKept(y, ResumeTxn(y, t), t);
    LocksFramed(y, ResumeTxn(y, t), t);
  }

  lemma KeepsApply(y: System, t: TxnId)
    requires Inv(y) && Resumes(y, t) && y.pcs[t].Applying?
    ensures Inv(ResumeTxn(y, t))
  {
    assert ThreadInv(y, t);
    assert y.pcs[t].involved[0..] == y.pcs[t].involved;
    ApplyFramed(y, t);
    if y.pcs[t].k < |y.pcs[t].involved| {
      ApplyData(y, t);
    } else {
      ApplyDone(y, t);
    }
  }

  lemma KeepsResume(y: System, t: TxnId)
    requires Inv(y) && Resumes(y, t)
    ensures Inv(ResumeTxn(y, t))
  {
    assert ThreadInv(y, t);
    var y' := ResumeTxn(y, t);
    match y.pcs[t] {
      case Beginning(_) => QuietBegin(y, t); KeepsQuiet(y, y', t);
      case WantRead(_, _) => QuietWantRead(y, t); KeepsQuiet(y, y', t);
      case Reading(_, _) => QuietReading(y, t); KeepsQuiet(y, y', t);
      case Locking(_, involved, k) =>
        if k < |involved| { KeepsLock(y, t); } else { QuietLocked(y, t); KeepsQuiet(y, y', t); }
      case Validating(_, involved, k) =>
        if k < |involved| { QuietValidating(y, t); KeepsQuiet(y, y', t); } else { KeepsCommitPoint(y, t); }
      case Applying(_, _, _) => KeepsApply(y, t);
      case Releasing(involved, k, _) =>
        if k < |involved| { KeepsRelease(y, t); } else { QuietReleased(y, t); KeepsQuiet(y, y', t); }
    }
  }

  lemma KeepsInv(y: System, a: Action)
    requires Inv(y) && Enabled(y, a)
    ensures Inv(Next(y, a))
  {
    match a
    case Start => KeepsStart(y);
    case Invoke(t, op) => KeepsInvoke(y, t, op);
    case Resume(t) => KeepsResume(y, t);
  }

  // ---------------------------------------------------------------- runs

  ghost predicate Run(states: seq<System>, actions: seq<Action>) {
    && |states| == |actions| + 1
    && Initial(states[0])
    && forall i :: 0 <= i < |actions| ==>
         Shaped(states[i]) && Enabled(states[i], actions[i]) && states[i + 1] == Next(states[i], actions[i])
  }

  lemma InitialInv(y: System)
    requires Initial(y)
    ensures Inv(y)
  {
  }

  lemma {:induction false} RunInv(states: seq<System>, actions: seq<Action>, k: nat)
    requires Run(states, actions) && k <= |actions|
    ensures Inv(states[k])
  {
    if k == 0 {
      InitialInv(states[0]);
    } else {
      RunInv(states, actions, k - 1);
      KeepsInv(states[k - 1], actions[k - 1]);
    }
  }

  ghost predicate AtCommitPoint(pc: Pc) {
    pc.Validating? && pc.k == |pc.involved|
  }

  lemma UndecidedLocks(y: System, t: TxnId)
    requires Resumes(y, t) && !AtCommitPoint(y.pcs[t])
    requires y.pcs[t].Locking? || y.pcs[t].Validating? || y.pcs[t].Releasing?
    ensures var y' := ResumeTxn(y, t);
            && y'.order == y.order && y'.pcs == y.pcs[t := y'.pcs[t]]
            && (Decided(y'.pcs[t]) <==> Decided(y.pcs[t]))
  {
  }

  /** Only the turn from validating to applying decides anything. */
  lemma Undecided(y: System, t: TxnId)
    requires Resumes(y, t) && !AtCommitPoint(y.pcs[t])
    ensures var y' := ResumeTxn(y, t);
            && y'.order == y.order && y'.pcs == y.pcs[t := y'.pcs[t]]
            && (Decided(y'.pcs[t]) <==> Decided(y.pcs[t]))
  {
    if y.pcs[t].Locking? || y.pcs[t].Validating? || y.pcs[t].Releasing? {
      UndecidedLocks(y, t);
    }
  }

  lemma DecidedOnce(y: System, t: TxnId)
    requires Resumes(y, t) && AtCommitPoint(y.pcs[t]) && Accounted(y)
    ensures Accounted(ResumeTxn(y, t))
  {
    var y' := ResumeTxn(y, t);
    assert !InOrder(y.order, t);
    forall u
      ensures InOrder(y'.order, u) <==> InOrder(y.order, u) || u == t
    {
      if InOrder(y.order, u) {
        var i :| 0 <= i < |y.order| && y.order[i].id == u;
        assert y'.order[i].id == u;
      }
      if u == t {
        assert y'.order[|y.order|].id == u;
      }
    }
  }

  lemma KeepsAccounted(y: System, a: Action)
    requires Shaped(y) && Enabled(y, a) && Accounted(y)
    requires a.Invoke? ==> ThreadInv(y, a.id)
    ensures Accounted(Next(y, a))
  {
    match a
    case Start =>
    case Invoke(t, op) =>
      assert t in y.txns ==> !Decided(y.pcs[t]);
    case Resume(t) =>
      if AtCommitPoint(y.pcs[t]) {
        DecidedOnce(y, t);
      } else {
        Undecided(y, t);
      }
  }

  lemma {:induction false} RunAccounted(states: seq<System>, actions: seq<Action>, k: nat)
    requires Run(states, actions) && k <= |actions|
    ensures Accounted(states[k])
  {
    if k > 0 {
      RunAccounted(states, actions, k - 1);
      RunInv(states, actions, k - 1);
      KeepsAccounted(states[k - 1], actions[k - 1]);
    }
  }

  /** The commit order of a reachable state lists every transaction whose commit has succeeded, and
      no other, exactly once. */
  lemma OrderIsExact(states: seq<System>, actions: seq<Action>, k: nat, t: TxnId)
    requires Run(states, actions) && k <= |actions|
    ensures t in states[k].pcs && states[k].pcs[t] == Ended(true) ==> InOrder(states[k].order, t)
    ensures InOrder(states[k].order, t) ==> t in states[k].pcs && Decided(states[k].pcs[t])
    ensures forall i, j :: 0 <= i < j < |states[k].order| ==> states[k].order[i].id != states[k].order[j].id
  {
    RunAccounted(states, actions, k);
  }

  /** In every reachable state, re-running the committed transactions one at a time
      in commit order from empty shards gives each of them the read results it had. */
  lemma ReplayAgrees(states: seq<System>, actions: seq<Action>, k: nat, i: nat)
    requires Run(states, actions) && k <= |actions| && i < |states[k].order|
    ensures ReadsAgree(states[k].order, i, |states[k].shards|)
  {
    RunInv(states, actions, k);
  }

  /** ... and, shard by shard, the same contents, as soon as no commit is still applying there. */
  lemma ReplayContents(states: seq<System>, actions: seq<Action>, k: nat, s: nat)
    requires Run(states, actions) && k <= |actions| && s < |states[k].shards|
    requires forall t :: t in states[k].pcs ==> !Pending(states[k].pcs[t], s)
    ensures |Replay(states[k].order, |states[k].shards|)| == |states[k].shards|
    ensures Replay(states[k].order, |states[k].shards|)[s] == states[k].shards[s].data
  {
    RunInv(states, actions, k);
  }

  // ---------------------------------------------------------------- deadlock freedom

  /** Whoever blocks a client either can go on, or waits for a later shard. */
  lemma {:induction false} SomebodyResumes(y: System, t: TxnId) returns (u: TxnId)
    requires Inv(y) && t in y.pcs && Unfinished(y.pcs[t])
    ensures CanResume(y, u)
    decreases |y.shards| - (match Wanted(y, y.pcs[t]) case None => |y.shards| case Some(s) => s)
  {
    u := t;
    if !CanResume(y, t) {
      var s := Wanted(y, y.pcs[t]).value;
      u := y.holders[s].value;
      assert Holds(y.pcs[u], s);
      assert ThreadInv(y, u);
      if !CanResume(y, u) {
        u := SomebodyResumes(y, u);
      }
    }
  }

  /** Deadlock freedom: while any client has an unfinished operation, some client can take a step. */
  lemma DeadlockFreedom(states: seq<System>, actions: seq<Action>, k: nat, t: TxnId)
    requires Run(states, actions) && k <= |actions|
    requires t in states[k].pcs && Unfinished(states[k].pcs[t])
    ensures exists u :: CanResume(states[k], u)
  {
    RunInv(states, actions, k);
    var u := SomebodyResumes(states[k], t);
  }
}
