/** What the clients asked for. */
module CrossShardClients {
  /* `Track` follows one client by its calls and the shards it is shown, and knows nothing of the system's own
     records. Serializability is restated for what the clients asked and what they were answered. */

  import opened Options
  import opened CrossShard
  import opened CrossShardProofs

  datatype Closing = Open | Committing | Aborting

  /** The versions that a client's transaction began with, the reads and writes that it asked for before its
      commit or abort, in order, and what its reads were answered. */
  datatype Client = Client(
    versions: seq<nat>,
    asked: seq<Read>,
    writes: seq<Write>,
    pending: Option<Read>,
    observed: seq<Observation>,
    closing: Closing)

  const NEW: Client := Client([], [], [], None, [], Open)

  /** One action as client t sees it. */
  function Track(c: Client, t: TxnId, shards: seq<Shard>, a: Action): Client {
    match a
    case Start => c
    case Invoke(u, op) =>
      if u != t || c.closing != Open then c
      else
        (match op
         case OpRead(s, k) => c.(asked := c.asked + [Read(s, k)], pending := Some(Read(s, k)))
         case OpWrite(s, k, v) => c.(writes := c.writes + [Write(s, k, v)])
         case OpCommit => c.(closing := Committing)
         case OpAbort => c.(closing := Aborting))
    case Resume(u) =>
      if u != t then c
      else if |c.versions| < |shards| then c.(versions := c.versions + [shards[|c.versions|].version])
      else
        match c.pending
        case None => c
        case Some(r) =>
          if r.shard >= |shards| then c
          else
            var data := shards[r.shard].data;
            var value := if r.key in data then Some(data[r.key]) else None;
            c.(pending := None, observed := c.observed + [Observation(r.shard, r.key, value)])
  }

  ghost function ClientAt(states: seq<System>, actions: seq<Action>, n: nat, t: TxnId): Client
    requires Run(states, actions) && n <= |actions|
  {
    if n == 0 then NEW
    else Track(ClientAt(states, actions, n - 1, t), t, states[n - 1].shards, actions[n - 1])
  }

  /** A shard that the client has asked to read or write. */
  predicate Asked(c: Client, s: nat) {
    (exists r :: r in c.asked && r.shard == s) || exists w :: w in c.writes && w.shard == s
  }

  // ---------------------------------------------------------------- the system's records are the client's

  ghost predicate RecordIs(y: System, t: TxnId, st: TxnState, c: Client) {
    && st.writeLog == c.writes && st.snapshot == c.versions && |c.versions| == |y.shards|
    && (forall r :: r in c.asked ==> r.shard < |y.shards|)
    && (forall w :: w in c.writes ==> w.shard < |y.shards|)
  }

  /** A commit that is under way, or has succeeded. */
  ghost predicate CommitIs(y: System, t: TxnId, st: TxnState, involved: seq<nat>, c: Client) {
    && RecordIs(y, t, st, c) && c.closing == Committing && c.pending == None && SeenBy(y, t) == c.observed
    && forall s: nat :: s in involved <==> Asked(c, s)
  }

  ghost predicate Moved(y: System, c: Client) {
    exists s: nat :: s < |y.shards| && s < |c.versions| && Asked(c, s) && y.shards[s].version > c.versions[s]
  }

  ghost predicate OverIs(y: System, c: Client, ok: bool) {
    && c.pending == None && |c.versions| == |y.shards|
    && (ok ==> c.closing == Committing)
    && (!ok ==> c.closing == Aborting || (c.closing == Committing && Moved(y, c)))
  }

  ghost predicate ClientIs(y: System, t: TxnId, c: Client) {
    if t !in y.pcs then c == NEW
    else
      match y.pcs[t]
      case Beginning(vs) => c == NEW.(versions := vs) && SeenBy(y, t) == []
      case Idle =>
        && t in y.txns && RecordIs(y, t, y.txns[t], c) && y.txns[t].readLog == c.asked
        && c.closing == Open && c.pending == None && SeenBy(y, t) == c.observed
      case WantRead(s, k) =>
        && t in y.txns && RecordIs(y, t, y.txns[t], c) && y.txns[t].readLog + [Read(s, k)] == c.asked
        && c.closing == Open && c.pending == Some(Read(s, k)) && s < |y.shards| && SeenBy(y, t) == c.observed
      case Reading(s, k) =>
        && t in y.txns && RecordIs(y, t, y.txns[t], c) && y.txns[t].readLog + [Read(s, k)] == c.asked
        && c.closing == Open && c.pending == None && SeenBy(y, t) == c.observed
      case Locking(st, involved, _) => CommitIs(y, t, st, involved, c)
      case Validating(st, involved, _) => CommitIs(y, t, st, involved, c)
      case Applying(st, involved, _) => CommitIs(y, t, st, involved, c)
      case Releasing(_, _, ok) => OverIs(y, c, ok)
      case Ended(ok) => OverIs(y, c, ok)
  }

  /** The acting client takes nobody else's records along. */
  lemma OthersIs(y: System, y': System, u: TxnId, t: TxnId, c: Client)
    requires Frame(y, y', u) && t != u && ClientIs(y, t, c) && (t in y'.pcs ==> t in y.pcs)
    ensures ClientIs(y', t, c)
  {
    if t in y.pcs && (y.pcs[t].Releasing? || y.pcs[t].Ended?) && Moved(y, c) {
      var s: nat :| s < |y.shards| && s < |c.versions| && Asked(c, s) && y.shards[s].version > c.versions[s];
      assert y'.shards[s].version >= y.shards[s].version;
    }
  }

  lemma StartIs(y: System, t: TxnId, c: Client)
    requires Inv(y) && ClientIs(y, t, c)
    ensures ClientIs(StartTxn(y), t, c)
  {
    StartFrame(y);
    if t != y.nextId {
      OthersIs(y, StartTxn(y), y.nextId, t, c);
    }
  }

  lemma InvolvedIsAsked(y: System, st: TxnState, c: Client)
    requires st.readLog == c.asked && st.writeLog == c.writes
    requires forall r :: r in st.readLog ==> r.shard < |y.shards|
    requires forall w :: w in st.writeLog ==> w.shard < |y.shards|
    ensures forall s: nat :: s in Ascending(InvolvedSet(st), |y.shards|) <==> Asked(c, s)
  {
    AscendingMembers(InvolvedSet(st), |y.shards|);
    forall s: nat
      ensures s in InvolvedSet(st) <==> Asked(c, s)
    {
    }
  }

  lemma InvokeIs(y: System, t: TxnId, op: Op, c: Client)
    requires Inv(y) && Enabled(y, Invoke(t, op)) && ClientIs(y, t, c)
    ensures ClientIs(InvokeOp(y, t, op), t, Track(c, t, y.shards, Invoke(t, op)))
  {
    assert ThreadInv(y, t);
    if op.OpCommit? && t in y.txns {
      InvolvedIsAsked(y, y.txns[t], c);
    }
  }

  lemma BeginIs(y: System, t: TxnId, c: Client)
    requires Inv(y) && Resumes(y, t) && ClientIs(y, t, c) && y.pcs[t].Beginning?
    ensures ClientIs(ResumeTxn(y, t), t, Track(c, t, y.shards, Resume(t)))
  {
    assert ThreadInv(y, t);
  }

  lemma ReadIs(y: System, t: TxnId, c: Client)
    requires Inv(y) && Resumes(y, t) && ClientIs(y, t, c) && (y.pcs[t].WantRead? || y.pcs[t].Reading?)
    ensures ClientIs(ResumeTxn(y, t), t, Track(c, t, y.shards, Resume(t)))
  {
    assert ThreadInv(y, t);
  }

  lemma LockIs(y: System, t: TxnId, c: Client)
    requires Inv(y) && Resumes(y, t) && ClientIs(y, t, c) && y.pcs[t].Locking?
    ensures ClientIs(ResumeTxn(y, t), t, Track(c, t, y.shards, Resume(t)))
  {
  }

  lemma ValidateIs(y: System, t: TxnId, c: Client)
    requires Inv(y) && Resumes(y, t) && ClientIs(y, t, c) && y.pcs[t].Validating?
    ensures ClientIs(ResumeTxn(y, t), t, Track(c, t, y.shards, Resume(t)))
  {
    var st, involved, k := y.pcs[t].st, y.pcs[t].involved, y.pcs[t].k;
    assert ThreadInv(y, t);
    if k < |involved| && y.shards[involved[k]].version != st.snapshot[involved[k]] {
      assert Asked(c, involved[k]);
      assert Moved(ResumeTxn(y, t), c);
    }
  }

  lemma ApplyIs(y: System, t: TxnId, c: Client)
    requires Inv(y) && Resumes(y, t) && ClientIs(y, t, c) && y.pcs[t].Applying?
    ensures ClientIs(ResumeTxn(y, t), t, Track(c, t, y.shards, Resume(t)))
  {
  }

  lemma ReleaseIs(y: System, t: TxnId, c: Client)
    requires Inv(y) && Resumes(y, t) && ClientIs(y, t, c) && y.pcs[t].Releasing?
    ensures ClientIs(ResumeTxn(y, t), t, Track(c, t, y.shards, Resume(t)))
  {
    if Moved(y, c) {
      var s: nat :| s < |y.shards| && s < |c.versions| && Asked(c, s) && y.shards[s].version > c.versions[s];
      assert Moved(ResumeTxn(y, t), c);
    }
  }

  lemma ResumeIs(y: System, t: TxnId, c: Client)
    requires Inv(y) && Resumes(y, t) && ClientIs(y, t, c)
    ensures ClientIs(ResumeTxn(y, t), t, Track(c, t, y.shards, Resume(t)))
  {
    match y.pcs[t]
    case Beginning(_) => BeginIs(y, t, c);
    case WantRead(_, _) => ReadIs(y, t, c);
    case Reading(_, _) => ReadIs(y, t, c);
    case Locking(_, _, _) => LockIs(y, t, c);
    case Validating(_, _, _) => ValidateIs(y, t, c);
    case Applying(_, _, _) => ApplyIs(y, t, c);
    case Releasing(_, _, _) => ReleaseIs(y, t, c);
  }

  lemma CommitFrame(y: System, t: TxnId)
    requires Resumes(y, t) && (y.pcs[t].Locking? || y.pcs[t].Validating? || y.pcs[t].Releasing?)
    ensures Frame(y, ResumeTxn(y, t), t) && ResumeTxn(y, t).pcs.Keys == y.pcs.Keys
  {
  }

  lemma ApplyFrame(y: System, t: TxnId)
    requires Resumes(y, t) && LocksMatch(y) && y.pcs[t].Applying?
    ensures Frame(y, ResumeTxn(y, t), t) && ResumeTxn(y, t).pcs.Keys == y.pcs.Keys
  {
    if y.pcs[t].k < |y.pcs[t].involved| {
      assert Holds(y.pcs[t], y.pcs[t].involved[y.pcs[t].k]);
    }
  }

  lemma ResumeFrame(y: System, t: TxnId)
    requires Inv(y) && Resumes(y, t)
    ensures Frame(y, ResumeTxn(y, t), t) && ResumeTxn(y, t).pcs.Keys == y.pcs.Keys
  {
    match y.pcs[t]
    case Beginning(_) => assert ThreadInv(y, t); QuietBegin(y, t);
    case WantRead(_, _) => assert ThreadInv(y, t); QuietWantRead(y, t);
    case Reading(_, _) => assert ThreadInv(y, t); QuietReading(y, t);
    case Applying(_, _, _) => ApplyFrame(y, t);
    case _ => CommitFrame(y, t);
  }

  /** Every step of anybody keeps every client's account true. */
  lemma StepIs(y: System, a: Action, t: TxnId, c: Client)
    requires Inv(y) && Enabled(y, a) && ClientIs(y, t, c)
    ensures ClientIs(Next(y, a), t, Track(c, t, y.shards, a))
  {
    match a
    case Start => StartIs(y, t, c);
    case Invoke(u, op) =>
      if u == t {
        InvokeIs(y, t, op, c);
      } else if u in y.txns {
        assert ThreadInv(y, u);
        InvokeFrame(y, u, op);
        OthersIs(y, InvokeOp(y, u, op), u, t, c);
      }
    case Resume(u) =>
      if u == t {
        ResumeIs(y, t, c);
      } else {
        ResumeFrame(y, u);
        OthersIs(y, ResumeTxn(y, u), u, t, c);
      }
  }

  // ---------------------------------------------------------------- runs

  lemma {:induction false} RunIs(states: seq<System>, actions: seq<Action>, n: nat, t: TxnId)
    requires Run(states, actions) && n <= |actions|
    ensures ClientIs(states[n], t, ClientAt(states, actions, n, t))
  {
    if n > 0 {
      RunInv(states, actions, n - 1);
      RunIs(states, actions, n - 1, t);
      StepIs(states[n - 1], actions[n - 1], t, ClientAt(states, actions, n - 1, t));
    }
  }

  /** Past its commit point a client's account is complete. */
  lemma DecidedStands(y: System, t: TxnId, c: Client, a: Action)
    requires t in y.pcs && Decided(y.pcs[t]) && ClientIs(y, t, c)
    ensures Track(c, t, y.shards, a) == c
  {
  }

  ghost predicate EntryIs(e: Committed, c: Client) {
    e.observed == c.observed && e.writeLog == c.writes && e.snapshot == c.versions && c.closing == Committing
  }

  lemma CommitPointEntry(y: System, t: TxnId, c: Client)
    requires Inv(y) && Resumes(y, t) && AtCommitPoint(y.pcs[t]) && ClientIs(y, t, c)
    ensures var y' := ResumeTxn(y, t);
            && |y'.order| == |y.order| + 1 && y.order <= y'.order
            && y'.order[|y.order|].id == t && EntryIs(y'.order[|y.order|], c)
            && Track(c, t, y.shards, Resume(t)) == c
  {
  }

  /** The order grows at a commit point, by whoever is at it, and at no other step. */
  ghost predicate OrderGrows(y: System, a: Action, y': System) {
    && y.order <= y'.order
    && if a.Resume? && a.id in y.pcs && AtCommitPoint(y.pcs[a.id]) then
         |y'.order| == |y.order| + 1 && y'.order[|y.order|].id == a.id
       else y'.order == y.order
  }

  lemma OrderMoves(y: System, a: Action)
    requires Inv(y) && Enabled(y, a)
    ensures OrderGrows(y, a, Next(y, a))
  {
    if a.Resume? && !AtCommitPoint(y.pcs[a.id]) {
      Undecided(y, a.id);
    }
  }

  lemma NewEntry(y: System, a: Action, c: Client)
    requires Inv(y) && Enabled(y, a) && a.Resume? && AtCommitPoint(y.pcs[a.id]) && ClientIs(y, a.id, c)
    ensures var y' := Next(y, a);
            |y'.order| == |y.order| + 1 && EntryIs(y'.order[|y.order|], Track(c, a.id, y.shards, a))
  {
    CommitPointEntry(y, a.id, c);
  }

  /** Each committed transaction is recorded with what its client asked to write and with what its reads, as its
      client asked for them, were shown when they were made. */
  lemma {:induction false} CommittedAsAsked(states: seq<System>, actions: seq<Action>, n: nat, i: nat)
    requires Run(states, actions) && n <= |actions| && i < |states[n].order|
    ensures EntryIs(states[n].order[i], ClientAt(states, actions, n, states[n].order[i].id))
  {
    assert n > 0;
    var y, a, t := states[n - 1], actions[n - 1], states[n].order[i].id;
    RunInv(states, actions, n - 1);
    RunIs(states, actions, n - 1, t);
    OrderMoves(y, a);
    if i < |y.order| {
      CommittedAsAsked(states, actions, n - 1, i);
      RunAccounted(states, actions, n - 1);
      assert InOrder(y.order, t);
      DecidedStands(y, t, ClientAt(states, actions, n - 1, t), a);
    } else {
      NewEntry(y, a, ClientAt(states, actions, n - 1, t));
    }
  }

  // ---------------------------------------------------------------- serializability, for the clients

  /** The committed clients, in commit order. */
  function Ids(order: seq<Committed>): seq<TxnId> {
    seq(|order|, i requires 0 <= i < |order| => order[i].id)
  }

  /** The first i of them run one after another from empty shards, each with the writes that it asked for. */
  ghost function SerialStore(states: seq<System>, actions: seq<Action>, n: nat, i: nat): seq<map<nat, nat>>
    requires Run(states, actions) && n <= |actions| && i <= |states[n].order|
  {
    if i == 0 then EmptyStore(|states[n].shards|)
    else
      RunAlone(SerialStore(states, actions, n, i - 1), ClientAt(states, actions, n, states[n].order[i - 1].id).writes)
  }

  lemma {:induction false} SerialIsReplay(states: seq<System>, actions: seq<Action>, n: nat, i: nat)
    requires Run(states, actions) && n <= |actions| && i <= |states[n].order|
    ensures SerialStore(states, actions, n, i) == Replay(states[n].order[..i], |states[n].shards|)
  {
    if i > 0 {
      SerialIsReplay(states, actions, n, i - 1);
      CommittedAsAsked(states, actions, n, i - 1);
      assert states[n].order[..i][..i - 1] == states[n].order[..i - 1];
    }
  }

  /** Serializability: every read of a committed client was answered with what the store holds when the clients
      before it in commit order, and no others, have run one after another. */
  lemma Serializability(states: seq<System>, actions: seq<Action>, n: nat, i: nat, o: Observation)
    requires Run(states, actions) && n <= |actions| && i < |states[n].order|
    requires o in ClientAt(states, actions, n, states[n].order[i].id).observed
    ensures o.shard < |SerialStore(states, actions, n, i)| && Answers(SerialStore(states, actions, n, i)[o.shard], o)
  {
    ReplayAgrees(states, actions, n, i);
    CommittedAsAsked(states, actions, n, i);
    SerialIsReplay(states, actions, n, i);
  }

  /** And each shard that no commit is being applied to holds what all of them leave. */
  lemma SerialContents(states: seq<System>, actions: seq<Action>, n: nat, s: nat)
    requires Run(states, actions) && n <= |actions| && s < |states[n].shards|
    requires forall t :: t in states[n].pcs ==> !Pending(states[n].pcs[t], s)
    ensures var store := SerialStore(states, actions, n, |states[n].order|);
            |store| == |states[n].shards| && store[s] == states[n].shards[s].data
  {
    ReplayContents(states, actions, n, s);
    SerialIsReplay(states, actions, n, |states[n].order|);
    assert states[n].order[..|states[n].order|] == states[n].order;
  }

  predicate To(w: Write, s: nat, key: nat) {
    w.shard == s && w.key == key
  }

  /** Running alone: a key that is not written stays as it is. */
  lemma {:induction false} KeyUntouched(store: seq<map<nat, nat>>, writes: seq<Write>, s: nat, key: nat)
    requires s < |store| && forall i :: 0 <= i < |writes| ==> !To(writes[i], s, key)
    ensures |RunAlone(store, writes)| == |store|
    ensures key in RunAlone(store, writes)[s] <==> key in store[s]
    ensures key in store[s] ==> RunAlone(store, writes)[s][key] == store[s][key]
  {
    if writes != [] {
      var k := |writes| - 1;
      assert !To(writes[k], s, key);
      KeyUntouched(store, writes[..k], s, key);
    }
  }

  /** And of the writes to a key the last one stands. */
  lemma {:induction false} LastWriteStands(store: seq<map<nat, nat>>, writes: seq<Write>, s: nat, key: nat, i: nat)
    requires s < |store| && i < |writes| && To(writes[i], s, key)
    requires forall j :: i < j < |writes| ==> !To(writes[j], s, key)
    ensures |RunAlone(store, writes)| == |store|
    ensures key in RunAlone(store, writes)[s] && RunAlone(store, writes)[s][key] == writes[i].value
  {
    var k := |writes| - 1;
    if i == k {
      SameSize(store, writes[..k]);
    } else {
      assert !To(writes[k], s, key);
      LastWriteStands(store, writes[..k], s, key, i);
    }
  }

  lemma {:induction false} SameSize(store: seq<map<nat, nat>>, writes: seq<Write>)
    ensures |RunAlone(store, writes)| == |store|
  {
    if writes != [] {
      SameSize(store, writes[..|writes| - 1]);
    }
  }

  // ---------------------------------------------------------------- what a commit is answered

  /** A commit that has been asked for and not succeeded: a shard that the client had asked for has moved since
      its begin. */
  lemma RefusedForCause(states: seq<System>, actions: seq<Action>, n: nat, t: TxnId)
    requires Run(states, actions) && n <= |actions|
    requires t in states[n].pcs && states[n].pcs[t] == Ended(false)
    requires ClientAt(states, actions, n, t).closing == Committing
    ensures Moved(states[n], ClientAt(states, actions, n, t))
  {
    RunIs(states, actions, n, t);
  }

  /** No shard that the client had asked for has moved. */
  predicate Unmoved(y: System, c: Client) {
    forall s: nat :: s < |y.shards| && s < |c.versions| && Asked(c, s) ==> y.shards[s].version == c.versions[s]
  }

  lemma {:induction false} CommitMoment(states: seq<System>, n: nat, t: TxnId) returns (j: nat)
    requires n < |states| && InOrder(states[n].order, t) && !InOrder(states[0].order, t)
    ensures j < n && !InOrder(states[j].order, t) && InOrder(states[j + 1].order, t)
  {
    j := n - 1;
    if InOrder(states[n - 1].order, t) {
      j := CommitMoment(states, n - 1, t);
    }
  }

  /** A commit that has succeeded: at one moment, its commit point, no shard that the client had asked for had
      moved since its begin. */
  lemma SucceededUnmoved(states: seq<System>, actions: seq<Action>, n: nat, t: TxnId) returns (j: nat)
    requires Run(states, actions) && n <= |actions| && InOrder(states[n].order, t)
    ensures j < n && actions[j] == Resume(t) && !InOrder(states[j].order, t) && InOrder(states[j + 1].order, t)
    ensures ClientAt(states, actions, j, t).closing == Committing && Unmoved(states[j], ClientAt(states, actions, j, t))
  {
    j := CommitMoment(states, n, t);
    RunInv(states, actions, j);
    RunIs(states, actions, j, t);
    CommitsUnmoved(states[j], actions[j], t, ClientAt(states, actions, j, t));
  }

  lemma CommitsUnmoved(y: System, a: Action, t: TxnId, c: Client)
    requires Inv(y) && Enabled(y, a) && ClientIs(y, t, c)
    requires InOrder(Next(y, a).order, t) && !InOrder(y.order, t)
    ensures a == Resume(t) && c.closing == Committing && Unmoved(y, c)
  {
    OrderMoves(y, a);
    NewInOrder(y, a, Next(y, a), t);
    CommitPointUnmoved(y, t, c);
  }

  lemma NewInOrder(y: System, a: Action, y': System, t: TxnId)
    requires OrderGrows(y, a, y') && InOrder(y'.order, t) && !InOrder(y.order, t)
    ensures a == Resume(t) && t in y.pcs && AtCommitPoint(y.pcs[t])
  {
    assert forall i :: 0 <= i < |y.order| ==> y'.order[i] == y.order[i];
  }

  lemma CommitPointUnmoved(y: System, t: TxnId, c: Client)
    requires Inv(y) && Resumes(y, t) && AtCommitPoint(y.pcs[t]) && ClientIs(y, t, c)
    ensures c.closing == Committing && Unmoved(y, c)
  {
    assert ThreadInv(y, t);
    forall s: nat | s < |y.shards| && Asked(c, s)
      ensures y.shards[s].version == c.versions[s]
    {
      assert s in y.pcs[t].involved;
    }
  }

  // ---------------------------------------------------------------- every operation ends

  /** How many steps of its own a client's operation has left at most. */
  function StepsLeft(shards: nat, pc: Pc): nat {
    match pc
    case Beginning(vs) => if |vs| <= shards then shards - |vs| + 1 else 0
    case WantRead(_, _) => 2
    case Reading(_, _) => 1
    case Locking(_, involved, k) => if k <= |involved| then 3 * |involved| + 3 + |involved| - k + 1 else 0
    case Validating(_, involved, k) => if k <= |involved| then 2 * |involved| + 2 + |involved| - k + 1 else 0
    case Applying(_, involved, k) => if k <= |involved| then |involved| + 1 + |involved| - k + 1 else 0
    case Releasing(involved, k, _) => if k <= |involved| then |involved| - k + 1 else 0
    case _ => 0
  }

  lemma OwnStep(y: System, t: TxnId)
    requires Resumes(y, t) && (y.pcs[t].Beginning? ==> |y.pcs[t].versions| <= |y.shards|)
    ensures t in ResumeTxn(y, t).pcs
    ensures StepsLeft(|y.shards|, ResumeTxn(y, t).pcs[t]) < StepsLeft(|y.shards|, y.pcs[t])
  {
  }

  /** Each step of a client brings its operation nearer to its end, and nobody else's further from it. */
  lemma StepsRunOut(y: System, a: Action, t: TxnId)
    requires Inv(y) && Enabled(y, a) && t in y.pcs && Unfinished(y.pcs[t])
    ensures t in Next(y, a).pcs
    ensures var left, left' := StepsLeft(|y.shards|, y.pcs[t]), StepsLeft(|y.shards|, Next(y, a).pcs[t]);
            if a == Resume(t) then left' < left else left' == left
  {
    assert ThreadInv(y, t);
    match a
    case Start =>
    case Invoke(_, _) =>
    case Resume(u) =>
      if u == t {
        OwnStep(y, t);
      } else {
        ResumeFrame(y, u);
      }
  }

  ghost function Starts(actions: seq<Action>): nat {
    if actions == [] then 0 else Starts(actions[..|actions| - 1]) + if actions[|actions| - 1] == Start then 1 else 0
  }

  /** The n-th begin starts client n. */
  lemma {:induction false} BeginsInTurn(states: seq<System>, actions: seq<Action>, n: nat)
    requires Run(states, actions) && n <= |actions|
    ensures states[n].nextId == Starts(actions[..n]) + 1
    ensures n < |actions| && actions[n] == Start ==>
              states[n + 1].pcs == states[n].pcs[Starts(actions[..n]) + 1 := Beginning([])]
  {
    if n > 0 {
      BeginsInTurn(states, actions, n - 1);
      IdsMove(states[n - 1], actions[n - 1]);
      assert actions[..n][..n - 1] == actions[..n - 1];
    }
    if n < |actions| {
      IdsMove(states[n], actions[n]);
    }
  }

  lemma IdsMove(y: System, a: Action)
    requires Shaped(y) && Enabled(y, a)
    ensures Next(y, a).nextId == if a == Start then y.nextId + 1 else y.nextId
    ensures a == Start ==> Next(y, a).pcs == y.pcs[y.nextId := Beginning([])]
  {
  }

  /** A call starts what it asks for, and takes at most four steps for each shard and four more. */
  lemma CallsBegin(y: System, t: TxnId, op: Op)
    requires Inv(y) && Enabled(y, Invoke(t, op)) && y.pcs[t].Idle?
    ensures var pc := InvokeOp(y, t, op).pcs[t];
            && (op.OpRead? ==> pc == WantRead(op.shard, op.key))
            && (op.OpWrite? ==> pc == Idle)
            && (op.OpCommit? ==> pc.Locking?)
            && (op.OpAbort? ==> pc == Ended(false))
            && StepsLeft(|y.shards|, pc) <= 4 * |y.shards| + 4
  {
    assert ThreadInv(y, t);
    AscendingShort(InvolvedSet(y.txns[t]), |y.shards|);
  }

  lemma {:induction false} AscendingShort(ids: set<nat>, n: nat)
    ensures |Ascending(ids, n)| <= n
  {
    if n > 0 {
      AscendingShort(ids, n - 1);
    }
  }
}
