/** The SSI store is its log. */
module StoreLog {
  /* The log of a run is its calls and what they were answered. Locks, sets, flags and version lists are an index
     over it: what the next call is answered follows from the log alone. */

  import opened Options
  import opened SnapshotRefinement
  import opened SsiStore
  import S = StoreSerializability

  datatype Reply =
    | Started(t: TxnId)
    | Found(value: Option<Value>)
    | Said(ok: bool)
    | Done

  datatype Event = Event(call: Call, reply: Reply)

  /** What the operations of the class return. */
  function ReplyOf(d: Db, c: Call): Reply {
    match c
    case CallBegin => Started(d.nextTxn)
    case CallRead(t, k) => Found(ReadResult(d, t, k))
    case CallWrite(t, k, _) => Said(WriteAllowed(d, t, k))
    case CallCommit(t) => Said(CommitAllowed(d, t))
    case CallAbort(_) => Done
  }

  ghost function LogAt(states: seq<Db>, calls: seq<Call>, n: nat): (h: seq<Event>)
    requires Run(states, calls) && n <= |calls|
    ensures |h| == n
  {
    seq(n, i requires 0 <= i < n => Event(calls[i], ReplyOf(states[i], calls[i])))
  }

  // ---------------------------------------------------------------- reading the log

  predicate Begins(e: Event, t: TxnId) {
    e == Event(CallBegin, Started(t))
  }

  /** A commit ends a transaction whatever it is answered. */
  predicate Ends(e: Event, t: TxnId) {
    e.call == CallCommit(t) || e.call == CallAbort(t)
  }

  predicate Commits(e: Event, t: TxnId) {
    e == Event(CallCommit(t), Said(true))
  }

  predicate Writes(e: Event, t: TxnId, k: Key) {
    e.call.CallWrite? && e.call.t == t && e.call.k == k && e.reply == Said(true)
  }

  ghost predicate Begun(h: seq<Event>, t: TxnId) {
    exists b :: 0 <= b < |h| && Begins(h[b], t)
  }

  ghost predicate Live(h: seq<Event>, t: TxnId) {
    exists b :: 0 <= b < |h| && Begins(h[b], t) && forall m :: b < m < |h| ==> !Ends(h[m], t)
  }

  ghost predicate CommittedIn(h: seq<Event>, t: TxnId) {
    exists c :: 0 <= c < |h| && Commits(h[c], t)
  }

  ghost predicate WroteIn(h: seq<Event>, t: TxnId, k: Key) {
    exists j :: 0 <= j < |h| && Writes(h[j], t, k)
  }

  /** A read by a live transaction. */
  ghost predicate ReadsAt(h: seq<Event>, t: TxnId, k: Key, i: nat) {
    i < |h| && h[i].call == CallRead(t, k) && Live(h[..i], t)
  }

  ghost predicate HasRead(h: seq<Event>, t: TxnId, k: Key) {
    exists i: nat :: ReadsAt(h, t, k, i)
  }

  ghost predicate Stands(h: seq<Event>, t: TxnId) {
    Live(h, t) || CommittedIn(h, t)
  }

  /** The commit of w stands before the begin of r. */
  ghost predicate CommittedBefore(h: seq<Event>, w: TxnId, r: TxnId) {
    exists c, b :: 0 <= c < b < |h| && Commits(h[c], w) && Begins(h[b], r)
  }

  /** w has written k, and r's snapshot does not have it. */
  ghost predicate Newer(h: seq<Event>, r: TxnId, w: TxnId, k: Key) {
    w != r && WroteIn(h, w, k) && (Live(h, w) || (CommittedIn(h, w) && !CommittedBefore(h, w, r)))
  }

  ghost predicate ReadDetects(h: seq<Event>, r: TxnId, w: TxnId, k: Key, i: nat) {
    ReadsAt(h, r, k, i) && Newer(h[..i], r, w, k)
  }

  ghost predicate WriteDetects(h: seq<Event>, r: TxnId, w: TxnId, k: Key, j: nat) {
    j < |h| && Writes(h[j], w, k) && r != w && HasRead(h[..j], r, k) && Stands(h[..j], r)
  }

  /** t has read a key that somebody else was writing, or had written since t began; or somebody else has
      written a key that t, still live, had read. */
  ghost predicate ReadsBehindSomebody(h: seq<Event>, t: TxnId) {
    (exists w, k, i: nat :: ReadDetects(h, t, w, k, i))
    || (exists w, k, j: nat :: WriteDetects(h, t, w, k, j) && Live(h[..j], t))
  }

  /** Somebody else has read behind t. */
  ghost predicate IsReadBehind(h: seq<Event>, t: TxnId) {
    (exists r, k, i: nat :: ReadDetects(h, r, t, k, i)) || (exists r, k, j: nat :: WriteDetects(h, r, t, k, j))
  }

  // ---------------------------------------------------------------- one more event

  lemma PrefixSame(h: seq<Event>, e: Event, i: nat)
    requires i <= |h|
    ensures (h + [e])[..i] == h[..i] && (i < |h| ==> (h + [e])[i] == h[i])
  {
  }

  lemma BegunAfter(h: seq<Event>, e: Event, t: TxnId)
    ensures Begun(h + [e], t) <==> Begun(h, t) || Begins(e, t)
  {
    if Begun(h, t) {
      var b :| 0 <= b < |h| && Begins(h[b], t);
      assert Begins((h + [e])[b], t);
    }
    assert (h + [e])[|h|] == e;
  }

  lemma CommittedAfter(h: seq<Event>, e: Event, t: TxnId)
    ensures CommittedIn(h + [e], t) <==> CommittedIn(h, t) || Commits(e, t)
  {
    if CommittedIn(h, t) {
      var c :| 0 <= c < |h| && Commits(h[c], t);
      assert Commits((h + [e])[c], t);
    }
    assert (h + [e])[|h|] == e;
  }

  lemma WroteAfter(h: seq<Event>, e: Event, t: TxnId, k: Key)
    ensures WroteIn(h + [e], t, k) <==> WroteIn(h, t, k) || Writes(e, t, k)
  {
    if WroteIn(h, t, k) {
      var j :| 0 <= j < |h| && Writes(h[j], t, k);
      assert Writes((h + [e])[j], t, k);
    }
    assert (h + [e])[|h|] == e;
  }

  lemma LiveAfter(h: seq<Event>, e: Event, t: TxnId)
    ensures Live(h + [e], t) <==> (Live(h, t) && !Ends(e, t)) || Begins(e, t)
  {
    var h' := h + [e];
    assert h'[|h|] == e && forall i :: 0 <= i < |h| ==> h'[i] == h[i];
    if Live(h, t) && !Ends(e, t) {
      var b :| 0 <= b < |h| && Begins(h[b], t) && forall m :: b < m < |h| ==> !Ends(h[m], t);
      assert Begins(h'[b], t);
    }
    if Live(h', t) {
      var b :| 0 <= b < |h'| && Begins(h'[b], t) && forall m :: b < m < |h'| ==> !Ends(h'[m], t);
      if b < |h| {
        assert Begins(h[b], t) && !Ends(h'[|h|], t);
        assert forall m :: b < m < |h| ==> !Ends(h'[m], t);
      }
    }
  }

  lemma ReadsAtAfter(h: seq<Event>, e: Event, t: TxnId, k: Key, i: nat)
    ensures ReadsAt(h + [e], t, k, i) <==> ReadsAt(h, t, k, i) || (i == |h| && e.call == CallRead(t, k) && Live(h, t))
  {
    if i < |h| {
      PrefixSame(h, e, i);
    } else if i == |h| {
      assert (h + [e])[..i] == h;
    }
  }

  lemma HasReadAfter(h: seq<Event>, e: Event, t: TxnId, k: Key)
    ensures HasRead(h + [e], t, k) <==> HasRead(h, t, k) || (e.call == CallRead(t, k) && Live(h, t))
  {
    ReadsAtAfter(h, e, t, k, |h|);
    forall i: nat | i != |h|
      ensures ReadsAt(h + [e], t, k, i) <==> ReadsAt(h, t, k, i)
    {
      ReadsAtAfter(h, e, t, k, i);
    }
  }

  lemma StandsAfter(h: seq<Event>, e: Event, t: TxnId)
    ensures Stands(h + [e], t) <==> (Live(h, t) && !Ends(e, t)) || Begins(e, t) || CommittedIn(h, t) || Commits(e, t)
  {
    LiveAfter(h, e, t);
    CommittedAfter(h, e, t);
  }

  lemma CommittedBeforeAfter(h: seq<Event>, e: Event, w: TxnId, r: TxnId)
    ensures CommittedBefore(h + [e], w, r) <==> CommittedBefore(h, w, r) || (CommittedIn(h, w) && Begins(e, r))
  {
    var h' := h + [e];
    assert h'[|h|] == e && forall i :: 0 <= i < |h| ==> h'[i] == h[i];
    if CommittedBefore(h, w, r) {
      var c, b :| 0 <= c < b < |h| && Commits(h[c], w) && Begins(h[b], r);
      assert Commits(h'[c], w) && Begins(h'[b], r);
    }
    if CommittedIn(h, w) && Begins(e, r) {
      var c :| 0 <= c < |h| && Commits(h[c], w);
      assert Commits(h'[c], w) && Begins(h'[|h|], r);
    }
  }

  // ---------------------------------------------------------------- the store is an index

  ghost predicate StatusIndex(d: Db, h: seq<Event>) {
    forall t ::
      && (t in d.txns <==> Begun(h, t))
      && (IsActive(d, t) <==> Live(h, t))
      && (HasCommitted(d, t) <==> CommittedIn(h, t))
      && (t in d.committed <==> CommittedIn(h, t))
  }

  ghost predicate WriteIndex(d: Db, h: seq<Event>) {
    forall t, k :: t in d.txns && k in d.txns[t].writeSet <==> WroteIn(h, t, k)
  }

  function ReadersOf(d: Db, k: Key): set<TxnId> {
    if k in d.sireads then d.sireads[k] else {}
  }

  ghost predicate ReadIndex(d: Db, h: seq<Event>) {
    forall t, k ::
      && (t in ReadersOf(d, k) && Running(d, t) <==> HasRead(h, t, k) && Stands(h, t))
      && (t in ReadersOf(d, k) ==> t in d.txns)
      && (t in d.txns && k in d.txns[t].readSet <==> HasRead(h, t, k))
  }

  predicate HasVersionBy(d: Db, k: Key, w: TxnId) {
    exists v :: v in VersionsOf(d, k) && v.writer == w
  }

  /** The versions of a key are those of the writers that stand; a snapshot has those committed before. */
  ghost predicate VersionIndex(d: Db, h: seq<Event>) {
    && (forall w, k :: HasVersionBy(d, k, w) <==> WroteIn(h, w, k) && Stands(h, w))
    && (forall v, k, r :: v in VersionsOf(d, k) && v.ts != PENDING && r in d.txns ==>
          (v.ts <= d.txns[r].snapshotTs <==> CommittedBefore(h, v.writer, r)))
  }

  ghost predicate FlagIndex(d: Db, h: seq<Event>) {
    forall t :: t in d.txns ==>
      && (d.txns[t].outConflict <==> ReadsBehindSomebody(h, t))
      && (d.txns[t].inConflict <==> IsReadBehind(h, t))
  }

  /** One call and what it is answered. */
  function EventOf(d: Db, c: Call): Event {
    Event(c, ReplyOf(d, c))
  }

  /** A call and the status of a transaction. */
  lemma StatusMoves(d: Db, c: Call, t: TxnId)
    requires Ok(d)
    ensures var d', e := SnapshotRefinement.Store(d, c), EventOf(d, c);
            && (t in d'.txns <==> t in d.txns || Begins(e, t))
            && (IsActive(d', t) <==> (IsActive(d, t) && !Ends(e, t)) || Begins(e, t))
            && (HasCommitted(d', t) <==> HasCommitted(d, t) || Commits(e, t))
            && (t in d'.committed <==> t in d.committed || Commits(e, t))
  {
    assert ClockOk(d, d.nextTxn);
  }

  lemma KeepsStatusIndex(d: Db, c: Call, h: seq<Event>)
    requires Ok(d) && StatusIndex(d, h)
    ensures StatusIndex(SnapshotRefinement.Store(d, c), h + [EventOf(d, c)])
  {
    forall t
      ensures var d', h' := SnapshotRefinement.Store(d, c), h + [EventOf(d, c)];
              && (t in d'.txns <==> Begun(h', t))
              && (IsActive(d', t) <==> Live(h', t))
              && (HasCommitted(d', t) <==> CommittedIn(h', t))
              && (t in d'.committed <==> CommittedIn(h', t))
    {
      StatusMoves(d, c, t);
      BegunAfter(h, EventOf(d, c), t);
      LiveAfter(h, EventOf(d, c), t);
      CommittedAfter(h, EventOf(d, c), t);
    }
  }

  lemma WriteSetMoves(d: Db, c: Call, t: TxnId, k: Key)
    requires Ok(d)
    ensures var d', e := SnapshotRefinement.Store(d, c), EventOf(d, c);
            t in d'.txns && k in d'.txns[t].writeSet <==>
            (t in d.txns && k in d.txns[t].writeSet) || Writes(e, t, k)
  {
    assert ClockOk(d, d.nextTxn);
  }

  lemma KeepsWriteIndex(d: Db, c: Call, h: seq<Event>)
    requires Ok(d) && WriteIndex(d, h)
    ensures WriteIndex(SnapshotRefinement.Store(d, c), h + [EventOf(d, c)])
  {
    forall t, k
      ensures var d', h' := SnapshotRefinement.Store(d, c), h + [EventOf(d, c)];
              t in d'.txns && k in d'.txns[t].writeSet <==> WroteIn(h', t, k)
    {
      WriteSetMoves(d, c, t, k);
      WroteAfter(h, EventOf(d, c), t, k);
    }
  }

  /** A live reader is remembered, and only an abort forgets. */
  lemma ReadersMove(d: Db, c: Call, t: TxnId, k: Key)
    requires Ok(d)
    ensures var d' := SnapshotRefinement.Store(d, c);
            t in ReadersOf(d', k) <==>
            (t in ReadersOf(d, k) && !(c == CallAbort(t) && IsActive(d, t))) || (c == CallRead(t, k) && IsActive(d, t))
  {
  }

  lemma ReadSetMoves(d: Db, c: Call, t: TxnId, k: Key)
    requires Ok(d)
    ensures var d' := SnapshotRefinement.Store(d, c);
            t in d'.txns && k in d'.txns[t].readSet <==>
            (t in d.txns && k in d.txns[t].readSet) || (c == CallRead(t, k) && IsActive(d, t))
  {
    assert ClockOk(d, d.nextTxn);
  }

  lemma NotYetRead(h: seq<Event>, t: TxnId, k: Key)
    requires !Begun(h, t)
    ensures !HasRead(h, t, k)
  {
  }

  lemma RunningIs(d: Db, h: seq<Event>, t: TxnId)
    requires StatusIndex(d, h)
    ensures Running(d, t) <==> Stands(h, t)
  {
    assert Running(d, t) <==> IsActive(d, t) || HasCommitted(d, t);
  }

  lemma KeepsReadIndex(d: Db, c: Call, h: seq<Event>)
    requires Ok(d) && StatusIndex(d, h) && ReadIndex(d, h)
    ensures ReadIndex(SnapshotRefinement.Store(d, c), h + [EventOf(d, c)])
  {
    var d', e := SnapshotRefinement.Store(d, c), EventOf(d, c);
    KeepsStatusIndex(d, c, h);
    forall t, k
      ensures t in ReadersOf(d', k) && Running(d', t) <==> HasRead(h + [e], t, k) && Stands(h + [e], t)
      ensures t in ReadersOf(d', k) ==> t in d'.txns
      ensures t in d'.txns && k in d'.txns[t].readSet <==> HasRead(h + [e], t, k)
    {
      ReadSetMoves(d, c, t, k);
      StatusMoves(d, c, t);
      ReadersMove(d, c, t, k);
      HasReadAfter(h, e, t, k);
      StandsAfter(h, e, t);
      RunningIs(d, h, t);
      RunningIs(d', h + [e], t);
      assert IsActive(d, t) <==> Live(h, t);
      assert ClockOk(d, t);
      if !Begun(h, t) {
        NotYetRead(h, t, k);
      }
    }
  }

  // ---------------------------------------------------------------- versions

  lemma SettledBy(d: Db, k: Key, w: TxnId)
    requires Ok(d)
    ensures HasVersionBy(d, k, w) <==>
            (exists v :: v in Settled(VersionsOf(d, k)) && v.writer == w) || PendingInFront(d, w, k)
    ensures (exists v :: v in Settled(VersionsOf(d, k)) && v.writer == w) ==> HasCommitted(d, w)
    ensures PendingInFront(d, w, k) ==> Wrote(d, w, k)
  {
    var vs := VersionsOf(d, k);
    assert ListOk(d, k) && LockOk(d, w, k);
    if vs != [] && vs[0].ts == PENDING {
      assert vs == [vs[0]] + Settled(vs);
    }
    SettledMembers(d, k);
  }

  lemma WriteVersions(d: Db, t: TxnId, k: Key, v: Value, j: Key, w: TxnId)
    requires Ok(d) && WriteAllowed(d, t, k)
    ensures HasVersionBy(WriteDb(d, t, k, v), j, w) <==> HasVersionBy(d, j, w) || (w == t && j == k)
  {
    var d' := WriteDb(d, t, k, v);
    WriteList(d, t, k, v);
    if j == k {
      SettledBy(d, k, w);
      assert LockOk(d, t, k);
      assert VersionsOf(d', k)[0] == Version(v, t, PENDING);
      forall u | u in Settled(VersionsOf(d, k))
        ensures u in VersionsOf(d', k)
      {
      }
      if PendingInFront(d, w, k) {
        assert LockOk(d, w, k);
      }
    }
  }

  lemma DiscardVersions(d: Db, t: TxnId, j: Key, w: TxnId)
    requires Ok(d) && IsActive(d, t)
    ensures HasVersionBy(Discard(d, t), j, w) <==> HasVersionBy(d, j, w) && w != t
  {
    DiscardList(d, t, j);
    SettledBy(d, j, w);
    SettledBy(d, j, t);
    assert LockOk(d, t, j) && LockOk(d, w, j);
  }

  lemma CommitVersions(d: Db, t: TxnId, j: Key, w: TxnId)
    requires Ok(d) && CommitAllowed(d, t) && d.timestamp < PENDING
    ensures HasVersionBy(CommitDb(d, t), j, w) <==> HasVersionBy(d, j, w)
  {
    var vs := VersionsOf(d, j);
    CommitList(d, t, j);
    assert LockOk(d, t, j);
    if OwnsLock(d, t, j) && vs != [] {
      var vs' := VersionsOf(CommitDb(d, t), j);
      assert vs' == [vs[0].(ts := d.timestamp)] + Settled(vs) && vs == [vs[0]] + Settled(vs);
      assert vs'[0] in vs' && vs[0] in vs;
      forall v | v in Settled(vs)
        ensures v in vs && v in vs'
      {
      }
    }
  }

  /** Who has a version of k after a call: whoever writes it has, and who ends without committing has not. */
  lemma VersionsMove(d: Db, c: Call, k: Key, w: TxnId)
    requires Ok(d) && d.timestamp < PENDING
    ensures var d', e := SnapshotRefinement.Store(d, c), EventOf(d, c);
            HasVersionBy(d', k, w) <==>
            (HasVersionBy(d, k, w) && !(Ends(e, w) && IsActive(d, w) && !Commits(e, w))) || Writes(e, w, k)
  {
    match c
    case CallBegin =>
    case CallRead(_, _) =>
    case CallWrite(t, j, v) => if WriteAllowed(d, t, j) { WriteVersions(d, t, j, v, k, w); }
    case CallCommit(t) =>
      if CommitAllowed(d, t) {
        CommitVersions(d, t, k, w);
      } else if IsActive(d, t) {
        DiscardVersions(d, t, k, w);
      }
    case CallAbort(t) => if IsActive(d, t) { DiscardVersions(d, t, k, w); }
  }

  /** A committed version was there before, or has just been committed. */
  lemma StampsMove(d: Db, c: Call, k: Key, v: Version)
    requires Ok(d) && d.timestamp < PENDING && v in VersionsOf(SnapshotRefinement.Store(d, c), k) && v.ts != PENDING
    ensures (v in VersionsOf(d, k) && HasCommitted(d, v.writer))
            || (Commits(EventOf(d, c), v.writer) && v.ts == d.timestamp)
  {
    var vs := VersionsOf(d, k);
    assert ListOk(d, k);
    forall u | u in Settled(vs)
      ensures u in vs
    {
    }
    match c
    case CallBegin =>
    case CallRead(_, _) =>
    case CallWrite(t, j, x) => if WriteAllowed(d, t, j) { WriteList(d, t, j, x); }
    case CallCommit(t) =>
      if CommitAllowed(d, t) {
        CommitList(d, t, k);
        assert LockOk(d, t, k);
      } else if IsActive(d, t) {
        DiscardList(d, t, k);
      }
    case CallAbort(t) => if IsActive(d, t) { DiscardList(d, t, k); }
  }

  lemma KeepsWriters(d: Db, c: Call, h: seq<Event>, w: TxnId, k: Key)
    requires Ok(d) && d.timestamp < PENDING && StatusIndex(d, h) && WriteIndex(d, h) && VersionIndex(d, h)
    ensures var d', h' := SnapshotRefinement.Store(d, c), h + [EventOf(d, c)];
            HasVersionBy(d', k, w) <==> WroteIn(h', w, k) && Stands(h', w)
  {
    var e := EventOf(d, c);
    VersionsMove(d, c, k, w);
    WroteAfter(h, e, w, k);
    StandsAfter(h, e, w);
    RunningIs(d, h, w);
    assert ClockOk(d, w);
    assert (IsActive(d, w) <==> Live(h, w)) && (WroteIn(h, w, k) ==> w in d.txns);
    assert HasVersionBy(d, k, w) <==> WroteIn(h, w, k) && Stands(h, w);
  }

  lemma KeepsStamps(d: Db, c: Call, h: seq<Event>, v: Version, k: Key, r: TxnId)
    requires Ok(d) && d.timestamp < PENDING && StatusIndex(d, h) && VersionIndex(d, h)
    requires v in VersionsOf(SnapshotRefinement.Store(d, c), k) && v.ts != PENDING
    requires r in SnapshotRefinement.Store(d, c).txns
    ensures v.ts <= SnapshotRefinement.Store(d, c).txns[r].snapshotTs <==>
            CommittedBefore(h + [EventOf(d, c)], v.writer, r)
  {
    var e := EventOf(d, c);
    StampsMove(d, c, k, v);
    CommittedBeforeAfter(h, e, v.writer, r);
    StatusMoves(d, c, r);
    SnapshotMoves(d, c, r);
    assert ClockOk(d, r) && ListOk(d, k);
    assert HasCommitted(d, v.writer) <==> CommittedIn(h, v.writer);
    if v in VersionsOf(d, k) {
      assert r in d.txns ==> (v.ts <= d.txns[r].snapshotTs <==> CommittedBefore(h, v.writer, r));
    }
    if !CommittedIn(h, v.writer) {
      NotCommittedBefore(h, v.writer, r);
    }
    if !Begun(h, r) {
      NotBegunAfter(h, v.writer, r);
    }
  }

  lemma SnapshotMoves(d: Db, c: Call, r: TxnId)
    requires Ok(d) && r in SnapshotRefinement.Store(d, c).txns
    ensures SnapshotRefinement.Store(d, c).txns[r].snapshotTs
         == if Begins(EventOf(d, c), r) then d.timestamp else if r in d.txns then d.txns[r].snapshotTs else 0
  {
    assert ClockOk(d, d.nextTxn);
  }

  lemma NotCommittedBefore(h: seq<Event>, w: TxnId, r: TxnId)
    requires !CommittedIn(h, w)
    ensures !CommittedBefore(h, w, r)
  {
  }

  lemma NotBegunAfter(h: seq<Event>, w: TxnId, r: TxnId)
    requires !Begun(h, r)
    ensures !CommittedBefore(h, w, r)
  {
  }

  lemma KeepsVersionIndex(d: Db, c: Call, h: seq<Event>)
    requires Ok(d) && d.timestamp < PENDING && StatusIndex(d, h) && WriteIndex(d, h) && VersionIndex(d, h)
    ensures VersionIndex(SnapshotRefinement.Store(d, c), h + [EventOf(d, c)])
  {
    var d', h' := SnapshotRefinement.Store(d, c), h + [EventOf(d, c)];
    forall w, k
      ensures HasVersionBy(d', k, w) <==> WroteIn(h', w, k) && Stands(h', w)
    {
      KeepsWriters(d, c, h, w, k);
    }
    forall v, k, r | v in VersionsOf(d', k) && v.ts != PENDING && r in d'.txns
      ensures v.ts <= d'.txns[r].snapshotTs <==> CommittedBefore(h', v.writer, r)
    {
      KeepsStamps(d, c, h, v, k, r);
    }
  }

  // ---------------------------------------------------------------- flags

  lemma NewerIs(d: Db, h: seq<Event>, r: TxnId, w: TxnId, k: Key)
    requires Ok(d) && StatusIndex(d, h) && VersionIndex(d, h) && r in d.txns
    ensures w in NewerWriters(d, r, k, d.txns[r].snapshotTs) <==> Newer(h, r, w, k)
  {
    var ts := d.txns[r].snapshotTs;
    assert ClockOk(d, r) && ListOk(d, k);
    RunningIs(d, h, w);
    assert HasVersionBy(d, k, w) <==> WroteIn(h, w, k) && Stands(h, w);
    assert (IsActive(d, w) <==> Live(h, w)) && (HasCommitted(d, w) <==> CommittedIn(h, w));
    if w in NewerWriters(d, r, k, ts) {
      var v :| v in VersionsOf(d, k) && v.writer == w && w != r && v.ts > ts && Running(d, w);
      assert HasVersionBy(d, k, w);
      assert v.ts != PENDING ==> HasCommitted(d, w);
    }
    if Newer(h, r, w, k) {
      var v :| v in VersionsOf(d, k) && v.writer == w;
      assert v.ts == PENDING <==> IsActive(d, w);
      assert v.ts > ts;
    }
  }

  lemma ReadersAre(d: Db, h: seq<Event>, r: TxnId, w: TxnId, k: Key)
    requires StatusIndex(d, h) && ReadIndex(d, h)
    ensures r in ConcurrentReaders(d, w, k) <==> r != w && HasRead(h, r, k) && Stands(h, r)
  {
    assert r in ReadersOf(d, k) && Running(d, r) <==> HasRead(h, r, k) && Stands(h, r);
  }

  /** What a call does to the flags of a transaction. */
  lemma OutFlagMoves(d: Db, c: Call, t: TxnId)
    requires Ok(d) && t in SnapshotRefinement.Store(d, c).txns
    ensures SnapshotRefinement.Store(d, c).txns[t].outConflict <==>
            (t in d.txns && d.txns[t].outConflict)
            || (c.CallRead? && c.t == t && IsActive(d, t) && NewerWriters(d, t, c.k, d.txns[t].snapshotTs) != {})
            || (c.CallWrite? && WriteAllowed(d, c.t, c.k) && t in ConcurrentReaders(d, c.t, c.k) && IsActive(d, t))
  {
    assert ClockOk(d, d.nextTxn);
  }

  lemma InFlagMoves(d: Db, c: Call, t: TxnId)
    requires Ok(d) && t in SnapshotRefinement.Store(d, c).txns
    ensures SnapshotRefinement.Store(d, c).txns[t].inConflict <==>
            (t in d.txns && d.txns[t].inConflict)
            || (c.CallRead? && IsActive(d, c.t) && t in NewerWriters(d, c.t, c.k, d.txns[c.t].snapshotTs))
            || (c.CallWrite? && c.t == t && WriteAllowed(d, t, c.k) && ConcurrentReaders(d, t, c.k) != {})
  {
    assert ClockOk(d, d.nextTxn);
  }

  lemma ReadDetectsAfter(h: seq<Event>, e: Event, r: TxnId, w: TxnId, k: Key, i: nat)
    ensures ReadDetects(h + [e], r, w, k, i) <==>
            ReadDetects(h, r, w, k, i) || (i == |h| && e.call == CallRead(r, k) && Live(h, r) && Newer(h, r, w, k))
  {
    if i < |h| {
      PrefixSame(h, e, i);
    } else if i == |h| {
      assert (h + [e])[..i] == h;
    }
  }

  lemma WriteDetectsAfter(h: seq<Event>, e: Event, r: TxnId, w: TxnId, k: Key, j: nat)
    ensures WriteDetects(h + [e], r, w, k, j) <==>
            WriteDetects(h, r, w, k, j)
            || (j == |h| && Writes(e, w, k) && r != w && HasRead(h, r, k) && Stands(h, r))
    ensures j < |h| ==> (h + [e])[..j] == h[..j]
    ensures j == |h| ==> (h + [e])[..j] == h
  {
    if j < |h| {
      PrefixSame(h, e, j);
    } else if j == |h| {
      assert (h + [e])[..j] == h;
    }
  }

  lemma BehindAfter(h: seq<Event>, e: Event, t: TxnId)
    ensures ReadsBehindSomebody(h + [e], t) <==>
            ReadsBehindSomebody(h, t)
            || (e.call.CallRead? && e.call.t == t && Live(h, t) && exists w :: Newer(h, t, w, e.call.k))
            || (e.call.CallWrite? && Writes(e, e.call.t, e.call.k) && t != e.call.t
                && HasRead(h, t, e.call.k) && Live(h, t))
  {
    var h' := h + [e];
    forall w, k, i: nat
      ensures ReadDetects(h', t, w, k, i) <==>
              ReadDetects(h, t, w, k, i) || (i == |h| && e.call == CallRead(t, k) && Live(h, t) && Newer(h, t, w, k))
    {
      ReadDetectsAfter(h, e, t, w, k, i);
    }
    forall w, k, j: nat
      ensures WriteDetects(h', t, w, k, j) && Live(h'[..j], t) <==>
              (WriteDetects(h, t, w, k, j) && Live(h[..j], t))
              || (j == |h| && Writes(e, w, k) && t != w && HasRead(h, t, k) && Live(h, t))
    {
      WriteDetectsAfter(h, e, t, w, k, j);
    }
    NewBehind(h, e, t);
  }

  /** The new edges, from their conditions. */
  lemma NewBehind(h: seq<Event>, e: Event, t: TxnId)
    ensures (e.call.CallRead? && e.call.t == t && Live(h, t) && exists w :: Newer(h, t, w, e.call.k)) ==>
              ReadsBehindSomebody(h + [e], t)
    ensures (e.call.CallWrite? && Writes(e, e.call.t, e.call.k) && t != e.call.t
             && HasRead(h, t, e.call.k) && Live(h, t)) ==> ReadsBehindSomebody(h + [e], t)
  {
    if e.call.CallRead? && e.call.t == t && Live(h, t) && exists w :: Newer(h, t, w, e.call.k) {
      var w :| Newer(h, t, w, e.call.k);
      ReadDetectsAfter(h, e, t, w, e.call.k, |h|);
    }
    if e.call.CallWrite? && Writes(e, e.call.t, e.call.k) && t != e.call.t && HasRead(h, t, e.call.k) && Live(h, t) {
      WriteDetectsAfter(h, e, t, e.call.t, e.call.k, |h|);
    }
  }

  lemma ReadBehindAfter(h: seq<Event>, e: Event, t: TxnId)
    ensures IsReadBehind(h + [e], t) <==>
            IsReadBehind(h, t)
            || (e.call.CallRead? && Live(h, e.call.t) && Newer(h, e.call.t, t, e.call.k))
            || (e.call.CallWrite? && Writes(e, t, e.call.k)
                && exists r :: r != t && HasRead(h, r, e.call.k) && Stands(h, r))
  {
    var h' := h + [e];
    forall r, k, i: nat
      ensures ReadDetects(h', r, t, k, i) <==>
              ReadDetects(h, r, t, k, i) || (i == |h| && e.call == CallRead(r, k) && Live(h, r) && Newer(h, r, t, k))
    {
      ReadDetectsAfter(h, e, r, t, k, i);
    }
    forall r, k, j: nat
      ensures WriteDetects(h', r, t, k, j) <==>
              WriteDetects(h, r, t, k, j)
              || (j == |h| && Writes(e, t, k) && r != t && HasRead(h, r, k) && Stands(h, r))
    {
      WriteDetectsAfter(h, e, r, t, k, j);
    }
    if e.call.CallRead? && Live(h, e.call.t) && Newer(h, e.call.t, t, e.call.k) {
      assert ReadDetects(h', e.call.t, t, e.call.k, |h|);
    }
    if e.call.CallWrite? && Writes(e, t, e.call.k) {
      if r :| r != t && HasRead(h, r, e.call.k) && Stands(h, r) {
        assert WriteDetects(h', r, t, e.call.k, |h|);
      }
    }
  }

  lemma WroteEarlier(h: seq<Event>, i: nat, t: TxnId, k: Key)
    requires i <= |h|
    ensures WroteIn(h[..i], t, k) ==> WroteIn(h, t, k)
  {
  }

  lemma NoEdgesYet(h: seq<Event>, t: TxnId)
    requires !Begun(h, t) && forall k :: !WroteIn(h, t, k)
    ensures !ReadsBehindSomebody(h, t) && !IsReadBehind(h, t)
  {
    forall r, k, i: nat
      ensures !ReadDetects(h, r, t, k, i)
    {
      if i < |h| {
        WroteEarlier(h, i, t, k);
      }
    }
    forall w, k, i: nat
      ensures !ReadDetects(h, t, w, k, i)
    {
      NotYetRead(h, t, k);
    }
    forall r, k, j: nat
      ensures !WriteDetects(h, r, t, k, j)
    {
      assert j < |h| && Writes(h[j], t, k) ==> WroteIn(h, t, k);
    }
  }

  lemma KeepsOutFlag(d: Db, c: Call, h: seq<Event>, t: TxnId)
    requires Ok(d) && StatusIndex(d, h) && WriteIndex(d, h) && ReadIndex(d, h) && VersionIndex(d, h)
    requires FlagIndex(d, h) && t in SnapshotRefinement.Store(d, c).txns
    ensures SnapshotRefinement.Store(d, c).txns[t].outConflict <==> ReadsBehindSomebody(h + [EventOf(d, c)], t)
  {
    var e := EventOf(d, c);
    OutFlagMoves(d, c, t);
    BehindAfter(h, e, t);
    assert IsActive(d, t) <==> Live(h, t);
    if c.CallRead? && c.t == t && IsActive(d, t) {
      forall w
        ensures w in NewerWriters(d, t, c.k, d.txns[t].snapshotTs) <==> Newer(h, t, w, c.k)
      {
        NewerIs(d, h, t, w, c.k);
      }
    }
    if c.CallWrite? {
      ReadersAre(d, h, t, c.t, c.k);
    }
    if t !in d.txns {
      NoEdgesYet(h, t);
    }
  }

  lemma KeepsInFlag(d: Db, c: Call, h: seq<Event>, t: TxnId)
    requires Ok(d) && StatusIndex(d, h) && WriteIndex(d, h) && ReadIndex(d, h) && VersionIndex(d, h)
    requires FlagIndex(d, h) && t in SnapshotRefinement.Store(d, c).txns
    ensures SnapshotRefinement.Store(d, c).txns[t].inConflict <==> IsReadBehind(h + [EventOf(d, c)], t)
  {
    var e := EventOf(d, c);
    InFlagMoves(d, c, t);
    ReadBehindAfter(h, e, t);
    if c.CallRead? {
      assert IsActive(d, c.t) <==> Live(h, c.t);
      if IsActive(d, c.t) {
        NewerIs(d, h, c.t, t, c.k);
      }
    }
    if c.CallWrite? {
      forall r
        ensures r in ConcurrentReaders(d, t, c.k) <==> r != t && HasRead(h, r, c.k) && Stands(h, r)
      {
        ReadersAre(d, h, r, t, c.k);
      }
    }
    if t !in d.txns {
      NoEdgesYet(h, t);
    }
  }

  lemma KeepsFlagIndex(d: Db, c: Call, h: seq<Event>)
    requires Ok(d) && StatusIndex(d, h) && WriteIndex(d, h) && ReadIndex(d, h) && VersionIndex(d, h)
    requires FlagIndex(d, h)
    ensures FlagIndex(SnapshotRefinement.Store(d, c), h + [EventOf(d, c)])
  {
    forall t | t in SnapshotRefinement.Store(d, c).txns
      ensures SnapshotRefinement.Store(d, c).txns[t].outConflict <==> ReadsBehindSomebody(h + [EventOf(d, c)], t)
      ensures SnapshotRefinement.Store(d, c).txns[t].inConflict <==> IsReadBehind(h + [EventOf(d, c)], t)
    {
      KeepsOutFlag(d, c, h, t);
      KeepsInFlag(d, c, h, t);
    }
  }

  // ---------------------------------------------------------------- runs

  ghost predicate Index(d: Db, h: seq<Event>) {
    StatusIndex(d, h) && WriteIndex(d, h) && ReadIndex(d, h) && VersionIndex(d, h) && FlagIndex(d, h)
  }

  lemma EmptyIndex()
    ensures Index(EMPTY, [])
  {
  }

  lemma LogGrows(states: seq<Db>, calls: seq<Call>, n: nat)
    requires Run(states, calls) && n < |calls|
    ensures LogAt(states, calls, n + 1) == LogAt(states, calls, n) + [EventOf(states[n], calls[n])]
  {
  }

  lemma LogPrefix(states: seq<Db>, calls: seq<Call>, m: nat, n: nat)
    requires Run(states, calls) && m <= n <= |calls|
    ensures LogAt(states, calls, n)[..m] == LogAt(states, calls, m)
  {
  }

  /** At every moment of a run the store is the index of its log. */
  lemma {:induction false} RunIndex(states: seq<Db>, calls: seq<Call>, n: nat)
    requires Run(states, calls) && n <= |calls|
    ensures Ok(states[n]) && Index(states[n], LogAt(states, calls, n))
  {
    RunCopies(states, calls, n);
    if n == 0 {
      assert LogAt(states, calls, 0) == [] && states[0] == EMPTY;
      EmptyIndex();
    } else {
      var d, c, h := states[n - 1], calls[n - 1], LogAt(states, calls, n - 1);
      RunIndex(states, calls, n - 1);
      assert d.timestamp < PENDING && states[n] == SnapshotRefinement.Store(d, c);
      LogGrows(states, calls, n - 1);
      KeepsStatusIndex(d, c, h);
      KeepsWriteIndex(d, c, h);
      KeepsReadIndex(d, c, h);
      KeepsVersionIndex(d, c, h);
      KeepsFlagIndex(d, c, h);
    }
  }

  /** A key is locked by the live transaction that has written it, and by nobody otherwise. */
  lemma LockedExactly(states: seq<Db>, calls: seq<Call>, n: nat, t: TxnId, k: Key)
    requires Run(states, calls) && n <= |calls|
    ensures var h := LogAt(states, calls, n);
            HolderOf(states[n], k) == Some(t) <==> Live(h, t) && WroteIn(h, t, k)
  {
    RunIndex(states, calls, n);
    assert LockOk(states[n], t, k);
    assert IsActive(states[n], t) <==> Live(LogAt(states, calls, n), t);
    assert t in states[n].txns && k in states[n].txns[t].writeSet <==> WroteIn(LogAt(states, calls, n), t, k);
  }

  /** A write succeeds if and only if its transaction is live and no other live transaction has written the key. */
  lemma WriteExactly(states: seq<Db>, calls: seq<Call>, n: nat, t: TxnId, k: Key, v: Value)
    requires Run(states, calls) && n <= |calls|
    ensures var h := LogAt(states, calls, n);
            ReplyOf(states[n], CallWrite(t, k, v))
              == Said(Live(h, t) && forall u :: u != t && Live(h, u) ==> !WroteIn(h, u, k))
  {
    var d, h := states[n], LogAt(states, calls, n);
    RunIndex(states, calls, n);
    assert IsActive(d, t) <==> Live(h, t);
    forall u: TxnId
      ensures HolderOf(d, k) == Some(u) <==> Live(h, u) && WroteIn(h, u, k)
    {
      LockedExactly(states, calls, n, u, k);
    }
    assert HolderOf(d, k).Some? ==> Live(h, HolderOf(d, k).value);
  }

  /** A commit succeeds if and only if its transaction is live and does not stand between two others: it has not
      both read behind somebody and been read behind. */
  lemma CommitExactly(states: seq<Db>, calls: seq<Call>, n: nat, t: TxnId)
    requires Run(states, calls) && n <= |calls|
    ensures var h := LogAt(states, calls, n);
            ReplyOf(states[n], CallCommit(t))
              == Said(Live(h, t) && !(ReadsBehindSomebody(h, t) && IsReadBehind(h, t)))
  {
    RunIndex(states, calls, n);
    assert IsActive(states[n], t) <==> Live(LogAt(states, calls, n), t);
  }

  ghost function BeginCount(h: seq<Event>): nat {
    if h == [] then 0 else BeginCount(h[..|h| - 1]) + if h[|h| - 1].call.CallBegin? then 1 else 0
  }

  /** The n-th begin is answered n. */
  lemma {:induction false} BeginExactly(states: seq<Db>, calls: seq<Call>, n: nat)
    requires Run(states, calls) && n <= |calls|
    ensures ReplyOf(states[n], CallBegin) == Started(BeginCount(LogAt(states, calls, n)) + 1)
  {
    if n > 0 {
      BeginExactly(states, calls, n - 1);
      LogGrows(states, calls, n - 1);
      LogPrefix(states, calls, n - 1, n);
      assert states[n] == SnapshotRefinement.Store(states[n - 1], calls[n - 1]);
    } else {
      assert states[0] == EMPTY;
    }
  }

  /** What t last wrote to k. */
  ghost function WrittenValue(h: seq<Event>, t: TxnId, k: Key): Option<Value> {
    if h == [] then None
    else if Writes(h[|h| - 1], t, k) then Some(h[|h| - 1].call.v)
    else WrittenValue(h[..|h| - 1], t, k)
  }

  /** What the last transaction to commit, of those that had written k, had last written to it. */
  ghost function CommittedValue(h: seq<Event>, k: Key): Option<Value> {
    if h == [] then None
    else
      var front, e := h[..|h| - 1], h[|h| - 1];
      if e.call.CallCommit? && Commits(e, e.call.t) && WroteIn(front, e.call.t, k) then WrittenValue(front, e.call.t, k)
      else CommittedValue(front, k)
  }

  lemma {:induction false} WroteInIs(h: seq<Event>, t: TxnId, k: Key)
    ensures WroteIn(h, t, k) <==> WrittenValue(h, t, k).Some?
  {
    if h != [] {
      var front, e := h[..|h| - 1], h[|h| - 1];
      assert h == front + [e];
      WroteInIs(front, t, k);
      WroteAfter(front, e, t, k);
    }
  }

  lemma {:induction false} WrittenIs(states: seq<Db>, calls: seq<Call>, n: nat, t: TxnId, k: Key)
    requires Run(states, calls) && n <= |calls|
    ensures S.LastWrite(states, calls, n, t, k) == WrittenValue(LogAt(states, calls, n), t, k)
  {
    if n > 0 {
      WrittenIs(states, calls, n - 1, t, k);
      LogPrefix(states, calls, n - 1, n);
    }
  }

  lemma {:induction false} CommittedIs(states: seq<Db>, calls: seq<Call>, n: nat, k: Key)
    requires Run(states, calls) && n <= |calls|
    ensures S.CommittedValue(states, calls, n, k) == CommittedValue(LogAt(states, calls, n), k)
  {
    if n > 0 {
      CommittedIs(states, calls, n - 1, k);
      LogPrefix(states, calls, n - 1, n);
      if calls[n - 1].CallCommit? {
        WrittenIs(states, calls, n - 1, calls[n - 1].t, k);
        WroteInIs(LogAt(states, calls, n - 1), calls[n - 1].t, k);
      }
    }
  }

  /** The current value is the last committed one. */
  lemma CurrentExactly(states: seq<Db>, calls: seq<Call>, n: nat, k: Key)
    requires Run(states, calls) && n <= |calls|
    ensures CurrentValue(states[n], k) == CommittedValue(LogAt(states, calls, n), k)
  {
    S.CurrentIsCommitted(states, calls, n, k);
    CommittedIs(states, calls, n, k);
  }

  /** A read by a live transaction returns what was committed when it began, its own writes notwithstanding;
      any other read returns nothing. */
  lemma ReadExactly(states: seq<Db>, calls: seq<Call>, n: nat, t: TxnId, k: Key)
    requires Run(states, calls) && n <= |calls|
    ensures var h, reply := LogAt(states, calls, n), ReplyOf(states[n], CallRead(t, k));
            if Live(h, t) then
              exists b :: 0 <= b < n && Begins(h[b], t) && reply == Found(CommittedValue(h[..b], k))
            else reply == Found(None)
  {
    var h := LogAt(states, calls, n);
    RunIndex(states, calls, n);
    assert IsActive(states[n], t) <==> Live(h, t);
    if Live(h, t) {
      var b :| 0 <= b < n && Begins(h[b], t);
      ReadsSeeTheirSnapshot(states, calls, t, b, n, k);
      CurrentExactly(states, calls, b, k);
      LogPrefix(states, calls, b, n);
    }
  }
}
