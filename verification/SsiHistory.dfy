/** The SSI machine is its history. */
module SsiHistory {
  /* Status, snapshots, locks, readers and flags are an index over the history: each is determined by the
     operations that stand there, and so is what the next action does. The laws of one step are about the
     fields before and after; the theorems are about runs and speak of the history alone. */

  import opened Options
  import opened SsiMachine
  import opened SsiMachineProofs
  import opened SsiSerializability

  // ---------------------------------------------------------------- what one action leaves

  /** The operation that a step has appended. */
  function Last(s: State): Operation
    requires s.history != []
  {
    s.history[|s.history| - 1]
  }

  /** An end that gives the locks back: the other two abort reasons leave some behind. */
  predicate GivesBack(op: Operation) {
    op.Commit? || (op.Abort? && (op.reason == Voluntary || op.reason == DangerousStructure))
  }

  /** Who holds k after the step. */
  lemma LockAfter(s: State, a: Action, k: Key)
    requires Apply(s, a).Some?
    ensures var s' := Apply(s, a).value;
            && s'.history != []
            && var op, t := Last(s'), a.txn;
               Holder(s', k) == (if op == Write(t, k) then Some(t)
                                 else if Holder(s, k) == Some(t)
                                         && (GivesBack(op) || (op == Abort(t, WriteConflict) && a == DoWrite(t, k)))
                                 then None
                                 else Holder(s, k))
  {
  }

  /** Who is remembered as a reader of k after the step. */
  lemma ReadersAfter(s: State, a: Action, k: Key, u: TxnId)
    requires Apply(s, a).Some?
    ensures var s' := Apply(s, a).value;
            && s'.history != []
            && var op := Last(s');
               u in ReadersOf(s', k) <==>
               !(op.Abort? && op.txn == u) && (u in ReadersOf(s, k) || (op.Read? && op.txn == u && op.key == k))
  {
  }

  /** The flags after the step: an abort lowers the transaction's own, a write raises those of the edges from
      the concurrent readers, a read those of the edges to the newer writers. */
  lemma OutFlagAfter(s: State, a: Action, u: TxnId)
    requires Apply(s, a).Some?
    ensures var s' := Apply(s, a).value;
            && s'.history != []
            && var op, t := Last(s'), a.txn;
               Flag(s'.outConflict, u) <==>
               !(op.Abort? && op.txn == u)
               && (Flag(s.outConflict, u) || (op.Write? && u in ConcurrentReaders(s, t, op.key))
                   || (op.Read? && u == t && NewerWriters(s, op.key, SnapshotOf(s, t), t) != {}))
  {
  }

  lemma InFlagAfter(s: State, a: Action, u: TxnId)
    requires Apply(s, a).Some?
    ensures var s' := Apply(s, a).value;
            && s'.history != []
            && var op, t := Last(s'), a.txn;
               Flag(s'.inConflict, u) <==>
               !(op.Abort? && op.txn == u)
               && (Flag(s.inConflict, u) || (op.Write? && u == t && ConcurrentReaders(s, t, op.key) != {})
                   || (op.Read? && u in NewerWriters(s, op.key, SnapshotOf(s, t), t)))
  {
  }

  // ---------------------------------------------------------------- readers

  ghost predicate HasRead(s: State, t: TxnId, k: Key) {
    exists i :: 0 <= i < |s.history| && s.history[i].Read? && s.history[i].txn == t && s.history[i].key == k
  }

  /** Whoever has read a key and has not aborted is remembered, and nobody else. */
  ghost predicate ReadersExact(s: State) {
    forall k, t :: t in ReadersOf(s, k) <==> !Has(s, t, Aborted) && HasRead(s, t, k)
  }

  lemma HasReadAfter(s: State, a: Action, s': State, t: TxnId, k: Key)
    requires Appends(s, a, s')
    ensures HasRead(s', t, k) <==> HasRead(s, t, k) || (Last(s').Read? && Last(s').txn == t && Last(s').key == k)
  {
    assert forall i :: 0 <= i < |s.history| ==> s'.history[i] == s.history[i];
    if HasRead(s, t, k) {
      var i :| 0 <= i < |s.history| && s.history[i].Read? && s.history[i].txn == t && s.history[i].key == k;
      assert s'.history[i].Read?;
    }
    if Last(s').Read? && Last(s').txn == t && Last(s').key == k {
      assert s'.history[|s.history|].Read?;
    }
  }

  ghost predicate Acts(s: State, a: Action, s': State) {
    Appends(s, a, s') && (a.DoBegin? <==> Last(s').Begin?)
  }

  /** A transaction that acts had not ended. */
  lemma ActsAlive(s: State, a: Action)
    requires Apply(s, a).Some?
    ensures !Has(s, a.txn, Aborted) && !Has(s, a.txn, Committed)
    ensures Acts(s, a, Apply(s, a).value)
    ensures forall u :: Has(Apply(s, a).value, u, Aborted) <==>
                        Has(s, u, Aborted) || (u == a.txn && Last(Apply(s, a).value).Abort?)
  {
    StepAppends(s, a);
  }

  lemma KeepsReadersExact(s: State, a: Action)
    requires ReadersExact(s) && Apply(s, a).Some?
    ensures ReadersExact(Apply(s, a).value)
  {
    var s' := Apply(s, a).value;
    ActsAlive(s, a);
    forall k, t
      ensures t in ReadersOf(s', k) <==> !Has(s', t, Aborted) && HasRead(s', t, k)
    {
      ReadersAfter(s, a, k, t);
      HasReadAfter(s, a, s', t, k);
    }
  }

  // ---------------------------------------------------------------- edges

  ghost predicate AbortedBefore(s: State, t: TxnId, n: nat) {
    exists c :: 0 <= c < n && c < |s.history| && s.history[c].Abort? && s.history[c].txn == t
  }

  /** The write at j finds the read at i: the reader is another transaction that had not aborted. */
  ghost predicate WriteDetects(s: State, r: TxnId, w: TxnId, k: Key, i: nat, j: nat) {
    r != w && ReadThenWrite(s, r, w, k, i, j) && !AbortedBefore(s, r, j)
  }

  /** The read at i finds the write at j. */
  ghost predicate ReadDetects(s: State, r: TxnId, w: TxnId, k: Key, j: nat, i: nat) {
    r != w && WriteThenRead(s, r, w, k, j, i) && !AbortedBefore(s, w, i)
  }

  /** A read-write edge from r to w was detected, whatever has become of the two since. */
  ghost predicate Detected(s: State, r: TxnId, w: TxnId) {
    exists k, i: nat, j: nat :: WriteDetects(s, r, w, k, i, j) || ReadDetects(s, r, w, k, j, i)
  }

  /** It has read behind somebody; somebody has read behind it. */
  ghost predicate ReadsBehind(s: State, t: TxnId) {
    exists w :: Detected(s, t, w)
  }

  ghost predicate IsReadBehind(s: State, t: TxnId) {
    exists r :: Detected(s, r, t)
  }

  /** The flags of a transaction that has not aborted say that it is at one end of a detected edge. */
  ghost predicate FlagsExact(s: State) {
    forall t ::
      && (Flag(s.outConflict, t) <==> !Has(s, t, Aborted) && ReadsBehind(s, t))
      && (Flag(s.inConflict, t) <==> !Has(s, t, Aborted) && IsReadBehind(s, t))
  }

  /** The edge that the last step has detected. */
  predicate NewEdge(s: State, op: Operation, r: TxnId, w: TxnId) {
    (op.Write? && op.txn == w && r in ConcurrentReaders(s, w, op.key))
    || (op.Read? && op.txn == r && w in NewerWriters(s, op.key, SnapshotOf(s, r), r))
  }

  lemma AbortedBeforeSame(s: State, a: Action, s': State, t: TxnId, n: nat)
    requires Appends(s, a, s') && n <= |s.history|
    ensures AbortedBefore(s', t, n) <==> AbortedBefore(s, t, n)
  {
    assert forall i :: 0 <= i < |s.history| ==> s'.history[i] == s.history[i];
    if AbortedBefore(s, t, n) {
      var c :| 0 <= c < n && s.history[c].Abort? && s.history[c].txn == t;
      assert s'.history[c].Abort?;
    }
  }

  /** The status of whoever is in the history, by then. */
  lemma AbortedBeforeIs(s: State, t: TxnId)
    requires StatusTrue(s)
    ensures AbortedBefore(s, t, |s.history|) <==> Has(s, t, Aborted)
  {
    if AbortedBefore(s, t, |s.history|) {
      var c :| 0 <= c < |s.history| && s.history[c].Abort? && s.history[c].txn == t;
      assert Ends(s.history[c], t) && !Has(s, t, Active);
      assert Has(s, t, Committed) ==> CommitRecorded(s, t);
      assert s.history[c].txn in s.status && s.status[t] != NotStarted;
    }
    if Has(s, t, Aborted) {
      assert EndRecorded(s, t);
      var c :| 0 <= c < |s.history| && Ends(s.history[c], t);
      assert s.history[c] == Commit(t) ==> Has(s, t, Committed);
      assert s.history[c].Abort? && s.history[c].txn == t;
    }
  }

  /** A concurrent reader is one that has read the key and, if it has committed, has done so since. */
  lemma ConcurrentReaderIs(s: State, r: TxnId, w: TxnId, k: Key)
    requires StatusTrue(s) && ReadersExact(s)
    ensures r in ConcurrentReaders(s, w, k) <==>
            && r != w && HasRead(s, r, k) && !Has(s, r, Aborted)
            && forall c :: 0 <= c < |s.history| && s.history[c] == Commit(r) ==> c > SnapshotOf(s, w)
  {
    if r in ConcurrentReaders(s, w, k) && Has(s, r, Committed) {
      var c :| SnapshotOf(s, w) < c < |s.history| && s.history[c] == Commit(r);
      forall d | 0 <= d < |s.history| && s.history[d] == Commit(r)
        ensures d == c
      {
        assert Ends(s.history[c], r) && Ends(s.history[d], r);
      }
    }
    if HasRead(s, r, k) && !Has(s, r, Aborted) && !Has(s, r, Active) {
      assert r in s.status && s.status[r] == Committed;
      assert CommitRecorded(s, r);
      var c :| 0 <= c < |s.history| && s.history[c] == Commit(r);
      assert c > SnapshotOf(s, w) ==> CommittedAfter(s, r, SnapshotOf(s, w));
    }
    if Has(s, r, Active) {
      forall c | 0 <= c < |s.history| && s.history[c] == Commit(r)
        ensures false
      {
        assert Ends(s.history[c], r);
      }
    }
  }

  /** An edge of the new state is one of the old state or has just been detected. */
  lemma WriteDetectsAfter(s: State, a: Action, s': State, r: TxnId, w: TxnId, k: Key, i: nat, j: nat)
    requires StatusTrue(s) && ReadersExact(s) && Acts(s, a, s')
    ensures (j < |s.history| ==> (WriteDetects(s', r, w, k, i, j) <==> WriteDetects(s, r, w, k, i, j)))
    ensures (j >= |s.history| && WriteDetects(s', r, w, k, i, j) ==> NewEdge(s, Last(s'), r, w))
  {
    assert forall c :: 0 <= c < |s.history| ==> s'.history[c] == s.history[c];
    if j < |s.history| {
      AbortedBeforeSame(s, a, s', r, j);
    } else if WriteDetects(s', r, w, k, i, j) {
      AbortedBeforeSame(s, a, s', r, j);
      AbortedBeforeIs(s, r);
      assert HasRead(s, r, k);
      ConcurrentReaderIs(s, r, w, k);
    }
  }

  lemma ReadDetectsAfter(s: State, a: Action, s': State, r: TxnId, w: TxnId, k: Key, j: nat, i: nat)
    requires StatusTrue(s) && Acts(s, a, s')
    ensures (i < |s.history| ==> (ReadDetects(s', r, w, k, j, i) <==> ReadDetects(s, r, w, k, j, i)))
    ensures (i >= |s.history| && ReadDetects(s', r, w, k, j, i) ==> NewEdge(s, Last(s'), r, w))
  {
    assert forall c :: 0 <= c < |s.history| ==> s'.history[c] == s.history[c];
    if i < |s.history| {
      AbortedBeforeSame(s, a, s', w, i);
    } else if ReadDetects(s', r, w, k, j, i) {
      AbortedBeforeSame(s, a, s', w, i);
      AbortedBeforeIs(s, w);
      assert w in s.status && s.status[w] != NotStarted;
      assert NewerWrite(s, j, k, SnapshotOf(s, r), r);
    }
  }

  /** And what has just been detected is an edge. */
  lemma NewEdgeDetected(s: State, a: Action, s': State, r: TxnId, w: TxnId)
    requires StatusTrue(s) && ReadersExact(s) && Acts(s, a, s')
    requires NewEdge(s, Last(s'), r, w)
    ensures Detected(s', r, w)
  {
    var n := |s.history|;
    var k := Last(s').key;
    assert forall c :: 0 <= c < n ==> s'.history[c] == s.history[c];
    AbortedBeforeSame(s, a, s', r, n);
    AbortedBeforeIs(s, r);
    AbortedBeforeSame(s, a, s', w, n);
    AbortedBeforeIs(s, w);
    if Last(s').Write? {
      ConcurrentReaderIs(s, r, w, k);
      var i :| 0 <= i < n && s.history[i].Read? && s.history[i].txn == r && s.history[i].key == k;
      assert WriteDetects(s', r, w, k, i, n);
    } else {
      var j: nat :| j < n && NewerWrite(s, j, k, SnapshotOf(s, r), r) && s.history[j].txn == w;
      assert ReadDetects(s', r, w, k, j, n);
    }
  }

  lemma DetectedAfter(s: State, a: Action, s': State, r: TxnId, w: TxnId)
    requires StatusTrue(s) && ReadersExact(s) && Acts(s, a, s')
    ensures Detected(s', r, w) <==> Detected(s, r, w) || NewEdge(s, Last(s'), r, w)
  {
    if Detected(s, r, w) {
      var k, i: nat, j: nat :| WriteDetects(s, r, w, k, i, j) || ReadDetects(s, r, w, k, j, i);
      WriteDetectsAfter(s, a, s', r, w, k, i, j);
      ReadDetectsAfter(s, a, s', r, w, k, j, i);
    }
    if NewEdge(s, Last(s'), r, w) {
      NewEdgeDetected(s, a, s', r, w);
    }
    if Detected(s', r, w) {
      var k, i: nat, j: nat :| WriteDetects(s', r, w, k, i, j) || ReadDetects(s', r, w, k, j, i);
      WriteDetectsAfter(s, a, s', r, w, k, i, j);
      ReadDetectsAfter(s, a, s', r, w, k, j, i);
    }
  }

  /** A step raises a flag exactly for the ends of the edges it detects. */
  lemma FlagsMove(s: State, a: Action, t: TxnId)
    requires Apply(s, a).Some?
    ensures var s' := Apply(s, a).value;
            && s'.history != []
            && (Flag(s'.outConflict, t) <==>
                  !(Last(s').Abort? && a.txn == t)
                  && (Flag(s.outConflict, t) || exists w :: NewEdge(s, Last(s'), t, w)))
            && (Flag(s'.inConflict, t) <==>
                  !(Last(s').Abort? && a.txn == t)
                  && (Flag(s.inConflict, t) || exists r :: NewEdge(s, Last(s'), r, t)))
  {
    var s' := Apply(s, a).value;
    ActsAlive(s, a);
    OutFlagAfter(s, a, t);
    InFlagAfter(s, a, t);
    EdgeEnds(s, Last(s'), t);
  }

  lemma EdgeEnds(s: State, op: Operation, t: TxnId)
    ensures (exists w :: NewEdge(s, op, t, w)) <==>
            (op.Write? && t in ConcurrentReaders(s, op.txn, op.key))
            || (op.Read? && t == op.txn && NewerWriters(s, op.key, SnapshotOf(s, t), t) != {})
    ensures (exists r :: NewEdge(s, op, r, t)) <==>
            (op.Write? && t == op.txn && ConcurrentReaders(s, t, op.key) != {})
            || (op.Read? && t in NewerWriters(s, op.key, SnapshotOf(s, op.txn), op.txn))
  {
    if op.Write? && t in ConcurrentReaders(s, op.txn, op.key) {
      assert NewEdge(s, op, t, op.txn);
    }
    if op.Read? && t == op.txn && NewerWriters(s, op.key, SnapshotOf(s, t), t) != {} {
      var w :| w in NewerWriters(s, op.key, SnapshotOf(s, t), t);
      assert NewEdge(s, op, t, w);
    }
    if op.Write? && t == op.txn && ConcurrentReaders(s, t, op.key) != {} {
      var r :| r in ConcurrentReaders(s, t, op.key);
      assert NewEdge(s, op, r, t);
    }
    if op.Read? && t in NewerWriters(s, op.key, SnapshotOf(s, op.txn), op.txn) {
      assert NewEdge(s, op, op.txn, t);
    }
  }

  lemma KeepsOutFlag(s: State, a: Action, s': State, t: TxnId)
    requires StatusTrue(s) && ReadersExact(s) && FlagsExact(s) && Acts(s, a, s') && !Has(s, a.txn, Aborted)
    requires Flag(s'.outConflict, t) <==>
             !(Last(s').Abort? && a.txn == t) && (Flag(s.outConflict, t) || exists w :: NewEdge(s, Last(s'), t, w))
    ensures Flag(s'.outConflict, t) <==> !Has(s', t, Aborted) && ReadsBehind(s', t)
  {
    forall w
      ensures Detected(s', t, w) <==> Detected(s, t, w) || NewEdge(s, Last(s'), t, w)
    {
      DetectedAfter(s, a, s', t, w);
    }
  }

  lemma KeepsInFlag(s: State, a: Action, s': State, t: TxnId)
    requires StatusTrue(s) && ReadersExact(s) && FlagsExact(s) && Acts(s, a, s') && !Has(s, a.txn, Aborted)
    requires Flag(s'.inConflict, t) <==>
             !(Last(s').Abort? && a.txn == t) && (Flag(s.inConflict, t) || exists r :: NewEdge(s, Last(s'), r, t))
    ensures Flag(s'.inConflict, t) <==> !Has(s', t, Aborted) && IsReadBehind(s', t)
  {
    forall r
      ensures Detected(s', r, t) <==> Detected(s, r, t) || NewEdge(s, Last(s'), r, t)
    {
      DetectedAfter(s, a, s', r, t);
    }
  }

  lemma KeepsFlagsExact(s: State, a: Action)
    requires StatusTrue(s) && ReadersExact(s) && FlagsExact(s) && Apply(s, a).Some?
    ensures FlagsExact(Apply(s, a).value)
  {
    var s' := Apply(s, a).value;
    ActsAlive(s, a);
    forall t
      ensures Flag(s'.outConflict, t) <==> !Has(s', t, Aborted) && ReadsBehind(s', t)
      ensures Flag(s'.inConflict, t) <==> !Has(s', t, Aborted) && IsReadBehind(s', t)
    {
      FlagsMove(s, a, t);
      KeepsOutFlag(s, a, s', t);
      KeepsInFlag(s, a, s', t);
    }
  }

  lemma {:induction false} RunExact(states: seq<State>, actions: seq<Action>, n: nat)
    requires Run(states, actions) && n <= |actions|
    ensures ReadersExact(states[n]) && FlagsExact(states[n])
  {
    if n > 0 {
      RunExact(states, actions, n - 1);
      RunInv(states, actions, n - 1);
      assert Apply(states[n - 1], actions[n - 1]) == Some(states[n]);
      KeepsReadersExact(states[n - 1], actions[n - 1]);
      KeepsFlagsExact(states[n - 1], actions[n - 1]);
    }
  }

  // ---------------------------------------------------------------- locks

  ghost predicate Written(s: State, t: TxnId, k: Key) {
    exists i :: 0 <= i < |s.history| && s.history[i] == Write(t, k)
  }

  /** An abort that leaves the lock of k behind: of a read, or of a write of another key. */
  predicate Leaves(op: Operation, a: Action, t: TxnId, k: Key) {
    op == Abort(t, ReadConflict) || (op == Abort(t, WriteConflict) && a != DoWrite(t, k))
  }

  /** One of the first operations, as the actions made them, has left t's lock of k behind. */
  ghost predicate LeftBehind(h: seq<Operation>, actions: seq<Action>, t: TxnId, k: Key) {
    exists e: nat :: e < |h| && e < |actions| && Leaves(h[e], actions[e], t, k)
  }

  lemma WrittenAfter(s: State, a: Action, s': State, t: TxnId, k: Key)
    requires Appends(s, a, s')
    ensures Written(s', t, k) <==> Written(s, t, k) || Last(s') == Write(t, k)
  {
    assert forall i :: 0 <= i < |s.history| ==> s'.history[i] == s.history[i];
    if Written(s, t, k) {
      var i :| 0 <= i < |s.history| && s.history[i] == Write(t, k);
      assert s'.history[i] == Write(t, k);
    }
    if Last(s') == Write(t, k) {
      assert s'.history[|s.history|] == Write(t, k);
    }
  }

  lemma LeftAfter(h: seq<Operation>, op: Operation, actions: seq<Action>, t: TxnId, k: Key)
    requires |h| < |actions|
    ensures LeftBehind(h + [op], actions, t, k) <==> LeftBehind(h, actions, t, k) || Leaves(op, actions[|h|], t, k)
  {
    var h' := h + [op];
    if LeftBehind(h, actions, t, k) {
      var e: nat :| e < |h| && Leaves(h[e], actions[e], t, k);
      assert Leaves(h'[e], actions[e], t, k);
    }
    if Leaves(op, actions[|h|], t, k) {
      assert Leaves(h'[|h|], actions[|h|], t, k);
    }
    if LeftBehind(h', actions, t, k) {
      var e: nat :| e < |h'| && Leaves(h'[e], actions[e], t, k);
      assert e < |h| ==> h'[e] == h[e];
    }
  }

  lemma LeftHasAborted(s: State, actions: seq<Action>, t: TxnId, k: Key)
    requires StatusTrue(s) && LeftBehind(s.history, actions, t, k)
    ensures Has(s, t, Aborted)
  {
    assert AbortedBefore(s, t, |s.history|);
    AbortedBeforeIs(s, t);
  }

  ghost predicate HeldExact(s: State, actions: seq<Action>, t: TxnId, k: Key) {
    Holder(s, k) == Some(t) <==>
    Written(s, t, k) && (Has(s, t, Active) || LeftBehind(s.history, actions, t, k))
  }

  lemma KeepsHeldExact(s: State, a: Action, s': State, actions: seq<Action>, t: TxnId, k: Key)
    requires StatusTrue(s) && HeldExact(s, actions, t, k) && Acts(s, a, s') && LocksEffect(s, a, s')
    requires |s.history| < |actions| && actions[|s.history|] == a
    requires Holder(s', k) == (if Last(s') == Write(a.txn, k) then Some(a.txn)
                               else if Holder(s, k) == Some(a.txn)
                                       && (GivesBack(Last(s'))
                                           || (Last(s') == Abort(a.txn, WriteConflict) && a == DoWrite(a.txn, k)))
                               then None
                               else Holder(s, k))
    ensures HeldExact(s', actions, t, k)
  {
    assert s'.history == s.history + [Last(s')];
    WrittenAfter(s, a, s', t, k);
    LeftAfter(s.history, Last(s'), actions, t, k);
    if LeftBehind(s.history, actions, t, k) {
      LeftHasAborted(s, actions, t, k);
    }
  }

  /** Who holds a key: a transaction that has written it and is still active, or was thrown out by a read, or
      by a write of another key. Those two abort branches are the only ones that leave a lock behind. */
  lemma {:induction false} HeldExactly(states: seq<State>, actions: seq<Action>, n: nat, t: TxnId, k: Key)
    requires Run(states, actions) && n <= |actions|
    ensures Holder(states[n], k) == Some(t) <==>
            Written(states[n], t, k) && (Has(states[n], t, Active) || LeftBehind(states[n].history, actions, t, k))
  {
    if n > 0 {
      var s, a, s' := states[n - 1], actions[n - 1], states[n];
      HeldExactly(states, actions, n - 1, t, k);
      RunInv(states, actions, n - 1);
      HistoryIsSteps(states, actions, n - 1, n);
      assert Apply(s, a) == Some(s');
      ActsAlive(s, a);
      LockAfter(s, a, k);
      StepLocks(s, a);
      KeepsHeldExact(s, a, s', actions, t, k);
    }
  }

  // ---------------------------------------------------------------- what an action is answered

  /** Begun, and neither committed nor aborted. */
  ghost predicate Live(s: State, t: TxnId) {
    Begin(t) in s.history && forall op :: op in s.history ==> !Ends(op, t)
  }

  /** The status is what the history says. */
  lemma StatusIs(s: State, t: TxnId)
    requires StatusTrue(s) && SnapshotsBegin(s)
    ensures Has(s, t, Active) <==> Live(s, t)
    ensures Has(s, t, Committed) <==> Commit(t) in s.history
    ensures Has(s, t, NotStarted) <==> t in s.status && Begin(t) !in s.history
  {
    if Begin(t) in s.history {
      var i :| 0 <= i < |s.history| && s.history[i] == Begin(t);
      assert s.history[i].txn in s.status;
    }
    if t in s.status && s.status[t] != NotStarted {
      assert s.history[SnapshotOf(s, t)] == Begin(t);
    }
    if Has(s, t, Committed) {
      assert CommitRecorded(s, t) && Ends(Commit(t), t);
    } else if Has(s, t, Aborted) {
      assert EndRecorded(s, t);
    }
    if Commit(t) in s.history {
      var i :| 0 <= i < |s.history| && s.history[i] == Commit(t);
      assert Has(s, t, Committed);
    }
  }

  /** The transactions are the ones the run began with. */
  lemma {:induction false} SameTxns(states: seq<State>, actions: seq<Action>, n: nat, t: TxnId)
    requires Run(states, actions) && n <= |actions|
    ensures t in states[n].status <==> t in states[0].status
  {
    if n > 0 {
      SameTxns(states, actions, n - 1, t);
      assert Apply(states[n - 1], actions[n - 1]) == Some(states[n]);
      StepAppends(states[n - 1], actions[n - 1]);
    }
  }

  /** Somebody else has written k and is live, or was thrown out and has left the lock behind. */
  ghost predicate LockedOut(s: State, actions: seq<Action>, t: TxnId, k: Key) {
    exists u :: u != t && Written(s, u, k) && (Live(s, u) || LeftBehind(s.history, actions, u, k))
  }

  /** When an action is refused. */
  ghost predicate Refused(s: State, actions: seq<Action>, txns: set<TxnId>, a: Action) {
    match a
    case DoBegin(t) => t !in txns || Begin(t) in s.history
    case DoWrite(t, k) => !Live(s, t) || LockedOut(s, actions, t, k)
    case _ => !Live(s, a.txn)
  }

  /** An action is refused if and only if its transaction is not live, or already begun, or, for a write,
      locked out. */
  lemma RefusedExactly(states: seq<State>, actions: seq<Action>, n: nat, a: Action)
    requires Run(states, actions) && n <= |actions|
    ensures Apply(states[n], a).None? <==> Refused(states[n], actions, states[0].status.Keys, a)
  {
    var s := states[n];
    RunInv(states, actions, n);
    RunBegins(states, actions, n);
    SameTxns(states, actions, n, a.txn);
    StatusIs(s, a.txn);
    if a.DoWrite? {
      LockedOutIs(states, actions, n, a.txn, a.key);
    }
  }

  lemma LockedOutIs(states: seq<State>, actions: seq<Action>, n: nat, t: TxnId, k: Key)
    requires Run(states, actions) && n <= |actions|
    ensures LockedOut(states[n], actions, t, k) <==> Holder(states[n], k).Some? && Holder(states[n], k) != Some(t)
  {
    var s := states[n];
    RunInv(states, actions, n);
    RunBegins(states, actions, n);
    forall u: TxnId
      ensures Holder(s, k) == Some(u) <==>
              Written(s, u, k) && (Live(s, u) || LeftBehind(s.history, actions, u, k))
    {
      HeldExactly(states, actions, n, u, k);
      StatusIs(s, u);
    }
    if Holder(s, k).Some? && Holder(s, k) != Some(t) {
      assert Written(s, Holder(s, k).value, k);
    }
  }

  ghost predicate WrittenSince(s: State, w: TxnId, k: Key, time: nat) {
    exists j :: time < j < |s.history| && s.history[j] == Write(w, k)
  }

  ghost predicate CommittedSince(s: State, r: TxnId, time: nat) {
    exists c :: time < c < |s.history| && s.history[c] == Commit(r)
  }

  /** Somebody else who has committed, and has written k since t's snapshot, has read behind somebody. */
  ghost predicate ReadsIntoPivot(s: State, t: TxnId, k: Key) {
    exists w :: w != t && WrittenSince(s, w, k, SnapshotOf(s, t)) && Commit(w) in s.history && ReadsBehind(s, w)
  }

  /** Somebody else who has read k, and has committed since t's snapshot, has been read behind. */
  ghost predicate WritesIntoPivot(s: State, t: TxnId, k: Key) {
    exists r :: r != t && HasRead(s, r, k) && CommittedSince(s, r, SnapshotOf(s, t)) && IsReadBehind(s, r)
  }

  ghost predicate Pivot(s: State, t: TxnId) {
    IsReadBehind(s, t) && ReadsBehind(s, t)
  }

  /** The version that a read returns: the transaction's own write, or the last write up to the snapshot by
      a transaction that has committed by now. */
  ghost predicate Returns(s: State, t: TxnId, k: Key, version: Option<TxnId>) {
    if Written(s, t, k) then version == Some(t)
    else match version
         case Some(w) => exists j: nat :: j <= SnapshotOf(s, t) && j < |s.history| && s.history[j] == Write(w, k)
                           && Commit(w) in s.history && !CommittedPast(s, k, j, SnapshotOf(s, t))
         case None => forall j: nat, w ::
                        j <= SnapshotOf(s, t) && j < |s.history| && s.history[j] == Write(w, k) ==>
                          Commit(w) !in s.history
  }

  ghost predicate CommittedPast(s: State, k: Key, i: nat, time: nat) {
    exists j, w :: i < j <= time && j < |s.history| && s.history[j] == Write(w, k) && Commit(w) in s.history
  }

  /** The operation that an action appends when it is not refused. */
  ghost predicate Answers(s: State, a: Action, op: Operation) {
    match a
    case DoBegin(t) => op == Begin(t)
    case DoRead(t, k) =>
      if ReadsIntoPivot(s, t, k) then op == Abort(t, ReadConflict)
      else op.Read? && op.txn == t && op.key == k && Returns(s, t, k, op.version)
    case DoWrite(t, k) => op == if WritesIntoPivot(s, t, k) then Abort(t, WriteConflict) else Write(t, k)
    case DoCommit(t) => op == if Pivot(s, t) then Abort(t, DangerousStructure) else Commit(t)
    case DoAbort(t) => op == Abort(t, Voluntary)
  }

  lemma NewerWriterIs(s: State, w: TxnId, k: Key, time: nat, t: TxnId)
    requires StatusTrue(s) && Has(s, w, Committed)
    ensures w in NewerWriters(s, k, time, t) <==> w != t && WrittenSince(s, w, k, time)
  {
    if w != t && WrittenSince(s, w, k, time) {
      var j :| time < j < |s.history| && s.history[j] == Write(w, k);
      assert NewerWrite(s, j, k, time, t);
    }
    if w in NewerWriters(s, k, time, t) {
      var j: nat :| j < |s.history| && NewerWrite(s, j, k, time, t) && s.history[j].txn == w;
      assert s.history[j] == Write(w, k);
    }
  }

  lemma ReadsIntoPivotIs(s: State, t: TxnId, k: Key)
    requires StatusTrue(s) && SnapshotsBegin(s) && FlagsExact(s)
    ensures ReadsIntoPivot(s, t, k) <==>
            exists w :: w in NewerWriters(s, k, SnapshotOf(s, t), t) && Has(s, w, Committed) && Flag(s.outConflict, w)
  {
    forall w
      ensures w != t && WrittenSince(s, w, k, SnapshotOf(s, t)) && Commit(w) in s.history && ReadsBehind(s, w) <==>
              w in NewerWriters(s, k, SnapshotOf(s, t), t) && Has(s, w, Committed) && Flag(s.outConflict, w)
    {
      StatusIs(s, w);
      if Has(s, w, Committed) {
        NewerWriterIs(s, w, k, SnapshotOf(s, t), t);
      }
    }
  }

  lemma WritesIntoPivotIs(s: State, t: TxnId, k: Key)
    requires StatusTrue(s) && ReadersExact(s) && FlagsExact(s)
    ensures WritesIntoPivot(s, t, k) <==>
            exists r :: r in ConcurrentReaders(s, t, k) && Has(s, r, Committed) && Flag(s.inConflict, r)
  {
    forall r
      ensures r != t && HasRead(s, r, k) && CommittedSince(s, r, SnapshotOf(s, t)) && IsReadBehind(s, r) <==>
              r in ConcurrentReaders(s, t, k) && Has(s, r, Committed) && Flag(s.inConflict, r)
    {
      CommittedReaderIs(s, r, t, k);
    }
  }

  lemma CommittedReaderIs(s: State, r: TxnId, t: TxnId, k: Key)
    requires StatusTrue(s) && ReadersExact(s)
    ensures r in ConcurrentReaders(s, t, k) && Has(s, r, Committed) <==>
            r != t && HasRead(s, r, k) && CommittedSince(s, r, SnapshotOf(s, t))
  {
    if CommittedSince(s, r, SnapshotOf(s, t)) {
      var c :| SnapshotOf(s, t) < c < |s.history| && s.history[c] == Commit(r);
      assert Has(s, r, Committed) && CommittedAfter(s, r, SnapshotOf(s, t));
    }
  }

  lemma CommittedWriteIs(s: State, k: Key, j: nat, w: TxnId)
    requires StatusTrue(s) && SnapshotsBegin(s) && j < |s.history| && s.history[j] == Write(w, k)
    ensures CommittedWrite(s, j, k) <==> Commit(w) in s.history
  {
    StatusIs(s, w);
  }

  lemma ReturnsNone(s: State, t: TxnId, k: Key)
    requires StatusTrue(s) && SnapshotsBegin(s) && SnapshotOf(s, t) < |s.history| && !Written(s, t, k)
    requires forall j: nat :: j <= SnapshotOf(s, t) ==> !CommittedWrite(s, j, k)
    ensures Returns(s, t, k, None)
  {
    forall j: nat, w | j <= SnapshotOf(s, t) && j < |s.history| && s.history[j] == Write(w, k)
      ensures Commit(w) !in s.history
    {
      CommittedWriteIs(s, k, j, w);
    }
  }

  lemma ReturnsSome(s: State, t: TxnId, k: Key, j: nat)
    requires StatusTrue(s) && SnapshotsBegin(s) && j <= SnapshotOf(s, t) < |s.history| && !Written(s, t, k)
    requires CommittedWrite(s, j, k) && forall m: nat :: j < m <= SnapshotOf(s, t) ==> !CommittedWrite(s, m, k)
    ensures Returns(s, t, k, Some(s.history[j].txn))
  {
    CommittedWriteIs(s, k, j, s.history[j].txn);
    if CommittedPast(s, k, j, SnapshotOf(s, t)) {
      var m, w :| j < m <= SnapshotOf(s, t) && s.history[m] == Write(w, k) && Commit(w) in s.history;
      CommittedWriteIs(s, k, m, w);
    }
    assert s.history[j] == Write(s.history[j].txn, k);
  }

  lemma LastCommittedAt(s: State, k: Key, n: nat) returns (j: nat)
    requires n <= |s.history| && LastCommittedWriter(s, k, n).Some?
    ensures j < n && CommittedWrite(s, j, k) && LastCommittedWriter(s, k, n) == Some(s.history[j].txn)
    ensures forall m: nat :: j < m < n ==> !CommittedWrite(s, m, k)
  {
    LastCommittedIs(s, k, n);
    j :| j < n && CommittedWrite(s, j, k) && s.history[j].txn == LastCommittedWriter(s, k, n).value
         && forall m: nat :: j < m < n ==> !CommittedWrite(s, m, k);
  }

  lemma ReturnsLatest(s: State, t: TxnId, k: Key)
    requires StatusTrue(s) && SnapshotsBegin(s) && SnapshotOf(s, t) < |s.history| && !Written(s, t, k)
    ensures Returns(s, t, k, LatestVersion(s, k, SnapshotOf(s, t)))
  {
    var n := SnapshotOf(s, t) + 1;
    if LastCommittedWriter(s, k, n).Some? {
      var j := LastCommittedAt(s, k, n);
      ReturnsSome(s, t, k, j);
    } else {
      LastCommittedIs(s, k, n);
      ReturnsNone(s, t, k);
    }
  }

  lemma ReadAnswers(s: State, t: TxnId, k: Key)
    requires StatusTrue(s) && SnapshotsBegin(s) && FlagsExact(s) && Has(s, t, Active)
    requires Holder(s, k) == Some(t) <==> Written(s, t, k)
    ensures Answers(s, DoRead(t, k), Last(ApplyRead(s, t, k)))
  {
    ReadsIntoPivotIs(s, t, k);
    if !ReadsIntoPivot(s, t, k) && !Written(s, t, k) {
      ReturnsLatest(s, t, k);
    }
  }

  lemma WriteAnswers(s: State, t: TxnId, k: Key)
    requires StatusTrue(s) && ReadersExact(s) && FlagsExact(s) && Has(s, t, Active)
    ensures Answers(s, DoWrite(t, k), Last(ApplyWrite(s, t, k)))
  {
    WritesIntoPivotIs(s, t, k);
  }

  lemma CommitAnswers(s: State, t: TxnId)
    requires FlagsExact(s) && Has(s, t, Active)
    ensures Answers(s, DoCommit(t), Last(ApplyCommit(s, t)))
  {
  }

  /** Every operation of a run is determined by the history before it: what the action asks for, or an abort
      for exactly the reasons given by the edges in the history. */
  lemma AnswersExactly(states: seq<State>, actions: seq<Action>, n: nat)
    requires Run(states, actions) && n < |actions|
    ensures |states[n].history| == n && |states[n + 1].history| == n + 1 && states[n].history <= states[n + 1].history
    ensures Answers(states[n], actions[n], states[n + 1].history[n])
  {
    var s, a := states[n], actions[n];
    HistoryIsSteps(states, actions, n, n);
    RunInv(states, actions, n);
    RunBegins(states, actions, n);
    RunExact(states, actions, n);
    RunAppends(states, actions, n);
    match a
    case DoBegin(_) =>
    case DoRead(t, k) =>
      HeldExactly(states, actions, n, t, k);
      if LeftBehind(s.history, actions, t, k) {
        LeftHasAborted(s, actions, t, k);
      }
      ReadAnswers(s, t, k);
    case DoWrite(t, k) => WriteAnswers(s, t, k);
    case DoCommit(t) => CommitAnswers(s, t);
    case DoAbort(_) =>
  }
}
