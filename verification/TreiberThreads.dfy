/** What comes of each thread's operation. */
module TreiberThreads {
  /* The laws here are about the fields before and after, and about whole runs: no push is forgotten, a thread
     is disturbed by nobody but itself, and a compare-and-swap fails only after somebody else's has succeeded. */

  import opened Options
  import opened TreiberStack

  import H = StackHistory

  // ---------------------------------------------------------------- one step

  /** A thread that is pushing: the node and the value that it has. */
  predicate Pushes(s: State, t: ThreadId, n: NodeId, v: Value) {
    t in s.threads && InFlight(s.threads[t]) && s.threads[t].node == n && s.threads[t].value == v
  }

  /** A step moves its own thread only, and adds to the two sets what its compare-and-swap has done. */
  lemma StepMoves(s: State, a: Action, ids: seq<NodeId>)
    requires Inv(s, ids) && Enabled(s, a)
    ensures var s' := Next(s, a);
            && (forall u :: u != a.thread && u in s.threads ==> u in s'.threads && s'.threads[u] == s.threads[u])
            && s'.pushed == s.pushed + (if PushSucceeds(s, a) then {s.threads[a.thread].value} else {})
            && s'.popped == s.popped + (if PopSucceeds(s, a) then {s.threads[a.thread].value} else {})
  {
  }

  /** A failed compare-and-swap changes nothing but the state of its thread: a push is to be tried again, with
      the node and the value it has, and a pop is over. */
  lemma FailureChanges(s: State, a: Action)
    requires Enabled(s, a) && CasFails(s, a)
    ensures var s' := Next(s, a);
            && s'.head == s.head && s'.nodes == s.nodes && s'.nextId == s.nextId
            && s'.pushed == s.pushed && s'.popped == s.popped
            && s'.threads[a.thread]
                 == (if a.PopCas? then Idle else PushAllocated(s.threads[a.thread].node, s.threads[a.thread].value))
            && forall u :: u != a.thread && u in s.threads ==> s'.threads[u] == s.threads[u]
  {
  }

  // ---------------------------------------------------------------- no push is forgotten

  /** The action is the compare-and-swap of a push by t, and it succeeds. */
  predicate Lands(s: State, a: Action, t: ThreadId) {
    a == PushCas(t) && PushSucceeds(s, a)
  }

  ghost predicate LandedBetween(states: seq<State>, actions: seq<Action>, t: ThreadId, j: nat, k: nat)
    requires Run(states, actions) && k <= |actions|
  {
    exists m :: j < m < k && Lands(states[m], actions[m], t)
  }

  /** From its allocation on, a thread keeps its node and its value until its own compare-and-swap succeeds. */
  lemma {:induction false} PushPending(states: seq<State>, actions: seq<Action>, j: nat, k: nat)
    requires Run(states, actions) && j < k <= |actions| && actions[j].PushAlloc?
    requires !LandedBetween(states, actions, actions[j].thread, j, k)
    ensures Pushes(states[k], actions[j].thread, states[j].nextId, actions[j].value)
    decreases k
  {
    assert Enabled(states[k - 1], actions[k - 1]);
    if k > j + 1 {
      PushPending(states, actions, j, k - 1);
    }
  }

  lemma {:induction false} PushedStays(states: seq<State>, actions: seq<Action>, j: nat, k: nat)
    requires Run(states, actions) && j <= k <= |actions|
    ensures states[j].pushed <= states[k].pushed
    decreases k
  {
    if j < k {
      PushedStays(states, actions, j, k - 1);
      RunInv(states, actions, k - 1);
      StepMoves(states[k - 1], actions[k - 1], IdsAt(states, actions, k - 1));
    }
  }

  /** That compare-and-swap puts the value on top. */
  lemma PushLands(states: seq<State>, actions: seq<Action>, j: nat, m: nat)
    requires Run(states, actions) && j < m < |actions| && actions[j].PushAlloc?
    requires Lands(states[m], actions[m], actions[j].thread)
    requires !LandedBetween(states, actions, actions[j].thread, j, m)
    ensures StackAt(states, actions, m + 1) == [actions[j].value] + StackAt(states, actions, m)
    ensures actions[j].value in states[m + 1].pushed
  {
    PushPending(states, actions, j, m);
    StackSteps(states, actions, m);
    RunInv(states, actions, m);
    StepMoves(states[m], actions[m], IdsAt(states, actions, m));
  }

  lemma {:induction false} FirstLanding(states: seq<State>, actions: seq<Action>, t: ThreadId, j: nat, k: nat)
    returns (m: nat)
    requires Run(states, actions) && k <= |actions| && LandedBetween(states, actions, t, j, k)
    ensures j < m < k && Lands(states[m], actions[m], t) && !LandedBetween(states, actions, t, j, m)
    decreases k
  {
    m :| j < m < k && Lands(states[m], actions[m], t);
    if LandedBetween(states, actions, t, j, m) {
      m := FirstLanding(states, actions, t, j, m);
    }
  }

  /** No push is forgotten: whatever a run has allocated is among the pushed values, once the thread's
      compare-and-swap has succeeded, and until then with exactly one thread, the one that allocated it. */
  lemma PushAccounted(states: seq<State>, actions: seq<Action>, j: nat, k: nat)
    requires Run(states, actions) && j < k <= |actions| && actions[j].PushAlloc?
    ensures var t, n, v := actions[j].thread, states[j].nextId, actions[j].value;
            && (v in states[k].pushed <==> LandedBetween(states, actions, t, j, k))
            && (v !in states[k].pushed <==> Pushes(states[k], t, n, v))
            && forall u, m :: Pushes(states[k], u, m, v) ==> u == t && m == n
  {
    var t, n, v := actions[j].thread, states[j].nextId, actions[j].value;
    RunInv(states, actions, k);
    forall u, m | Pushes(states[k], u, m, v)
      ensures v !in states[k].pushed
    {
      assert ThreadOk(states[k], u);
    }
    if LandedBetween(states, actions, t, j, k) {
      var m := FirstLanding(states, actions, t, j, k);
      PushLands(states, actions, j, m);
      PushedStays(states, actions, m + 1, k);
    } else {
      PushPending(states, actions, j, k);
    }
  }

  // ---------------------------------------------------------------- nothing else is pushed or popped

  ghost predicate InHistory(ops: seq<H.Operation>, kind: H.OpType, v: Value) {
    exists i :: 0 <= i < |ops| && ops[i].opType == kind && ops[i].element == Some(v)
  }

  lemma RecordedIs(s: State, a: Action, time: nat, v: Value)
    requires Enabled(s, a)
    ensures InHistory(Recorded(s, a, time), H.Push, v) <==> PushSucceeds(s, a) && s.threads[a.thread].value == v
    ensures InHistory(Recorded(s, a, time), H.Pop, v) <==> PopSucceeds(s, a) && s.threads[a.thread].value == v
  {
    if Recorded(s, a, time) != [] {
      assert Recorded(s, a, time)[0].element == Some(s.threads[a.thread].value);
    }
  }

  /** The two sets are the values of the successful compare-and-swaps. */
  lemma {:induction false} SetsAreHistory(states: seq<State>, actions: seq<Action>, k: nat, v: Value)
    requires Run(states, actions) && k <= |actions|
    ensures v in states[k].pushed <==> InHistory(HistoryAt(states, actions, k), H.Push, v)
    ensures v in states[k].popped <==> InHistory(HistoryAt(states, actions, k), H.Pop, v)
  {
    if k > 0 {
      var s, a := states[k - 1], actions[k - 1];
      assert Enabled(s, a) && states[k] == Next(s, a);
      SetsAreHistory(states, actions, k - 1, v);
      RunInv(states, actions, k - 1);
      StepMoves(s, a, IdsAt(states, actions, k - 1));
      RecordedIs(s, a, k, v);
      HistoryGrows(HistoryAt(states, actions, k - 1), Recorded(s, a, k), v);
      assert HistoryAt(states, actions, k) == HistoryAt(states, actions, k - 1) + Recorded(s, a, k);
    }
  }

  lemma HistoryGrows(ops: seq<H.Operation>, more: seq<H.Operation>, v: Value)
    ensures forall kind :: InHistory(ops + more, kind, v) <==> InHistory(ops, kind, v) || InHistory(more, kind, v)
  {
    forall kind | InHistory(more, kind, v)
      ensures InHistory(ops + more, kind, v)
    {
      var i :| 0 <= i < |more| && more[i].opType == kind && more[i].element == Some(v);
      assert (ops + more)[|ops| + i] == more[i];
    }
    forall kind | InHistory(ops, kind, v)
      ensures InHistory(ops + more, kind, v)
    {
      var i :| 0 <= i < |ops| && ops[i].opType == kind && ops[i].element == Some(v);
      assert (ops + more)[i] == ops[i];
    }
  }

  /** Whatever a thread is pushing, it has allocated. */
  lemma {:induction false} PusherAllocated(states: seq<State>, actions: seq<Action>, k: nat, t: ThreadId, v: Value)
    returns (j: nat)
    requires Run(states, actions) && k <= |actions|
    requires t in states[k].threads && InFlight(states[k].threads[t]) && states[k].threads[t].value == v
    ensures j < k && actions[j] == PushAlloc(t, v)
  {
    assert k > 0 && Enabled(states[k - 1], actions[k - 1]);
    if actions[k - 1] == PushAlloc(t, v) {
      j := k - 1;
    } else {
      j := PusherAllocated(states, actions, k - 1, t, v);
    }
  }

  /** And whatever has been pushed, some thread had allocated. */
  lemma {:induction false} PushedAllocated(states: seq<State>, actions: seq<Action>, k: nat, v: Value)
    returns (j: nat)
    requires Run(states, actions) && k <= |actions| && v in states[k].pushed
    ensures j < k && actions[j].PushAlloc? && actions[j].value == v
  {
    assert k > 0 && Enabled(states[k - 1], actions[k - 1]);
    if v in states[k - 1].pushed {
      j := PushedAllocated(states, actions, k - 1, v);
    } else {
      RunInv(states, actions, k - 1);
      StepMoves(states[k - 1], actions[k - 1], IdsAt(states, actions, k - 1));
      j := PusherAllocated(states, actions, k - 1, actions[k - 1].thread, v);
    }
  }

  // ---------------------------------------------------------------- why a compare-and-swap fails

  predicate Looks(a: Action) {
    a.ReadHeadToPush? || a.ReadHeadToPop?
  }

  predicate Succeeds(s: State, a: Action) {
    PushSucceeds(s, a) || PopSucceeds(s, a)
  }

  /** The thread is about to compare with this head. */
  predicate Expects(s: State, t: ThreadId, head: Option<NodeId>) {
    t in s.threads
    && ((s.threads[t].PushReadHead? && s.threads[t].observed == head)
        || (s.threads[t].PopReadHead? && Some(s.threads[t].top) == head))
  }

  /** Between a look and the compare-and-swap that follows it nobody has succeeded, and the thread rests. */
  ghost predicate Undisturbed(states: seq<State>, actions: seq<Action>, i: nat, k: nat)
    requires Run(states, actions) && i < k <= |actions|
  {
    forall m :: i < m < k ==> !Succeeds(states[m], actions[m]) && actions[m].thread != actions[i].thread
  }

  lemma {:induction false} HeadStands(states: seq<State>, actions: seq<Action>, i: nat, k: nat)
    requires Run(states, actions) && i < k <= |actions| && Looks(actions[i])
    requires Undisturbed(states, actions, i, k)
    ensures states[k].head == states[i].head && Expects(states[k], actions[i].thread, states[i].head)
    decreases k
  {
    assert Enabled(states[k - 1], actions[k - 1]);
    RunInv(states, actions, k - 1);
    if k > i + 1 {
      HeadStands(states, actions, i, k - 1);
    }
  }

  /** A thread that nobody disturbs succeeds. */
  lemma UndisturbedSucceeds(states: seq<State>, actions: seq<Action>, i: nat, k: nat)
    requires Run(states, actions) && i < k < |actions| && Looks(actions[i])
    requires Undisturbed(states, actions, i, k) && actions[k].thread == actions[i].thread
    ensures (actions[k].PushCas? || actions[k].PopCas?) && Succeeds(states[k], actions[k])
  {
    HeadStands(states, actions, i, k);
    assert Enabled(states[k], actions[k]);
  }

  /** The last action of a thread that expects something was its look at the head. */
  lemma {:induction false} LookedAt(states: seq<State>, actions: seq<Action>, k: nat, t: ThreadId) returns (i: nat)
    requires Run(states, actions) && k <= |actions|
    requires t in states[k].threads && (states[k].threads[t].PushReadHead? || states[k].threads[t].PopReadHead?)
    ensures i < k && Looks(actions[i]) && actions[i].thread == t
    ensures forall m :: i < m < k ==> actions[m].thread != t
  {
    assert k > 0 && Enabled(states[k - 1], actions[k - 1]);
    RunInv(states, actions, k - 1);
    if actions[k - 1].thread == t {
      i := k - 1;
    } else {
      i := LookedAt(states, actions, k - 1, t);
    }
  }

  /** Lock-freedom step by step: a compare-and-swap fails only if since the thread looked at the head another
      thread's has succeeded. */
  lemma FailureHasCause(states: seq<State>, actions: seq<Action>, k: nat) returns (i: nat, m: nat)
    requires Run(states, actions) && k < |actions| && CasFails(states[k], actions[k])
    ensures i < m < k && Looks(actions[i]) && actions[i].thread == actions[k].thread
    ensures Succeeds(states[m], actions[m]) && actions[m].thread != actions[k].thread
  {
    assert Enabled(states[k], actions[k]);
    i := LookedAt(states, actions, k, actions[k].thread);
    if Undisturbed(states, actions, i, k) {
      UndisturbedSucceeds(states, actions, i, k);
      assert false;
    }
    m :| i < m < k && Succeeds(states[m], actions[m]);
  }

  // ---------------------------------------------------------------- a thread on its own

  /** A push by a thread that is left alone takes three steps and puts its value on top. */
  lemma SoloPush(s: State, ids: seq<NodeId>, t: ThreadId, v: Value) returns (s': State, ids': seq<NodeId>)
    requires Inv(s, ids) && Enabled(s, PushAlloc(t, v))
    ensures var s1 := Next(s, PushAlloc(t, v));
            var s2 := Next(s1, ReadHeadToPush(t));
            && Enabled(s1, ReadHeadToPush(t)) && Enabled(s2, PushCas(t)) && s' == Next(s2, PushCas(t))
    ensures Inv(s', ids') && s'.threads == s.threads
    ensures ValuesOf(s'.nodes, ids') == [v] + ValuesOf(s.nodes, ids)
    ensures s'.pushed == s.pushed + {v} && s'.popped == s.popped
  {
    var s1 := Next(s, PushAlloc(t, v));
    var s2 := Next(s1, ReadHeadToPush(t));
    KeepsInv(s, PushAlloc(t, v), ids);
    KeepsInv(s1, ReadHeadToPush(t), ids);
    StepRefines(s, PushAlloc(t, v), ids);
    StepRefines(s1, ReadHeadToPush(t), ids);
    KeepsPush(s2, PushCas(t), ids);
    s', ids' := Next(s2, PushCas(t)), NextIds(s2, PushCas(t), ids);
    assert s'.threads == s.threads;
  }

  /** A pop takes two and returns what was on top. */
  lemma SoloPop(s: State, ids: seq<NodeId>, t: ThreadId) returns (s': State, ids': seq<NodeId>)
    requires Inv(s, ids) && Enabled(s, ReadHeadToPop(t))
    ensures var s1 := Next(s, ReadHeadToPop(t));
            && Enabled(s1, PopCas(t)) && s' == Next(s1, PopCas(t))
    ensures Inv(s', ids') && s'.threads == s.threads
    ensures ids != [] && s.nodes[ids[0]].value !in s.popped
    ensures [s.nodes[ids[0]].value] + ValuesOf(s'.nodes, ids') == ValuesOf(s.nodes, ids)
    ensures s'.popped == s.popped + {s.nodes[ids[0]].value} && s'.pushed == s.pushed
  {
    var s1 := Next(s, ReadHeadToPop(t));
    KeepsInv(s, ReadHeadToPop(t), ids);
    KeepsPop(s1, PopCas(t), ids);
    s', ids' := Next(s1, PopCas(t)), NextIds(s1, PopCas(t), ids);
    assert ValuesOf(s.nodes, ids)[0] in ValuesOf(s.nodes, ids);
    assert s'.threads == s.threads;
  }

  /** What is offered to a thread: any unused value and, unless the stack is empty, a pop if it is idle;
      otherwise its next step and nothing else. So no thread is ever stuck. */
  lemma OfferedExactly(states: seq<State>, actions: seq<Action>, k: nat, t: ThreadId)
    requires Run(states, actions) && k <= |actions| && t in states[k].threads
    ensures var s := states[k];
            if s.threads[t].Idle? then
              && (forall v :: Enabled(s, PushAlloc(t, v)) <==> v !in s.pushed && forall u, n :: !Pushes(s, u, n, v))
              && (Enabled(s, ReadHeadToPop(t)) <==> StackAt(states, actions, k) != [])
            else
              exists a: Action :: a.thread == t && Enabled(s, a) && forall b: Action ::
                b.thread == t && Enabled(s, b) ==> b == a
  {
    var s, ids := states[k], IdsAt(states, actions, k);
    RunInv(states, actions, k);
    match s.threads[t]
    case Idle =>
      forall v
        ensures Enabled(s, PushAlloc(t, v)) <==> v !in s.pushed && forall u, n :: !Pushes(s, u, n, v)
      {
        if u, n :| Pushes(s, u, n, v) {
          assert !Enabled(s, PushAlloc(t, v));
        } else {
          forall u | u in s.threads && InFlight(s.threads[u])
            ensures s.threads[u].value != v
          {
            assert !Pushes(s, u, s.threads[u].node, v);
          }
        }
      }
    case PushAllocated(_, _) => assert Enabled(s, ReadHeadToPush(t));
    case PushReadHead(_, _, _) => assert Enabled(s, PushCas(t));
    case PopReadHead(_, _, _) => assert Enabled(s, PopCas(t));
  }
}
