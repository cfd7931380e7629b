/** The Treiber stack, for any number of threads and any values. */
module TreiberStack {
  /* The steps of crates/vf-stateright/src/treiber_stack.rs. Every step of every run is a step of a
     sequential stack or changes nothing of it, the list stays acyclic although node ids are not
     ordered along it, and failed compare-and-swaps are bounded by successful ones. */

  import opened Collections
  import opened Options
  import H = StackHistory

  type NodeId = nat
  type ThreadId = nat
  type Value = nat

  datatype Node = Node(value: Value, next: Option<NodeId>)

  datatype ThreadState =
    | Idle
    | PushAllocated(node: NodeId, value: Value)
    | PushReadHead(node: NodeId, value: Value, observed: Option<NodeId>)
    | PopReadHead(top: NodeId, value: Value, next: Option<NodeId>)

  datatype State = State(
    head: Option<NodeId>,
    nodes: map<NodeId, Node>,
    nextId: NodeId,
    pushed: set<Value>,
    popped: set<Value>,
    threads: map<ThreadId, ThreadState>)

  datatype Action =
    | PushAlloc(thread: ThreadId, value: Value)
    | ReadHeadToPush(thread: ThreadId)
    | PushCas(thread: ThreadId)
    | ReadHeadToPop(thread: ThreadId)
    | PopCas(thread: ThreadId)

  ghost predicate Initial(s: State) {
    && s.head == None && s.nodes == map[] && s.nextId == 0 && s.pushed == {} && s.popped == {}
    && forall t :: t in s.threads ==> s.threads[t] == Idle
  }

  predicate InFlight(ts: ThreadState) {
    ts.PushAllocated? || ts.PushReadHead?
  }

  /** The actions offered in a state. */
  ghost predicate Enabled(s: State, a: Action) {
    && a.thread in s.threads
    && match a
       case PushAlloc(t, v) =>
         && s.threads[t].Idle? && v !in s.pushed
         && forall u :: u in s.threads && InFlight(s.threads[u]) ==> s.threads[u].value != v
       case ReadHeadToPush(t) => s.threads[t].PushAllocated?
       case PushCas(t) => s.threads[t].PushReadHead?
       case ReadHeadToPop(t) => s.threads[t].Idle? && s.head.Some?
       case PopCas(t) => s.threads[t].PopReadHead?
  }

  function Next(s: State, a: Action): State {
    match a
    case PushAlloc(t, v) =>
      s.(nextId := s.nextId + 1,
         nodes := s.nodes[s.nextId := Node(v, None)],
         threads := s.threads[t := PushAllocated(s.nextId, v)])
    case ReadHeadToPush(t) =>
      if t in s.threads && s.threads[t].PushAllocated? then
        var n := s.threads[t].node;
        s.(nodes := if n in s.nodes then s.nodes[n := s.nodes[n].(next := s.head)] else s.nodes,
           threads := s.threads[t := PushReadHead(n, s.threads[t].value, s.head)])
      else s
    case PushCas(t) =>
      if t in s.threads && s.threads[t].PushReadHead? then
        var me := s.threads[t];
        if s.head == me.observed then
          s.(head := Some(me.node), pushed := s.pushed + {me.value}, threads := s.threads[t := Idle])
        else s.(threads := s.threads[t := PushAllocated(me.node, me.value)])
      else s
    case ReadHeadToPop(t) =>
      if s.head.Some? && s.head.value in s.nodes then
        var n := s.nodes[s.head.value];
        s.(threads := s.threads[t := PopReadHead(s.head.value, n.value, n.next)])
      else s
    case PopCas(t) =>
      if t in s.threads && s.threads[t].PopReadHead? then
        var me := s.threads[t];
        if s.head == Some(me.top) then
          s.(head := me.next, popped := s.popped + {me.value}, threads := s.threads[t := Idle])
        else s.(threads := s.threads[t := Idle])
      else s
  }

  // ---------------------------------------------------------------- the chain from the head

  /** `ids` are the nodes met by following next pointers from `head` to the end. */
  ghost predicate Chain(nodes: map<NodeId, Node>, head: Option<NodeId>, ids: seq<NodeId>)
    decreases ids
  {
    if ids == [] then head == None
    else head == Some(ids[0]) && ids[0] in nodes && Chain(nodes, nodes[ids[0]].next, ids[1..])
  }

  ghost function ValuesOf(nodes: map<NodeId, Node>, ids: seq<NodeId>): seq<Value>
    requires forall i :: 0 <= i < |ids| ==> ids[i] in nodes
  {
    seq(|ids|, i requires 0 <= i < |ids| => nodes[ids[i]].value)
  }

  /** The walk of `contents`. It ends because the chain does; in every reachable state there is one. */
  method Contents(s: State, ghost ids: seq<NodeId>) returns (result: seq<Value>)
    requires Chain(s.nodes, s.head, ids)
    requires forall i :: 0 <= i < |ids| ==> ids[i] in s.nodes
    ensures result == ValuesOf(s.nodes, ids)
  {
    result := [];
    var current := s.head;
    ghost var i := 0;
    while current.Some?
      invariant 0 <= i <= |ids| == |result| + |ids| - i
      invariant Chain(s.nodes, current, ids[i..])
      invariant result == ValuesOf(s.nodes, ids)[..i]
      decreases |ids| - i
    {
      if current.value in s.nodes {
        assert ids[i..][1..] == ids[i + 1..];
        result := result + [s.nodes[current.value].value];
        current := s.nodes[current.value].next;
        i := i + 1;
      } else {
        break;
      }
    }
  }

  /** The contents as the source returns them, and its two invariants. */
  ghost predicate IsContents(s: State, contents: seq<Value>) {
    exists ids :: Chain(s.nodes, s.head, ids) && InNodes(s.nodes, ids) && contents == ValuesOf(s.nodes, ids)
  }

  ghost predicate InNodes(nodes: map<NodeId, Node>, ids: seq<NodeId>) {
    forall i :: 0 <= i < |ids| ==> ids[i] in nodes
  }

  ghost predicate NoLostElements(s: State, contents: seq<Value>) {
    forall v :: v in s.pushed ==> v in contents || v in s.popped
  }

  ghost predicate NoDuplicates(contents: seq<Value>) {
    |contents| == |Elements(contents)|
  }

  // ---------------------------------------------------------------- the invariant

  /** A node still private to the thread that is pushing it. */
  ghost predicate Owns(s: State, t: ThreadId, n: NodeId) {
    t in s.threads && InFlight(s.threads[t]) && s.threads[t].node == n
  }

  ghost predicate Published(s: State, n: NodeId) {
    n in s.nodes && forall t :: !Owns(s, t, n)
  }

  ghost predicate ListOk(s: State, ids: seq<NodeId>) {
    && Chain(s.nodes, s.head, ids)
    && NoDup(ids)
    && (forall i :: 0 <= i < |ids| ==> Published(s, ids[i]))
  }

  /** A pusher's node is its own, holds its value, and points where the thread saw the head; what a
      popper noted about the head it saw still holds of that node. */
  ghost predicate ThreadOk(s: State, t: ThreadId)
    requires t in s.threads
  {
    match s.threads[t]
    case Idle => true
    case PushAllocated(n, v) => n in s.nodes && s.nodes[n].value == v && v !in s.pushed
    case PushReadHead(n, v, observed) =>
      n in s.nodes && s.nodes[n].value == v && s.nodes[n].next == observed && v !in s.pushed
    case PopReadHead(n, v, next) => Published(s, n) && s.nodes[n] == Node(v, next)
  }

  ghost predicate ThreadsOk(s: State) {
    && (forall n :: n in s.nodes ==> n < s.nextId)
    && (forall t :: t in s.threads ==> ThreadOk(s, t))
    && (forall t, u :: t in s.threads && u in s.threads && t != u && InFlight(s.threads[t]) && InFlight(s.threads[u])
          ==> s.threads[t].node != s.threads[u].node && s.threads[t].value != s.threads[u].value)
  }

  /** `pushed` is the disjoint union of the contents and `popped`. */
  ghost predicate Accounted(s: State, ids: seq<NodeId>)
    requires InNodes(s.nodes, ids)
  {
    var vs := ValuesOf(s.nodes, ids);
    && NoDup(vs)
    && (forall v :: v in s.pushed <==> v in vs || v in s.popped)
    && (forall v :: v in vs ==> v !in s.popped)
  }

  ghost predicate Inv(s: State, ids: seq<NodeId>) {
    && InNodes(s.nodes, ids)
    && ListOk(s, ids)
    && ThreadsOk(s)
    && Accounted(s, ids)
  }

  // ---------------------------------------------------------------- the abstract stack

  predicate PushSucceeds(s: State, a: Action) {
    a.PushCas? && a.thread in s.threads && s.threads[a.thread].PushReadHead?
    && s.head == s.threads[a.thread].observed
  }

  predicate PopSucceeds(s: State, a: Action) {
    a.PopCas? && a.thread in s.threads && s.threads[a.thread].PopReadHead?
    && s.head == Some(s.threads[a.thread].top)
  }

  predicate CasFails(s: State, a: Action) {
    && (a.PushCas? || a.PopCas?)
    && !PushSucceeds(s, a) && !PopSucceeds(s, a)
  }

  function NextIds(s: State, a: Action, ids: seq<NodeId>): seq<NodeId> {
    if PushSucceeds(s, a) then [s.threads[a.thread].node] + ids
    else if PopSucceeds(s, a) && ids != [] then ids[1..]
    else ids
  }

  // ---------------------------------------------------------------- every step keeps the invariant

  lemma {:induction false} ChainSame(nodes: map<NodeId, Node>, nodes': map<NodeId, Node>,
                                     head: Option<NodeId>, ids: seq<NodeId>)
    requires Chain(nodes, head, ids)
    requires forall i :: 0 <= i < |ids| ==> ids[i] in nodes && ids[i] in nodes' && nodes'[ids[i]] == nodes[ids[i]]
    ensures Chain(nodes', head, ids)
    decreases ids
  {
    if ids != [] {
      ChainSame(nodes, nodes', nodes[ids[0]].next, ids[1..]);
    }
  }

  /** Private nodes may be written freely: neither the list nor anything a popper saw is touched. */
  lemma PrivateWrite(s: State, s': State, ids: seq<NodeId>)
    requires Inv(s, ids) && s'.head == s.head && s'.pushed == s.pushed && s'.popped == s.popped
    requires InNodes(s'.nodes, ids)
    requires forall i :: 0 <= i < |ids| ==> s'.nodes[ids[i]] == s.nodes[ids[i]] && Published(s', ids[i])
    ensures ListOk(s', ids) && Accounted(s', ids)
  {
    ChainSame(s.nodes, s'.nodes, s.head, ids);
    assert ValuesOf(s'.nodes, ids) == ValuesOf(s.nodes, ids);
  }

  lemma KeepsAlloc(s: State, a: Action, ids: seq<NodeId>)
    requires Inv(s, ids) && Enabled(s, a) && a.PushAlloc?
    ensures Inv(Next(s, a), ids)
  {
    var s' := Next(s, a);
    assert s.nextId !in s.nodes;
    forall n | Published(s, n)
      ensures Published(s', n)
    {
      forall t ensures !Owns(s', t, n) { assert !Owns(s, t, n); }
    }
    PrivateWrite(s, s', ids);
  }

  lemma KeepsReadHeadToPush(s: State, a: Action, ids: seq<NodeId>)
    requires Inv(s, ids) && Enabled(s, a) && a.ReadHeadToPush?
    ensures Inv(Next(s, a), ids)
  {
    var s' := Next(s, a);
    assert ThreadOk(s, a.thread);
    assert Owns(s, a.thread, s.threads[a.thread].node);
    forall n | Published(s, n)
      ensures Published(s', n) && s'.nodes[n] == s.nodes[n]
    {
      forall t ensures !Owns(s', t, n) { assert !Owns(s, t, n); }
    }
    PrivateWrite(s, s', ids);
    forall t | t in s'.threads
      ensures ThreadOk(s', t)
    {
      assert ThreadOk(s, t);
    }
  }

  lemma KeepsReadHeadToPop(s: State, a: Action, ids: seq<NodeId>)
    requires Inv(s, ids) && Enabled(s, a) && a.ReadHeadToPop?
    ensures Inv(Next(s, a), ids)
  {
    var s' := Next(s, a);
    forall n | Published(s, n)
      ensures Published(s', n)
    {
      forall t ensures !Owns(s', t, n) { assert !Owns(s, t, n); }
    }
    PrivateWrite(s, s', ids);
    assert Published(s, ids[0]);
    forall t | t in s'.threads
      ensures ThreadOk(s', t)
    {
      if t in s.threads { assert ThreadOk(s, t); }
    }
  }

  lemma KeepsFailedCas(s: State, a: Action, ids: seq<NodeId>)
    requires Inv(s, ids) && Enabled(s, a) && CasFails(s, a)
    ensures Inv(Next(s, a), ids)
  {
    var s' := Next(s, a);
    forall n | Published(s, n)
      ensures Published(s', n)
    {
      forall t ensures !Owns(s', t, n) { assert !Owns(s, t, n); }
    }
    PrivateWrite(s, s', ids);
    forall t | t in s'.threads
      ensures ThreadOk(s', t)
    {
      assert ThreadOk(s, t);
    }
  }

  lemma KeepsPush(s: State, a: Action, ids: seq<NodeId>)
    requires Inv(s, ids) && Enabled(s, a) && PushSucceeds(s, a)
    ensures Inv(Next(s, a), NextIds(s, a, ids))
    ensures var s' := Next(s, a);
            ValuesOf(s'.nodes, NextIds(s, a, ids)) == [s.threads[a.thread].value] + ValuesOf(s.nodes, ids)
  {
    var s', ids' := Next(s, a), NextIds(s, a, ids);
    var n, v := s.threads[a.thread].node, s.threads[a.thread].value;
    assert ThreadOk(s, a.thread) && Owns(s, a.thread, n);
    assert ids'[1..] == ids;
    forall m | Published(s, m)
      ensures Published(s', m) && m != n
    {
      assert !Owns(s, a.thread, m);
      forall t ensures !Owns(s', t, m) { assert !Owns(s, t, m); }
    }
    assert ListOk(s', ids') by {
      assert forall i :: 0 < i < |ids'| ==> ids'[i] == ids[i - 1];
    }
    assert ValuesOf(s'.nodes, ids') == [v] + ValuesOf(s.nodes, ids);
    forall t | t in s'.threads
      ensures ThreadOk(s', t)
    {
      assert ThreadOk(s, t);
    }
  }

  lemma KeepsPop(s: State, a: Action, ids: seq<NodeId>)
    requires Inv(s, ids) && Enabled(s, a) && PopSucceeds(s, a)
    ensures Inv(Next(s, a), NextIds(s, a, ids))
    ensures ids != []
    ensures var s' := Next(s, a);
            [s.threads[a.thread].value] + ValuesOf(s'.nodes, NextIds(s, a, ids)) == ValuesOf(s.nodes, ids)
  {
    var s', ids' := Next(s, a), NextIds(s, a, ids);
    assert ThreadOk(s, a.thread);
    assert ids == [ids[0]] + ids[1..];
    forall m | Published(s, m)
      ensures Published(s', m)
    {
      forall t ensures !Owns(s', t, m) { assert !Owns(s, t, m); }
    }
    var v := s.threads[a.thread].value;
    var vs, vs' := ValuesOf(s.nodes, ids), ValuesOf(s'.nodes, ids');
    assert vs == [v] + vs';
    assert Accounted(s', ids') by {
      assert forall i :: 0 <= i < |vs'| ==> vs'[i] == vs[i + 1];
      forall i | 0 <= i < |vs'| ensures vs'[i] != v { assert vs[0] != vs[i + 1]; }
    }
    forall i | 0 <= i < |ids'|
      ensures Published(s', ids'[i])
    {
      assert Published(s, ids[i + 1]);
    }
    forall t | t in s'.threads
      ensures ThreadOk(s', t)
    {
      assert ThreadOk(s, t);
    }
  }

  lemma KeepsInv(s: State, a: Action, ids: seq<NodeId>)
    requires Inv(s, ids) && Enabled(s, a)
    ensures Inv(Next(s, a), NextIds(s, a, ids))
  {
    if PushSucceeds(s, a) {
      KeepsPush(s, a, ids);
    } else if PopSucceeds(s, a) {
      KeepsPop(s, a, ids);
    } else if CasFails(s, a) {
      KeepsFailedCas(s, a, ids);
    } else {
      match a
      case PushAlloc(_, _) => KeepsAlloc(s, a, ids);
      case ReadHeadToPush(_) => KeepsReadHeadToPush(s, a, ids);
      case ReadHeadToPop(_) => KeepsReadHeadToPop(s, a, ids);
    }
  }

  /** Refinement: every step either leaves the abstract stack alone or is one successful
      compare-and-swap, and then it is exactly one push of the thread's value or one pop of the value
      the thread will return. */
  ghost predicate AbstractStep(s: State, a: Action, before: seq<Value>, after: seq<Value>) {
    if PushSucceeds(s, a) then after == [s.threads[a.thread].value] + before
    else if PopSucceeds(s, a) then before == [s.threads[a.thread].value] + after
    else after == before
  }

  lemma StepRefines(s: State, a: Action, ids: seq<NodeId>)
    requires Inv(s, ids) && Enabled(s, a)
    ensures InNodes(Next(s, a).nodes, NextIds(s, a, ids))
    ensures AbstractStep(s, a, ValuesOf(s.nodes, ids), ValuesOf(Next(s, a).nodes, NextIds(s, a, ids)))
  {
    KeepsInv(s, a, ids);
    if PushSucceeds(s, a) {
      KeepsPush(s, a, ids);
    } else if PopSucceeds(s, a) {
      KeepsPop(s, a, ids);
    } else {
      var s' := Next(s, a);
      forall i | 0 <= i < |ids|
        ensures s'.nodes[ids[i]].value == s.nodes[ids[i]].value
      {
        assert Published(s, ids[i]);
      }
      assert ValuesOf(s'.nodes, ids) == ValuesOf(s.nodes, ids);
    }
  }

  // ---------------------------------------------------------------- runs

  ghost predicate Run(states: seq<State>, actions: seq<Action>) {
    && |states| == |actions| + 1
    && Initial(states[0])
    && forall i :: 0 <= i < |actions| ==> Enabled(states[i], actions[i]) && states[i + 1] == Next(states[i], actions[i])
  }

  ghost function IdsAt(states: seq<State>, actions: seq<Action>, k: nat): seq<NodeId>
    requires Run(states, actions) && k <= |actions|
  {
    if k == 0 then [] else NextIds(states[k - 1], actions[k - 1], IdsAt(states, actions, k - 1))
  }

  lemma {:induction false} RunInv(states: seq<State>, actions: seq<Action>, k: nat)
    requires Run(states, actions) && k <= |actions|
    ensures Inv(states[k], IdsAt(states, actions, k))
  {
    if k > 0 {
      RunInv(states, actions, k - 1);
      KeepsInv(states[k - 1], actions[k - 1], IdsAt(states, actions, k - 1));
    }
  }

  /** In every reachable state the list is finite and acyclic, nothing pushed is lost, nothing is
      there twice, and nothing popped is still there. */
  lemma ReachableStates(states: seq<State>, actions: seq<Action>, k: nat) returns (contents: seq<Value>)
    requires Run(states, actions) && k <= |actions|
    ensures IsContents(states[k], contents)
    ensures NoLostElements(states[k], contents) && NoDuplicates(contents)
    ensures forall v :: v in states[k].pushed <==> v in contents || v in states[k].popped
    ensures forall v :: v in contents ==> v !in states[k].popped
  {
    RunInv(states, actions, k);
    var ids := IdsAt(states, actions, k);
    contents := ValuesOf(states[k].nodes, ids);
    NoDupCardinality(contents);
  }

  /** The abstract stack of the k-th state. */
  ghost function StackAt(states: seq<State>, actions: seq<Action>, k: nat): seq<Value>
    requires Run(states, actions) && k <= |actions|
  {
    var ids := IdsAt(states, actions, k);
    if InNodes(states[k].nodes, ids) then ValuesOf(states[k].nodes, ids) else []
  }

  lemma StackIsContents(states: seq<State>, actions: seq<Action>, k: nat)
    requires Run(states, actions) && k <= |actions|
    ensures IsContents(states[k], StackAt(states, actions, k))
  {
    RunInv(states, actions, k);
  }

  lemma StackSteps(states: seq<State>, actions: seq<Action>, k: nat)
    requires Run(states, actions) && k < |actions|
    ensures Enabled(states[k], actions[k])
    ensures AbstractStep(states[k], actions[k], StackAt(states, actions, k), StackAt(states, actions, k + 1))
  {
    RunInv(states, actions, k);
    StepRefines(states[k], actions[k], IdsAt(states, actions, k));
  }

  /** Refinement over whole runs: there are abstract stacks, one per state, that are the contents of
      the list, start empty, and follow each other by the abstract steps. */
  lemma RunRefines(states: seq<State>, actions: seq<Action>) returns (stacks: seq<seq<Value>>)
    requires Run(states, actions)
    ensures |stacks| == |states| && stacks[0] == []
    ensures forall i :: 0 <= i < |states| ==> IsContents(states[i], stacks[i])
    ensures forall i :: 0 <= i < |actions| ==> AbstractStep(states[i], actions[i], stacks[i], stacks[i + 1])
  {
    stacks := seq(|states|, k requires 0 <= k < |states| => StackAt(states, actions, k));
    forall k | 0 <= k < |states|
      ensures IsContents(states[k], stacks[k])
    {
      StackIsContents(states, actions, k);
    }
    forall k | 0 <= k < |actions|
      ensures AbstractStep(states[k], actions[k], stacks[k], stacks[k + 1])
    {
      StackSteps(states, actions, k);
    }
  }

  // ---------------------------------------------------------------- the recorded history

  /** What a step adds to the history of successful compare-and-swaps. */
  function Recorded(s: State, a: Action, time: nat): seq<H.Operation>
    requires Enabled(s, a)
  {
    if PushSucceeds(s, a) then [H.Operation(a.thread, H.Push, Some(s.threads[a.thread].value), time)]
    else if PopSucceeds(s, a) then [H.Operation(a.thread, H.Pop, Some(s.threads[a.thread].value), time)]
    else []
  }

  /** The history of successful compare-and-swaps, in order. */
  ghost function HistoryAt(states: seq<State>, actions: seq<Action>, k: nat): seq<H.Operation>
    requires Run(states, actions) && k <= |actions|
  {
    if k == 0 then []
    else
      assert Enabled(states[k - 1], actions[k - 1]);
      HistoryAt(states, actions, k - 1) + Recorded(states[k - 1], actions[k - 1], k)
  }

  ghost function Reverse(s: seq<Value>): seq<Value> {
    seq(|s|, i requires 0 <= i < |s| => s[|s| - 1 - i])
  }

  /** Replaying what one step records does to the replayed stack what the step does to the contents. */
  lemma ReplayStep(ops: seq<H.Operation>, s: State, a: Action, time: nat, before: seq<Value>, after: seq<Value>)
    requires Enabled(s, a) && AbstractStep(s, a, before, after)
    requires H.Replay(ops) == Some(Reverse(before))
    ensures H.Replay(ops + Recorded(s, a, time)) == Some(Reverse(after))
  {
    if PushSucceeds(s, a) {
      H.ReplaySnoc(ops, Recorded(s, a, time)[0]);
      ReverseCons(s.threads[a.thread].value, before);
    } else if PopSucceeds(s, a) {
      H.ReplaySnoc(ops, Recorded(s, a, time)[0]);
      ReverseCons(s.threads[a.thread].value, after);
    } else {
      assert ops + [] == ops;
    }
  }

  /** The recorded history always passes the LIFO check, and replaying it gives the contents. */
  lemma {:induction false} HistoryPassesLifo(states: seq<State>, actions: seq<Action>, k: nat)
    requires Run(states, actions) && k <= |actions|
    ensures H.Replay(HistoryAt(states, actions, k)) == Some(Reverse(StackAt(states, actions, k)))
    ensures IsContents(states[k], StackAt(states, actions, k))
  {
    StackIsContents(states, actions, k);
    if k == 0 {
      assert StackAt(states, actions, 0) == [] && Reverse([]) == [];
    } else {
      HistoryPassesLifo(states, actions, k - 1);
      StackSteps(states, actions, k - 1);
      ReplayStep(HistoryAt(states, actions, k - 1), states[k - 1], actions[k - 1], k,
                 StackAt(states, actions, k - 1), StackAt(states, actions, k));
    }
  }

  lemma ReverseCons(v: Value, s: seq<Value>)
    ensures Reverse([v] + s) == Reverse(s) + [v]
    ensures Reverse([v] + s)[..|s|] == Reverse(s)
  {
  }

  // ---------------------------------------------------------------- lock-freedom

  /** A thread about to fail: the head has moved since it looked. */
  predicate Stale(s: State, t: ThreadId) {
    t in s.threads && match s.threads[t]
                      case PushReadHead(_, _, observed) => observed != s.head
                      case PopReadHead(top, _, _) => Some(top) != s.head
                      case _ => false
  }

  function StaleThreads(s: State): set<ThreadId> {
    set t | t in s.threads && Stale(s, t)
  }

  ghost function Succeeded(states: seq<State>, actions: seq<Action>, k: nat): nat
    requires Run(states, actions) && k <= |actions|
  {
    if k == 0 then 0
    else
      Succeeded(states, actions, k - 1)
      + (if PushSucceeds(states[k - 1], actions[k - 1]) || PopSucceeds(states[k - 1], actions[k - 1]) then 1 else 0)
  }

  ghost function Failed(states: seq<State>, actions: seq<Action>, k: nat): nat
    requires Run(states, actions) && k <= |actions|
  {
    if k == 0 then 0
    else Failed(states, actions, k - 1) + if CasFails(states[k - 1], actions[k - 1]) then 1 else 0
  }

  /** A failure uses up a stale thread; only a success, which leaves its own thread idle, makes any. */
  lemma StaleStep(s: State, a: Action)
    requires Enabled(s, a)
    ensures var s' := Next(s, a);
            && s'.threads.Keys == s.threads.Keys
            && (CasFails(s, a) ==> |StaleThreads(s')| + 1 <= |StaleThreads(s)|)
            && (PushSucceeds(s, a) || PopSucceeds(s, a) ==> |StaleThreads(s')| + 1 <= |s.threads|)
            && (!CasFails(s, a) && !PushSucceeds(s, a) && !PopSucceeds(s, a) ==>
                  |StaleThreads(s')| <= |StaleThreads(s)|)
  {
    var s' := Next(s, a);
    if CasFails(s, a) {
      assert a.thread in StaleThreads(s);
      SubsetCardinality(StaleThreads(s') + {a.thread}, StaleThreads(s));
    } else if PushSucceeds(s, a) || PopSucceeds(s, a) {
      SubsetCardinality(StaleThreads(s') + {a.thread}, s.threads.Keys);
    } else {
      SubsetCardinality(StaleThreads(s'), StaleThreads(s));
    }
  }

  /** n threads of which `stale` are about to fail have failed at most n - 1 times per success. */
  ghost predicate Budget(n: nat, failed: nat, stale: nat, succeeded: nat) {
    failed + stale <= if n == 0 then 0 else (n - 1) * succeeded
  }

  lemma BudgetStep(n: nat, failed: nat, stale: nat, stale': nat, succeeded: nat)
    requires n > 0 && Budget(n, failed, stale, succeeded)
    ensures stale' <= stale ==> Budget(n, failed, stale', succeeded)
    ensures stale' + 1 <= stale ==> Budget(n, failed + 1, stale', succeeded)
    ensures stale' + 1 <= n ==> Budget(n, failed, stale', succeeded + 1)
  {
    assert (n - 1) * (succeeded + 1) == (n - 1) * succeeded + (n - 1);
  }

  lemma {:induction false} WithinBudget(states: seq<State>, actions: seq<Action>, k: nat)
    requires Run(states, actions) && k <= |actions|
    ensures |states[k].threads| == |states[0].threads|
    ensures Budget(|states[0].threads|, Failed(states, actions, k), |StaleThreads(states[k])|,
                   Succeeded(states, actions, k))
  {
    if k == 0 {
      assert StaleThreads(states[0]) == {};
    } else {
      WithinBudget(states, actions, k - 1);
      var s, a := states[k - 1], actions[k - 1];
      StaleStep(s, a);
      assert |s.threads| == |s.threads.Keys| && |states[k].threads| == |states[k].threads.Keys|;
      assert a.thread in s.threads.Keys;
      BudgetStep(|states[0].threads|, Failed(states, actions, k - 1), |StaleThreads(s)|, |StaleThreads(states[k])|,
                 Succeeded(states, actions, k - 1));
    }
  }

  /** Lock-freedom: over every run with n threads, failures number at most (n - 1) per success. */
  lemma FailuresBounded(states: seq<State>, actions: seq<Action>, k: nat)
    requires Run(states, actions) && k <= |actions|
    ensures Failed(states, actions, k) + |StaleThreads(states[k])|
         <= if |states[0].threads| == 0 then 0 else (|states[0].threads| - 1) * Succeeded(states, actions, k)
  {
    WithinBudget(states, actions, k);
  }
}
