/** The LIFO check of crates/vf-core/src/invariants/stack.rs. */
module StackHistory {
  /* The recorded stack history and the replay that checks its order. */

  import opened Options

  datatype OpType = Push | Pop | PopEmpty

  datatype Operation = Operation(thread: nat, opType: OpType, element: Option<nat>, step: nat)

  // ---------------------------------------------------------------- the replay

  /** One operation on the model stack, whose top is its last element; `None` is a violation. */
  function Replay1(stack: seq<nat>, op: Operation): Option<seq<nat>> {
    match op.opType
    case Push => if op.element.Some? then Some(stack + [op.element.value]) else Some(stack)
    case Pop =>
      if op.element.None? then Some(stack)
      else if stack == [] || stack[|stack| - 1] != op.element.value then None
      else Some(stack[..|stack| - 1])
    case PopEmpty => if stack == [] then Some(stack) else None
  }

  function Replay(ops: seq<Operation>): Option<seq<nat>> {
    if ops == [] then Some([])
    else
      match Replay(ops[..|ops| - 1])
      case None => None
      case Some(stack) => Replay1(stack, ops[|ops| - 1])
  }

  lemma ReplaySnoc(ops: seq<Operation>, op: Operation)
    ensures Replay(ops + [op]) == match Replay(ops) case None => None case Some(stack) => Replay1(stack, op)
  {
    assert (ops + [op])[..|ops|] == ops;
  }

  /** A violation is never made good by later operations. */
  lemma {:induction false} ReplayPrefix(ops: seq<Operation>, n: nat)
    requires n <= |ops| && Replay(ops).Some?
    ensures Replay(ops[..n]).Some?
    decreases |ops|
  {
    if n == |ops| {
      assert ops[..n] == ops;
    } else {
      ReplayPrefix(ops[..|ops| - 1], n);
      assert ops[..|ops| - 1][..n] == ops[..n];
    }
  }

  // ---------------------------------------------------------------- what the replay decides

  /** What each recorded operation means on a stack: a push adds its element on top, a pop returns
      the top, an empty pop finds nothing. */
  ghost predicate Performs(before: seq<nat>, op: Operation, after: seq<nat>) {
    match op.opType
    case Push => if op.element.Some? then after == before + [op.element.value] else after == before
    case Pop => if op.element.Some? then before == after + [op.element.value] else after == before
    case PopEmpty => before == [] && after == []
  }

  /** The operations, in order, are a run of one sequential stack through `stacks`. */
  ghost predicate SequentialRun(ops: seq<Operation>, stacks: seq<seq<nat>>) {
    && |stacks| == |ops| + 1
    && stacks[0] == []
    && forall i :: 0 <= i < |ops| ==> Performs(stacks[i], ops[i], stacks[i + 1])
  }

  lemma {:induction false} RunReplays(ops: seq<Operation>, stacks: seq<seq<nat>>)
    requires SequentialRun(ops, stacks)
    ensures Replay(ops) == Some(stacks[|ops|])
  {
    if ops != [] {
      var k := |ops| - 1;
      assert forall i :: 0 <= i < k ==> ops[..k][i] == ops[i] && stacks[..k + 1][i] == stacks[i];
      RunReplays(ops[..k], stacks[..k + 1]);
      assert Performs(stacks[k], ops[k], stacks[k + 1]);
    }
  }

  lemma {:induction false} ReplayRuns(ops: seq<Operation>) returns (stacks: seq<seq<nat>>)
    requires Replay(ops).Some?
    ensures SequentialRun(ops, stacks)
    ensures Replay(ops) == Some(stacks[|ops|])
  {
    if ops == [] {
      stacks := [[]];
    } else {
      var k := |ops| - 1;
      var before := ReplayRuns(ops[..k]);
      stacks := before + [Replay(ops).value];
      assert forall i :: 0 <= i < k ==> ops[..k][i] == ops[i];
    }
  }

  /** The check passes exactly the histories that some run of one sequential stack produces. */
  lemma LifoExactly(ops: seq<Operation>)
    ensures Replay(ops).Some? <==> exists stacks :: SequentialRun(ops, stacks)
  {
    if Replay(ops).Some? {
      var stacks := ReplayRuns(ops);
    }
    if exists stacks :: SequentialRun(ops, stacks) {
      var stacks :| SequentialRun(ops, stacks);
      RunReplays(ops, stacks);
    }
  }

  // ---------------------------------------------------------------- the history, in place

  class Recorder {
    var operations: seq<Operation>

    constructor ()
      ensures operations == []
    {
      operations := [];
    }

    method RecordPush(thread: nat, element: nat, step: nat)
      requires step > 0
      modifies this
      ensures operations == old(operations) + [Operation(thread, Push, Some(element), step)]
    {
      operations := operations + [Operation(thread, Push, Some(element), step)];
    }

    method RecordPop(thread: nat, element: Option<nat>, step: nat)
      requires step > 0
      modifies this
      ensures operations == old(operations)
                + [Operation(thread, if element.Some? then Pop else PopEmpty, element, step)]
    {
      operations := operations + [Operation(thread, if element.Some? then Pop else PopEmpty, element, step)];
    }

    /** `check_lifo_order`: the recorded history passes exactly when it is a run of one stack. */
    method CheckLifoOrder() returns (ok: bool)
      ensures ok <==> exists stacks :: SequentialRun(operations, stacks)
    {
      LifoExactly(operations);
      if |operations| == 0 {
        return true;
      }
      var modelStack: seq<nat> := [];
      for i := 0 to |operations|
        invariant Replay(operations[..i]) == Some(modelStack)
      {
        var op := operations[i];
        assert operations[..i + 1][..i] == operations[..i];
        match op.opType {
          case Push =>
            if op.element.Some? {
              modelStack := modelStack + [op.element.value];
            }
          case Pop =>
            if op.element.Some? {
              if |modelStack| == 0 || modelStack[|modelStack| - 1] != op.element.value {
                if Replay(operations).Some? {
                  ReplayPrefix(operations, i + 1);
                }
                return false;
              }
              modelStack := modelStack[..|modelStack| - 1];
            }
          case PopEmpty =>
            if |modelStack| > 0 {
              if Replay(operations).Some? {
                ReplayPrefix(operations, i + 1);
              }
              return false;
            }
        }
      }
      assert operations[..|operations|] == operations;
      ok := true;
    }
  }
}
