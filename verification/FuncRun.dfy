/** Running a function's blocks from one place until a given block is reached. */
module FuncRun {
  import opened Options
  import opened ControlFlow
  import opened Wasm
  import opened Ir

  datatype Result = Done(st: State) | Trapped(st: State) | Bad

  /** Run block bb from its p-th instruction; stop on entering `last`. Control
      only ever moves to later blocks here; anything else is Bad, as is what
      validation would reject. */
  function RunFrom(blocks: seq<BasicBlock>, bb: nat, p: nat, st: State, last: nat): Result
    decreases |blocks| - bb, 1
  {
    if bb >= |blocks| || p > |blocks[bb].instructions| then Bad
    else
      var r := Exec(blocks[bb].instructions[p..], st);
      if r.None? then Bad
      else Leave(blocks, bb, r.value, last)
  }

  function Leave(blocks: seq<BasicBlock>, bb: nat, st: State, last: nat): Result
    requires bb < |blocks|
    decreases |blocks| - bb, 0
  {
    match blocks[bb].out
    case Unreachable => Trapped(st)
    case Next(n) => if n == last then Done(st) else if n > bb then RunFrom(blocks, n, 0, st, last) else Bad
    case If(f, t) =>
      if st.stack == [] || !Top(st).W32? then Bad
      else
        var n := if Top(st).bits != 0 then t else f;
        if n == last then Done(Drop(st, 1)) else if n > bb then RunFrom(blocks, n, 0, Drop(st, 1), last) else Bad
    case _ => Bad
  }

  /** Filled blocks stay as they are. */
  ghost predicate Keeps(blocks: seq<BasicBlock>, blocks': seq<BasicBlock>) {
    && |blocks| <= |blocks'|
    && forall b :: 0 <= b < |blocks| && !blocks[b].out.NoOut? ==>
         blocks'[b].instructions == blocks[b].instructions && blocks'[b].out == blocks[b].out
  }

  lemma {:induction false} RunStable(blocks: seq<BasicBlock>, blocks': seq<BasicBlock>, bb: nat, p: nat, st: State, last: nat)
    requires Keeps(blocks, blocks') && RunFrom(blocks, bb, p, st, last) != Bad
    ensures RunFrom(blocks', bb, p, st, last) == RunFrom(blocks, bb, p, st, last)
    decreases |blocks| - bb
  {
    hide Exec;
    var mid := Exec(blocks[bb].instructions[p..], st).value;
    match blocks[bb].out
    case Next(n) =>
      if n != last {
        RunStable(blocks, blocks', n, 0, mid, last);
      }
    case If(f, t) =>
      var n := if Top(mid).bits != 0 then t else f;
      if n != last {
        RunStable(blocks, blocks', n, 0, Drop(mid, 1), last);
      }
    case _ =>
  }

  /** Straight-line progress inside a block. */
  lemma RunSplit(blocks: seq<BasicBlock>, bb: nat, p: nat, q: nat, st: State, mid: State, last: nat)
    requires bb < |blocks| && p <= q <= |blocks[bb].instructions|
    requires Exec(blocks[bb].instructions[p..q], st) == Some(mid)
    ensures RunFrom(blocks, bb, p, st, last) == RunFrom(blocks, bb, q, mid, last)
  {
    var code := blocks[bb].instructions;
    assert code[p..] == code[p..q] + code[q..];
    ExecThen(code[p..q], code[q..], st, mid);
  }

  /** The last instructions of a block, and its exit. */
  lemma RunOut(blocks: seq<BasicBlock>, bb: nat, p: nat, st: State, mid: State, last: nat)
    requires bb < |blocks| && p <= |blocks[bb].instructions|
    requires Exec(blocks[bb].instructions[p..], st) == Some(mid)
    ensures RunFrom(blocks, bb, p, st, last) == Leave(blocks, bb, mid, last)
  {
  }
}
