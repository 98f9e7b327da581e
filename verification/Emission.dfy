/** Growing a function's blocks while a decision tree is emitted: what each step
    adds and what it leaves alone. */
module Emission {
  import opened Options
  import opened ControlFlow
  import opened DecisionTree
  import opened FirstMatch
  import opened EnumEncoding
  import opened Wasm
  import opened Columns
  import opened Ir
  import opened FuncRun
  import opened MatchSpec
  import opened MatchCode

  // ---- Blocks.

  predicate SameBlock(a: BasicBlock, b: BasicBlock) {
    a.instructions == b.instructions && a.out == b.out && a.sealed == b.sealed
  }

  predicate IsOpen(blocks: seq<BasicBlock>, bb: nat) {
    bb < |blocks| && blocks[bb].out.NoOut?
  }

  /** The exits lead to `last` or on to new, later blocks. */
  predicate GoesOn(b: nat, out: Out, old0: nat, last: nat) {
    !out.NoOut? && forall w :: w in Successors(out) ==> w == last || (w > b && w >= old0)
  }

  /** Block bb got more code, new blocks were added, and all of these are finished
      but for block cur, which is where emission goes on. */
  ghost predicate Growing(b0: seq<BasicBlock>, b1: seq<BasicBlock>, bb: nat, cur: nat, last: nat) {
    && |b0| <= |b1| && bb < |b0| && IsOpen(b1, cur) && (cur == bb || |b0| <= cur)
    && (forall b :: 0 <= b < |b0| && b != bb ==> SameBlock(b1[b], b0[b]))
    && b0[bb].instructions <= b1[bb].instructions && b1[bb].sealed == b0[bb].sealed
    && (forall b :: |b0| <= b < |b1| ==> b1[b].sealed)
    && (forall b :: 0 <= b < |b1| && (b == bb || |b0| <= b) && b != cur ==> GoesOn(b, b1[b].out, |b0|, last))
  }

  /** The same, with everything finished. */
  ghost predicate Grown(b0: seq<BasicBlock>, b1: seq<BasicBlock>, bb: nat, last: nat) {
    && |b0| <= |b1| && bb < |b0|
    && (forall b :: 0 <= b < |b0| && b != bb ==> SameBlock(b1[b], b0[b]))
    && b0[bb].instructions <= b1[bb].instructions && b1[bb].sealed == b0[bb].sealed
    && (forall b :: |b0| <= b < |b1| ==> b1[b].sealed)
    && (forall b :: 0 <= b < |b1| && (b == bb || |b0| <= b) ==> GoesOn(b, b1[b].out, |b0|, last))
  }

  /** Test code was added to block cur, which now branches to two new blocks. */
  ghost predicate Forked(b0: seq<BasicBlock>, b1: seq<BasicBlock>, cur: nat, test: seq<Instr>) {
    && cur < |b0| && |b1| == |b0| + 2
    && (forall b :: 0 <= b < |b0| && b != cur ==> SameBlock(b1[b], b0[b]))
    && b1[cur].instructions == b0[cur].instructions + test && b1[cur].sealed == b0[cur].sealed
    && b1[cur].out == If(|b0| + 1, |b0|)
    && (forall b :: |b0| <= b < |b1| ==> b1[b].sealed && b1[b].out.NoOut? && b1[b].instructions == [])
  }

  /** Only code was added to block bb. */
  ghost predicate Wrote(b0: seq<BasicBlock>, b1: seq<BasicBlock>, bb: nat, code: seq<Instr>) {
    && |b1| == |b0| && bb < |b0|
    && (forall b :: 0 <= b < |b0| && b != bb ==> SameBlock(b1[b], b0[b]))
    && b1[bb].instructions == b0[bb].instructions + code && b1[bb].out == b0[bb].out && b1[bb].sealed == b0[bb].sealed
  }

  /** Code was added to block bb, and it was finished. */
  ghost predicate Filled(b0: seq<BasicBlock>, b1: seq<BasicBlock>, bb: nat, code: seq<Instr>, out: Out) {
    && |b1| == |b0| && bb < |b0|
    && (forall b :: 0 <= b < |b0| && b != bb ==> SameBlock(b1[b], b0[b]))
    && b1[bb].instructions == b0[bb].instructions + code && b1[bb].out == out && b1[bb].sealed == b0[bb].sealed
  }

  lemma FilledGrown(b0: seq<BasicBlock>, b1: seq<BasicBlock>, bb: nat, code: seq<Instr>, out: Out, last: nat)
    requires Filled(b0, b1, bb, code, out) && (out == Next(last) || out == Unreachable)
    ensures Grown(b0, b1, bb, last)
    ensures |b0[bb].instructions| <= |b1[bb].instructions| && b1[bb].instructions[|b0[bb].instructions|..] == code
  {
  }

  lemma GrownKeeps(b0: seq<BasicBlock>, b1: seq<BasicBlock>, bb: nat, last: nat)
    requires Grown(b0, b1, bb, last) && IsOpen(b0, bb)
    ensures Keeps(b0, b1)
  {
  }

  lemma GrowingKeeps(b0: seq<BasicBlock>, b1: seq<BasicBlock>, bb: nat, cur: nat, last: nat)
    requires Growing(b0, b1, bb, cur, last) && IsOpen(b0, bb)
    ensures Keeps(b0, b1)
  {
  }

  lemma GrowingStart(b: seq<BasicBlock>, bb: nat, last: nat)
    requires IsOpen(b, bb)
    ensures Growing(b, b, bb, bb, last)
  {
  }

  /** One more case: a fork, code in the branch, and the branch's subtree. */
  lemma ForkGrows(b0: seq<BasicBlock>, b1: seq<BasicBlock>, b2: seq<BasicBlock>, b3: seq<BasicBlock>, cur: nat,
                  test: seq<Instr>, code: seq<Instr>, last: nat)
    requires IsOpen(b0, cur) && last < |b0|
    requires Forked(b0, b1, cur, test) && Wrote(b1, b2, |b0|, code) && Grown(b2, b3, |b0|, last)
    ensures Growing(b0, b3, cur, |b0| + 1, last) && b3[|b0| + 1].instructions == []
    ensures |b0[cur].instructions| <= |b3[cur].instructions| && b3[cur].instructions[|b0[cur].instructions|..] == test
    ensures b3[cur].out == If(|b0| + 1, |b0|)
    ensures |b0| < |b3| && code <= b3[|b0|].instructions
  {
    assert SameBlock(b3[cur], b2[cur]) && SameBlock(b2[cur], b1[cur]);
    var f := |b0| + 1;
    assert SameBlock(b3[f], b2[f]) && SameBlock(b2[f], b1[f]);
    forall b | 0 <= b < |b0| && b != cur
      ensures SameBlock(b3[b], b0[b])
    {
      assert SameBlock(b3[b], b2[b]) && SameBlock(b2[b], b1[b]);
    }
    assert b2[|b0|].instructions == [] + code;
  }

  lemma GrowingThen(b0: seq<BasicBlock>, b1: seq<BasicBlock>, b2: seq<BasicBlock>, bb: nat, cur: nat, next: nat, last: nat)
    requires Growing(b0, b1, bb, cur, last) && Growing(b1, b2, cur, next, last) && next >= |b1|
    ensures Growing(b0, b2, bb, next, last)
  {
    forall b | 0 <= b < |b0| && b != bb
      ensures SameBlock(b2[b], b0[b])
    {
      assert b != cur && SameBlock(b2[b], b1[b]) && SameBlock(b1[b], b0[b]);
    }
    forall b | 0 <= b < |b2| && (b == bb || |b0| <= b) && b != next
      ensures GoesOn(b, b2[b].out, |b0|, last)
    {
      if b < |b1| && b != cur {
        assert SameBlock(b2[b], b1[b]);
      } else {
        assert GoesOn(b, b2[b].out, |b1|, last);
      }
    }
    forall b | |b0| <= b < |b2|
      ensures b2[b].sealed
    {
      if b < |b1| && b != cur {
        assert SameBlock(b2[b], b1[b]);
      }
    }
    assert bb != cur ==> SameBlock(b2[bb], b1[bb]);
  }

  lemma GrownThen(b0: seq<BasicBlock>, b1: seq<BasicBlock>, b2: seq<BasicBlock>, bb: nat, cur: nat, last: nat)
    requires Growing(b0, b1, bb, cur, last) && Grown(b1, b2, cur, last)
    ensures Grown(b0, b2, bb, last)
  {
    forall b | 0 <= b < |b0| && b != bb
      ensures SameBlock(b2[b], b0[b])
    {
      assert b != cur && SameBlock(b2[b], b1[b]) && SameBlock(b1[b], b0[b]);
    }
    forall b | 0 <= b < |b2| && (b == bb || |b0| <= b)
      ensures GoesOn(b, b2[b].out, |b0|, last)
    {
      if b < |b1| && b != cur {
        assert SameBlock(b2[b], b1[b]);
      } else {
        assert GoesOn(b, b2[b].out, |b1|, last);
      }
    }
    forall b | |b0| <= b < |b2|
      ensures b2[b].sealed
    {
      if b < |b1| && b != cur {
        assert SameBlock(b2[b], b1[b]);
      }
    }
    assert bb != cur ==> SameBlock(b2[bb], b1[bb]);
  }

  // ---- The cascade under construction.

  /** k cases have been emitted; emission goes on in block cur. */
  ghost predicate CascadeSoFar(b0: seq<BasicBlock>, blocks: seq<BasicBlock>, types: seq<ValType>, bb: nat, cur: nat,
                               cols: seq<Col>, col: nat, cases: seq<Case>, heads: seq<nat>, trues: seq<nat>,
                               last: nat, mode: Mode, n: nat)
  {
    && IsOpen(b0, bb) && Growing(b0, blocks, bb, cur, last) && col < |cols| && last < |b0|
    && Chained(blocks, cases, cols[col].ty, cols[col].local, |b0[bb].instructions|, heads, trues, last)
    && AllBranch(types, blocks, trues, cols, col, cases, last, mode, n)
    && heads[0] == bb && heads[|trues|] == cur
    && (if trues == [] then blocks[cur].instructions == b0[bb].instructions else blocks[cur].instructions == [])
  }

  lemma CascadeStart(b0: seq<BasicBlock>, types: seq<ValType>, bb: nat, cols: seq<Col>, col: nat, cases: seq<Case>,
                     last: nat, mode: Mode, n: nat)
    requires IsOpen(b0, bb) && last < |b0| && col < |cols|
    ensures CascadeSoFar(b0, b0, types, bb, bb, cols, col, cases, [bb], [], last, mode, n)
  {
    GrowingStart(b0, bb, last);
  }

  lemma CascadeExtends(b0: seq<BasicBlock>, b1: seq<BasicBlock>, b2: seq<BasicBlock>, types1: seq<ValType>,
                       types2: seq<ValType>, bb: nat, cur: nat, next: nat, t: nat, cols: seq<Col>, col: nat,
                       cases: seq<Case>, heads: seq<nat>, trues: seq<nat>, last: nat, mode: Mode, n: nat)
    requires CascadeSoFar(b0, b1, types1, bb, cur, cols, col, cases, heads, trues, last, mode, n)
    requires |trues| < |cases| && types1 <= types2
    requires Growing(b1, b2, cur, next, last) && next >= |b1| && b2[next].instructions == []
    requires Link(b2, cur, |b1[cur].instructions|, TestCode(cases[|trues|].ctor, cols[col].ty, cols[col].local), t, next, last)
    requires Branches(types2, b2, t, cols, col, cases[|trues|], last, mode, n)
    ensures CascadeSoFar(b0, b2, types2, bb, next, cols, col, cases, heads + [next], trues + [t], last, mode, n)
  {
    hide Branches, Link, TestCode, GoesOn;
    GrowingKeeps(b1, b2, cur, next, last);
    GrowingThen(b0, b1, b2, bb, cur, next, last);
    hide Growing, Keeps;
    var heads', trues' := heads + [next], trues + [t];
    forall j | 0 <= j < |trues'|
      ensures Link(b2, heads'[j], if j == 0 then |b0[bb].instructions| else 0,
                   TestCode(cases[j].ctor, cols[col].ty, cols[col].local), trues'[j], heads'[j + 1], last)
      ensures Branches(types2, b2, trues'[j], cols, col, cases[j], last, mode, n)
    {
      if j < |trues| {
        LinkStable(b1, b2, heads[j], if j == 0 then |b0[bb].instructions| else 0,
                   TestCode(cases[j].ctor, cols[col].ty, cols[col].local), trues[j], heads[j + 1], last);
        BranchesStable(types1, types2, b1, b2, trues[j], cols, col, cases[j], last, mode, n);
      }
    }
  }

  lemma CascadeEnds(b0: seq<BasicBlock>, b1: seq<BasicBlock>, b2: seq<BasicBlock>, types1: seq<ValType>,
                    types2: seq<ValType>, bb: nat, cur: nat, cols: seq<Col>, col: nat, cases: seq<Case>,
                    default: Option<Tree>, heads: seq<nat>, trues: seq<nat>, last: nat, mode: Mode, n: nat)
    requires CascadeSoFar(b0, b1, types1, bb, cur, cols, col, cases, heads, trues, last, mode, n)
    requires |trues| == |cases| && types1 <= types2 && Grown(b1, b2, cur, last)
    requires Sized(cols[col].ty) && (cols[col].ty.Enum? || cols[col].ty.Bool? || cols[col].ty.Int?)
    requires forall k :: 0 <= k < |cases| ==> CtorOk(cases[k].ctor, cols[col].ty)
    requires Tail(types2, b2, cur, |b1[cur].instructions|, cols, col, default, last, mode, n)
    ensures Grown(b0, b2, bb, last)
    ensures Decides(types2, b2, bb, |b0[bb].instructions|, cols, Switch(col, cases, default), last, mode, n)
  {
    hide Branches, Link, TestCode, GoesOn, CtorOk, Sized, Tail;
    GrownKeeps(b1, b2, cur, last);
    GrownThen(b0, b1, b2, bb, cur, last);
    hide Growing, Grown, Keeps;
    forall j | 0 <= j < |trues|
      ensures Link(b2, heads[j], if j == 0 then |b0[bb].instructions| else 0,
                   TestCode(cases[j].ctor, cols[col].ty, cols[col].local), trues[j], heads[j + 1], last)
      ensures Branches(types2, b2, trues[j], cols, col, cases[j], last, mode, n)
    {
      LinkStable(b1, b2, heads[j], if j == 0 then |b0[bb].instructions| else 0,
                 TestCode(cases[j].ctor, cols[col].ty, cols[col].local), trues[j], heads[j + 1], last);
      BranchesStable(types1, types2, b1, b2, trues[j], cols, col, cases[j], last, mode, n);
    }
    CascadeDecides(types2, b2, cols, col, cases, default, heads, trues, |b0[bb].instructions|, last, mode, n);
  }

  /** A larger frame is a smaller one too. */
  lemma DecidesNarrower(types: seq<ValType>, blocks: seq<BasicBlock>, bb: nat, p: nat, cols: seq<Col>, tree: Tree,
                        last: nat, mode: Mode, n: nat, n': nat)
    requires Decides(types, blocks, bb, p, cols, tree, last, mode, n') && n <= n'
    ensures Decides(types, blocks, bb, p, cols, tree, last, mode, n)
  {
    hide EndsAs, TypedLocals, Laid, Walk, RunFrom;
    forall vs, st
      ensures DecidesOn(types, blocks, bb, p, cols, tree, last, mode, n, vs, st)
    {
      assert DecidesOn(types, blocks, bb, p, cols, tree, last, mode, n', vs, st);
      if Premises(types, cols, vs, st) {
        EndsEarlier(RunFrom(blocks, bb, p, st, last), st, st, Walk(tree, vs, ColTypes(cols)), mode, n, n');
      }
    }
  }
}
