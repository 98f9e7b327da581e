/** Running structured code visits the same blocks as running the graph. */
module StructuredRun {
  import opened Options
  import opened ControlFlow
  import opened Linear
  import opened BlockInsertion
  import opened BlockPlacing
  import opened StructuredCode
  import opened TarjanRun

  /** What one basic block does to the machine, and the condition it leaves. */
  datatype Machine<!St> = Machine(step: (nat, St) -> St, cond: St -> bool)

  datatype Exit = ExitReturn(handle: Option<nat>) | ExitCall(func: nat) | ExitTrap

  /** The blocks visited, the final state, and how the run ends. */
  datatype Run<St> = Run(trace: seq<nat>, st: St, exit: Exit)

  /** What follows the `end` that a branch with this label leaves by. */
  function Branch(code: seq<Op>, l: nat): (r: seq<Op>)
    ensures |r| <= |code|
  {
    if code == [] then []
    else match code[0]
      case BlockOp(_) => Branch(code[1..], l + 1)
      case LoopOp(_) => Branch(code[1..], l + 1)
      case EndOp => if l == 0 then code[1..] else Branch(code[1..], l - 1)
      case _ => Branch(code[1..], l)
  }

  /** Run loop-free structured code: every branch goes forward. */
  function RunCode<St>(m: Machine<St>, code: seq<Op>, st: St, flag: bool, handle: Option<nat>): Run<St>
    decreases |code|
  {
    if code == [] then Run([], st, ExitReturn(handle))
    else match code[0]
      case Body(b) =>
        var st' := m.step(b, st);
        var r := RunCode(m, code[1..], st', m.cond(st'), handle);
        r.(trace := [b] + r.trace)
      case Eqz => RunCode(m, code[1..], st, !flag, handle)
      case BrIf(l) => RunCode(m, if flag then Branch(code[1..], l) else code[1..], st, flag, handle)
      case Br(l) => RunCode(m, Branch(code[1..], l), st, flag, handle)
      case ReturnOp => Run([], st, ExitReturn(handle))
      case ReturnCallOp(func) => Run([], st, ExitCall(func))
      case UnreachableOp => Run([], st, ExitTrap)
      case LocalGetOp(l) => RunCode(m, code[1..], st, flag, Some(l))
      case _ => RunCode(m, code[1..], st, flag, handle)
  }

  /** Running the graph from block b can go like this. */
  ghost predicate IsRun<St>(g: Graph, mode: AsyncMode, m: Machine<St>, b: nat, st: St, r: Run<St>)
    decreases |r.trace|
  {
    && b < |g| && |r.trace| > 0 && r.trace[0] == b
    && var st' := m.step(b, st);
       var rest := r.(trace := r.trace[1..]);
       match g[b]
       case Next(n) => IsRun(g, mode, m, n, st', rest)
       case If(f, t) => IsRun(g, mode, m, if m.cond(st') then t else f, st', rest)
       case ReturnCall(func) => rest == Run([], st', ExitCall(func))
       case Unreachable => rest == Run([], st', ExitTrap)
       case NoOut => false
       case _ => rest == Run([], st', ExitReturn(if mode.AsyncStart? then Some(mode.resourceLocal) else None))
  }

  /** The graph runs in one way only. */
  lemma {:induction false} IsRunUnique<St>(g: Graph, mode: AsyncMode, m: Machine<St>, b: nat, st: St, r: Run<St>, r': Run<St>)
    requires IsRun(g, mode, m, b, st, r) && IsRun(g, mode, m, b, st, r')
    ensures r == r'
    decreases |r.trace|
  {
    var st' := m.step(b, st);
    var rest, rest' := r.(trace := r.trace[1..]), r'.(trace := r'.trace[1..]);
    match g[b] {
      case Next(n) => IsRunUnique(g, mode, m, n, st', rest, rest');
      case If(f, t) => IsRunUnique(g, mode, m, if m.cond(st') then t else f, st', rest, rest');
      case _ =>
    }
    assert r.trace == [b] + rest.trace && r'.trace == [b] + rest'.trace;
  }

  // ---- Scanning a nest.

  lemma {:induction false} ScanNoEnd(items: seq<SeqItem>)
    requires NoEnd(items)
    ensures Scan(items) == Some(Marks(items))
  {
    if items != [] {
      var n := |items| - 1;
      ScanNoEnd(items[..n]);
      assert !IsEnd(items[n]);
      assert Marks(items[..n]) + [] == Marks(items[..n]);
    }
  }

  lemma ScanPop(items: seq<SeqItem>, rest: seq<nat>, x: SeqItem)
    requires IsEnd(x) && Scan(items) == Some(rest + [x.bb])
    ensures Scan(items + [x]) == Some(rest)
  {
    assert (items + [x])[..|items|] == items;
    assert (rest + [x.bb])[..|rest|] == rest;
  }

  lemma ScanSkip(items: seq<SeqItem>, x: SeqItem)
    requires x.Basic?
    ensures Scan(items + [x]) == Scan(items) && Marks(items + [x]) == Marks(items)
  {
    assert (items + [x])[..|items|] == items;
    assert Marks(items) + [] == Marks(items);
  }

  lemma MarksSnoc(items: seq<SeqItem>, x: SeqItem)
    requires !x.Basic?
    ensures Rev(Marks(items + [x])) == [x.bb] + Rev(Marks(items))
  {
    assert (items + [x])[..|items|] == items;
    RevConcat(Marks(items), [x.bb]);
  }

  /** Closings in reverse order of the open labels close them one by one. */
  lemma {:induction false} ScanNoStart(a: seq<SeqItem>, b: seq<SeqItem>, rest: seq<nat>)
    requires NoStart(b) && Scan(a) == Some(rest + Rev(Marks(b)))
    ensures Scan(a + b) == Some(rest)
  {
    if b == [] {
      assert a + b == a && rest + [] == rest;
    } else {
      hide Scan, Marks;
      var n := |b| - 1;
      var x := b[n];
      assert b == b[..n] + [x];
      assert a + b == a + b[..n] + [x];
      if x.Basic? {
        ScanSkip(b[..n], x);
        ScanSkip(a + b[..n], x);
        ScanNoStart(a, b[..n], rest);
      } else {
        MarksSnoc(b[..n], x);
        assert rest + ([x.bb] + Rev(Marks(b[..n]))) == (rest + [x.bb]) + Rev(Marks(b[..n]));
        ScanNoStart(a, b[..n], rest + [x.bb]);
        ScanPop(a + b[..n], rest, x);
      }
    }
  }

  /** The open labels at each place of a chain. */
  lemma ChainScan(items: seq<SeqItem>, c: nat, p: nat)
    requires Chain(items, c) && p <= |items|
    ensures Scan(items[..p]) == Some(if p <= c then Marks(items[..p]) else Rev(Marks(items[p..])))
  {
    hide Scan, NoStart, NoEnd;
    if p <= c {
      assert items[..c] == items[..p] + items[p..c];
      NoEndSplit(items[..p], items[p..c]);
      ScanNoEnd(items[..p]);
    } else {
      ScanNoEnd(items[..c]);
      assert items[c..] == items[c..p] + items[p..];
      NoStartSplit(items[c..p], items[p..]);
      MarksConcat(items[c..p], items[p..]);
      RevConcat(Marks(items[c..p]), Marks(items[p..]));
      ScanNoStart(items[..c], items[c..p], Rev(Marks(items[p..])));
      assert items[..p] == items[..c] + items[c..p];
    }
  }

  // ---- Branches land before their target.

  /** A branch skips a basic block's code. */
  lemma {:induction false} BranchSkips(a: seq<Op>, b: seq<Op>, l: nat)
    requires forall i :: 0 <= i < |a| ==> !a[i].BlockOp? && !a[i].LoopOp? && !a[i].EndOp?
    ensures Branch(a + b, l) == Branch(b, l)
  {
    if a == [] {
      assert a + b == b;
    } else {
      assert (a + b)[1..] == a[1..] + b;
      BranchSkips(a[1..], b, l);
    }
  }

  lemma ScanNext(items: seq<SeqItem>, p: nat)
    requires p < |items| && Scan(items).Some?
    ensures Scan(items[..p]).Some? && Scan(items[..p + 1]).Some?
    ensures var open, open' := Scan(items[..p]).value, Scan(items[..p + 1]).value;
            if items[p].Basic? then open' == open
            else if IsStart(items[p]) then open' == open + [items[p].bb]
            else open != [] && open[|open| - 1] == items[p].bb && open' == open[..|open| - 1]
  {
    ScanPrefix(items, p);
    ScanPrefix(items, p + 1);
    assert items[..p + 1][..p] == items[..p];
  }

  lemma BranchStep(g: Graph, mode: AsyncMode, items: seq<SeqItem>, p: nat, l: nat)
    requires Emittable(g, items) && p < |items|
    ensures var code, rest := CodeFrom(g, mode, items, p), CodeFrom(g, mode, items, p + 1);
            Branch(code, l) ==
              if items[p].Basic? then Branch(rest, l)
              else if IsStart(items[p]) then Branch(rest, l + 1)
              else if l == 0 then rest else Branch(rest, l - 1)
  {
    hide FirstBasic, LabelFor, ItemOk, Branch;
    var ops := ItemOps(g, mode, items, p);
    var rest := CodeFrom(g, mode, items, p + 1);
    assert CodeFrom(g, mode, items, p) == ops + rest;
    hide CodeFrom, Emittable, ExitOps;
    if !items[p].Basic? {
      MarkBranch(ops[0], rest, l);
    }
    if items[p].Basic? {
      BranchSkips(ops, rest, l);
    }
  }

  lemma MarkBranch(op: Op, rest: seq<Op>, l: nat)
    ensures op.BlockOp? || op.LoopOp? ==> Branch([op] + rest, l) == Branch(rest, l + 1)
    ensures op.EndOp? ==> Branch([op] + rest, l) == if l == 0 then rest else Branch(rest, l - 1)
  {
    assert ([op] + rest)[1..] == rest;
  }

  /** From place p, the label l of the open ones leads behind the `end` of that label. */
  lemma {:induction false} BranchLands(g: Graph, mode: AsyncMode, items: seq<SeqItem>, p: nat, l: nat) returns (e: nat)
    requires Emittable(g, items) && Scan(items) == Some([]) && p <= |items|
    requires Scan(items[..p]).Some? && l < |Scan(items[..p]).value|
    ensures p <= e < |items| && IsEnd(items[e])
    ensures items[e].bb == (var open := Scan(items[..p]).value; open[|open| - 1 - l])
    ensures Branch(CodeFrom(g, mode, items, p), l) == CodeFrom(g, mode, items, e + 1)
    decreases |items| - p
  {
    hide Scan, CodeFrom, Branch, Emittable;
    assert items[..|items|] == items;
    ScanNext(items, p);
    BranchStep(g, mode, items, p, l);
    if items[p].Basic? {
      e := BranchLands(g, mode, items, p + 1, l);
    } else if IsStart(items[p]) {
      e := BranchLands(g, mode, items, p + 1, l + 1);
    } else if l > 0 {
      e := BranchLands(g, mode, items, p + 1, l - 1);
    } else {
      e := p;
    }
  }


  // ---- Places of a finished placing.

  /** A closing label stands in one place. */
  lemma {:induction false} OneEndPlace(items: seq<SeqItem>, p: nat, q: nat, w: nat)
    requires NoStart(items) && Distinct(Marks(items)) && p <= q < |items|
    requires IsEnd(items[p]) && IsEnd(items[q]) && items[p].bb == items[q].bb == w
    ensures p == q
  {
    if p < q {
      assert items == items[..q] + items[q..];
      MarksConcat(items[..q], items[q..]);
      NoMarkMissing(items[..q], p);
      assert items[q..][0] == items[q];
      NoMarkMissing(items[q..], 0);
      SharedNotDistinct(Marks(items[..q]), Marks(items[q..]), w);
    }
  }

  lemma SharedNotDistinct(a: seq<nat>, b: seq<nat>, w: nat)
    requires w in a && w in b
    ensures !Distinct(a + b)
  {
    var x :| 0 <= x < |a| && a[x] == w;
    var y :| 0 <= y < |b| && b[y] == w;
    assert (a + b)[x] == (a + b)[|a| + y];
  }

  lemma {:induction false} NoMarkMissing(items: seq<SeqItem>, p: nat)
    requires p < |items| && !items[p].Basic?
    ensures items[p].bb in Marks(items)
  {
    var n := |items| - 1;
    if p < n {
      NoMarkMissing(items[..n], p);
    }
  }

  /** The `end` of a placed block stands before its target and nowhere else. */
  lemma EndIsClosing(order: seq<nat>, items: seq<SeqItem>, c: nat, placed: set<nat>, e: nat, w: nat)
    requires Shape(order, items, c, placed) && w in placed && Distinct(order)
    requires e < |items| && IsEnd(items[e]) && items[e].bb == w
    ensures e + 1 < |items| && items[e + 1] == Basic(w)
  {
    var e' :| 0 <= e' && e' + 1 < |items| && items[e'] == EndBlock(w) && items[e' + 1] == Basic(w);
    EndAfterCut(items, c, e);
    EndAfterCut(items, c, e');
    var b := items[c..];
    DistinctRev(Marks(items[..c]), Marks(b));
    assert b[e - c] == items[e] && b[e' - c] == items[e'];
    if e <= e' {
      OneEndPlace(b, e - c, e' - c, w);
    } else {
      OneEndPlace(b, e' - c, e - c, w);
    }
  }

  lemma EndAfterCut(items: seq<SeqItem>, c: nat, e: nat)
    requires Chain(items, c) && e < |items| && IsEnd(items[e])
    ensures c <= e
  {
    NoEndAt(items, c, e);
  }

  lemma DistinctRev(a: seq<nat>, b: seq<nat>)
    requires Distinct(a) && a == Rev(b)
    ensures Distinct(b)
  {
    forall p, q | 0 <= p < q < |b|
      ensures b[p] != b[q]
    {
      assert a[|b| - 1 - q] == b[q] && a[|b| - 1 - p] == b[p];
    }
  }

  /** At the source of a served edge that is not adjacent, the target's block is open. */
  lemma ServedIsOpen(g: Graph, order: seq<nat>, items: seq<SeqItem>, c: nat, placed: set<nat>, i: nat, w: nat)
    requires Placing(g, order, items, |items|, 0, c, placed) && Forward(g, order)
    requires i < |items| && items[i].Basic? && w in Succ(g, items[i].bb)
    ensures Scan(items[..i]).Some?
    ensures Adjacent(order, items[i].bb, w) || (w in Scan(items[..i]).value && w in placed)
  {
    hide Scan;
    ChainScan(items, c, i);
    var bb := items[i].bb;
    assert Served(order, items, i, bb, w);
    if !Adjacent(order, bb, w) {
      var s :| 0 <= s < i && items[s] == StartBlock(w);
      TargetLater(g, items, i, w);
      OpenUntilTarget(order, items, c, placed, s, i, w);
    }
  }

  /** A placed block stays open until its target. */
  lemma OpenUntilTarget(order: seq<nat>, items: seq<SeqItem>, c: nat, placed: set<nat>, s: nat, i: nat, w: nat)
    requires Shape(order, items, c, placed) && s < i < |items| && items[s] == StartBlock(w)
    requires items[i].Basic? && w !in Basics(items[..i + 1])
    ensures Scan(items[..i]).Some? && w in Scan(items[..i]).value && w in placed
  {
    hide Scan;
    ChainScan(items, c, i);
    StartBeforeCut(items, c, s);
    assert items[..c][s] == items[s];
    NoMarkMissing(items[..c], s);
    if i <= c {
      assert items[..i][s] == items[s];
      NoMarkMissing(items[..i], s);
    } else {
      EndAhead(items, i, w);
    }
  }

  lemma StartBeforeCut(items: seq<SeqItem>, c: nat, s: nat)
    requires Chain(items, c) && s < |items| && IsStart(items[s])
    ensures s < c
  {
    NoStartAt(items, c, s);
  }

  /** The closing of a block whose target is still ahead is ahead too. */
  lemma EndAhead(items: seq<SeqItem>, i: nat, w: nat)
    requires ClosesBefore(items, w) && i < |items| && items[i].Basic? && w !in Basics(items[..i + 1])
    ensures w in Rev(Marks(items[i..]))
  {
    var e :| 0 <= e && e + 1 < |items| && items[e] == EndBlock(w) && items[e + 1] == Basic(w);
    BasicsMembers(items[..i + 1], w);
    TakeAt(items, i + 1, e + 1);
    assert e > i;
    assert items[i..][e - i] == items[e];
    NoMarkMissing(items[i..], e - i);
    var m := Marks(items[i..]);
    var x :| 0 <= x < |m| && m[x] == w;
    assert Rev(m)[|m| - 1 - x] == w;
  }

  // ---- The code runs as the graph does.

  /** A finished placing for the blocks reachable from some entry. */
  ghost predicate Ready(g: Graph, items: seq<SeqItem>, c: nat, placed: set<nat>) {
    && Complete(g) && Emittable(g, items)
    && Forward(g, Basics(items)) && Placing(g, Basics(items), items, |items|, 0, c, placed)
  }

  lemma ReadyScans(g: Graph, items: seq<SeqItem>, c: nat, placed: set<nat>)
    requires Ready(g, items, c, placed)
    ensures Scan(items) == Some([])
  {
    ChainScan(items, c, |items|);
    assert items[..|items|] == items;
    assert items[|items|..] == [];
    if |items| <= c {
      assert items[c..] == [];
    }
  }

  /** Without a basic block in between, control just reaches the next one. */
  lemma {:induction false} FallsThrough<St>(g: Graph, mode: AsyncMode, items: seq<SeqItem>, p: nat,
                                            m: Machine<St>, st: St, flag: bool) returns (q: nat)
    requires Emittable(g, items) && p <= |items| && FirstBasic(items[p..]).Some?
    ensures p <= q < |items| && items[q] == Basic(FirstBasic(items[p..]).value)
    ensures RunCode(m, CodeFrom(g, mode, items, p), st, flag, None)
         == RunCode(m, CodeFrom(g, mode, items, q), st, flag, None)
    decreases |items| - p
  {
    if items[p].Basic? {
      q := p;
    } else {
      assert items[p..][1..] == items[p + 1..];
      MarkSkipped(g, mode, items, p, m, st, flag);
      hide Emittable, CodeFrom, RunCode;
      q := FallsThrough(g, mode, items, p + 1, m, st, flag);
    }
  }

  /** Opening and closing labels do nothing when they are run. */
  lemma MarkSkipped<St>(g: Graph, mode: AsyncMode, items: seq<SeqItem>, p: nat, m: Machine<St>, st: St, flag: bool)
    requires Emittable(g, items) && p < |items| && !items[p].Basic?
    ensures RunCode(m, CodeFrom(g, mode, items, p), st, flag, None)
         == RunCode(m, CodeFrom(g, mode, items, p + 1), st, flag, None)
  {
    hide Scan, FirstBasic, Branch, ItemOk;
    var op := ItemOps(g, mode, items, p)[0];
    var rest := CodeFrom(g, mode, items, p + 1);
    assert CodeFrom(g, mode, items, p) == [op] + rest;
    assert ([op] + rest)[1..] == rest;
  }

  /** What is open was placed. */
  lemma OpenIsPlaced(items: seq<SeqItem>, order: seq<nat>, c: nat, placed: set<nat>, i: nat, w: nat)
    requires Shape(order, items, c, placed) && i <= |items| && Scan(items[..i]).Some?
    requires w in Scan(items[..i]).value
    ensures w in placed
  {
    ChainScan(items, c, i);
    hide Scan, ClosesBefore, Distinct, Basics, NoLoopItem;
    ChainOpenMarks(items, c, i);
  }

  lemma ChainOpenMarks(items: seq<SeqItem>, c: nat, i: nat)
    requires Chain(items, c) && i <= |items|
    ensures var open := if i <= c then Marks(items[..i]) else Rev(Marks(items[i..]));
            forall w :: w in open ==> w in Marks(items[..c])
  {
    hide Marks, NoStart, NoEnd;
    if i <= c {
      assert items[..c] == items[..i] + items[i..c];
      MarksConcat(items[..i], items[i..c]);
    } else {
      assert items[c..] == items[c..i] + items[i..];
      MarksConcat(items[c..i], items[i..]);
      RevConcat(Marks(items[c..i]), Marks(items[i..]));
    }
  }

  /** A branch to an open label reaches the block of that label. */
  lemma JumpLands(g: Graph, mode: AsyncMode, items: seq<SeqItem>, c: nat, placed: set<nat>, i: nat, w: nat)
    returns (q: nat)
    requires Ready(g, items, c, placed) && i < |items| && items[i].Basic?
    requires LabelFor(items[..i], w).Some?
    ensures i < q < |items| && items[q] == Basic(w)
    ensures Branch(CodeFrom(g, mode, items, i + 1), LabelFor(items[..i], w).value) == CodeFrom(g, mode, items, q)
  {
    hide Scan, Branch, CodeFrom, Emittable, AllServed, Forward, Shape, LabelFor;
    ReadyScans(g, items, c, placed);
    ScanNext(items, i);
    LabelIsOpen(items[..i], w);
    var open := Scan(items[..i]).value;
    var e := BranchLands(g, mode, items, i + 1, LabelOf(open, w));
    ForwardDistinct(g, items);
    OpenIsPlaced(items, Basics(items), c, placed, i, w);
    EndIsClosing(Basics(items), items, c, placed, e, w);
    q := e + 1;
  }

  lemma ForwardDistinct(g: Graph, items: seq<SeqItem>)
    requires Forward(g, Basics(items))
    ensures Distinct(Basics(items))
  {
  }

  /** Running one item's code: its block, then its exit. */
  lemma BodyRuns<St>(m: Machine<St>, b: nat, exit: seq<Op>, rest: seq<Op>, st: St, flag: bool)
    ensures var st' := m.step(b, st);
            var after := RunCode(m, exit + rest, st', m.cond(st'), None);
            RunCode(m, [Body(b)] + exit + rest, st, flag, None) == after.(trace := [b] + after.trace)
  {
    var code := [Body(b)] + exit + rest;
    assert code[1..] == exit + rest;
  }

  /** Running the jumps of an exit, whose condition is on the stack. */
  lemma JumpRuns<St>(m: Machine<St>, rest: seq<Op>, l: nat, k: nat, st: St, flag: bool)
    ensures RunCode(m, [Br(l)] + rest, st, flag, None) == RunCode(m, Branch(rest, l), st, flag, None)
    ensures RunCode(m, [BrIf(l)] + rest, st, flag, None)
         == RunCode(m, if flag then Branch(rest, l) else rest, st, flag, None)
    ensures RunCode(m, [Eqz, BrIf(l)] + rest, st, flag, None)
         == RunCode(m, if flag then rest else Branch(rest, l), st, !flag, None)
    ensures RunCode(m, [BrIf(l), Br(k)] + rest, st, flag, None)
         == RunCode(m, Branch(rest, if flag then l else k), st, flag, None)
  {
    assert ([Br(l)] + rest)[1..] == rest;
    assert ([BrIf(l)] + rest)[1..] == rest;
    assert ([Eqz, BrIf(l)] + rest)[1..] == [BrIf(l)] + rest;
    assert ([BrIf(l)] + rest)[1..] == rest;
    assert ([BrIf(l), Br(k)] + rest)[1..] == [Br(k)] + rest;
    BranchSkips([Br(k)], rest, l);
    assert [Br(k)] + rest == [Br(k)] + rest;
  }

  lemma TailRuns<St>(m: Machine<St>, last: bool, rest: seq<Op>, st: St, flag: bool, handle: Option<nat>)
    requires last ==> rest == [EndOp]
    ensures RunCode(m, (if last then [] else [ReturnOp]) + rest, st, flag, handle) == Run([], st, ExitReturn(handle))
  {
    if last {
      assert [] + rest == [EndOp];
      assert [EndOp][1..] == [];
      assert RunCode(m, [], st, flag, handle) == Run([], st, ExitReturn(handle));
    }
  }

  /** Leaving the function. */
  lemma LeaveRuns<St>(m: Machine<St>, mode: AsyncMode, out: Out, next: Option<nat>, last: bool, before: seq<SeqItem>,
                      rest: seq<Op>, st: St, flag: bool)
    requires ExitOk(out, next, before) && Successors(out) == [] && (last ==> rest == [EndOp])
    ensures RunCode(m, ExitOps(out, mode, next, last, before) + rest, st, flag, None)
         == Run([], st, match out
                        case ReturnCall(func) => ExitCall(func)
                        case Unreachable => ExitTrap
                        case _ => ExitReturn(if mode.AsyncStart? then Some(mode.resourceLocal) else None))
  {
    var ops := ExitOps(out, mode, next, last, before);
    if out.Return? || out.Yield? {
      var tail := if last then [] else [ReturnOp];
      if mode.AsyncStart? {
        TailRuns(m, last, rest, st, flag, Some(mode.resourceLocal));
        assert (ops + rest)[1..] == tail + rest;
      } else {
        TailRuns(m, last, rest, st, flag, None);
        assert ops + rest == tail + rest;
      }
    }
  }

  lemma {:induction false} RunsNext<St>(g: Graph, mode: AsyncMode, items: seq<SeqItem>, c: nat, placed: set<nat>,
                                        i: nat, n: nat, m: Machine<St>, st: St, flag: bool)
    requires Ready(g, items, c, placed) && i < |items| && items[i].Basic?
    requires ItemOk(g, items, i) && g[items[i].bb] == Next(n)
    ensures IsRun(g, mode, m, n, st, RunCode(m, ExitCode(g, mode, items, i), st, flag, None))
    decreases |items| - i, 0
  {
    hide Branch, FirstBasic, IsRun, LabelFor, CodeFrom, Emittable, Placing, Forward, RunCode;
    var rest := CodeFrom(g, mode, items, i + 1);
    var next := FirstBasic(items[i + 1..]);
    var q;
    if next == Some(n) {
      assert [] + rest == rest;
      q := FallsThrough(g, mode, items, i + 1, m, st, flag);
    } else {
      JumpRuns(m, rest, LabelFor(items[..i], n).value, 0, st, flag);
      q := JumpLands(g, mode, items, c, placed, i, n);
    }
    RunsAs(g, mode, items, c, placed, q, m, st, flag);
  }

  lemma {:induction false} RunsIf<St>(g: Graph, mode: AsyncMode, items: seq<SeqItem>, c: nat, placed: set<nat>,
                                      i: nat, f: nat, t: nat, m: Machine<St>, st: St, flag: bool)
    requires Ready(g, items, c, placed) && i < |items| && items[i].Basic?
    requires ItemOk(g, items, i) && g[items[i].bb] == If(f, t)
    ensures IsRun(g, mode, m, if flag then t else f, st, RunCode(m, ExitCode(g, mode, items, i), st, flag, None))
    decreases |items| - i, 0
  {
    hide Branch, FirstBasic, IsRun, LabelFor, CodeFrom, Emittable, Placing, Forward, RunCode;
    var rest := CodeFrom(g, mode, items, i + 1);
    var next := FirstBasic(items[i + 1..]);
    var flag' := if next != Some(f) && next == Some(t) then !flag else flag;
    var target := if flag then t else f;
    var q;
    if next == Some(f) {
      JumpRuns(m, rest, LabelFor(items[..i], t).value, 0, st, flag);
    } else if next == Some(t) {
      JumpRuns(m, rest, LabelFor(items[..i], f).value, 0, st, flag);
    } else {
      JumpRuns(m, rest, LabelFor(items[..i], t).value, LabelFor(items[..i], f).value, st, flag);
    }
    if next == Some(target) && !(flag && next == Some(f)) {
      q := FallsThrough(g, mode, items, i + 1, m, st, flag');
    } else {
      q := JumpLands(g, mode, items, c, placed, i, target);
    }
    RunsAs(g, mode, items, c, placed, q, m, st, flag');
  }

  /** The code of the exit at i and everything after it. */
  function ExitCode(g: Graph, mode: AsyncMode, items: seq<SeqItem>, i: nat): seq<Op>
    requires Emittable(g, items) && i < |items| && items[i].Basic? && ItemOk(g, items, i)
  {
    ExitOps(g[items[i].bb], mode, FirstBasic(items[i + 1..]), i + 1 == |items|, items[..i])
    + CodeFrom(g, mode, items, i + 1)
  }

  /** From the place of block b, the code runs as the graph does from b. */
  lemma {:induction false} RunsAs<St>(g: Graph, mode: AsyncMode, items: seq<SeqItem>, c: nat, placed: set<nat>,
                                      i: nat, m: Machine<St>, st: St, flag: bool)
    requires Ready(g, items, c, placed) && i < |items| && items[i].Basic?
    ensures IsRun(g, mode, m, items[i].bb, st, RunCode(m, CodeFrom(g, mode, items, i), st, flag, None))
    decreases |items| - i, 1
  {
    var b := items[i].bb;
    var st', flag' := m.step(b, st), m.cond(m.step(b, st));
    var next, last := FirstBasic(items[i + 1..]), i + 1 == |items|;
    var rest := CodeFrom(g, mode, items, i + 1);
    assert ItemOk(g, items, i);
    var exit := ExitOps(g[b], mode, next, last, items[..i]);
    assert exit + rest == ExitCode(g, mode, items, i);
    assert CodeFrom(g, mode, items, i) == [Body(b)] + exit + rest;
    BodyRuns(m, b, exit, rest, st, flag);
    var after := RunCode(m, exit + rest, st', flag', None);
    var whole := RunCode(m, CodeFrom(g, mode, items, i), st, flag, None);
    assert whole.(trace := whole.trace[1..]) == after;
    match g[b] {
      case Next(n) =>
        RunsNext(g, mode, items, c, placed, i, n, m, st', flag');
      case If(f, t) =>
        RunsIf(g, mode, items, c, placed, i, f, t, m, st', flag');
      case NoOut =>
      case _ =>
        LeaveRuns(m, mode, g[b], next, last, items[..i], rest, st', flag');
    }
  }
}
