/** Running structured code with loops, step by step, follows the graph. */
module LoopRun {
  import opened Options
  import opened ControlFlow
  import opened Linear
  import opened BlockInsertion
  import opened StructuredCode
  import opened StructuredRun
  import opened LoopLabels

  // ---- A machine for structured code.

  /** Each open label is the code that a branch to it goes on with: what follows a
      block, or a loop from its start. */
  datatype Config<St> =
    | At(code: seq<Op>, frames: seq<seq<Op>>, st: St, flag: bool, handle: Option<nat>, trace: seq<nat>)
    | Ended(run: Run<St>)

  function Jump<St>(c: Config<St>, l: nat): Config<St>
    requires c.At?
  {
    if l < |c.frames| then
      var n := |c.frames| - 1 - l;
      c.(code := c.frames[n], frames := c.frames[..n])
    else Ended(Run(c.trace, c.st, ExitReturn(c.handle)))
  }

  function Step<St>(m: Machine<St>, c: Config<St>): Config<St> {
    if c.Ended? then c
    else if c.code == [] then Ended(Run(c.trace, c.st, ExitReturn(c.handle)))
    else
      var next := c.(code := c.code[1..]);
      match c.code[0]
      case Body(b) => next.(st := m.step(b, c.st), flag := m.cond(m.step(b, c.st)), trace := c.trace + [b])
      case BlockOp(_) => next.(frames := c.frames + [Branch(c.code[1..], 0)])
      case LoopOp(_) => next.(frames := c.frames + [c.code])
      case EndOp =>
        if c.frames == [] then Ended(Run(c.trace, c.st, ExitReturn(c.handle)))
        else next.(frames := c.frames[..|c.frames| - 1])
      case Br(l) => Jump(c, l)
      case BrIf(l) => if c.flag then Jump(c, l) else next
      case Eqz => next.(flag := !c.flag)
      case ReturnOp => Ended(Run(c.trace, c.st, ExitReturn(c.handle)))
      case ReturnCallOp(func) => Ended(Run(c.trace, c.st, ExitCall(func)))
      case UnreachableOp => Ended(Run(c.trace, c.st, ExitTrap))
      case LocalGetOp(l) => next.(handle := Some(l))
  }

  function Steps<St>(m: Machine<St>, n: nat, c: Config<St>): Config<St> {
    if n == 0 then c else Steps(m, n - 1, Step(m, c))
  }

  lemma {:induction false} StepsAdd<St>(m: Machine<St>, a: nat, b: nat, c: Config<St>)
    ensures Steps(m, a + b, c) == Steps(m, b, Steps(m, a, c))
  {
    if a > 0 {
      StepsAdd(m, a - 1, b, Step(m, c));
    }
  }

  lemma {:induction false} EndedStays<St>(m: Machine<St>, n: nat, r: Run<St>)
    ensures Steps(m, n, Ended(r)) == Ended(r)
  {
    if n > 0 {
      EndedStays(m, n - 1, r);
    }
  }

  // ---- The labels open at each place of a sequence, as code.

  function FrameOf(g: Graph, mode: AsyncMode, items: seq<SeqItem>, s: nat): seq<Op>
    requires s < |items| && Emittable(g, items)
  {
    if items[s].StartLoop? then CodeFrom(g, mode, items, s) else Branch(CodeFrom(g, mode, items, s + 1), 0)
  }

  function FramesAt(g: Graph, mode: AsyncMode, items: seq<SeqItem>, p: nat): seq<seq<Op>>
    requires p <= |items| && Emittable(g, items)
  {
    if p == 0 then []
    else
      var before := FramesAt(g, mode, items, p - 1);
      if items[p - 1].Basic? then before
      else if IsStart(items[p - 1]) then before + [FrameOf(g, mode, items, p - 1)]
      else if before == [] then []
      else before[..|before| - 1]
  }

  lemma FramesNext(g: Graph, mode: AsyncMode, items: seq<SeqItem>, p: nat)
    requires p < |items| && Emittable(g, items)
    ensures var frames, after := FramesAt(g, mode, items, p), FramesAt(g, mode, items, p + 1);
            && (items[p].Basic? ==> after == frames)
            && (IsStart(items[p]) ==> after == frames + [FrameOf(g, mode, items, p)])
            && (IsEnd(items[p]) && frames != [] ==> after == frames[..|frames| - 1])
    ensures FramesAt(g, mode, items, 0) == []
  {
    hide Emittable, FrameOf;
  }

  function Place<St>(g: Graph, mode: AsyncMode, items: seq<SeqItem>, p: nat, st: St, flag: bool, trace: seq<nat>): Config<St>
    requires p <= |items| && Emittable(g, items)
  {
    At(CodeFrom(g, mode, items, p), FramesAt(g, mode, items, p), st, flag, None, trace)
  }

  /** As many frames as labels. */
  lemma {:induction false} FramesCount(g: Graph, mode: AsyncMode, items: seq<SeqItem>, p: nat)
    requires p <= |items| && Emittable(g, items) && Scan(items).Some?
    ensures Scan(items[..p]).Some? && |FramesAt(g, mode, items, p)| == |Scan(items[..p]).value|
  {
    hide Emittable, FrameOf, FramesAt, Scan;
    if p == 0 {
      EmptyScan(items);
      NoFrames(g, mode, items);
    } else {
      FramesCount(g, mode, items, p - 1);
      FramesNext(g, mode, items, p - 1);
      ScanNext(items, p - 1);
    }
  }

  lemma NoFrames(g: Graph, mode: AsyncMode, items: seq<SeqItem>)
    requires Emittable(g, items)
    ensures FramesAt(g, mode, items, 0) == []
  {
  }

  /** Where an open label was opened. */
  lemma {:induction false} FrameOrigin(g: Graph, mode: AsyncMode, items: seq<SeqItem>, p: nat, x: nat) returns (s: nat)
    requires p <= |items| && Emittable(g, items) && Scan(items).Some? && Scan(items[..p]).Some? && x < |Scan(items[..p]).value|
    requires |FramesAt(g, mode, items, p)| == |Scan(items[..p]).value|
    ensures s < p && IsStart(items[s]) && items[s].bb == Scan(items[..p]).value[x]
    ensures FramesAt(g, mode, items, p)[x] == FrameOf(g, mode, items, s)
    ensures FramesAt(g, mode, items, p)[..x] == FramesAt(g, mode, items, s)
  {
    hide Emittable, FrameOf, FramesAt, Scan;
    if p == 0 {
      EmptyScan(items);
    } else {
      ScanNext(items, p - 1);
      FramesCount(g, mode, items, p - 1);
      FramesNext(g, mode, items, p - 1);
      var open, open' := Scan(items[..p - 1]).value, Scan(items[..p]).value;
      var before, frames := FramesAt(g, mode, items, p - 1), FramesAt(g, mode, items, p);
      if IsStart(items[p - 1]) && x == |open| {
        s := p - 1;
        assert frames[..x] == before;
      } else {
        SameBelow(open, open', x);
        SameBelow(before, frames, x);
        s := FrameOrigin(g, mode, items, p - 1, x);
      }
    }
  }

  lemma SameBelow<T>(s: seq<T>, t: seq<T>, x: nat)
    requires x < |s| && x < |t| && (s == t || s == t[..|t| - 1] || t == s[..|s| - 1])
    ensures s[x] == t[x] && s[..x] == t[..x]
  {
  }

  // ---- Getting to the next basic block.

  /** A start or an end takes one step. */
  lemma MarkStep<St>(g: Graph, mode: AsyncMode, items: seq<SeqItem>, p: nat, m: Machine<St>, st: St, flag: bool, trace: seq<nat>)
    requires Emittable(g, items) && Scan(items).Some? && p < |items| && !items[p].Basic?
    ensures Step(m, Place(g, mode, items, p, st, flag, trace)) == Place(g, mode, items, p + 1, st, flag, trace)
  {
    hide Scan, ItemOk, Emittable, Branch, CodeFrom, FramesAt;
    FramesCount(g, mode, items, p);
    FramesNext(g, mode, items, p);
    ScanNext(items, p);
    MarkCode(g, mode, items, p);
    var code := CodeFrom(g, mode, items, p);
    assert code[1..] == CodeFrom(g, mode, items, p + 1);
  }

  lemma MarkCode(g: Graph, mode: AsyncMode, items: seq<SeqItem>, p: nat)
    requires Emittable(g, items) && p < |items| && !items[p].Basic?
    ensures CodeFrom(g, mode, items, p)
         == [match items[p]
             case StartLoop(b) => LoopOp(b)
             case StartBlock(b) => BlockOp(b)
             case _ => EndOp] + CodeFrom(g, mode, items, p + 1)
  {
    hide Scan, FirstBasic;
  }

  /** Without a basic block in between, control reaches the next one. */
  lemma {:induction false} Falls<St>(g: Graph, mode: AsyncMode, items: seq<SeqItem>, p: nat, q: nat, m: Machine<St>, st: St,
                                     flag: bool, trace: seq<nat>)
    requires Emittable(g, items) && Scan(items).Some? && p <= q <= |items| && forall x :: p <= x < q ==> !items[x].Basic?
    ensures Steps(m, q - p, Place(g, mode, items, p, st, flag, trace)) == Place(g, mode, items, q, st, flag, trace)
    decreases q - p
  {
    hide Emittable, Place, Step;
    if p < q {
      MarkStep(g, mode, items, p, m, st, flag, trace);
      Falls(g, mode, items, p + 1, q, m, st, flag, trace);
    }
  }

  lemma {:induction false} FirstBasicAt(items: seq<SeqItem>, p: nat) returns (q: nat)
    requires p <= |items| && FirstBasic(items[p..]).Some?
    ensures p <= q < |items| && items[q] == Basic(FirstBasic(items[p..]).value) && forall x :: p <= x < q ==> !items[x].Basic?
    decreases |items| - p
  {
    if items[p].Basic? {
      q := p;
    } else {
      assert items[p..][1..] == items[p + 1..];
      q := FirstBasicAt(items, p + 1);
    }
  }

  /** From place p, label l leads behind the `end` at e, with the frames below it. */
  ghost predicate EndsAt(g: Graph, mode: AsyncMode, items: seq<SeqItem>, p: nat, l: nat, e: nat)
    requires Emittable(g, items) && p <= |items|
  {
    && p <= e < |items| && IsEnd(items[e]) && Scan(items[..p]).Some?
    && l < |Scan(items[..p]).value| && l < |FramesAt(g, mode, items, p)|
    && items[e].bb == Scan(items[..p]).value[|Scan(items[..p]).value| - 1 - l]
    && Branch(CodeFrom(g, mode, items, p), l) == CodeFrom(g, mode, items, e + 1)
    && FramesAt(g, mode, items, e + 1) == FramesAt(g, mode, items, p)[..|FramesAt(g, mode, items, p)| - 1 - l]
  }

  lemma EndsHere(g: Graph, mode: AsyncMode, items: seq<SeqItem>, p: nat)
    requires Emittable(g, items) && Scan(items) == Some([]) && p < |items| && IsEnd(items[p])
    ensures EndsAt(g, mode, items, p, 0, p)
  {
    hide Scan, CodeFrom, Branch, Emittable, FrameOf, FramesAt;
    FramesCount(g, mode, items, p);
    FramesNext(g, mode, items, p);
    ScanNext(items, p);
    BranchStep(g, mode, items, p, 0);
  }

  lemma EndsLater(g: Graph, mode: AsyncMode, items: seq<SeqItem>, p: nat, l: nat, l': nat, e: nat)
    requires Emittable(g, items) && Scan(items) == Some([]) && p < |items| && EndsAt(g, mode, items, p + 1, l', e)
    requires if items[p].Basic? then l' == l else if IsStart(items[p]) then l' == l + 1 else l' == l - 1
    requires l < |FramesAt(g, mode, items, p)|
    ensures EndsAt(g, mode, items, p, l, e)
  {
    hide Scan, CodeFrom, Branch, Emittable, FrameOf, FramesAt;
    LabelShifts(items, p, l, l');
    FramesShift(g, mode, items, p, l, l');
    BranchStep(g, mode, items, p, l);
  }

  lemma LabelShifts(items: seq<SeqItem>, p: nat, l: nat, l': nat)
    requires Scan(items) == Some([]) && p < |items|
    requires if items[p].Basic? then l' == l else if IsStart(items[p]) then l' == l + 1 else l' == l - 1
    requires Scan(items[..p + 1]).Some? && l' < |Scan(items[..p + 1]).value|
    ensures Scan(items[..p]).Some? && l < |Scan(items[..p]).value|
    ensures var s, t := Scan(items[..p]).value, Scan(items[..p + 1]).value; s[|s| - 1 - l] == t[|t| - 1 - l']
  {
    hide Scan;
    ScanNext(items, p);
    SameAbove(Scan(items[..p]).value, Scan(items[..p + 1]).value, l, l');
  }

  lemma FramesShift(g: Graph, mode: AsyncMode, items: seq<SeqItem>, p: nat, l: nat, l': nat)
    requires Emittable(g, items) && p < |items| && l < |FramesAt(g, mode, items, p)|
    requires if items[p].Basic? then l' == l else if IsStart(items[p]) then l' == l + 1 else l' == l - 1
    requires l' < |FramesAt(g, mode, items, p + 1)|
    ensures var s, t := FramesAt(g, mode, items, p), FramesAt(g, mode, items, p + 1); s[..|s| - 1 - l] == t[..|t| - 1 - l']
  {
    hide Scan, Emittable, FrameOf, FramesAt;
    FramesNext(g, mode, items, p);
    SameAbove(FramesAt(g, mode, items, p), FramesAt(g, mode, items, p + 1), l, l');
  }

  /** Counted from the top, label l of one stack is label l' of the other. */
  lemma SameAbove<T>(s: seq<T>, t: seq<T>, l: nat, l': nat)
    requires l < |s| && l' < |t| && |t| - l' == |s| - l && (s == t || s == t[..|t| - 1] || t == s[..|s| - 1])
    ensures s[|s| - 1 - l] == t[|t| - 1 - l'] && s[..|s| - 1 - l] == t[..|t| - 1 - l']
  {
  }

  lemma {:induction false} LabelEnds(g: Graph, mode: AsyncMode, items: seq<SeqItem>, p: nat, l: nat) returns (e: nat)
    requires Emittable(g, items) && Scan(items) == Some([]) && p <= |items| && l < |FramesAt(g, mode, items, p)|
    ensures EndsAt(g, mode, items, p, l, e)
    decreases |items| - p
  {
    hide Scan, CodeFrom, Branch, Emittable, FrameOf, EndsAt;
    FramesCount(g, mode, items, p);
    assert items[..|items|] == items;
    if items[p].Basic? {
      e := LabelEnds(g, mode, items, p + 1, l);
      EndsLater(g, mode, items, p, l, l, e);
    } else if IsStart(items[p]) {
      e := LabelEnds(g, mode, items, p + 1, l + 1);
      EndsLater(g, mode, items, p, l, l + 1, e);
    } else if l > 0 {
      e := LabelEnds(g, mode, items, p + 1, l - 1);
      EndsLater(g, mode, items, p, l, l - 1, e);
    } else {
      EndsHere(g, mode, items, p);
      e := p;
    }
  }

  // ---- A jump to an open label.

  lemma HeadPlace(items: seq<SeqItem>, s: nat) returns (q: nat)
    requires s < |items| && items[s].StartLoop? && HeadFollows(items, s)
    ensures s < q < |items| && items[q] == Basic(items[s].bb) && forall x :: s <= x < q ==> !items[x].Basic?
  {
    var m :| s < m < |items| && items[m] == Basic(items[s].bb) && Clear(items, s, m, items[s].bb);
    q := m;
  }

  lemma TargetPlace(items: seq<SeqItem>, e: nat) returns (q: nat)
    requires e < |items| && items[e].EndBlock? && TargetFollows(items, e)
    ensures e < q < |items| && items[q] == Basic(items[e].bb) && forall x :: e + 1 <= x < q ==> !items[x].Basic?
  {
    q :| e < q < |items| && items[q] == Basic(items[e].bb) && forall x :: e < x < q ==> !items[x].Basic?;
  }

  /** Jumping to the label of w gets to block w. */
  lemma JumpArrives<St>(g: Graph, mode: AsyncMode, items: seq<SeqItem>, i: nat, w: nat, c: Config<St>, m: Machine<St>)
    returns (n: nat, q: nat)
    requires Runnable(g, items) && i < |items| && LabelFor(items[..i], w).Some?
    requires c.At? && c.frames == FramesAt(g, mode, items, i) && c.handle == None
    ensures q < |items| && items[q] == Basic(w)
    ensures Steps(m, n, Jump(c, LabelFor(items[..i], w).value)) == Place(g, mode, items, q, c.st, c.flag, c.trace)
  {
    hide Scan, LabelFor, CodeFrom, Emittable, FrameOf, FramesAt, Step, Steps, HeadFollows, TargetFollows, Complete;
    FramesCount(g, mode, items, i);
    LabelIsOpen(items[..i], w);
    var open := Scan(items[..i]).value;
    var l := LabelOf(open, w);
    var s := FrameOrigin(g, mode, items, i, |open| - 1 - l);
    var p := FrameCode(g, mode, items, s);
    assert Jump(c, l) == Place(g, mode, items, p, c.st, c.flag, c.trace);
    q := FramePlace(g, mode, items, s, p);
    n := q - p;
    Falls(g, mode, items, p, q, m, c.st, c.flag, c.trace);
  }

  /** Where the code of a label starts: at its loop, or behind its block. */
  lemma FrameCode(g: Graph, mode: AsyncMode, items: seq<SeqItem>, s: nat) returns (p: nat)
    requires Emittable(g, items) && Scan(items) == Some([]) && s < |items| && IsStart(items[s])
    ensures p <= |items| && FrameOf(g, mode, items, s) == CodeFrom(g, mode, items, p)
    ensures FramesAt(g, mode, items, p) == FramesAt(g, mode, items, s)
    ensures if items[s].StartLoop? then p == s else 0 < p && s < p - 1 && IsEnd(items[p - 1]) && items[p - 1].bb == items[s].bb
  {
    hide Scan, CodeFrom, Emittable, Branch;
    if items[s].StartLoop? {
      p := s;
    } else {
      var frames := FramesAt(g, mode, items, s);
      assert FramesAt(g, mode, items, s + 1) == frames + [FrameOf(g, mode, items, s)];
      var e := LabelEnds(g, mode, items, s + 1, 0);
      ScanNext(items, s);
      FramesCount(g, mode, items, s);
      p := e + 1;
    }
  }

  lemma FramePlace(g: Graph, mode: AsyncMode, items: seq<SeqItem>, s: nat, p: nat) returns (q: nat)
    requires Runnable(g, items) && s < |items| && IsStart(items[s]) && p <= |items|
    requires if items[s].StartLoop? then p == s else 0 < p && s < p - 1 && IsEnd(items[p - 1]) && items[p - 1].bb == items[s].bb
    ensures p <= q < |items| && items[q] == Basic(items[s].bb) && forall x :: p <= x < q ==> !items[x].Basic?
  {
    hide Scan, Emittable, HeadFollows, TargetFollows, Complete;
    if items[s].StartLoop? {
      q := HeadPlace(items, s);
    } else {
      assert items[p - 1].EndBlock?;
      q := TargetPlace(items, p - 1);
    }
  }

  // ---- One block and its exit.

  /** The block that an exit leads to, if it stays in the function. */
  function LeadsTo(out: Out, flag: bool): Option<nat> {
    match out
    case Next(n) => Some(n)
    case If(f, t) => Some(if flag then t else f)
    case _ => None
  }

  /** How the others leave it. */
  function LeavesBy(out: Out, mode: AsyncMode): Exit {
    match out
    case ReturnCall(func) => ExitCall(func)
    case Unreachable => ExitTrap
    case _ => ExitReturn(if mode.AsyncStart? then Some(mode.resourceLocal) else None)
  }

  /** The place before the exit of block i, with the exit's code still to run. */
  predicate AtExit<St(==)>(g: Graph, mode: AsyncMode, items: seq<SeqItem>, i: nat, ops: seq<Op>, c: Config<St>)
    requires Emittable(g, items) && i < |items|
  {
    c.At? && c.code == ops + CodeFrom(g, mode, items, i + 1) && c.frames == FramesAt(g, mode, items, i) && c.handle == None
  }

  lemma BasicFrames(g: Graph, mode: AsyncMode, items: seq<SeqItem>, i: nat)
    requires Emittable(g, items) && i < |items| && items[i].Basic?
    ensures FramesAt(g, mode, items, i + 1) == FramesAt(g, mode, items, i)
  {
  }

  /** Falling through to the next block. */
  lemma NextArrives<St>(g: Graph, mode: AsyncMode, items: seq<SeqItem>, i: nat, w: nat, c: Config<St>, m: Machine<St>)
    returns (n: nat, q: nat)
    requires Emittable(g, items) && Scan(items).Some? && i < |items| && items[i].Basic?
    requires FirstBasic(items[i + 1..]) == Some(w)
    requires AtExit(g, mode, items, i, [], c)
    ensures q < |items| && items[q] == Basic(w)
    ensures Steps(m, n, c) == Place(g, mode, items, q, c.st, c.flag, c.trace)
  {
    hide Emittable, CodeFrom, FramesAt, Step, Steps, FirstBasic;
    BasicFrames(g, mode, items, i);
    q := FirstBasicAt(items, i + 1);
    n := q - (i + 1);
    assert [] + CodeFrom(g, mode, items, i + 1) == CodeFrom(g, mode, items, i + 1);
    Falls(g, mode, items, i + 1, q, m, c.st, c.flag, c.trace);
  }

  /** Jumping takes one step, and then some. */
  lemma BrArrives<St>(g: Graph, mode: AsyncMode, items: seq<SeqItem>, i: nat, w: nat, c: Config<St>, m: Machine<St>)
    returns (n: nat, q: nat)
    requires Runnable(g, items) && i < |items| && items[i].Basic?
    requires LabelFor(items[..i], w).Some? && c.At? && c.code != []
    requires c.code[0] == Br(LabelFor(items[..i], w).value) || (c.flag && c.code[0] == BrIf(LabelFor(items[..i], w).value))
    requires c.frames == FramesAt(g, mode, items, i) && c.handle == None
    ensures q < |items| && items[q] == Basic(w)
    ensures Steps(m, n, c) == Place(g, mode, items, q, c.st, c.flag, c.trace)
  {
    hide Runnable, LabelFor, FramesAt, Emittable, CodeFrom;
    var n', q' := JumpArrives(g, mode, items, i, w, c, m);
    n, q := n' + 1, q';
  }

  /** A branch that is not taken leads to the code behind it. */
  lemma BrIfPasses<St>(g: Graph, mode: AsyncMode, items: seq<SeqItem>, i: nat, l: nat, ops: seq<Op>, c: Config<St>, m: Machine<St>)
    requires Emittable(g, items) && i < |items| && AtExit(g, mode, items, i, [BrIf(l)] + ops, c) && !c.flag
    ensures AtExit(g, mode, items, i, ops, Step(m, c)) && Step(m, c) == c.(code := ops + CodeFrom(g, mode, items, i + 1))
  {
    hide Emittable, CodeFrom, FramesAt;
    assert c.code[1..] == ops + CodeFrom(g, mode, items, i + 1);
  }

  lemma EqzFlips<St>(g: Graph, mode: AsyncMode, items: seq<SeqItem>, i: nat, ops: seq<Op>, c: Config<St>, m: Machine<St>)
    requires Emittable(g, items) && i < |items| && AtExit(g, mode, items, i, [Eqz] + ops, c)
    ensures AtExit(g, mode, items, i, ops, Step(m, c))
    ensures Step(m, c) == c.(code := ops + CodeFrom(g, mode, items, i + 1), flag := !c.flag)
  {
    hide Emittable, CodeFrom, FramesAt;
    assert c.code[1..] == ops + CodeFrom(g, mode, items, i + 1);
  }

  /** The exit of a block that goes on. */
  ghost predicate Arrives<St>(g: Graph, mode: AsyncMode, items: seq<SeqItem>, m: Machine<St>, c: Config<St>, w: nat, n: nat, q: nat,
                              flag: bool)
    requires Emittable(g, items) && c.At?
  {
    q < |items| && items[q] == Basic(w) && Steps(m, n, c) == Place(g, mode, items, q, c.st, flag, c.trace)
  }

  lemma NextExit<St>(g: Graph, mode: AsyncMode, items: seq<SeqItem>, i: nat, c: Config<St>, m: Machine<St>)
    returns (n: nat, q: nat, flag: bool)
    requires Runnable(g, items) && i < |items| && items[i].Basic? && ItemOk(g, items, i) && g[items[i].bb].Next?
    requires AtExit(g, mode, items, i, ExitOps(g[items[i].bb], mode, FirstBasic(items[i + 1..]), i + 1 == |items|, items[..i]), c)
    ensures Arrives(g, mode, items, m, c, g[items[i].bb].bb, n, q, flag)
  {
    hide Runnable, FirstBasic, LabelFor, Emittable, FramesAt, CodeFrom, Steps, Step;
    var w := g[items[i].bb].bb;
    flag := c.flag;
    RunnableEmits(g, items);
    if FirstBasic(items[i + 1..]) == Some(w) {
      n, q := NextArrives(g, mode, items, i, w, c, m);
    } else {
      n, q := BrArrives(g, mode, items, i, w, c, m);
    }
  }

  lemma RunnableEmits(g: Graph, items: seq<SeqItem>)
    requires Runnable(g, items)
    ensures Emittable(g, items) && Scan(items) == Some([]) && Complete(g)
  {
  }

  lemma IfExit<St>(g: Graph, mode: AsyncMode, items: seq<SeqItem>, i: nat, f: nat, t: nat, c: Config<St>, m: Machine<St>)
    returns (n: nat, q: nat, flag: bool)
    requires Runnable(g, items) && i < |items| && items[i].Basic? && ItemOk(g, items, i) && g[items[i].bb] == If(f, t)
    requires AtExit(g, mode, items, i, ExitOps(g[items[i].bb], mode, FirstBasic(items[i + 1..]), i + 1 == |items|, items[..i]), c)
    ensures Arrives(g, mode, items, m, c, if c.flag then t else f, n, q, flag)
  {
    hide Runnable, FirstBasic, LabelFor, Emittable, FramesAt, CodeFrom, Steps, Step;
    RunnableEmits(g, items);
    if FirstBasic(items[i + 1..]) == Some(f) {
      n, q, flag := IfFalseNext(g, mode, items, i, f, t, c, m);
    } else if FirstBasic(items[i + 1..]) == Some(t) {
      n, q, flag := IfTrueNext(g, mode, items, i, f, t, c, m);
    } else {
      n, q, flag := IfNoneNext(g, mode, items, i, f, t, c, m);
    }
  }

  lemma IfFalseNext<St>(g: Graph, mode: AsyncMode, items: seq<SeqItem>, i: nat, f: nat, t: nat, c: Config<St>, m: Machine<St>)
    returns (n: nat, q: nat, flag: bool)
    requires Runnable(g, items) && i < |items| && items[i].Basic? && FirstBasic(items[i + 1..]) == Some(f)
    requires LabelFor(items[..i], t).Some?
    requires AtExit(g, mode, items, i, [BrIf(LabelFor(items[..i], t).value)], c)
    ensures Arrives(g, mode, items, m, c, if c.flag then t else f, n, q, flag)
  {
    hide Runnable, FirstBasic, LabelFor, Emittable, FramesAt, CodeFrom, Step;
    var l := LabelFor(items[..i], t).value;
    flag := c.flag;
    RunnableEmits(g, items);
    if c.flag {
      n, q := BrArrives(g, mode, items, i, t, c, m);
    } else {
      assert [BrIf(l)] + [] == [BrIf(l)];
      BrIfPasses(g, mode, items, i, l, [], c, m);
      var n', q' := NextArrives(g, mode, items, i, f, Step(m, c), m);
      n, q := n' + 1, q';
    }
  }

  lemma IfTrueNext<St>(g: Graph, mode: AsyncMode, items: seq<SeqItem>, i: nat, f: nat, t: nat, c: Config<St>, m: Machine<St>)
    returns (n: nat, q: nat, flag: bool)
    requires Runnable(g, items) && i < |items| && items[i].Basic? && FirstBasic(items[i + 1..]) == Some(t)
    requires LabelFor(items[..i], f).Some?
    requires AtExit(g, mode, items, i, [Eqz, BrIf(LabelFor(items[..i], f).value)], c)
    ensures Arrives(g, mode, items, m, c, if c.flag then t else f, n, q, flag)
  {
    hide Runnable, FirstBasic, LabelFor, Emittable, FramesAt, CodeFrom, Step;
    var l := LabelFor(items[..i], f).value;
    RunnableEmits(g, items);
    assert [Eqz, BrIf(l)] == [Eqz] + [BrIf(l)];
    EqzFlips(g, mode, items, i, [BrIf(l)], c, m);
    var n', q', flag' := IfFalseNext(g, mode, items, i, t, f, Step(m, c), m);
    n, q, flag := n' + 1, q', flag';
  }

  lemma IfNoneNext<St>(g: Graph, mode: AsyncMode, items: seq<SeqItem>, i: nat, f: nat, t: nat, c: Config<St>, m: Machine<St>)
    returns (n: nat, q: nat, flag: bool)
    requires Runnable(g, items) && i < |items| && items[i].Basic?
    requires LabelFor(items[..i], t).Some? && LabelFor(items[..i], f).Some?
    requires AtExit(g, mode, items, i, [BrIf(LabelFor(items[..i], t).value), Br(LabelFor(items[..i], f).value)], c)
    ensures Arrives(g, mode, items, m, c, if c.flag then t else f, n, q, flag)
  {
    hide Runnable, FirstBasic, LabelFor, Emittable, FramesAt, CodeFrom, Step;
    var l, k := LabelFor(items[..i], t).value, LabelFor(items[..i], f).value;
    flag := c.flag;
    RunnableEmits(g, items);
    if c.flag {
      n, q := BrArrives(g, mode, items, i, t, c, m);
    } else {
      assert [BrIf(l), Br(k)] == [BrIf(l)] + [Br(k)];
      BrIfPasses(g, mode, items, i, l, [Br(k)], c, m);
      var n', q' := BrArrives(g, mode, items, i, f, Step(m, c), m);
      n, q := n' + 1, q';
    }
  }

  /** The exit of a block that leaves the function. */
  lemma LeaveExit<St>(g: Graph, mode: AsyncMode, items: seq<SeqItem>, i: nat, c: Config<St>, m: Machine<St>) returns (n: nat)
    requires Runnable(g, items) && i < |items| && items[i].Basic? && ItemOk(g, items, i) && Successors(g[items[i].bb]) == []
    requires AtExit(g, mode, items, i, ExitOps(g[items[i].bb], mode, FirstBasic(items[i + 1..]), i + 1 == |items|, items[..i]), c)
    ensures Steps(m, n, c) == Ended(Run(c.trace, c.st, LeavesBy(g[items[i].bb], mode)))
  {
    hide Runnable, FirstBasic, LabelFor, Emittable, FramesAt, CodeFrom;
    RunnableEmits(g, items);
    var out, rest := g[items[i].bb], CodeFrom(g, mode, items, i + 1);
    if out.ReturnCall? || out.Unreachable? {
      n := 1;
      assert Steps(m, 1, c) == Steps(m, 0, Step(m, c));
    } else {
      TailFrames(g, mode, items, i);
      hide Step, Steps;
      n := ReturnEnds(c, mode, i + 1 == |items|, rest, m);
    }
  }

  lemma ReturnEnds<St>(c: Config<St>, mode: AsyncMode, last: bool, rest: seq<Op>, m: Machine<St>) returns (n: nat)
    requires c.At? && c.handle == None && (last ==> rest == [EndOp] && c.frames == [])
    requires c.code == (if mode.AsyncStart? then [LocalGetOp(mode.resourceLocal)] else [])
                       + (if last then [] else [ReturnOp]) + rest
    ensures Steps(m, n, c) == Ended(Run(c.trace, c.st, ExitReturn(if mode.AsyncStart? then Some(mode.resourceLocal) else None)))
  {
    var tail := if last then [] else [ReturnOp];
    if mode.AsyncStart? {
      assert c.code[1..] == tail + rest;
      TailEnds(c.(code := tail + rest, handle := Some(mode.resourceLocal)), last, rest, m);
      OneFirst(m, 1, c);
      n := 2;
    } else {
      assert c.code == tail + rest;
      TailEnds(c, last, rest, m);
      n := 1;
    }
  }

  /** At the very end nothing is open, and only the function's own `end` is left. */
  lemma TailFrames(g: Graph, mode: AsyncMode, items: seq<SeqItem>, i: nat)
    requires Emittable(g, items) && Scan(items) == Some([]) && i < |items| && items[i].Basic?
    ensures i + 1 == |items| ==> FramesAt(g, mode, items, i) == [] && CodeFrom(g, mode, items, i + 1) == [EndOp]
  {
    hide Scan, FirstBasic, Emittable;
    if i + 1 == |items| {
      FramesCount(g, mode, items, i + 1);
      assert items[..i + 1] == items;
      BasicFrames(g, mode, items, i);
    }
  }

  lemma TailEnds<St>(c: Config<St>, last: bool, rest: seq<Op>, m: Machine<St>)
    requires c.At? && c.code == (if last then [] else [ReturnOp]) + rest && (last ==> rest == [EndOp] && c.frames == [])
    ensures Steps(m, 1, c) == Ended(Run(c.trace, c.st, ExitReturn(c.handle)))
  {
    assert last ==> c.code == [EndOp];
    assert Steps(m, 1, c) == Steps(m, 0, Step(m, c));
  }

  /** From the place of a block, running that block's code and its exit gets to the
      place of the block that the graph goes to, or leaves the function as it does. */
  lemma Visits<St>(g: Graph, mode: AsyncMode, items: seq<SeqItem>, i: nat, m: Machine<St>, st: St, flag: bool, trace: seq<nat>)
    returns (n: nat, q: nat, flag': bool)
    requires Runnable(g, items) && i < |items| && items[i].Basic?
    ensures n >= 1 && items[i].bb < |g| && Emittable(g, items) && (items[i].bb < |g| ==> !g[items[i].bb].NoOut?)
    ensures var b := items[i].bb; var st' := m.step(b, st); var after := Steps(m, n, Place(g, mode, items, i, st, flag, trace));
            match LeadsTo(g[b], m.cond(st'))
            case Some(w) =>
              q < |items| && items[q] == Basic(w) && after == Place(g, mode, items, q, st', flag', trace + [b])
            case None => after == Ended(Run(trace + [b], st', LeavesBy(g[b], mode)))
  {
    hide Runnable, FirstBasic, LabelFor, FramesAt, ExitOps, Steps, Emittable, ItemOk, CodeFrom, Step, AtExit;
    RunnableEmits(g, items);
    BlockEmits(g, items, i);
    var b := items[i].bb;
    var c := BodySteps(g, mode, items, i, m, st, flag, trace);
    q, flag' := 0, false;
    if g[b].Next? {
      n, q, flag' := NextExit(g, mode, items, i, c, m);
    } else if g[b].If? {
      n, q, flag' := IfExit(g, mode, items, i, g[b].f, g[b].t, c, m);
    } else {
      n := LeaveExit(g, mode, items, i, c, m);
    }
    OneFirst(m, n, Place(g, mode, items, i, st, flag, trace));
    n := n + 1;
  }

  lemma BlockEmits(g: Graph, items: seq<SeqItem>, i: nat)
    requires Emittable(g, items) && i < |items| && items[i].Basic?
    ensures ItemOk(g, items, i) && items[i].bb < |g| && !g[items[i].bb].NoOut?
  {
    hide FirstBasic, LabelFor, CanPop;
    assert ItemOk(g, items, i);
  }

  lemma OneFirst<St>(m: Machine<St>, n: nat, c: Config<St>)
    ensures Steps(m, n + 1, c) == Steps(m, n, Step(m, c))
  {
  }

  /** Running the block's own code. */
  lemma BodySteps<St>(g: Graph, mode: AsyncMode, items: seq<SeqItem>, i: nat, m: Machine<St>, st: St, flag: bool, trace: seq<nat>)
    returns (c: Config<St>)
    requires Emittable(g, items) && i < |items| && items[i].Basic? && ItemOk(g, items, i)
    ensures c == Step(m, Place(g, mode, items, i, st, flag, trace)) && c.At?
    ensures c.st == m.step(items[i].bb, st) && c.flag == m.cond(c.st) && c.trace == trace + [items[i].bb]
    ensures AtExit(g, mode, items, i, ExitOps(g[items[i].bb], mode, FirstBasic(items[i + 1..]), i + 1 == |items|, items[..i]), c)
  {
    hide Emittable, Scan, FirstBasic, FramesAt, ExitOps, ExitOk, CodeFrom;
    var exit := ExitOps(g[items[i].bb], mode, FirstBasic(items[i + 1..]), i + 1 == |items|, items[..i]);
    BodyCode(g, mode, items, i);
    c := Step(m, Place(g, mode, items, i, st, flag, trace));
    BodyStep(m, items[i].bb, exit + CodeFrom(g, mode, items, i + 1), Place(g, mode, items, i, st, flag, trace));
  }

  lemma BodyCode(g: Graph, mode: AsyncMode, items: seq<SeqItem>, i: nat)
    requires Emittable(g, items) && i < |items| && items[i].Basic? && ItemOk(g, items, i)
    ensures CodeFrom(g, mode, items, i)
         == [Body(items[i].bb)] + (ExitOps(g[items[i].bb], mode, FirstBasic(items[i + 1..]), i + 1 == |items|, items[..i])
                                   + CodeFrom(g, mode, items, i + 1))
  {
    hide Emittable, Scan, FirstBasic, ExitOps, ExitOk;
    var exit := ExitOps(g[items[i].bb], mode, FirstBasic(items[i + 1..]), i + 1 == |items|, items[..i]);
    var rest := CodeFrom(g, mode, items, i + 1);
    assert [Body(items[i].bb)] + exit + rest == [Body(items[i].bb)] + (exit + rest);
  }

  lemma BodyStep<St>(m: Machine<St>, b: nat, rest: seq<Op>, c: Config<St>)
    requires c.At? && c.code == [Body(b)] + rest
    ensures Step(m, c) == c.(code := rest, st := m.step(b, c.st), flag := m.cond(m.step(b, c.st)), trace := c.trace + [b])
  {
    assert c.code[1..] == rest;
  }

  // ---- Whole runs.

  /** A finished run of the graph is a finished run of the code. */
  lemma {:induction false} CodeFinishes<St>(g: Graph, mode: AsyncMode, items: seq<SeqItem>, i: nat, m: Machine<St>, st: St,
                                            flag: bool, trace: seq<nat>, r: Run<St>) returns (n: nat)
    requires Runnable(g, items) && i < |items| && items[i].Basic? && IsRun(g, mode, m, items[i].bb, st, r)
    ensures Emittable(g, items)
    ensures Steps(m, n, Place(g, mode, items, i, st, flag, trace)) == Ended(r.(trace := trace + r.trace))
    decreases |r.trace|
  {
    hide Runnable, Emittable, Place, Steps;
    var k, q, flag' := Visits(g, mode, items, i, m, st, flag, trace);
    var b, st' := items[i].bb, m.step(items[i].bb, st);
    var rest := r.(trace := r.trace[1..]);
    assert r.trace == [b] + rest.trace;
    assert (trace + [b]) + rest.trace == trace + r.trace;
    if LeadsTo(g[b], m.cond(st')).Some? {
      var n' := CodeFinishes(g, mode, items, q, m, st', flag', trace + [b], rest);
      n := k + n';
      StepsAdd(m, k, n', Place(g, mode, items, i, st, flag, trace));
    } else {
      n := k;
    }
  }

  /** And the other way round. */
  lemma {:induction false} GraphFinishes<St>(g: Graph, mode: AsyncMode, items: seq<SeqItem>, i: nat, m: Machine<St>, st: St,
                                             flag: bool, trace: seq<nat>, n: nat, r: Run<St>) returns (r': Run<St>)
    requires Runnable(g, items) && i < |items| && items[i].Basic? && Emittable(g, items)
    requires Steps(m, n, Place(g, mode, items, i, st, flag, trace)) == Ended(r)
    ensures IsRun(g, mode, m, items[i].bb, st, r') && r == r'.(trace := trace + r'.trace)
    decreases n
  {
    hide Runnable, Emittable, Steps, Step, IsRun, LeavesBy, LeadsTo, CodeFrom, FramesAt;
    var k, q, flag' := Visits(g, mode, items, i, m, st, flag, trace);
    var b, st' := items[i].bb, m.step(items[i].bb, st);
    var start := Place(g, mode, items, i, st, flag, trace);
    if LeadsTo(g[b], m.cond(st')).Some? {
      EndsAfter(m, start, n, k, r);
      var rest := GraphFinishes(g, mode, items, q, m, st', flag', trace + [b], n - k, r);
      r' := rest.(trace := [b] + rest.trace);
      IsRunGoes(g, mode, m, b, st, items[q].bb, rest);
      assert (trace + [b]) + rest.trace == trace + r'.trace;
    } else {
      var last := Run(trace + [b], st', LeavesBy(g[b], mode));
      EndedLater(m, start, n, n + k, r);
      EndedLater(m, start, k, n + k, last);
      r' := Run([b], st', LeavesBy(g[b], mode));
      IsRunLeaves(g, mode, m, b, st);
    }
  }

  /** A run that is not over after k steps has at least k. */
  lemma EndsAfter<St>(m: Machine<St>, c: Config<St>, n: nat, k: nat, r: Run<St>)
    requires Steps(m, n, c) == Ended(r) && Steps(m, k, c).At?
    ensures k <= n && Steps(m, n - k, Steps(m, k, c)) == Ended(r)
  {
    if n < k {
      EndedLater(m, c, n, k, r);
    } else {
      StepsAdd(m, k, n - k, c);
    }
  }

  lemma IsRunGoes<St>(g: Graph, mode: AsyncMode, m: Machine<St>, b: nat, st: St, w: nat, rest: Run<St>)
    requires b < |g| && LeadsTo(g[b], m.cond(m.step(b, st))) == Some(w) && IsRun(g, mode, m, w, m.step(b, st), rest)
    ensures IsRun(g, mode, m, b, st, rest.(trace := [b] + rest.trace))
  {
    var r := rest.(trace := [b] + rest.trace);
    assert r.trace[1..] == rest.trace;
    assert r.(trace := r.trace[1..]) == rest;
  }

  lemma IsRunLeaves<St>(g: Graph, mode: AsyncMode, m: Machine<St>, b: nat, st: St)
    requires b < |g| && LeadsTo(g[b], m.cond(m.step(b, st))).None? && !g[b].NoOut?
    ensures IsRun(g, mode, m, b, st, Run([b], m.step(b, st), LeavesBy(g[b], mode)))
  {
    assert [b][1..] == [];
  }

  lemma EndedLater<St>(m: Machine<St>, c: Config<St>, n: nat, k: nat, r: Run<St>)
    requires n <= k && Steps(m, n, c) == Ended(r)
    ensures Steps(m, k, c) == Ended(r)
  {
    StepsAdd(m, n, k - n, c);
    EndedStays(m, k - n, r);
  }

  /** The code of a function, entered from outside. */
  function Entered<St>(code: seq<Op>, st: St): Config<St> {
    At(code, [], st, false, None, [])
  }

  /** The code finishes with run r. */
  ghost predicate CodeEnds<St>(m: Machine<St>, code: seq<Op>, st: St, r: Run<St>) {
    exists n :: Steps(m, n, Entered(code, st)) == Ended(r)
  }

  /** At some moment the code has visited just these blocks. */
  ghost predicate CodeVisits<St>(m: Machine<St>, code: seq<Op>, st: St, trace: seq<nat>) {
    exists k :: TraceOf(Steps(m, k, Entered(code, st))) == trace
  }

  lemma EntryPlace<St>(g: Graph, mode: AsyncMode, items: seq<SeqItem>, entry: nat, m: Machine<St>, st: St) returns (q: nat)
    requires Runnable(g, items) && FirstBasic(items) == Some(entry)
    ensures Emittable(g, items) && q < |items| && items[q] == Basic(entry)
    ensures Steps(m, q, Entered(CodeFrom(g, mode, items, 0), st)) == Place(g, mode, items, q, st, false, [])
  {
    hide Runnable, Emittable, CodeFrom, Steps, Step, FirstBasic;
    RunnableEmits(g, items);
    assert items[0..] == items;
    q := FirstBasicAt(items, 0);
    Falls(g, mode, items, 0, q, m, st, false, []);
  }

  /** The code's finished runs are exactly the graph's. */
  lemma CodeRunsAsGraph<St>(g: Graph, mode: AsyncMode, items: seq<SeqItem>, entry: nat, m: Machine<St>, st: St, r: Run<St>)
    requires Runnable(g, items) && FirstBasic(items) == Some(entry)
    ensures Emittable(g, items)
    ensures IsRun(g, mode, m, entry, st, r) <==> CodeEnds(m, CodeFrom(g, mode, items, 0), st, r)
  {
    hide Runnable, Emittable, CodeFrom, Steps, Step, FirstBasic, IsRun, Place;
    var q := EntryPlace(g, mode, items, entry, m, st);
    var start := Entered(CodeFrom(g, mode, items, 0), st);
    if IsRun(g, mode, m, entry, st, r) {
      var n := CodeFinishes(g, mode, items, q, m, st, false, [], r);
      StepsAdd(m, q, n, start);
      assert r.(trace := [] + r.trace) == r;
    }
    if n :| Steps(m, n, start) == Ended(r) {
      EndedLater(m, start, n, q + n, r);
      StepsAdd(m, q, n, start);
      var r' := GraphFinishes(g, mode, items, q, m, st, false, [], n, r);
      assert r'.(trace := [] + r'.trace) == r';
    }
  }

  /** The first n blocks that the graph visits from b. */
  function GraphTrace<St>(g: Graph, m: Machine<St>, b: nat, st: St, n: nat): seq<nat>
    decreases n
  {
    if n == 0 || b >= |g| then []
    else
      var st' := m.step(b, st);
      [b] + match LeadsTo(g[b], m.cond(st'))
            case Some(w) => GraphTrace(g, m, w, st', n - 1)
            case None => []
  }

  function TraceOf<St>(c: Config<St>): seq<nat> {
    if c.At? then c.trace else c.run.trace
  }

  lemma {:induction false} TraceFrom<St>(g: Graph, mode: AsyncMode, items: seq<SeqItem>, i: nat, m: Machine<St>, st: St,
                                         flag: bool, trace: seq<nat>, n: nat) returns (k: nat)
    requires Runnable(g, items) && i < |items| && items[i].Basic?
    ensures Emittable(g, items)
    ensures TraceOf(Steps(m, k, Place(g, mode, items, i, st, flag, trace))) == trace + GraphTrace(g, m, items[i].bb, st, n)
    decreases n
  {
    hide Runnable, Emittable, Step, Steps, CodeFrom, FramesAt, GraphTrace, LeadsTo, LeavesBy;
    RunnableEmits(g, items);
    if n == 0 {
      k := 0;
      NoTrace(g, m, items[i].bb, st, Place(g, mode, items, i, st, flag, trace));
    } else {
      var k', q, flag' := Visits(g, mode, items, i, m, st, flag, trace);
      var b, st' := items[i].bb, m.step(items[i].bb, st);
      k := k';
      GraphTraceStep(g, m, b, st, n, trace);
      if LeadsTo(g[b], m.cond(st')).Some? {
        var k'' := TraceFrom(g, mode, items, q, m, st', flag', trace + [b], n - 1);
        StepsAdd(m, k', k'', Place(g, mode, items, i, st, flag, trace));
        k := k' + k'';
      }
    }
  }

  lemma NoTrace<St>(g: Graph, m: Machine<St>, b: nat, st: St, c: Config<St>)
    requires c.At?
    ensures TraceOf(Steps(m, 0, c)) == c.trace + GraphTrace(g, m, b, st, 0)
  {
  }

  lemma GraphTraceStep<St>(g: Graph, m: Machine<St>, b: nat, st: St, n: nat, trace: seq<nat>)
    requires n > 0 && b < |g|
    ensures trace + GraphTrace(g, m, b, st, n)
         == match LeadsTo(g[b], m.cond(m.step(b, st)))
            case Some(w) => (trace + [b]) + GraphTrace(g, m, w, m.step(b, st), n - 1)
            case None => trace + [b]
  {
    var next := LeadsTo(g[b], m.cond(m.step(b, st)));
    if next.Some? {
      var rest := GraphTrace(g, m, next.value, m.step(b, st), n - 1);
      assert trace + ([b] + rest) == (trace + [b]) + rest;
    } else {
      assert [b] + [] == [b];
    }
  }

  /** Finished or not, the code visits the blocks that the graph visits. */
  lemma CodeTraces<St>(g: Graph, mode: AsyncMode, items: seq<SeqItem>, entry: nat, m: Machine<St>, st: St, n: nat)
    requires Runnable(g, items) && FirstBasic(items) == Some(entry)
    ensures Emittable(g, items)
    ensures CodeVisits(m, CodeFrom(g, mode, items, 0), st, GraphTrace(g, m, entry, st, n))
  {
    hide Runnable, Emittable, CodeFrom, Steps, Step, FirstBasic, Place, GraphTrace;
    var q := EntryPlace(g, mode, items, entry, m, st);
    var start := Entered(CodeFrom(g, mode, items, 0), st);
    var k := TraceFrom(g, mode, items, q, m, st, false, [], n);
    StepsAdd(m, q, k, start);
    assert [] + GraphTrace(g, m, entry, st, n) == GraphTrace(g, m, entry, st, n);
    assert TraceOf(Steps(m, q + k, start)) == GraphTrace(g, m, entry, st, n);
  }
}
