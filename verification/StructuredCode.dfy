/** The structured code that `stackifier.rs` emits for a placed sequence, what
    running it does, and what running the graph does. */
module StructuredCode {
  import opened Options
  import opened ControlFlow
  import opened Linear
  import opened BlockInsertion

  /** How the function is entered and left: an async start returns its resource. */
  datatype AsyncMode = Sync | AsyncStart(resourceLocal: nat) | AsyncContinuation

  /** The emitted code, each basic block's own instructions as one unit. */
  datatype Op =
    | Body(bb: nat)
    | BlockOp(bb: nat)
    | LoopOp(bb: nat)
    | EndOp
    | Br(depth: nat)
    | BrIf(depth: nat)
    | Eqz
    | ReturnOp
    | ReturnCallOp(func: nat)
    | UnreachableOp
    | LocalGetOp(local: nat)

  // ---- Labels.

  /** The labels open after a stretch, outermost first, if its ends match. */
  function Scan(items: seq<SeqItem>): Option<seq<nat>> {
    if items == [] then Some([])
    else
      var before := Scan(items[..|items| - 1]);
      var x := items[|items| - 1];
      if before.None? || x.Basic? then before
      else if IsStart(x) then Some(before.value + [x.bb])
      else if before.value != [] && before.value[|before.value| - 1] == x.bb
      then Some(before.value[..|before.value| - 1])
      else None
  }

  /** The branch label that means b: how many open labels are inside its innermost one. */
  function LabelOf(open: seq<nat>, b: nat): (l: nat)
    requires b in open
    ensures l < |open| && open[|open| - 1 - l] == b
    ensures forall q :: |open| - 1 - l < q < |open| ==> open[q] != b
  {
    var n := |open| - 1;
    if open[n] == b then 0 else
    assert open == open[..n] + [open[n]];
    1 + LabelOf(open[..n], b)
  }

  /** What the tracker keeps for b after a stretch: the one-based depths at which its
      labels were opened, but for as many of the last as have been closed since. */
  function Tracked(items: seq<SeqItem>, b: nat): seq<int> {
    if items == [] then []
    else
      var n := |items| - 1;
      var before, x := Tracked(items[..n], b), items[n];
      if x.Basic? || x.bb != b then before
      else if IsStart(x) then before + [Depth(items[..n]) + 1]
      else if before == [] then [] else before[..|before| - 1]
  }

  /** The label that the tracker gives for b after a stretch; None where the original
      finds none or subtracts below zero. */
  function LabelFor(items: seq<SeqItem>, b: nat): (l: Option<nat>) {
    var places := Tracked(items, b);
    if places == [] || places[|places| - 1] > Depth(items) then None
    else Some(Depth(items) - places[|places| - 1])
  }

  /** Whether the tracker can close a label of b; the original panics if it cannot. */
  predicate CanPop(items: seq<SeqItem>, b: nat) {
    Tracked(items, b) != [] && Depth(items) > 0
  }

  lemma TrackedSnoc(items: seq<SeqItem>, x: SeqItem, b: nat)
    ensures Depth(items + [x]) == Depth(items) + Delta(x)
    ensures var before := Tracked(items, b);
            Tracked(items + [x], b) == if x.Basic? || x.bb != b then before
                                       else if IsStart(x) then before + [Depth(items) + 1]
                                       else if before == [] then [] else before[..|before| - 1]
  {
    assert (items + [x])[..|items|] == items;
  }

  /** Relative branch depths, kept incrementally while the sequence is emitted. */
  class DepthTracker {
    var depth: nat
    var places: map<nat, seq<nat>>
    ghost var seen: seq<SeqItem>

    ghost predicate Valid()
      reads this
    {
      depth == Depth(seen) && forall b :: Tracked(seen, b) == if b in places then places[b] else []
    }

    constructor ()
      ensures Valid() && seen == []
    {
      depth, places, seen := 0, map[], [];
    }

    method Diff(bb: nat) returns (l: nat)
      requires Valid() && LabelFor(seen, bb).Some?
      ensures LabelFor(seen, bb) == Some(l)
    {
      hide Tracked, Depth;
      l := depth - places[bb][|places[bb]| - 1];
    }

    method Push(bb: nat, ghost item: SeqItem)
      requires Valid() && IsStart(item) && item.bb == bb
      modifies this
      ensures Valid() && seen == old(seen) + [item]
    {
      hide Tracked, Depth;
      forall b {
        TrackedSnoc(seen, item, b);
      }
      depth := depth + 1;
      places := places[bb := (if bb in places then places[bb] else []) + [depth]];
      seen := seen + [item];
    }

    method Pop(bb: nat, ghost item: SeqItem) returns (ok: bool)
      requires Valid() && IsEnd(item) && item.bb == bb
      modifies this
      ensures ok == CanPop(old(seen), bb)
      ensures ok ==> Valid() && seen == old(seen) + [item]
    {
      hide Tracked, Depth;
      forall b {
        TrackedSnoc(seen, item, b);
      }
      if bb !in places || places[bb] == [] || depth == 0 {
        return false;
      }
      places := places[bb := places[bb][..|places[bb]| - 1]];
      depth := depth - 1;
      seen := seen + [item];
      ok := true;
    }

    method Track(item: SeqItem) returns (ok: bool)
      requires Valid()
      modifies this
      ensures ok <==> (IsEnd(item) ==> CanPop(old(seen), item.bb))
      ensures ok ==> Valid() && seen == old(seen) + [item]
    {
      hide Tracked, Depth, LabelFor, CanPop;
      ok := true;
      match item {
        case Basic(_) =>
          BasicTracks(seen, item);
          seen := seen + [item];
        case StartLoop(bb) => Push(bb, item);
        case StartBlock(bb) => Push(bb, item);
        case EndLoop(bb) => ok := Pop(bb, item);
        case EndBlock(bb) => ok := Pop(bb, item);
      }
    }
  }

  lemma BasicTracks(items: seq<SeqItem>, x: SeqItem)
    requires x.Basic?
    ensures Depth(items + [x]) == Depth(items) && forall b :: Tracked(items + [x], b) == Tracked(items, b)
    ensures forall b :: LabelFor(items + [x], b) == LabelFor(items, b)
  {
    forall b {
      TrackedSnoc(items, x, b);
    }
  }

  // ---- Emission.

  /** Whether the jump that this exit needs has a label, after the items before it; the
      original panics when it has none. */
  predicate ExitOk(out: Out, next: Option<nat>, before: seq<SeqItem>) {
    match out
    case NoOut => false
    case Next(n) => next == Some(n) || LabelFor(before, n).Some?
    case If(f, t) =>
      if next == Some(f) then LabelFor(before, t).Some?
      else if next == Some(t) then LabelFor(before, f).Some?
      else LabelFor(before, t).Some? && LabelFor(before, f).Some?
    case _ => true
  }

  function ExitOps(out: Out, mode: AsyncMode, next: Option<nat>, last: bool, before: seq<SeqItem>): seq<Op>
    requires ExitOk(out, next, before)
  {
    match out
    case Next(n) => if next == Some(n) then [] else [Br(LabelFor(before, n).value)]
    case If(f, t) =>
      if next == Some(f) then [BrIf(LabelFor(before, t).value)]
      else if next == Some(t) then [Eqz, BrIf(LabelFor(before, f).value)]
      else [BrIf(LabelFor(before, t).value), Br(LabelFor(before, f).value)]
    case ReturnCall(func) => [ReturnCallOp(func)]
    case Unreachable => [UnreachableOp]
    case _ => (if mode.AsyncStart? then [LocalGetOp(mode.resourceLocal)] else []) + (if last then [] else [ReturnOp])
  }

  /** The item at i can be emitted. */
  predicate ItemOk(g: Graph, items: seq<SeqItem>, i: nat)
    requires i < |items|
  {
    && (IsEnd(items[i]) ==> CanPop(items[..i], items[i].bb))
    && (items[i].Basic? ==> items[i].bb < |g| && ExitOk(g[items[i].bb], FirstBasic(items[i + 1..]), items[..i]))
  }

  ghost predicate Emittable(g: Graph, items: seq<SeqItem>) {
    forall i :: 0 <= i < |items| ==> ItemOk(g, items, i)
  }

  function ItemOps(g: Graph, mode: AsyncMode, items: seq<SeqItem>, i: nat): seq<Op>
    requires i < |items| && ItemOk(g, items, i)
  {
    match items[i]
    case Basic(b) => [Body(b)] + ExitOps(g[b], mode, FirstBasic(items[i + 1..]), i + 1 == |items|, items[..i])
    case StartLoop(b) => [LoopOp(b)]
    case StartBlock(b) => [BlockOp(b)]
    case _ => [EndOp]
  }

  /** All code from item i on, to the end of the function. */
  function CodeFrom(g: Graph, mode: AsyncMode, items: seq<SeqItem>, i: nat): seq<Op>
    requires i <= |items| && Emittable(g, items)
    decreases |items| - i
  {
    if i == |items| then [EndOp] else ItemOps(g, mode, items, i) + CodeFrom(g, mode, items, i + 1)
  }

  /** Emit everything; None where the original panics for want of a label. */
  method Emit(g: Graph, mode: AsyncMode, items: seq<SeqItem>) returns (code: Option<seq<Op>>)
    requires forall i :: 0 <= i < |items| && items[i].Basic? ==> items[i].bb < |g|
    ensures code.Some? <==> Emittable(g, items)
    ensures code.Some? ==> code.value == CodeFrom(g, mode, items, 0)
  {
    hide FirstBasic, ExitOk, ExitOps, LabelFor, CanPop, CodeFrom;
    var tracker := new DepthTracker();
    var sink: seq<Op> := [];
    for i := 0 to |items|
      invariant tracker.Valid() && fresh(tracker) && tracker.seen == items[..i]
      invariant forall p :: 0 <= p < i ==> ItemOk(g, items, p)
      invariant sink == CodeUpTo(g, mode, items, i)
    {
      var item := items[i];
      var tracked := tracker.Track(item);
      if !tracked {
        assert !ItemOk(g, items, i);
        return None;
      }
      assert tracker.seen == items[..i] + [item] == items[..i + 1];
      var ops := EmitItem(g, mode, items, i, tracker);
      hide ItemOk, ItemOps;
      if ops.None? {
        assert !ItemOk(g, items, i);
        return None;
      }
      sink := sink + ops.value;
    }
    CodeAll(g, mode, items);
    code := Some(sink + [EndOp]);
  }

  /** One item, which has been tracked; None where the original panics. */
  method EmitItem(g: Graph, mode: AsyncMode, items: seq<SeqItem>, i: nat, tracker: DepthTracker)
    returns (ops: Option<seq<Op>>)
    requires tracker.Valid() && i < |items| && tracker.seen == items[..i] + [items[i]]
    requires IsEnd(items[i]) ==> CanPop(items[..i], items[i].bb)
    requires items[i].Basic? ==> items[i].bb < |g|
    ensures ops.Some? <==> ItemOk(g, items, i)
    ensures ops.Some? ==> ops.value == ItemOps(g, mode, items, i)
  {
    hide FirstBasic, LabelFor, CanPop;
    match items[i] {
      case Basic(bb) =>
        BasicTracks(items[..i], items[i]);
        SameExit(g[bb], mode, FirstBasic(items[i + 1..]), i + 1 == |items|, items[..i], tracker.seen);
        var exit := EmitExit(g[bb], mode, items, i, tracker);
        return if exit.None? then None else Some([Body(bb)] + exit.value);
      case StartLoop(bb) => return Some([LoopOp(bb)]);
      case StartBlock(bb) => return Some([BlockOp(bb)]);
      case EndLoop(_) => return Some([EndOp]);
      case EndBlock(_) => return Some([EndOp]);
    }
  }

  lemma SameExit(out: Out, mode: AsyncMode, next: Option<nat>, last: bool, a: seq<SeqItem>, b: seq<SeqItem>)
    requires forall n :: LabelFor(b, n) == LabelFor(a, n)
    ensures ExitOk(out, next, a) == ExitOk(out, next, b)
    ensures ExitOk(out, next, a) ==> ExitOps(out, mode, next, last, a) == ExitOps(out, mode, next, last, b)
  {
    hide LabelFor;
  }

  /** The exit of one basic block. */
  method EmitExit(out: Out, mode: AsyncMode, items: seq<SeqItem>, i: nat, tracker: DepthTracker)
    returns (ops: Option<seq<Op>>)
    requires tracker.Valid() && i < |items|
    ensures var next := FirstBasic(items[i + 1..]);
            && (ops.Some? <==> ExitOk(out, next, tracker.seen))
            && (ops.Some? ==> ops.value == ExitOps(out, mode, next, i + 1 == |items|, tracker.seen))
  {
    match out {
      case NoOut => return None;
      case ReturnCall(func) => return Some([ReturnCallOp(func)]);
      case Unreachable => return Some([UnreachableOp]);
      case Next(n) =>
        var adjacent := NextBlockIs(items[i + 1..], n);
        if adjacent {
          return Some([]);
        }
        var depth := TryDiff(tracker, n);
        return if depth.None? then None else Some([Br(depth.value)]);
      case If(f, t) =>
        var nextF := NextBlockIs(items[i + 1..], f);
        var nextT := NextBlockIs(items[i + 1..], t);
        var labelT := TryDiff(tracker, t);
        var labelF := TryDiff(tracker, f);
        if nextF {
          return if labelT.None? then None else Some([BrIf(labelT.value)]);
        } else if nextT {
          return if labelF.None? then None else Some([Eqz, BrIf(labelF.value)]);
        } else {
          return if labelT.None? || labelF.None? then None else Some([BrIf(labelT.value), Br(labelF.value)]);
        }
      case _ =>
        var handle := if mode.AsyncStart? then [LocalGetOp(mode.resourceLocal)] else [];
        return Some(handle + if i + 1 != |items| then [ReturnOp] else []);
    }
  }

  method TryDiff(tracker: DepthTracker, bb: nat) returns (depth: Option<nat>)
    requires tracker.Valid()
    ensures depth == LabelFor(tracker.seen, bb)
  {
    hide Tracked, Depth;
    var places := tracker.places;
    if bb in places && places[bb] != [] && places[bb][|places[bb]| - 1] <= tracker.depth {
      var l := tracker.Diff(bb);
      depth := Some(l);
    } else {
      depth := None;
    }
  }

  // ---- Where the ends match, the tracker's labels are those of the open ones.

  lemma {:induction false} ScanDepth(items: seq<SeqItem>)
    requires Scan(items).Some?
    ensures |Scan(items).value| == Depth(items)
  {
    if items != [] {
      ScanDepth(items[..|items| - 1]);
    }
  }

  /** The one-based places of b among the open labels. */
  ghost function Places(open: seq<nat>, b: nat): (r: seq<int>)
    ensures b in open ==> r != [] && r[|r| - 1] == |open| - LabelOf(open, b)
    ensures b !in open ==> r == []
  {
    if open == [] then [] else
    assert open == open[..|open| - 1] + [open[|open| - 1]];
    Places(open[..|open| - 1], b) + if open[|open| - 1] == b then [|open|] else []
  }

  lemma PlacesPush(open: seq<nat>, x: nat, b: nat)
    ensures Places(open + [x], b) == Places(open, b) + if x == b then [|open| + 1] else []
  {
    assert (open + [x])[..|open|] == open;
  }

  lemma PlacesPop(open: seq<nat>, b: nat)
    requires open != []
    ensures var popped := open[..|open| - 1];
            Places(popped, b) == if open[|open| - 1] != b then Places(open, b) else Places(open, b)[..|Places(open, b)| - 1]
  {
    assert open == open[..|open| - 1] + [open[|open| - 1]];
    PlacesPush(open[..|open| - 1], open[|open| - 1], b);
  }

  lemma {:induction false} TrackedPlaces(items: seq<SeqItem>, b: nat)
    requires Scan(items).Some?
    ensures Tracked(items, b) == Places(Scan(items).value, b)
  {
    if items != [] {
      var n := |items| - 1;
      TrackedPlaces(items[..n], b);
      ScanDepth(items[..n]);
      hide Places;
      var open := Scan(items[..n]).value;
      if IsStart(items[n]) {
        PlacesPush(open, items[n].bb, b);
      } else if IsEnd(items[n]) {
        PlacesPop(open, b);
        SomePlace(open, b);
      }
    } else {
      assert Places([], b) == [];
    }
  }

  lemma SomePlace(open: seq<nat>, b: nat)
    ensures b in open ==> Places(open, b) != []
  {
  }

  /** Where the ends match, the tracker's label counts the open labels inside b's. */
  lemma LabelIsOpen(items: seq<SeqItem>, b: nat)
    requires Scan(items).Some?
    ensures var open := Scan(items).value;
            LabelFor(items, b) == if b in open then Some(LabelOf(open, b)) else None
  {
    TrackedPlaces(items, b);
    ScanDepth(items);
  }

  lemma OpenHasLabel(items: seq<SeqItem>)
    requires Scan(items).Some?
    ensures forall b :: LabelFor(items, b).Some? <==> b in Scan(items).value
  {
    forall b {
      LabelIsOpen(items, b);
    }
  }

  /** And every end can be tracked. */
  lemma EndPops(items: seq<SeqItem>, i: nat)
    requires Scan(items).Some? && i < |items| && IsEnd(items[i])
    ensures CanPop(items[..i], items[i].bb)
  {
    ScanPrefix(items, i);
    ScanPrefix(items, i + 1);
    ScanStep(items, i);
    TrackedPlaces(items[..i], items[i].bb);
    ScanDepth(items[..i]);
    SomePlace(Scan(items[..i]).value, items[i].bb);
  }

  lemma EmptyScan(items: seq<SeqItem>)
    ensures Scan(items[..0]) == Some([]) && items[..|items|] == items
  {
  }

  lemma ScanStep(items: seq<SeqItem>, i: nat)
    requires i < |items| && Scan(items[..i + 1]).Some?
    ensures Scan(items[..i]).Some?
    ensures var open := Scan(items[..i]).value;
            && (IsEnd(items[i]) ==> open != [] && open[|open| - 1] == items[i].bb)
            && Scan(items[..i + 1]).value
               == if items[i].Basic? then open else if IsStart(items[i]) then open + [items[i].bb]
                  else open[..|open| - 1]
  {
    assert items[..i + 1][..i] == items[..i];
  }

  lemma {:induction false} ScanPrefix(items: seq<SeqItem>, i: nat)
    requires Scan(items).Some? && i <= |items|
    ensures Scan(items[..i]).Some?
    decreases |items|
  {
    if i < |items| {
      var n := |items| - 1;
      ScanPrefix(items[..n], i);
      assert items[..n][..i] == items[..i];
    } else {
      assert items[..i] == items;
    }
  }

  /** The code of the first i items. */
  ghost function CodeUpTo(g: Graph, mode: AsyncMode, items: seq<SeqItem>, i: nat): seq<Op>
    requires i <= |items| && forall p :: 0 <= p < i ==> ItemOk(g, items, p)
  {
    if i == 0 then [] else CodeUpTo(g, mode, items, i - 1) + ItemOps(g, mode, items, i - 1)
  }

  lemma CodeAll(g: Graph, mode: AsyncMode, items: seq<SeqItem>)
    requires Emittable(g, items)
    ensures CodeUpTo(g, mode, items, |items|) + [EndOp] == CodeFrom(g, mode, items, 0)
  {
    CodeUpToAll(g, mode, items, |items|);
  }

  lemma {:induction false} CodeUpToAll(g: Graph, mode: AsyncMode, items: seq<SeqItem>, i: nat)
    requires i <= |items| && Emittable(g, items)
    ensures CodeUpTo(g, mode, items, i) + CodeFrom(g, mode, items, i) == CodeFrom(g, mode, items, 0)
  {
    hide FirstBasic, ItemOk, ItemOps;
    if i > 0 {
      CodeUpToAll(g, mode, items, i - 1);
      assert CodeFrom(g, mode, items, i - 1) == ItemOps(g, mode, items, i - 1) + CodeFrom(g, mode, items, i);
    }
  }
}
