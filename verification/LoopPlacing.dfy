/** The pass that inserts `block`/`end` pairs, on sequences with loops: when what it
    leaves is well nested. */
module LoopPlacing {
  import opened Options
  import opened ControlFlow
  import opened Linear
  import opened BlockInsertion
  import opened BlockPlacing
  import opened StructuredCode
  import opened LoopInsertion

  // ---- Nesting that tells loops from blocks.

  /** A loop and a block for the same basic block get different labels. */
  function Kind(x: SeqItem): SeqItem {
    match x
    case Basic(b) => Basic(b)
    case StartLoop(b) => StartLoop(2 * b + 1)
    case EndLoop(b) => EndLoop(2 * b + 1)
    case StartBlock(b) => StartBlock(2 * b)
    case EndBlock(b) => EndBlock(2 * b)
  }

  function Kinds(items: seq<SeqItem>): (r: seq<SeqItem>)
    ensures |r| == |items| && forall q :: 0 <= q < |items| ==> r[q] == Kind(items[q])
  {
    seq(|items|, q requires 0 <= q < |items| => Kind(items[q]))
  }

  /** Every `end` closes the innermost open loop or block, which is its own. */
  predicate Nested(items: seq<SeqItem>) {
    Scan(Kinds(items)) == Some([])
  }

  lemma KindsTake(items: seq<SeqItem>, p: nat)
    requires p <= |items|
    ensures Kinds(items[..p]) == Kinds(items)[..p]
  {
  }

  lemma {:induction false} KindsDepth(items: seq<SeqItem>)
    ensures Depth(Kinds(items)) == Depth(items)
  {
    if items != [] {
      var n := |items| - 1;
      KindsDepth(items[..n]);
      KindsTake(items, n);
    }
  }

  lemma KindsStayOpen(items: seq<SeqItem>, k: nat, j: nat)
    requires k <= j <= |items|
    ensures Depth(Kinds(items)[..k]) == Depth(items[..k]) && Depth(Kinds(items)[..j]) == Depth(items[..j])
    ensures StaysOpen(Kinds(items), k, j) <==> StaysOpen(items, k, j)
  {
    hide Depth;
    forall q | 0 <= q <= |items|
      ensures Depth(Kinds(items)[..q]) == Depth(items[..q])
    {
      KindsTake(items, q);
      KindsDepth(items[..q]);
    }
  }

  lemma KindsInserted(items: seq<SeqItem>, k: nat, j: nat, next: nat)
    requires k <= j <= |items|
    ensures Kinds(Inserted(items, k, j, next)) == Inserted(Kinds(items), k, j, 2 * next)
  {
    var r, r' := Kinds(Inserted(items, k, j, next)), Inserted(Kinds(items), k, j, 2 * next);
    assert |r| == |r'|;
    forall q | 0 <= q < |r|
      ensures r[q] == r'[q]
    {
      InsertedNew(items, k, j, next);
      InsertedNew(Kinds(items), k, j, 2 * next);
      if q != k && q != j + 1 {
        var p := InsertedFrom(items, k, j, next, q);
        InsertedAt(Kinds(items), k, j, 2 * next, p);
      }
    }
  }

  // ---- One insertion, both ways.

  /** The label is not used yet. */
  predicate Unused(items: seq<SeqItem>, w: nat) {
    forall q :: 0 <= q < |items| && !items[q].Basic? ==> items[q].bb != w
  }

  /** Under a new label nothing below it can be closed before it is. */
  lemma {:induction false} LiftBack(items: seq<SeqItem>, k: nat, p: nat, next: nat)
    requires k <= p <= |items| && Unused(items, next) && Scan(Opened(items, k, p, next)).Some?
    ensures Scan(items[..k]).Some? && Scan(items[..p]).Some?
    ensures var base, top := Scan(items[..k]).value, Scan(items[..p]).value;
            base <= top && Scan(Opened(items, k, p, next)) == Some(base + [next] + top[|base|..])
    decreases p
  {
    hide Scan;
    if p == k {
      assert Opened(items, k, p, next) == items[..k] + [StartBlock(next)];
      ScanSnoc(items[..k], StartBlock(next));
      var base := Scan(items[..k]).value;
      assert base[|base|..] == [] && base + [next] + [] == base + [next];
    } else {
      var x := items[p - 1];
      OpenedStep(items, k, p, next);
      ScanSnoc(Opened(items, k, p - 1, next), x);
      LiftBack(items, k, p - 1, next);
      ScanSnoc(items[..p - 1], x);
      var base, below := Scan(items[..k]).value, Scan(items[..p - 1]).value;
      LiftSeqs(base, next, below, x.bb);
      assert |below| == |base| ==> base + [next] + below[|base|..] == base + [next];
    }
  }

  /** If a sequence is nested after a new pair went in, it was so before. */
  lemma PairRemoved(items: seq<SeqItem>, k: nat, j: nat, next: nat)
    requires k <= j <= |items| && Unused(items, next) && Scan(Inserted(items, k, j, next)) == Some([])
    ensures Scan(items) == Some([])
  {
    hide Scan;
    var r, before, e := Inserted(items, k, j, next), Opened(items, k, j, next), EndBlock(next);
    assert r == (before + [e]) + items[j..];
    assert r[..|before|] == before && r[..|before| + 1] == before + [e];
    ScanPrefix(r, |before|);
    ScanPrefix(r, |before| + 1);
    LiftBack(items, k, j, next);
    ScanSnoc(before, e);
    var base, top := Scan(items[..k]).value, Scan(items[..j]).value;
    NewOnTop(items, j, base, top, next);
    assert base + [next] + top[|base|..] == base + [next];
    assert (base + [next])[..|base|] == base;
    assert base == top;
    ScanAfter(before + [e], items[..j], items[j..]);
    assert items == items[..j] + items[j..];
  }

  lemma NewOnTop(items: seq<SeqItem>, j: nat, base: seq<nat>, top: seq<nat>, next: nat)
    requires j <= |items| && Unused(items, next) && Scan(items[..j]) == Some(top) && base <= top
    requires var s := base + [next] + top[|base|..]; s[|s| - 1] == next
    ensures |top| == |base|
  {
    if |top| > |base| {
      var s := base + [next] + top[|base|..];
      assert s[|s| - 1] == top[|top| - 1];
      OpenIsUsed(items[..j], |top| - 1);
    }
  }

  lemma {:induction false} OpenIsUsed(items: seq<SeqItem>, x: nat)
    requires Scan(items).Some? && x < |Scan(items).value|
    ensures exists q :: 0 <= q < |items| && IsStart(items[q]) && items[q].bb == Scan(items).value[x]
  {
    var n := |items| - 1;
    var before := Scan(items[..n]).value;
    if x < |before| {
      OpenIsUsed(items[..n], x);
      var q :| 0 <= q < n && IsStart(items[..n][q]) && items[..n][q].bb == before[x];
      assert items[q] == items[..n][q];
    }
  }

  predicate NoBlockFor(items: seq<SeqItem>, w: nat) {
    forall q :: 0 <= q < |items| && (items[q].StartBlock? || items[q].EndBlock?) ==> items[q].bb != w
  }

  /** Both places have the same depth, and nothing open at the first is closed in between. */
  predicate FitsAt(items: seq<SeqItem>, k: nat, j: nat)
    requires k <= j <= |items|
  {
    Depth(items[..k]) == Depth(items[..j]) && StaysOpen(items, k, j)
  }

  /** A pair for a new block leaves a sequence nested exactly when it was nested and
      the pair fits. */
  lemma PairNestsExactly(items: seq<SeqItem>, k: nat, j: nat, next: nat)
    requires k <= j <= |items| && NoBlockFor(items, next)
    ensures Nested(Inserted(items, k, j, next)) <==> Nested(items) && FitsAt(items, k, j)
  {
    hide Scan, Depth;
    KindsInserted(items, k, j, next);
    KindsStayOpen(items, k, j);
    assert Unused(Kinds(items), 2 * next);
    if Nested(items) {
      PairNestsIff(Kinds(items), k, j, 2 * next);
    } else if Nested(Inserted(items, k, j, next)) {
      PairRemoved(Kinds(items), k, j, 2 * next);
    }
  }

  // ---- The whole pass.

  /** The pair that an insertion puts in fits where the two searches land. */
  predicate InsertFits(items: seq<SeqItem>, i: nat, next: nat)
    requires i < |items| && Basic(next) in items
  {
    var (j, depth) := NodeBackwards(items, next);
    var k := DepthForwards(items[..i], depth);
    k <= j && FitsAt(items, k, j)
  }

  predicate EdgeFits(p: Progress, next: nat)
    requires p.i < |p.items| && Basic(next) in p.items
  {
    Wanted(p, next) ==> InsertFits(p.items, p.i, next)
  }

  predicate EdgesFit(g: Graph, p: Progress, bb: nat, n: nat)
    requires p.i < |p.items| && n <= |Succ(g, bb)| && forall w :: w in Succ(g, bb) ==> w in Basics(p.items)
  {
    n == 0 || (
      var q := EdgeSteps(g, p, bb, n - 1);
      BasicsMembers(q.items, Succ(g, bb)[n - 1]);
      EdgesFit(g, p, bb, n - 1) && EdgeFits(q, Succ(g, bb)[n - 1]))
  }

  predicate PlaceFits(g: Graph, p: Progress)
    requires p.i < |p.items| && ClosedItems(g, p.items)
  {
    p.items[p.i].Basic? ==> (
      BasicsMembers(p.items, p.items[p.i].bb);
      EdgesFit(g, p, p.items[p.i].bb, |Succ(g, p.items[p.i].bb)|))
  }

  /** Every insertion of the pass fits. */
  predicate PassFits(g: Graph, p: Progress)
    requires p.i <= |p.items| && ClosedItems(g, p.items)
    decreases |Basics(p.items)| - |Basics(p.items[..p.i])|, |p.items| - p.i
  {
    p.i == |p.items| || (
      PlaceStepCounts(g, p);
      PlaceFits(g, p) && PassFits(g, PlaceStep(g, p)))
  }

  /** Blocks stand only where they are recorded. */
  ghost predicate Recorded(p: Progress) {
    forall q :: 0 <= q < |p.items| && (p.items[q].StartBlock? || p.items[q].EndBlock?) ==> p.items[q].bb in p.placed
  }

  /** Where the pair of a wanted edge goes. */
  lemma WantedPlaces(p: Progress, next: nat) returns (k: nat, j: nat)
    requires p.i < |p.items| && Basic(next) in p.items && Wanted(p, next)
    ensures k <= p.i < j < |p.items| && p.items[j] == Basic(next)
    ensures InsertPair(p.items, p.i, next) == Inserted(p.items, k, j, next)
    ensures InsertFits(p.items, p.i, next) <==> FitsAt(p.items, k, j)
  {
    hide Basics, NodeBackwards, LastStartAt, FitsAt, Inserted, InsertPair, DepthForwards;
    NodeAfter(p.items, p.i, next);
    var (j0, depth) := NodeBackwards(p.items, next);
    j, k := j0, DepthForwards(p.items[..p.i], depth);
    InsertPairIs(p.items, p.i, j, k, next);
  }

  lemma EdgeNests(p: Progress, next: nat)
    requires p.i < |p.items| && Basic(next) in p.items && Recorded(p)
    ensures Recorded(EdgeStep(p, next))
    ensures Nested(EdgeStep(p, next).items) <==> Nested(p.items) && EdgeFits(p, next)
  {
    hide Nested, InsertFits, FitsAt, Basics, InsertPair;
    if Wanted(p, next) {
      var k, j := WantedPlaces(p, next);
      PairNestsExactly(p.items, k, j, next);
      var r := EdgeStep(p, next);
      forall q | 0 <= q < |r.items| && (r.items[q].StartBlock? || r.items[q].EndBlock?)
        ensures r.items[q].bb in r.placed
      {
        InsertedNew(p.items, k, j, next);
        if q != k && q != j + 1 {
          var q' := InsertedFrom(p.items, k, j, next, q);
        }
      }
    }
  }

  lemma {:induction false} EdgesNest(g: Graph, p: Progress, bb: nat, n: nat)
    requires p.i < |p.items| && n <= |Succ(g, bb)| && Recorded(p)
    requires forall w :: w in Succ(g, bb) ==> w in Basics(p.items)
    ensures Recorded(EdgeSteps(g, p, bb, n))
    ensures Nested(EdgeSteps(g, p, bb, n).items) <==> Nested(p.items) && EdgesFit(g, p, bb, n)
  {
    hide Nested, EdgeFits, EdgeStep, Recorded, Basics;
    if n > 0 {
      EdgesNest(g, p, bb, n - 1);
      var q := EdgeSteps(g, p, bb, n - 1);
      BasicsMembers(q.items, Succ(g, bb)[n - 1]);
      EdgeNests(q, Succ(g, bb)[n - 1]);
    }
  }

  /** The pass leaves a nested sequence nested exactly when every insertion fits. */
  lemma {:induction false} PassNests(g: Graph, p: Progress)
    requires p.i <= |p.items| && ClosedItems(g, p.items) && Recorded(p)
    ensures Nested(PassFrom(g, p)) <==> Nested(p.items) && PassFits(g, p)
    decreases |Basics(p.items)| - |Basics(p.items[..p.i])|, |p.items| - p.i
  {
    if p.i < |p.items| {
      PlaceStepCounts(g, p);
      PlaceNests(g, p);
      hide Nested, PlaceFits, PlaceStep, Recorded, Basics, ClosedItems;
      PassNests(g, PlaceStep(g, p));
    }
  }

  lemma PlaceNests(g: Graph, p: Progress)
    requires p.i < |p.items| && ClosedItems(g, p.items) && Recorded(p)
    ensures Recorded(PlaceStep(g, p)) && (Nested(PlaceStep(g, p).items) <==> Nested(p.items) && PlaceFits(g, p))
  {
    hide Nested, EdgesFit, EdgeSteps, Basics;
    if p.items[p.i].Basic? {
      BasicsMembers(p.items, p.items[p.i].bb);
      EdgesNest(g, p, p.items[p.i].bb, |Succ(g, p.items[p.i].bb)|);
    }
  }
}
