/** In what the pass leaves of a linearised graph with loops, if it is well nested,
    every jump finds its label. */
module LoopLabels {
  import opened Options
  import opened ControlFlow
  import opened Linear
  import opened BlockInsertion
  import opened BlockPlacing
  import opened StructuredCode
  import opened StructuredRun
  import opened LoopInsertion
  import opened LoopPlacing

  // ---- Orders of basic blocks.

  /** w stands before b, or is b. */
  ghost predicate Precedes(order: seq<nat>, w: nat, b: nat) {
    exists x, y :: 0 <= x <= y < |order| && order[x] == w && order[y] == b
  }

  lemma {:induction false} BasicsMonotone(items: seq<SeqItem>, i: nat, j: nat)
    requires i <= j <= |items|
    ensures Basics(items[..i]) <= Basics(items[..j])
  {
    assert items[..j] == items[..i] + items[i..j];
    BasicsConcat(items[..i], items[i..j]);
  }

  lemma OrderAt(items: seq<SeqItem>, i: nat)
    requires i < |items| && items[i].Basic?
    ensures var q := |Basics(items[..i])|; q < |Basics(items)| && Basics(items)[q] == items[i].bb
  {
    hide *;
    BasicsAt(items, i);
  }

  /** Places and order agree. */
  lemma PlacePrecedes(items: seq<SeqItem>, i: nat, j: nat)
    requires Distinct(Basics(items)) && i < |items| && j < |items| && items[i].Basic? && items[j].Basic?
    ensures Precedes(Basics(items), items[i].bb, items[j].bb) <==> i <= j
    ensures items[i].bb == items[j].bb ==> i == j
  {
    hide Basics;
    OrderAt(items, i);
    OrderAt(items, j);
    var order, x, y := Basics(items), |Basics(items[..i])|, |Basics(items[..j])|;
    if i <= j {
      BasicsMonotone(items, i, j);
      assert x <= y;
    }
    if i < j {
      BasicsMonotone(items, i + 1, j);
      BasicsAt(items, i);
    }
    if j < i {
      BasicsMonotone(items, j + 1, i);
      BasicsAt(items, j);
      NotPrecedes(order, y, x);
    }
  }

  lemma NotPrecedes(order: seq<nat>, x: nat, y: nat)
    requires Distinct(order) && x < y < |order|
    ensures !Precedes(order, order[y], order[x])
  {
    forall a, b | 0 <= a <= b < |order| && order[a] == order[y]
      ensures order[b] != order[x]
    {
      assert a == y;
    }
  }

  lemma {:induction false} DistinctPlaces(items: seq<SeqItem>)
    requires forall i, j, b :: IsBasic(items, i, b) && IsBasic(items, j, b) ==> i == j
    ensures Distinct(Basics(items))
  {
    if items != [] {
      var n := |items| - 1;
      forall i, j, b | IsBasic(items[..n], i, b) && IsBasic(items[..n], j, b)
        ensures i == j
      {
        assert IsBasic(items, i, b) && IsBasic(items, j, b);
      }
      DistinctPlaces(items[..n]);
      if items[n].Basic? {
        BasicsMembers(items[..n], items[n].bb);
        if items[n] in items[..n] {
          var i :| 0 <= i < n && items[..n][i] == items[n];
          assert IsBasic(items, i, items[n].bb) && IsBasic(items, n, items[n].bb);
        }
        DistinctSnoc(Basics(items[..n]), items[n].bb);
      }
    }
  }

  lemma DistinctSnoc(s: seq<nat>, x: nat)
    requires Distinct(s) && x !in s
    ensures Distinct(s + [x])
  {
  }

  // ---- What every insertion keeps.

  /** After the start of a loop, and before its end, its header comes first. */
  ghost predicate HeadFollows(items: seq<SeqItem>, s: nat)
    requires s < |items|
  {
    exists m :: s < m < |items| && items[m] == Basic(items[s].bb) && Clear(items, s, m, items[s].bb)
  }

  /** Neither basic blocks nor the end of loop h in between. */
  predicate Clear(items: seq<SeqItem>, a: nat, b: nat, h: nat)
    requires b <= |items|
  {
    forall q :: a < q < b ==> !items[q].Basic? && items[q] != EndLoop(h)
  }

  /** After the end of a block its target comes first. */
  ghost predicate TargetFollows(items: seq<SeqItem>, e: nat)
    requires e < |items|
  {
    exists m :: e < m < |items| && items[m] == Basic(items[e].bb) && forall q :: e < q < m ==> !items[q].Basic?
  }

  /** At i the loop of w is open. */
  ghost predicate BackOpen(items: seq<SeqItem>, i: nat, w: nat)
    requires i <= |items|
  {
    exists s :: 0 <= s < i && items[s] == StartLoop(w) && StillOpen(items, s, i, w)
  }

  predicate StillOpen(items: seq<SeqItem>, s: nat, i: nat, w: nat)
    requires i <= |items|
  {
    forall q :: s < q < i ==> items[q] != EndLoop(w)
  }

  /** The edges of block b at place i that lead back are inside their loops. */
  ghost predicate BackOk(g: Graph, items: seq<SeqItem>, i: nat)
    requires i < |items|
  {
    items[i].Basic? ==>
      forall w :: w in Succ(g, items[i].bb) && Precedes(Basics(items), w, items[i].bb) ==> BackOpen(items, i, w)
  }

  ghost predicate Shaped(g: Graph, items: seq<SeqItem>) {
    && Distinct(Basics(items))
    && (forall s :: 0 <= s < |items| && items[s].StartLoop? ==> HeadFollows(items, s))
    && (forall e :: 0 <= e < |items| && items[e].EndBlock? ==> TargetFollows(items, e))
    && (forall i :: 0 <= i < |items| ==> BackOk(g, items, i))
  }

  /** What stands between two old places after an insertion. */
  lemma BetweenShifted(items: seq<SeqItem>, k: nat, j: nat, next: nat, a: nat, b: nat, q: nat) returns (p: nat)
    requires k <= j <= |items| && a < |items| && b < |items| && Shift(a, k, j) < q < Shift(b, k, j)
    ensures q < |Inserted(items, k, j, next)|
    ensures var x := Inserted(items, k, j, next)[q];
            x == StartBlock(next) || x == EndBlock(next) || (a < p < b && x == items[p])
  {
    InsertedNew(items, k, j, next);
    p := 0;
    if q != k && q != j + 1 {
      p := InsertedFrom(items, k, j, next, q);
    }
  }

  lemma HeadKept(items: seq<SeqItem>, k: nat, j: nat, next: nat, s: nat)
    requires k <= j <= |items| && s < |items| && items[s].StartLoop? && HeadFollows(items, s)
    ensures Shift(s, k, j) < |Inserted(items, k, j, next)| && HeadFollows(Inserted(items, k, j, next), Shift(s, k, j))
  {
    hide Inserted;
    var r := Inserted(items, k, j, next);
    var m :| s < m < |items| && items[m] == Basic(items[s].bb) && Clear(items, s, m, items[s].bb);
    InsertedNew(items, k, j, next);
    InsertedAt(items, k, j, next, s);
    InsertedAt(items, k, j, next, m);
    forall q | Shift(s, k, j) < q < Shift(m, k, j)
      ensures !r[q].Basic? && r[q] != EndLoop(items[s].bb)
    {
      var p := BetweenShifted(items, k, j, next, s, m, q);
    }
    assert r[Shift(m, k, j)] == Basic(items[s].bb) && Clear(r, Shift(s, k, j), Shift(m, k, j), items[s].bb);
  }

  lemma TargetKept(items: seq<SeqItem>, k: nat, j: nat, next: nat, e: nat)
    requires k <= j <= |items| && e < |items| && items[e].EndBlock? && TargetFollows(items, e)
    ensures Shift(e, k, j) < |Inserted(items, k, j, next)| && TargetFollows(Inserted(items, k, j, next), Shift(e, k, j))
  {
    hide Inserted;
    var r := Inserted(items, k, j, next);
    var m :| e < m < |items| && items[m] == Basic(items[e].bb) && forall q :: e < q < m ==> !items[q].Basic?;
    InsertedNew(items, k, j, next);
    InsertedAt(items, k, j, next, e);
    InsertedAt(items, k, j, next, m);
    forall q | Shift(e, k, j) < q < Shift(m, k, j)
      ensures !r[q].Basic?
    {
      var p := BetweenShifted(items, k, j, next, e, m, q);
    }
    assert r[Shift(m, k, j)] == Basic(items[e].bb);
  }

  lemma BackKept(items: seq<SeqItem>, k: nat, j: nat, next: nat, i: nat, w: nat)
    requires k <= j <= |items| && i < |items| && BackOpen(items, i, w)
    ensures Shift(i, k, j) < |Inserted(items, k, j, next)| && BackOpen(Inserted(items, k, j, next), Shift(i, k, j), w)
  {
    hide Inserted;
    var r := Inserted(items, k, j, next);
    var s :| 0 <= s < i && items[s] == StartLoop(w) && StillOpen(items, s, i, w);
    InsertedNew(items, k, j, next);
    InsertedAt(items, k, j, next, s);
    forall q | Shift(s, k, j) < q < Shift(i, k, j)
      ensures r[q] != EndLoop(w)
    {
      var p := BetweenShifted(items, k, j, next, s, i, q);
    }
    assert r[Shift(s, k, j)] == StartLoop(w) && StillOpen(r, Shift(s, k, j), Shift(i, k, j), w);
  }

  lemma InsertedShaped(g: Graph, items: seq<SeqItem>, k: nat, j: nat, next: nat)
    requires Shaped(g, items) && k <= j < |items| && items[j] == Basic(next)
    ensures Shaped(g, Inserted(items, k, j, next))
  {
    hide Inserted, HeadFollows, TargetFollows, BackOpen, Precedes, Distinct, Basics;
    var r := Inserted(items, k, j, next);
    InsertedBasics(items, k, j, next);
    InsertedNew(items, k, j, next);
    forall s | 0 <= s < |r| && r[s].StartLoop?
      ensures HeadFollows(r, s)
    {
      var p := InsertedFrom(items, k, j, next, s);
      HeadKept(items, k, j, next, p);
    }
    forall e | 0 <= e < |r| && r[e].EndBlock?
      ensures TargetFollows(r, e)
    {
      if e == j + 1 {
        NewTarget(r, e);
      } else {
        var p := InsertedFrom(items, k, j, next, e);
        TargetKept(items, k, j, next, p);
      }
    }
    forall i | 0 <= i < |r|
      ensures BackOk(g, r, i)
    {
      if r[i].Basic? {
        var p := InsertedFrom(items, k, j, next, i);
        assert BackOk(g, items, p);
        forall w | w in Succ(g, r[i].bb) && Precedes(Basics(r), w, r[i].bb)
          ensures BackOpen(r, i, w)
        {
          BackKept(items, k, j, next, p, w);
        }
      }
    }
  }

  lemma NewTarget(r: seq<SeqItem>, e: nat)
    requires e + 1 < |r| && r[e + 1] == Basic(r[e].bb)
    ensures TargetFollows(r, e)
  {
  }

  // ---- The header of a loop never gets a block that fits.

  /** From its start on a loop is open, on top of what was open, until it ends. */
  lemma {:induction false} LoopStaysOn(items: seq<SeqItem>, s: nat, p: nat, h: nat)
    requires s < p <= |items| && items[s] == StartLoop(h) && StillOpen(items, s, p, h)
    requires Scan(Kinds(items)[..p]).Some?
    ensures Scan(Kinds(items)[..s]).Some?
    ensures Scan(Kinds(items)[..s]).value + [2 * h + 1] <= Scan(Kinds(items)[..p]).value
    decreases p
  {
    hide Scan;
    var kinds := Kinds(items);
    assert kinds[..p] == kinds[..p - 1] + [kinds[p - 1]];
    ScanSnoc(kinds[..p - 1], kinds[p - 1]);
    if p > s + 1 {
      LoopStaysOn(items, s, p - 1, h);
      var base, top := Scan(kinds[..s]).value + [2 * h + 1], Scan(kinds[..p - 1]).value;
      OtherKind(items[p - 1], h);
      PopKeeps(base, top, kinds[p - 1].bb);
    }
  }

  lemma OtherKind(x: SeqItem, h: nat)
    requires x != EndLoop(h)
    ensures IsEnd(x) ==> Kind(x).bb != 2 * h + 1
  {
  }

  lemma PopKeeps(base: seq<nat>, top: seq<nat>, b: nat)
    requires base <= top && base != []
    ensures base <= top + [b]
    ensures base[|base| - 1] != b && top[|top| - 1] == b ==> base <= top[..|top| - 1]
  {
  }

  lemma HeaderIsDeeper(items: seq<SeqItem>, s: nat, j: nat, h: nat)
    requires Nested(items) && s < j <= |items| && items[s] == StartLoop(h) && StillOpen(items, s, j, h)
    ensures Depth(items[..j]) > Depth(items[..s])
  {
    hide Scan, Depth;
    var kinds := Kinds(items);
    ScanPrefix(kinds, j);
    LoopStaysOn(items, s, j, h);
    ScanDepth(kinds[..s]);
    ScanDepth(kinds[..j]);
    KindsTake(items, s);
    KindsTake(items, j);
    KindsDepth(items[..s]);
    KindsDepth(items[..j]);
  }

  lemma FitsNoHeader(g: Graph, items: seq<SeqItem>, k: nat, i: nat, j: nat, next: nat)
    requires Shaped(g, items) && Nested(items) && k <= i < j < |items| && items[i].Basic? && items[j] == Basic(next)
    requires FitsAt(items, k, j)
    ensures StartLoop(next) !in items
  {
    hide Nested, Depth, Basics, BackOk;
    if StartLoop(next) in items {
      var s :| 0 <= s < |items| && items[s] == StartLoop(next);
      assert HeadFollows(items, s);
      var m :| s < m < |items| && items[m] == Basic(items[s].bb) && Clear(items, s, m, items[s].bb);
      PlacePrecedes(items, j, m);
      assert i < s;
      HeaderIsDeeper(items, s, j, next);
    }
  }

  // ---- Every edge is served.

  /** An edge leads back, or to the next block, or its block has been opened. */
  ghost predicate EdgeServed(items: seq<SeqItem>, q: nat, b: nat, w: nat)
    requires q <= |items|
  {
    Precedes(Basics(items), w, b) || Served(Basics(items), items, q, b, w)
  }

  ghost predicate BlockServed(g: Graph, items: seq<SeqItem>, q: nat, n: nat)
    requires q < |items|
  {
    items[q].Basic? ==>
      && n <= |Succ(g, items[q].bb)|
      && forall w :: w in Succ(g, items[q].bb)[..n] ==> EdgeServed(items, q, items[q].bb, w)
  }

  ghost predicate OpensBefore(items: seq<SeqItem>, i: nat, w: nat)
    requires i <= |items|
  {
    exists s :: 0 <= s < i && items[s] == StartBlock(w)
  }

  /** The edges of all blocks before place i are served, and n of the one there. */
  ghost predicate Serving(g: Graph, p: Progress, n: nat) {
    && p.i <= |p.items|
    && (forall q :: 0 <= q < p.i && p.items[q].Basic? ==> BlockServed(g, p.items, q, |Succ(g, p.items[q].bb)|))
    && (p.i < |p.items| ==> BlockServed(g, p.items, p.i, n))
    && (forall w :: w in p.placed ==> OpensBefore(p.items, p.i, w))
  }

  lemma EdgeServedKept(items: seq<SeqItem>, k: nat, j: nat, next: nat, q: nat, b: nat, w: nat)
    requires k <= j <= |items| && q < |items| && EdgeServed(items, q, b, w)
    ensures Shift(q, k, j) < |Inserted(items, k, j, next)| && EdgeServed(Inserted(items, k, j, next), Shift(q, k, j), b, w)
  {
    hide Inserted, Basics;
    InsertedBasics(items, k, j, next);
    InsertedNew(items, k, j, next);
    if !Precedes(Basics(items), w, b) {
      ServedKept(Basics(items), items, k, j, next, q, b, w);
    }
  }

  lemma BlockServedKept(g: Graph, items: seq<SeqItem>, k: nat, j: nat, next: nat, q: nat, n: nat)
    requires k <= j <= |items| && q < |items| && BlockServed(g, items, q, n)
    ensures Shift(q, k, j) < |Inserted(items, k, j, next)|
    ensures BlockServed(g, Inserted(items, k, j, next), Shift(q, k, j), n)
  {
    hide Inserted, EdgeServed;
    InsertedNew(items, k, j, next);
    InsertedAt(items, k, j, next, q);
    if items[q].Basic? {
      forall w | w in Succ(g, items[q].bb)[..n]
        ensures EdgeServed(Inserted(items, k, j, next), Shift(q, k, j), items[q].bb, w)
      {
        EdgeServedKept(items, k, j, next, q, items[q].bb, w);
      }
    }
  }

  lemma OneMoreServed(g: Graph, items: seq<SeqItem>, q: nat, n: nat)
    requires q < |items| && items[q].Basic? && n < |Succ(g, items[q].bb)| && BlockServed(g, items, q, n)
    requires EdgeServed(items, q, items[q].bb, Succ(g, items[q].bb)[n])
    ensures BlockServed(g, items, q, n + 1)
  {
    hide EdgeServed;
    var succ := Succ(g, items[q].bb);
    assert succ[..n + 1] == succ[..n] + [succ[n]];
  }

  lemma InsertServes(g: Graph, p: Progress, n: nat, k: nat, j: nat, next: nat)
    requires Serving(g, p, n) && k <= p.i < j <= |p.items| && p.items[p.i].Basic?
    requires n < |Succ(g, p.items[p.i].bb)| && next == Succ(g, p.items[p.i].bb)[n]
    ensures Serving(g, Progress(Inserted(p.items, k, j, next), p.i + 1, p.placed + {next}), n + 1)
  {
    hide Inserted, EdgeServed, BlockServed;
    var r := Inserted(p.items, k, j, next);
    InsertedNew(p.items, k, j, next);
    forall q | 0 <= q < p.i + 1 && r[q].Basic?
      ensures BlockServed(g, r, q, |Succ(g, r[q].bb)|)
    {
      var q' := InsertedFrom(p.items, k, j, next, q);
      BlockServedKept(g, p.items, k, j, next, q', |Succ(g, r[q].bb)|);
    }
    forall w | w in p.placed + {next}
      ensures OpensBefore(r, p.i + 1, w)
    {
      if w == next {
        assert r[k] == StartBlock(next);
      } else {
        var s :| 0 <= s < p.i && p.items[s] == StartBlock(w);
        InsertedAt(p.items, k, j, next, s);
      }
    }
    InsertedAt(p.items, k, j, next, p.i);
    BlockServedKept(g, p.items, k, j, next, p.i, n);
    NewServed(r, p.i + 1, p.items[p.i].bb, next);
    OneMoreServed(g, r, p.i + 1, n);
  }

  lemma NewServed(items: seq<SeqItem>, i: nat, b: nat, w: nat)
    requires i <= |items| && OpensBefore(items, i, w)
    ensures EdgeServed(items, i, b, w)
  {
    hide Basics;
    var s :| 0 <= s < i && items[s] == StartBlock(w);
  }

  /** An edge that is not wanted is served already. */
  lemma UnwantedServed(p: Progress, next: nat)
    requires p.i < |p.items| && p.items[p.i].Basic? && Distinct(Basics(p.items)) && Basic(next) in p.items
    requires !Wanted(p, next) && (next in p.placed ==> OpensBefore(p.items, p.i, next))
    ensures EdgeServed(p.items, p.i, p.items[p.i].bb, next)
  {
    hide Basics, FirstBasic, Adjacent;
    if next in Basics(p.items[..p.i + 1]) {
      BasicsMembers(p.items[..p.i + 1], next);
      var m :| 0 <= m < p.i + 1 && p.items[..p.i + 1][m] == Basic(next);
      PlacePrecedes(p.items, m, p.i);
    } else if FirstBasic(p.items[p.i + 1..]) == Some(next) {
      NextIsAdjacent(p.items, p.i, next);
    }
  }

  lemma EdgeServes(g: Graph, p: Progress, n: nat, next: nat)
    requires Shaped(g, p.items) && Serving(g, p, n) && p.i < |p.items| && p.items[p.i].Basic? && Basic(next) in p.items
    requires n < |Succ(g, p.items[p.i].bb)| && next == Succ(g, p.items[p.i].bb)[n]
    ensures Serving(g, EdgeStep(p, next), n + 1) && Shaped(g, EdgeStep(p, next).items)
  {
    hide Shaped, EdgeServed, BlockServed, InsertPair, FitsAt, InsertFits;
    if Wanted(p, next) {
      hide Wanted;
      var k, j := WantedPlaces(p, next);
      InsertServes(g, p, n, k, j, next);
      InsertedShaped(g, p.items, k, j, next);
    } else {
      ShapedDistinct(g, p.items);
      UnwantedServed(p, next);
      OneMoreServed(g, p.items, p.i, n);
    }
  }

  lemma ShapedDistinct(g: Graph, items: seq<SeqItem>)
    requires Shaped(g, items)
    ensures Distinct(Basics(items))
  {
  }

  // ---- Over the whole pass.

  /** No header of a loop has had a block placed. */
  ghost predicate NoHeaders(p: Progress) {
    forall w :: w in p.placed ==> StartLoop(w) !in p.items
  }

  ghost predicate Invariant(g: Graph, p: Progress, n: nat) {
    Shaped(g, p.items) && Serving(g, p, n) && Recorded(p)
  }

  lemma EdgeHeaders(g: Graph, p: Progress, next: nat)
    requires Shaped(g, p.items) && p.i < |p.items| && p.items[p.i].Basic? && Basic(next) in p.items
    requires Nested(p.items) && NoHeaders(p) && EdgeFits(p, next)
    ensures NoHeaders(EdgeStep(p, next))
  {
    hide Shaped, FitsAt, InsertFits, InsertPair, Nested;
    if Wanted(p, next) {
      hide Wanted;
      var k, j := WantedPlaces(p, next);
      FitsNoHeader(g, p.items, k, p.i, j, next);
      forall w | w in p.placed + {next}
        ensures StartLoop(w) !in Inserted(p.items, k, j, next)
      {
        InsertedLoops(p.items, k, j, next, w);
      }
    }
  }

  lemma InsertedLoops(items: seq<SeqItem>, k: nat, j: nat, next: nat, w: nat)
    requires k <= j <= |items| && StartLoop(w) !in items
    ensures StartLoop(w) !in Inserted(items, k, j, next)
  {
    var r := Inserted(items, k, j, next);
    InsertedNew(items, k, j, next);
    forall q | 0 <= q < |r|
      ensures r[q] != StartLoop(w)
    {
      if q != k && q != j + 1 {
        var p := InsertedFrom(items, k, j, next, q);
        assert items[p] in items;
      }
    }
  }

  lemma {:induction false} EdgesKeep(g: Graph, p: Progress, bb: nat, n: nat)
    requires p.i < |p.items| && p.items[p.i] == Basic(bb) && n <= |Succ(g, bb)|
    requires Invariant(g, p, 0) && forall w :: w in Succ(g, bb) ==> w in Basics(p.items)
    ensures Invariant(g, EdgeSteps(g, p, bb, n), n)
    ensures Nested(p.items) && NoHeaders(p) && EdgesFit(g, p, bb, n) ==> NoHeaders(EdgeSteps(g, p, bb, n))
  {
    hide Nested, NoHeaders, EdgeFits, EdgeStep, Shaped, Serving, Recorded, Basics;
    if n > 0 {
      var q, next := EdgeSteps(g, p, bb, n - 1), Succ(g, bb)[n - 1];
      EdgesKeep(g, p, bb, n - 1);
      EdgesNest(g, p, bb, n - 1);
      BasicsMembers(q.items, next);
      EdgeServes(g, q, n - 1, next);
      EdgeNests(q, next);
      if Nested(p.items) && NoHeaders(p) && EdgesFit(g, p, bb, n) {
        EdgeHeaders(g, q, next);
      }
    }
  }

  lemma PlaceDone(g: Graph, p: Progress, n: nat)
    requires p.i < |p.items| && Invariant(g, p, n) && (p.items[p.i].Basic? ==> n == |Succ(g, p.items[p.i].bb)|)
    ensures Invariant(g, p.(i := p.i + 1), 0)
  {
    hide Shaped, EdgeServed;
    forall w | w in p.placed
      ensures OpensBefore(p.items, p.i + 1, w)
    {
      var s :| 0 <= s < p.i && p.items[s] == StartBlock(w);
    }
    if p.i + 1 < |p.items| && p.items[p.i + 1].Basic? {
      assert Succ(g, p.items[p.i + 1].bb)[..0] == [];
    }
  }

  lemma PlaceKeeps(g: Graph, p: Progress)
    requires p.i < |p.items| && ClosedItems(g, p.items) && Invariant(g, p, 0)
    ensures Invariant(g, PlaceStep(g, p), 0)
    ensures Nested(p.items) && NoHeaders(p) && PlaceFits(g, p) ==> NoHeaders(PlaceStep(g, p))
  {
    hide Nested, EdgesFit, EdgeSteps, Basics, Invariant, Recorded;
    if p.items[p.i].Basic? {
      var bb := p.items[p.i].bb;
      BasicsMembers(p.items, bb);
      EdgesKeep(g, p, bb, |Succ(g, bb)|);
      var q := EdgeSteps(g, p, bb, |Succ(g, bb)|);
      PlaceDone(g, q, |Succ(g, bb)|);
      HeadersMove(q, q.i + 1);
    } else {
      PlaceDone(g, p, 0);
      HeadersMove(p, p.i + 1);
    }
  }

  lemma HeadersMove(p: Progress, i: nat)
    ensures NoHeaders(p) ==> NoHeaders(p.(i := i))
  {
  }

  /** What the pass leaves: every edge served, and if all insertions fitted, no block
      for the header of a loop. */
  lemma {:induction false} PassKeeps(g: Graph, p: Progress) returns (placed: set<nat>)
    requires p.i <= |p.items| && ClosedItems(g, p.items) && Invariant(g, p, 0)
    ensures var r := PassFrom(g, p); Invariant(g, Progress(r, |r|, placed), 0)
    ensures Nested(p.items) && NoHeaders(p) && PassFits(g, p) ==> NoHeaders(Progress(PassFrom(g, p), 0, placed))
    decreases |Basics(p.items)| - |Basics(p.items[..p.i])|, |p.items| - p.i
  {
    if p.i < |p.items| {
      PlaceStepCounts(g, p);
      InvariantRecorded(g, p);
      hide Nested, PlaceFits, PlaceStep, Invariant, Recorded, Basics, ClosedItems, NoHeaders;
      PlaceKeeps(g, p);
      PlaceNests(g, p);
      placed := PassKeeps(g, PlaceStep(g, p));
    } else {
      placed := p.placed;
    }
  }

  lemma InvariantRecorded(g: Graph, p: Progress)
    requires Invariant(g, p, 0)
    ensures Recorded(p)
  {
  }

  // ---- In a nested result every label is there.

  predicate LabelIs(k: nat, b: nat) {
    k == 2 * b || k == 2 * b + 1
  }

  /** The labels that tell loops from blocks, and the plain ones. */
  predicate LabelsAre(ks: seq<nat>, s: seq<nat>) {
    |ks| == |s| && forall x :: 0 <= x < |ks| ==> LabelIs(ks[x], s[x])
  }

  lemma SameLabel(k: nat, b: nat, b': nat)
    requires LabelIs(k, b) && LabelIs(k, b')
    ensures b == b'
  {
  }

  lemma KindLabel(x: SeqItem)
    ensures !x.Basic? ==> LabelIs(Kind(x).bb, x.bb)
    ensures IsStart(Kind(x)) == IsStart(x) && IsEnd(Kind(x)) == IsEnd(x) && Kind(x).Basic? == x.Basic?
  {
  }

  /** If the former match, so do the latter. */
  lemma {:induction false} PlainScan(items: seq<SeqItem>)
    requires Scan(Kinds(items)).Some?
    ensures Scan(items).Some? && LabelsAre(Scan(Kinds(items)).value, Scan(items).value)
  {
    hide Scan, Kind, LabelIs;
    if items == [] {
      NothingOpen(items, Kinds(items));
    } else {
      var n := |items| - 1;
      var x := items[n];
      KindsTake(items, n);
      assert Kinds(items) == Kinds(items[..n]) + [Kind(x)];
      assert items == items[..n] + [x];
      ScanSnoc(Kinds(items[..n]), Kind(x));
      ScanSnoc(items[..n], x);
      PlainScan(items[..n]);
      KindLabel(x);
      if IsEnd(x) {
        var ks, s := Scan(Kinds(items[..n])).value, Scan(items[..n]).value;
        SameLabel(ks[|ks| - 1], s[|s| - 1], x.bb);
      }
    }
  }

  lemma NothingOpen(a: seq<SeqItem>, b: seq<SeqItem>)
    requires a == [] && b == []
    ensures Scan(a) == Some([]) && Scan(b) == Some([])
  {
  }

  /** An open label is open until an `end` for it. */
  lemma {:induction false} OpenInside(items: seq<SeqItem>, s: nat, i: nat)
    requires s < i <= |items| && IsStart(items[s]) && Scan(items[..i]).Some?
    requires forall q :: s < q < i && IsEnd(items[q]) ==> items[q].bb != items[s].bb
    ensures items[s].bb in Scan(items[..i]).value
    decreases i
  {
    hide Scan;
    assert items[..i] == items[..i - 1] + [items[i - 1]];
    ScanSnoc(items[..i - 1], items[i - 1]);
    if i > s + 1 {
      OpenInside(items, s, i - 1);
      var open := Scan(items[..i - 1]).value;
      var x :| 0 <= x < |open| && open[x] == items[s].bb;
      if IsEnd(items[i - 1]) {
        assert open[..|open| - 1][x] == open[x];
      } else if IsStart(items[i - 1]) {
        assert (open + [items[i - 1].bb])[x] == open[x];
      }
    } else if Scan(items[..s]).Some? {
      var open := Scan(items[..s]).value;
      assert (open + [items[s].bb])[|open|] == items[s].bb;
    }
  }

  /** The end of a loop has a start. */
  lemma EndHasStart(items: seq<SeqItem>, e: nat)
    requires Nested(items) && e < |items| && items[e].EndLoop?
    ensures StartLoop(items[e].bb) in items
  {
    hide Scan;
    var kinds := Kinds(items);
    ScanNext(kinds, e);
    var open := Scan(kinds[..e]).value;
    OpenIsUsed(kinds[..e], |open| - 1);
    var q :| 0 <= q < e && IsStart(kinds[..e][q]) && kinds[..e][q].bb == open[|open| - 1];
    assert kinds[q] == Kind(items[q]);
    OddIsLoop(items[q], items[e].bb);
    assert items[q] in items;
  }

  lemma OddIsLoop(x: SeqItem, h: nat)
    requires IsStart(x) && Kind(x).bb == 2 * h + 1
    ensures x == StartLoop(h)
  {
  }

  /** A finished sequence whose brackets match and where no loop header has a block. */
  ghost predicate Settled(g: Graph, items: seq<SeqItem>, placed: set<nat>) {
    && Nested(items) && Invariant(g, Progress(items, |items|, placed), 0)
    && NoHeaders(Progress(items, |items|, placed))
  }

  /** Block ends are for placed blocks, which are not headers. */
  lemma BlockNotLoop(g: Graph, items: seq<SeqItem>, placed: set<nat>, q: nat, e: nat)
    requires Settled(g, items, placed) && q < |items| && e < |items|
    requires (items[q].StartBlock? || items[q].EndBlock?) && items[e].EndLoop?
    ensures items[q].bb != items[e].bb
  {
    hide Nested, Shaped, Serving;
    EndHasStart(items, e);
  }

  /** At block b's place: an edge that leads back has its loop open. */
  lemma BackFound(g: Graph, items: seq<SeqItem>, placed: set<nat>, i: nat, w: nat)
    requires Settled(g, items, placed) && i < |items| && items[i].Basic? && w in Succ(g, items[i].bb)
    requires Precedes(Basics(items), w, items[i].bb) && Scan(items[..i]).Some?
    ensures w in Scan(items[..i]).value
  {
    hide Scan, Nested, HeadFollows, TargetFollows, Distinct, Precedes, Serving, Basics;
    assert BackOk(g, items, i);
    assert BackOpen(items, i, w);
    var s :| 0 <= s < i && items[s] == StartLoop(w) && StillOpen(items, s, i, w);
    forall q | s < q < i && IsEnd(items[q])
      ensures items[q].bb != w
    {
      if items[q].EndBlock? {
        assert items[q].bb in placed;
        assert items[s] in items;
      }
    }
    OpenInside(items, s, i);
  }

  /** An edge that leads on, but not to the next block, has its block open. */
  lemma ForwardFound(g: Graph, items: seq<SeqItem>, placed: set<nat>, i: nat, w: nat)
    requires Settled(g, items, placed) && i < |items| && items[i].Basic? && w in Succ(g, items[i].bb)
    requires !Precedes(Basics(items), w, items[i].bb) && !Adjacent(Basics(items), items[i].bb, w) && Scan(items[..i]).Some?
    ensures w in Scan(items[..i]).value
  {
    hide *;
    var s := ServedAt(g, items, placed, i, w);
    BlockFound(g, items, placed, i, w, s);
  }

  /** A block is open until its target. */
  lemma BlockFound(g: Graph, items: seq<SeqItem>, placed: set<nat>, i: nat, w: nat, s: nat)
    requires Settled(g, items, placed) && s < i < |items| && items[i].Basic? && items[s] == StartBlock(w)
    requires !Precedes(Basics(items), w, items[i].bb) && Scan(items[..i]).Some?
    ensures w in Scan(items[..i]).value
  {
    hide *;
    forall q | s < q < i && IsEnd(items[q])
      ensures items[q].bb != w
    {
      EndIsOther(g, items, placed, s, q, i, w);
    }
    BlockStarts(items[s]);
    OpenInside(items, s, i);
  }

  lemma BlockStarts(x: SeqItem)
    requires x.StartBlock?
    ensures IsStart(x)
  {
  }

  lemma EndIsOther(g: Graph, items: seq<SeqItem>, placed: set<nat>, s: nat, q: nat, i: nat, w: nat)
    requires Settled(g, items, placed) && s < q < i < |items| && items[s] == StartBlock(w) && IsEnd(items[q])
    requires items[i].Basic? && !Precedes(Basics(items), w, items[i].bb)
    ensures items[q].bb != w
  {
    hide Nested, Serving, Basics, Precedes;
    if items[q].EndLoop? {
      BlockNotLoop(g, items, placed, s, q);
    } else {
      assert TargetFollows(items, q);
      var m :| q < m < |items| && items[m] == Basic(items[q].bb) && forall x :: q < x < m ==> !items[x].Basic?;
      assert m <= i;
      PlacePrecedes(items, m, i);
    }
  }

  /** What running the code relies on. */
  ghost predicate Runnable(g: Graph, items: seq<SeqItem>) {
    && Complete(g) && Emittable(g, items) && Scan(items) == Some([])
    && (forall s :: 0 <= s < |items| && items[s].StartLoop? ==> HeadFollows(items, s))
    && (forall e :: 0 <= e < |items| && items[e].EndBlock? ==> TargetFollows(items, e))
    && (forall s, e :: 0 <= s < |items| && 0 <= e < |items| && items[s].StartBlock? && items[e].EndLoop? ==>
          items[s].bb != items[e].bb)
  }

  /** Every block that names itself is the header of a loop. */
  predicate SelfLooped(g: Graph, items: seq<SeqItem>) {
    forall b :: b in Basics(items) && b in Succ(g, b) ==> StartLoop(b) in items
  }

  /** Both branches of b lead to x. */
  predicate IsTwin(g: Graph, b: nat, x: nat) {
    b < |g| && g[b] == If(x, x)
  }

  /** Some block before the one at place q leads to the one behind it. */
  predicate EarlierEdge(g: Graph, order: seq<nat>, q: nat)
    requires q + 1 < |order|
  {
    exists p :: 0 <= p < q && order[q + 1] in Succ(g, order[p])
  }

  /** Where both branches of a block lead to the next one, an earlier block leads there
      too: a two-way exit makes a jump even if the next block is all that it names. */
  predicate TwinsLabelled(g: Graph, order: seq<nat>) {
    forall q :: 0 <= q < |order| - 1 && IsTwin(g, order[q], order[q + 1]) ==> EarlierEdge(g, order, q)
  }

  /** What a linear sequence needs for all its jumps to have labels. */
  predicate Labelled(g: Graph, items: seq<SeqItem>) {
    SelfLooped(g, items) && TwinsLabelled(g, Basics(items))
  }

  lemma SuccessorFound(g: Graph, items: seq<SeqItem>, placed: set<nat>, i: nat, w: nat)
    requires Settled(g, items, placed) && i < |items| && items[i].Basic? && w in Succ(g, items[i].bb)
    requires Scan(items[..i]).Some?
    ensures FirstBasic(items[i + 1..]) == Some(w) || w in Scan(items[..i]).value
  {
    SettledDistinct(g, items, placed);
    hide *;
    if Precedes(Basics(items), w, items[i].bb) {
      BackFound(g, items, placed, i, w);
    } else if Adjacent(Basics(items), items[i].bb, w) {
      NextIsAdjacent(items, i, w);
    } else {
      ForwardFound(g, items, placed, i, w);
    }
  }

  lemma SettledDistinct(g: Graph, items: seq<SeqItem>, placed: set<nat>)
    requires Settled(g, items, placed)
    ensures Distinct(Basics(items))
  {
  }

  lemma ExitFound(g: Graph, items: seq<SeqItem>, placed: set<nat>, i: nat)
    requires Settled(g, items, placed) && Complete(g) && TwinsLabelled(g, Basics(items))
    requires i < |items| && items[i].Basic? && items[i].bb < |g| && Scan(items[..i]).Some?
    ensures ExitOk(g[items[i].bb], FirstBasic(items[i + 1..]), items[..i])
  {
    hide Settled, Scan, FirstBasic, LabelFor, TwinsLabelled, Basics;
    OpenHasLabel(items[..i]);
    var bb := items[i].bb;
    assert !g[bb].NoOut?;
    if g[bb].If? {
      SuccessorFound(g, items, placed, i, g[bb].t);
      SuccessorFound(g, items, placed, i, g[bb].f);
      if g[bb].f == g[bb].t && FirstBasic(items[i + 1..]) == Some(g[bb].t) {
        TwinFound(g, items, placed, i, g[bb].t);
      }
    } else if g[bb].Next? {
      SuccessorFound(g, items, placed, i, g[bb].bb);
    }
  }

  /** A two-way exit to the next block alone: the earlier edge has had a block placed. */
  lemma TwinFound(g: Graph, items: seq<SeqItem>, placed: set<nat>, i: nat, x: nat)
    requires Settled(g, items, placed) && TwinsLabelled(g, Basics(items)) && i < |items| && items[i].Basic?
    requires IsTwin(g, items[i].bb, x) && FirstBasic(items[i + 1..]) == Some(x) && Scan(items[..i]).Some?
    ensures x in Scan(items[..i]).value
  {
    SettledDistinct(g, items, placed);
    hide *;
    var order := Basics(items);
    var q := NextInOrder(items, i, x);
    var p := EarlierOf(g, order, q);
    var i' := PlaceOf(items, p, q, i);
    NotPrecedes(order, p, q + 1);
    NotPrecedes(order, q, q + 1);
    NotAdjacent(order, p, q + 1);
    var s := ServedAt(g, items, placed, i', x);
    BlockFound(g, items, placed, i, x, s);
  }

  /** The next block is the next one in the order. */
  lemma NextInOrder(items: seq<SeqItem>, i: nat, x: nat) returns (q: nat)
    requires i < |items| && items[i].Basic? && FirstBasic(items[i + 1..]) == Some(x)
    ensures q + 1 < |Basics(items)| && Basics(items)[q] == items[i].bb && Basics(items)[q + 1] == x
  {
    BasicsAt(items, i);
    FirstBasicIs(items[i + 1..]);
    hide Basics, FirstBasic;
    q := |Basics(items[..i])|;
  }

  lemma EarlierOf(g: Graph, order: seq<nat>, q: nat) returns (p: nat)
    requires TwinsLabelled(g, order) && q + 1 < |order| && IsTwin(g, order[q], order[q + 1])
    ensures p < q && order[q + 1] in Succ(g, order[p])
  {
    assert EarlierEdge(g, order, q);
    p :| 0 <= p < q && order[q + 1] in Succ(g, order[p]);
  }

  /** A block before another one in the order stands before it. */
  lemma PlaceOf(items: seq<SeqItem>, p: nat, q: nat, i: nat) returns (i': nat)
    requires Distinct(Basics(items)) && p < q < |Basics(items)| && i < |items| && items[i] == Basic(Basics(items)[q])
    ensures i' < i && items[i'] == Basic(Basics(items)[p])
  {
    BasicsMembers(items, Basics(items)[p]);
    hide Basics;
    i' :| 0 <= i' < |items| && items[i'] == Basic(Basics(items)[p]);
    PlacePrecedes(items, i', i);
    assert Precedes(Basics(items), items[i'].bb, items[i].bb);
  }

  lemma NotAdjacent(order: seq<nat>, p: nat, r: nat)
    requires Distinct(order) && p + 1 < r < |order|
    ensures !Adjacent(order, order[p], order[r])
  {
  }

  /** An edge that leads on, but not to the next block, has had its block opened. */
  lemma ServedAt(g: Graph, items: seq<SeqItem>, placed: set<nat>, i: nat, w: nat) returns (s: nat)
    requires Settled(g, items, placed) && i < |items| && items[i].Basic? && w in Succ(g, items[i].bb)
    requires !Precedes(Basics(items), w, items[i].bb) && !Adjacent(Basics(items), items[i].bb, w)
    ensures s < i && items[s] == StartBlock(w)
  {
    var b := items[i].bb;
    assert BlockServed(g, items, i, |Succ(g, b)|);
    assert Succ(g, b)[..|Succ(g, b)|] == Succ(g, b);
    assert EdgeServed(items, i, b, w);
    assert Served(Basics(items), items, i, b, w);
    s :| 0 <= s < i && items[s] == StartBlock(w);
  }

  /** In a well-nested result of the pass every exit finds its labels. */
  lemma SettledRunnable(g: Graph, items: seq<SeqItem>, placed: set<nat>)
    requires Settled(g, items, placed) && Complete(g) && TwinsLabelled(g, Basics(items))
    requires forall i :: 0 <= i < |items| && items[i].Basic? ==> items[i].bb < |g|
    ensures Runnable(g, items)
  {
    PlainScan(items);
    hide Scan, ExitOk, FirstBasic, Kinds, Serving, Recorded, NoHeaders, HeadFollows, TargetFollows, BackOk, CanPop, TwinsLabelled;
    forall i | 0 <= i < |items|
      ensures ItemOk(g, items, i)
    {
      ScanPrefix(items, i);
      if items[i].Basic? {
        ExitFound(g, items, placed, i);
      } else if IsEnd(items[i]) {
        EndPops(items, i);
      }
    }
    forall s, e | 0 <= s < |items| && 0 <= e < |items| && items[s].StartBlock? && items[e].EndLoop?
      ensures items[s].bb != items[e].bb
    {
      BlockNotLoop(g, items, placed, s, e);
    }
  }
}
