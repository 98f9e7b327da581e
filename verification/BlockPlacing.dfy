/** The whole pass that inserts `block`/`end` pairs, and what it achieves on a
    loop-free sequence. */
module BlockPlacing {
  import opened Options
  import opened ControlFlow
  import opened Linear
  import opened BlockInsertion

  ghost predicate Distinct(s: seq<nat>) {
    forall p, q :: 0 <= p < q < |s| ==> s[p] != s[q]
  }

  /** w stands directly after b. */
  ghost predicate Adjacent(order: seq<nat>, b: nat, w: nat) {
    exists q :: 0 <= q && q + 1 < |order| && order[q] == b && order[q + 1] == w
  }

  /** Different blocks, each edge leading to a later one. */
  ghost predicate Forward(g: Graph, order: seq<nat>) {
    && Distinct(order)
    && forall q, w :: 0 <= q < |order| && w in Succ(g, order[q]) ==> w in order[q + 1..]
  }

  predicate NoLoopItem(items: seq<SeqItem>) {
    forall p :: 0 <= p < |items| ==> !items[p].StartLoop? && !items[p].EndLoop?
  }

  predicate OnlyBasic(items: seq<SeqItem>) {
    forall p :: 0 <= p < |items| ==> items[p].Basic?
  }

  /** Control gets from b to w: w comes next, or a block for w is already open. */
  ghost predicate Served(order: seq<nat>, items: seq<SeqItem>, p: nat, b: nat, w: nat)
    requires p <= |items|
  {
    Adjacent(order, b, w) || exists s :: 0 <= s < p && items[s] == StartBlock(w)
  }

  /** Each placed block closes directly before its target. */
  ghost predicate ClosesBefore(items: seq<SeqItem>, w: nat) {
    exists e :: 0 <= e && e + 1 < |items| && items[e] == EndBlock(w) && items[e + 1] == Basic(w)
  }

  /** All edges of blocks before i are served, and the first n of the one at i. */
  ghost predicate AllServed(g: Graph, order: seq<nat>, items: seq<SeqItem>, i: nat, n: nat) {
    && (forall p, w :: 0 <= p < i && p < |items| && items[p].Basic? && w in Succ(g, items[p].bb) ==>
          Served(order, items, p, items[p].bb, w))
    && (i < |items| && items[i].Basic? ==>
          n <= |Succ(g, items[i].bb)|
          && forall w :: w in Succ(g, items[i].bb)[..n] ==> Served(order, items, i, items[i].bb, w))
  }

  /** Shape of a loop-free sequence while blocks are placed. */
  ghost predicate Shape(order: seq<nat>, items: seq<SeqItem>, c: nat, placed: set<nat>) {
    && Chain(items, c)
    && NoLoopItem(items)
    && Basics(items) == order
    && Distinct(Marks(items[..c]))
    && (forall w :: w in placed <==> w in Marks(items[..c]))
    && (forall w :: w in placed ==> ClosesBefore(items, w))
  }

  // ---- Basic blocks and their places.

  lemma {:induction false} BasicsMembers(items: seq<SeqItem>, b: nat)
    ensures b in Basics(items) <==> Basic(b) in items
  {
    if items != [] {
      var n := |items| - 1;
      BasicsMembers(items[..n], b);
      assert items == items[..n] + [items[n]];
    }
  }

  lemma BasicsAt(items: seq<SeqItem>, p: nat)
    requires p < |items| && items[p].Basic?
    ensures Basics(items) == Basics(items[..p]) + [items[p].bb] + Basics(items[p + 1..])
    ensures Basics(items[..p + 1]) == Basics(items[..p]) + [items[p].bb]
  {
    assert items == items[..p + 1] + items[p + 1..];
    BasicsConcat(items[..p + 1], items[p + 1..]);
    assert items[..p + 1][..p] == items[..p];
  }

  lemma {:induction false} FirstBasicIs(items: seq<SeqItem>)
    ensures FirstBasic(items) == if Basics(items) == [] then None else Some(Basics(items)[0])
  {
    if items != [] {
      FirstBasicIs(items[1..]);
      assert items == [items[0]] + items[1..];
      BasicsConcat([items[0]], items[1..]);
      assert Basics([items[0]]) == if items[0].Basic? then [items[0].bb] else [];
    }
  }

  /** The test for the next block is adjacency in the order of blocks. */
  lemma NextIsAdjacent(items: seq<SeqItem>, p: nat, w: nat)
    requires p < |items| && items[p].Basic? && Distinct(Basics(items))
    ensures FirstBasic(items[p + 1..]) == Some(w) <==> Adjacent(Basics(items), items[p].bb, w)
  {
    var order := Basics(items);
    BasicsAt(items, p);
    FirstBasicIs(items[p + 1..]);
    var q := |Basics(items[..p])|;
    assert order[q] == items[p].bb;
    if FirstBasic(items[p + 1..]) == Some(w) {
      assert order[q + 1] == w;
    }
  }

  /** A forward edge's target stands strictly later. */
  lemma TargetLater(g: Graph, items: seq<SeqItem>, i: nat, w: nat)
    requires i < |items| && items[i].Basic? && Forward(g, Basics(items)) && w in Succ(g, items[i].bb)
    ensures w !in Basics(items[..i + 1])
  {
    var order := Basics(items);
    BasicsAt(items, i);
    var q := |Basics(items[..i])|;
    assert order[q] == items[i].bb;
    var r :| q + 1 <= r < |order| && order[r] == w;
    assert Basics(items[..i + 1]) == order[..q + 1];
  }

  // ---- Index bookkeeping of one insertion.

  function Shift(p: nat, k: nat, j: nat): nat {
    if p < k then p else if p < j then p + 1 else p + 2
  }

  lemma InsertedAt(items: seq<SeqItem>, k: nat, j: nat, next: nat, p: nat)
    requires k <= j <= |items| && p < |items|
    ensures Inserted(items, k, j, next)[Shift(p, k, j)] == items[p]
  {
  }

  lemma InsertedNew(items: seq<SeqItem>, k: nat, j: nat, next: nat)
    requires k <= j <= |items|
    ensures var r := Inserted(items, k, j, next);
            |r| == |items| + 2 && r[k] == StartBlock(next) && r[j + 1] == EndBlock(next)
    ensures j < |items| ==> Inserted(items, k, j, next)[j + 2] == items[j]
  {
  }

  /** Every place of the result is one of the two new ones or a shifted old one. */
  lemma InsertedFrom(items: seq<SeqItem>, k: nat, j: nat, next: nat, p': nat) returns (p: nat)
    requires k <= j <= |items| && p' < |items| + 2 && p' != k && p' != j + 1
    ensures p < |items| && Shift(p, k, j) == p' && Inserted(items, k, j, next)[p'] == items[p]
  {
    p := if p' < k then p' else if p' <= j then p' - 1 else p' - 2;
  }

  lemma BasicsAround(a: seq<SeqItem>, x: SeqItem, b: seq<SeqItem>)
    requires !x.Basic?
    ensures Basics(a + [x] + b) == Basics(a) + Basics(b)
  {
    assert Basics([x]) == [];
    BasicsConcat(a + [x], b);
    BasicsConcat(a, [x]);
  }

  lemma InsertedBasics(items: seq<SeqItem>, k: nat, j: nat, next: nat)
    requires k <= j <= |items|
    ensures Basics(Inserted(items, k, j, next)) == Basics(items)
  {
    hide Basics;
    var a, b, c := items[..k], items[k..j], items[j..];
    BasicsAround(a + [StartBlock(next)] + b, EndBlock(next), c);
    BasicsAround(a, StartBlock(next), b);
    BasicsConcat(a, b);
    BasicsConcat(a + b, c);
    assert items == a + b + c;
  }

  lemma InsertedPrefixBasics(items: seq<SeqItem>, k: nat, j: nat, next: nat, i: nat)
    requires k <= i < j <= |items|
    ensures Basics(Inserted(items, k, j, next)[..i + 2]) == Basics(items[..i + 1])
  {
    var r := Inserted(items, k, j, next);
    InsertedPrefix(items, k, j, next, i + 1);
    BasicsConcat(items[..k] + [StartBlock(next)], items[k..i + 1]);
    BasicsConcat(items[..k], [StartBlock(next)]);
    assert Basics([StartBlock(next)]) == [];
    assert items[..i + 1] == items[..k] + items[k..i + 1];
    BasicsConcat(items[..k], items[k..i + 1]);
  }

  // ---- What one insertion keeps.

  lemma NoEndAt(items: seq<SeqItem>, k: nat, e: nat)
    requires k <= |items|
    ensures NoEnd(items[..k]) && e < k ==> !IsEnd(items[e])
  {
    assert e < k ==> items[..k][e] == items[e];
  }

  lemma NoStartAt(items: seq<SeqItem>, i: nat, s: nat)
    requires i <= |items| && s < |items|
    ensures NoStart(items[i..]) && i <= s ==> !IsStart(items[s])
  {
    assert i <= s ==> items[i..][s - i] == items[s];
  }

  lemma ClosesKept(items: seq<SeqItem>, k: nat, j: nat, next: nat, w: nat)
    requires k <= j < |items| && items[j] == Basic(next) && w != next
    requires ClosesBefore(items, w)
    requires k == 0 || IsStart(items[k]) || NoEnd(items[..k])
    ensures ClosesBefore(Inserted(items, k, j, next), w)
  {
    var e :| 0 <= e && e + 1 < |items| && items[e] == EndBlock(w) && items[e + 1] == Basic(w);
    var r := Inserted(items, k, j, next);
    InsertedNew(items, k, j, next);
    assert e + 1 != j;
    NoEndAt(items, k, e);
    InsertedAt(items, k, j, next, e);
    InsertedAt(items, k, j, next, e + 1);
    assert r[Shift(e, k, j)] == EndBlock(w) && r[Shift(e, k, j) + 1] == Basic(w);
  }

  lemma ServedKept(order: seq<nat>, items: seq<SeqItem>, k: nat, j: nat, next: nat, p: nat, b: nat, w: nat)
    requires k <= j <= |items| && p < |items| && Served(order, items, p, b, w)
    ensures Shift(p, k, j) <= |items| + 2
    ensures Served(order, Inserted(items, k, j, next), Shift(p, k, j), b, w)
  {
    if !Adjacent(order, b, w) {
      var s :| 0 <= s < p && items[s] == StartBlock(w);
      InsertedAt(items, k, j, next, s);
      assert Shift(s, k, j) < Shift(p, k, j);
    }
  }

  lemma NoLoopKept(items: seq<SeqItem>, k: nat, j: nat, next: nat)
    requires k <= j <= |items| && NoLoopItem(items)
    ensures NoLoopItem(Inserted(items, k, j, next))
  {
    var r := Inserted(items, k, j, next);
    forall p | 0 <= p < |r|
      ensures !r[p].StartLoop? && !r[p].EndLoop?
    {
      InsertedNew(items, k, j, next);
      if p != k && p != j + 1 {
        var q := InsertedFrom(items, k, j, next, p);
      }
    }
  }

  lemma InsertedPrefix(items: seq<SeqItem>, k: nat, j: nat, next: nat, c: nat)
    requires k <= c <= j <= |items|
    ensures c + 1 <= |Inserted(items, k, j, next)|
    ensures Inserted(items, k, j, next)[..c + 1] == items[..k] + [StartBlock(next)] + items[k..c]
  {
    var l, r := items[..k] + [StartBlock(next)] + items[k..c], items[c..j] + [EndBlock(next)] + items[j..];
    assert items[k..j] == items[k..c] + items[c..j];
    assert Inserted(items, k, j, next) == l + r;
    assert (l + r)[..|l|] == l;
  }

  /** The opened labels after an insertion: the new one among the old. */
  lemma MarksInserted(items: seq<SeqItem>, k: nat, c: nat, j: nat, next: nat)
    requires k <= c <= j <= |items|
    ensures Marks(items[..c]) == Marks(items[..k]) + Marks(items[k..c])
    ensures Marks(Inserted(items, k, j, next)[..c + 1]) == Marks(items[..k]) + [next] + Marks(items[k..c])
  {
    var s := [StartBlock(next)];
    assert Marks(s) == [next];
    hide Marks;
    assert items[..c] == items[..k] + items[k..c];
    MarksConcat(items[..k], items[k..c]);
    var r := Inserted(items, k, j, next);
    InsertedPrefix(items, k, j, next, c);
    MarksConcat(items[..k] + s, items[k..c]);
    MarksConcat(items[..k], s);
  }

  lemma DistinctInsert(a: seq<nat>, x: nat, b: seq<nat>)
    requires Distinct(a + b) && x !in a + b
    ensures Distinct(a + [x] + b)
    ensures forall w :: w in a + [x] + b <==> w == x || w in a + b
  {
    var l, r := a + b, a + [x] + b;
    forall p, q | 0 <= p < q < |r|
      ensures r[p] != r[q]
    {
      var p', q' := if p <= |a| then p else p - 1, if q <= |a| then q else q - 1;
      if p != |a| && q != |a| {
        assert r[p] == l[p'] && r[q] == l[q'];
      } else if p == |a| {
        assert r[q] == l[q'];
      } else {
        assert r[p] == l[p'];
      }
    }
  }

  lemma ShapeKept(order: seq<nat>, items: seq<SeqItem>, c: nat, placed: set<nat>, k: nat, j: nat, next: nat)
    requires Shape(order, items, c, placed) && next !in placed
    requires k <= c <= j < |items| && items[j] == Basic(next)
    requires |Marks(items[..k])| == |Marks(items[j..])|
    requires k == 0 || IsStart(items[k]) || NoEnd(items[..k])
    ensures Shape(order, Inserted(items, k, j, next), c + 1, placed + {next})
  {
    hide Chain, NoEnd, NoLoopItem, Basics, Marks;
    var r := Inserted(items, k, j, next);
    ChainInsert(items, c, k, j, next);
    NoLoopKept(items, k, j, next);
    InsertedBasics(items, k, j, next);
    MarksInserted(items, k, c, j, next);
    DistinctInsert(Marks(items[..k]), next, Marks(items[k..c]));
    forall w | w in placed + {next}
      ensures ClosesBefore(r, w)
    {
      InsertedNew(items, k, j, next);
      if w == next {
        assert r[j + 1] == EndBlock(w) && r[j + 1 + 1] == Basic(w);
      } else {
        ClosesKept(items, k, j, next, w);
      }
    }
  }

  lemma AllServedKept(g: Graph, order: seq<nat>, items: seq<SeqItem>, k: nat, j: nat, next: nat, i: nat, n: nat)
    requires AllServed(g, order, items, i, n) && k <= i < j <= |items|
    requires items[i].Basic? && n < |Succ(g, items[i].bb)| && next == Succ(g, items[i].bb)[n]
    ensures AllServed(g, order, Inserted(items, k, j, next), i + 1, n + 1)
  {
    var r := Inserted(items, k, j, next);
    InsertedNew(items, k, j, next);
    forall p', w | 0 <= p' < i + 1 && p' < |r| && r[p'].Basic? && w in Succ(g, r[p'].bb)
      ensures Served(order, r, p', r[p'].bb, w)
    {
      var p := InsertedFrom(items, k, j, next, p');
      ServedKept(order, items, k, j, next, p, items[p].bb, w);
    }
    InsertedAt(items, k, j, next, i);
    var bb := items[i].bb;
    var handled := Succ(g, bb)[..n + 1];
    forall w | w in handled
      ensures Served(order, r, i + 1, bb, w)
    {
      if w == next {
        assert r[k] == StartBlock(w);
      } else {
        assert w in Succ(g, bb)[..n];
        ServedKept(order, items, k, j, next, i, bb, w);
      }
    }
  }

  /** The cut of a chain does not matter to its labels. */
  lemma ChainMarks(items: seq<SeqItem>, c: nat, c': nat)
    requires Chain(items, c) && Chain(items, c')
    ensures Marks(items[..c]) == Marks(items[..c'])
  {
    HalfMarks(items, c);
    HalfMarks(items, c');
  }

  lemma HalfMarks(items: seq<SeqItem>, c: nat)
    requires Chain(items, c)
    ensures Marks(items[..c]) == Marks(items)[..|Marks(items)| / 2]
  {
    hide Marks;
    assert items == items[..c] + items[c..];
    MarksConcat(items[..c], items[c..]);
  }

  /** Some edge to w does not lead to the next block. */
  ghost predicate Jumps(g: Graph, order: seq<nat>, w: nat) {
    exists b :: b in order && w in Succ(g, b) && !Adjacent(order, b, w)
  }

  /** While blocks before i have their edges served and the first n edges of the
      one at i are, nothing opens from i on; each placed block is for some jump. */
  ghost predicate Placing(g: Graph, order: seq<nat>, items: seq<SeqItem>, i: nat, n: nat, c: nat, placed: set<nat>) {
    && i <= |items| && NoStart(items[i..])
    && Shape(order, items, c, placed)
    && AllServed(g, order, items, i, n)
    && (forall w :: w in placed ==> Jumps(g, order, w))
  }

  lemma PlaceOne(g: Graph, order: seq<nat>, items: seq<SeqItem>, i: nat, n: nat, next: nat, c: nat, placed: set<nat>)
    returns (c': nat)
    requires Placing(g, order, items, i, n, c, placed)
    requires i < |items| && items[i].Basic? && n < |Succ(g, items[i].bb)| && next == Succ(g, items[i].bb)[n]
    requires next !in placed && Basic(next) in items && NodeBackwards(items, next).0 > i
    requires !Adjacent(order, items[i].bb, next)
    ensures Placing(g, order, InsertPair(items, i, next), i + 1, n + 1, c', placed + {next})
  {
    hide Chain, Marks, Forward, NodeBackwards, NoEnd, AllServed, Shape, InsertPair, Inserted, Succ, NoStart, Adjacent;
    ShapeChain(order, items, c, placed);
    ShapeOrder(order, items, c, placed, i);
    var c1, j, k := ChainPlaces(items, c, i, next);
    ShapeMoved(order, items, c, c1, placed);
    PlacedPair(g, order, items, i, n, next, c1, placed, k, j);
    c' := c1 + 1;
  }

  lemma PlacedPair(g: Graph, order: seq<nat>, items: seq<SeqItem>, i: nat, n: nat, next: nat, c: nat, placed: set<nat>,
                   k: nat, j: nat)
    requires Shape(order, items, c, placed) && AllServed(g, order, items, i, n)
    requires k <= c <= j && k <= i < j < |items| && NoStart(items[i..])
    requires items[i].Basic? && n < |Succ(g, items[i].bb)| && next == Succ(g, items[i].bb)[n]
    requires next !in placed && items[j] == Basic(next)
    requires forall w :: w in placed + {next} ==> Jumps(g, order, w)
    requires |Marks(items[..k])| == |Marks(items[j..])|
    requires k == 0 || IsStart(items[k]) || NoEnd(items[..k])
    ensures Placing(g, order, Inserted(items, k, j, next), i + 1, n + 1, c + 1, placed + {next})
  {
    hide Marks, NoEnd, AllServed, Shape, Succ, NoStart, Inserted, Jumps;
    ShapeKept(order, items, c, placed, k, j, next);
    AllServedKept(g, order, items, k, j, next, i, n);
    InsertedNoStart(items, k, j, next, i);
    InsertedLength(items, k, j, next);
  }

  lemma ShapeOrder(order: seq<nat>, items: seq<SeqItem>, c: nat, placed: set<nat>, i: nat)
    requires Shape(order, items, c, placed) && i < |items| && items[i].Basic?
    ensures items[i].bb in order
  {
    BasicsMembers(items, items[i].bb);
  }

  lemma ShapeChain(order: seq<nat>, items: seq<SeqItem>, c: nat, placed: set<nat>)
    requires Shape(order, items, c, placed)
    ensures Chain(items, c)
  {
  }

  /** The middle may be put anywhere between the last start and the first end. */
  lemma ShapeMoved(order: seq<nat>, items: seq<SeqItem>, c: nat, c': nat, placed: set<nat>)
    requires Shape(order, items, c, placed) && Chain(items, c')
    ensures Shape(order, items, c', placed)
  {
    ChainMarks(items, c, c');
    hide Chain, Marks;
  }

  lemma InsertedLength(items: seq<SeqItem>, k: nat, j: nat, next: nat)
    requires k <= j <= |items|
    ensures |Inserted(items, k, j, next)| == |items| + 2
  {
  }

  lemma InsertedNoStart(items: seq<SeqItem>, k: nat, j: nat, next: nat, i: nat)
    requires k <= i < j <= |items| && NoStart(items[i..])
    ensures NoStart(Inserted(items, k, j, next)[i + 1..])
  {
    var r := Inserted(items, k, j, next);
    InsertedNew(items, k, j, next);
    var tail := r[i + 1..];
    forall q | 0 <= q < |tail|
      ensures !IsStart(tail[q])
    {
      if q + i + 1 != j + 1 {
        var p := InsertedFrom(items, k, j, next, q + i + 1);
        assert items[p] == items[i..][p - i];
      }
    }
  }

  /** An edge that needs no insertion. */
  lemma ServeOne(g: Graph, order: seq<nat>, items: seq<SeqItem>, i: nat, n: nat, c: nat, placed: set<nat>)
    requires Placing(g, order, items, i, n, c, placed)
    requires i < |items| && items[i].Basic? && n < |Succ(g, items[i].bb)|
    requires var next := Succ(g, items[i].bb)[n]; next in placed || Adjacent(order, items[i].bb, next)
    ensures Placing(g, order, items, i, n + 1, c, placed)
  {
    var succ := Succ(g, items[i].bb);
    var next := succ[n];
    assert succ[..n + 1] == succ[..n] + [next];
    if next in placed {
      hide Adjacent, Forward, ClosesBefore, Jumps;
      OpenedBefore(items, c, i, next);
    }
  }

  lemma {:induction false} MarkIsStart(items: seq<SeqItem>, w: nat)
    requires NoEnd(items) && NoLoopItem(items) && w in Marks(items)
    ensures exists s :: 0 <= s < |items| && items[s] == StartBlock(w)
  {
    var n := |items| - 1;
    if items[n] != StartBlock(w) {
      MarkIsStart(items[..n], w);
      var s :| 0 <= s < n && items[..n][s] == StartBlock(w);
      assert items[s] == StartBlock(w);
    }
  }

  lemma OpenedBefore(items: seq<SeqItem>, c: nat, i: nat, w: nat)
    requires Chain(items, c) && NoLoopItem(items) && i <= |items| && NoStart(items[i..])
    requires w in Marks(items[..c])
    ensures exists s :: 0 <= s < i && items[s] == StartBlock(w)
  {
    MarkIsStart(items[..c], w);
    var s :| 0 <= s < c && items[..c][s] == StartBlock(w);
    assert items[s] == StartBlock(w);
    NoStartAt(items, i, s);
  }

  lemma NextPlace(g: Graph, order: seq<nat>, items: seq<SeqItem>, i: nat, n: nat, c: nat, placed: set<nat>)
    requires Placing(g, order, items, i, n, c, placed) && i < |items|
    requires items[i].Basic? ==> n == |Succ(g, items[i].bb)|
    ensures Placing(g, order, items, i + 1, 0, c, placed)
  {
    hide Chain, ClosesBefore, Served, Marks, Distinct, Jumps;
    NoStartSlice(items, i, i + 1, |items|);
    forall p, w | 0 <= p < i + 1 && items[p].Basic? && w in Succ(g, items[p].bb)
      ensures Served(order, items, p, items[p].bb, w)
    {
      if p == i {
        assert Succ(g, items[i].bb)[..n] == Succ(g, items[i].bb);
      }
    }
  }

  lemma PlacingStarts(g: Graph, items: seq<SeqItem>)
    requires OnlyBasic(items) && Forward(g, Basics(items))
    ensures Placing(g, Basics(items), items, 0, 0, 0, {})
  {
    assert items[0..] == items && items[..0] == [];
    NoMarks(items);
  }

  lemma TakeAt(items: seq<SeqItem>, n: nat, j: nat)
    requires n <= |items| && j < |items|
    ensures j < n ==> items[j] in items[..n]
  {
    assert j < n ==> items[..n][j] == items[j];
  }

  lemma NodeAfter(items: seq<SeqItem>, i: nat, next: nat)
    requires i < |items| && Basic(next) in items && next !in Basics(items[..i + 1])
    ensures NodeBackwards(items, next).0 > i
  {
    var j := NodeBackwards(items, next).0;
    BasicsMembers(items[..i + 1], next);
    TakeAt(items, i + 1, j);
  }

  /** What one insertion keeps on any sequence. */
  lemma InsertPairKeeps(items: seq<SeqItem>, i: nat, next: nat)
    requires i < |items| && Basic(next) in items && next !in Basics(items[..i + 1])
    ensures var r := InsertPair(items, i, next);
            Basics(r) == Basics(items) && i + 1 < |r| && r[i + 1] == items[i]
            && Basics(r[..i + 2]) == Basics(items[..i + 1])
  {
    hide Basics, NodeBackwards, LastStartAt, Depth;
    NodeAfter(items, i, next);
    var (j, depth) := NodeBackwards(items, next);
    var k := DepthForwards(items[..i], depth);
    InsertPairIs(items, i, j, k, next);
    hide InsertPair;
    assert InsertPair(items, i, next) == Inserted(items, k, j, next);
    InsertedBasics(items, k, j, next);
    InsertedPrefixBasics(items, k, j, next, i);
    InsertedAt(items, k, j, next, i);
  }

  // ---- The pass as a function.

  /** The sequence so far, the place reached, and the blocks that have been placed. */
  datatype Progress = Progress(items: seq<SeqItem>, i: nat, placed: set<nat>)

  /** An edge that neither leads back, nor to the next block, nor has its block yet. */
  predicate Wanted(p: Progress, next: nat)
    requires p.i < |p.items|
  {
    && next !in Basics(p.items[..p.i + 1])
    && FirstBasic(p.items[p.i + 1..]) != Some(next)
    && next !in p.placed
  }

  /** At the same basic block, which has the same ones before and after it. */
  predicate SameOrder(p: Progress, r: Progress) {
    && p.i < |p.items| && r.i < |r.items| && r.items[r.i] == p.items[p.i]
    && Basics(r.items) == Basics(p.items) && Basics(r.items[..r.i + 1]) == Basics(p.items[..p.i + 1])
  }

  function EdgeStep(p: Progress, next: nat): (r: Progress)
    requires p.i < |p.items| && Basic(next) in p.items
    ensures SameOrder(p, r)
  {
    if Wanted(p, next) then
      InsertPairKeeps(p.items, p.i, next);
      Progress(InsertPair(p.items, p.i, next), p.i + 1, p.placed + {next})
    else p
  }

  /** Blocks and successors are all there. */
  predicate ClosedItems(g: Graph, items: seq<SeqItem>) {
    forall b :: b in Basics(items) ==> b < |g| && forall w :: w in Succ(g, b) ==> w in Basics(items)
  }

  /** The first n edges of block bb. */
  function EdgeSteps(g: Graph, p: Progress, bb: nat, n: nat): (r: Progress)
    requires p.i < |p.items| && n <= |Succ(g, bb)| && forall w :: w in Succ(g, bb) ==> w in Basics(p.items)
    ensures SameOrder(p, r)
  {
    if n == 0 then p
    else
      var q := EdgeSteps(g, p, bb, n - 1);
      BasicsMembers(q.items, Succ(g, bb)[n - 1]);
      EdgeStep(q, Succ(g, bb)[n - 1])
  }

  /** One place of the sequence. */
  function PlaceStep(g: Graph, p: Progress): (r: Progress)
    requires p.i < |p.items| && ClosedItems(g, p.items)
    ensures r.i <= |r.items| && Basics(r.items) == Basics(p.items) && ClosedItems(g, r.items)
  {
    if p.items[p.i].Basic? then
      BasicsMembers(p.items, p.items[p.i].bb);
      var q := EdgeSteps(g, p, p.items[p.i].bb, |Succ(g, p.items[p.i].bb)|);
      q.(i := q.i + 1)
    else p.(i := p.i + 1)
  }

  function PassFrom(g: Graph, p: Progress): seq<SeqItem>
    requires p.i <= |p.items| && ClosedItems(g, p.items)
    decreases |Basics(p.items)| - |Basics(p.items[..p.i])|, |p.items| - p.i
  {
    if p.i == |p.items| then p.items
    else
      PlaceStepCounts(g, p);
      PassFrom(g, PlaceStep(g, p))
  }

  /** What the pass makes of a sequence. */
  function Pass(g: Graph, items: seq<SeqItem>): seq<SeqItem>
    requires ClosedItems(g, items)
  {
    PassFrom(g, Progress(items, 0, {}))
  }

  lemma StepCounts(items: seq<SeqItem>, i: nat)
    requires i < |items|
    ensures Basics(items[..i + 1]) == Basics(items[..i]) + if items[i].Basic? then [items[i].bb] else []
    ensures |Basics(items[..i + 1])| <= |Basics(items)|
  {
    assert items[..i + 1][..i] == items[..i];
    assert items == items[..i + 1] + items[i + 1..];
    BasicsConcat(items[..i + 1], items[i + 1..]);
  }

  lemma PlaceStepCounts(g: Graph, p: Progress)
    requires p.i < |p.items| && ClosedItems(g, p.items)
    ensures var r := PlaceStep(g, p);
            && |Basics(p.items[..p.i])| <= |Basics(p.items)| && |Basics(r.items[..r.i])| <= |Basics(r.items)|
            && if p.items[p.i].Basic? then |Basics(r.items[..r.i])| > |Basics(p.items[..p.i])|
               else Basics(r.items[..r.i]) == Basics(p.items[..p.i]) && r.items == p.items && r.i == p.i + 1
  {
    hide Basics;
    StepCounts(p.items, p.i);
    var r := PlaceStep(g, p);
    if p.items[p.i].Basic? {
      StepCounts(r.items, r.i - 1);
    }
  }

  lemma PassStep(g: Graph, p: Progress)
    requires p.i < |p.items| && ClosedItems(g, p.items)
    ensures PassFrom(g, p) == PassFrom(g, PlaceStep(g, p))
    ensures p.items[p.i].Basic? ==>
              && (forall w :: w in Succ(g, p.items[p.i].bb) ==> w in Basics(p.items))
              && PlaceStep(g, p) == var q := EdgeSteps(g, p, p.items[p.i].bb, |Succ(g, p.items[p.i].bb)|); q.(i := q.i + 1)
    ensures !p.items[p.i].Basic? ==> PlaceStep(g, p) == p.(i := p.i + 1)
  {
    hide Basics, EdgeSteps;
    PlaceStepCounts(g, p);
    if p.items[p.i].Basic? {
      BasicsMembers(p.items, p.items[p.i].bb);
    }
  }

  lemma NoneYet(g: Graph, items: seq<SeqItem>)
    ensures Basics(items[..0]) == [] && Basics(items[..|items|]) == Basics(items)
    ensures ClosedItems(g, items) ==> Pass(g, items) == PassFrom(g, Progress(items, 0, {}))
  {
    assert items[..|items|] == items;
  }

  lemma InGraph(g: Graph, items: seq<SeqItem>, i: nat)
    requires ClosedItems(g, items) && i < |items| && items[i].Basic?
    ensures items[i].bb < |g| && forall w :: w in Succ(g, items[i].bb) ==> w in Basics(items)
  {
    BasicsMembers(items, items[i].bb);
  }

  lemma SameClosed(g: Graph, items: seq<SeqItem>, items': seq<SeqItem>)
    requires ClosedItems(g, items) && Basics(items') == Basics(items)
    ensures ClosedItems(g, items')
  {
  }

  lemma PassOver(g: Graph, p: Progress)
    requires p.i == |p.items| && ClosedItems(g, p.items)
    ensures PassFrom(g, p) == p.items
  {
  }

  // ---- The pass as it runs.

  /** Serve the edges of the block at i: insert a block for each forward edge
      that neither leads to the next block nor has its block placed already. */
  method ServeEdges(g: Graph, items0: seq<SeqItem>, i0: nat, bb: nat, seen: set<nat>, exists0: set<nat>,
                    ghost plain: bool, ghost c0: nat)
    returns (items: seq<SeqItem>, i: nat, blockExistsFor: set<nat>, ghost c: nat)
    requires i0 < |items0| && items0[i0] == Basic(bb) && bb < |g|
    requires forall b :: b in seen <==> b in Basics(items0[..i0 + 1])
    requires forall w :: w in Succ(g, bb) ==> w in Basics(items0)
    requires plain ==> Forward(g, Basics(items0)) && Placing(g, Basics(items0), items0, i0, 0, c0, exists0)
    ensures i < |items| && items[i] == Basic(bb)
    ensures Basics(items) == Basics(items0) && Basics(items[..i + 1]) == Basics(items0[..i0 + 1])
    ensures plain ==> Placing(g, Basics(items0), items, i, |Succ(g, bb)|, c, blockExistsFor)
    ensures Progress(items, i, blockExistsFor) == EdgeSteps(g, Progress(items0, i0, exists0), bb, |Succ(g, bb)|)
  {
    hide Placing, Forward, Basics, InsertPair, NodeBackwards, Adjacent, LastStartAt, FirstBasic;
    ghost var start := Progress(items0, i0, exists0);
    ghost var order := Basics(items0);
    items, i, blockExistsFor, c := items0, i0, exists0, c0;
    var successors := Successors(g[bb]);
    for n := 0 to |successors|
      invariant i < |items| && items[i] == Basic(bb) && successors == Succ(g, bb)
      invariant Basics(items) == order && Basics(items[..i + 1]) == Basics(items0[..i0 + 1])
      invariant plain ==> Placing(g, order, items, i, n, c, blockExistsFor)
      invariant Progress(items, i, blockExistsFor) == EdgeSteps(g, start, bb, n)
    {
      var next := successors[n];
      var adjacent := NextBlockIs(items[i + 1..], next);
      if plain {
        EdgeChecks(g, items, i, n);
      }
      BasicsMembers(items, next);
      if next !in seen && !adjacent && next !in blockExistsFor {
        InsertPairKeeps(items, i, next);
        NodeAfter(items, i, next);
        if plain {
          c := PlaceOne(g, order, items, i, n, next, c, blockExistsFor);
        }
        blockExistsFor := blockExistsFor + {next};
        items := InsertBoth(items, i, next);
        i := i + 1;
      } else if plain {
        ServeOne(g, order, items, i, n, c, blockExistsFor);
      }
    }
  }

  method InsertBoth(items: seq<SeqItem>, i: nat, next: nat) returns (r: seq<SeqItem>)
    requires i < |items| && Basic(next) in items
    ensures r == InsertPair(items, i, next)
  {
    hide LastStartAt, NodeBackwards;
    var j, depth := FindNodeBackwards(items, next);
    r := InsertAt(items, j, EndBlock(next));
    var k := FindDepthForwards(r[..i], depth);
    r := InsertAt(r, k, StartBlock(next));
  }

  /** On a forward sequence: a successor is not seen yet, and the test for the
      next block is adjacency. */
  lemma EdgeChecks(g: Graph, items: seq<SeqItem>, i: nat, n: nat)
    requires i < |items| && items[i].Basic? && n < |Succ(g, items[i].bb)| && Forward(g, Basics(items))
    ensures var next := Succ(g, items[i].bb)[n];
            && next !in Basics(items[..i + 1])
            && (FirstBasic(items[i + 1..]) == Some(next) <==> Adjacent(Basics(items), items[i].bb, next))
  {
    var next := Succ(g, items[i].bb)[n];
    TargetLater(g, items, i, next);
    NextIsAdjacent(items, i, next);
  }

  /** The pass. On any sequence closed under edges it inserts without moving a
      basic block; on a loop-free forward one it ends with every edge served by
      one nest of blocks, each closing directly before its target. */
  method InsertBlocks(g: Graph, items0: seq<SeqItem>) returns (items: seq<SeqItem>, ghost c: nat, ghost placed: set<nat>)
    requires ClosedItems(g, items0)
    ensures Basics(items) == Basics(items0) && items == Pass(g, items0)
    ensures OnlyBasic(items0) && Forward(g, Basics(items0)) ==>
              Placing(g, Basics(items0), items, |items|, 0, c, placed)
  {
    hide Placing, OnlyBasic, Forward, PassFrom, EdgeSteps, PlaceStep, Basics, ClosedItems;
    ghost var order := Basics(items0);
    ghost var plain := OnlyBasic(items0) && Forward(g, order);
    items := items0;
    c := 0;
    var i: nat := 0;
    var seen: set<nat> := {};
    var blockExistsFor: set<nat> := {};
    if plain {
      PlacingStarts(g, items);
    }
    NoneYet(g, items);
    while i < |items|
      invariant i <= |items| && Basics(items) == order && ClosedItems(g, items)
      invariant forall b :: b in seen <==> b in Basics(items[..i])
      invariant plain ==> Placing(g, order, items, i, 0, c, blockExistsFor)
      invariant PassFrom(g, Progress(items, i, blockExistsFor)) == Pass(g, items0)
      decreases |order| - |Basics(items[..i])|, |items| - i
    {
      StepCounts(items, i);
      ghost var p := Progress(items, i, blockExistsFor);
      PassStep(g, p);
      if items[i].Basic? {
        var bb := items[i].bb;
        seen := seen + {bb};
        InGraph(g, items, i);
        items, i, blockExistsFor, c := ServeEdges(g, items, i, bb, seen, blockExistsFor, plain, c);
      }
      if plain {
        NextPlace(g, order, items, i, if items[i].Basic? then |Succ(g, items[i].bb)| else 0, c, blockExistsFor);
      }
      SameClosed(g, p.items, items);
      i := i + 1;
    }
    placed := blockExistsFor;
    PassOver(g, Progress(items, i, placed));
  }
}
