/** Every insertion of the pass keeps what `LoopFacts` lists. */
module LoopKeeping {
  import opened Options
  import opened ControlFlow
  import opened Linear
  import opened BlockInsertion
  import opened BlockPlacing
  import opened LoopPlacing
  import opened LoopLabels
  import opened LoopFacts

  // ---- Old places and new ones.

  lemma LoopFrom(items: seq<SeqItem>, k: nat, j: nat, next: nat, a': nat, c': nat) returns (a: nat, c: nat)
    requires k <= j <= |items| && LoopSpan(Inserted(items, k, j, next), a', c')
    ensures LoopSpan(items, a, c) && items[a] == Inserted(items, k, j, next)[a'] && Shift(a, k, j) == a' && Shift(c, k, j) == c'
  {
    hide Inserted;
    InsertedNew(items, k, j, next);
    a := InsertedFrom(items, k, j, next, a');
    c := InsertedFrom(items, k, j, next, c');
  }

  /** A block of the result is the new one or an old one. */
  lemma BlockFrom(items: seq<SeqItem>, k: nat, j: nat, next: nat, s': nat, e': nat) returns (s: nat, e: nat)
    requires k <= j <= |items| && NoBlockFor(items, next) && BlockSpan(Inserted(items, k, j, next), s', e')
    ensures if s' == k then e' == j + 1
            else BlockSpan(items, s, e) && items[s] == Inserted(items, k, j, next)[s'] && items[s].bb != next
                 && Shift(s, k, j) == s' && Shift(e, k, j) == e'
  {
    hide Inserted;
    InsertedNew(items, k, j, next);
    s, e := 0, 0;
    if s' != k {
      s := InsertedFrom(items, k, j, next, s');
      e := InsertedFrom(items, k, j, next, e');
    } else if e' != j + 1 {
      e := InsertedFrom(items, k, j, next, e');
    }
  }

  lemma StillThere(items: seq<SeqItem>, k: nat, j: nat, next: nat, x: SeqItem)
    requires k <= j <= |items| && x in items
    ensures x in Inserted(items, k, j, next)
  {
    var q :| 0 <= q < |items| && items[q] == x;
    InsertedNew(items, k, j, next);
    InsertedAt(items, k, j, next, q);
  }

  // ---- Starts and ends.

  /** An item of the result is an old one, or one of the new pair. */
  lemma ItemFrom(items: seq<SeqItem>, k: nat, j: nat, next: nat, a: nat) returns (p: nat)
    requires k <= j <= |items| && a < |items| + 2
    ensures |Inserted(items, k, j, next)| == |items| + 2
    ensures var x := Inserted(items, k, j, next)[a];
            if a == k then x == StartBlock(next) else if a == j + 1 then x == EndBlock(next)
            else p < |items| && Shift(p, k, j) == a && x == items[p]
  {
    hide Inserted;
    InsertedNew(items, k, j, next);
    p := 0;
    if a != k && a != j + 1 {
      p := InsertedFrom(items, k, j, next, a);
    }
  }

  lemma StillDifferent(items: seq<SeqItem>, k: nat, j: nat, next: nat, a: nat, b: nat)
    requires k <= j <= |items| && Paired(items) && NoBlockFor(items, next)
    requires a < b < |items| + 2 && |Inserted(items, k, j, next)| == |items| + 2 && !Inserted(items, k, j, next)[a].Basic?
    ensures Inserted(items, k, j, next)[a] != Inserted(items, k, j, next)[b]
  {
    hide Inserted, Paired;
    var p := ItemFrom(items, k, j, next, a);
    var q := ItemFrom(items, k, j, next, b);
    if a != k && a != j + 1 && b != k && b != j + 1 {
      AllDifferent(items, p, q);
    }
  }

  lemma AllDifferent(items: seq<SeqItem>, p: nat, q: nat)
    requires Paired(items) && p < q < |items| && !items[p].Basic?
    ensures items[p] != items[q]
  {
  }

  lemma PairedKept(items: seq<SeqItem>, k: nat, j: nat, next: nat)
    requires k <= j <= |items| && Paired(items) && NoBlockFor(items, next)
    ensures Paired(Inserted(items, k, j, next))
  {
    hide Inserted, NoBlockFor;
    var r := Inserted(items, k, j, next);
    InsertedNew(items, k, j, next);
    forall a: nat, b: nat | a < b < |r| && !r[a].Basic?
      ensures r[a] != r[b]
    {
      StillDifferent(items, k, j, next, a, b);
    }
    hide Paired;
    forall s: nat | s < |r| && IsStart(r[s])
      ensures EndedBy(r, s, |r|)
    {
      if s == k {
        assert Match(r[s], r[j + 1]);
      } else {
        var p := InsertedFrom(items, k, j, next, s);
        var e := EndOf(items, p);
        InsertedAt(items, k, j, next, e);
        assert Match(r[s], r[Shift(e, k, j)]);
      }
    }
    forall e: nat | e < |r| && IsEnd(r[e])
      ensures Started(r, e)
    {
      if e == j + 1 {
        assert Match(r[k], r[e]);
      } else {
        var p := InsertedFrom(items, k, j, next, e);
        var s := StartOf(items, p);
        InsertedAt(items, k, j, next, s);
        assert Match(r[Shift(s, k, j)], r[e]);
      }
    }
    IsPaired(r);
  }

  lemma IsPaired(r: seq<SeqItem>)
    requires forall a: nat, b: nat :: a < b < |r| && !r[a].Basic? ==> r[a] != r[b]
    requires forall s: nat :: s < |r| && IsStart(r[s]) ==> EndedBy(r, s, |r|)
    requires forall e: nat :: e < |r| && IsEnd(r[e]) ==> Started(r, e)
    ensures Paired(r)
  {
  }

  // ---- Loops.

  lemma LoopsNestKept(items: seq<SeqItem>, k: nat, j: nat, next: nat)
    requires k <= j <= |items| && LoopsNest(items)
    ensures LoopsNest(Inserted(items, k, j, next))
  {
    hide Inserted, LoopSpan;
    var r := Inserted(items, k, j, next);
    forall a': nat, c': nat, b': nat, d': nat | LoopSpan(r, a', c') && LoopSpan(r, b', d') && a' < b' < c'
      ensures d' < c'
    {
      var a, c := LoopFrom(items, k, j, next, a', c');
      var b, d := LoopFrom(items, k, j, next, b', d');
    }
  }

  lemma LoopsBackKept(g: Graph, items: seq<SeqItem>, k: nat, j: nat, next: nat)
    requires k <= j <= |items| && LoopsBack(g, items)
    ensures LoopsBack(g, Inserted(items, k, j, next))
  {
    hide Inserted;
    var r := Inserted(items, k, j, next);
    InsertedNew(items, k, j, next);
    forall a': nat, c': nat | LoopSpan(r, a', c')
      ensures BackFrom(g, r, a', c')
    {
      var a, c := LoopFrom(items, k, j, next, a', c');
      assert BackFrom(g, items, a, c);
      var i: nat :| a < i < c && items[i].Basic? && items[i].bb != items[a].bb && items[a].bb in Succ(g, items[i].bb);
      InsertedAt(items, k, j, next, i);
      assert a' < Shift(i, k, j) < c';
    }
  }

  lemma HeadNearKept(items: seq<SeqItem>, k: nat, j: nat, next: nat, a: nat)
    requires k <= j < |items| && items[j] == Basic(next) && a < |items| && items[a].StartLoop? && HeadNear(items, a)
    ensures Shift(a, k, j) < |Inserted(items, k, j, next)| && Inserted(items, k, j, next)[Shift(a, k, j)] == items[a]
    ensures HeadNear(Inserted(items, k, j, next), Shift(a, k, j))
  {
    hide Inserted;
    var r := Inserted(items, k, j, next);
    var m: nat :| a < m < |items| && items[m] == Basic(items[a].bb)
                  && forall q: nat :: a < q < m ==> items[q].StartBlock? || items[q] == EndBlock(items[a].bb);
    InsertedNew(items, k, j, next);
    InsertedAt(items, k, j, next, a);
    InsertedAt(items, k, j, next, m);
    assert !(a < j < m);
    forall q: nat | Shift(a, k, j) < q < Shift(m, k, j)
      ensures r[q].StartBlock? || r[q] == EndBlock(items[a].bb)
    {
      if q != k && q != j + 1 {
        var p := InsertedFrom(items, k, j, next, q);
      }
    }
    assert r[Shift(m, k, j)] == Basic(items[a].bb);
  }

  // ---- Ends of blocks.

  lemma TargetNearKept(items: seq<SeqItem>, k: nat, j: nat, next: nat, e: nat)
    requires k <= j < |items| && items[j] == Basic(next) && NoBlockFor(items, next)
    requires e < |items| && items[e].EndBlock? && TargetNear(items, e)
    ensures Shift(e, k, j) < |Inserted(items, k, j, next)| && Inserted(items, k, j, next)[Shift(e, k, j)] == items[e]
    ensures TargetNear(Inserted(items, k, j, next), Shift(e, k, j))
  {
    hide Inserted;
    var r := Inserted(items, k, j, next);
    var m: nat :| e < m < |items| && items[m] == Basic(items[e].bb) && forall q: nat :: e < q < m ==> items[q].StartBlock?;
    InsertedNew(items, k, j, next);
    InsertedAt(items, k, j, next, e);
    InsertedAt(items, k, j, next, m);
    assert !(e < j < m);
    forall q: nat | Shift(e, k, j) < q < Shift(m, k, j)
      ensures r[q].StartBlock?
    {
      if q != k && q != j + 1 {
        var p := InsertedFrom(items, k, j, next, q);
      }
    }
    assert r[Shift(m, k, j)] == Basic(items[e].bb);
  }

  /** The place where a pair goes in: the block starts in front of a start, at the very
      front, or directly before its source at i. */
  predicate Fits(items: seq<SeqItem>, k: nat, i: nat, j: nat, next: nat) {
    && k <= i < j < |items| && items[i].Basic? && items[j] == Basic(next)
    && (k == 0 || IsStart(items[k]) || k == i)
    && NoBlockFor(items, next) && NoBlockFrom(items, i)
  }

  lemma EndNearKept(items: seq<SeqItem>, k: nat, i: nat, j: nat, next: nat, e: nat)
    requires Fits(items, k, i, j, next) && e < |items| && items[e].EndBlock? && EndNear(items, e)
    ensures Shift(e, k, j) < |Inserted(items, k, j, next)| && Inserted(items, k, j, next)[Shift(e, k, j)] == items[e]
    ensures EndNear(Inserted(items, k, j, next), Shift(e, k, j))
  {
    hide Inserted;
    var r := Inserted(items, k, j, next);
    TargetNearKept(items, k, j, next, e);
    hide TargetNear;
    InsertedNew(items, k, j, next);
    forall a': nat | a' < |r| && r[a'] == StartLoop(items[e].bb)
      ensures a' + 1 == Shift(e, k, j)
    {
      var a := InsertedFrom(items, k, j, next, a');
      assert a + 1 == e;
    }
  }

  /** The new block ends directly before its target. */
  lemma NewEndNear(items: seq<SeqItem>, k: nat, i: nat, j: nat, next: nat)
    requires Fits(items, k, i, j, next) && Distinct(Basics(items))
    requires forall a: nat :: a < |items| && items[a].StartLoop? ==> HeadNear(items, a)
    ensures j + 1 < |Inserted(items, k, j, next)| && Inserted(items, k, j, next)[j + 1].EndBlock?
    ensures EndNear(Inserted(items, k, j, next), j + 1)
  {
    hide Inserted, HeadNear, Basics, Distinct;
    var r := Inserted(items, k, j, next);
    InsertedNew(items, k, j, next);
    assert r[j + 2] == Basic(r[j + 1].bb);
    forall a': nat | a' < |r| && r[a'] == StartLoop(next)
      ensures a' + 1 == j + 1
    {
      var a := InsertedFrom(items, k, j, next, a');
      HeadIsNext(items, k, i, j, next, a);
    }
  }

  lemma HeadIsNext(items: seq<SeqItem>, k: nat, i: nat, j: nat, next: nat, a: nat)
    requires Fits(items, k, i, j, next) && Distinct(Basics(items))
    requires a < |items| && items[a] == StartLoop(next) && HeadNear(items, a)
    ensures i < a && a + 1 == j
  {
    var m: nat :| a < m < |items| && items[m] == Basic(items[a].bb)
                  && forall q: nat :: a < q < m ==> items[q].StartBlock? || items[q] == EndBlock(items[a].bb);
    PlacePrecedes(items, m, j);
    NotBetween(items, a, i, j, next, i, items[i]);
    NotBetween(items, a, i, j, next, a + 1, items[a + 1]);
  }

  lemma NotBetween(items: seq<SeqItem>, a: nat, i: nat, j: nat, next: nat, q: nat, x: SeqItem)
    requires a < j <= |items| && i < j && items[i].Basic? && NoBlockFor(items, next) && NoBlockFrom(items, i)
    requires forall q: nat :: a < q < j ==> items[q].StartBlock? || items[q] == EndBlock(next)
    requires q < |items| && items[q] == x && (q == i || i < a)
    ensures !(a < q < j)
  {
  }

  // ---- Sources.

  lemma SourcedKept(g: Graph, items: seq<SeqItem>, k: nat, j: nat, next: nat, s: nat, e: nat)
    requires k <= j <= |items| && BlockSpan(items, s, e) && Sourced(g, items, s, e)
    ensures Shift(e, k, j) < |Inserted(items, k, j, next)| && Inserted(items, k, j, next)[Shift(s, k, j)] == items[s]
    ensures Sourced(g, Inserted(items, k, j, next), Shift(s, k, j), Shift(e, k, j))
  {
    hide Inserted, Basics, Adjacent;
    var i: nat :| s < i < e && items[i].Basic? && items[s].bb in Succ(g, items[i].bb)
                  && !Adjacent(Basics(items), items[i].bb, items[s].bb);
    InsertedBasics(items, k, j, next);
    InsertedNew(items, k, j, next);
    InsertedAt(items, k, j, next, s);
    InsertedAt(items, k, j, next, i);
    assert Shift(s, k, j) < Shift(i, k, j) < Shift(e, k, j);
  }

  lemma NewSourced(g: Graph, items: seq<SeqItem>, k: nat, i: nat, j: nat, next: nat)
    requires Fits(items, k, i, j, next) && next in Succ(g, items[i].bb) && !Adjacent(Basics(items), items[i].bb, next)
    ensures k < j + 1 < |Inserted(items, k, j, next)| && Inserted(items, k, j, next)[k] == StartBlock(next)
    ensures Sourced(g, Inserted(items, k, j, next), k, j + 1)
  {
    hide Inserted, Basics, Adjacent;
    InsertedBasics(items, k, j, next);
    InsertedNew(items, k, j, next);
    InsertedAt(items, k, j, next, i);
  }

  // ---- Blocks that leave a loop.

  lemma LeavesKept(items: seq<SeqItem>, k: nat, j: nat, next: nat, s: nat, e: nat, a: nat, c: nat)
    requires k <= j <= |items| && BlockSpan(items, s, e) && LoopSpan(items, a, c) && LeavesLoop(items, s, e, a, c)
    ensures Shift(s, k, j) < |Inserted(items, k, j, next)| && Shift(e, k, j) < |Inserted(items, k, j, next)|
    ensures Inserted(items, k, j, next)[Shift(s, k, j)] == items[s]
    ensures LeavesLoop(Inserted(items, k, j, next), Shift(s, k, j), Shift(e, k, j), Shift(a, k, j), Shift(c, k, j))
  {
    hide Inserted;
    var r := Inserted(items, k, j, next);
    InsertedNew(items, k, j, next);
    InsertedAt(items, k, j, next, s);
    var s', e', c' := Shift(s, k, j), Shift(e, k, j), Shift(c, k, j);
    if Shift(a, k, j) < s' < c' < e' && NoBasic(r, c', e') {
      forall q: nat | c < q < e
        ensures !items[q].Basic?
      {
        InsertedAt(items, k, j, next, q);
        assert c' < Shift(q, k, j) < e';
      }
      if StartLoop(items[s].bb) in items {
        StillThere(items, k, j, next, StartLoop(items[s].bb));
      } else {
        var s1: nat, e1: nat :| BlockSpan(items, s1, e1) && s < s1 < c && e < e1;
        InsertedAt(items, k, j, next, s1);
        InsertedAt(items, k, j, next, e1);
        assert BlockSpan(r, Shift(s1, k, j), Shift(e1, k, j));
      }
    }
  }

  /** Before the insertion: where the new block starts inside a loop and its target is the
      first one behind it, something else is open at the target that was opened since. */
  lemma SomethingOpened(g: Graph, items: seq<SeqItem>, k: nat, i: nat, j: nat, next: nat, a: nat, c: nat)
    returns (u: nat, e: nat)
    requires Facts(g, items) && Fits(items, k, i, j, next) && Depth(items[..k]) <= Depth(items[..j])
    requires LoopSpan(items, a, c) && a < k <= c < j && NoBasic(items, c, j)
    ensures StartLoop(next) in items || (BlockSpan(items, u, e) && k <= u < c && j < e)
  {
    hide Paired, LoopsNest, LoopsBack, Outside, EndNear, HeadNear, Sourced, Depth, OpenSet, EndedBy;
    OpenAcross(items, a, c, k, j);
    u := OpenedSince(items, k, j, a);
    e := EndOf(items, u);
    EndedOnlyAt(items, u, e, j);
    if items[u].StartLoop? {
      InsideEnds(items, a, c, u, e);
      BehindIsHeader(items, u, c, j);
    }
  }

  lemma InsideEnds(items: seq<SeqItem>, a: nat, c: nat, u: nat, e: nat)
    requires LoopsNest(items) && LoopSpan(items, a, c) && u < e < |items| && items[u].StartLoop? && Match(items[u], items[e])
    ensures a < u < c ==> e < c
  {
    assert LoopSpan(items, u, e);
  }

  lemma OpenAcross(items: seq<SeqItem>, a: nat, c: nat, k: nat, j: nat)
    requires Paired(items) && LoopSpan(items, a, c) && a < k <= c < j <= |items|
    ensures a in OpenSet(items, k) && a !in OpenSet(items, j)
  {
    EndedOnlyAt(items, a, c, k);
    assert EndedBy(items, a, j);
  }

  /** A loop that starts behind c, where no block comes before j, has j's as its header. */
  lemma BehindIsHeader(items: seq<SeqItem>, u: nat, c: nat, j: nat)
    requires c < u < j < |items| && items[u].StartLoop? && HeadNear(items, u) && items[j].Basic? && NoBasic(items, c, j)
    ensures items[u] == StartLoop(items[j].bb)
  {
    var m: nat :| u < m < |items| && items[m] == Basic(items[u].bb)
                  && forall q: nat :: u < q < m ==> items[q].StartBlock? || items[q] == EndBlock(items[u].bb);
    assert m <= j;
  }

  lemma NewLeaves(g: Graph, items: seq<SeqItem>, k: nat, i: nat, j: nat, next: nat, a: nat, c: nat)
    requires Facts(g, items) && Fits(items, k, i, j, next) && (k == 0 || Depth(items[..k]) <= Depth(items[..j]))
    requires LoopSpan(items, a, c)
    ensures k < j + 1 < |Inserted(items, k, j, next)| && Inserted(items, k, j, next)[k] == StartBlock(next)
    ensures LeavesLoop(Inserted(items, k, j, next), k, j + 1, Shift(a, k, j), Shift(c, k, j))
  {
    hide Inserted, Facts, Fits, Depth;
    FitsPlaces(items, k, i, j, next);
    var r := Inserted(items, k, j, next);
    InsertedNew(items, k, j, next);
    var a', c' := Shift(a, k, j), Shift(c, k, j);
    if a' < k < c' < j + 1 && NoBasic(r, c', j + 1) {
      forall q: nat | c < q < j
        ensures !items[q].Basic?
      {
        InsertedAt(items, k, j, next, q);
        assert c' < Shift(q, k, j) < j + 1;
      }
      var u, e := SomethingOpened(g, items, k, i, j, next, a, c);
      if StartLoop(next) in items {
        StillThere(items, k, j, next, StartLoop(next));
      } else {
        InsertedAt(items, k, j, next, u);
        InsertedAt(items, k, j, next, e);
        assert BlockSpan(r, Shift(u, k, j), Shift(e, k, j));
      }
    }
  }

  lemma FitsPlaces(items: seq<SeqItem>, k: nat, i: nat, j: nat, next: nat)
    requires Fits(items, k, i, j, next)
    ensures k <= i < j < |items|
  {
  }

  // ---- Everything together.

  lemma InsertedFacts(g: Graph, items: seq<SeqItem>, k: nat, i: nat, j: nat, next: nat)
    requires Facts(g, items) && Distinct(Basics(items)) && Fits(items, k, i, j, next)
    requires k == 0 || Depth(items[..k]) <= Depth(items[..j])
    requires next in Succ(g, items[i].bb) && !Adjacent(Basics(items), items[i].bb, next)
    ensures Facts(g, Inserted(items, k, j, next))
  {
    hide Inserted, Depth, Basics, Distinct, Adjacent, Paired, LoopsNest, LoopsBack, EndNear, HeadNear, Sourced, LeavesLoop,
         BlockSpan, LoopSpan;
    var r := Inserted(items, k, j, next);
    InsertedNew(items, k, j, next);
    PairedKept(items, k, j, next);
    LoopsNestKept(items, k, j, next);
    LoopsBackKept(g, items, k, j, next);
    BlocksLeave(g, items, k, i, j, next);
    forall e: nat | e < |r| && r[e].EndBlock?
      ensures EndNear(r, e)
    {
      if e == j + 1 {
        NewEndNear(items, k, i, j, next);
      } else {
        var p := InsertedFrom(items, k, j, next, e);
        EndNearKept(items, k, i, j, next, p);
      }
    }
    forall a: nat | a < |r| && r[a].StartLoop?
      ensures HeadNear(r, a)
    {
      var p := InsertedFrom(items, k, j, next, a);
      HeadNearKept(items, k, j, next, p);
    }
    BlocksSourced(g, items, k, i, j, next);
  }

  lemma BlocksLeave(g: Graph, items: seq<SeqItem>, k: nat, i: nat, j: nat, next: nat)
    requires Facts(g, items) && Fits(items, k, i, j, next)
    requires k == 0 || Depth(items[..k]) <= Depth(items[..j])
    ensures Outside(Inserted(items, k, j, next))
  {
    hide Inserted, Depth, Facts, LeavesLoop, BlockSpan, LoopSpan, NoBlockFor, NoBlockFrom;
    var r := Inserted(items, k, j, next);
    FactsOutside(g, items);
    forall s': nat, e': nat, a': nat, c': nat | BlockSpan(r, s', e') && LoopSpan(r, a', c')
      ensures s' < |r| && e' <= |r| && !r[s'].Basic? && LeavesLoop(r, s', e', a', c')
    {
      var s, e := BlockFrom(items, k, j, next, s', e');
      var a, c := LoopFrom(items, k, j, next, a', c');
      SpanPlaces(r, s', e');
      if s' == k {
        NewLeaves(g, items, k, i, j, next, a, c);
      } else {
        SpanPlaces(items, s, e);
        LeavesKept(items, k, j, next, s, e, a, c);
      }
    }
  }

  lemma FactsOutside(g: Graph, items: seq<SeqItem>)
    requires Facts(g, items)
    ensures Outside(items)
  {
  }

  lemma SpanPlaces(items: seq<SeqItem>, s: nat, e: nat)
    requires BlockSpan(items, s, e)
    ensures s < e < |items| && !items[s].Basic?
  {
  }

  lemma BlocksSourced(g: Graph, items: seq<SeqItem>, k: nat, i: nat, j: nat, next: nat)
    requires Fits(items, k, i, j, next) && next in Succ(g, items[i].bb) && !Adjacent(Basics(items), items[i].bb, next)
    requires forall s: nat, e: nat :: BlockSpan(items, s, e) ==> Sourced(g, items, s, e)
    ensures forall s: nat, e: nat ::
              BlockSpan(Inserted(items, k, j, next), s, e) ==> Sourced(g, Inserted(items, k, j, next), s, e)
  {
    hide Inserted, Basics, Adjacent, Sourced, NoBlockFor, NoBlockFrom;
    var r := Inserted(items, k, j, next);
    forall s': nat, e': nat | BlockSpan(r, s', e')
      ensures Sourced(g, r, s', e')
    {
      var s, e := BlockFrom(items, k, j, next, s', e');
      if s' == k {
        NewSourced(g, items, k, i, j, next);
      } else {
        SourcedKept(g, items, k, j, next, s, e);
      }
    }
  }

  // ---- Where the searches land.

  /** If nothing opens at the given depth, it is never exceeded. */
  lemma {:induction false} NeverAbove(items: seq<SeqItem>, target: nat)
    requires LastStartAt(items, target).None?
    ensures Depth(items) <= target
  {
    if items != [] {
      NeverAbove(items[..|items| - 1], target);
    }
  }

  lemma SearchLands(items: seq<SeqItem>, i: nat, target: nat)
    requires i <= |items|
    ensures var k := DepthForwards(items[..i], target);
            k <= i && (k == 0 || (Depth(items[..k]) <= target && (k == i || IsStart(items[k]))))
  {
    hide LastStartAt, Depth;
    var r := LastStartAt(items[..i], target);
    if r.Some? {
      assert items[..i][..r.value] == items[..r.value];
    } else {
      NeverAbove(items[..i], target);
    }
  }

  /** An edge that the pass serves with a pair: where the pair goes. */
  lemma PairFits(p: Progress, next: nat) returns (k: nat, j: nat)
    requires p.i < |p.items| && p.items[p.i].Basic? && Basic(next) in p.items && Wanted(p, next)
    requires Paired(p.items) && Recorded(p) && NoBlockFrom(p.items, p.i)
    ensures Fits(p.items, k, p.i, j, next) && (k == 0 || Depth(p.items[..k]) <= Depth(p.items[..j]))
    ensures EdgeStep(p, next) == Progress(Inserted(p.items, k, j, next), p.i + 1, p.placed + {next})
  {
    hide Basics, NodeBackwards, LastStartAt, Inserted, InsertPair, DepthForwards, Depth, Paired;
    NodeAfter(p.items, p.i, next);
    var (j0, depth) := NodeBackwards(p.items, next);
    NodeBackwardsDepth(p.items, next);
    AllEnded(p.items);
    OpenCount(p.items, j0);
    SearchLands(p.items, p.i, depth);
    j, k := j0, DepthForwards(p.items[..p.i], depth);
    InsertPairIs(p.items, p.i, j, k, next);
  }

  // ---- Over the whole pass.

  /** What holds while the pass is at place p.i. */
  ghost predicate Deep(g: Graph, p: Progress) {
    Facts(g, p.items) && NoBlockFrom(p.items, p.i)
  }

  lemma EdgeDeep(g: Graph, p: Progress, next: nat)
    requires p.i < |p.items| && p.items[p.i].Basic? && Basic(next) in p.items && next in Succ(g, p.items[p.i].bb)
    requires Deep(g, p) && Recorded(p) && Distinct(Basics(p.items))
    ensures Deep(g, EdgeStep(p, next))
  {
    hide *;
    DeepIs(g, p);
    NotWanted(p, next);
    if Wanted(p, next) {
      NextIsAdjacent(p.items, p.i, next);
      FactsPaired(g, p.items);
      WantedApart(p, next);
      var k, j := PairFits(p, next);
      InsertedFacts(g, p.items, k, p.i, j, next);
      FitsPlaces(p.items, k, p.i, j, next);
      NoBlockKept(p.items, k, p.i, j, next);
      DeepIs(g, EdgeStep(p, next));
    }
  }

  lemma NotWanted(p: Progress, next: nat)
    requires p.i < |p.items| && Basic(next) in p.items
    ensures !Wanted(p, next) ==> EdgeStep(p, next) == p
  {
  }

  lemma WantedApart(p: Progress, next: nat)
    requires p.i < |p.items| && p.items[p.i].Basic? && Wanted(p, next)
    requires FirstBasic(p.items[p.i + 1..]) == Some(next) <==> Adjacent(Basics(p.items), p.items[p.i].bb, next)
    ensures !Adjacent(Basics(p.items), p.items[p.i].bb, next)
  {
  }

  lemma DeepIs(g: Graph, p: Progress)
    ensures Deep(g, p) <==> Facts(g, p.items) && NoBlockFrom(p.items, p.i)
  {
  }

  lemma NoBlockKept(items: seq<SeqItem>, k: nat, i: nat, j: nat, next: nat)
    requires k <= i < j < |items| && NoBlockFrom(items, i)
    ensures NoBlockFrom(Inserted(items, k, j, next), i + 1)
  {
    hide Inserted;
    var r := Inserted(items, k, j, next);
    InsertedNew(items, k, j, next);
    forall q: nat | i + 1 <= q < |r|
      ensures !r[q].StartBlock?
    {
      if q != j + 1 {
        var p := InsertedFrom(items, k, j, next, q);
      }
    }
  }

  lemma {:induction false} EdgesDeep(g: Graph, p: Progress, bb: nat, n: nat)
    requires p.i < |p.items| && p.items[p.i] == Basic(bb) && n <= |Succ(g, bb)|
    requires Recorded(p) && Distinct(Basics(p.items)) && Deep(g, p) && forall w :: w in Succ(g, bb) ==> w in Basics(p.items)
    ensures Deep(g, EdgeSteps(g, p, bb, n))
  {
    hide Deep, EdgeStep, Recorded, Basics, Distinct, Nested, EdgesFit;
    if n > 0 {
      var q, next := EdgeSteps(g, p, bb, n - 1), Succ(g, bb)[n - 1];
      EdgesDeep(g, p, bb, n - 1);
      EdgesNest(g, p, bb, n - 1);
      BasicsMembers(q.items, next);
      EdgeDeep(g, q, next);
    }
  }

  lemma PlaceDeep(g: Graph, p: Progress)
    requires p.i < |p.items| && ClosedItems(g, p.items) && Recorded(p) && Distinct(Basics(p.items)) && Deep(g, p)
    ensures Deep(g, PlaceStep(g, p))
  {
    hide EdgeSteps, Basics, Recorded, Distinct, Facts;
    if p.items[p.i].Basic? {
      var bb := p.items[p.i].bb;
      BasicsMembers(p.items, bb);
      EdgesDeep(g, p, bb, |Succ(g, bb)|);
    }
  }

  /** The facts hold of what the pass leaves. */
  lemma {:induction false} PassDeep(g: Graph, p: Progress)
    requires p.i <= |p.items| && ClosedItems(g, p.items) && Recorded(p) && Distinct(Basics(p.items)) && Deep(g, p)
    ensures Facts(g, PassFrom(g, p))
    decreases |Basics(p.items)| - |Basics(p.items[..p.i])|, |p.items| - p.i
  {
    if p.i < |p.items| {
      PlaceStepCounts(g, p);
      hide PlaceStep, Recorded, Distinct, Basics, ClosedItems, Deep, Nested, PlaceFits;
      PlaceNests(g, p);
      PlaceDeep(g, p);
      PassDeep(g, PlaceStep(g, p));
    } else {
      DeepIs(g, p);
    }
  }

  /** The pass adds no loop. */
  predicate NoNewLoop(before: seq<SeqItem>, after: seq<SeqItem>) {
    forall x :: x in after && x.StartLoop? ==> x in before
  }

  lemma EdgeAddsNone(p: Progress, next: nat)
    requires p.i < |p.items| && Basic(next) in p.items
    ensures NoNewLoop(p.items, EdgeStep(p, next).items)
  {
    hide InsertPair, Inserted, Wanted, FitsAt, InsertFits;
    NotWanted(p, next);
    if Wanted(p, next) {
      var k, j := WantedPlaces(p, next);
      forall w | StartLoop(w) !in p.items
        ensures StartLoop(w) !in Inserted(p.items, k, j, next)
      {
        InsertedLoops(p.items, k, j, next, w);
      }
      WantedInserts(p, next, k, j);
    }
  }

  lemma WantedInserts(p: Progress, next: nat, k: nat, j: nat)
    requires p.i < |p.items| && Basic(next) in p.items && Wanted(p, next) && k <= j <= |p.items|
    requires InsertPair(p.items, p.i, next) == Inserted(p.items, k, j, next)
    ensures EdgeStep(p, next).items == Inserted(p.items, k, j, next)
  {
  }

  lemma {:induction false} EdgesAddNone(g: Graph, p: Progress, bb: nat, n: nat)
    requires p.i < |p.items| && n <= |Succ(g, bb)| && forall w :: w in Succ(g, bb) ==> w in Basics(p.items)
    ensures NoNewLoop(p.items, EdgeSteps(g, p, bb, n).items)
  {
    hide EdgeStep, Basics;
    if n > 0 {
      EdgesAddNone(g, p, bb, n - 1);
      var q, next := EdgeSteps(g, p, bb, n - 1), Succ(g, bb)[n - 1];
      BasicsMembers(q.items, next);
      EdgeAddsNone(q, next);
    }
  }

  lemma PlaceAddsNone(g: Graph, p: Progress)
    requires p.i < |p.items| && ClosedItems(g, p.items)
    ensures NoNewLoop(p.items, PlaceStep(g, p).items)
  {
    hide EdgeSteps, Basics;
    if p.items[p.i].Basic? {
      BasicsMembers(p.items, p.items[p.i].bb);
      EdgesAddNone(g, p, p.items[p.i].bb, |Succ(g, p.items[p.i].bb)|);
    }
  }

  lemma {:induction false} PassAddsNone(g: Graph, p: Progress)
    requires p.i <= |p.items| && ClosedItems(g, p.items)
    ensures NoNewLoop(p.items, PassFrom(g, p))
    decreases |Basics(p.items)| - |Basics(p.items[..p.i])|, |p.items| - p.i
  {
    if p.i < |p.items| {
      PlaceStepCounts(g, p);
      hide PlaceStep, Basics, ClosedItems;
      PlaceAddsNone(g, p);
      PassAddsNone(g, PlaceStep(g, p));
    }
  }
}
