/** What the pass that inserts `block`/`end` pairs keeps true of any linearised graph,
    whether or not the pairs end up nested. */
module LoopFacts {
  import opened Options
  import opened ControlFlow
  import opened Linear
  import opened BlockInsertion
  import opened BlockPlacing
  import opened StructuredCode
  import opened TarjanRun

  // ---- Starts and their ends.

  predicate Match(x: SeqItem, y: SeqItem) {
    (x.StartLoop? && y == EndLoop(x.bb)) || (x.StartBlock? && y == EndBlock(x.bb))
  }

  ghost predicate EndedBy(items: seq<SeqItem>, s: nat, p: nat)
    requires s < |items| && p <= |items|
  {
    exists e: nat :: s < e < p && Match(items[s], items[e])
  }

  ghost predicate Started(items: seq<SeqItem>, e: nat)
    requires e < |items|
  {
    exists s: nat :: 0 <= s < e && Match(items[s], items[e])
  }

  /** Each loop and block is started once and ended once, later. */
  ghost predicate Paired(items: seq<SeqItem>) {
    && (forall a: nat, b: nat :: 0 <= a < b < |items| && !items[a].Basic? ==> items[a] != items[b])
    && (forall s: nat :: 0 <= s < |items| && IsStart(items[s]) ==> EndedBy(items, s, |items|))
    && (forall e: nat :: 0 <= e < |items| && IsEnd(items[e]) ==> Started(items, e))
  }

  predicate LoopSpan(items: seq<SeqItem>, a: nat, c: nat) {
    a < c < |items| && items[a].StartLoop? && Match(items[a], items[c])
  }

  predicate BlockSpan(items: seq<SeqItem>, s: nat, e: nat) {
    s < e < |items| && items[s].StartBlock? && Match(items[s], items[e])
  }

  // ---- The facts.

  /** A loop that starts inside another ends inside it. */
  ghost predicate LoopsNest(items: seq<SeqItem>) {
    forall a: nat, c: nat, b: nat, d: nat :: LoopSpan(items, a, c) && LoopSpan(items, b, d) && a < b < c ==> d < c
  }

  /** In every loop some other block leads back to the header. */
  ghost predicate LoopsBack(g: Graph, items: seq<SeqItem>) {
    forall a: nat, c: nat :: LoopSpan(items, a, c) ==> BackFrom(g, items, a, c)
  }

  ghost predicate BackFrom(g: Graph, items: seq<SeqItem>, a: nat, c: nat)
    requires a < c < |items| && items[a].StartLoop?
  {
    exists i: nat :: a < i < c && items[i].Basic? && items[i].bb != items[a].bb && items[a].bb in Succ(g, items[i].bb)
  }

  predicate NoBasic(items: seq<SeqItem>, c: nat, e: nat)
    requires e <= |items|
  {
    forall q: nat :: c < q < e ==> !items[q].Basic?
  }

  /** If a block starts inside a loop and its target is the first one behind that loop,
      then the target is a header, or some other block starts later inside the loop and
      ends later. */
  ghost predicate Outside(items: seq<SeqItem>) {
    forall s: nat, e: nat, a: nat, c: nat :: BlockSpan(items, s, e) && LoopSpan(items, a, c) ==> LeavesLoop(items, s, e, a, c)
  }

  ghost predicate LeavesLoop(items: seq<SeqItem>, s: nat, e: nat, a: nat, c: nat)
    requires s < |items| && e <= |items| && !items[s].Basic?
  {
    a < s < c < e && NoBasic(items, c, e) ==> StartLoop(items[s].bb) in items || OtherLeaves(items, s, e, c)
  }

  ghost predicate OtherLeaves(items: seq<SeqItem>, s: nat, e: nat, c: nat) {
    exists s': nat, e': nat :: BlockSpan(items, s', e') && s < s' < c && e < e'
  }

  /** Between the end of a block and its target only blocks start; if the target is the
      header of a loop, the end directly follows the start of the loop. */
  ghost predicate EndNear(items: seq<SeqItem>, e: nat)
    requires e < |items| && items[e].EndBlock?
  {
    && TargetNear(items, e)
    && forall a: nat :: 0 <= a < |items| && items[a] == StartLoop(items[e].bb) ==> a + 1 == e
  }

  ghost predicate TargetNear(items: seq<SeqItem>, e: nat)
    requires e < |items| && items[e].EndBlock?
  {
    exists m: nat :: e < m < |items| && items[m] == Basic(items[e].bb) && forall q: nat :: e < q < m ==> items[q].StartBlock?
  }

  /** Between the start of a loop and its header only blocks start, or the one for the
      header ends. */
  ghost predicate HeadNear(items: seq<SeqItem>, a: nat)
    requires a < |items| && items[a].StartLoop?
  {
    exists m: nat :: a < m < |items| && items[m] == Basic(items[a].bb)
                && forall q: nat :: a < q < m ==> items[q].StartBlock? || items[q] == EndBlock(items[a].bb)
  }

  /** A block starts before some edge to its target that is not to the next block. */
  ghost predicate Sourced(g: Graph, items: seq<SeqItem>, s: nat, e: nat)
    requires s < e < |items| && !items[s].Basic?
  {
    exists i: nat :: s < i < e && items[i].Basic? && items[s].bb in Succ(g, items[i].bb)
                && !Adjacent(Basics(items), items[i].bb, items[s].bb)
  }

  ghost predicate Facts(g: Graph, items: seq<SeqItem>) {
    && Paired(items) && LoopsNest(items) && LoopsBack(g, items) && Outside(items)
    && (forall e: nat :: 0 <= e < |items| && items[e].EndBlock? ==> EndNear(items, e))
    && (forall a: nat :: 0 <= a < |items| && items[a].StartLoop? ==> HeadNear(items, a))
    && (forall s: nat, e: nat :: BlockSpan(items, s, e) ==> Sourced(g, items, s, e))
  }

  lemma FactsPaired(g: Graph, items: seq<SeqItem>)
    requires Facts(g, items)
    ensures Paired(items)
  {
  }

  /** No block starts at i or later. */
  predicate NoBlockFrom(items: seq<SeqItem>, i: nat) {
    forall q: nat :: i <= q < |items| ==> !items[q].StartBlock?
  }

  // ---- As many are open as the depth says.

  ghost function OpenSet(items: seq<SeqItem>, p: nat): set<nat>
    requires p <= |items|
  {
    set s: nat | s < p && IsStart(items[s]) && !EndedBy(items, s, p)
  }

  lemma EndedOnlyAt(items: seq<SeqItem>, s: nat, e: nat, p: nat)
    requires Paired(items) && s < e < |items| && Match(items[s], items[e]) && p <= |items|
    ensures EndedBy(items, s, p) <==> e < p
  {
    if EndedBy(items, s, p) {
      var x: nat :| s < x < p && Match(items[s], items[x]);
      assert items[x] == items[e];
    }
  }

  lemma NotEndedTwice(items: seq<SeqItem>, s: nat, p: nat)
    requires Paired(items) && s < p < |items| && Match(items[s], items[p])
    ensures !EndedBy(items, s, p)
  {
  }

  lemma OnlyOneMatch(items: seq<SeqItem>, x: nat, s: nat, p: nat)
    requires Paired(items) && x < |items| && s < p < |items| && Match(items[s], items[p])
    ensures Match(items[x], items[p]) ==> x == s
  {
  }

  lemma EndedNext(items: seq<SeqItem>, x: nat, p: nat)
    requires x < p < |items|
    ensures EndedBy(items, x, p + 1) <==> EndedBy(items, x, p) || Match(items[x], items[p])
  {
    EndedStays(items, x, p, p + 1);
    if EndedBy(items, x, p + 1) {
      var e: nat :| x < e < p + 1 && Match(items[x], items[e]);
    }
  }

  lemma StartOf(items: seq<SeqItem>, e: nat) returns (s: nat)
    requires Paired(items) && e < |items| && IsEnd(items[e])
    ensures s < e && IsStart(items[s]) && Match(items[s], items[e])
  {
    assert Started(items, e);
    s :| 0 <= s < e && Match(items[s], items[e]);
  }

  lemma EndOf(items: seq<SeqItem>, s: nat) returns (e: nat)
    requires Paired(items) && s < |items| && IsStart(items[s])
    ensures s < e < |items| && IsEnd(items[e]) && Match(items[s], items[e])
  {
    assert EndedBy(items, s, |items|);
    e :| s < e < |items| && Match(items[s], items[e]);
  }

  lemma OpenAtEnd(items: seq<SeqItem>, p: nat) returns (s: nat)
    requires Paired(items) && p < |items| && IsEnd(items[p])
    ensures s in OpenSet(items, p) && OpenSet(items, p + 1) == OpenSet(items, p) - {s} && Match(items[s], items[p])
  {
    hide Paired, EndedBy, Started, Match;
    s := StartOf(items, p);
    NotEndedTwice(items, s, p);
    forall x: nat | x < p
      ensures EndedBy(items, x, p + 1) <==> EndedBy(items, x, p) || x == s
    {
      EndedNext(items, x, p);
      OnlyOneMatch(items, x, s, p);
    }
  }

  lemma OpenAtOther(items: seq<SeqItem>, p: nat)
    requires p < |items| && !IsEnd(items[p])
    ensures OpenSet(items, p + 1) == OpenSet(items, p) + (if IsStart(items[p]) then {p} else {})
  {
    hide EndedBy;
    forall x: nat | x < p
      ensures EndedBy(items, x, p + 1) <==> EndedBy(items, x, p)
    {
      EndedNext(items, x, p);
    }
    NotEndedYet(items, p);
  }

  lemma NotEndedYet(items: seq<SeqItem>, p: nat)
    requires p < |items|
    ensures !EndedBy(items, p, p + 1)
  {
  }

  lemma {:induction false} OpenCount(items: seq<SeqItem>, p: nat)
    requires Paired(items) && p <= |items|
    ensures |OpenSet(items, p)| == Depth(items[..p])
  {
    hide OpenSet, Paired;
    if p == 0 {
      NothingStarted(items);
    } else {
      OpenCount(items, p - 1);
      assert items[..p] == items[..p - 1] + [items[p - 1]];
      TrackedSnoc(items[..p - 1], items[p - 1], 0);
      if IsEnd(items[p - 1]) {
        var s := OpenAtEnd(items, p - 1);
      } else {
        OpenAtOther(items, p - 1);
        NotYetStarted(items, p - 1);
      }
    }
  }

  lemma NothingStarted(items: seq<SeqItem>)
    ensures OpenSet(items, 0) == {} && Depth(items[..0]) == 0
  {
    assert OpenSet(items, 0) == {};
  }

  lemma NotYetStarted(items: seq<SeqItem>, p: nat)
    requires p < |items|
    ensures p !in OpenSet(items, p)
  {
  }

  lemma AllEnded(items: seq<SeqItem>)
    requires Paired(items)
    ensures Depth(items) == 0
  {
    OpenCount(items, |items|);
    assert items[..|items|] == items;
    assert OpenSet(items, |items|) == {};
  }

  /** Something was opened since k that is open at j, if no less is open and something
      that was open at k is not. */
  lemma OpenedSince(items: seq<SeqItem>, k: nat, j: nat, a: nat) returns (u: nat)
    requires Paired(items) && k <= j <= |items| && Depth(items[..k]) <= Depth(items[..j])
    requires a in OpenSet(items, k) && a !in OpenSet(items, j)
    ensures k <= u < j && IsStart(items[u]) && !EndedBy(items, u, j)
  {
    OpenCount(items, k);
    OpenCount(items, j);
    var before, after := OpenSet(items, k), OpenSet(items, j);
    if after <= before {
      assert after <= before - {a};
      SubsetSize(after, before - {a});
    }
    u :| u in after && u !in before;
    EndedStays(items, u, k, j);
  }

  lemma EndedStays(items: seq<SeqItem>, x: nat, k: nat, j: nat)
    requires x < |items| && k <= j <= |items|
    ensures EndedBy(items, x, k) ==> EndedBy(items, x, j)
  {
    if EndedBy(items, x, k) {
      var e :| x < e < k && Match(items[x], items[e]);
    }
  }
}
