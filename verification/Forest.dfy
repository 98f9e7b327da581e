/** The shape of a linearised control-flow graph, before `block`/`end` pairs are
    inserted: a sequence of basic blocks and properly bracketed loops. */
module Linear {
  import opened ControlFlow

  /** One element of the flat sequence that becomes structured code. */
  datatype SeqItem =
    | Basic(bb: nat)
    | StartLoop(bb: nat)
    | EndLoop(bb: nat)
    | StartBlock(bb: nat)
    | EndBlock(bb: nat)

  /** The nesting that a bracketed sequence of blocks and loops describes. */
  datatype Forest =
    | End
    | Block(bb: nat, rest: Forest)
    | Loop(head: nat, body: Forest, rest: Forest)

  /** The flat sequence of a forest: well nested by construction. */
  function Flat(f: Forest): seq<SeqItem> {
    match f
    case End => []
    case Block(b, rest) => [Basic(b)] + Flat(rest)
    case Loop(h, body, rest) => [StartLoop(h)] + Flat(body) + [EndLoop(h)] + Flat(rest)
  }

  ghost function BlockSet(f: Forest): set<nat> {
    match f
    case End => {}
    case Block(b, rest) => {b} + BlockSet(rest)
    case Loop(h, body, rest) => BlockSet(body) + BlockSet(rest)
  }

  /** No block occurs twice. */
  ghost predicate NoRepeat(f: Forest) {
    match f
    case End => true
    case Block(b, rest) => b !in BlockSet(rest) && NoRepeat(rest)
    case Loop(h, body, rest) => BlockSet(body) !! BlockSet(rest) && NoRepeat(body) && NoRepeat(rest)
  }

  /** The edges a linearisation looks at: all of them, or only those into a
      non-empty limit set. */
  predicate Allowed(limit: set<nat>, w: nat) {
    limit == {} || w in limit
  }

  /** Where one edge b -> w may go: to an enclosing loop header, to a later
      block, or (a single block that branches to itself) nowhere new. */
  ghost predicate EdgePlaced(b: nat, w: nat, heads: set<nat>, later: set<nat>) {
    w in heads || w in later || w == b
  }

  /** Every looked-at edge of the forest is placed, given the headers of the
      loops around it and the blocks after it; each loop starts at its header. */
  ghost predicate EdgesPlaced(g: Graph, f: Forest, heads: set<nat>, later: set<nat>, limit: set<nat>) {
    match f
    case End => true
    case Block(b, rest) =>
      && (forall w :: w in Succ(g, b) && Allowed(limit, w) ==> EdgePlaced(b, w, heads, later + BlockSet(rest)))
      && EdgesPlaced(g, rest, heads, later, limit)
    case Loop(h, body, rest) =>
      && body.Block? && body.bb == h
      && EdgesPlaced(g, body, heads + {h}, later + BlockSet(rest), limit)
      && EdgesPlaced(g, rest, heads, later, limit)
  }

  /** Some path of looked-at edges leads from a to b. */
  ghost predicate ReachIn(g: Graph, limit: set<nat>, a: nat, b: nat) {
    exists p :: IsPath(g, p) && InLimit(limit, p) && p[0] == a && p[|p| - 1] == b
  }

  ghost predicate InLimit(limit: set<nat>, p: seq<nat>) {
    forall i :: 0 < i < |p| ==> Allowed(limit, p[i])
  }

  lemma ReachInSelf(g: Graph, limit: set<nat>, a: nat)
    ensures ReachIn(g, limit, a, a)
  {
    assert IsPath(g, [a]) && InLimit(limit, [a]);
  }

  lemma ReachInEdge(g: Graph, limit: set<nat>, a: nat, b: nat)
    requires b in Succ(g, a) && Allowed(limit, b)
    ensures ReachIn(g, limit, a, b)
  {
    assert IsPath(g, [a, b]) && InLimit(limit, [a, b]);
  }

  lemma ReachInTrans(g: Graph, limit: set<nat>, a: nat, b: nat, c: nat)
    requires ReachIn(g, limit, a, b) && ReachIn(g, limit, b, c)
    ensures ReachIn(g, limit, a, c)
  {
    var p :| IsPath(g, p) && InLimit(limit, p) && p[0] == a && p[|p| - 1] == b;
    var q :| IsPath(g, q) && InLimit(limit, q) && q[0] == b && q[|q| - 1] == c;
    PathsJoin(g, p, q);
    assert InLimit(limit, p + q[1..]);
  }

  lemma ReachInIsReach(g: Graph, limit: set<nat>, a: nat, b: nat)
    requires ReachIn(g, limit, a, b)
    ensures Reach(g, a, b)
  {
  }

  /** Every loop is one: each block inside reaches the header and is reached from it
      by looked-at edges, inside a loop by edges that do not lead to its header, and
      there is a block besides the header. */
  ghost predicate LoopsCycle(g: Graph, f: Forest, limit: set<nat>) {
    match f
    case End => true
    case Block(_, rest) => LoopsCycle(g, rest, limit)
    case Loop(h, body, rest) =>
      && (forall b :: b in BlockSet(body) ==> ReachIn(g, limit, b, h) && ReachIn(g, limit, h, b))
      && h in BlockSet(body) && BlockSet(body) != {h}
      && LoopsCycle(g, body, BlockSet(body) - {h}) && LoopsCycle(g, rest, limit)
  }

  predicate LoopFree(f: Forest) {
    match f
    case End => true
    case Block(_, rest) => LoopFree(rest)
    case Loop(_, _, _) => false
  }

  /** An acyclic graph gets no loops. */
  lemma {:induction false} AcyclicIsLoopFree(g: Graph, f: Forest, limit: set<nat>)
    requires LoopsCycle(g, f, limit) && Acyclic(g)
    ensures LoopFree(f)
  {
    match f
    case End =>
    case Block(_, rest) => AcyclicIsLoopFree(g, rest, limit);
    case Loop(h, body, rest) =>
      var b :| b in BlockSet(body) && b != h;
      ReachInIsReach(g, limit, b, h);
      ReachInIsReach(g, limit, h, b);
      MutualReachIsCycle(g, h, b);
  }

  /** Placement under one limit carries over to another context in which every
      newly looked-at edge is placed by that context. */
  lemma {:induction false} EdgesPlacedWiden(g: Graph, f: Forest, heads: set<nat>, later: set<nat>, limit: set<nat>,
                          heads': set<nat>, later': set<nat>, limit': set<nat>)
    requires EdgesPlaced(g, f, heads, later, limit)
    requires heads <= heads' && later <= later'
    requires forall b, w :: b in BlockSet(f) && w in Succ(g, b) && Allowed(limit', w) ==>
               Allowed(limit, w) || w in heads' || w in later'
    ensures EdgesPlaced(g, f, heads', later', limit')
  {
    match f
    case End =>
    case Block(b, rest) =>
      EdgesPlacedWiden(g, rest, heads, later, limit, heads', later', limit');
    case Loop(h, body, rest) =>
      EdgesPlacedWiden(g, body, heads + {h}, later + BlockSet(rest), limit,
        heads' + {h}, later' + BlockSet(rest), limit');
      EdgesPlacedWiden(g, rest, heads, later, limit, heads', later', limit');
  }

  function Rev<T>(s: seq<T>): (r: seq<T>)
    ensures |r| == |s|
    ensures forall i :: 0 <= i < |s| ==> r[i] == s[|s| - 1 - i]
  {
    if s == [] then [] else Rev(s[1..]) + [s[0]]
  }

  lemma RevConcat<T>(a: seq<T>, b: seq<T>)
    ensures Rev(a + b) == Rev(b) + Rev(a)
  {
  }

  lemma RevTwice<T>(a: seq<T>)
    ensures Rev(Rev(a)) == a
  {
  }

  // ---- What a placed forest says about positions in the flat sequence.

  predicate IsBasic(items: seq<SeqItem>, i: int, b: nat) {
    0 <= i < |items| && items[i] == Basic(b)
  }

  /** Some forest flattens to this stretch: its brackets match. */
  ghost predicate Bracketed(items: seq<SeqItem>) {
    exists f :: Flat(f) == items
  }

  ghost predicate LoopAround(items: seq<SeqItem>, s: int, i: int, e: int, h: nat) {
    && 0 <= s < i < e < |items|
    && items[s] == StartLoop(h) && items[s + 1] == Basic(h) && items[e] == EndLoop(h)
    && Bracketed(items[s + 1..e])
  }

  lemma {:induction false} BlockSetIsFlat(f: Forest, b: nat)
    ensures b in BlockSet(f) <==> Basic(b) in Flat(f)
  {
    match f
    case End =>
    case Block(_, rest) => BlockSetIsFlat(rest, b);
    case Loop(_, body, rest) => BlockSetIsFlat(body, b); BlockSetIsFlat(rest, b);
  }

  /** A block of a repeat-free forest has exactly one position. */
  lemma {:induction false} NoRepeatOnePlace(f: Forest, i: int, j: int, b: nat)
    requires NoRepeat(f) && IsBasic(Flat(f), i, b) && IsBasic(Flat(f), j, b)
    ensures i == j
  {
    hide BlockSet;
    match f
    case End =>
    case Block(b0, rest) =>
      BlockSetIsFlat(rest, b0);
      if i > 0 && j > 0 {
        NoRepeatOnePlace(rest, i - 1, j - 1, b);
      }
    case Loop(h, body, rest) =>
      BlockSetIsFlat(body, b);
      BlockSetIsFlat(rest, b);
      var n := |Flat(body)|;
      LoopFlatIndex(h, body, rest, i);
      LoopFlatIndex(h, body, rest, j);
      if i <= n && j <= n {
        NoRepeatOnePlace(body, i - 1, j - 1, b);
      } else if i > n && j > n {
        NoRepeatOnePlace(rest, i - n - 2, j - n - 2, b);
      }
  }

  lemma LoopFlatIndex(h: nat, body: Forest, rest: Forest, i: nat)
    requires i < |Flat(Loop(h, body, rest))|
    ensures var n := |Flat(body)|; var x := Flat(Loop(h, body, rest))[i];
            x == if i == 0 then StartLoop(h) else if i <= n then Flat(body)[i - 1]
                 else if i == n + 1 then EndLoop(h) else Flat(rest)[i - n - 2]
  {
  }

  /** Where an edge goes, read off positions: `pre` and `post` are what stands
      before and after the forest. */
  ghost predicate EdgeLands(items: seq<SeqItem>, i: int, b: nat, w: nat) {
    w == b || Later(items, i, w) || InLoopOf(items, i, w)
  }

  ghost predicate Later(items: seq<SeqItem>, i: int, w: nat) {
    exists j :: i < j && IsBasic(items, j, w)
  }

  ghost predicate InLoopOf(items: seq<SeqItem>, i: int, h: nat) {
    exists s, e :: LoopAround(items, s, i, e, h)
  }

  /** The same, where only a block without a loop of its own may name itself. */
  ghost predicate EdgeGoes(items: seq<SeqItem>, i: int, b: nat, w: nat) {
    || Later(items, i, w)
    || InLoopOf(items, i, w)
    || (w == b && StartLoop(b) !in items)
  }

  lemma {:induction false} PlacedEdgeLands(g: Graph, f: Forest, i: int, b: nat, w: nat, heads: set<nat>, later: set<nat>)
    requires EdgesPlaced(g, f, heads, later, {})
    requires IsBasic(Flat(f), i, b) && w in Succ(g, b)
    ensures w in heads || w in later || EdgeLands(Flat(f), i, b, w)
  {
    hide EdgeLands, BlockSet, NoRepeat, Succ;
    match f
    case End =>
    case Block(b0, rest) =>
      if i == 0 {
        if w in BlockSet(rest) {
          LandsLater([Basic(b0)], rest, 0, b, w);
        } else {
          LandsOnItself(Flat(f), i, b, w);
        }
      } else {
        PlacedEdgeLands(g, rest, i - 1, b, w, heads, later);
        LandsShift([Basic(b0)], Flat(rest), [], i - 1, b, w);
        assert Flat(f) == [Basic(b0)] + Flat(rest) + [];
      }
    case Loop(h, body, rest) =>
      var n := |Flat(body)|;
      var pre := [StartLoop(h)] + Flat(body) + [EndLoop(h)];
      LoopFlatIndex(h, body, rest, i);
      if i <= n {
        PlacedEdgeLands(g, body, i - 1, b, w, heads + {h}, later + BlockSet(rest));
        LandsShift([StartLoop(h)], Flat(body), [EndLoop(h)] + Flat(rest), i - 1, b, w);
        assert Flat(f) == [StartLoop(h)] + Flat(body) + ([EndLoop(h)] + Flat(rest));
        if w == h {
          LandsOnHeader(h, body, rest, i);
          InLoopLands(Flat(f), i, b, w);
        } else if w in BlockSet(rest) {
          LandsLater(pre, rest, i, b, w);
        }
      } else {
        PlacedEdgeLands(g, rest, i - n - 2, b, w, heads, later);
        LandsShift(pre, Flat(rest), [], i - n - 2, b, w);
        assert Flat(f) == pre + Flat(rest) + [];
      }
  }

  lemma InLoopLands(items: seq<SeqItem>, i: int, b: nat, w: nat)
    requires InLoopOf(items, i, w)
    ensures EdgeLands(items, i, b, w)
  {
  }

  lemma LandsOnItself(items: seq<SeqItem>, i: int, b: nat, w: nat)
    ensures w == b ==> EdgeLands(items, i, b, w)
  {
  }

  lemma LandsLater(pre: seq<SeqItem>, rest: Forest, i: int, b: nat, w: nat)
    requires 0 <= i < |pre| && w in BlockSet(rest)
    ensures EdgeLands(pre + Flat(rest), i, b, w)
  {
    BlockSetIsFlat(rest, w);
    var j :| 0 <= j < |Flat(rest)| && Flat(rest)[j] == Basic(w);
    assert IsBasic(pre + Flat(rest), |pre| + j, w);
  }

  lemma LandsOnHeader(h: nat, body: Forest, rest: Forest, i: int)
    requires 0 < i <= |Flat(body)| && body.Block? && body.bb == h
    ensures InLoopOf(Flat(Loop(h, body, rest)), i, h)
  {
    var items := Flat(Loop(h, body, rest));
    var n := |Flat(body)|;
    LoopFlatIndex(h, body, rest, 0);
    LoopFlatIndex(h, body, rest, 1);
    LoopFlatIndex(h, body, rest, n + 1);
    assert items[1..n + 1] == Flat(body);
    assert LoopAround(items, 0, i, n + 1, h);
  }

  /** A block that has a loop of its own stands in that loop. */
  lemma {:induction false} HeaderInside(g: Graph, f: Forest, heads: set<nat>, later: set<nat>, limit: set<nat>, i: int, b: nat)
    requires NoRepeat(f) && EdgesPlaced(g, f, heads, later, limit)
    requires IsBasic(Flat(f), i, b) && StartLoop(b) in Flat(f)
    ensures InLoopOf(Flat(f), i, b)
    decreases f, 1
  {
    hide InLoopOf, BlockSet, Succ;
    StartIsBlock(g, f, heads, later, limit, b);
    match f
    case Block(b0, rest) =>
      StartIsBlock(g, rest, heads, later, limit, b);
      assert Flat(f) == [Basic(b0)] + Flat(rest) + [];
      assert StartLoop(b) in Flat(rest) && i > 0;
      HeaderInside(g, rest, heads, later, limit, i - 1, b);
      LoopShift([Basic(b0)], Flat(rest), [], i - 1, b);
    case Loop(h, body, rest) =>
      LoopFlatIndex(h, body, rest, i);
      HeaderInLoop(g, h, body, rest, heads, later, limit, i, b);
  }

  /** The header of a loop is a block of the forest. */
  lemma {:induction false} StartIsBlock(g: Graph, f: Forest, heads: set<nat>, later: set<nat>, limit: set<nat>, b: nat)
    requires EdgesPlaced(g, f, heads, later, limit)
    ensures StartLoop(b) in Flat(f) ==> b in BlockSet(f)
  {
    match f
    case End =>
    case Block(_, rest) => StartIsBlock(g, rest, heads, later, limit, b);
    case Loop(h, body, rest) =>
      StartIsBlock(g, body, heads + {h}, later + BlockSet(rest), limit, b);
      StartIsBlock(g, rest, heads, later, limit, b);
  }

  lemma LoopParts(g: Graph, h: nat, body: Forest, rest: Forest, heads: set<nat>, later: set<nat>, limit: set<nat>)
    requires EdgesPlaced(g, Loop(h, body, rest), heads, later, limit)
    ensures body.Block? && body.bb == h
    ensures EdgesPlaced(g, body, heads + {h}, later + BlockSet(rest), limit) && EdgesPlaced(g, rest, heads, later, limit)
  {
  }

  lemma {:induction false} HeaderInLoop(g: Graph, h: nat, body: Forest, rest: Forest, heads: set<nat>, later: set<nat>,
                                        limit: set<nat>, i: int, b: nat)
    requires NoRepeat(Loop(h, body, rest)) && EdgesPlaced(g, Loop(h, body, rest), heads, later, limit)
    requires IsBasic(Flat(Loop(h, body, rest)), i, b) && StartLoop(b) in Flat(Loop(h, body, rest))
    ensures InLoopOf(Flat(Loop(h, body, rest)), i, b)
    decreases Loop(h, body, rest), 0
  {
    hide InLoopOf, EdgesPlaced, Succ;
    var n := |Flat(body)|;
    var pre := [StartLoop(h)] + Flat(body) + [EndLoop(h)];
    var f := Loop(h, body, rest);
    LoopFlatIndex(h, body, rest, i);
    BlockSetIsFlat(body, b);
    BlockSetIsFlat(rest, b);
    assert EdgesPlaced(g, f, heads, later, limit);
    LoopParts(g, h, body, rest, heads, later, limit);
    StartIsBlock(g, body, heads + {h}, later + BlockSet(rest), limit, b);
    StartIsBlock(g, rest, heads, later, limit, b);
    assert Flat(f) == pre + Flat(rest) + [];
    assert Flat(f) == [StartLoop(h)] + Flat(body) + ([EndLoop(h)] + Flat(rest));
    if i <= n {
      if b == h {
        LandsOnHeader(h, body, rest, i);
      } else {
        assert StartLoop(b) in Flat(body);
        HeaderInside(g, body, heads + {h}, later + BlockSet(rest), limit, i - 1, b);
        LoopShift([StartLoop(h)], Flat(body), [EndLoop(h)] + Flat(rest), i - 1, b);
      }
    } else {
      assert StartLoop(b) in Flat(rest);
      HeaderInside(g, rest, heads, later, limit, i - n - 2, b);
      LoopShift(pre, Flat(rest), [], i - n - 2, b);
    }
  }

  /** An edge that lands within a stretch still lands when items surround it. */
  lemma LandsShift(pre: seq<SeqItem>, items: seq<SeqItem>, post: seq<SeqItem>, i: int, b: nat, w: nat)
    ensures EdgeLands(items, i, b, w) ==> EdgeLands(pre + items + post, i + |pre|, b, w)
  {
    var all := pre + items + post;
    if EdgeLands(items, i, b, w) && w != b {
      if j :| i < j && IsBasic(items, j, w) {
        assert IsBasic(all, j + |pre|, w);
      } else {
        LoopShift(pre, items, post, i, w);
      }
    }
  }

  lemma LoopShift(pre: seq<SeqItem>, items: seq<SeqItem>, post: seq<SeqItem>, i: int, h: nat)
    requires InLoopOf(items, i, h)
    ensures InLoopOf(pre + items + post, i + |pre|, h)
  {
    var all := pre + items + post;
    var s, e :| LoopAround(items, s, i, e, h);
    assert all[s + |pre| + 1..e + |pre|] == items[s + 1..e];
    assert LoopAround(all, s + |pre|, i + |pre|, e + |pre|, h);
  }
}
