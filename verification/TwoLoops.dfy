/** Two loops in a row, each with a branch inside: the second branch's block does not
    fit, because the search finds an opening inside the first loop. */
module TwoLoops {
  import opened Options
  import opened ControlFlow
  import opened Linear
  import opened BlockInsertion
  import opened BlockPlacing
  import opened LoopPlacing
  import opened Landing
  import opened LoopStackify
  import opened TarjanRun

  /** Blocks 1 to 4 and 5 to 8 are loops; 2 and 6 branch around 3 and 7. */
  const TWO_LOOPS: Graph := [Next(1), Next(2), If(4, 3), Next(4), If(5, 1), Next(6), If(8, 7), Next(8), If(9, 5), Return]

  const LINEAR: seq<SeqItem> :=
    [StartLoop(1), Basic(1), Basic(2), Basic(3), Basic(4), EndLoop(1),
     StartLoop(5), Basic(5), Basic(6), Basic(7), Basic(8), EndLoop(5), Basic(9)]

  /** The same with a block for the first branch. */
  const BLOCKED: seq<SeqItem> :=
    [StartLoop(1), Basic(1), StartBlock(4), Basic(2), Basic(3), EndBlock(4), Basic(4), EndLoop(1),
     StartLoop(5), Basic(5), Basic(6), Basic(7), Basic(8), EndLoop(5), Basic(9)]

  function DepthAt(items: seq<SeqItem>, n: nat): int
    requires n <= |items|
  {
    Depth(items[..n])
  }

  /** The last opening at depth 1 before place n. */
  function StartAt(items: seq<SeqItem>, n: nat): Option<nat>
    requires n <= |items|
  {
    LastStartAt(items[..n], 1)
  }

  lemma OneMore(items: seq<SeqItem>, n: nat, x: SeqItem)
    requires n < |items| && items[n] == x
    ensures DepthAt(items, n + 1) == DepthAt(items, n) + Delta(x)
    ensures StartAt(items, n + 1) == if IsStart(x) && DepthAt(items, n) == 1 then Some(n) else StartAt(items, n)
  {
    assert items[..n + 1][..n] == items[..n];
  }

  lemma AtStart(items: seq<SeqItem>)
    ensures DepthAt(items, 0) == 0 && StartAt(items, 0) == None
  {
  }

  /** What the searches see in the first loop's part. */
  lemma FirstFacts(items: seq<SeqItem>)
    requires items == BLOCKED
    ensures DepthAt(items, 2) == 1 && DepthAt(items, 8) == 0 && StartAt(items, 8) == Some(2)
  {
    hide DepthAt, StartAt;
    AtStart(items);
    OneMore(items, 0, StartLoop(1));
    OneMore(items, 1, Basic(1));
    OneMore(items, 2, StartBlock(4));
    OneMore(items, 3, Basic(2));
    OneMore(items, 4, Basic(3));
    OneMore(items, 5, EndBlock(4));
    OneMore(items, 6, Basic(4));
    OneMore(items, 7, EndLoop(1));
  }

  lemma SecondFacts(items: seq<SeqItem>)
    requires items == BLOCKED
    ensures StartAt(items, 10) == Some(2) && DepthAt(items, 12) == 1 && DepthAt(items, 15) == 0
  {
    hide DepthAt, StartAt;
    FirstFacts(items);
    OneMore(items, 8, StartLoop(5));
    OneMore(items, 9, Basic(5));
    OneMore(items, 10, Basic(6));
    OneMore(items, 11, Basic(7));
    OneMore(items, 12, Basic(8));
    OneMore(items, 13, EndLoop(5));
    OneMore(items, 14, Basic(9));
  }

  /** After the first loop has its block, the second one's is to be opened inside the
      first loop, which has been closed since. */
  lemma SecondDoesNotFit()
    ensures Basic(8) in BLOCKED && !InsertFits(BLOCKED, 10, 8)
  {
    hide Depth, LastStartAt, NodeBackwards;
    var items := BLOCKED;
    assert items[12] == Basic(8);
    SecondFacts(items);
    FirstFacts(items);
    NodeBackwardsDepth(items, 8);
    var (j, depth) := NodeBackwards(items, 8);
    assert items[..15] == items;
    assert j == 12 && depth == 1;
    assert DepthForwards(items[..10], depth) == 2;
    assert Depth(items[..8]) < Depth(items[..2]);
  }

  // ---- The only linearisation.

  /** Edges of a placed forest lead to enclosing headers, to what follows, or stay. */
  lemma {:induction false} EdgeStays(g: Graph, f: Forest, heads: set<nat>, later: set<nat>, b: nat, w: nat)
    requires EdgesPlaced(g, f, heads, later, {}) && b in BlockSet(f) && w in Succ(g, b)
    ensures w in heads || w in later || w in BlockSet(f)
  {
    hide Succ;
    match f
    case Block(b0, rest) =>
      if b != b0 {
        EdgeStays(g, rest, heads, later, b, w);
      }
    case Loop(h, body, rest) =>
      if b in BlockSet(body) {
        EdgeStays(g, body, heads + {h}, later + BlockSet(rest), b, w);
      } else {
        EdgeStays(g, rest, heads, later, b, w);
      }
  }

  /** Nothing that comes later leads to the first block. */
  lemma FirstHasNone(g: Graph, x: nat, rest: Forest, heads: set<nat>, later: set<nat>, y: nat)
    requires NoRepeat(Block(x, rest)) && EdgesPlaced(g, Block(x, rest), heads, later, {})
    requires y in BlockSet(rest) && x in Succ(g, y)
    ensures x in heads || x in later
  {
    hide Succ;
    EdgeStays(g, rest, heads, later, y, x);
  }

  /** Edges inside the limit only rise. */
  ghost predicate Rising(g: Graph, limit: set<nat>) {
    limit != {} && forall b: nat, w: nat :: w in Succ(g, b) && w in limit ==> w > b
  }

  lemma {:induction false} PathRises(g: Graph, limit: set<nat>, p: seq<nat>)
    requires Rising(g, limit) && IsPath(g, p) && InLimit(limit, p)
    ensures p[0] <= p[|p| - 1]
    decreases |p|
  {
    if |p| > 1 {
      var q := p[..|p| - 1];
      forall i | 0 <= i < |q| - 1
        ensures q[i + 1] in Succ(g, q[i])
      {
        assert p[i + 1] in Succ(g, p[i]);
      }
      PathRises(g, limit, q);
      assert p[|p| - 2 + 1] in Succ(g, p[|p| - 2]);
    }
  }

  lemma ReachRises(g: Graph, limit: set<nat>, a: nat, b: nat)
    requires Rising(g, limit) && ReachIn(g, limit, a, b)
    ensures a <= b
  {
    var p :| IsPath(g, p) && InLimit(limit, p) && p[0] == a && p[|p| - 1] == b;
    PathRises(g, limit, p);
  }

  lemma {:induction false} RisingIsLoopFree(g: Graph, f: Forest, limit: set<nat>)
    requires Rising(g, limit) && LoopsCycle(g, f, limit)
    ensures LoopFree(f)
  {
    hide ReachIn, Rising;
    match f
    case End =>
    case Block(_, rest) => RisingIsLoopFree(g, rest, limit);
    case Loop(h, body, rest) =>
      var b :| b in BlockSet(body) && b != h;
      ReachRises(g, limit, b, h);
      ReachRises(g, limit, h, b);
  }

  /** Another block of the set leads to x. */
  ghost predicate Fed(g: Graph, blocks: set<nat>, x: nat) {
    exists y :: y in blocks && y != x && x in Succ(g, y)
  }

  /** A forest without loops starts with the one block that no other leads to. */
  lemma FirstIs(g: Graph, f: Forest, a: nat, s: set<nat>, heads: set<nat>, later: set<nat>)
    requires LoopFree(f) && NoRepeat(f) && EdgesPlaced(g, f, heads, later, {}) && BlockSet(f) == {a} + s && a !in s
    requires forall x :: x in s ==> Fed(g, {a} + s, x) && x !in heads && x !in later
    ensures f.Block? && f.bb == a && BlockSet(f.rest) == s
    ensures LoopFree(f.rest) && NoRepeat(f.rest) && EdgesPlaced(g, f.rest, heads, later, {})
  {
    hide Succ;
    NotEmpty(g, f, heads, later);
    assert a in BlockSet(f);
    var x, rest := f.bb, f.rest;
    assert BlockSet(f) == {x} + BlockSet(rest);
    if x in s {
      assert Fed(g, {a} + s, x);
      var y :| y in {a} + s && y != x && x in Succ(g, y);
      FirstHasNone(g, x, rest, heads, later, y);
    }
    assert x == a;
    Without(a, BlockSet(rest), s);
  }

  lemma Without(x: nat, r: set<nat>, s: set<nat>)
    requires {x} + r == {x} + s && x !in r && x !in s
    ensures r == s
  {
    assert r == ({x} + r) - {x};
    assert s == ({x} + s) - {x};
  }

  /** Three blocks in a row that lead to each other come in that order. */
  lemma ThreeInOrder(g: Graph, f: Forest, a: nat, heads: set<nat>, later: set<nat>)
    requires LoopFree(f) && NoRepeat(f) && EdgesPlaced(g, f, heads, later, {}) && BlockSet(f) == {a, a + 1, a + 2}
    requires forall x :: x in heads + later ==> x < a || x > a + 2
    requires a + 1 in Succ(g, a) && a + 2 in Succ(g, a) && a + 2 in Succ(g, a + 1)
    ensures Flat(f) == [Basic(a), Basic(a + 1), Basic(a + 2)]
  {
    hide Succ, LoopFree, NoRepeat, EdgesPlaced, BlockSet;
    ThreeFed(g, a);
    forall x | x in {a + 1, a + 2}
      ensures Fed(g, {a} + {a + 1, a + 2}, x) && x !in heads && x !in later
    {
      assert x in heads || x in later ==> x in heads + later;
    }
    FirstIs(g, f, a, {a + 1, a + 2}, heads, later);
    FirstIs(g, f.rest, a + 1, {a + 2}, heads, later);
    FirstIs(g, f.rest.rest, a + 2, {}, heads, later);
    NotEmpty(g, f.rest.rest.rest, heads, later);
    assert Flat(f.rest.rest) == [Basic(a + 2)] + [];
    assert Flat(f.rest) == [Basic(a + 1)] + Flat(f.rest.rest);
  }

  lemma ThreeFed(g: Graph, a: nat)
    requires a + 1 in Succ(g, a) && a + 2 in Succ(g, a) && a + 2 in Succ(g, a + 1)
    ensures {a, a + 1, a + 2} == {a} + {a + 1, a + 2}
    ensures Fed(g, {a} + {a + 1, a + 2}, a + 1) && Fed(g, {a} + {a + 1, a + 2}, a + 2) && Fed(g, {a + 1} + {a + 2}, a + 2)
    ensures {a + 1, a + 2} == {a + 1} + {a + 2} && {a + 2} == {a + 2} + {}
  {
  }

  lemma NotEmpty(g: Graph, f: Forest, heads: set<nat>, later: set<nat>)
    requires EdgesPlaced(g, f, heads, later, {})
    ensures BlockSet(f) == {} <==> f == End
  {
    if f.Block? {
      assert f.bb in BlockSet(f);
    } else if f.Loop? {
      assert f.body.bb in BlockSet(f);
    }
  }

  /** Blocks 1 to 9 are those reached from 1. */
  lemma ReachedBlocks()
    ensures Reachable(TWO_LOOPS, 1) == {1, 2, 3, 4, 5, 6, 7, 8, 9}
  {
    var g, r := TWO_LOOPS, Reachable(TWO_LOOPS, 1);
    hide Reachable;
    ReachableIsClosed(g, 1);
    assert 2 in Succ(g, 1) && 3 in Succ(g, 2) && 4 in Succ(g, 2) && 5 in Succ(g, 4) && 6 in Succ(g, 5);
    assert 7 in Succ(g, 6) && 8 in Succ(g, 6) && 9 in Succ(g, 8);
    ReachableIsLeast(g, 1, {1, 2, 3, 4, 5, 6, 7, 8, 9});
  }

  /** What is closed under edges is not left. */
  lemma NotReached(g: Graph, s: set<nat>, a: nat, b: nat)
    requires a in s && b !in s && forall x, w :: x in s && w in Succ(g, x) ==> w in s
    ensures !ReachIn(g, {}, a, b)
  {
    if ReachIn(g, {}, a, b) {
      var p :| IsPath(g, p) && InLimit({}, p) && p[0] == a && p[|p| - 1] == b;
      ClosedHoldsPath(g, s, p);
    }
  }

  lemma Edges()
    ensures var g := TWO_LOOPS;
            && Succ(g, 1) == [2] && Succ(g, 2) == [3, 4] && Succ(g, 3) == [4] && Succ(g, 4) == [1, 5]
            && Succ(g, 5) == [6] && Succ(g, 6) == [7, 8] && Succ(g, 7) == [8] && Succ(g, 8) == [5, 9] && Succ(g, 9) == []
  {
  }

  /** A part of the forest that is closed under edges and holds a holds what a leads to. */
  lemma Follows(g: Graph, f: Forest, a: nat, b: nat)
    requires EdgesPlaced(g, f, {}, {}, {}) && a in BlockSet(f) && b in Succ(g, a)
    ensures b in BlockSet(f)
  {
    hide Succ;
    EdgeStays(g, f, {}, {}, a, b);
  }

  /** A loop of four blocks in a row, the first one its header. */
  lemma FourInLoop(g: Graph, h: nat, body: Forest, rest: Forest)
    requires NoRepeat(Loop(h, body, rest)) && EdgesPlaced(g, Loop(h, body, rest), {}, {}, {})
    requires LoopsCycle(g, Loop(h, body, rest), {}) && BlockSet(body) == {h, h + 1, h + 2, h + 3}
    requires Rising(g, {h + 1, h + 2, h + 3}) && forall x :: x in BlockSet(rest) ==> x > h + 3
    requires h + 2 in Succ(g, h + 1) && h + 3 in Succ(g, h + 1) && h + 3 in Succ(g, h + 2)
    ensures Flat(Loop(h, body, rest))
         == [StartLoop(h), Basic(h), Basic(h + 1), Basic(h + 2), Basic(h + 3), EndLoop(h)] + Flat(rest)
  {
    hide Succ, ReachIn, Rising;
    var b1 := body.rest;
    BodyRest(g, h, body, rest);
    RisingIsLoopFree(g, b1, {h + 1, h + 2, h + 3});
    hide LoopsCycle, EdgesPlaced, NoRepeat, LoopFree;
    ThreeInOrder(g, b1, h + 1, {h}, BlockSet(rest));
    assert Flat(body) == [Basic(h)] + Flat(b1);
  }

  lemma BodyRest(g: Graph, h: nat, body: Forest, rest: Forest)
    requires NoRepeat(Loop(h, body, rest)) && EdgesPlaced(g, Loop(h, body, rest), {}, {}, {})
    requires LoopsCycle(g, Loop(h, body, rest), {}) && BlockSet(body) == {h, h + 1, h + 2, h + 3}
    ensures body.Block? && body.bb == h && BlockSet(body.rest) == {h + 1, h + 2, h + 3} && NoRepeat(body.rest)
    ensures EdgesPlaced(g, body.rest, {h}, BlockSet(rest), {}) && LoopsCycle(g, body.rest, {h + 1, h + 2, h + 3})
  {
    hide Succ, ReachIn;
    Without(h, BlockSet(body.rest), {h + 1, h + 2, h + 3});
    assert BlockSet(body) - {h} == {h + 1, h + 2, h + 3};
    assert {} + {h} == {h} && {} + BlockSet(rest) == BlockSet(rest);
  }

  // ---- The first loop.

  lemma StartsWithLoop(f: Forest)
    requires Linearised(TWO_LOOPS, 1, f)
    ensures f.Loop? && f.head == 1
  {
    var g := TWO_LOOPS;
    ReachedBlocks();
    Edges();
    hide Succ, ReachIn, Reachable, SoleOk, LoopsCycle;
    if f.Block? {
      FirstHasNone(g, 1, f.rest, {}, {}, 4);
    }
  }

  /** What is outside the first loop is closed, so it misses all that leads back. */
  lemma OutsideMisses(rest: Forest)
    requires EdgesPlaced(TWO_LOOPS, rest, {}, {}, {}) && 1 !in BlockSet(rest)
    ensures 2 !in BlockSet(rest) && 3 !in BlockSet(rest) && 4 !in BlockSet(rest)
  {
    var g := TWO_LOOPS;
    Edges();
    hide Succ, EdgesPlaced;
    if 4 in BlockSet(rest) {
      Follows(g, rest, 4, 1);
    }
    if 3 in BlockSet(rest) {
      Follows(g, rest, 3, 4);
    }
    if 2 in BlockSet(rest) {
      Follows(g, rest, 2, 4);
    }
  }

  lemma InsideMisses(body: set<nat>)
    requires forall b :: b in body ==> ReachIn(TWO_LOOPS, {}, b, 1)
    ensures forall x :: x in {5, 6, 7, 8, 9} ==> x !in body
  {
    SecondClosed();
    hide Succ, ReachIn;
    forall x | x in {5, 6, 7, 8, 9}
      ensures x !in body
    {
      NotReached(TWO_LOOPS, {5, 6, 7, 8, 9}, x, 1);
    }
  }

  lemma SecondClosed()
    ensures forall x, w :: x in {5, 6, 7, 8, 9} && w in Succ(TWO_LOOPS, x) ==> w in {5, 6, 7, 8, 9}
    ensures forall x, w :: x in {9} && w in Succ(TWO_LOOPS, x) ==> w in {9}
  {
  }

  lemma FirstParts(body: set<nat>, rest: set<nat>)
    requires body !! rest && body + rest == {1, 2, 3, 4, 5, 6, 7, 8, 9} && 1 in body
    requires 2 !in rest && 3 !in rest && 4 !in rest && forall x :: x in {5, 6, 7, 8, 9} ==> x !in body
    ensures body == {1, 2, 3, 4} && rest == {5, 6, 7, 8, 9}
  {
    forall x
      ensures x in body <==> x in {1, 2, 3, 4}
      ensures x in rest <==> x in {5, 6, 7, 8, 9}
    {
      assert x in body + rest <==> x in {1, 2, 3, 4, 5, 6, 7, 8, 9};
    }
  }

  lemma FirstLoop(f: Forest)
    requires Linearised(TWO_LOOPS, 1, f)
    ensures f.Loop? && BlockSet(f.rest) == {5, 6, 7, 8, 9}
    ensures Flat(f) == [StartLoop(1), Basic(1), Basic(2), Basic(3), Basic(4), EndLoop(1)] + Flat(f.rest)
  {
    hide *;
    var g := TWO_LOOPS;
    StartsWithLoop(f);
    OutermostParts(g, 1, f);
    ReachedBlocks();
    Edges();
    Rises();
    OutsideMisses(f.rest);
    InsideMisses(BlockSet(f.body));
    FirstParts(BlockSet(f.body), BlockSet(f.rest));
    FourInLoop(g, 1, f.body, f.rest);
  }

  lemma OutermostParts(g: Graph, entry: nat, f: Forest)
    requires Linearised(g, entry, f) && f.Loop?
    ensures NoRepeat(f) && EdgesPlaced(g, f, {}, {}, {}) && LoopsCycle(g, f, {}) && EdgesPlaced(g, f.rest, {}, {}, {})
    ensures f.head in BlockSet(f.body) && f.head !in BlockSet(f.rest) && BlockSet(f.body) !! BlockSet(f.rest)
    ensures BlockSet(f.body) + BlockSet(f.rest) == Reachable(g, entry)
    ensures forall b :: b in BlockSet(f.body) ==> ReachIn(g, {}, b, f.head)
  {
    hide ReachIn, Reachable, SoleOk;
  }

  lemma Rises()
    ensures Rising(TWO_LOOPS, {2, 3, 4}) && Rising(TWO_LOOPS, {6, 7, 8})
  {
  }

  // ---- The second loop, and what follows it.

  /** What is left after the first loop. */
  ghost predicate SecondPart(rest: Forest) {
    && NoRepeat(rest) && EdgesPlaced(TWO_LOOPS, rest, {}, {}, {}) && LoopsCycle(TWO_LOOPS, rest, {})
    && SoleOk(TWO_LOOPS, {}, 1, Reachable(TWO_LOOPS, 1), rest) && BlockSet(rest) == {5, 6, 7, 8, 9}
  }

  lemma SecondStarts(rest: Forest)
    requires SecondPart(rest)
    ensures rest.Loop?
  {
    var g := TWO_LOOPS;
    Edges();
    hide Succ, LoopsCycle, SoleOk, Reachable;
    NotEmpty(g, rest, {}, {});
    if rest.Block? {
      var x := rest.bb;
      assert x in BlockSet(rest);
      var p := if x == 5 then 8 else if x == 9 then 8 else if x == 8 then 7 else x - 1;
      assert p in BlockSet(rest) && p in BlockSet(rest.rest) && x in Succ(g, p);
      FirstHasNone(g, x, rest.rest, {}, {}, p);
    }
  }

  lemma SecondFactsOf(rest: Forest)
    requires SecondPart(rest) && rest.Loop?
    ensures var h, body, after := rest.head, BlockSet(rest.body), BlockSet(rest.rest);
            && h in body && body != {h} && body !! after && body + after == {5, 6, 7, 8, 9}
            && (forall b :: b in body ==> ReachIn(TWO_LOOPS, {}, b, h) && ReachIn(TWO_LOOPS, {}, h, b))
            && EdgesPlaced(TWO_LOOPS, rest.rest, {}, {}, {}) && EnteredAt(TWO_LOOPS, 1, h, body)
            && LoopsCycle(TWO_LOOPS, rest.rest, {})
  {
    hide ReachIn, EnteredAt, Reachable;
  }

  /** The header is on the cycle, since 9 leads nowhere; so all of the cycle is inside. */
  lemma SecondInside(rest: Forest)
    requires SecondPart(rest) && rest.Loop?
    ensures BlockSet(rest.body) == {5, 6, 7, 8} && BlockSet(rest.rest) == {9}
  {
    hide *;
    var g := TWO_LOOPS;
    Edges();
    SecondClosed();
    SecondFactsOf(rest);
    var h, body := rest.head, BlockSet(rest.body);
    if h == 9 {
      var b :| b in body && b != h;
      NotReached(g, {9}, 9, b);
    }
    if 9 in body {
      NotReached(g, {9}, 9, h);
    }
    AroundMisses(rest.rest, h);
    SecondParts(body, BlockSet(rest.rest));
  }

  /** If any of the cycle were left over, all of it would be. */
  lemma AroundMisses(after: Forest, h: nat)
    requires EdgesPlaced(TWO_LOOPS, after, {}, {}, {}) && h in {5, 6, 7, 8} && h !in BlockSet(after)
    ensures 5 !in BlockSet(after) && 6 !in BlockSet(after) && 7 !in BlockSet(after) && 8 !in BlockSet(after)
  {
    var g := TWO_LOOPS;
    Edges();
    hide Succ, EdgesPlaced;
    assert 5 in BlockSet(after) ==> 6 in BlockSet(after) by { if 5 in BlockSet(after) { Follows(g, after, 5, 6); } }
    assert 6 in BlockSet(after) ==> 7 in BlockSet(after) by { if 6 in BlockSet(after) { Follows(g, after, 6, 7); } }
    assert 7 in BlockSet(after) ==> 8 in BlockSet(after) by { if 7 in BlockSet(after) { Follows(g, after, 7, 8); } }
    assert 8 in BlockSet(after) ==> 5 in BlockSet(after) by { if 8 in BlockSet(after) { Follows(g, after, 8, 5); } }
  }

  lemma SecondParts(body: set<nat>, after: set<nat>)
    requires body !! after && body + after == {5, 6, 7, 8, 9} && 9 !in body
    requires 5 !in after && 6 !in after && 7 !in after && 8 !in after
    ensures body == {5, 6, 7, 8} && after == {9}
  {
    forall x
      ensures x in body <==> x in {5, 6, 7, 8}
      ensures x in after <==> x in {9}
    {
      assert x in body + after <==> x in {5, 6, 7, 8, 9};
    }
  }

  /** Only 5 is led to from outside. */
  lemma SecondHead(h: nat)
    requires h in {5, 6, 7, 8} && EnteredAt(TWO_LOOPS, 1, h, {5, 6, 7, 8})
    ensures h == 5
  {
    var p :| p !in {5, 6, 7, 8} && h in Succ(TWO_LOOPS, p);
    OutsidePreds(p);
  }

  lemma OutsidePreds(p: nat)
    requires p !in {5, 6, 7, 8}
    ensures 6 !in Succ(TWO_LOOPS, p) && 7 !in Succ(TWO_LOOPS, p) && 8 !in Succ(TWO_LOOPS, p)
  {
    Edges();
    assert Succ(TWO_LOOPS, 0) == [1];
    assert p > 9 ==> Succ(TWO_LOOPS, p) == [];
  }

  /** Block 9 stands alone. */
  lemma LastBlock(after: Forest)
    requires EdgesPlaced(TWO_LOOPS, after, {}, {}, {}) && LoopsCycle(TWO_LOOPS, after, {}) && BlockSet(after) == {9}
    requires NoRepeat(after)
    ensures Flat(after) == [Basic(9)]
  {
    hide Succ, ReachIn;
    NotEmpty(TWO_LOOPS, after, {}, {});
    if after.Block? {
      assert after.bb in BlockSet(after);
      Without(9, BlockSet(after.rest), {});
      NotEmpty(TWO_LOOPS, after.rest, {}, {});
    }
  }

  lemma SecondLoop(rest: Forest)
    requires SecondPart(rest)
    ensures Flat(rest) == [StartLoop(5), Basic(5), Basic(6), Basic(7), Basic(8), EndLoop(5), Basic(9)]
  {
    hide *;
    var g := TWO_LOOPS;
    SecondStarts(rest);
    SecondFactsOf(rest);
    SecondInside(rest);
    SecondHead(rest.head);
    Edges();
    Rises();
    SecondUnfolds(rest);
    FourInLoop(g, 5, rest.body, rest.rest);
    LastBlock(rest.rest);
  }

  lemma SecondUnfolds(rest: Forest)
    requires SecondPart(rest) && rest.Loop? && rest.head == 5
    ensures NoRepeat(Loop(5, rest.body, rest.rest)) && EdgesPlaced(TWO_LOOPS, Loop(5, rest.body, rest.rest), {}, {}, {})
    ensures LoopsCycle(TWO_LOOPS, Loop(5, rest.body, rest.rest), {}) && rest == Loop(5, rest.body, rest.rest)
    ensures NoRepeat(rest.rest)
  {
    hide ReachIn, SoleOk, Reachable;
  }

  /** There is one way to linearise the two loops. */
  lemma OneLinearisation(f: Forest)
    requires Linearised(TWO_LOOPS, 1, f)
    ensures Flat(f) == LINEAR
  {
    hide Linearised, SecondPart, Flat, BlockSet;
    FirstLoop(f);
    SecondOf(f);
    SecondLoop(f.rest);
  }

  lemma SecondOf(f: Forest)
    requires Linearised(TWO_LOOPS, 1, f) && f.Loop? && BlockSet(f.rest) == {5, 6, 7, 8, 9}
    ensures SecondPart(f.rest)
  {
    hide ReachIn, Reachable, EnteredAt;
  }

  // ---- The pass on it.

  /** A place where nothing is wanted is passed over. */
  lemma {:induction false} NothingWanted(g: Graph, p: Progress, bb: nat, n: nat)
    requires p.i < |p.items| && n <= |Succ(g, bb)| && forall w :: w in Succ(g, bb) ==> w in Basics(p.items)
    requires forall w :: w in Succ(g, bb) ==> !Wanted(p, w)
    ensures EdgeSteps(g, p, bb, n) == p
  {
    hide Wanted, Basics, FirstBasic;
    if n > 0 {
      NothingWanted(g, p, bb, n - 1);
      BasicsMembers(p.items, Succ(g, bb)[n - 1]);
    }
  }

  lemma PassedOver(g: Graph, p: Progress)
    requires p.i < |p.items| && ClosedItems(g, p.items)
    requires p.items[p.i].Basic? ==> forall w :: w in Succ(g, p.items[p.i].bb) ==> !Wanted(p, w)
    ensures PlaceStep(g, p) == p.(i := p.i + 1) && PassFrom(g, p) == PassFrom(g, p.(i := p.i + 1))
  {
    hide Wanted, Basics, FirstBasic;
    if p.items[p.i].Basic? {
      BasicsMembers(p.items, p.items[p.i].bb);
      NothingWanted(g, p, p.items[p.i].bb, |Succ(g, p.items[p.i].bb)|);
    }
    PlaceStepCounts(g, p);
  }

  /** An edge to the next basic block is not wanted, nor is one that leads back. */
  lemma NotWanted(p: Progress, w: nat, m: nat)
    requires p.i < |p.items| && m < |p.items| && p.items[m] == Basic(w)
    requires m <= p.i || forall q :: p.i < q < m ==> !p.items[q].Basic?
    ensures !Wanted(p, w)
  {
    hide Basics, FirstBasic;
    if m <= p.i {
      BasicsMembers(p.items[..p.i + 1], w);
      assert p.items[..p.i + 1][m] == Basic(w);
    } else {
      FirstBasicFrom(p.items, p.i + 1, m);
    }
  }

  lemma {:induction false} FirstBasicFrom(items: seq<SeqItem>, a: nat, m: nat)
    requires a <= m < |items| && items[m].Basic? && forall q :: a <= q < m ==> !items[q].Basic?
    ensures FirstBasic(items[a..]) == Some(items[m].bb)
    decreases m - a
  {
    if a < m {
      FirstBasicFrom(items, a + 1, m);
      assert items[a..][1..] == items[a + 1..];
    }
  }

  lemma IsWanted(p: Progress, w: nat, m: nat)
    requires p.i < m < |p.items| && p.items[m].Basic? && p.items[m].bb != w && w !in p.placed
    requires forall q :: p.i < q < m ==> !p.items[q].Basic?
    requires forall q :: 0 <= q <= p.i ==> p.items[q] != Basic(w)
    ensures Wanted(p, w)
  {
    hide Basics, FirstBasic;
    BasicsMembers(p.items[..p.i + 1], w);
    FirstBasicFrom(p.items, p.i + 1, m);
  }

  lemma LinearClosed()
    ensures ClosedItems(TWO_LOOPS, LINEAR) && ClosedItems(TWO_LOOPS, BLOCKED)
    ensures Basics(LINEAR) == Basics(BLOCKED)
  {
    hide Basics, Succ;
    Edges();
    forall b
      ensures b in Basics(LINEAR) <==> 1 <= b <= 9
      ensures b in Basics(BLOCKED) <==> 1 <= b <= 9
    {
      BasicsMembers(LINEAR, b);
      BasicsMembers(BLOCKED, b);
    }
    InsertedBasics(LINEAR, 2, 4, 4);
    assert Inserted(LINEAR, 2, 4, 4) == BLOCKED;
  }

  lemma LinearDepths(items: seq<SeqItem>)
    requires items == LINEAR
    ensures DepthAt(items, 4) == 1 && DepthAt(items, 13) == 0 && StartAt(items, 2) == None
  {
    hide DepthAt, StartAt;
    AtStart(items);
    OneMore(items, 0, StartLoop(1));
    OneMore(items, 1, Basic(1));
    OneMore(items, 2, Basic(2));
    OneMore(items, 3, Basic(3));
    OneMore(items, 4, Basic(4));
    OneMore(items, 5, EndLoop(1));
    LaterDepths(items);
  }

  lemma LaterDepths(items: seq<SeqItem>)
    requires items == LINEAR && DepthAt(items, 6) == 0
    ensures DepthAt(items, 13) == 0
  {
    hide DepthAt, StartAt;
    OneMore(items, 6, StartLoop(5));
    OneMore(items, 7, Basic(5));
    OneMore(items, 8, Basic(6));
    OneMore(items, 9, Basic(7));
    OneMore(items, 10, Basic(8));
    OneMore(items, 11, EndLoop(5));
    OneMore(items, 12, Basic(9));
  }

  /** The block for the first branch. */
  lemma FirstInsertion()
    ensures Basic(4) in LINEAR && InsertPair(LINEAR, 2, 4) == BLOCKED
  {
    hide Depth, LastStartAt, NodeBackwards, InsertPair;
    assert LINEAR[4] == Basic(4);
    LinearDepths(LINEAR);
    assert LINEAR[..13] == LINEAR;
    NodeBackwardsDepth(LINEAR, 4);
    var (j, depth) := NodeBackwards(LINEAR, 4);
    assert j == 4 && depth == 1;
    InsertPairIs(LINEAR, 2, 4, 2, 4);
    assert Inserted(LINEAR, 2, 4, 4) == BLOCKED;
  }

  /** Up to the first branch the pass inserts nothing. */
  lemma ToFirstBranch()
    requires ClosedItems(TWO_LOOPS, LINEAR)
    ensures PassFrom(TWO_LOOPS, Progress(LINEAR, 0, {})) == PassFrom(TWO_LOOPS, Progress(LINEAR, 2, {}))
  {
    hide PassFrom, PlaceStep, Wanted, ClosedItems;
    var g := TWO_LOOPS;
    PassedOver(g, Progress(LINEAR, 0, {}));
    NotWanted(Progress(LINEAR, 1, {}), 2, 2);
    PassedOver(g, Progress(LINEAR, 1, {}));
  }

  /** There it inserts the block for 4. */
  lemma AtFirstBranch()
    requires ClosedItems(TWO_LOOPS, LINEAR) && ClosedItems(TWO_LOOPS, BLOCKED)
    ensures PassFrom(TWO_LOOPS, Progress(LINEAR, 2, {})) == PassFrom(TWO_LOOPS, Progress(BLOCKED, 4, {4}))
  {
    hide Wanted, ClosedItems, Basics, Succ, InsertPair, PassFrom;
    var g, p := TWO_LOOPS, Progress(LINEAR, 2, {});
    Edges();
    FirstEdges();
    FirstInsertion();
    AtBranch(g, p, 2, 3, 4);
    assert {} + {4} == {4};
  }

  /** A place whose second edge only is wanted. */
  lemma AtBranch(g: Graph, p: Progress, bb: nat, x: nat, y: nat)
    requires p.i < |p.items| && ClosedItems(g, p.items) && p.items[p.i] == Basic(bb) && Succ(g, bb) == [x, y]
    requires Basic(y) in p.items && !Wanted(p, x) && Wanted(p, y)
    ensures ClosedItems(g, InsertPair(p.items, p.i, y)) && p.i + 2 <= |InsertPair(p.items, p.i, y)|
    ensures PassFrom(g, p) == PassFrom(g, Progress(InsertPair(p.items, p.i, y), p.i + 2, p.placed + {y}))
  {
    BasicsMembers(p.items, bb);
    hide Wanted, Basics, Succ, InsertPair;
    assert x in Succ(g, bb) && y in Succ(g, bb);
    PlaceStepCounts(g, p);
    TwoEdges(g, p, bb, x, y);
    assert PlaceStep(g, p) == Progress(InsertPair(p.items, p.i, y), p.i + 2, p.placed + {y});
  }

  lemma FirstEdges()
    ensures !Wanted(Progress(LINEAR, 2, {}), 3) && Wanted(Progress(LINEAR, 2, {}), 4)
  {
    hide Wanted;
    NotWanted(Progress(LINEAR, 2, {}), 3, 3);
    IsWanted(Progress(LINEAR, 2, {}), 4, 3);
  }

  /** Two edges, of which only the second is wanted. */
  lemma TwoEdges(g: Graph, p: Progress, bb: nat, x: nat, y: nat)
    requires p.i < |p.items| && Succ(g, bb) == [x, y] && x in Basics(p.items) && y in Basics(p.items)
    requires !Wanted(p, x) && Wanted(p, y)
    ensures Basic(y) in p.items && EdgeSteps(g, p, bb, 1) == p
    ensures EdgeSteps(g, p, bb, 2) == Progress(InsertPair(p.items, p.i, y), p.i + 1, p.placed + {y})
  {
    hide Wanted, Basics, Succ, InsertPair;
    BasicsMembers(p.items, x);
    BasicsMembers(p.items, y);
    assert EdgeSteps(g, p, bb, 0) == p;
    assert EdgeSteps(g, p, bb, 1) == EdgeStep(p, x);
    assert EdgeSteps(g, p, bb, 2) == EdgeStep(p, y);
  }

  /** And from there it gets to the second branch without another insertion. */
  lemma ToSecondBranch()
    requires ClosedItems(TWO_LOOPS, BLOCKED)
    ensures PassFrom(TWO_LOOPS, Progress(BLOCKED, 4, {4})) == PassFrom(TWO_LOOPS, Progress(BLOCKED, 10, {4}))
  {
    hide PassFrom, PlaceStep, Wanted, ClosedItems, Succ;
    var g, items := TWO_LOOPS, BLOCKED;
    Edges();
    NotWanted(Progress(items, 4, {4}), 4, 6);
    PassedOver(g, Progress(items, 4, {4}));
    PassedOver(g, Progress(items, 5, {4}));
    NotWanted(Progress(items, 6, {4}), 1, 1);
    NotWanted(Progress(items, 6, {4}), 5, 9);
    PassedOver(g, Progress(items, 6, {4}));
    PassedOver(g, Progress(items, 7, {4}));
    PassedOver(g, Progress(items, 8, {4}));
    NotWanted(Progress(items, 9, {4}), 6, 10);
    PassedOver(g, Progress(items, 9, {4}));
  }

  lemma SecondEdges()
    ensures !Wanted(Progress(BLOCKED, 10, {4}), 7) && Wanted(Progress(BLOCKED, 10, {4}), 8)
  {
    hide Wanted;
    NotWanted(Progress(BLOCKED, 10, {4}), 7, 11);
    IsWanted(Progress(BLOCKED, 10, {4}), 8, 11);
  }

  /** There the insertion does not fit. */
  lemma AtSecondBranch()
    requires ClosedItems(TWO_LOOPS, BLOCKED)
    ensures !Nested(PassFrom(TWO_LOOPS, Progress(BLOCKED, 10, {4})))
  {
    var g, p := TWO_LOOPS, Progress(BLOCKED, 10, {4});
    assert p.items[10] == Basic(6);
    Edges();
    hide Wanted, Basics, Succ, Nested, InsertFits, ClosedItems;
    SecondRecorded();
    PassNests(g, p);
    SecondEdges();
    SecondDoesNotFit();
    SecondUnfit(g, p);
    PlaceStepCounts(g, p);
  }

  lemma SecondRecorded()
    ensures Recorded(Progress(BLOCKED, 10, {4}))
  {
  }

  lemma SecondUnfit(g: Graph, p: Progress)
    requires p.i < |p.items| && ClosedItems(g, p.items) && p.items[p.i] == Basic(6) && Succ(g, 6) == [7, 8]
    requires Basic(8) in p.items && !Wanted(p, 7) && Wanted(p, 8) && !InsertFits(p.items, p.i, 8)
    ensures !PlaceFits(g, p)
  {
    BasicsMembers(p.items, 6);
    hide Wanted, Basics, Succ, InsertFits, InsertPair;
    assert forall w :: w in Succ(g, 6) ==> w in Basics(p.items);
    assert 7 in Succ(g, 6) && 8 in Succ(g, 6);
    TwoEdges(g, p, 6, 7, 8);
    assert !EdgesFit(g, p, 6, 2);
  }

  /** However the two loops are linearised, the pass fails on them: the second branch
      gets a block that is opened inside the first loop, and some exit of the emitted
      code does not reach its block. */
  lemma TwoLoopsFail(f: Forest, items: seq<SeqItem>)
    requires Compiled(TWO_LOOPS, 1, f, items)
    ensures Flat(f) == LINEAR && ClosedItems(TWO_LOOPS, BLOCKED)
    ensures items == PassFrom(TWO_LOOPS, Progress(BLOCKED, 10, {4}))
    ensures !Nested(items) && !PassFits(TWO_LOOPS, Progress(Flat(f), 0, {})) && !ExitsReach(TWO_LOOPS, items)
  {
    OneLinearisation(f);
    TwoLoopsComplete();
    hide PassFrom, Nested, Linearised, PassFits, ClosedItems, ExitsReach;
    LinearClosed();
    ToFirstBranch();
    AtFirstBranch();
    ToSecondBranch();
    AtSecondBranch();
    StructuredExactly(TWO_LOOPS, 1, f, items);
  }

  lemma TwoLoopsComplete()
    ensures Complete(TWO_LOOPS)
  {
    Edges();
  }
}
