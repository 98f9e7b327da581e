/** What the linearisation of a graph with loops gives the pass to start from. */
module LoopLinear {
  import opened Options
  import opened ControlFlow
  import opened Linear
  import opened BlockInsertion
  import opened BlockPlacing
  import opened StructuredCode
  import opened LoopInsertion
  import opened LoopPlacing
  import opened LoopLabels
  import opened LoopFacts
  import opened LoopKeeping
  import opened TarjanRun

  // ---- Its brackets match, and each edge back is inside its loop.

  lemma ScanOne(items: seq<SeqItem>, x: SeqItem)
    ensures Scan(Kinds(items + [x])) ==
              var before := Scan(Kinds(items));
              if before.None? || x.Basic? then before
              else if IsStart(x) then Some(before.value + [Kind(x).bb])
              else if before.value != [] && before.value[|before.value| - 1] == Kind(x).bb
              then Some(before.value[..|before.value| - 1])
              else None
  {
    hide Scan;
    assert Kinds(items + [x]) == Kinds(items) + [Kind(x)];
    ScanSnoc(Kinds(items), Kind(x));
  }

  /** The brackets of a forest match. */
  lemma {:induction false} FlatScans(a: seq<SeqItem>, f: Forest)
    requires Scan(Kinds(a)).Some?
    ensures Scan(Kinds(a + Flat(f))) == Scan(Kinds(a))
    decreases f
  {
    hide Scan, Kinds;
    match f
    case End =>
      assert a + [] == a;
    case Block(b, rest) =>
      ScanOne(a, Basic(b));
      FlatScans(a + [Basic(b)], rest);
      assert a + [Basic(b)] + Flat(rest) == a + Flat(f);
    case Loop(h, body, rest) =>
      var a1 := a + [StartLoop(h)];
      ScanOne(a, StartLoop(h));
      FlatScans(a1, body);
      ScanOne(a1 + Flat(body), EndLoop(h));
      var open := Scan(Kinds(a)).value;
      assert (open + [2 * h + 1])[..|open|] == open;
      FlatScans(a1 + Flat(body) + [EndLoop(h)], rest);
      assert a1 + Flat(body) + [EndLoop(h)] + Flat(rest) == a + Flat(f);
  }

  lemma FlatNested(f: Forest)
    ensures Nested(Flat(f))
  {
    assert Kinds([]) == [];
    FlatScans([], f);
    assert [] + Flat(f) == Flat(f);
  }

  /** A loop starts with its header. */
  lemma {:induction false} HeadNext(g: Graph, f: Forest, heads: set<nat>, later: set<nat>, limit: set<nat>, s: nat)
    requires EdgesPlaced(g, f, heads, later, limit) && s < |Flat(f)| && Flat(f)[s].StartLoop?
    ensures s + 1 < |Flat(f)| && Flat(f)[s + 1] == Basic(Flat(f)[s].bb)
  {
    hide BlockSet, Succ;
    match f
    case Block(b, rest) =>
      HeadNext(g, rest, heads, later, limit, s - 1);
    case Loop(h, body, rest) =>
      var n := |Flat(body)|;
      LoopFlatIndex(h, body, rest, s);
      if s + 1 < |Flat(f)| {
        LoopFlatIndex(h, body, rest, s + 1);
      }
      if 0 < s <= n {
        HeadNext(g, body, heads + {h}, later + BlockSet(rest), limit, s - 1);
      } else if s > n + 1 {
        HeadNext(g, rest, heads, later, limit, s - n - 2);
      }
  }

  lemma {:induction false} EndIsBlock(g: Graph, f: Forest, heads: set<nat>, later: set<nat>, limit: set<nat>, b: nat)
    requires EdgesPlaced(g, f, heads, later, limit)
    ensures EndLoop(b) in Flat(f) ==> b in BlockSet(f)
  {
    match f
    case End =>
    case Block(_, rest) => EndIsBlock(g, rest, heads, later, limit, b);
    case Loop(h, body, rest) =>
      EndIsBlock(g, body, heads + {h}, later + BlockSet(rest), limit, b);
      EndIsBlock(g, rest, heads, later, limit, b);
  }

  /** A header has one loop. */
  lemma {:induction false} OneLoopEnd(g: Graph, f: Forest, heads: set<nat>, later: set<nat>, limit: set<nat>, i: nat, j: nat,
                                      h: nat)
    requires NoRepeat(f) && EdgesPlaced(g, f, heads, later, limit)
    requires i < |Flat(f)| && j < |Flat(f)| && Flat(f)[i] == EndLoop(h) && Flat(f)[j] == EndLoop(h)
    ensures i == j
  {
    match f
    case Block(b, rest) =>
      OneLoopEnd(g, rest, heads, later, limit, i - 1, j - 1, h);
    case Loop(h0, body, rest) =>
      var n := |Flat(body)|;
      LoopFlatIndex(h0, body, rest, i);
      LoopFlatIndex(h0, body, rest, j);
      hide EdgesPlaced;
      LoopParts(g, h0, body, rest, heads, later, limit);
      EndIsBlock(g, body, heads + {h0}, later + BlockSet(rest), limit, h);
      EndIsBlock(g, rest, heads, later, limit, h);
      HeaderEnds(g, body, h0, heads + {h0}, later + BlockSet(rest), limit);
      if i <= n && j <= n {
        OneLoopEnd(g, body, heads + {h0}, later + BlockSet(rest), limit, i - 1, j - 1, h);
      } else if i > n + 1 && j > n + 1 {
        OneLoopEnd(g, rest, heads, later, limit, i - n - 2, j - n - 2, h);
      }
  }

  /** Inside its own loop a header has no other. */
  lemma HeaderEnds(g: Graph, body: Forest, h: nat, heads: set<nat>, later: set<nat>, limit: set<nat>)
    requires body.Block? && body.bb == h && NoRepeat(body) && EdgesPlaced(g, body, heads, later, limit)
    ensures EndLoop(h) !in Flat(body)
  {
    EndIsBlock(g, body.rest, heads, later, limit, h);
  }

  lemma {:induction false} FlatNoBlocks(f: Forest)
    ensures forall x :: x in Flat(f) ==> !x.StartBlock? && !x.EndBlock?
  {
    match f
    case End =>
    case Block(_, rest) => FlatNoBlocks(rest);
    case Loop(_, body, rest) =>
      FlatNoBlocks(body);
      FlatNoBlocks(rest);
  }

  /** What the linearisation gives the pass to start from. */
  lemma LinearisedStarts(g: Graph, entry: nat, f: Forest)
    requires Linearised(g, entry, f) && SelfLooped(g, Flat(f))
    ensures Invariant(g, Progress(Flat(f), 0, {}), 0) && Nested(Flat(f))
  {
    hide NoRepeat, EdgesPlaced, LoopsCycle, SoleOk, Reachable, Flat, Basics, Nested, SelfLooped;
    var items := Flat(f);
    FlatNested(f);
    FlatNoBlocks(f);
    LinearisedPlaces(g, entry, f);
    DistinctPlaces(items);
    forall q | 0 <= q < |items|
      ensures !items[q].StartBlock? && !items[q].EndBlock?
      ensures items[q].StartLoop? ==> HeadFollows(items, q)
      ensures BackOk(g, items, q)
    {
      assert items[q] in items;
      if items[q].StartLoop? {
        HeadNext(g, f, {}, {}, {}, q);
        assert Clear(items, q, q + 1, items[q].bb);
      }
      BackInside(g, entry, f, q);
    }
    if items != [] && items[0].Basic? {
      assert Succ(g, items[0].bb)[..0] == [];
    }
  }

  lemma BackInside(g: Graph, entry: nat, f: Forest, i: nat)
    requires Linearised(g, entry, f) && SelfLooped(g, Flat(f)) && i < |Flat(f)| && Distinct(Basics(Flat(f)))
    ensures BackOk(g, Flat(f), i)
  {
    hide LoopsCycle, SoleOk, Reachable, Flat, Basics, Precedes, BlockSet, Distinct;
    var items := Flat(f);
    LinearisedPlaces(g, entry, f);
    if items[i].Basic? {
      var b := items[i].bb;
      BasicsMembers(items, b);
      forall w | w in Succ(g, b) && Precedes(Basics(items), w, b)
        ensures BackOpen(items, i, w)
      {
        assert IsBasic(items, i, b);
        assert EdgeGoes(items, i, b, w);
        NotLater(items, i, w);
        var s, e :| LoopAround(items, s, i, e, w);
        forall q | s < q < i
          ensures items[q] != EndLoop(w)
        {
          if items[q] == EndLoop(w) {
            OneLoopEnd(g, f, {}, {}, {}, q, e, w);
          }
        }
        assert StillOpen(items, s, i, w);
      }
    }
  }

  lemma NotLater(items: seq<SeqItem>, i: nat, w: nat)
    requires Distinct(Basics(items)) && i < |items| && items[i].Basic? && Precedes(Basics(items), w, items[i].bb)
    ensures !Later(items, i, w)
  {
    hide Basics, Precedes, Distinct;
    if j :| i < j && IsBasic(items, j, w) {
      PlacePrecedes(items, j, i);
    }
  }

  // ---- Each loop starts once and ends once.

  lemma MarkIsBlock(g: Graph, f: Forest, heads: set<nat>, later: set<nat>, limit: set<nat>, i: nat)
    requires EdgesPlaced(g, f, heads, later, limit) && i < |Flat(f)| && !Flat(f)[i].Basic?
    ensures Flat(f)[i].bb in BlockSet(f) && (Flat(f)[i].StartLoop? || Flat(f)[i].EndLoop?)
  {
    hide EdgesPlaced, BlockSet, Flat;
    FlatNoBlocks(f);
    assert Flat(f)[i] in Flat(f);
    StartIsBlock(g, f, heads, later, limit, Flat(f)[i].bb);
    EndIsBlock(g, f, heads, later, limit, Flat(f)[i].bb);
  }

  /** Marks of the body of a loop do not name the header. */
  lemma BodyMark(g: Graph, body: Forest, h: nat, heads: set<nat>, later: set<nat>, limit: set<nat>, i: nat)
    requires body.Block? && body.bb == h && NoRepeat(body) && EdgesPlaced(g, body, heads, later, limit)
    requires i < |Flat(body)| && !Flat(body)[i].Basic?
    ensures Flat(body)[i].bb in BlockSet(body) && Flat(body)[i].bb != h
  {
    MarkIsBlock(g, body.rest, heads, later, limit, i - 1);
  }

  lemma {:induction false} OneMark(g: Graph, f: Forest, heads: set<nat>, later: set<nat>, limit: set<nat>, i: nat, j: nat)
    requires NoRepeat(f) && EdgesPlaced(g, f, heads, later, limit)
    requires i < j < |Flat(f)| && !Flat(f)[i].Basic?
    ensures Flat(f)[i] != Flat(f)[j]
  {
    match f
    case Block(b, rest) => OneMark(g, rest, heads, later, limit, i - 1, j - 1);
    case Loop(h, body, rest) =>
      var n := |Flat(body)|;
      LoopFlatIndex(h, body, rest, i);
      LoopFlatIndex(h, body, rest, j);
      LoopParts(g, h, body, rest, heads, later, limit);
      LoopMark(g, h, body, rest, heads, later, limit, i);
      LoopMark(g, h, body, rest, heads, later, limit, j);
      hide EdgesPlaced, Flat;
      if 0 < i && j <= n {
        OneMark(g, body, heads + {h}, later + BlockSet(rest), limit, i - 1, j - 1);
      } else if i > n + 1 {
        OneMark(g, rest, heads, later, limit, i - n - 2, j - n - 2);
      }
  }

  /** The label of a mark tells whether it is the loop's own, inside or behind it. */
  lemma LoopMark(g: Graph, h: nat, body: Forest, rest: Forest, heads: set<nat>, later: set<nat>, limit: set<nat>, i: nat)
    requires NoRepeat(Loop(h, body, rest)) && EdgesPlaced(g, Loop(h, body, rest), heads, later, limit)
    requires i < |Flat(Loop(h, body, rest))|
    ensures var n := |Flat(body)|; var x := Flat(Loop(h, body, rest))[i];
            !x.Basic? ==>
              && (i == 0 ==> x == StartLoop(h)) && (i == n + 1 ==> x == EndLoop(h)) && h in BlockSet(body)
              && (0 < i <= n ==> x.bb in BlockSet(body) && x.bb != h)
              && (i > n + 1 ==> x.bb in BlockSet(rest) && x.bb !in BlockSet(body))
  {
    var n := |Flat(body)|;
    LoopFlatIndex(h, body, rest, i);
    LoopParts(g, h, body, rest, heads, later, limit);
    if !Flat(Loop(h, body, rest))[i].Basic? {
      if 0 < i <= n {
        BodyMark(g, body, h, heads + {h}, later + BlockSet(rest), limit, i - 1);
      } else if i > n + 1 {
        MarkIsBlock(g, rest, heads, later, limit, i - n - 2);
      }
    }
  }

  lemma {:induction false} LoopCloses(f: Forest, a: nat) returns (c: nat)
    requires a < |Flat(f)| && Flat(f)[a].StartLoop?
    ensures a < c < |Flat(f)| && Flat(f)[c] == EndLoop(Flat(f)[a].bb)
  {
    match f
    case Block(b, rest) =>
      c := LoopCloses(rest, a - 1);
      c := c + 1;
    case Loop(h, body, rest) =>
      var n := |Flat(body)|;
      LoopFlatIndex(h, body, rest, a);
      if a == 0 {
        c := n + 1;
      } else if a <= n {
        c := LoopCloses(body, a - 1);
        c := c + 1;
      } else {
        c := LoopCloses(rest, a - n - 2);
        c := c + n + 2;
      }
      LoopFlatIndex(h, body, rest, c);
  }

  lemma {:induction false} LoopOpens(f: Forest, c: nat) returns (a: nat)
    requires c < |Flat(f)| && Flat(f)[c].EndLoop?
    ensures a < c && Flat(f)[a] == StartLoop(Flat(f)[c].bb)
  {
    match f
    case Block(b, rest) =>
      a := LoopOpens(rest, c - 1);
      a := a + 1;
    case Loop(h, body, rest) =>
      var n := |Flat(body)|;
      LoopFlatIndex(h, body, rest, c);
      if c == n + 1 {
        a := 0;
      } else if c <= n {
        a := LoopOpens(body, c - 1);
        a := a + 1;
      } else {
        a := LoopOpens(rest, c - n - 2);
        a := a + n + 2;
      }
      LoopFlatIndex(h, body, rest, a);
  }

  lemma FlatPaired(g: Graph, f: Forest)
    requires NoRepeat(f) && EdgesPlaced(g, f, {}, {}, {})
    ensures Paired(Flat(f))
  {
    hide NoRepeat, EdgesPlaced, Flat;
    var items := Flat(f);
    forall a: nat, b: nat | a < b < |items| && !items[a].Basic?
      ensures items[a] != items[b]
    {
      OneMark(g, f, {}, {}, {}, a, b);
    }
    FlatNoBlocks(f);
    forall s: nat | s < |items| && IsStart(items[s])
      ensures EndedBy(items, s, |items|)
    {
      assert items[s] in items;
      var e := LoopCloses(f, s);
      assert Match(items[s], items[e]);
    }
    forall e: nat | e < |items| && IsEnd(items[e])
      ensures Started(items, e)
    {
      assert items[e] in items;
      var s := LoopOpens(f, e);
      assert Match(items[s], items[e]);
    }
  }

  /** A loop of a part is a loop of that part. */
  lemma SpanInside(g: Graph, h: nat, body: Forest, rest: Forest, heads: set<nat>, later: set<nat>, limit: set<nat>, a: nat,
                   c: nat)
    requires NoRepeat(Loop(h, body, rest)) && EdgesPlaced(g, Loop(h, body, rest), heads, later, limit)
    requires LoopSpan(Flat(Loop(h, body, rest)), a, c)
    ensures var n := |Flat(body)|;
            if a == 0 then c == n + 1
            else if a <= n then LoopSpan(Flat(body), a - 1, c - 1)
            else a > n + 1 && LoopSpan(Flat(rest), a - n - 2, c - n - 2)
  {
    hide EdgesPlaced, NoRepeat;
    LoopFlatIndex(h, body, rest, a);
    LoopFlatIndex(h, body, rest, c);
    LoopMark(g, h, body, rest, heads, later, limit, a);
    LoopMark(g, h, body, rest, heads, later, limit, c);
  }

  lemma {:induction false} FlatNests(g: Graph, f: Forest, heads: set<nat>, later: set<nat>, limit: set<nat>, a: nat, c: nat,
                                     b: nat, d: nat)
    requires NoRepeat(f) && EdgesPlaced(g, f, heads, later, limit)
    requires LoopSpan(Flat(f), a, c) && LoopSpan(Flat(f), b, d) && a < b < c
    ensures d < c
  {
    hide EdgesPlaced, NoRepeat, BlockSet;
    match f
    case Block(bb, rest) =>
      RestParts(g, bb, rest, heads, later, limit);
      FlatNests(g, rest, heads, later, limit, a - 1, c - 1, b - 1, d - 1);
    case Loop(h, body, rest) =>
      var n := |Flat(body)|;
      SpanInside(g, h, body, rest, heads, later, limit, a, c);
      SpanInside(g, h, body, rest, heads, later, limit, b, d);
      LoopParts(g, h, body, rest, heads, later, limit);
      LoopOnce(g, h, body, rest);
      if 0 < a <= n {
        FlatNests(g, body, heads + {h}, later + BlockSet(rest), limit, a - 1, c - 1, b - 1, d - 1);
      } else if a > n {
        FlatNests(g, rest, heads, later, limit, a - n - 2, c - n - 2, b - n - 2, d - n - 2);
      }
  }

  // ---- In every loop some block leads back to its header.

  ghost predicate HasBack(g: Graph, f: Forest) {
    match f
    case End => true
    case Block(_, rest) => HasBack(g, rest)
    case Loop(h, body, rest) =>
      (exists x :: x in BlockSet(body) && x != h && h in Succ(g, x)) && HasBack(g, body) && HasBack(g, rest)
  }

  /** The looked-at edges of a set stay in it. */
  ghost predicate ClosedIn(g: Graph, s: set<nat>, limit: set<nat>) {
    forall x, w :: x in s && w in Succ(g, x) && Allowed(limit, w) ==> w in s
  }

  lemma {:induction false} ClosedHolds(g: Graph, s: set<nat>, limit: set<nat>, p: seq<nat>)
    requires ClosedIn(g, s, limit) && IsPath(g, p) && InLimit(limit, p) && p[0] in s
    ensures p[|p| - 1] in s
    decreases |p|
  {
    if |p| > 1 {
      assert p[1] in Succ(g, p[0]) && Allowed(limit, p[1]);
      PathTail(g, p);
      assert InLimit(limit, p[1..]);
      ClosedHolds(g, s, limit, p[1..]);
    }
  }

  /** Where an edge of a forest may lead. */
  lemma {:induction false} EdgeIn(g: Graph, f: Forest, heads: set<nat>, later: set<nat>, limit: set<nat>, x: nat, w: nat)
    requires EdgesPlaced(g, f, heads, later, limit) && x in BlockSet(f) && w in Succ(g, x) && Allowed(limit, w)
    ensures w in heads || w in later || w in BlockSet(f)
  {
    match f
    case Block(b, rest) =>
      if x != b {
        EdgeIn(g, rest, heads, later, limit, x, w);
      }
    case Loop(h, body, rest) =>
      if x in BlockSet(body) {
        EdgeIn(g, body, heads + {h}, later + BlockSet(rest), limit, x, w);
      } else {
        EdgeIn(g, rest, heads, later, limit, x, w);
      }
  }

  /** A forest among headers around it and blocks behind it: no looked-at edge leads to
      those headers, nor from those blocks to anything else. */
  ghost predicate Within(g: Graph, f: Forest, heads: set<nat>, later: set<nat>, limit: set<nat>) {
    && BlockSet(f) !! heads && BlockSet(f) !! later && ClosedIn(g, later, limit)
    && (if limit == {} then heads == {} else heads !! limit && BlockSet(f) <= limit)
  }

  lemma LoopLeadsBack(g: Graph, h: nat, body: Forest, rest: Forest, heads: set<nat>, later: set<nat>, limit: set<nat>)
    requires NoRepeat(Loop(h, body, rest)) && EdgesPlaced(g, Loop(h, body, rest), heads, later, limit)
    requires LoopsCycle(g, Loop(h, body, rest), limit) && Within(g, Loop(h, body, rest), heads, later, limit)
    ensures exists x :: x in BlockSet(body) && x != h && h in Succ(g, x)
  {
    hide ReachIn, Succ;
    if !exists x :: x in BlockSet(body) && x != h && h in Succ(g, x) {
      var inside := BlockSet(body) + BlockSet(rest) + later - {h};
      forall x, w | x in inside && w in Succ(g, x) && Allowed(limit, w)
        ensures w in inside
      {
        if x in BlockSet(body) {
          EdgeIn(g, body, heads + {h}, later + BlockSet(rest), limit, x, w);
        } else if x in BlockSet(rest) {
          EdgeIn(g, rest, heads, later, limit, x, w);
        }
      }
      var b :| b in BlockSet(body) && b != h;
      NeverReaches(g, inside, limit, b, h);
    }
  }

  lemma NeverReaches(g: Graph, s: set<nat>, limit: set<nat>, a: nat, b: nat)
    requires ClosedIn(g, s, limit) && a in s && b !in s
    ensures !ReachIn(g, limit, a, b)
  {
    if ReachIn(g, limit, a, b) {
      var p :| IsPath(g, p) && InLimit(limit, p) && p[0] == a && p[|p| - 1] == b;
      ClosedHolds(g, s, limit, p);
    }
  }

  /** The inside of a loop, behind its header. */
  lemma WithinLoop(g: Graph, h: nat, body: Forest, rest: Forest, heads: set<nat>, later: set<nat>, limit: set<nat>)
    requires NoRepeat(Loop(h, body, rest)) && EdgesPlaced(g, Loop(h, body, rest), heads, later, limit)
    requires LoopsCycle(g, Loop(h, body, rest), limit) && Within(g, Loop(h, body, rest), heads, later, limit)
    ensures body.Block? && body.bb == h
    ensures var limit' := BlockSet(body.rest);
            && EdgesPlaced(g, body.rest, heads + {h}, later + BlockSet(rest), limit')
            && LoopsCycle(g, body.rest, limit') && Within(g, body.rest, heads + {h}, later + BlockSet(rest), limit')
  {
    hide ReachIn, Succ;
    var limit' := BlockSet(body.rest);
    assert BlockSet(body) - {h} == limit';
    EdgesPlacedWiden(g, body.rest, heads + {h}, later + BlockSet(rest), limit, heads + {h}, later + BlockSet(rest), limit');
    forall x, w | x in later + BlockSet(rest) && w in Succ(g, x) && Allowed(limit', w)
      ensures w in later + BlockSet(rest)
    {
      if x in BlockSet(rest) {
        EdgeIn(g, rest, heads, later, limit, x, w);
      }
    }
  }

  lemma {:induction false} LoopsLeadBack(g: Graph, f: Forest, heads: set<nat>, later: set<nat>, limit: set<nat>)
    requires NoRepeat(f) && EdgesPlaced(g, f, heads, later, limit)
    requires LoopsCycle(g, f, limit) && Within(g, f, heads, later, limit)
    ensures HasBack(g, f)
  {
    match f
    case End =>
    case Block(_, rest) => LoopsLeadBack(g, rest, heads, later, limit);
    case Loop(h, body, rest) =>
      LoopLeadsBack(g, h, body, rest, heads, later, limit);
      WithinLoop(g, h, body, rest, heads, later, limit);
      LoopsLeadBack(g, body.rest, heads + {h}, later + BlockSet(rest), BlockSet(body.rest));
      LoopsLeadBack(g, rest, heads, later, limit);
  }

  lemma RestParts(g: Graph, b: nat, rest: Forest, heads: set<nat>, later: set<nat>, limit: set<nat>)
    ensures NoRepeat(Block(b, rest)) ==> NoRepeat(rest)
    ensures EdgesPlaced(g, Block(b, rest), heads, later, limit) ==> EdgesPlaced(g, rest, heads, later, limit)
    ensures HasBack(g, Block(b, rest)) ==> HasBack(g, rest)
  {
  }

  lemma LoopOnce(g: Graph, h: nat, body: Forest, rest: Forest)
    ensures NoRepeat(Loop(h, body, rest)) ==> NoRepeat(body) && NoRepeat(rest)
    ensures HasBack(g, Loop(h, body, rest)) ==> HasBack(g, body) && HasBack(g, rest)
  {
    hide Succ;
  }

  lemma BackPlace(g: Graph, h: nat, body: Forest, rest: Forest) returns (i: nat)
    requires HasBack(g, Loop(h, body, rest))
    ensures i < |Flat(body)| && Flat(body)[i].Basic? && Flat(body)[i].bb != h && h in Succ(g, Flat(body)[i].bb)
  {
    var x :| x in BlockSet(body) && x != h && h in Succ(g, x);
    BlockSetIsFlat(body, x);
    i :| 0 <= i < |Flat(body)| && Flat(body)[i] == Basic(x);
  }

  lemma {:induction false} FlatBack(g: Graph, f: Forest, heads: set<nat>, later: set<nat>, limit: set<nat>, a: nat, c: nat)
    returns (i: nat)
    requires NoRepeat(f) && EdgesPlaced(g, f, heads, later, limit) && HasBack(g, f) && LoopSpan(Flat(f), a, c)
    ensures a < i < c < |Flat(f)| && Flat(f)[i].Basic? && Flat(f)[i].bb != Flat(f)[a].bb
    ensures Flat(f)[a].bb in Succ(g, Flat(f)[i].bb)
  {
    hide EdgesPlaced, NoRepeat, BlockSet, Succ, HasBack;
    match f
    case Block(b, rest) =>
      RestParts(g, b, rest, heads, later, limit);
      i := FlatBack(g, rest, heads, later, limit, a - 1, c - 1);
      i := i + 1;
    case Loop(h, body, rest) =>
      var n := |Flat(body)|;
      SpanInside(g, h, body, rest, heads, later, limit, a, c);
      LoopParts(g, h, body, rest, heads, later, limit);
      LoopOnce(g, h, body, rest);
      LoopFlatIndex(h, body, rest, a);
      if a == 0 {
        i := BackPlace(g, h, body, rest);
        i := i + 1;
      } else if a <= n {
        i := FlatBack(g, body, heads + {h}, later + BlockSet(rest), limit, a - 1, c - 1);
        i := i + 1;
      } else {
        i := FlatBack(g, rest, heads, later, limit, a - n - 2, c - n - 2);
        i := i + n + 2;
      }
      LoopFlatIndex(h, body, rest, i);
  }

  // ---- The facts hold at the start.

  lemma LinearisedFacts(g: Graph, entry: nat, f: Forest)
    requires Linearised(g, entry, f)
    ensures Deep(g, Progress(Flat(f), 0, {}))
  {
    hide NoRepeat, EdgesPlaced, LoopsCycle, SoleOk, Reachable, Flat, Basics, Sourced, LeavesLoop, HasBack, LoopSpan, EndNear,
         Paired;
    var items := Flat(f);
    FlatPaired(g, f);
    FlatNoBlocks(f);
    forall q: nat | q < |items|
      ensures !items[q].StartBlock? && !items[q].EndBlock?
    {
      assert items[q] in items;
    }
    assert Within(g, f, {}, {}, {});
    LoopsLeadBack(g, f, {}, {}, {});
    forall a: nat, c: nat, b: nat, d: nat | LoopSpan(items, a, c) && LoopSpan(items, b, d) && a < b < c
      ensures d < c
    {
      FlatNests(g, f, {}, {}, {}, a, c, b, d);
    }
    forall a: nat, c: nat | LoopSpan(items, a, c)
      ensures a < c < |items| && items[a].StartLoop? && BackFrom(g, items, a, c)
    {
      var i := FlatBack(g, f, {}, {}, {}, a, c);
      SpanStart(items, a, c);
    }
    forall a: nat | a < |items| && items[a].StartLoop?
      ensures HeadNear(items, a)
    {
      HeadNext(g, f, {}, {}, {}, a);
      assert items[a + 1] == Basic(items[a].bb);
    }
  }

  lemma SpanStart(items: seq<SeqItem>, a: nat, c: nat)
    requires LoopSpan(items, a, c)
    ensures a < c < |items| && items[a].StartLoop?
  {
  }
}
