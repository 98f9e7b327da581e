/** If the emitted code sends every exit to its block, then the ends of the sequence match:
    a result of the pass that is not well nested gets some jump wrong. */
module LoopConverse {
  import opened Options
  import opened ControlFlow
  import opened Linear
  import opened BlockInsertion
  import opened BlockPlacing
  import opened StructuredCode
  import opened LoopInsertion
  import opened LoopPlacing
  import opened LoopLabels
  import opened LoopFacts
  import opened LoopRun
  import opened Landing

  /** What is known of a result whose exits all reach their blocks. */
  ghost predicate Reaching(g: Graph, items: seq<SeqItem>) {
    Facts(g, items) && Distinct(Basics(items)) && ExitsReach(g, items)
  }

  // ---- Places.

  lemma OnePlace(g: Graph, items: seq<SeqItem>, i: nat, j: nat)
    requires Reaching(g, items) && i < |items| && j < |items| && items[i].Basic? && items[i] == items[j]
    ensures i == j
  {
    PlacePrecedes(items, i, j);
  }

  lemma TargetOf(g: Graph, items: seq<SeqItem>, e: nat) returns (m: nat)
    requires Facts(g, items) && e < |items| && items[e].EndBlock?
    ensures e < m < |items| && items[m] == Basic(items[e].bb) && forall q: nat :: e < q < m ==> items[q].StartBlock?
  {
    assert EndNear(items, e);
    m :| e < m < |items| && items[m] == Basic(items[e].bb) && forall q: nat :: e < q < m ==> items[q].StartBlock?;
  }

  lemma HeaderOf(g: Graph, items: seq<SeqItem>, a: nat) returns (m: nat)
    requires Facts(g, items) && a < |items| && items[a].StartLoop?
    ensures a < m < |items| && items[m] == Basic(items[a].bb) && forall q: nat :: a < q < m ==> !items[q].Basic?
  {
    assert HeadNear(items, a);
    m :| a < m < |items| && items[m] == Basic(items[a].bb)
         && forall q: nat :: a < q < m ==> items[q].StartBlock? || items[q] == EndBlock(items[a].bb);
  }

  lemma SourceOf(g: Graph, items: seq<SeqItem>, s: nat, e: nat) returns (i: nat)
    requires Facts(g, items) && BlockSpan(items, s, e)
    ensures s < i < e && items[i].Basic? && items[s].bb in Succ(g, items[i].bb)
    ensures !Adjacent(Basics(items), items[i].bb, items[s].bb)
  {
    assert Sourced(g, items, s, e);
    i :| s < i < e && items[i].Basic? && items[s].bb in Succ(g, items[i].bb)
         && !Adjacent(Basics(items), items[i].bb, items[s].bb);
  }

  lemma FactsAre(g: Graph, items: seq<SeqItem>)
    requires Reaching(g, items)
    ensures Facts(g, items) && Paired(items) && Distinct(Basics(items)) && ExitsReach(g, items)
  {
  }

  // ---- What the tracker says about a block, and what is there.

  lemma {:induction false} NotTracked(items: seq<SeqItem>, w: nat)
    requires forall q: nat :: q < |items| && !items[q].Basic? ==> items[q].bb != w
    ensures Tracked(items, w) == []
  {
    if items != [] {
      NotTracked(items[..|items| - 1], w);
    }
  }

  lemma {:induction false} TrackedOnly(items: seq<SeqItem>, s: nat, i: nat, w: nat)
    requires s < i <= |items| && items[s] == StartBlock(w)
    requires forall q: nat :: q < i && q != s && !items[q].Basic? ==> items[q].bb != w
    ensures Tracked(items[..i], w) == [Depth(items[..s]) + 1]
    decreases i
  {
    assert items[..i] == items[..i - 1] + [items[i - 1]];
    TrackedSnoc(items[..i - 1], items[i - 1], w);
    if i - 1 == s {
      NotTracked(items[..s], w);
    } else {
      TrackedOnly(items, s, i - 1, w);
    }
  }

  /** Before an edge to its target, a block is the only mark for it. */
  lemma OnlyMark(g: Graph, items: seq<SeqItem>, s: nat, e: nat, i: nat, q: nat)
    requires Facts(g, items) && Distinct(Basics(items)) && BlockSpan(items, s, e) && s < i < e && items[i].Basic?
    requires q < i && q != s && !items[q].Basic?
    ensures items[q].bb != items[s].bb
  {
    hide Sourced, LeavesLoop, EndNear, HeadNear, LoopsNest, LoopsBack, Outside, Basics, Distinct;
    var w := items[s].bb;
    if items[q].bb == w {
      var a := q;
      if items[q].EndLoop? {
        a := StartOf(items, q);
      }
      if items[a] == StartLoop(w) {
        HeaderFirst(g, items, s, e, i, a);
      }
    }
  }

  lemma HeaderFirst(g: Graph, items: seq<SeqItem>, s: nat, e: nat, i: nat, a: nat)
    requires Facts(g, items) && Distinct(Basics(items)) && BlockSpan(items, s, e) && s < i < e && items[i].Basic?
    requires a < |items| && items[a] == StartLoop(items[s].bb)
    ensures i < a
  {
    hide Facts, Basics, Distinct;
    var m := HeaderOf(g, items, a);
    var m' := TargetOf(g, items, e);
    PlacePrecedes(items, m, m');
  }

  /** No less is open at i than at s: what then stands above that is no older than s. */
  lemma {:induction false} RealAbove(items: seq<SeqItem>, s: nat, i: nat)
    requires s < i <= |items| && items[s].StartBlock? && |RealOpen(items, s)| < |RealOpen(items, i)|
    ensures RealOpen(items, i)[|RealOpen(items, s)|] >= s
    decreases i
  {
    hide RealOpen;
    RealNext(items, i - 1);
    if i - 1 > s && |RealOpen(items, s)| < |RealOpen(items, i - 1)| {
      RealAbove(items, s, i - 1);
    }
  }

  lemma DepthsReal(g: Graph, items: seq<SeqItem>, p: nat)
    requires Facts(g, items) && p <= |items|
    ensures |RealOpen(items, p)| == Depth(items[..p])
  {
    hide Depth, RealOpen, Facts;
    FactsPaired(g, items);
    forall q: nat | q <= p
      ensures Depth(items[..q]) >= 0
    {
      OpenCount(items, q);
    }
    RealDepth(items, p);
  }

  /** Where the jump of a block's source lands: at a block that started no earlier. */
  lemma SourceLands(g: Graph, items: seq<SeqItem>, s: nat, e: nat) returns (t: nat)
    requires Reaching(g, items) && BlockSpan(items, s, e)
    ensures s <= t < |items| && items[t].StartBlock? && LandsOn(items, t, items[s].bb)
  {
    hide *;
    FactsAre(g, items);
    BlockParts(items, s, e);
    var w := items[s].bb;
    var i := SourceOf(g, items, s, e);
    NextIsAdjacent(items, i, w);
    SuccessorReached(g, items, i, w);
    forall q: nat | q < i && q != s && !items[q].Basic?
      ensures items[q].bb != w
    {
      OnlyMark(g, items, s, e, i, q);
    }
    TrackedOnly(items, s, i, w);
    DepthsReal(g, items, s);
    DepthsReal(g, items, i);
    LabelOfOnly(items, i, w, |RealOpen(items, s)|);
    RealAbove(items, s, i);
    t := RealOpen(items, i)[|RealOpen(items, s)|];
    StartKinds(items[t]);
    LoopTooEarly(g, items, e, i, t, w);
  }

  /** The label for the only thing tracked, which was opened at depth d. */
  lemma LabelOfOnly(items: seq<SeqItem>, i: nat, w: nat, d: nat)
    requires i <= |items| && JumpReaches(items, i, w) && Tracked(items[..i], w) == [d + 1]
    requires |RealOpen(items, i)| == Depth(items[..i])
    ensures d < |RealOpen(items, i)| && LandsOn(items, RealOpen(items, i)[d], w)
  {
    hide RealOpen, LandsOn, Tracked, Depth;
  }

  /** A loop that starts before i does not start at a later header. */
  lemma LoopTooEarly(g: Graph, items: seq<SeqItem>, e: nat, i: nat, t: nat, w: nat)
    requires Reaching(g, items) && i < e < |items| && items[e] == EndBlock(w) && items[i].Basic?
    requires t < i && LandsOn(items, t, w)
    ensures !items[t].StartLoop?
  {
    hide *;
    FactsAre(g, items);
    var m := TargetOf(g, items, e);
    if items[t].StartLoop? {
      LoopLands(items, t, w);
      var q := FirstBasicAt(items, t);
      OnePlace(g, items, q, m);
    }
  }

  lemma LoopLands(items: seq<SeqItem>, t: nat, w: nat)
    requires LandsOn(items, t, w)
    ensures t < |items| && (items[t].StartLoop? ==> FirstBasic(items[t..]) == Some(w))
  {
  }

  lemma BlockLands(items: seq<SeqItem>, t: nat, w: nat) returns (c: nat)
    requires LandsOn(items, t, w) && !items[t].StartLoop?
    ensures Closes(items, t, c) && c < |items| && FirstBasic(items[c + 1..]) == Some(w)
  {
    hide FirstBasic, RealOpen;
    c :| Closes(items, t, c) && FirstBasic(items[c + 1..]) == Some(w);
  }

  /** What a block opens is really closed in front of its target. */
  lemma {:induction false} RightlyClosed(g: Graph, items: seq<SeqItem>, s: nat, e: nat) returns (c: nat)
    requires Reaching(g, items) && BlockSpan(items, s, e)
    ensures Closes(items, s, c) && c < |items| && FirstBasic(items[c + 1..]) == Some(items[s].bb)
    decreases |items| - s
  {
    hide *;
    BlockParts(items, s, e);
    var t := SourceLands(g, items, s, e);
    c := BlockLands(items, t, items[s].bb);
    if t > s {
      var e' := BlockEnd(g, items, t);
      var c' := RightlyClosed(g, items, t, e');
      ClosesOnce(items, t, c, c');
      OneStart(g, items, s, t);
    }
  }

  lemma BlockEnd(g: Graph, items: seq<SeqItem>, s: nat) returns (e: nat)
    requires Reaching(g, items) && s < |items| && items[s].StartBlock?
    ensures BlockSpan(items, s, e)
  {
    FactsAre(g, items);
    hide Reaching, Facts, Paired;
    e := EndOf(items, s);
  }

  lemma OneStart(g: Graph, items: seq<SeqItem>, s: nat, t: nat)
    requires Reaching(g, items) && s < t < |items| && !items[s].Basic?
    ensures items[s] != items[t]
  {
  }

  // ---- A header has no block.

  lemma BackOf(g: Graph, items: seq<SeqItem>, a: nat) returns (i: nat)
    requires Reaching(g, items) && a < |items| && items[a].StartLoop?
    ensures a < i < |items| && items[i].Basic? && items[a].bb in Succ(g, items[i].bb) && items[i].bb != items[a].bb
  {
    FactsAre(g, items);
    hide Reaching, Facts, Paired, ExitsReach;
    var c := EndOf(items, a);
    FactsBack(g, items, a, c);
    i :| a < i < c && items[i].Basic? && items[i].bb != items[a].bb && items[a].bb in Succ(g, items[i].bb);
  }

  lemma FactsBack(g: Graph, items: seq<SeqItem>, a: nat, c: nat)
    requires Reaching(g, items) && LoopSpan(items, a, c)
    ensures BackFrom(g, items, a, c)
  {
  }

  /** What leads back to a header from behind it is its loop. */
  lemma BackIsLoop(g: Graph, items: seq<SeqItem>, a: nat, m: nat, i: nat, t: nat)
    requires Reaching(g, items) && a < m < i < |items| && items[a].StartLoop? && items[m] == Basic(items[a].bb)
    requires t in RealOpen(items, i) && t < |items| && LandsOn(items, t, items[a].bb)
    ensures t == a
  {
    hide *;
    FactsAre(g, items);
    var h := items[a].bb;
    if items[t].StartLoop? {
      LoopLands(items, t, h);
      var q := FirstBasicAt(items, t);
      OnePlace(g, items, q, m);
      var m' := HeaderOf(g, items, t);
      SameFirst(items, t, m, m');
      SameLoop(g, items, a, t);
    } else {
      var c := BlockLands(items, t, h);
      var q := FirstBasicAt(items, c + 1);
      OnePlace(g, items, q, m);
      GoneAfter(items, t, c, i);
    }
  }

  lemma SameFirst(items: seq<SeqItem>, t: nat, m: nat, m': nat)
    requires t < |items| && t <= m < |items| && items[m].Basic? && forall q: nat :: t <= q < m ==> !items[q].Basic?
    requires t < m' < |items| && items[m'].Basic? && forall q: nat :: t < q < m' ==> !items[q].Basic?
    requires !items[t].Basic?
    ensures m == m'
  {
  }

  lemma SameLoop(g: Graph, items: seq<SeqItem>, a: nat, t: nat)
    requires Reaching(g, items) && a < |items| && t < |items| && !items[a].Basic? && items[a] == items[t]
    ensures a == t
  {
  }

  lemma HeaderHasNone(g: Graph, items: seq<SeqItem>, s: nat, e: nat)
    requires Reaching(g, items) && BlockSpan(items, s, e)
    ensures s < |items| && !items[s].Basic? && StartLoop(items[s].bb) !in items
  {
    hide *;
    BlockParts(items, s, e);
    forall a: nat | a < |items|
      ensures items[a] != StartLoop(items[s].bb)
    {
      NotItsHeader(g, items, e, a);
    }
  }

  lemma NotItsHeader(g: Graph, items: seq<SeqItem>, e: nat, a: nat)
    requires Reaching(g, items) && e < |items| && items[e].EndBlock? && a < |items|
    ensures items[a] != StartLoop(items[e].bb)
  {
    hide *;
    FactsAre(g, items);
    if items[a] == StartLoop(items[e].bb) {
      EndFollows(g, items, e, a);
      ClosesAtOnce(items, a);
      var m := TargetOf(g, items, e);
      var i := BackOf(g, items, a);
      BackBehind(items, e, m, i);
      BackIsOpen(g, items, a, m, i);
      GoneAfter(items, a, e, i);
    }
  }

  lemma BackBehind(items: seq<SeqItem>, e: nat, m: nat, i: nat)
    requires 0 < e < m < |items| && items[e].EndBlock? && forall q: nat :: e < q < m ==> items[q].StartBlock?
    requires e <= i < |items| && items[i].Basic? && items[i] != items[m]
    ensures m < i
  {
  }

  /** At a block that leads back to a header the header's loop is open. */
  lemma BackIsOpen(g: Graph, items: seq<SeqItem>, a: nat, m: nat, i: nat)
    requires Reaching(g, items) && a < m < i < |items| && items[a].StartLoop? && items[m] == Basic(items[a].bb)
    requires items[i].Basic? && items[a].bb in Succ(g, items[i].bb)
    ensures a in RealOpen(items, i)
  {
    hide *;
    FactsAre(g, items);
    NotNext(g, items, i, m);
    SuccessorReached(g, items, i, items[a].bb);
    var t := JumpTarget(items, i, items[a].bb);
    BackIsLoop(g, items, a, m, i, t);
  }

  lemma JumpTarget(items: seq<SeqItem>, i: nat, w: nat) returns (t: nat)
    requires i <= |items| && JumpReaches(items, i, w)
    ensures t in RealOpen(items, i) && t < |items| && LandsOn(items, t, w)
  {
    hide RealOpen, LabelFor, LandsOn;
    var open := RealOpen(items, i);
    t := open[|open| - 1 - LabelFor(items[..i], w).value];
  }

  lemma BlockParts(items: seq<SeqItem>, s: nat, e: nat)
    requires BlockSpan(items, s, e)
    ensures s < e < |items| && items[s].StartBlock? && items[e] == EndBlock(items[s].bb) && Match(items[s], items[e])
  {
  }

  lemma EndFollows(g: Graph, items: seq<SeqItem>, e: nat, a: nat)
    requires Facts(g, items) && e < |items| && items[e].EndBlock? && a < |items| && items[a] == StartLoop(items[e].bb)
    ensures a + 1 == e
  {
    assert EndNear(items, e);
  }

  lemma ClosesAtOnce(items: seq<SeqItem>, a: nat)
    requires a + 1 < |items| && items[a].StartLoop? && items[a + 1].EndBlock?
    ensures Closes(items, a, a + 1)
  {
    RealNext(items, a);
  }

  lemma NotNext(g: Graph, items: seq<SeqItem>, i: nat, m: nat)
    requires Reaching(g, items) && m <= i < |items| && items[m].Basic?
    ensures FirstBasic(items[i + 1..]) != Some(items[m].bb)
  {
    hide Reaching, FirstBasic;
    if FirstBasic(items[i + 1..]) == Some(items[m].bb) {
      var q := FirstBasicAt(items, i + 1);
      OnePlace(g, items, q, m);
    }
  }

  // ---- The ends match.

  /** The labels are those of what stands at the given places. */
  predicate LabelsOf(items: seq<SeqItem>, open: seq<nat>, labels: seq<nat>) {
    |open| == |labels| && forall x: nat :: x < |open| ==> open[x] < |items| && Kind(items[open[x]]).bb == labels[x]
  }

  lemma LabelsStep(items: seq<SeqItem>, open: seq<nat>, labels: seq<nat>, p: nat)
    requires p < |items| && LabelsOf(items, open, labels)
    ensures LabelsOf(items, open + [p], labels + [Kind(items[p]).bb])
    ensures open != [] ==> LabelsOf(items, open[..|open| - 1], labels[..|labels| - 1])
  {
    hide Kind;
  }

  lemma {:induction false} KindMatches(items: seq<SeqItem>, p: nat)
    requires p <= |items| && Scan(Kinds(items)[..p]).Some?
    ensures LabelsOf(items, RealOpen(items, p), Scan(Kinds(items)[..p]).value)
  {
    hide Scan, Kind, RealOpen, LabelsOf;
    var kinds := Kinds(items);
    if p == 0 {
      NoLabels(items);
    } else {
      assert kinds[..p] == kinds[..p - 1] + [kinds[p - 1]];
      ScanSnoc(kinds[..p - 1], kinds[p - 1]);
      KindMatches(items, p - 1);
      RealNext(items, p - 1);
      KindLabel(items[p - 1]);
      var open, labels := RealOpen(items, p - 1), Scan(kinds[..p - 1]).value;
      LabelsStep(items, open, labels, p - 1);
      LabelsCount(items, open, labels);
    }
  }

  lemma LabelsCount(items: seq<SeqItem>, open: seq<nat>, labels: seq<nat>)
    requires LabelsOf(items, open, labels)
    ensures |open| == |labels|
  {
  }

  lemma NoLabels(items: seq<SeqItem>)
    ensures Scan(Kinds(items)[..0]).Some? && LabelsOf(items, RealOpen(items, 0), Scan(Kinds(items)[..0]).value)
  {
  }

  lemma SameKind(x: SeqItem, y: SeqItem)
    requires IsStart(x) && IsEnd(y) && Kind(x).bb == Kind(y).bb
    ensures Match(x, y)
  {
  }

  /** As far as the ends match, each closes what it was meant for. */
  lemma TopMatches(items: seq<SeqItem>, t: nat, e: nat)
    requires Closes(items, t, e) && Scan(Kinds(items)[..e + 1]).Some?
    ensures t < e && Match(items[t], items[e])
  {
    hide Scan, Kind, RealOpen;
    var kinds := Kinds(items);
    assert kinds[..e + 1] == kinds[..e] + [kinds[e]];
    ScanSnoc(kinds[..e], kinds[e]);
    KindMatches(items, e);
    KindLabel(items[e]);
    ClosesOpen(items, t, e);
    SameKind(items[t], items[e]);
  }

  lemma ScannedTo(items: seq<SeqItem>, q: nat, n: nat)
    requires q <= n <= |items| && Scan(items[..n]).Some?
    ensures Scan(items[..q]).Some?
  {
    ScanPrefix(items[..n], q);
    assert items[..n][..q] == items[..q];
  }

  /** What has met its own end is closed. */
  lemma OwnEndCloses(items: seq<SeqItem>, s: nat, e: nat, n: nat)
    requires Paired(items) && s < e < n <= |items| && Match(items[s], items[e]) && Scan(Kinds(items)[..n]).Some?
    ensures s !in RealOpen(items, n)
  {
    hide Paired, Scan, RealOpen;
    ScannedTo(Kinds(items), e + 1, n);
    var t := EndTop(items, e);
    TopMatches(items, t, e);
    OnlyOneMatch(items, t, s, e);
    GoneAfter(items, s, e, n);
  }

  lemma EndTop(items: seq<SeqItem>, e: nat) returns (t: nat)
    requires e < |items| && IsEnd(items[e]) && Scan(Kinds(items)[..e + 1]).Some?
    ensures Closes(items, t, e)
  {
    hide Scan, Kind, RealOpen;
    var kinds := Kinds(items);
    assert kinds[..e + 1] == kinds[..e] + [kinds[e]];
    ScanSnoc(kinds[..e], kinds[e]);
    KindLabel(items[e]);
    KindMatches(items, e);
    t := TopOf(items, e);
  }

  /** And what has not is open. */
  lemma OpenUntilOwn(items: seq<SeqItem>, s: nat, e: nat, n: nat)
    requires Paired(items) && s < n <= e < |items| && IsStart(items[s]) && Match(items[s], items[e])
    requires Scan(Kinds(items)[..n]).Some?
    ensures s in RealOpen(items, n)
  {
    hide Paired, Scan, RealOpen;
    RealMember(items, s, s);
    if s !in RealOpen(items, n) {
      var e' := ClosedBetween(items, s, s + 1, n);
      ScannedTo(Kinds(items), e' + 1, n);
      TopMatches(items, s, e');
      EndedOnlyAt(items, s, e, n);
    }
  }

  /** Everything else that is open started before what is on top. */
  lemma TopIsLast(items: seq<SeqItem>, t: nat, n: nat, s: nat)
    requires Closes(items, t, n) && s in RealOpen(items, n)
    ensures s <= t < n
  {
  }

  // ---- The ways in which an end could meet what it was not meant for.

  /** The end of a block: its own block has to close in front of the target too. */
  lemma BlockMeetsOther(g: Graph, items: seq<SeqItem>, s: nat, t: nat, n: nat)
    requires Reaching(g, items) && Closes(items, t, n) && BlockSpan(items, s, n) && s in RealOpen(items, n)
    ensures s == t
  {
    hide *;
    FactsAre(g, items);
    BlockParts(items, s, n);
    var c := RightlyClosed(g, items, s, n);
    ClosesOpen(items, s, c);
    EndIsNoStart(items[c]);
    if c < n {
      GoneAfter(items, s, c, n);
    } else if c > n {
      var m := TargetOf(g, items, n);
      var q := FirstBasicAt(items, c + 1);
      OnePlace(g, items, q, m);
    } else {
      OneTop(items, s, t, n);
    }
  }

  lemma EndIsNoStart(x: SeqItem)
    requires IsEnd(x)
    ensures !x.StartBlock?
  {
  }

  lemma OneTop(items: seq<SeqItem>, s: nat, t: nat, n: nat)
    requires Closes(items, s, n) && Closes(items, t, n)
    ensures s == t
  {
  }

  /** The end of a loop meets another loop, which has ended before. */
  lemma LoopMeetsLoop(g: Graph, items: seq<SeqItem>, s: nat, t: nat, n: nat)
    requires Reaching(g, items) && n < |items| && Scan(Kinds(items)[..n]).Some? && LoopSpan(items, s, n)
    requires t in RealOpen(items, n) && s <= t < n && items[t].StartLoop?
    ensures s == t
  {
    hide *;
    FactsAre(g, items);
    if s < t {
      StartKindIs(items[t]);
      var d := EndOf(items, t);
      InsideLoop(g, items, s, n, t, d);
      OwnEndCloses(items, t, d, n);
    }
  }

  lemma StartKindIs(x: SeqItem)
    requires x.StartLoop?
    ensures IsStart(x)
  {
  }

  lemma InsideLoop(g: Graph, items: seq<SeqItem>, a: nat, c: nat, b: nat, d: nat)
    requires Reaching(g, items) && LoopSpan(items, a, c) && b < d < |items| && items[b].StartLoop? && Match(items[b], items[d])
    requires a < b < c
    ensures d < c
  {
    FactsNest(g, items);
    hide Reaching;
    assert LoopSpan(items, b, d);
  }

  lemma FactsNest(g: Graph, items: seq<SeqItem>)
    requires Reaching(g, items)
    ensures LoopsNest(items)
  {
  }

  /** The end of a loop meets a block that started inside it. */
  lemma LoopMeetsBlock(g: Graph, items: seq<SeqItem>, s: nat, t: nat, n: nat)
    requires Reaching(g, items) && n < |items| && Scan(Kinds(items)[..n]).Some? && LoopSpan(items, s, n)
    requires Closes(items, t, n) && s <= t < n
    ensures !items[t].StartBlock?
  {
    ClosesOpen(items, t, n);
    hide *;
    FactsAre(g, items);
    if items[t].StartBlock? {
      var e := BlockEnd(g, items, t);
      SpanParts(items, s, n, t, e);
      EndsBehind(items, t, e, n);
      ClosedRightly(g, items, t, e, n);
      NothingBefore(g, items, n, e);
      NoneLeaves(g, items, t, e, s, n);
    }
  }

  lemma ClosedRightly(g: Graph, items: seq<SeqItem>, t: nat, e: nat, n: nat)
    requires Reaching(g, items) && BlockSpan(items, t, e) && t < |items| && Closes(items, t, n)
    ensures n < |items| && FirstBasic(items[n + 1..]) == Some(items[t].bb)
  {
    hide *;
    var c := RightlyClosed(g, items, t, e);
    ClosesOnce(items, t, c, n);
  }

  lemma NoneLeaves(g: Graph, items: seq<SeqItem>, t: nat, e: nat, s: nat, n: nat)
    requires Reaching(g, items) && BlockSpan(items, t, e) && LoopSpan(items, s, n) && s < t < n < e < |items|
    requires Scan(Kinds(items)[..n]).Some? && Closes(items, t, n)
    ensures !NoBasic(items, n, e)
  {
    BlockParts(items, t, e);
    hide Reaching, RealOpen, Scan, OtherLeaves, Closes, BlockSpan, LoopSpan, NoBasic;
    HeaderHasNone(g, items, t, e);
    FactsLeave(g, items, t, e, s, n);
    OtherIsAbove(g, items, t, e, n);
  }

  lemma SpanParts(items: seq<SeqItem>, s: nat, n: nat, t: nat, e: nat)
    requires LoopSpan(items, s, n) && BlockSpan(items, t, e)
    ensures s < n < |items| && items[s].StartLoop? && items[n].EndLoop?
    ensures t < e < |items| && items[t].StartBlock? && items[e] == EndBlock(items[t].bb) && Match(items[t], items[e])
    ensures s != t && e != n
  {
  }

  lemma EndsBehind(items: seq<SeqItem>, t: nat, e: nat, n: nat)
    requires Closes(items, t, n) && Scan(Kinds(items)[..n]).Some? && t < e < |items| && Match(items[t], items[e]) && e != n
    requires Paired(items)
    ensures n < e
  {
    hide Scan, Paired, RealOpen;
    ClosesOpen(items, t, n);
    if e < n {
      OwnEndCloses(items, t, e, n);
    }
  }

  lemma NothingBefore(g: Graph, items: seq<SeqItem>, n: nat, e: nat)
    requires Reaching(g, items) && n < e < |items| && items[e].EndBlock? && FirstBasic(items[n + 1..]) == Some(items[e].bb)
    ensures NoBasic(items, n, e)
  {
    hide *;
    FactsAre(g, items);
    var m := TargetOf(g, items, e);
    var q := FirstBasicAt(items, n + 1);
    OnePlace(g, items, q, m);
    NoBasicIs(items, n, e, q);
  }

  lemma NoBasicIs(items: seq<SeqItem>, n: nat, e: nat, q: nat)
    requires e <= q <= |items| && forall x: nat :: n + 1 <= x < q ==> !items[x].Basic?
    ensures NoBasic(items, n, e)
  {
  }

  lemma FactsLeave(g: Graph, items: seq<SeqItem>, s: nat, e: nat, a: nat, c: nat)
    requires Reaching(g, items) && BlockSpan(items, s, e) && LoopSpan(items, a, c)
    ensures LeavesLoop(items, s, e, a, c)
  {
  }

  lemma OtherIsAbove(g: Graph, items: seq<SeqItem>, t: nat, e: nat, n: nat)
    requires Reaching(g, items) && t < n < e && n < |items| && Scan(Kinds(items)[..n]).Some? && Closes(items, t, n)
    ensures !OtherLeaves(items, t, e, n)
  {
    if OtherLeaves(items, t, e, n) {
      var s', e' := OtherOf(items, t, e, n);
      BlockParts(items, s', e');
      hide *;
      FactsAre(g, items);
      OpenBlock(items, s', e', n);
      TopIsLast(items, t, n, s');
    }
  }

  lemma OtherOf(items: seq<SeqItem>, t: nat, e: nat, n: nat) returns (s': nat, e': nat)
    requires OtherLeaves(items, t, e, n)
    ensures BlockSpan(items, s', e') && t < s' < n && e < e'
  {
    s', e' :| BlockSpan(items, s', e') && t < s' < n && e < e';
  }

  lemma OpenBlock(items: seq<SeqItem>, s: nat, e: nat, n: nat)
    requires Paired(items) && BlockSpan(items, s, e) && s < n <= e && Scan(Kinds(items)[..n]).Some?
    ensures s in RealOpen(items, n)
  {
    hide Paired, Scan, RealOpen;
    OpenUntilOwn(items, s, e, n);
  }

  // ---- No end meets what it was not meant for.

  lemma EndMatches(g: Graph, items: seq<SeqItem>, n: nat) returns (t: nat)
    requires Reaching(g, items) && n < |items| && IsEnd(items[n]) && Scan(Kinds(items)[..n]).Some?
    ensures Closes(items, t, n) && t < n && Match(items[t], items[n])
  {
    hide *;
    FactsAre(g, items);
    t := SomethingOpen(g, items, n);
    ClosesOpen(items, t, n);
    var s := StartOf(items, n);
    MatchParts(items, s, n);
    OpenUntilOwn(items, s, n, n);
    TopIsLast(items, t, n, s);
    if items[n].EndBlock? {
      BlockMeetsOther(g, items, s, t, n);
    } else if items[t].StartLoop? {
      LoopMeetsLoop(g, items, s, t, n);
    } else {
      StartKinds(items[t]);
      LoopMeetsBlock(g, items, s, t, n);
    }
  }

  lemma SomethingOpen(g: Graph, items: seq<SeqItem>, n: nat) returns (t: nat)
    requires Reaching(g, items) && n < |items| && IsEnd(items[n])
    ensures Closes(items, t, n)
  {
    hide *;
    FactsAre(g, items);
    DepthsReal(g, items, n);
    OpenCount(items, n + 1);
    EndDepth(items, n);
    t := TopOf(items, n);
  }

  lemma EndDepth(items: seq<SeqItem>, n: nat)
    requires n < |items| && IsEnd(items[n])
    ensures Depth(items[..n + 1]) == Depth(items[..n]) - 1
  {
    assert items[..n + 1] == items[..n] + [items[n]];
    TrackedSnoc(items[..n], items[n], 0);
  }

  lemma TopOf(items: seq<SeqItem>, n: nat) returns (t: nat)
    requires n < |items| && IsEnd(items[n]) && |RealOpen(items, n)| > 0
    ensures Closes(items, t, n)
  {
    hide RealOpen;
    var open := RealOpen(items, n);
    t := open[|open| - 1];
  }

  lemma StartKinds(x: SeqItem)
    requires IsStart(x)
    ensures x.StartLoop? || x.StartBlock?
  {
  }

  lemma MatchParts(items: seq<SeqItem>, s: nat, n: nat)
    requires s < n < |items| && Match(items[s], items[n])
    ensures IsStart(items[s])
    ensures items[n].EndBlock? ==> BlockSpan(items, s, n)
    ensures !items[n].EndBlock? ==> LoopSpan(items, s, n)
  {
  }

  lemma {:induction false} PrefixNested(g: Graph, items: seq<SeqItem>, p: nat)
    requires Reaching(g, items) && p <= |items|
    ensures Scan(Kinds(items)[..p]).Some?
  {
    hide Reaching, Scan, Kind, RealOpen;
    var kinds := Kinds(items);
    if p == 0 {
      EmptyScan(kinds);
    } else {
      PrefixNested(g, items, p - 1);
      assert kinds[..p] == kinds[..p - 1] + [kinds[p - 1]];
      ScanSnoc(kinds[..p - 1], kinds[p - 1]);
      KindLabel(items[p - 1]);
      if IsEnd(items[p - 1]) {
        var t := EndMatches(g, items, p - 1);
        KindMatches(items, p - 1);
        MatchKinds(items[t], items[p - 1]);
      }
    }
  }

  lemma MatchKinds(x: SeqItem, y: SeqItem)
    requires Match(x, y)
    ensures Kind(x).bb == Kind(y).bb
  {
  }

  /** If every exit reaches its block, the result is well nested. */
  lemma ReachingNested(g: Graph, items: seq<SeqItem>)
    requires Reaching(g, items)
    ensures Nested(items)
  {
    PrefixNested(g, items, |items|);
    FactsAre(g, items);
    hide Reaching, Scan, RealOpen, Facts, Paired, Distinct, Basics, ExitsReach, Depth;
    assert Kinds(items)[..|items|] == Kinds(items);
    assert items[..|items|] == items;
    KindMatches(items, |items|);
    DepthsReal(g, items, |items|);
    AllEnded(items);
  }

  // ---- Every jump has a label.

  /** A block that names itself is the header of a loop. */
  lemma SelfReached(g: Graph, items: seq<SeqItem>, i: nat)
    requires Reaching(g, items) && i < |items| && items[i].Basic? && items[i].bb in Succ(g, items[i].bb)
    ensures StartLoop(items[i].bb) in items
  {
    hide *;
    FactsAre(g, items);
    var b := items[i].bb;
    NotNext(g, items, i, i);
    SuccessorReached(g, items, i, b);
    var t := JumpTarget(items, i, b);
    if items[t].StartLoop? {
      LoopLands(items, t, b);
      var q := FirstBasicAt(items, t);
      OnePlace(g, items, q, i);
      var m := HeaderOf(g, items, t);
      SameFirst(items, t, i, m);
      assert items[t] == StartLoop(b);
    } else {
      var c := BlockLands(items, t, b);
      var q := FirstBasicAt(items, c + 1);
      OnePlace(g, items, q, i);
      GoneAfter(items, t, c, i);
    }
  }

  lemma {:induction false} TrackedStart(items: seq<SeqItem>, w: nat) returns (u: nat)
    requires Tracked(items, w) != []
    ensures u < |items| && items[u].bb == w && (items[u].StartLoop? || items[u].StartBlock?)
  {
    var n := |items| - 1;
    if IsStart(items[n]) && items[n].bb == w {
      u := n;
    } else {
      u := TrackedStart(items[..n], w);
    }
  }

  /** Where both branches lead to the next block, a block for it stands before. */
  lemma TwinStart(g: Graph, items: seq<SeqItem>, i: nat, x: nat, m: nat) returns (u: nat)
    requires Reaching(g, items) && i < m < |items| && items[i].Basic? && items[m] == Basic(x)
    requires LabelFor(items[..i], x).Some?
    ensures u < i && items[u] == StartBlock(x)
  {
    LabelTracked(items[..i], x);
    hide *;
    FactsAre(g, items);
    u := TrackedStart(items[..i], x);
    TakenAt(items, i, u);
    if items[u].StartLoop? {
      var m' := HeaderOf(g, items, u);
      OnePlace(g, items, m', m);
    }
  }

  lemma LabelTracked(items: seq<SeqItem>, w: nat)
    requires LabelFor(items, w).Some?
    ensures Tracked(items, w) != []
  {
  }

  lemma TakenAt(items: seq<SeqItem>, i: nat, u: nat)
    requires u < i <= |items|
    ensures |items[..i]| == i && items[..i][u] == items[u]
  {
  }

  lemma TwinJumps(g: Graph, items: seq<SeqItem>, i: nat, x: nat)
    requires ExitsReach(g, items) && i < |items| && items[i].Basic? && IsTwin(g, items[i].bb, x)
    ensures JumpReaches(items, i, x) && LabelFor(items[..i], x).Some?
  {
    hide FirstBasic, LabelFor, LandsOn, RealOpen;
    assert ExitReaches(g[items[i].bb], items, i);
  }

  /** Some other block before it leads there. */
  lemma TwinReached(g: Graph, items: seq<SeqItem>, i: nat, x: nat) returns (i': nat)
    requires Reaching(g, items) && i < |items| && items[i].Basic? && IsTwin(g, items[i].bb, x)
    requires Adjacent(Basics(items), items[i].bb, x)
    ensures i' < i && items[i'].Basic? && x in Succ(g, items[i'].bb)
  {
    hide *;
    FactsAre(g, items);
    NextIsAdjacent(items, i, x);
    var m := FirstBasicAt(items, i + 1);
    TwinJumps(g, items, i, x);
    var u := TwinStart(g, items, i, x, m);
    var e := BlockEnd(g, items, u);
    BlockParts(items, u, e);
    i' := SourceOf(g, items, u, e);
    var m' := TargetOf(g, items, e);
    OnePlace(g, items, m, m');
    assert items[i'].bb != items[i].bb;
  }

  /** Then every self-naming block heads a loop, and every twin exit has an earlier edge
      beside it. */
  lemma ReachingLabelled(g: Graph, items: seq<SeqItem>)
    requires Reaching(g, items)
    ensures SelfLooped(g, items) && TwinsLabelled(g, Basics(items))
  {
    var order := Basics(items);
    forall b | b in order && b in Succ(g, b)
      ensures StartLoop(b) in items
    {
      BasicsMembers(items, b);
      var i :| 0 <= i < |items| && items[i] == Basic(b);
      SelfReached(g, items, i);
    }
    forall q | 0 <= q < |order| - 1 && IsTwin(g, order[q], order[q + 1])
      ensures EarlierEdge(g, order, q)
    {
      TwinEarlier(g, items, q);
    }
  }

  lemma TwinEarlier(g: Graph, items: seq<SeqItem>, q: nat)
    requires Reaching(g, items) && q + 1 < |Basics(items)| && IsTwin(g, Basics(items)[q], Basics(items)[q + 1])
    ensures EarlierEdge(g, Basics(items), q)
  {
    hide *;
    FactsAre(g, items);
    var order := Basics(items);
    var i := PlaceInOrder(items, q);
    AdjacentAt(order, q);
    var i' := TwinReached(g, items, i, order[q + 1]);
    var p := EarlierInOrder(items, i', i, q);
    EdgeIsEarlier(g, order, p, q);
  }

  lemma PlaceInOrder(items: seq<SeqItem>, q: nat) returns (i: nat)
    requires q < |Basics(items)|
    ensures i < |items| && items[i] == Basic(Basics(items)[q])
  {
    BasicsMembers(items, Basics(items)[q]);
    hide Basics;
    i :| 0 <= i < |items| && items[i] == Basic(Basics(items)[q]);
  }

  lemma AdjacentAt(order: seq<nat>, q: nat)
    requires q + 1 < |order|
    ensures Adjacent(order, order[q], order[q + 1])
  {
  }

  lemma EdgeIsEarlier(g: Graph, order: seq<nat>, p: nat, q: nat)
    requires p < q && q + 1 < |order| && order[q + 1] in Succ(g, order[p])
    ensures EarlierEdge(g, order, q)
  {
    hide Succ;
  }

  lemma EarlierInOrder(items: seq<SeqItem>, i': nat, i: nat, q: nat) returns (p: nat)
    requires Distinct(Basics(items)) && i' < i < |items| && items[i'].Basic? && q < |Basics(items)|
    requires items[i] == Basic(Basics(items)[q])
    ensures p < q && Basics(items)[p] == items[i'].bb
  {
    hide Basics, Distinct, Precedes;
    PlacePrecedes(items, i', i);
    OrderAt(items, i');
    p := |Basics(items[..i'])|;
    InOrder(Basics(items), p, q);
  }

  lemma InOrder(order: seq<nat>, p: nat, q: nat)
    requires Distinct(order) && p < |order| && q < |order| && Precedes(order, order[p], order[q])
    ensures p <= q
  {
  }
}
