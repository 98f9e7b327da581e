/** Where the jumps of an emitted sequence really go: an `end` closes whatever was opened
    last and is still open, whether or not it was meant for it. */
module Landing {
  import opened Options
  import opened ControlFlow
  import opened Linear
  import opened BlockInsertion
  import opened StructuredCode
  import opened StructuredRun
  import opened LoopLabels
  import opened LoopRun

  /** The places of the loops and blocks that are really open before place p. */
  function RealOpen(items: seq<SeqItem>, p: nat): (r: seq<nat>)
    requires p <= |items|
    ensures forall x :: 0 <= x < |r| ==> r[x] < p && IsStart(items[r[x]])
    ensures forall x, y :: 0 <= x < y < |r| ==> r[x] < r[y]
  {
    if p == 0 then []
    else
      var before := RealOpen(items, p - 1);
      if items[p - 1].Basic? then before
      else if IsStart(items[p - 1]) then before + [p - 1]
      else if before == [] then [] else before[..|before| - 1]
  }

  /** The item at e ends what was opened at s. */
  predicate Closes(items: seq<SeqItem>, s: nat, e: nat) {
    && e < |items| && IsEnd(items[e])
    && var open := RealOpen(items, e); open != [] && open[|open| - 1] == s
  }

  /** A branch to what was opened at t goes on with block w: a loop from its start, a
      block behind its end. */
  ghost predicate LandsOn(items: seq<SeqItem>, t: nat, w: nat) {
    && t < |items|
    && if items[t].StartLoop? then FirstBasic(items[t..]) == Some(w)
       else exists e :: Closes(items, t, e) && FirstBasic(items[e + 1..]) == Some(w)
  }

  /** The label that the tracker gives for w at place i reaches w. */
  ghost predicate JumpReaches(items: seq<SeqItem>, i: nat, w: nat)
    requires i <= |items|
  {
    var l, open := LabelFor(items[..i], w), RealOpen(items, i);
    l.Some? && l.value < |open| && LandsOn(items, open[|open| - 1 - l.value], w)
  }

  /** Every jump that this exit of the block at i makes reaches its block. */
  ghost predicate ExitReaches(out: Out, items: seq<SeqItem>, i: nat)
    requires i < |items|
  {
    var next := FirstBasic(items[i + 1..]);
    match out
    case NoOut => false
    case Next(n) => next == Some(n) || JumpReaches(items, i, n)
    case If(f, t) =>
      if next == Some(f) then JumpReaches(items, i, t)
      else if next == Some(t) then JumpReaches(items, i, f)
      else JumpReaches(items, i, t) && JumpReaches(items, i, f)
    case _ => true
  }

  /** The emitted code sends every exit to the block that it names. */
  ghost predicate ExitsReach(g: Graph, items: seq<SeqItem>) {
    forall i :: 0 <= i < |items| && items[i].Basic? ==> items[i].bb < |g| && ExitReaches(g[items[i].bb], items, i)
  }

  lemma SuccessorReached(g: Graph, items: seq<SeqItem>, i: nat, w: nat)
    requires ExitsReach(g, items) && i < |items| && items[i].Basic? && w in Succ(g, items[i].bb)
    requires FirstBasic(items[i + 1..]) != Some(w)
    ensures JumpReaches(items, i, w)
  {
    hide FirstBasic, JumpReaches;
    assert ExitReaches(g[items[i].bb], items, i);
  }

  // ---- What is open.

  lemma RealNext(items: seq<SeqItem>, p: nat)
    requires p < |items|
    ensures var open := RealOpen(items, p);
            RealOpen(items, p + 1) == if items[p].Basic? then open
                                      else if IsStart(items[p]) then open + [p]
                                      else if open == [] then [] else open[..|open| - 1]
  {
  }

  /** As many as the depth says, if it never falls below zero. */
  lemma {:induction false} RealDepth(items: seq<SeqItem>, p: nat)
    requires p <= |items| && forall q :: 0 <= q <= p ==> Depth(items[..q]) >= 0
    ensures |RealOpen(items, p)| == Depth(items[..p])
  {
    if p == 0 {
      assert items[..p] == [];
    } else {
      RealDepth(items, p - 1);
      RealNext(items, p - 1);
      hide RealOpen;
      assert items[..p] == items[..p - 1] + [items[p - 1]];
      TrackedSnoc(items[..p - 1], items[p - 1], 0);
      assert Depth(items[..p]) >= 0;
    }
  }

  lemma RealMember(items: seq<SeqItem>, p: nat, s: nat)
    requires p < |items|
    ensures s in RealOpen(items, p + 1) <==> (IsStart(items[p]) && s == p) || (s in RealOpen(items, p) && !Closes(items, s, p))
  {
    hide *;
    var open := RealOpen(items, p);
    RealNext(items, p);
    WhatCloses(items, s, p);
    if IsStart(items[p]) {
      OneMoreMember(open, p, s);
    } else if IsEnd(items[p]) && open != [] {
      OneLessMember(open, s);
    }
  }

  lemma WhatCloses(items: seq<SeqItem>, s: nat, p: nat)
    requires p < |items|
    ensures items[p].Basic? || IsStart(items[p]) <==> !IsEnd(items[p])
    ensures items[p].Basic? ==> !IsStart(items[p])
    ensures var open := RealOpen(items, p); Closes(items, s, p) <==> IsEnd(items[p]) && open != [] && open[|open| - 1] == s
  {
    hide RealOpen;
  }

  lemma OneMoreMember(open: seq<nat>, p: nat, s: nat)
    ensures s in open + [p] <==> s in open || s == p
  {
  }

  lemma OneLessMember(open: seq<nat>, s: nat)
    requires open != [] && forall x, y :: 0 <= x < y < |open| ==> open[x] < open[y]
    ensures s in open[..|open| - 1] <==> s in open && s != open[|open| - 1]
  {
    var rest, last := open[..|open| - 1], open[|open| - 1];
    assert open == rest + [last];
    assert forall x :: 0 <= x < |rest| ==> rest[x] < last;
  }

  /** What is closed is not open again. */
  lemma {:induction false} GoneAfter(items: seq<SeqItem>, s: nat, e: nat, p: nat)
    requires Closes(items, s, e) && e < p <= |items|
    ensures s !in RealOpen(items, p)
    decreases p
  {
    hide *;
    ClosesOpen(items, s, e);
    RealMember(items, p - 1, s);
    if p > e + 1 {
      GoneAfter(items, s, e, p - 1);
    }
  }

  lemma ClosesOpen(items: seq<SeqItem>, s: nat, e: nat)
    requires Closes(items, s, e)
    ensures s < e < |items| && s in RealOpen(items, e) && IsStart(items[s]) && IsEnd(items[e])
  {
  }

  lemma ClosesOnce(items: seq<SeqItem>, s: nat, e: nat, e': nat)
    requires Closes(items, s, e) && Closes(items, s, e')
    ensures e == e'
  {
    hide RealOpen;
    if e < e' {
      GoneAfter(items, s, e, e');
    } else if e' < e {
      GoneAfter(items, s, e', e);
    }
  }

  /** What is open and later is not was closed in between. */
  lemma {:induction false} ClosedBetween(items: seq<SeqItem>, s: nat, p: nat, p': nat) returns (e: nat)
    requires p <= p' <= |items| && s in RealOpen(items, p) && s !in RealOpen(items, p')
    ensures p <= e < p' && Closes(items, s, e)
    decreases p'
  {
    hide RealOpen, Closes;
    RealMember(items, p' - 1, s);
    if s in RealOpen(items, p' - 1) {
      e := p' - 1;
    } else {
      e := ClosedBetween(items, s, p, p' - 1);
    }
  }

  lemma {:induction false} FirstFollows(items: seq<SeqItem>, p: nat, m: nat)
    requires p <= m < |items| && items[m].Basic? && forall q :: p <= q < m ==> !items[q].Basic?
    ensures FirstBasic(items[p..]) == Some(items[m].bb)
    decreases m - p
  {
    if p < m {
      assert items[p..][1..] == items[p + 1..];
      FirstFollows(items, p + 1, m);
    }
  }

  // ---- Where the ends match, every exit gets where it should.

  /** The labels are those of what stands at the given places. */
  predicate Names(items: seq<SeqItem>, open: seq<nat>, labels: seq<nat>) {
    |open| == |labels| && forall x: nat :: x < |open| ==> open[x] < |items| && items[open[x]].bb == labels[x]
  }

  lemma NamesStep(items: seq<SeqItem>, open: seq<nat>, labels: seq<nat>, p: nat)
    requires p < |items| && Names(items, open, labels)
    ensures |open| == |labels| && Names(items, open + [p], labels + [items[p].bb])
    ensures open != [] ==> Names(items, open[..|open| - 1], labels[..|labels| - 1])
  {
  }

  /** The open labels are those of what is really open. */
  lemma {:induction false} OpenMatches(items: seq<SeqItem>, p: nat)
    requires p <= |items| && Scan(items).Some?
    ensures Scan(items[..p]).Some? && Names(items, RealOpen(items, p), Scan(items[..p]).value)
  {
    if p == 0 {
      EmptyScan(items);
    } else {
      hide Scan, RealOpen, Names;
      OpenMatches(items, p - 1);
      RealNext(items, p - 1);
      ScanNext(items, p - 1);
      NamesStep(items, RealOpen(items, p - 1), Scan(items[..p - 1]).value, p - 1);
    }
  }

  lemma OpenJump(g: Graph, items: seq<SeqItem>, i: nat, w: nat)
    requires Runnable(g, items) && i < |items| && LabelFor(items[..i], w).Some?
    ensures JumpReaches(items, i, w)
  {
    hide Scan, RealOpen, LabelFor, LandsOn, Emittable, Complete;
    OpenMatches(items, i);
    LabelIsOpen(items[..i], w);
    var open := RealOpen(items, i);
    var l := LabelFor(items[..i], w).value;
    OpenLands(g, items, i, open[|open| - 1 - l]);
  }

  lemma OpenLands(g: Graph, items: seq<SeqItem>, i: nat, t: nat)
    requires Runnable(g, items) && i < |items| && t in RealOpen(items, i)
    ensures t < |items| && LandsOn(items, t, items[t].bb)
  {
    hide Scan, RealOpen, FirstBasic, Emittable, Complete, HeadFollows, TargetFollows;
    var w := items[t].bb;
    if items[t].StartLoop? {
      var m := HeadPlace(items, t);
      FirstFollows(items, t, m);
    } else {
      NoneLeft(items);
      var e := ClosedBetween(items, t, i, |items|);
      OwnEnd(items, t, e);
      var m := TargetPlace(items, e);
      FirstFollows(items, e + 1, m);
    }
  }

  lemma NoneLeft(items: seq<SeqItem>)
    requires Scan(items) == Some([])
    ensures RealOpen(items, |items|) == []
  {
    OpenMatches(items, |items|);
    assert items[..|items|] == items;
  }

  lemma OwnEnd(items: seq<SeqItem>, t: nat, e: nat)
    requires Scan(items).Some? && Closes(items, t, e)
    ensures items[t].bb == items[e].bb
  {
    hide Scan, RealOpen;
    OpenMatches(items, e);
    ScanNext(items, e);
  }

  /** A sequence that can be run sends every exit to its block. */
  lemma RunnableReaches(g: Graph, items: seq<SeqItem>)
    requires Runnable(g, items)
    ensures ExitsReach(g, items)
  {
    hide *;
    ReachesIs(g, items);
    forall i: nat | i < |items| && items[i].Basic?
      ensures items[i].bb < |g| && ExitReaches(g[items[i].bb], items, i)
    {
      ExitArrives(g, items, i);
    }
  }

  lemma ReachesIs(g: Graph, items: seq<SeqItem>)
    ensures ExitsReach(g, items) <==>
              forall i: nat :: i < |items| && items[i].Basic? ==> items[i].bb < |g| && ExitReaches(g[items[i].bb], items, i)
  {
    hide ExitReaches;
  }

  lemma ExitArrives(g: Graph, items: seq<SeqItem>, i: nat)
    requires Runnable(g, items) && i < |items| && items[i].Basic?
    ensures items[i].bb < |g| && ExitReaches(g[items[i].bb], items, i)
  {
    hide *;
    RunnableEmits(g, items);
    BlockExit(g, items, i);
    forall w | LabelFor(items[..i], w).Some?
      ensures JumpReaches(items, i, w)
    {
      OpenJump(g, items, i, w);
    }
    ExitGoes(g[items[i].bb], items, i);
  }

  lemma BlockExit(g: Graph, items: seq<SeqItem>, i: nat)
    requires Emittable(g, items) && i < |items| && items[i].Basic?
    ensures items[i].bb < |g| && ExitOk(g[items[i].bb], FirstBasic(items[i + 1..]), items[..i])
  {
    hide FirstBasic, LabelFor, ExitOk, CanPop;
    assert ItemOk(g, items, i);
  }

  lemma ExitGoes(out: Out, items: seq<SeqItem>, i: nat)
    requires i < |items| && ExitOk(out, FirstBasic(items[i + 1..]), items[..i])
    requires forall w :: LabelFor(items[..i], w).Some? ==> JumpReaches(items, i, w)
    ensures ExitReaches(out, items, i)
  {
    hide FirstBasic, LabelFor, JumpReaches;
  }
}
