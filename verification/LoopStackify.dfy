/** The whole of `stackify` on graphs with loops: the code that comes out sends every
    exit to its block exactly when every insertion fits, and then runs as the graph. */
module LoopStackify {
  import opened Options
  import opened ControlFlow
  import opened Linear
  import opened BlockInsertion
  import opened BlockPlacing
  import opened StructuredCode
  import opened StructuredRun
  import opened LoopPlacing
  import opened LoopLabels
  import opened LoopRun
  import opened LoopLinear
  import opened LoopFacts
  import opened LoopKeeping
  import opened Landing
  import opened LoopConverse
  import opened TarjanRun
  import opened Stackify

  // ---- The main result.

  /** What `stackify` makes of a graph: the linearisation, then the pass. */
  ghost predicate Compiled(g: Graph, entry: nat, f: Forest, items: seq<SeqItem>) {
    Linearised(g, entry, f) && ClosedItems(g, Flat(f)) && items == Pass(g, Flat(f))
  }

  lemma CompiledEntry(g: Graph, entry: nat, f: Forest, items: seq<SeqItem>)
    requires Linearised(g, entry, f) && Basics(items) == Basics(Flat(f))
    requires f.Loop? ==> f.body.Block? && f.body.bb == f.head
    ensures FirstBasic(items) == Some(entry)
  {
    FirstBasicIs(items);
    FirstBasicIs(Flat(f));
    hide Basics, Reachable, NoRepeat, EdgesPlaced, LoopsCycle, SoleOk;
    if f.Loop? {
      assert Flat(f)[1..][0] == Basic(entry);
    }
  }

  lemma LoopStarts(g: Graph, entry: nat, f: Forest)
    requires Linearised(g, entry, f)
    ensures f.Loop? ==> f.body.Block? && f.body.bb == f.head
  {
  }

  /** For every graph: the result of the pass is well nested exactly when every insertion
      fits where its searches land, and the jumps of the emitted code all reach their
      blocks exactly when, besides, the linear sequence has a label for every jump. Then
      the code starts with the entry and can be run. */
  lemma StructuredExactly(g: Graph, entry: nat, f: Forest, items: seq<SeqItem>)
    requires Complete(g) && entry < |g| && Compiled(g, entry, f, items)
    ensures Nested(items) <==> PassFits(g, Progress(Flat(f), 0, {}))
    ensures ExitsReach(g, items) <==> Nested(items) && Labelled(g, Flat(f))
    ensures ExitsReach(g, items) ==> Runnable(g, items) && FirstBasic(items) == Some(entry)
  {
    hide *;
    CompiledParts(g, entry, f, items);
    LinearisedFacts(g, entry, f);
    StartRecorded(g, entry, f);
    PassNests(g, Progress(Flat(f), 0, {}));
    if Nested(items) && Labelled(g, Flat(f)) {
      NestedRuns(g, entry, f, items);
      RunnableReaches(g, items);
    }
    if ExitsReach(g, items) {
      ReachesOnlyThen(g, entry, f, items);
      NestedRuns(g, entry, f, items);
    }
  }

  lemma CompiledParts(g: Graph, entry: nat, f: Forest, items: seq<SeqItem>)
    requires Compiled(g, entry, f, items)
    ensures Linearised(g, entry, f) && ClosedItems(g, Flat(f)) && items == PassFrom(g, Progress(Flat(f), 0, {}))
  {
    hide Linearised, ClosedItems;
  }

  /** Nothing has been placed at the start, and each block has one place. */
  lemma StartRecorded(g: Graph, entry: nat, f: Forest)
    requires Linearised(g, entry, f)
    ensures Recorded(Progress(Flat(f), 0, {})) && Nested(Flat(f)) && Distinct(Basics(Flat(f)))
  {
    hide NoRepeat, EdgesPlaced, LoopsCycle, SoleOk, Reachable, Flat, Basics, Nested;
    FlatNested(f);
    FlatNoBlocks(f);
    LinearisedPlaces(g, entry, f);
    DistinctPlaces(Flat(f));
    forall q | 0 <= q < |Flat(f)|
      ensures !Flat(f)[q].StartBlock? && !Flat(f)[q].EndBlock?
    {
      assert Flat(f)[q] in Flat(f);
    }
  }

  /** A well-nested result with all its labels can be run. */
  lemma NestedRuns(g: Graph, entry: nat, f: Forest, items: seq<SeqItem>)
    requires Complete(g) && entry < |g| && Compiled(g, entry, f, items) && Nested(items) && Labelled(g, Flat(f))
    ensures Runnable(g, items) && FirstBasic(items) == Some(entry)
  {
    hide *;
    CompiledParts(g, entry, f, items);
    var start := Progress(Flat(f), 0, {});
    LabelledParts(g, Flat(f));
    LinearisedStarts(g, entry, f);
    LoopStarts(g, entry, f);
    StartRecorded(g, entry, f);
    PassNests(g, start);
    NoneHeaded(start);
    var placed := PassKeeps(g, start);
    PassBasics(g, start);
    CompiledEntry(g, entry, f, items);
    BlocksInGraph(g, Flat(f), items);
    IsSettled(g, items, placed);
    SettledRunnable(g, items, placed);
  }

  lemma LabelledParts(g: Graph, items: seq<SeqItem>)
    ensures Labelled(g, items) <==> SelfLooped(g, items) && TwinsLabelled(g, Basics(items))
  {
  }

  lemma NoneHeaded(p: Progress)
    requires p.placed == {}
    ensures NoHeaders(p)
  {
  }

  lemma IsSettled(g: Graph, items: seq<SeqItem>, placed: set<nat>)
    requires Nested(items) && Invariant(g, Progress(items, |items|, placed), 0) && NoHeaders(Progress(items, 0, placed))
    ensures Settled(g, items, placed)
  {
    hide Nested, Invariant;
  }

  /** If every exit reaches its block, the result is well nested and has all labels. */
  lemma ReachesOnlyThen(g: Graph, entry: nat, f: Forest, items: seq<SeqItem>)
    requires Complete(g) && entry < |g| && Compiled(g, entry, f, items) && ExitsReach(g, items)
    ensures Nested(items) && Labelled(g, Flat(f))
  {
    hide *;
    CompiledParts(g, entry, f, items);
    var start := Progress(Flat(f), 0, {});
    LinearisedFacts(g, entry, f);
    StartRecorded(g, entry, f);
    PassDeep(g, start);
    PassBasics(g, start);
    IsReaching(g, items);
    ReachingNested(g, items);
    ReachingLabelled(g, items);
    PassAddsNone(g, start);
    LoopsBefore(g, Flat(f), items);
    LabelledParts(g, Flat(f));
  }

  lemma LoopsBefore(g: Graph, linear: seq<SeqItem>, items: seq<SeqItem>)
    requires SelfLooped(g, items) && Basics(items) == Basics(linear) && NoNewLoop(linear, items)
    ensures SelfLooped(g, linear)
  {
    hide Basics;
  }

  lemma IsReaching(g: Graph, items: seq<SeqItem>)
    requires Facts(g, items) && Distinct(Basics(items)) && ExitsReach(g, items)
    ensures Reaching(g, items)
  {
  }

  lemma BlocksInGraph(g: Graph, items0: seq<SeqItem>, items: seq<SeqItem>)
    requires ClosedItems(g, items0) && Basics(items) == Basics(items0)
    ensures forall i :: 0 <= i < |items| && items[i].Basic? ==> items[i].bb < |g|
  {
    hide Basics;
    forall i | 0 <= i < |items| && items[i].Basic?
      ensures items[i].bb < |g|
    {
      BasicsMembers(items, items[i].bb);
    }
  }

  lemma {:induction false} PassBasics(g: Graph, p: Progress)
    requires p.i <= |p.items| && ClosedItems(g, p.items)
    ensures Basics(PassFrom(g, p)) == Basics(p.items)
    decreases |Basics(p.items)| - |Basics(p.items[..p.i])|, |p.items| - p.i
  {
    if p.i < |p.items| {
      PlaceStepCounts(g, p);
      PassBasics(g, PlaceStep(g, p));
    }
  }

  /** And then the code runs as the graph: its finished runs are the graph's, and as
      far as a run gets it visits the same blocks. */
  lemma StructuredRuns<St(!new)>(g: Graph, entry: nat, f: Forest, items: seq<SeqItem>, mode: AsyncMode, m: Machine<St>, st: St)
    requires Complete(g) && entry < |g| && Compiled(g, entry, f, items) && ExitsReach(g, items)
    ensures Emittable(g, items)
    ensures forall r: Run<St> :: IsRun(g, mode, m, entry, st, r) <==> CodeEnds(m, CodeFrom(g, mode, items, 0), st, r)
    ensures forall n: nat :: CodeVisits(m, CodeFrom(g, mode, items, 0), st, GraphTrace(g, m, entry, st, n))
  {
    hide Compiled, Runnable, CodeFrom, Emittable, FirstBasic, Nested, ExitsReach, Labelled, IsRun, GraphTrace,
         CodeEnds, CodeVisits;
    StructuredExactly(g, entry, f, items);
    RunnableEmits(g, items);
    forall r: Run<St>
      ensures IsRun(g, mode, m, entry, st, r) <==> CodeEnds(m, CodeFrom(g, mode, items, 0), st, r)
    {
      CodeRunsAsGraph(g, mode, items, entry, m, st, r);
    }
    forall n: nat
      ensures CodeVisits(m, CodeFrom(g, mode, items, 0), st, GraphTrace(g, m, entry, st, n))
    {
      CodeTraces(g, mode, items, entry, m, st, n);
    }
  }

  /** A label can be missing: block 0 names itself, and has no loop of its own. */
  lemma SelfNamed(f: Forest, items: seq<SeqItem>)
    requires Compiled([If(1, 0), Return], 0, f, items)
    ensures Complete([If(1, 0), Return]) && !Labelled([If(1, 0), Return], Flat(f)) && !ExitsReach([If(1, 0), Return], items)
  {
    hide *;
    var g := [If(1, 0), Return];
    OnlyItself(g);
    CompiledParts(g, 0, f, items);
    LinearisedFacts(g, 0, f);
    NoLoopOfIts(g, Flat(f));
    EntryPlaced(g, 0, f);
    NotSelfLooped(g, Flat(f));
    LabelledParts(g, Flat(f));
    StructuredExactly(g, 0, f, items);
  }

  lemma OnlyItself(g: Graph)
    requires g == [If(1, 0), Return]
    ensures Complete(g) && 0 in Succ(g, 0) && forall b :: 0 in Succ(g, b) ==> b == 0
  {
  }

  lemma NoLoopOfIts(g: Graph, items: seq<SeqItem>)
    requires Deep(g, Progress(items, 0, {})) && forall b :: 0 in Succ(g, b) ==> b == 0
    ensures StartLoop(0) !in items
  {
    DeepIs(g, Progress(items, 0, {}));
    FactsLoops(g, items);
    hide *;
    if StartLoop(0) in items {
      var a: nat :| a < |items| && items[a] == StartLoop(0);
      var i := BackWitness(g, items, a);
    }
  }

  lemma FactsLoops(g: Graph, items: seq<SeqItem>)
    requires Facts(g, items)
    ensures Paired(items) && LoopsBack(g, items)
  {
  }

  lemma BackWitness(g: Graph, items: seq<SeqItem>, a: nat) returns (i: nat)
    requires Paired(items) && LoopsBack(g, items) && a < |items| && items[a].StartLoop?
    ensures i < |items| && items[i].Basic? && items[i].bb != items[a].bb && items[a].bb in Succ(g, items[i].bb)
  {
    hide Paired;
    var c := EndOf(items, a);
    assert BackFrom(g, items, a, c);
    i :| a < i < c && items[i].Basic? && items[i].bb != items[a].bb && items[a].bb in Succ(g, items[i].bb);
  }

  lemma EntryPlaced(g: Graph, entry: nat, f: Forest)
    requires Linearised(g, entry, f) && entry < |g|
    ensures entry in Basics(Flat(f))
  {
    hide NoRepeat, EdgesPlaced, LoopsCycle, SoleOk, Flat, Basics;
    ReachSelf(g, entry);
    BlockSetIsFlat(f, entry);
    BasicsMembers(Flat(f), entry);
  }

  lemma NotSelfLooped(g: Graph, items: seq<SeqItem>)
    requires 0 in Basics(items) && 0 in Succ(g, 0) && StartLoop(0) !in items
    ensures !SelfLooped(g, items)
  {
  }

  /** Compile the blocks reachable from the entry: the linear sequence, the sequence with
      its pairs inserted, and the code, which is missing only where the original panics
      for want of a label. Its exits all reach their blocks exactly when every insertion
      into the linear sequence fits and that sequence has a label for every jump. */
  method StackifyLoops(g: Graph, entry: nat, mode: AsyncMode)
    returns (code: Option<seq<Op>>, linear: seq<SeqItem>, items: seq<SeqItem>, ghost f: Forest)
    requires Complete(g) && entry < |g|
    ensures Compiled(g, entry, f, items) && linear == Flat(f)
    ensures code.Some? <==> Emittable(g, items)
    ensures code.Some? ==> code.value == CodeFrom(g, mode, items, 0)
    ensures ClosedItems(g, linear)
    ensures ExitsReach(g, items) <==> PassFits(g, Progress(linear, 0, {})) && Labelled(g, linear)
    ensures ExitsReach(g, items) ==> code.Some? && Nested(items)
  {
    hide Linearised, Runnable, Emittable, CodeFrom, Pass, PassFits, Nested, Labelled, Basics, ExitsReach;
    linear, f := Linearise(g, entry);
    LinearisedCloses(g, entry, f);
    var seqItems, _, _ := InsertBlocks(g, linear);
    items := seqItems;
    StructuredExactly(g, entry, f, items);
    if ExitsReach(g, items) {
      RunnableEmits(g, items);
    }
    BlocksInGraph(g, linear, items);
    code := Emit(g, mode, items);
  }
}
