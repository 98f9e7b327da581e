/** From a control-flow graph to structured code: the whole of `stackify`. */
module Stackify {
  import opened Options
  import opened ControlFlow
  import opened Linear
  import opened BlockInsertion
  import opened BlockPlacing
  import opened StructuredCode
  import opened StructuredRun
  import opened TarjanRun

  // ---- When emission finds all its labels.

  /** A two-way exit to one and the same block, standing next, for which no block
      is open: the jump has no label to name. */
  ghost predicate LacksLabel(g: Graph, items: seq<SeqItem>, i: nat)
    requires i < |items|
  {
    && items[i].Basic? && items[i].bb < |g| && Scan(items[..i]).Some?
    && var out := g[items[i].bb];
       out.If? && out.f == out.t && FirstBasic(items[i + 1..]) == Some(out.t) && out.t !in Scan(items[..i]).value
  }

  /** Every successor comes next or has an open label. */
  lemma SuccFound(g: Graph, items: seq<SeqItem>, c: nat, placed: set<nat>, i: nat)
    requires Forward(g, Basics(items)) && Placing(g, Basics(items), items, |items|, 0, c, placed)
    requires i < |items|
    ensures Scan(items[..i]).Some?
    ensures items[i].Basic? ==> forall w :: w in Succ(g, items[i].bb) ==>
              FirstBasic(items[i + 1..]) == Some(w) || w in Scan(items[..i]).value
  {
    ChainScan(items, c, i);
    hide Scan, FirstBasic, Placing, Forward, Basics;
    if items[i].Basic? {
      ForwardDistinct(g, items);
      forall w | w in Succ(g, items[i].bb)
        ensures FirstBasic(items[i + 1..]) == Some(w) || w in Scan(items[..i]).value
      {
        ServedIsOpen(g, Basics(items), items, c, placed, i, w);
        NextIsAdjacent(items, i, w);
      }
    }
  }

  /** At one place the exit finds its labels unless it lacks the one above. */
  lemma ItemOkWhen(g: Graph, items: seq<SeqItem>, c: nat, placed: set<nat>, i: nat)
    requires Complete(g) && Forward(g, Basics(items)) && Placing(g, Basics(items), items, |items|, 0, c, placed)
    requires i < |items| && (items[i].Basic? ==> items[i].bb < |g|)
    ensures ItemOk(g, items, i) <==> !LacksLabel(g, items, i)
  {
    hide Scan, FirstBasic, Placing, Forward, Basics, LabelFor, CanPop;
    SuccFound(g, items, c, placed, i);
    OpenHasLabel(items[..i]);
    if items[i].Basic? {
      var bb := items[i].bb;
      assert !g[bb].NoOut?;
      if g[bb].If? {
        assert g[bb].t in Succ(g, bb) && g[bb].f in Succ(g, bb);
      } else if g[bb].Next? {
        assert g[bb].bb in Succ(g, bb);
      }
    } else if IsEnd(items[i]) {
      PlacingScans(g, items, c, placed);
      EndPops(items, i);
    }
  }

  lemma PlacingScans(g: Graph, items: seq<SeqItem>, c: nat, placed: set<nat>)
    requires Placing(g, Basics(items), items, |items|, 0, c, placed)
    ensures Scan(items) == Some([])
  {
    PlacedScans(items, c);
  }

  /** Emission fails exactly on a two-way exit that lacks its label. */
  lemma EmittableWhen(g: Graph, items: seq<SeqItem>, c: nat, placed: set<nat>)
    requires Complete(g) && Forward(g, Basics(items)) && Placing(g, Basics(items), items, |items|, 0, c, placed)
    requires forall i :: 0 <= i < |items| && items[i].Basic? ==> items[i].bb < |g|
    ensures Scan(items) == Some([])
    ensures Emittable(g, items) <==> forall i :: 0 <= i < |items| ==> !LacksLabel(g, items, i)
  {
    PlacedScans(items, c);
    hide Scan, Placing, Forward, LacksLabel, ItemOk;
    forall i | 0 <= i < |items|
      ensures ItemOk(g, items, i) <==> !LacksLabel(g, items, i)
    {
      ItemOkWhen(g, items, c, placed, i);
    }
  }

  lemma PlacedScans(items: seq<SeqItem>, c: nat)
    requires Chain(items, c)
    ensures Scan(items) == Some([])
  {
    hide Scan;
    ChainScan(items, c, |items|);
    assert items[..|items|] == items;
    assert items[|items|..] == [];
    assert |items| <= c ==> items[c..] == [];
  }

  // ---- From the linearisation to the pass that inserts blocks.

  lemma {:induction false} OnlyBasicOrder(items: seq<SeqItem>)
    requires OnlyBasic(items)
    ensures |Basics(items)| == |items|
    ensures forall q :: 0 <= q < |items| ==> items[q] == Basic(Basics(items)[q])
  {
    if items != [] {
      var n := |items| - 1;
      OnlyBasicOrder(items[..n]);
      assert forall q :: 0 <= q < n ==> items[q] == items[..n][q];
    }
  }

  /** The blocks of a linearisation are those reachable, closed under edges. */
  lemma LinearisedCloses(g: Graph, entry: nat, f: Forest)
    requires Complete(g) && entry < |g| && Linearised(g, entry, f)
    ensures forall b :: b in Basics(Flat(f)) <==> b in Reachable(g, entry)
    ensures forall b :: b in Basics(Flat(f)) ==> b < |g| && forall w :: w in Succ(g, b) ==> w in Basics(Flat(f))
  {
    hide Linearised, Reachable, Flat;
    LinearisedPlaces(g, entry, f);
    ReachableIsClosed(g, entry);
    ReachableInGraph(g, entry);
    forall b
      ensures b in Basics(Flat(f)) <==> b in Reachable(g, entry)
    {
      BasicsMembers(Flat(f), b);
    }
  }

  /** An acyclic graph is linearised into a forward sequence of blocks. */
  lemma AcyclicForward(g: Graph, entry: nat, f: Forest)
    requires Linearised(g, entry, f) && Acyclic(g)
    ensures OnlyBasic(Flat(f)) && Forward(g, Basics(Flat(f)))
    ensures Flat(f) != [] && Flat(f)[0] == Basic(entry)
  {
    hide Linearised, Basics, Acyclic, EdgeGoes, Reachable;
    AcyclicPlaces(g, entry, f);
    FirstIsEntry(g, entry, f);
    LoopFreeHasNoStart(f);
    OnlyBasicOrder(Flat(f));
    LinearisedPlaces(g, entry, f);
    PlacesForward(g, Flat(f));
  }

  lemma FirstIsEntry(g: Graph, entry: nat, f: Forest)
    requires Linearised(g, entry, f) && LoopFree(f)
    ensures Flat(f) != [] && Flat(f)[0] == Basic(entry)
  {
  }

  /** Each block once, and each edge to a later block. */
  lemma PlacesForward(g: Graph, items: seq<SeqItem>)
    requires |Basics(items)| == |items| && forall q :: 0 <= q < |items| ==> items[q] == Basic(Basics(items)[q])
    requires forall i, j, b :: IsBasic(items, i, b) && IsBasic(items, j, b) ==> i == j
    requires forall i, b, w :: IsBasic(items, i, b) && w in Succ(g, b) ==> exists j :: i < j && IsBasic(items, j, w)
    ensures Forward(g, Basics(items))
  {
    hide Basics, Succ;
    var order := Basics(items);
    forall p, q | 0 <= p < q < |order|
      ensures order[p] != order[q]
    {
      assert IsBasic(items, p, order[p]) && IsBasic(items, q, order[q]);
    }
    forall q, w | 0 <= q < |order| && w in Succ(g, order[q])
      ensures w in order[q + 1..]
    {
      assert IsBasic(items, q, order[q]);
      var j :| q < j && IsBasic(items, j, w);
      assert order[q + 1..][j - q - 1] == w;
    }
  }

  // ---- Which graphs have an exit without a label.

  /** A reachable block both of whose branches lead to one block, which nothing else
      that is reachable leads to. */
  ghost predicate LoneTarget(g: Graph, entry: nat, b: nat) {
    && b in Reachable(g, entry) && b < |g| && g[b].If? && g[b].f == g[b].t
    && forall p :: p in Reachable(g, entry) && g[b].t in Succ(g, p) ==> p == b
  }

  /** The smallest graph with one: both branches of block 0 lead to block 1. */
  lemma BranchesAlike()
    ensures var g := [If(1, 1), Return]; Complete(g) && Acyclic(g) && LoneTarget(g, 0, 0)
  {
    var g := [If(1, 1), Return];
    ReachSelf(g, 0);
    forall a, b | b in Succ(g, a)
      ensures !Reach(g, b, a)
    {
      assert a == 0 && b == 1;
      forall p | IsPath(g, p) && p[0] == 1
        ensures p[|p| - 1] != 0
      {
        assert |p| > 1 ==> p[1] in Succ(g, p[0]);
      }
    }
  }

  /** Such a target comes directly after its block, so no block is placed for it. */
  lemma LoneIsAdjacent(g: Graph, entry: nat, f: Forest, b: nat)
    requires Linearised(g, entry, f) && Acyclic(g) && entry < |g| && LoneTarget(g, entry, b)
    ensures Adjacent(Basics(Flat(f)), b, g[b].t)
  {
    hide EdgesPlaced, NoRepeat, Reachable;
    var x := g[b].t;
    assert x in Succ(g, b);
    ReachSelf(g, b);
    ReachedFromEntry(g, entry, b);
    assert Sole(g, {}, entry, Reachable(g, entry), b, x);
    AcyclicIsLoopFree(g, f, {});
    BlockSetIsFlat(f, b);
    BasicsMembers(Flat(f), b);
    SoleFollows(g, entry, Reachable(g, entry), f, b, x);
  }

  lemma ReachedFromEntry(g: Graph, entry: nat, b: nat)
    requires b in Reachable(g, entry)
    ensures Reach(g, entry, b)
  {
  }

  lemma {:induction false} SoleFollows(g: Graph, entry: nat, universe: set<nat>, f: Forest, b: nat, x: nat)
    requires LoopFree(f) && SoleOk(g, {}, entry, universe, f) && Sole(g, {}, entry, universe, b, x)
    requires b in Basics(Flat(f))
    ensures Adjacent(Basics(Flat(f)), b, x)
  {
    hide Sole;
    match f
    case Block(v, rest) =>
      BlockOrder(v, rest);
      var order, after := Basics(Flat(f)), Basics(Flat(rest));
      if v == b {
        assert Heads(rest, x);
        BlockOrder(x, rest.rest);
        assert order[0] == b && order[0 + 1] == x;
      } else {
        SoleFollows(g, entry, universe, rest, b, x);
        var q :| 0 <= q && q + 1 < |after| && after[q] == b && after[q + 1] == x;
        assert order[q + 1] == b && order[q + 1 + 1] == x;
      }
  }

  lemma BlockOrder(v: nat, rest: Forest)
    ensures Basics(Flat(Block(v, rest))) == [v] + Basics(Flat(rest))
  {
    BasicsConcat([Basic(v)], Flat(rest));
    assert [Basic(v)][..0] == [];
  }

  /** An exit that lacks its label has a lone target. */
  lemma LacksIsLone(g: Graph, entry: nat, items: seq<SeqItem>, c: nat, placed: set<nat>, i: nat)
    requires Forward(g, Basics(items)) && Placing(g, Basics(items), items, |items|, 0, c, placed)
    requires forall b :: b in Basics(items) <==> b in Reachable(g, entry)
    requires i < |items| && LacksLabel(g, items, i)
    ensures LoneTarget(g, entry, items[i].bb)
  {
    hide Scan, Reachable, FirstBasic, Forward, Placing, Basics;
    var b, x := items[i].bb, g[items[i].bb].t;
    BasicsMembers(items, b);
    ForwardDistinct(g, items);
    NextIsAdjacent(items, i, x);
    forall p | p in Reachable(g, entry) && x in Succ(g, p)
      ensures p == b
    {
      BasicsMembers(items, p);
      var ip :| 0 <= ip < |items| && items[ip] == Basic(p);
      if p != b {
        OtherPredecessor(g, items, c, placed, i, ip, x);
      }
    }
  }

  /** Another block that leads to x needs a block for it, which is still open here. */
  lemma OtherPredecessor(g: Graph, items: seq<SeqItem>, c: nat, placed: set<nat>, i: nat, ip: nat, x: nat)
    requires Forward(g, Basics(items)) && Placing(g, Basics(items), items, |items|, 0, c, placed)
    requires i < |items| && items[i].Basic? && ip < |items| && items[ip].Basic? && items[ip].bb != items[i].bb
    requires Adjacent(Basics(items), items[i].bb, x) && x in Succ(g, items[i].bb) && x in Succ(g, items[ip].bb)
    ensures Scan(items[..i]).Some? && x in Scan(items[..i]).value
  {
    hide Scan, FirstBasic, Basics;
    var order := Basics(items);
    ForwardDistinct(g, items);
    NotBothAdjacent(order, items[i].bb, items[ip].bb, x);
    TargetLater(g, items, i, x);
    TargetLater(g, items, ip, x);
    BeforeAdjacent(items, i, ip, x);
    assert Served(order, items, ip, items[ip].bb, x);
    var s :| 0 <= s < ip && items[s] == StartBlock(x);
    OpenUntilTarget(order, items, c, placed, s, i, x);
  }

  lemma NotBothAdjacent(order: seq<nat>, b: nat, p: nat, x: nat)
    requires Distinct(order) && Adjacent(order, b, x) && p != b
    ensures !Adjacent(order, p, x)
  {
    var q :| 0 <= q && q + 1 < |order| && order[q] == b && order[q + 1] == x;
    forall r | 0 <= r && r + 1 < |order| && order[r + 1] == x
      ensures order[r] != p
    {
      assert r == q;
    }
  }

  /** What stands before x, and not directly before it, stands before what does. */
  lemma BeforeAdjacent(items: seq<SeqItem>, i: nat, ip: nat, x: nat)
    requires Distinct(Basics(items)) && i < |items| && items[i].Basic? && ip < |items| && items[ip].Basic?
    requires items[ip].bb != items[i].bb && Adjacent(Basics(items), items[i].bb, x) && x !in Basics(items[..ip + 1])
    ensures ip < i
  {
    hide *;
    if i < ip {
      PrefixHasMore(items, i, ip);
      NextInPrefix(Basics(items), Basics(items[..ip + 1]), |Basics(items[..i])|, items[i].bb, x);
    }
  }

  lemma PrefixHasMore(items: seq<SeqItem>, i: nat, ip: nat)
    requires i < ip < |items| && items[i].Basic? && items[ip].Basic?
    ensures Basics(items[..ip + 1]) <= Basics(items) && |Basics(items[..i])| + 1 < |Basics(items[..ip + 1])|
    ensures Basics(items)[|Basics(items[..i])|] == items[i].bb
  {
    hide *;
    BasicsAt(items, i);
    BasicsAt(items, ip);
    var a, b := items[..i + 1], items[i + 1..ip];
    assert items[..ip] == a + b;
    BasicsConcat(a, b);
  }

  lemma NextInPrefix(order: seq<nat>, before: seq<nat>, q: nat, b: nat, x: nat)
    requires Distinct(order) && Adjacent(order, b, x) && before <= order && q + 1 < |before| && order[q] == b
    ensures x in before
  {
    var r :| 0 <= r && r + 1 < |order| && order[r] == b && order[r + 1] == x;
    assert r == q;
    assert before[q + 1] == x;
  }

  /** A lone target, standing next, lacks a label. */
  lemma LoneLacks(g: Graph, entry: nat, items: seq<SeqItem>, c: nat, placed: set<nat>, b: nat) returns (i: nat)
    requires Forward(g, Basics(items)) && Placing(g, Basics(items), items, |items|, 0, c, placed)
    requires forall p :: p in Basics(items) <==> p in Reachable(g, entry)
    requires LoneTarget(g, entry, b) && Adjacent(Basics(items), b, g[b].t)
    ensures i < |items| && LacksLabel(g, items, i)
  {
    hide Scan, Reachable, FirstBasic, Forward, Basics, Adjacent, Jumps;
    var x := g[b].t;
    BasicsMembers(items, b);
    LoneNeverJumps(g, entry, Basics(items), b);
    i :| 0 <= i < |items| && items[i] == Basic(b);
    ForwardDistinct(g, items);
    NextIsAdjacent(items, i, x);
    ChainScan(items, c, i);
    if x in Scan(items[..i]).value {
      OpenIsPlaced(items, Basics(items), c, placed, i, x);
    }
  }

  lemma LoneNeverJumps(g: Graph, entry: nat, order: seq<nat>, b: nat)
    requires forall p :: p in order <==> p in Reachable(g, entry)
    requires LoneTarget(g, entry, b) && Adjacent(order, b, g[b].t)
    ensures !Jumps(g, order, g[b].t)
  {
    hide Reachable, Adjacent;
  }

  /** Everything `stackify` produces for an acyclic graph. */
  ghost predicate Stackified(g: Graph, entry: nat, mode: AsyncMode, code: seq<Op>,
                             items: seq<SeqItem>, c: nat, placed: set<nat>) {
    && Ready(g, items, c, placed)
    && (forall b :: b in Basics(items) <==> b in Reachable(g, entry))
    && Basics(items) != [] && Basics(items)[0] == entry
    && code == CodeFrom(g, mode, items, 0)
  }

  /** Compile the blocks reachable from the entry of an acyclic graph. None where
      the original panics: exactly when some reachable block has a two-way exit to a
      single block that nothing else reachable leads to. */
  method StackifyAcyclic(g: Graph, entry: nat, mode: AsyncMode)
    returns (code: Option<seq<Op>>, ghost items: seq<SeqItem>, ghost c: nat, ghost placed: set<nat>)
    requires Complete(g) && entry < |g| && Acyclic(g)
    ensures code.Some? ==> Stackified(g, entry, mode, code.value, items, c, placed)
    ensures code.None? <==> exists b :: LoneTarget(g, entry, b)
    ensures (forall b :: 0 <= b < |g| && g[b].If? ==> g[b].f != g[b].t) ==> code.Some?
  {
    hide Linearised, OnlyBasic, Forward, Placing, Acyclic, Scan, Emittable, Basics, LacksLabel, CodeFrom, Complete,
         Reachable, Adjacent;
    var plain, f := Linearise(g, entry);
    LinearisedCloses(g, entry, f);
    AcyclicForward(g, entry, f);
    FirstStays(plain, entry);
    var seqItems;
    seqItems, c, placed := InsertBlocks(g, plain);
    items := seqItems;
    forall i | 0 <= i < |items| && items[i].Basic?
      ensures items[i].bb < |g|
    {
      BasicsMembers(items, items[i].bb);
    }
    EmittableWhen(g, items, c, placed);
    LacksExactly(g, entry, f, items, c, placed);
    code := Emit(g, mode, seqItems);
  }

  lemma LacksExactly(g: Graph, entry: nat, f: Forest, items: seq<SeqItem>, c: nat, placed: set<nat>)
    requires Linearised(g, entry, f) && Acyclic(g) && entry < |g| && Basics(items) == Basics(Flat(f))
    requires Forward(g, Basics(items)) && Placing(g, Basics(items), items, |items|, 0, c, placed)
    requires forall b :: b in Basics(items) <==> b in Reachable(g, entry)
    ensures (exists i :: 0 <= i < |items| && LacksLabel(g, items, i)) <==> exists b :: LoneTarget(g, entry, b)
  {
    hide Linearised, Forward, Placing, Acyclic, Basics, LacksLabel, LoneTarget, Adjacent, Reachable;
    if i :| 0 <= i < |items| && LacksLabel(g, items, i) {
      LacksIsLone(g, entry, items, c, placed, i);
    }
    if b :| LoneTarget(g, entry, b) {
      LoneIsAdjacent(g, entry, f, b);
      var i := LoneLacks(g, entry, items, c, placed, b);
    }
  }

  lemma FirstStays(items: seq<SeqItem>, entry: nat)
    requires items != [] && items[0] == Basic(entry)
    ensures Basics(items) != [] && Basics(items)[0] == entry
  {
    BasicsAt(items, 0);
    assert items[..0] == [];
  }

  /** Running the structured code is running the graph from the entry: the same
      blocks in the same order on the same states, ending the same way. */
  lemma StackifiedRuns<St>(g: Graph, entry: nat, mode: AsyncMode, code: seq<Op>, items: seq<SeqItem>, c: nat,
                           placed: set<nat>, m: Machine<St>, st: St)
    requires Stackified(g, entry, mode, code, items, c, placed)
    ensures IsRun(g, mode, m, entry, st, RunCode(m, code, st, false, None))
  {
    hide IsRun, RunCode, Scan, CodeFrom, Placing, Forward;
    assert items[0..] == items;
    FirstBasicIs(items);
    var q := FallsThrough(g, mode, items, 0, m, st, false);
    RunsAs(g, mode, items, c, placed, q, m, st, false);
  }

  /** And there is no other way for the graph to run. */
  lemma StackifiedExact<St>(g: Graph, entry: nat, mode: AsyncMode, code: seq<Op>, items: seq<SeqItem>, c: nat,
                            placed: set<nat>, m: Machine<St>, st: St, r: Run<St>)
    requires Stackified(g, entry, mode, code, items, c, placed)
    ensures IsRun(g, mode, m, entry, st, r) <==> r == RunCode(m, code, st, false, None)
  {
    StackifiedRuns(g, entry, mode, code, items, c, placed, m, st);
    if IsRun(g, mode, m, entry, st, r) {
      IsRunUnique(g, mode, m, entry, st, r, RunCode(m, code, st, false, None));
    }
  }
}
