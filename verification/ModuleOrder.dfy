/** The import graph of modules and its topological order (`module_graph.rs`). */
module ModuleOrder {
  import opened Options

  /** A resolved import: the module it names and where it is written. */
  datatype PathImport = PathImport(defIndex: nat, target: nat, span: nat)

  /** The imports of each module, by module index. */
  type Imports = seq<seq<PathImport>>

  predicate Closed(g: Imports) {
    forall a, k :: 0 <= a < |g| && 0 <= k < |g[a]| ==> g[a][k].target < |g|
  }

  predicate HasImport(g: Imports, a: nat, b: nat) {
    a < |g| && exists k :: 0 <= k < |g[a]| && g[a][k].target == b
  }

  /** A walk along imports. */
  ghost predicate IsWalk(g: Imports, p: seq<nat>) {
    p != [] && p[0] < |g| && forall i :: 0 <= i < |p| - 1 ==> HasImport(g, p[i], p[i + 1])
  }

  ghost predicate IsCycle(g: Imports, p: seq<nat>) {
    IsWalk(g, p) && |p| >= 2 && p[0] == p[|p| - 1]
  }

  ghost predicate Acyclic(g: Imports) {
    forall p :: !IsCycle(g, p)
  }

  // ---- Orders.

  /** Modules in order, each after everything it imports. */
  predicate Ordered(g: Imports, order: seq<nat>) {
    && (forall i :: 0 <= i < |order| ==> order[i] < |g|)
    && (forall i, j :: 0 <= i < j < |order| ==> order[i] != order[j])
    && (forall i, k :: 0 <= i < |order| && 0 <= k < |g[order[i]]| ==> g[order[i]][k].target in order[..i])
  }

  /** An order of everything: dependencies first, each module once. */
  predicate IsTopoOrder(g: Imports, order: seq<nat>) {
    Ordered(g, order) && forall m: nat :: m < |g| ==> m in order
  }

  lemma OrderedEdge(g: Imports, order: seq<nat>, i: nat, b: nat) returns (j: nat)
    requires Ordered(g, order) && i < |order| && HasImport(g, order[i], b)
    ensures j < i && order[j] == b
  {
    var k :| 0 <= k < |g[order[i]]| && g[order[i]][k].target == b;
    j :| 0 <= j < i && order[..i][j] == b;
  }

  /** Along a walk the positions in an order go strictly down. */
  lemma {:induction false} WalkDescends(g: Imports, order: seq<nat>, p: seq<nat>, i: nat) returns (j: nat)
    requires Ordered(g, order) && IsWalk(g, p) && i < |order| && order[i] == p[0]
    ensures j <= i && j < |order| && order[j] == p[|p| - 1]
    ensures |p| >= 2 ==> j < i
    decreases |p|
  {
    if |p| == 1 {
      j := i;
    } else {
      var k := OrderedEdge(g, order, i, p[1]);
      j := WalkDescends(g, order, p[1..], k);
    }
  }

  /** A graph with a topological order has no cycle. */
  lemma OrderMeansAcyclic(g: Imports, order: seq<nat>)
    requires IsTopoOrder(g, order)
    ensures Acyclic(g)
  {
    forall p
      ensures !IsCycle(g, p)
    {
      if IsCycle(g, p) {
        var first: nat := p[0];
        assert first in order;
        var i :| 0 <= i < |order| && order[i] == first;
        var j := WalkDescends(g, order, p, i);
      }
    }
  }

  // ---- Depth-first search.

  datatype Color = White | Gray | Black

  datatype Frame = Frame(node: nat, child: nat)

  /** A module on a reported chain, with the import that led to it. */
  datatype Link = Link(node: nat, span: nat)

  const DUMMY_SPAN: nat := 0

  /** A finished part of the search: black modules are the order so far. */
  ghost predicate Between(g: Imports, color: seq<Color>, order: seq<nat>) {
    && Closed(g) && |color| == |g| && Ordered(g, order)
    && forall m :: 0 <= m < |g| ==> !color[m].Gray? && (color[m].Black? <==> m in order)
  }

  /** How many imports of the i-th frame are done: the one being visited is not. */
  function Finished(stack: seq<Frame>, i: nat): int
    requires i < |stack|
  {
    if i == |stack| - 1 then stack[i].child else stack[i].child - 1
  }

  ghost predicate FrameOk(g: Imports, f: Frame, l: Link) {
    f.node < |g| && l.node == f.node && f.child <= |g[f.node]|
  }

  /** The next frame was pushed for the import that f is at. */
  ghost predicate LedTo(g: Imports, f: Frame, next: Link) {
    && f.node < |g| && 0 < f.child <= |g[f.node]|
    && g[f.node][f.child - 1].target == next.node && g[f.node][f.child - 1].span == next.span
  }

  ghost predicate Linked(g: Imports, stack: seq<Frame>, path: seq<Link>) {
    && |path| == |stack|
    && (forall i :: 0 <= i < |stack| ==> FrameOk(g, stack[i], path[i]))
    && (forall i :: 0 <= i < |stack| - 1 ==> LedTo(g, stack[i], path[i + 1]))
  }

  predicate DoneUpTo(g: Imports, order: seq<nat>, node: nat, n: int) {
    node < |g| && forall k :: 0 <= k < n && k < |g[node]| ==> g[node][k].target in order
  }

  ghost predicate Done(g: Imports, order: seq<nat>, stack: seq<Frame>) {
    forall i :: 0 <= i < |stack| ==> DoneUpTo(g, order, stack[i].node, Finished(stack, i))
  }

  ghost predicate OnStack(stack: seq<Frame>, m: nat) {
    exists i :: 0 <= i < |stack| && stack[i].node == m
  }

  ghost predicate GraysAre(color: seq<Color>, stack: seq<Frame>) {
    && (forall m :: 0 <= m < |color| ==> (color[m].Gray? <==> OnStack(stack, m)))
    && (forall i :: 0 <= i < |stack| ==> stack[i].node < |color|)
    && (forall i, j :: 0 <= i < j < |stack| ==> stack[i].node != stack[j].node)
  }

  predicate BlacksAre(color: seq<Color>, order: seq<nat>) {
    forall m :: 0 <= m < |color| ==> (color[m].Black? <==> m in order)
  }

  ghost predicate Searching(g: Imports, color: seq<Color>, order: seq<nat>, stack: seq<Frame>, path: seq<Link>) {
    && Closed(g) && |color| == |g| && Ordered(g, order)
    && Linked(g, stack, path) && BlacksAre(color, order) && GraysAre(color, stack) && Done(g, order, stack)
  }

  function Whites(color: seq<Color>): nat {
    if color == [] then 0 else Whites(color[..|color| - 1]) + if color[|color| - 1].White? then 1 else 0
  }

  lemma {:induction false} FewerWhites(color: seq<Color>, m: nat)
    requires m < |color| && color[m].White?
    ensures Whites(color[m := Gray]) == Whites(color) - 1
  {
    var n := |color| - 1;
    if m < n {
      FewerWhites(color[..n], m);
      assert color[m := Gray][..n] == color[..n][m := Gray];
    } else {
      assert color[m := Gray][..n] == color[..n];
    }
  }

  lemma {:induction false} SameWhites(color: seq<Color>, m: nat)
    requires m < |color| && color[m].Gray?
    ensures Whites(color[m := Black]) == Whites(color)
  {
    var n := |color| - 1;
    if m < n {
      SameWhites(color[..n], m);
      assert color[m := Black][..n] == color[..n][m := Black];
    } else {
      assert color[m := Black][..n] == color[..n];
    }
  }

  /** Imports still to look at, over all frames. */
  function Work(g: Imports, stack: seq<Frame>): int {
    if stack == [] then 0
    else
      var last := stack[|stack| - 1];
      Work(g, stack[..|stack| - 1]) + 1 + if last.node < |g| then |g[last.node]| - last.child else 0
  }

  lemma {:induction false} WorkPositive(g: Imports, stack: seq<Frame>, path: seq<Link>)
    requires Linked(g, stack, path)
    ensures Work(g, stack) >= |stack|
  {
    if stack != [] {
      var n := |stack| - 1;
      PopLinked(g, stack, path);
      assert FrameOk(g, stack[n], path[n]);
      WorkPositive(g, stack[..n], path[..n]);
    }
  }

  lemma TopIs(g: Imports, color: seq<Color>, order: seq<nat>, stack: seq<Frame>, path: seq<Link>, f: Frame)
    requires Searching(g, color, order, stack, path) && stack != [] && f == stack[|stack| - 1]
    ensures f.node < |g| == |color| && f.child <= |g[f.node]| && color[f.node].Gray? && f.node !in order
    ensures DoneUpTo(g, order, f.node, f.child) && |path| == |stack|
  {
    assert FrameOk(g, f, path[|stack| - 1]);
    assert OnStack(stack, f.node);
    assert DoneUpTo(g, order, f.node, Finished(stack, |stack| - 1));
  }

  // The top module is finished.

  lemma PopOrdered(g: Imports, order: seq<nat>, node: nat)
    requires Ordered(g, order) && node < |g| && node !in order && DoneUpTo(g, order, node, |g[node]|)
    ensures Ordered(g, order + [node])
  {
    var order' := order + [node];
    assert order'[..|order|] == order;
    forall i, k | 0 <= i < |order'| && 0 <= k < |g[order'[i]]|
      ensures g[order'[i]][k].target in order'[..i]
    {
      if i < |order| {
        assert order'[..i] == order[..i];
      }
    }
  }

  lemma PopDone(g: Imports, order: seq<nat>, stack: seq<Frame>, path: seq<Link>)
    requires Linked(g, stack, path) && Done(g, order, stack) && stack != []
    ensures Done(g, order + [stack[|stack| - 1].node], stack[..|stack| - 1])
  {
    var n := |stack| - 1;
    var stack', order' := stack[..n], order + [stack[n].node];
    forall i | 0 <= i < n
      ensures DoneUpTo(g, order', stack'[i].node, Finished(stack', i))
    {
      assert DoneUpTo(g, order, stack[i].node, Finished(stack, i));
      assert LedTo(g, stack[i], path[i + 1]);
      assert FrameOk(g, stack[i + 1], path[i + 1]);
      if i == n - 1 {
        OneMoreDone(g, order, stack[i], stack[n].node);
      } else {
        MoreOrdered(g, order, stack[n].node, stack[i].node, Finished(stack, i));
      }
    }
  }

  lemma MoreOrdered(g: Imports, order: seq<nat>, m: nat, node: nat, n: int)
    requires DoneUpTo(g, order, node, n)
    ensures DoneUpTo(g, order + [m], node, n)
  {
  }

  lemma OneMoreDone(g: Imports, order: seq<nat>, f: Frame, m: nat)
    requires f.child > 0 && DoneUpTo(g, order, f.node, f.child - 1) && f.child <= |g[f.node]|
    requires g[f.node][f.child - 1].target == m
    ensures DoneUpTo(g, order + [m], f.node, f.child)
  {
  }

  lemma PopGrays(color: seq<Color>, stack: seq<Frame>)
    requires GraysAre(color, stack) && stack != []
    ensures GraysAre(color[stack[|stack| - 1].node := Black], stack[..|stack| - 1])
  {
    var n := |stack| - 1;
    var color', stack' := color[stack[n].node := Black], stack[..n];
    forall m | 0 <= m < |color|
      ensures color'[m].Gray? <==> OnStack(stack', m)
    {
      if color'[m].Gray? {
        var i :| 0 <= i < |stack| && stack[i].node == m;
        assert stack'[i].node == m;
      }
      if OnStack(stack', m) {
        var i :| 0 <= i < n && stack'[i].node == m;
        assert stack[i].node == m;
        assert OnStack(stack, m);
      }
    }
  }

  lemma PopLinked(g: Imports, stack: seq<Frame>, path: seq<Link>)
    requires Linked(g, stack, path) && stack != []
    ensures Linked(g, stack[..|stack| - 1], path[..|stack| - 1])
  {
    hide FrameOk, LedTo;
  }

  lemma PopKeeps(g: Imports, color: seq<Color>, order: seq<nat>, stack: seq<Frame>, path: seq<Link>, f: Frame)
    requires Searching(g, color, order, stack, path) && stack != [] && f == stack[|stack| - 1] && f.node < |g|
    requires f.child >= |g[f.node]|
    ensures Searching(g, color[f.node := Black], order + [f.node], stack[..|stack| - 1], path[..|stack| - 1])
  {
    hide Ordered, Linked, GraysAre, Done, BlacksAre, Closed, DoneUpTo;
    TopIs(g, color, order, stack, path, f);
    PopOrdered(g, order, f.node);
    PopDone(g, order, stack, path);
    PopGrays(color, stack);
    PopLinked(g, stack, path);
    PopBlacks(color, order, f.node);
  }

  lemma PopBlacks(color: seq<Color>, order: seq<nat>, m: nat)
    requires BlacksAre(color, order) && m < |color|
    ensures BlacksAre(color[m := Black], order + [m])
  {
  }

  // An import is looked at.

  /** The top frame moves on to its next import. */
  function Advanced(stack: seq<Frame>): seq<Frame>
    requires stack != []
  {
    stack[|stack| - 1 := Frame(stack[|stack| - 1].node, stack[|stack| - 1].child + 1)]
  }

  lemma AdvanceLinked(g: Imports, stack: seq<Frame>, path: seq<Link>, f: Frame)
    requires Linked(g, stack, path) && stack != [] && f == stack[|stack| - 1] && f.node < |g| && f.child < |g[f.node]|
    ensures Linked(g, Advanced(stack), path)
  {
    hide LedTo;
    var n, stack' := |stack| - 1, Advanced(stack);
    forall i | 0 <= i < |stack|
      ensures FrameOk(g, stack'[i], path[i])
    {
      assert FrameOk(g, stack[i], path[i]);
    }
    forall i | 0 <= i < n
      ensures LedTo(g, stack'[i], path[i + 1])
    {
      assert LedTo(g, stack[i], path[i + 1]);
    }
  }

  lemma SameNodes(color: seq<Color>, stack: seq<Frame>)
    requires GraysAre(color, stack) && stack != []
    ensures GraysAre(color, Advanced(stack))
  {
    var stack' := Advanced(stack);
    forall m | 0 <= m < |color|
      ensures OnStack(stack', m) <==> OnStack(stack, m)
    {
      if i :| 0 <= i < |stack| && stack[i].node == m {
        assert stack'[i].node == m;
      }
      if i :| 0 <= i < |stack'| && stack'[i].node == m {
        assert stack[i].node == m;
      }
    }
  }

  /** An import of a finished module. */
  lemma StepKeeps(g: Imports, color: seq<Color>, order: seq<nat>, stack: seq<Frame>, path: seq<Link>, f: Frame)
    requires Searching(g, color, order, stack, path) && stack != [] && f == stack[|stack| - 1] && f.node < |g|
    requires f.child < |g[f.node]| && g[f.node][f.child].target < |color| && color[g[f.node][f.child].target].Black?
    ensures Searching(g, color, order, Advanced(stack), path)
  {
    hide Ordered, Linked, GraysAre, Closed;
    AdvanceLinked(g, stack, path, f);
    SameNodes(color, stack);
    forall i | 0 <= i < |stack|
      ensures DoneUpTo(g, order, Advanced(stack)[i].node, Finished(Advanced(stack), i))
    {
      assert DoneUpTo(g, order, stack[i].node, Finished(stack, i));
    }
  }

  lemma PushGrays(color: seq<Color>, stack: seq<Frame>, m: nat)
    requires GraysAre(color, stack) && m < |color| && color[m].White?
    ensures GraysAre(color[m := Gray], stack + [Frame(m, 0)])
  {
    var color', stack' := color[m := Gray], stack + [Frame(m, 0)];
    assert !OnStack(stack, m);
    forall x | 0 <= x < |color|
      ensures color'[x].Gray? <==> OnStack(stack', x)
    {
      if x == m {
        assert stack'[|stack|].node == m;
      } else {
        if i :| 0 <= i < |stack| && stack[i].node == x {
          assert stack'[i].node == x;
        }
        if i :| 0 <= i < |stack'| && stack'[i].node == x {
          assert stack[i].node == x;
        }
      }
    }
  }

  lemma PushLinked(g: Imports, stack: seq<Frame>, path: seq<Link>, l: Link)
    requires Linked(g, stack, path) && stack != [] && LedTo(g, stack[|stack| - 1], l) && l.node < |g|
    ensures Linked(g, stack + [Frame(l.node, 0)], path + [l])
  {
    var stack', path' := stack + [Frame(l.node, 0)], path + [l];
    forall i | 0 <= i < |stack'|
      ensures FrameOk(g, stack'[i], path'[i])
    {
      if i < |stack| {
        assert FrameOk(g, stack[i], path[i]);
      }
    }
    forall i | 0 <= i < |stack'| - 1
      ensures LedTo(g, stack'[i], path'[i + 1])
    {
      if i < |stack| - 1 {
        assert LedTo(g, stack[i], path[i + 1]);
      }
    }
  }

  /** An import of a module not seen yet. */
  lemma PushKeeps(g: Imports, color: seq<Color>, order: seq<nat>, stack: seq<Frame>, path: seq<Link>, f: Frame, e: PathImport)
    requires Searching(g, color, order, stack, path) && stack != [] && f == stack[|stack| - 1] && f.node < |g|
    requires f.child < |g[f.node]| && e == g[f.node][f.child] && e.target < |g| && color[e.target].White?
    ensures Searching(g, color[e.target := Gray], order, Advanced(stack) + [Frame(e.target, 0)],
                      path + [Link(e.target, e.span)])
  {
    hide Ordered, Linked, GraysAre, Closed, DoneUpTo;
    AdvanceLinked(g, stack, path, f);
    SameNodes(color, stack);
    PushGrays(color, Advanced(stack), e.target);
    PushLinked(g, Advanced(stack), path, Link(e.target, e.span));
    var stack' := Advanced(stack) + [Frame(e.target, 0)];
    NothingDone(g, order, e.target);
    forall i | 0 <= i < |stack'|
      ensures DoneUpTo(g, order, stack'[i].node, Finished(stack', i))
    {
      if i < |stack| {
        assert DoneUpTo(g, order, stack[i].node, Finished(stack, i));
      }
    }
  }

  lemma NothingDone(g: Imports, order: seq<nat>, node: nat)
    requires node < |g|
    ensures DoneUpTo(g, order, node, 0)
  {
  }

  /** The chain that is reported: the modules from the repeated one on, each with the
      span of the import that leads to it, and the repeated one again. */
  ghost predicate IsChain(g: Imports, chain: seq<Link>) {
    && |chain| >= 2 && chain[0].node == chain[|chain| - 1].node && chain[0].node < |g|
    && forall i :: 0 <= i < |chain| - 1 ==> ImportAt(g, chain[i].node, chain[i + 1])
  }

  ghost predicate ImportAt(g: Imports, a: nat, l: Link) {
    a < |g| && exists k :: 0 <= k < |g[a]| && g[a][k].target == l.node && g[a][k].span == l.span
  }

  function Nodes(chain: seq<Link>): (p: seq<nat>)
    ensures |p| == |chain| && forall i :: 0 <= i < |p| ==> p[i] == chain[i].node
  {
    seq(|chain|, i requires 0 <= i < |chain| => chain[i].node)
  }

  /** It is a closed walk of real imports. */
  lemma ChainIsCycle(g: Imports, chain: seq<Link>)
    requires IsChain(g, chain)
    ensures IsCycle(g, Nodes(chain)) && !Acyclic(g)
  {
    var p := Nodes(chain);
    forall i | 0 <= i < |p| - 1
      ensures HasImport(g, p[i], p[i + 1])
    {
      assert ImportAt(g, chain[i].node, chain[i + 1]);
    }
    assert IsCycle(g, p);
  }

  /** The reported chain: from the first place of the target on the path. */
  method CycleChain(path: seq<Link>, edge: PathImport) returns (chain: seq<Link>, ghost at: nat)
    requires exists i :: 0 <= i < |path| && path[i].node == edge.target
    ensures at < |path| && path[at].node == edge.target
    ensures chain == path[at..] + [Link(edge.target, edge.span)]
  {
    chain := [];
    var found := false;
    at := 0;
    for i := 0 to |path|
      invariant found ==> at < i && path[at].node == edge.target && chain == path[at..i]
      invariant !found ==> chain == [] && forall j :: 0 <= j < i ==> path[j].node != edge.target
    {
      if path[i].node == edge.target {
        if !found {
          at := i;
        }
        found := true;
      }
      if found {
        chain := chain + [path[i]];
      }
    }
    chain := chain + [Link(edge.target, edge.span)];
  }

  lemma GrayChain(g: Imports, stack: seq<Frame>, path: seq<Link>, f: Frame, e: PathImport, at: nat)
    requires Linked(g, stack, path) && stack != [] && f == stack[|stack| - 1] && f.node < |g|
    requires f.child < |g[f.node]| && e == g[f.node][f.child] && e.target < |g|
    requires at < |path| && path[at].node == e.target
    ensures IsChain(g, path[at..] + [Link(e.target, e.span)])
  {
    var chain := path[at..] + [Link(e.target, e.span)];
    forall i | 0 <= i < |chain| - 1
      ensures ImportAt(g, chain[i].node, chain[i + 1])
    {
      var q := at + i;
      assert chain[i] == path[q];
      assert FrameOk(g, stack[q], path[q]);
      if q < |path| - 1 {
        assert chain[i + 1] == path[q + 1];
        assert LedTo(g, stack[q], path[q + 1]);
      }
    }
  }

  /** Visit everything not seen yet that `start` imports, directly or not; None, or
      a chain of imports that leads back to itself. */
  method DfsVisit(g: Imports, start: nat, color: array<Color>, order0: seq<nat>)
    returns (cycle: Option<seq<Link>>, order: seq<nat>)
    requires start < |g| && Between(g, color[..], order0) && color[start].White?
    modifies color
    ensures cycle.None? ==> Between(g, color[..], order) && order0 <= order && start in order
    ensures cycle.Some? ==> IsChain(g, cycle.value)
  {
    hide Searching, Between, Whites, Work, IsChain;
    order := order0;
    BetweenColors(g, color[..], order, start);
    SearchStarts(g, color[..], order, start);
    ghost var was := color[..];
    color[start] := Gray;
    assert color[..] == was[start := Gray];
    var stack, pathStack := [Frame(start, 0)], [Link(start, DUMMY_SPAN)];
    while stack != []
      invariant Searching(g, color[..], order, stack, pathStack)
      invariant order0 <= order
      invariant if stack == [] then start in order else stack[0].node == start
      decreases Whites(color[..]), Work(g, stack)
    {
      cycle, order, stack, pathStack := DfsStep(g, start, color, order0, order, stack, pathStack);
      if cycle.Some? {
        return;
      }
    }
    cycle := None;
    NoneGray(g, color[..], order, stack, pathStack);
  }

  lemma NoneGray(g: Imports, color: seq<Color>, order: seq<nat>, stack: seq<Frame>, path: seq<Link>)
    requires Searching(g, color, order, stack, path) && stack == []
    ensures Between(g, color, order)
  {
  }

  lemma SearchStarts(g: Imports, color: seq<Color>, order: seq<nat>, start: nat)
    requires start < |g| && Between(g, color, order) && color[start].White?
    ensures Searching(g, color[start := Gray], order, [Frame(start, 0)], [Link(start, DUMMY_SPAN)])
  {
    PushGrays(color, [], start);
    assert [] + [Frame(start, 0)] == [Frame(start, 0)];
  }

  /** The search comes closer to its end. */
  ghost predicate Closer(g: Imports, was: seq<Color>, stack: seq<Frame>, color: seq<Color>, stack': seq<Frame>) {
    Whites(color) < Whites(was) || (Whites(color) == Whites(was) && 0 <= Work(g, stack') < Work(g, stack))
  }

  /** One round of the search loop. */
  method DfsStep(g: Imports, ghost start: nat, color: array<Color>, ghost order0: seq<nat>, order: seq<nat>,
                 stack: seq<Frame>, pathStack: seq<Link>)
    returns (cycle: Option<seq<Link>>, order': seq<nat>, stack': seq<Frame>, path': seq<Link>)
    requires Searching(g, color[..], order, stack, pathStack) && stack != [] && order0 <= order
    requires stack[0].node == start
    modifies color
    ensures cycle.Some? ==> IsChain(g, cycle.value)
    ensures cycle.None? ==> Searching(g, color[..], order', stack', path') && order0 <= order'
    ensures cycle.None? ==> if stack' == [] then start in order' else stack'[0].node == start
    ensures cycle.None? ==> Closer(g, old(color[..]), stack, color[..], stack')
  {
    hide Searching, Linked, Whites, Work, IsChain;
    ghost var was := color[..];
    var n := |stack| - 1;
    var f := stack[n];
    TopIs(g, was, order, stack, pathStack, f);
    cycle, order', stack', path' := None, order, stack, pathStack;
    if f.child >= |g[f.node]| {
      PopKeeps(g, was, order, stack, pathStack, f);
      PopWork(g, was, order, stack, pathStack, f);
      color[f.node] := Black;
      assert color[..] == was[f.node := Black];
      order', stack', path' := order + [f.node], stack[..n], pathStack[..n];
      assert order'[|order|] == f.node;
    } else {
      var edge := g[f.node][f.child];
      SearchFacts(g, was, order, stack, pathStack, f);
      stack' := stack[n := Frame(f.node, f.child + 1)];
      match color[edge.target] {
        case White =>
          PushKeeps(g, was, order, stack, pathStack, f, edge);
          FewerWhites(was, edge.target);
          color[edge.target] := Gray;
          assert color[..] == was[edge.target := Gray];
          path' := pathStack + [Link(edge.target, edge.span)];
          stack' := stack' + [Frame(edge.target, 0)];
        case Gray =>
          GrayOnPath(g, was, order, stack, pathStack, edge.target);
          var chain, at := CycleChain(pathStack, edge);
          GrayChain(g, stack, pathStack, f, edge, at);
          cycle := Some(chain);
        case Black =>
          StepKeeps(g, was, order, stack, pathStack, f);
          StepWork(g, was, order, stack, pathStack, f);
      }
    }
  }

  lemma SearchFacts(g: Imports, color: seq<Color>, order: seq<nat>, stack: seq<Frame>, path: seq<Link>, f: Frame)
    requires Searching(g, color, order, stack, path) && f.node < |g| && f.child < |g[f.node]|
    ensures g[f.node][f.child].target < |g| == |color| && Linked(g, stack, path)
  {
  }

  lemma GrayOnPath(g: Imports, color: seq<Color>, order: seq<nat>, stack: seq<Frame>, path: seq<Link>, m: nat)
    requires Searching(g, color, order, stack, path) && m < |color| && color[m].Gray?
    ensures exists i :: 0 <= i < |path| && path[i].node == m
  {
    assert OnStack(stack, m);
    var i :| 0 <= i < |stack| && stack[i].node == m;
    assert FrameOk(g, stack[i], path[i]);
  }

  lemma PopWork(g: Imports, color: seq<Color>, order: seq<nat>, stack: seq<Frame>, path: seq<Link>, f: Frame)
    requires Searching(g, color, order, stack, path) && stack != [] && f == stack[|stack| - 1]
    requires f.node < |color| && color[f.node].Gray?
    ensures Closer(g, color, stack, color[f.node := Black], stack[..|stack| - 1])
  {
    SameWhites(color, f.node);
    PopLinked(g, stack, path);
    WorkPositive(g, stack[..|stack| - 1], path[..|stack| - 1]);
    assert FrameOk(g, f, path[|stack| - 1]);
  }

  lemma StepWork(g: Imports, color: seq<Color>, order: seq<nat>, stack: seq<Frame>, path: seq<Link>, f: Frame)
    requires Searching(g, color, order, stack, path) && stack != [] && f == stack[|stack| - 1]
    requires f.node < |g| && f.child < |g[f.node]|
    ensures Closer(g, color, stack, color, Advanced(stack))
  {
    AdvanceLinked(g, stack, path, f);
    WorkPositive(g, Advanced(stack), path);
    assert Advanced(stack)[..|stack| - 1] == stack[..|stack| - 1];
  }

  /** Order all modules, seeds first; or report a chain of imports that closes. */
  method TopoOrder(g: Imports, seeds: seq<nat>) returns (cycle: Option<seq<Link>>, order: seq<nat>)
    requires Closed(g) && forall i :: 0 <= i < |seeds| ==> seeds[i] < |g|
    ensures cycle.None? ==> IsTopoOrder(g, order)
    ensures cycle.Some? ==> IsChain(g, cycle.value)
    ensures cycle.None? <==> Acyclic(g)
  {
    hide Between, IsChain, Acyclic;
    var n := |g|;
    var color := new Color[n](_ => White);
    order := [];
    cycle := None;
    AllWhite(g, color[..]);
    var all := seeds + seq(n, i => i);
    for s := 0 to |all|
      invariant cycle.None? && Between(g, color[..], order)
      invariant forall i :: 0 <= i < s ==> all[i] in order
    {
      SeedInRange(g, seeds, all, s);
      BetweenColors(g, color[..], order, all[s]);
      if color[all[s]].White? {
        ghost var before := order;
        cycle, order := DfsVisit(g, all[s], color, order);
        if cycle.Some? {
          ChainIsCycle(g, cycle.value);
          return;
        }
        assert forall i :: 0 <= i < s ==> all[i] in before;
        PrefixMembers(before, order);
      }
    }
    forall m: nat | m < |g|
      ensures m in order
    {
      assert all[|seeds| + m] == m;
    }
    BetweenOrdered(g, color[..], order);
    OrderMeansAcyclic(g, order);
  }

  lemma AllWhite(g: Imports, color: seq<Color>)
    requires Closed(g) && |color| == |g| && forall m :: 0 <= m < |g| ==> color[m].White?
    ensures Between(g, color, [])
  {
  }

  lemma BetweenOrdered(g: Imports, color: seq<Color>, order: seq<nat>)
    requires Between(g, color, order)
    ensures Ordered(g, order)
  {
  }

  lemma SeedInRange(g: Imports, seeds: seq<nat>, all: seq<nat>, s: nat)
    requires forall i :: 0 <= i < |seeds| ==> seeds[i] < |g|
    requires all == seeds + seq(|g|, i => i) && s < |all|
    ensures all[s] < |g|
  {
  }

  lemma BetweenColors(g: Imports, color: seq<Color>, order: seq<nat>, m: nat)
    requires Between(g, color, order) && m < |g|
    ensures m < |color| && !color[m].Gray? && (color[m].Black? <==> m in order)
  {
  }

  lemma PrefixMembers(a: seq<nat>, b: seq<nat>)
    requires a <= b
    ensures forall x :: x in a ==> x in b
  {
    assert b == a + b[|a|..];
  }
}
