/** Tarjan's algorithm as `stackifier.rs` uses it: strongly connected components
    become bracketed loops, each of which is split again by a nested run that
    ignores edges out of the component and edges back to its header. */
module TarjanRun {
  import opened ControlFlow
  import opened Linear
  import opened TarjanState

  /** What the emitted forest says about the search that emitted it. */
  ghost predicate OutOk(g: Graph, limit: set<nat>, f: Forest, s: Search) {
    && BlockSet(f) == s.idx.Keys - s.onStack
    && NoRepeat(f)
    && EdgesPlaced(g, f, {}, {}, limit)
    && LoopsCycle(g, f, limit)
  }

  /** What a nested run makes of a component: all of it, its header first. */
  ghost predicate Split(g: Graph, inner: Forest, component: set<nat>, head: nat) {
    && BlockSet(inner) == component
    && NoRepeat(inner)
    && inner.Block? && inner.bb == head
    && EdgesPlaced(g, inner, {}, {}, component - {head})
    && LoopsCycle(g, inner, component - {head})
  }

  /** The edges out of a popped component stay in it or lead to emitted blocks. */
  ghost predicate Closes(g: Graph, limit: set<nat>, component: set<nat>, f: Forest) {
    forall x, w :: x in component && w in Succ(g, x) && Allowed(limit, w) ==> w in component || w in BlockSet(f)
  }

  lemma PushOut(g: Graph, limit: set<nat>, root: nat, f: Forest, s: Search, v: nat)
    requires OutOk(g, limit, f, s) && v !in s.idx && Inv(g, limit, root, s)
    ensures OutOk(g, limit, f, Push(s, v))
  {
    assert Push(s, v).idx.Keys - Push(s, v).onStack == s.idx.Keys - s.onStack;
  }

  lemma LowerOut(g: Graph, limit: set<nat>, f: Forest, s: Search, v: nat, to: nat)
    requires OutOk(g, limit, f, s)
    ensures OutOk(g, limit, f, Lower(s, v, to))
  {
  }

  /** While v is visited the search is not empty. */
  lemma VisitingOpens(g: Graph, limit: set<nat>, root: nat, s0: Search, s: Search, v: nat, i: nat)
    requires Visiting(g, limit, root, s0, s, v, i)
    ensures Inv(g, limit, root, s) && s.idx != map[] && v in s.idx && v in s.onStack && v in s.low && s.idx.Keys == s.low.Keys
  {
  }

  lemma ReturnedOpens(g: Graph, limit: set<nat>, root: nat, s: Search, s': Search, v: nat)
    requires Returned(g, limit, root, s, s', v)
    ensures Inv(g, limit, root, s') && s.idx.Keys <= s'.idx.Keys && v in s'.idx && s'.idx.Keys == s'.low.Keys
  {
  }

  lemma AddBlock(g: Graph, limit: set<nat>, f: Forest, s: Search, s': Search, v: nat)
    requires OutOk(g, limit, f, s) && Closes(g, limit, {v}, f)
    requires s'.idx == s.idx && v in s.idx && v in s.onStack && s'.onStack == s.onStack - {v}
    ensures OutOk(g, limit, Block(v, f), s')
  {
  }

  lemma AddLoop(g: Graph, limit: set<nat>, f: Forest, s: Search, s': Search, v: nat, inner: Forest, component: set<nat>)
    requires OutOk(g, limit, f, s) && Closes(g, limit, component, f)
    requires Split(g, inner, component, v) && component != {v} && v in component
    requires forall x :: x in component ==> ReachIn(g, limit, v, x) && ReachIn(g, limit, x, v)
    requires s'.idx == s.idx && component <= s.idx.Keys && component <= s.onStack
    requires s'.onStack == s.onStack - component
    ensures OutOk(g, limit, Loop(v, inner, f), s')
  {
    var x :| x in component && x != v;
    assert x in component - {v};
    hide ReachIn;
    EdgesPlacedWiden(g, inner, {}, {}, component - {v}, {v}, BlockSet(f), limit);
    assert {} + {v} == {v};
    assert {} + BlockSet(f) == BlockSet(f);
  }

  /** Every stacked block from b up is in a closed set that holds stack[b]. */
  lemma {:induction false} ComponentReached(g: Graph, stack: seq<nat>, b: nat, p: nat, inside: set<nat>, limit: set<nat>)
    requires b <= p < |stack| && stack[b] in inside
    requires forall q :: b < q < |stack| ==> HasParent(g, stack, b, q) && stack[q] in limit
    requires forall x, w :: x in inside && w in Succ(g, x) && w in limit ==> w in inside
    ensures stack[p] in inside
    decreases p
  {
    if p > b {
      assert HasParent(g, stack, b, p);
      var q :| b <= q < p && stack[p] in Succ(g, stack[q]);
      ComponentReached(g, stack, b, q, inside, limit);
    }
  }

  // ---- A block that both branches of one block lead to, and nothing else.

  /** Both branches of v lead to x, which no other block of the universe leads to. */
  ghost predicate Sole(g: Graph, limit: set<nat>, root: nat, universe: set<nat>, v: nat, x: nat) {
    && v < |g| && g[v] == If(x, x) && Allowed(limit, x) && x != root && x != v
    && forall p :: p in universe && x in Succ(g, p) ==> p == v
  }

  /** The forest starts with x, alone or as the header of a loop. */
  predicate Heads(f: Forest, x: nat) {
    (f.Block? && f.bb == x) || (f.Loop? && f.head == x)
  }

  /** A loop is entered at its header: something outside leads there. */
  ghost predicate EnteredAt(g: Graph, root: nat, head: nat, blocks: set<nat>) {
    head == root || exists p :: p !in blocks && head in Succ(g, p)
  }

  /** Outside loops, what only v leads to comes directly after v; and loops are
      entered at their headers. */
  ghost predicate SoleOk(g: Graph, limit: set<nat>, root: nat, universe: set<nat>, f: Forest) {
    match f
    case End => true
    case Block(v, rest) =>
      (forall x :: Sole(g, limit, root, universe, v, x) ==> Heads(rest, x)) && SoleOk(g, limit, root, universe, rest)
    case Loop(head, body, rest) => EnteredAt(g, root, head, BlockSet(body)) && SoleOk(g, limit, root, universe, rest)
  }

  /** Every block but the root was found from another one. */
  ghost predicate Found(g: Graph, root: nat, keys: set<nat>) {
    forall x :: x in keys ==> x == root || FoundFrom(g, keys, x)
  }

  ghost predicate FoundFrom(g: Graph, keys: set<nat>, x: nat) {
    exists p :: p in keys && x in Succ(g, p)
  }

  /** While i successors of v have been handled: what only v leads to is new until
      v leads there, and then either stacked above v or emitted last. */
  ghost predicate SoleSeen(g: Graph, limit: set<nat>, root: nat, universe: set<nat>, f: Forest,
                           keys: set<nat>, onStack: set<nat>, v: nat, i: nat)
  {
    forall x :: Sole(g, limit, root, universe, v, x) ==>
      if i == 0 then x !in keys else x in onStack || Heads(f, x)
  }

  lemma EnterSole(g: Graph, limit: set<nat>, root: nat, universe: set<nat>, f: Forest, keys: set<nat>, onStack: set<nat>, v: nat)
    requires Found(g, root, keys) && keys <= universe && v !in keys
    requires keys == {} ==> v == root
    requires keys != {} ==> FoundFrom(g, keys, v)
    ensures Found(g, root, keys + {v}) && SoleSeen(g, limit, root, universe, f, keys + {v}, onStack, v, 0)
  {
    forall x | x in keys + {v}
      ensures x == root || FoundFrom(g, keys + {v}, x)
    {
      if x != root {
        assert FoundFrom(g, keys, x);
        var p :| p in keys && x in Succ(g, p);
        assert p in keys + {v};
      }
    }
    forall x | Sole(g, limit, root, universe, v, x)
      ensures x !in keys + {v}
    {
      assert x in keys ==> FoundFrom(g, keys, x);
    }
  }

  lemma CallSole(g: Graph, limit: set<nat>, root: nat, universe: set<nat>, f: Forest, keys: set<nat>, onStack: set<nat>,
                 v: nat, i: nat)
    requires i < |Succ(g, v)| && (Succ(g, v)[i] in onStack || Heads(f, Succ(g, v)[i]))
    ensures SoleSeen(g, limit, root, universe, f, keys, onStack, v, i + 1)
  {
  }

  lemma SkipSole(g: Graph, limit: set<nat>, root: nat, universe: set<nat>, f: Forest, keys: set<nat>, onStack: set<nat>,
                 v: nat, i: nat)
    requires SoleSeen(g, limit, root, universe, f, keys, onStack, v, i)
    requires i < |Succ(g, v)| && (!Allowed(limit, Succ(g, v)[i]) || Succ(g, v)[i] in keys)
    ensures SoleSeen(g, limit, root, universe, f, keys, onStack, v, i + 1)
  {
  }

  lemma BlockSole(g: Graph, limit: set<nat>, root: nat, universe: set<nat>, f: Forest, keys: set<nat>, onStack: set<nat>, v: nat)
    requires SoleSeen(g, limit, root, universe, f, keys, onStack, v, |Succ(g, v)|) && SoleOk(g, limit, root, universe, f)
    requires Closes(g, limit, {v}, f) && BlockSet(f) == keys - onStack
    ensures SoleOk(g, limit, root, universe, Block(v, f))
  {
    forall x | Sole(g, limit, root, universe, v, x)
      ensures Heads(f, x)
    {
      assert |Succ(g, v)| == 2 && x in Succ(g, v);
    }
  }

  /** The blocks of a component are newer than what its header was found from. */
  lemma ComponentEntered(g: Graph, limit: set<nat>, root: nat, s0: Search, s: Search, v: nat, inner: Forest)
    requires StackOk(s0) && Visiting(g, limit, root, s0, s, v, |Succ(g, v)|)
    requires v == root || FoundFrom(g, s0.idx.Keys, v)
    requires BlockSet(inner) == Members(s.stack[|s0.stack|..])
    ensures EnteredAt(g, root, v, BlockSet(inner))
  {
    hide LeftOk, RootOk, Above, LowTarget, SuccOk, ReachIn;
    var component := s.stack[|s0.stack|..];
    if v != root {
      var p :| p in s0.idx.Keys && v in Succ(g, p);
      forall q | 0 <= q < |component|
        ensures component[q] != p
      {
        assert s.idx[component[0]] == s0.index;
        assert q > 0 ==> s.idx[component[0]] < s.idx[component[q]];
      }
    }
  }

  lemma OutBlocks(g: Graph, limit: set<nat>, f: Forest, s: Search)
    requires OutOk(g, limit, f, s)
    ensures BlockSet(f) == s.idx.Keys - s.onStack
  {
  }

  lemma LoopSole(g: Graph, limit: set<nat>, root: nat, universe: set<nat>, v: nat, inner: Forest, f: Forest)
    requires SoleOk(g, limit, root, universe, f) && EnteredAt(g, root, v, BlockSet(inner))
    ensures SoleOk(g, limit, root, universe, Loop(v, inner, f))
  {
  }

  /** The output shared by a run and the runs nested in it. */
  class ItemBuffer {
    var items: seq<SeqItem>

    constructor ()
      ensures items == []
    {
      items := [];
    }

    method Push(item: SeqItem)
      modifies this
      ensures items == old(items) + [item]
    {
      items := items + [item];
    }
  }

  class Tarjan {
    const g: Graph
    const out: ItemBuffer
    const limitTo: set<nat>
    var index: nat
    var stack: seq<nat>
    var vIndex: map<nat, nat>
    var vLowlink: map<nat, nat>
    var vOnStack: set<nat>

    // The block the run starts from, the blocks it may visit, what was emitted
    // before it, and the forest of what it has emitted itself.
    ghost const root: nat
    ghost const universe: set<nat>
    ghost const before: seq<SeqItem>
    ghost var forest: Forest

    ghost function S(): Search
      reads this
    {
      Search(index, stack, vIndex, vLowlink, vOnStack)
    }

    /** Runs nest no deeper than this. */
    ghost function Bound(): nat {
      if limitTo == {} then |universe| + 1 else |limitTo|
    }

    ghost predicate WellPlaced() {
      && Complete(g)
      && (forall x :: x in universe ==> x < |g|)
      && (forall x, w :: x in universe && w in Succ(g, x) && Allowed(limitTo, w) ==> w in universe)
    }

    ghost predicate Valid()
      reads this, out
    {
      && WellPlaced()
      && Inv(g, limitTo, root, S())
      && vIndex.Keys <= universe
      && OutOk(g, limitTo, forest, S())
      && out.items == before + Rev(Flat(forest))
      && Found(g, root, vIndex.Keys)
      && SoleOk(g, limitTo, root, universe, forest)
    }

    constructor (g: Graph, out: ItemBuffer, limitTo: set<nat>, ghost root: nat, ghost universe: set<nat>)
      requires Complete(g) && root !in limitTo
      requires forall x :: x in universe ==> x < |g|
      requires forall x, w :: x in universe && w in Succ(g, x) && Allowed(limitTo, w) ==> w in universe
      ensures Valid() && this.g == g && this.out == out && this.limitTo == limitTo
      ensures this.root == root && this.universe == universe && before == out.items
      ensures forest == End && S() == Search(0, [], map[], map[], {})
    {
      this.g, this.out, this.limitTo := g, out, limitTo;
      this.root, this.universe, this.before := root, universe, out.items;
      index, stack, vIndex, vLowlink, vOnStack := 0, [], map[], map[], {};
      forest := End;
    }

    /** Visit v and everything looked at from it. Afterwards v, with all blocks
        stacked above it, has been emitted as a component, or v is settled on
        the stack. */
    method StrongConnect(v: nat)
      requires Valid() && v in universe && v !in vIndex
      requires if vIndex == map[] then v == root else Allowed(limitTo, v) && FoundFrom(g, vIndex.Keys, v)
      modifies this, out
      ensures Valid() && Returned(g, limitTo, root, old(S()), S(), v)
      ensures v !in vOnStack ==>
                || (forest.Block? && forest.bb == v)
                || (forest.Loop? && forest.head == v && !(limitTo != {} && v == root))
      decreases Bound(), |universe - vIndex.Keys|, 0
    {
      hide StackOk, LeftOk, RootOk, Above, Settled, LowTarget, SuccOk, ReachIn, OutOk, Grown, Visiting, Returned,
           SoleOk, Sole, SoleSeen, Found, FoundFrom;
      ghost var s0 := S();
      Enter(v);
      var successors := Successors(g[v]);
      for i := 0 to |successors|
        invariant successors == Succ(g, v)
        invariant Valid() && Visiting(g, limitTo, root, s0, S(), v, i)
        invariant SoleSeen(g, limitTo, root, universe, forest, vIndex.Keys, vOnStack, v, i)
        invariant |universe - vIndex.Keys| < |universe - s0.idx.Keys|
      {
        Consider(s0, v, i, successors[i]);
      }
      VisitingOpens(g, limitTo, root, s0, S(), v, |successors|);
      if vLowlink[v] == vIndex[v] {
        EmitComponent(s0, v);
      } else {
        StayReturns(g, limitTo, root, s0, S(), v);
      }
    }

    /** Number v and put it on the stack. */
    method Enter(v: nat)
      requires Valid() && v in universe && v !in vIndex
      requires if vIndex == map[] then v == root else Allowed(limitTo, v) && FoundFrom(g, vIndex.Keys, v)
      modifies `index, `stack, `vIndex, `vLowlink, `vOnStack
      ensures Valid() && Visiting(g, limitTo, root, old(S()), S(), v, 0)
      ensures SoleSeen(g, limitTo, root, universe, forest, vIndex.Keys, vOnStack, v, 0)
      ensures |universe - vIndex.Keys| < old(|universe - vIndex.Keys|)
    {
      hide OutOk, Visiting, Complete, Successors, Flat, Rev, Inv, Allowed, SoleOk, Sole, SoleSeen, Found, FoundFrom;
      EnterAll(g, limitTo, root, universe, forest, S(), v);
      EnterSole(g, limitTo, root, universe, forest, vIndex.Keys, vOnStack + {v}, v);
      NewIndex(v);
    }

    method NewIndex(v: nat)
      modifies `index, `stack, `vIndex, `vLowlink, `vOnStack
      ensures S() == Push(old(S()), v) && vOnStack == old(vOnStack) + {v} && vIndex.Keys == old(vIndex.Keys) + {v}
    {
      vIndex := vIndex[v := index];
      vLowlink := vLowlink[v := index];
      index := index + 1;
      stack := stack + [v];
      vOnStack := vOnStack + {v};
    }

    method LowerTo(v: nat, to: nat)
      modifies `vLowlink
      ensures S() == Lower(old(S()), v, to)
    {
      vLowlink := vLowlink[v := to];
    }

    /** Look at the i-th successor w of v. */
    method Consider(ghost s0: Search, v: nat, ghost i: nat, w: nat)
      requires Valid() && Visiting(g, limitTo, root, s0, S(), v, i)
      requires i < |Succ(g, v)| && w == Succ(g, v)[i] && v in universe
      requires SoleSeen(g, limitTo, root, universe, forest, vIndex.Keys, vOnStack, v, i)
      modifies this, out
      ensures Valid() && Visiting(g, limitTo, root, s0, S(), v, i + 1)
      ensures SoleSeen(g, limitTo, root, universe, forest, vIndex.Keys, vOnStack, v, i + 1)
      ensures |universe - vIndex.Keys| <= old(|universe - vIndex.Keys|)
      decreases Bound(), |universe - vIndex.Keys|, 2
    {
      hide StackOk, LeftOk, RootOk, Above, Settled, LowTarget, SuccOk, ReachIn, OutOk, Visiting, SoleOk, Sole, SoleSeen, Found;
      ghost var s := S();
      VisitingOpens(g, limitTo, root, s0, s, v, i);
      if limitTo != {} && w !in limitTo {
        SkipKeeps(g, limitTo, root, s0, s, v, i);
        SkipSole(g, limitTo, root, universe, forest, vIndex.Keys, vOnStack, v, i);
      } else if w !in vIndex {
        Descend(s0, v, i, w);
      } else if w in vOnStack {
        BackEdgeKeeps(g, limitTo, root, s0, s, v, i);
        SkipSole(g, limitTo, root, universe, forest, vIndex.Keys, vOnStack, v, i);
        LowerOut(g, limitTo, forest, s, v, Min(s.low[v], s.idx[w]));
        LowerTo(v, Min(vLowlink[v], vIndex[w]));
        VisitingOpens(g, limitTo, root, s0, S(), v, i + 1);
      } else {
        SkipKeeps(g, limitTo, root, s0, s, v, i);
        SkipSole(g, limitTo, root, universe, forest, vIndex.Keys, vOnStack, v, i);
      }
    }

    /** Visit a successor that has no number yet. */
    method Descend(ghost s0: Search, v: nat, ghost i: nat, w: nat)
      requires Valid() && Visiting(g, limitTo, root, s0, S(), v, i)
      requires i < |Succ(g, v)| && w == Succ(g, v)[i] && v in universe && Allowed(limitTo, w) && w !in vIndex
      modifies this, out
      ensures Valid() && Visiting(g, limitTo, root, s0, S(), v, i + 1)
      ensures SoleSeen(g, limitTo, root, universe, forest, vIndex.Keys, vOnStack, v, i + 1)
      ensures |universe - vIndex.Keys| <= old(|universe - vIndex.Keys|)
      decreases Bound(), |universe - vIndex.Keys|, 1
    {
      hide StackOk, LeftOk, RootOk, Inv, Above, Settled, LowTarget, SuccOk, ReachIn, OutOk, Visiting, Returned, SoleOk, Sole,
           SoleSeen, Found, Rev, Flat;
      ghost var s := S();
      VisitingOpens(g, limitTo, root, s0, s, v, i);
      assert FoundFrom(g, vIndex.Keys, w);
      StrongConnect(w);
      CallSole(g, limitTo, root, universe, forest, vIndex.Keys, vOnStack, v, i);
      ghost var s1 := S();
      ReturnedOpens(g, limitTo, root, s, s1, w);
      SubsetSize(universe - s1.idx.Keys, universe - s.idx.Keys);
      CallKeeps(g, limitTo, root, s0, s, s1, v, i);
      LowerOut(g, limitTo, forest, s1, v, Min(s1.low[v], s1.low[w]));
      LowerTo(v, Min(vLowlink[v], vLowlink[w]));
      VisitingOpens(g, limitTo, root, s0, S(), v, i + 1);
    }

    /** Pop the component rooted at v off the stack and emit it. */
    method EmitComponent(ghost s0: Search, v: nat)
      requires Valid() && v in universe && StackOk(s0)
      requires Visiting(g, limitTo, root, s0, S(), v, |Succ(g, v)|) && vLowlink[v] == vIndex[v]
      requires SoleSeen(g, limitTo, root, universe, forest, vIndex.Keys, vOnStack, v, |Succ(g, v)|)
      requires v == root || FoundFrom(g, s0.idx.Keys, v)
      modifies this, out
      ensures Valid() && Returned(g, limitTo, root, s0, S(), v) && v !in vOnStack
      ensures || (forest.Block? && forest.bb == v)
              || (forest.Loop? && forest.head == v && !(limitTo != {} && v == root))
      decreases Bound(), 0, 1
    {
      hide Returned, Visiting, Inv, OutOk, Closes, Component, ReachIn, StackOk, Split, Flat, Rev, SoleOk, Sole, SoleSeen, Found,
           FoundFrom, EnteredAt;
      ghost var s := S();
      ghost var b := |s0.stack|;
      ComponentReady(g, limitTo, root, universe, forest, s0, s, v);
      ghost var component := s.stack[b..];
      var scc := PopComponent(s, b, v);
      ghost var inner := OnScc(scc, component, v);
      FlatRev(v, inner, forest);
      if |scc| == 1 {
        assert Members(component) == {v};
        AddBlock(g, limitTo, forest, s, S(), v);
        OutBlocks(g, limitTo, forest, s);
        BlockSole(g, limitTo, root, universe, forest, s.idx.Keys, s.onStack, v);
        forest := Block(v, forest);
      } else {
        AddLoop(g, limitTo, forest, s, S(), v, inner, Members(component));
        ComponentEntered(g, limitTo, root, s0, s, v, inner);
        LoopSole(g, limitTo, root, universe, v, inner, forest);
        forest := Loop(v, inner, forest);
      }
    }

    /** Pop blocks off the stack until v. */
    method PopComponent(ghost s: Search, ghost b: nat, v: nat) returns (scc: seq<nat>)
      requires S() == s && StackOk(s) && b < |stack| && stack[b] == v
      modifies this`stack, this`vOnStack
      ensures S() == Pop(s, b) && scc == Rev(s.stack[b..])
    {
      StackIsSet(s);
      hide StackOk;
      scc := [];
      while true
        invariant b < |stack| <= |s.stack| && stack == s.stack[..|stack|]
        invariant S() == s.(stack := stack, onStack := vOnStack)
        invariant vOnStack == Members(stack)
        invariant scc == Rev(s.stack[|stack|..])
        decreases |stack|
      {
        ghost var n := |stack| - 1;
        var w := stack[|stack| - 1];
        assert w !in s.stack[..n];
        stack := stack[..|stack| - 1];
        vOnStack := vOnStack - {w};
        scc := scc + [w];
        assert s.stack[n..] == [w] + s.stack[n + 1..];
        if w == v {
          break;
        }
      }
      assert s.stack[b] == s.stack[|stack|];
    }

    /** Emit one component: a single block as it is, several as a loop whose
        inside a nested run linearises. */
    method OnScc(scc: seq<nat>, ghost component: seq<nat>, ghost head: nat) returns (ghost inner: Forest)
      requires WellPlaced() && Component(g, component, head) && scc == Rev(component)
      requires forall x :: x in component ==> x in universe
      requires |component| > 1 ==> |component| - 1 < Bound()
      modifies out
      ensures if |scc| == 1 then out.items == old(out.items) + [Basic(head)]
              else && out.items == old(out.items) + [EndLoop(head)] + Rev(Flat(inner)) + [StartLoop(head)]
                   && Split(g, inner, Members(component), head)
      decreases Bound(), 0, 0
    {
      var v := scc[|scc| - 1];
      inner := End;
      if |scc| > 1 {
        ghost var all := Members(component);
        assert all == Members(scc) by { RevMembers(component); }
        var limitTo' := Members(scc) - {v};
        LimitSize(component, v);
        out.Push(EndLoop(v));
        var nested := new Tarjan(g, out, limitTo', v, all);
        nested.StrongConnect(v);
        NestedSplits(g, limitTo', component, v, nested.S(), nested.forest);
        inner := nested.forest;
        out.Push(StartLoop(v));
      } else {
        out.Push(Basic(v));
      }
    }
  }

  function Members(s: seq<nat>): set<nat> {
    set x | x in s
  }

  /** Different blocks, the header first, each a successor of an earlier one. */
  ghost predicate Component(g: Graph, component: seq<nat>, head: nat) {
    && |component| > 0 && component[0] == head
    && (forall p, q :: 0 <= p < q < |component| ==> component[p] != component[q])
    && (forall q :: 0 < q < |component| ==> HasParent(g, component, 0, q))
  }

  /** All that emitting a component relies on. */
  lemma ComponentReady(g: Graph, limit: set<nat>, root: nat, universe: set<nat>, f: Forest, s0: Search, s: Search, v: nat)
    requires StackOk(s0) && s.idx.Keys <= universe && OutOk(g, limit, f, s)
    requires Visiting(g, limit, root, s0, s, v, |Succ(g, v)|) && s.low[v] == s.idx[v]
    ensures StackOk(s) && |s.stack| > |s0.stack| && s.stack[|s0.stack|] == v
    ensures var b := |s0.stack|; var component := s.stack[b..];
            && Component(g, component, v) && Members(component) <= universe
            && (|component| == 1 <==> Members(component) == {v})
            && v in Members(component) && Members(component) <= s.onStack && Members(component) <= s.idx.Keys
            && Returned(g, limit, root, s0, Pop(s, b), v) && Inv(g, limit, root, Pop(s, b))
            && Pop(s, b).onStack == s.onStack - Members(component)
            && Closes(g, limit, Members(component), f)
            && (forall x :: x in Members(component) ==> ReachIn(g, limit, v, x) && ReachIn(g, limit, x, v))
            && (|component| > 1 ==>
                 |component| - 1 < (if limit == {} then |universe| + 1 else |limit|) && !(limit != {} && v == root))
  {
    var b := |s0.stack|;
    ComponentFacts(g, limit, root, universe, s0, s, v);
    ComponentSize(g, limit, root, universe, s0, s, v);
    PopReturns(g, limit, root, s0, s, v);
    PoppedOnStack(s0, s);
    PoppedIsCycle(g, limit, root, s0, s, v);
    ComponentCloses(g, limit, root, f, s0, s, v);
    hide StackOk, LeftOk, RootOk, Above, Settled, LowTarget, SuccOk, ReachIn, Grown, OutOk, Closes;
    var component := s.stack[b..];
    assert component[0] == v;
    if |component| > 1 {
      assert component[1] in Members(component);
    }
  }

  lemma ComponentCloses(g: Graph, limit: set<nat>, root: nat, f: Forest, s0: Search, s: Search, v: nat)
    requires OutOk(g, limit, f, s)
    requires Visiting(g, limit, root, s0, s, v, |Succ(g, v)|) && s.low[v] == s.idx[v]
    ensures Closes(g, limit, Popped(s, |s0.stack|), f)
  {
    hide Above, ReachIn, LowTarget, LeftOk, RootOk, EdgesPlaced, LoopsCycle, NoRepeat, Settled, Grown;
    assert Succ(g, v)[..|Succ(g, v)|] == Succ(g, v);
    PoppedCloses(g, limit, s, v, |s0.stack|);
  }

  /** What the invariant of a finished call says about its component. */
  lemma ComponentFacts(g: Graph, limit: set<nat>, root: nat, universe: set<nat>, s0: Search, s: Search, v: nat)
    requires StackOk(s0) && s.idx.Keys <= universe
    requires Visiting(g, limit, root, s0, s, v, |Succ(g, v)|) && s.low[v] == s.idx[v]
    ensures var b := |s0.stack|; var component := s.stack[b..];
            && Component(g, component, v) && Popped(s, b) == Members(component)
            && Members(component) <= universe
  {
    hide LeftOk, RootOk, Settled, ReachIn, SuccOk, LowTarget;
    var b := |s0.stack|;
    var component := s.stack[b..];
    assert forall q :: b < q < |s.stack| ==> HasParent(g, s.stack, b, q);
    ParentsShift(g, s.stack, b);
    hide HasParent, Above;
    assert forall p, q :: 0 <= p < q < |component| ==> s.idx[component[p]] < s.idx[component[q]];
    PoppedMembers(s, b);
  }

  lemma ParentsShift(g: Graph, stack: seq<nat>, b: nat)
    requires b <= |stack| && forall q :: b < q < |stack| ==> HasParent(g, stack, b, q)
    ensures forall q :: 0 < q < |stack[b..]| ==> HasParent(g, stack[b..], 0, q)
  {
    var component := stack[b..];
    forall q | 0 < q < |component|
      ensures HasParent(g, component, 0, q)
    {
      assert component[q] == stack[b + q];
      assert HasParent(g, stack, b, b + q);
      var r :| b <= r < b + q && stack[b + q] in Succ(g, stack[r]);
      assert component[r - b] == stack[r];
    }
  }

  lemma PoppedMembers(s: Search, b: nat)
    requires StackOk(s) && b <= |s.stack|
    ensures Popped(s, b) == Members(s.stack[b..]) && Popped(s, b) <= s.idx.Keys
  {
    var component := s.stack[b..];
    forall x | x in Popped(s, b)
      ensures x in component
    {
      var p :| b <= p < |s.stack| && s.stack[p] == x;
      assert component[p - b] == x;
    }
    forall x | x in component
      ensures x in Popped(s, b)
    {
      var p :| 0 <= p < |component| && component[p] == x;
      assert s.stack[b + p] == x;
    }
  }

  ghost predicate FirstNumbered(s: Search) {
    s.stack != [] ==> s.stack[0] in s.idx && s.idx[s.stack[0]] < s.index
  }

  /** The root is entered with an empty stack. */
  lemma RootFirst(limit: set<nat>, root: nat, s0: Search, s: Search)
    requires StackOk(s0) && Grown(s0, s) && RootOk(limit, root, s) && root in s.idx && s.idx[root] == s0.index
    ensures s0.stack == []
  {
    assert FirstNumbered(s0);
  }

  /** Components get strictly smaller from run to nested run. */
  lemma ComponentSize(g: Graph, limit: set<nat>, root: nat, universe: set<nat>, s0: Search, s: Search, v: nat)
    requires StackOk(s0) && s.idx.Keys <= universe
    requires Visiting(g, limit, root, s0, s, v, |Succ(g, v)|) && s.low[v] == s.idx[v]
    ensures var n := |s.stack| - |s0.stack|;
            n > 1 ==> n - 1 < (if limit == {} then |universe| + 1 else |limit|) && !(limit != {} && v == root)
  {
    hide LeftOk, Settled, ReachIn, SuccOk, LowTarget, Above;
    var b := |s0.stack|;
    var component := s.stack[b..];
    assert forall p, q :: 0 <= p < q < |component| ==> s.idx[component[p]] < s.idx[component[q]];
    DistinctSize(component);
    if limit == {} {
      assert Members(component) <= universe;
      SubsetSize(Members(component), universe);
    } else if v == root {
      RootFirst(limit, root, s0, s);
      RootPopsAlone(g, limit, root, s0, s);
    } else {
      assert forall p :: 0 < p < |component| ==> s.idx[component[p]] > s.idx[v];
      forall x | x in component
        ensures x in limit
      {
        assert s.idx[x] >= s.idx[v];
      }
      SubsetSize(Members(component), limit);
    }
  }

  lemma RevMembers(s: seq<nat>)
    ensures Members(s) == Members(Rev(s))
  {
    forall x | x in s
      ensures x in Rev(s)
    {
      var i :| 0 <= i < |s| && s[i] == x;
      assert Rev(s)[|s| - 1 - i] == x;
    }
  }

  lemma RevLoop<T>(a: T, b: seq<T>, c: T, d: seq<T>)
    ensures Rev([a] + b + [c] + d) == Rev(d) + [c] + Rev(b) + [a]
  {
    var l, r := Rev([a] + b + [c] + d), Rev(d) + [c] + Rev(b) + [a];
    assert |l| == |r|;
    assert forall i :: 0 <= i < |l| ==> l[i] == r[i];
  }

  lemma FlatRev(v: nat, inner: Forest, f: Forest)
    ensures Rev(Flat(Block(v, f))) == Rev(Flat(f)) + [Basic(v)]
    ensures Rev(Flat(Loop(v, inner, f))) == Rev(Flat(f)) + [EndLoop(v)] + Rev(Flat(inner)) + [StartLoop(v)]
  {
    RevLoop(StartLoop(v), Flat(inner), EndLoop(v), Flat(f));
  }

  lemma {:induction false} DistinctSize(s: seq<nat>)
    requires forall p, q :: 0 <= p < q < |s| ==> s[p] != s[q]
    ensures |Members(s)| == |s|
  {
    if s != [] {
      var n := |s| - 1;
      DistinctSize(s[..n]);
      assert Members(s) == Members(s[..n]) + {s[n]};
    }
  }

  lemma LimitSize(component: seq<nat>, v: nat)
    requires forall p, q :: 0 <= p < q < |component| ==> component[p] != component[q]
    requires v in component
    ensures |Members(component) - {v}| == |component| - 1
  {
    DistinctSize(component);
  }

  lemma NestedEmpties(g: Graph, limit: set<nat>, v: nat, s: Search)
    requires Returned(g, limit, v, Search(0, [], map[], map[], {}), s, v)
    ensures s.stack == [] && s.onStack == {} && v in s.idx
    ensures forall x, w :: x in s.idx && w in Succ(g, x) && Allowed(limit, w) ==> w in s.idx
  {
    hide SuccOk, ReachIn, Above;
  }

  /** A finished nested run has emitted the whole component, header first. */
  lemma NestedSplits(g: Graph, limit: set<nat>, component: seq<nat>, v: nat, s: Search, f: Forest)
    requires Component(g, component, v) && |component| > 1
    requires limit == Members(component) - {v}
    requires s.idx.Keys <= Members(component) && OutOk(g, limit, f, s)
    requires Returned(g, limit, v, Search(0, [], map[], map[], {}), s, v)
    requires v !in s.onStack ==> (f.Block? && f.bb == v) || (f.Loop? && f.head == v && limit == {})
    ensures Split(g, f, Members(component), v)
  {
    assert component[1] in limit;
    NestedEmpties(g, limit, v, s);
    hide Returned, LoopsCycle, EdgesPlaced, NoRepeat;
    NestedReaches(g, limit, component, v, s.idx.Keys);
  }

  /** What is closed inside the component and holds its header is all of it. */
  lemma NestedReaches(g: Graph, limit: set<nat>, component: seq<nat>, v: nat, inside: set<nat>)
    requires Component(g, component, v) && limit == Members(component) - {v} && v in inside
    requires forall x, w :: x in inside && w in Succ(g, x) && w in limit ==> w in inside
    ensures Members(component) <= inside
  {
    forall p | 0 <= p < |component|
      ensures component[p] in inside
    {
      ComponentReached(g, component, 0, p, inside, limit);
    }
  }

  /** Everything that entering v keeps. */
  lemma EnterAll(g: Graph, limit: set<nat>, root: nat, universe: set<nat>, f: Forest, s: Search, v: nat)
    requires Inv(g, limit, root, s) && OutOk(g, limit, f, s) && v in universe && v !in s.idx && s.idx.Keys <= universe
    requires if s.idx == map[] then v == root else Allowed(limit, v)
    ensures var s' := Push(s, v);
            && Inv(g, limit, root, s') && OutOk(g, limit, f, s') && s'.idx.Keys <= universe
            && Visiting(g, limit, root, s, s', v, 0) && |universe - s'.idx.Keys| < |universe - s.idx.Keys|
  {
    hide StackOk, LeftOk, RootOk, OutOk, Visiting;
    EnterKeeps(g, limit, root, s, v);
    VisitingOpens(g, limit, root, s, Push(s, v), v, 0);
    PushOut(g, limit, root, f, s, v);
    FewerLeft(universe, s.idx, v, s.index);
  }

  lemma FewerLeft(universe: set<nat>, m: map<nat, nat>, v: nat, n: nat)
    requires v in universe && v !in m
    ensures |universe - m[v := n].Keys| < |universe - m.Keys|
  {
    assert v in universe - m.Keys;
    SmallerSet(universe - m[v := n].Keys, universe - m.Keys);
  }

  lemma SmallerSet<T>(a: set<T>, b: set<T>)
    requires a < b
    ensures |a| < |b|
  {
    assert b - a != {} by {
      assert a + (b - a) == b;
    }
    var x :| x in b - a;
    assert a <= b - {x};
    assert |b - {x}| == |b| - 1;
    SubsetSize(a, b - {x});
  }

  lemma SubsetSize<T>(a: set<T>, b: set<T>)
    requires a <= b
    ensures |a| <= |b|
  {
    assert b == a + (b - a);
    assert |a + (b - a)| == |a| + |b - a|;
  }

  // ---- The whole linearisation.

  /** Everything a linearisation of the blocks reachable from an entry is. */
  ghost predicate Linearised(g: Graph, entry: nat, f: Forest) {
    && BlockSet(f) == Reachable(g, entry)
    && NoRepeat(f)
    && EdgesPlaced(g, f, {}, {}, {})
    && LoopsCycle(g, f, {})
    && Heads(f, entry)
    && SoleOk(g, {}, entry, Reachable(g, entry), f)
  }

  /** Linearise the blocks reachable from the entry, outermost run first; the
      runs emit in reverse order. */
  method Linearise(g: Graph, entry: nat) returns (items: seq<SeqItem>, ghost f: Forest)
    requires Complete(g) && entry < |g|
    ensures items == Flat(f) && Linearised(g, entry, f)
  {
    hide OutOk, Inv, Returned, Linearised, ReachIn, SoleOk;
    ReachableIsClosed(g, entry);
    ReachableInGraph(g, entry);
    var out := new ItemBuffer();
    var tarjan := new Tarjan(g, out, {}, entry, Reachable(g, entry));
    tarjan.StrongConnect(entry);
    f := tarjan.forest;
    items := Rev(out.items);
    TopFacts(g, entry, tarjan.S(), f);
    RevTwice(Flat(f));
    assert [] + Rev(Flat(f)) == Rev(Flat(f));
  }

  /** The outermost run leaves nothing on its stack and reaches everything. */
  lemma TopFacts(g: Graph, entry: nat, s: Search, f: Forest)
    requires OutOk(g, {}, f, s) && s.idx.Keys <= Reachable(g, entry)
    requires Returned(g, {}, entry, Search(0, [], map[], map[], {}), s, entry)
    requires entry !in s.onStack ==> Heads(f, entry)
    requires SoleOk(g, {}, entry, Reachable(g, entry), f)
    ensures Linearised(g, entry, f)
  {
    NestedEmpties(g, {}, entry, s);
    hide ReachIn, EdgesPlaced, NoRepeat, LoopsCycle, Returned;
    ReachableIsLeast(g, entry, s.idx.Keys);
  }

  lemma ReachableInGraph(g: Graph, entry: nat)
    ensures forall x :: x in Reachable(g, entry) ==> x < |g|
  {
  }

  /** Read off positions: each reachable block, and no other, stands in exactly
      one place, and every edge goes to a later place, to the header of a loop
      around its source, or is the edge to itself of a block without a loop. */
  lemma LinearisedPlaces(g: Graph, entry: nat, f: Forest)
    requires Linearised(g, entry, f)
    ensures var items := Flat(f);
            && (forall b :: b in Reachable(g, entry) <==> Basic(b) in items)
            && (forall i, j, b :: IsBasic(items, i, b) && IsBasic(items, j, b) ==> i == j)
            && (forall i, b, w :: IsBasic(items, i, b) && w in Succ(g, b) ==> EdgeGoes(items, i, b, w))
  {
    hide NoRepeat, EdgesPlaced, LoopsCycle, Reachable, Later, InLoopOf;
    var items := Flat(f);
    forall b
      ensures b in BlockSet(f) <==> Basic(b) in items
    {
      BlockSetIsFlat(f, b);
    }
    forall i, j, b | IsBasic(items, i, b) && IsBasic(items, j, b)
      ensures i == j
    {
      NoRepeatOnePlace(f, i, j, b);
    }
    forall i, b, w | IsBasic(items, i, b) && w in Succ(g, b)
      ensures EdgeGoes(items, i, b, w)
    {
      PlacedEdgeLands(g, f, i, b, w, {}, {});
      if w == b && StartLoop(b) in items {
        HeaderInside(g, f, {}, {}, {}, i, b);
      }
    }
  }

  /** In an acyclic graph there are no loops, and every edge goes forward. */
  lemma AcyclicPlaces(g: Graph, entry: nat, f: Forest)
    requires Linearised(g, entry, f) && Acyclic(g)
    ensures LoopFree(f)
    ensures forall i, b, w :: IsBasic(Flat(f), i, b) && w in Succ(g, b) ==>
              exists j :: i < j && IsBasic(Flat(f), j, w)
  {
    AcyclicIsLoopFree(g, f, {});
    LinearisedPlaces(g, entry, f);
    forall i, b, w | IsBasic(Flat(f), i, b) && w in Succ(g, b)
      ensures exists j :: i < j && IsBasic(Flat(f), j, w)
    {
      assert EdgeGoes(Flat(f), i, b, w);
      ReachSelf(g, b);
      LoopFreeHasNoStart(f);
    }
  }

  lemma {:induction false} LoopFreeHasNoStart(f: Forest)
    requires LoopFree(f)
    ensures forall i :: 0 <= i < |Flat(f)| ==> Flat(f)[i].Basic?
  {
    match f
    case End =>
    case Block(b, rest) => LoopFreeHasNoStart(rest);
  }
}
