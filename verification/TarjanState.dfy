/** What Tarjan's depth-first search knows at each moment, as values: the
    invariant of one call of `strongconnect`, and why each step keeps it. */
module TarjanState {
  import opened ControlFlow
  import opened Linear

  /** The search state of one run: counter, stack, the two numberings, and the
      set of stacked blocks. */
  datatype Search = Search(index: nat, stack: seq<nat>, idx: map<nat, nat>, low: map<nat, nat>, onStack: set<nat>)

  function Min(a: nat, b: nat): nat {
    if a <= b then a else b
  }

  /** The stack lists numbered blocks in the order of their numbers. */
  ghost predicate StackOk(s: Search) {
    && s.idx.Keys == s.low.Keys
    && (forall x :: x in s.idx ==> s.idx[x] < s.index)
    && (forall p :: 0 <= p < |s.stack| ==> s.stack[p] in s.idx)
    && (forall p, q :: 0 <= p < q < |s.stack| ==> s.idx[s.stack[p]] < s.idx[s.stack[q]])
    && (forall x :: x in s.onStack <==> x in s.stack)
  }

  /** A block that left the stack has only such blocks as successors. */
  ghost predicate LeftOk(g: Graph, limit: set<nat>, s: Search) {
    forall x, w :: x in s.idx && x !in s.onStack && w in Succ(g, x) && Allowed(limit, w) ==>
      w in s.idx && w !in s.onStack
  }

  /** In a limited run nothing but the root has number or lowlink 0. */
  ghost predicate RootOk(limit: set<nat>, root: nat, s: Search) {
    && root !in limit
    && s.idx.Keys == s.low.Keys
    && (if root in s.idx then s.idx[root] == 0 && s.index > 0 else s.idx == map[] && s.index == 0)
    && (limit != {} ==> forall x :: x in s.idx ==>
          x == root || (x in limit && s.idx[x] >= 1 && s.low[x] >= 1))
  }

  ghost predicate Inv(g: Graph, limit: set<nat>, root: nat, s: Search) {
    StackOk(s) && LeftOk(g, limit, s) && RootOk(limit, root, s)
  }

  /** The lowlink of x is the number of a stacked block that x reaches. */
  ghost predicate LowTarget(g: Graph, limit: set<nat>, s: Search, x: nat)
    requires s.idx.Keys == s.low.Keys
  {
    x in s.idx && exists y :: y in s.onStack && y in s.idx && s.idx[y] == s.low[x] && ReachIn(g, limit, x, y)
  }

  /** All looked-at successors of x are numbered, and the lowlink of x bounds
      those still on the stack. */
  ghost predicate SuccOk(g: Graph, limit: set<nat>, s: Search, x: nat, succs: seq<nat>)
    requires s.idx.Keys == s.low.Keys
  {
    x in s.idx && forall w :: w in succs && Allowed(limit, w) ==>
      w in s.idx && (w in s.onStack ==> s.low[x] <= s.idx[w])
  }

  /** A block whose call returned without it leaving the stack. */
  ghost predicate Settled(g: Graph, limit: set<nat>, s: Search, x: nat)
    requires s.idx.Keys == s.low.Keys
  {
    && LowTarget(g, limit, s, x)
    && s.low[x] < s.idx[x]
    && SuccOk(g, limit, s, x, Succ(g, x))
  }

  /** The stack above position b: settled blocks, none with a lowlink under
      `floor`, each a successor of one further down, not below b. */
  ghost predicate Above(g: Graph, limit: set<nat>, s: Search, b: nat, floor: nat)
    requires s.idx.Keys == s.low.Keys
  {
    forall p :: b < p < |s.stack| ==>
      && Settled(g, limit, s, s.stack[p])
      && s.low[s.stack[p]] >= floor
      && HasParent(g, s.stack, b, p)
  }

  ghost predicate HasParent(g: Graph, stack: seq<nat>, b: nat, p: nat)
    requires p < |stack|
  {
    exists q :: b <= q < p && stack[p] in Succ(g, stack[q])
  }

  /** What every step keeps of an earlier state. */
  ghost predicate Grown(s: Search, s': Search) {
    && s.stack <= s'.stack
    && s.index <= s'.index
    && s.idx.Keys <= s'.idx.Keys && s.low.Keys <= s'.low.Keys
    && (forall x :: x in s.idx ==> s'.idx[x] == s.idx[x])
    && (forall x :: x in s.low ==> s'.low[x] == s.low[x])
    && (forall x :: x in s.idx && x in s'.onStack ==> x in s.onStack)
  }

  /** A call for v, entered at s0, has handled the first i successors of v. */
  ghost predicate Visiting(g: Graph, limit: set<nat>, root: nat, s0: Search, s: Search, v: nat, i: nat) {
    var b := |s0.stack|;
    && Inv(g, limit, root, s)
    && Grown(s0, s) && v !in s0.idx && v !in s0.low
    && |s.stack| > b && s.stack[b] == v
    && s.idx[v] == s0.index && s.low[v] <= s.idx[v]
    && LowTarget(g, limit, s, v)
    && Above(g, limit, s, b, s.low[v])
    && i <= |Succ(g, v)| && SuccOk(g, limit, s, v, Succ(g, v)[..i])
  }

  /** A call for v, entered at s0, has returned with state s: either v and all
      above it left the stack, or v is settled too. */
  ghost predicate Returned(g: Graph, limit: set<nat>, root: nat, s0: Search, s: Search, v: nat) {
    var b := |s0.stack|;
    && Inv(g, limit, root, s)
    && Grown(s0, s) && v !in s0.idx && v !in s0.low
    && v in s.idx && s.idx[v] == s0.index
    && if |s.stack| == b then v !in s.onStack && s.low[v] == s.idx[v]
       else s.stack[b] == v && Settled(g, limit, s, v) && Above(g, limit, s, b, s.low[v])
  }

  function Push(s: Search, v: nat): Search {
    Search(s.index + 1, s.stack + [v], s.idx[v := s.index], s.low[v := s.index], s.onStack + {v})
  }

  function Lower(s: Search, v: nat, to: nat): Search {
    s.(low := s.low[v := to])
  }

  lemma PushStackOk(s: Search, v: nat)
    requires StackOk(s) && v !in s.idx
    ensures StackOk(Push(s, v)) && Grown(s, Push(s, v)) && v in Push(s, v).onStack
  {
    var s' := Push(s, v);
    assert s'.stack[|s.stack|] == v;
    assert forall x :: x in s'.stack <==> x in s.stack || x == v;
  }

  lemma PushLeftOk(g: Graph, limit: set<nat>, root: nat, s: Search, v: nat)
    requires Inv(g, limit, root, s) && v !in s.idx
    requires if s.idx == map[] then v == root else Allowed(limit, v)
    ensures LeftOk(g, limit, Push(s, v)) && RootOk(limit, root, Push(s, v))
  {
    hide StackOk, ReachIn;
    var s' := Push(s, v);
    assert s'.idx.Keys == s.idx.Keys + {v};
    assert s'.low.Keys == s.low.Keys + {v};
    assert root in s'.idx;
  }

  lemma EnterKeeps(g: Graph, limit: set<nat>, root: nat, s: Search, v: nat)
    requires Inv(g, limit, root, s) && v !in s.idx
    requires if s.idx == map[] then v == root else Allowed(limit, v)
    ensures Visiting(g, limit, root, s, Push(s, v), v, 0)
  {
    hide StackOk, LeftOk, RootOk, Grown, Settled, HasParent, ReachIn, LowTarget;
    var s' := Push(s, v);
    SameKeys(s);
    PushStackOk(s, v);
    PushLeftOk(g, limit, root, s, v);
    FreshLowTarget(g, limit, s, v);
    assert s'.stack[|s.stack|] == v;
  }

  lemma SameKeys(s: Search)
    requires StackOk(s)
    ensures s.idx.Keys == s.low.Keys
  {
  }

  lemma FreshLowTarget(g: Graph, limit: set<nat>, s: Search, v: nat)
    requires s.idx.Keys == s.low.Keys
    ensures Push(s, v).idx.Keys == Push(s, v).low.Keys && LowTarget(g, limit, Push(s, v), v)
  {
    ReachInSelf(g, limit, v);
    hide ReachIn;
    var s' := Push(s, v);
    assert v in s'.onStack && s'.idx[v] == s'.low[v];
  }

  /** Settled blocks stay settled while the search grows. */
  lemma SettledGrows(g: Graph, limit: set<nat>, s: Search, s': Search, x: nat)
    requires s.idx.Keys == s.low.Keys && s'.idx.Keys == s'.low.Keys
    requires Settled(g, limit, s, x) && StackOk(s) && StackOk(s') && Grown(s, s')
    ensures Settled(g, limit, s', x)
  {
    var y :| y in s.onStack && y in s.idx && s.idx[y] == s.low[x] && ReachIn(g, limit, x, y);
    OnStackGrows(s, s', y);
  }

  lemma OnStackGrows(s: Search, s': Search, y: nat)
    requires StackOk(s) && StackOk(s') && Grown(s, s') && y in s.onStack
    ensures y in s'.onStack
  {
    var p :| 0 <= p < |s.stack| && s.stack[p] == y;
    assert s'.stack[p] == y;
  }

  lemma LowTargetGrows(g: Graph, limit: set<nat>, s: Search, s': Search, x: nat)
    requires StackOk(s) && StackOk(s') && Grown(s, s') && LowTarget(g, limit, s, x)
    ensures LowTarget(g, limit, s', x)
  {
    var y :| y in s.onStack && y in s.idx && s.idx[y] == s.low[x] && ReachIn(g, limit, x, y);
    OnStackGrows(s, s', y);
  }

  lemma GrownTrans(s: Search, s': Search, s'': Search)
    requires Grown(s, s') && Grown(s', s'')
    ensures Grown(s, s'')
  {
    assert forall x :: x in s.idx ==> x in s'.idx;
  }

  /** Lowering v's lowlink touches no other block. */
  lemma LowerInv(g: Graph, limit: set<nat>, root: nat, s0: Search, s: Search, v: nat, to: nat)
    requires Inv(g, limit, root, s) && Grown(s0, s) && v !in s0.idx && v !in s0.low && v in s.idx
    requires limit != {} && v != root ==> to >= 1
    ensures Inv(g, limit, root, Lower(s, v, to)) && Grown(s0, Lower(s, v, to))
  {
    var s' := Lower(s, v, to);
    assert s'.low.Keys == s.low.Keys;
    assert StackOk(s');
    assert LeftOk(g, limit, s');
    assert RootOk(limit, root, s');
  }

  lemma LowerSettled(g: Graph, limit: set<nat>, s: Search, v: nat, to: nat, x: nat)
    requires s.idx.Keys == s.low.Keys && v in s.idx && x != v && Settled(g, limit, s, x)
    ensures Lower(s, v, to).low.Keys == s.idx.Keys && Settled(g, limit, Lower(s, v, to), x)
  {
    var s' := Lower(s, v, to);
    var z :| z in s.onStack && z in s.idx && s.idx[z] == s.low[x] && ReachIn(g, limit, x, z);
    assert z in s'.onStack && s'.idx[z] == s'.low[x];
  }

  lemma LowerAbove(g: Graph, limit: set<nat>, s: Search, v: nat, to: nat, b: nat)
    requires StackOk(s) && b < |s.stack| && s.stack[b] == v
    requires Above(g, limit, s, b, to)
    ensures Lower(s, v, to).low.Keys == s.idx.Keys && Above(g, limit, Lower(s, v, to), b, to)
  {
    var s' := Lower(s, v, to);
    forall p | b < p < |s'.stack|
      ensures Settled(g, limit, s', s'.stack[p]) && s'.low[s'.stack[p]] >= to
    {
      var x := s.stack[p];
      assert s.idx[x] > s.idx[v];
      LowerSettled(g, limit, s, v, to, x);
    }
  }

  /** Lowering v's lowlink to a stacked block's number that v reaches. */
  lemma LowerKeeps(g: Graph, limit: set<nat>, root: nat, s0: Search, s: Search, v: nat, to: nat, y: nat)
    requires Inv(g, limit, root, s) && Grown(s0, s) && v !in s0.idx && v !in s0.low
    requires |s.stack| > |s0.stack| && s.stack[|s0.stack|] == v
    requires limit != {} && v != root ==> to >= 1
    requires y in s.onStack && y in s.idx && s.idx[y] == to && ReachIn(g, limit, v, y)
    requires Above(g, limit, s, |s0.stack|, to)
    ensures var s' := Lower(s, v, to);
            Inv(g, limit, root, s') && Grown(s0, s') && LowTarget(g, limit, s', v)
            && Above(g, limit, s', |s0.stack|, to)
  {
    LowerInv(g, limit, root, s0, s, v, to);
    LowerAbove(g, limit, s, v, to, |s0.stack|);
    hide StackOk, LeftOk, RootOk, Grown, Above;
    var s' := Lower(s, v, to);
    assert y in s'.onStack && s'.idx[y] == s'.low[v];
  }

  lemma SuccOkExtends(g: Graph, limit: set<nat>, s: Search, s': Search, v: nat, i: nat)
    requires s.idx.Keys == s.low.Keys && s'.idx.Keys == s'.low.Keys
    requires i < |Succ(g, v)| && SuccOk(g, limit, s, v, Succ(g, v)[..i])
    requires Grown(s.(low := s.low - {v}), s') && v in s'.low && s'.low[v] <= s.low[v]
    requires var w := Succ(g, v)[i]; Allowed(limit, w) ==> w in s'.idx && (w in s'.onStack ==> s'.low[v] <= s'.idx[w])
    ensures SuccOk(g, limit, s', v, Succ(g, v)[..i + 1])
  {
    assert Succ(g, v)[..i + 1] == Succ(g, v)[..i] + [Succ(g, v)[i]];
  }

  /** A looked-at successor already on the stack. */
  lemma BackEdgeKeeps(g: Graph, limit: set<nat>, root: nat, s0: Search, s: Search, v: nat, i: nat)
    requires Visiting(g, limit, root, s0, s, v, i) && i < |Succ(g, v)|
    requires var w := Succ(g, v)[i]; Allowed(limit, w) && w in s.onStack
    ensures Succ(g, v)[i] in s.idx
    ensures Visiting(g, limit, root, s0, Lower(s, v, Min(s.low[v], s.idx[Succ(g, v)[i]])), v, i + 1)
  {
    hide ReachIn, LeftOk, Settled;
    var w := Succ(g, v)[i];
    assert w in s.idx && v in s.idx;
    var to := Min(s.low[v], s.idx[w]);
    var y :| y in s.onStack && y in s.idx && s.idx[y] == s.low[v] && ReachIn(g, limit, v, y);
    ReachInEdge(g, limit, v, w);
    assert limit != {} ==> w != root;
    assert Above(g, limit, s, |s0.stack|, to);
    LowerKeeps(g, limit, root, s0, s, v, to, if to == s.low[v] then y else w);
    hide Above, RootOk, LowTarget, StackOk;
    SuccOkExtends(g, limit, s, Lower(s, v, to), v, i);
  }

  /** A successor outside the limit, or visited and already gone. */
  lemma SkipKeeps(g: Graph, limit: set<nat>, root: nat, s0: Search, s: Search, v: nat, i: nat)
    requires Visiting(g, limit, root, s0, s, v, i) && i < |Succ(g, v)|
    requires var w := Succ(g, v)[i]; !Allowed(limit, w) || (w in s.idx && w !in s.onStack)
    ensures Visiting(g, limit, root, s0, s, v, i + 1)
  {
    hide ReachIn, Above, LeftOk, RootOk, LowTarget, StackOk, Grown;
    assert Succ(g, v)[..i + 1] == Succ(g, v)[..i] + [Succ(g, v)[i]];
  }

  /** One successor that was visited by a call. */
  lemma CallKeeps(g: Graph, limit: set<nat>, root: nat, s0: Search, s: Search, s1: Search, v: nat, i: nat)
    requires Visiting(g, limit, root, s0, s, v, i) && i < |Succ(g, v)|
    requires Allowed(limit, Succ(g, v)[i]) && Returned(g, limit, root, s, s1, Succ(g, v)[i])
    ensures v in s1.low && Succ(g, v)[i] in s1.low
    ensures var w := Succ(g, v)[i];
            Visiting(g, limit, root, s0, Lower(s1, v, Min(s1.low[v], s1.low[w])), v, i + 1)
  {
    hide ReachIn, LeftOk, Settled, LowTarget, Above;
    var w := Succ(g, v)[i];
    GrownTrans(s0, s, s1);
    var to := Min(s1.low[v], s1.low[w]);
    CalledAbove(g, limit, root, s0, s, s1, v, w, to);
    var y := CalledTarget(g, limit, root, s0, s, s1, v, w);
    LowerKeeps(g, limit, root, s0, s1, v, to, y);
    hide RootOk, StackOk;
    SuccOkExtends(g, limit, s, Lower(s1, v, to), v, i);
  }

  /** Where v's lowlink points after the call for w. */
  lemma CalledTarget(g: Graph, limit: set<nat>, root: nat, s0: Search, s: Search, s1: Search, v: nat, w: nat)
    returns (y: nat)
    requires StackOk(s) && v in s.idx && v in s.low && LowTarget(g, limit, s, v) && s.low[v] <= s.idx[v]
    requires Returned(g, limit, root, s, s1, w) && w in Succ(g, v) && Allowed(limit, w)
    ensures v in s1.low && w in s1.low && y in s1.onStack && y in s1.idx
    ensures s1.idx[y] == Min(s1.low[v], s1.low[w]) && ReachIn(g, limit, v, y)
    ensures limit != {} && v != root ==> s1.idx[y] >= 1
  {
    hide Above, LeftOk;
    LowTargetGrows(g, limit, s, s1, v);
    if |s1.stack| > |s.stack| && s1.low[w] < s1.low[v] {
      y :| y in s1.onStack && y in s1.idx && s1.idx[y] == s1.low[w] && ReachIn(g, limit, w, y);
      ReachInEdge(g, limit, v, w);
      ReachInTrans(g, limit, v, w, y);
    } else {
      y :| y in s1.onStack && y in s1.idx && s1.idx[y] == s1.low[v] && ReachIn(g, limit, v, y);
    }
  }

  lemma CalledAbove(g: Graph, limit: set<nat>, root: nat, s0: Search, s: Search, s1: Search, v: nat, w: nat, to: nat)
    requires StackOk(s) && |s.stack| > |s0.stack| && s.stack[|s0.stack|] == v
    requires v in s.idx && Above(g, limit, s, |s0.stack|, s.low[v])
    requires Returned(g, limit, root, s, s1, w) && w in Succ(g, v)
    requires w in s1.low && to <= s.low[v] && to <= s1.low[w]
    ensures Above(g, limit, s1, |s0.stack|, to)
  {
    var b := |s0.stack|;
    var c := |s.stack|;
    forall p | b < p < |s1.stack|
      ensures Settled(g, limit, s1, s1.stack[p]) && s1.low[s1.stack[p]] >= to && HasParent(g, s1.stack, b, p)
    {
      if p < c {
        assert s1.stack[p] == s.stack[p];
        SettledGrows(g, limit, s, s1, s.stack[p]);
        var q :| b <= q < p && s.stack[p] in Succ(g, s.stack[q]);
        assert s1.stack[q] == s.stack[q];
      } else if p == c {
        assert s1.stack[p] == w && s1.stack[b] == v;
        assert b <= b < p;
      } else {
        assert HasParent(g, s1.stack, c, p);
        var q :| c <= q < p && s1.stack[p] in Succ(g, s1.stack[q]);
        assert b <= q < p;
      }
    }
  }

  /** Not a component root: v stays and is settled. */
  lemma StayReturns(g: Graph, limit: set<nat>, root: nat, s0: Search, s: Search, v: nat)
    requires Visiting(g, limit, root, s0, s, v, |Succ(g, v)|) && s.low[v] != s.idx[v]
    ensures Returned(g, limit, root, s0, s, v)
  {
    assert Succ(g, v)[..|Succ(g, v)|] == Succ(g, v);
  }

  /** The blocks from v's position up: what is popped as one component. */
  ghost function Popped(s: Search, b: nat): (r: set<nat>)
  {
    set p | b <= p < |s.stack| :: s.stack[p]
  }

  function Pop(s: Search, b: nat): Search
    requires b <= |s.stack|
  {
    s.(stack := s.stack[..b], onStack := set x | x in s.stack[..b])
  }

  lemma PoppedOnStack(s0: Search, s: Search)
    requires StackOk(s0) && StackOk(s) && Grown(s0, s)
    ensures var b := |s0.stack|;
            StackOk(Pop(s, b)) && Grown(s0, Pop(s, b)) && Pop(s, b).stack == s0.stack
            && Pop(s, b).onStack == s.onStack - Popped(s, b) && Popped(s, b) <= s.onStack
  {
    var b := |s0.stack|;
    StackIsSet(s);
    PopDistinct(s, b);
    PopStackOk(s0, s);
  }

  lemma StackIsSet(s: Search)
    requires StackOk(s)
    ensures forall p, q :: 0 <= p < q < |s.stack| ==> s.stack[p] != s.stack[q]
    ensures s.onStack == set x | x in s.stack
  {
  }

  lemma PopDistinct(s: Search, b: nat)
    requires b <= |s.stack| && s.onStack == set x | x in s.stack
    requires forall p, q :: 0 <= p < q < |s.stack| ==> s.stack[p] != s.stack[q]
    ensures Pop(s, b).onStack == s.onStack - Popped(s, b) && Popped(s, b) <= s.onStack
  {
    forall x | x in s.onStack
      ensures x in s.stack[..b] <==> x !in s.stack[b..]
    {
      var p :| 0 <= p < |s.stack| && s.stack[p] == x;
      if p < b {
        assert s.stack[..b][p] == x;
      } else {
        assert s.stack[b..][p - b] == x;
      }
    }
  }

  lemma PopStackOk(s0: Search, s: Search)
    requires StackOk(s0) && StackOk(s) && Grown(s0, s)
    ensures StackOk(Pop(s, |s0.stack|)) && Grown(s0, Pop(s, |s0.stack|)) && Pop(s, |s0.stack|).stack == s0.stack
  {
    assert Pop(s, |s0.stack|).stack == s0.stack;
  }

  /** Nothing popped has a looked-at successor left on the stack. */
  lemma PoppedCloses(g: Graph, limit: set<nat>, s: Search, v: nat, b: nat)
    requires StackOk(s) && |s.stack| > b && s.stack[b] == v && s.low[v] == s.idx[v]
    requires SuccOk(g, limit, s, v, Succ(g, v)) && Above(g, limit, s, b, s.low[v])
    ensures forall x, w :: x in Popped(s, b) && w in Succ(g, x) && Allowed(limit, w) ==>
              w in s.idx && (w in Popped(s, b) || w !in s.onStack)
  {
    hide LowTarget, ReachIn;
    forall x, w | x in Popped(s, b) && w in Succ(g, x) && Allowed(limit, w)
      ensures w in s.idx && (w in Popped(s, b) || w !in s.onStack)
    {
      var p :| b <= p < |s.stack| && s.stack[p] == x;
      assert SuccOk(g, limit, s, x, Succ(g, x));
      if w in s.onStack {
        var q :| 0 <= q < |s.stack| && s.stack[q] == w;
        assert s.idx[w] >= s.low[x] >= s.idx[v];
        assert q >= b;
      }
    }
  }

  /** A component root: popping it and all above returns properly. */
  lemma PopReturns(g: Graph, limit: set<nat>, root: nat, s0: Search, s: Search, v: nat)
    requires StackOk(s0) && Visiting(g, limit, root, s0, s, v, |Succ(g, v)|) && s.low[v] == s.idx[v]
    ensures Returned(g, limit, root, s0, Pop(s, |s0.stack|), v)
    ensures v in Popped(s, |s0.stack|)
  {
    hide ReachIn, LowTarget, Above, StackOk, Grown, SuccOk, LeftOk, RootOk, Settled;
    var b := |s0.stack|;
    assert Succ(g, v)[..|Succ(g, v)|] == Succ(g, v);
    StackNumbered(s, b);
    PoppedOnStack(s0, s);
    PoppedCloses(g, limit, s, v, b);
    assert s.stack[b] == v;
    PopRootOk(limit, root, s, b);
    PopLeftOk(g, limit, s, b);
  }

  lemma StackNumbered(s: Search, p: nat)
    requires StackOk(s) && p < |s.stack|
    ensures s.idx.Keys == s.low.Keys && s.stack[p] in s.idx
  {
  }

  lemma PopLeftOk(g: Graph, limit: set<nat>, s: Search, b: nat)
    requires LeftOk(g, limit, s) && b <= |s.stack|
    requires Pop(s, b).onStack == s.onStack - Popped(s, b)
    requires forall x, w :: x in Popped(s, b) && w in Succ(g, x) && Allowed(limit, w) ==>
               w in s.idx && (w in Popped(s, b) || w !in s.onStack)
    ensures LeftOk(g, limit, Pop(s, b))
  {
    hide Popped;
    var s' := Pop(s, b);
    forall x, w | x in s'.idx && x !in s'.onStack && w in Succ(g, x) && Allowed(limit, w)
      ensures w in s'.idx && w !in s'.onStack
    {
      assert x in Popped(s, b) || x !in s.onStack;
    }
  }

  lemma PopRootOk(limit: set<nat>, root: nat, s: Search, b: nat)
    requires RootOk(limit, root, s) && b <= |s.stack|
    ensures RootOk(limit, root, Pop(s, b))
  {
  }

  /** What is popped is a set of mutually reachable blocks. */
  lemma PoppedIsCycle(g: Graph, limit: set<nat>, root: nat, s0: Search, s: Search, v: nat)
    requires Visiting(g, limit, root, s0, s, v, |Succ(g, v)|) && s.low[v] == s.idx[v]
    ensures forall x :: x in Popped(s, |s0.stack|) ==> ReachIn(g, limit, v, x) && ReachIn(g, limit, x, v)
  {
    AllStackAllowed(limit, root, s);
    hide LeftOk, RootOk, ReachIn, Settled, SuccOk;
    var b := |s0.stack|;
    forall x | x in Popped(s, b)
      ensures ReachIn(g, limit, v, x) && ReachIn(g, limit, x, v)
    {
      var p :| b <= p < |s.stack| && s.stack[p] == x;
      ReachedFromBase(g, limit, s, b, p);
      ReachesBase(g, limit, s, b, p);
    }
  }

  ghost predicate SecondDiffers(stack: seq<nat>, root: nat) {
    |stack| > 1 ==> stack[1] != root
  }

  /** In a limited run the root is popped alone: no looked-at edge leads back. */
  lemma RootPopsAlone(g: Graph, limit: set<nat>, root: nat, s0: Search, s: Search)
    requires Visiting(g, limit, root, s0, s, root, |Succ(g, root)|) && s.low[root] == s.idx[root]
    requires limit != {} && s0.stack == []
    ensures |s.stack| == 1
  {
    hide LeftOk, ReachIn, SuccOk;
    assert SecondDiffers(s.stack, root);
  }

  ghost predicate StackAllowed(limit: set<nat>, stack: seq<nat>) {
    forall p :: 0 < p < |stack| ==> Allowed(limit, stack[p])
  }

  /** Only the root is outside the limit, and it is the first on the stack. */
  lemma AllStackAllowed(limit: set<nat>, root: nat, s: Search)
    requires StackOk(s) && RootOk(limit, root, s)
    ensures StackAllowed(limit, s.stack)
  {
    assert s.stack != [] ==> s.idx[s.stack[0]] < s.index;
  }

  lemma {:induction false} ReachedFromBase(g: Graph, limit: set<nat>, s: Search, b: nat, p: nat)
    requires StackOk(s) && b <= p < |s.stack|
    requires s.idx.Keys == s.low.Keys && StackAllowed(limit, s.stack)
    requires Above(g, limit, s, b, s.low[s.stack[b]])
    ensures ReachIn(g, limit, s.stack[b], s.stack[p])
    decreases p
  {
    ReachInSelf(g, limit, s.stack[b]);
    if p > b {
      assert HasParent(g, s.stack, b, p);
      var q :| b <= q < p && s.stack[p] in Succ(g, s.stack[q]);
      ReachedFromBase(g, limit, s, b, q);
      ReachInEdge(g, limit, s.stack[q], s.stack[p]);
      ReachInTrans(g, limit, s.stack[b], s.stack[q], s.stack[p]);
    }
  }

  lemma {:induction false} ReachesBase(g: Graph, limit: set<nat>, s: Search, b: nat, p: nat)
    requires StackOk(s) && b <= p < |s.stack|
    requires s.idx.Keys == s.low.Keys
    requires s.low[s.stack[b]] == s.idx[s.stack[b]]
    requires Above(g, limit, s, b, s.low[s.stack[b]])
    ensures ReachIn(g, limit, s.stack[p], s.stack[b])
    decreases p
  {
    ReachInSelf(g, limit, s.stack[b]);
    if p > b {
      var x := s.stack[p];
      assert Settled(g, limit, s, x);
      var y :| y in s.onStack && y in s.idx && s.idx[y] == s.low[x] && ReachIn(g, limit, x, y);
      var q :| 0 <= q < |s.stack| && s.stack[q] == y;
      assert s.idx[s.stack[b]] <= s.idx[y] < s.idx[x];
      assert b <= q < p;
      ReachesBase(g, limit, s, b, q);
      ReachInTrans(g, limit, x, y, s.stack[b]);
    }
  }
}
