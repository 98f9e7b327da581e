/** Which modules belong to a contract, and in which order they are compiled
    (`reachable_from` in `module_graph.rs`, `compile_contract` in `lib.rs`). */
module ModuleReach {
  import opened ModuleOrder

  /** Imported by the start, directly or not, or the start itself. */
  ghost predicate Needs(g: Imports, start: nat, m: nat) {
    exists p :: IsWalk(g, p) && p[0] == start && p[|p| - 1] == m
  }

  lemma NeedsSelf(g: Imports, m: nat)
    requires m < |g|
    ensures Needs(g, m, m)
  {
    assert IsWalk(g, [m]);
  }

  lemma NeedsImport(g: Imports, start: nat, a: nat, k: nat)
    requires Closed(g) && Needs(g, start, a) && a < |g| && k < |g[a]|
    ensures Needs(g, start, g[a][k].target)
  {
    var p :| IsWalk(g, p) && p[0] == start && p[|p| - 1] == a;
    var p' := p + [g[a][k].target];
    assert HasImport(g, a, g[a][k].target);
    forall i | 0 <= i < |p'| - 1
      ensures HasImport(g, p'[i], p'[i + 1])
    {
    }
    assert IsWalk(g, p');
  }

  /** A set closed under imports holds whatever its members need. */
  ghost predicate ClosedSet(g: Imports, s: set<nat>) {
    forall a, k :: a in s && a < |g| && 0 <= k < |g[a]| ==> g[a][k].target in s
  }

  lemma {:induction false} WalkStays(g: Imports, s: set<nat>, p: seq<nat>)
    requires Closed(g) && ClosedSet(g, s) && IsWalk(g, p) && p[0] in s
    ensures p[|p| - 1] in s
    decreases |p|
  {
    if |p| > 1 {
      assert HasImport(g, p[0], p[1]);
      WalkStays(g, s, p[1..]);
    }
  }

  lemma NeededInside(g: Imports, s: set<nat>, start: nat)
    requires Closed(g) && ClosedSet(g, s) && start in s
    ensures forall m :: Needs(g, start, m) ==> m in s
  {
    forall m | Needs(g, start, m)
      ensures m in s
    {
      var p :| IsWalk(g, p) && p[0] == start && p[|p| - 1] == m;
      WalkStays(g, s, p);
    }
  }

  function Below(n: nat): (s: set<nat>)
    ensures forall m: nat :: m in s <==> m < n
  {
    if n == 0 then {} else Below(n - 1) + {n - 1}
  }

  /** Every member is pending, or all it imports has been found. */
  ghost predicate Chased(g: Imports, start: nat, found: set<nat>, pending: seq<nat>) {
    && start in found && found <= Below(|g|)
    && (forall m :: m in found ==> Needs(g, start, m))
    && (forall m :: m in pending ==> m in found)
    && (forall a, k :: a in found && a !in pending && 0 <= k < |g[a]| ==> g[a][k].target in found)
  }

  // ---- Compiling a contract.

  /** The modules reachable from the entry. */
  method ReachableSet(g: Imports, entry: nat) returns (reachable: set<nat>)
    requires Closed(g) && entry < |g|
    ensures forall m :: m in reachable <==> Needs(g, entry, m)
  {
    reachable := {entry};
    var stack := [entry];
    NeedsSelf(g, entry);
    while stack != []
      invariant Chased(g, entry, reachable, stack)
      decreases |Below(|g|) - reachable|, |stack|
    {
      reachable, stack := ChaseOne(g, entry, reachable, stack);
    }
    NeededInside(g, reachable, entry);
  }

  /** One module of the stack: its imports that are new are found and stacked. */
  method ChaseOne(g: Imports, entry: nat, reachable0: set<nat>, stack0: seq<nat>)
    returns (reachable: set<nat>, stack: seq<nat>)
    requires Closed(g) && stack0 != [] && Chased(g, entry, reachable0, stack0)
    ensures Chased(g, entry, reachable, stack)
    ensures |Below(|g|) - reachable| < |Below(|g|) - reachable0| || (reachable == reachable0 && |stack| < |stack0|)
  {
    reachable, stack := reachable0, stack0[..|stack0| - 1];
    var id := stack0[|stack0| - 1];
    assert id in stack0;
    PoppedRest(stack0);
    for k := 0 to |g[id]|
      invariant reachable0 <= reachable <= Below(|g|)
      invariant entry in reachable && forall m :: m in reachable ==> Needs(g, entry, m)
      invariant forall m :: m in stack ==> m in reachable
      invariant forall a, j :: a in reachable && a != id && a !in stack && 0 <= j < |g[a]| ==> g[a][j].target in reachable
      invariant forall j :: 0 <= j < k ==> g[id][j].target in reachable
      invariant reachable == reachable0 ==> stack == stack0[..|stack0| - 1]
    {
      var target := g[id][k].target;
      NeedsImport(g, entry, id, k);
      if target !in reachable {
        reachable := reachable + {target};
        stack := stack + [target];
      }
    }
    if reachable != reachable0 {
      var m :| m in reachable && m !in reachable0;
      Fewer(Below(|g|) - reachable, Below(|g|) - reachable0, m);
    }
  }

  lemma PoppedRest(stack: seq<nat>)
    requires stack != []
    ensures forall m :: m in stack <==> m in stack[..|stack| - 1] || m == stack[|stack| - 1]
  {
    assert stack == stack[..|stack| - 1] + [stack[|stack| - 1]];
  }

  lemma Fewer(a: set<nat>, b: set<nat>, m: nat)
    requires a <= b && m in b && m !in a
    ensures |a| < |b|
  {
    assert a + (b - a) == b;
  }

  function Kept(order: seq<nat>, s: set<nat>): seq<nat> {
    if order == [] then []
    else
      var n := |order| - 1;
      Kept(order[..n], s) + if order[n] in s then [order[n]] else []
  }

  lemma {:induction false} KeptMembers(order: seq<nat>, s: set<nat>)
    ensures forall m :: m in Kept(order, s) <==> m in order && m in s
  {
    if order != [] {
      var n := |order| - 1;
      KeptMembers(order[..n], s);
      PoppedRest(order);
    }
  }

  /** Keeping a set that is closed under imports keeps an order an order. */
  lemma {:induction false} KeptOrdered(g: Imports, order: seq<nat>, s: set<nat>)
    requires Ordered(g, order) && ClosedSet(g, s)
    ensures Ordered(g, Kept(order, s))
    decreases |order|
  {
    if order != [] {
      var n := |order| - 1;
      PrefixOrdered(g, order, n);
      KeptOrdered(g, order[..n], s);
      KeptMembers(order[..n], s);
      if order[n] in s {
        forall k | 0 <= k < |g[order[n]]|
          ensures g[order[n]][k].target in Kept(order[..n], s)
        {
          assert g[order[n]][k].target in order[..n];
        }
        PopOrdered(g, Kept(order[..n], s), order[n]);
      }
    }
  }

  lemma PrefixOrdered(g: Imports, order: seq<nat>, n: nat)
    requires Ordered(g, order) && n < |order|
    ensures Ordered(g, order[..n]) && order[n] < |g| && order[n] !in order[..n]
  {
    forall i, k | 0 <= i < n && 0 <= k < |g[order[..n][i]]|
      ensures g[order[..n][i]][k].target in order[..n][..i]
    {
      assert order[..n][..i] == order[..i];
    }
  }

  /** Compiling a contract visits exactly the modules it needs, each once and each
      after all modules it imports. */
  method CompileContract(g: Imports, topoOrder: seq<nat>, entry: nat) returns (visited: seq<nat>)
    requires Closed(g) && entry < |g| && IsTopoOrder(g, topoOrder)
    ensures forall m: nat :: m in visited <==> Needs(g, entry, m)
    ensures Ordered(g, visited)
  {
    var reachable := ReachableSet(g, entry);
    visited := [];
    for i := 0 to |topoOrder|
      invariant visited == Kept(topoOrder[..i], reachable)
    {
      assert topoOrder[..i + 1][..i] == topoOrder[..i];
      if topoOrder[i] in reachable {
        visited := visited + [topoOrder[i]];
      }
    }
    assert topoOrder[..|topoOrder|] == topoOrder;
    NeedsClosed(g, entry, reachable);
    KeptMembers(topoOrder, reachable);
    KeptOrdered(g, topoOrder, reachable);
  }

  lemma NeedsClosed(g: Imports, entry: nat, s: set<nat>)
    requires Closed(g) && forall m :: m in s <==> Needs(g, entry, m)
    ensures ClosedSet(g, s) && forall m :: m in s ==> m < |g|
  {
    forall m | m in s
      ensures m < |g|
    {
      var p :| IsWalk(g, p) && p[0] == entry && p[|p| - 1] == m;
      WalkInside(g, p);
    }
    forall a, k | a in s && a < |g| && 0 <= k < |g[a]|
      ensures g[a][k].target in s
    {
      NeedsImport(g, entry, a, k);
    }
  }

  lemma {:induction false} WalkInside(g: Imports, p: seq<nat>)
    requires Closed(g) && IsWalk(g, p)
    ensures p[|p| - 1] < |g|
  {
    if |p| > 1 {
      assert HasImport(g, p[|p| - 2], p[|p| - 1]);
    }
  }

  /** The entry itself comes last. */
  lemma EntryIsLast(g: Imports, visited: seq<nat>, entry: nat)
    requires Closed(g) && entry < |g| && Ordered(g, visited)
    requires forall m: nat :: m in visited <==> Needs(g, entry, m)
    ensures visited != [] && visited[|visited| - 1] == entry
  {
    NeedsSelf(g, entry);
    var i :| 0 <= i < |visited| && visited[i] == entry;
    if i < |visited| - 1 {
      var m := visited[|visited| - 1];
      assert m in visited;
      var p :| IsWalk(g, p) && p[0] == entry && p[|p| - 1] == m;
      var j := WalkDescends(g, visited, p, i);
    }
  }

  // ---- The same set, as the module graph computes it.

  /** Modules reachable from a start, marked when they leave the stack. */
  method ReachableFrom(g: Imports, start: nat) returns (order: seq<nat>)
    requires Closed(g) && start < |g|
    ensures forall m: nat :: m in order <==> Needs(g, start, m)
    ensures forall i, j :: 0 <= i < j < |order| ==> order[i] != order[j]
  {
    var visited := new bool[|g|](_ => false);
    order := [];
    var stack := [start];
    NeedsSelf(g, start);
    while stack != []
      invariant Marked(g, start, visited[..], order, stack)
      decreases |Below(|g|) - Set(order)|, |stack|
    {
      hide Marked;
      order, stack := MarkOne(g, start, visited, order, stack);
    }
    MarkedAll(g, start, visited[..], order);
  }

  function Set(order: seq<nat>): (s: set<nat>)
    ensures forall m :: m in s <==> m in order
  {
    set m | m in order
  }

  /** What has been visited has all its imports visited or stacked. */
  ghost predicate Marked(g: Imports, start: nat, visited: seq<bool>, order: seq<nat>, stack: seq<nat>) {
    && |visited| == |g| && (forall m :: 0 <= m < |g| ==> (visited[m] <==> m in order))
    && (forall m :: m in order || m in stack ==> m < |g| && Needs(g, start, m))
    && (start in order || start in stack)
    && (forall i, j :: 0 <= i < j < |order| ==> order[i] != order[j])
    && (forall a, k :: a in order && 0 <= k < |g[a]| ==> g[a][k].target in order || g[a][k].target in stack)
  }

  lemma MarkedAll(g: Imports, start: nat, visited: seq<bool>, order: seq<nat>)
    requires Closed(g) && Marked(g, start, visited, order, [])
    ensures forall m: nat :: m in order <==> Needs(g, start, m)
    ensures forall i, j :: 0 <= i < j < |order| ==> order[i] != order[j]
  {
    NeededInside(g, Set(order), start);
  }

  method MarkOne(g: Imports, start: nat, visited: array<bool>, order0: seq<nat>, stack0: seq<nat>)
    returns (order: seq<nat>, stack: seq<nat>)
    requires Closed(g) && stack0 != [] && Marked(g, start, visited[..], order0, stack0)
    modifies visited
    ensures Marked(g, start, visited[..], order, stack)
    ensures |Below(|g|) - Set(order)| < |Below(|g|) - Set(order0)| || (order == order0 && |stack| < |stack0|)
  {
    hide Marked;
    order, stack := order0, stack0[..|stack0| - 1];
    var id := stack0[|stack0| - 1];
    PoppedRest(stack0);
    MarkedAt(g, start, visited[..], order0, stack0, id);
    if visited[id] {
      MarkedAgain(g, start, visited[..], order0, stack0, id);
    } else {
      ghost var was := visited[..];
      visited[id] := true;
      assert visited[..] == was[id := true];
      order := order + [id];
      Fewer(Below(|g|) - Set(order), Below(|g|) - Set(order0), id);
      stack := PushUnvisited(g, id, visited, stack);
      MarkedMore(g, start, was, order0, stack0, id, stack);
    }
  }

  lemma MarkedAt(g: Imports, start: nat, visited: seq<bool>, order: seq<nat>, stack: seq<nat>, id: nat)
    requires Marked(g, start, visited, order, stack) && id in stack
    ensures id < |g| == |visited| && (visited[id] <==> id in order)
  {
  }

  lemma MarkedAgain(g: Imports, start: nat, visited: seq<bool>, order: seq<nat>, stack: seq<nat>, id: nat)
    requires Marked(g, start, visited, order, stack) && stack != [] && id == stack[|stack| - 1] && id in order
    ensures Marked(g, start, visited, order, stack[..|stack| - 1])
  {
    hide Needs;
    PoppedRest(stack);
  }

  /** Stack the imports that have not been visited. */
  method PushUnvisited(g: Imports, id: nat, visited: array<bool>, stack0: seq<nat>) returns (stack: seq<nat>)
    requires Closed(g) && id < |g| == visited.Length
    ensures forall m :: m in stack ==> m in stack0 || exists k :: 0 <= k < |g[id]| && g[id][k].target == m
    ensures forall m :: m in stack0 ==> m in stack
    ensures forall k :: 0 <= k < |g[id]| ==> visited[g[id][k].target] || g[id][k].target in stack
  {
    stack := stack0;
    for k := 0 to |g[id]|
      invariant forall m :: m in stack ==> m in stack0 || exists j :: 0 <= j < k && g[id][j].target == m
      invariant forall m :: m in stack0 ==> m in stack
      invariant forall j :: 0 <= j < k ==> visited[g[id][j].target] || g[id][j].target in stack
    {
      if !visited[g[id][k].target] {
        stack := stack + [g[id][k].target];
      }
    }
  }

  lemma MarkedMore(g: Imports, start: nat, was: seq<bool>, order0: seq<nat>, stack0: seq<nat>, id: nat, stack: seq<nat>)
    requires Closed(g) && Marked(g, start, was, order0, stack0) && id in stack0 && id < |g| && !was[id]
    requires forall m :: m in stack ==> m in stack0 || exists k :: 0 <= k < |g[id]| && g[id][k].target == m
    requires forall m :: m in stack0 && m != id ==> m in stack
    requires forall k :: 0 <= k < |g[id]| ==> was[id := true][g[id][k].target] || g[id][k].target in stack
    ensures Marked(g, start, was[id := true], order0 + [id], stack)
  {
    var order := order0 + [id];
    forall m | m in order || m in stack
      ensures m < |g| && Needs(g, start, m)
    {
      if m in stack && m !in stack0 {
        var k :| 0 <= k < |g[id]| && g[id][k].target == m;
        NeedsImport(g, start, id, k);
      }
    }
    hide Needs;
    forall a, k | a in order && 0 <= k < |g[a]|
      ensures g[a][k].target in order || g[a][k].target in stack
    {
      if a != id {
        assert g[a][k].target in order0 || g[a][k].target in stack0;
      }
    }
  }
}
