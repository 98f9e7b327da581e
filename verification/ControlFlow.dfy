/** Control-flow graphs as the code generator builds them (`ir.rs`): the ways a
    basic block can end, the successors that each of them names, and paths. */
module ControlFlow {

  /** How a basic block ends. */
  datatype Out =
    | NoOut
    | Return
    | ReturnCall(func: nat)
    | Yield(bbResume: nat)
    | Unreachable
    | Next(bb: nat)
    | If(f: nat, t: nat)

  /** The successors, in the order in which they are visited: the true branch
      of a two-way exit comes first. A yield ends the function: its resume
      block is not a successor. */
  function Successors(out: Out): seq<nat> {
    match out
    case Next(a) => [a]
    case If(f, t) => [t, f]
    case _ => []
  }

  /** The part of a graph that linearisation reads: each block's exit. */
  type Graph = seq<Out>

  function Succ(g: Graph, b: nat): seq<nat> {
    if b < |g| then Successors(g[b]) else []
  }

  /** Every block is filled and names existing blocks. */
  ghost predicate Complete(g: Graph) {
    forall b :: 0 <= b < |g| ==> !g[b].NoOut? && forall w :: w in Succ(g, b) ==> w < |g|
  }

  ghost predicate IsPath(g: Graph, p: seq<nat>) {
    |p| > 0 && forall i :: 0 <= i < |p| - 1 ==> p[i + 1] in Succ(g, p[i])
  }

  /** Some path of zero or more edges leads from a to b. */
  ghost predicate Reach(g: Graph, a: nat, b: nat) {
    exists p :: IsPath(g, p) && p[0] == a && p[|p| - 1] == b
  }

  lemma ReachSelf(g: Graph, a: nat)
    ensures Reach(g, a, a)
  {
    assert IsPath(g, [a]);
  }

  lemma ReachEdge(g: Graph, a: nat, b: nat)
    requires b in Succ(g, a)
    ensures Reach(g, a, b)
  {
    assert IsPath(g, [a, b]);
  }

  lemma ReachTrans(g: Graph, a: nat, b: nat, c: nat)
    requires Reach(g, a, b) && Reach(g, b, c)
    ensures Reach(g, a, c)
  {
    var p :| IsPath(g, p) && p[0] == a && p[|p| - 1] == b;
    var q :| IsPath(g, q) && q[0] == b && q[|q| - 1] == c;
    PathsJoin(g, p, q);
  }

  lemma PathsJoin(g: Graph, p: seq<nat>, q: seq<nat>)
    requires IsPath(g, p) && IsPath(g, q) && p[|p| - 1] == q[0]
    ensures IsPath(g, p + q[1..]) && (p + q[1..])[0] == p[0] && (p + q[1..])[|p + q[1..]| - 1] == q[|q| - 1]
  {
    var r := p + q[1..];
    forall i | 0 <= i < |r| - 1
      ensures r[i + 1] in Succ(g, r[i])
    {
      if i >= |p| - 1 {
        assert r[i] == q[i - |p| + 1];
      }
    }
  }

  lemma PathTail(g: Graph, p: seq<nat>)
    requires IsPath(g, p) && |p| > 1
    ensures IsPath(g, p[1..]) && p[1..][|p| - 2] == p[|p| - 1]
  {
    var q := p[1..];
    forall i | 0 <= i < |q| - 1
      ensures q[i + 1] in Succ(g, q[i])
    {
      assert q[i] == p[i + 1];
    }
  }

  /** A set closed under edges holds everything reachable from its members. */
  lemma {:induction false} ClosedHoldsPath(g: Graph, s: set<nat>, p: seq<nat>)
    requires IsPath(g, p) && p[0] in s
    requires forall x, w :: x in s && w in Succ(g, x) ==> w in s
    ensures p[|p| - 1] in s
    decreases |p|
  {
    if |p| > 1 {
      assert p[1] in Succ(g, p[0]);
      PathTail(g, p);
      ClosedHoldsPath(g, s, p[1..]);
    }
  }

  /** The blocks reachable from an entry block. */
  ghost function Reachable(g: Graph, entry: nat): (r: set<nat>)
  {
    set b: nat | b < |g| && Reach(g, entry, b)
  }

  lemma ReachableIsClosed(g: Graph, entry: nat)
    requires Complete(g) && entry < |g|
    ensures entry in Reachable(g, entry)
    ensures forall x, w :: x in Reachable(g, entry) && w in Succ(g, x) ==> w in Reachable(g, entry)
  {
    ReachSelf(g, entry);
    forall x, w | x in Reachable(g, entry) && w in Succ(g, x)
      ensures w in Reachable(g, entry)
    {
      ReachEdge(g, x, w);
      ReachTrans(g, entry, x, w);
    }
  }

  /** Any closed set holding the entry holds every reachable block. */
  lemma ReachableIsLeast(g: Graph, entry: nat, s: set<nat>)
    requires entry in s
    requires forall x, w :: x in s && w in Succ(g, x) ==> w in s
    ensures Reachable(g, entry) <= s
  {
    forall b | b in Reachable(g, entry)
      ensures b in s
    {
      var p :| IsPath(g, p) && p[0] == entry && p[|p| - 1] == b;
      ClosedHoldsPath(g, s, p);
    }
  }

  /** No edge closes a cycle. */
  ghost predicate Acyclic(g: Graph) {
    forall a, b :: b in Succ(g, a) ==> !Reach(g, b, a)
  }

  /** Two different blocks on one cycle contradict acyclicity. */
  lemma MutualReachIsCycle(g: Graph, a: nat, b: nat)
    requires a != b && Reach(g, a, b) && Reach(g, b, a)
    ensures !Acyclic(g)
  {
    var p :| IsPath(g, p) && p[0] == a && p[|p| - 1] == b;
    assert |p| > 1;
    var x := p[1];
    assert x in Succ(g, a);
    PathTail(g, p);
    assert Reach(g, x, b);
    ReachTrans(g, x, b, a);
  }
}
