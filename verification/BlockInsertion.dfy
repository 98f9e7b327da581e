/** Insertion of `block`/`end` pairs into a linearised graph (`stackifier.rs`):
    every forward edge that does not lead to the next block needs a block that
    is open at its source and ends just before its target. */
module BlockInsertion {
  import opened Options
  import opened Linear

  predicate IsStart(x: SeqItem) { x.StartLoop? || x.StartBlock? }

  predicate IsEnd(x: SeqItem) { x.EndLoop? || x.EndBlock? }

  function Delta(x: SeqItem): int {
    if IsStart(x) then 1 else if IsEnd(x) then -1 else 0
  }

  /** Opened minus closed over a stretch. */
  function Depth(items: seq<SeqItem>): int {
    if items == [] then 0 else Depth(items[..|items| - 1]) + Delta(items[|items| - 1])
  }

  /** The basic blocks of a stretch, in order. */
  function Basics(items: seq<SeqItem>): seq<nat> {
    if items == [] then [] else
    Basics(items[..|items| - 1]) + if items[|items| - 1].Basic? then [items[|items| - 1].bb] else []
  }

  /** The labels of the opening and closing items of a stretch, in order. */
  function Marks(items: seq<SeqItem>): seq<nat> {
    if items == [] then [] else
    Marks(items[..|items| - 1]) + if items[|items| - 1].Basic? then [] else [items[|items| - 1].bb]
  }

  /** The first basic block of a stretch. */
  function FirstBasic(items: seq<SeqItem>): Option<nat> {
    if items == [] then None
    else if items[0].Basic? then Some(items[0].bb)
    else FirstBasic(items[1..])
  }

  method NextBlockIs(items: seq<SeqItem>, next: nat) returns (r: bool)
    ensures r <==> FirstBasic(items) == Some(next)
  {
    for i := 0 to |items|
      invariant FirstBasic(items) == FirstBasic(items[i..])
    {
      if items[i].Basic? {
        return items[i].bb == next;
      }
      assert items[i..][1..] == items[i + 1..];
    }
    return false;
  }

  /** The last place of a block, and closed minus opened after it. */
  function NodeBackwards(items: seq<SeqItem>, next: nat): (r: (nat, int))
    requires Basic(next) in items
    ensures r.0 < |items| && items[r.0] == Basic(next)
  {
    var n := |items| - 1;
    if items[n] == Basic(next) then (n, 0)
    else
      assert items == items[..n] + [items[n]];
      var (j, depth) := NodeBackwards(items[..n], next);
      (j, depth - Delta(items[n]))
  }

  method FindNodeBackwards(items: seq<SeqItem>, next: nat) returns (j: nat, depth: int)
    requires Basic(next) in items
    ensures (j, depth) == NodeBackwards(items, next)
  {
    depth := 0;
    var i := 0;
    assert items[..|items| - i] == items;
    while true
      invariant i < |items| && Basic(next) in items[..|items| - i]
      invariant NodeBackwards(items, next)
                == (NodeBackwards(items[..|items| - i], next).0, NodeBackwards(items[..|items| - i], next).1 + depth)
      decreases |items| - i
    {
      var item := items[|items| - i - 1];
      var rest := items[..|items| - i];
      assert rest[..|rest| - 1] == items[..|items| - i - 1];
      match item {
        case Basic(found) =>
          if found == next {
            return |items| - i - 1, depth;
          }
        case EndLoop(_) => depth := depth + 1;
        case EndBlock(_) => depth := depth + 1;
        case StartLoop(_) => depth := depth - 1;
        case StartBlock(_) => depth := depth - 1;
      }
      assert rest == items[..|items| - i - 1] + [item];
      i := i + 1;
    }
  }

  /** The last opening item that stands at the given depth. */
  function LastStartAt(items: seq<SeqItem>, target: int): (r: Option<nat>)
    ensures r.Some? ==> r.value < |items| && IsStart(items[r.value]) && Depth(items[..r.value]) == target
  {
    if items == [] then None
    else
      var n := |items| - 1;
      if IsStart(items[n]) && Depth(items[..n]) == target then Some(n)
      else
        var r := LastStartAt(items[..n], target);
        assert r.Some? ==> items[..n][..r.value] == items[..r.value];
        r
  }

  function DepthForwards(items: seq<SeqItem>, target: int): (k: nat)
    ensures k <= |items|
  {
    var r := LastStartAt(items, target);
    if r.Some? then r.value else if target == 0 then 0 else |items|
  }

  method FindDepthForwards(items: seq<SeqItem>, target: int) returns (last: nat)
    ensures last == DepthForwards(items, target)
  {
    var depth := 0;
    last := if target == 0 then 0 else |items|;
    for i := 0 to |items|
      invariant depth == Depth(items[..i])
      invariant last == (var r := LastStartAt(items[..i], target);
                         if r.Some? then r.value else if target == 0 then 0 else |items|)
    {
      assert items[..i + 1][..i] == items[..i];
      match items[i] {
        case Basic(_) =>
        case StartLoop(_) =>
          if depth == target { last := i; }
          depth := depth + 1;
        case StartBlock(_) =>
          if depth == target { last := i; }
          depth := depth + 1;
        case EndLoop(_) => depth := depth - 1;
        case EndBlock(_) => depth := depth - 1;
      }
    }
    assert items[..|items|] == items;
  }

  /** Put an item in front of position k. */
  function InsertAt(items: seq<SeqItem>, k: nat, x: SeqItem): seq<SeqItem>
    requires k <= |items|
  {
    items[..k] + [x] + items[k..]
  }

  /** One insertion: `end` before the target, `block` at the depth of that place. */
  function InsertPair(items: seq<SeqItem>, i: nat, next: nat): (r: seq<SeqItem>)
    requires i < |items| && Basic(next) in items
  {
    var (j, depth) := NodeBackwards(items, next);
    var closed := InsertAt(items, j, EndBlock(next));
    var k := DepthForwards(closed[..i], depth);
    InsertAt(closed, k, StartBlock(next))
  }

  /** A pair around items k to j. */
  function Inserted(items: seq<SeqItem>, k: nat, j: nat, next: nat): seq<SeqItem>
    requires k <= j <= |items|
  {
    items[..k] + [StartBlock(next)] + items[k..j] + [EndBlock(next)] + items[j..]
  }

  // ---- Facts about stretches.

  lemma {:induction false} DepthConcat(a: seq<SeqItem>, b: seq<SeqItem>)
    ensures Depth(a + b) == Depth(a) + Depth(b)
  {
    if b == [] {
      assert a + b == a;
    } else {
      var n := |b| - 1;
      DepthConcat(a, b[..n]);
      assert (a + b)[..|a + b| - 1] == a + b[..n];
    }
  }

  lemma {:induction false} BasicsConcat(a: seq<SeqItem>, b: seq<SeqItem>)
    ensures Basics(a + b) == Basics(a) + Basics(b)
  {
    if b == [] {
      assert a + b == a;
    } else {
      var n := |b| - 1;
      BasicsConcat(a, b[..n]);
      assert (a + b)[..|a + b| - 1] == a + b[..n];
    }
  }

  lemma {:induction false} MarksConcat(a: seq<SeqItem>, b: seq<SeqItem>)
    ensures Marks(a + b) == Marks(a) + Marks(b)
  {
    if b == [] {
      assert a + b == a;
    } else {
      var n := |b| - 1;
      MarksConcat(a, b[..n]);
      assert (a + b)[..|a + b| - 1] == a + b[..n];
    }
  }

  /** The depth that the backwards search reports is that of the place found. */
  lemma {:induction false} NodeBackwardsDepth(items: seq<SeqItem>, next: nat)
    requires Basic(next) in items
    ensures var (j, depth) := NodeBackwards(items, next);
            depth == -Depth(items[j..]) && depth == Depth(items[..j]) - Depth(items)
  {
    var n := |items| - 1;
    var (j, depth) := NodeBackwards(items, next);
    if items[n] == Basic(next) {
      assert items[n..][..0] == [];
    } else {
      assert items == items[..n] + [items[n]];
      NodeBackwardsDepth(items[..n], next);
      assert items[..n][..j] == items[..j];
      assert items[j..][..n - j] == items[..n][j..];
    }
    DepthConcat(items[..j], items[j..]);
    assert items == items[..j] + items[j..];
  }

  // ---- Loop-free sequences: one nest of blocks.

  ghost predicate NoStart(items: seq<SeqItem>) {
    forall p :: 0 <= p < |items| ==> !IsStart(items[p])
  }

  ghost predicate NoEnd(items: seq<SeqItem>) {
    forall p :: 0 <= p < |items| ==> !IsEnd(items[p])
  }

  lemma NoEndSplit(a: seq<SeqItem>, b: seq<SeqItem>)
    ensures NoEnd(a + b) <==> NoEnd(a) && NoEnd(b)
  {
    assert forall p :: 0 <= p < |a| ==> a[p] == (a + b)[p];
    assert forall p :: 0 <= p < |b| ==> b[p] == (a + b)[p + |a|];
  }

  lemma NoStartSplit(a: seq<SeqItem>, b: seq<SeqItem>)
    ensures NoStart(a + b) <==> NoStart(a) && NoStart(b)
  {
    assert forall p :: 0 <= p < |a| ==> a[p] == (a + b)[p];
    assert forall p :: 0 <= p < |b| ==> b[p] == (a + b)[p + |a|];
  }

  lemma NoStartSlice(items: seq<SeqItem>, i: nat, j: nat, c: nat)
    requires i <= j <= c <= |items| && NoStart(items[i..])
    ensures NoStart(items[j..]) && NoStart(items[j..c])
  {
    assert items[i..] == items[i..j] + items[j..];
    NoStartSplit(items[i..j], items[j..]);
    assert items[j..] == items[j..c] + items[c..];
    NoStartSplit(items[j..c], items[c..]);
  }

  /** All openings precede all closings, which come in the reverse order. */
  ghost predicate Nest(a: seq<SeqItem>, b: seq<SeqItem>) {
    NoEnd(a) && NoStart(b) && Marks(a) == Rev(Marks(b))
  }

  /** Cut at c, the sequence is a single nest of blocks. */
  ghost predicate Chain(items: seq<SeqItem>, c: nat) {
    c <= |items| && Nest(items[..c], items[c..])
  }

  lemma {:induction false} MarksOfNoEnd(items: seq<SeqItem>)
    requires NoEnd(items)
    ensures |Marks(items)| == Depth(items)
  {
    if items != [] {
      MarksOfNoEnd(items[..|items| - 1]);
    }
  }

  lemma {:induction false} MarksOfNoStart(items: seq<SeqItem>)
    requires NoStart(items)
    ensures |Marks(items)| == -Depth(items)
  {
    if items != [] {
      MarksOfNoStart(items[..|items| - 1]);
    }
  }

  /** Where only openings stand, the search finds the one opened at the depth,
      or none if that many are not opened. */
  lemma {:induction false} LastStartAmongStarts(items: seq<SeqItem>, target: nat)
    requires NoEnd(items)
    ensures LastStartAt(items, target).Some? <==> |Marks(items)| > target
    ensures LastStartAt(items, target).Some? ==>
              |Marks(items[..LastStartAt(items, target).value])| == target
  {
    if items != [] {
      var n := |items| - 1;
      MarksOfNoEnd(items[..n]);
      LastStartAmongStarts(items[..n], target);
      var r := LastStartAt(items[..n], target);
      if r.Some? {
        assert items[..n][..r.value] == items[..r.value];
      }
    }
  }

  /** Closings after that do not change what the search finds. */
  lemma {:induction false} LastStartBeforeEnds(a: seq<SeqItem>, b: seq<SeqItem>, target: nat)
    requires NoStart(b)
    ensures LastStartAt(a + b, target) == LastStartAt(a, target)
  {
    if b == [] {
      assert a + b == a;
    } else {
      var n := |b| - 1;
      assert (a + b)[..|a + b| - 1] == a + b[..n];
      LastStartBeforeEnds(a, b[..n], target);
    }
  }

  lemma {:induction false} NoMarks(items: seq<SeqItem>)
    requires NoStart(items) && NoEnd(items)
    ensures Marks(items) == []
  {
    if items != [] {
      NoMarks(items[..|items| - 1]);
    }
  }

  lemma NestForward(a: seq<SeqItem>, m: seq<SeqItem>, b: seq<SeqItem>)
    requires Nest(a, m + b) && NoEnd(m)
    ensures Nest(a + m, b)
  {
    assert forall p :: 0 <= p < |m| ==> m[p] == (m + b)[p];
    assert forall p :: 0 <= p < |b| ==> b[p] == (m + b)[p + |m|];
    NoMarks(m);
    MarksConcat(a, m);
    MarksConcat(m, b);
    assert Marks(a + m) == Marks(a) && Marks(m + b) == Marks(b);
  }

  lemma NestBackward(a: seq<SeqItem>, m: seq<SeqItem>, b: seq<SeqItem>)
    requires Nest(a + m, b) && NoStart(m)
    ensures Nest(a, m + b)
  {
    assert forall p :: 0 <= p < |a| ==> a[p] == (a + m)[p];
    assert forall p :: 0 <= p < |m| ==> m[p] == (a + m)[p + |a|];
    NoMarks(m);
    MarksConcat(a, m);
    MarksConcat(m, b);
    assert Marks(a + m) == Marks(a) && Marks(m + b) == Marks(b);
  }

  /** The place where openings turn into closings can be moved over a stretch
      that holds neither. */
  lemma ChainRecut(items: seq<SeqItem>, c: nat, c': nat)
    requires Chain(items, c) && c' <= |items|
    requires if c <= c' then NoEnd(items[c..c']) else NoStart(items[c'..c])
    ensures Chain(items, c')
  {
    if c <= c' {
      assert items[c..] == items[c..c'] + items[c'..];
      NestForward(items[..c], items[c..c'], items[c'..]);
      assert items[..c'] == items[..c] + items[c..c'];
    } else {
      assert items[..c] == items[..c'] + items[c'..c];
      NestBackward(items[..c'], items[c'..c], items[c..]);
      assert items[c'..] == items[c'..c] + items[c..];
    }
  }

  /** Facts about one insertion into a chain: where its two items go. */
  lemma ChainPlaces(items: seq<SeqItem>, c: nat, i: nat, next: nat)
    returns (c': nat, j: nat, k: nat)
    requires Chain(items, c) && i < |items| && NoStart(items[i..])
    requires Basic(next) in items && NodeBackwards(items, next).0 > i
    ensures Chain(items, c') && k <= c' <= j && k <= i < j < |items| && items[j] == Basic(next)
    ensures InsertPair(items, i, next) == Inserted(items, k, j, next)
    ensures |Marks(items[..k])| == |Marks(items[j..])|
    ensures k == 0 || IsStart(items[k]) || NoEnd(items[..k])
  {
    hide Chain, Marks, LastStartAt;
    j := NodeBackwards(items, next).0;
    NodeBackwardsDepth(items, next);
    NoStartSlice(items, i, j, |items|);
    MarksOfNoStart(items[j..]);
    hide NoStart, NoEnd;
    c' := ChainCut(items, c, i, j);
    k := ChainDepth(items, c', i, j);
    InsertPairIs(items, i, j, k, next);
  }

  lemma InsertPairIs(items: seq<SeqItem>, i: nat, j: nat, k: nat, next: nat)
    requires i < |items| && Basic(next) in items && j == NodeBackwards(items, next).0 > i
    requires k == DepthForwards(items[..i], NodeBackwards(items, next).1)
    ensures k <= i
    ensures InsertPair(items, i, next) == Inserted(items, k, j, next)
  {
    var e := [EndBlock(next)];
    var closed := InsertAt(items, j, EndBlock(next));
    TwoInserts(items, k, j, [StartBlock(next)], e);
    assert closed == items[..j] + e + items[j..];
    assert closed[..i] == items[..i];
  }

  lemma TwoInserts(items: seq<SeqItem>, k: nat, j: nat, s: seq<SeqItem>, e: seq<SeqItem>)
    requires k <= j <= |items|
    ensures var closed := items[..j] + e + items[j..];
            closed[..k] + s + closed[k..] == items[..k] + s + items[k..j] + e + items[j..]
  {
    var closed := items[..j] + e + items[j..];
    assert closed[..k] == items[..k];
    assert closed[k..] == items[k..j] + (e + items[j..]);
  }

  /** The cut can be put at i if nothing closes before it, and not after j. */
  lemma ChainCut(items: seq<SeqItem>, c: nat, i: nat, j: nat) returns (c': nat)
    requires Chain(items, c) && i < j < |items| && NoStart(items[i..])
    ensures Chain(items, c') && c' <= j && (i <= c' || !NoEnd(items[c'..i]))
  {
    c' := c;
    if c > j {
      NoStartSlice(items, i, j, c);
      ChainRecut(items, c, j);
      c' := j;
    } else if c < i && NoEnd(items[c..i]) {
      ChainRecut(items, c, i);
      c' := i;
    }
  }

  /** Where the forwards search lands. */
  lemma ChainDepth(items: seq<SeqItem>, c: nat, i: nat, j: nat) returns (k: nat)
    requires Chain(items, c) && i < j < |items| && c <= j && NoStart(items[i..])
    requires i <= c || !NoEnd(items[c..i])
    ensures k == DepthForwards(items[..i], |Marks(items[j..])|)
    ensures k <= c && k <= i && |Marks(items[..k])| == |Marks(items[j..])|
    ensures k == 0 || IsStart(items[k]) || (k == i && NoEnd(items[..i]))
  {
    hide NoStart, NoEnd, LastStartAt;
    if i <= c {
      k := DepthAmongStarts(items, c, i, j);
    } else {
      k := DepthAfterEnds(items, c, i, j);
    }
  }

  lemma DepthAmongStarts(items: seq<SeqItem>, c: nat, i: nat, j: nat) returns (k: nat)
    requires Chain(items, c) && i <= c <= j < |items| && NoStart(items[i..])
    ensures k == DepthForwards(items[..i], |Marks(items[j..])|)
    ensures k <= i && |Marks(items[..k])| == |Marks(items[j..])|
    ensures k == 0 || IsStart(items[k]) || (k == i && NoEnd(items[..i]))
  {
    hide NoStart, NoEnd, LastStartAt, Marks;
    var d := |Marks(items[j..])|;
    k := DepthForwards(items[..i], d);
    assert items[c..] == items[c..j] + items[j..];
    MarksConcat(items[c..j], items[j..]);
    assert items[..c] == items[..i] + items[i..c];
    NoEndSplit(items[..i], items[i..c]);
    NoStartSlice(items, i, i, c);
    NoMarks(items[i..c]);
    MarksConcat(items[..i], items[i..c]);
    LastStartAmongStarts(items[..i], d);
    assert items[..i][..k] == items[..k];
    assert items[..i][..i] == items[..i];
    assert Marks(items[..0]) == [] by { NoMarksEmpty(items); }
  }

  lemma NoMarksEmpty(items: seq<SeqItem>)
    ensures Marks(items[..0]) == []
  {
  }

  lemma DepthAfterEnds(items: seq<SeqItem>, c: nat, i: nat, j: nat) returns (k: nat)
    requires Chain(items, c) && c < i < j < |items| && !NoEnd(items[c..i])
    ensures k == DepthForwards(items[..i], |Marks(items[j..])|)
    ensures k <= c && |Marks(items[..k])| == |Marks(items[j..])|
    ensures IsStart(items[k])
  {
    hide NoStart, NoEnd, LastStartAt, Marks;
    var d := |Marks(items[j..])|;
    var a, b := items[..c], items[c..i];
    assert items[..i] == a + b;
    assert items[c..] == b + (items[i..j] + items[j..]);
    NoStartSplit(b, items[i..j] + items[j..]);
    LastStartBeforeEnds(a, b, d);
    SomeMark(b);
    MarksConcat(b, items[i..j] + items[j..]);
    MarksConcat(items[i..j], items[j..]);
    LastStartAmongStarts(a, d);
    k := LastStartAt(a, d).value;
    assert a[..k] == items[..k];
  }

  lemma {:induction false} SomeMark(items: seq<SeqItem>)
    requires !NoEnd(items)
    ensures |Marks(items)| > 0
  {
    var n := |items| - 1;
    if !IsEnd(items[n]) {
      SomeMark(items[..n]);
    }
  }

  /** A pair inserted with as many openings before it as closings after it
      keeps the nest. */
  lemma ChainInsert(items: seq<SeqItem>, c: nat, k: nat, j: nat, next: nat)
    requires Chain(items, c) && k <= c <= j <= |items|
    requires |Marks(items[..k])| == |Marks(items[j..])|
    ensures Chain(items[..k] + [StartBlock(next)] + items[k..j] + [EndBlock(next)] + items[j..], c + 1)
  {
    hide Nest, Marks;
    var a1, a2, b1, b2 := items[..k], items[k..c], items[c..j], items[j..];
    var s, e := [StartBlock(next)], [EndBlock(next)];
    assert items[..c] == a1 + a2 && items[c..] == b1 + b2 && items[k..j] == a2 + b1;
    NestInsert(a1, a2, b1, b2, next);
    var all := items[..k] + s + items[k..j] + e + items[j..];
    var l, r := a1 + s + a2, b1 + e + b2;
    assert all == l + r;
    assert |l| == c + 1;
    assert all[..c + 1] == l && all[c + 1..] == r;
  }

  lemma NestInsert(a1: seq<SeqItem>, a2: seq<SeqItem>, b1: seq<SeqItem>, b2: seq<SeqItem>, next: nat)
    requires Nest(a1 + a2, b1 + b2) && |Marks(a1)| == |Marks(b2)|
    ensures Nest(a1 + [StartBlock(next)] + a2, b1 + [EndBlock(next)] + b2)
  {
    var s, e := [StartBlock(next)], [EndBlock(next)];
    NoEndSplit(a1, a2);
    NoEndSplit(a1 + s, a2);
    NoEndSplit(a1, s);
    NoStartSplit(b1, b2);
    NoStartSplit(b1 + e, b2);
    NoStartSplit(b1, e);
    assert NoEnd(s) && NoStart(e);
    hide NoStart, NoEnd, Marks;
    NestMarks(a1, a2, b1, b2, next);
  }

  lemma NestMarks(a1: seq<SeqItem>, a2: seq<SeqItem>, b1: seq<SeqItem>, b2: seq<SeqItem>, next: nat)
    requires Marks(a1 + a2) == Rev(Marks(b1 + b2)) && |Marks(a1)| == |Marks(b2)|
    ensures Marks(a1 + [StartBlock(next)] + a2) == Rev(Marks(b1 + [EndBlock(next)] + b2))
  {
    var s, e := [StartBlock(next)], [EndBlock(next)];
    MarksConcat(a1, a2);
    MarksConcat(b1, b2);
    MarksConcat(a1 + s, a2);
    MarksConcat(a1, s);
    MarksConcat(b1 + e, b2);
    MarksConcat(b1, e);
    assert Marks(s) == [next] && Marks(e) == [next];
    RevConcat(Marks(b1), Marks(b2));
    RevLoopMarks(Marks(b1), next, Marks(b2));
    var l, r := Marks(a1) + Marks(a2), Rev(Marks(b2)) + Rev(Marks(b1));
    assert l == r;
    assert Marks(a1) == l[..|Marks(a1)|] == r[..|Marks(a1)|] == Rev(Marks(b2));
    assert Marks(a2) == l[|Marks(a1)|..] == r[|Marks(a1)|..] == Rev(Marks(b1));
  }

  lemma RevLoopMarks(a: seq<nat>, x: nat, b: seq<nat>)
    ensures Rev(a + [x] + b) == Rev(b) + [x] + Rev(a)
  {
    RevConcat(a + [x], b);
    RevConcat(a, [x]);
  }
}
