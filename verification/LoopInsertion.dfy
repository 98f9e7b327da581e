/** What one block insertion does when there are loops: the pass looks for the
    last opening at the right depth, which may lie in a region closed since. */
module LoopInsertion {
  import opened Options
  import opened Linear
  import opened BlockInsertion
  import opened StructuredCode
  import opened StructuredRun

  /** From k to p no region that was open at k is closed. */
  predicate StaysOpen(items: seq<SeqItem>, k: nat, p: nat)
    requires k <= p <= |items|
  {
    forall q :: k <= q <= p ==> Depth(items[..q]) >= Depth(items[..k])
  }

  function Opened(items: seq<SeqItem>, k: nat, p: nat, next: nat): seq<SeqItem>
    requires k <= p <= |items|
  {
    items[..k] + [StartBlock(next)] + items[k..p]
  }

  lemma OpenedStep(items: seq<SeqItem>, k: nat, p: nat, next: nat)
    requires k < p <= |items|
    ensures Opened(items, k, p, next) == Opened(items, k, p - 1, next) + [items[p - 1]]
    ensures items[..p] == items[..p - 1] + [items[p - 1]]
  {
    assert items[k..p] == items[k..p - 1] + [items[p - 1]];
  }

  lemma ScanSnoc(items: seq<SeqItem>, x: SeqItem)
    ensures Depth(items + [x]) == Depth(items) + Delta(x)
    ensures Scan(items + [x]) ==
              var before := Scan(items);
              if before.None? || x.Basic? then before
              else if IsStart(x) then Some(before.value + [x.bb])
              else if before.value != [] && before.value[|before.value| - 1] == x.bb
              then Some(before.value[..|before.value| - 1])
              else None
  {
    assert (items + [x])[..|items|] == items;
  }

  /** While nothing below is closed, the new label just lies in the stack. */
  lemma {:induction false} LiftKeeps(items: seq<SeqItem>, k: nat, p: nat, next: nat)
    requires k <= p <= |items| && Scan(items).Some? && StaysOpen(items, k, p)
    ensures Scan(items[..k]).Some? && Scan(items[..p]).Some?
    ensures var base, top := Scan(items[..k]).value, Scan(items[..p]).value;
            base <= top && Scan(Opened(items, k, p, next)) == Some(base + [next] + top[|base|..])
    decreases p
  {
    hide Scan, Depth;
    ScanPrefix(items, k);
    ScanPrefix(items, p);
    var base, top := Scan(items[..k]).value, Scan(items[..p]).value;
    if p == k {
      ScanSnoc(items[..k], StartBlock(next));
      assert Opened(items, k, p, next) == items[..k] + [StartBlock(next)];
      assert top[|base|..] == [] && base + [next] + [] == base + [next];
      assert items[..k] + [StartBlock(next)] + [] == items[..k] + [StartBlock(next)];
    } else {
      var x := items[p - 1];
      LiftKeeps(items, k, p - 1, next);
      OpenedStep(items, k, p, next);
      ScanSnoc(items[..p - 1], x);
      ScanSnoc(Opened(items, k, p - 1, next), x);
      ScanDepth(items[..k]);
      ScanDepth(items[..p]);
      var below := Scan(items[..p - 1]).value;
      LiftSeqs(base, next, below, x.bb);
    }
  }

  lemma LiftSeqs(base: seq<nat>, next: nat, below: seq<nat>, b: nat)
    requires base <= below
    ensures base + [next] + (below + [b])[|base|..] == base + [next] + below[|base|..] + [b]
    ensures |below| > |base| ==>
              var s := base + [next] + below[|base|..];
              && s[|s| - 1] == below[|below| - 1]
              && s[..|s| - 1] == base + [next] + below[..|below| - 1][|base|..]
              && base <= below[..|below| - 1]
  {
  }

  /** If a region open at k is closed before p, its closing meets the new label. */
  lemma {:induction false} LiftBreaks(items: seq<SeqItem>, k: nat, p: nat, next: nat)
    requires k <= p <= |items| && Scan(items).Some? && !StaysOpen(items, k, p)
    requires forall q :: 0 <= q < |items| && IsEnd(items[q]) ==> items[q].bb != next
    ensures Scan(Opened(items, k, p, next)).None?
    decreases p
  {
    hide Scan, Depth;
    assert p > k;
    var x := items[p - 1];
    OpenedStep(items, k, p, next);
    ScanSnoc(Opened(items, k, p - 1, next), x);
    if StaysOpen(items, k, p - 1) {
      LiftKeeps(items, k, p - 1, next);
      ScanSnoc(items[..p - 1], x);
      ScanDepth(items[..k]);
      ScanDepth(items[..p - 1]);
      assert Depth(items[..p]) < Depth(items[..k]);
      var base, top := Scan(items[..k]).value, Scan(items[..p - 1]).value;
      assert base + [next] + top[|base|..] == base + [next];
    } else {
      LiftBreaks(items, k, p - 1, next);
    }
  }

  /** What follows a stretch sees only the labels it leaves open. */
  lemma {:induction false} ScanAfter(a: seq<SeqItem>, a': seq<SeqItem>, b: seq<SeqItem>)
    requires Scan(a) == Scan(a')
    ensures Scan(a + b) == Scan(a' + b)
  {
    hide Scan, Depth;
    if b == [] {
      assert a + b == a && a' + b == a';
    } else {
      var n := |b| - 1;
      ScanAfter(a, a', b[..n]);
      ScanSnoc(a + b[..n], b[n]);
      ScanSnoc(a' + b[..n], b[n]);
      assert a + b == (a + b[..n]) + [b[n]];
      assert a' + b == (a' + b[..n]) + [b[n]];
    }
  }

  lemma {:induction false} ScanFailed(a: seq<SeqItem>, b: seq<SeqItem>)
    requires Scan(a).None?
    ensures Scan(a + b).None?
  {
    if b == [] {
      assert a + b == a;
    } else {
      var n := |b| - 1;
      ScanFailed(a, b[..n]);
      assert a + b == a + b[..n] + [b[n]];
      ScanSnoc(a + b[..n], b[n]);
    }
  }

  /** On any properly nested sequence, loops included, a pair inserted at k and j
      leaves it nested if and only if both places have the same depth and nothing
      open at k is closed in between. */
  lemma PairNestsIff(items: seq<SeqItem>, k: nat, j: nat, next: nat)
    requires k <= j <= |items| && Scan(items) == Some([])
    requires forall q :: 0 <= q < |items| && IsEnd(items[q]) ==> items[q].bb != next
    ensures Scan(Inserted(items, k, j, next)) == Some([])
       <==> Depth(items[..k]) == Depth(items[..j]) && StaysOpen(items, k, j)
  {
    hide Scan, Depth, StaysOpen;
    var before, e := Opened(items, k, j, next), EndBlock(next);
    assert Inserted(items, k, j, next) == (before + [e]) + items[j..];
    ScanSnoc(before, e);
    if StaysOpen(items, k, j) {
      OpenPairNests(items, k, j, next);
    } else {
      LiftBreaks(items, k, j, next);
      ScanFailed(before + [e], items[j..]);
    }
  }

  lemma OpenPairNests(items: seq<SeqItem>, k: nat, j: nat, next: nat)
    requires k <= j <= |items| && Scan(items) == Some([]) && StaysOpen(items, k, j)
    requires forall q :: 0 <= q < |items| && IsEnd(items[q]) ==> items[q].bb != next
    ensures Scan((Opened(items, k, j, next) + [EndBlock(next)]) + items[j..]) == Some([])
       <==> Depth(items[..k]) == Depth(items[..j])
  {
    hide Scan, Depth, StaysOpen, EndedIn;
    var before, e := Opened(items, k, j, next), EndBlock(next);
    assert items == items[..j] + items[j..];
    ScanSnoc(before, e);
    LiftKeeps(items, k, j, next);
    ScanDepth(items[..k]);
    ScanDepth(items[..j]);
    var base, top := Scan(items[..k]).value, Scan(items[..j]).value;
    if |base| == |top| {
      SameStack(base, top, next);
      ScanAfter(before + [e], items[..j], items[j..]);
    } else {
      TopIsEnded(items, j);
      NeverEnded(items, next);
      TopOfLifted(base, top, next);
      ScanFailed(before + [e], items[j..]);
    }
  }

  lemma SameStack(base: seq<nat>, top: seq<nat>, next: nat)
    requires base <= top && |base| == |top|
    ensures base == top && base + [next] + top[|base|..] == base + [next] && (base + [next])[..|base|] == base
  {
  }

  lemma TopOfLifted(base: seq<nat>, top: seq<nat>, next: nat)
    requires base <= top && |base| != |top|
    ensures var s := base + [next] + top[|base|..]; s[|s| - 1] == top[|top| - 1]
  {
  }

  lemma NeverEnded(items: seq<SeqItem>, next: nat)
    requires forall q :: 0 <= q < |items| && IsEnd(items[q]) ==> items[q].bb != next
    ensures !EndedIn(items, next)
  {
  }

  ghost predicate EndedIn(items: seq<SeqItem>, w: nat) {
    exists q :: 0 <= q < |items| && IsEnd(items[q]) && items[q].bb == w
  }

  /** In a nested sequence an open label is closed later. */
  lemma {:induction false} TopIsEnded(items: seq<SeqItem>, j: nat)
    requires j <= |items| && Scan(items) == Some([])
    ensures Scan(items[..j]).Some?
    ensures var open := Scan(items[..j]).value; forall x :: 0 <= x < |open| ==> EndedIn(items, open[x])
    decreases |items| - j
  {
    hide Scan, EndedIn;
    if j == |items| {
      assert items[..j] == items;
    } else {
      TopIsEnded(items, j + 1);
      ScanPrefix(items, j);
      ScanNext(items, j);
      EndedAt(items, j);
      var open, open' := Scan(items[..j]).value, Scan(items[..j + 1]).value;
      forall x | 0 <= x < |open|
        ensures EndedIn(items, open[x])
      {
        if x < |open'| {
          assert open'[x] == open[x];
        }
      }
    }
  }

  lemma EndedAt(items: seq<SeqItem>, q: nat)
    requires q < |items|
    ensures IsEnd(items[q]) ==> EndedIn(items, items[q].bb)
  {
  }
}
