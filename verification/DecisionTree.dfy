/** Pattern matrices and their compilation to decision trees (`decision_tree.rs`). */
module DecisionTree {
  import opened Options
  import opened StarTypes

  /** A simplified pattern; a wildcard may bind its position for one arm. */
  datatype Pat =
    | Wildcard(binding: Option<Binder>)
    | PCtor(ctor: Ctor, args: seq<Pat>)

  datatype Binder = Binder(arm: nat, name: string)

  datatype Row = Row(pats: seq<Pat>, action: nat)

  datatype LeafBinding = LeafBinding(action: nat, name: string, column: nat)

  datatype Tree =
    | Leaf(action: nat, bindings: seq<LeafBinding>)
    | Fail
    | Switch(column: nat, cases: seq<Case>, default: Option<Tree>)

  datatype Case = Case(ctor: Ctor, tree: Tree)

  // ---- Typing.

  predicate PatHasType(p: Pat, t: Type)
    decreases p
  {
    match p
    case Wildcard(_) => true
    case PCtor(c, args) =>
      && CtorOf(c, t) && |args| == |FieldTypes(c, t)|
      && forall i :: 0 <= i < |args| ==> PatHasType(args[i], FieldTypes(c, t)[i])
  }

  predicate PatsHaveTypes(ps: seq<Pat>, ts: seq<Type>) {
    |ps| == |ts| && forall i :: 0 <= i < |ps| ==> PatHasType(ps[i], ts[i])
  }

  predicate MatrixTyped(rows: seq<Row>, ts: seq<Type>) {
    forall r :: 0 <= r < |rows| ==> PatsHaveTypes(rows[r].pats, ts)
  }

  // ---- Columns.

  /** Replace column `col` by `mid`. */
  function Splice<T>(s: seq<T>, col: nat, mid: seq<T>): (r: seq<T>)
    requires col < |s|
    ensures |r| == |s| - 1 + |mid|
  {
    s[..col] + mid + s[col + 1..]
  }

  lemma SpliceAt<T>(s: seq<T>, col: nat, mid: seq<T>)
    requires col < |s|
    ensures forall i :: 0 <= i < col ==> Splice(s, col, mid)[i] == s[i]
    ensures forall i :: 0 <= i < |mid| ==> Splice(s, col, mid)[col + i] == mid[i]
    ensures forall i :: col < i < |s| ==> Splice(s, col, mid)[i - 1 + |mid|] == s[i]
  {
  }

  /** Where an index of a spliced sequence comes from. */
  lemma SpliceFrom<T>(s: seq<T>, col: nat, mid: seq<T>, i: nat)
    requires col < |s| && i < |s| - 1 + |mid|
    ensures Splice(s, col, mid)[i]
         == if i < col then s[i] else if i < col + |mid| then mid[i - col] else s[i + 1 - |mid|]
  {
  }

  function Blank(): Pat { Wildcard(None) }

  function Blanks(n: nat): (r: seq<Pat>)
    ensures |r| == n && forall i :: 0 <= i < n ==> r[i] == Blank()
  {
    seq(n, i => Blank())
  }

  // ---- Size.

  function PatSize(p: Pat): nat
    decreases p
  {
    match p
    case Wildcard(_) => 0
    case PCtor(_, args) => 1 + PatsSize(args)
  }

  function PatsSize(ps: seq<Pat>): nat
    decreases ps
  {
    if ps == [] then 0 else PatSize(ps[0]) + PatsSize(ps[1..])
  }

  /** The number of constructor nodes in a matrix. */
  function MatrixSize(rows: seq<Row>): nat {
    if rows == [] then 0 else PatsSize(rows[0].pats) + MatrixSize(rows[1..])
  }

  // ---- Specialisation and default.

  /** One row under constructor c at a column: its arguments, blanks, or nothing. */
  function SpecRow(row: Row, col: nat, c: Ctor, arity: nat): seq<Row>
    requires col < |row.pats|
  {
    match row.pats[col]
    case PCtor(c', args) => if c' == c then [Row(Splice(row.pats, col, args), row.action)] else []
    case Wildcard(_) => [Row(Splice(row.pats, col, Blanks(arity)), row.action)]
  }

  predicate Wide(rows: seq<Row>, col: nat) {
    forall r :: 0 <= r < |rows| ==> col < |rows[r].pats|
  }

  function SpecRows(rows: seq<Row>, col: nat, c: Ctor, arity: nat): seq<Row>
    requires Wide(rows, col)
  {
    if rows == [] then [] else SpecRow(rows[0], col, c, arity) + SpecRows(rows[1..], col, c, arity)
  }

  function DefaultRow(row: Row, col: nat): seq<Row>
    requires col < |row.pats|
  {
    if row.pats[col].Wildcard? then [Row(Splice(row.pats, col, []), row.action)] else []
  }

  function DefaultRows(rows: seq<Row>, col: nat): seq<Row>
    requires Wide(rows, col)
  {
    if rows == [] then [] else DefaultRow(rows[0], col) + DefaultRows(rows[1..], col)
  }

  method Specialize(rows: seq<Row>, col: nat, c: Ctor, colType: Type) returns (out: seq<Row>)
    requires Wide(rows, col)
    ensures out == SpecRows(rows, col, c, |FieldTypes(c, colType)|)
  {
    hide SpecRow, SpecRows, Splice, FieldTypes;
    var arity := |FieldTypes(c, colType)|;
    out := [];
    assert rows[0..] == rows;
    for r := 0 to |rows|
      invariant out + SpecRows(rows[r..], col, c, arity) == SpecRows(rows, col, c, arity)
    {
      SpecNext(rows, r, col, c, arity);
      var kept := SpecializeRow(rows[r], col, c, arity);
      assert out + (kept + SpecRows(rows[r + 1..], col, c, arity)) == out + kept + SpecRows(rows[r + 1..], col, c, arity);
      out := out + kept;
    }
    SpecEnd(rows, col, c, arity);
  }

  lemma SpecNext(rows: seq<Row>, r: nat, col: nat, c: Ctor, arity: nat)
    requires Wide(rows, col) && r < |rows|
    ensures SpecRows(rows[r..], col, c, arity) == SpecRow(rows[r], col, c, arity) + SpecRows(rows[r + 1..], col, c, arity)
  {
    hide SpecRow;
    assert rows[r..][1..] == rows[r + 1..];
  }

  lemma SpecEnd(rows: seq<Row>, col: nat, c: Ctor, arity: nat)
    ensures SpecRows(rows[|rows|..], col, c, arity) == []
  {
  }

  method SpecializeRow(row: Row, col: nat, c: Ctor, arity: nat) returns (kept: seq<Row>)
    requires col < |row.pats|
    ensures kept == SpecRow(row, col, c, arity)
  {
    match row.pats[col] {
      case PCtor(rowCtor, args) =>
        kept := if rowCtor == c then [Row(Splice(row.pats, col, args), row.action)] else [];
      case Wildcard(_) =>
        var blanks: seq<Pat> := [];
        for k := 0 to arity
          invariant blanks == Blanks(k)
        {
          blanks := blanks + [Blank()];
        }
        kept := [Row(Splice(row.pats, col, blanks), row.action)];
    }
  }

  method DefaultMatrix(rows: seq<Row>, col: nat) returns (out: seq<Row>)
    requires Wide(rows, col)
    ensures out == DefaultRows(rows, col)
  {
    out := [];
    assert rows[0..] == rows;
    for r := 0 to |rows|
      invariant out + DefaultRows(rows[r..], col) == DefaultRows(rows, col)
    {
      assert rows[r..][1..] == rows[r + 1..];
      if rows[r].pats[col].Wildcard? {
        out := out + [Row(Splice(rows[r].pats, col, []), rows[r].action)];
      }
    }
  }

  // ---- Column selection.

  /** How many leading rows have a constructor in the column. */
  function Score(rows: seq<Row>, col: nat): (n: nat)
    requires Wide(rows, col)
    ensures n <= |rows|
  {
    if rows == [] || rows[0].pats[col].Wildcard? then 0 else 1 + Score(rows[1..], col)
  }

  /** The leftmost column of the first n with the highest score, and that score. */
  function BestColumn(rows: seq<Row>, n: nat): (r: (nat, nat))
    requires forall col: nat :: col < n ==> Wide(rows, col)
  {
    if n == 0 then (0, 0)
    else
      var best := BestColumn(rows, n - 1);
      if Score(rows, n - 1) > best.1 then (n - 1, Score(rows, n - 1)) else best
  }

  /** The choice of column when some column starts with a constructor. */
  function SelectColumn(rows: seq<Row>): nat
    requires rows != [] && forall col: nat :: col < |rows[0].pats| ==> Wide(rows, col)
  {
    BestColumn(rows, |rows[0].pats|).0
  }

  /** It is the leftmost column whose constructor prefix is longest. */
  lemma {:induction false} BestColumnIsBest(rows: seq<Row>, n: nat)
    requires forall col: nat :: col < n ==> Wide(rows, col)
    ensures var (best, score) := BestColumn(rows, n);
            && (forall col: nat :: col < n ==> Score(rows, col) <= score)
            && (score > 0 ==> best < n && Score(rows, best) == score)
            && (forall col: nat :: col < n && col < best ==> Score(rows, col) < score)
  {
    if n > 0 {
      BestColumnIsBest(rows, n - 1);
    }
  }

  method SelectColumnImp(rows: seq<Row>) returns (col: nat)
    requires rows != [] && forall c: nat :: c < |rows[0].pats| ==> Wide(rows, c)
    requires exists c: nat :: c < |rows[0].pats| && rows[0].pats[c].PCtor?
    ensures col == SelectColumn(rows)
    ensures col < |rows[0].pats| && rows[0].pats[col].PCtor?
  {
    var n := |rows[0].pats|;
    var bestCol, bestScore := 0, 0;
    for c := 0 to n
      invariant (bestCol, bestScore) == BestColumn(rows, c)
    {
      var score: nat := 0;
      assert rows[0..] == rows;
      assert Wide(rows, c);
      while score < |rows| && rows[score].pats[c].PCtor?
        invariant score <= |rows| && Wide(rows[score..], c)
        invariant Score(rows, c) == score + Score(rows[score..], c)
      {
        assert rows[score..][1..] == rows[score + 1..];
        score := score + 1;
      }
      if score > bestScore {
        bestScore := score;
        bestCol := c;
      }
    }
    BestColumnIsBest(rows, n);
    ghost var some: nat :| some < n && rows[0].pats[some].PCtor?;
    assert Score(rows, some) >= 1;
    // The original's fallback for a best score of 0 is dead here.
    col := bestCol;
  }

  // ---- Head constructors.

  function HeadCtors(rows: seq<Row>, col: nat): seq<Ctor>
    requires Wide(rows, col)
  {
    if rows == [] then []
    else
      var before := HeadCtors(rows[..|rows| - 1], col);
      var p := rows[|rows| - 1].pats[col];
      if p.PCtor? && p.ctor !in before then before + [p.ctor] else before
  }

  method HeadConstructors(rows: seq<Row>, col: nat) returns (ctors: seq<Ctor>)
    requires Wide(rows, col)
    ensures ctors == HeadCtors(rows, col)
  {
    ctors := [];
    for r := 0 to |rows|
      invariant ctors == HeadCtors(rows[..r], col)
    {
      assert rows[..r + 1][..r] == rows[..r];
      var p := rows[r].pats[col];
      if p.PCtor? && p.ctor !in ctors {
        ctors := ctors + [p.ctor];
      }
    }
    assert rows[..|rows|] == rows;
  }

  /** Each constructor that heads the column, once. */
  lemma {:induction false} HeadCtorsAre(rows: seq<Row>, col: nat)
    requires Wide(rows, col)
    ensures forall c :: c in HeadCtors(rows, col) <==>
              exists r :: 0 <= r < |rows| && rows[r].pats[col].PCtor? && rows[r].pats[col].ctor == c
    ensures forall i, j :: 0 <= i < j < |HeadCtors(rows, col)| ==> HeadCtors(rows, col)[i] != HeadCtors(rows, col)[j]
  {
    if rows != [] {
      var n := |rows| - 1;
      HeadCtorsAre(rows[..n], col);
      var ctors, before := HeadCtors(rows, col), HeadCtors(rows[..n], col);
      forall c
        ensures c in ctors <==> exists r :: 0 <= r < |rows| && rows[r].pats[col].PCtor? && rows[r].pats[col].ctor == c
      {
        if c in before {
          var r :| 0 <= r < n && rows[..n][r].pats[col].PCtor? && rows[..n][r].pats[col].ctor == c;
          assert rows[r].pats[col].ctor == c;
        }
        if r :| 0 <= r < |rows| && rows[r].pats[col].PCtor? && rows[r].pats[col].ctor == c {
          if r < n {
            assert rows[..n][r].pats[col].ctor == c;
          }
        }
      }
    }
  }

  predicate HeadedBy(rows: seq<Row>, col: nat, r: nat, c: Ctor)
    requires Wide(rows, col)
  {
    r < |rows| && rows[r].pats[col].PCtor? && rows[r].pats[col].ctor == c
  }

  /** They are listed in the order in which they first appear: some row has constructor i,
      and neither it nor a row above it has constructor j. */
  lemma {:induction false} HeadCtorsInOrder(rows: seq<Row>, col: nat, i: nat, j: nat) returns (r: nat)
    requires Wide(rows, col) && i < j < |HeadCtors(rows, col)|
    ensures HeadedBy(rows, col, r, HeadCtors(rows, col)[i])
    ensures forall q: nat :: q <= r ==> !HeadedBy(rows, col, q, HeadCtors(rows, col)[j])
    decreases |rows|
  {
    var n := |rows| - 1;
    var before := HeadCtors(rows[..n], col);
    if j < |before| {
      r := HeadCtorsInOrder(rows[..n], col, i, j);
    } else {
      HeadCtorsAre(rows[..n], col);
      assert before[i] in before && rows[n].pats[col].ctor !in before;
      r :| 0 <= r < n && rows[..n][r].pats[col].PCtor? && rows[..n][r].pats[col].ctor == before[i];
    }
    assert forall q: nat :: q <= r ==> rows[..n][q] == rows[q];
    assert HeadedBy(rows[..n], col, r, before[i]);
    forall q: nat | q <= r
      ensures !HeadedBy(rows, col, q, HeadCtors(rows, col)[j])
    {
      assert !HeadedBy(rows[..n], col, q, HeadCtors(rows, col)[j]);
    }
  }

  predicate CompleteSignature(ctors: seq<Ctor>, t: Type) {
    match t
    case Bool => BoolTrue in ctors && BoolFalse in ctors
    case Enum(variants) => variants != [] && forall k: nat :: k < |variants| ==> EnumVariant(k) in ctors
    case Record(_) => true
    case Tuple(_) => true
    case Unit => true
    case _ => false
  }

  // ---- Leaf bindings.

  function BindingsUpTo(row: Row, n: nat): (r: seq<LeafBinding>)
    requires n <= |row.pats|
    ensures forall b :: b in r <==>
              b.column < n && row.pats[b.column] == Wildcard(Some(Binder(b.action, b.name)))
  {
    if n == 0 then []
    else
      BindingsUpTo(row, n - 1) +
      match row.pats[n - 1]
      case Wildcard(Some(b)) => [LeafBinding(b.arm, b.name, n - 1)]
      case _ => []
  }

  method ExtractLeafBindings(row: Row) returns (bindings: seq<LeafBinding>)
    ensures bindings == BindingsUpTo(row, |row.pats|)
  {
    bindings := [];
    for col := 0 to |row.pats|
      invariant bindings == BindingsUpTo(row, col)
    {
      match row.pats[col] {
        case Wildcard(Some(b)) => bindings := bindings + [LeafBinding(b.arm, b.name, col)];
        case _ =>
      }
    }
  }
}
