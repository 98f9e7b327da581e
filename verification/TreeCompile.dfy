/** Compiling a pattern matrix terminates and keeps first-match semantics. */
module TreeCompile {
  import opened Options
  import opened StarTypes
  import opened DecisionTree

  // ---- Every step lowers the number of constructor nodes.

  lemma {:induction false} PatsSizeConcat(a: seq<Pat>, b: seq<Pat>)
    ensures PatsSize(a + b) == PatsSize(a) + PatsSize(b)
  {
    if a == [] {
      assert a + b == b;
    } else {
      PatsSizeConcat(a[1..], b);
      assert (a + b)[1..] == a[1..] + b;
    }
  }

  lemma PatsSizeSplice(ps: seq<Pat>, col: nat, mid: seq<Pat>)
    requires col < |ps|
    ensures PatsSize(Splice(ps, col, mid)) + PatSize(ps[col]) == PatsSize(ps) + PatsSize(mid)
  {
    PatsSizeConcat(ps[..col] + mid, ps[col + 1..]);
    PatsSizeConcat(ps[..col], mid);
    PatsSizeConcat(ps[..col], ps[col..]);
    assert ps == ps[..col] + ps[col..];
    assert ps[col..][1..] == ps[col + 1..];
  }

  lemma {:induction false} BlanksSize(n: nat)
    ensures PatsSize(Blanks(n)) == 0
  {
    if n > 0 {
      assert Blanks(n)[1..] == Blanks(n - 1);
      BlanksSize(n - 1);
    }
  }

  lemma {:induction false} MatrixSizeConcat(a: seq<Row>, b: seq<Row>)
    ensures MatrixSize(a + b) == MatrixSize(a) + MatrixSize(b)
  {
    if a == [] {
      assert a + b == b;
    } else {
      MatrixSizeConcat(a[1..], b);
      assert (a + b)[1..] == a[1..] + b;
    }
  }

  lemma SpecRowSize(row: Row, col: nat, c: Ctor, arity: nat)
    requires col < |row.pats|
    ensures MatrixSize(SpecRow(row, col, c, arity)) <= PatsSize(row.pats)
    ensures row.pats[col].PCtor? ==> MatrixSize(SpecRow(row, col, c, arity)) < PatsSize(row.pats)
  {
    BlanksSize(arity);
    match row.pats[col] {
      case PCtor(_, args) => PatsSizeSplice(row.pats, col, args);
      case Wildcard(_) => PatsSizeSplice(row.pats, col, Blanks(arity));
    }
    var kept := SpecRow(row, col, c, arity);
    if kept != [] {
      assert kept[1..] == [];
    }
  }

  lemma {:induction false} SpecSize(rows: seq<Row>, col: nat, c: Ctor, arity: nat)
    requires Wide(rows, col)
    ensures MatrixSize(SpecRows(rows, col, c, arity)) <= MatrixSize(rows)
    ensures rows != [] && rows[0].pats[col].PCtor? ==>
              MatrixSize(SpecRows(rows, col, c, arity)) < MatrixSize(rows)
  {
    if rows != [] {
      SpecSize(rows[1..], col, c, arity);
      SpecRowSize(rows[0], col, c, arity);
      MatrixSizeConcat(SpecRow(rows[0], col, c, arity), SpecRows(rows[1..], col, c, arity));
    }
  }

  lemma {:induction false} DefaultSize(rows: seq<Row>, col: nat)
    requires Wide(rows, col)
    ensures MatrixSize(DefaultRows(rows, col)) <= MatrixSize(rows)
    ensures rows != [] && rows[0].pats[col].PCtor? ==> MatrixSize(DefaultRows(rows, col)) < MatrixSize(rows)
  {
    if rows != [] {
      DefaultSize(rows[1..], col);
      PatsSizeSplice(rows[0].pats, col, []);
      MatrixSizeConcat(DefaultRow(rows[0], col), DefaultRows(rows[1..], col));
      var kept := DefaultRow(rows[0], col);
      if kept != [] {
        assert kept[1..] == [];
      }
    }
  }

  // ---- Typing is kept.

  lemma SpliceTyped(ps: seq<Pat>, ts: seq<Type>, col: nat, mid: seq<Pat>, midTs: seq<Type>)
    requires PatsHaveTypes(ps, ts) && PatsHaveTypes(mid, midTs) && col < |ps|
    ensures PatsHaveTypes(Splice(ps, col, mid), Splice(ts, col, midTs))
  {
    forall i | 0 <= i < |ps| - 1 + |mid|
      ensures PatHasType(Splice(ps, col, mid)[i], Splice(ts, col, midTs)[i])
    {
      SpliceFrom(ps, col, mid, i);
      SpliceFrom(ts, col, midTs, i);
    }
  }

  lemma {:induction false} SpecTyped(rows: seq<Row>, ts: seq<Type>, col: nat, c: Ctor)
    requires MatrixTyped(rows, ts) && col < |ts|
    ensures Wide(rows, col)
    ensures var fts := FieldTypes(c, ts[col]);
            MatrixTyped(SpecRows(rows, col, c, |fts|), Splice(ts, col, fts))
  {
    if rows != [] {
      var fts := FieldTypes(c, ts[col]);
      assert MatrixTyped(rows[1..], ts);
      SpecTyped(rows[1..], ts, col, c);
      var row := rows[0];
      assert PatsHaveTypes(row.pats, ts);
      assert PatHasType(row.pats[col], ts[col]);
      match row.pats[col] {
        case PCtor(c', args) =>
          if c' == c {
            SpliceTyped(row.pats, ts, col, args, fts);
          }
        case Wildcard(_) =>
          SpliceTyped(row.pats, ts, col, Blanks(|fts|), fts);
      }
      ConcatTyped(SpecRow(row, col, c, |fts|), SpecRows(rows[1..], col, c, |fts|), Splice(ts, col, fts));
    }
  }

  lemma ConcatTyped(a: seq<Row>, b: seq<Row>, ts: seq<Type>)
    requires MatrixTyped(a, ts) && MatrixTyped(b, ts)
    ensures MatrixTyped(a + b, ts)
  {
  }

  lemma {:induction false} DefaultTyped(rows: seq<Row>, ts: seq<Type>, col: nat)
    requires MatrixTyped(rows, ts) && col < |ts|
    ensures Wide(rows, col)
    ensures MatrixTyped(DefaultRows(rows, col), Splice(ts, col, []))
  {
    if rows != [] {
      assert MatrixTyped(rows[1..], ts);
      DefaultTyped(rows[1..], ts, col);
      assert PatsHaveTypes(rows[0].pats, ts);
      SpliceTyped(rows[0].pats, ts, col, [], []);
      ConcatTyped(DefaultRow(rows[0], col), DefaultRows(rows[1..], col), Splice(ts, col, []));
    }
  }

  // ---- The compiler.

  predicate AllWild(ps: seq<Pat>) {
    forall i :: 0 <= i < |ps| ==> ps[i].Wildcard?
  }

  /** A typed matrix whose first row has a constructor in the column. */
  predicate Splits(rows: seq<Row>, ts: seq<Type>, col: nat) {
    MatrixTyped(rows, ts) && rows != [] && col < |ts| && col < |rows[0].pats| && rows[0].pats[col].PCtor?
  }

  /** The selected column always splits the matrix: the fallback is dead. */
  lemma SelectSplits(rows: seq<Row>, ts: seq<Type>)
    requires MatrixTyped(rows, ts) && rows != [] && !AllWild(rows[0].pats)
    ensures forall col: nat :: col < |rows[0].pats| ==> Wide(rows, col)
    ensures Splits(rows, ts, SelectColumn(rows))
  {
    forall col: nat | col < |rows[0].pats|
      ensures Wide(rows, col)
    {
      assert forall r :: 0 <= r < |rows| ==> PatsHaveTypes(rows[r].pats, ts);
    }
    var n := |rows[0].pats|;
    BestColumnIsBest(rows, n);
    var c :| 0 <= c < n && rows[0].pats[c].PCtor?;
    assert Score(rows, c) >= 1;
    assert PatsHaveTypes(rows[0].pats, ts);
  }

  lemma SpecSmaller(rows: seq<Row>, ts: seq<Type>, col: nat, c: Ctor)
    requires Splits(rows, ts, col)
    ensures Wide(rows, col)
    ensures var fts := FieldTypes(c, ts[col]);
            && MatrixTyped(SpecRows(rows, col, c, |fts|), Splice(ts, col, fts))
            && MatrixSize(SpecRows(rows, col, c, |fts|)) < MatrixSize(rows)
  {
    SpecTyped(rows, ts, col, c);
    SpecSize(rows, col, c, |FieldTypes(c, ts[col])|);
  }

  lemma DefaultSmaller(rows: seq<Row>, ts: seq<Type>, col: nat)
    requires Splits(rows, ts, col)
    ensures Wide(rows, col)
    ensures MatrixTyped(DefaultRows(rows, col), Splice(ts, col, []))
    ensures MatrixSize(DefaultRows(rows, col)) < MatrixSize(rows)
  {
    DefaultTyped(rows, ts, col);
    DefaultSize(rows, col);
  }

  function Compile(rows: seq<Row>, ts: seq<Type>): Tree
    requires MatrixTyped(rows, ts)
    decreases MatrixSize(rows), 1, 0
  {
    if rows == [] then Fail
    else if AllWild(rows[0].pats) then Leaf(rows[0].action, BindingsUpTo(rows[0], |rows[0].pats|))
    else
      SelectSplits(rows, ts);
      var col := SelectColumn(rows);
      SpecTyped(rows, ts, col, UnitCtor);
      var sigma := HeadCtors(rows, col);
      Switch(col, CompileCases(rows, ts, col, sigma),
        if CompleteSignature(sigma, ts[col]) then None else Some(CompileDefault(rows, ts, col)))
  }

  function CompileCases(rows: seq<Row>, ts: seq<Type>, col: nat, sigma: seq<Ctor>): (r: seq<Case>)
    requires Splits(rows, ts, col)
    ensures |r| == |sigma| && forall k :: 0 <= k < |sigma| ==> r[k].ctor == sigma[k]
    decreases MatrixSize(rows), 0, |sigma|
  {
    if sigma == [] then []
    else
      var n := |sigma| - 1;
      CompileCases(rows, ts, col, sigma[..n]) + [Case(sigma[n], CompileCase(rows, ts, col, sigma[n]))]
  }

  function CompileCase(rows: seq<Row>, ts: seq<Type>, col: nat, c: Ctor): Tree
    requires Splits(rows, ts, col)
    decreases MatrixSize(rows), 0, 0
  {
    SpecSmaller(rows, ts, col, c);
    var fts := FieldTypes(c, ts[col]);
    Compile(SpecRows(rows, col, c, |fts|), Splice(ts, col, fts))
  }

  function CompileDefault(rows: seq<Row>, ts: seq<Type>, col: nat): Tree
    requires Splits(rows, ts, col)
    decreases MatrixSize(rows), 0, 0
  {
    DefaultSmaller(rows, ts, col);
    Compile(DefaultRows(rows, col), Splice(ts, col, []))
  }

  method CompileMatrix(rows: seq<Row>, ts: seq<Type>) returns (tree: Tree)
    requires MatrixTyped(rows, ts)
    ensures tree == Compile(rows, ts)
    decreases MatrixSize(rows), 1
  {
    hide MatrixTyped, Splice, SpecRows, DefaultRows, MatrixSize, HeadCtors, BestColumn, CompileCases, CompleteSignature;
    if rows == [] {
      return Fail;
    }
    if AllWild(rows[0].pats) {
      var bindings := ExtractLeafBindings(rows[0]);
      return Leaf(rows[0].action, bindings);
    }
    SelectSplits(rows, ts);
    SomeCtor(rows[0].pats);
    var i := SelectColumnImp(rows);
    SpecTyped(rows, ts, i, UnitCtor);
    var sigma := HeadConstructors(rows, i);
    var cases := CompileSigma(rows, ts, i, sigma);
    var default := None;
    if !CompleteSignature(sigma, ts[i]) {
      DefaultSmaller(rows, ts, i);
      var defMatrix := DefaultMatrix(rows, i);
      var subtree := CompileMatrix(defMatrix, Splice(ts, i, []));
      default := Some(subtree);
    }
    tree := Switch(i, cases, default);
  }

  lemma SomeCtor(ps: seq<Pat>)
    requires !AllWild(ps)
    ensures exists c: nat :: c < |ps| && ps[c].PCtor?
  {
    var c :| 0 <= c < |ps| && !ps[c].Wildcard?;
    var n: nat := c;
    assert ps[n].PCtor?;
  }

  method CompileSigma(rows: seq<Row>, ts: seq<Type>, i: nat, sigma: seq<Ctor>) returns (cases: seq<Case>)
    requires Splits(rows, ts, i)
    ensures cases == CompileCases(rows, ts, i, sigma)
    decreases MatrixSize(rows), 0
  {
    hide MatrixTyped, Splice, SpecRows, MatrixSize, Compile;
    cases := [];
    for k := 0 to |sigma|
      invariant cases == CompileCases(rows, ts, i, sigma[..k])
    {
      SpecSmaller(rows, ts, i, sigma[k]);
      var specialized := Specialize(rows, i, sigma[k], ts[i]);
      var subtree := CompileMatrix(specialized, Splice(ts, i, FieldTypes(sigma[k], ts[i])));
      assert sigma[..k + 1][..k] == sigma[..k];
      cases := cases + [Case(sigma[k], subtree)];
    }
    assert sigma[..|sigma|] == sigma;
  }

  lemma {:induction false} CasesAre(rows: seq<Row>, ts: seq<Type>, col: nat, sigma: seq<Ctor>)
    requires Splits(rows, ts, col)
    ensures forall k :: 0 <= k < |sigma| ==>
              CompileCases(rows, ts, col, sigma)[k] == Case(sigma[k], CompileCase(rows, ts, col, sigma[k]))
  {
    if sigma != [] {
      var n := |sigma| - 1;
      CasesAre(rows, ts, col, sigma[..n]);
      forall k | 0 <= k < |sigma|
        ensures CompileCases(rows, ts, col, sigma)[k] == Case(sigma[k], CompileCase(rows, ts, col, sigma[k]))
      {
        if k < n {
          assert sigma[..n][k] == sigma[k];
        }
      }
    }
  }
}
