/** Walking a compiled decision tree is matching the rows in order. */
module FirstMatch {
  import opened Options
  import opened StarTypes
  import opened DecisionTree
  import opened TreeCompile

  // ---- What patterns mean.

  predicate Matches(p: Pat, v: Value)
    decreases p
  {
    match p
    case Wildcard(_) => true
    case PCtor(c, args) =>
      && HeadOf(v) == Some(c) && |args| == |Args(v)|
      && forall i :: 0 <= i < |args| ==> Matches(args[i], Args(v)[i])
  }

  predicate RowMatches(ps: seq<Pat>, vs: seq<Value>) {
    |ps| == |vs| && forall i :: 0 <= i < |ps| ==> Matches(ps[i], vs[i])
  }

  /** The first row that matches. */
  function FirstRow(rows: seq<Row>, vs: seq<Value>): Option<Row> {
    if rows == [] then None
    else if RowMatches(rows[0].pats, vs) then Some(rows[0])
    else FirstRow(rows[1..], vs)
  }

  /** A variable of an arm with the value, and its type, that it is bound to. */
  datatype Bound = Bound(arm: nat, name: string, value: Value, ty: Type)

  /** Matching p against v of type t binds b. */
  predicate Binds(p: Pat, v: Value, t: Type, b: Bound)
    decreases p
  {
    match p
    case Wildcard(None) => false
    case Wildcard(Some(x)) => b == Bound(x.arm, x.name, v, t)
    case PCtor(c, args) =>
      exists i :: 0 <= i < |args| && i < |Args(v)| && i < |FieldTypes(c, t)|
        && Binds(args[i], Args(v)[i], FieldTypes(c, t)[i], b)
  }

  predicate RowBinds(ps: seq<Pat>, vs: seq<Value>, ts: seq<Type>, b: Bound) {
    exists i :: 0 <= i < |ps| && i < |vs| && i < |ts| && Binds(ps[i], vs[i], ts[i], b)
  }

  // ---- What a decision tree does.

  datatype Outcome = Hit(action: nat, bound: seq<Bound>) | Missed | Stuck

  function CaseIndex(cases: seq<Case>, c: Ctor): Option<nat> {
    if cases == [] then None
    else
      var n := |cases| - 1;
      var before := CaseIndex(cases[..n], c);
      if before.Some? then before else if cases[n].ctor == c then Some(n) else None
  }

  lemma {:induction false} CaseIndexIs(cases: seq<Case>, c: Ctor)
    ensures match CaseIndex(cases, c)
            case Some(k) => k < |cases| && cases[k].ctor == c && forall j :: 0 <= j < k ==> cases[j].ctor != c
            case None => forall j :: 0 <= j < |cases| ==> cases[j].ctor != c
  {
    if cases != [] {
      CaseIndexIs(cases[..|cases| - 1], c);
    }
  }

  function Resolve(bindings: seq<LeafBinding>, vs: seq<Value>, ts: seq<Type>): (r: seq<Bound>)
    requires |vs| == |ts| && forall b :: b in bindings ==> b.column < |vs|
    ensures |r| == |bindings|
    ensures forall k :: 0 <= k < |bindings| ==>
              r[k] == Bound(bindings[k].action, bindings[k].name, vs[bindings[k].column], ts[bindings[k].column])
  {
    seq(|bindings|, k requires 0 <= k < |bindings| =>
      assert bindings[k] in bindings;
      Bound(bindings[k].action, bindings[k].name, vs[bindings[k].column], ts[bindings[k].column]))
  }

  /** Stuck is what the original marks unreachable: a test without a branch for
      the value, or a column that is not there. */
  function Walk(tree: Tree, vs: seq<Value>, ts: seq<Type>): Outcome
    requires HaveTypes(vs, ts)
    decreases tree
  {
    match tree
    case Leaf(action, bindings) =>
      if forall b :: b in bindings ==> b.column < |vs| then Hit(action, Resolve(bindings, vs, ts)) else Stuck
    case Fail => Missed
    case Switch(col, cases, default) =>
      if col >= |vs| || HeadOf(vs[col]).None? then Stuck
      else
        var c := HeadOf(vs[col]).value;
        var k := CaseIndex(cases, c);
        if k.Some? && k.value < |cases| then
          HeadFits(vs[col], ts[col]);
          SpliceValues(vs, ts, col, Args(vs[col]), FieldTypes(c, ts[col]));
          Walk(cases[k.value].tree, Splice(vs, col, Args(vs[col])), Splice(ts, col, FieldTypes(c, ts[col])))
        else if default.Some? then
          SpliceValues(vs, ts, col, [], []);
          Walk(default.value, Splice(vs, col, []), Splice(ts, col, []))
        else Stuck
  }

  lemma SpliceValues(vs: seq<Value>, ts: seq<Type>, col: nat, mid: seq<Value>, midTs: seq<Type>)
    requires HaveTypes(vs, ts) && HaveTypes(mid, midTs) && col < |vs|
    ensures HaveTypes(Splice(vs, col, mid), Splice(ts, col, midTs))
  {
    forall i | 0 <= i < |vs| - 1 + |mid|
      ensures HasType(Splice(vs, col, mid)[i], Splice(ts, col, midTs)[i])
    {
      SpliceFrom(vs, col, mid, i);
      SpliceFrom(ts, col, midTs, i);
    }
  }

  // ---- One specialised or defaulted row.

  lemma SpliceMatches(ps: seq<Pat>, vs: seq<Value>, col: nat, mid: seq<Pat>, midVs: seq<Value>)
    requires |ps| == |vs| && col < |ps| && |mid| == |midVs|
    requires forall i :: 0 <= i < |mid| ==> Matches(mid[i], midVs[i])
    requires Matches(ps[col], vs[col])
    ensures RowMatches(Splice(ps, col, mid), Splice(vs, col, midVs)) <==> RowMatches(ps, vs)
  {
    var ps', vs' := Splice(ps, col, mid), Splice(vs, col, midVs);
    SpliceAt(ps, col, mid);
    SpliceAt(vs, col, midVs);
    if RowMatches(ps', vs') {
      forall i | 0 <= i < |ps|
        ensures Matches(ps[i], vs[i])
      {
        if i < col {
          assert Matches(ps'[i], vs'[i]);
        } else if i > col {
          assert Matches(ps'[i - 1 + |mid|], vs'[i - 1 + |mid|]);
        }
      }
    }
    if RowMatches(ps, vs) {
      forall i | 0 <= i < |ps'|
        ensures Matches(ps'[i], vs'[i])
      {
        SpliceFrom(ps, col, mid, i);
        SpliceFrom(vs, col, midVs, i);
      }
    }
  }

  lemma SpliceMismatch(ps: seq<Pat>, vs: seq<Value>, col: nat, mid: seq<Pat>, midVs: seq<Value>)
    requires |ps| == |vs| && col < |ps| && |mid| == |midVs|
    requires exists i :: 0 <= i < |mid| && !Matches(mid[i], midVs[i])
    ensures !RowMatches(Splice(ps, col, mid), Splice(vs, col, midVs))
  {
    SpliceAt(ps, col, mid);
    SpliceAt(vs, col, midVs);
    var i :| 0 <= i < |mid| && !Matches(mid[i], midVs[i]);
    assert Splice(ps, col, mid)[col + i] == mid[i];
  }

  /** A kept row matches the expanded values exactly when the row matches. */
  lemma SpecRowMatches(row: Row, vs: seq<Value>, col: nat, c: Ctor)
    requires |row.pats| == |vs| && col < |vs| && HeadOf(vs[col]) == Some(c)
    requires row.pats[col].PCtor? && row.pats[col].ctor == c ==> |row.pats[col].args| == |Args(vs[col])|
    ensures var kept := SpecRow(row, col, c, |Args(vs[col])|);
            RowMatches(row.pats, vs) <==>
              kept != [] && RowMatches(kept[0].pats, Splice(vs, col, Args(vs[col])))
  {
    var args := Args(vs[col]);
    match row.pats[col] {
      case PCtor(c', ps) =>
        if c' == c {
          if forall i :: 0 <= i < |ps| ==> Matches(ps[i], args[i]) {
            SpliceMatches(row.pats, vs, col, ps, args);
          } else {
            SpliceMismatch(row.pats, vs, col, ps, args);
          }
        }
      case Wildcard(_) =>
        SpliceMatches(row.pats, vs, col, Blanks(|args|), args);
    }
  }

  lemma {:induction false} SpecFirst(rows: seq<Row>, ts: seq<Type>, vs: seq<Value>, col: nat, c: Ctor)
    requires MatrixTyped(rows, ts) && HaveTypes(vs, ts) && col < |ts| && HeadOf(vs[col]) == Some(c)
    requires Wide(rows, col)
    ensures var args := Args(vs[col]);
            var first := FirstRow(rows, vs);
            FirstRow(SpecRows(rows, col, c, |args|), Splice(vs, col, args))
            == if first.None? then None
               else if col >= |first.value.pats| || SpecRow(first.value, col, c, |args|) == [] then None
               else Some(SpecRow(first.value, col, c, |args|)[0])
    ensures var first := FirstRow(rows, vs);
            first.Some? ==> col < |first.value.pats| && SpecRow(first.value, col, c, |Args(vs[col])|) != []
  {
    if rows != [] {
      var args := Args(vs[col]);
      var row := rows[0];
      assert PatsHaveTypes(row.pats, ts);
      assert PatHasType(row.pats[col], ts[col]);
      HeadFits(vs[col], ts[col]);
      SpecRowMatches(row, vs, col, c);
      assert MatrixTyped(rows[1..], ts);
      SpecFirst(rows[1..], ts, vs, col, c);
      var kept, rest := SpecRow(row, col, c, |args|), SpecRows(rows[1..], col, c, |args|);
      if kept != [] {
        assert (kept + rest)[0] == kept[0] && (kept + rest)[1..] == rest;
      } else {
        assert kept + rest == rest;
      }
    }
  }

  /** Without a case for its constructor, only wildcard rows can match a value. */
  lemma {:induction false} DefaultFirst(rows: seq<Row>, vs: seq<Value>, col: nat)
    requires Wide(rows, col) && col < |vs| && HeadOf(vs[col]).Some?
    requires forall r :: 0 <= r < |rows| ==> |rows[r].pats| == |vs|
    requires forall r :: 0 <= r < |rows| && rows[r].pats[col].PCtor? ==> rows[r].pats[col].ctor != HeadOf(vs[col]).value
    ensures var first := FirstRow(rows, vs);
            FirstRow(DefaultRows(rows, col), Splice(vs, col, []))
            == if first.None? then None
               else if col >= |first.value.pats| || DefaultRow(first.value, col) == [] then None
               else Some(DefaultRow(first.value, col)[0])
    ensures FirstRow(rows, vs).Some? ==>
              col < |FirstRow(rows, vs).value.pats| && DefaultRow(FirstRow(rows, vs).value, col) != []
  {
    if rows != [] {
      var row := rows[0];
      if row.pats[col].Wildcard? {
        SpliceMatches(row.pats, vs, col, [], []);
      }
      DefaultFirst(rows[1..], vs, col);
      var kept, rest := DefaultRow(row, col), DefaultRows(rows[1..], col);
      if kept != [] {
        assert (kept + rest)[0] == kept[0] && (kept + rest)[1..] == rest;
      } else {
        assert kept + rest == rest;
      }
    }
  }

  // ---- Bindings.

  /** What the spliced row binds, the original row binds. */
  lemma SpliceBinds(ps: seq<Pat>, vs: seq<Value>, ts: seq<Type>, col: nat, mid: seq<Pat>, midVs: seq<Value>, midTs: seq<Type>, b: Bound)
    requires |ps| == |vs| == |ts| && col < |ps| && |mid| == |midVs| == |midTs|
    requires RowBinds(mid, midVs, midTs, b) ==> Binds(ps[col], vs[col], ts[col], b)
    ensures RowBinds(Splice(ps, col, mid), Splice(vs, col, midVs), Splice(ts, col, midTs), b) ==> RowBinds(ps, vs, ts, b)
    ensures (Binds(ps[col], vs[col], ts[col], b) ==> RowBinds(mid, midVs, midTs, b)) ==>
              (RowBinds(ps, vs, ts, b) ==>
                 RowBinds(Splice(ps, col, mid), Splice(vs, col, midVs), Splice(ts, col, midTs), b))
  {
    hide Binds, Splice;
    if RowBinds(Splice(ps, col, mid), Splice(vs, col, midVs), Splice(ts, col, midTs), b) {
      SpliceBindsBack(ps, vs, ts, col, mid, midVs, midTs, b);
    }
    if (Binds(ps[col], vs[col], ts[col], b) ==> RowBinds(mid, midVs, midTs, b)) && RowBinds(ps, vs, ts, b) {
      SpliceBindsOn(ps, vs, ts, col, mid, midVs, midTs, b);
    }
  }

  lemma SpliceBindsBack(ps: seq<Pat>, vs: seq<Value>, ts: seq<Type>, col: nat, mid: seq<Pat>, midVs: seq<Value>, midTs: seq<Type>, b: Bound)
    requires |ps| == |vs| == |ts| && col < |ps| && |mid| == |midVs| == |midTs|
    requires RowBinds(mid, midVs, midTs, b) ==> Binds(ps[col], vs[col], ts[col], b)
    requires RowBinds(Splice(ps, col, mid), Splice(vs, col, midVs), Splice(ts, col, midTs), b)
    ensures RowBinds(ps, vs, ts, b)
  {
    hide Binds;
    var ps', vs', ts' := Splice(ps, col, mid), Splice(vs, col, midVs), Splice(ts, col, midTs);
    hide Splice;
    var i :| 0 <= i < |ps'| && i < |vs'| && i < |ts'| && Binds(ps'[i], vs'[i], ts'[i], b);
    SpliceFrom(ps, col, mid, i);
    SpliceFrom(vs, col, midVs, i);
    SpliceFrom(ts, col, midTs, i);
    if i >= col + |mid| {
      assert Binds(ps[i + 1 - |mid|], vs[i + 1 - |mid|], ts[i + 1 - |mid|], b);
    } else if i >= col {
      assert Binds(mid[i - col], midVs[i - col], midTs[i - col], b);
    } else {
      assert Binds(ps[i], vs[i], ts[i], b);
    }
  }

  lemma SpliceBindsOn(ps: seq<Pat>, vs: seq<Value>, ts: seq<Type>, col: nat, mid: seq<Pat>, midVs: seq<Value>, midTs: seq<Type>, b: Bound)
    requires |ps| == |vs| == |ts| && col < |ps| && |mid| == |midVs| == |midTs|
    requires Binds(ps[col], vs[col], ts[col], b) ==> RowBinds(mid, midVs, midTs, b)
    requires RowBinds(ps, vs, ts, b)
    ensures RowBinds(Splice(ps, col, mid), Splice(vs, col, midVs), Splice(ts, col, midTs), b)
  {
    hide Binds, Splice;
    var ps', vs', ts' := Splice(ps, col, mid), Splice(vs, col, midVs), Splice(ts, col, midTs);
    var i :| 0 <= i < |ps| && i < |vs| && i < |ts| && Binds(ps[i], vs[i], ts[i], b);
    var q: nat := if i < col then i else i - 1 + |mid|;
    if i == col {
      var j :| 0 <= j < |mid| && j < |midVs| && j < |midTs| && Binds(mid[j], midVs[j], midTs[j], b);
      q := col + j;
    }
    SpliceFrom(ps, col, mid, q);
    SpliceFrom(vs, col, midVs, q);
    SpliceFrom(ts, col, midTs, q);
    assert Binds(ps'[q], vs'[q], ts'[q], b);
  }

  lemma BlanksBindNothing(n: nat, vs: seq<Value>, ts: seq<Type>, b: Bound)
    ensures !RowBinds(Blanks(n), vs, ts, b)
  {
  }

  /** Specialising a row invents no bindings, and loses none of a constructor. */
  lemma SpecRowBinds(row: Row, vs: seq<Value>, ts: seq<Type>, col: nat, c: Ctor, b: Bound)
    requires |row.pats| == |vs| == |ts| && col < |vs| && |FieldTypes(c, ts[col])| == |Args(vs[col])|
    requires row.pats[col].PCtor? && row.pats[col].ctor == c ==> |row.pats[col].args| == |Args(vs[col])|
    ensures var args, fts := Args(vs[col]), FieldTypes(c, ts[col]);
            var kept := SpecRow(row, col, c, |args|);
            kept != [] ==>
              && (RowBinds(kept[0].pats, Splice(vs, col, args), Splice(ts, col, fts), b) ==> RowBinds(row.pats, vs, ts, b))
              && (row.pats[col].PCtor? && RowBinds(row.pats, vs, ts, b) ==>
                    RowBinds(kept[0].pats, Splice(vs, col, args), Splice(ts, col, fts), b))
  {
    hide Splice;
    var args, fts := Args(vs[col]), FieldTypes(c, ts[col]);
    match row.pats[col] {
      case PCtor(c', ps) =>
        if c' == c {
          SpliceBinds(row.pats, vs, ts, col, ps, args, fts, b);
        }
      case Wildcard(_) =>
        BlanksBindNothing(|args|, args, fts, b);
        SpliceBinds(row.pats, vs, ts, col, Blanks(|args|), args, fts, b);
    }
  }

  lemma DefaultRowBinds(row: Row, vs: seq<Value>, ts: seq<Type>, col: nat, b: Bound)
    requires |row.pats| == |vs| == |ts| && col < |vs| && DefaultRow(row, col) != []
    requires RowBinds(DefaultRow(row, col)[0].pats, Splice(vs, col, []), Splice(ts, col, []), b)
    ensures RowBinds(row.pats, vs, ts, b)
  {
    SpliceBinds(row.pats, vs, ts, col, [], [], [], b);
  }

  // ---- Main results.

  /** The outcome is that of the first matching row: its action, and bindings
      that its pattern makes. */
  ghost predicate Agrees(o: Outcome, first: Option<Row>, vs: seq<Value>, ts: seq<Type>) {
    match first
    case None => o == Missed
    case Some(row) => o.Hit? && o.action == row.action && forall b :: b in o.bound ==> RowBinds(row.pats, vs, ts, b)
  }

  lemma LeafAgrees(rows: seq<Row>, ts: seq<Type>, vs: seq<Value>)
    requires MatrixTyped(rows, ts) && HaveTypes(vs, ts) && rows != [] && AllWild(rows[0].pats)
    ensures Agrees(Walk(Compile(rows, ts), vs, ts), FirstRow(rows, vs), vs, ts)
    ensures var o := Walk(Compile(rows, ts), vs, ts); o.Hit? && forall b :: RowBinds(rows[0].pats, vs, ts, b) ==> b in o.bound
  {
    var row := rows[0];
    assert PatsHaveTypes(row.pats, ts);
    var bindings := BindingsUpTo(row, |row.pats|);
    var bound := Resolve(bindings, vs, ts);
    forall b | b in bound
      ensures RowBinds(row.pats, vs, ts, b)
    {
      var k :| 0 <= k < |bound| && bound[k] == b;
      assert bindings[k] in bindings;
      assert Binds(row.pats[bindings[k].column], vs[bindings[k].column], ts[bindings[k].column], b);
    }
    forall b | RowBinds(row.pats, vs, ts, b)
      ensures b in bound
    {
      var i :| 0 <= i < |row.pats| && Binds(row.pats[i], vs[i], ts[i], b);
      var lb := LeafBinding(b.arm, b.name, i);
      assert row.pats[i] == Wildcard(Some(Binder(b.arm, b.name)));
      assert lb in bindings;
      var k :| 0 <= k < |bindings| && bindings[k] == lb;
      assert bound[k] == b;
    }
  }

  /** A complete signature has a case for every typed value. */
  lemma CompleteCovers(rows: seq<Row>, ts: seq<Type>, col: nat, v: Value)
    requires Splits(rows, ts, col) && Wide(rows, col) && HasType(v, ts[col])
    requires CompleteSignature(HeadCtors(rows, col), ts[col])
    ensures HeadOf(v).Some? && HeadOf(v).value in HeadCtors(rows, col)
  {
    HeadCtorsAre(rows, col);
    assert PatsHaveTypes(rows[0].pats, ts);
    assert PatHasType(rows[0].pats[col], ts[col]);
    assert rows[0].pats[col].ctor in HeadCtors(rows, col);
  }

  /** A signature is complete exactly if it has every constructor of the type: a column
      of integers never is, whatever literals it tests. */
  lemma CompleteExactly(rows: seq<Row>, ts: seq<Type>, col: nat)
    requires Splits(rows, ts, col) && Wide(rows, col)
    ensures var sigma := HeadCtors(rows, col);
            CompleteSignature(sigma, ts[col]) <==> forall c :: CtorOf(c, ts[col]) ==> c in sigma
  {
    var sigma := HeadCtors(rows, col);
    HeadCtorsAre(rows, col);
    assert PatsHaveTypes(rows[0].pats, ts);
    assert PatHasType(rows[0].pats[col], ts[col]);
    assert rows[0].pats[col].ctor in sigma;
    match ts[col]
    case Int(_) =>
      var n := OtherLiteral(sigma);
      assert CtorOf(IntLiteral(n), ts[col]);
    case Bool =>
      assert CtorOf(BoolTrue, ts[col]) && CtorOf(BoolFalse, ts[col]);
    case Enum(variants) =>
      forall k: nat | k < |variants|
        ensures CtorOf(EnumVariant(k), ts[col])
      {
      }
    case _ =>
  }

  lemma {:induction false} OtherLiteral(ctors: seq<Ctor>) returns (n: int)
    ensures forall m :: IntLiteral(m) in ctors ==> m < n
  {
    if ctors == [] {
      n := 0;
    } else {
      var before := OtherLiteral(ctors[1..]);
      n := if ctors[0].IntLiteral? && ctors[0].n >= before then ctors[0].n + 1 else before;
    }
  }

  /** A split column never holds handles. */
  lemma SplitHasHead(rows: seq<Row>, ts: seq<Type>, col: nat, v: Value)
    requires Splits(rows, ts, col) && HasType(v, ts[col])
    ensures HeadOf(v).Some?
  {
    assert PatsHaveTypes(rows[0].pats, ts);
    assert PatHasType(rows[0].pats[col], ts[col]);
  }

  /** The compiled tree decides as matching the rows in order does: it reaches
      the action of the first matching row, fails exactly when none matches, and
      never runs out of branches; what it binds, that row's patterns bind. */
  lemma {:induction false} CompileAgrees(rows: seq<Row>, ts: seq<Type>, vs: seq<Value>)
    requires MatrixTyped(rows, ts) && HaveTypes(vs, ts)
    ensures Agrees(Walk(Compile(rows, ts), vs, ts), FirstRow(rows, vs), vs, ts)
    decreases MatrixSize(rows), 2
  {
    if rows != [] {
      if AllWild(rows[0].pats) {
        LeafAgrees(rows, ts, vs);
      } else {
        SelectSplits(rows, ts);
        var col := SelectColumn(rows);
        SpecTyped(rows, ts, col, UnitCtor);
        SwitchAgrees(rows, ts, vs, col);
      }
    }
  }

  lemma {:induction false} SwitchAgrees(rows: seq<Row>, ts: seq<Type>, vs: seq<Value>, col: nat)
    requires MatrixTyped(rows, ts) && HaveTypes(vs, ts) && Splits(rows, ts, col) && Wide(rows, col)
    requires !AllWild(rows[0].pats) && Wide(rows, SelectColumn(rows)) && col == SelectColumn(rows)
    ensures Agrees(Walk(Compile(rows, ts), vs, ts), FirstRow(rows, vs), vs, ts)
    decreases MatrixSize(rows), 1
  {
    hide Agrees, FirstRow, Splice, HeadCtors, HasType, AllWild, CaseIndex, SelectColumn, CompileCase, CompileDefault;
    var sigma := HeadCtors(rows, col);
    SplitHasHead(rows, ts, col, vs[col]);
    var c := HeadOf(vs[col]).value;
    CompiledSwitch(rows, ts, col);
    CasesAre(rows, ts, col, sigma);
    hide Compile, CompileCases, MatrixTyped, Splits;
    var tree := Compile(rows, ts);
    CaseIndexIs(tree.cases, c);
    if c in sigma {
      var j :| 0 <= j < |sigma| && sigma[j] == c;
      assert tree.cases[j].ctor == c;
      CaseAgrees(rows, ts, vs, col, c);
    } else {
      if CompleteSignature(sigma, ts[col]) {
        CompleteCovers(rows, ts, col, vs[col]);
      }
      DefaultAgrees(rows, ts, vs, col);
    }
  }

  lemma CompiledSwitch(rows: seq<Row>, ts: seq<Type>, col: nat)
    requires Splits(rows, ts, col) && Wide(rows, col) && !AllWild(rows[0].pats)
    requires Wide(rows, SelectColumn(rows)) && col == SelectColumn(rows)
    ensures var sigma := HeadCtors(rows, col);
            Compile(rows, ts) == Switch(col, CompileCases(rows, ts, col, sigma),
              if CompleteSignature(sigma, ts[col]) then None else Some(CompileDefault(rows, ts, col)))
  {
  }

  lemma {:induction false} CaseAgrees(rows: seq<Row>, ts: seq<Type>, vs: seq<Value>, col: nat, c: Ctor)
    requires HaveTypes(vs, ts) && Splits(rows, ts, col) && Wide(rows, col) && HeadOf(vs[col]) == Some(c)
    ensures Agrees(Walk(CompileCase(rows, ts, col, c), Splice(vs, col, Args(vs[col])), Splice(ts, col, FieldTypes(c, ts[col]))),
                   FirstRow(rows, vs), vs, ts)
    decreases MatrixSize(rows), 0
  {
    var args, fts := Args(vs[col]), FieldTypes(c, ts[col]);
    HeadFits(vs[col], ts[col]);
    SpecSmaller(rows, ts, col, c);
    SpliceValues(vs, ts, col, args, fts);
    var rows', vs', ts' := SpecRows(rows, col, c, |fts|), Splice(vs, col, args), Splice(ts, col, fts);
    CompileAgrees(rows', ts', vs');
    SpecFirst(rows, ts, vs, col, c);
    var first := FirstRow(rows, vs);
    if first.Some? {
      FirstRowTyped(rows, ts, vs);
      forall b | RowBinds(FirstRow(rows', vs').value.pats, vs', ts', b)
        ensures RowBinds(first.value.pats, vs, ts, b)
      {
        SpecRowBinds(first.value, vs, ts, col, c, b);
      }
    }
  }

  lemma {:induction false} DefaultAgrees(rows: seq<Row>, ts: seq<Type>, vs: seq<Value>, col: nat)
    requires HaveTypes(vs, ts) && Splits(rows, ts, col) && Wide(rows, col)
    requires HeadOf(vs[col]).Some? && HeadOf(vs[col]).value !in HeadCtors(rows, col)
    ensures Agrees(Walk(CompileDefault(rows, ts, col), Splice(vs, col, []), Splice(ts, col, [])), FirstRow(rows, vs), vs, ts)
    decreases MatrixSize(rows), 0
  {
    DefaultSmaller(rows, ts, col);
    SpliceValues(vs, ts, col, [], []);
    var rows', vs', ts' := DefaultRows(rows, col), Splice(vs, col, []), Splice(ts, col, []);
    CompileAgrees(rows', ts', vs');
    HeadCtorsAre(rows, col);
    forall r | 0 <= r < |rows|
      ensures |rows[r].pats| == |vs|
    {
      assert PatsHaveTypes(rows[r].pats, ts);
    }
    DefaultFirst(rows, vs, col);
    var first := FirstRow(rows, vs);
    if first.Some? {
      FirstRowTyped(rows, ts, vs);
      forall b | RowBinds(FirstRow(rows', vs').value.pats, vs', ts', b)
        ensures RowBinds(first.value.pats, vs, ts, b)
      {
        DefaultRowBinds(first.value, vs, ts, col, b);
      }
    }
  }

  lemma {:induction false} FirstRowTyped(rows: seq<Row>, ts: seq<Type>, vs: seq<Value>)
    requires MatrixTyped(rows, ts) && FirstRow(rows, vs).Some?
    ensures PatsHaveTypes(FirstRow(rows, vs).value.pats, ts) && FirstRow(rows, vs).value in rows
    ensures RowMatches(FirstRow(rows, vs).value.pats, vs)
  {
    assert PatsHaveTypes(rows[0].pats, ts);
    if !RowMatches(rows[0].pats, vs) {
      assert MatrixTyped(rows[1..], ts);
      FirstRowTyped(rows[1..], ts, vs);
    }
  }

  // ---- Bindings of single-row matrices (`let` and `let else`).

  /** With one row, whatever its patterns bind is bound at the leaf reached. */
  lemma {:induction false} SingleRowBindsAll(row: Row, ts: seq<Type>, vs: seq<Value>, b: Bound)
    requires MatrixTyped([row], ts) && HaveTypes(vs, ts)
    requires RowMatches(row.pats, vs) && RowBinds(row.pats, vs, ts, b)
    ensures var o := Walk(Compile([row], ts), vs, ts); o.Hit? && b in o.bound
    decreases MatrixSize([row])
  {
    var rows := [row];
    assert PatsHaveTypes(rows[0].pats, ts);
    if AllWild(row.pats) {
      LeafAgrees(rows, ts, vs);
    } else {
      SelectSplits(rows, ts);
      var col := SelectColumn(rows);
      SpecTyped(rows, ts, col, UnitCtor);
      var c := row.pats[col].ctor;
      var row', ts', vs' := SingleRowStep(row, ts, vs, col, b);
      SingleRowBindsAll(row', ts', vs', b);
    }
  }

  /** One row splits into one row under its own constructor. */
  lemma SingleRowStep(row: Row, ts: seq<Type>, vs: seq<Value>, col: nat, b: Bound)
    returns (row': Row, ts': seq<Type>, vs': seq<Value>)
    requires Splits([row], ts, col) && Wide([row], col) && HaveTypes(vs, ts)
    requires !AllWild(row.pats) && Wide([row], SelectColumn([row])) && col == SelectColumn([row])
    requires RowMatches(row.pats, vs) && RowBinds(row.pats, vs, ts, b)
    ensures MatrixTyped([row'], ts') && HaveTypes(vs', ts') && MatrixSize([row']) < MatrixSize([row])
    ensures RowMatches(row'.pats, vs') && RowBinds(row'.pats, vs', ts', b)
    ensures Walk(Compile([row], ts), vs, ts) == Walk(Compile([row'], ts'), vs', ts')
  {
    hide Compile, CompileCases, CompileCase, CompileDefault, Walk, SelectColumn, CompleteSignature, CaseIndex;
    var c := row.pats[col].ctor;
    SingleRowKept(row, ts, vs, col, b);
    hide MatrixTyped, Matches, Binds, Splice, SpecRow, HasType, PatHasType, RowMatches, RowBinds;
    var fts, args := FieldTypes(c, ts[col]), Args(vs[col]);
    row', ts', vs' := SpecRow(row, col, c, |fts|)[0], Splice(ts, col, fts), Splice(vs, col, args);
    SingleRowWalk(row, ts, vs, col, row', ts', vs');
  }

  lemma SingleRowKept(row: Row, ts: seq<Type>, vs: seq<Value>, col: nat, b: Bound)
    requires Splits([row], ts, col) && Wide([row], col) && HaveTypes(vs, ts)
    requires RowMatches(row.pats, vs) && RowBinds(row.pats, vs, ts, b)
    ensures var c := row.pats[col].ctor; var fts, args := FieldTypes(c, ts[col]), Args(vs[col]);
            && HeadOf(vs[col]) == Some(c) && SpecRow(row, col, c, |fts|) != []
            && var row', ts', vs' := SpecRow(row, col, c, |fts|)[0], Splice(ts, col, fts), Splice(vs, col, args);
            && MatrixTyped([row'], ts') && HaveTypes(vs', ts') && MatrixSize([row']) < MatrixSize([row])
            && RowMatches(row'.pats, vs') && RowBinds(row'.pats, vs', ts', b)
  {
    var rows := [row];
    assert PatsHaveTypes(rows[0].pats, ts);
    var c := row.pats[col].ctor;
    assert PatHasType(row.pats[col], ts[col]) && Matches(row.pats[col], vs[col]);
    HeadFits(vs[col], ts[col]);
    var fts, args := FieldTypes(c, ts[col]), Args(vs[col]);
    SpecRowBinds(row, vs, ts, col, c, b);
    SpecRowMatches(row, vs, col, c);
    hide Matches, Binds, HasType, PatHasType, RowMatches, RowBinds;
    SpliceValues(vs, ts, col, args, fts);
    SpecSmaller(rows, ts, col, c);
    SpecOne(row, col, c, |fts|);
  }

  lemma SingleRowWalk(row: Row, ts: seq<Type>, vs: seq<Value>, col: nat, row': Row, ts': seq<Type>, vs': seq<Value>)
    requires Splits([row], ts, col) && Wide([row], col) && !AllWild(row.pats)
    requires Wide([row], SelectColumn([row])) && col == SelectColumn([row]) && col < |vs|
    requires HeadOf(vs[col]) == Some(row.pats[col].ctor) && vs' == Splice(vs, col, Args(vs[col]))
    requires var c := row.pats[col].ctor; var fts := FieldTypes(c, ts[col]);
             SpecRow(row, col, c, |fts|) != [] && row' == SpecRow(row, col, c, |fts|)[0] && ts' == Splice(ts, col, fts)
    requires MatrixTyped([row'], ts') && HaveTypes(vs, ts) && HaveTypes(vs', ts')
    ensures Walk(Compile([row], ts), vs, ts) == Walk(Compile([row'], ts'), vs', ts')
  {
    hide MatrixTyped, Splice, SpecRow, SelectColumn, CompleteSignature, AllWild, CaseIndex, Compile, CompileCases, CompileCase,
         CompileDefault, HeadCtors;
    var rows, c := [row], row.pats[col].ctor;
    CompiledSwitch(rows, ts, col);
    HeadOne(row, col);
    CasesAre(rows, ts, col, [c]);
    CompiledCase(row, ts, col, row', ts');
    var tree := Compile(rows, ts);
    CaseIndexIs(tree.cases, c);
    assert tree.cases[0].ctor == c;
  }

  lemma CompiledCase(row: Row, ts: seq<Type>, col: nat, row': Row, ts': seq<Type>)
    requires Splits([row], ts, col) && Wide([row], col) && MatrixTyped([row'], ts')
    requires var c := row.pats[col].ctor; var fts := FieldTypes(c, ts[col]);
             SpecRow(row, col, c, |fts|) != [] && row' == SpecRow(row, col, c, |fts|)[0] && ts' == Splice(ts, col, fts)
    ensures CompileCase([row], ts, col, row.pats[col].ctor) == Compile([row'], ts')
  {
    hide Compile, MatrixTyped;
    var c := row.pats[col].ctor;
    SpecOne(row, col, c, |FieldTypes(c, ts[col])|);
    SpecSmaller([row], ts, col, c);
  }

  lemma SpecOne(row: Row, col: nat, c: Ctor, arity: nat)
    requires col < |row.pats| && SpecRow(row, col, c, arity) != []
    ensures Wide([row], col) && SpecRows([row], col, c, arity) == [SpecRow(row, col, c, arity)[0]]
  {
    assert [row][1..] == [];
  }

  lemma HeadOne(row: Row, col: nat)
    requires col < |row.pats| && row.pats[col].PCtor?
    ensures Wide([row], col) && HeadCtors([row], col) == [row.pats[col].ctor]
  {
    assert [row][..0] == [];
    assert HeadCtors([row][..0], col) == [];
  }

  // ---- Bindings that are lost.

  /** One column whose first pattern is a constructor: an arm that binds the whole
      value loses its variable, because its column is tested before it. */
  lemma WholeBindingIff(rows: seq<Row>, t: Type, v: Value, k: nat, x: Binder)
    requires MatrixTyped(rows, [t]) && HasType(v, t) && k < |rows|
    requires rows[k].pats == [Wildcard(Some(x))]
    requires forall r :: 0 <= r < k ==> !RowMatches(rows[r].pats, [v])
    ensures var o := Walk(Compile(rows, [t]), [v], [t]);
            o.Hit? && o.action == rows[k].action
            && (Bound(x.arm, x.name, v, t) in o.bound <==> k == 0)
  {
    var vs := [v];
    assert HaveTypes(vs, [t]);
    CompileAgrees(rows, [t], vs);
    FirstRowIs(rows, vs, k);
    assert PatsHaveTypes(rows[0].pats, [t]);
    if k == 0 {
      LeafAgrees(rows, [t], vs);
      WildBinds(v, t, x);
    } else {
      assert !Matches(rows[0].pats[0], v);
      SelectSplits(rows, [t]);
      WholeBindingLost(Compile(rows, [t]), v, t);
    }
  }

  lemma WildBinds(v: Value, t: Type, x: Binder)
    ensures RowBinds([Wildcard(Some(x))], [v], [t], Bound(x.arm, x.name, v, t))
  {
    var ps, vs, ts := [Wildcard(Some(x))], [v], [t];
    var b := Bound(x.arm, x.name, v, t);
    assert Binds(ps[0], vs[0], ts[0], b) == (b == Bound(x.arm, x.name, v, t));
  }

  lemma {:induction false} FirstRowIs(rows: seq<Row>, vs: seq<Value>, k: nat)
    requires k < |rows| && RowMatches(rows[k].pats, vs)
    requires forall r :: 0 <= r < k ==> !RowMatches(rows[r].pats, vs)
    ensures FirstRow(rows, vs) == Some(rows[k])
  {
    if k > 0 {
      assert forall r :: 0 <= r < k - 1 ==> rows[1..][r] == rows[r + 1];
      FirstRowIs(rows[1..], vs, k - 1);
    }
  }

  function Weight(v: Value): nat
    decreases v
  {
    match v
    case StructV(fields) => 1 + Weights(fields)
    case EnumV(_, payload) => 1 + Weights(payload)
    case _ => 1
  }

  function Weights(vs: seq<Value>): nat
    decreases vs
  {
    if vs == [] then 0 else Weight(vs[0]) + Weights(vs[1..])
  }

  lemma {:induction false} WeightOfMember(vs: seq<Value>, i: nat)
    requires i < |vs|
    ensures Weight(vs[i]) <= Weights(vs)
  {
    if i > 0 {
      WeightOfMember(vs[1..], i - 1);
    }
  }

  lemma ArgWeighsLess(v: Value, i: nat)
    requires i < |Args(v)|
    ensures Weight(Args(v)[i]) < Weight(v)
  {
    WeightOfMember(Args(v), i);
  }

  /** A walk binds nothing heavier than the values it starts from. */
  lemma {:induction false} WalkWeighs(tree: Tree, vs: seq<Value>, ts: seq<Type>, limit: nat)
    requires HaveTypes(vs, ts)
    requires forall i :: 0 <= i < |vs| ==> Weight(vs[i]) < limit
    ensures var o := Walk(tree, vs, ts); o.Hit? ==> forall b :: b in o.bound ==> Weight(b.value) < limit
    decreases tree
  {
    match tree
    case Leaf(_, bindings) =>
      var o := Walk(tree, vs, ts);
      if o.Hit? {
        forall b | b in o.bound
          ensures Weight(b.value) < limit
        {
          var k :| 0 <= k < |o.bound| && o.bound[k] == b;
          assert bindings[k] in bindings;
        }
      }
    case Fail =>
    case Switch(col, cases, default) =>
      if col < |vs| && HeadOf(vs[col]).Some? {
        var c := HeadOf(vs[col]).value;
        var k := CaseIndex(cases, c);
        var args, fts := Args(vs[col]), FieldTypes(c, ts[col]);
        if k.Some? && k.value < |cases| {
          HeadFits(vs[col], ts[col]);
          SpliceWeighs(vs, col, args, limit);
          SpliceValues(vs, ts, col, args, fts);
          WalkWeighs(cases[k.value].tree, Splice(vs, col, args), Splice(ts, col, fts), limit);
        } else if default.Some? {
          SpliceWeighs(vs, col, [], limit);
          SpliceValues(vs, ts, col, [], []);
          WalkWeighs(default.value, Splice(vs, col, []), Splice(ts, col, []), limit);
        }
      }
  }

  lemma SpliceWeighs(vs: seq<Value>, col: nat, mid: seq<Value>, limit: nat)
    requires col < |vs| && (mid == [] || mid == Args(vs[col]))
    requires forall i :: 0 <= i < |vs| ==> Weight(vs[i]) < limit
    ensures forall i :: 0 <= i < |Splice(vs, col, mid)| ==> Weight(Splice(vs, col, mid)[i]) < limit
  {
    forall i | 0 <= i < |Splice(vs, col, mid)|
      ensures Weight(Splice(vs, col, mid)[i]) < limit
    {
      SpliceFrom(vs, col, mid, i);
      if col <= i < col + |mid| {
        ArgWeighsLess(vs[col], i - col);
      }
    }
  }

  /** Once the only column is tested, no leaf below sees the whole value. */
  lemma WholeBindingLost(tree: Tree, v: Value, t: Type)
    requires tree.Switch? && tree.column == 0 && HasType(v, t)
    ensures HaveTypes([v], [t])
    ensures var o := Walk(tree, [v], [t]); o.Hit? ==> forall b :: b in o.bound ==> b.value != v
  {
    hide HasType, CaseIndex;
    if HeadOf(v).Some? {
      var c := HeadOf(v).value;
      var args, fts := Args(v), FieldTypes(c, t);
      HeadFits(v, t);
      OneSplice(v, args);
      OneSplice(v, []);
      OneSplice(t, fts);
      OneSplice(t, []);
      hide Splice, HeadOf, Args, FieldTypes;
      forall i | 0 <= i < |args|
        ensures Weight(args[i]) < Weight(v)
      {
        ArgWeighsLess(v, i);
      }
      var k := CaseIndex(tree.cases, c);
      if k.Some? && k.value < |tree.cases| {
        WalkWeighs(tree.cases[k.value].tree, args, fts, Weight(v));
      } else if tree.default.Some? {
        WalkWeighs(tree.default.value, [], [], Weight(v));
      }
    }
  }

  lemma OneSplice<T>(x: T, mid: seq<T>)
    ensures Splice([x], 0, mid) == mid
  {
  }
}
