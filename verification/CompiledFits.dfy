/** Compiled trees fit their columns: what emission relies on. */
module CompiledFits {
  import opened Options
  import opened StarTypes
  import opened DecisionTree
  import opened TreeCompile
  import opened FirstMatch
  import opened Patterns
  import opened EnumEncoding
  import opened MatchSpec

  // ---- Patterns with representable literals and variables of the declared types.

  predicate PatFits(p: Pat, t: Type, decl: map<string, Type>)
    decreases p
  {
    match p
    case Wildcard(None) => true
    case Wildcard(Some(x)) => x.name in decl ==> decl[x.name] == t
    case PCtor(c, args) =>
      && CtorOk(c, t) && |args| == |FieldTypes(c, t)|
      && forall i :: 0 <= i < |args| ==> PatFits(args[i], FieldTypes(c, t)[i], decl)
  }

  predicate PatsFit(ps: seq<Pat>, ts: seq<Type>, decl: map<string, Type>) {
    |ps| == |ts| && forall i :: 0 <= i < |ps| ==> PatFits(ps[i], ts[i], decl)
  }

  predicate RowsFit(rows: seq<Row>, ts: seq<Type>, decl: map<string, Type>) {
    forall r :: 0 <= r < |rows| ==> PatsFit(rows[r].pats, ts, decl)
  }

  lemma SpliceFits(ps: seq<Pat>, ts: seq<Type>, col: nat, mid: seq<Pat>, midTs: seq<Type>, decl: map<string, Type>)
    requires PatsFit(ps, ts, decl) && PatsFit(mid, midTs, decl) && col < |ps|
    ensures PatsFit(Splice(ps, col, mid), Splice(ts, col, midTs), decl)
  {
    forall i | 0 <= i < |ps| - 1 + |mid|
      ensures PatFits(Splice(ps, col, mid)[i], Splice(ts, col, midTs)[i], decl)
    {
      SpliceFrom(ps, col, mid, i);
      SpliceFrom(ts, col, midTs, i);
    }
  }

  lemma SpecRowFits(row: Row, ts: seq<Type>, col: nat, c: Ctor, decl: map<string, Type>)
    requires PatsFit(row.pats, ts, decl) && col < |ts|
    ensures RowsFit(SpecRow(row, col, c, |FieldTypes(c, ts[col])|), Splice(ts, col, FieldTypes(c, ts[col])), decl)
  {
    var fts := FieldTypes(c, ts[col]);
    assert PatFits(row.pats[col], ts[col], decl);
    hide Splice;
    match row.pats[col] {
      case PCtor(c', args) =>
        if c' == c {
          SpliceFits(row.pats, ts, col, args, fts, decl);
        }
      case Wildcard(_) =>
        SpliceFits(row.pats, ts, col, Blanks(|fts|), fts, decl);
    }
  }

  lemma {:induction false} SpecFits(rows: seq<Row>, ts: seq<Type>, col: nat, c: Ctor, decl: map<string, Type>)
    requires RowsFit(rows, ts, decl) && col < |ts|
    ensures Wide(rows, col)
    ensures RowsFit(SpecRows(rows, col, c, |FieldTypes(c, ts[col])|), Splice(ts, col, FieldTypes(c, ts[col])), decl)
  {
    hide PatFits, Splice, SpecRow, FieldTypes;
    if rows != [] {
      assert PatsFit(rows[0].pats, ts, decl);
      assert RowsFit(rows[1..], ts, decl);
      SpecRowFits(rows[0], ts, col, c, decl);
      SpecFits(rows[1..], ts, col, c, decl);
      assert forall r :: 1 <= r < |rows| ==> rows[r] == rows[1..][r - 1];
    }
  }

  lemma {:induction false} DefaultFits(rows: seq<Row>, ts: seq<Type>, col: nat, decl: map<string, Type>)
    requires RowsFit(rows, ts, decl) && col < |ts|
    ensures Wide(rows, col)
    ensures RowsFit(DefaultRows(rows, col), Splice(ts, col, []), decl)
  {
    hide PatFits, Splice;
    if rows != [] {
      assert PatsFit(rows[0].pats, ts, decl);
      assert RowsFit(rows[1..], ts, decl);
      SpliceFits(rows[0].pats, ts, col, [], [], decl);
      DefaultFits(rows[1..], ts, col, decl);
      assert forall r :: 1 <= r < |rows| ==> rows[r] == rows[1..][r - 1];
    }
  }

  lemma FieldTypesSized(c: Ctor, t: Type)
    requires Sized(t)
    ensures SizedAll(FieldTypes(c, t))
  {
    match c
    case EnumVariant(k) =>
      if t.Enum? && k < |t.variants| {
        PayloadSized(t.variants[k]);
      }
    case StructCtor =>
      if t.Record? {
        assert forall i :: 0 <= i < |t.fields| ==> MemberTypes(t)[i] == t.fields[i].ty;
      }
    case _ =>
  }

  lemma SpliceSized(ts: seq<Type>, col: nat, mid: seq<Type>)
    requires SizedAll(ts) && SizedAll(mid) && col < |ts|
    ensures SizedAll(Splice(ts, col, mid))
  {
    forall i | 0 <= i < |Splice(ts, col, mid)|
      ensures Sized(Splice(ts, col, mid)[i])
    {
      SpliceFrom(ts, col, mid, i);
    }
  }

  // ---- Compilation.

  lemma LeafIsFit(row: Row, ts: seq<Type>, decl: map<string, Type>)
    requires PatsFit(row.pats, ts, decl)
    ensures TreeFits(Leaf(row.action, BindingsUpTo(row, |row.pats|)), ts, decl)
  {
    forall b | b in BindingsUpTo(row, |row.pats|)
      ensures b.column < |ts| && (b.name in decl ==> decl[b.name] == ts[b.column])
    {
      assert PatFits(row.pats[b.column], ts[b.column], decl);
    }
  }

  lemma HeadsFit(rows: seq<Row>, ts: seq<Type>, col: nat, decl: map<string, Type>)
    requires RowsFit(rows, ts, decl) && Splits(rows, ts, col) && Wide(rows, col)
    ensures HeadCtors(rows, col) != []
    ensures forall c :: c in HeadCtors(rows, col) ==> CtorOk(c, ts[col])
  {
    HeadCtorsAre(rows, col);
    assert rows[0].pats[col].ctor in HeadCtors(rows, col);
    forall c | c in HeadCtors(rows, col)
      ensures CtorOk(c, ts[col])
    {
      var r :| 0 <= r < |rows| && rows[r].pats[col].PCtor? && rows[r].pats[col].ctor == c;
      assert PatsFit(rows[r].pats, ts, decl);
      assert PatFits(rows[r].pats[col], ts[col], decl);
    }
  }

  lemma {:induction false} CompileFits(rows: seq<Row>, ts: seq<Type>, decl: map<string, Type>)
    requires MatrixTyped(rows, ts) && RowsFit(rows, ts, decl) && SizedAll(ts)
    ensures TreeFits(Compile(rows, ts), ts, decl)
    decreases MatrixSize(rows), 1
  {
    if rows != [] {
      assert PatsFit(rows[0].pats, ts, decl);
      if AllWild(rows[0].pats) {
        LeafIsFit(rows[0], ts, decl);
      } else {
        SelectSplits(rows, ts);
        SpecTyped(rows, ts, SelectColumn(rows), UnitCtor);
        SwitchIsFit(rows, ts, SelectColumn(rows), decl);
      }
    }
  }

  lemma {:induction false} SwitchIsFit(rows: seq<Row>, ts: seq<Type>, col: nat, decl: map<string, Type>)
    requires MatrixTyped(rows, ts) && RowsFit(rows, ts, decl) && SizedAll(ts)
    requires Splits(rows, ts, col) && Wide(rows, col) && !AllWild(rows[0].pats)
    requires Wide(rows, SelectColumn(rows)) && col == SelectColumn(rows)
    ensures TreeFits(Compile(rows, ts), ts, decl)
    decreases MatrixSize(rows), 0
  {
    var sigma := HeadCtors(rows, col);
    CompiledSwitch(rows, ts, col);
    CasesAre(rows, ts, col, sigma);
    HeadsFit(rows, ts, col, decl);
    assert Sized(ts[col]) && col < |ts|;
    hide *;
    var cases := CompileCases(rows, ts, col, sigma);
    forall k | 0 <= k < |cases|
      ensures CtorOk(cases[k].ctor, ts[col])
      ensures TreeFits(cases[k].tree, Splice(ts, col, FieldTypes(cases[k].ctor, ts[col])), decl)
    {
      assert sigma[k] in sigma;
      CaseIsFit(rows, ts, col, sigma[k], decl);
    }
    DefaultIsFit(rows, ts, col, decl);
    PartsFit(col, cases, if CompleteSignature(sigma, ts[col]) then None else Some(CompileDefault(rows, ts, col)), ts, decl);
  }

  lemma PartsFit(col: nat, cases: seq<Case>, default: Option<Tree>, ts: seq<Type>, decl: map<string, Type>)
    requires col < |ts| && Sized(ts[col]) && cases != []
    requires forall k :: 0 <= k < |cases| ==> CtorOk(cases[k].ctor, ts[col])
    requires forall k :: 0 <= k < |cases| ==>
               TreeFits(cases[k].tree, Splice(ts, col, FieldTypes(cases[k].ctor, ts[col])), decl)
    requires default.Some? ==> TreeFits(default.value, Splice(ts, col, []), decl)
    ensures TreeFits(Switch(col, cases, default), ts, decl)
  {
  }

  lemma {:induction false} CaseIsFit(rows: seq<Row>, ts: seq<Type>, col: nat, c: Ctor, decl: map<string, Type>)
    requires RowsFit(rows, ts, decl) && SizedAll(ts) && Splits(rows, ts, col) && Wide(rows, col)
    ensures TreeFits(CompileCase(rows, ts, col, c), Splice(ts, col, FieldTypes(c, ts[col])), decl)
    decreases MatrixSize(rows), 0, 0
  {
    var fts := FieldTypes(c, ts[col]);
    SpecSmaller(rows, ts, col, c);
    SpecFits(rows, ts, col, c, decl);
    FieldTypesSized(c, ts[col]);
    SpliceSized(ts, col, fts);
    CompileFits(SpecRows(rows, col, c, |fts|), Splice(ts, col, fts), decl);
  }

  lemma {:induction false} DefaultIsFit(rows: seq<Row>, ts: seq<Type>, col: nat, decl: map<string, Type>)
    requires RowsFit(rows, ts, decl) && SizedAll(ts) && Splits(rows, ts, col) && Wide(rows, col)
    ensures TreeFits(CompileDefault(rows, ts, col), Splice(ts, col, []), decl)
    decreases MatrixSize(rows), 0, 0
  {
    DefaultSmaller(rows, ts, col);
    DefaultFits(rows, ts, col, decl);
    SpliceSized(ts, col, []);
    CompileFits(DefaultRows(rows, col), Splice(ts, col, []), decl);
  }

  // ---- Source patterns.

  predicate DistinctDefs(defs: seq<Field>) {
    forall i, j :: 0 <= i < j < |defs| ==> defs[i].name != defs[j].name
  }

  predicate FieldsFit(fields: seq<SubPat>, defs: seq<Field>, decl: map<string, Type>)
    decreases fields, 0
  {
    && DistinctDefs(defs)
    && forall k, i :: 0 <= k < |fields| && 0 <= i < |defs| && defs[i].name == fields[k].name ==>
         SourceFits(fields[k].pat, defs[i].ty, decl)
  }

  /** Literals are representable, variables have their declared types, and field
      names of a type differ. */
  predicate SourceFits(p: Source, t: Type, decl: map<string, Type>)
    decreases p, 1
  {
    match p
    case PBind(x) => x in decl ==> decl[x] == t
    case PInt(n) => t.Int? && LiteralOk(t.w, n)
    case PStruct(variant, fields) =>
      (t.Record? && FieldsFit(fields, t.fields, decl))
      || (t.Enum? && VariantIndex(t.variants, variant).Some?
          && var kind := t.variants[VariantIndex(t.variants, variant).value].kind;
             kind.StructKind? && FieldsFit(fields, kind.defs, decl))
    case PTuple(variant, items) =>
      t.Enum? && VariantIndex(t.variants, variant).Some?
      && var kind := t.variants[VariantIndex(t.variants, variant).value].kind;
         kind.TupleKind? && |items| == |kind.types|
         && forall i :: 0 <= i < |items| ==> SourceFits(items[i], kind.types[i], decl)
    case PAnonTuple(items) =>
      t.Tuple? && |items| == |t.items| && forall i :: 0 <= i < |items| ==> SourceFits(items[i], t.items[i], decl)
    case _ => true
  }

  lemma {:induction false} LowerFits(p: Source, arm: nat, t: Type, decl: map<string, Type>)
    requires SourceTyped(p, t) && SourceFits(p, t, decl)
    ensures PatFits(Lower(p, arm, t), t, decl)
    decreases p, 1
  {
    match p
    case PStruct(variant, fields) => LowerStructFits(p, arm, t, decl);
    case PTuple(variant, items) =>
      LowerItemsFit(items, arm, t.variants[VariantIndex(t.variants, variant).value].kind.types, decl);
    case PAnonTuple(items) => LowerItemsFit(items, arm, t.items, decl);
    case _ =>
  }

  lemma {:induction false} LowerStructFits(p: Source, arm: nat, t: Type, decl: map<string, Type>)
    requires p.PStruct? && SourceTyped(p, t) && SourceFits(p, t, decl)
    ensures PatFits(Lower(p, arm, t), t, decl)
    decreases p, 0
  {
    hide FieldsTyped, FieldsFit, LowerFields;
    LowerFieldsFit(p.fields, arm,
      if t.Record? then t.fields else t.variants[VariantIndex(t.variants, p.variant).value].kind.defs, decl);
  }

  lemma {:induction false} LowerFieldsFit(fields: seq<SubPat>, arm: nat, defs: seq<Field>, decl: map<string, Type>)
    requires FieldsTyped(fields, defs) && FieldsFit(fields, defs, decl)
    ensures PatsFit(LowerFields(fields, arm, defs), Types(defs), decl)
    decreases fields, 0
  {
    forall i | 0 <= i < |defs|
      ensures PatFits(LowerFields(fields, arm, defs)[i], Types(defs)[i], decl)
    {
      var k := FieldPat(fields, defs[i].name);
      if k.Some? {
        LowerFits(fields[k.value].pat, arm, defs[i].ty, decl);
      }
    }
  }

  lemma {:induction false} LowerItemsFit(items: seq<Source>, arm: nat, ts: seq<Type>, decl: map<string, Type>)
    requires |items| == |ts| && forall i :: 0 <= i < |items| ==> SourceTyped(items[i], ts[i])
    requires forall i :: 0 <= i < |items| ==> SourceFits(items[i], ts[i], decl)
    ensures PatsFit(LowerItems(items, arm, ts), ts, decl)
    decreases items, 0
  {
    forall i | 0 <= i < |items|
      ensures PatFits(LowerItems(items, arm, ts)[i], ts[i], decl)
    {
      LowerFits(items[i], arm, ts[i], decl);
    }
  }

  /** The tree of a match fits. */
  lemma ArmsFit(arms: seq<Source>, t: Type, decl: map<string, Type>)
    requires ArmsTyped(arms, t) && Sized(t) && forall k :: 0 <= k < |arms| ==> SourceFits(arms[k], t, decl)
    ensures MatrixTyped(ArmRows(arms, t), [t]) && TreeFits(Compile(ArmRows(arms, t), [t]), [t], decl)
  {
    hide SourceTyped, SourceFits, Lower, PatFits, Sized, Compile, TreeFits;
    ArmRowsTyped(arms, t);
    forall k | 0 <= k < |arms|
      ensures PatsFit(ArmRows(arms, t)[k].pats, [t], decl)
    {
      LowerFits(arms[k], k, t, decl);
    }
    CompileFits(ArmRows(arms, t), [t], decl);
  }
}
