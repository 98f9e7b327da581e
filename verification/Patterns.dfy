/** Source patterns, their lowering to matrix patterns, and whole matches. */
module Patterns {
  import opened Options
  import opened StarTypes
  import opened DecisionTree
  import opened TreeCompile
  import opened FirstMatch

  /** A type-checked pattern. Struct patterns name their fields, in any order. */
  datatype Source =
    | PWild
    | PBind(name: string)
    | PInt(n: int)
    | PBool(b: bool)
    | PUnit
    | PStruct(variant: string, fields: seq<SubPat>)
    | PTuple(variant: string, items: seq<Source>)
    | PAnonTuple(items: seq<Source>)
    | PConst(index: nat)

  datatype SubPat = SubPat(name: string, pat: Source)

  function VariantIndex(variants: seq<Variant>, name: string): (r: Option<nat>)
    ensures r.Some? ==> r.value < |variants| && variants[r.value].name == name
  {
    if variants == [] then None
    else if variants[0].name == name then Some(0)
    else
      var rest := VariantIndex(variants[1..], name);
      if rest.Some? then Some(rest.value + 1) else None
  }

  /** The first sub-pattern for a field. */
  function FieldPat(fields: seq<SubPat>, name: string): (r: Option<nat>)
    ensures r.Some? ==> r.value < |fields| && fields[r.value].name == name
    ensures r.None? ==> forall k :: 0 <= k < |fields| ==> fields[k].name != name
  {
    if fields == [] then None
    else if fields[0].name == name then Some(0)
    else
      var rest := FieldPat(fields[1..], name);
      if rest.Some? then Some(rest.value + 1) else None
  }

  predicate DistinctFields(fields: seq<SubPat>) {
    forall i, j :: 0 <= i < j < |fields| ==> fields[i].name != fields[j].name
  }

  // ---- Typing, as the type checker guarantees it.

  /** Each sub-pattern names a declared field and fits it. */
  predicate FieldsTyped(fields: seq<SubPat>, defs: seq<Field>)
    decreases fields, 0
  {
    && DistinctFields(fields)
    && (forall k :: 0 <= k < |fields| ==> exists i :: 0 <= i < |defs| && defs[i].name == fields[k].name)
    && (forall k, i :: 0 <= k < |fields| && 0 <= i < |defs| && defs[i].name == fields[k].name ==>
          SourceTyped(fields[k].pat, defs[i].ty))
  }

  predicate SourceTyped(p: Source, t: Type)
    decreases p, 1
  {
    match p
    case PWild => true
    case PBind(_) => true
    case PInt(_) => t.Int?
    case PBool(_) => t.Bool?
    case PUnit => t.Unit?
    case PStruct(variant, fields) =>
      (t.Record? && FieldsTyped(fields, t.fields))
      || (t.Enum? && VariantIndex(t.variants, variant).Some?
          && var kind := t.variants[VariantIndex(t.variants, variant).value].kind;
          && kind.StructKind? && FieldsTyped(fields, kind.defs)
          && forall i :: 0 <= i < |kind.defs| ==> FieldPat(fields, kind.defs[i].name).Some?)
    case PTuple(variant, items) =>
      && t.Enum? && VariantIndex(t.variants, variant).Some?
      && var kind := t.variants[VariantIndex(t.variants, variant).value].kind;
      && kind.TupleKind? && |items| == |kind.types|
      && forall i :: 0 <= i < |items| ==> SourceTyped(items[i], kind.types[i])
    case PAnonTuple(items) =>
      && t.Tuple? && |items| == |t.items|
      && forall i :: 0 <= i < |items| ==> SourceTyped(items[i], t.items[i])
    case PConst(k) => t.Enum? && k < |t.variants| && PayloadTypes(t.variants[k]) == []
  }

  // ---- Meaning.

  /** Every named field's value matches its sub-pattern. */
  predicate FieldsMatch(fields: seq<SubPat>, defs: seq<Field>, vs: seq<Value>)
    decreases fields, 0
  {
    forall k, i :: 0 <= k < |fields| && 0 <= i < |defs| && i < |vs| && defs[i].name == fields[k].name ==>
      SourceMatches(fields[k].pat, defs[i].ty, vs[i])
  }

  predicate SourceMatches(p: Source, t: Type, v: Value)
    decreases p, 1
  {
    match p
    case PWild => true
    case PBind(_) => true
    case PInt(n) => v == IntV(n)
    case PBool(b) => v == BoolV(b)
    case PUnit => v == UnitV
    case PStruct(variant, fields) =>
      if t.Record? then v.StructV? && FieldsMatch(fields, t.fields, v.fields)
      else if t.Enum? && VariantIndex(t.variants, variant).Some? then
        var k := VariantIndex(t.variants, variant).value;
        v.EnumV? && v.variant == k && t.variants[k].kind.StructKind?
        && FieldsMatch(fields, t.variants[k].kind.defs, v.payload)
      else false
    case PTuple(variant, items) =>
      if t.Enum? && VariantIndex(t.variants, variant).Some? then
        var k := VariantIndex(t.variants, variant).value;
        v.EnumV? && v.variant == k && t.variants[k].kind.TupleKind?
        && |t.variants[k].kind.types| == |items| == |v.payload|
        && forall i :: 0 <= i < |items| ==> SourceMatches(items[i], t.variants[k].kind.types[i], v.payload[i])
      else false
    case PAnonTuple(items) =>
      t.Tuple? && v.StructV? && |t.items| == |items| == |v.fields|
      && forall i :: 0 <= i < |items| ==> SourceMatches(items[i], t.items[i], v.fields[i])
    case PConst(k) => v.EnumV? && v.variant == k
  }

  predicate FieldsBind(fields: seq<SubPat>, defs: seq<Field>, vs: seq<Value>, x: string, w: Value, tx: Type)
    decreases fields, 0
  {
    exists k, i :: 0 <= k < |fields| && 0 <= i < |defs| && i < |vs| && defs[i].name == fields[k].name
      && SourceBinds(fields[k].pat, defs[i].ty, vs[i], x, w, tx)
  }

  /** Matching p against v binds the variable x to w, of type tx. */
  predicate SourceBinds(p: Source, t: Type, v: Value, x: string, w: Value, tx: Type)
    decreases p, 1
  {
    match p
    case PBind(name) => x == name && w == v && tx == t
    case PStruct(variant, fields) =>
      if t.Record? && v.StructV? then FieldsBind(fields, t.fields, v.fields, x, w, tx)
      else if t.Enum? && v.EnumV? && v.variant < |t.variants| && t.variants[v.variant].kind.StructKind? then
        FieldsBind(fields, t.variants[v.variant].kind.defs, v.payload, x, w, tx)
      else false
    case PTuple(variant, items) =>
      t.Enum? && v.EnumV? && v.variant < |t.variants|
      && exists i :: 0 <= i < |items| && i < |v.payload| && i < |PayloadTypes(t.variants[v.variant])|
           && SourceBinds(items[i], PayloadTypes(t.variants[v.variant])[i], v.payload[i], x, w, tx)
    case PAnonTuple(items) =>
      t.Tuple? && v.StructV?
      && exists i :: 0 <= i < |items| && i < |v.fields| && i < |t.items| && SourceBinds(items[i], t.items[i], v.fields[i], x, w, tx)
    case _ => false
  }

  // ---- Lowering.

  /** Sub-patterns in declaration order; an unnamed field matches anything. */
  function LowerFields(fields: seq<SubPat>, arm: nat, defs: seq<Field>): (r: seq<Pat>)
    requires FieldsTyped(fields, defs)
    ensures |r| == |defs|
    decreases fields, 0
  {
    seq(|defs|, i requires 0 <= i < |defs| =>
      match FieldPat(fields, defs[i].name)
      case Some(k) => Lower(fields[k].pat, arm, defs[i].ty)
      case None => Blank())
  }

  function LowerItems(items: seq<Source>, arm: nat, ts: seq<Type>): (r: seq<Pat>)
    requires |items| == |ts| && forall i :: 0 <= i < |items| ==> SourceTyped(items[i], ts[i])
    ensures |r| == |items|
    decreases items, 0
  {
    seq(|items|, i requires 0 <= i < |items| => Lower(items[i], arm, ts[i]))
  }

  function Lower(p: Source, arm: nat, t: Type): Pat
    requires SourceTyped(p, t)
    decreases p, 1
  {
    match p
    case PWild => Blank()
    case PBind(name) => Wildcard(Some(Binder(arm, name)))
    case PInt(n) => PCtor(IntLiteral(n), [])
    case PBool(b) => PCtor(if b then BoolTrue else BoolFalse, [])
    case PUnit => PCtor(UnitCtor, [])
    case PStruct(variant, fields) =>
      if t.Record? then PCtor(StructCtor, LowerFields(fields, arm, t.fields))
      else
        var k := VariantIndex(t.variants, variant).value;
        PCtor(EnumVariant(k), LowerFields(fields, arm, t.variants[k].kind.defs))
    case PTuple(variant, items) =>
      var k := VariantIndex(t.variants, variant).value;
      PCtor(EnumVariant(k), LowerItems(items, arm, t.variants[k].kind.types))
    case PAnonTuple(items) => PCtor(StructCtor, LowerItems(items, arm, t.items))
    case PConst(k) => PCtor(EnumVariant(k), [])
  }

  lemma {:induction false} LowerTyped(p: Source, arm: nat, t: Type)
    requires SourceTyped(p, t)
    ensures PatHasType(Lower(p, arm, t), t)
    decreases p, 1
  {
    match p
    case PStruct(variant, fields) =>
      LowerFieldsTyped(fields, arm, if t.Record? then t.fields else t.variants[VariantIndex(t.variants, variant).value].kind.defs);
    case PTuple(variant, items) =>
      LowerItemsTyped(items, arm, t.variants[VariantIndex(t.variants, variant).value].kind.types);
    case PAnonTuple(items) => LowerItemsTyped(items, arm, t.items);
    case _ =>
  }

  lemma {:induction false} LowerFieldsTyped(fields: seq<SubPat>, arm: nat, defs: seq<Field>)
    requires FieldsTyped(fields, defs)
    ensures PatsHaveTypes(LowerFields(fields, arm, defs), Types(defs))
    decreases fields, 0
  {
    forall i | 0 <= i < |defs|
      ensures PatHasType(LowerFields(fields, arm, defs)[i], Types(defs)[i])
    {
      var k := FieldPat(fields, defs[i].name);
      if k.Some? {
        LowerTyped(fields[k.value].pat, arm, defs[i].ty);
      }
    }
  }

  lemma {:induction false} LowerItemsTyped(items: seq<Source>, arm: nat, ts: seq<Type>)
    requires |items| == |ts| && forall i :: 0 <= i < |items| ==> SourceTyped(items[i], ts[i])
    ensures PatsHaveTypes(LowerItems(items, arm, ts), ts)
    decreases items, 0
  {
    forall i | 0 <= i < |items|
      ensures PatHasType(LowerItems(items, arm, ts)[i], ts[i])
    {
      LowerTyped(items[i], arm, ts[i]);
    }
  }

  // ---- Lowering keeps what patterns match.

  lemma {:induction false} LowerMatches(p: Source, arm: nat, t: Type, v: Value)
    requires SourceTyped(p, t) && HasType(v, t)
    ensures Matches(Lower(p, arm, t), v) <==> SourceMatches(p, t, v)
    decreases p, 1
  {
    match p
    case PStruct(_, _) => LowerStructMatches(p, arm, t, v);
    case PTuple(variant, items) =>
      var k := VariantIndex(t.variants, variant).value;
      if v.variant == k {
        LowerItemsMatch(items, arm, t.variants[k].kind.types, v.payload);
      }
    case PAnonTuple(items) => LowerItemsMatch(items, arm, t.items, v.fields);
    case _ =>
  }

  lemma {:induction false} LowerStructMatches(p: Source, arm: nat, t: Type, v: Value)
    requires p.PStruct? && SourceTyped(p, t) && HasType(v, t)
    ensures Matches(Lower(p, arm, t), v) <==> SourceMatches(p, t, v)
    decreases p, 0
  {
    hide FieldsTyped, FieldsMatch, LowerFields;
    if t.Record? {
      LowerFieldsMatch(p.fields, arm, t.fields, v.fields);
    } else {
      var k := VariantIndex(t.variants, p.variant).value;
      if v.variant == k {
        LowerFieldsMatch(p.fields, arm, t.variants[k].kind.defs, v.payload);
      }
    }
  }

  lemma {:induction false} LowerFieldsMatch(fields: seq<SubPat>, arm: nat, defs: seq<Field>, vs: seq<Value>)
    requires FieldsTyped(fields, defs) && HaveTypes(vs, Types(defs))
    ensures RowMatches(LowerFields(fields, arm, defs), vs) <==> FieldsMatch(fields, defs, vs)
    decreases fields, 0
  {
    var ps := LowerFields(fields, arm, defs);
    forall i | 0 <= i < |defs|
      ensures Matches(ps[i], vs[i]) <==>
                forall k :: 0 <= k < |fields| && defs[i].name == fields[k].name ==>
                  SourceMatches(fields[k].pat, defs[i].ty, vs[i])
    {
      var found := FieldPat(fields, defs[i].name);
      if found.Some? {
        LowerMatches(fields[found.value].pat, arm, defs[i].ty, vs[i]);
        OneField(fields, found.value, defs[i].name);
      }
    }
  }

  lemma OneField(fields: seq<SubPat>, k: nat, name: string)
    requires DistinctFields(fields) && k < |fields| && fields[k].name == name
    ensures forall j :: 0 <= j < |fields| && fields[j].name == name ==> j == k
  {
  }

  lemma {:induction false} LowerItemsMatch(items: seq<Source>, arm: nat, ts: seq<Type>, vs: seq<Value>)
    requires |items| == |ts| && forall i :: 0 <= i < |items| ==> SourceTyped(items[i], ts[i])
    requires HaveTypes(vs, ts)
    ensures RowMatches(LowerItems(items, arm, ts), vs) <==>
              forall i :: 0 <= i < |items| ==> SourceMatches(items[i], ts[i], vs[i])
    decreases items, 0
  {
    forall i | 0 <= i < |items|
      ensures Matches(LowerItems(items, arm, ts)[i], vs[i]) <==> SourceMatches(items[i], ts[i], vs[i])
    {
      LowerMatches(items[i], arm, ts[i], vs[i]);
    }
  }

  // ---- Lowering keeps what patterns bind.

  lemma {:induction false} LowerBinds(p: Source, arm: nat, t: Type, v: Value, b: Bound)
    requires SourceTyped(p, t) && HasType(v, t) && SourceMatches(p, t, v)
    ensures Binds(Lower(p, arm, t), v, t, b) <==> b.arm == arm && SourceBinds(p, t, v, b.name, b.value, b.ty)
    decreases p, 1
  {
    match p
    case PStruct(_, _) => LowerStructBinds(p, arm, t, v, b);
    case PTuple(_, _) => LowerTupleBinds(p, arm, t, v, b);
    case PAnonTuple(_) => LowerAnonBinds(p, arm, t, v, b);
    case _ =>
  }

  lemma {:induction false} LowerAnonBinds(p: Source, arm: nat, t: Type, v: Value, b: Bound)
    requires p.PAnonTuple? && SourceTyped(p, t) && HasType(v, t) && SourceMatches(p, t, v)
    ensures Binds(Lower(p, arm, t), v, t, b) <==> b.arm == arm && SourceBinds(p, t, v, b.name, b.value, b.ty)
    decreases p, 0
  {
    hide SourceTyped, SourceMatches, Binds;
    AnonParts(p.items, t, v);
    CtorBinds(StructCtor, LowerItems(p.items, arm, t.items), v, t, b);
    LowerItemsBind(p.items, arm, t.items, v.fields, b);
  }

  lemma AnonParts(items: seq<Source>, t: Type, v: Value)
    requires SourceTyped(PAnonTuple(items), t) && HasType(v, t) && SourceMatches(PAnonTuple(items), t, v)
    ensures t.Tuple? && v.StructV? && |items| == |t.items| && HaveTypes(v.fields, t.items)
    ensures forall i :: 0 <= i < |items| ==> SourceTyped(items[i], t.items[i]) && SourceMatches(items[i], t.items[i], v.fields[i])
  {
  }

  /** A constructor pattern binds what its arguments bind. */
  lemma CtorBinds(c: Ctor, args: seq<Pat>, v: Value, t: Type, b: Bound)
    ensures Binds(PCtor(c, args), v, t, b) <==> RowBinds(args, Args(v), FieldTypes(c, t), b)
  {
  }

  lemma {:induction false} LowerStructBinds(p: Source, arm: nat, t: Type, v: Value, b: Bound)
    requires p.PStruct? && SourceTyped(p, t) && HasType(v, t) && SourceMatches(p, t, v)
    ensures Binds(Lower(p, arm, t), v, t, b) <==> b.arm == arm && SourceBinds(p, t, v, b.name, b.value, b.ty)
    decreases p, 0
  {
    var defs := StructParts(p, arm, t, v, b);
    hide *;
    LowerFieldsBind(p.fields, arm, defs, Args(v), b);
    CtorBinds(Lower(p, arm, t).ctor, LowerFields(p.fields, arm, defs), v, t, b);
  }

  /** The declared fields of a struct pattern that matches. */
  lemma StructParts(p: Source, arm: nat, t: Type, v: Value, b: Bound) returns (defs: seq<Field>)
    requires p.PStruct? && SourceTyped(p, t) && HasType(v, t) && SourceMatches(p, t, v)
    ensures FieldsTyped(p.fields, defs) && HaveTypes(Args(v), Types(defs)) && FieldsMatch(p.fields, defs, Args(v))
    ensures Lower(p, arm, t).PCtor? && Lower(p, arm, t).args == LowerFields(p.fields, arm, defs)
    ensures FieldTypes(Lower(p, arm, t).ctor, t) == Types(defs)
    ensures SourceBinds(p, t, v, b.name, b.value, b.ty) == FieldsBind(p.fields, defs, Args(v), b.name, b.value, b.ty)
  {
    hide FieldsTyped, FieldsMatch, FieldsBind, LowerFields;
    defs := if t.Record? then t.fields else t.variants[VariantIndex(t.variants, p.variant).value].kind.defs;
  }

  lemma {:induction false} LowerTupleBinds(p: Source, arm: nat, t: Type, v: Value, b: Bound)
    requires p.PTuple? && SourceTyped(p, t) && HasType(v, t) && SourceMatches(p, t, v)
    ensures Binds(Lower(p, arm, t), v, t, b) <==> b.arm == arm && SourceBinds(p, t, v, b.name, b.value, b.ty)
    decreases p, 0
  {
    hide Binds, LowerItems;
    var k := VariantIndex(t.variants, p.variant).value;
    LowerItemsBind(p.items, arm, t.variants[k].kind.types, v.payload, b);
    CtorBinds(EnumVariant(k), LowerItems(p.items, arm, t.variants[k].kind.types), v, t, b);
  }

  lemma {:induction false} LowerFieldsBind(fields: seq<SubPat>, arm: nat, defs: seq<Field>, vs: seq<Value>, b: Bound)
    requires FieldsTyped(fields, defs) && HaveTypes(vs, Types(defs)) && FieldsMatch(fields, defs, vs)
    ensures RowBinds(LowerFields(fields, arm, defs), vs, Types(defs), b)
       <==> b.arm == arm && FieldsBind(fields, defs, vs, b.name, b.value, b.ty)
    decreases fields, 0
  {
    hide SourceTyped, SourceMatches, SourceBinds, Binds, Lower;
    var ps := LowerFields(fields, arm, defs);
    forall i | 0 <= i < |defs|
      ensures Binds(ps[i], vs[i], Types(defs)[i], b) <==> b.arm == arm && FieldBinds(fields, defs, vs, i, b)
    {
      var found := FieldPat(fields, defs[i].name);
      if found.Some? {
        var k := found.value;
        LowerBinds(fields[k].pat, arm, defs[i].ty, vs[i], b);
        OneField(fields, k, defs[i].name);
      } else {
        BlankBindsNothing(vs[i], defs[i].ty, b);
      }
    }
  }

  /** The i-th declared field is named by a sub-pattern that binds b. */
  predicate FieldBinds(fields: seq<SubPat>, defs: seq<Field>, vs: seq<Value>, i: nat, b: Bound)
    requires i < |defs| && i < |vs|
  {
    exists k :: 0 <= k < |fields| && defs[i].name == fields[k].name
      && SourceBinds(fields[k].pat, defs[i].ty, vs[i], b.name, b.value, b.ty)
  }

  lemma BlankBindsNothing(v: Value, t: Type, b: Bound)
    ensures !Binds(Blank(), v, t, b)
  {
  }

  lemma {:induction false} LowerItemsBind(items: seq<Source>, arm: nat, ts: seq<Type>, vs: seq<Value>, b: Bound)
    requires |items| == |ts| && forall i :: 0 <= i < |items| ==> SourceTyped(items[i], ts[i])
    requires HaveTypes(vs, ts) && forall i :: 0 <= i < |items| ==> SourceMatches(items[i], ts[i], vs[i])
    ensures RowBinds(LowerItems(items, arm, ts), vs, ts, b) <==>
              b.arm == arm && exists i :: 0 <= i < |items| && SourceBinds(items[i], ts[i], vs[i], b.name, b.value, b.ty)
    decreases items, 0
  {
    forall i | 0 <= i < |items|
      ensures Binds(LowerItems(items, arm, ts)[i], vs[i], ts[i], b)
         <==> b.arm == arm && SourceBinds(items[i], ts[i], vs[i], b.name, b.value, b.ty)
    {
      LowerBinds(items[i], arm, ts[i], vs[i], b);
    }
  }

  // ---- Whole matches.

  predicate ArmsTyped(arms: seq<Source>, t: Type) {
    forall k :: 0 <= k < |arms| ==> SourceTyped(arms[k], t)
  }

  function ArmRows(arms: seq<Source>, t: Type): (rows: seq<Row>)
    requires ArmsTyped(arms, t)
    ensures |rows| == |arms|
  {
    seq(|arms|, k requires 0 <= k < |arms| => Row([Lower(arms[k], k, t)], k))
  }

  /** The first arm whose pattern matches. */
  function FirstArm(arms: seq<Source>, t: Type, v: Value): (r: Option<nat>)
    ensures r.Some? ==> r.value < |arms| && SourceMatches(arms[r.value], t, v)
                        && forall j :: 0 <= j < r.value ==> !SourceMatches(arms[j], t, v)
    ensures r.None? ==> forall j :: 0 <= j < |arms| ==> !SourceMatches(arms[j], t, v)
  {
    if arms == [] then None
    else
      var n := |arms| - 1;
      var before := FirstArm(arms[..n], t, v);
      if before.Some? then before else if SourceMatches(arms[n], t, v) then Some(n) else None
  }

  /** Build the matrix of a match and compile it. */
  method CompileMatch(arms: seq<Source>, t: Type) returns (tree: Tree)
    requires ArmsTyped(arms, t)
    ensures MatrixTyped(ArmRows(arms, t), [t]) && tree == Compile(ArmRows(arms, t), [t])
  {
    hide Lower, Compile, SourceTyped, PatHasType;
    var rows: seq<Row> := [];
    for k := 0 to |arms|
      invariant rows == ArmRows(arms, t)[..k]
    {
      rows := rows + [Row([Lower(arms[k], k, t)], k)];
    }
    ArmRowsTyped(arms, t);
    assert ArmRows(arms, t)[..|arms|] == ArmRows(arms, t);
    tree := CompileMatrix(rows, [t]);
  }

  lemma ArmRowsTyped(arms: seq<Source>, t: Type)
    requires ArmsTyped(arms, t)
    ensures MatrixTyped(ArmRows(arms, t), [t])
  {
    hide Lower, SourceTyped, PatHasType;
    forall k | 0 <= k < |arms|
      ensures PatsHaveTypes(ArmRows(arms, t)[k].pats, [t])
    {
      LowerTyped(arms[k], k, t);
    }
  }

  lemma OnePatMatches(p: Pat, v: Value)
    ensures RowMatches([p], [v]) <==> Matches(p, v)
  {
    hide Matches;
    assert [p][0] == p && [v][0] == v;
  }

  lemma FirstArmRow(arms: seq<Source>, t: Type, v: Value)
    requires ArmsTyped(arms, t) && HasType(v, t)
    ensures var first := FirstArm(arms, t, v);
            FirstRow(ArmRows(arms, t), [v]) == if first.None? then None else Some(ArmRows(arms, t)[first.value])
  {
    hide Lower, SourceTyped, SourceMatches, Matches, HasType;
    var rows := ArmRows(arms, t);
    forall k | 0 <= k < |arms|
      ensures RowMatches(rows[k].pats, [v]) <==> SourceMatches(arms[k], t, v)
    {
      LowerMatches(arms[k], k, t, v);
      OnePatMatches(Lower(arms[k], k, t), v);
    }
    var first := FirstArm(arms, t, v);
    if first.Some? {
      FirstRowIs(rows, [v], first.value);
    } else {
      NoRow(rows, [v]);
    }
  }

  lemma {:induction false} NoRow(rows: seq<Row>, vs: seq<Value>)
    requires forall k :: 0 <= k < |rows| ==> !RowMatches(rows[k].pats, vs)
    ensures FirstRow(rows, vs).None?
  {
    if rows != [] {
      NoRow(rows[1..], vs);
    }
  }

  /** A compiled match selects the first source pattern that matches, and binds
      variables of that arm only, to what the pattern binds them to. */
  lemma MatchIsFirstArm(arms: seq<Source>, t: Type, v: Value)
    requires ArmsTyped(arms, t) && HasType(v, t)
    ensures MatrixTyped(ArmRows(arms, t), [t])
    ensures var o := Walk(Compile(ArmRows(arms, t), [t]), [v], [t]);
            match FirstArm(arms, t, v)
            case None => o == Missed
            case Some(k) =>
              && o.Hit? && o.action == k
              && forall b :: b in o.bound ==> b.arm == k && SourceBinds(arms[k], t, v, b.name, b.value, b.ty)
  {
    hide Lower, SourceTyped, SourceMatches, Matches, Compile, Walk, Binds, SourceBinds;
    ArmRowsTyped(arms, t);
    var rows := ArmRows(arms, t);
    CompileAgrees(rows, [t], [v]);
    FirstArmRow(arms, t, v);
    var first := FirstArm(arms, t, v);
    if first.Some? {
      var k := first.value;
      forall b | RowBinds(rows[k].pats, [v], [t], b)
        ensures b.arm == k && SourceBinds(arms[k], t, v, b.name, b.value, b.ty)
      {
        LowerBinds(arms[k], k, t, v, b);
      }
    }
  }

  /** A `let` binds every variable of its pattern, to the right value. */
  lemma LetBindsAll(p: Source, t: Type, v: Value, x: string, w: Value, tx: Type)
    requires SourceTyped(p, t) && HasType(v, t) && SourceMatches(p, t, v)
    ensures MatrixTyped(ArmRows([p], t), [t])
    ensures var o := Walk(Compile(ArmRows([p], t), [t]), [v], [t]);
            o.Hit? && (Bound(0, x, w, tx) in o.bound <==> SourceBinds(p, t, v, x, w, tx))
  {
    hide Lower, SourceTyped, SourceMatches, Matches, Compile, Walk, Binds, SourceBinds;
    MatchIsFirstArm([p], t, v);
    assert FirstArm([p], t, v) == Some(0);
    var b := Bound(0, x, w, tx);
    LowerBinds(p, 0, t, v, b);
    LowerMatches(p, 0, t, v);
    var row := ArmRows([p], t)[0];
    assert ArmRows([p], t) == [row];
    if SourceBinds(p, t, v, x, w, tx) {
      assert Binds(row.pats[0], [v][0], [t][0], b);
      SingleRowBindsAll(row, [t], [v], b);
    }
  }
}
