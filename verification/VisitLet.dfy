/** `let` and `let else`: the variables of a pattern get locals of their own
    (the `let` case of `visit_block` and `collect_pattern_binding_types`, `lib.rs`). */
module VisitLet {
  import opened Options
  import opened StarTypes
  import opened DecisionTree
  import opened TreeCompile
  import opened FirstMatch
  import opened Patterns
  import opened Wasm
  import opened Flatten
  import opened EnumEncoding
  import opened Columns
  import opened Ir
  import opened FuncRun
  import opened MatchSpec
  import opened MatchLeaf
  import opened Emission
  import opened MatchEmit
  import opened TreeEmit
  import opened CompiledFits
  import opened VisitMatch

  // ---- The variables of a pattern.

  datatype VarDecl = VarDecl(name: string, ty: Type)

  function DefIndex(defs: seq<Field>, name: string): (r: Option<nat>)
    ensures r.Some? ==> r.value < |defs| && defs[r.value].name == name
    ensures r.None? ==> forall i :: 0 <= i < |defs| ==> defs[i].name != name
  {
    if defs == [] then None
    else if defs[0].name == name then Some(0)
    else
      var rest := DefIndex(defs[1..], name);
      if rest.Some? then Some(rest.value + 1) else None
  }

  function CollectedFields(fields: seq<SubPat>, defs: seq<Field>): seq<VarDecl>
    decreases fields, 0
  {
    if fields == [] then []
    else
      var last := fields[|fields| - 1];
      var i := DefIndex(defs, last.name);
      CollectedFields(fields[..|fields| - 1], defs) + if i.Some? then Collected(last.pat, defs[i.value].ty) else []
  }

  function CollectedItems(items: seq<Source>, ts: seq<Type>): seq<VarDecl>
    requires |items| == |ts|
    decreases items, 0
  {
    if items == [] then []
    else
      var n := |items| - 1;
      CollectedItems(items[..n], ts[..n]) + Collected(items[n], ts[n])
  }

  /** Every variable with its type, in the order of the pattern. */
  function Collected(p: Source, t: Type): seq<VarDecl>
    decreases p, 1
  {
    match p
    case PBind(name) => [VarDecl(name, t)]
    case PStruct(variant, fields) =>
      if t.Record? then CollectedFields(fields, t.fields)
      else if t.Enum? && VariantIndex(t.variants, variant).Some? then
        match t.variants[VariantIndex(t.variants, variant).value].kind
        case StructKind(defs) => CollectedFields(fields, defs)
        case _ => []
      else []
    case PTuple(variant, items) =>
      if t.Enum? && VariantIndex(t.variants, variant).Some? then
        match t.variants[VariantIndex(t.variants, variant).value].kind
        case TupleKind(types) => if |items| == |types| then CollectedItems(items, types) else []
        case _ => []
      else []
    case PAnonTuple(items) => if t.Tuple? && |items| == |t.items| then CollectedItems(items, t.items) else []
    case _ => []
  }

  predicate Agrees(vars: seq<VarDecl>, decl: map<string, Type>) {
    forall k :: 0 <= k < |vars| ==> vars[k].name in decl ==> decl[vars[k].name] == vars[k].ty
  }

  lemma AgreesParts(a: seq<VarDecl>, b: seq<VarDecl>, decl: map<string, Type>)
    requires Agrees(a + b, decl)
    ensures Agrees(a, decl) && Agrees(b, decl)
  {
    forall k | 0 <= k < |a|
      ensures a[k].name in decl ==> decl[a[k].name] == a[k].ty
    {
      assert (a + b)[k] == a[k];
    }
    forall k | 0 <= k < |b|
      ensures b[k].name in decl ==> decl[b[k].name] == b[k].ty
    {
      assert (a + b)[|a| + k] == b[k];
    }
  }

  /** Declarations that agree with the collected types suit the pattern. */
  lemma {:induction false} CollectedFits(p: Source, t: Type, decl: map<string, Type>)
    requires SourceFits(p, t, map[]) && Agrees(Collected(p, t), decl)
    ensures SourceFits(p, t, decl)
    decreases p, 1
  {
    match p
    case PBind(name) => assert Collected(p, t)[0] == VarDecl(name, t);
    case PStruct(variant, fields) =>
      if t.Record? {
        CollectedFieldsFit(fields, t.fields, decl);
      } else {
        CollectedFieldsFit(fields, t.variants[VariantIndex(t.variants, variant).value].kind.defs, decl);
      }
    case PTuple(variant, items) =>
      CollectedItemsFit(items, t.variants[VariantIndex(t.variants, variant).value].kind.types, decl);
    case PAnonTuple(items) => CollectedItemsFit(items, t.items, decl);
    case _ =>
  }

  lemma {:induction false} CollectedFieldsFit(fields: seq<SubPat>, defs: seq<Field>, decl: map<string, Type>)
    requires FieldsFit(fields, defs, map[]) && Agrees(CollectedFields(fields, defs), decl)
    ensures FieldsFit(fields, defs, decl)
    decreases fields, 0
  {
    if fields != [] {
      var n := |fields| - 1;
      var i := DefIndex(defs, fields[n].name);
      AgreesParts(CollectedFields(fields[..n], defs), if i.Some? then Collected(fields[n].pat, defs[i.value].ty) else [], decl);
      CollectedFieldsFit(fields[..n], defs, decl);
      if i.Some? {
        CollectedFits(fields[n].pat, defs[i.value].ty, decl);
      }
      forall k, j | 0 <= k < |fields| && 0 <= j < |defs| && defs[j].name == fields[k].name
        ensures SourceFits(fields[k].pat, defs[j].ty, decl)
      {
        if k < n {
          assert fields[..n][k] == fields[k];
        } else {
          assert j == i.value;
        }
      }
    }
  }

  lemma {:induction false} CollectedItemsFit(items: seq<Source>, ts: seq<Type>, decl: map<string, Type>)
    requires |items| == |ts| && forall i :: 0 <= i < |items| ==> SourceFits(items[i], ts[i], map[])
    requires Agrees(CollectedItems(items, ts), decl)
    ensures forall i :: 0 <= i < |items| ==> SourceFits(items[i], ts[i], decl)
    decreases items, 0
  {
    if items != [] {
      var n := |items| - 1;
      AgreesParts(CollectedItems(items[..n], ts[..n]), Collected(items[n], ts[n]), decl);
      CollectedItemsFit(items[..n], ts[..n], decl);
      CollectedFits(items[n], ts[n], decl);
      forall i | 0 <= i < |items|
        ensures SourceFits(items[i], ts[i], decl)
      {
        if i < n {
          assert items[..n][i] == items[i];
        }
      }
    }
  }

  /** Whatever a pattern binds has been collected, at its type. */
  lemma {:induction false} BindsCollected(p: Source, t: Type, v: Value, x: string, w: Value, tx: Type)
    requires SourceTyped(p, t) && SourceFits(p, t, map[]) && HasType(v, t)
    requires SourceMatches(p, t, v) && SourceBinds(p, t, v, x, w, tx)
    ensures VarDecl(x, tx) in Collected(p, t)
    decreases p, 1
  {
    OnlyBinders(p, t, v, x, w, tx);
    hide *;
    if p.PStruct? {
      StructBindsCollected(p, t, v, x, w, tx);
    } else if p.PTuple? {
      TupleBindsCollected(p, t, v, x, w, tx);
    } else if p.PAnonTuple? {
      AnonBindsCollected(p, t, v, x, w, tx);
    }
  }

  lemma OnlyBinders(p: Source, t: Type, v: Value, x: string, w: Value, tx: Type)
    requires SourceBinds(p, t, v, x, w, tx)
    ensures p.PBind? || p.PStruct? || p.PTuple? || p.PAnonTuple?
    ensures p.PBind? ==> VarDecl(x, tx) in Collected(p, t)
  {
    if p.PBind? {
      assert Collected(p, t)[0] == VarDecl(x, tx);
    }
  }

  lemma {:induction false} TupleBindsCollected(p: Source, t: Type, v: Value, x: string, w: Value, tx: Type)
    requires p.PTuple? && SourceTyped(p, t) && SourceFits(p, t, map[]) && HasType(v, t)
    requires SourceMatches(p, t, v) && SourceBinds(p, t, v, x, w, tx)
    ensures VarDecl(x, tx) in Collected(p, t)
    decreases p, 0
  {
    hide CollectedItems, VariantIndex;
    var items, types := p.items, t.variants[VariantIndex(t.variants, p.variant).value].kind.types;
    var i :| 0 <= i < |items| && i < |v.payload| && i < |types| && SourceBinds(items[i], types[i], v.payload[i], x, w, tx);
    ItemBindsCollected(items, types, v.payload, i, x, w, tx);
  }

  lemma {:induction false} AnonBindsCollected(p: Source, t: Type, v: Value, x: string, w: Value, tx: Type)
    requires p.PAnonTuple? && SourceTyped(p, t) && SourceFits(p, t, map[]) && HasType(v, t)
    requires SourceMatches(p, t, v) && SourceBinds(p, t, v, x, w, tx)
    ensures VarDecl(x, tx) in Collected(p, t)
    decreases p, 0
  {
    var items := p.items;
    var i :| 0 <= i < |items| && i < |v.fields| && i < |t.items| && SourceBinds(items[i], t.items[i], v.fields[i], x, w, tx);
    hide CollectedItems;
    ItemBindsCollected(items, t.items, v.fields, i, x, w, tx);
  }

  lemma {:induction false} StructBindsCollected(p: Source, t: Type, v: Value, x: string, w: Value, tx: Type)
    requires p.PStruct? && SourceTyped(p, t) && SourceFits(p, t, map[]) && HasType(v, t)
    requires SourceMatches(p, t, v) && SourceBinds(p, t, v, x, w, tx)
    ensures VarDecl(x, tx) in Collected(p, t)
    decreases p, 0
  {
    hide FieldsTyped, FieldsFit, FieldsMatch, FieldsBind, CollectedFields;
    if t.Record? {
      FieldBindsCollected(p.fields, t.fields, v.fields, x, w, tx);
    } else {
      FieldBindsCollected(p.fields, t.variants[VariantIndex(t.variants, p.variant).value].kind.defs, v.payload, x, w, tx);
    }
  }

  lemma {:induction false} FieldBindsCollected(fields: seq<SubPat>, defs: seq<Field>, vs: seq<Value>, x: string, w: Value,
                                               tx: Type)
    requires FieldsTyped(fields, defs) && FieldsFit(fields, defs, map[]) && HaveTypes(vs, Types(defs))
    requires FieldsMatch(fields, defs, vs) && FieldsBind(fields, defs, vs, x, w, tx)
    ensures VarDecl(x, tx) in CollectedFields(fields, defs)
    decreases fields, 0
  {
    var k, i :| 0 <= k < |fields| && 0 <= i < |defs| && i < |vs| && defs[i].name == fields[k].name
      && SourceBinds(fields[k].pat, defs[i].ty, vs[i], x, w, tx);
    BindsCollected(fields[k].pat, defs[i].ty, vs[i], x, w, tx);
    hide SourceTyped, SourceFits, SourceMatches, SourceBinds;
    FieldCollected(fields, defs, k, i, VarDecl(x, tx));
  }

  lemma {:induction false} FieldCollected(fields: seq<SubPat>, defs: seq<Field>, k: nat, i: nat, d: VarDecl)
    requires DistinctDefs(defs) && k < |fields| && i < |defs| && defs[i].name == fields[k].name
    requires d in Collected(fields[k].pat, defs[i].ty)
    ensures d in CollectedFields(fields, defs)
    decreases |fields|
  {
    hide Collected;
    var n := |fields| - 1;
    if k < n {
      FieldCollected(fields[..n], defs, k, i, d);
    }
  }

  lemma {:induction false} ItemBindsCollected(items: seq<Source>, ts: seq<Type>, vs: seq<Value>, i: nat, x: string, w: Value,
                                              tx: Type)
    requires |items| == |ts| && i < |items| && HaveTypes(vs, ts)
    requires SourceTyped(items[i], ts[i]) && SourceFits(items[i], ts[i], map[])
    requires SourceMatches(items[i], ts[i], vs[i]) && SourceBinds(items[i], ts[i], vs[i], x, w, tx)
    ensures VarDecl(x, tx) in CollectedItems(items, ts)
    decreases items, 0
  {
    BindsCollected(items[i], ts[i], vs[i], x, w, tx);
    hide SourceTyped, SourceFits, SourceMatches, SourceBinds;
    ItemCollected(items, ts, i, VarDecl(x, tx));
  }

  lemma {:induction false} ItemCollected(items: seq<Source>, ts: seq<Type>, i: nat, d: VarDecl)
    requires |items| == |ts| && i < |items| && d in Collected(items[i], ts[i])
    ensures d in CollectedItems(items, ts)
    decreases |items|
  {
    hide Collected;
    var n := |items| - 1;
    if i < n {
      ItemCollected(items[..n], ts[..n], i, d);
    }
  }

  // ---- Locals for the variables.

  /** A name may come twice, but at one type only. */
  predicate Consistent(vars: seq<VarDecl>) {
    forall i, j :: 0 <= i < |vars| && 0 <= j < |vars| && vars[i].name == vars[j].name ==> vars[i].ty == vars[j].ty
  }

  /** The variables collected so far have locals from lo on. */
  ghost predicate Placed(vars: seq<VarDecl>, dests: map<string, Col>, lo: nat, types: seq<ValType>) {
    && (forall x :: x in dests ==> DestIn(dests[x], types) && dests[x].local >= lo)
    && (forall x, y :: x in dests && y in dests && x != y ==> Apart(dests[x], dests[y]))
    && (forall k :: 0 <= k < |vars| ==> vars[k].name in dests)
    && (forall x :: x in dests ==> VarDecl(x, dests[x].ty) in vars)
  }

  lemma DestInGrown(d: Col, types: seq<ValType>, more: seq<ValType>)
    requires DestIn(d, types)
    ensures DestIn(d, types + more)
  {
    hide CoreTypes;
    assert (types + more)[d.local..d.local + |CoreTypes(d.ty)|] == types[d.local..d.local + |CoreTypes(d.ty)|];
  }

  lemma PlaceOne(vars: seq<VarDecl>, dests: map<string, Col>, lo: nat, types: seq<ValType>, d: VarDecl)
    requires Placed(vars, dests, lo, types) && lo <= |types|
    ensures Placed(vars + [d], dests[d.name := Col(|types|, d.ty)], lo, types + CoreTypes(d.ty))
  {
    var types', c := types + CoreTypes(d.ty), Col(|types|, d.ty);
    var dests' := dests[d.name := c];
    assert DestIn(c, types') by {
      assert types'[c.local..c.local + |CoreTypes(c.ty)|] == CoreTypes(c.ty);
    }
    hide CoreTypes;
    forall x | x in dests
      ensures DestIn(dests[x], types') && Apart(dests[x], c)
    {
      DestInGrown(dests[x], types, CoreTypes(d.ty));
    }
    hide DestIn, Apart;
    forall x | x in dests'
      ensures VarDecl(x, dests'[x].ty) in vars + [d]
    {
      if x == d.name {
        assert (vars + [d])[|vars|] == d;
      }
    }
    ApartBack(dests, c);
  }

  lemma ApartBack(dests: map<string, Col>, c: Col)
    requires forall x :: x in dests ==> Apart(dests[x], c)
    ensures forall x :: x in dests ==> Apart(c, dests[x])
  {
    hide CoreTypes;
  }

  method PlaceVariables(func: StFunction, vars: seq<VarDecl>) returns (dests: map<string, Col>)
    requires func.Valid()
    modifies func
    ensures func.Valid() && old(func.Types()) <= func.Types()
    ensures Placed(vars, dests, old(|func.Types()|), func.Types())
  {
    dests := map[];
    ghost var lo := |func.Types()|;
    for k := 0 to |vars|
      invariant func.Valid() && old(func.Types()) <= func.Types()
      invariant Placed(vars[..k], dests, lo, func.Types())
    {
      hide Placed, CoreTypes;
      ghost var types := func.Types();
      var coreTypes := StarToCoreTypes([], vars[k].ty);
      assert coreTypes == CoreTypes(vars[k].ty);
      var base := func.AddLocals(coreTypes);
      PlaceOne(vars[..k], dests, lo, types, vars[k]);
      assert vars[..k] + [vars[k]] == vars[..k + 1];
      dests := dests[vars[k].name := Col(base, vars[k].ty)];
    }
    assert vars[..|vars|] == vars;
  }

  // ---- The statement.

  ghost predicate LetEnds(r: Result, p: Source, t: Type, v: Value, dests: map<string, Col>, hasElse: bool, below: seq<Slot>,
                          st: State, n: nat)
  {
    if SourceMatches(p, t, v) then
      && r.Done? && Tidy(st, r.st, below, n) && r.st.events == st.events
      && forall x, w, tx :: SourceBinds(p, t, v, x, w, tx) ==>
           x in dests && VarHolds(p, t, v, x, r.st.locals, dests[x].local)
    else
      r.Trapped? && r.st.events == st.events + if hasElse then [EnteredElse] else []
  }

  lemma PlacedDecl(vars: seq<VarDecl>, dests: map<string, Col>, lo: nat, types: seq<ValType>, hasElse: bool)
    requires Placed(vars, dests, lo, types) && Consistent(vars)
    ensures Agrees(vars, Decl(InLet(dests, hasElse)))
  {
    hide DestIn, Apart;
    forall k | 0 <= k < |vars|
      ensures vars[k].name in dests ==> dests[vars[k].name].ty == vars[k].ty
    {
      if vars[k].name in dests {
        var j :| 0 <= j < |vars| && vars[j] == VarDecl(vars[k].name, dests[vars[k].name].ty);
      }
    }
  }

  lemma LetReady(types0: seq<ValType>, types: seq<ValType>, b0: seq<BasicBlock>, b1: seq<BasicBlock>, b2: seq<BasicBlock>,
                 bb: nat, t: Type, code: seq<Instr>, vars: seq<VarDecl>, dests: map<string, Col>, hasElse: bool)
    requires IsOpen(b0, bb) && Wrote(b0, b1, bb, code) && b2 == b1 + [NEW_BLOCK]
    requires types0 + CoreTypes(t) <= types && Placed(vars, dests, |types0 + CoreTypes(t)|, types)
    ensures CanEmit(types, b2, bb, [Col(|types0|, t)], |b1|, InLet(dests, hasElse))
    ensures ColTypes([Col(|types0|, t)]) == [t]
  {
    hide DestIn;
  }

  lemma LetOutcome(p: Source, t: Type, v: Value, dests: map<string, Col>, hasElse: bool, vars: seq<VarDecl>,
                   types: seq<ValType>, below: seq<Slot>, st: State, mid: State, r: Result, n: nat)
    requires SourceTyped(p, t) && SourceFits(p, t, map[]) && HasType(v, t) && HaveTypes([v], [t])
    requires ArmsTyped([p], t) && MatrixTyped(ArmRows([p], t), [t])
    requires vars == Collected(p, t) && Placed(vars, dests, n, types)
    requires mid.stack == below && mid.events == st.events && mid.globals == st.globals && |mid.locals| == |st.locals|
    requires forall x :: 0 <= x < n && x < |st.locals| ==> mid.locals[x] == st.locals[x]
    requires EndsAs(r, mid, Walk(Compile(ArmRows([p], t), [t]), [v], [t]), InLet(dests, hasElse), n)
    ensures LetEnds(r, p, t, v, dests, hasElse, below, st, n)
  {
    MatchIsFirstArm([p], t, v);
    var o := Walk(Compile(ArmRows([p], t), [t]), [v], [t]);
    LetArm(p, t, v);
    hide SourceTyped, SourceFits, Walk, Compile, HasType, MatrixTyped, Collected, SourceBinds, SourceMatches, Placed,
         FirstArm, EndsAs, LetEnds, ArmsTyped;
    if SourceMatches(p, t, v) {
      LetFound(p, t, v, dests, hasElse, vars, types, below, st, mid, r, n, o);
    } else {
      LetMissed(p, t, v, dests, hasElse, below, st, mid, r, n, o);
    }
  }

  lemma LetMissed(p: Source, t: Type, v: Value, dests: map<string, Col>, hasElse: bool, below: seq<Slot>, st: State,
                  mid: State, r: Result, n: nat, o: Outcome)
    requires mid.events == st.events && EndsAs(r, mid, o, InLet(dests, hasElse), n) && o == Missed
    requires !SourceMatches(p, t, v)
    ensures LetEnds(r, p, t, v, dests, hasElse, below, st, n)
  {
    hide SourceMatches, SourceBinds;
  }

  lemma LetFound(p: Source, t: Type, v: Value, dests: map<string, Col>, hasElse: bool, vars: seq<VarDecl>,
                 types: seq<ValType>, below: seq<Slot>, st: State, mid: State, r: Result, n: nat, o: Outcome)
    requires SourceTyped(p, t) && SourceFits(p, t, map[]) && HasType(v, t) && HaveTypes([v], [t])
    requires SourceMatches(p, t, v) && ArmsTyped([p], t) && MatrixTyped(ArmRows([p], t), [t])
    requires o == Walk(Compile(ArmRows([p], t), [t]), [v], [t]) && o.Hit?
    requires forall b :: b in o.bound ==> SourceBinds(p, t, v, b.name, b.value, b.ty)
    requires vars == Collected(p, t) && Placed(vars, dests, n, types)
    requires mid.stack == below && mid.events == st.events && mid.globals == st.globals && |mid.locals| == |st.locals|
    requires forall x :: 0 <= x < n && x < |st.locals| ==> mid.locals[x] == st.locals[x]
    requires EndsAs(r, mid, o, InLet(dests, hasElse), n)
    ensures LetEnds(r, p, t, v, dests, hasElse, below, st, n)
  {
    hide SourceTyped, SourceFits, Walk, Compile, HasType, MatrixTyped, Collected, SourceBinds, SourceMatches, Placed,
         FirstArm, DestsHold, VarHolds, Framed, ArmsTyped, ArmRows;
    LetFrame(dests, hasElse, vars, types, mid, r.st, n);
    forall x, w, tx | SourceBinds(p, t, v, x, w, tx)
      ensures x in dests && VarHolds(p, t, v, x, r.st.locals, dests[x].local)
    {
      BindsCollected(p, t, v, x, w, tx);
      LetBindsAll(p, t, v, x, w, tx);
      VarCopied(p, t, v, x, w, tx, vars, dests, n, types, o.bound, r.st.locals);
    }
    FramedRest(mid, r.st, InLet(dests, hasElse), n);
  }

  lemma FramedRest(st: State, st': State, mode: Mode, n: nat)
    requires Framed(st, st', mode, n)
    ensures st'.globals == st.globals && |st'.locals| == |st.locals|
  {
  }

  lemma LetArm(p: Source, t: Type, v: Value)
    ensures FirstArm([p], t, v) == if SourceMatches(p, t, v) then Some(0) else None
  {
  }

  lemma VarCopied(p: Source, t: Type, v: Value, x: string, w: Value, tx: Type, vars: seq<VarDecl>, dests: map<string, Col>,
                  n: nat, types: seq<ValType>, bound: seq<Bound>, locals: seq<Slot>)
    requires Placed(vars, dests, n, types) && VarDecl(x, tx) in vars && Bound(0, x, w, tx) in bound
    requires DestsHold(dests, bound, locals)
    requires forall b :: b in bound ==> SourceBinds(p, t, v, b.name, b.value, b.ty)
    ensures x in dests && VarHolds(p, t, v, x, locals, dests[x].local)
  {
    PlacedHas(vars, dests, n, types, VarDecl(x, tx));
    var b := CopyOf(dests, bound, locals, Bound(0, x, w, tx));
    hide *;
    IsVarHolds(p, t, v, b, locals, dests[x].local);
  }

  lemma PlacedHas(vars: seq<VarDecl>, dests: map<string, Col>, n: nat, types: seq<ValType>, d: VarDecl)
    requires Placed(vars, dests, n, types) && d in vars
    ensures d.name in dests
  {
    hide DestIn, Apart;
    var k :| 0 <= k < |vars| && vars[k] == d;
  }

  lemma CopyOf(dests: map<string, Col>, bound: seq<Bound>, locals: seq<Slot>, b: Bound) returns (b': Bound)
    requires DestsHold(dests, bound, locals) && b in bound && b.name in dests
    ensures b' in bound && b'.name == b.name && SlotsOf(b', locals, dests[b.name].local)
  {
    hide SlotsOf;
    b' :| b' in bound && b'.name == b.name && SlotsOf(b', locals, dests[b.name].local);
  }

  lemma IsVarHolds(p: Source, t: Type, v: Value, b: Bound, locals: seq<Slot>, base: nat)
    requires SourceBinds(p, t, v, b.name, b.value, b.ty) && SlotsOf(b, locals, base)
    ensures VarHolds(p, t, v, b.name, locals, base)
  {
    hide SourceBinds, HasType, FlatV, Holds;
  }

  lemma LetFrame(dests: map<string, Col>, hasElse: bool, vars: seq<VarDecl>, types: seq<ValType>, mid: State, st': State, n: nat)
    requires Placed(vars, dests, n, types) && Framed(mid, st', InLet(dests, hasElse), n)
    ensures forall x :: 0 <= x < n && x < |mid.locals| ==> st'.locals[x] == mid.locals[x]
  {
    forall x | 0 <= x < n && x < |mid.locals|
      ensures !MayWrite(InLet(dests, hasElse), x)
    {
    }
  }

  lemma LetRuns(types0: seq<ValType>, types: seq<ValType>, blocks: seq<BasicBlock>, bb: nat, p: nat, q: nat,
                pat: Source, t: Type, last: nat, dests: map<string, Col>, hasElse: bool, v: Value, below: seq<Slot>, st: State)
    requires SourceTyped(pat, t) && SourceFits(pat, t, map[]) && ArmsTyped([pat], t) && MatrixTyped(ArmRows([pat], t), [t])
    requires Placed(Collected(pat, t), dests, |types0|, types)
    requires types0 + CoreTypes(t) <= types && bb < |blocks| && p <= q <= |blocks[bb].instructions|
    requires blocks[bb].instructions[p..q] == SpillCode(|types0|, |CoreTypes(t)|)
    requires Decides(types, blocks, bb, q, [Col(|types0|, t)], Compile(ArmRows([pat], t), [t]), last, InLet(dests, hasElse),
                     |types0|)
    requires Arrives(types, t, v, below, st)
    ensures LetEnds(RunFrom(blocks, bb, p, st, last), pat, t, v, dests, hasElse, below, st, |types0|)
  {
    assert HasType(v, t);
    hide EndsAs, Walk, Decides, RunFrom, SpillCode, CoreTypes, Compile, LetEnds, MatrixTyped, SourceTyped, SourceFits, Placed,
         Collected;
    var mid := RunsAsTree(types0, types, blocks, bb, p, q, t, Compile(ArmRows([pat], t), [t]), last, InLet(dests, hasElse), v,
                          below, st);
    LetOutcome(pat, t, v, dests, hasElse, Collected(pat, t), types, below, st, mid, RunFrom(blocks, bb, p, st, last), |types0|);
  }

  lemma PlacedLower(vars: seq<VarDecl>, dests: map<string, Col>, lo: nat, lo': nat, types: seq<ValType>, types': seq<ValType>)
    requires Placed(vars, dests, lo, types) && lo' <= lo && types <= types'
    ensures Placed(vars, dests, lo', types')
  {
    forall x | x in dests
      ensures DestIn(dests[x], types')
    {
      DestInGrown(dests[x], types, types'[|types|..]);
      assert types + types'[|types|..] == types';
    }
  }

  lemma LetTreeFits(pat: Source, t: Type, dests: map<string, Col>, lo: nat, types: seq<ValType>, hasElse: bool)
    requires SourceTyped(pat, t) && SourceFits(pat, t, map[]) && Sized(t) && Consistent(Collected(pat, t))
    requires Placed(Collected(pat, t), dests, lo, types)
    ensures ArmsTyped([pat], t) && MatrixTyped(ArmRows([pat], t), [t])
    ensures TreeFits(Compile(ArmRows([pat], t), [t]), [t], Decl(InLet(dests, hasElse)))
  {
    hide SourceTyped, SourceFits, Sized, Compile, TreeFits, Placed, Collected;
    PlacedDecl(Collected(pat, t), dests, lo, types, hasElse);
    CollectedFits(pat, t, Decl(InLet(dests, hasElse)));
    ArmsFit([pat], t, Decl(InLet(dests, hasElse)));
  }

  /** A `let` whose initialiser has been evaluated onto the stack. Whatever its value,
      if the pattern matches, running the code arrives at the end with every variable
      of the pattern in its own locals; otherwise the else block runs. */
  method VisitLet(func: StFunction, bb: nat, pat: Source, t: Type, hasElse: bool)
    returns (bbEnd: nat, dests: map<string, Col>)
    requires func.Valid() && IsOpen(func.cfg.blocks, bb)
    requires SourceTyped(pat, t) && SourceFits(pat, t, map[]) && Sized(t) && Consistent(Collected(pat, t))
    modifies func, func.cfg
    ensures func.Valid() && old(func.Types()) <= func.Types()
    ensures Growing(old(func.cfg.blocks), func.cfg.blocks, bb, bbEnd, bbEnd)
    ensures forall v, below, st :: Arrives(func.Types(), t, v, below, st) ==>
              LetEnds(RunFrom(func.cfg.blocks, bb, old(|func.cfg.blocks[bb].instructions|), st, bbEnd),
                      pat, t, v, dests, hasElse, below, st, old(|func.Types()|))
  {
    hide TreeFits, SourceFits, SourceTyped, Sized, Compile, Grown, Growing, CoreTypes, Decides, Wrote, Placed, Collected,
         CanEmit, Consistent, LetEnds, Arrives, SpillCode, MatrixTyped;
    ghost var types0, b0 := func.Types(), func.cfg.blocks;
    var scrutBase := StoreScrutinee(func, bb, t);
    ghost var typesS, b1 := func.Types(), func.cfg.blocks;
    dests := PlaceVariables(func, Collected(pat, t));
    ghost var types1 := func.Types();
    LetTreeFits(pat, t, dests, |typesS|, types1, hasElse);
    var tree := CompileMatch([pat], t);
    bbEnd := func.cfg.AddBlock();
    ghost var b2 := func.cfg.blocks;
    var cols, mode := [Col(scrutBase, t)], InLet(dests, hasElse);
    LetReady(types0, types1, b0, b1, b2, bb, t, SpillCode(scrutBase, |CoreTypes(t)|), Collected(pat, t), dests, hasElse);
    EmitDecisionTree(func, bb, tree, cols, bbEnd, mode);
    ghost var types, b3 := func.Types(), func.cfg.blocks;
    EndSealable(b0, b1, b2, b3, bb, SpillCode(scrutBase, |CoreTypes(t)|));
    func.cfg.Seal(bbEnd);
    ghost var b4 := func.cfg.blocks;
    WholeGrowing(b0, b1, b2, b3, b4, bb, SpillCode(scrutBase, |CoreTypes(t)|));
    DecidesStable(types, types, b3, b4, bb, |b2[bb].instructions|, cols, tree, bbEnd, mode, |types1|);
    DecidesNarrower(types, b4, bb, |b2[bb].instructions|, cols, tree, bbEnd, mode, |types0|, |types1|);
    PlacedLower(Collected(pat, t), dests, |typesS|, |types0|, types1, types);
    forall v, below, st | Arrives(types, t, v, below, st)
      ensures LetEnds(RunFrom(b4, bb, |b0[bb].instructions|, st, bbEnd), pat, t, v, dests, hasElse, below, st, |types0|)
    {
      LetRuns(types0, types, b4, bb, |b0[bb].instructions|, |b2[bb].instructions|, pat, t, bbEnd, dests, hasElse, v, below, st);
    }
  }
}
