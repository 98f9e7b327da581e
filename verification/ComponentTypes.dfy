/** From source types to component types, and from source values to component values
    (`star_to_component_type` in `lib.rs`). */
module ComponentTypes {
  import opened Options
  import opened TypeTable
  import opened Wasm
  import opened Flatten
  import opened EnumEncoding
  import opened AbiLayout
  import opened AbiMemory
  import S = StarTypes

  function PrimOf(w: S.IntWidth): Prim {
    match w
    case I8 => S8
    case I16 => S16
    case I32 => S32
    case I64 => S64
    case U8 => U8
    case U16 => U16
    case U32 => U32
    case U64 => U64
  }

  /** None for types without values to pass. Handles are registered beforehand. */
  function ComponentOf(t: S.Type, handle: Ty): Option<Ty>
    decreases t, 0
  {
    match t
    case Unit => None
    case Bool => Some(Primitive(Bool))
    case Int(w) => Some(Primitive(PrimOf(w)))
    case Tuple(items) =>
      if ComponentsOf(items, handle) == [] then None else Some(Tuple(ComponentsOf(items, handle)))
    case Record(fields) => Some(Record(ComponentFields(fields, handle)))
    case Enum(variants) => Some(Variant(ComponentCases(variants, handle)))
    case Handle => Some(handle)
  }

  function ComponentsOf(ts: seq<S.Type>, handle: Ty): seq<Ty>
    decreases ts, 0
  {
    if ts == [] then []
    else
      var last := ComponentOf(ts[|ts| - 1], handle);
      ComponentsOf(ts[..|ts| - 1], handle) + (if last.None? then [] else [last.value])
  }

  function ComponentFields(fields: seq<S.Field>, handle: Ty): seq<Field<Resource>>
    decreases fields, 0
  {
    if fields == [] then []
    else
      var last := ComponentOf(fields[|fields| - 1].ty, handle);
      ComponentFields(fields[..|fields| - 1], handle)
        + (if last.None? then [] else [Field(fields[|fields| - 1].name, last.value)])
  }

  function ComponentCases(variants: seq<S.Variant>, handle: Ty): seq<Case<Resource>>
    decreases variants, 1
  {
    if variants == [] then []
    else
      var n := |variants| - 1;
      ComponentCases(variants[..n], handle) + [Case(variants[n].name, ComponentPayload(variants[n], handle))]
  }

  /** A payload becomes a tuple, unless nothing is left of it. */
  function ComponentPayload(v: S.Variant, handle: Ty): Option<Ty>
    decreases v, 0
  {
    match v.kind
    case UnitKind => None
    case TupleKind(types) =>
      if ComponentsOf(types, handle) == [] then None else Some(Tuple(ComponentsOf(types, handle)))
    case StructKind(defs) =>
      var r := Record(ComponentFields(defs, handle));
      if Parts(r) == [] then None else Some(Tuple(Parts(r)))
  }

  // ---- Flattening agrees.

  function FlatSeq(ts: seq<Ty>): seq<ValType> {
    if ts == [] then [] else FlatSeq(ts[..|ts| - 1]) + Flat(ts[|ts| - 1])
  }

  lemma {:induction false} FlatPartsIsSeq(t: Ty, n: nat)
    requires n <= |Parts(t)|
    ensures FlatParts(t, n) == FlatSeq(Parts(t)[..n])
    decreases n
  {
    if n > 0 {
      FlatPartsIsSeq(t, n - 1);
      assert Parts(t)[..n][..n - 1] == Parts(t)[..n - 1];
    }
  }

  lemma FlatOfRecord(t: Ty)
    requires IsRecord(t)
    ensures Flat(t) == FlatSeq(Parts(t))
  {
    FlatPartsIsSeq(t, |Parts(t)|);
    assert Parts(t)[..|Parts(t)|] == Parts(t);
  }

  lemma FlatSnoc(ts: seq<Ty>, t: Ty)
    ensures FlatSeq(ts + [t]) == FlatSeq(ts) + Flat(t)
  {
    assert (ts + [t])[..|ts|] == ts;
  }

  /** A source type and its component type flatten to the same slots, so a core
      function's signature is the flattened component signature. */
  lemma {:induction false} FlatAgrees(t: S.Type, handle: Ty)
    requires handle.Own? || handle.Borrow?
    ensures CoreTypes(t) == if ComponentOf(t, handle).None? then [] else Flat(ComponentOf(t, handle).value)
    decreases t, 0
  {
    match t
    case Tuple(items) =>
      AllFlat(items, handle);
      FlatOfRecord(Tuple(ComponentsOf(items, handle)));
    case Record(fields) =>
      FieldsFlat(fields, handle);
      FlatOfRecord(Record(ComponentFields(fields, handle)));
    case Enum(variants) => CasesFlat(variants, handle);
    case _ =>
  }

  lemma {:induction false} AllFlat(ts: seq<S.Type>, handle: Ty)
    requires handle.Own? || handle.Borrow?
    ensures CoreTypesAll(ts) == FlatSeq(ComponentsOf(ts, handle))
    decreases ts, 0
  {
    if ts != [] {
      var n := |ts| - 1;
      AllFlat(ts[..n], handle);
      FlatAgrees(ts[n], handle);
      var last := ComponentOf(ts[n], handle);
      if last.Some? {
        FlatSnoc(ComponentsOf(ts[..n], handle), last.value);
      } else {
        assert ComponentsOf(ts, handle) == ComponentsOf(ts[..n], handle);
      }
    }
  }

  lemma {:induction false} FieldsFlat(fields: seq<S.Field>, handle: Ty)
    requires handle.Own? || handle.Borrow?
    ensures CoreFields(fields) == FlatSeq(Parts(Record(ComponentFields(fields, handle))))
    decreases fields, 0
  {
    if fields != [] {
      var n := |fields| - 1;
      FieldsFlat(fields[..n], handle);
      FlatAgrees(fields[n].ty, handle);
      var last := ComponentOf(fields[n].ty, handle);
      var before := ComponentFields(fields[..n], handle);
      if last.Some? {
        assert Parts(Record(before + [Field(fields[n].name, last.value)])) == Parts(Record(before)) + [last.value];
        FlatSnoc(Parts(Record(before)), last.value);
      } else {
        assert ComponentFields(fields, handle) == before;
      }
    }
  }

  lemma {:induction false} PayloadFlat(v: S.Variant, handle: Ty)
    requires handle.Own? || handle.Borrow?
    ensures CasePayload(v) == if ComponentPayload(v, handle).None? then [] else Flat(ComponentPayload(v, handle).value)
    decreases v, 0
  {
    match v.kind
    case UnitKind =>
    case TupleKind(types) =>
      AllFlat(types, handle);
      FlatOfRecord(Tuple(ComponentsOf(types, handle)));
    case StructKind(defs) =>
      FieldsFlat(defs, handle);
      FlatOfRecord(Tuple(Parts(Record(ComponentFields(defs, handle)))));
  }

  lemma {:induction false} CasesFlat(variants: seq<S.Variant>, handle: Ty)
    requires handle.Own? || handle.Borrow?
    ensures |ComponentCases(variants, handle)| == |variants|
    ensures FlatCases(Variant(ComponentCases(variants, handle)), |variants|) == JoinVariants(variants)
    decreases variants, 1
  {
    hide JoinAll, Flat, FlatCases, CasePayload, ComponentPayload;
    if variants == [] {
      NoCases();
    } else {
      var n := |variants| - 1;
      CasesFlat(variants[..n], handle);
      PayloadFlat(variants[n], handle);
      var payload := ComponentPayload(variants[n], handle);
      OneMoreCase(ComponentCases(variants[..n], handle), Case(variants[n].name, payload));
      JoinNothing(JoinVariants(variants[..n]));
    }
  }

  lemma JoinNothing(a: seq<ValType>)
    ensures JoinAll(a, []) == a
  {
  }

  lemma NoCases()
    ensures FlatCases(Variant([]), 0) == []
  {
  }

  lemma OneMoreCase(before: seq<Case<Resource>>, last: Case<Resource>)
    ensures FlatCases(Variant(before + [last]), |before| + 1)
            == if last.ty.None? then FlatCases(Variant(before), |before|)
               else JoinAll(FlatCases(Variant(before), |before|), Flat(last.ty.value))
  {
    FlatCasesPrefix(Variant(before), Variant(before + [last]), |before|);
  }

  lemma {:induction false} FlatCasesPrefix(t: Ty, t': Ty, n: nat)
    requires n <= |CasesOf(t)| && n <= |CasesOf(t')| && forall k :: 0 <= k < n ==> CasesOf(t)[k] == CasesOf(t')[k]
    ensures FlatCases(t, n) == FlatCases(t', n)
    decreases n
  {
    if n > 0 {
      FlatCasesPrefix(t, t', n - 1);
    }
  }

  // ---- Values.

  /** Types without handles. */
  predicate Simple(t: S.Type)
    decreases t
  {
    match t
    case Tuple(items) => forall k :: 0 <= k < |items| ==> Simple(items[k])
    case Record(fields) => forall k :: 0 <= k < |fields| ==> Simple(fields[k].ty)
    case Enum(variants) => forall k :: 0 <= k < |variants| ==> SimpleKind(variants[k].kind)
    case Handle => false
    case _ => true
  }

  predicate SimpleKind(kind: S.Kind)
    decreases kind
  {
    match kind
    case UnitKind => true
    case TupleKind(types) => forall k :: 0 <= k < |types| ==> Simple(types[k])
    case StructKind(defs) => forall k :: 0 <= k < |defs| ==> Simple(defs[k].ty)
  }

  predicate AllSimple(ts: seq<S.Type>) {
    forall k :: 0 <= k < |ts| ==> Simple(ts[k])
  }

  /** The component value of a source value; parts without a component type are
      dropped. */
  function ComponentVal(v: S.Value, t: S.Type, handle: Ty): AbiVal
    requires S.HasType(v, t) && Simple(t) && !v.UnitV?
    decreases v, 0
  {
    match v
    case BoolV(b) => BoolVal(b)
    case IntV(n) => IntVal(n)
    case StructV(fields) => RecordVal(ComponentVals(fields, S.MemberTypes(t), handle))
    case EnumV(k, payload) =>
      PayloadSimple(t.variants[k]);
      var parts := ComponentVals(payload, S.PayloadTypes(t.variants[k]), handle);
      VariantVal(k, if ComponentPayload(t.variants[k], handle).None? then None else Some(RecordVal(parts)))
  }

  function ComponentVals(vs: seq<S.Value>, ts: seq<S.Type>, handle: Ty): seq<AbiVal>
    requires S.HaveTypes(vs, ts) && AllSimple(ts)
    decreases vs, 0
  {
    if vs == [] then []
    else
      var n := |vs| - 1;
      ComponentVals(vs[..n], ts[..n], handle)
        + (if ComponentOf(ts[n], handle).None? then [] else [ComponentVal(vs[n], ts[n], handle)])
  }

  function LowerSeq(vs: seq<AbiVal>, ts: seq<Ty>): seq<Slot>
    requires AllOf(vs, ts)
  {
    if vs == [] then [] else LowerSeq(vs[..|vs| - 1], ts[..|ts| - 1]) + Lower(vs[|vs| - 1], ts[|ts| - 1])
  }

  predicate AllOf(vs: seq<AbiVal>, ts: seq<Ty>) {
    |vs| == |ts| && forall k :: 0 <= k < |vs| ==> OfAbiType(vs[k], ts[k])
  }

  lemma {:induction false} LowerPartsIsSeq(v: AbiVal, t: Ty, n: nat)
    requires v.RecordVal? && OfAbiType(v, t) && n <= |v.vs|
    ensures LowerParts(v, t, n) == LowerSeq(v.vs[..n], Parts(t)[..n])
    decreases n
  {
    if n > 0 {
      LowerPartsIsSeq(v, t, n - 1);
      assert Parts(t)[..n][..n - 1] == Parts(t)[..n - 1] && v.vs[..n][..n - 1] == v.vs[..n - 1];
    }
  }

  lemma LowerSnoc(vs: seq<AbiVal>, ts: seq<Ty>, v: AbiVal, t: Ty)
    requires AllOf(vs, ts) && OfAbiType(v, t)
    ensures AllOf(vs + [v], ts + [t]) && LowerSeq(vs + [v], ts + [t]) == LowerSeq(vs, ts) + Lower(v, t)
  {
    assert (vs + [v])[..|vs|] == vs && (ts + [t])[..|ts|] == ts;
  }

  lemma {:induction false} PartsOfFields(fields: seq<S.Field>, handle: Ty)
    ensures Parts(Record(ComponentFields(fields, handle))) == ComponentsOf(S.Types(fields), handle)
    decreases fields
  {
    hide Parts, ComponentOf, ComponentFields, ComponentsOf;
    if fields == [] {
      NoParts(fields, handle);
    } else {
      var n := |fields| - 1;
      PartsOfFields(fields[..n], handle);
      var last := ComponentOf(fields[n].ty, handle);
      var before := ComponentFields(fields[..n], handle);
      FieldSplits(fields, handle);
      if last.Some? {
        OneMorePart(before, Field(fields[n].name, last.value));
      }
    }
  }

  lemma FieldSplits(fields: seq<S.Field>, handle: Ty)
    requires fields != []
    ensures var n := |fields| - 1; var last := ComponentOf(fields[n].ty, handle);
            && ComponentFields(fields, handle)
                 == (if last.None? then ComponentFields(fields[..n], handle)
                     else ComponentFields(fields[..n], handle) + [Field(fields[n].name, last.value)])
            && ComponentsOf(S.Types(fields), handle)
                 == (if last.None? then ComponentsOf(S.Types(fields[..n]), handle)
                     else ComponentsOf(S.Types(fields[..n]), handle) + [last.value])
  {
    hide ComponentOf, ComponentFields, ComponentsOf;
    var n := |fields| - 1;
    assert S.Types(fields)[..n] == S.Types(fields[..n]) && S.Types(fields)[n] == fields[n].ty;
    LastField(fields, handle);
    LastOf(S.Types(fields), handle);
  }

  lemma LastField(fields: seq<S.Field>, handle: Ty)
    requires fields != []
    ensures var n := |fields| - 1; var last := ComponentOf(fields[n].ty, handle);
            ComponentFields(fields, handle)
              == ComponentFields(fields[..n], handle) + (if last.None? then [] else [Field(fields[n].name, last.value)])
  {
    hide ComponentOf;
  }

  lemma LastOf(ts: seq<S.Type>, handle: Ty)
    requires ts != []
    ensures var n := |ts| - 1; var last := ComponentOf(ts[n], handle);
            ComponentsOf(ts, handle) == ComponentsOf(ts[..n], handle) + (if last.None? then [] else [last.value])
  {
    hide ComponentOf;
  }

  lemma NoParts(fields: seq<S.Field>, handle: Ty)
    requires fields == []
    ensures Parts(Record(ComponentFields(fields, handle))) == ComponentsOf(S.Types(fields), handle) == []
  {
  }

  lemma OneMorePart(before: seq<Field<Resource>>, last: Field<Resource>)
    ensures Parts(Record(before + [last])) == Parts(Record(before)) + [last.ty]
  {
  }

  lemma PartsOfMembers(t: S.Type, handle: Ty)
    requires (t.Tuple? || t.Record?) && ComponentOf(t, handle).Some?
    ensures IsRecord(ComponentOf(t, handle).value)
    ensures Parts(ComponentOf(t, handle).value) == ComponentsOf(S.MemberTypes(t), handle)
  {
    if t.Record? {
      PartsOfFields(t.fields, handle);
    }
  }

  lemma NoMembers(t: S.Type, handle: Ty)
    requires (t.Tuple? || t.Record?) && ComponentOf(t, handle).None?
    ensures ComponentsOf(S.MemberTypes(t), handle) == []
  {
  }

  lemma PayloadSimple(v: S.Variant)
    requires SimpleKind(v.kind)
    ensures AllSimple(S.PayloadTypes(v))
  {
  }

  lemma MembersSimple(t: S.Type)
    requires Simple(t)
    ensures AllSimple(S.MemberTypes(t))
  {
  }

  /** The slots of a source value are the flattened component value: what the core
      function returns is what the canonical ABI expects to be lowered. */
  lemma {:induction false} LoweringAgrees(v: S.Value, t: S.Type, handle: Ty)
    requires S.HasType(v, t) && Simple(t) && (handle.Own? || handle.Borrow?)
    ensures ComponentOf(t, handle).None? ==> FlatV(v, t) == []
    ensures ComponentOf(t, handle).Some? ==> !v.UnitV? && OfAbiType(ComponentVal(v, t, handle), ComponentOf(t, handle).value)
                                             && Lower(ComponentVal(v, t, handle), ComponentOf(t, handle).value) == FlatV(v, t)
    decreases v, 0
  {
    match v
    case UnitV =>
    case BoolV(_) =>
    case IntV(n) => IntAgrees(t.w, n);
    case StructV(fields) =>
      MembersSimple(t);
      AllLoweringAgrees(fields, S.MemberTypes(t), handle);
      if ComponentOf(t, handle).Some? {
        PartsOfMembers(t, handle);
        LowerRecord(ComponentVals(fields, S.MemberTypes(t), handle), ComponentOf(t, handle).value);
      } else {
        NoMembers(t, handle);
      }
    case EnumV(k, payload) =>
      PayloadSimple(t.variants[k]);
      AllLoweringAgrees(payload, S.PayloadTypes(t.variants[k]), handle);
      EnumLowers(t.variants, k, payload, handle);
  }

  /** The component case of a variant: a tuple of what is left of the payload. */
  lemma PayloadIs(v: S.Variant, handle: Ty)
    ensures var parts := ComponentsOf(S.PayloadTypes(v), handle);
            ComponentPayload(v, handle) == if parts == [] then None else Some(Tuple(parts))
  {
    if v.kind.StructKind? {
      PartsOfFields(v.kind.defs, handle);
    }
  }

  lemma {:induction false} CaseIs(variants: seq<S.Variant>, k: nat, handle: Ty)
    requires k < |variants|
    ensures |ComponentCases(variants, handle)| == |variants|
    ensures ComponentCases(variants, handle)[k].ty == ComponentPayload(variants[k], handle)
  {
    var n := |variants| - 1;
    if k < n {
      CaseIs(variants[..n], k, handle);
    } else if n > 0 {
      CaseIs(variants[..n], 0, handle);
    }
  }

  /** An enum value's slots are those of the component variant: the discriminant, the
      payload coerced to the joined slots, and zeros. */
  lemma EnumLowers(variants: seq<S.Variant>, k: nat, payload: seq<S.Value>, handle: Ty)
    requires k < |variants| && S.HaveTypes(payload, S.PayloadTypes(variants[k])) && AllSimple(S.PayloadTypes(variants[k]))
    requires S.HasType(S.EnumV(k, payload), S.Enum(variants)) && Simple(S.Enum(variants)) && (handle.Own? || handle.Borrow?)
    requires var ts := S.PayloadTypes(variants[k]);
             && AllOf(ComponentVals(payload, ts, handle), ComponentsOf(ts, handle))
             && LowerSeq(ComponentVals(payload, ts, handle), ComponentsOf(ts, handle)) == FlatAll(payload, ts)
    ensures var (v, t) := (S.EnumV(k, payload), S.Enum(variants));
            && OfAbiType(ComponentVal(v, t, handle), ComponentOf(t, handle).value)
            && Lower(ComponentVal(v, t, handle), ComponentOf(t, handle).value) == FlatV(v, t)
  {
    var ts := S.PayloadTypes(variants[k]);
    var parts, vals := ComponentsOf(ts, handle), ComponentVals(payload, ts, handle);
    CaseIs(variants, k, handle);
    PayloadIs(variants[k], handle);
    CasesFlat(variants, handle);
    if parts != [] {
      LowerRecord(vals, Tuple(parts));
    }
    CoerceIsPromote(FlatAll(payload, ts), JoinVariants(variants));
  }

  lemma CoerceIsPromote(ss: seq<Slot>, wants: seq<ValType>)
    ensures CoerceAll(ss, wants) == PromoteAll(ss, wants)
  {
  }

  lemma LowerRecord(vs: seq<AbiVal>, t: Ty)
    requires IsRecord(t) && AllOf(vs, Parts(t))
    ensures OfAbiType(RecordVal(vs), t) && Lower(RecordVal(vs), t) == LowerSeq(vs, Parts(t))
  {
    LowerPartsIsSeq(RecordVal(vs), t, |vs|);
    assert vs[..|vs|] == vs && Parts(t)[..|vs|] == Parts(t);
  }

  /** The component integer of a width has just the numbers that fit the width, and takes
      the wide slot exactly if some of them need more than 32 bits. */
  lemma RangeAgrees(w: S.IntWidth, n: int)
    ensures InRange(PrimOf(w), n) <==> S.Fits(w, n)
    ensures Flat(Primitive(PrimOf(w))) == CoreTypes(S.Int(w))
    ensures CoreTypes(S.Int(w)) == [V64] <==> exists m :: S.Fits(w, m) && !(-0x8000_0000 <= m <= 0xFFFF_FFFF)
  {
    Pow256Values();
    assert S.Fits(w, S.MaxValue(w));
  }

  lemma IntAgrees(w: S.IntWidth, n: int)
    requires S.Fits(w, n)
    ensures OfAbiType(IntVal(n), Primitive(PrimOf(w)))
    ensures ScalarSlot(PrimOf(w), n) == IntSlot(w, n)
  {
    Pow256Values();
  }

  lemma {:induction false} AllLoweringAgrees(vs: seq<S.Value>, ts: seq<S.Type>, handle: Ty)
    requires S.HaveTypes(vs, ts) && AllSimple(ts) && (handle.Own? || handle.Borrow?)
    ensures AllOf(ComponentVals(vs, ts, handle), ComponentsOf(ts, handle))
    ensures LowerSeq(ComponentVals(vs, ts, handle), ComponentsOf(ts, handle)) == FlatAll(vs, ts)
    decreases vs, 0
  {
    if vs != [] {
      var n := |vs| - 1;
      AllLoweringAgrees(vs[..n], ts[..n], handle);
      LoweringAgrees(vs[n], ts[n], handle);
      if ComponentOf(ts[n], handle).Some? {
        LowerSnoc(ComponentVals(vs[..n], ts[..n], handle), ComponentsOf(ts[..n], handle),
          ComponentVal(vs[n], ts[n], handle), ComponentOf(ts[n], handle).value);
      } else {
        assert ComponentVals(vs, ts, handle) == ComponentVals(vs[..n], ts[..n], handle);
        assert ComponentsOf(ts, handle) == ComponentsOf(ts[..n], handle);
      }
    }
  }

  /** Types without handles have component types without handles. */
  lemma {:induction false} SimpleNoHandle(v: S.Value, t: S.Type, handle: Ty)
    requires S.HasType(v, t) && Simple(t) && ComponentOf(t, handle).Some?
    ensures !HasHandle(ComponentOf(t, handle).value)
    decreases v, 0
  {
    if v.StructV? {
      MembersSimple(t);
      PartsOfMembers(t, handle);
      AllNoHandle(v.fields, S.MemberTypes(t), handle);
    }
  }

  lemma {:induction false} AllNoHandle(vs: seq<S.Value>, ts: seq<S.Type>, handle: Ty)
    requires S.HaveTypes(vs, ts) && AllSimple(ts)
    ensures forall k :: 0 <= k < |ComponentsOf(ts, handle)| ==> !HasHandle(ComponentsOf(ts, handle)[k])
    decreases vs, 0
  {
    if vs != [] {
      var n := |vs| - 1;
      AllNoHandle(vs[..n], ts[..n], handle);
      if ComponentOf(ts[n], handle).Some? {
        SimpleNoHandle(vs[n], ts[n], handle);
      }
    }
  }
}
