/** Flattening of types and values into Wasm slots, and the joined slots of enums. */
module Flatten {
  import opened StarTypes
  import opened Wasm

  // ---- Types.

  function Join(a: ValType, b: ValType): ValType {
    if a == b then a
    else if (a.V32? && b.VF32?) || (a.VF32? && b.V32?) then V32
    else V64
  }

  /** Slot by slot; the longer one's tail is kept. */
  function JoinAll(a: seq<ValType>, b: seq<ValType>): (r: seq<ValType>)
    ensures |r| == if |a| < |b| then |b| else |a|
  {
    seq(if |a| < |b| then |b| else |a|, i requires 0 <= i < (if |a| < |b| then |b| else |a|) =>
      if i < |a| && i < |b| then Join(a[i], b[i]) else if i < |a| then a[i] else b[i])
  }

  function CoreTypes(t: Type): seq<ValType>
    decreases t, 0
  {
    match t
    case Unit => []
    case Bool => [V32]
    case Int(w) => [if Is64Bit(w) then V64 else V32]
    case Tuple(items) => CoreTypesAll(items)
    case Record(fields) => CoreFields(fields)
    case Enum(variants) => [V32] + JoinVariants(variants)
    case Handle => [V32]
  }

  function CoreTypesAll(ts: seq<Type>): seq<ValType>
    decreases ts, 0
  {
    if ts == [] then [] else CoreTypesAll(ts[..|ts| - 1]) + CoreTypes(ts[|ts| - 1])
  }

  function CoreFields(fields: seq<Field>): seq<ValType>
    decreases fields, 0
  {
    if fields == [] then [] else CoreFields(fields[..|fields| - 1]) + CoreTypes(fields[|fields| - 1].ty)
  }

  function CasePayload(v: Variant): seq<ValType>
    decreases v, 0
  {
    match v.kind
    case UnitKind => []
    case TupleKind(types) => CoreTypesAll(types)
    case StructKind(defs) => CoreFields(defs)
  }

  function JoinVariants(variants: seq<Variant>): seq<ValType>
    decreases variants, 1
  {
    if variants == [] then []
    else JoinAll(JoinVariants(variants[..|variants| - 1]), CasePayload(variants[|variants| - 1]))
  }

  lemma {:induction false} CoreFieldsAreTypes(fields: seq<Field>)
    ensures CoreFields(fields) == CoreTypesAll(Types(fields))
    decreases fields
  {
    if fields != [] {
      var n := |fields| - 1;
      CoreFieldsAreTypes(fields[..n]);
      assert Types(fields)[..n] == Types(fields[..n]);
    }
  }

  lemma CasePayloadIs(v: Variant)
    ensures CasePayload(v) == CoreTypesAll(PayloadTypes(v))
  {
    match v.kind
    case UnitKind =>
    case TupleKind(_) =>
    case StructKind(defs) => CoreFieldsAreTypes(defs);
  }

  lemma CoreTypesOfMembers(t: Type)
    requires t.Tuple? || t.Record?
    ensures CoreTypes(t) == CoreTypesAll(MemberTypes(t))
  {
    if t.Record? {
      CoreFieldsAreTypes(t.fields);
    }
  }

  predicate NoFloat(ts: seq<ValType>) {
    forall i :: 0 <= i < |ts| ==> ts[i].V32? || ts[i].V64?
  }

  /** A source type never flattens to a float slot. */
  lemma {:induction false} CoreTypesNoFloat(t: Type)
    ensures NoFloat(CoreTypes(t))
    decreases t, 0
  {
    match t
    case Tuple(items) => AllNoFloat(items);
    case Record(fields) => FieldsNoFloat(fields);
    case Enum(variants) => JoinedNoFloat(variants);
    case _ =>
  }

  lemma {:induction false} AllNoFloat(ts: seq<Type>)
    ensures NoFloat(CoreTypesAll(ts))
    decreases ts, 0
  {
    if ts != [] {
      AllNoFloat(ts[..|ts| - 1]);
      CoreTypesNoFloat(ts[|ts| - 1]);
    }
  }

  lemma {:induction false} FieldsNoFloat(fields: seq<Field>)
    ensures NoFloat(CoreFields(fields))
    decreases fields, 0
  {
    if fields != [] {
      FieldsNoFloat(fields[..|fields| - 1]);
      CoreTypesNoFloat(fields[|fields| - 1].ty);
    }
  }

  lemma {:induction false} JoinedNoFloat(variants: seq<Variant>)
    ensures NoFloat(JoinVariants(variants))
    decreases variants, 1
  {
    if variants != [] {
      JoinedNoFloat(variants[..|variants| - 1]);
      PayloadNoFloat(variants[|variants| - 1]);
    }
  }

  lemma {:induction false} PayloadNoFloat(v: Variant)
    ensures NoFloat(CasePayload(v))
    decreases v, 0
  {
    match v.kind
    case UnitKind =>
    case TupleKind(types) => AllNoFloat(types);
    case StructKind(defs) => FieldsNoFloat(defs);
  }

  /** A joined slot can hold what the case's slot holds: the same kind, or a wider
      integer. */
  predicate Bounds(joined: seq<ValType>, slots: seq<ValType>) {
    && |slots| <= |joined|
    && forall i :: 0 <= i < |slots| ==> joined[i] == slots[i] || (slots[i].V32? && joined[i].V64?)
  }

  /** The joined slots of an enum bound every variant's slots, so promotion only
      ever widens: the original's error branch is dead. */
  lemma {:induction false} JoinBounds(variants: seq<Variant>, k: nat)
    requires k < |variants|
    ensures Bounds(JoinVariants(variants), CasePayload(variants[k]))
    decreases variants
  {
    var n := |variants| - 1;
    JoinedNoFloat(variants[..n]);
    PayloadNoFloat(variants[n]);
    if k < n {
      JoinBounds(variants[..n], k);
    }
  }

  /** Number of slots, without building them. */
  function CountCoreTypes(t: Type): nat
    decreases t, 0
  {
    match t
    case Unit => 0
    case Bool => 1
    case Int(_) => 1
    case Handle => 1
    case Tuple(items) => CountAll(items)
    case Record(fields) => CountFields(fields)
    case Enum(variants) => 1 + MaxPayload(variants)
  }

  function CountAll(ts: seq<Type>): nat
    decreases ts, 0
  {
    if ts == [] then 0 else CountAll(ts[..|ts| - 1]) + CountCoreTypes(ts[|ts| - 1])
  }

  function CountFields(fields: seq<Field>): nat
    decreases fields, 0
  {
    if fields == [] then 0 else CountFields(fields[..|fields| - 1]) + CountCoreTypes(fields[|fields| - 1].ty)
  }

  function CountPayload(v: Variant): nat
    decreases v, 0
  {
    match v.kind
    case UnitKind => 0
    case TupleKind(types) => CountAll(types)
    case StructKind(defs) => CountFields(defs)
  }

  function MaxPayload(variants: seq<Variant>): nat
    decreases variants, 1
  {
    if variants == [] then 0
    else
      var before, last := MaxPayload(variants[..|variants| - 1]), CountPayload(variants[|variants| - 1]);
      if before < last then last else before
  }

  /** The two ways of flattening a type agree on the number of slots. */
  lemma {:induction false} CountIsLength(t: Type)
    ensures CountCoreTypes(t) == |CoreTypes(t)|
    decreases t, 0
  {
    match t
    case Tuple(items) => CountAllIsLength(items);
    case Record(fields) => CountFieldsIsLength(fields);
    case Enum(variants) => MaxIsLength(variants);
    case _ =>
  }

  lemma {:induction false} CountAllIsLength(ts: seq<Type>)
    ensures CountAll(ts) == |CoreTypesAll(ts)|
    decreases ts, 0
  {
    if ts != [] {
      CountAllIsLength(ts[..|ts| - 1]);
      CountIsLength(ts[|ts| - 1]);
    }
  }

  lemma {:induction false} CountFieldsIsLength(fields: seq<Field>)
    ensures CountFields(fields) == |CoreFields(fields)|
    decreases fields, 0
  {
    if fields != [] {
      CountFieldsIsLength(fields[..|fields| - 1]);
      CountIsLength(fields[|fields| - 1].ty);
    }
  }

  lemma {:induction false} MaxIsLength(variants: seq<Variant>)
    ensures MaxPayload(variants) == |JoinVariants(variants)|
    decreases variants, 1
  {
    if variants != [] {
      MaxIsLength(variants[..|variants| - 1]);
      var last := variants[|variants| - 1];
      match last.kind
      case UnitKind =>
      case TupleKind(types) => CountAllIsLength(types);
      case StructKind(defs) => CountFieldsIsLength(defs);
    }
  }

  /** Flatten a type onto an output vector, as the visitors do. */
  method StarToCoreTypes(dest: seq<ValType>, t: Type) returns (out: seq<ValType>)
    ensures out == dest + CoreTypes(t)
    decreases t, 0
  {
    out := dest;
    match t {
      case Unit =>
      case Bool => out := out + [V32];
      case Int(w) => out := out + [if Is64Bit(w) then V64 else V32];
      case Handle => out := out + [V32];
      case Tuple(items) =>
        out := StarToCoreTypesAll(out, items);
      case Record(fields) =>
        for i := 0 to |fields|
          invariant out == dest + CoreFields(fields[..i])
        {
          assert fields[..i + 1][..i] == fields[..i];
          out := StarToCoreTypes(out, fields[i].ty);
        }
        assert fields[..|fields|] == fields;
      case Enum(variants) =>
        var flat := FlattenVariants(variants);
        out := out + [V32] + flat;
    }
  }

  method StarToCoreTypesAll(dest: seq<ValType>, ts: seq<Type>) returns (out: seq<ValType>)
    ensures out == dest + CoreTypesAll(ts)
    decreases ts, 0
  {
    out := dest;
    for i := 0 to |ts|
      invariant out == dest + CoreTypesAll(ts[..i])
    {
      assert ts[..i + 1][..i] == ts[..i];
      out := StarToCoreTypes(out, ts[i]);
    }
    assert ts[..|ts|] == ts;
  }

  method FlattenVariants(variants: seq<Variant>) returns (flat: seq<ValType>)
    ensures flat == JoinVariants(variants)
    decreases variants, 0
  {
    flat := [];
    for k := 0 to |variants|
      invariant flat == JoinVariants(variants[..k])
    {
      assert variants[..k + 1][..k] == variants[..k];
      var caseFlat := FlattenCase(variants[k]);
      flat := JoinCase(flat, caseFlat);
    }
    assert variants[..|variants|] == variants;
  }

  /** The slots of one case's payload. */
  method FlattenCase(v: Variant) returns (caseFlat: seq<ValType>)
    ensures caseFlat == CasePayload(v)
    decreases v, 0
  {
    caseFlat := [];
    match v.kind {
      case UnitKind =>
      case TupleKind(types) => caseFlat := StarToCoreTypesAll(caseFlat, types);
      case StructKind(defs) =>
        for i := 0 to |defs|
          invariant caseFlat == CoreFields(defs[..i])
        {
          assert defs[..i + 1][..i] == defs[..i];
          caseFlat := StarToCoreTypes(caseFlat, defs[i].ty);
        }
        assert defs[..|defs|] == defs;
    }
  }

  /** Join one case's slots into the slots so far. */
  method JoinCase(flat0: seq<ValType>, caseFlat: seq<ValType>) returns (flat: seq<ValType>)
    ensures flat == JoinAll(flat0, caseFlat)
  {
    flat := flat0;
    for i := 0 to |caseFlat|
      invariant |flat| == if |flat0| < i then i else |flat0|
      invariant forall j :: 0 <= j < |flat| ==>
                  flat[j] == (if j < i then JoinAll(flat0, caseFlat)[j] else flat0[j])
    {
      if i < |flat| {
        flat := flat[i := Join(flat[i], caseFlat[i])];
      } else {
        flat := flat + [caseFlat[i]];
      }
    }
  }
}
