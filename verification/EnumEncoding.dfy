/** Values in slots: flattening is lossless, enum payloads included. */
module EnumEncoding {
  import opened StarTypes
  import opened Wasm
  import opened Flatten

  // ---- Slots of values.

  function IntSlot(w: IntWidth, n: int): Slot {
    if Is64Bit(w) then W64(n % TWO64) else W32(n % TWO32)
  }

  /** Put a slot into a joined one: a 32-bit one is zero-extended when it must be. */
  function Promote(s: Slot, t: ValType): Slot {
    if s.W32? && t.V64? then W64(s.bits) else s
  }

  /** Take a slot back out of a joined one. */
  function Demote(s: Slot, t: ValType): Slot {
    if s.W64? && t.V32? then W32(s.bits % TWO32) else s
  }

  function Zero(t: ValType): Slot {
    if t.V64? then W64(0) else W32(0)
  }

  /** Promote payload slots and fill the rest with zeros. */
  function PromoteAll(ss: seq<Slot>, ts: seq<ValType>): (r: seq<Slot>)
    ensures |r| == |ts|
  {
    seq(|ts|, i requires 0 <= i < |ts| => if i < |ss| then Promote(ss[i], ts[i]) else Zero(ts[i]))
  }

  function DemoteAll(ss: seq<Slot>, ts: seq<ValType>): (r: seq<Slot>)
    requires |ts| <= |ss|
    ensures |r| == |ts|
  {
    seq(|ts|, i requires 0 <= i < |ts| => Demote(ss[i], ts[i]))
  }

  function FlatV(v: Value, t: Type): seq<Slot>
    requires HasType(v, t)
    decreases v, 0
  {
    match v
    case UnitV => []
    case BoolV(b) => [Truth(b)]
    case IntV(n) => [IntSlot(t.w, n)]
    case HandleV(h) => [W32(h)]
    case StructV(fields) => FlatAll(fields, MemberTypes(t))
    case EnumV(k, payload) =>
      [W32(k % TWO32)] + PromoteAll(FlatAll(payload, PayloadTypes(t.variants[k])), JoinVariants(t.variants))
  }

  function FlatAll(vs: seq<Value>, ts: seq<Type>): seq<Slot>
    requires HaveTypes(vs, ts)
    decreases vs, 0
  {
    if vs == [] then [] else FlatAll(vs[..|vs| - 1], ts[..|ts| - 1]) + FlatV(vs[|vs| - 1], ts[|ts| - 1])
  }

  /** Flattened values have the flattened type. */
  lemma {:induction false} FlatTyped(v: Value, t: Type)
    requires HasType(v, t)
    ensures OfTypes(FlatV(v, t), CoreTypes(t))
    decreases v, 0
  {
    hide OfTypes, JoinVariants, JoinAll, OfType;
    match v
    case StructV(fields) =>
      FlatAllTyped(fields, MemberTypes(t));
      CoreTypesOfMembers(t);
    case EnumV(k, payload) =>
      FlatAllTyped(payload, PayloadTypes(t.variants[k]));
      CasePayloadIs(t.variants[k]);
      JoinBounds(t.variants, k);
      JoinedNoFloat(t.variants);
      PromotedTyped(FlatAll(payload, PayloadTypes(t.variants[k])), CasePayload(t.variants[k]), JoinVariants(t.variants));
      Tagged(k % TWO32, PromoteAll(FlatAll(payload, PayloadTypes(t.variants[k])), JoinVariants(t.variants)),
        JoinVariants(t.variants));
    case _ => ScalarTyped(v, t);
  }

  lemma ScalarTyped(v: Value, t: Type)
    requires HasType(v, t) && !v.StructV? && !v.EnumV?
    ensures OfTypes(FlatV(v, t), CoreTypes(t))
  {
  }

  lemma Tagged(tag: nat, ss: seq<Slot>, ts: seq<ValType>)
    requires OfTypes(ss, ts) && tag < TWO32
    ensures OfTypes([W32(tag)] + ss, [V32] + ts)
  {
  }

  lemma PromotedTyped(ss: seq<Slot>, ts: seq<ValType>, joined: seq<ValType>)
    requires OfTypes(ss, ts) && Bounds(joined, ts) && NoFloat(joined)
    ensures OfTypes(PromoteAll(ss, joined), joined)
  {
  }

  lemma {:induction false} FlatAllTyped(vs: seq<Value>, ts: seq<Type>)
    requires HaveTypes(vs, ts)
    ensures OfTypes(FlatAll(vs, ts), CoreTypesAll(ts))
    decreases vs, 0
  {
    hide FlatV, CoreTypes;
    if vs != [] {
      var n := |vs| - 1;
      FlatAllTyped(vs[..n], ts[..n]);
      FlatTyped(vs[n], ts[n]);
    }
  }

  /** Promoting and demoting a payload gives it back, whatever the other variants. */
  lemma DemotePromoted(ss: seq<Slot>, ts: seq<ValType>, joined: seq<ValType>)
    requires OfTypes(ss, ts) && Bounds(joined, ts)
    ensures DemoteAll(PromoteAll(ss, joined), ts) == ss
  {
    var r := DemoteAll(PromoteAll(ss, joined), ts);
    forall i | 0 <= i < |ts|
      ensures r[i] == ss[i]
    {
      assert OfType(ss[i], ts[i]);
      assert joined[i] == ts[i] || (ts[i].V32? && joined[i].V64?);
    }
  }

  // ---- Reading values back.

  function FromBits(w: IntWidth, s: Slot): int {
    match w
    case I64 => if s.bits < TWO64 / 2 then s.bits else s.bits - TWO64
    case U64 => s.bits
    case _ => if IsSigned(w) && s.bits >= TWO32 / 2 then s.bits - TWO32 else s.bits
  }

  function Decode(t: Type, ss: seq<Slot>): Value
    requires |ss| == |CoreTypes(t)|
    decreases t, 1
  {
    match t
    case Unit => UnitV
    case Bool => BoolV(ss[0].bits != 0)
    case Int(w) => IntV(FromBits(w, ss[0]))
    case Handle => HandleV(ss[0].bits)
    case Tuple(items) => StructV(DecodeAll(items, ss))
    case Record(fields) => StructV(DecodeFields(fields, ss))
    case Enum(variants) =>
      var k := ss[0].bits;
      if k >= |variants| then EnumV(k, [])
      else
        JoinBounds(variants, k);
        EnumV(k, DecodePayload(variants[k], DemoteAll(ss[1..], CasePayload(variants[k]))))
  }

  function DecodePayload(v: Variant, ss: seq<Slot>): seq<Value>
    requires |ss| == |CasePayload(v)|
    decreases v, 1
  {
    match v.kind
    case UnitKind => []
    case TupleKind(types) => DecodeAll(types, ss)
    case StructKind(defs) => DecodeFields(defs, ss)
  }

  function DecodeAll(ts: seq<Type>, ss: seq<Slot>): seq<Value>
    requires |ss| == |CoreTypesAll(ts)|
    decreases ts, 1
  {
    if ts == [] then []
    else
      var n := |ts| - 1;
      var m := |CoreTypesAll(ts[..n])|;
      DecodeAll(ts[..n], ss[..m]) + [Decode(ts[n], ss[m..])]
  }

  function DecodeFields(fields: seq<Field>, ss: seq<Slot>): seq<Value>
    requires |ss| == |CoreFields(fields)|
    decreases fields, 1
  {
    if fields == [] then []
    else
      var n := |fields| - 1;
      var m := |CoreFields(fields[..n])|;
      DecodeFields(fields[..n], ss[..m]) + [Decode(fields[n].ty, ss[m..])]
  }

  lemma {:induction false} DecodeFieldsIs(fields: seq<Field>, ss: seq<Slot>)
    requires |ss| == |CoreFields(fields)|
    ensures CoreFields(fields) == CoreTypesAll(Types(fields))
    ensures DecodeFields(fields, ss) == DecodeAll(Types(fields), ss)
    decreases fields
  {
    CoreFieldsAreTypes(fields);
    if fields != [] {
      var n := |fields| - 1;
      CoreFieldsAreTypes(fields[..n]);
      DecodeFieldsIs(fields[..n], ss[..|CoreFields(fields[..n])|]);
      assert Types(fields)[..n] == Types(fields[..n]);
    }
  }

  /** Discriminants have 32 bits: the original refuses larger enums. */
  predicate Sized(t: Type)
    decreases t, 0
  {
    match t
    case Tuple(items) => SizedAll(items)
    case Record(fields) => SizedFields(fields)
    case Enum(variants) => |variants| <= TWO32 && forall k :: 0 <= k < |variants| ==> SizedVariant(variants[k])
    case _ => true
  }

  predicate SizedVariant(v: Variant)
    decreases v, 0
  {
    match v.kind
    case UnitKind => true
    case TupleKind(types) => SizedAll(types)
    case StructKind(defs) => SizedFields(defs)
  }

  predicate SizedAll(ts: seq<Type>)
    decreases ts, 0
  {
    forall i :: 0 <= i < |ts| ==> Sized(ts[i])
  }

  predicate SizedFields(fields: seq<Field>)
    decreases fields, 0
  {
    forall i :: 0 <= i < |fields| ==> Sized(fields[i].ty)
  }

  /** Flattening loses nothing: decoding the slots gives the value back, for every
      type, with enums nested in tuples, records and enums. */
  lemma {:induction false} DecodeFlat(v: Value, t: Type)
    requires HasType(v, t) && Sized(t)
    ensures |FlatV(v, t)| == |CoreTypes(t)| && Decode(t, FlatV(v, t)) == v
    decreases v, 0
  {
    FlatTyped(v, t);
    match v
    case StructV(fields) =>
      CoreTypesOfMembers(t);
      DecodeFlatAll(fields, MemberTypes(t));
      if t.Record? {
        DecodeFieldsIs(t.fields, FlatV(v, t));
      }
    case EnumV(k, payload) =>
      DecodeFlatEnum(k, payload, t);
    case IntV(n) => IntSlotBack(t.w, n);
    case _ =>
  }

  lemma IntSlotBack(w: IntWidth, n: int)
    requires Fits(w, n)
    ensures FromBits(w, IntSlot(w, n)) == n
  {
    if Is64Bit(w) {
      Bits64(n);
    } else {
      Bits32(n);
    }
  }

  lemma Bits32(n: int)
    requires 0 <= n + TWO32 && n < TWO32
    ensures n % TWO32 == if n < 0 then n + TWO32 else n
  {
  }

  lemma Bits64(n: int)
    requires 0 <= n + TWO64 && n < TWO64
    ensures n % TWO64 == if n < 0 then n + TWO64 else n
  {
  }

  lemma {:induction false} DecodeFlatEnum(k: nat, payload: seq<Value>, t: Type)
    requires HasType(EnumV(k, payload), t) && Sized(t)
    ensures |FlatV(EnumV(k, payload), t)| == |CoreTypes(t)|
    ensures Decode(t, FlatV(EnumV(k, payload), t)) == EnumV(k, payload)
    decreases payload, 2
  {
    var variant := t.variants[k];
    assert SizedVariant(variant);
    PayloadSized(variant);
    DecodeFlatPayload(variant, payload);
    DecodeTagged(t.variants, k, FlatAll(payload, PayloadTypes(variant)), payload);
  }

  /** Reading the discriminant selects the variant whose slots were promoted. */
  lemma DecodeTagged(variants: seq<Variant>, k: nat, slots: seq<Slot>, payload: seq<Value>)
    requires k < |variants| <= TWO32 && OfTypes(slots, CasePayload(variants[k]))
    requires DecodePayload(variants[k], slots) == payload
    ensures |[W32(k % TWO32)] + PromoteAll(slots, JoinVariants(variants))| == |CoreTypes(Enum(variants))|
    ensures Decode(Enum(variants), [W32(k % TWO32)] + PromoteAll(slots, JoinVariants(variants))) == EnumV(k, payload)
  {
    hide SizedVariant, JoinVariants, CasePayload, DecodePayload, DemoteAll, PromoteAll;
    JoinBounds(variants, k);
    var ss := [W32(k % TWO32)] + PromoteAll(slots, JoinVariants(variants));
    assert ss[1..] == PromoteAll(slots, JoinVariants(variants));
    DemotePromoted(slots, CasePayload(variants[k]), JoinVariants(variants));
  }

  /** The slots of a payload, before promotion. */
  lemma {:induction false} DecodeFlatPayload(v: Variant, payload: seq<Value>)
    requires HaveTypes(payload, PayloadTypes(v)) && SizedAll(PayloadTypes(v))
    ensures var slots := FlatAll(payload, PayloadTypes(v));
            OfTypes(slots, CasePayload(v)) && DecodePayload(v, slots) == payload
    decreases payload, 1
  {
    FlatAllTyped(payload, PayloadTypes(v));
    CasePayloadIs(v);
    DecodeFlatAll(payload, PayloadTypes(v));
    if v.kind.StructKind? {
      DecodeFieldsIs(v.kind.defs, FlatAll(payload, PayloadTypes(v)));
    }
  }

  lemma PayloadSized(v: Variant)
    requires SizedVariant(v)
    ensures SizedAll(PayloadTypes(v))
  {
    if v.kind.StructKind? {
      assert forall i :: 0 <= i < |v.kind.defs| ==> PayloadTypes(v)[i] == v.kind.defs[i].ty;
    }
  }

  lemma {:induction false} DecodeFlatAll(vs: seq<Value>, ts: seq<Type>)
    requires HaveTypes(vs, ts) && SizedAll(ts)
    ensures |FlatAll(vs, ts)| == |CoreTypesAll(ts)| && DecodeAll(ts, FlatAll(vs, ts)) == vs
    decreases vs, 0
  {
    FlatAllTyped(vs, ts);
    if vs != [] {
      var n := |vs| - 1;
      DecodeFlatAll(vs[..n], ts[..n]);
      DecodeFlat(vs[n], ts[n]);
      var m := |CoreTypesAll(ts[..n])|;
      assert FlatAll(vs, ts)[..m] == FlatAll(vs[..n], ts[..n]);
      assert FlatAll(vs, ts)[m..] == FlatV(vs[n], ts[n]);
    }
  }
}
