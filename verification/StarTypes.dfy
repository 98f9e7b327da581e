/** Types, run-time values and constructors of the source language, as the code
    generator sees them. */
module StarTypes {
  import opened Options

  datatype IntWidth = I8 | I16 | I32 | I64 | U8 | U16 | U32 | U64

  predicate Is64Bit(w: IntWidth) { w.I64? || w.U64? }

  predicate IsSigned(w: IntWidth) { w.I8? || w.I16? || w.I32? || w.I64? }

  function MinValue(w: IntWidth): int {
    match w
    case I8 => -0x80
    case I16 => -0x8000
    case I32 => -0x8000_0000
    case I64 => -0x8000_0000_0000_0000
    case _ => 0
  }

  function MaxValue(w: IntWidth): int {
    match w
    case I8 => 0x7F
    case I16 => 0x7FFF
    case I32 => 0x7FFF_FFFF
    case I64 => 0x7FFF_FFFF_FFFF_FFFF
    case U8 => 0xFF
    case U16 => 0xFFFF
    case U32 => 0xFFFF_FFFF
    case U64 => 0xFFFF_FFFF_FFFF_FFFF
  }

  predicate Fits(w: IntWidth, n: int) {
    MinValue(w) <= n <= MaxValue(w)
  }

  /** `Handle` stands for utxo and token handles. */
  datatype Type =
    | Unit
    | Bool
    | Int(w: IntWidth)
    | Tuple(items: seq<Type>)
    | Record(fields: seq<Field>)
    | Enum(variants: seq<Variant>)
    | Handle

  datatype Field = Field(name: string, ty: Type)

  datatype Variant = Variant(name: string, kind: Kind)

  datatype Kind = UnitKind | TupleKind(types: seq<Type>) | StructKind(defs: seq<Field>)

  function Types(fields: seq<Field>): (r: seq<Type>)
    ensures |r| == |fields|
    ensures forall i :: 0 <= i < |fields| ==> r[i] == fields[i].ty
  {
    seq(|fields|, i requires 0 <= i < |fields| => fields[i].ty)
  }

  function PayloadTypes(v: Variant): seq<Type> {
    match v.kind
    case UnitKind => []
    case TupleKind(types) => types
    case StructKind(defs) => Types(defs)
  }

  datatype Value =
    | UnitV
    | BoolV(b: bool)
    | IntV(n: int)
    | HandleV(h: nat)
    | StructV(fields: seq<Value>)
    | EnumV(variant: nat, payload: seq<Value>)

  /** The component types of a tuple or record type. */
  function MemberTypes(t: Type): seq<Type> {
    match t
    case Tuple(items) => items
    case Record(fields) => Types(fields)
    case _ => []
  }

  predicate HasType(v: Value, t: Type)
    decreases v
  {
    match v
    case UnitV => t.Unit?
    case BoolV(_) => t.Bool?
    case IntV(n) => t.Int? && Fits(t.w, n)
    case HandleV(h) => t.Handle? && h < 0x1_0000_0000
    case StructV(fields) =>
      && (t.Tuple? || t.Record?)
      && |fields| == |MemberTypes(t)|
      && forall i :: 0 <= i < |fields| ==> HasType(fields[i], MemberTypes(t)[i])
    case EnumV(k, payload) =>
      && t.Enum? && k < |t.variants|
      && |payload| == |PayloadTypes(t.variants[k])|
      && forall i :: 0 <= i < |payload| ==> HasType(payload[i], PayloadTypes(t.variants[k])[i])
  }

  predicate HaveTypes(vs: seq<Value>, ts: seq<Type>) {
    |vs| == |ts| && forall i :: 0 <= i < |vs| ==> HasType(vs[i], ts[i])
  }

  /** Constructor tags. */
  datatype Ctor =
    | EnumVariant(index: nat)
    | BoolTrue
    | BoolFalse
    | IntLiteral(n: int)
    | StructCtor
    | UnitCtor

  /** The tag belongs to the type. */
  predicate CtorOf(c: Ctor, t: Type) {
    match c
    case EnumVariant(k) => t.Enum? && k < |t.variants|
    case BoolTrue => t.Bool?
    case BoolFalse => t.Bool?
    case IntLiteral(_) => t.Int?
    case StructCtor => t.Tuple? || t.Record?
    case UnitCtor => t.Unit?
  }

  /** The types of a constructor's sub-fields at a column type. */
  function FieldTypes(c: Ctor, t: Type): seq<Type> {
    match c
    case EnumVariant(k) => if t.Enum? && k < |t.variants| then PayloadTypes(t.variants[k]) else []
    case StructCtor => MemberTypes(t)
    case _ => []
  }

  /** The constructor of a value; a handle has none. */
  function HeadOf(v: Value): Option<Ctor> {
    match v
    case UnitV => Some(UnitCtor)
    case BoolV(b) => Some(if b then BoolTrue else BoolFalse)
    case IntV(n) => Some(IntLiteral(n))
    case HandleV(_) => None
    case StructV(_) => Some(StructCtor)
    case EnumV(k, _) => Some(EnumVariant(k))
  }

  function Args(v: Value): seq<Value> {
    match v
    case StructV(fields) => fields
    case EnumV(_, payload) => payload
    case _ => []
  }

  lemma HeadFits(v: Value, t: Type)
    requires HasType(v, t) && HeadOf(v).Some?
    ensures CtorOf(HeadOf(v).value, t) && HaveTypes(Args(v), FieldTypes(HeadOf(v).value, t))
  {
  }
}
