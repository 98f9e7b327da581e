/** Layout of component values in linear memory, as sections 'Alignment', 'Element
    Size' and 'Flattening' of the WebAssembly Component Model Canonical ABI define it
    (`component_abi.rs`). */
module AbiLayout {
  import opened Options
  import opened TypeTable
  import opened Wasm
  import opened Flatten

  // ---- Parts of types. Tuples are records, options and results are variants.

  predicate IsRecord(t: Ty) { t.Record? || t.Tuple? }

  predicate IsVariant(t: Ty) { t.Variant? || t.Opt? || t.Res? }

  function Parts(t: Ty): (r: seq<Ty>)
    ensures forall k :: 0 <= k < |r| ==> r[k] < t
  {
    match t
    case Record(fields) => seq(|fields|, k requires 0 <= k < |fields| => fields[k].ty)
    case Tuple(items) => items
    case _ => []
  }

  function CasesOf(t: Ty): (r: seq<Option<Ty>>)
    ensures forall k :: 0 <= k < |r| && r[k].Some? ==> r[k].value < t
  {
    match t
    case Variant(cases) => seq(|cases|, k requires 0 <= k < |cases| => cases[k].ty)
    case Opt(inner) => [None, Some(inner)]
    case Res(ok, err) => [ok, err]
    case _ => []
  }

  // ---- Alignment and size.

  function AlignTo(x: nat, a: nat): nat
    requires a > 0
  {
    if x % a == 0 then x else x + (a - x % a)
  }

  predicate Aligned(x: nat, a: nat) {
    a > 0 && x % a == 0
  }

  function Max(a: nat, b: nat): nat {
    if a < b then b else a
  }

  function PrimAlign(p: Prim): nat {
    match p
    case Bool | S8 | U8 => 1
    case S16 | U16 => 2
    case S32 | U32 | F32 | Char | Str | ErrorContext => 4
    case S64 | U64 | F64 => 8
  }

  function PrimSize(p: Prim): nat {
    if p.Str? then 8 else PrimAlign(p)
  }

  /** The discriminant of a variant of n cases. */
  function DiscType(n: nat): Prim {
    if n <= 0xFF then U8 else if n <= 0xFFFF then U16 else U32
  }

  function Align(t: Ty): nat
    decreases t, 1
  {
    match t
    case Primitive(p) => PrimAlign(p)
    case Record(_) => AlignParts(t, |Parts(t)|)
    case Tuple(_) => AlignParts(t, |Parts(t)|)
    case Own(_) => 4
    case Borrow(_) => 4
    case Unsupported => 1
    case _ => Max(PrimAlign(DiscType(|CasesOf(t)|)), AlignCases(t, |CasesOf(t)|))
  }

  function AlignParts(t: Ty, n: nat): nat
    requires n <= |Parts(t)|
    decreases t, 0, n
  {
    if n == 0 then 1 else Max(AlignParts(t, n - 1), Align(Parts(t)[n - 1]))
  }

  function AlignCases(t: Ty, n: nat): nat
    requires n <= |CasesOf(t)|
    decreases t, 0, n
  {
    if n == 0 then 1
    else if CasesOf(t)[n - 1].None? then AlignCases(t, n - 1)
    else Max(AlignCases(t, n - 1), Align(CasesOf(t)[n - 1].value))
  }

  predicate Power(a: nat) {
    a == 1 || a == 2 || a == 4 || a == 8
  }

  /** Alignments are 1, 2, 4 or 8, so taking their logarithm never fails. */
  lemma {:induction false} AlignIsPower(t: Ty)
    ensures Power(Align(t))
    decreases t, 1
  {
    match t
    case Record(_) => PartsPower(t, |Parts(t)|);
    case Tuple(_) => PartsPower(t, |Parts(t)|);
    case Variant(_) => CasesPower(t, |CasesOf(t)|);
    case Opt(_) => CasesPower(t, |CasesOf(t)|);
    case Res(_, _) => CasesPower(t, |CasesOf(t)|);
    case _ =>
  }

  lemma {:induction false} PartsPower(t: Ty, n: nat)
    requires n <= |Parts(t)|
    ensures Power(AlignParts(t, n)) && forall k :: 0 <= k < n ==> Align(Parts(t)[k]) <= AlignParts(t, n)
    decreases t, 0, n
  {
    if n > 0 {
      PartsPower(t, n - 1);
      AlignIsPower(Parts(t)[n - 1]);
    }
  }

  lemma {:induction false} CasesPower(t: Ty, n: nat)
    requires n <= |CasesOf(t)|
    ensures Power(AlignCases(t, n))
    ensures forall k :: 0 <= k < n && CasesOf(t)[k].Some? ==> Align(CasesOf(t)[k].value) <= AlignCases(t, n)
    decreases t, 0, n
  {
    if n > 0 {
      CasesPower(t, n - 1);
      if CasesOf(t)[n - 1].Some? {
        AlignIsPower(CasesOf(t)[n - 1].value);
      }
    }
  }

  /** Types that have a layout: a record has at least one field, a variant at most
      2^32 - 1 cases, and nothing is unsupported. The original stops on the others. */
  predicate HasLayout(t: Ty)
    decreases t
  {
    if IsRecord(t) then Parts(t) != [] && forall k :: 0 <= k < |Parts(t)| ==> HasLayout(Parts(t)[k])
    else if IsVariant(t) then
      && |CasesOf(t)| <= 0xFFFF_FFFF
      && forall k :: 0 <= k < |CasesOf(t)| && CasesOf(t)[k].Some? ==> HasLayout(CasesOf(t)[k].value)
    else !t.Unsupported?
  }

  function Size(t: Ty): nat
    decreases t, 1
  {
    AlignIsPower(t);
    match t
    case Primitive(p) => PrimSize(p)
    case Record(_) => AlignTo(End(t, |Parts(t)|), Align(t))
    case Tuple(_) => AlignTo(End(t, |Parts(t)|), Align(t))
    case Own(_) => 4
    case Borrow(_) => 4
    case Unsupported => 0
    case _ => AlignTo(PayloadAt(t) + MaxCase(t, |CasesOf(t)|), Align(t))
  }

  /** Where the first n fields of a record end. */
  function End(t: Ty, n: nat): nat
    requires n <= |Parts(t)|
    decreases t, 0, n
  {
    if n == 0 then 0
    else
      AlignIsPower(Parts(t)[n - 1]);
      AlignTo(End(t, n - 1), Align(Parts(t)[n - 1])) + Size(Parts(t)[n - 1])
  }

  /** The offset of a field. */
  function FieldAt(t: Ty, k: nat): nat
    requires k < |Parts(t)|
  {
    AlignIsPower(Parts(t)[k]);
    AlignTo(End(t, k), Align(Parts(t)[k]))
  }

  /** The offset of a variant's payload. */
  function PayloadAt(t: Ty): nat {
    CasesPower(t, |CasesOf(t)|);
    AlignTo(PrimSize(DiscType(|CasesOf(t)|)), AlignCases(t, |CasesOf(t)|))
  }

  function MaxCase(t: Ty, n: nat): nat
    requires n <= |CasesOf(t)|
    decreases t, 0, n
  {
    if n == 0 then 0
    else if CasesOf(t)[n - 1].None? then MaxCase(t, n - 1)
    else Max(MaxCase(t, n - 1), Size(CasesOf(t)[n - 1].value))
  }

  // ---- Facts about rounding.

  lemma RoundsUp(x: nat, a: nat)
    requires Power(a)
    ensures x <= AlignTo(x, a) < x + a && Aligned(AlignTo(x, a), a)
  {
  }

  lemma PowersDivide(x: nat, a: nat, b: nat)
    requires Power(a) && Power(b) && a <= b && Aligned(x, b)
    ensures Aligned(x, a)
  {
    if a == 4 {
      assert b == 4 || b == 8;
    } else if a == 2 {
      assert b == 2 || b == 4 || b == 8;
    }
  }

  lemma Remainder(b: nat, q: int, r: nat)
    requires r < b
    ensures (b * q + r) % b == r
  {
    var x := b * q + r;
    assert b * (x / b) + x % b == x;
    if x / b < q {
      OneMore(b, x / b, q);
    } else if x / b > q {
      OneMore(b, q, x / b);
    }
  }

  lemma {:induction false} OneMore(b: nat, i: int, j: int)
    requires i < j
    ensures b * i + b <= b * j
    decreases j - i
  {
    if i + 1 < j {
      OneMore(b, i, j - 1);
    }
  }

  lemma Regroup(b: int, i: int, j: int, r: int)
    ensures b * i + (b * j + r) == b * (i + j) + r
  {
  }

  lemma ModShifted(q: int, x: int, a: nat)
    requires a > 0
    ensures (a * q + x) % a == x % a
  {
    assert x == a * (x / a) + x % a;
    Regroup(a, q, x / a, x % a);
    Remainder(a, q + x / a, x % a);
  }

  /** Rounding commutes with a shift that is aligned at least as much. */
  lemma RoundShifted(p: nat, x: nat, a: nat, b: nat)
    requires Power(a) && Power(b) && a <= b && Aligned(p, b)
    ensures AlignTo(p + x, a) == p + AlignTo(x, a)
  {
    PowersDivide(p, a, b);
    assert p == a * (p / a);
    ModShifted(p / a, x, a);
  }

  // ---- The layout is sound.

  /** Sizes are multiples of alignments, and positive. */
  lemma {:induction false} SizeIsMultiple(t: Ty)
    requires HasLayout(t)
    ensures Size(t) > 0 && Aligned(Size(t), Align(t))
    decreases t
  {
    AlignIsPower(t);
    if IsRecord(t) {
      SizeIsMultiple(Parts(t)[|Parts(t)| - 1]);
      RoundsUp(End(t, |Parts(t)|), Align(t));
    } else if IsVariant(t) {
      VariantSize(t);
    }
  }

  lemma VariantSize(t: Ty)
    requires IsVariant(t) && Power(Align(t))
    ensures Size(t) > 0 && Aligned(Size(t), Align(t))
  {
    hide AlignTo, Align, Aligned, AlignCases, MaxCase;
    CasesPower(t, |CasesOf(t)|);
    RoundsUp(PrimSize(DiscType(|CasesOf(t)|)), AlignCases(t, |CasesOf(t)|));
    RoundsUp(PayloadAt(t) + MaxCase(t, |CasesOf(t)|), Align(t));
  }

  lemma {:induction false} EndGrows(t: Ty, i: nat, j: nat)
    requires i <= j <= |Parts(t)|
    ensures End(t, i) <= End(t, j)
    decreases j
  {
    if i < j {
      EndGrows(t, i, j - 1);
      AlignIsPower(Parts(t)[j - 1]);
      RoundsUp(End(t, j - 1), Align(Parts(t)[j - 1]));
    }
  }

  /** A field is aligned, comes after the ones before it, and lies inside the record. */
  lemma FieldInside(t: Ty, k: nat)
    requires IsRecord(t) && k < |Parts(t)|
    ensures Aligned(FieldAt(t, k), Align(Parts(t)[k])) && Align(Parts(t)[k]) <= Align(t)
    ensures End(t, k) <= FieldAt(t, k) && FieldAt(t, k) + Size(Parts(t)[k]) == End(t, k + 1) <= Size(t)
  {
    hide AlignTo, Align, Aligned;
    PartsPower(t, |Parts(t)|);
    PartsAlign(t);
    AlignIsPower(t);
    AlignIsPower(Parts(t)[k]);
    RoundsUp(End(t, k), Align(Parts(t)[k]));
    RoundsUp(End(t, |Parts(t)|), Align(t));
    EndGrows(t, k + 1, |Parts(t)|);
  }

  lemma PartsAlign(t: Ty)
    requires IsRecord(t)
    ensures Align(t) == AlignParts(t, |Parts(t)|)
  {
  }

  /** Fields do not overlap. */
  lemma FieldsApart(t: Ty, i: nat, j: nat)
    requires IsRecord(t) && i < j < |Parts(t)|
    ensures FieldAt(t, i) + Size(Parts(t)[i]) <= FieldAt(t, j)
  {
    hide AlignTo, Align, Aligned, End, Size;
    FieldInside(t, i);
    FieldInside(t, j);
    EndGrows(t, i + 1, j);
  }

  lemma {:induction false} MaxCaseBounds(t: Ty, n: nat, k: nat)
    requires k < n <= |CasesOf(t)| && CasesOf(t)[k].Some?
    ensures Size(CasesOf(t)[k].value) <= MaxCase(t, n)
    decreases n
  {
    if k < n - 1 {
      MaxCaseBounds(t, n - 1, k);
    }
  }

  /** A payload comes after the discriminant, is aligned, and lies inside the variant. */
  lemma PayloadFits(t: Ty, k: nat)
    requires IsVariant(t) && k < |CasesOf(t)| && CasesOf(t)[k].Some?
    ensures PrimSize(DiscType(|CasesOf(t)|)) <= PayloadAt(t)
    ensures Aligned(PayloadAt(t), Align(CasesOf(t)[k].value))
    ensures PayloadAt(t) + Size(CasesOf(t)[k].value) <= Size(t)
  {
    CasesPower(t, |CasesOf(t)|);
    AlignIsPower(t);
    AlignIsPower(CasesOf(t)[k].value);
    RoundsUp(PrimSize(DiscType(|CasesOf(t)|)), AlignCases(t, |CasesOf(t)|));
    PowersDivide(PayloadAt(t), Align(CasesOf(t)[k].value), AlignCases(t, |CasesOf(t)|));
    MaxCaseBounds(t, |CasesOf(t)|, k);
    RoundsUp(PayloadAt(t) + MaxCase(t, |CasesOf(t)|), Align(t));
  }

  function Pow256(n: nat): nat {
    if n == 0 then 1 else 256 * Pow256(n - 1)
  }

  /** Every case index fits the discriminant; a wider one is taken only when the number
      of cases is past the narrower range. */
  lemma DiscriminantHolds(n: nat, k: nat)
    requires k < n <= 0xFFFF_FFFF
    ensures k < Pow256(PrimSize(DiscType(n)))
    ensures DiscType(n) == U16 ==> n > 0xFF
    ensures DiscType(n) == U32 ==> n > 0xFFFF
  {
    assert Pow256(1) == 0x100;
    assert Pow256(2) == 0x1_0000;
    assert Pow256(4) == 256 * (256 * Pow256(2));
  }

  // ---- The code that computes it.

  method Alignment(t: Ty) returns (a: nat)
    requires HasLayout(t)
    ensures a == Align(t)
    decreases t, 1
  {
    match t {
      case Primitive(p) =>
        match p {
          case Bool | S8 | U8 => a := 1;
          case S16 | U16 => a := 2;
          case S32 | U32 | F32 | Char | Str | ErrorContext => a := 4;
          case S64 | U64 | F64 => a := 8;
        }
      case Record(_) => a := AlignmentRecord(t);
      case Tuple(_) => a := AlignmentRecord(t);
      case Variant(_) => a := AlignmentVariant(t);
      case Opt(_) => a := AlignmentVariant(t);
      case Res(_, _) => a := AlignmentVariant(t);
      case Own(_) => a := 4;
      case Borrow(_) => a := 4;
    }
  }

  method AlignmentRecord(t: Ty) returns (a: nat)
    requires HasLayout(t) && IsRecord(t)
    ensures a == AlignParts(t, |Parts(t)|)
    decreases t, 0
  {
    a := 1;
    for k := 0 to |Parts(t)|
      invariant a == AlignParts(t, k)
    {
      var b := Alignment(Parts(t)[k]);
      a := Max(a, b);
    }
  }

  method AlignmentVariant(t: Ty) returns (a: nat)
    requires HasLayout(t) && IsVariant(t)
    ensures a == Align(t)
    decreases t, 0, 1
  {
    var d := DiscriminantType(|CasesOf(t)|);
    var m := MaxCaseAlignment(t);
    a := Max(PrimAlign(d), m);
  }

  method DiscriminantType(n: nat) returns (d: Prim)
    requires n <= 0xFFFF_FFFF
    ensures d == DiscType(n)
  {
    if n <= 0xFF {
      d := U8;
    } else if n <= 0xFFFF {
      d := U16;
    } else {
      d := U32;
    }
  }

  method MaxCaseAlignment(t: Ty) returns (a: nat)
    requires HasLayout(t) && IsVariant(t)
    ensures a == AlignCases(t, |CasesOf(t)|)
    decreases t, 0, 0
  {
    a := 1;
    for k := 0 to |CasesOf(t)|
      invariant a == AlignCases(t, k)
    {
      if CasesOf(t)[k].Some? {
        var b := Alignment(CasesOf(t)[k].value);
        a := Max(a, b);
      }
    }
  }

  method ElemSize(t: Ty) returns (s: nat)
    requires HasLayout(t)
    ensures s == Size(t)
    decreases t, 1
  {
    match t {
      case Primitive(p) =>
        match p {
          case Bool | S8 | U8 => s := 1;
          case S16 | U16 => s := 2;
          case S32 | U32 | F32 | Char | ErrorContext => s := 4;
          case S64 | U64 | F64 | Str => s := 8;
        }
      case Record(_) => s := ElemSizeRecord(t);
      case Tuple(_) => s := ElemSizeRecord(t);
      case Variant(_) => s := ElemSizeVariant(t);
      case Opt(_) => s := ElemSizeVariant(t);
      case Res(_, _) => s := ElemSizeVariant(t);
      case Own(_) => s := 4;
      case Borrow(_) => s := 4;
    }
  }

  /** The original asserts that a record is not empty before rounding up. */
  method ElemSizeRecord(t: Ty) returns (s: nat)
    requires HasLayout(t) && IsRecord(t)
    ensures s == Size(t) > 0
    decreases t, 0
  {
    s := 0;
    for k := 0 to |Parts(t)|
      invariant s == End(t, k)
    {
      var a := Alignment(Parts(t)[k]);
      AlignIsPower(Parts(t)[k]);
      var b := ElemSize(Parts(t)[k]);
      s := AlignTo(s, a) + b;
    }
    var a := AlignmentRecord(t);
    AlignIsPower(t);
    SizeIsMultiple(t);
    s := AlignTo(s, a);
  }

  method ElemSizeVariant(t: Ty) returns (s: nat)
    requires HasLayout(t) && IsVariant(t)
    ensures s == Size(t)
    decreases t, 0, 1
  {
    hide AlignTo, Align, AlignCases, MaxCase, PrimSize, DiscType;
    var d := DiscriminantType(|CasesOf(t)|);
    var m := MaxCaseAlignment(t);
    CasesPower(t, |CasesOf(t)|);
    s := AlignTo(PrimSize(d), m);
    var cs := MaxCaseSize(t);
    var a := AlignmentVariant(t);
    AlignIsPower(t);
    s := AlignTo(s + cs, a);
  }

  method MaxCaseSize(t: Ty) returns (cs: nat)
    requires HasLayout(t) && IsVariant(t)
    ensures cs == MaxCase(t, |CasesOf(t)|)
    decreases t, 0, 0
  {
    cs := 0;
    for k := 0 to |CasesOf(t)|
      invariant cs == MaxCase(t, k)
    {
      if CasesOf(t)[k].Some? {
        var b := ElemSize(CasesOf(t)[k].value);
        cs := Max(cs, b);
      }
    }
  }

  // ---- Flattening.

  function PrimFlat(p: Prim): ValType {
    match p
    case S64 | U64 => V64
    case F32 => VF32
    case F64 => VF64
    case _ => V32
  }

  /** The slots of a component type. Strings and error contexts are refused. */
  function Flat(t: Ty): seq<ValType>
    decreases t, 1
  {
    match t
    case Primitive(p) => [PrimFlat(p)]
    case Record(_) => FlatParts(t, |Parts(t)|)
    case Tuple(_) => FlatParts(t, |Parts(t)|)
    case Own(_) => [V32]
    case Borrow(_) => [V32]
    case Unsupported => []
    case _ => [V32] + FlatCases(t, |CasesOf(t)|)
  }

  function FlatParts(t: Ty, n: nat): seq<ValType>
    requires n <= |Parts(t)|
    decreases t, 0, n
  {
    if n == 0 then [] else FlatParts(t, n - 1) + Flat(Parts(t)[n - 1])
  }

  function FlatCases(t: Ty, n: nat): seq<ValType>
    requires n <= |CasesOf(t)|
    decreases t, 0, n
  {
    if n == 0 then []
    else if CasesOf(t)[n - 1].None? then FlatCases(t, n - 1)
    else JoinAll(FlatCases(t, n - 1), Flat(CasesOf(t)[n - 1].value))
  }
}
