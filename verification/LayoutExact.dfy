/** The layout of component values, pinned down by the numbers themselves: alignments are
    the largest of the parts', offsets and sizes the least multiples that leave room. */
module LayoutExact {
  import opened Options
  import opened TypeTable
  import opened Wasm
  import opened AbiLayout
  import M = AbiMemory

  /** The least multiple of a that is not below x. */
  predicate LeastMultiple(y: nat, x: nat, a: nat) {
    a > 0 && x <= y && y % a == 0 && forall z: nat :: x <= z < y ==> z % a != 0
  }

  /** The largest of some numbers, or `least` if all are below it. */
  predicate Largest(m: nat, least: nat, numbers: seq<nat>) {
    && least <= m
    && (forall k :: 0 <= k < |numbers| ==> numbers[k] <= m)
    && (m == least || m in numbers)
  }

  lemma LargestMore(m: nat, least: nat, numbers: seq<nat>, x: nat)
    requires |numbers| > 0 && x == numbers[|numbers| - 1] && Largest(m, least, numbers[..|numbers| - 1])
    ensures Largest(Max(m, x), least, numbers)
    ensures x == least ==> Largest(m, least, numbers)
  {
    assert numbers == numbers[..|numbers| - 1] + [x];
  }

  lemma RoundedLeast(x: nat, a: nat)
    requires Power(a)
    ensures LeastMultiple(AlignTo(x, a), x, a)
  {
    RoundsUp(x, a);
    var y := AlignTo(x, a);
    forall z: nat | x <= z < y
      ensures z % a != 0
    {
    }
  }

  lemma NothingLargest(least: nat)
    ensures Largest(least, least, [])
  {
  }

  // ---- Records.

  function FieldAligns(fields: seq<Field<Resource>>): (r: seq<nat>)
    ensures |r| == |fields| && forall k :: 0 <= k < |r| ==> r[k] == Align(fields[k].ty)
  {
    seq(|fields|, k requires 0 <= k < |fields| => Align(fields[k].ty))
  }

  lemma {:induction false} PartsLargest(t: Ty, n: nat, aligns: seq<nat>)
    requires n <= |Parts(t)| && |aligns| == n && forall k :: 0 <= k < n ==> aligns[k] == Align(Parts(t)[k])
    ensures Largest(AlignParts(t, n), 1, aligns)
    decreases n
  {
    hide Align, Largest;
    if n == 0 {
      NothingLargest(1);
    } else {
      PartsLargest(t, n - 1, aligns[..n - 1]);
      LargestMore(AlignParts(t, n - 1), 1, aligns, aligns[n - 1]);
    }
  }

  /** The alignment of a record is the largest of its fields'. */
  lemma RecordAlign(fields: seq<Field<Resource>>)
    ensures Largest(Align(Record(fields)), 1, FieldAligns(fields))
  {
    var t: Ty := Record(fields);
    PartsLargest(t, |fields|, FieldAligns(fields));
    assert Align(t) == AlignParts(t, |fields|);
  }

  /** A field stands at the least multiple of its alignment at which the field before it
      has ended, and the first one at the start. */
  lemma FieldLeast(fields: seq<Field<Resource>>, k: nat)
    requires k < |fields|
    ensures var t: Ty := Record(fields);
            LeastMultiple(FieldAt(t, k), if k == 0 then 0 else FieldAt(t, k - 1) + Size(fields[k - 1].ty), Align(fields[k].ty))
  {
    hide Align, Size, AlignTo, LeastMultiple;
    var t: Ty := Record(fields);
    AlignIsPower(fields[k].ty);
    RoundedLeast(End(t, k), Align(fields[k].ty));
    if k > 0 {
      FieldInside(t, k - 1);
    }
  }

  /** A record ends at the least multiple of its alignment at which its last field has
      ended. */
  lemma RecordSize(fields: seq<Field<Resource>>)
    requires fields != []
    ensures var t: Ty := Record(fields);
            LeastMultiple(Size(t), FieldAt(t, |fields| - 1) + Size(fields[|fields| - 1].ty), Align(t))
  {
    hide Align, AlignTo, LeastMultiple;
    var t: Ty := Record(fields);
    AlignIsPower(t);
    FieldInside(t, |fields| - 1);
    RoundedLeast(End(t, |fields|), Align(t));
  }

  // ---- Variants.

  function CaseAligns(cases: seq<Case<Resource>>): (r: seq<nat>)
    ensures |r| == |cases|
    ensures forall k :: 0 <= k < |r| ==> r[k] == if cases[k].ty.None? then 1 else Align(cases[k].ty.value)
  {
    seq(|cases|, k requires 0 <= k < |cases| => if cases[k].ty.None? then 1 else Align(cases[k].ty.value))
  }

  function CaseSizes(cases: seq<Case<Resource>>): (r: seq<nat>)
    ensures |r| == |cases|
    ensures forall k :: 0 <= k < |r| ==> r[k] == if cases[k].ty.None? then 0 else Size(cases[k].ty.value)
  {
    seq(|cases|, k requires 0 <= k < |cases| => if cases[k].ty.None? then 0 else Size(cases[k].ty.value))
  }

  /** The bytes of the number that tells n cases apart. */
  function TagBytes(n: nat): nat {
    if n < 256 then 1 else if n < 256 * 256 then 2 else 4
  }

  /** The discriminant of n cases holds every index, and no narrower one would, except
      for 256 and 65536 cases: for these the narrower one would do, which is what section
      'Alignment' of the Canonical ABI takes. */
  lemma TagNarrowest(n: nat)
    requires 0 < n <= 0xFFFF_FFFF
    ensures n <= Pow256(TagBytes(n))
    ensures (forall b :: b in {1, 2, 4} && b < TagBytes(n) ==> Pow256(b) < n) <==> n != 256 && n != 65536
  {
    assert Pow256(1) == 256;
    assert Pow256(2) == 65536;
    assert Pow256(4) == 256 * (256 * Pow256(2));
  }

  lemma {:induction false} CasesLargest(t: Ty, n: nat, aligns: seq<nat>)
    requires n <= |CasesOf(t)| && |aligns| == n
    requires forall k :: 0 <= k < n ==> aligns[k] == if CasesOf(t)[k].None? then 1 else Align(CasesOf(t)[k].value)
    ensures Largest(AlignCases(t, n), 1, aligns)
    decreases n
  {
    hide Align, Largest;
    if n == 0 {
      NothingLargest(1);
    } else {
      CasesLargest(t, n - 1, aligns[..n - 1]);
      LargestMore(AlignCases(t, n - 1), 1, aligns, aligns[n - 1]);
    }
  }

  lemma {:induction false} SizesLargest(t: Ty, n: nat, sizes: seq<nat>)
    requires n <= |CasesOf(t)| && |sizes| == n
    requires forall k :: 0 <= k < n ==> sizes[k] == if CasesOf(t)[k].None? then 0 else Size(CasesOf(t)[k].value)
    ensures Largest(MaxCase(t, n), 0, sizes)
    decreases n
  {
    hide Size, Largest;
    if n == 0 {
      NothingLargest(0);
    } else {
      SizesLargest(t, n - 1, sizes[..n - 1]);
      LargestMore(MaxCase(t, n - 1), 0, sizes, sizes[n - 1]);
    }
  }

  /** A variant's payloads start at the least multiple of their largest alignment after
      the discriminant, and the variant is aligned as both of them. */
  lemma VariantPayload(cases: seq<Case<Resource>>) returns (a: nat)
    ensures Largest(a, 1, CaseAligns(cases))
    ensures Largest(Align(Variant(cases)), a, [TagBytes(|cases|)])
    ensures LeastMultiple(PayloadAt(Variant(cases)), TagBytes(|cases|), a)
  {
    hide Align, AlignTo, LeastMultiple;
    var t: Ty := Variant(cases);
    a := AlignCases(t, |cases|);
    CasesLargest(t, |cases|, CaseAligns(cases));
    CasesPower(t, |cases|);
    RoundedLeast(TagBytes(|cases|), a);
    TagExact(|cases|);
    VariantAlign(cases);
  }

  lemma VariantAlign(cases: seq<Case<Resource>>)
    ensures var t: Ty := Variant(cases); Align(t) == Max(TagBytes(|cases|), AlignCases(t, |cases|))
  {
    hide AlignCases, PrimAlign, PrimSize, DiscType, TagBytes, Max;
    TagExact(|cases|);
  }

  lemma TagExact(n: nat)
    ensures PrimAlign(DiscType(n)) == PrimSize(DiscType(n)) == TagBytes(n)
  {
  }

  /** It ends at the least multiple of its alignment at which its largest payload has
      ended. */
  lemma VariantSizeLeast(cases: seq<Case<Resource>>) returns (s: nat)
    ensures Largest(s, 0, CaseSizes(cases))
    ensures LeastMultiple(Size(Variant(cases)), PayloadAt(Variant(cases)) + s, Align(Variant(cases)))
  {
    hide Align, AlignTo, LeastMultiple;
    var t: Ty := Variant(cases);
    s := MaxCase(t, |cases|);
    SizesLargest(t, |cases|, CaseSizes(cases));
    AlignIsPower(t);
    RoundedLeast(PayloadAt(t) + s, Align(t));
  }

  // ---- The other forms are records and variants in disguise.

  /** A tuple is laid out as the record of its items, whatever the field names. */
  lemma TupleIsRecord(fields: seq<Field<Resource>>, items: seq<Ty>)
    requires |items| == |fields| && forall k :: 0 <= k < |items| ==> items[k] == fields[k].ty
    ensures var t: Ty, r: Ty := Tuple(items), Record(fields);
            && Align(t) == Align(r) && Size(t) == Size(r) && Flat(t) == Flat(r)
            && forall k :: 0 <= k < |items| ==> FieldAt(t, k) == FieldAt(r, k)
  {
    var t: Ty, r: Ty := Tuple(items), Record(fields);
    assert Parts(t) == Parts(r);
    SameParts(t, r, |items|);
    forall k | 0 <= k < |items|
      ensures FieldAt(t, k) == FieldAt(r, k)
    {
      SameParts(t, r, k);
    }
  }

  lemma {:induction false} SameParts(t: Ty, r: Ty, n: nat)
    requires Parts(t) == Parts(r) && n <= |Parts(t)|
    ensures AlignParts(t, n) == AlignParts(r, n) && End(t, n) == End(r, n) && FlatParts(t, n) == FlatParts(r, n)
    decreases n
  {
    hide AlignTo, Align, Size, Flat;
    if n > 0 {
      SameParts(t, r, n - 1);
    }
  }

  /** An option is laid out as the variant of no payload and its own. */
  lemma OptionIsVariant(inner: Ty)
    ensures LaidAlike(Opt(inner), Variant([Case("none", None), Case("some", Some(inner))]))
  {
    var v: Ty := Variant([Case("none", None), Case("some", Some(inner))]);
    assert CasesOf(Opt(inner)) == CasesOf(v);
    SameVariant(Opt(inner), v);
  }

  /** A result is laid out as the variant of its two payloads. */
  lemma ResultIsVariant(ok: Option<Ty>, err: Option<Ty>)
    ensures LaidAlike(Res(ok, err), Variant([Case("ok", ok), Case("error", err)]))
  {
    var v: Ty := Variant([Case("ok", ok), Case("error", err)]);
    assert CasesOf(Res(ok, err)) == CasesOf(v);
    SameVariant(Res(ok, err), v);
  }

  predicate LaidAlike(t: Ty, v: Ty) {
    Align(t) == Align(v) && Size(t) == Size(v) && PayloadAt(t) == PayloadAt(v)
  }

  lemma SameVariant(t: Ty, v: Ty)
    requires IsVariant(t) && IsVariant(v) && CasesOf(t) == CasesOf(v)
    ensures LaidAlike(t, v)
  {
    hide AlignTo, AlignCases, MaxCase, CasesOf;
    SameCases(t, v, |CasesOf(t)|);
  }

  lemma {:induction false} SameCases(t: Ty, v: Ty, n: nat)
    requires CasesOf(t) == CasesOf(v) && n <= |CasesOf(t)|
    ensures AlignCases(t, n) == AlignCases(v, n) && MaxCase(t, n) == MaxCase(v, n)
    decreases n
  {
    hide Align, Size, CasesOf;
    if n > 0 {
      SameCases(t, v, n - 1);
    }
  }

  // ---- Leaves.

  /** The bits of a scalar or handle, and of the pointer pair that stands for a string. */
  function Bits(t: Ty): nat
    requires t.Primitive? || t.Own? || t.Borrow?
  {
    if t.Own? || t.Borrow? then 32
    else if t.p in {Prim.Bool, S8, U8} then 8
    else if t.p in {S16, U16} then 16
    else if t.p in {S64, U64, F64, Str} then 64
    else 32
  }

  /** A leaf takes its bits in whole bytes and is aligned to its size, but a pair of
      pointers to that of one. Those that can be flattened get the narrowest slot. */
  lemma LeafExact(t: Ty)
    requires t.Primitive? || t.Own? || t.Borrow?
    ensures 8 * Size(t) == Bits(t) && Align(t) == if t == Primitive(Str) then 4 else Size(t)
    ensures t != Primitive(Str) && t != Primitive(ErrorContext) ==>
              Flat(t) == [if t == Primitive(F32) then VF32 else if t == Primitive(F64) then VF64
                          else if Bits(t) == 64 then V64 else V32]
  {
  }

  /** The store of a leaf writes just its bytes, but of a handle only the lower two, and
      declares its alignment. */
  lemma StoreExact(t: Ty, offset: nat)
    requires M.Storable(t) && !IsRecord(t)
    ensures var s := M.Stores(t, offset);
            && |s| == 1 && s[0].offset == offset && M.Exp2(s[0].align) == Align(t)
            && 8 * M.Width(s[0].kind) == (if t.Primitive? then Bits(t) else 16)
            && (s[0].kind.I64Store? <==> Bits(t) == 64)
  {
    AlignIsPower(t);
    M.LogIsExact(Align(t));
  }

  /** What a store writes is the number's digits to base 256, the lowest first. */
  lemma {:induction false} LittleEndian(mem: seq<M.Byte>, a: nat, n: nat, x: nat, i: nat)
    requires a + n <= |mem| && i < n && Pow256(i) > 0
    ensures M.Write(mem, a, n, x)[a + i] == (x / Pow256(i)) % 256
    decreases n
  {
    if i > 0 {
      M.Pow256Positive(i - 1);
      LittleEndian(mem[a := x % 256], a + 1, n - 1, x / 256, i - 1);
      DivTwice(x, Pow256(i - 1));
    } else {
      assert Pow256(0) == 1;
    }
  }

  lemma DivTwice(x: nat, p: nat)
    requires p > 0
    ensures x / (256 * p) == (x / 256) / p
  {
    var d := x / 256;
    var q, m := d / p, d % p;
    assert d == p * q + m;
    assert x == 256 * (p * q + m) + x % 256;
    assert 256 * (p * q) == (256 * p) * q;
    Remainder(256 * p, q, 256 * m + x % 256);
    var y := 256 * p;
    assert x == y * q + x % y;
    assert x == y * (x / y) + x % y;
    assert y * q == y * (x / y);
    if q < x / y {
      OneMore(y, q, x / y);
    } else if x / y < q {
      OneMore(y, x / y, q);
    }
  }
}
