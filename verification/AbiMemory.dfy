/** Storing flattened component values to linear memory and loading them back, after
    sections 'Storing' and 'Loading' of the WebAssembly Component Model Canonical ABI. */
module AbiMemory {
  import opened Options
  import opened TypeTable
  import opened Wasm
  import opened AbiLayout

  type Byte = b: int | 0 <= b < 256

  // ---- Store instructions.

  datatype StoreKind = I32Store8 | I32Store16 | I32Store | I64Store

  datatype StoreFn = StoreFn(kind: StoreKind, offset: nat, align: nat)

  function Width(k: StoreKind): nat {
    match k
    case I32Store8 => 1
    case I32Store16 => 2
    case I32Store => 4
    case I64Store => 8
  }

  function Takes(k: StoreKind): ValType {
    if k.I64Store? then V64 else V32
  }

  function Log2(a: nat): nat
    requires Power(a)
  {
    if a == 1 then 0 else if a == 2 then 1 else if a == 4 then 2 else 3
  }

  function Exp2(n: nat): nat {
    if n == 0 then 1 else 2 * Exp2(n - 1)
  }

  /** Types whose values can be stored; the original stops on the others. */
  predicate Storable(t: Ty)
    decreases t
  {
    if IsRecord(t) then Parts(t) != [] && forall k :: 0 <= k < |Parts(t)| ==> Storable(Parts(t)[k])
    else t.Own? || t.Borrow? || (t.Primitive? && IsScalar(t.p))
  }

  predicate IsScalar(p: Prim) {
    p.Bool? || p.S8? || p.U8? || p.S16? || p.U16? || p.S32? || p.U32? || p.S64? || p.U64?
  }

  predicate HasHandle(t: Ty)
    decreases t
  {
    if IsRecord(t) then exists k :: 0 <= k < |Parts(t)| && HasHandle(Parts(t)[k])
    else t.Own? || t.Borrow?
  }

  lemma {:induction false} StorableHasLayout(t: Ty)
    requires Storable(t)
    ensures HasLayout(t)
    decreases t
  {
    if IsRecord(t) {
      forall k | 0 <= k < |Parts(t)|
        ensures HasLayout(Parts(t)[k])
      {
        StorableHasLayout(Parts(t)[k]);
      }
    }
  }

  /** The store of a leaf: a handle gets a 16-bit store with 32-bit alignment. */
  function LeafStore(t: Ty): StoreKind
    requires Storable(t) && !IsRecord(t)
  {
    if t.Primitive? then
      match t.p
      case Bool | S8 | U8 => I32Store8
      case S16 | U16 => I32Store16
      case S32 | U32 => I32Store
      case _ => I64Store
    else I32Store16
  }

  function Stores(t: Ty, offset: nat): seq<StoreFn>
    requires Storable(t)
    decreases t, 1
  {
    if IsRecord(t) then StoresOf(t, |Parts(t)|, offset)
    else
      AlignIsPower(t);
      [StoreFn(LeafStore(t), offset, Log2(Align(t)))]
  }

  function StoresOf(t: Ty, n: nat, offset: nat): seq<StoreFn>
    requires Storable(t) && n <= |Parts(t)|
    decreases t, 0, n
  {
    if n == 0 then [] else StoresOf(t, n - 1, offset) + Stores(Parts(t)[n - 1], offset + FieldAt(t, n - 1))
  }

  /** Push the stores of a value of type t at an offset onto the output vector. */
  method GetStoreFns(t: Ty, offset: nat, out0: seq<StoreFn>) returns (out: seq<StoreFn>)
    requires Storable(t)
    ensures out == out0 + Stores(t, offset)
    decreases t, 1
  {
    if IsRecord(t) {
      out := GetFieldStoreFns(t, offset, out0);
    } else {
      StorableHasLayout(t);
      AlignIsPower(t);
      var a := Alignment(t);
      out := out0 + [StoreFn(LeafStore(t), offset, Log2(a))];
    }
  }

  method GetFieldStoreFns(t: Ty, offset: nat, out0: seq<StoreFn>) returns (out: seq<StoreFn>)
    requires Storable(t) && IsRecord(t)
    ensures out == out0 + StoresOf(t, |Parts(t)|, offset)
    decreases t, 0
  {
    hide AlignTo, Align, Size, Stores, HasLayout;
    out := out0;
    var o := 0;
    for k := 0 to |Parts(t)|
      invariant out == out0 + StoresOf(t, k, offset) && o == End(t, k)
    {
      StorableHasLayout(Parts(t)[k]);
      AlignIsPower(Parts(t)[k]);
      var b := Alignment(Parts(t)[k]);
      o := AlignTo(o, b);
      out := GetStoreFns(Parts(t)[k], offset + o, out);
      assert out == out0 + (StoresOf(t, k, offset) + Stores(Parts(t)[k], offset + o));
      var s := ElemSize(Parts(t)[k]);
      o := o + s;
    }
  }

  /** One store per slot, of the slot's type: the original's assertion holds. */
  predicate Matches(stores: seq<StoreFn>, slots: seq<ValType>) {
    |stores| == |slots| && forall i :: 0 <= i < |stores| ==> Takes(stores[i].kind) == slots[i]
  }

  lemma {:induction false} StoresMatchFlat(t: Ty, offset: nat)
    requires Storable(t)
    ensures Matches(Stores(t, offset), Flat(t))
    decreases t, 1
  {
    if IsRecord(t) {
      StoresOfMatchFlat(t, |Parts(t)|, offset);
    }
  }

  lemma {:induction false} StoresOfMatchFlat(t: Ty, n: nat, offset: nat)
    requires Storable(t) && n <= |Parts(t)|
    ensures Matches(StoresOf(t, n, offset), FlatParts(t, n))
    decreases t, 0, n
  {
    if n > 0 {
      StoresOfMatchFlat(t, n - 1, offset);
      StoresMatchFlat(Parts(t)[n - 1], offset + FieldAt(t, n - 1));
    }
  }

  // ---- Where the stores go.

  /** Stores in increasing order, without overlap, between two offsets. */
  predicate Between(stores: seq<StoreFn>, low: nat, high: nat) {
    && (forall i :: 0 <= i < |stores| ==> low <= stores[i].offset && stores[i].offset + Width(stores[i].kind) <= high)
    && (forall i, j :: 0 <= i < j < |stores| ==> stores[i].offset + Width(stores[i].kind) <= stores[j].offset)
  }

  lemma {:induction false} StoresBetween(t: Ty, offset: nat)
    requires Storable(t)
    ensures Between(Stores(t, offset), offset, offset + Size(t))
    decreases t, 1
  {
    hide AlignTo, Align, End, Size, Between, LeafStore;
    if IsRecord(t) {
      StoresOfBetween(t, |Parts(t)|, offset);
      FieldInside(t, |Parts(t)| - 1);
      Widen(StoresOf(t, |Parts(t)|, offset), offset, offset + End(t, |Parts(t)|), offset + Size(t));
    } else {
      LeafFits(t, offset);
    }
  }

  lemma LeafFits(t: Ty, offset: nat)
    requires Storable(t) && !IsRecord(t)
    ensures Between(Stores(t, offset), offset, offset + Size(t))
  {
  }

  lemma Widen(a: seq<StoreFn>, low: nat, mid: nat, high: nat)
    requires Between(a, low, mid) && mid <= high
    ensures Between(a, low, high)
  {
  }

  lemma {:induction false} StoresOfBetween(t: Ty, n: nat, offset: nat)
    requires Storable(t) && n <= |Parts(t)|
    ensures Between(StoresOf(t, n, offset), offset, offset + End(t, n))
    decreases t, 0, n
  {
    hide AlignTo, Align, Aligned, Size, HasLayout, End, Between, Stores;
    if n == 0 {
      NoneBetween(offset, offset + End(t, 0));
    } else {
      StoresOfBetween(t, n - 1, offset);
      StoresBetween(Parts(t)[n - 1], offset + FieldAt(t, n - 1));
      RecordOfParts(t);
      FieldInside(t, n - 1);
      Adjoin(StoresOf(t, n - 1, offset), Stores(Parts(t)[n - 1], offset + FieldAt(t, n - 1)),
        offset, offset + End(t, n - 1), offset + FieldAt(t, n - 1), offset + End(t, n));
    }
  }

  lemma NoneBetween(low: nat, high: nat)
    ensures Between([], low, high)
  {
  }

  lemma RecordOfParts(t: Ty)
    requires Parts(t) != []
    ensures IsRecord(t)
  {
  }

  lemma Adjoin(a: seq<StoreFn>, b: seq<StoreFn>, low: nat, mid: nat, mid': nat, high: nat)
    requires Between(a, low, mid) && Between(b, mid', high) && low <= mid <= mid' <= high
    ensures Between(a + b, low, high)
  {
  }

  /** Stores are aligned as they declare, when the base is. */
  predicate AllAligned(stores: seq<StoreFn>) {
    forall i :: 0 <= i < |stores| ==> Exp2(stores[i].align) > 0 && stores[i].offset % Exp2(stores[i].align) == 0
  }

  lemma {:induction false} StoresAligned(t: Ty, offset: nat)
    requires Storable(t) && Aligned(offset, Align(t))
    ensures AllAligned(Stores(t, offset))
    decreases t, 1
  {
    if IsRecord(t) {
      StoresOfAligned(t, |Parts(t)|, offset);
    } else {
      AlignIsPower(t);
      LogIsExact(Align(t));
    }
  }

  lemma LogIsExact(a: nat)
    requires Power(a)
    ensures Exp2(Log2(a)) == a
  {
    assert Exp2(1) == 2 && Exp2(2) == 4 && Exp2(3) == 8;
  }

  lemma {:induction false} StoresOfAligned(t: Ty, n: nat, offset: nat)
    requires Storable(t) && n <= |Parts(t)| && Aligned(offset, Align(t))
    ensures AllAligned(StoresOf(t, n, offset))
    decreases t, 0, n
  {
    hide AlignTo, Align, Aligned, Size, End, Exp2;
    if n > 0 {
      StoresOfAligned(t, n - 1, offset);
      RecordOfParts(t);
      FieldInside(t, n - 1);
      FieldAligned(t, n - 1, offset);
      StoresAligned(Parts(t)[n - 1], offset + FieldAt(t, n - 1));
    }
  }

  /** A field of an aligned record is aligned. */
  lemma FieldAligned(t: Ty, k: nat, p: nat)
    requires IsRecord(t) && k < |Parts(t)| && Aligned(p, Align(t))
    ensures Aligned(p + FieldAt(t, k), Align(Parts(t)[k]))
  {
    hide AlignTo, Align, End, Size;
    FieldInside(t, k);
    AlignIsPower(t);
    AlignIsPower(Parts(t)[k]);
    PowersDivide(p, Align(Parts(t)[k]), Align(t));
    SumAligned(p, FieldAt(t, k), Align(Parts(t)[k]));
  }

  lemma SumAligned(x: nat, y: nat, a: nat)
    requires Power(a) && Aligned(x, a) && Aligned(y, a)
    ensures Aligned(x + y, a)
  {
    assert x == a * (x / a);
    ModShifted(x / a, y, a);
  }

  /** Validation of a store: its alignment must not exceed its width (section 3.3.7 of
      the WebAssembly Core Specification). */
  predicate Validates(s: StoreFn) {
    Exp2(s.align) <= Width(s.kind)
  }

  predicate AllValidate(stores: seq<StoreFn>) {
    forall i :: 0 <= i < |stores| ==> Validates(stores[i])
  }

  /** The store sequence is valid Wasm exactly when the type holds no handle: a handle
      is stored 16 bits wide but declared 32-bit aligned. */
  lemma {:induction false} ValidUnlessHandle(t: Ty, offset: nat)
    requires Storable(t)
    ensures AllValidate(Stores(t, offset)) <==> !HasHandle(t)
    decreases t, 1
  {
    if IsRecord(t) {
      ValidPartsUnlessHandle(t, |Parts(t)|, offset);
    } else {
      AlignIsPower(t);
      LogIsExact(Align(t));
      var s := Stores(t, offset);
      assert AllValidate(s) <==> Validates(s[0]);
    }
  }

  lemma {:induction false} ValidPartsUnlessHandle(t: Ty, n: nat, offset: nat)
    requires Storable(t) && n <= |Parts(t)|
    ensures AllValidate(StoresOf(t, n, offset)) <==> forall k :: 0 <= k < n ==> !HasHandle(Parts(t)[k])
    decreases t, 0, n
  {
    hide AlignTo, Align, Size, End, Exp2;
    if n > 0 {
      ValidPartsUnlessHandle(t, n - 1, offset);
      ValidUnlessHandle(Parts(t)[n - 1], offset + FieldAt(t, n - 1));
      var a, b := StoresOf(t, n - 1, offset), Stores(Parts(t)[n - 1], offset + FieldAt(t, n - 1));
      ValidateConcat(a, b);
    }
  }

  lemma ValidateConcat(a: seq<StoreFn>, b: seq<StoreFn>)
    ensures AllValidate(a + b) <==> AllValidate(a) && AllValidate(b)
  {
    forall i | 0 <= i < |a|
      ensures (a + b)[i] == a[i]
    {
    }
    forall i | 0 <= i < |b|
      ensures (a + b)[|a| + i] == b[i]
    {
    }
    if AllValidate(a + b) {
      forall i | 0 <= i < |a|
        ensures Validates(a[i])
      {
        assert Validates((a + b)[i]);
      }
      forall i | 0 <= i < |b|
        ensures Validates(b[i])
      {
        assert Validates((a + b)[|a| + i]);
      }
    }
  }

  // ---- Memory.

  /** Little-endian. */
  function Write(mem: seq<Byte>, a: nat, n: nat, x: nat): (r: seq<Byte>)
    requires a + n <= |mem|
    ensures |r| == |mem|
    ensures forall i :: 0 <= i < |mem| && !(a <= i < a + n) ==> r[i] == mem[i]
    decreases n
  {
    if n == 0 then mem else Write(mem[a := x % 256], a + 1, n - 1, x / 256)
  }

  function Read(mem: seq<Byte>, a: nat, n: nat): nat
    decreases n
  {
    if n == 0 then 0 else (if a < |mem| then mem[a] else 0) + 256 * Read(mem, a + 1, n - 1)
  }

  lemma {:induction false} ReadFrame(mem: seq<Byte>, mem': seq<Byte>, a: nat, n: nat)
    requires |mem'| == |mem| && forall i :: a <= i < a + n && i < |mem| ==> mem'[i] == mem[i]
    ensures Read(mem', a, n) == Read(mem, a, n)
    decreases n
  {
    if n > 0 {
      ReadFrame(mem, mem', a + 1, n - 1);
    }
  }

  lemma {:induction false} Pow256Positive(n: nat)
    ensures Pow256(n) > 0
    decreases n
  {
    if n > 0 {
      Pow256Positive(n - 1);
    }
  }

  lemma SplitDigit(x: nat, p: nat)
    requires p > 0
    ensures x % (256 * p) == x % 256 + 256 * ((x / 256) % p)
  {
    var d := x / 256;
    var q, m := d / p, d % p;
    assert d == p * q + m;
    assert x == 256 * (p * q + m) + x % 256;
    assert 256 * (p * q) == (256 * p) * q;
    Remainder(256 * p, q, 256 * m + x % 256);
  }

  /** What was written is read back, up to the width. */
  lemma {:induction false} ReadWritten(mem: seq<Byte>, a: nat, n: nat, x: nat)
    requires a + n <= |mem| && Pow256(n) > 0
    ensures Read(Write(mem, a, n, x), a, n) == x % Pow256(n)
    decreases n
  {
    if n > 0 {
      Pow256Positive(n - 1);
      ReadWritten(mem[a := x % 256], a + 1, n - 1, x / 256);
      SplitDigit(x, Pow256(n - 1));
    }
  }

  function StoreOne(mem: seq<Byte>, base: nat, s: StoreFn, v: Slot): Option<seq<Byte>> {
    if v.W64? != s.kind.I64Store? || base + s.offset + Width(s.kind) > |mem| then None
    else Some(Write(mem, base + s.offset, Width(s.kind), v.bits))
  }

  function RunStores(mem: seq<Byte>, base: nat, stores: seq<StoreFn>, vs: seq<Slot>): Option<seq<Byte>>
    requires |vs| == |stores|
    decreases |stores|
  {
    if stores == [] then Some(mem)
    else
      var n := |stores| - 1;
      var before := RunStores(mem, base, stores[..n], vs[..n]);
      if before.None? then None else StoreOne(before.value, base, stores[n], vs[n])
  }

  lemma {:induction false} RunConcat(mem: seq<Byte>, base: nat, a: seq<StoreFn>, b: seq<StoreFn>, vs: seq<Slot>, ws: seq<Slot>)
    requires |vs| == |a| && |ws| == |b|
    ensures RunStores(mem, base, a + b, vs + ws) ==
            if RunStores(mem, base, a, vs).None? then None else RunStores(RunStores(mem, base, a, vs).value, base, b, ws)
    decreases |b|
  {
    if b == [] {
      assert a + b == a && vs + ws == vs;
    } else {
      var n := |b| - 1;
      RunConcat(mem, base, a, b[..n], vs, ws[..n]);
      assert (a + b)[..|a + b| - 1] == a + b[..n] && (vs + ws)[..|a + b| - 1] == vs + ws[..n];
    }
  }

  // ---- Values.

  datatype AbiVal =
    | BoolVal(b: bool)
    | IntVal(n: int)
    | RecordVal(vs: seq<AbiVal>)
    | VariantVal(index: nat, payload: Option<AbiVal>)

  predicate IsSignedPrim(p: Prim) { p.S8? || p.S16? || p.S32? || p.S64? }

  predicate InRange(p: Prim, n: int) {
    if IsSignedPrim(p) then -(Pow256(PrimSize(p)) / 2) <= n < Pow256(PrimSize(p)) / 2 else 0 <= n < Pow256(PrimSize(p))
  }

  predicate OfAbiType(v: AbiVal, t: Ty)
    decreases v
  {
    match v
    case BoolVal(_) => t == Primitive(Bool)
    case IntVal(n) => t.Primitive? && IsScalar(t.p) && !t.p.Bool? && InRange(t.p, n)
    case RecordVal(vs) => IsRecord(t) && |vs| == |Parts(t)| && forall k :: 0 <= k < |vs| ==> OfAbiType(vs[k], Parts(t)[k])
    case VariantVal(k, payload) =>
      IsVariant(t) && k < |CasesOf(t)|
      && match payload
         case None => CasesOf(t)[k].None?
         case Some(x) => CasesOf(t)[k].Some? && OfAbiType(x, CasesOf(t)[k].value)
  }

  /** A payload slot in a joined one: a 32-bit one is zero-extended when it must be. */
  function Coerce(s: Slot, want: ValType): Slot {
    if s.W32? && want.V64? then W64(s.bits) else s
  }

  /** Payload slots, coerced, and zeros for the slots of other cases. */
  function CoerceAll(ss: seq<Slot>, wants: seq<ValType>): seq<Slot> {
    seq(|wants|, i requires 0 <= i < |wants| =>
      if i < |ss| then Coerce(ss[i], wants[i]) else if wants[i].V64? then W64(0) else W32(0))
  }

  function ScalarSlot(p: Prim, n: int): Slot {
    if PrimSize(p) == 8 then W64(n % TWO64) else W32(n % TWO32)
  }

  /** Flattened values, as section 'Flat Lowering' defines them. */
  function Lower(v: AbiVal, t: Ty): seq<Slot>
    requires OfAbiType(v, t)
    decreases v, 1
  {
    match v
    case BoolVal(b) => [Truth(b)]
    case IntVal(n) => [ScalarSlot(t.p, n)]
    case RecordVal(vs) => LowerParts(v, t, |vs|)
    case VariantVal(k, payload) =>
      [W32(k % TWO32)]
      + CoerceAll(match payload case None => [] case Some(x) => Lower(x, CasesOf(t)[k].value), FlatCases(t, |CasesOf(t)|))
  }

  function LowerParts(v: AbiVal, t: Ty, n: nat): seq<Slot>
    requires v.RecordVal? && OfAbiType(v, t) && n <= |v.vs|
    decreases v, 0, n
  {
    if n == 0 then [] else LowerParts(v, t, n - 1) + Lower(v.vs[n - 1], Parts(t)[n - 1])
  }

  function SignedOf(p: Prim, u: nat): int {
    if IsSignedPrim(p) && u >= Pow256(PrimSize(p)) / 2 then u - Pow256(PrimSize(p)) else u
  }

  /** Loading, with the running absolute pointer of the specification. */
  function Load(mem: seq<Byte>, t: Ty, ptr: nat): AbiVal
    requires Storable(t) && !HasHandle(t)
    decreases t, 1
  {
    if IsRecord(t) then RecordVal(LoadParts(mem, t, |Parts(t)|, ptr))
    else if t.p.Bool? then BoolVal(Read(mem, ptr, 1) != 0)
    else IntVal(SignedOf(t.p, Read(mem, ptr, PrimSize(t.p))))
  }

  function LoadParts(mem: seq<Byte>, t: Ty, n: nat, ptr: nat): (r: seq<AbiVal>)
    requires Storable(t) && !HasHandle(t) && n <= |Parts(t)|
    ensures |r| == n
    decreases t, 0, n
  {
    if n == 0 then []
    else
      AlignIsPower(Parts(t)[n - 1]);
      LoadParts(mem, t, n - 1, ptr)
        + [Load(mem, Parts(t)[n - 1], AlignTo(PtrAfter(t, n - 1, ptr), Align(Parts(t)[n - 1])))]
  }

  function PtrAfter(t: Ty, n: nat, ptr: nat): nat
    requires n <= |Parts(t)|
    decreases n
  {
    if n == 0 then ptr
    else
      AlignIsPower(Parts(t)[n - 1]);
      AlignTo(PtrAfter(t, n - 1, ptr), Align(Parts(t)[n - 1])) + Size(Parts(t)[n - 1])
  }

  /** In an aligned record, the running pointer is the base plus the offset. */
  lemma {:induction false} PtrIsOffset(t: Ty, n: nat, ptr: nat)
    requires IsRecord(t) && n <= |Parts(t)| && Aligned(ptr, Align(t))
    ensures PtrAfter(t, n, ptr) == ptr + End(t, n)
    decreases n
  {
    hide AlignTo, Align, Aligned, Size;
    if n > 0 {
      PtrIsOffset(t, n - 1, ptr);
      AlignIsPower(Parts(t)[n - 1]);
      PtrToField(t, n - 1, ptr);
    }
  }

  lemma PtrToField(t: Ty, k: nat, ptr: nat)
    requires IsRecord(t) && k < |Parts(t)| && Aligned(ptr, Align(t)) && Power(Align(Parts(t)[k]))
    ensures AlignTo(ptr + End(t, k), Align(Parts(t)[k])) == ptr + FieldAt(t, k)
  {
    hide Align, Size, End;
    FieldInside(t, k);
    AlignIsPower(t);
    RoundShifted(ptr, End(t, k), Align(Parts(t)[k]), Align(t));
  }

  // ---- Loading depends only on the element's bytes.

  predicate SameBytes(mem: seq<Byte>, mem': seq<Byte>, low: nat, high: nat) {
    |mem'| == |mem| && forall i :: low <= i < high && i < |mem| ==> mem'[i] == mem[i]
  }

  lemma {:induction false} LoadFrame(mem: seq<Byte>, mem': seq<Byte>, t: Ty, ptr: nat)
    requires Storable(t) && !HasHandle(t) && Aligned(ptr, Align(t)) && SameBytes(mem, mem', ptr, ptr + Size(t))
    ensures Load(mem', t, ptr) == Load(mem, t, ptr)
    decreases t, 1
  {
    if IsRecord(t) {
      FieldInside(t, |Parts(t)| - 1);
      LoadPartsFrame(mem, mem', t, |Parts(t)|, ptr);
    } else {
      ReadFrame(mem, mem', ptr, PrimSize(t.p));
    }
  }

  lemma {:induction false} LoadPartsFrame(mem: seq<Byte>, mem': seq<Byte>, t: Ty, n: nat, ptr: nat)
    requires Storable(t) && !HasHandle(t) && IsRecord(t) && n <= |Parts(t)|
    requires Aligned(ptr, Align(t)) && SameBytes(mem, mem', ptr, ptr + End(t, n))
    ensures LoadParts(mem', t, n, ptr) == LoadParts(mem, t, n, ptr)
    decreases t, 0, n
  {
    hide AlignTo, Align, Aligned, Size, Load, End;
    if n > 0 {
      FieldInside(t, n - 1);
      LoadPartsFrame(mem, mem', t, n - 1, ptr);
      FieldPtr(t, n - 1, ptr);
      FieldAligned(t, n - 1, ptr);
      LoadFrame(mem, mem', Parts(t)[n - 1], ptr + FieldAt(t, n - 1));
    }
  }

  lemma FieldPtr(t: Ty, k: nat, ptr: nat)
    requires IsRecord(t) && k < |Parts(t)| && Aligned(ptr, Align(t))
    ensures Power(Align(Parts(t)[k])) && AlignTo(PtrAfter(t, k, ptr), Align(Parts(t)[k])) == ptr + FieldAt(t, k)
  {
    hide AlignTo, Align, Aligned, Size, End, PtrAfter;
    AlignIsPower(Parts(t)[k]);
    PtrIsOffset(t, k, ptr);
    PtrToField(t, k, ptr);
  }

  // ---- Storing then loading.

  predicate Outside(mem: seq<Byte>, mem': seq<Byte>, low: nat, high: nat) {
    |mem'| == |mem| && forall i :: 0 <= i < |mem| && !(low <= i < high) ==> mem'[i] == mem[i]
  }

  lemma OutsideTwice(mem: seq<Byte>, mid: seq<Byte>, r: seq<Byte>, low: nat, a: nat, b: nat, high: nat)
    requires Outside(mem, mid, low, a) && Outside(mid, r, b, high) && low <= a <= b <= high
    ensures Outside(mem, r, low, high) && SameBytes(mid, r, low, a)
  {
  }

  /** Memory after a value was stored: the bytes around it are kept, and the value can
      be loaded. */
  ghost predicate Stored(mem: seq<Byte>, mem': seq<Byte>, t: Ty, v: AbiVal, ptr: nat)
    requires Storable(t) && !HasHandle(t)
  {
    Outside(mem, mem', ptr, ptr + Size(t)) && Load(mem', t, ptr) == v
  }

  lemma {:induction false} LowerLength(v: AbiVal, t: Ty, offset: nat)
    requires OfAbiType(v, t) && Storable(t)
    ensures |Lower(v, t)| == |Stores(t, offset)|
    decreases v, 1
  {
    hide AlignTo, Align, Size, End;
    if v.RecordVal? {
      LowerPartsLength(v, t, |v.vs|, offset);
    }
  }

  lemma {:induction false} LowerPartsLength(v: AbiVal, t: Ty, n: nat, offset: nat)
    requires v.RecordVal? && OfAbiType(v, t) && Storable(t) && n <= |v.vs|
    ensures |LowerParts(v, t, n)| == |StoresOf(t, n, offset)|
    decreases v, 0, n
  {
    hide AlignTo, Align, Size, End, Stores, Lower;
    if n > 0 {
      LowerPartsLength(v, t, n - 1, offset);
      LowerLength(v.vs[n - 1], Parts(t)[n - 1], offset + FieldAt(t, n - 1));
    }
  }

  /** A stored value of bools and integers, nested in records and tuples, is loaded
      back; no byte outside its element changes. */
  lemma {:induction false} StoreThenLoad(mem: seq<Byte>, base: nat, t: Ty, offset: nat, v: AbiVal)
    requires Storable(t) && !HasHandle(t) && OfAbiType(v, t)
    requires Aligned(base + offset, Align(t)) && base + offset + Size(t) <= |mem|
    ensures |Lower(v, t)| == |Stores(t, offset)|
    ensures RunStores(mem, base, Stores(t, offset), Lower(v, t)).Some?
    ensures Stored(mem, RunStores(mem, base, Stores(t, offset), Lower(v, t)).value, t, v, base + offset)
    decreases v, 1
  {
    LowerLength(v, t, offset);
    if v.RecordVal? {
      FieldInside(t, |Parts(t)| - 1);
      StorePartsThenLoad(mem, base, t, |v.vs|, offset, v);
      assert v.vs[..|v.vs|] == v.vs;
      OutsideTwice(mem, RunStores(mem, base, Stores(t, offset), Lower(v, t)).value,
        RunStores(mem, base, Stores(t, offset), Lower(v, t)).value, base + offset,
        base + offset + End(t, |v.vs|), base + offset + End(t, |v.vs|), base + offset + Size(t));
    } else {
      StoreLeaf(mem, base, t, offset, v);
    }
  }

  lemma StoreLeaf(mem: seq<Byte>, base: nat, t: Ty, offset: nat, v: AbiVal)
    requires Storable(t) && !HasHandle(t) && OfAbiType(v, t) && !v.RecordVal? && |Lower(v, t)| == |Stores(t, offset)|
    requires base + offset + Size(t) <= |mem|
    ensures RunStores(mem, base, Stores(t, offset), Lower(v, t)).Some?
    ensures Stored(mem, RunStores(mem, base, Stores(t, offset), Lower(v, t)).value, t, v, base + offset)
  {
    hide RunStores, Write, Load, Read, AlignTo, Align;
    AlignIsPower(t);
    LeafSlot(t, v);
    RunOne(mem, base, StoreFn(LeafStore(t), offset, Log2(Align(t))), Lower(v, t)[0]);
    assert Lower(v, t) == [Lower(v, t)[0]];
    Pow256Positive(PrimSize(t.p));
    LeafLoads(mem, Write(mem, base + offset, PrimSize(t.p), Lower(v, t)[0].bits), t, base + offset, v);
  }

  lemma LeafSlot(t: Ty, v: AbiVal)
    requires Storable(t) && !HasHandle(t) && OfAbiType(v, t) && !v.RecordVal?
    ensures |Lower(v, t)| == 1 && Lower(v, t)[0].W64? == LeafStore(t).I64Store?
    ensures Width(LeafStore(t)) == Size(t) == PrimSize(t.p)
  {
  }

  lemma RunOne(mem: seq<Byte>, base: nat, s: StoreFn, x: Slot)
    ensures RunStores(mem, base, [s], [x]) == StoreOne(mem, base, s, x)
  {
    assert [s][..0] == [] && [x][..0] == [];
    assert RunStores(mem, base, [], []) == Some(mem);
  }

  lemma LeafLoads(mem: seq<Byte>, mem': seq<Byte>, t: Ty, ptr: nat, v: AbiVal)
    requires Storable(t) && !HasHandle(t) && OfAbiType(v, t) && !v.RecordVal? && ptr + Size(t) <= |mem|
    requires Pow256(PrimSize(t.p)) > 0 && |Lower(v, t)| == 1
    requires mem' == Write(mem, ptr, PrimSize(t.p), Lower(v, t)[0].bits)
    ensures Load(mem', t, ptr) == v
  {
    ReadWritten(mem, ptr, PrimSize(t.p), Lower(v, t)[0].bits);
    if v.BoolVal? {
      Pow256Values();
    } else {
      TruncatedBack(t.p, v.n);
    }
  }

  /** Reducing to the slot and then to the width loses nothing. */
  lemma TruncatedBack(p: Prim, n: int)
    requires IsScalar(p) && !p.Bool? && InRange(p, n) && Pow256(PrimSize(p)) > 0
    ensures SignedOf(p, ScalarSlot(p, n).bits % Pow256(PrimSize(p))) == n
  {
    Pow256Values();
    if PrimSize(p) < 8 {
      Narrowed(n, PrimSize(p));
    }
    SignedBack(p, n);
  }

  lemma SignedBack(p: Prim, n: int)
    requires InRange(p, n) && Pow256(PrimSize(p)) > 0 && Pow256(PrimSize(p)) % 2 == 0
    ensures SignedOf(p, n % Pow256(PrimSize(p))) == n
  {
    var w := Pow256(PrimSize(p));
    if n < 0 {
      Remainder(w, -1, n + w);
    } else {
      Remainder(w, 0, n);
    }
  }

  lemma Pow256Values()
    ensures Pow256(1) == 0x100 && Pow256(2) == 0x1_0000 && Pow256(4) == TWO32 && Pow256(8) == TWO64
  {
    assert Pow256(2) == 256 * Pow256(1);
    assert Pow256(4) == 256 * (256 * Pow256(2));
    assert Pow256(6) == 256 * (256 * Pow256(4));
    assert Pow256(8) == 256 * (256 * Pow256(6));
  }

  lemma Narrowed(n: int, w: nat)
    requires w == 1 || w == 2 || w == 4
    ensures Pow256(w) > 0 && n % TWO32 % Pow256(w) == n % Pow256(w)
  {
    Pow256Values();
    if w == 1 {
      NestedMod(n, 0x100, 0x100_0000);
    } else if w == 2 {
      NestedMod(n, 0x1_0000, 0x1_0000);
    } else {
      NestedMod(n, TWO32, 1);
    }
  }

  lemma NestedMod(n: int, p: nat, c: nat)
    requires p > 0 && c > 0 && p * c > 0
    ensures n % (p * c) % p == n % p
  {
    var q, r := n / (p * c), n % (p * c);
    Associate(p, c, q);
    SameDigit(n, p, c * q, r / p, r % p);
  }

  lemma Associate(p: int, c: int, q: int)
    ensures (p * c) * q == p * (c * q)
  {
  }

  lemma SameDigit(n: int, p: nat, i: int, j: int, r: nat)
    requires r < p && n == p * i + (p * j + r)
    ensures n % p == r
  {
    Regroup(p, i, j, r);
    Remainder(p, i + j, r);
  }

  ghost predicate PartsStored(mem: seq<Byte>, r: Option<seq<Byte>>, t: Ty, n: nat, v: AbiVal, ptr: nat)
    requires Storable(t) && !HasHandle(t) && v.RecordVal? && OfAbiType(v, t) && n <= |v.vs|
  {
    && r.Some? && Outside(mem, r.value, ptr, ptr + End(t, n))
    && LoadParts(r.value, t, n, ptr) == v.vs[..n]
  }

  lemma {:induction false} StorePartsThenLoad(mem: seq<Byte>, base: nat, t: Ty, n: nat, offset: nat, v: AbiVal)
    requires Storable(t) && !HasHandle(t) && v.RecordVal? && OfAbiType(v, t) && n <= |v.vs|
    requires Aligned(base + offset, Align(t)) && base + offset + End(t, n) <= |mem|
    ensures |LowerParts(v, t, n)| == |StoresOf(t, n, offset)|
    ensures PartsStored(mem, RunStores(mem, base, StoresOf(t, n, offset), LowerParts(v, t, n)), t, n, v, base + offset)
    decreases v, 0, n
  {
    hide *;
    LowerPartsLength(v, t, n, offset);
    if n == 0 {
      NoParts(mem, base, t, offset, v);
    } else {
      PartOf(v, t, n - 1);
      FieldInside(t, n - 1);
      StorePartsThenLoad(mem, base, t, n - 1, offset, v);
      var mid := StoredParts(mem, base, t, n - 1, offset, v);
      FieldAligned(t, n - 1, base + offset);
      StoreThenLoad(mid, base, Parts(t)[n - 1], offset + FieldAt(t, n - 1), v.vs[n - 1]);
      RunParts(mem, mid, base, t, n, offset, v);
      var r := RunStores(mem, base, StoresOf(t, n, offset), LowerParts(v, t, n)).value;
      OneMorePart(mem, mid, r, t, n, v, base + offset);
    }
  }

  lemma NoParts(mem: seq<Byte>, base: nat, t: Ty, offset: nat, v: AbiVal)
    requires Storable(t) && !HasHandle(t) && v.RecordVal? && OfAbiType(v, t)
    requires |LowerParts(v, t, 0)| == |StoresOf(t, 0, offset)|
    ensures PartsStored(mem, RunStores(mem, base, StoresOf(t, 0, offset), LowerParts(v, t, 0)), t, 0, v, base + offset)
  {
  }

  lemma PartOf(v: AbiVal, t: Ty, k: nat)
    requires Storable(t) && !HasHandle(t) && v.RecordVal? && OfAbiType(v, t) && k < |v.vs|
    ensures IsRecord(t) && |v.vs| == |Parts(t)|
    ensures Storable(Parts(t)[k]) && !HasHandle(Parts(t)[k]) && OfAbiType(v.vs[k], Parts(t)[k])
  {
  }

  lemma StoredParts(mem: seq<Byte>, base: nat, t: Ty, n: nat, offset: nat, v: AbiVal) returns (mid: seq<Byte>)
    requires Storable(t) && !HasHandle(t) && v.RecordVal? && OfAbiType(v, t) && n <= |v.vs|
    requires |LowerParts(v, t, n)| == |StoresOf(t, n, offset)|
    requires PartsStored(mem, RunStores(mem, base, StoresOf(t, n, offset), LowerParts(v, t, n)), t, n, v, base + offset)
    ensures RunStores(mem, base, StoresOf(t, n, offset), LowerParts(v, t, n)) == Some(mid) && |mid| == |mem|
    ensures PartsStored(mem, Some(mid), t, n, v, base + offset)
  {
    mid := RunStores(mem, base, StoresOf(t, n, offset), LowerParts(v, t, n)).value;
  }

  lemma RunParts(mem: seq<Byte>, mid: seq<Byte>, base: nat, t: Ty, n: nat, offset: nat, v: AbiVal)
    requires Storable(t) && !HasHandle(t) && v.RecordVal? && OfAbiType(v, t) && 0 < n <= |v.vs|
    requires |LowerParts(v, t, n - 1)| == |StoresOf(t, n - 1, offset)| && |LowerParts(v, t, n)| == |StoresOf(t, n, offset)|
    requires |Lower(v.vs[n - 1], Parts(t)[n - 1])| == |Stores(Parts(t)[n - 1], offset + FieldAt(t, n - 1))|
    requires RunStores(mem, base, StoresOf(t, n - 1, offset), LowerParts(v, t, n - 1)) == Some(mid)
    ensures RunStores(mem, base, StoresOf(t, n, offset), LowerParts(v, t, n))
            == RunStores(mid, base, Stores(Parts(t)[n - 1], offset + FieldAt(t, n - 1)), Lower(v.vs[n - 1], Parts(t)[n - 1]))
  {
    hide RunStores, AlignTo, Align, Size, End, Stores, Lower;
    RunConcat(mem, base, StoresOf(t, n - 1, offset), Stores(Parts(t)[n - 1], offset + FieldAt(t, n - 1)),
      LowerParts(v, t, n - 1), Lower(v.vs[n - 1], Parts(t)[n - 1]));
  }

  /** After n - 1 fields, storing the next one leaves them as they were. */
  lemma OneMorePart(mem: seq<Byte>, mid: seq<Byte>, r: seq<Byte>, t: Ty, n: nat, v: AbiVal, ptr: nat)
    requires Storable(t) && !HasHandle(t) && v.RecordVal? && OfAbiType(v, t) && 0 < n <= |v.vs|
    requires Aligned(ptr, Align(t)) && PartsStored(mem, Some(mid), t, n - 1, v, ptr)
    requires Stored(mid, r, Parts(t)[n - 1], v.vs[n - 1], ptr + FieldAt(t, n - 1))
    ensures PartsStored(mem, Some(r), t, n, v, ptr)
  {
    hide AlignTo, Align, Aligned, Size, Load, End, Outside, SameBytes, Lower, OfAbiType, Storable;
    PartOf(v, t, n - 1);
    FieldInside(t, n - 1);
    OutsideTwice(mem, mid, r, ptr, ptr + End(t, n - 1), ptr + FieldAt(t, n - 1), ptr + End(t, n));
    LoadPartsFrame(mid, r, t, n - 1, ptr);
    FieldPtr(t, n - 1, ptr);
    assert v.vs[..n] == v.vs[..n - 1] + [v.vs[n - 1]];
  }
}
