/** What the joined slots of an enum or a component variant are, read off the cases alone:
    the narrowest types that hold every case. */
module JoinedSlots {
  import opened Options
  import opened StarTypes
  import opened Wasm
  import opened Flatten
  import A = AbiLayout
  import T = TypeTable

  /** Joining the cases one after the other. */
  function Joined(cases: seq<seq<ValType>>): seq<ValType> {
    if cases == [] then [] else JoinAll(Joined(cases[..|cases| - 1]), cases[|cases| - 1])
  }

  /** Some case has type t in slot i. */
  predicate SomeAt(cases: seq<seq<ValType>>, i: nat, t: ValType) {
    exists k :: 0 <= k < |cases| && i < |cases[k]| && cases[k][i] == t
  }

  predicate Reaches(cases: seq<seq<ValType>>, i: nat) {
    exists k :: 0 <= k < |cases| && i < |cases[k]|
  }

  /** The type that holds all of these: their own if there is one only, 32 bits for
      32-bit integers and floats together, and 64 bits for everything else. */
  function Least(v32: bool, v64: bool, f32: bool, f64: bool): ValType {
    if f32 && !v32 && !v64 && !f64 then VF32
    else if f64 && !v32 && !v64 && !f32 then VF64
    else if v32 && !v64 && !f64 then V32
    else V64
  }

  lemma SomeSnoc(cases: seq<seq<ValType>>, last: seq<ValType>, i: nat, t: ValType)
    ensures SomeAt(cases + [last], i, t) <==> SomeAt(cases, i, t) || (i < |last| && last[i] == t)
  {
    var all := cases + [last];
    if SomeAt(cases, i, t) {
      var k :| 0 <= k < |cases| && i < |cases[k]| && cases[k][i] == t;
      assert all[k] == cases[k];
    }
    assert all[|cases|] == last;
  }

  lemma ReachSnoc(cases: seq<seq<ValType>>, last: seq<ValType>, i: nat)
    ensures Reaches(cases + [last], i) <==> Reaches(cases, i) || i < |last|
  {
    var all := cases + [last];
    if Reaches(cases, i) {
      var k :| 0 <= k < |cases| && i < |cases[k]|;
      assert all[k] == cases[k];
    }
    assert all[|cases|] == last;
  }

  /** Adding one more type to those that are held. */
  lemma LeastJoin(v32: bool, v64: bool, f32: bool, f64: bool, t: ValType)
    requires v32 || v64 || f32 || f64
    ensures Join(Least(v32, v64, f32, f64), t)
         == Least(v32 || t.V32?, v64 || t.V64?, f32 || t.VF32?, f64 || t.VF64?)
  {
  }

  lemma LeastOne(t: ValType)
    ensures t == Least(t.V32?, t.V64?, t.VF32?, t.VF64?)
  {
  }

  /** The joined slots are those that some case reaches, each of the least type. */
  lemma {:induction false} JoinedLeast(cases: seq<seq<ValType>>, i: nat)
    ensures i < |Joined(cases)| <==> Reaches(cases, i)
    ensures i < |Joined(cases)| ==>
              Joined(cases)[i] == Least(SomeAt(cases, i, V32), SomeAt(cases, i, V64), SomeAt(cases, i, VF32), SomeAt(cases, i, VF64))
    decreases |cases|
  {
    if cases != [] {
      var n := |cases| - 1;
      var before, last := cases[..n], cases[n];
      assert cases == before + [last];
      JoinedLeast(before, i);
      ReachSnoc(before, last, i);
      SomeSnoc(before, last, i, V32);
      SomeSnoc(before, last, i, V64);
      SomeSnoc(before, last, i, VF32);
      SomeSnoc(before, last, i, VF64);
      NoneBeyond(before, i);
      hide SomeAt, Reaches, Join, Least;
      if i < |last| && Reaches(before, i) {
        LeastJoin(SomeAt(before, i, V32), SomeAt(before, i, V64), SomeAt(before, i, VF32), SomeAt(before, i, VF64),
          last[i]);
      } else if i < |last| {
        LeastOne(last[i]);
      }
    }
  }

  /** A slot that is reached has some type, and one that is not has none. */
  lemma NoneBeyond(cases: seq<seq<ValType>>, i: nat)
    ensures Reaches(cases, i) <==> SomeAt(cases, i, V32) || SomeAt(cases, i, V64) || SomeAt(cases, i, VF32) || SomeAt(cases, i, VF64)
  {
    if Reaches(cases, i) {
      var k :| 0 <= k < |cases| && i < |cases[k]|;
      assert SomeAt(cases, i, cases[k][i]);
    }
  }

  // ---- Enums.

  function PayloadsOf(variants: seq<Variant>): (r: seq<seq<ValType>>)
    ensures |r| == |variants| && forall k :: 0 <= k < |r| ==> r[k] == CasePayload(variants[k])
  {
    seq(|variants|, k requires 0 <= k < |variants| => CasePayload(variants[k]))
  }

  lemma {:induction false} VariantsJoined(variants: seq<Variant>)
    ensures JoinVariants(variants) == Joined(PayloadsOf(variants))
    decreases |variants|
  {
    if variants != [] {
      var n := |variants| - 1;
      VariantsJoined(variants[..n]);
      assert PayloadsOf(variants)[..n] == PayloadsOf(variants[..n]);
    }
  }

  /** Case k has type t in slot i. */
  predicate CaseHas(variants: seq<Variant>, k: nat, i: nat, t: ValType) {
    k < |variants| && i < |CasePayload(variants[k])| && CasePayload(variants[k])[i] == t
  }

  /** A slot of an enum is there if some case has it; it is 32 bits wide exactly if every
      case that has it has 32 bits there, and 64 bits wide exactly if some case has. */
  lemma EnumSlotExact(variants: seq<Variant>, i: nat)
    ensures i < |JoinVariants(variants)| <==> exists k: nat :: k < |variants| && i < |CasePayload(variants[k])|
    ensures i < |JoinVariants(variants)| ==>
              && (JoinVariants(variants)[i] == V32 <==>
                    forall k: nat :: k < |variants| && i < |CasePayload(variants[k])| ==> CaseHas(variants, k, i, V32))
              && (JoinVariants(variants)[i] == V64 <==> exists k: nat :: CaseHas(variants, k, i, V64))
  {
    hide Joined, CasePayload, JoinVariants, SomeAt;
    VariantsJoined(variants);
    var cases := PayloadsOf(variants);
    JoinedLeast(cases, i);
    NoneBeyond(cases, i);
    NoFloats(variants, i);
    SomeIsCase(variants, i, V32);
    SomeIsCase(variants, i, V64);
    OnlyThese(variants, i);
  }

  lemma SomeIsCase(variants: seq<Variant>, i: nat, t: ValType)
    ensures SomeAt(PayloadsOf(variants), i, t) <==> exists k: nat :: CaseHas(variants, k, i, t)
  {
    var cases := PayloadsOf(variants);
    if SomeAt(cases, i, t) {
      var k: nat :| k < |cases| && i < |cases[k]| && cases[k][i] == t;
      assert CaseHas(variants, k, i, t);
    }
    if k: nat :| CaseHas(variants, k, i, t) {
      assert cases[k][i] == t;
    }
  }

  lemma NoFloats(variants: seq<Variant>, i: nat)
    ensures !SomeAt(PayloadsOf(variants), i, VF32) && !SomeAt(PayloadsOf(variants), i, VF64)
  {
    forall k: nat | k < |variants|
      ensures NoFloat(CasePayload(variants[k]))
    {
      PayloadNoFloat(variants[k]);
    }
  }

  lemma OnlyThese(variants: seq<Variant>, i: nat)
    ensures forall k: nat :: k < |variants| && i < |CasePayload(variants[k])| ==>
              CaseHas(variants, k, i, V32) != CaseHas(variants, k, i, V64)
  {
    forall k: nat | k < |variants|
      ensures NoFloat(CasePayload(variants[k]))
    {
      PayloadNoFloat(variants[k]);
    }
  }

  // ---- Component variants.

  /** The slots of the cases; a case without a payload has none. */
  function FlatsOf(t: T.Ty, n: nat): (r: seq<seq<ValType>>)
    requires n <= |A.CasesOf(t)|
    ensures |r| == n
    ensures forall k :: 0 <= k < n ==> r[k] == if A.CasesOf(t)[k].None? then [] else A.Flat(A.CasesOf(t)[k].value)
  {
    seq(n, k requires 0 <= k < n => if A.CasesOf(t)[k].None? then [] else A.Flat(A.CasesOf(t)[k].value))
  }

  lemma {:induction false} CasesJoined(t: T.Ty, n: nat)
    requires n <= |A.CasesOf(t)|
    ensures A.FlatCases(t, n) == Joined(FlatsOf(t, n))
    decreases n
  {
    hide A.Flat, A.CasesOf, JoinAll;
    if n > 0 {
      CasesJoined(t, n - 1);
      assert FlatsOf(t, n)[..n - 1] == FlatsOf(t, n - 1);
      JoinNone(A.FlatCases(t, n - 1));
    }
  }

  lemma JoinNone(a: seq<ValType>)
    ensures JoinAll(a, []) == a
  {
  }

  /** The same of a component variant, floats included. */
  lemma VariantSlotExact(t: T.Ty, i: nat)
    ensures var cases, flat := FlatsOf(t, |A.CasesOf(t)|), A.FlatCases(t, |A.CasesOf(t)|);
            && (i < |flat| <==> Reaches(cases, i))
            && (i < |flat| ==>
                  flat[i] == Least(SomeAt(cases, i, V32), SomeAt(cases, i, V64), SomeAt(cases, i, VF32), SomeAt(cases, i, VF64)))
  {
    CasesJoined(t, |A.CasesOf(t)|);
    JoinedLeast(FlatsOf(t, |A.CasesOf(t)|), i);
  }
}
