/** Which component type a source type becomes, member by member: what has no values to
    pass is left out, everything else keeps its place, its name and its form. And which
    source types can be returned through memory. */
module ComponentShapes {
  import opened Options
  import opened TypeTable
  import opened AbiLayout
  import opened AbiMemory
  import opened ComponentTypes
  import S = StarTypes

  /** The places of the types that have values to pass, in increasing order. */
  predicate Kept(at: seq<nat>, ts: seq<S.Type>, handle: Ty) {
    && (forall i, j :: 0 <= i < j < |at| ==> at[i] < at[j])
    && (forall j :: 0 <= j < |at| ==> at[j] < |ts| && ComponentOf(ts[at[j]], handle).Some?)
    && (forall k: nat :: k < |ts| && ComponentOf(ts[k], handle).Some? ==> k in at)
  }

  /** The component types of the types at these places. */
  predicate Comps(parts: seq<Ty>, at: seq<nat>, ts: seq<S.Type>, handle: Ty) {
    |parts| == |at| && forall j :: 0 <= j < |at| ==> at[j] < |ts| && ComponentOf(ts[at[j]], handle) == Some(parts[j])
  }

  /** One more type, kept or not. */
  function Places(before: seq<nat>, n: nat, t: S.Type, handle: Ty): seq<nat> {
    if ComponentOf(t, handle).Some? then before + [n] else before
  }

  lemma KeptMore(before: seq<nat>, ts: seq<S.Type>, n: nat, handle: Ty)
    requires |ts| == n + 1 && Kept(before, ts[..n], handle)
    ensures Kept(Places(before, n, ts[n], handle), ts, handle)
  {
    hide ComponentOf;
    var at := Places(before, n, ts[n], handle);
    forall k: nat | k < |ts| && ComponentOf(ts[k], handle).Some?
      ensures k in at
    {
      if k < n {
        assert ts[..n][k] == ts[k];
      } else {
        assert at[|before|] == n;
      }
    }
  }

  lemma CompsMore(parts: seq<Ty>, before: seq<nat>, ts: seq<S.Type>, n: nat, handle: Ty)
    requires |ts| == n + 1 && Comps(parts, before, ts[..n], handle)
    ensures var last := ComponentOf(ts[n], handle);
            Comps(parts + if last.None? then [] else [last.value], Places(before, n, ts[n], handle), ts, handle)
  {
    hide ComponentOf;
  }

  lemma {:induction false} PartsKept(ts: seq<S.Type>, handle: Ty) returns (at: seq<nat>)
    ensures Kept(at, ts, handle) && Comps(ComponentsOf(ts, handle), at, ts, handle)
    decreases |ts|
  {
    hide Kept, Comps, ComponentOf;
    if ts == [] {
      at := [];
      NoneKept(handle);
    } else {
      var n := |ts| - 1;
      var before := PartsKept(ts[..n], handle);
      at := Places(before, n, ts[n], handle);
      KeptMore(before, ts, n, handle);
      CompsMore(ComponentsOf(ts[..n], handle), before, ts, n, handle);
    }
  }

  lemma NoneKept(handle: Ty)
    ensures Kept([], [], handle) && Comps([], [], [], handle)
  {
  }

  /** A tuple becomes the tuple of what is kept of it, or nothing if nothing is. */
  lemma TupleBecomes(items: seq<S.Type>, handle: Ty) returns (at: seq<nat>)
    ensures Kept(at, items, handle)
    ensures var c := ComponentOf(S.Tuple(items), handle);
            if at == [] then c == None else c.Some? && c.value.Tuple? && Comps(c.value.items, at, items, handle)
  {
    at := PartsKept(items, handle);
  }

  /** The fields at these places, as component fields. */
  predicate Named(parts: seq<Field<Resource>>, at: seq<nat>, fields: seq<S.Field>, handle: Ty) {
    && |parts| == |at|
    && forall j :: 0 <= j < |at| ==>
         at[j] < |fields| && parts[j].name == fields[at[j]].name && ComponentOf(fields[at[j]].ty, handle) == Some(parts[j].ty)
  }

  /** A record becomes the record of what is kept of it, under the same names. */
  lemma RecordBecomes(fields: seq<S.Field>, handle: Ty) returns (at: seq<nat>)
    ensures Kept(at, S.Types(fields), handle)
    ensures var c := ComponentOf(S.Record(fields), handle);
            c.Some? && c.value.Record? && Named(c.value.fields, at, fields, handle)
  {
    at := FieldsKept(fields, handle);
  }

  lemma NamedMore(parts: seq<Field<Resource>>, before: seq<nat>, fields: seq<S.Field>, n: nat, handle: Ty)
    requires |fields| == n + 1 && Named(parts, before, fields[..n], handle)
    ensures var last := ComponentOf(fields[n].ty, handle);
            Named(parts + if last.None? then [] else [Field(fields[n].name, last.value)],
                  Places(before, n, fields[n].ty, handle), fields, handle)
  {
    hide ComponentOf;
  }

  lemma {:induction false} FieldsKept(fields: seq<S.Field>, handle: Ty) returns (at: seq<nat>)
    ensures Kept(at, S.Types(fields), handle) && Named(ComponentFields(fields, handle), at, fields, handle)
    decreases |fields|
  {
    hide Kept, Named, ComponentOf;
    if fields == [] {
      at := [];
      NoneKept(handle);
      NoneNamed(handle);
    } else {
      var n := |fields| - 1;
      var before := FieldsKept(fields[..n], handle);
      at := Places(before, n, fields[n].ty, handle);
      assert S.Types(fields)[..n] == S.Types(fields[..n]);
      KeptMore(before, S.Types(fields), n, handle);
      NamedMore(ComponentFields(fields[..n], handle), before, fields, n, handle);
    }
  }

  lemma NoneNamed(handle: Ty)
    ensures Named([], [], [], handle)
  {
  }

  /** An enum becomes the variant of all its cases, in order and under the same names; the
      payload of each is what the tuple of its types becomes. */
  lemma EnumBecomes(variants: seq<S.Variant>, handle: Ty, k: nat)
    requires k < |variants|
    ensures var c := ComponentOf(S.Enum(variants), handle);
            && c.Some? && c.value.Variant? && |c.value.cases| == |variants|
            && c.value.cases[k] == Case(variants[k].name, ComponentOf(S.Tuple(S.PayloadTypes(variants[k])), handle))
  {
    CaseBecomes(variants, handle, k);
  }

  lemma {:induction false} CaseBecomes(variants: seq<S.Variant>, handle: Ty, k: nat)
    requires k < |variants|
    ensures var cases := ComponentCases(variants, handle);
            && |cases| == |variants|
            && cases[k] == Case(variants[k].name, ComponentOf(S.Tuple(S.PayloadTypes(variants[k])), handle))
    decreases |variants|
  {
    var n := |variants| - 1;
    CountCases(variants[..n], handle);
    if k < n {
      CaseBecomes(variants[..n], handle, k);
    } else {
      PayloadIs(variants[n], handle);
    }
  }

  lemma {:induction false} CountCases(variants: seq<S.Variant>, handle: Ty)
    ensures |ComponentCases(variants, handle)| == |variants|
    decreases |variants|
  {
    if variants != [] {
      CountCases(variants[..|variants| - 1], handle);
    }
  }

  // ---- What can be returned through memory.

  /** Something of the type is left to pass. */
  predicate HasSlots(t: S.Type) {
    match t
    case Unit => false
    case Tuple(items) => exists k :: 0 <= k < |items| && HasSlots(items[k])
    case _ => true
  }

  /** No enum anywhere, and no record of which nothing is left. */
  predicate Returnable(t: S.Type) {
    match t
    case Tuple(items) => forall k :: 0 <= k < |items| ==> Returnable(items[k])
    case Record(fields) =>
      && (forall k :: 0 <= k < |fields| ==> Returnable(fields[k].ty))
      && exists k :: 0 <= k < |fields| && HasSlots(fields[k].ty)
    case Enum(_) => false
    case _ => true
  }

  lemma {:induction false} SlotsAreKept(t: S.Type, handle: Ty)
    ensures HasSlots(t) <==> ComponentOf(t, handle).Some?
    decreases t
  {
    if t.Tuple? {
      var at := TupleBecomes(t.items, handle);
      hide ComponentOf;
      forall k | 0 <= k < |t.items|
        ensures HasSlots(t.items[k]) <==> ComponentOf(t.items[k], handle).Some?
      {
        SlotsAreKept(t.items[k], handle);
      }
      if at != [] {
        assert HasSlots(t.items[at[0]]);
      }
    }
  }

  /** The code that stores a result refuses its type exactly if it is not returnable. */
  lemma {:induction false} StorableExactly(t: S.Type, handle: Ty)
    requires handle.Own? || handle.Borrow?
    ensures HasSlots(t) ==> ComponentOf(t, handle).Some? && (Storable(ComponentOf(t, handle).value) <==> Returnable(t))
    ensures !HasSlots(t) ==> Returnable(t)
    decreases t
  {
    SlotsAreKept(t, handle);
    match t
    case Tuple(items) =>
      var at := TupleBecomes(items, handle);
      forall k | 0 <= k < |items|
        ensures Agrees(items[k], handle)
      {
        StorableExactly(items[k], handle);
        SlotsAreKept(items[k], handle);
      }
      if at != [] {
        PartsStorable(ComponentOf(t, handle).value.items, at, items, handle);
      } else {
        NoneLeft(items, handle);
      }
    case Record(fields) =>
      var at := RecordBecomes(fields, handle);
      var ts := S.Types(fields);
      forall k | 0 <= k < |ts|
        ensures Agrees(ts[k], handle)
      {
        StorableExactly(fields[k].ty, handle);
        SlotsAreKept(fields[k].ty, handle);
      }
      FieldsStorable(fields, ComponentOf(t, handle).value, at, handle);
    case _ =>
  }

  predicate Agrees(t: S.Type, handle: Ty) {
    && (HasSlots(t) <==> ComponentOf(t, handle).Some?)
    && (HasSlots(t) ==> (Storable(ComponentOf(t, handle).value) <==> Returnable(t)))
    && (!HasSlots(t) ==> Returnable(t))
  }

  lemma PartsStorable(parts: seq<Ty>, at: seq<nat>, ts: seq<S.Type>, handle: Ty)
    requires Kept(at, ts, handle) && Comps(parts, at, ts, handle) && at != []
    requires forall k :: 0 <= k < |ts| ==> Agrees(ts[k], handle)
    ensures (forall j :: 0 <= j < |parts| ==> Storable(parts[j])) <==> forall k :: 0 <= k < |ts| ==> Returnable(ts[k])
  {
    hide ComponentOf, Storable, Returnable, HasSlots;
    if forall j :: 0 <= j < |parts| ==> Storable(parts[j]) {
      forall k | 0 <= k < |ts|
        ensures Returnable(ts[k])
      {
        assert Agrees(ts[k], handle);
        if HasSlots(ts[k]) {
          var j :| 0 <= j < |at| && at[j] == k;
          assert Storable(parts[j]);
        }
      }
    }
    if forall k :: 0 <= k < |ts| ==> Returnable(ts[k]) {
      forall j | 0 <= j < |parts|
        ensures Storable(parts[j])
      {
        assert Agrees(ts[at[j]], handle);
      }
    }
  }

  lemma NoneLeft(ts: seq<S.Type>, handle: Ty)
    requires Kept([], ts, handle) && forall k :: 0 <= k < |ts| ==> Agrees(ts[k], handle)
    ensures forall k :: 0 <= k < |ts| ==> Returnable(ts[k])
  {
    hide ComponentOf, Storable, Returnable, HasSlots;
  }

  lemma FieldsStorable(fields: seq<S.Field>, c: Ty, at: seq<nat>, handle: Ty)
    requires c.Record? && Kept(at, S.Types(fields), handle) && Named(c.fields, at, fields, handle)
    requires forall k :: 0 <= k < |S.Types(fields)| ==> Agrees(S.Types(fields)[k], handle)
    ensures Storable(c) <==> Returnable(S.Record(fields))
  {
    var ts := S.Types(fields);
    assert Comps(Parts(c), at, ts, handle);
    if at == [] {
      hide ComponentOf, Returnable, HasSlots;
      forall k | 0 <= k < |fields|
        ensures !HasSlots(fields[k].ty)
      {
        assert Agrees(ts[k], handle);
      }
    } else {
      PartsStorable(Parts(c), at, ts, handle);
      assert Agrees(ts[at[0]], handle) && HasSlots(fields[at[0]].ty);
    }
  }
}
