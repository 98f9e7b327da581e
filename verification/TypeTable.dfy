/** The table of component types that an interface or world declares, and the memo
    that maps types to its entries (`TypeBuilder` in `component_encoder.rs`). */
module TypeTable {
  import opened Options

  datatype Prim = Bool | S8 | U8 | S16 | U16 | S32 | U32 | S64 | U64 | F32 | F64 | Char | Str | ErrorContext

  /** Component types over resources R. `Unsupported` stands for lists, flags, streams
      and futures, which the encoder refuses. */
  datatype AbiType<R> =
    | Primitive(p: Prim)
    | Record(fields: seq<Field<R>>)
    | Tuple(items: seq<AbiType<R>>)
    | Variant(cases: seq<Case<R>>)
    | Opt(inner: AbiType<R>)
    | Res(ok: Option<AbiType<R>>, err: Option<AbiType<R>>)
    | Own(resource: R)
    | Borrow(resource: R)
    | Unsupported

  datatype Field<R> = Field(name: string, ty: AbiType<R>)

  datatype Case<R> = Case(name: string, ty: Option<AbiType<R>>)

  datatype Resource = Resource(name: string, fullName: string)

  /** What a resource entry of the table stands for: the resource declared there, an entry
      of the enclosing table, or what an imported instance exports under a name. */
  datatype ResourceId = Declared(index: nat, name: string) | Outer(index: nat) | FromInstance(instance: nat, name: string)

  type Ty = AbiType<Resource>
  type Meaning = AbiType<ResourceId>

  // ---- The table.

  datatype Val = Prim(p: Prim) | Idx(i: nat)

  datatype VField = VField(name: string, val: Val)
  datatype VCase = VCase(name: string, val: Option<Val>)

  datatype Entry =
    | RecordDef(fields: seq<VField>)
    | TupleDef(items: seq<Val>)
    | VariantDef(cases: seq<VCase>)
    | OptionDef(inner: Val)
    | ResultDef(ok: Option<Val>, err: Option<Val>)
    | OwnDef(resource: nat)
    | BorrowDef(resource: nat)
    | EqBound(name: string, to: nat)
    | SubResource(name: string)
    | OuterAlias(index: nat)
    | InstanceExport(instance: nat, name: string)
    | FuncDef(params: seq<VField>, result: Option<Val>)
    | InstanceDef(declared: seq<Entry>)

  /** The resource that entry i names, through equality bounds. */
  function ResourceAt(table: seq<Entry>, i: nat): Option<ResourceId>
    decreases i
  {
    if i >= |table| then None
    else match table[i]
      case SubResource(name) => Some(Declared(i, name))
      case InstanceExport(instance, name) => Some(FromInstance(instance, name))
      case OuterAlias(p) => Some(Outer(p))
      case EqBound(_, to) => if to < i then ResourceAt(table, to) else None
      case _ => None
  }

  /** The type that entry i defines; None unless it refers to smaller entries only. */
  function MeaningAt(table: seq<Entry>, i: nat): Option<Meaning>
    requires i < |table|
    decreases i, 3, 0
  {
    match table[i]
    case RecordDef(fields) =>
      var r := MeaningsOf(table, i, Vals(fields));
      if r.None? then None else Some(Record(NamedFields(fields, r.value)))
    case TupleDef(items) => var r := MeaningsOf(table, i, items); if r.None? then None else Some(Tuple(r.value))
    case VariantDef(cases) =>
      var r := OptMeanings(table, i, Payloads(cases));
      if r.None? then None else Some(Variant(NamedCases(cases, r.value)))
    case OptionDef(inner) => var r := MeaningBelow(table, i, inner); if r.None? then None else Some(Opt(r.value))
    case ResultDef(ok, err) =>
      var r := OptMeanings(table, i, [ok, err]);
      if r.None? then None else Some(Res(r.value[0], r.value[1]))
    case OwnDef(j) => if j < i && ResourceAt(table, j).Some? then Some(Own(ResourceAt(table, j).value)) else None
    case BorrowDef(j) => if j < i && ResourceAt(table, j).Some? then Some(Borrow(ResourceAt(table, j).value)) else None
    case EqBound(_, to) => if to < i then MeaningAt(table, to) else None
    case _ => None
  }

  function MeaningBelow(table: seq<Entry>, n: nat, v: Val): Option<Meaning>
    requires n <= |table|
    decreases n, 0, 0
  {
    match v
    case Prim(p) => Some(Primitive(p))
    case Idx(i) => if i < n then MeaningAt(table, i) else None
  }

  function MeaningsOf(table: seq<Entry>, n: nat, vs: seq<Val>): (r: Option<seq<Meaning>>)
    requires n <= |table|
    ensures r.Some? ==> |r.value| == |vs|
    decreases n, 1, |vs|
  {
    if vs == [] then Some([])
    else
      var k := |vs| - 1;
      var before, last := MeaningsOf(table, n, vs[..k]), MeaningBelow(table, n, vs[k]);
      if before.None? || last.None? then None else Some(before.value + [last.value])
  }

  function OptMeanings(table: seq<Entry>, n: nat, vs: seq<Option<Val>>): (r: Option<seq<Option<Meaning>>>)
    requires n <= |table|
    ensures r.Some? ==> |r.value| == |vs|
    decreases n, 1, |vs|
  {
    if vs == [] then Some([])
    else
      var k := |vs| - 1;
      var before := OptMeanings(table, n, vs[..k]);
      if before.None? then None
      else if vs[k].None? then Some(before.value + [None])
      else
        var last := MeaningBelow(table, n, vs[k].value);
        if last.None? then None else Some(before.value + [Some(last.value)])
  }

  function NamedFields(fields: seq<VField>, ms: seq<Meaning>): (r: seq<Field<ResourceId>>)
    requires |fields| == |ms|
    ensures |r| == |ms| && forall k :: 0 <= k < |ms| ==> r[k] == Field(fields[k].name, ms[k])
  {
    seq(|fields|, k requires 0 <= k < |fields| => Field(fields[k].name, ms[k]))
  }

  function NamedCases(cases: seq<VCase>, ms: seq<Option<Meaning>>): (r: seq<Case<ResourceId>>)
    requires |cases| == |ms|
    ensures |r| == |ms| && forall k :: 0 <= k < |ms| ==> r[k] == Case(cases[k].name, ms[k])
  {
    seq(|cases|, k requires 0 <= k < |cases| => Case(cases[k].name, ms[k]))
  }

  function Vals(fields: seq<VField>): (r: seq<Val>)
    ensures |r| == |fields| && forall k :: 0 <= k < |fields| ==> r[k] == fields[k].val
  {
    seq(|fields|, k requires 0 <= k < |fields| => fields[k].val)
  }

  function Payloads(cases: seq<VCase>): (r: seq<Option<Val>>)
    ensures |r| == |cases| && forall k :: 0 <= k < |cases| ==> r[k] == cases[k].val
  {
    seq(|cases|, k requires 0 <= k < |cases| => cases[k].val)
  }

  /** What a value type means in a table. */
  function Decode(table: seq<Entry>, v: Val): Option<Meaning> {
    MeaningBelow(table, |table|, v)
  }

  // ---- Appending never changes a meaning.

  lemma {:induction false} ResourceStable(table: seq<Entry>, table': seq<Entry>, i: nat)
    requires table <= table' && i < |table|
    ensures ResourceAt(table', i) == ResourceAt(table, i)
    decreases i
  {
    assert table'[i] == table[i];
    if table[i].EqBound? && table[i].to < i {
      ResourceStable(table, table', table[i].to);
    }
  }

  lemma {:induction false} MeaningStable(table: seq<Entry>, table': seq<Entry>, i: nat)
    requires table <= table' && i < |table|
    ensures MeaningAt(table', i) == MeaningAt(table, i)
    decreases i, 3, 0
  {
    assert table'[i] == table[i];
    match table[i]
    case RecordDef(fields) => MeaningsStable(table, table', i, Vals(fields));
    case TupleDef(items) => MeaningsStable(table, table', i, items);
    case VariantDef(cases) => OptMeaningsStable(table, table', i, Payloads(cases));
    case OptionDef(inner) => BelowStable(table, table', i, inner);
    case ResultDef(ok, err) => OptMeaningsStable(table, table', i, [ok, err]);
    case OwnDef(j) => if j < i { ResourceStable(table, table', j); }
    case BorrowDef(j) => if j < i { ResourceStable(table, table', j); }
    case EqBound(_, to) => if to < i { MeaningStable(table, table', to); }
    case _ =>
  }

  lemma {:induction false} BelowStable(table: seq<Entry>, table': seq<Entry>, n: nat, v: Val)
    requires table <= table' && n <= |table|
    ensures MeaningBelow(table', n, v) == MeaningBelow(table, n, v)
    decreases n, 0, 0
  {
    if v.Idx? && v.i < n {
      MeaningStable(table, table', v.i);
    }
  }

  lemma {:induction false} MeaningsStable(table: seq<Entry>, table': seq<Entry>, n: nat, vs: seq<Val>)
    requires table <= table' && n <= |table|
    ensures MeaningsOf(table', n, vs) == MeaningsOf(table, n, vs)
    decreases n, 1, |vs|
  {
    if vs != [] {
      MeaningsStable(table, table', n, vs[..|vs| - 1]);
      BelowStable(table, table', n, vs[|vs| - 1]);
    }
  }

  lemma {:induction false} OptMeaningsStable(table: seq<Entry>, table': seq<Entry>, n: nat, vs: seq<Option<Val>>)
    requires table <= table' && n <= |table|
    ensures OptMeanings(table', n, vs) == OptMeanings(table, n, vs)
    decreases n, 1, |vs|
  {
    if vs != [] {
      OptMeaningsStable(table, table', n, vs[..|vs| - 1]);
      if vs[|vs| - 1].Some? {
        BelowStable(table, table', n, vs[|vs| - 1].value);
      }
    }
  }

  /** What is decodable stays so, with the same meaning, as the table grows. */
  lemma DecodeStable(table: seq<Entry>, table': seq<Entry>, v: Val)
    requires table <= table' && Decode(table, v).Some?
    ensures Decode(table', v) == Decode(table, v)
  {
    if v.Idx? {
      MeaningStable(table, table', v.i);
    }
  }

  // ---- Types and their meanings.

  /** Resources replaced by what they stand for. */
  function Rename(t: Ty, denotes: map<Resource, ResourceId>): Meaning
    requires Encodable(t, denotes.Keys)
    decreases t
  {
    match t
    case Primitive(p) => Primitive(p)
    case Record(fields) =>
      Record(seq(|fields|, k requires 0 <= k < |fields| => Field(fields[k].name, Rename(fields[k].ty, denotes))))
    case Tuple(items) => Tuple(seq(|items|, k requires 0 <= k < |items| => Rename(items[k], denotes)))
    case Variant(cases) =>
      Variant(seq(|cases|, k requires 0 <= k < |cases| => Case(cases[k].name,
        match cases[k].ty
        case Some(ty) => Some(Rename(ty, denotes))
        case None => None)))
    case Opt(inner) => Opt(Rename(inner, denotes))
    case Res(ok, err) =>
      Res((match ok case Some(ty) => Some(Rename(ty, denotes)) case None => None),
          (match err case Some(ty) => Some(Rename(ty, denotes)) case None => None))
    case Own(r) => Own(denotes[r])
    case Borrow(r) => Borrow(denotes[r])
  }

  /** No unsupported part, and every resource is known here. */
  predicate Encodable(t: Ty, known: set<Resource>)
    decreases t
  {
    match t
    case Primitive(_) => true
    case Record(fields) => forall k :: 0 <= k < |fields| ==> Encodable(fields[k].ty, known)
    case Tuple(items) => forall k :: 0 <= k < |items| ==> Encodable(items[k], known)
    case Variant(cases) =>
      forall k :: 0 <= k < |cases| && cases[k].ty.Some? ==> Encodable(cases[k].ty.value, known)
    case Opt(inner) => Encodable(inner, known)
    case Res(ok, err) =>
      (ok.Some? ==> Encodable(ok.value, known)) && (err.Some? ==> Encodable(err.value, known))
    case Own(r) => r in known
    case Borrow(r) => r in known
    case Unsupported => false
  }

  lemma {:induction false} MeaningsAre(table: seq<Entry>, vs: seq<Val>, ms: seq<Meaning>)
    requires |vs| == |ms| && forall k :: 0 <= k < |vs| ==> Decode(table, vs[k]) == Some(ms[k])
    ensures MeaningsOf(table, |table|, vs) == Some(ms)
    decreases |vs|
  {
    if vs != [] {
      var n := |vs| - 1;
      MeaningsAre(table, vs[..n], ms[..n]);
      assert ms == ms[..n] + [ms[n]];
    }
  }

  lemma {:induction false} OptMeaningsAre(table: seq<Entry>, vs: seq<Option<Val>>, ms: seq<Option<Meaning>>)
    requires |vs| == |ms| && forall k :: 0 <= k < |vs| ==> OptDecodes(table, vs[k], ms[k])
    ensures OptMeanings(table, |table|, vs) == Some(ms)
    decreases |vs|
  {
    if vs != [] {
      var n := |vs| - 1;
      assert OptDecodes(table, vs[n], ms[n]);
      OptMeaningsAre(table, vs[..n], ms[..n]);
      assert ms == ms[..n] + [ms[n]];
    }
  }

  predicate OptDecodes(table: seq<Entry>, v: Option<Val>, m: Option<Meaning>) {
    if v.None? then m.None? else Decode(table, v.value).Some? && m == Decode(table, v.value)
  }

  /** The meaning of a new entry. */
  function NewMeaning(table: seq<Entry>, e: Entry): Option<Meaning> {
    MeaningAt(table + [e], |table|)
  }

  lemma NewEntry(table: seq<Entry>, e: Entry)
    ensures (table + [e])[|table|] == e && Decode(table + [e], Idx(|table|)) == NewMeaning(table, e)
  {
  }
}
