/** Building the type table: every run of its operations keeps each memoised index
    meaning the type it was requested for (`TypeBuilder` in `component_encoder.rs`). */
module TypeBuilders {
  import opened Options
  import opened TypeTable

  /** The memo is right: each type's index means that type. */
  ghost predicate MemoOk(table: seq<Entry>, memo: map<Ty, Val>, denotes: map<Resource, ResourceId>) {
    forall t :: t in memo ==> Right(table, t, memo[t], denotes)
  }

  ghost predicate Right(table: seq<Entry>, t: Ty, v: Val, denotes: map<Resource, ResourceId>) {
    Encodable(t, denotes.Keys) && Decode(table, v) == Some(Rename(t, denotes))
  }

  predicate Extends(memo: map<Ty, Val>, memo': map<Ty, Val>) {
    forall t :: t in memo ==> t in memo' && memo'[t] == memo[t]
  }

  // ---- What new entries mean.

  lemma RightStable(table: seq<Entry>, table': seq<Entry>, t: Ty, v: Val, denotes: map<Resource, ResourceId>)
    requires Right(table, t, v, denotes) && table <= table'
    ensures Right(table', t, v, denotes)
  {
    DecodeStable(table, table', v);
  }

  lemma MemoStable(table: seq<Entry>, table': seq<Entry>, memo: map<Ty, Val>, denotes: map<Resource, ResourceId>)
    requires MemoOk(table, memo, denotes) && table <= table'
    ensures MemoOk(table', memo, denotes)
  {
    hide Right;
    forall t | t in memo
      ensures Right(table', t, memo[t], denotes)
    {
      RightStable(table, table', t, memo[t], denotes);
    }
  }

  predicate FieldVals(table: seq<Entry>, fields: seq<Field<Resource>>, vals: seq<VField>, denotes: map<Resource, ResourceId>, n: nat) {
    && n <= |fields| && n <= |vals|
    && forall k :: 0 <= k < n ==> FieldRight(table, fields[k], vals[k], denotes)
  }

  predicate FieldRight(table: seq<Entry>, field: Field<Resource>, val: VField, denotes: map<Resource, ResourceId>) {
    && val.name == field.name && Encodable(field.ty, denotes.Keys)
    && Decode(table, val.val) == Some(Rename(field.ty, denotes))
  }

  lemma RecordMeans(table: seq<Entry>, fields: seq<Field<Resource>>, vals: seq<VField>, denotes: map<Resource, ResourceId>)
    requires |vals| == |fields| && FieldVals(table, fields, vals, denotes, |fields|)
    ensures Right(table + [RecordDef(vals)], Record(fields), Idx(|table|), denotes)
  {
    forall k | 0 <= k < |fields|
      ensures Encodable(fields[k].ty, denotes.Keys)
    {
      assert FieldRight(table, fields[k], vals[k], denotes);
    }
    var ms := seq(|fields|, k requires 0 <= k < |fields| => Rename(fields[k].ty, denotes));
    forall k | 0 <= k < |vals|
      ensures Decode(table, Vals(vals)[k]) == Some(ms[k])
    {
      assert FieldRight(table, fields[k], vals[k], denotes);
    }
    MeaningsAre(table, Vals(vals), ms);
    NewEntry(table, RecordDef(vals));
    MeaningsStable(table, table + [RecordDef(vals)], |table|, Vals(vals));
    SameRecord(table, fields, vals, ms, denotes);
  }

  lemma SameRecord(table: seq<Entry>, fields: seq<Field<Resource>>, vals: seq<VField>, ms: seq<Meaning>,
                   denotes: map<Resource, ResourceId>)
    requires |vals| == |fields| == |ms| && Encodable(Record(fields), denotes.Keys)
    requires FieldVals(table, fields, vals, denotes, |fields|)
    requires forall k :: 0 <= k < |fields| ==> ms[k] == Rename(fields[k].ty, denotes)
    ensures Rename(Record(fields), denotes) == Record(NamedFields(vals, ms))
  {
    var r := Rename(Record(fields), denotes).fields;
    forall k | 0 <= k < |fields|
      ensures r[k] == NamedFields(vals, ms)[k]
    {
      assert FieldRight(table, fields[k], vals[k], denotes);
    }
  }

  predicate ItemVals(table: seq<Entry>, items: seq<Ty>, vals: seq<Val>, denotes: map<Resource, ResourceId>, n: nat) {
    && n <= |items| && n <= |vals|
    && forall k :: 0 <= k < n ==> Encodable(items[k], denotes.Keys) && Decode(table, vals[k]) == Some(Rename(items[k], denotes))
  }

  lemma TupleMeans(table: seq<Entry>, items: seq<Ty>, vals: seq<Val>, denotes: map<Resource, ResourceId>)
    requires |vals| == |items| && ItemVals(table, items, vals, denotes, |items|)
    ensures Right(table + [TupleDef(vals)], Tuple(items), Idx(|table|), denotes)
  {
    var ms := seq(|items|, k requires 0 <= k < |items| => Rename(items[k], denotes));
    MeaningsAre(table, vals, ms);
    NewEntry(table, TupleDef(vals));
    MeaningsStable(table, table + [TupleDef(vals)], |table|, vals);
  }

  predicate OptRight(table: seq<Entry>, t: Option<Ty>, v: Option<Val>, denotes: map<Resource, ResourceId>) {
    if t.None? then v.None?
    else v.Some? && Encodable(t.value, denotes.Keys) && Decode(table, v.value) == Some(Rename(t.value, denotes))
  }

  predicate CaseVals(table: seq<Entry>, cases: seq<Case<Resource>>, vals: seq<VCase>, denotes: map<Resource, ResourceId>, n: nat) {
    && n <= |cases| && n <= |vals|
    && forall k :: 0 <= k < n ==> vals[k].name == cases[k].name && OptRight(table, cases[k].ty, vals[k].val, denotes)
  }

  function OptRename(t: Option<Ty>, denotes: map<Resource, ResourceId>): Option<Meaning>
    requires t.Some? ==> Encodable(t.value, denotes.Keys)
  {
    match t case Some(ty) => Some(Rename(ty, denotes)) case None => None
  }

  lemma VariantMeans(table: seq<Entry>, cases: seq<Case<Resource>>, vals: seq<VCase>, denotes: map<Resource, ResourceId>)
    requires |vals| == |cases| && CaseVals(table, cases, vals, denotes, |cases|)
    ensures Right(table + [VariantDef(vals)], Variant(cases), Idx(|table|), denotes)
  {
    forall k | 0 <= k < |cases|
      ensures cases[k].ty.Some? ==> Encodable(cases[k].ty.value, denotes.Keys)
    {
      assert OptRight(table, cases[k].ty, vals[k].val, denotes);
    }
    var ms := seq(|cases|, k requires 0 <= k < |cases| => OptRename(cases[k].ty, denotes));
    forall k | 0 <= k < |vals|
      ensures OptDecodes(table, Payloads(vals)[k], ms[k])
    {
      assert OptRight(table, cases[k].ty, vals[k].val, denotes);
    }
    OptMeaningsAre(table, Payloads(vals), ms);
    NewEntry(table, VariantDef(vals));
    OptMeaningsStable(table, table + [VariantDef(vals)], |table|, Payloads(vals));
    SameVariant(table, cases, vals, ms, denotes);
  }

  lemma SameVariant(table: seq<Entry>, cases: seq<Case<Resource>>, vals: seq<VCase>, ms: seq<Option<Meaning>>,
                    denotes: map<Resource, ResourceId>)
    requires |vals| == |cases| == |ms| && Encodable(Variant(cases), denotes.Keys)
    requires CaseVals(table, cases, vals, denotes, |cases|)
    requires forall k :: 0 <= k < |cases| ==> ms[k] == OptRename(cases[k].ty, denotes)
    ensures Rename(Variant(cases), denotes) == Variant(NamedCases(vals, ms))
  {
    var r := Rename(Variant(cases), denotes).cases;
    forall k | 0 <= k < |cases|
      ensures r[k] == NamedCases(vals, ms)[k]
    {
    }
  }

  lemma OptionMeans(table: seq<Entry>, inner: Ty, v: Val, denotes: map<Resource, ResourceId>)
    requires Right(table, inner, v, denotes)
    ensures Right(table + [OptionDef(v)], Opt(inner), Idx(|table|), denotes)
  {
    NewEntry(table, OptionDef(v));
    BelowStable(table, table + [OptionDef(v)], |table|, v);
  }

  lemma ResultMeans(table: seq<Entry>, ok: Option<Ty>, err: Option<Ty>, okVal: Option<Val>, errVal: Option<Val>,
                    denotes: map<Resource, ResourceId>)
    requires OptRight(table, ok, okVal, denotes) && OptRight(table, err, errVal, denotes)
    ensures Right(table + [ResultDef(okVal, errVal)], Res(ok, err), Idx(|table|), denotes)
  {
    OptMeaningsAre(table, [okVal, errVal], [OptRename(ok, denotes), OptRename(err, denotes)]);
    NewEntry(table, ResultDef(okVal, errVal));
    OptMeaningsStable(table, table + [ResultDef(okVal, errVal)], |table|, [okVal, errVal]);
  }

  lemma BorrowMeans(table: seq<Entry>, r: Resource, at: nat, denotes: map<Resource, ResourceId>)
    requires at < |table| && r in denotes && ResourceAt(table, at) == Some(denotes[r])
    ensures Right(table + [BorrowDef(at)], Borrow(r), Idx(|table|), denotes)
  {
    NewEntry(table, BorrowDef(at));
    ResourceStable(table, table + [BorrowDef(at)], at);
  }

  lemma OwnMeans(table: seq<Entry>, r: Resource, at: nat, denotes: map<Resource, ResourceId>)
    requires at < |table| && r in denotes && ResourceAt(table, at) == Some(denotes[r])
    ensures Right(table + [OwnDef(at)], Own(r), Idx(|table|), denotes)
  {
    NewEntry(table, OwnDef(at));
    ResourceStable(table, table + [OwnDef(at)], at);
  }

  /** An equality bound means what it is bound to. */
  lemma BoundMeans(table: seq<Entry>, name: string, t: Ty, i: nat, denotes: map<Resource, ResourceId>)
    requires Right(table, t, Idx(i), denotes)
    ensures Right(table + [EqBound(name, i)], t, Idx(|table|), denotes)
  {
    NewEntry(table, EqBound(name, i));
    MeaningStable(table, table + [EqBound(name, i)], i);
  }

  lemma AliasNames(table: seq<Entry>, name: string, index: nat)
    ensures ResourceAt(table + [OuterAlias(index), EqBound(name, |table|)], |table| + 1) == Some(Outer(index))
  {
  }

  /** Knowing more resources changes nothing for types that do not use them. */
  lemma {:induction false} RenameStable(t: Ty, denotes: map<Resource, ResourceId>, denotes': map<Resource, ResourceId>)
    requires Encodable(t, denotes.Keys)
    requires forall r :: r in denotes ==> r in denotes' && denotes'[r] == denotes[r]
    ensures Encodable(t, denotes'.Keys) && Rename(t, denotes') == Rename(t, denotes)
    decreases t
  {
    match t
    case Record(fields) =>
      forall k | 0 <= k < |fields|
        ensures Encodable(fields[k].ty, denotes'.Keys) && Rename(fields[k].ty, denotes') == Rename(fields[k].ty, denotes)
      {
        RenameStable(fields[k].ty, denotes, denotes');
      }
    case Tuple(items) =>
      forall k | 0 <= k < |items|
        ensures Encodable(items[k], denotes'.Keys) && Rename(items[k], denotes') == Rename(items[k], denotes)
      {
        RenameStable(items[k], denotes, denotes');
      }
    case Variant(cases) =>
      forall k | 0 <= k < |cases| && cases[k].ty.Some?
        ensures Encodable(cases[k].ty.value, denotes'.Keys)
        ensures Rename(cases[k].ty.value, denotes') == Rename(cases[k].ty.value, denotes)
      {
        RenameStable(cases[k].ty.value, denotes, denotes');
      }
    case Opt(inner) => RenameStable(inner, denotes, denotes');
    case Res(ok, err) =>
      if ok.Some? {
        RenameStable(ok.value, denotes, denotes');
      }
      if err.Some? {
        RenameStable(err.value, denotes, denotes');
      }
    case _ =>
  }

  lemma MemoKnowsMore(table: seq<Entry>, memo: map<Ty, Val>, denotes: map<Resource, ResourceId>,
                      denotes': map<Resource, ResourceId>)
    requires MemoOk(table, memo, denotes)
    requires forall r :: r in denotes ==> r in denotes' && denotes'[r] == denotes[r]
    ensures MemoOk(table, memo, denotes')
  {
    hide Rename, Encodable, Decode;
    forall t | t in memo
      ensures Right(table, t, memo[t], denotes')
    {
      assert Right(table, t, memo[t], denotes);
      RenameStable(t, denotes, denotes');
    }
  }

  // ---- Lists of resources.

  /** Each listed place names its resource. */
  ghost predicate ListOk(table: seq<Entry>, list: seq<(Resource, nat)>, denotes: map<Resource, ResourceId>) {
    forall i :: 0 <= i < |list| ==> Listed(table, list[i], denotes)
  }

  predicate Listed(table: seq<Entry>, entry: (Resource, nat), denotes: map<Resource, ResourceId>) {
    && entry.1 < |table| && entry.0 in denotes
    && ResourceAt(table, entry.1) == Some(denotes[entry.0])
  }

  lemma ListStable(table: seq<Entry>, table': seq<Entry>, list: seq<(Resource, nat)>, denotes: map<Resource, ResourceId>)
    requires ListOk(table, list, denotes) && table <= table'
    ensures ListOk(table', list, denotes)
  {
    hide ResourceAt;
    forall i | 0 <= i < |list|
      ensures Listed(table', list[i], denotes)
    {
      assert Listed(table, list[i], denotes);
      ResourceStable(table, table', list[i].1);
    }
  }

  lemma ListKnowsMore(table: seq<Entry>, list: seq<(Resource, nat)>, denotes: map<Resource, ResourceId>,
                      denotes': map<Resource, ResourceId>)
    requires ListOk(table, list, denotes)
    requires forall r :: r in denotes ==> r in denotes' && denotes'[r] == denotes[r]
    ensures ListOk(table, list, denotes')
  {
    hide ResourceAt;
    forall i | 0 <= i < |list|
      ensures Listed(table, list[i], denotes')
    {
      assert Listed(table, list[i], denotes);
    }
  }

  lemma ListGrows(table: seq<Entry>, table': seq<Entry>, list: seq<(Resource, nat)>, r: Resource, at: nat,
                  denotes: map<Resource, ResourceId>)
    requires ListOk(table, list, denotes) && table <= table'
    requires at < |table| && r in denotes && ResourceAt(table, at) == Some(denotes[r])
    ensures ListOk(table', list + [(r, at)], denotes)
  {
    ListStable(table, table', list, denotes);
    ResourceStable(table, table', at);
    hide ResourceAt;
    forall i | 0 <= i < |list| + 1
      ensures Listed(table', (list + [(r, at)])[i], denotes)
    {
      assert i < |list| ==> Listed(table', list[i], denotes);
    }
  }

  /** The remembered handle types of r are handles of resource id. */
  predicate Handles(table: seq<Entry>, memo: map<Ty, Val>, r: Resource, id: ResourceId) {
    && Own(r) in memo && Decode(table, memo[Own(r)]) == Some(Own(id))
    && Borrow(r) in memo && Decode(table, memo[Borrow(r)]) == Some(Borrow(id))
  }

  lemma RegisteredHandles(table: seq<Entry>, memo: map<Ty, Val>, r: Resource, borrow: nat, own: nat,
                          denotes: map<Resource, ResourceId>)
    requires Right(table, Borrow(r), Idx(borrow), denotes) && Right(table, Own(r), Idx(own), denotes) && r in denotes
    requires Own(r) in memo && memo[Own(r)] == Idx(own) && Borrow(r) in memo && memo[Borrow(r)] == Idx(borrow)
    ensures Handles(table, memo, r, denotes[r])
  {
  }

  /** New resources, each once. */
  predicate Liftable(child: seq<(Resource, nat)>, denotes: map<Resource, ResourceId>) {
    && (forall i :: 0 <= i < |child| ==> child[i].0 !in denotes)
    && (forall i, j :: 0 <= i < j < |child| ==> child[i].0 != child[j].0)
  }

  /** From entry n on, four entries a resource: what the instance exports under its name,
      and an equality bound under its full name, before its handle types. */
  predicate LiftedFrom(table: seq<Entry>, n: nat, child: seq<(Resource, nat)>, instance: nat) {
    && n + 4 * |child| <= |table|
    && forall i :: 0 <= i < |child| ==>
         && table[n + 4 * i] == InstanceExport(instance, child[i].0.name)
         && table[n + 4 * i + 1] == EqBound(child[i].0.fullName, n + 4 * i)
  }

  /** The resources in order, each at the place of its alias. */
  function LiftedAs(child: seq<(Resource, nat)>, n: nat): (r: seq<(Resource, nat)>)
    ensures |r| == |child| && forall i :: 0 <= i < |r| ==> r[i] == (child[i].0, n + 4 * i)
  {
    seq(|child|, i requires 0 <= i < |child| => (child[i].0, n + 4 * i))
  }

  /** The handle types of each resource are handles of what the instance exports. */
  predicate AllHandles(table: seq<Entry>, memo: map<Ty, Val>, child: seq<(Resource, nat)>, instance: nat) {
    forall i :: 0 <= i < |child| ==> Handles(table, memo, child[i].0, FromInstance(instance, child[i].0.name))
  }

  lemma OneMoreLifted(table: seq<Entry>, table': seq<Entry>, n: nat, child: seq<(Resource, nat)>, c: (Resource, nat), instance: nat)
    requires LiftedFrom(table, n, child, instance) && |table| == n + 4 * |child| && |table'| == |table| + 4 && table <= table'
    requires table'[|table|] == InstanceExport(instance, c.0.name) && table'[|table| + 1] == EqBound(c.0.fullName, |table|)
    ensures LiftedFrom(table', n, child + [c], instance)
  {
    var all := child + [c];
    forall i | 0 <= i < |all|
      ensures table'[n + 4 * i] == InstanceExport(instance, all[i].0.name)
      ensures table'[n + 4 * i + 1] == EqBound(all[i].0.fullName, n + 4 * i)
    {
      if i < |child| {
        assert table'[n + 4 * i] == table[n + 4 * i] && table'[n + 4 * i + 1] == table[n + 4 * i + 1] && all[i] == child[i];
      }
    }
  }

  lemma OneMoreListed(child: seq<(Resource, nat)>, c: (Resource, nat), n: nat)
    ensures LiftedAs(child + [c], n) == LiftedAs(child, n) + [(c.0, n + 4 * |child|)]
  {
  }

  lemma HandlesStable(table: seq<Entry>, memo: map<Ty, Val>, table': seq<Entry>, memo': map<Ty, Val>,
                      child: seq<(Resource, nat)>, instance: nat)
    requires AllHandles(table, memo, child, instance) && table <= table' && Extends(memo, memo')
    ensures AllHandles(table', memo', child, instance)
  {
    hide Decode;
    forall i | 0 <= i < |child|
      ensures Handles(table', memo', child[i].0, FromInstance(instance, child[i].0.name))
    {
      assert Handles(table, memo, child[i].0, FromInstance(instance, child[i].0.name));
      DecodeStable(table, table', memo[Own(child[i].0)]);
      DecodeStable(table, table', memo[Borrow(child[i].0)]);
    }
  }

  lemma OneMoreHandled(table: seq<Entry>, memo: map<Ty, Val>, child: seq<(Resource, nat)>, c: (Resource, nat), instance: nat)
    requires AllHandles(table, memo, child, instance) && Handles(table, memo, c.0, FromInstance(instance, c.0.name))
    ensures AllHandles(table, memo, child + [c], instance)
  {
    hide Handles;
  }

  // ---- The builder.

  class TypeBuilder {
    var inner: seq<Entry>
    var encoded: map<Ty, Val>
    var resources: seq<(Resource, nat)>
    const onDemand: map<Resource, nat>
    var importedInterfaces: set<string>
    var instances: seq<nat>
    ghost var denotes: map<Resource, ResourceId>

    ghost predicate Valid()
      reads this
    {
      && MemoOk(inner, encoded, denotes)
      && (forall r :: r in onDemand ==> r in denotes && denotes[r] == Outer(onDemand[r]))
      && (forall r :: Own(r) in encoded <==> Borrow(r) in encoded)
      && (forall r :: r in denotes ==> r in onDemand || Own(r) in encoded)
      && ListOk(inner, resources, denotes)
    }

    /** A world: nothing to inherit. */
    constructor World()
      ensures Valid() && inner == [] && encoded == map[] && resources == [] && denotes == map[] && onDemand == map[]
      ensures instances == [] && importedInterfaces == {}
    {
      inner, encoded, resources, onDemand, denotes := [], map[], [], map[], map[];
      importedInterfaces, instances := {}, [];
    }

    /** An interface: the resources that the world has declared or lifted so far can be
        inherited on demand. */
    constructor Interface(parent: seq<(Resource, nat)>)
      ensures Valid() && inner == [] && encoded == map[] && resources == []
      ensures forall r :: r in onDemand <==> exists i :: 0 <= i < |parent| && parent[i].0 == r
      ensures forall r :: r in onDemand ==> (r, onDemand[r]) in parent
      ensures denotes.Keys == onDemand.Keys && instances == [] && importedInterfaces == {}
    {
      var known: map<Resource, nat> := map[];
      for i := 0 to |parent|
        invariant forall r :: r in known <==> exists j :: 0 <= j < i && parent[j].0 == r
        invariant forall r :: r in known ==> (r, known[r]) in parent
      {
        assert parent[i] in parent;
        known := known[parent[i].0 := parent[i].1];
      }
      inner, encoded, resources, onDemand := [], map[], [], known;
      denotes := map r | r in known :: Outer(known[r]);
      importedInterfaces, instances := {}, [];
    }

    method Append(e: Entry) returns (idx: nat)
      requires Valid()
      modifies `inner
      ensures Valid() && idx == |old(inner)| && inner == old(inner) + [e]
    {
      idx := |inner|;
      inner := inner + [e];
      MemoStable(old(inner), inner, encoded, denotes);
      ListStable(old(inner), inner, resources, denotes);
    }

    method Remember(t: Ty, v: Val)
      requires Valid() && Right(inner, t, v, denotes) && !t.Own? && !t.Borrow?
      modifies `encoded
      ensures Valid() && encoded == old(encoded)[t := v]
    {
      hide Right;
      encoded := encoded[t := v];
    }

    /** Declare borrow and own handle types of a resource entry, and remember them. */
    method RegisterResource(r: Resource, at: nat) returns (borrow: nat, own: nat)
      requires MemoOk(inner, encoded, denotes) && at < |inner| && r in denotes && ResourceAt(inner, at) == Some(denotes[r])
      modifies `inner, `encoded
      ensures MemoOk(inner, encoded, denotes) && inner == old(inner) + [BorrowDef(at), OwnDef(at)]
      ensures borrow == |old(inner)| && own == |old(inner)| + 1
      ensures encoded == old(encoded)[Borrow(r) := Idx(borrow)][Own(r) := Idx(own)]
      ensures Right(inner, Borrow(r), Idx(borrow), denotes) && Right(inner, Own(r), Idx(own), denotes)
    {
      hide Right;
      ghost var table := inner;
      borrow := |inner|;
      inner := inner + [BorrowDef(at)];
      BorrowMeans(table, r, at, denotes);
      ResourceStable(table, inner, at);
      ghost var middle := inner;
      own := |inner|;
      inner := inner + [OwnDef(at)];
      OwnMeans(middle, r, at, denotes);
      RightStable(middle, inner, Borrow(r), Idx(borrow), denotes);
      MemoStable(table, inner, encoded, denotes);
      encoded := encoded[Borrow(r) := Idx(borrow)][Own(r) := Idx(own)];
    }

    /** A new resource type, under a name not used before. */
    method FreshResource(r: Resource)
      requires Valid() && r !in denotes
      modifies `inner, `encoded, `resources, `denotes
      ensures var n := |old(inner)|;
              && Valid() && inner == old(inner) + [SubResource(r.name), BorrowDef(n), OwnDef(n)]
              && resources == old(resources) + [(r, n)] && denotes == old(denotes)[r := Declared(n, r.name)]
      ensures Handles(inner, encoded, r, Declared(|old(inner)|, r.name))
    {
      hide Right, Rename, Encodable;
      var idx := Append(SubResource(r.name));
      ghost var before := denotes;
      denotes := denotes[r := Declared(idx, r.name)];
      MemoKnowsMore(inner, encoded, before, denotes);
      ListKnowsMore(inner, resources, before, denotes);
      ghost var table := inner;
      var borrow, own := RegisterResource(r, idx);
      resources := resources + [(r, idx)];
      ListGrows(table, inner, old(resources), r, idx, denotes);
      RegisteredHandles(inner, encoded, r, borrow, own, denotes);
      assert inner == old(inner) + [SubResource(r.name), BorrowDef(idx), OwnDef(idx)];
    }

    /** Bring a resource of the world into this interface. */
    method InheritResource(r: Resource) returns (borrow: nat, own: nat)
      requires Valid() && r in onDemand && Own(r) !in encoded
      modifies `inner, `encoded
      ensures Valid() && old(inner) <= inner && Extends(old(encoded), encoded)
      ensures var n := |old(inner)|;
              inner == old(inner) + [OuterAlias(onDemand[r]), EqBound(r.fullName, n), BorrowDef(n + 1), OwnDef(n + 1)]
      ensures encoded == old(encoded)[Borrow(r) := Idx(borrow)][Own(r) := Idx(own)]
      ensures Right(inner, Borrow(r), Idx(borrow), denotes) && Right(inner, Own(r), Idx(own), denotes)
    {
      hide Right, Rename, Encodable;
      var aliasIdx := Append(OuterAlias(onDemand[r]));
      var equalityIdx := Append(EqBound(r.fullName, aliasIdx));
      AliasNames(old(inner), r.fullName, onDemand[r]);
      assert inner == old(inner) + [OuterAlias(onDemand[r]), EqBound(r.fullName, |old(inner)|)];
      ghost var table := inner;
      borrow, own := RegisterResource(r, equalityIdx);
      ListStable(table, inner, resources, denotes);
      assert inner == old(inner) + [OuterAlias(onDemand[r]), EqBound(r.fullName, aliasIdx), BorrowDef(equalityIdx), OwnDef(equalityIdx)];
    }

    /** The index of a type: remembered, or newly declared from its parts. */
    method EncodeValue(t: Ty) returns (v: Val)
      requires Valid() && Encodable(t, denotes.Keys)
      modifies `inner, `encoded
      ensures Valid() && old(inner) <= inner && Extends(old(encoded), encoded)
      ensures t in encoded && encoded[t] == v && Right(inner, t, v, denotes)
      decreases t, 1
    {
      hide Right, Rename, MemoOk;
      if t in encoded {
        MemoAt(inner, encoded, denotes, t);
        return encoded[t];
      }
      match t {
        case Primitive(p) =>
          v := Prim(p);
          PrimRight(inner, p, denotes);
        case Record(fields) =>
          var vals := EncodeFields(t, fields);
          RecordMeans(inner, fields, vals, denotes);
          var idx := Append(RecordDef(vals));
          v := Idx(idx);
        case Tuple(items) =>
          var vals := EncodeItems(t, items);
          TupleMeans(inner, items, vals, denotes);
          var idx := Append(TupleDef(vals));
          v := Idx(idx);
        case Variant(cases) =>
          var vals := EncodeCases(t, cases);
          VariantMeans(inner, cases, vals, denotes);
          var idx := Append(VariantDef(vals));
          v := Idx(idx);
        case Opt(inner0) =>
          var innerVal := EncodeValue(inner0);
          OptionMeans(inner, inner0, innerVal, denotes);
          var idx := Append(OptionDef(innerVal));
          v := Idx(idx);
        case Res(ok, err) =>
          var okVal := EncodeOption(t, ok);
          ghost var table := inner;
          var errVal := EncodeOption(t, err);
          OptRightStable(table, inner, ok, okVal, denotes);
          ResultMeans(inner, ok, err, okVal, errVal, denotes);
          var idx := Append(ResultDef(okVal, errVal));
          v := Idx(idx);
        case Own(r) =>
          var borrow, own := InheritResource(r);
          return Idx(own);
        case Borrow(r) =>
          var borrow, own := InheritResource(r);
          return Idx(borrow);
      }
      Remember(t, v);
    }

    method EncodeFields(ghost t: Ty, fields: seq<Field<Resource>>) returns (vals: seq<VField>)
      requires Valid() && t == Record(fields) && Encodable(t, denotes.Keys)
      modifies `inner, `encoded
      ensures Valid() && old(inner) <= inner && Extends(old(encoded), encoded)
      ensures |vals| == |fields| && FieldVals(inner, fields, vals, denotes, |fields|)
      decreases t, 0
    {
      hide Right, Rename, MemoOk;
      vals := [];
      for k := 0 to |fields|
        invariant Valid() && old(inner) <= inner && Extends(old(encoded), encoded)
        invariant |vals| == k && FieldVals(inner, fields, vals, denotes, k)
      {
        ghost var table := inner;
        var v := EncodeValue(fields[k].ty);
        FieldValsStable(table, inner, fields, vals, denotes, k);
        RightParts(inner, fields[k].ty, v, denotes);
        vals := vals + [VField(fields[k].name, v)];
      }
    }

    method EncodeItems(ghost t: Ty, items: seq<Ty>) returns (vals: seq<Val>)
      requires Valid() && t == Tuple(items) && Encodable(t, denotes.Keys)
      modifies `inner, `encoded
      ensures Valid() && old(inner) <= inner && Extends(old(encoded), encoded)
      ensures |vals| == |items| && ItemVals(inner, items, vals, denotes, |items|)
      decreases t, 0
    {
      hide Right, Rename, MemoOk;
      vals := [];
      for k := 0 to |items|
        invariant Valid() && old(inner) <= inner && Extends(old(encoded), encoded)
        invariant |vals| == k && ItemVals(inner, items, vals, denotes, k)
      {
        ghost var table := inner;
        var v := EncodeValue(items[k]);
        ItemValsStable(table, inner, items, vals, denotes, k);
        RightParts(inner, items[k], v, denotes);
        vals := vals + [v];
      }
    }

    method EncodeCases(ghost t: Ty, cases: seq<Case<Resource>>) returns (vals: seq<VCase>)
      requires Valid() && t == Variant(cases) && Encodable(t, denotes.Keys)
      modifies `inner, `encoded
      ensures Valid() && old(inner) <= inner && Extends(old(encoded), encoded)
      ensures |vals| == |cases| && CaseVals(inner, cases, vals, denotes, |cases|)
      decreases t, 0
    {
      hide Right, Rename, MemoOk, OptRight;
      vals := [];
      for k := 0 to |cases|
        invariant Valid() && old(inner) <= inner && Extends(old(encoded), encoded)
        invariant |vals| == k && CaseVals(inner, cases, vals, denotes, k)
      {
        ghost var table := inner;
        var payload: Option<Val> := None;
        if cases[k].ty.Some? {
          var v := EncodeValue(cases[k].ty.value);
          payload := Some(v);
        }
        CaseValsStable(table, inner, cases, vals, denotes, k);
        IsOptRight(inner, cases[k].ty, payload, denotes);
        vals := vals + [VCase(cases[k].name, payload)];
      }
    }

    method EncodeOption(ghost whole: Ty, t: Option<Ty>) returns (v: Option<Val>)
      requires Valid() && whole.Res? && (t == whole.ok || t == whole.err) && (t.Some? ==> Encodable(t.value, denotes.Keys))
      modifies `inner, `encoded
      ensures Valid() && old(inner) <= inner && Extends(old(encoded), encoded)
      ensures OptRight(inner, t, v, denotes)
      decreases whole, 0
    {
      hide Right, Rename, MemoOk, OptRight;
      v := None;
      if t.Some? {
        var val := EncodeValue(t.value);
        v := Some(val);
      }
      IsOptRight(inner, t, v, denotes);
    }

    /** Declare a named type; later uses get the named entry. */
    method ExportTy(name: string, t: Ty)
      requires Valid() && Encodable(t, denotes.Keys) && !t.Primitive?
      modifies `inner, `encoded
      ensures Valid() && old(inner) < inner && t in encoded && encoded[t] == Idx(|inner| - 1)
      ensures inner[|inner| - 1].EqBound? && inner[|inner| - 1].name == name
      ensures forall u :: u in old(encoded) && u != t ==> u in encoded && encoded[u] == old(encoded)[u]
    {
      hide Right, Rename, MemoOk;
      var v := EncodeValue(t);
      NotPrimitive(inner, t, v, denotes);
      BoundMeans(inner, name, t, v.i, denotes);
      var newIdx := Append(EqBound(name, v.i));
      ghost var memo := encoded;
      encoded := encoded[t := Idx(newIdx)];
      MemoWith(inner, memo, t, Idx(newIdx), denotes);
    }

    /** Declare a function type from a signature. */
    method EncodeFunc(params: seq<Field<Resource>>, result: Option<Ty>) returns (idx: nat)
      requires Valid() && Encodable(Record(params), denotes.Keys) && (result.Some? ==> Encodable(result.value, denotes.Keys))
      modifies `inner, `encoded
      ensures Valid() && old(inner) < inner && idx == |inner| - 1 && inner[idx].FuncDef?
      ensures |inner[idx].params| == |params| && FieldVals(inner, params, inner[idx].params, denotes, |params|)
      ensures OptRight(inner, result, inner[idx].result, denotes)
    {
      hide Right, Rename, MemoOk, OptRight;
      var vals := EncodeFields(Record(params), params);
      ghost var table := inner;
      var r: Option<Val> := None;
      if result.Some? {
        var v := EncodeValue(result.value);
        r := Some(v);
      }
      IsOptRight(inner, result, r, denotes);
      ghost var table' := inner;
      idx := Append(FuncDef(vals, r));
      FieldValsStable(table, inner, params, vals, denotes, |params|);
      OptRightStable(table', inner, result, r, denotes);
    }

    /** Import an interface into the world, as its next instance, with all the resources
        that it declares. */
    method ImportInterface(name: string, child: TypeBuilder) returns (idx: nat)
      requires Valid() && child != this && name !in importedInterfaces && Liftable(child.resources, denotes)
      modifies this
      ensures Valid() && importedInterfaces == old(importedInterfaces) + {name} && instances == old(instances) + [idx]
      ensures idx == |old(inner)| < |inner| && old(inner) <= inner && inner[idx] == InstanceDef(child.inner)
      ensures LiftedFrom(inner, idx + 1, child.resources, |old(instances)|) && |inner| == idx + 1 + 4 * |child.resources|
      ensures resources == old(resources) + LiftedAs(child.resources, idx + 1)
      ensures AllHandles(inner, encoded, child.resources, |old(instances)|)
      ensures Extends(old(encoded), encoded)
    {
      hide Right, Rename, MemoOk, Encodable, ListOk, Handles;
      idx := Append(InstanceDef(child.inner));
      var instanceIdx := |instances|;
      instances := instances + [idx];
      importedInterfaces := importedInterfaces + {name};
      LiftResources(child.resources, instanceIdx);
    }

    /** Bring the resources that an imported interface declares into the world. */
    method LiftResources(child: seq<(Resource, nat)>, instance: nat)
      requires Valid() && Liftable(child, denotes)
      modifies `inner, `encoded, `resources, `denotes
      ensures Valid() && old(inner) <= inner && Extends(old(encoded), encoded)
      ensures LiftedFrom(inner, |old(inner)|, child, instance) && |inner| == |old(inner)| + 4 * |child|
      ensures resources == old(resources) + LiftedAs(child, |old(inner)|)
      ensures AllHandles(inner, encoded, child, instance)
      ensures forall r :: r in old(denotes) ==> r in denotes && denotes[r] == old(denotes)[r]
    {
      hide Right, Rename, MemoOk, Encodable, ListOk, Handles, LiftedFrom, LiftedAs, AllHandles, Extends;
      NothingLifted(inner, encoded, instance);
      assert child[..0] == [] && resources + [] == resources;
      for i := 0 to |child|
        invariant Valid() && old(inner) <= inner && Extends(old(encoded), encoded)
        invariant forall r :: r in denotes <==> r in old(denotes) || exists j :: 0 <= j < i && child[j].0 == r
        invariant forall r :: r in old(denotes) ==> denotes[r] == old(denotes)[r]
        invariant LiftedFrom(inner, |old(inner)|, child[..i], instance) && |inner| == |old(inner)| + 4 * i
        invariant resources == old(resources) + LiftedAs(child[..i], |old(inner)|)
        invariant AllHandles(inner, encoded, child[..i], instance)
      {
        ghost var table, memo, listed := inner, encoded, LiftedAs(child[..i], |old(inner)|);
        LiftOne(child[i].0, instance);
        ExtendsTwice(old(encoded), memo, encoded);
        assert child[..i + 1] == child[..i] + [child[i]];
        assert resources == old(resources) + (listed + [(child[i].0, |table|)]);
        OneMoreLifted(table, inner, |old(inner)|, child[..i], child[i], instance);
        OneMoreListed(child[..i], child[i], |old(inner)|);
        HandlesStable(table, memo, inner, encoded, child[..i], instance);
        OneMoreHandled(inner, encoded, child[..i], child[i], instance);
      }
      assert child[..|child|] == child;
    }

    /** The four entries of one such resource. */
    method LiftOne(r: Resource, instance: nat)
      requires Valid() && r !in denotes
      modifies `inner, `encoded, `resources, `denotes
      ensures var n := |old(inner)|;
              && Valid()
              && inner == old(inner) + [InstanceExport(instance, r.name), EqBound(r.fullName, n), BorrowDef(n + 1), OwnDef(n + 1)]
              && resources == old(resources) + [(r, n)]
              && denotes == old(denotes)[r := FromInstance(instance, r.name)]
      ensures Extends(old(encoded), encoded) && Handles(inner, encoded, r, FromInstance(instance, r.name))
    {
      hide Right, Rename, Encodable;
      NotYetKnown(inner, encoded, denotes, r);
      var aliasIdx := Append(InstanceExport(instance, r.name));
      ghost var before := denotes;
      denotes := denotes[r := FromInstance(instance, r.name)];
      MemoKnowsMore(inner, encoded, before, denotes);
      ListKnowsMore(inner, resources, before, denotes);
      ghost var table := inner;
      MemoStable(inner, inner + [EqBound(r.fullName, aliasIdx)], encoded, denotes);
      inner := inner + [EqBound(r.fullName, aliasIdx)];
      var borrow, own := RegisterResource(r, aliasIdx + 1);
      resources := resources + [(r, aliasIdx)];
      ListGrows(table, inner, old(resources), r, aliasIdx, denotes);
      RegisteredHandles(inner, encoded, r, borrow, own, denotes);
      assert inner == old(inner) + [InstanceExport(instance, r.name), EqBound(r.fullName, aliasIdx),
                                    BorrowDef(aliasIdx + 1), OwnDef(aliasIdx + 1)];
    }
  }

  // ---- Small facts.

  lemma NothingLifted(table: seq<Entry>, memo: map<Ty, Val>, instance: nat)
    ensures LiftedFrom(table, |table|, [], instance) && LiftedAs([], |table|) == [] && AllHandles(table, memo, [], instance)
    ensures Extends(memo, memo)
  {
  }

  lemma ExtendsTwice(a: map<Ty, Val>, b: map<Ty, Val>, c: map<Ty, Val>)
    requires Extends(a, b) && Extends(b, c)
    ensures Extends(a, c)
  {
  }

  lemma MemoAt(table: seq<Entry>, memo: map<Ty, Val>, denotes: map<Resource, ResourceId>, t: Ty)
    requires MemoOk(table, memo, denotes) && t in memo
    ensures Right(table, t, memo[t], denotes)
  {
    hide Right;
  }

  lemma MemoWith(table: seq<Entry>, memo: map<Ty, Val>, t: Ty, v: Val, denotes: map<Resource, ResourceId>)
    requires MemoOk(table, memo, denotes) && Right(table, t, v, denotes)
    ensures MemoOk(table, memo[t := v], denotes)
  {
    hide Right;
  }

  lemma NotYetKnown(table: seq<Entry>, memo: map<Ty, Val>, denotes: map<Resource, ResourceId>, r: Resource)
    requires MemoOk(table, memo, denotes) && r !in denotes
    ensures Own(r) !in memo && Borrow(r) !in memo
  {
    forall t | t in memo
      ensures t != Own(r) && t != Borrow(r)
    {
      MemoAt(table, memo, denotes, t);
    }
  }

  lemma RightParts(table: seq<Entry>, t: Ty, v: Val, denotes: map<Resource, ResourceId>)
    requires Right(table, t, v, denotes)
    ensures Encodable(t, denotes.Keys) && Decode(table, v) == Some(Rename(t, denotes))
  {
  }

  lemma PrimRight(table: seq<Entry>, p: Prim, denotes: map<Resource, ResourceId>)
    ensures Right(table, Primitive(p), Prim(p), denotes)
  {
  }

  lemma NotPrimitive(table: seq<Entry>, t: Ty, v: Val, denotes: map<Resource, ResourceId>)
    requires Right(table, t, v, denotes) && !t.Primitive?
    ensures v.Idx?
  {
  }

  lemma IsOptRight(table: seq<Entry>, t: Option<Ty>, v: Option<Val>, denotes: map<Resource, ResourceId>)
    requires t.Some? <==> v.Some?
    requires t.Some? ==> Right(table, t.value, v.value, denotes)
    ensures OptRight(table, t, v, denotes)
  {
  }

  lemma OptRightStable(table: seq<Entry>, table': seq<Entry>, t: Option<Ty>, v: Option<Val>, denotes: map<Resource, ResourceId>)
    requires OptRight(table, t, v, denotes) && table <= table'
    ensures OptRight(table', t, v, denotes)
  {
    if t.Some? {
      DecodeStable(table, table', v.value);
    }
  }

  lemma FieldValsStable(table: seq<Entry>, table': seq<Entry>, fields: seq<Field<Resource>>, vals: seq<VField>,
                        denotes: map<Resource, ResourceId>, n: nat)
    requires FieldVals(table, fields, vals, denotes, n) && table <= table'
    ensures FieldVals(table', fields, vals, denotes, n)
  {
    hide Decode, Rename, Encodable;
    forall k | 0 <= k < n
      ensures FieldRight(table', fields[k], vals[k], denotes)
    {
      DecodeStable(table, table', vals[k].val);
    }
  }

  lemma ItemValsStable(table: seq<Entry>, table': seq<Entry>, items: seq<Ty>, vals: seq<Val>,
                       denotes: map<Resource, ResourceId>, n: nat)
    requires ItemVals(table, items, vals, denotes, n) && table <= table'
    ensures ItemVals(table', items, vals, denotes, n)
  {
    hide Decode, Rename, Encodable;
    forall k | 0 <= k < n
      ensures Decode(table', vals[k]) == Decode(table, vals[k])
    {
      DecodeStable(table, table', vals[k]);
    }
  }

  lemma CaseValsStable(table: seq<Entry>, table': seq<Entry>, cases: seq<Case<Resource>>, vals: seq<VCase>,
                       denotes: map<Resource, ResourceId>, n: nat)
    requires CaseVals(table, cases, vals, denotes, n) && table <= table'
    ensures CaseVals(table', cases, vals, denotes, n)
  {
    hide OptRight;
    forall k | 0 <= k < n
      ensures OptRight(table', cases[k].ty, vals[k].val, denotes)
    {
      OptRightStable(table, table', cases[k].ty, vals[k].val, denotes);
    }
  }
}
