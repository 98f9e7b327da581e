/** One case of an enum switch: its payload is demoted from the joined slots into
    locals of its own (`demote_enum_fields` in `lib.rs`). */
module EnumBranch {
  import opened Options
  import opened StarTypes
  import opened DecisionTree
  import opened FirstMatch
  import opened Wasm
  import opened Flatten
  import opened EnumEncoding
  import opened Columns
  import opened Ir
  import opened FuncRun
  import opened MatchSpec
  import opened MatchCode

  /** All the copying of one case: payload slots follow the discriminant. */
  function DemoteCode(base: nat, fresh0: nat, joined: seq<ValType>, ts: seq<ValType>): seq<Instr>
    requires |ts| <= |joined|
  {
    CopyCode(base + 1, fresh0, joined, ts, |ts|)
  }

  lemma EnumFlat(v: Value, t: Type, k: nat)
    requires HasType(v, t) && HeadOf(v) == Some(EnumVariant(k))
    ensures t.Enum? && k < |t.variants| && HaveTypes(Args(v), PayloadTypes(t.variants[k]))
    ensures FlatV(v, t)
         == [W32(k % TWO32)] + PromoteAll(FlatAll(Args(v), PayloadTypes(t.variants[k])), JoinVariants(t.variants))
    ensures |CoreTypes(t)| == 1 + |JoinVariants(t.variants)|
  {
  }

  /** The parts of an enum value in its locals. */
  lemma EnumParts(locals: seq<Slot>, base: nat, v: Value, t: Type, k: nat)
    requires HasType(v, t) && HeadOf(v) == Some(EnumVariant(k)) && Holds(locals, base, FlatV(v, t))
    ensures t.Enum? && k < |t.variants| && HaveTypes(Args(v), PayloadTypes(t.variants[k]))
    ensures Holds(locals, base + 1, PromoteAll(FlatAll(Args(v), PayloadTypes(t.variants[k])), JoinVariants(t.variants)))
    ensures OfTypes(PromoteAll(FlatAll(Args(v), PayloadTypes(t.variants[k])), JoinVariants(t.variants)),
                    JoinVariants(t.variants))
    ensures Bounds(JoinVariants(t.variants), CasePayload(t.variants[k]))
    ensures CasePayload(t.variants[k]) == CoreTypesAll(PayloadTypes(t.variants[k]))
    ensures OfTypes(FlatAll(Args(v), PayloadTypes(t.variants[k])), CasePayload(t.variants[k]))
    ensures base + 1 + |JoinVariants(t.variants)| == base + |CoreTypes(t)|
  {
    EnumFlat(v, t, k);
    var fts, joined := PayloadTypes(t.variants[k]), JoinVariants(t.variants);
    var promoted := PromoteAll(FlatAll(Args(v), fts), joined);
    hide *;
    HoldsConcat(locals, base, [W32(k % TWO32)], promoted);
    JoinBounds(t.variants, k);
    JoinedNoFloat(t.variants);
    CasePayloadIs(t.variants[k]);
    FlatAllTyped(Args(v), fts);
    PromotedTyped(FlatAll(Args(v), fts), CasePayload(t.variants[k]), joined);
  }

  /** Demotion leaves the payload's own slots in the new locals. */
  lemma PayloadCopied(base: nat, n0: nat, v: Value, t: Type, k: nat, st: State, types: seq<ValType>)
    requires HasType(v, t) && HeadOf(v) == Some(EnumVariant(k)) && t.Enum? && k < |t.variants|
    requires Holds(st.locals, base, FlatV(v, t)) && TypedLocals(st.locals, types)
    requires base + |CoreTypes(t)| <= n0 && n0 + |CasePayload(t.variants[k])| <= |types|
    requires types[n0..n0 + |CasePayload(t.variants[k])|] == CasePayload(t.variants[k])
    ensures HaveTypes(Args(v), PayloadTypes(t.variants[k]))
    ensures |FlatAll(Args(v), PayloadTypes(t.variants[k]))| == |CasePayload(t.variants[k])|
    ensures |CasePayload(t.variants[k])| <= |JoinVariants(t.variants)|
    ensures Exec(DemoteCode(base, n0, JoinVariants(t.variants), CasePayload(t.variants[k])), st)
         == Some(st.(locals := Written(st.locals, n0, FlatAll(Args(v), PayloadTypes(t.variants[k])))))
    ensures TypedLocals(Written(st.locals, n0, FlatAll(Args(v), PayloadTypes(t.variants[k]))), types)
  {
    EnumParts(st.locals, base, v, t, k);
    var joined, ts := JoinVariants(t.variants), CasePayload(t.variants[k]);
    var slots := FlatAll(Args(v), PayloadTypes(t.variants[k]));
    hide *;
    SlotsDemoted(base, n0, slots, joined, ts, types, st);
  }

  lemma SlotsDemoted(base: nat, n0: nat, slots: seq<Slot>, joined: seq<ValType>, ts: seq<ValType>, types: seq<ValType>,
                     st: State)
    requires OfTypes(slots, ts) && Bounds(joined, ts) && OfTypes(PromoteAll(slots, joined), joined)
    requires Holds(st.locals, base + 1, PromoteAll(slots, joined)) && TypedLocals(st.locals, types)
    requires base + 1 + |joined| <= n0 && n0 + |ts| <= |types| && types[n0..n0 + |ts|] == ts
    ensures |slots| == |ts| <= |joined| && n0 + |ts| <= |st.locals|
    ensures Exec(DemoteCode(base, n0, joined, ts), st) == Some(st.(locals := Written(st.locals, n0, slots)))
    ensures TypedLocals(Written(st.locals, n0, slots), types)
  {
    var promoted := PromoteAll(slots, joined);
    WrittenTyped(st.locals, types, n0, slots, ts);
    DemotePromoted(slots, ts, joined);
    assert DemoteAll(promoted, ts)[..|ts|] == slots;
    hide Holds, PromoteAll, DemoteAll, Settable, Exec, Written;
    CopyRuns(base + 1, n0, joined, ts, |ts|, promoted, st);
  }

  /** After demotion the case's columns are laid out. */
  lemma DemotedLaid(cols: seq<Col>, col: nat, n0: nat, fts: seq<Type>, vs: seq<Value>, locals: seq<Slot>)
    requires HaveTypes(vs, ColTypes(cols)) && Laid(cols, vs, locals) && col < |cols|
    requires ColsIn(cols, n0) && HaveTypes(Args(vs[col]), fts)
    requires n0 + |FlatAll(Args(vs[col]), fts)| <= |locals|
    ensures HaveTypes(Splice(vs, col, Args(vs[col])), ColTypes(Splice(cols, col, FieldCols(n0, fts))))
    ensures ColTypes(Splice(cols, col, FieldCols(n0, fts))) == Splice(ColTypes(cols), col, fts)
    ensures Laid(Splice(cols, col, FieldCols(n0, fts)), Splice(vs, col, Args(vs[col])),
                 Written(locals, n0, FlatAll(Args(vs[col]), fts)))
  {
    var args := Args(vs[col]);
    var slots := FlatAll(args, fts);
    var locals' := Written(locals, n0, slots);
    assert Holds(locals', n0, slots);
    HoldsKept(cols, vs, locals, locals', n0);
    hide HasType, FlatV, FlatAll, Holds, Written, Args, Splice, FieldCols, Laid;
    FieldsLaid(locals', n0, args, fts);
    SpliceValues(vs, ColTypes(cols), col, args, fts);
    SpliceColTypes(cols, col, FieldCols(n0, fts));
    SpliceLaid(cols, vs, col, FieldCols(n0, fts), args, locals');
  }

  /** A block that demotes the payload and then decides on the fields is right
      for the case. */
  lemma EnumCase(types0: seq<ValType>, types: seq<ValType>, blocks: seq<BasicBlock>, t: nat, cols: seq<Col>, col: nat,
                 c: Case, k: nat, q: nat, last: nat, mode: Mode, n: nat, vs: seq<Value>, st: State)
    requires col < |cols| && cols[col].ty.Enum? && k < |cols[col].ty.variants| && c.ctor == EnumVariant(k)
    requires ColsIn(cols, |types0|) && n <= |types0|
    requires types0 + CasePayload(cols[col].ty.variants[k]) <= types
    requires |CasePayload(cols[col].ty.variants[k])| <= |JoinVariants(cols[col].ty.variants)|
    requires t < |blocks| && q <= |blocks[t].instructions|
    requires blocks[t].instructions[..q]
          == DemoteCode(cols[col].local, |types0|, JoinVariants(cols[col].ty.variants), CasePayload(cols[col].ty.variants[k]))
    requires Decides(types, blocks, t, q, Splice(cols, col, FieldCols(|types0|, PayloadTypes(cols[col].ty.variants[k]))),
                     c.tree, last, mode, |types0|)
    requires Premises(types, cols, vs, st) && HeadOf(vs[col]) == Some(c.ctor)
    ensures EndsAs(RunFrom(blocks, t, 0, st, last), st, WalkCase(c, vs, ColTypes(cols), col), mode, n)
  {
    var ts, ty, n0 := ColTypes(cols), cols[col].ty, |types0|;
    var fts := PayloadTypes(ty.variants[k]);
    assert types[n0..n0 + |CasePayload(ty.variants[k])|] == CasePayload(ty.variants[k]);
    assert HasType(vs[col], ts[col]) && Holds(st.locals, cols[col].local, FlatV(vs[col], ty));
    PayloadCopied(cols[col].local, n0, vs[col], ty, k, st, types);
    DemotedLaid(cols, col, n0, fts, vs, st.locals);
    var mid := st.(locals := Written(st.locals, n0, FlatAll(Args(vs[col]), fts)));
    assert FieldTypes(c.ctor, ts[col]) == fts;
    assert WalkCase(c, vs, ts, col) == Walk(c.tree, Splice(vs, col, Args(vs[col])), Splice(ts, col, fts));
    var o := WalkCase(c, vs, ts, col);
    hide EndsAs, Walk, WalkCase, RunFrom, TypedLocals, Laid, HasType, FlatV, FlatAll, Holds, Splice, FieldCols, Decides, Exec,
         DemoteCode, CasePayload, JoinVariants;
    assert blocks[t].instructions[0..q] == blocks[t].instructions[..q];
    RunSplit(blocks, t, 0, q, st, mid, last);
    DecidesAt(types, blocks, t, q, Splice(cols, col, FieldCols(n0, fts)), c.tree, last, mode, n0,
              Splice(vs, col, Args(vs[col])), mid);
    EndsEarlier(RunFrom(blocks, t, q, mid, last), st, mid, o, mode, n, n0);
  }

  lemma EnumBranches(types0: seq<ValType>, types: seq<ValType>, blocks: seq<BasicBlock>, t: nat, cols: seq<Col>, col: nat,
                     c: Case, k: nat, q: nat, last: nat, mode: Mode, n: nat)
    requires col < |cols| && cols[col].ty.Enum? && k < |cols[col].ty.variants| && c.ctor == EnumVariant(k)
    requires ColsIn(cols, |types0|) && n <= |types0|
    requires types0 + CasePayload(cols[col].ty.variants[k]) <= types
    requires |CasePayload(cols[col].ty.variants[k])| <= |JoinVariants(cols[col].ty.variants)|
    requires t < |blocks| && q <= |blocks[t].instructions|
    requires blocks[t].instructions[..q]
          == DemoteCode(cols[col].local, |types0|, JoinVariants(cols[col].ty.variants), CasePayload(cols[col].ty.variants[k]))
    requires Decides(types, blocks, t, q, Splice(cols, col, FieldCols(|types0|, PayloadTypes(cols[col].ty.variants[k]))),
                     c.tree, last, mode, |types0|)
    ensures Branches(types, blocks, t, cols, col, c, last, mode, n)
  {
    hide EndsAs, WalkCase, RunFrom, TypedLocals, Laid, HasType, Splice, FieldCols, Decides, DemoteCode, CasePayload, JoinVariants;
    forall vs, st
      ensures BranchOn(types, blocks, t, cols, col, c, last, mode, n, vs, st)
    {
      if Premises(types, cols, vs, st) && HeadOf(vs[col]) == Some(c.ctor) {
        EnumCase(types0, types, blocks, t, cols, col, c, k, q, last, mode, n, vs, st);
      }
    }
  }
}
