/** Emission of a decision tree into a function under construction (`lib.rs`). */
module MatchEmit {
  import opened ControlFlow
  import opened StarTypes
  import opened DecisionTree
  import opened Wasm
  import opened Flatten
  import opened Columns
  import opened Ir
  import opened EnumBranch
  import opened Emission

  /** A function whose locals and blocks are added bit by bit. */
  class StFunction {
    const params: seq<ValType>
    var locals: seq<ValType>
    var numLocals: nat
    const cfg: ControlFlowGraph

    ghost predicate Valid()
      reads this, cfg
    {
      cfg.Valid() && numLocals == |params| + |locals|
    }

    /** Types of all locals by index: parameters first. */
    function Types(): seq<ValType>
      reads this
    {
      params + locals
    }

    constructor (params: seq<ValType>)
      ensures Valid() && Types() == params && cfg.blocks == [] && fresh(cfg)
    {
      this.params, locals, numLocals := params, [], |params|;
      cfg := new ControlFlowGraph();
    }

    /** Declare more locals; the result is the index of the first. */
    method AddLocals(types: seq<ValType>) returns (id: nat)
      requires Valid()
      modifies `locals, `numLocals
      ensures Valid() && id == old(|Types()|) && Types() == old(Types()) + types
    {
      id := numLocals;
      for i := 0 to |types|
        invariant numLocals == |params| + |locals|
        invariant locals == old(locals) + types[..i]
      {
        numLocals := numLocals + 1;
        locals := locals + [types[i]];
      }
      assert types[..|types|] == types;
    }
  }

  // ---- Steps on one block.

  method WriteCode(func: StFunction, bb: nat, code: seq<Instr>)
    requires func.Valid() && IsOpen(func.cfg.blocks, bb)
    modifies func.cfg
    ensures func.Valid() && Wrote(old(func.cfg.blocks), func.cfg.blocks, bb, code)
  {
    func.cfg.Write(bb, code);
  }

  /** Add code and finish the block. */
  method Finish(func: StFunction, bb: nat, code: seq<Instr>, out: Out, last: nat)
    requires func.Valid() && IsOpen(func.cfg.blocks, bb) && (out == Next(last) || out == Unreachable)
    requires last < |func.cfg.blocks| && last != bb && !func.cfg.blocks[last].sealed
    modifies func.cfg
    ensures func.Valid() && Filled(old(func.cfg.blocks), func.cfg.blocks, bb, code, out)
  {
    func.cfg.Write(bb, code);
    func.cfg.Fill(bb, out);
  }

  /** Add a test; branch to two new blocks. */
  method Fork(func: StFunction, cur: nat, test: seq<Instr>) returns (bbTrue: nat, bbFalse: nat)
    requires func.Valid() && IsOpen(func.cfg.blocks, cur)
    modifies func.cfg
    ensures func.Valid() && Forked(old(func.cfg.blocks), func.cfg.blocks, cur, test)
    ensures bbTrue == old(|func.cfg.blocks|) && bbFalse == bbTrue + 1
  {
    func.cfg.Write(cur, test);
    bbTrue := func.cfg.AddBlock();
    bbFalse := func.cfg.AddBlock();
    func.cfg.Fill(cur, If(bbFalse, bbTrue));
    func.cfg.Seal(bbTrue);
    func.cfg.Seal(bbFalse);
  }

  // ---- Columns.

  /** The columns of a struct's fields inside the struct's own column. */
  method ExpandColLocalsForStruct(cols: seq<Col>, column: nat, base: nat, fieldTypes: seq<Type>) returns (result: seq<Col>)
    requires column < |cols|
    ensures result == Splice(cols, column, FieldCols(base, fieldTypes))
  {
    var fields: seq<Col> := [];
    var offset := base;
    for i := 0 to |fieldTypes|
      invariant fields == FieldCols(base, fieldTypes[..i])
      invariant offset == base + |CoreTypesAll(fieldTypes[..i])|
    {
      FieldsSnoc(base, fieldTypes, i);
      fields := fields + [Col(offset, fieldTypes[i])];
      offset := offset + CountCoreTypes(fieldTypes[i]);
    }
    assert fieldTypes[..|fieldTypes|] == fieldTypes;
    result := cols[..column] + fields + cols[column + 1..];
  }

  lemma FieldsSnoc(base: nat, ts: seq<Type>, i: nat)
    requires i < |ts|
    ensures FieldCols(base, ts[..i + 1]) == FieldCols(base, ts[..i]) + [Col(base + |CoreTypesAll(ts[..i])|, ts[i])]
    ensures CoreTypesAll(ts[..i + 1]) == CoreTypesAll(ts[..i]) + CoreTypes(ts[i])
    ensures CountCoreTypes(ts[i]) == |CoreTypes(ts[i])|
  {
    assert ts[..i + 1] == ts[..i] + [ts[i]];
    FieldColsSnoc(base, ts[..i], ts[i]);
    assert ts[..i + 1][..i] == ts[..i];
    CountIsLength(ts[i]);
  }

  /** Declare locals for all fields of a payload and copy the joined slots into
      them; `enumCore` is the enum's flattened type, discriminant first. */
  method DemoteEnumFields(func: StFunction, bb: nat, column: nat, base: nat, enumCore: seq<ValType>,
                          fieldTypes: seq<Type>, cols: seq<Col>) returns (result: seq<Col>)
    requires func.Valid() && IsOpen(func.cfg.blocks, bb) && column < |cols|
    requires enumCore != [] && Bounds(enumCore[1..], CoreTypesAll(fieldTypes))
    modifies func, func.cfg
    ensures func.Valid() && func.Types() == old(func.Types()) + CoreTypesAll(fieldTypes)
    ensures Wrote(old(func.cfg.blocks), func.cfg.blocks, bb,
                  DemoteCode(base, old(|func.Types()|), enumCore[1..], CoreTypesAll(fieldTypes)))
    ensures result == Splice(cols, column, FieldCols(old(|func.Types()|), fieldTypes))
  {
    ghost var types0, blocks0 := func.Types(), func.cfg.blocks;
    var newEntries: seq<Col> := [];
    var slotOffset: nat := 1;
    ghost var code: seq<Instr> := [];
    for f := 0 to |fieldTypes|
      invariant func.Valid() && IsOpen(func.cfg.blocks, bb)
      invariant Demoted(types0, func.Types(), base, enumCore, fieldTypes, f, slotOffset, code, newEntries)
      invariant Wrote(blocks0, func.cfg.blocks, bb, code)
    {
      newEntries, slotOffset, code :=
        DemoteNext(func, bb, base, types0, enumCore, fieldTypes, f, newEntries, slotOffset, code, blocks0);
    }
    DemotedAll(types0, func.Types(), base, enumCore, fieldTypes, slotOffset, code, newEntries);
    result := cols[..column] + newEntries + cols[column + 1..];
  }

  method DemoteNext(func: StFunction, bb: nat, base: nat, ghost types0: seq<ValType>, enumCore: seq<ValType>,
                    fieldTypes: seq<Type>, f: nat, newEntries: seq<Col>, slotOffset: nat, ghost code: seq<Instr>,
                    ghost blocks0: seq<BasicBlock>)
    returns (entries: seq<Col>, offset: nat, ghost code': seq<Instr>)
    requires func.Valid() && IsOpen(func.cfg.blocks, bb) && f < |fieldTypes|
    requires enumCore != [] && Bounds(enumCore[1..], CoreTypesAll(fieldTypes))
    requires Demoted(types0, func.Types(), base, enumCore, fieldTypes, f, slotOffset, code, newEntries)
    requires Wrote(blocks0, func.cfg.blocks, bb, code)
    modifies func, func.cfg
    ensures func.Valid() && IsOpen(func.cfg.blocks, bb)
    ensures Demoted(types0, func.Types(), base, enumCore, fieldTypes, f + 1, offset, code', entries)
    ensures Wrote(blocks0, func.cfg.blocks, bb, code')
  {
    hide Demoted, Wrote, CoreTypes, CoreTypesAll, CopyCode, Bounds;
    DemotedFacts(types0, func.Types(), base, enumCore, fieldTypes, f, slotOffset, code, newEntries);
    ghost var all, q: nat := CoreTypesAll(fieldTypes), slotOffset - 1;
    ghost var types, before := func.Types(), func.cfg.blocks;
    var fieldCore := StarToCoreTypes([], fieldTypes[f]);
    var demotedBase := func.AddLocals(fieldCore);
    ghost var more := DemoteField(func, bb, base, |types0|, enumCore, all, q, slotOffset, fieldCore, demotedBase);
    WroteMore(blocks0, before, func.cfg.blocks, bb, code, more);
    DemotedNext(types0, types, base, enumCore, fieldTypes, f, slotOffset, code, newEntries, fieldCore, more);
    entries, offset, code' := newEntries + [Col(demotedBase, fieldTypes[f])], slotOffset + |fieldCore|, code + more;
  }

  lemma DemotedAll(types0: seq<ValType>, types: seq<ValType>, base: nat, enumCore: seq<ValType>, fieldTypes: seq<Type>,
                   slotOffset: nat, code: seq<Instr>, entries: seq<Col>)
    requires enumCore != [] && Bounds(enumCore[1..], CoreTypesAll(fieldTypes))
    requires Demoted(types0, types, base, enumCore, fieldTypes, |fieldTypes|, slotOffset, code, entries)
    ensures types == types0 + CoreTypesAll(fieldTypes) && entries == FieldCols(|types0|, fieldTypes)
    ensures code == DemoteCode(base, |types0|, enumCore[1..], CoreTypesAll(fieldTypes))
  {
    assert fieldTypes[..|fieldTypes|] == fieldTypes;
  }

  /** The state after f fields. */
  ghost predicate Demoted(types0: seq<ValType>, types: seq<ValType>, base: nat, enumCore: seq<ValType>, fieldTypes: seq<Type>,
                          f: nat, slotOffset: nat, code: seq<Instr>, entries: seq<Col>)
    requires f <= |fieldTypes| && enumCore != [] && Bounds(enumCore[1..], CoreTypesAll(fieldTypes))
  {
    && types == types0 + CoreTypesAll(fieldTypes[..f])
    && slotOffset == 1 + |CoreTypesAll(fieldTypes[..f])| && slotOffset <= 1 + |CoreTypesAll(fieldTypes)|
    && code == CopyCode(base + 1, |types0|, enumCore[1..], CoreTypesAll(fieldTypes), slotOffset - 1)
    && entries == FieldCols(|types0|, fieldTypes[..f])
  }

  lemma DemotedFacts(types0: seq<ValType>, types: seq<ValType>, base: nat, enumCore: seq<ValType>, fieldTypes: seq<Type>,
                     f: nat, slotOffset: nat, code: seq<Instr>, entries: seq<Col>)
    requires f < |fieldTypes| && enumCore != [] && Bounds(enumCore[1..], CoreTypesAll(fieldTypes))
    requires Demoted(types0, types, base, enumCore, fieldTypes, f, slotOffset, code, entries)
    ensures slotOffset > 0 && |types| == |types0| + (slotOffset - 1)
    ensures slotOffset - 1 + |CoreTypes(fieldTypes[f])| <= |CoreTypesAll(fieldTypes)|
    ensures CoreTypes(fieldTypes[f])
         == CoreTypesAll(fieldTypes)[slotOffset - 1..slotOffset - 1 + |CoreTypes(fieldTypes[f])|]
  {
    FieldsSnoc(|types0|, fieldTypes, f);
    AllPrefix(fieldTypes, f + 1);
    PrefixSlice(CoreTypesAll(fieldTypes[..f]), CoreTypes(fieldTypes[f]), CoreTypesAll(fieldTypes));
    hide *;
  }

  lemma PrefixSlice<T>(a: seq<T>, b: seq<T>, all: seq<T>)
    requires a + b <= all
    ensures |a| + |b| <= |all| && all[|a|..|a| + |b|] == b
  {
    assert all[..|a| + |b|] == a + b;
    assert all[|a|..|a| + |b|] == all[..|a| + |b|][|a|..];
  }

  lemma DemotedNext(types0: seq<ValType>, types: seq<ValType>, base: nat, enumCore: seq<ValType>, fieldTypes: seq<Type>,
                    f: nat, slotOffset: nat, code: seq<Instr>, entries: seq<Col>, core: seq<ValType>, more: seq<Instr>)
    requires f < |fieldTypes| && enumCore != [] && Bounds(enumCore[1..], CoreTypesAll(fieldTypes))
    requires Demoted(types0, types, base, enumCore, fieldTypes, f, slotOffset, code, entries)
    requires core == CoreTypes(fieldTypes[f]) && slotOffset - 1 + |core| <= |CoreTypesAll(fieldTypes)|
    requires CopyCode(base + 1, |types0|, enumCore[1..], CoreTypesAll(fieldTypes), slotOffset - 1 + |core|)
          == CopyCode(base + 1, |types0|, enumCore[1..], CoreTypesAll(fieldTypes), slotOffset - 1) + more
    ensures Demoted(types0, types + core, base, enumCore, fieldTypes, f + 1, slotOffset + |core|, code + more,
                    entries + [Col(|types|, fieldTypes[f])])
  {
    FieldsSnoc(|types0|, fieldTypes, f);
    hide CopyCode, CoreTypes, CoreTypesAll, FieldCols;
    assert types0 + CoreTypesAll(fieldTypes[..f]) + core == types0 + (CoreTypesAll(fieldTypes[..f]) + core);
  }

  /** Copy one field's slots. */
  method DemoteField(func: StFunction, bb: nat, base: nat, ghost n0: nat, enumCore: seq<ValType>, ghost all: seq<ValType>,
                     ghost q: nat, slotOffset: nat, fieldCore: seq<ValType>, demotedBase: nat)
    returns (ghost more: seq<Instr>)
    requires func.Valid() && IsOpen(func.cfg.blocks, bb)
    requires enumCore != [] && Bounds(enumCore[1..], all) && q + |fieldCore| <= |all|
    requires fieldCore == all[q..q + |fieldCore|] && slotOffset == 1 + q && demotedBase == n0 + q
    modifies func.cfg
    ensures func.Valid() && IsOpen(func.cfg.blocks, bb) && Wrote(old(func.cfg.blocks), func.cfg.blocks, bb, more)
    ensures CopyCode(base + 1, n0, enumCore[1..], all, q + |fieldCore|)
         == CopyCode(base + 1, n0, enumCore[1..], all, q) + more
  {
    hide CopyCode, Wrote, Bounds;
    ghost var joined := enumCore[1..];
    BoundsLength(joined, all);
    WroteNothing(func.cfg.blocks, bb);
    more := [];
    for j := 0 to |fieldCore|
      invariant func.Valid() && IsOpen(func.cfg.blocks, bb)
      invariant CopyCode(base + 1, n0, joined, all, q + j) == CopyCode(base + 1, n0, joined, all, q) + more
      invariant Wrote(old(func.cfg.blocks), func.cfg.blocks, bb, more)
    {
      var slotIdx := slotOffset + j;
      assert enumCore[slotIdx] == joined[q + j] && fieldCore[j] == all[q + j];
      // The original skips slots past the joined ones; there are none.
      var wrap := enumCore[slotIdx] != fieldCore[j] && enumCore[slotIdx].V64? && fieldCore[j].V32?;
      var one := [LocalGet(base + slotIdx)] + (if wrap then [I32WrapI64] else []) + [LocalSet(demotedBase + j)];
      CopyCodeStep(base + 1, n0, joined, all, q + j);
      assert one == OneCopy(base + 1 + (q + j), n0 + (q + j), joined[q + j], all[q + j]);
      hide OneCopy;
      ghost var before := func.cfg.blocks;
      WriteCode(func, bb, one);
      WroteMore(old(func.cfg.blocks), before, func.cfg.blocks, bb, more, one);
      more := more + one;
    }
  }

  lemma BoundsLength(joined: seq<ValType>, ts: seq<ValType>)
    requires Bounds(joined, ts)
    ensures |ts| <= |joined|
  {
  }

  lemma WroteNothing(blocks: seq<BasicBlock>, bb: nat)
    requires bb < |blocks|
    ensures Wrote(blocks, blocks, bb, [])
  {
  }

  lemma CopyCodeStep(src: nat, dst: nat, joined: seq<ValType>, ts: seq<ValType>, q: nat)
    requires q < |ts| <= |joined|
    ensures CopyCode(src, dst, joined, ts, q + 1)
         == CopyCode(src, dst, joined, ts, q) + OneCopy(src + q, dst + q, joined[q], ts[q])
  {
  }

  lemma WroteMore(b0: seq<BasicBlock>, b1: seq<BasicBlock>, b2: seq<BasicBlock>, bb: nat, code: seq<Instr>, more: seq<Instr>)
    requires Wrote(b0, b1, bb, code) && Wrote(b1, b2, bb, more)
    ensures Wrote(b0, b2, bb, code + more)
  {
    forall b | 0 <= b < |b0| && b != bb
      ensures SameBlock(b2[b], b0[b])
    {
      assert SameBlock(b2[b], b1[b]) && SameBlock(b1[b], b0[b]);
    }
    assert b0[bb].instructions + code + more == b0[bb].instructions + (code + more);
  }

  lemma {:induction false} AllPrefix(ts: seq<Type>, i: nat)
    requires i <= |ts|
    ensures CoreTypesAll(ts[..i]) <= CoreTypesAll(ts)
    decreases |ts| - i
  {
    if i < |ts| {
      AllPrefix(ts, i + 1);
      assert ts[..i + 1][..i] == ts[..i];
    } else {
      assert ts[..i] == ts;
    }
  }
}
