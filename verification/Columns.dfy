/** Where the values under test live: runs of locals, one per column, and the
    straight-line code that moves slots between locals and the stack. */
module Columns {
  import opened Options
  import opened StarTypes
  import opened DecisionTree
  import opened Wasm
  import opened Flatten
  import opened EnumEncoding

  /** A column's first local and its type. */
  datatype Col = Col(local: nat, ty: Type)

  function ColTypes(cols: seq<Col>): (ts: seq<Type>)
    ensures |ts| == |cols| && forall i :: 0 <= i < |cols| ==> ts[i] == cols[i].ty
  {
    seq(|cols|, i requires 0 <= i < |cols| => cols[i].ty)
  }

  /** The slots are in consecutive locals. */
  predicate Holds(locals: seq<Slot>, base: nat, ss: seq<Slot>) {
    base + |ss| <= |locals| && forall i :: 0 <= i < |ss| ==> locals[base + i] == ss[i]
  }

  predicate Laid(cols: seq<Col>, vs: seq<Value>, locals: seq<Slot>)
    requires HaveTypes(vs, ColTypes(cols))
  {
    forall i :: 0 <= i < |cols| ==> Holds(locals, cols[i].local, FlatV(vs[i], cols[i].ty))
  }

  /** All columns are among the first n locals. */
  predicate ColsIn(cols: seq<Col>, n: nat) {
    forall i :: 0 <= i < |cols| ==> cols[i].local + |CoreTypes(cols[i].ty)| <= n
  }

  /** Locals of the declared types; more may be declared later. */
  predicate TypedLocals(locals: seq<Slot>, types: seq<ValType>) {
    |types| <= |locals| && forall i :: 0 <= i < |types| ==> OfType(locals[i], types[i])
  }

  /** Consecutive columns for the fields of a value that is laid out from base on. */
  function FieldCols(base: nat, ts: seq<Type>): (cols: seq<Col>)
    ensures |cols| == |ts|
  {
    if ts == [] then []
    else
      var n := |ts| - 1;
      FieldCols(base, ts[..n]) + [Col(base + |CoreTypesAll(ts[..n])|, ts[n])]
  }

  lemma {:induction false} FieldColTypes(base: nat, ts: seq<Type>)
    ensures ColTypes(FieldCols(base, ts)) == ts
  {
    if ts != [] {
      FieldColTypes(base, ts[..|ts| - 1]);
    }
  }

  lemma HoldsConcat(locals: seq<Slot>, base: nat, a: seq<Slot>, b: seq<Slot>)
    requires Holds(locals, base, a + b)
    ensures Holds(locals, base, a) && Holds(locals, base + |a|, b)
  {
    forall i | 0 <= i < |a|
      ensures locals[base + i] == a[i]
    {
      assert (a + b)[i] == a[i];
    }
    forall i | 0 <= i < |b|
      ensures locals[base + |a| + i] == b[i]
    {
      assert (a + b)[|a| + i] == b[i];
    }
  }

  /** The slots of all fields in a row are the columns of the fields. */
  lemma {:induction false} FieldsLaid(locals: seq<Slot>, base: nat, vs: seq<Value>, ts: seq<Type>)
    requires HaveTypes(vs, ts) && Holds(locals, base, FlatAll(vs, ts))
    ensures ColTypes(FieldCols(base, ts)) == ts && Laid(FieldCols(base, ts), vs, locals)
    decreases |vs|, 0
  {
    FieldColTypes(base, ts);
    if vs != [] {
      var n := |vs| - 1;
      assert vs == vs[..n] + [vs[n]] && ts == ts[..n] + [ts[n]];
      FieldsLaidSnoc(locals, base, vs[..n], ts[..n], vs[n], ts[n]);
    }
  }

  lemma {:induction false} FieldsLaidSnoc(locals: seq<Slot>, base: nat, vs: seq<Value>, ts: seq<Type>, v: Value, t: Type)
    requires HaveTypes(vs + [v], ts + [t]) && Holds(locals, base, FlatAll(vs + [v], ts + [t]))
    ensures ColTypes(FieldCols(base, ts + [t])) == ts + [t] && Laid(FieldCols(base, ts + [t]), vs + [v], locals)
    decreases |vs|, 1
  {
    hide FlatAll, FlatV, HasType, Holds, CoreTypesAll, Laid, FieldCols;
    var c := Col(base + |CoreTypesAll(ts)|, t);
    FlatAllSnoc(vs, ts, v, t);
    HoldsConcat(locals, base, FlatAll(vs, ts), FlatV(v, t));
    FieldsLaid(locals, base, vs, ts);
    FieldColsSnoc(base, ts, t);
    FieldColTypes(base, ts + [t]);
    hide *;
    LaidSnoc(FieldCols(base, ts), vs, c, v, locals);
  }

  lemma FlatAllSnoc(vs: seq<Value>, ts: seq<Type>, v: Value, t: Type)
    requires HaveTypes(vs + [v], ts + [t])
    ensures HaveTypes(vs, ts) && HasType(v, t)
    ensures FlatAll(vs + [v], ts + [t]) == FlatAll(vs, ts) + FlatV(v, t)
    ensures |FlatAll(vs, ts)| == |CoreTypesAll(ts)|
  {
    var vs', ts' := vs + [v], ts + [t];
    assert vs'[..|vs|] == vs && ts'[..|ts|] == ts;
    assert forall i :: 0 <= i < |vs| ==> HasType(vs'[i], ts'[i]);
    assert HasType(vs'[|vs|], ts'[|ts|]);
    FlatAllTyped(vs, ts);
  }

  lemma FieldColsSnoc(base: nat, ts: seq<Type>, t: Type)
    ensures FieldCols(base, ts + [t]) == FieldCols(base, ts) + [Col(base + |CoreTypesAll(ts)|, t)]
  {
    hide CoreTypesAll;
    assert (ts + [t])[..|ts|] == ts;
  }

  lemma LaidSnoc(cols: seq<Col>, vs: seq<Value>, c: Col, v: Value, locals: seq<Slot>)
    requires HaveTypes(vs, ColTypes(cols)) && Laid(cols, vs, locals)
    requires HasType(v, c.ty) && Holds(locals, c.local, FlatV(v, c.ty))
    ensures HaveTypes(vs + [v], ColTypes(cols + [c])) && Laid(cols + [c], vs + [v], locals)
  {
    hide HasType, FlatV, Holds;
  }

  lemma {:induction false} FieldColsIn(base: nat, ts: seq<Type>)
    ensures ColsIn(FieldCols(base, ts), base + |CoreTypesAll(ts)|)
    decreases |ts|
  {
    if ts != [] {
      var n := |ts| - 1;
      FieldColsIn(base, ts[..n]);
      FieldColsSnoc(base, ts[..n], ts[n]);
      assert ts == ts[..n] + [ts[n]];
      assert CoreTypesAll(ts) == CoreTypesAll(ts[..n]) + CoreTypes(ts[n]);
      hide CoreTypesAll, FieldCols;
    }
  }

  lemma SpliceColsIn(cols: seq<Col>, col: nat, mid: seq<Col>, n: nat, n': nat)
    requires col < |cols| && ColsIn(cols, n) && ColsIn(mid, n') && n <= n'
    ensures ColsIn(Splice(cols, col, mid), n')
  {
    forall i | 0 <= i < |Splice(cols, col, mid)|
      ensures var c := Splice(cols, col, mid)[i]; c.local + |CoreTypes(c.ty)| <= n'
    {
      SpliceFrom(cols, col, mid, i);
    }
  }

  lemma SpliceColTypes(cols: seq<Col>, col: nat, mid: seq<Col>)
    requires col < |cols|
    ensures ColTypes(Splice(cols, col, mid)) == Splice(ColTypes(cols), col, ColTypes(mid))
  {
    forall i | 0 <= i < |cols| - 1 + |mid|
      ensures ColTypes(Splice(cols, col, mid))[i] == Splice(ColTypes(cols), col, ColTypes(mid))[i]
    {
      SpliceFrom(cols, col, mid, i);
      SpliceFrom(ColTypes(cols), col, ColTypes(mid), i);
    }
  }

  lemma SlotsCount(v: Value, t: Type)
    requires HasType(v, t)
    ensures |FlatV(v, t)| == |CoreTypes(t)|
  {
    FlatTyped(v, t);
  }

  /** Locals past the columns may change. */
  lemma HoldsKept(cols: seq<Col>, vs: seq<Value>, locals: seq<Slot>, locals': seq<Slot>, n: nat)
    requires HaveTypes(vs, ColTypes(cols)) && Laid(cols, vs, locals) && ColsIn(cols, n)
    requires n <= |locals| && |locals'| == |locals| && forall x :: 0 <= x < n ==> locals'[x] == locals[x]
    ensures Laid(cols, vs, locals')
  {
    forall i | 0 <= i < |cols|
      ensures Holds(locals', cols[i].local, FlatV(vs[i], cols[i].ty))
    {
      SlotsCount(vs[i], cols[i].ty);
    }
  }

  /** Replacing a column by columns that are laid out themselves. */
  lemma SpliceLaid(cols: seq<Col>, vs: seq<Value>, col: nat, mid: seq<Col>, midVs: seq<Value>, locals: seq<Slot>)
    requires HaveTypes(vs, ColTypes(cols)) && Laid(cols, vs, locals) && col < |cols|
    requires HaveTypes(midVs, ColTypes(mid)) && Laid(mid, midVs, locals)
    requires HaveTypes(Splice(vs, col, midVs), ColTypes(Splice(cols, col, mid)))
    ensures Laid(Splice(cols, col, mid), Splice(vs, col, midVs), locals)
  {
    hide Splice, FlatV, Holds, HasType;
    var cols', vs' := Splice(cols, col, mid), Splice(vs, col, midVs);
    forall i | 0 <= i < |cols'|
      ensures Holds(locals, cols'[i].local, FlatV(vs'[i], cols'[i].ty))
    {
      SpliceFrom(cols, col, mid, i);
      SpliceFrom(vs, col, midVs, i);
      if col <= i < col + |mid| {
        assert Holds(locals, mid[i - col].local, FlatV(midVs[i - col], mid[i - col].ty));
      }
    }
  }

  // ---- Writing locals.

  function Written(locals: seq<Slot>, base: nat, ss: seq<Slot>): (r: seq<Slot>)
    requires base + |ss| <= |locals|
    ensures |r| == |locals|
    ensures forall x :: 0 <= x < |locals| ==> r[x] == if base <= x < base + |ss| then ss[x - base] else locals[x]
  {
    locals[..base] + ss + locals[base + |ss|..]
  }

  /** The locals can be set to slots of these types. */
  predicate Settable(locals: seq<Slot>, base: nat, ts: seq<ValType>) {
    base + |ts| <= |locals| && forall i :: 0 <= i < |ts| ==> OfType(locals[base + i], ts[i])
  }

  lemma WrittenTyped(locals: seq<Slot>, types: seq<ValType>, base: nat, ss: seq<Slot>, ts: seq<ValType>)
    requires TypedLocals(locals, types) && OfTypes(ss, ts) && base + |ts| <= |types| && types[base..base + |ts|] == ts
    ensures Settable(locals, base, ts) && TypedLocals(Written(locals, base, ss), types)
  {
    forall i | 0 <= i < |ts|
      ensures types[base + i] == ts[i]
    {
      assert types[base..base + |ts|][i] == ts[i];
    }
  }

  /** Copy n slots, wrapping those that were joined into 64 bits. */
  function CopyCode(src: nat, dst: nat, joined: seq<ValType>, ts: seq<ValType>, n: nat): seq<Instr>
    requires n <= |ts| <= |joined|
  {
    if n == 0 then []
    else
      CopyCode(src, dst, joined, ts, n - 1) + OneCopy(src + n - 1, dst + n - 1, joined[n - 1], ts[n - 1])
  }

  function OneCopy(src: nat, dst: nat, joined: ValType, t: ValType): seq<Instr> {
    [LocalGet(src)] + (if joined.V64? && t.V32? then [I32WrapI64] else []) + [LocalSet(dst)]
  }

  lemma {:induction false} CopyRuns(src: nat, dst: nat, joined: seq<ValType>, ts: seq<ValType>, n: nat,
                                    ss: seq<Slot>, st: State)
    requires OfTypes(ss, joined) && Bounds(joined, ts) && n <= |ts|
    requires Holds(st.locals, src, ss) && Settable(st.locals, dst, ts)
    requires src + |ss| <= dst || dst + |ts| <= src
    ensures Exec(CopyCode(src, dst, joined, ts, n), st)
         == Some(st.(locals := Written(st.locals, dst, DemoteAll(ss, ts)[..n])))
  {
    var moved := DemoteAll(ss, ts);
    if n == 0 {
      assert Written(st.locals, dst, moved[..0]) == st.locals;
    } else {
      var q := n - 1;
      var locals := Written(st.locals, dst, moved[..q]);
      CopyReady(src, dst, joined, ts, q, ss, st.locals, locals);
      hide *;
      CopyRuns(src, dst, joined, ts, q, ss, st);
      CopyNext(src, dst, joined, ts, q, st, locals);
    }
  }

  lemma CopyNext(src: nat, dst: nat, joined: seq<ValType>, ts: seq<ValType>, q: nat, st: State, locals: seq<Slot>)
    requires q < |ts| <= |joined| && src + q < |locals| && dst + q < |locals|
    requires Exec(CopyCode(src, dst, joined, ts, q), st) == Some(st.(locals := locals))
    requires OfType(locals[src + q], joined[q]) && OfType(locals[dst + q], ts[q])
    requires joined[q] == ts[q] || (ts[q].V32? && joined[q].V64?)
    ensures Exec(CopyCode(src, dst, joined, ts, q + 1), st)
         == Some(st.(locals := locals[dst + q := Demote(locals[src + q], ts[q])]))
  {
    var mid := st.(locals := locals);
    var before, one := CopyCode(src, dst, joined, ts, q), OneCopy(src + q, dst + q, joined[q], ts[q]);
    assert CopyCode(src, dst, joined, ts, q + 1) == before + one;
    hide *;
    CopyOne(src + q, dst + q, joined[q], ts[q], mid);
    ExecThen(before, one, st, mid);
  }

  /** After q copies the source is intact and the next place is free. */
  lemma CopyReady(src: nat, dst: nat, joined: seq<ValType>, ts: seq<ValType>, q: nat, ss: seq<Slot>,
                  locals: seq<Slot>, now: seq<Slot>)
    requires OfTypes(ss, joined) && Bounds(joined, ts) && q < |ts|
    requires Holds(locals, src, ss) && Settable(locals, dst, ts)
    requires src + |ss| <= dst || dst + |ts| <= src
    requires now == Written(locals, dst, DemoteAll(ss, ts)[..q])
    ensures OfType(now[src + q], joined[q]) && OfType(now[dst + q], ts[q])
    ensures joined[q] == ts[q] || (ts[q].V32? && joined[q].V64?)
    ensures now[dst + q := Demote(now[src + q], ts[q])] == Written(locals, dst, DemoteAll(ss, ts)[..q + 1])
  {
    var moved := DemoteAll(ss, ts);
    assert OfType(ss[q], joined[q]) && OfType(locals[dst + q], ts[q]);
    assert locals[src + q] == ss[q];
    assert moved[q] == Demote(ss[q], ts[q]);
    hide OfType, Demote, Holds, Settable, OfTypes, DemoteAll;
    WrittenStep(locals, dst, moved, q);
  }

  lemma WrittenStep(locals: seq<Slot>, base: nat, ss: seq<Slot>, q: nat)
    requires q < |ss| && base + |ss| <= |locals|
    ensures Written(locals, base, ss[..q + 1]) == Written(locals, base, ss[..q])[base + q := ss[q]]
  {
  }

  lemma CopyOne(src: nat, dst: nat, joined: ValType, t: ValType, st: State)
    requires src < |st.locals| && dst < |st.locals|
    requires OfType(st.locals[src], joined) && OfType(st.locals[dst], t)
    requires joined == t || (t.V32? && joined.V64?)
    ensures Exec(OneCopy(src, dst, joined, t), st)
         == Some(st.(locals := st.locals[dst := Demote(st.locals[src], t)]))
  {
    var s := st.locals[src];
    GetSteps(src, st);
    if joined.V64? && t.V32? {
      WrapSteps(st, s);
    }
    SetSteps(dst, st, Demote(s, t));
    var put, wrap := [LocalSet(dst)], if joined.V64? && t.V32? then [I32WrapI64] else [];
    assert OneCopy(src, dst, joined, t) == [LocalGet(src)] + (wrap + put);
    assert Demote(s, t) == if wrap == [] then s else W32(s.bits % TWO32);
    hide Step, OneCopy, OfType, Demote, Exec, Push;
    StepThen(LocalGet(src), wrap + put, st, Push(st, s));
    if wrap == [] {
      assert wrap + put == put;
    } else {
      StepThen(I32WrapI64, put, Push(st, s), Push(st, Demote(s, t)));
    }
    ExecOne(LocalSet(dst), Push(st, Demote(s, t)));
  }

  /** Move n slots from the stack into locals, topmost first. */
  function SpillCode(base: nat, n: nat): seq<Instr> {
    if n == 0 then [] else [LocalSet(base + n - 1)] + SpillCode(base, n - 1)
  }

  lemma {:induction false} SpillRuns(base: nat, below: seq<Slot>, ss: seq<Slot>, ts: seq<ValType>, st: State)
    requires st.stack == below + ss && OfTypes(ss, ts) && Settable(st.locals, base, ts)
    ensures Exec(SpillCode(base, |ss|), st) == Some(st.(stack := below, locals := Written(st.locals, base, ss)))
    decreases |ss|
  {
    if ss == [] {
      assert below + ss == below;
      assert Written(st.locals, base, ss) == st.locals;
    } else {
      var n := |ss| - 1;
      assert OfType(ss[n], ts[n]) && OfType(st.locals[base + n], ts[n]);
      var st1 := State(below + ss[..n], st.locals[base + n := ss[n]], st.globals, st.events);
      assert below + ss[..n] == st.stack[..|st.stack| - 1];
      assert Step(LocalSet(base + n), st) == Some(st1);
      assert Settable(st1.locals, base, ts[..n]);
      SpillRuns(base, below, ss[..n], ts[..n], st1);
      assert Written(st1.locals, base, ss[..n]) == Written(st.locals, base, ss);
      hide Step, Written, SpillCode, Settable;
      ExecOne(LocalSet(base + n), st);
      ExecThen([LocalSet(base + n)], SpillCode(base, n), st, st1);
      SpillStep(base, n + 1);
    }
  }

  lemma SpillStep(base: nat, n: nat)
    requires n > 0
    ensures SpillCode(base, n) == [LocalSet(base + n - 1)] + SpillCode(base, n - 1)
  {
  }
}
