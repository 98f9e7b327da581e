/** What the branch cascade of a decision tree has to do when it runs. */
module MatchSpec {
  import opened Options
  import opened StarTypes
  import opened DecisionTree
  import opened FirstMatch
  import opened Wasm
  import opened Flatten
  import opened EnumEncoding
  import opened Columns
  import opened Ir
  import opened FuncRun

  /** A `match` runs an arm; a `let` copies into its variables' locals, or runs
      its else block. */
  datatype Mode = InMatch | InLet(dests: map<string, Col>, hasElse: bool)

  // ---- Trees that fit their columns.

  /** A literal is represented by its own slot only: it fits the type, or wraps
      to something that does not. */
  predicate LiteralOk(w: IntWidth, n: int) {
    Fits(w, n) || !Fits(w, FromBits(w, IntSlot(w, n)))
  }

  predicate CtorOk(c: Ctor, t: Type) {
    CtorOf(c, t) && (c.IntLiteral? ==> LiteralOk(t.w, c.n))
  }

  /** Declared types of the variables that a leaf may copy. */
  function Decl(mode: Mode): map<string, Type> {
    match mode
    case InMatch => map[]
    case InLet(dests, _) => map x | x in dests :: dests[x].ty
  }

  /** A tree as the compiler makes it for columns of these types. */
  predicate TreeFits(tree: Tree, ts: seq<Type>, decl: map<string, Type>)
    decreases tree
  {
    match tree
    case Leaf(_, bindings) =>
      forall b :: b in bindings ==> b.column < |ts| && (b.name in decl ==> decl[b.name] == ts[b.column])
    case Fail => true
    case Switch(col, cases, default) =>
      && col < |ts| && Sized(ts[col])
      && (ts[col].Tuple? || ts[col].Record? || ts[col].Unit? ==> cases != [])
      && (forall k :: 0 <= k < |cases| ==>
            CtorOk(cases[k].ctor, ts[col])
            && TreeFits(cases[k].tree, Splice(ts, col, FieldTypes(cases[k].ctor, ts[col])), decl))
      && (default.Some? ==> TreeFits(default.value, Splice(ts, col, []), decl))
  }

  // ---- Where a run ends.

  ghost predicate SlotsOf(b: Bound, locals: seq<Slot>, base: nat) {
    HasType(b.value, b.ty) && Holds(locals, base, FlatV(b.value, b.ty))
  }

  ghost predicate BoundTo(bound: seq<Bound>, arm: nat, x: string, locals: seq<Slot>, base: nat) {
    exists b :: b in bound && b.arm == arm && b.name == x && SlotsOf(b, locals, base)
  }

  /** The arm's variables are those bound for it, each in the locals that hold
      the slots of what it is bound to. */
  ghost predicate EnvHolds(env: map<string, nat>, arm: nat, bound: seq<Bound>, locals: seq<Slot>) {
    && (forall b :: b in bound && b.arm == arm ==> b.name in env)
    && (forall x :: x in env ==> BoundTo(bound, arm, x, locals, env[x]))
  }

  /** Every variable that was bound has been copied to its own locals. */
  ghost predicate DestsHold(dests: map<string, Col>, bound: seq<Bound>, locals: seq<Slot>) {
    forall b :: b in bound && b.name in dests ==>
      exists b' :: b' in bound && b'.name == b.name && SlotsOf(b', locals, dests[b.name].local)
  }

  predicate InDest(dest: Col, x: nat) {
    dest.local <= x < dest.local + |CoreTypes(dest.ty)|
  }

  ghost predicate MayWrite(mode: Mode, x: nat) {
    mode.InLet? && exists name :: name in mode.dests && InDest(mode.dests[name], x)
  }

  /** Globals and the first n locals are kept, but for a let's own variables. */
  ghost predicate Framed(st: State, st': State, mode: Mode, n: nat) {
    && st'.globals == st.globals && |st'.locals| == |st.locals|
    && forall x :: 0 <= x < n && x < |st.locals| ==> st'.locals[x] == st.locals[x] || MayWrite(mode, x)
  }

  function ElseEvents(mode: Mode): seq<Event> {
    if mode.InLet? && mode.hasElse then [EnteredElse] else []
  }

  ghost predicate EntersArm(st: State, st': State, action: nat, bound: seq<Bound>) {
    exists env :: st'.events == st.events + [Entered(action, env)] && EnvHolds(env, action, bound, st'.locals)
  }

  /** A run from st ends as the walk of the tree says. */
  ghost predicate EndsAs(r: Result, st: State, o: Outcome, mode: Mode, n: nat) {
    match o
    case Stuck => true
    case Missed => r.Trapped? && r.st.events == st.events + ElseEvents(mode)
    case Hit(action, bound) =>
      && r.Done? && r.st.stack == st.stack && Framed(st, r.st, mode, n)
      && match mode
         case InMatch => EntersArm(st, r.st, action, bound)
         case InLet(dests, _) => r.st.events == st.events && DestsHold(dests, bound, r.st.locals)
  }

  lemma EndsAsStuck(r: Result, st: State, mode: Mode, n: nat)
    ensures EndsAs(r, st, Stuck, mode, n)
  {
  }

  /** Starting a bit earlier, when only later locals were written since. */
  lemma EndsEarlier(r: Result, st: State, mid: State, o: Outcome, mode: Mode, n: nat, n': nat)
    requires EndsAs(r, mid, o, mode, n') && n <= n'
    requires mid.stack == st.stack && mid.events == st.events && mid.globals == st.globals
    requires |mid.locals| == |st.locals| && forall x :: 0 <= x < n && x < |st.locals| ==> mid.locals[x] == st.locals[x]
    ensures EndsAs(r, st, o, mode, n)
  {
    hide EnvHolds, DestsHold, MayWrite;
  }

  // ---- What code has to do.

  ghost predicate Premises(types: seq<ValType>, cols: seq<Col>, vs: seq<Value>, st: State) {
    HaveTypes(vs, ColTypes(cols)) && TypedLocals(st.locals, types) && Laid(cols, vs, st.locals)
  }

  ghost predicate DecidesOn(types: seq<ValType>, blocks: seq<BasicBlock>, bb: nat, p: nat, cols: seq<Col>, tree: Tree,
                            last: nat, mode: Mode, n: nat, vs: seq<Value>, st: State)
  {
    Premises(types, cols, vs, st) ==>
      EndsAs(RunFrom(blocks, bb, p, st, last), st, Walk(tree, vs, ColTypes(cols)), mode, n)
  }

  /** From instruction p of block bb on, for all values laid out in the columns,
      the code does what the tree says and arrives at block `last`. */
  ghost predicate Decides(types: seq<ValType>, blocks: seq<BasicBlock>, bb: nat, p: nat, cols: seq<Col>, tree: Tree,
                          last: nat, mode: Mode, n: nat)
  {
    forall vs, st :: DecidesOn(types, blocks, bb, p, cols, tree, last, mode, n, vs, st)
  }

  ghost predicate BranchOn(types: seq<ValType>, blocks: seq<BasicBlock>, t: nat, cols: seq<Col>, col: nat, c: Case,
                           last: nat, mode: Mode, n: nat, vs: seq<Value>, st: State)
  {
    Premises(types, cols, vs, st) && col < |cols| && HeadOf(vs[col]) == Some(c.ctor) ==>
      EndsAs(RunFrom(blocks, t, 0, st, last), st, WalkCase(c, vs, ColTypes(cols), col), mode, n)
  }

  /** Block t does what this case says for all values of its constructor. */
  ghost predicate Branches(types: seq<ValType>, blocks: seq<BasicBlock>, t: nat, cols: seq<Col>, col: nat, c: Case,
                           last: nat, mode: Mode, n: nat)
  {
    forall vs, st :: BranchOn(types, blocks, t, cols, col, c, last, mode, n, vs, st)
  }

  function WalkCase(c: Case, vs: seq<Value>, ts: seq<Type>, col: nat): Outcome
    requires HaveTypes(vs, ts) && col < |vs| && HeadOf(vs[col]) == Some(c.ctor)
  {
    HeadFits(vs[col], ts[col]);
    SpliceValues(vs, ts, col, Args(vs[col]), FieldTypes(c.ctor, ts[col]));
    Walk(c.tree, Splice(vs, col, Args(vs[col])), Splice(ts, col, FieldTypes(c.ctor, ts[col])))
  }

  function WalkDefault(tree: Tree, vs: seq<Value>, ts: seq<Type>, col: nat): Outcome
    requires HaveTypes(vs, ts) && col < |vs|
  {
    SpliceValues(vs, ts, col, [], []);
    Walk(tree, Splice(vs, col, []), Splice(ts, col, []))
  }

  /** A switch takes the first case for the value's constructor, else its default. */
  lemma WalkSwitch(col: nat, cases: seq<Case>, default: Option<Tree>, vs: seq<Value>, ts: seq<Type>)
    requires HaveTypes(vs, ts) && col < |vs|
    ensures HeadOf(vs[col]).None? ==> Walk(Switch(col, cases, default), vs, ts) == Stuck
    ensures HeadOf(vs[col]).Some? && CaseIndex(cases, HeadOf(vs[col]).value).None? ==>
              Walk(Switch(col, cases, default), vs, ts)
              == if default.Some? then WalkDefault(default.value, vs, ts, col) else Stuck
  {
  }

  lemma WalkTakes(col: nat, cases: seq<Case>, default: Option<Tree>, vs: seq<Value>, ts: seq<Type>, k: nat)
    requires HaveTypes(vs, ts) && col < |vs| && k < |cases| && HeadOf(vs[col]) == Some(cases[k].ctor)
    requires forall j :: 0 <= j < k ==> cases[j].ctor != cases[k].ctor
    ensures Walk(Switch(col, cases, default), vs, ts) == WalkCase(cases[k], vs, ts, col)
  {
    CaseIndexIs(cases, cases[k].ctor);
  }

  // ---- Later code does not disturb earlier code.

  lemma EndsStable(blocks: seq<BasicBlock>, blocks': seq<BasicBlock>, bb: nat, p: nat, st: State, last: nat,
                   o: Outcome, mode: Mode, n: nat)
    requires Keeps(blocks, blocks') && EndsAs(RunFrom(blocks, bb, p, st, last), st, o, mode, n)
    ensures EndsAs(RunFrom(blocks', bb, p, st, last), st, o, mode, n)
  {
    hide RunFrom, Keeps, Framed, EntersArm, DestsHold;
    if RunFrom(blocks, bb, p, st, last) != Bad {
      RunStable(blocks, blocks', bb, p, st, last);
    }
  }

  lemma TypedPrefix(locals: seq<Slot>, types: seq<ValType>, types': seq<ValType>)
    requires TypedLocals(locals, types') && types <= types'
    ensures TypedLocals(locals, types)
  {
    assert forall i :: 0 <= i < |types| ==> types[i] == types'[i];
  }

  lemma DecidesStable(types: seq<ValType>, types': seq<ValType>, blocks: seq<BasicBlock>, blocks': seq<BasicBlock>,
                      bb: nat, p: nat, cols: seq<Col>, tree: Tree, last: nat, mode: Mode, n: nat)
    requires Decides(types, blocks, bb, p, cols, tree, last, mode, n) && types <= types' && Keeps(blocks, blocks')
    ensures Decides(types', blocks', bb, p, cols, tree, last, mode, n)
  {
    hide RunFrom, Keeps, EndsAs, TypedLocals, Laid, Walk;
    forall vs, st
      ensures DecidesOn(types', blocks', bb, p, cols, tree, last, mode, n, vs, st)
    {
      assert DecidesOn(types, blocks, bb, p, cols, tree, last, mode, n, vs, st);
      if Premises(types', cols, vs, st) {
        TypedPrefix(st.locals, types, types');
        EndsStable(blocks, blocks', bb, p, st, last, Walk(tree, vs, ColTypes(cols)), mode, n);
      }
    }
  }

  lemma BranchesStable(types: seq<ValType>, types': seq<ValType>, blocks: seq<BasicBlock>, blocks': seq<BasicBlock>,
                       t: nat, cols: seq<Col>, col: nat, c: Case, last: nat, mode: Mode, n: nat)
    requires Branches(types, blocks, t, cols, col, c, last, mode, n) && types <= types' && Keeps(blocks, blocks')
    ensures Branches(types', blocks', t, cols, col, c, last, mode, n)
  {
    hide RunFrom, Keeps, EndsAs, TypedLocals, Laid, WalkCase;
    forall vs, st
      ensures BranchOn(types', blocks', t, cols, col, c, last, mode, n, vs, st)
    {
      assert BranchOn(types, blocks, t, cols, col, c, last, mode, n, vs, st);
      if Premises(types', cols, vs, st) && col < |cols| && HeadOf(vs[col]) == Some(c.ctor) {
        TypedPrefix(st.locals, types, types');
        EndsStable(blocks, blocks', t, 0, st, last, WalkCase(c, vs, ColTypes(cols), col), mode, n);
      }
    }
  }
}
