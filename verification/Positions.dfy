/** Which variables of an arm a decision tree still binds: those at positions that
    are not tested on the way to the leaf. */
module Positions {
  import opened Options
  import opened StarTypes
  import opened DecisionTree
  import opened TreeCompile
  import opened FirstMatch
  import opened Patterns

  /** A position inside a value: which argument to take, from the outside in. */
  type Path = seq<nat>

  function SubAt(p: Pat, r: Path): Option<Pat>
    decreases |r|
  {
    if r == [] then Some(p)
    else match p
      case Wildcard(_) => None
      case PCtor(_, args) => if r[0] < |args| then SubAt(args[r[0]], r[1..]) else None
  }

  predicate CtorAt(p: Pat, r: Path) {
    SubAt(p, r).Some? && SubAt(p, r).value.PCtor?
  }

  predicate VarAt(p: Pat, r: Path, x: Binder) {
    SubAt(p, r) == Some(Wildcard(Some(x)))
  }

  // ---- Walking a tree, with the position of each column.

  datatype Place = Place(x: Binder, at: Path)

  /** Positions that a walk tests, and the variables its leaf binds, each with the
      position that it binds. */
  datatype Seen = Seen(tested: set<Path>, bound: set<Place>)

  function Below(p: Path, n: nat): (r: seq<Path>)
    ensures |r| == n && forall j :: 0 <= j < n ==> r[j] == p + [j]
  {
    seq(n, j requires 0 <= j < n => p + [j])
  }

  function Inside(ps: seq<Path>, col: nat, n: nat): seq<Path>
    requires col < |ps|
  {
    Splice(ps, col, Below(ps[col], n))
  }

  function Track(tree: Tree, vs: seq<Value>, ps: seq<Path>): Seen
    requires |ps| == |vs|
    decreases tree
  {
    match tree
    case Leaf(_, bindings) =>
      Seen({}, set b | b in bindings && b.column < |ps| :: Place(Binder(b.action, b.name), ps[b.column]))
    case Fail => Seen({}, {})
    case Switch(col, cases, default) =>
      if col >= |vs| || HeadOf(vs[col]).None? then Seen({}, {})
      else
        var k := CaseIndex(cases, HeadOf(vs[col]).value);
        if k.Some? && k.value < |cases| then
          AlsoTested(ps[col], Track(cases[k.value].tree, Splice(vs, col, Args(vs[col])), Inside(ps, col, |Args(vs[col])|)))
        else if default.Some? then AlsoTested(ps[col], Track(default.value, Splice(vs, col, []), Inside(ps, col, 0)))
        else Seen({ps[col]}, {})
  }

  function AlsoTested(p: Path, seen: Seen): Seen {
    seen.(tested := seen.tested + {p})
  }

  function VarsOf(bound: seq<Bound>): set<Binder> {
    set b | b in bound :: Binder(b.arm, b.name)
  }

  function VarsAt(places: set<Place>): set<Binder> {
    set place | place in places :: place.x
  }

  /** The variables bound at the leaf are those of the walk's outcome. */
  lemma {:induction false} TrackIsWalk(tree: Tree, vs: seq<Value>, ts: seq<Type>, ps: seq<Path>)
    requires HaveTypes(vs, ts) && |ps| == |vs| && Walk(tree, vs, ts).Hit?
    ensures VarsOf(Walk(tree, vs, ts).bound) == VarsAt(Track(tree, vs, ps).bound)
    decreases tree
  {
    match tree
    case Leaf(_, bindings) => LeafTracked(tree, vs, ts, ps);
    case Switch(col, cases, default) =>
      var c := HeadOf(vs[col]).value;
      var k := CaseIndex(cases, c);
      var args, fts := Args(vs[col]), FieldTypes(c, ts[col]);
      if k.Some? && k.value < |cases| {
        HeadFits(vs[col], ts[col]);
        SpliceValues(vs, ts, col, args, fts);
        TrackIsWalk(cases[k.value].tree, Splice(vs, col, args), Splice(ts, col, fts), Inside(ps, col, |args|));
      } else {
        SpliceValues(vs, ts, col, [], []);
        TrackIsWalk(default.value, Splice(vs, col, []), Splice(ts, col, []), Inside(ps, col, 0));
      }
  }

  lemma LeafTracked(tree: Tree, vs: seq<Value>, ts: seq<Type>, ps: seq<Path>)
    requires tree.Leaf? && HaveTypes(vs, ts) && |ps| == |vs| && Walk(tree, vs, ts).Hit?
    ensures VarsOf(Walk(tree, vs, ts).bound) == VarsAt(Track(tree, vs, ps).bound)
  {
    LeafPlaces(tree.bindings, Walk(tree, vs, ts).bound, ps);
  }

  lemma LeafPlaces(bindings: seq<LeafBinding>, bound: seq<Bound>, ps: seq<Path>)
    requires |bound| == |bindings| && forall b :: b in bindings ==> b.column < |ps|
    requires forall k :: 0 <= k < |bindings| ==> bound[k].arm == bindings[k].action && bound[k].name == bindings[k].name
    ensures var places := set b | b in bindings && b.column < |ps| :: Place(Binder(b.action, b.name), ps[b.column]);
            VarsOf(bound) == VarsAt(places)
  {
    var places := set b | b in bindings && b.column < |ps| :: Place(Binder(b.action, b.name), ps[b.column]);
    forall x | x in VarsOf(bound)
      ensures x in VarsAt(places)
    {
      var b :| b in bound && x == Binder(b.arm, b.name);
      var k :| 0 <= k < |bound| && bound[k] == b;
      assert bindings[k] in bindings;
      assert Place(x, ps[bindings[k].column]) in places;
    }
    forall x | x in VarsAt(places)
      ensures x in VarsOf(bound)
    {
      var place :| place in places && x == place.x;
      var lb :| lb in bindings && lb.column < |ps| && place == Place(Binder(lb.action, lb.name), ps[lb.column]);
      var k :| 0 <= k < |bindings| && bindings[k] == lb;
      assert bound[k] in bound;
    }
  }

  // ---- Positions of different columns are apart.

  predicate Apart(ps: seq<Path>) {
    forall i, j :: 0 <= i < |ps| && 0 <= j < |ps| && i != j ==> !(ps[i] <= ps[j])
  }

  predicate Under(ps: seq<Path>, p: Path) {
    exists i :: 0 <= i < |ps| && ps[i] <= p
  }

  lemma PrefixOfLonger(a: Path, b: Path, n: nat)
    requires a <= b + [n]
    ensures a <= b || a == b + [n]
  {
    if |a| <= |b| {
      assert a == (b + [n])[..|a|] == b[..|a|];
    }
  }

  lemma InsideApart(ps: seq<Path>, col: nat, n: nat)
    requires Apart(ps) && col < |ps|
    ensures Apart(Inside(ps, col, n))
  {
    var qs := Inside(ps, col, n);
    hide Inside, Splice;
    forall i, j | 0 <= i < |qs| && 0 <= j < |qs| && i != j
      ensures !(qs[i] <= qs[j])
    {
      InsideFrom(ps, col, n, i);
      InsideFrom(ps, col, n, j);
      InsidePair(ps, col, n, i, j);
    }
  }

  lemma InsideFrom(ps: seq<Path>, col: nat, n: nat, i: nat)
    requires col < |ps| && i < |ps| - 1 + n
    ensures Inside(ps, col, n)[i]
         == if i < col then ps[i] else if i < col + n then ps[col] + [i - col] else ps[i + 1 - n]
  {
    SpliceFrom(ps, col, Below(ps[col], n), i);
  }

  lemma InsidePair(ps: seq<Path>, col: nat, n: nat, i: nat, j: nat)
    requires Apart(ps) && col < |ps| && i < |ps| - 1 + n && j < |ps| - 1 + n && i != j
    ensures !(Inside(ps, col, n)[i] <= Inside(ps, col, n)[j])
  {
    InsideFrom(ps, col, n, i);
    InsideFrom(ps, col, n, j);
    if col <= i < col + n && col <= j < col + n {
      SiblingsApart(ps[col], i - col, j - col);
    } else if col <= j < col + n {
      ChildApart(Inside(ps, col, n)[i], ps[col], j - col);
    } else if col <= i < col + n {
      ChildApart(Inside(ps, col, n)[j], ps[col], i - col);
    }
  }

  lemma SiblingsApart(p: Path, x: nat, y: nat)
    requires x != y
    ensures !(p + [x] <= p + [y])
  {
    assert (p + [x])[|p|] == x && (p + [y])[|p|] == y;
  }

  lemma ChildApart(q: Path, p: Path, y: nat)
    requires !(q <= p) && !(p <= q)
    ensures !(q <= p + [y]) && !(p + [y] <= q)
  {
    assert p <= p + [y];
    if q <= p + [y] {
      PrefixOfLonger(q, p, y);
    }
    assert p + [y] <= q ==> p <= q;
  }

  /** Positions below the columns that replace a tested one are positions below the
      columns before, other than the tested one itself. */
  lemma InsideUnder(ps: seq<Path>, col: nat, n: nat, p: Path)
    requires Apart(ps) && col < |ps| && Under(Inside(ps, col, n), p)
    ensures Under(ps, p) && p != ps[col]
  {
    var i :| 0 <= i < |Inside(ps, col, n)| && Inside(ps, col, n)[i] <= p;
    InsideFrom(ps, col, n, i);
    if col <= i < col + n {
      assert ps[col] <= ps[col] + [i - col] <= p;
    }
  }

  /** All that a walk tests or binds is at or below the columns it starts from. */
  lemma {:induction false} TrackUnder(tree: Tree, vs: seq<Value>, ps: seq<Path>)
    requires |ps| == |vs| && Apart(ps)
    ensures forall p :: p in Track(tree, vs, ps).tested ==> Under(ps, p)
    ensures forall place :: place in Track(tree, vs, ps).bound ==> Under(ps, place.at)
    decreases tree, 0
  {
    match tree
    case Leaf(_, bindings) =>
    case Fail =>
    case Switch(col, cases, default) =>
      if col < |vs| && HeadOf(vs[col]).Some? {
        var k := CaseIndex(cases, HeadOf(vs[col]).value);
        var args := Args(vs[col]);
        assert ps[col] <= ps[col];
        if k.Some? && k.value < |cases| {
          SubUnder(cases[k.value].tree, Splice(vs, col, args), ps, col, |args|);
        } else if default.Some? {
          SubUnder(default.value, Splice(vs, col, []), ps, col, 0);
        }
      }
  }

  lemma {:induction false} SubUnder(tree: Tree, vs: seq<Value>, ps: seq<Path>, col: nat, n: nat)
    requires Apart(ps) && col < |ps| && |vs| == |Inside(ps, col, n)|
    ensures forall p :: p in Track(tree, vs, Inside(ps, col, n)).tested ==> Under(ps, p) && p != ps[col]
    ensures forall place :: place in Track(tree, vs, Inside(ps, col, n)).bound ==> Under(ps, place.at) && place.at != ps[col]
    decreases tree, 1
  {
    hide Inside, Under, Apart;
    InsideApart(ps, col, n);
    var qs := Inside(ps, col, n);
    TrackUnder(tree, vs, qs);
    forall p | Under(qs, p)
      ensures Under(ps, p) && p != ps[col]
    {
      InsideUnder(ps, col, n, p);
    }
  }

  // ---- Where a position moves when its column's value is taken apart.

  /** The sub-patterns that replace a pattern: a constructor's arguments, or blanks. */
  predicate Opens(p: Pat, mid: seq<Pat>) {
    match p
    case PCtor(_, args) => mid == args
    case Wildcard(_) => mid == Blanks(|mid|)
  }

  /** Position r in column i still exists after column col is replaced by n others. */
  predicate Stays(col: nat, n: nat, i: nat, r: Path) {
    i == col ==> r != [] && r[0] < n
  }

  function NewIndex(col: nat, n: nat, i: nat, r: Path): nat
    requires Stays(col, n, i, r)
  {
    if i < col then i else if i == col then col + r[0] else i - 1 + n
  }

  function NewPath(col: nat, n: nat, i: nat, r: Path): Path
    requires Stays(col, n, i, r)
  {
    if i == col then r[1..] else r
  }

  lemma PlaceMoves(ps: seq<Path>, col: nat, n: nat, i: nat, r: Path)
    requires col < |ps| && i < |ps| && Stays(col, n, i, r)
    ensures NewIndex(col, n, i, r) < |Inside(ps, col, n)|
    ensures Inside(ps, col, n)[NewIndex(col, n, i, r)] + NewPath(col, n, i, r) == ps[i] + r
  {
    InsideFrom(ps, col, n, NewIndex(col, n, i, r));
    if i == col {
      assert ps[i] + [r[0]] + r[1..] == ps[i] + ([r[0]] + r[1..]) && [r[0]] + r[1..] == r;
    }
  }

  /** The sub-pattern there is the same, up to blanks. */
  lemma SubMoves(pats: seq<Pat>, col: nat, mid: seq<Pat>, i: nat, r: Path)
    requires col < |pats| && i < |pats| && Opens(pats[col], mid) && Stays(col, |mid|, i, r)
    ensures NewIndex(col, |mid|, i, r) < |Splice(pats, col, mid)|
    ensures var p := Splice(pats, col, mid)[NewIndex(col, |mid|, i, r)];
            && (CtorAt(p, NewPath(col, |mid|, i, r)) <==> CtorAt(pats[i], r))
            && forall x :: VarAt(p, NewPath(col, |mid|, i, r), x) <==> VarAt(pats[i], r, x)
  {
    SpliceFrom(pats, col, mid, NewIndex(col, |mid|, i, r));
  }

  /** Where a position of the new columns was before. */
  function OldIndex(col: nat, n: nat, i: nat): nat {
    if i < col then i else if i < col + n then col else i + 1 - n
  }

  function OldPath(col: nat, n: nat, i: nat, r: Path): Path {
    if col <= i < col + n then [i - col] + r else r
  }

  lemma MovesBack(col: nat, n: nat, i: nat, r: Path)
    ensures Stays(col, n, OldIndex(col, n, i), OldPath(col, n, i, r))
    ensures NewIndex(col, n, OldIndex(col, n, i), OldPath(col, n, i, r)) == i
    ensures NewPath(col, n, OldIndex(col, n, i), OldPath(col, n, i, r)) == r
  {
  }

  // ---- One step of the compiler.

  lemma SpecOpens(row: Row, col: nat, c: Ctor, n: nat)
    requires col < |row.pats| && SpecRow(row, col, c, n) != []
    requires row.pats[col].PCtor? ==> |row.pats[col].args| == n
    ensures exists mid :: Opens(row.pats[col], mid) && |mid| == n && SpecRow(row, col, c, n)[0].pats == Splice(row.pats, col, mid)
  {
    var mid := if row.pats[col].PCtor? then row.pats[col].args else Blanks(n);
    assert Opens(row.pats[col], mid);
  }

  lemma SpecMoves(row: Row, col: nat, c: Ctor, n: nat, i: nat, r: Path)
    requires col < |row.pats| && i < |row.pats| && SpecRow(row, col, c, n) != [] && Stays(col, n, i, r)
    requires row.pats[col].PCtor? ==> |row.pats[col].args| == n
    ensures var pats := SpecRow(row, col, c, n)[0].pats;
            && NewIndex(col, n, i, r) < |pats|
            && (CtorAt(pats[NewIndex(col, n, i, r)], NewPath(col, n, i, r)) <==> CtorAt(row.pats[i], r))
            && forall x :: VarAt(pats[NewIndex(col, n, i, r)], NewPath(col, n, i, r), x) <==> VarAt(row.pats[i], r, x)
  {
    hide CtorAt, VarAt, NewIndex, NewPath, Splice, Opens;
    SpecOpens(row, col, c, n);
    var mid :| Opens(row.pats[col], mid) && |mid| == n && SpecRow(row, col, c, n)[0].pats == Splice(row.pats, col, mid);
    SubMoves(row.pats, col, mid, i, r);
  }

  lemma DefaultMoves(row: Row, col: nat, i: nat, r: Path)
    requires col < |row.pats| && i < |row.pats| && DefaultRow(row, col) != [] && Stays(col, 0, i, r)
    ensures var pats := DefaultRow(row, col)[0].pats;
            && NewIndex(col, 0, i, r) < |pats|
            && (CtorAt(pats[NewIndex(col, 0, i, r)], NewPath(col, 0, i, r)) <==> CtorAt(row.pats[i], r))
            && forall x :: VarAt(pats[NewIndex(col, 0, i, r)], NewPath(col, 0, i, r), x) <==> VarAt(row.pats[i], r, x)
  {
    SubMoves(row.pats, col, [], i, r);
  }

  /** No row up to the first that matches has a constructor at the position. */
  predicate Unforced(rows: seq<Row>, vs: seq<Value>, i: nat, r: Path) {
    rows == []
    || (i < |rows[0].pats| && !CtorAt(rows[0].pats[i], r)
        && (RowMatches(rows[0].pats, vs) || Unforced(rows[1..], vs, i, r)))
  }

  lemma {:induction false} SpecUnforced(rows: seq<Row>, ts: seq<Type>, vs: seq<Value>, col: nat, c: Ctor, i: nat, r: Path)
    requires MatrixTyped(rows, ts) && HaveTypes(vs, ts) && col < |ts| && HeadOf(vs[col]) == Some(c) && Wide(rows, col)
    requires Stays(col, |Args(vs[col])|, i, r) && Unforced(rows, vs, i, r)
    ensures var n := |Args(vs[col])|;
            Unforced(SpecRows(rows, col, c, n), Splice(vs, col, Args(vs[col])), NewIndex(col, n, i, r), NewPath(col, n, i, r))
  {
    if rows != [] {
      var args, row := Args(vs[col]), rows[0];
      HeadWide(row, rows, ts, vs, col, c);
      hide CtorAt, RowMatches, Splice, NewIndex, NewPath, HasType, PatHasType;
      SpecRowMatches(row, vs, col, c);
      var kept := SpecRow(row, col, c, |args|);
      if kept != [] {
        SpecMoves(row, col, c, |args|, i, r);
      }
      var rest := SpecRows(rows[1..], col, c, |args|);
      assert kept != [] ==> (kept + rest)[0] == kept[0] && (kept + rest)[1..] == rest;
      assert kept == [] ==> kept + rest == rest;
      if !RowMatches(row.pats, vs) {
        assert MatrixTyped(rows[1..], ts);
        SpecUnforced(rows[1..], ts, vs, col, c, i, r);
      }
    }
  }

  lemma HeadWide(row: Row, rows: seq<Row>, ts: seq<Type>, vs: seq<Value>, col: nat, c: Ctor)
    requires MatrixTyped(rows, ts) && HaveTypes(vs, ts) && col < |ts| && HeadOf(vs[col]) == Some(c) && row in rows
    ensures |row.pats| == |ts| && (row.pats[col].PCtor? && row.pats[col].ctor == c ==> |row.pats[col].args| == |Args(vs[col])|)
    ensures |FieldTypes(c, ts[col])| == |Args(vs[col])|
  {
    var k :| 0 <= k < |rows| && rows[k] == row;
    assert PatsHaveTypes(rows[k].pats, ts);
    assert PatHasType(row.pats[col], ts[col]);
    HeadFits(vs[col], ts[col]);
  }

  /** What a step keeps of the first matching row's variables at a position. */
  ghost predicate RowMoves(pats: seq<Pat>, pats': seq<Pat>, col: nat, n: nat, i: nat, r: Path) {
    i < |pats| && Stays(col, n, i, r) ==>
      && NewIndex(col, n, i, r) < |pats'|
      && forall x :: VarAt(pats'[NewIndex(col, n, i, r)], NewPath(col, n, i, r), x) <==> VarAt(pats[i], r, x)
  }

  predicate StillUnforced(rows: seq<Row>, vs: seq<Value>, rows': seq<Row>, vs': seq<Value>, col: nat, n: nat, i: nat, r: Path) {
    Stays(col, n, i, r) && Unforced(rows, vs, i, r) ==> Unforced(rows', vs', NewIndex(col, n, i, r), NewPath(col, n, i, r))
  }

  ghost predicate FirstMoves(first: Option<Row>, first': Option<Row>, col: nat, n: nat, i: nat, r: Path) {
    && (first.Some? <==> first'.Some?)
    && (first.Some? && first'.Some? ==> RowMoves(first.value.pats, first'.value.pats, col, n, i, r))
    && (first.Some? && i == col && i < |first.value.pats| ==> forall x :: VarAt(first.value.pats[i], r, x) && r != [] ==> r[0] < n)
  }

  /** A test of column col leads to rows' on values vs', with n columns for the tested one. */
  ghost predicate StepsTo(rows: seq<Row>, ts: seq<Type>, vs: seq<Value>, col: nat, rows': seq<Row>, ts': seq<Type>, vs': seq<Value>, n: nat)
    requires MatrixTyped(rows, ts) && col < |vs|
  {
    && MatrixTyped(rows', ts') && HaveTypes(vs', ts') && |vs'| == |vs| - 1 + n && MatrixSize(rows') < MatrixSize(rows)
    && (forall ps: seq<Path> :: |ps| == |vs| ==> Tracks(rows, ts, vs, ps, col, rows', ts', vs', n))
    && (forall i: nat, r: Path :: i < |ts| ==> FirstMoves(FirstRow(rows, vs), FirstRow(rows', vs'), col, n, i, r))
    && (forall i: nat, r: Path :: i < |ts| ==> StillUnforced(rows, vs, rows', vs', col, n, i, r))
  }

  predicate Tracks(rows: seq<Row>, ts: seq<Type>, vs: seq<Value>, ps: seq<Path>, col: nat,
                   rows': seq<Row>, ts': seq<Type>, vs': seq<Value>, n: nat)
    requires MatrixTyped(rows, ts) && MatrixTyped(rows', ts') && |ps| == |vs| && col < |vs| && |vs'| == |vs| - 1 + n
  {
    Track(Compile(rows, ts), vs, ps) == AlsoTested(ps[col], Track(Compile(rows', ts'), vs', Inside(ps, col, n)))
  }

  predicate Selects(rows: seq<Row>, ts: seq<Type>, vs: seq<Value>, col: nat) {
    && MatrixTyped(rows, ts) && HaveTypes(vs, ts) && Splits(rows, ts, col) && Wide(rows, col)
    && !AllWild(rows[0].pats) && Wide(rows, SelectColumn(rows)) && col == SelectColumn(rows) && HeadOf(vs[col]).Some?
  }

  lemma TakesCase(rows: seq<Row>, ts: seq<Type>, vs: seq<Value>, ps: seq<Path>, col: nat, c: Ctor)
    requires Selects(rows, ts, vs, col) && HeadOf(vs[col]) == Some(c) && c in HeadCtors(rows, col) && |ps| == |vs|
    ensures Track(Compile(rows, ts), vs, ps)
         == AlsoTested(ps[col], Track(CompileCase(rows, ts, col, c), Splice(vs, col, Args(vs[col])), Inside(ps, col, |Args(vs[col])|)))
  {
    hide HeadCtors, HasType, AllWild, CaseIndex, SelectColumn, CompileCase, CompileDefault, Splice, Inside;
    var sigma := HeadCtors(rows, col);
    CompiledSwitch(rows, ts, col);
    CasesAre(rows, ts, col, sigma);
    hide Compile, CompileCases, MatrixTyped, Splits;
    var tree := Compile(rows, ts);
    CaseIndexIs(tree.cases, c);
    var j :| 0 <= j < |sigma| && sigma[j] == c;
    assert tree.cases[j].ctor == c;
  }

  lemma TakesDefault(rows: seq<Row>, ts: seq<Type>, vs: seq<Value>, ps: seq<Path>, col: nat)
    requires Selects(rows, ts, vs, col) && HeadOf(vs[col]).value !in HeadCtors(rows, col) && |ps| == |vs|
    ensures Track(Compile(rows, ts), vs, ps)
         == AlsoTested(ps[col], Track(CompileDefault(rows, ts, col), Splice(vs, col, []), Inside(ps, col, 0)))
  {
    hide HeadCtors, HasType, AllWild, CaseIndex, SelectColumn, CompileCase, CompileDefault, Splice, Inside, CompleteSignature;
    var sigma := HeadCtors(rows, col);
    CompiledSwitch(rows, ts, col);
    CasesAre(rows, ts, col, sigma);
    if CompleteSignature(sigma, ts[col]) {
      CompleteCovers(rows, ts, col, vs[col]);
    }
    hide Compile, CompileCases, MatrixTyped, Splits;
    CaseIndexIs(Compile(rows, ts).cases, HeadOf(vs[col]).value);
  }

  lemma CaseStep(rows: seq<Row>, ts: seq<Type>, vs: seq<Value>, col: nat, c: Ctor)
    returns (rows': seq<Row>, ts': seq<Type>, vs': seq<Value>)
    requires Selects(rows, ts, vs, col) && HeadOf(vs[col]) == Some(c) && c in HeadCtors(rows, col)
    ensures StepsTo(rows, ts, vs, col, rows', ts', vs', |Args(vs[col])|)
  {
    hide AllWild, SelectColumn, Compile, Track, HasType, Splice, HeadCtors, VarAt, CtorAt, PatHasType, NewIndex, NewPath, Unforced,
         SpecRows, FirstRow;
    var args, fts := Args(vs[col]), FieldTypes(c, ts[col]);
    HeadWide(rows[0], rows, ts, vs, col, c);
    HeadFits(vs[col], ts[col]);
    SpecSmaller(rows, ts, col, c);
    SpliceValues(vs, ts, col, args, fts);
    rows', ts', vs' := SpecRows(rows, col, c, |fts|), Splice(ts, col, fts), Splice(vs, col, args);
    forall ps: seq<Path> | |ps| == |vs|
      ensures Tracks(rows, ts, vs, ps, col, rows', ts', vs', |args|)
    {
      TakesCase(rows, ts, vs, ps, col, c);
    }
    forall i: nat, r: Path | i < |ts|
      ensures FirstMoves(FirstRow(rows, vs), FirstRow(rows', vs'), col, |args|, i, r)
    {
      CaseFirstMoves(rows, ts, vs, col, c, i, r);
    }
    forall i: nat, r: Path | i < |ts|
      ensures StillUnforced(rows, vs, rows', vs', col, |args|, i, r)
    {
      if Stays(col, |args|, i, r) && Unforced(rows, vs, i, r) {
        SpecUnforced(rows, ts, vs, col, c, i, r);
      }
    }
  }

  lemma CaseFirstMoves(rows: seq<Row>, ts: seq<Type>, vs: seq<Value>, col: nat, c: Ctor, i: nat, r: Path)
    requires MatrixTyped(rows, ts) && HaveTypes(vs, ts) && col < |ts| && HeadOf(vs[col]) == Some(c) && Wide(rows, col) && i < |ts|
    ensures FirstMoves(FirstRow(rows, vs), FirstRow(SpecRows(rows, col, c, |Args(vs[col])|), Splice(vs, col, Args(vs[col]))),
                       col, |Args(vs[col])|, i, r)
  {
    hide CtorAt, NewIndex, NewPath, Splice, SpecRows, PatHasType, HasType;
    SpecFirst(rows, ts, vs, col, c);
    var first := FirstRow(rows, vs);
    if first.Some? {
      FirstRowTyped(rows, ts, vs);
      HeadWide(first.value, rows, ts, vs, col, c);
      if Stays(col, |Args(vs[col])|, i, r) {
        SpecMoves(first.value, col, c, |Args(vs[col])|, i, r);
      }
      assert Matches(first.value.pats[i], vs[i]);
    }
  }

  lemma {:induction false} DefaultUnforced(rows: seq<Row>, vs: seq<Value>, col: nat, i: nat, r: Path)
    requires Wide(rows, col) && col < |vs| && HeadOf(vs[col]).Some? && Stays(col, 0, i, r) && Unforced(rows, vs, i, r)
    requires forall k :: 0 <= k < |rows| ==> |rows[k].pats| == |vs|
    requires forall k :: 0 <= k < |rows| && rows[k].pats[col].PCtor? ==> rows[k].pats[col].ctor != HeadOf(vs[col]).value
    ensures Unforced(DefaultRows(rows, col), Splice(vs, col, []), NewIndex(col, 0, i, r), NewPath(col, 0, i, r))
  {
    if rows != [] {
      var row := rows[0];
      hide CtorAt, NewIndex, NewPath;
      if row.pats[col].Wildcard? {
        SpliceMatches(row.pats, vs, col, [], []);
        DefaultMoves(row, col, i, r);
      }
      var kept, rest := DefaultRow(row, col), DefaultRows(rows[1..], col);
      assert kept != [] ==> (kept + rest)[0] == kept[0] && (kept + rest)[1..] == rest;
      assert kept == [] ==> kept + rest == rest;
      if !RowMatches(row.pats, vs) {
        DefaultUnforced(rows[1..], vs, col, i, r);
      }
    }
  }

  lemma DefaultFirstMoves(rows: seq<Row>, ts: seq<Type>, vs: seq<Value>, col: nat, i: nat, r: Path)
    requires MatrixTyped(rows, ts) && |vs| == |ts| && Wide(rows, col) && col < |vs| && HeadOf(vs[col]).Some? && i < |ts|
    requires forall k :: 0 <= k < |rows| ==> |rows[k].pats| == |vs|
    requires forall k :: 0 <= k < |rows| && rows[k].pats[col].PCtor? ==> rows[k].pats[col].ctor != HeadOf(vs[col]).value
    ensures FirstMoves(FirstRow(rows, vs), FirstRow(DefaultRows(rows, col), Splice(vs, col, [])), col, 0, i, r)
  {
    hide CtorAt, NewIndex, NewPath, Splice, PatHasType;
    DefaultFirst(rows, vs, col);
    var first := FirstRow(rows, vs);
    if first.Some? {
      FirstRowTyped(rows, ts, vs);
      if Stays(col, 0, i, r) {
        DefaultMoves(first.value, col, i, r);
      }
    }
  }

  lemma DefaultStep(rows: seq<Row>, ts: seq<Type>, vs: seq<Value>, col: nat)
    returns (rows': seq<Row>, ts': seq<Type>, vs': seq<Value>)
    requires Selects(rows, ts, vs, col) && HeadOf(vs[col]).value !in HeadCtors(rows, col)
    ensures StepsTo(rows, ts, vs, col, rows', ts', vs', 0)
  {
    hide AllWild, SelectColumn, Compile, Track, HasType, Splice, VarAt, CtorAt, PatHasType, NewIndex, NewPath, Unforced, FirstRow;
    DefaultSmaller(rows, ts, col);
    SpliceValues(vs, ts, col, [], []);
    rows', ts', vs' := DefaultRows(rows, col), Splice(ts, col, []), Splice(vs, col, []);
    HeadCtorsAre(rows, col);
    forall k | 0 <= k < |rows|
      ensures |rows[k].pats| == |vs|
    {
      assert PatsHaveTypes(rows[k].pats, ts);
    }
    hide HeadCtors, DefaultRows;
    forall ps: seq<Path> | |ps| == |vs|
      ensures Tracks(rows, ts, vs, ps, col, rows', ts', vs', 0)
    {
      TakesDefault(rows, ts, vs, ps, col);
    }
    forall i: nat, r: Path | i < |ts|
      ensures FirstMoves(FirstRow(rows, vs), FirstRow(rows', vs'), col, 0, i, r)
    {
      DefaultFirstMoves(rows, ts, vs, col, i, r);
    }
    forall i: nat, r: Path | i < |ts|
      ensures StillUnforced(rows, vs, rows', vs', col, 0, i, r)
    {
      if Stays(col, 0, i, r) && Unforced(rows, vs, i, r) {
        DefaultUnforced(rows, vs, col, i, r);
      }
    }
  }

  lemma Step(rows: seq<Row>, ts: seq<Type>, vs: seq<Value>)
    returns (col: nat, rows': seq<Row>, ts': seq<Type>, vs': seq<Value>, n: nat)
    requires MatrixTyped(rows, ts) && HaveTypes(vs, ts) && rows != [] && !AllWild(rows[0].pats)
    ensures col < |ts| && col < |rows[0].pats| && rows[0].pats[col].PCtor? && StepsTo(rows, ts, vs, col, rows', ts', vs', n)
  {
    hide StepsTo, Compile, Track, HasType;
    SelectSplits(rows, ts);
    col := SelectColumn(rows);
    SpecTyped(rows, ts, col, UnitCtor);
    SplitHasHead(rows, ts, col, vs[col]);
    hide SelectColumn, AllWild, MatrixTyped;
    var c := HeadOf(vs[col]).value;
    if c in HeadCtors(rows, col) {
      rows', ts', vs' := CaseStep(rows, ts, vs, col, c);
      n := |Args(vs[col])|;
    } else {
      rows', ts', vs' := DefaultStep(rows, ts, vs, col);
      n := 0;
    }
  }

  // ---- Main results.

  predicate Starts(rows: seq<Row>, ts: seq<Type>, vs: seq<Value>, ps: seq<Path>) {
    MatrixTyped(rows, ts) && HaveTypes(vs, ts) && |ps| == |ts| && Apart(ps)
  }

  /** A variable of the first matching row is bound at the leaf exactly when its
      position is not tested on the way there. It is not tested when no row up to
      that one has a constructor there. */
  lemma {:induction false} BoundUnlessTested(rows: seq<Row>, ts: seq<Type>, vs: seq<Value>, ps: seq<Path>, i: nat, r: Path, x: Binder)
    requires Starts(rows, ts, vs, ps) && i < |ts| && FirstRow(rows, vs).Some?
    requires i < |FirstRow(rows, vs).value.pats| && VarAt(FirstRow(rows, vs).value.pats[i], r, x)
    ensures var seen := Track(Compile(rows, ts), vs, ps);
            && (Place(x, ps[i] + r) in seen.bound <==> ps[i] + r !in seen.tested)
            && (Unforced(rows, vs, i, r) ==> ps[i] + r !in seen.tested)
    decreases MatrixSize(rows)
  {
    if AllWild(rows[0].pats) {
      LeafPlace(rows, ts, vs, ps, i, r, x);
    } else {
      hide Compile, Track, Apart, MatrixTyped, HaveTypes, SubAt, Unforced, NewIndex, NewPath, MatrixSize, RowMatches;
      var col, rows', ts', vs', n := Step(rows, ts, vs);
      assert Tracks(rows, ts, vs, ps, col, rows', ts', vs', n);
      SubUnder(Compile(rows', ts'), vs', ps, col, n);
      if i == col && r == [] {
        assert ps[i] + r == ps[col];
        SplitForces(rows, vs, col);
      } else {
        assert FirstMoves(FirstRow(rows, vs), FirstRow(rows', vs'), col, n, i, r);
        assert Stays(col, n, i, r);
        PlaceMoves(ps, col, n, i, r);
        InsideApart(ps, col, n);
        NotTheTested(ps, col, i, r);
        BoundUnlessTested(rows', ts', vs', Inside(ps, col, n), NewIndex(col, n, i, r), NewPath(col, n, i, r), x);
        assert StillUnforced(rows, vs, rows', vs', col, n, i, r);
      }
    }
  }

  lemma SplitForces(rows: seq<Row>, vs: seq<Value>, col: nat)
    requires rows != [] && col < |rows[0].pats| && rows[0].pats[col].PCtor?
    ensures !Unforced(rows, vs, col, [])
  {
  }

  lemma NotTheTested(ps: seq<Path>, col: nat, i: nat, r: Path)
    requires Apart(ps) && col < |ps| && i < |ps| && (i == col ==> r != [])
    ensures ps[i] + r != ps[col]
  {
    assert ps[i] <= ps[i] + r;
    assert |ps[i] + r| == |ps[i]| + |r|;
  }

  lemma LeafPlace(rows: seq<Row>, ts: seq<Type>, vs: seq<Value>, ps: seq<Path>, i: nat, r: Path, x: Binder)
    requires Starts(rows, ts, vs, ps) && i < |ts| && rows != [] && AllWild(rows[0].pats)
    requires i < |rows[0].pats| && VarAt(rows[0].pats[i], r, x)
    ensures var seen := Track(Compile(rows, ts), vs, ps); Place(x, ps[i] + r) in seen.bound && seen.tested == {}
  {
    assert PatsHaveTypes(rows[0].pats, ts);
    var bindings := BindingsUpTo(rows[0], |rows[0].pats|);
    assert LeafBinding(x.arm, x.name, i) in bindings;
    assert ps[i] + r == ps[i];
  }

  /** What the leaf binds is a variable of the first matching row, at its position. */
  lemma {:induction false} BoundIsPlaced(rows: seq<Row>, ts: seq<Type>, vs: seq<Value>, ps: seq<Path>, x: Binder, at: Path)
    returns (i: nat, r: Path)
    requires Starts(rows, ts, vs, ps) && Place(x, at) in Track(Compile(rows, ts), vs, ps).bound
    ensures FirstRow(rows, vs).Some? && i < |ts| && i < |FirstRow(rows, vs).value.pats| && at == ps[i] + r
    ensures VarAt(FirstRow(rows, vs).value.pats[i], r, x)
    decreases MatrixSize(rows)
  {
    if AllWild(rows[0].pats) {
      i, r := LeafPlaced(rows, ts, vs, ps, x, at);
    } else {
      hide Compile, Track, Apart, MatrixTyped, HaveTypes, SubAt, NewIndex, NewPath, MatrixSize, FirstRow;
      var col, rows', ts', vs', n := Step(rows, ts, vs);
      assert Tracks(rows, ts, vs, ps, col, rows', ts', vs', n);
      InsideApart(ps, col, n);
      var i', r' := BoundIsPlaced(rows', ts', vs', Inside(ps, col, n), x, at);
      i, r := OldIndex(col, n, i'), OldPath(col, n, i', r');
      MovesBack(col, n, i', r');
      PlaceMoves(ps, col, n, i, r);
      assert FirstMoves(FirstRow(rows, vs), FirstRow(rows', vs'), col, n, i, r);
      FirstRowTyped(rows, ts, vs);
    }
  }

  lemma LeafPlaced(rows: seq<Row>, ts: seq<Type>, vs: seq<Value>, ps: seq<Path>, x: Binder, at: Path) returns (i: nat, r: Path)
    requires Starts(rows, ts, vs, ps) && rows != [] && AllWild(rows[0].pats)
    requires Place(x, at) in Track(Compile(rows, ts), vs, ps).bound
    ensures FirstRow(rows, vs) == Some(rows[0]) && i < |ts| && i < |rows[0].pats| && at == ps[i] + r
    ensures VarAt(rows[0].pats[i], r, x)
  {
    assert PatsHaveTypes(rows[0].pats, ts);
    var bindings := BindingsUpTo(rows[0], |rows[0].pats|);
    var b :| b in bindings && b.column < |ps| && Place(x, at) == Place(Binder(b.action, b.name), ps[b.column]);
    i, r := b.column, [];
  }

  // ---- Matches.

  /** Positions of the scrutinee that the compiled match tests when it is v. */
  function TestedIn(arms: seq<Source>, t: Type, v: Value): set<Path>
    requires ArmsTyped(arms, t)
  {
    ArmRowsTyped(arms, t);
    Track(Compile(ArmRows(arms, t), [t]), [v], [[]]).tested
  }

  /** Arm k has the variable x at position q of its pattern. */
  predicate ArmVar(arms: seq<Source>, t: Type, k: nat, q: Path, x: string)
    requires ArmsTyped(arms, t) && k < |arms|
  {
    VarAt(Lower(arms[k], k, t), q, Binder(k, x))
  }

  /** No arm before k has a constructor at position q. */
  predicate NoneBefore(arms: seq<Source>, t: Type, k: nat, q: Path)
    requires ArmsTyped(arms, t) && k <= |arms|
  {
    forall j :: 0 <= j < k ==> !CtorAt(Lower(arms[j], j, t), q)
  }

  /** The arm entered has a variable bound exactly when the variable stands at some
      position that is not tested; in particular when no earlier arm has a
      constructor there. */
  lemma MatchBindsExactly(arms: seq<Source>, t: Type, v: Value, k: nat, x: string)
    requires ArmsTyped(arms, t) && MatrixTyped(ArmRows(arms, t), [t]) && HasType(v, t) && FirstArm(arms, t, v) == Some(k)
    requires HaveTypes([v], [t]) && Walk(Compile(ArmRows(arms, t), [t]), [v], [t]).Hit?
    ensures Binder(k, x) in VarsOf(Walk(Compile(ArmRows(arms, t), [t]), [v], [t]).bound)
       <==> (exists q :: ArmVar(arms, t, k, q, x) && q !in TestedIn(arms, t, v))
  {
    hide *;
    if Binder(k, x) in VarsOf(Walk(Compile(ArmRows(arms, t), [t]), [v], [t]).bound) {
      BoundIsUntested(arms, t, v, k, x);
    }
    if q :| ArmVar(arms, t, k, q, x) && q !in TestedIn(arms, t, v) {
      UntestedIsBound(arms, t, v, k, x, q);
    }
  }

  lemma BoundIsUntested(arms: seq<Source>, t: Type, v: Value, k: nat, x: string)
    requires ArmsTyped(arms, t) && MatrixTyped(ArmRows(arms, t), [t]) && HasType(v, t) && FirstArm(arms, t, v) == Some(k)
    requires HaveTypes([v], [t]) && Walk(Compile(ArmRows(arms, t), [t]), [v], [t]).Hit?
    requires Binder(k, x) in VarsOf(Walk(Compile(ArmRows(arms, t), [t]), [v], [t]).bound)
    ensures exists q :: ArmVar(arms, t, k, q, x) && q !in TestedIn(arms, t, v)
  {
    hide *;
    var tree := Compile(ArmRows(arms, t), [t]);
    TrackIsWalk(tree, [v], [t], [[]]);
    var at := PlaceOfVar(Track(tree, [v], [[]]).bound, Binder(k, x));
    PlaceOfArm(arms, t, v, k, x, at);
  }

  lemma PlaceOfVar(places: set<Place>, x: Binder) returns (at: Path)
    requires x in VarsAt(places)
    ensures Place(x, at) in places
  {
    var place :| place in places && x == place.x;
    at := place.at;
  }

  lemma VarHasPlace(places: set<Place>, x: Binder, at: Path)
    requires Place(x, at) in places
    ensures x in VarsAt(places)
  {
  }

  lemma UntestedIsBound(arms: seq<Source>, t: Type, v: Value, k: nat, x: string, q: Path)
    requires ArmsTyped(arms, t) && MatrixTyped(ArmRows(arms, t), [t]) && HasType(v, t) && FirstArm(arms, t, v) == Some(k)
    requires HaveTypes([v], [t]) && Walk(Compile(ArmRows(arms, t), [t]), [v], [t]).Hit?
    requires k < |arms| && ArmVar(arms, t, k, q, x) && q !in TestedIn(arms, t, v)
    ensures Binder(k, x) in VarsOf(Walk(Compile(ArmRows(arms, t), [t]), [v], [t]).bound)
  {
    hide *;
    var tree := Compile(ArmRows(arms, t), [t]);
    VarOfArm(arms, t, v, k, q, x);
    TrackIsWalk(tree, [v], [t], [[]]);
    VarHasPlace(Track(tree, [v], [[]]).bound, Binder(k, x), q);
  }

  lemma VarOfArm(arms: seq<Source>, t: Type, v: Value, k: nat, q: Path, x: string)
    requires ArmsTyped(arms, t) && MatrixTyped(ArmRows(arms, t), [t]) && HasType(v, t) && FirstArm(arms, t, v) == Some(k)
    requires ArmVar(arms, t, k, q, x)
    ensures Place(Binder(k, x), q) in Track(Compile(ArmRows(arms, t), [t]), [v], [[]]).bound <==> q !in TestedIn(arms, t, v)
    ensures NoneBefore(arms, t, k, q) ==> q !in TestedIn(arms, t, v)
  {
    hide Lower, SourceTyped, SourceMatches, Compile, Track, HasType, Matches, PatHasType, FirstRow, SubAt, Unforced;
    FirstArmRow(arms, t, v);
    var rows := ArmRows(arms, t);
    FirstRowTyped(rows, [t], [v]);
    BoundUnlessTested(rows, [t], [v], [[]], 0, q, Binder(k, x));
    assert [] + q == q;
    if NoneBefore(arms, t, k, q) {
      NotCtor(rows[k].pats[0], q, Binder(k, x));
      NoneBeforeRows(rows, [v], k, q);
    }
  }

  lemma NotCtor(p: Pat, q: Path, x: Binder)
    requires VarAt(p, q, x)
    ensures !CtorAt(p, q)
  {
  }

  lemma {:induction false} NoneBeforeRows(rows: seq<Row>, vs: seq<Value>, k: nat, q: Path)
    requires k < |rows| && RowMatches(rows[k].pats, vs)
    requires forall j :: 0 <= j <= k ==> |rows[j].pats| == 1 && !CtorAt(rows[j].pats[0], q)
    ensures Unforced(rows, vs, 0, q)
  {
    if k > 0 {
      assert forall j :: 0 <= j <= k - 1 ==> rows[1..][j] == rows[j + 1];
      NoneBeforeRows(rows[1..], vs, k - 1, q);
    }
  }

  lemma PlaceOfArm(arms: seq<Source>, t: Type, v: Value, k: nat, x: string, at: Path)
    requires ArmsTyped(arms, t) && MatrixTyped(ArmRows(arms, t), [t]) && HasType(v, t) && FirstArm(arms, t, v) == Some(k)
    requires Place(Binder(k, x), at) in Track(Compile(ArmRows(arms, t), [t]), [v], [[]]).bound
    ensures ArmVar(arms, t, k, at, x) && at !in TestedIn(arms, t, v)
  {
    hide Lower, SourceTyped, SourceMatches, Compile, Track, HasType, Matches, PatHasType, FirstRow, SubAt;
    FirstArmRow(arms, t, v);
    var i, r := BoundIsPlaced(ArmRows(arms, t), [t], [v], [[]], Binder(k, x), at);
    assert [] + r == r;
    VarOfArm(arms, t, v, k, at, x);
  }

  /** Every variable that a pattern binds stands somewhere in it. */
  lemma {:induction false} BindsAtSomePlace(p: Pat, v: Value, t: Type, b: Bound) returns (r: Path)
    requires Binds(p, v, t, b)
    ensures VarAt(p, r, Binder(b.arm, b.name))
    decreases p
  {
    match p
    case Wildcard(_) => r := [];
    case PCtor(c, args) =>
      var i :| 0 <= i < |args| && i < |Args(v)| && i < |FieldTypes(c, t)| && Binds(args[i], Args(v)[i], FieldTypes(c, t)[i], b);
      var rest := BindsAtSomePlace(args[i], Args(v)[i], FieldTypes(c, t)[i], b);
      r := [i] + rest;
      assert r[1..] == rest;
  }

  /** These are the arm's variables that are still bound on entering it: those at an
      untested position, among them all where no earlier arm has a constructor. */
  ghost predicate VarsKept(arms: seq<Source>, t: Type, v: Value, k: nat, vars: set<string>)
    requires ArmsTyped(arms, t) && k < |arms|
  {
    && (forall x :: x in vars <==> exists q :: ArmVar(arms, t, k, q, x) && q !in TestedIn(arms, t, v))
    && (forall x, q :: ArmVar(arms, t, k, q, x) && NoneBefore(arms, t, k, q) ==> x in vars)
  }

  lemma KeptAre(arms: seq<Source>, t: Type, v: Value, k: nat, vars: set<string>)
    requires ArmsTyped(arms, t) && MatrixTyped(ArmRows(arms, t), [t]) && HasType(v, t) && FirstArm(arms, t, v) == Some(k)
    requires HaveTypes([v], [t]) && Walk(Compile(ArmRows(arms, t), [t]), [v], [t]).Hit?
    requires forall x :: x in vars <==> Binder(k, x) in VarsOf(Walk(Compile(ArmRows(arms, t), [t]), [v], [t]).bound)
    ensures VarsKept(arms, t, v, k, vars)
  {
    hide Lower, SourceTyped, SourceMatches, Compile, Walk, TestedIn, HasType, ArmVar, NoneBefore, VarsOf, MatrixTyped, ArmRows,
         FirstArm;
    forall x
      ensures x in vars <==> exists q :: ArmVar(arms, t, k, q, x) && q !in TestedIn(arms, t, v)
    {
      MatchBindsExactly(arms, t, v, k, x);
    }
    forall x, q | ArmVar(arms, t, k, q, x) && NoneBefore(arms, t, k, q)
      ensures x in vars
    {
      VarOfArm(arms, t, v, k, q, x);
    }
  }

  /** In the first arm, and so in a match with one arm, no variable is lost. */
  lemma FirstArmKeepsAll(arms: seq<Source>, t: Type, v: Value, vars: set<string>, x: string, w: Value, tx: Type)
    requires ArmsTyped(arms, t) && HasType(v, t) && FirstArm(arms, t, v) == Some(0) && VarsKept(arms, t, v, 0, vars)
    requires SourceBinds(arms[0], t, v, x, w, tx)
    ensures x in vars
  {
    hide Lower, SourceTyped, SourceMatches, SourceBinds, Binds, VarAt, TestedIn, HasType;
    var b := Bound(0, x, w, tx);
    LowerBinds(arms[0], 0, t, v, b);
    var q := BindsAtSomePlace(Lower(arms[0], 0, t), v, t, b);
    assert ArmVar(arms, t, 0, q, x) && NoneBefore(arms, t, 0, q);
  }
}
