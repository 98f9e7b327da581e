/** Loading the modules of a program: a worklist over import statements
    (`Builder`, `load_from_entry` and `load_workspace` in `module_graph.rs`). */
module ModuleLoader {
  import opened Options
  import opened ModuleOrder
  import opened ModuleReach
  import opened ModuleFiles

  // ---- The builder.

  class Builder {
    const disk: Disk
    ghost const roots: set<Path>
    var modules: seq<Module>
    var edges: map<nat, seq<PathImport>>
    var byPath: map<Path, nat>
    var parseFailures: seq<nat>

    /** Each canonical path is one module: `byPath` and `modules` are inverse. Every
        module is needed from the roots, and recorded edges are all its imports. */
    ghost predicate Valid()
      reads this
    {
      && (forall i :: 0 <= i < |modules| ==> modules[i].id == i && modules[i].path in byPath && byPath[modules[i].path] == i)
      && (forall p :: p in byPath ==> byPath[p] < |modules| && modules[byPath[p]].path == p)
      && (forall i :: 0 <= i < |modules| ==> AsRead(disk, modules[i], i) && NeededBy(disk, roots, modules[i].path))
      && (forall i: nat :: i in parseFailures <==> i < |modules| && disk.files[modules[i].path].broken)
      && (forall i :: i in edges ==> i < |modules| && FullyResolved(disk, modules, edges, i))
    }

    constructor (disk: Disk, ghost roots: set<Path>)
      ensures Valid() && this.disk == disk && this.roots == roots && modules == [] && edges == map[]
    {
      this.disk, this.roots := disk, roots;
      modules, edges, byPath, parseFailures := [], map[], map[], [];
    }

    /** The module at a canonical path, read at most once; None if it cannot be read. */
    method ParseModule(path: Path) returns (id: Option<nat>)
      requires Valid() && (path in disk.files ==> NeededBy(disk, roots, path))
      modifies this
      ensures Valid() && old(modules) <= modules && edges == old(edges)
      ensures id.Some? <==> path in disk.files
      ensures id.None? ==> modules == old(modules)
      ensures id.Some? ==> id.value < |modules| && modules[id.value].path == path
      ensures id.Some? ==> modules == old(modules) || (modules == old(modules) + [modules[id.value]] && id.value == |old(modules)|)
    {
      hide NeededBy, FullyResolved, AllResolve, Resolves;
      if path in byPath {
        return Some(byPath[path]);
      }
      if path !in disk.files {
        return None;
      }
      var m := Module(|modules|, path, disk.files[path].definitions);
      ghost var before := modules;
      modules := modules + [m];
      byPath := byPath[path := m.id];
      if disk.files[path].broken {
        parseFailures := parseFailures + [m.id];
      }
      forall i | i in edges
        ensures i < |modules| && FullyResolved(disk, modules, edges, i)
      {
        StillFull(disk, before, modules, edges, i);
      }
      forall i | 0 <= i < |modules|
        ensures AsRead(disk, modules[i], i) && NeededBy(disk, roots, modules[i].path)
      {
        assert i < |before| ==> modules[i] == before[i];
      }
      id := Some(m.id);
    }

    /** Resolve the imports of one module, in order; the error is that of the first
        import statement that has one. */
    method ResolveImports(id: nat) returns (problem: Option<Error>)
      requires Valid() && id < |modules| && id !in edges
      modifies this
      ensures Valid() && old(modules) <= modules
      ensures problem.None? ==> FullyResolved(disk, modules, edges, id) && edges.Keys <= old(edges.Keys) + {id}
      ensures problem.None? ==> forall i :: i in old(edges) ==> i in edges && edges[i] == old(edges)[i]
      ensures problem.None? ==> OnlyImported(old(|modules|), modules, EdgesOf(edges, id))
      ensures problem.Some? ==> HasProblem(disk, modules, id, problem.value)
    {
      hide FullyResolved, ImportProblem, Resolves, NeededBy;
      ghost var before := modules;
      var imports := ImportsOf(modules[id]);
      var resolved: seq<PathImport> := [];
      for k := 0 to |imports|
        invariant Valid() && before <= modules && edges == old(edges)
        invariant |resolved| == k && AllResolve(disk, modules, id, resolved)
        invariant OnlyImported(|before|, modules, resolved)
      {
        ghost var now := modules;
        var target;
        problem, target := ResolveOne(id, imports[k], resolved);
        if problem.Some? {
          return;
        }
        OneMoreImported(|before|, now, modules, resolved, target);
        resolved := resolved + [target];
      }
      problem := None;
      RecordEdges(id, resolved);
    }

    /** One import statement. */
    method ResolveOne(id: nat, d: nat, resolved: seq<PathImport>) returns (problem: Option<Error>, e: PathImport)
      requires Valid() && id < |modules| && d < |modules[id].definitions| && modules[id].definitions[d].Import?
      requires AllResolve(disk, modules, id, resolved) && |resolved| < |ImportsOf(modules[id])|
      requires d == ImportsOf(modules[id])[|resolved|]
      modifies this
      ensures Valid() && old(modules) <= modules && edges == old(edges)
      ensures problem.Some? ==> HasProblem(disk, modules, id, problem.value)
      ensures problem.None? ==> AllResolve(disk, modules, id, resolved + [e])
      ensures problem.None? ==> modules == old(modules) || (modules == old(modules) + [modules[e.target]] && e.target == |old(modules)|)
    {
      hide NeededBy;
      ghost var before := modules;
      var raw, span := modules[id].definitions[d].raw, modules[id].definitions[d].span;
      var path := modules[id].path;
      e := PathImport(d, 0, span);
      EarlierFine(disk, modules, id, resolved, d);
      if !IsRelativePath(raw) {
        assert ProblemAt(disk, modules[id], id, d, NonRelativePath(id, span));
        return Some(NonRelativePath(id, span)), e;
      }
      if !EndsWith(raw, ".star") {
        assert ProblemAt(disk, modules[id], id, d, NotStarExtension(id, span));
        return Some(NotStarExtension(id, span)), e;
      }
      if (path, raw) !in disk.links {
        assert ProblemAt(disk, modules[id], id, d, ImportIo(id, span));
        return Some(ImportIo(id, span)), e;
      }
      if disk.links[(path, raw)] in disk.files {
        NextNeeded(disk, roots, modules, id, d);
      }
      var target := ParseModule(disk.links[(path, raw)]);
      if target.None? {
        assert ProblemAt(disk, modules[id], id, d, ImportIo(id, span));
        return Some(ImportIo(id, span)), e;
      }
      problem, e := None, PathImport(d, target.value, span);
      MoreModules(disk, before, modules, id, resolved);
      assert Resolves(disk, modules, id, d, e);
      hide Resolves;
      assert modules[id] == before[id];
    }

    method RecordEdges(id: nat, resolved: seq<PathImport>)
      requires Valid() && id < |modules| && id !in edges
      requires |resolved| == |ImportsOf(modules[id])| && AllResolve(disk, modules, id, resolved)
      modifies `edges
      ensures Valid() && EdgesOf(edges, id) == resolved && FullyResolved(disk, modules, edges, id)
      ensures edges.Keys <= old(edges.Keys) + {id}
      ensures forall i :: i in old(edges) ==> i in edges && edges[i] == old(edges)[i]
    {
      ghost var before := edges;
      if resolved != [] {
        edges := edges[id := resolved];
      }
      forall i | i in edges
        ensures i < |modules| && FullyResolved(disk, modules, edges, i)
      {
        assert i != id ==> EdgesOf(edges, i) == EdgesOf(before, i) && FullyResolved(disk, modules, before, i);
      }
    }
  }

  lemma StillFull(disk: Disk, modules: seq<Module>, modules': seq<Module>, edges: map<nat, seq<PathImport>>, i: nat)
    requires i < |modules| && modules <= modules' && FullyResolved(disk, modules, edges, i)
    ensures FullyResolved(disk, modules', edges, i)
  {
    hide Resolves;
    assert modules'[i] == modules[i];
    MoreModules(disk, modules, modules', i, EdgesOf(edges, i));
  }

  /** The statements before the next import to resolve have no problem. */
  lemma EarlierFine(disk: Disk, modules: seq<Module>, id: nat, resolved: seq<PathImport>, d: nat)
    requires id < |modules| && AllResolve(disk, modules, id, resolved) && |resolved| < |ImportsOf(modules[id])|
    requires d == ImportsOf(modules[id])[|resolved|]
    ensures forall c :: 0 <= c < d ==> NoProblemAt(disk, modules[id], id, c)
  {
    hide ImportProblem;
    var imports := ImportsOf(modules[id]);
    forall c | 0 <= c < d && modules[id].definitions[c].Import?
      ensures NoProblemAt(disk, modules[id], id, c)
    {
      assert c in imports;
      var k :| 0 <= k < |imports| && imports[k] == c;
      ImportsIncrease(modules[id].definitions, |modules[id].definitions|);
      assert Resolves(disk, modules, id, imports[k], resolved[k]);
    }
  }

  lemma {:induction false} ImportsIncrease(defs: seq<Definition>, n: nat)
    requires n <= |defs|
    ensures forall j, k :: 0 <= j < k < |ImportsUpTo(defs, n)| ==> ImportsUpTo(defs, n)[j] < ImportsUpTo(defs, n)[k]
  {
    if n > 0 {
      ImportsIncrease(defs, n - 1);
    }
  }

  /** Where a statement of a needed module leads is needed as well, if it can be read. */
  lemma NextNeeded(disk: Disk, roots: set<Path>, modules: seq<Module>, id: nat, d: nat)
    requires id < |modules| && AsRead(disk, modules[id], id) && NeededBy(disk, roots, modules[id].path)
    requires d < |modules[id].definitions| && modules[id].definitions[d].Import?
    requires (modules[id].path, modules[id].definitions[d].raw) in disk.links
    requires ImportProblem(disk, id, modules[id].path, modules[id].definitions[d].raw, modules[id].definitions[d].span).None?
    ensures NeededBy(disk, roots, disk.links[(modules[id].path, modules[id].definitions[d].raw)])
  {
    hide NeededBy;
    var q := disk.links[(modules[id].path, modules[id].definitions[d].raw)];
    ImportChecks(disk, id, modules[id].path, modules[id].definitions[d].raw, modules[id].definitions[d].span);
    assert LeadsBy(disk, modules[id].path, d, q);
    NeedsNext(disk, roots, modules[id].path, q);
  }

  /** New modules beyond n were brought in by these imports. */
  predicate OnlyImported(n: nat, modules: seq<Module>, es: seq<PathImport>) {
    forall m :: n <= m < |modules| ==> Targets(es, m)
  }

  predicate Targets(es: seq<PathImport>, m: nat) {
    exists k :: 0 <= k < |es| && es[k].target == m
  }

  lemma OneMoreImported(n: nat, modules: seq<Module>, modules': seq<Module>, es: seq<PathImport>, e: PathImport)
    requires OnlyImported(n, modules, es) && n <= |modules| <= |modules'| <= |modules| + 1
    requires |modules'| > |modules| ==> e.target == |modules|
    ensures OnlyImported(n, modules', es + [e])
  {
    forall m | n <= m < |modules'|
      ensures Targets(es + [e], m)
    {
      if m < |modules| {
        assert Targets(es, m);
        var k :| 0 <= k < |es| && es[k].target == m;
        assert (es + [e])[k].target == m;
      } else {
        assert (es + [e])[|es|].target == m;
      }
    }
  }

  // ---- Checks on the loaded graph.

  /** Reject an import of another contract. The order of the modules in the map of
      edges is not fixed. */
  method ValidateCrossContract(modules: seq<Module>, edges: map<nat, seq<PathImport>>, allowed: Option<nat>)
    returns (problem: Option<Error>)
    requires forall i, k :: i in edges && 0 <= k < |edges[i]| ==> edges[i][k].target < |modules|
    ensures problem.None? <==> forall i: nat, k: nat :: !Crosses(modules, edges, allowed, i, k)
    ensures problem.Some? ==> exists i: nat, k: nat :: CrossingIs(modules, edges, allowed, i, k, problem.value)
  {
    var todo := edges.Keys;
    while todo != {}
      invariant todo <= edges.Keys
      invariant forall i: nat, k: nat :: i in edges && i !in todo ==> !Crosses(modules, edges, allowed, i, k)
    {
      var importer :| importer in todo;
      for k := 0 to |edges[importer]|
        invariant forall j: nat :: j < k ==> !Crosses(modules, edges, allowed, importer, j)
      {
        var edge := edges[importer][k];
        if allowed != Some(edge.target) && DeclaresContract(modules[edge.target]) {
          assert CrossingIs(modules, edges, allowed, importer, k, CrossContractImport(importer, edge.target, edge.span));
          return Some(CrossContractImport(importer, edge.target, edge.span));
        }
      }
      todo := todo - {importer};
    }
    problem := None;
  }

  /** Distinct readable paths: no more modules than files. */
  lemma {:induction false} ModulesBounded(disk: Disk, modules: seq<Module>) returns (paths: set<Path>)
    requires forall i :: 0 <= i < |modules| ==> modules[i].path in disk.files
    requires forall i, j :: 0 <= i < j < |modules| ==> modules[i].path != modules[j].path
    ensures |modules| <= |disk.files|
    ensures |paths| == |modules| && paths <= disk.files.Keys && forall p :: p in paths ==> exists i :: 0 <= i < |modules| && modules[i].path == p
  {
    if modules == [] {
      paths := {};
    } else {
      var n := |modules| - 1;
      var before := ModulesBounded(disk, modules[..n]);
      paths := before + {modules[n].path};
      SubsetCount(paths, disk.files.Keys);
    }
  }

  lemma SubsetCount<T>(a: set<T>, b: set<T>)
    requires a <= b
    ensures |a| <= |b|
  {
    assert b == a + (b - a);
  }

  /** Resolve all modules, and all that this brings in. */
  method ResolveAll(builder: Builder) returns (problem: Option<Error>, ghost culprit: nat)
    requires builder.Valid() && builder.edges == map[]
    modifies builder
    ensures builder.Valid() && old(builder.modules) <= builder.modules
    ensures problem.None? ==> Loaded(builder.disk, builder.modules, builder.edges)
    ensures problem.None? ==> ImportedFrom(old(|builder.modules|), builder.modules, builder.edges)
    ensures problem.Some? ==> HasProblem(builder.disk, builder.modules, culprit, problem.value)
  {
    hide FullyResolved, NeededBy;
    culprit := 0;
    var next := 0;
    ghost var n0 := |builder.modules|;
    while next < |builder.modules|
      invariant builder.Valid() && old(builder.modules) <= builder.modules
      invariant n0 <= |builder.modules| && next <= |builder.modules|
      invariant forall i :: i in builder.edges ==> i < next
      invariant forall i :: 0 <= i < next ==> FullyResolved(builder.disk, builder.modules, builder.edges, i)
      invariant ImportedFrom(n0, builder.modules, builder.edges)
      decreases |builder.disk.files| - next
    {
      ghost var modules, edges := builder.modules, builder.edges;
      ghost var paths := ModulesBounded(builder.disk, modules);
      problem := builder.ResolveImports(next);
      if problem.Some? {
        culprit := next;
        return;
      }
      AllStillResolved(builder.disk, modules, builder.modules, edges, builder.edges, next);
      StillImported(n0, modules, builder.modules, edges, builder.edges, next);
      next := next + 1;
    }
    problem := None;
  }

  lemma StillResolved(disk: Disk, modules: seq<Module>, modules': seq<Module>, edges: map<nat, seq<PathImport>>,
                      edges': map<nat, seq<PathImport>>, id: nat, i: nat)
    requires i < |modules| && modules <= modules' && FullyResolved(disk, modules, edges, i) && i != id
    requires edges'.Keys <= edges.Keys + {id} && forall j :: j in edges ==> j in edges' && edges'[j] == edges[j]
    ensures FullyResolved(disk, modules', edges', i)
  {
    assert EdgesOf(edges', i) == EdgesOf(edges, i);
    MoreModules(disk, modules, modules', i, EdgesOf(edges, i));
    assert modules'[i] == modules[i];
  }

  lemma AllStillResolved(disk: Disk, modules: seq<Module>, modules': seq<Module>, edges: map<nat, seq<PathImport>>,
                         edges': map<nat, seq<PathImport>>, id: nat)
    requires id < |modules| && modules <= modules' && forall i :: 0 <= i < id ==> FullyResolved(disk, modules, edges, i)
    requires edges'.Keys <= edges.Keys + {id} && forall j :: j in edges ==> j in edges' && edges'[j] == edges[j]
    requires FullyResolved(disk, modules', edges', id)
    ensures forall i :: 0 <= i < id + 1 ==> FullyResolved(disk, modules', edges', i)
  {
    hide FullyResolved;
    forall i | 0 <= i < id
      ensures FullyResolved(disk, modules', edges', i)
    {
      StillResolved(disk, modules, modules', edges, edges', id, i);
    }
  }

  /** Modules beyond the first n are imported by earlier ones. */
  predicate ImportedFrom(n: nat, modules: seq<Module>, edges: map<nat, seq<PathImport>>) {
    forall m :: n <= m < |modules| ==> ImportedBefore(edges, m)
  }

  predicate ImportedBefore(edges: map<nat, seq<PathImport>>, m: nat) {
    exists i: nat, k :: i < m && 0 <= k < |EdgesOf(edges, i)| && EdgesOf(edges, i)[k].target == m
  }

  lemma StillImported(n: nat, modules: seq<Module>, modules': seq<Module>, edges: map<nat, seq<PathImport>>,
                      edges': map<nat, seq<PathImport>>, id: nat)
    requires ImportedFrom(n, modules, edges) && modules <= modules' && id < |modules| && id !in edges
    requires OnlyImported(|modules|, modules', EdgesOf(edges', id))
    requires forall j :: j in edges ==> j in edges' && edges'[j] == edges[j]
    ensures ImportedFrom(n, modules', edges')
  {
    forall m | n <= m < |modules'|
      ensures ImportedBefore(edges', m)
    {
      if m < |modules| {
        assert ImportedBefore(edges, m);
        var i: nat, k :| i < m && 0 <= k < |EdgesOf(edges, i)| && EdgesOf(edges, i)[k].target == m;
        assert EdgesOf(edges', i) == EdgesOf(edges, i);
      } else {
        assert Targets(EdgesOf(edges', id), m);
        var k :| 0 <= k < |EdgesOf(edges', id)| && EdgesOf(edges', id)[k].target == m;
      }
    }
  }

  /** After seeding: resolve all imports and check the result. */
  method ResolveAndCheck(builder: Builder, allowed: Option<nat>) returns (problem: Option<Error>)
    requires builder.Valid() && builder.edges == map[]
    modifies builder
    ensures builder.Valid() && old(builder.modules) <= builder.modules
    ensures problem.None? ==> ImportedFrom(old(|builder.modules|), builder.modules, builder.edges)
    ensures problem.None? ==> Checked(builder.disk, builder.modules, builder.edges, allowed)
    ensures problem.Some? ==> RealError(builder.disk, builder.modules, builder.edges, allowed, problem.value)
    ensures problem.Some? ==> !problem.value.EntryIo?
  {
    hide FullyResolved, NeededBy, Resolves, RealError, HasProblem, Loaded, Checked, CrossingIs, ImportedFrom;
    ghost var culprit;
    problem, culprit := ResolveAll(builder);
    if problem.Some? {
      ProblemIsReal(builder.disk, builder.modules, builder.edges, allowed, problem.value, culprit);
      return;
    }
    LoadedIsClosed(builder.disk, builder.modules, builder.edges);
    EdgesInside(builder.modules, builder.edges);
    problem := ValidateCrossContract(builder.modules, builder.edges, allowed);
    if problem.Some? {
      CrossingIsReal(builder.disk, builder.modules, builder.edges, allowed, problem.value);
      return;
    }
    if builder.parseFailures != [] {
      BrokenAreReal(builder, allowed);
      return Some(ParseFailed(builder.parseFailures));
    }
    NoneBroken(builder);
    AllChecked(builder.disk, builder.modules, builder.edges, allowed);
  }

  lemma ProblemIsReal(disk: Disk, modules: seq<Module>, edges: map<nat, seq<PathImport>>, allowed: Option<nat>, e: Error, i: nat)
    requires HasProblem(disk, modules, i, e)
    ensures RealError(disk, modules, edges, allowed, e) && !e.EntryIo?
  {
    var d :| 0 <= d < |modules[i].definitions| && ProblemAt(disk, modules[i], i, d, e);
  }

  lemma CrossingIsReal(disk: Disk, modules: seq<Module>, edges: map<nat, seq<PathImport>>, allowed: Option<nat>, e: Error)
    requires exists i: nat, k: nat :: CrossingIs(modules, edges, allowed, i, k, e)
    ensures RealError(disk, modules, edges, allowed, e) && !e.EntryIo?
  {
    var i: nat, k: nat :| CrossingIs(modules, edges, allowed, i, k, e);
  }

  lemma BrokenAreReal(builder: Builder, allowed: Option<nat>)
    requires builder.Valid() && builder.parseFailures != []
    ensures RealError(builder.disk, builder.modules, builder.edges, allowed, ParseFailed(builder.parseFailures))
  {
    hide NeededBy, FullyResolved;
  }

  lemma AllChecked(disk: Disk, modules: seq<Module>, edges: map<nat, seq<PathImport>>, allowed: Option<nat>)
    requires Loaded(disk, modules, edges) && forall i: nat, k: nat :: !Crosses(modules, edges, allowed, i, k)
    requires forall i :: 0 <= i < |modules| ==> modules[i].path in disk.files && !disk.files[modules[i].path].broken
    ensures Checked(disk, modules, edges, allowed)
  {
  }

  lemma EdgesInside(modules: seq<Module>, edges: map<nat, seq<PathImport>>)
    requires Closed(Graph(modules, edges)) && forall i :: i in edges ==> i < |modules|
    ensures forall i, k :: i in edges && 0 <= k < |edges[i]| ==> edges[i][k].target < |modules|
  {
    forall i, k | i in edges && 0 <= k < |edges[i]|
      ensures edges[i][k].target < |modules|
    {
      assert edges[i] == Graph(modules, edges)[i];
    }
  }

  lemma NoneBroken(builder: Builder)
    requires builder.Valid() && builder.parseFailures == []
    ensures forall i :: 0 <= i < |builder.modules| ==> !builder.disk.files[builder.modules[i].path].broken
  {
    forall i | 0 <= i < |builder.modules|
      ensures !builder.disk.files[builder.modules[i].path].broken
    {
      var m: nat := i;
      assert m !in builder.parseFailures;
    }
  }

  /** The single-file flow: the entry and all it imports, directly or not. It succeeds
      on exactly the programs that `Loads` describes. */
  method LoadFromEntry(disk: Disk, entry: Path)
    returns (r: Result, ghost modules: seq<Module>, ghost edges: map<nat, seq<PathImport>>)
    ensures r.Ok? ==> Accepted(disk, r.graph, Some(0)) && r.graph.contractEntries == [0]
    ensures r.Ok? ==> r.graph.modules != [] && r.graph.modules[0].path == entry
    ensures r.Ok? ==> forall m: nat :: m < |r.graph.modules| ==> Needs(Graph(r.graph.modules, r.graph.edges), 0, m)
    ensures r.Ok? <==> Loads(disk, {entry}, Some(entry))
    ensures r.Err? ==> Rejects(disk, {entry}, modules, edges, Some(0), r.error)
    ensures r.Err? && r.error.EntryIo? <==> entry !in disk.files
  {
    hide ImportedFrom, RealError, NeededBy, Loads, FullyResolved, Accepted, Loaded;
    var builder := new Builder(disk, {entry});
    RootNeeded(disk, {entry}, entry);
    var id := builder.ParseModule(entry);
    modules, edges := builder.modules, builder.edges;
    if id.None? {
      NoSuchFile(disk, {entry}, modules, edges, Some(0), entry);
      return Err(EntryIo(entry)), modules, edges;
    }
    var problem := ResolveAndCheck(builder, Some(0));
    modules, edges := builder.modules, builder.edges;
    SoFar(builder);
    assert SameAllowed(modules, Some(0), Some(entry));
    if problem.Some? {
      RejectedDoesNotLoad(disk, {entry}, modules, edges, Some(0), Some(entry), problem.value);
      return Err(problem.value), modules, edges;
    }
    LoadedIsClosed(disk, builder.modules, builder.edges);
    var g: Imports := Graph(builder.modules, builder.edges);
    ImportedAreNeeded(g, builder.modules, builder.edges);
    var cycle, topoOrder := TopoOrder(g, [0]);
    if cycle.Some? {
      CycleIsReal(disk, modules, edges, Some(0), cycle.value);
      RejectedDoesNotLoad(disk, {entry}, modules, edges, Some(0), Some(entry), Cycle(cycle.value));
      return Err(Cycle(cycle.value)), modules, edges;
    }
    r := Ok(ModuleGraph(builder.modules, topoOrder, builder.edges, [0]));
    CheckedIsAccepted(disk, r.graph, Some(0));
    assert HasModule(modules, entry);
    AcceptedLoads(disk, {entry}, r.graph, Some(0), Some(entry));
  }

  /** What has been read when resolving stops. */
  lemma SoFar(builder: Builder)
    requires builder.Valid()
    ensures Partly(builder.disk, builder.roots, builder.modules, builder.edges)
  {
  }

  lemma CheckedIsAccepted(disk: Disk, graph: ModuleGraph, allowed: Option<nat>)
    requires Checked(disk, graph.modules, graph.edges, allowed)
    requires IsTopoOrder(Graph(graph.modules, graph.edges), graph.topoOrder)
    ensures Accepted(disk, graph, allowed)
  {
  }

  lemma NoSuchFile(disk: Disk, roots: set<Path>, modules: seq<Module>, edges: map<nat, seq<PathImport>>, allowed: Option<nat>, path: Path)
    requires path !in disk.files && path in roots
    ensures RealError(disk, modules, edges, allowed, EntryIo(path))
    ensures forall target :: !Loads(disk, roots, target)
  {
    RootNeeded(disk, roots, path);
  }

  lemma CycleIsReal(disk: Disk, modules: seq<Module>, edges: map<nat, seq<PathImport>>, allowed: Option<nat>, chain: seq<Link>)
    requires IsChain(Graph(modules, edges), chain)
    ensures RealError(disk, modules, edges, allowed, Cycle(chain))
  {
  }

  function Contracts(modules: seq<Module>, n: nat): (r: seq<nat>)
    requires n <= |modules|
    ensures forall i: nat :: i in r <==> i < n && Contract in modules[i].definitions
    ensures (forall j :: 0 <= j < |r| ==> r[j] < n) && forall j, k :: 0 <= j < k < |r| ==> r[j] < r[k]
  {
    if n == 0 then [] else Contracts(modules, n - 1) + if DeclaresContract(modules[n - 1]) then [n - 1] else []
  }

  /** A path that the scan found, and its canonical form, if it has one. */
  datatype Found = Found(path: Path, canonical: Option<Path>)

  /** The scan-based flow: every file found, and all they import. The scan itself is
      the list of paths. */
  method LoadWorkspace(disk: Disk, scanned: seq<Found>)
    returns (r: Result, ghost modules: seq<Module>, ghost edges: map<nat, seq<PathImport>>)
    ensures r.Ok? ==> Accepted(disk, r.graph, None)
    ensures r.Ok? ==> r.graph.contractEntries == Contracts(r.graph.modules, |r.graph.modules|)
    ensures r.Ok? ==> forall i :: 0 <= i < |scanned| ==> Readable(disk, scanned[i]) && HasModule(r.graph.modules, scanned[i].canonical.value)
    ensures r.Ok? <==> (forall i :: 0 <= i < |scanned| ==> Readable(disk, scanned[i])) && Loads(disk, Scanned(scanned), None)
    ensures r.Err? && !r.error.EntryIo? ==> Rejects(disk, Scanned(scanned), modules, edges, None, r.error)
    ensures r.Err? && r.error.EntryIo? <==> !forall i :: 0 <= i < |scanned| ==> Readable(disk, scanned[i])
    ensures r.Err? && r.error.EntryIo? ==> exists s :: FirstUnread(disk, scanned, s) && r.error.path == scanned[s].path
  {
    hide ImportedFrom, RealError, NeededBy, Loads, FullyResolved, Accepted, Loaded;
    var builder := new Builder(disk, Scanned(scanned));
    var unread := SeedAll(builder, scanned);
    modules, edges := builder.modules, builder.edges;
    if unread.Some? {
      return Err(unread.value), modules, edges;
    }
    ghost var seeded := builder.modules;
    var problem := ResolveAndCheck(builder, None);
    modules, edges := builder.modules, builder.edges;
    StillThere(seeded, modules);
    SoFar(builder);
    if problem.Some? {
      RejectedDoesNotLoad(disk, Scanned(scanned), modules, edges, None, None, problem.value);
      return Err(problem.value), modules, edges;
    }
    var entries := ContractEntries(builder.modules);
    LoadedIsClosed(disk, builder.modules, builder.edges);
    var g: Imports := Graph(builder.modules, builder.edges);
    assert forall k :: 0 <= k < |entries| ==> entries[k] in entries;
    var cycle, topoOrder := TopoOrder(g, entries);
    if cycle.Some? {
      CycleIsReal(disk, modules, edges, None, cycle.value);
      RejectedDoesNotLoad(disk, Scanned(scanned), modules, edges, None, None, Cycle(cycle.value));
      return Err(Cycle(cycle.value)), modules, edges;
    }
    r := Ok(ModuleGraph(builder.modules, topoOrder, builder.edges, entries));
    CheckedIsAccepted(disk, r.graph, None);
    AcceptedLoads(disk, Scanned(scanned), r.graph, None, None);
  }

  /** The files the scan found. */
  function Scanned(scanned: seq<Found>): (r: set<Path>)
    ensures forall p :: p in r <==> exists i :: 0 <= i < |scanned| && scanned[i].canonical == Some(p)
  {
    set i | 0 <= i < |scanned| && scanned[i].canonical.Some? :: scanned[i].canonical.value
  }

  predicate Readable(disk: Disk, found: Found) {
    found.canonical.Some? && found.canonical.value in disk.files
  }

  predicate FirstUnread(disk: Disk, scanned: seq<Found>, s: int) {
    0 <= s < |scanned| && !Readable(disk, scanned[s]) && forall i :: 0 <= i < s ==> Readable(disk, scanned[i])
  }

  /** Read every scanned file; the first unreadable one is reported. */
  method SeedAll(builder: Builder, scanned: seq<Found>) returns (problem: Option<Error>)
    requires builder.Valid() && builder.edges == map[] && builder.roots == Scanned(scanned)
    modifies builder
    ensures builder.Valid() && builder.edges == map[]
    ensures problem.Some? ==> problem.value.EntryIo?
    ensures problem.Some? ==> exists s :: FirstUnread(builder.disk, scanned, s) && problem.value.path == scanned[s].path
    ensures problem.None? <==> forall i :: 0 <= i < |scanned| ==> Readable(builder.disk, scanned[i])
    ensures problem.None? ==> forall i :: 0 <= i < |scanned| ==> HasModule(builder.modules, scanned[i].canonical.value)
  {
    hide NeededBy;
    for s := 0 to |scanned|
      invariant builder.Valid() && builder.edges == map[]
      invariant forall i :: 0 <= i < s ==> Readable(builder.disk, scanned[i]) && HasModule(builder.modules, scanned[i].canonical.value)
    {
      ghost var modules := builder.modules;
      if scanned[s].canonical.None? {
        assert FirstUnread(builder.disk, scanned, s);
        return Some(EntryIo(scanned[s].path));
      }
      RootNeeded(builder.disk, builder.roots, scanned[s].canonical.value);
      var id := builder.ParseModule(scanned[s].canonical.value);
      if id.None? {
        assert FirstUnread(builder.disk, scanned, s);
        return Some(EntryIo(scanned[s].path));
      }
      StillThere(modules, builder.modules);
    }
    problem := None;
  }

  method ContractEntries(modules: seq<Module>) returns (entries: seq<nat>)
    ensures entries == Contracts(modules, |modules|)
  {
    entries := [];
    for i := 0 to |modules|
      invariant entries == Contracts(modules, i)
    {
      if DeclaresContract(modules[i]) {
        entries := entries + [i];
      }
    }
  }

  lemma StillThere(modules: seq<Module>, modules': seq<Module>)
    requires modules <= modules'
    ensures forall p :: HasModule(modules, p) ==> HasModule(modules', p)
  {
    forall p | HasModule(modules, p)
      ensures HasModule(modules', p)
    {
      var i :| 0 <= i < |modules| && modules[i].path == p;
      assert modules'[i] == modules[i];
    }
  }

  lemma ImportedAreNeeded(g: Imports, modules: seq<Module>, edges: map<nat, seq<PathImport>>)
    requires Closed(g) && g == Graph(modules, edges) && modules != [] && ImportedFrom(1, modules, edges)
    ensures forall m: nat :: m < |g| ==> Needs(g, 0, m)
  {
    forall m: nat | m < |g|
      ensures Needs(g, 0, m)
    {
      NeededFrom(g, modules, edges, m);
    }
  }

  lemma {:induction false} NeededFrom(g: Imports, modules: seq<Module>, edges: map<nat, seq<PathImport>>, m: nat)
    requires Closed(g) && g == Graph(modules, edges) && modules != [] && ImportedFrom(1, modules, edges) && m < |g|
    ensures Needs(g, 0, m)
  {
    if m == 0 {
      NeedsSelf(g, 0);
    } else {
      assert ImportedBefore(edges, m);
      var i: nat, k :| i < m && 0 <= k < |EdgesOf(edges, i)| && EdgesOf(edges, i)[k].target == m;
      NeededFrom(g, modules, edges, i);
      NeedsImport(g, 0, i, k);
    }
  }

  /** In an accepted single-file graph the entry is the only contract, and nothing
      imports it. */
  lemma EntryIsOnlyContract(disk: Disk, graph: ModuleGraph, m: nat)
    requires Accepted(disk, graph, Some(0)) && graph.modules != [] && m < |graph.modules|
    requires Needs(Graph(graph.modules, graph.edges), 0, m)
    ensures m != 0 ==> !DeclaresContract(graph.modules[m])
    ensures !HasImport(Graph(graph.modules, graph.edges), m, 0)
  {
    var g: Imports := Graph(graph.modules, graph.edges);
    LoadedIsClosed(disk, graph.modules, graph.edges);
    if m != 0 {
      NeededNotContract(disk, graph, Some(0), 0, m);
    }
    OrderMeansAcyclic(g, graph.topoOrder);
    if HasImport(g, m, 0) {
      var p :| IsWalk(g, p) && p[0] == 0 && p[|p| - 1] == m;
      ClosedWalk(g, p, 0);
    }
  }

  lemma ClosedWalk(g: Imports, p: seq<nat>, start: nat)
    requires IsWalk(g, p) && p[0] == start && HasImport(g, p[|p| - 1], start)
    ensures !Acyclic(g)
  {
    var p' := p + [start];
    assert IsCycle(g, p');
  }

  /** Whatever a module needs besides itself is no contract. */
  lemma NeededNotContract(disk: Disk, graph: ModuleGraph, allowed: Option<nat>, start: nat, m: nat)
    requires Accepted(disk, graph, allowed) && m < |graph.modules| && start < |graph.modules|
    requires Needs(Graph(graph.modules, graph.edges), start, m) && m != start && allowed != Some(m)
    ensures !DeclaresContract(graph.modules[m])
  {
    var g: Imports := Graph(graph.modules, graph.edges);
    var p :| IsWalk(g, p) && p[0] == start && p[|p| - 1] == m;
    var a := p[|p| - 2];
    assert HasImport(g, a, p[|p| - 1]);
    var k: nat :| k < |g[a]| && g[a][k].target == m;
    assert !Crosses(graph.modules, graph.edges, allowed, a, k);
  }
}
