/** Source files, their imports, and which programs must load (`module_graph.rs`). */
module ModuleFiles {
  import opened Options
  import opened ModuleOrder

  type Path = string

  datatype Definition = Import(raw: string, span: nat) | Contract | Other

  datatype File = File(definitions: seq<Definition>, broken: bool)

  /** What can be read, and where an import path written in a file leads. */
  datatype Disk = Disk(files: map<Path, File>, links: map<(Path, string), Path>)

  datatype Module = Module(id: nat, path: Path, definitions: seq<Definition>)

  datatype Error =
    | EntryIo(path: Path)
    | ImportIo(importer: nat, span: nat)
    | NonRelativePath(importer: nat, span: nat)
    | NotStarExtension(importer: nat, span: nat)
    | CrossContractImport(importer: nat, target: nat, span: nat)
    | Cycle(chain: seq<Link>)
    | ParseFailed(failures: seq<nat>)

  predicate StartsWith(s: string, prefix: string) {
    prefix <= s
  }

  predicate EndsWith(s: string, suffix: string) {
    |suffix| <= |s| && s[|s| - |suffix|..] == suffix
  }

  predicate IsRelativePath(s: string) {
    StartsWith(s, "./") || StartsWith(s, "../")
  }

  predicate DeclaresContract(m: Module) {
    Contract in m.definitions
  }

  // ---- What one import statement leads to.

  /** The error of an import, if it has one. */
  function ImportProblem(disk: Disk, importer: nat, path: Path, raw: string, span: nat): Option<Error> {
    if !IsRelativePath(raw) then Some(NonRelativePath(importer, span))
    else if !EndsWith(raw, ".star") then Some(NotStarExtension(importer, span))
    else if (path, raw) !in disk.links || disk.links[(path, raw)] !in disk.files then Some(ImportIo(importer, span))
    else None
  }

  /** What an import statement must be, character by character: its text begins with `./`
      or `../` and ends with `.star`, and a file can be read where it leads. */
  predicate Importable(disk: Disk, path: Path, raw: string) {
    && Dotted(raw) && Starred(raw)
    && (path, raw) in disk.links && disk.links[(path, raw)] in disk.files
  }

  predicate Dotted(s: string) {
    || (|s| >= 2 && s[0] == '.' && s[1] == '/')
    || (|s| >= 3 && s[0] == '.' && s[1] == '.' && s[2] == '/')
  }

  predicate Starred(s: string) {
    var n := |s|;
    n >= 5 && s[n - 5] == '.' && s[n - 4] == 's' && s[n - 3] == 't' && s[n - 2] == 'a' && s[n - 1] == 'r'
  }

  lemma DottedIsRelative(s: string)
    ensures IsRelativePath(s) <==> Dotted(s)
  {
    if |s| >= 2 {
      assert s[..2] == [s[0], s[1]];
    }
    if |s| >= 3 {
      assert s[..3] == [s[0], s[1], s[2]];
    }
    PrefixIsTake(s, "./");
    PrefixIsTake(s, "../");
  }

  lemma PrefixIsTake(s: string, prefix: string)
    ensures StartsWith(s, prefix) <==> |prefix| <= |s| && s[..|prefix|] == prefix
  {
  }

  lemma StarredEnds(s: string)
    ensures EndsWith(s, ".star") <==> Starred(s)
  {
    var n := |s|;
    if n >= 5 {
      assert s[n - 5..] == [s[n - 5], s[n - 4], s[n - 3], s[n - 2], s[n - 1]];
    }
  }

  /** The checks find no problem exactly with such a statement, and each other text gets
      the error of the first condition that it fails. */
  lemma ImportChecks(disk: Disk, importer: nat, path: Path, raw: string, span: nat)
    ensures var problem := ImportProblem(disk, importer, path, raw, span);
            && (problem.None? <==> Importable(disk, path, raw))
            && (!Dotted(raw) ==> problem == Some(NonRelativePath(importer, span)))
            && (Dotted(raw) && !Starred(raw) ==> problem == Some(NotStarExtension(importer, span)))
            && (Dotted(raw) && Starred(raw) && !Importable(disk, path, raw) ==> problem == Some(ImportIo(importer, span)))
  {
    hide IsRelativePath, EndsWith, Dotted, Starred;
    DottedIsRelative(raw);
    StarredEnds(raw);
  }

  /** Indices of the import statements among the first n definitions. */
  function ImportsUpTo(defs: seq<Definition>, n: nat): (r: seq<nat>)
    requires n <= |defs|
    ensures forall k :: 0 <= k < |r| ==> r[k] < n && defs[r[k]].Import?
    ensures forall i :: 0 <= i < n && defs[i].Import? ==> i in r
  {
    if n == 0 then [] else ImportsUpTo(defs, n - 1) + if defs[n - 1].Import? then [n - 1] else []
  }

  function ImportsOf(m: Module): seq<nat> {
    ImportsUpTo(m.definitions, |m.definitions|)
  }

  /** A resolved import goes from its statement to the module at the path there. */
  predicate Resolves(disk: Disk, modules: seq<Module>, i: nat, d: nat, e: PathImport) {
    && i < |modules| && d < |modules[i].definitions| && modules[i].definitions[d].Import?
    && e.target < |modules| && e.defIndex == d && e.span == modules[i].definitions[d].span
    && ImportProblem(disk, i, modules[i].path, modules[i].definitions[d].raw, e.span).None?
    && modules[e.target].path == disk.links[(modules[i].path, modules[i].definitions[d].raw)]
  }

  /** The first n imports of module i are the resolved ones. */
  predicate AllResolve(disk: Disk, modules: seq<Module>, i: nat, resolved: seq<PathImport>)
    requires i < |modules|
  {
    var imports := ImportsOf(modules[i]);
    |resolved| <= |imports|
    && forall k :: 0 <= k < |resolved| ==> Resolves(disk, modules, i, imports[k], resolved[k])
  }

  function EdgesOf(edges: map<nat, seq<PathImport>>, i: nat): seq<PathImport> {
    if i in edges then edges[i] else []
  }

  /** All imports of module i are edges, in order. */
  predicate FullyResolved(disk: Disk, modules: seq<Module>, edges: map<nat, seq<PathImport>>, i: nat)
    requires i < |modules|
  {
    |EdgesOf(edges, i)| == |ImportsOf(modules[i])| && AllResolve(disk, modules, i, EdgesOf(edges, i))
  }

  function Graph(modules: seq<Module>, edges: map<nat, seq<PathImport>>): (g: Imports)
    ensures |g| == |modules| && forall i :: 0 <= i < |g| ==> g[i] == EdgesOf(edges, i)
  {
    seq(|modules|, i requires 0 <= i < |modules| => EdgesOf(edges, i))
  }

  /** The error is that of the module's first import statement that has one. */
  predicate HasProblem(disk: Disk, modules: seq<Module>, i: nat, e: Error) {
    i < |modules| && exists d :: 0 <= d < |modules[i].definitions| && ProblemAt(disk, modules[i], i, d, e)
  }

  predicate ProblemAt(disk: Disk, m: Module, i: nat, d: nat, e: Error)
    requires d < |m.definitions|
  {
    && m.definitions[d].Import?
    && ImportProblem(disk, i, m.path, m.definitions[d].raw, m.definitions[d].span) == Some(e)
    && forall c :: 0 <= c < d ==> NoProblemAt(disk, m, i, c)
  }

  predicate NoProblemAt(disk: Disk, m: Module, i: nat, c: nat)
    requires c < |m.definitions|
  {
    m.definitions[c].Import? ==> ImportProblem(disk, i, m.path, m.definitions[c].raw, m.definitions[c].span).None?
  }

  lemma MoreModules(disk: Disk, modules: seq<Module>, modules': seq<Module>, i: nat, resolved: seq<PathImport>)
    requires i < |modules| && modules <= modules' && AllResolve(disk, modules, i, resolved)
    ensures AllResolve(disk, modules', i, resolved)
  {
    hide ImportProblem;
    assert modules'[i] == modules[i];
    var imports := ImportsOf(modules[i]);
    forall k | 0 <= k < |resolved|
      ensures Resolves(disk, modules', i, imports[k], resolved[k])
    {
      assert Resolves(disk, modules, i, imports[k], resolved[k]);
      assert modules'[resolved[k].target] == modules[resolved[k].target];
    }
  }

  // ---- Checks on the loaded graph.

  /** An import of a module that declares a contract, other than the allowed one. */
  predicate Crosses(modules: seq<Module>, edges: map<nat, seq<PathImport>>, allowed: Option<nat>, i: nat, k: nat) {
    && k < |EdgesOf(edges, i)| && EdgesOf(edges, i)[k].target < |modules|
    && allowed != Some(EdgesOf(edges, i)[k].target)
    && DeclaresContract(modules[EdgesOf(edges, i)[k].target])
  }

  predicate CrossingIs(modules: seq<Module>, edges: map<nat, seq<PathImport>>, allowed: Option<nat>, i: nat, k: nat, e: Error) {
    && Crosses(modules, edges, allowed, i, k)
    && e == CrossContractImport(i, EdgesOf(edges, i)[k].target, EdgesOf(edges, i)[k].span)
  }

  // ---- Results.

  datatype ModuleGraph = ModuleGraph(modules: seq<Module>, topoOrder: seq<nat>, edges: map<nat, seq<PathImport>>,
                                     contractEntries: seq<nat>)

  datatype Result = Ok(graph: ModuleGraph) | Err(error: Error)

  predicate AsRead(disk: Disk, m: Module, i: nat) {
    m.id == i && m.path in disk.files && m.definitions == disk.files[m.path].definitions
  }

  /** Every module is at its own path, as read, and its edges are its imports. */
  ghost predicate Loaded(disk: Disk, modules: seq<Module>, edges: map<nat, seq<PathImport>>) {
    && (forall i :: 0 <= i < |modules| ==> AsRead(disk, modules[i], i))
    && (forall i, j :: 0 <= i < j < |modules| ==> modules[i].path != modules[j].path)
    && (forall i :: 0 <= i < |modules| ==> FullyResolved(disk, modules, edges, i))
  }

  lemma LoadedIsClosed(disk: Disk, modules: seq<Module>, edges: map<nat, seq<PathImport>>)
    requires Loaded(disk, modules, edges)
    ensures Closed(Graph(modules, edges))
  {
    var g: Imports := Graph(modules, edges);
    forall a, k | 0 <= a < |g| && 0 <= k < |g[a]|
      ensures g[a][k].target < |g|
    {
      assert FullyResolved(disk, modules, edges, a);
      assert Resolves(disk, modules, a, ImportsOf(modules[a])[k], EdgesOf(edges, a)[k]);
    }
  }

  /** An accepted graph: loaded, ordered, free of broken files and of imports of
      other contracts. */
  ghost predicate Accepted(disk: Disk, graph: ModuleGraph, allowed: Option<nat>) {
    && Loaded(disk, graph.modules, graph.edges)
    && IsTopoOrder(Graph(graph.modules, graph.edges), graph.topoOrder)
    && (forall i :: 0 <= i < |graph.modules| ==> !disk.files[graph.modules[i].path].broken)
    && (forall i: nat, k: nat :: !Crosses(graph.modules, graph.edges, allowed, i, k))
  }

  /** The reported error is real. */
  ghost predicate RealError(disk: Disk, modules: seq<Module>, edges: map<nat, seq<PathImport>>, allowed: Option<nat>, e: Error) {
    match e
    case CrossContractImport(_, _, _) => exists i: nat, k: nat :: CrossingIs(modules, edges, allowed, i, k, e)
    case Cycle(chain) => IsChain(Graph(modules, edges), chain)
    case ParseFailed(failures) =>
      && failures != []
      && forall i: nat :: i in failures <==> i < |modules| && modules[i].path in disk.files && disk.files[modules[i].path].broken
    case EntryIo(path) => path !in disk.files
    case _ => exists i: nat :: HasProblem(disk, modules, i, e)
  }

  /** Everything was resolved and no check failed. */
  ghost predicate Checked(disk: Disk, modules: seq<Module>, edges: map<nat, seq<PathImport>>, allowed: Option<nat>) {
    && Loaded(disk, modules, edges)
    && (forall i :: 0 <= i < |modules| ==> !disk.files[modules[i].path].broken)
    && (forall i: nat, k: nat :: !Crosses(modules, edges, allowed, i, k))
  }

  /** An error, and the modules read when it was found: each at its own path, as read,
      needed from the roots, and with its own imports for edges. */
  ghost predicate Rejects(disk: Disk, roots: set<Path>, modules: seq<Module>, edges: map<nat, seq<PathImport>>,
                          allowed: Option<nat>, e: Error)
  {
    && RealError(disk, modules, edges, allowed, e)
    && Partly(disk, roots, modules, edges)
  }

  ghost predicate Partly(disk: Disk, roots: set<Path>, modules: seq<Module>, edges: map<nat, seq<PathImport>>) {
    && (forall i :: 0 <= i < |modules| ==> AsRead(disk, modules[i], i) && NeededBy(disk, roots, modules[i].path))
    && (forall i, j :: 0 <= i < j < |modules| ==> modules[i].path != modules[j].path)
    && (forall i :: i in edges ==> i < |modules| && FullyResolved(disk, modules, edges, i))
  }

  // ---- Which programs load.

  /** The file at p imports the file at q, by a statement without a problem. */
  ghost predicate Leads(disk: Disk, p: Path, q: Path) {
    p in disk.files && exists d :: 0 <= d < |disk.files[p].definitions| && LeadsBy(disk, p, d, q)
  }

  predicate LeadsBy(disk: Disk, p: Path, d: nat, q: Path)
    requires p in disk.files && d < |disk.files[p].definitions|
  {
    var def := disk.files[p].definitions[d];
    && def.Import? && Importable(disk, p, def.raw)
    && disk.links[(p, def.raw)] == q
  }

  ghost predicate FileWalk(disk: Disk, ps: seq<Path>) {
    ps != [] && forall i :: 0 <= i < |ps| - 1 ==> Leads(disk, ps[i], ps[i + 1])
  }

  /** One of the roots, or imported by one, directly or not. */
  ghost predicate NeededBy(disk: Disk, roots: set<Path>, p: Path) {
    exists ps :: FileWalk(disk, ps) && ps[0] in roots && ps[|ps| - 1] == p
  }

  /** Readable, not broken, and every import can be resolved and leads to no other
      contract than the allowed one. */
  ghost predicate GoodFile(disk: Disk, p: Path, allowed: Option<Path>) {
    && p in disk.files && !disk.files[p].broken
    && forall d :: 0 <= d < |disk.files[p].definitions| ==> GoodImport(disk, p, d, allowed)
  }

  predicate GoodImport(disk: Disk, p: Path, d: nat, allowed: Option<Path>)
    requires p in disk.files && d < |disk.files[p].definitions|
  {
    var def := disk.files[p].definitions[d];
    def.Import? ==>
      && Importable(disk, p, def.raw)
      && (Contract in disk.files[disk.links[(p, def.raw)]].definitions ==> allowed == Some(disk.links[(p, def.raw)]))
  }

  /** What a program must be to load: every file needed from the roots is good, and
      no file needed imports itself, directly or not. */
  ghost predicate Loads(disk: Disk, roots: set<Path>, allowed: Option<Path>) {
    && (forall p :: NeededBy(disk, roots, p) ==> GoodFile(disk, p, allowed))
    && (forall ps :: FileWalk(disk, ps) && |ps| >= 2 && ps[0] == ps[|ps| - 1] ==> !NeededBy(disk, roots, ps[0]))
  }

  lemma RootNeeded(disk: Disk, roots: set<Path>, p: Path)
    requires p in roots
    ensures NeededBy(disk, roots, p)
  {
    assert FileWalk(disk, [p]);
  }

  lemma NeedsNext(disk: Disk, roots: set<Path>, p: Path, q: Path)
    requires NeededBy(disk, roots, p) && Leads(disk, p, q)
    ensures NeededBy(disk, roots, q)
  {
    var ps :| FileWalk(disk, ps) && ps[0] in roots && ps[|ps| - 1] == p;
    var ps' := ps + [q];
    assert forall i :: 0 <= i < |ps'| - 1 ==> Leads(disk, ps'[i], ps'[i + 1]);
    assert FileWalk(disk, ps') && ps'[0] in roots && ps'[|ps'| - 1] == q;
  }

  /** A resolved import leads from file to file. */
  lemma EdgeLeads(disk: Disk, modules: seq<Module>, i: nat, d: nat, e: PathImport)
    requires i < |modules| && AsRead(disk, modules[i], i) && Resolves(disk, modules, i, d, e)
    ensures Leads(disk, modules[i].path, modules[e.target].path)
  {
    hide ImportProblem, Importable;
    ImportChecks(disk, i, modules[i].path, modules[i].definitions[d].raw, e.span);
    assert LeadsBy(disk, modules[i].path, d, modules[e.target].path);
  }

  /** And a file that leads to another has that edge, once it is resolved. */
  lemma LeadsIsEdge(disk: Disk, modules: seq<Module>, edges: map<nat, seq<PathImport>>, i: nat, d: nat) returns (k: nat)
    requires i < |modules| && AsRead(disk, modules[i], i) && FullyResolved(disk, modules, edges, i)
    requires d < |modules[i].definitions| && modules[i].definitions[d].Import?
    ensures k < |EdgesOf(edges, i)| && Resolves(disk, modules, i, d, EdgesOf(edges, i)[k])
  {
    assert d in ImportsOf(modules[i]);
    k :| 0 <= k < |ImportsOf(modules[i])| && ImportsOf(modules[i])[k] == d;
  }

  // ---- An accepted program is one that must load.

  /** Every file that a walk from a module leads to has a module. */
  lemma {:induction false} WalkHasModules(disk: Disk, modules: seq<Module>, edges: map<nat, seq<PathImport>>, ps: seq<Path>,
                                          i: nat) returns (walk: seq<nat>)
    requires Loaded(disk, modules, edges) && FileWalk(disk, ps) && i < |modules| && modules[i].path == ps[0]
    ensures IsWalk(Graph(modules, edges), walk) && |walk| == |ps| && walk[0] == i
    ensures forall k :: 0 <= k < |ps| ==> walk[k] < |modules| && modules[walk[k]].path == ps[k]
    decreases |ps|
  {
    if |ps| == 1 {
      walk := [i];
    } else {
      assert Leads(disk, ps[0], ps[1]);
      var d :| 0 <= d < |disk.files[ps[0]].definitions| && LeadsBy(disk, ps[0], d, ps[1]);
      assert AsRead(disk, modules[i], i) && FullyResolved(disk, modules, edges, i);
      var k := LeadsIsEdge(disk, modules, edges, i, d);
      var next := EdgesOf(edges, i)[k].target;
      assert FileWalk(disk, ps[1..]) by {
        assert forall j :: 0 <= j < |ps| - 2 ==> Leads(disk, ps[1..][j], ps[1..][j + 1]);
      }
      var rest := WalkHasModules(disk, modules, edges, ps[1..], next);
      walk := [i] + rest;
      WalkGrows(Graph(modules, edges), i, k, rest);
      forall j | 0 <= j < |ps|
        ensures walk[j] < |modules| && modules[walk[j]].path == ps[j]
      {
        if j > 0 {
          assert walk[j] == rest[j - 1] && ps[j] == ps[1..][j - 1];
        }
      }
    }
  }

  lemma WalkGrows(g: Imports, i: nat, k: nat, rest: seq<nat>)
    requires IsWalk(g, rest) && i < |g| && k < |g[i]| && g[i][k].target == rest[0]
    ensures IsWalk(g, [i] + rest)
  {
    var walk := [i] + rest;
    forall j | 0 <= j < |walk| - 1
      ensures HasImport(g, walk[j], walk[j + 1])
    {
      if j > 0 {
        assert walk[j] == rest[j - 1] && walk[j + 1] == rest[j];
      }
    }
  }

  lemma NeededHasModule(disk: Disk, roots: set<Path>, modules: seq<Module>, edges: map<nat, seq<PathImport>>, p: Path)
      returns (m: nat)
    requires Loaded(disk, modules, edges) && NeededBy(disk, roots, p)
    requires forall q :: q in roots ==> HasModule(modules, q)
    ensures m < |modules| && modules[m].path == p
  {
    var ps :| FileWalk(disk, ps) && ps[0] in roots && ps[|ps| - 1] == p;
    var i :| 0 <= i < |modules| && modules[i].path == ps[0];
    var walk := WalkHasModules(disk, modules, edges, ps, i);
    m := walk[|ps| - 1];
  }

  predicate HasModule(modules: seq<Module>, path: Path) {
    exists i :: 0 <= i < |modules| && modules[i].path == path
  }

  /** The allowed target as a path. */
  ghost predicate SameAllowed(modules: seq<Module>, allowed: Option<nat>, path: Option<Path>) {
    if allowed.None? then path.None?
    else allowed.value < |modules| && path == Some(modules[allowed.value].path)
  }

  lemma AcceptedLoads(disk: Disk, roots: set<Path>, graph: ModuleGraph, allowed: Option<nat>, path: Option<Path>)
    requires Accepted(disk, graph, allowed) && SameAllowed(graph.modules, allowed, path)
    requires forall q :: q in roots ==> HasModule(graph.modules, q)
    ensures Loads(disk, roots, path)
  {
    hide Loaded, FullyResolved, Resolves, IsTopoOrder, NeededBy, FileWalk, GoodFile;
    var modules, edges := graph.modules, graph.edges;
    forall p | NeededBy(disk, roots, p)
      ensures GoodFile(disk, p, path)
    {
      var m := NeededHasModule(disk, roots, modules, edges, p);
      ModuleIsGood(disk, graph, allowed, path, m);
    }
    forall ps | FileWalk(disk, ps) && |ps| >= 2 && ps[0] == ps[|ps| - 1]
      ensures !NeededBy(disk, roots, ps[0])
    {
      if NeededBy(disk, roots, ps[0]) {
        var m := NeededHasModule(disk, roots, modules, edges, ps[0]);
        var walk := WalkHasModules(disk, modules, edges, ps, m);
        SamePath(disk, modules, edges, walk[0], walk[|walk| - 1]);
        OrderMeansAcyclic(Graph(modules, edges), graph.topoOrder);
        NotCycle(Graph(modules, edges), walk);
      }
    }
  }

  lemma NotCycle(g: Imports, walk: seq<nat>)
    requires Acyclic(g) && IsWalk(g, walk) && |walk| >= 2
    ensures walk[0] != walk[|walk| - 1]
  {
    assert !IsCycle(g, walk);
  }

  lemma SamePath(disk: Disk, modules: seq<Module>, edges: map<nat, seq<PathImport>>, i: nat, j: nat)
    requires Loaded(disk, modules, edges) && i < |modules| && j < |modules| && modules[i].path == modules[j].path
    ensures i == j
  {
  }

  lemma ModuleIsGood(disk: Disk, graph: ModuleGraph, allowed: Option<nat>, path: Option<Path>, m: nat)
    requires Accepted(disk, graph, allowed) && SameAllowed(graph.modules, allowed, path) && m < |graph.modules|
    ensures GoodFile(disk, graph.modules[m].path, path)
  {
    hide IsTopoOrder;
    var modules, edges := graph.modules, graph.edges;
    var p := modules[m].path;
    assert AsRead(disk, modules[m], m) && FullyResolved(disk, modules, edges, m);
    forall d | 0 <= d < |disk.files[p].definitions|
      ensures GoodImport(disk, p, d, path)
    {
      if disk.files[p].definitions[d].Import? {
        var k := LeadsIsEdge(disk, modules, edges, m, d);
        var t := EdgesOf(edges, m)[k].target;
        ImportChecks(disk, m, p, modules[m].definitions[d].raw, modules[m].definitions[d].span);
        assert AsRead(disk, modules[t], t);
        assert !Crosses(modules, edges, allowed, m, k);
      }
    }
  }

  // ---- A rejected program is one that must not load.

  lemma RejectedDoesNotLoad(disk: Disk, roots: set<Path>, modules: seq<Module>, edges: map<nat, seq<PathImport>>,
                            allowed: Option<nat>, path: Option<Path>, e: Error)
    requires Rejects(disk, roots, modules, edges, allowed, e) && !e.EntryIo? && SameAllowed(modules, allowed, path)
    ensures !Loads(disk, roots, path)
  {
    hide NeededBy, GoodFile, FileWalk;
    match e
    case CrossContractImport(_, _, _) => CrossingBad(disk, roots, modules, edges, allowed, path, e);
    case Cycle(chain) => CycleBad(disk, roots, modules, edges, allowed, chain);
    case ParseFailed(failures) =>
      assert failures[0] in failures;
      BrokenBad(disk, modules[failures[0]].path, path);
    case ImportIo(_, _) => SomeProblemBad(disk, modules, e, path);
    case NonRelativePath(_, _) => SomeProblemBad(disk, modules, e, path);
    case NotStarExtension(_, _) => SomeProblemBad(disk, modules, e, path);
  }

  lemma BrokenBad(disk: Disk, p: Path, path: Option<Path>)
    requires p in disk.files && disk.files[p].broken
    ensures !GoodFile(disk, p, path)
  {
  }

  lemma SomeProblemBad(disk: Disk, modules: seq<Module>, e: Error, path: Option<Path>)
    requires exists i: nat :: HasProblem(disk, modules, i, e)
    requires forall i :: 0 <= i < |modules| ==> AsRead(disk, modules[i], i)
    ensures exists i :: 0 <= i < |modules| && !GoodFile(disk, modules[i].path, path)
  {
    hide GoodFile;
    var i: nat :| HasProblem(disk, modules, i, e);
    ProblemBad(disk, modules, i, e, path);
  }

  lemma ProblemBad(disk: Disk, modules: seq<Module>, i: nat, e: Error, path: Option<Path>)
    requires HasProblem(disk, modules, i, e) && AsRead(disk, modules[i], i)
    ensures !GoodFile(disk, modules[i].path, path)
  {
    var d :| 0 <= d < |modules[i].definitions| && ProblemAt(disk, modules[i], i, d, e);
    ImportChecks(disk, i, modules[i].path, modules[i].definitions[d].raw, modules[i].definitions[d].span);
    assert !GoodImport(disk, modules[i].path, d, path);
  }

  lemma CrossingBad(disk: Disk, roots: set<Path>, modules: seq<Module>, edges: map<nat, seq<PathImport>>,
                    allowed: Option<nat>, path: Option<Path>, e: Error)
    requires Rejects(disk, roots, modules, edges, allowed, e) && e.CrossContractImport? && SameAllowed(modules, allowed, path)
    ensures !Loads(disk, roots, path)
  {
    hide NeededBy, FileWalk, FullyResolved, Resolves, GoodFile;
    var i: nat, k: nat :| CrossingIs(modules, edges, allowed, i, k, e);
    assert i in edges && i < |modules| && FullyResolved(disk, modules, edges, i);
    CrossingFileBad(disk, modules, edges, allowed, path, i, k);
    assert AsRead(disk, modules[i], i) && NeededBy(disk, roots, modules[i].path);
  }

  lemma CrossingFileBad(disk: Disk, modules: seq<Module>, edges: map<nat, seq<PathImport>>, allowed: Option<nat>,
                        path: Option<Path>, i: nat, k: nat)
    requires forall m :: 0 <= m < |modules| ==> AsRead(disk, modules[m], m)
    requires forall m, n :: 0 <= m < n < |modules| ==> modules[m].path != modules[n].path
    requires i < |modules| && FullyResolved(disk, modules, edges, i) && Crosses(modules, edges, allowed, i, k)
    requires SameAllowed(modules, allowed, path)
    ensures !GoodFile(disk, modules[i].path, path)
  {
    hide IsRelativePath, EndsWith;
    var e := EdgesOf(edges, i)[k];
    var d := ImportsOf(modules[i])[k];
    assert Resolves(disk, modules, i, d, e);
    assert AsRead(disk, modules[i], i) && AsRead(disk, modules[e.target], e.target);
    assert !GoodImport(disk, modules[i].path, d, path);
  }

  lemma CycleBad(disk: Disk, roots: set<Path>, modules: seq<Module>, edges: map<nat, seq<PathImport>>,
                 allowed: Option<nat>, chain: seq<Link>)
    requires Rejects(disk, roots, modules, edges, allowed, Cycle(chain))
    ensures forall path :: !Loads(disk, roots, path)
  {
    hide NeededBy, FileWalk, Partly, IsChain, Graph;
    assert IsChain(Graph(modules, edges), chain);
    var ps := ChainWalk(disk, roots, modules, edges, chain);
    ClosedWalkBad(disk, roots, ps);
  }

  /** A needed file that imports itself, directly or not. */
  lemma ClosedWalkBad(disk: Disk, roots: set<Path>, ps: seq<Path>)
    requires FileWalk(disk, ps) && |ps| >= 2 && ps[0] == ps[|ps| - 1] && NeededBy(disk, roots, ps[0])
    ensures forall path :: !Loads(disk, roots, path)
  {
    hide NeededBy, FileWalk, GoodFile;
  }

  /** The files along a closing chain. */
  lemma ChainWalk(disk: Disk, roots: set<Path>, modules: seq<Module>, edges: map<nat, seq<PathImport>>, chain: seq<Link>)
    returns (ps: seq<Path>)
    requires Partly(disk, roots, modules, edges) && IsChain(Graph(modules, edges), chain)
    ensures FileWalk(disk, ps) && |ps| >= 2 && ps[0] == ps[|ps| - 1] && NeededBy(disk, roots, ps[0])
  {
    hide NeededBy, FullyResolved, Resolves, Leads;
    var g: Imports := Graph(modules, edges);
    ChainInside(g, chain);
    ps := seq(|chain|, k requires 0 <= k < |chain| => modules[chain[k].node].path);
    forall k | 0 <= k < |ps| - 1
      ensures Leads(disk, ps[k], ps[k + 1])
    {
      assert ImportAt(g, chain[k].node, chain[k + 1]);
      ChainLeads(disk, roots, modules, edges, chain[k].node, chain[k + 1]);
    }
    assert NeededBy(disk, roots, modules[chain[0].node].path);
  }

  lemma ChainInside(g: Imports, chain: seq<Link>)
    requires IsChain(g, chain)
    ensures forall k :: 0 <= k < |chain| ==> chain[k].node < |g|
  {
    forall k | 0 <= k < |chain|
      ensures chain[k].node < |g|
    {
      if k < |chain| - 1 {
        assert ImportAt(g, chain[k].node, chain[k + 1]);
      }
    }
  }

  lemma ChainLeads(disk: Disk, roots: set<Path>, modules: seq<Module>, edges: map<nat, seq<PathImport>>, a: nat, l: Link)
    requires Partly(disk, roots, modules, edges) && ImportAt(Graph(modules, edges), a, l) && l.node < |modules|
    ensures a < |modules| && Leads(disk, modules[a].path, modules[l.node].path)
  {
    var g: Imports := Graph(modules, edges);
    var k :| 0 <= k < |g[a]| && g[a][k].target == l.node && g[a][k].span == l.span;
    assert a in edges && FullyResolved(disk, modules, edges, a);
    assert Resolves(disk, modules, a, ImportsOf(modules[a])[k], EdgesOf(edges, a)[k]);
    EdgeLeads(disk, modules, a, ImportsOf(modules[a])[k], EdgesOf(edges, a)[k]);
  }
}
