/**
 * The part of a processed package that an import loads: the CDN's entry closures
 * (crates/sandpack-cdn/src/package/entries.rs) over the edge relation of
 * crates/sandpack-cdn/src/package/resolver.rs.
 */
module EntryClosures {
  import opened Wrappers
  import opened Strings
  import opened Sets
  import Paths

  const ROOT_ENTRY := "."

  datatype MinimalFile =
    | File(content: string, dependencies: seq<string>, isTranspiled: bool)
    | Ignored(size: nat)
    | Failed(flag: bool)

  datatype Specifier = Relative(path: string) | PackageImport(name: string, subpath: Option<string>)

  datatype Replacement = Keep | Excluded | ReplacedByFile(file: string) | ReplacedByModule(specifier: string)

  /**
   * A processed release: its files, the two halves of its `browser` field, the target its
   * `exports` give an entry (`None`: no key matches; `Some(None)`: mapped to nothing), its
   * main entry, and the two libraries the edges go through, the specifier parser and globbing.
   */
  datatype Package = Package(
    name: string,
    files: map<string, MinimalFile>,
    browserFiles: map<string, Option<string>>,
    browserModules: map<string, Replacement>,
    exportTarget: string -> Option<Option<string>>,
    mainEntry: string,
    parse: string -> Option<Specifier>,
    glob: string -> Option<seq<string>>)

  // ---- crates/sandpack-cdn/src/package/resolver.rs ---------------------------

  function MakeAbsolute(cwd: string, specifier: string): string {
    Join(Paths.PushAll([], Split(cwd + "/" + specifier), false))
  }

  method MakeModSpecifierAbsolute(cwd: string, specifier: string) returns (path: string)
    ensures path == MakeAbsolute(cwd, specifier)
    ensures path != "" ==> Paths.Ordinary(Split(path))
  {
    var parts := Split(cwd + "/" + specifier);
    SplitIsSlashFree(cwd + "/" + specifier);
    var resultParts: seq<string> := [];
    var i := 0;
    while i < |parts|
      invariant 0 <= i <= |parts|
      invariant Paths.PushAll(resultParts, parts[i..], false) == Paths.PushAll([], parts, false)
      invariant ".." !in resultParts
    {
      var part := parts[i];
      assert parts[i..][1..] == parts[i + 1..];
      if part == "." || part == "" {
      } else if part == ".." {
        if |resultParts| > 0 {
          resultParts := resultParts[..|resultParts| - 1];
        }
      } else {
        resultParts := resultParts + [part];
      }
      i := i + 1;
    }
    path := Join(resultParts);
    Paths.PushAllShape([], parts, false);
    if resultParts != [] {
      SplitJoin(resultParts);
    }
  }

  function DirectoryOf(file: string): string {
    MakeAbsolute(file, "..")
  }

  /** Everything from the last dot on. */
  function FromLastDot(path: string): Option<string> {
    if path == "" then None
    else
      match FromLastDot(path[1..])
      case Some(ext) => Some(ext)
      case None => if path[0] == '.' then Some(path) else None
  }

  function Extension(path: string): Option<string> {
    match FromLastDot(path)
    case Some(ext) => if ext == "." || '/' in ext then None else Some(ext)
    case None => None
  }

  const EXTENSIONS := [".js", ".mjs", ".cjs", ".css", ".sass", ".scss", ".less"]

  function FirstListed(pkg: Package, stem: string, extensions: seq<string>): seq<string> {
    if |extensions| == 0 then []
    else if stem + extensions[0] in pkg.files then [stem + extensions[0]]
    else FirstListed(pkg, stem, extensions[1..])
  }

  function CollectFiles(pkg: Package, pattern: string, currentExtension: Option<string>): seq<string> {
    if '*' in pattern && pkg.glob(pattern).Some? then pkg.glob(pattern).value
    else if pattern in pkg.files then [pattern]
    else
      var extensions := (if currentExtension.Some? then [currentExtension.value] else []) + EXTENSIONS;
      var direct := FirstListed(pkg, pattern, extensions);
      if direct != [] then direct else FirstListed(pkg, pattern + "/index", extensions)
  }

  // ---- edges -----------------------------------------------------------------

  /** The entry an import names. */
  function EntryOf(subpath: Option<string>): string {
    match subpath
    case None => ROOT_ENTRY
    case Some(s) => var trimmed := TrimSlashes(s); if trimmed == "" then ROOT_ENTRY else "./" + trimmed
  }

  function TrimSlashes(s: string): string {
    if s != "" && s[0] == '/' then TrimSlashes(s[1..]) else Paths.TrimTrailing(s)
  }

  /** The file loaded in place of `file`, or None when the `browser` field excludes it. */
  function BrowserFile(pkg: Package, file: string): Option<string> {
    if file in pkg.browserFiles then pkg.browserFiles[file]
    else
      match Extension(file)
      case Some(ext) =>
        if |ext| <= |file| && file[..|file| - |ext|] in pkg.browserFiles then pkg.browserFiles[file[..|file| - |ext|]]
        else Some(file)
      case None => Some(file)
  }

  function BrowserFiles(pkg: Package, files: seq<string>): set<string> {
    set f | f in files && BrowserFile(pkg, f).Some? :: BrowserFile(pkg, f).value
  }

  function BrowserModule(pkg: Package, specifier: string): Replacement {
    if specifier in pkg.browserModules then pkg.browserModules[specifier] else Keep
  }

  /** The package edge of a bare specifier: the package and the entry it is imported through. */
  function PackageEdge(pkg: Package, specifier: string): set<(string, string)> {
    match pkg.parse(specifier)
    case Some(PackageImport(name, subpath)) => {(name, EntryOf(subpath))}
    case _ => {}
  }

  /** What one dependency of `file` leads to: files of this package, and package edges. */
  function Edge(pkg: Package, file: string, dep: string): (set<string>, set<(string, string)>) {
    match pkg.parse(dep)
    case None => ({}, {})
    case Some(Relative(path)) =>
      (BrowserFiles(pkg, CollectFiles(pkg, MakeAbsolute(DirectoryOf(file), path), Extension(file))), {})
    case Some(PackageImport(_, _)) =>
      match BrowserModule(pkg, dep)
      case Excluded => ({}, {})
      case ReplacedByFile(f) => (BrowserFiles(pkg, CollectFiles(pkg, f, Extension(file))), {})
      case ReplacedByModule(m) => ({}, PackageEdge(pkg, m))
      case Keep => ({}, PackageEdge(pkg, dep))
  }

  /** The dependencies the closure follows from `file`: none when it was not transformed. */
  function Dependencies(pkg: Package, file: string): seq<string> {
    if file in pkg.files && pkg.files[file].File? then pkg.files[file].dependencies else []
  }

  function NextBy(pkg: Package, file: string, deps: seq<string>): set<string> {
    set dep, f | dep in deps && f in Edge(pkg, file, dep).0 :: f
  }

  function ImportsBy(pkg: Package, file: string, deps: seq<string>): set<(string, string)> {
    set dep, edge | dep in deps && edge in Edge(pkg, file, dep).1 :: edge
  }

  /** The files `file` leads to in one step. */
  function Next(pkg: Package, file: string): set<string> {
    NextBy(pkg, file, Dependencies(pkg, file))
  }

  /** The packages `file` imports, with the entries it imports. */
  function Imports(pkg: Package, file: string): set<(string, string)> {
    ImportsBy(pkg, file, Dependencies(pkg, file))
  }

  /** The files an entry names before anything is followed. */
  function ResolveEntry(pkg: Package, entry: string): seq<string> {
    match pkg.exportTarget(entry)
    case Some(Some(target)) => CollectFiles(pkg, MakeAbsolute(".", target), None)
    case Some(None) => []
    case None =>
      CollectFiles(pkg, MakeAbsolute(".", if entry == ROOT_ENTRY then pkg.mainEntry else entry), None)
  }

  function Roots(pkg: Package, entries: set<string>): set<string> {
    set entry, f | entry in entries && f in BrowserFiles(pkg, ResolveEntry(pkg, entry)) :: f
  }

  // ---- the closure, as a least fixed point ---------------------------------------

  ghost predicate Closed(pkg: Package, files: set<string>) {
    forall f :: f in files ==> Next(pkg, f) <= files
  }

  function NextAll(pkg: Package, files: set<string>): set<string> {
    set f, g | f in files && g in Next(pkg, f) :: g
  }

  /** Every file an edge of the package leads to: the only files a closure can add to its roots. */
  function AllTargets(pkg: Package): set<string> {
    NextAll(pkg, pkg.files.Keys)
  }

  lemma NextIsATarget(pkg: Package, files: set<string>)
    ensures NextAll(pkg, files) <= AllTargets(pkg)
  {
  }

  function Reach(pkg: Package, seen: set<string>): set<string>
    decreases |AllTargets(pkg) - seen|
  {
    var more := seen + NextAll(pkg, seen);
    if more == seen then seen
    else
      NextIsATarget(pkg, seen);
      SmallerRest(AllTargets(pkg), seen, more);
      Reach(pkg, more)
  }

  /** `Reach` is a closed set above its argument... */
  lemma {:induction false} ReachIsClosed(pkg: Package, seen: set<string>)
    ensures seen <= Reach(pkg, seen) && Closed(pkg, Reach(pkg, seen))
    decreases |AllTargets(pkg) - seen|
  {
    var more := seen + NextAll(pkg, seen);
    if more == seen {
      forall f | f in seen ensures Next(pkg, f) <= seen {
        assert Next(pkg, f) <= NextAll(pkg, seen);
      }
    } else {
      NextIsATarget(pkg, seen);
      SmallerRest(AllTargets(pkg), seen, more);
      ReachIsClosed(pkg, more);
    }
  }

  /** ...and below every other one. */
  lemma {:induction false} ReachIsLeast(pkg: Package, seen: set<string>, other: set<string>)
    requires seen <= other && Closed(pkg, other)
    ensures Reach(pkg, seen) <= other
    decreases |AllTargets(pkg) - seen|
  {
    var more := seen + NextAll(pkg, seen);
    if more != seen {
      NextIsATarget(pkg, seen);
      SmallerRest(AllTargets(pkg), seen, more);
      ReachIsLeast(pkg, more, other);
    }
  }

  /** The files `entries` load. */
  function Files(pkg: Package, entries: set<string>): set<string> {
    Reach(pkg, Roots(pkg, entries))
  }

  /** The packages those files import, with the entries they import. */
  function Packages(pkg: Package, entries: set<string>): set<(string, string)> {
    set f, edge | f in Files(pkg, entries) && edge in Imports(pkg, f) :: edge
  }

  /** The closure is exactly the least set of files holding the entries' own and closed under the edges. */
  lemma ClosureIsLeast(pkg: Package, entries: set<string>, other: set<string>)
    ensures Roots(pkg, entries) <= Files(pkg, entries) && Closed(pkg, Files(pkg, entries))
    ensures Roots(pkg, entries) <= other && Closed(pkg, other) ==> Files(pkg, entries) <= other
  {
    ReachIsClosed(pkg, Roots(pkg, entries));
    if Roots(pkg, entries) <= other && Closed(pkg, other) {
      ReachIsLeast(pkg, Roots(pkg, entries), other);
    }
  }

  /** Closures distribute over unions of entries: each entry's files may be served on their own. */
  lemma ClosureOfUnion(pkg: Package, a: set<string>, b: set<string>)
    ensures Files(pkg, a + b) == Files(pkg, a) + Files(pkg, b)
    ensures Packages(pkg, a + b) == Packages(pkg, a) + Packages(pkg, b)
  {
    FilesOfUnion(pkg, a, b);
    forall edge ensures edge in Packages(pkg, a + b) <==> edge in Packages(pkg, a) + Packages(pkg, b) {
    }
  }

  lemma FilesOfUnion(pkg: Package, a: set<string>, b: set<string>)
    ensures Files(pkg, a + b) == Files(pkg, a) + Files(pkg, b)
  {
    var rootsA, rootsB, roots := Roots(pkg, a), Roots(pkg, b), Roots(pkg, a + b);
    assert roots == rootsA + rootsB;
    ReachIsClosed(pkg, rootsA);
    ReachIsClosed(pkg, rootsB);
    ReachIsClosed(pkg, roots);
    ReachIsLeast(pkg, rootsA, Files(pkg, a + b));
    ReachIsLeast(pkg, rootsB, Files(pkg, a + b));
    ReachIsLeast(pkg, roots, Files(pkg, a) + Files(pkg, b));
  }

  // ---- the worklist ------------------------------------------------------------

  /** `closure.packages` as pairs. */
  function Pairs(packages: map<string, set<string>>): set<(string, string)> {
    set name, entry | name in packages && entry in packages[name] :: (name, entry)
  }

  lemma PairsInsert(packages: map<string, set<string>>, name: string, entry: string)
    ensures var before := if name in packages then packages[name] else {};
            Pairs(packages[name := before + {entry}]) == Pairs(packages) + {(name, entry)}
  {
  }

  predicate NoEmptyPackage(packages: map<string, set<string>>) {
    forall name :: name in packages ==> packages[name] != {}
  }

  method FilterBrowser(pkg: Package, found: seq<string>) returns (kept: seq<string>)
    ensures ToSet(kept) == BrowserFiles(pkg, found)
  {
    kept := [];
    for i := 0 to |found|
      invariant forall f :: f in kept <==> f in BrowserFiles(pkg, found[..i])
    {
      assert found[..i + 1] == found[..i] + [found[i]];
      match BrowserFile(pkg, found[i])
      case Some(f) => kept := kept + [f];
      case None =>
    }
    assert found[..|found|] == found;
  }

  function ToSet(s: seq<string>): set<string> {
    set x | x in s
  }

  lemma ToSetAppend(s: seq<string>, x: string)
    ensures ToSet(s + [x]) == ToSet(s) + {x}
  {
  }

  lemma ToSetConcat(s: seq<string>, t: seq<string>)
    ensures ToSet(s + t) == ToSet(s) + ToSet(t)
  {
  }

  /** The outer loop: the files the entries themselves name. */
  method EntryRoots(pkg: Package, entries: seq<string>) returns (queue: seq<string>)
    ensures ToSet(queue) == Roots(pkg, ToSet(entries))
  {
    queue := [];
    for i := 0 to |entries|
      invariant ToSet(queue) == Roots(pkg, ToSet(entries[..i]))
    {
      var kept := FilterBrowser(pkg, ResolveEntry(pkg, entries[i]));
      assert entries[..i + 1] == entries[..i] + [entries[i]];
      ToSetAppend(entries[..i], entries[i]);
      RootsAppend(pkg, ToSet(entries[..i]), entries[i]);
      queue := queue + kept;
    }
    assert entries[..|entries|] == entries;
  }

  lemma RootsAppend(pkg: Package, entries: set<string>, entry: string)
    ensures Roots(pkg, entries + {entry}) == Roots(pkg, entries) + BrowserFiles(pkg, ResolveEntry(pkg, entry))
  {
  }

  function ImportsOf(pkg: Package, files: set<string>): set<(string, string)> {
    set f, edge | f in files && edge in Imports(pkg, f) :: edge
  }

  /** What the worklist keeps: `done` is explored, `todo` is still queued, nothing else is owed. */
  ghost predicate Explored(pkg: Package, asked: set<string>, done: set<string>, todo: set<string>, edges: set<(string, string)>) {
    && done + todo <= Files(pkg, asked)
    && Roots(pkg, asked) <= done + todo
    && (forall f :: f in done ==> Next(pkg, f) <= done + todo)
    && edges == ImportsOf(pkg, done)
  }

  lemma ExploreNew(pkg: Package, asked: set<string>, done: set<string>, todo: set<string>, edges: set<(string, string)>, file: string)
    requires Explored(pkg, asked, done, todo + {file}, edges) && file !in done
    ensures file in Files(pkg, asked)
    ensures Explored(pkg, asked, done + {file}, todo + Next(pkg, file), edges + Imports(pkg, file))
  {
    var known, now := done + (todo + {file}), (done + {file}) + (todo + Next(pkg, file));
    assert file in known;
    NextIsLoaded(pkg, asked, file);
    assert now == known + Next(pkg, file);
    forall f | f in done + {file} ensures Next(pkg, f) <= now {
      if f != file {
        assert Next(pkg, f) <= known;
      }
    }
    ImportsOfOneMore(pkg, done, file);
  }

  lemma NextIsLoaded(pkg: Package, asked: set<string>, file: string)
    requires file in Files(pkg, asked)
    ensures Next(pkg, file) <= Files(pkg, asked)
  {
    ReachIsClosed(pkg, Roots(pkg, asked));
  }

  lemma ImportsOfOneMore(pkg: Package, files: set<string>, file: string)
    ensures ImportsOf(pkg, files + {file}) == ImportsOf(pkg, files) + Imports(pkg, file)
  {
  }

  lemma ExploredAll(pkg: Package, asked: set<string>, done: set<string>, edges: set<(string, string)>)
    requires Explored(pkg, asked, done, {}, edges)
    ensures done == Files(pkg, asked) && edges == Packages(pkg, asked)
  {
    assert done + {} == done;
    ReachIsLeast(pkg, Roots(pkg, asked), done);
  }

  lemma ExploreNothing(pkg: Package, asked: set<string>)
    ensures Explored(pkg, asked, {}, Roots(pkg, asked), Pairs(map[]))
  {
    ReachIsClosed(pkg, Roots(pkg, asked));
  }

  /** The worklist's state: files loaded, files still queued, packages imported. */
  ghost predicate Working(pkg: Package, asked: set<string>, files: set<string>, queue: seq<string>, packages: map<string, set<string>>) {
    Explored(pkg, asked, files, ToSet(queue), Pairs(packages)) && NoEmptyPackage(packages)
  }

  /** The worklist: files are popped in stack order, and the order does not show in the result. */
  method EntryClosure(pkg: Package, entries: seq<string>) returns (files: set<string>, packages: map<string, set<string>>)
    ensures files == Files(pkg, ToSet(entries)) && Pairs(packages) == Packages(pkg, ToSet(entries))
    ensures NoEmptyPackage(packages)
  {
    ghost var asked := ToSet(entries);
    files, packages := {}, map[];
    var queue := EntryRoots(pkg, entries);
    ExploreNothing(pkg, asked);
    while queue != []
      invariant Working(pkg, asked, files, queue, packages)
      decreases |Files(pkg, asked) - files|, |queue|
    {
      var file := queue[|queue| - 1];
      if file in files {
        SkipLoaded(pkg, asked, files, queue, packages);
        queue := queue[..|queue| - 1];
      } else {
        files, queue, packages := Visit(pkg, asked, files, queue, packages);
      }
    }
    ExploredAll(pkg, asked, files, Pairs(packages));
  }

  lemma SkipLoaded(pkg: Package, asked: set<string>, files: set<string>, queue: seq<string>, packages: map<string, set<string>>)
    requires queue != [] && queue[|queue| - 1] in files && Working(pkg, asked, files, queue, packages)
    ensures Working(pkg, asked, files, queue[..|queue| - 1], packages)
  {
  }

  /** One file of the worklist, seen for the first time. */
  method Visit(pkg: Package, ghost asked: set<string>, done: set<string>, todo: seq<string>, before: map<string, set<string>>)
    returns (files: set<string>, queue: seq<string>, packages: map<string, set<string>>)
    requires todo != [] && todo[|todo| - 1] !in done && Working(pkg, asked, done, todo, before)
    ensures Working(pkg, asked, files, queue, packages)
    ensures |Files(pkg, asked) - files| < |Files(pkg, asked) - done|
  {
    var file, rest := todo[|todo| - 1], todo[..|todo| - 1];
    assert todo == rest + [file];
    ToSetAppend(rest, file);
    ExploreNew(pkg, asked, done, ToSet(rest), Pairs(before), file);
    FewerLeft(Files(pkg, asked), done, file);
    files := done + {file};
    var found, edges := FollowDependencies(pkg, file);
    queue := rest + found;
    packages := AddEdges(before, edges);
    ToSetConcat(rest, found);
  }

  /** What one dependency leads to. */
  method FollowDependency(pkg: Package, file: string, dep: string) returns (found: seq<string>, edges: set<(string, string)>)
    ensures ToSet(found) == Edge(pkg, file, dep).0 && edges == Edge(pkg, file, dep).1
    ensures |edges| <= 1
  {
    found, edges := [], {};
    match pkg.parse(dep)
    case None =>
    case Some(Relative(path)) =>
      found := FilterBrowser(pkg, CollectFiles(pkg, MakeAbsolute(DirectoryOf(file), path), Extension(file)));
    case Some(PackageImport(_, _)) =>
      match BrowserModule(pkg, dep)
      case Excluded =>
      case ReplacedByFile(f) =>
        found := FilterBrowser(pkg, CollectFiles(pkg, f, Extension(file)));
      case ReplacedByModule(m) =>
        edges := PackageEdge(pkg, m);
      case Keep =>
        edges := PackageEdge(pkg, dep);
  }

  lemma ByOneMore(pkg: Package, file: string, deps: seq<string>, dep: string)
    ensures NextBy(pkg, file, deps + [dep]) == NextBy(pkg, file, deps) + Edge(pkg, file, dep).0
    ensures ImportsBy(pkg, file, deps + [dep]) == ImportsBy(pkg, file, deps) + Edge(pkg, file, dep).1
  {
  }

  /** The inner loop: every dependency of one file. */
  method FollowDependencies(pkg: Package, file: string) returns (found: seq<string>, edges: set<(string, string)>)
    ensures ToSet(found) == Next(pkg, file) && edges == Imports(pkg, file)
  {
    var deps := Dependencies(pkg, file);
    found, edges := [], {};
    for i := 0 to |deps|
      invariant ToSet(found) == NextBy(pkg, file, deps[..i])
      invariant edges == ImportsBy(pkg, file, deps[..i])
    {
      assert deps[..i + 1] == deps[..i] + [deps[i]];
      ByOneMore(pkg, file, deps[..i], deps[i]);
      var files, imported := FollowDependency(pkg, file, deps[i]);
      ToSetConcat(found, files);
      found := found + files;
      edges := edges + imported;
    }
    assert deps[..|deps|] == deps;
  }

  /** `closure.packages.entry(package).or_default().insert(entry)`, for every edge. */
  method AddEdges(before: map<string, set<string>>, edges: set<(string, string)>) returns (packages: map<string, set<string>>)
    requires NoEmptyPackage(before)
    ensures Pairs(packages) == Pairs(before) + edges && NoEmptyPackage(packages)
  {
    packages := before;
    var rest := edges;
    while rest != {}
      invariant rest <= edges && NoEmptyPackage(packages)
      invariant Pairs(packages) == Pairs(before) + (edges - rest)
      decreases rest
    {
      var edge :| edge in rest;
      var (name, entry) := edge;
      PairsInsert(packages, name, entry);
      packages := packages[name := (if name in packages then packages[name] else {}) + {entry}];
      rest := rest - {edge};
    }
  }
}
