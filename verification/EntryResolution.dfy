/** Which files an entry names, and what its files lead to, in terms of the package's own files and fields. */
module EntryResolution {
  import opened Wrappers
  import opened Strings
  import opened EntryClosures
  import Paths

  // ---- a path and the file found for it ---------------------------------------------------------

  function Extended(stem: string, extensions: seq<string>): seq<string> {
    seq(|extensions|, i requires 0 <= i < |extensions| => stem + extensions[i])
  }

  /** The paths tried for `path`, in order: itself, its extensions, its index; the importer's own extension first. */
  function Candidates(path: string, current: Option<string>): seq<string> {
    var extensions := (match current case Some(ext) => [ext] case None => []) + [".js", ".mjs", ".cjs", ".css", ".sass", ".scss", ".less"];
    [path] + Extended(path, extensions) + Extended(path + "/index", extensions)
  }

  function FirstIn(files: set<string>, candidates: seq<string>): seq<string> {
    if |candidates| == 0 then [] else if candidates[0] in files then [candidates[0]] else FirstIn(files, candidates[1..])
  }

  lemma {:induction false} FirstInConcat(files: set<string>, a: seq<string>, b: seq<string>)
    ensures FirstIn(files, a + b) == if FirstIn(files, a) != [] then FirstIn(files, a) else FirstIn(files, b)
  {
    if |a| > 0 {
      assert (a + b)[1..] == a[1..] + b;
      FirstInConcat(files, a[1..], b);
    } else {
      assert a + b == b;
    }
  }

  lemma {:induction false} FirstListedIs(pkg: Package, stem: string, extensions: seq<string>)
    ensures FirstListed(pkg, stem, extensions) == FirstIn(pkg.files.Keys, Extended(stem, extensions))
  {
    if |extensions| > 0 {
      assert Extended(stem, extensions)[1..] == Extended(stem, extensions[1..]);
      FirstListedIs(pkg, stem, extensions[1..]);
    }
  }

  /** A path without a star is looked up in this order, and at most one file is found. */
  lemma FoundIsFirst(pkg: Package, path: string, current: Option<string>)
    requires '*' !in path
    ensures CollectFiles(pkg, path, current) == FirstIn(pkg.files.Keys, Candidates(path, current))
  {
    var extensions := (match current case Some(ext) => [ext] case None => []) + EXTENSIONS;
    FirstListedIs(pkg, path, extensions);
    FirstListedIs(pkg, path + "/index", extensions);
    FirstInConcat(pkg.files.Keys, [path] + Extended(path, extensions), Extended(path + "/index", extensions));
    FirstInConcat(pkg.files.Keys, [path], Extended(path, extensions));
  }

  // ---- paths as segments ---------------------------------------------------------------------------

  predicate Good(segs: seq<string>) {
    Paths.Ordinary(segs) && SlashFree(segs)
  }

  lemma MakeBelow(cwd: seq<string>, specifier: string)
    requires Good(cwd)
    ensures MakeAbsolute(Join(cwd), specifier) == Join(Paths.PushAll(cwd, Split(specifier), false))
  {
    SplitConcat(Join(cwd), specifier);
    Paths.PushAllConcat([], Split(Join(cwd)), Split(specifier), false);
    if cwd == [] {
      assert Split("") == [""];
    } else {
      SplitJoin(cwd);
      Paths.PushOrdinary([], cwd, false);
      assert [] + cwd == cwd;
    }
  }

  /** The directory of a file. */
  lemma DirectoryOfFile(dir: seq<string>, name: string)
    requires Good(dir + [name])
    ensures DirectoryOf(Join(dir + [name])) == Join(dir)
  {
    MakeBelow(dir + [name], "..");
    SplitSlashFree("..");
    assert (dir + [name])[..|dir|] == dir;
    assert Paths.PushAll(dir + [name], [".."], false) == Paths.PushAll(dir, [], false);
  }

  /** `./` in front of a path below the package, or nothing, leads to the path. */
  lemma FromRoot(segs: seq<string>, dotted: string)
    requires Good(segs) && segs != [] && (dotted == Join(segs) || dotted == "./" + Join(segs))
    ensures MakeAbsolute(".", dotted) == Join(segs)
  {
    SplitJoin(segs);
    PushDots(segs);
    BehindDot(Join(segs));
    if dotted == "./" + Join(segs) {
      BehindDot(dotted);
    }
  }

  lemma BehindDot(path: string)
    ensures Split("." + "/" + path) == ["."] + Split(path) && Split("./" + path) == ["."] + Split(path)
  {
    var dot: string :| dot == ".";
    SplitSlashFree(dot);
    SplitConcat(dot, path);
    assert "./" + path == dot + "/" + path;
  }

  lemma PushDots(segs: seq<string>)
    requires Paths.Ordinary(segs)
    ensures Paths.PushAll([], ["."] + segs, false) == segs
    ensures Paths.PushAll([], ["."] + (["."] + segs), false) == segs
  {
    Paths.PushOrdinary([], segs, false);
    assert [] + segs == segs;
    assert (["."] + segs)[1..] == segs;
    assert (["."] + (["."] + segs))[1..] == ["."] + segs;
  }

  // ---- the browser field ----------------------------------------------------------------------------

  /** No key of the browser field is the file, with or without its extension. */
  predicate Untouched(pkg: Package, file: string) {
    forall key :: key in pkg.browserFiles ==> !(key <= file)
  }

  lemma UntouchedIsLoaded(pkg: Package, file: string)
    requires Untouched(pkg, file)
    ensures BrowserFile(pkg, file) == Some(file)
  {
  }

  lemma {:induction false} LastDotOf(stem: string, ext: string)
    requires ext != "" && ext[0] == '.' && '.' !in ext[1..]
    ensures FromLastDot(stem + ext) == Some(ext)
  {
    if stem == "" {
      assert stem + ext == ext;
      NoDot(ext[1..]);
    } else {
      assert (stem + ext)[1..] == stem[1..] + ext;
      LastDotOf(stem[1..], ext);
    }
  }

  lemma {:induction false} NoDot(s: string)
    requires '.' !in s
    ensures FromLastDot(s) == None
  {
    if s != "" {
      NoDot(s[1..]);
    }
  }

  /** A file the field names is replaced by what it names, and so is one it names without its extension. */
  lemma BrowserFileIsReplaced(pkg: Package, stem: string, ext: string)
    requires |ext| > 1 && ext[0] == '.' && '.' !in ext[1..] && '/' !in ext
    ensures BrowserFile(pkg, stem + ext) ==
            if stem + ext in pkg.browserFiles then pkg.browserFiles[stem + ext]
            else if stem in pkg.browserFiles then pkg.browserFiles[stem]
            else Some(stem + ext)
  {
    LastDotOf(stem, ext);
    assert (stem + ext)[..|stem|] == stem;
  }

  // ---- the files an entry names -----------------------------------------------------------------------

  /** The path `segs` is a file that the field leaves alone. */
  predicate PlainFile(pkg: Package, segs: seq<string>) {
    Good(segs) && segs != [] && Join(segs) in pkg.files && '*' !in Join(segs) && Untouched(pkg, Join(segs))
  }

  lemma PlainFileFound(pkg: Package, segs: seq<string>, current: Option<string>)
    requires PlainFile(pkg, segs)
    ensures BrowserFiles(pkg, CollectFiles(pkg, Join(segs), current)) == {Join(segs)}
  {
    UntouchedIsLoaded(pkg, Join(segs));
    assert CollectFiles(pkg, Join(segs), current) == [Join(segs)];
  }

  lemma RootsOfEntry(pkg: Package, entry: string)
    ensures Roots(pkg, {entry}) == BrowserFiles(pkg, ResolveEntry(pkg, entry))
  {
    RootsAppend(pkg, {}, entry);
    assert {} + {entry} == {entry} && Roots(pkg, {}) == {};
  }

  /** A subpath that `exports` does not match is the file at that path. */
  lemma UnexportedFile(pkg: Package, segs: seq<string>)
    requires PlainFile(pkg, segs) && pkg.exportTarget("./" + Join(segs)) == None
    ensures Roots(pkg, {"./" + Join(segs)}) == {Join(segs)}
  {
    FromRoot(segs, "./" + Join(segs));
    assert ("./" + Join(segs)) != "." by { assert |"./" + Join(segs)| > 1; }
    PlainFileFound(pkg, segs, None);
    RootsOfEntry(pkg, "./" + Join(segs));
  }

  /** An entry that `exports` gives a target is the file at the target. */
  lemma ExportedFile(pkg: Package, entry: string, target: string, segs: seq<string>)
    requires PlainFile(pkg, segs) && pkg.exportTarget(entry) == Some(Some(target))
    requires target == Join(segs) || target == "./" + Join(segs)
    ensures Roots(pkg, {entry}) == {Join(segs)}
  {
    FromRoot(segs, target);
    PlainFileFound(pkg, segs, None);
    RootsOfEntry(pkg, entry);
  }

  /** Without exports the root entry is the main file. */
  lemma MainFile(pkg: Package, segs: seq<string>)
    requires PlainFile(pkg, segs) && pkg.exportTarget(".") == None
    requires pkg.mainEntry == Join(segs) || pkg.mainEntry == "./" + Join(segs)
    ensures Roots(pkg, {"."}) == {Join(segs)}
  {
    FromRoot(segs, pkg.mainEntry);
    PlainFileFound(pkg, segs, None);
    RootsOfEntry(pkg, ".");
  }

  /** In general an entry names the first of its candidates, as the browser field has it. */
  lemma EntryIsFound(pkg: Package, entry: string, path: string)
    requires '*' !in path
    requires match pkg.exportTarget(entry)
             case Some(Some(target)) => path == MakeAbsolute(".", target)
             case Some(None) => false
             case None => path == MakeAbsolute(".", if entry == "." then pkg.mainEntry else entry)
    ensures Roots(pkg, {entry}) == BrowserFiles(pkg, FirstIn(pkg.files.Keys, Candidates(path, None)))
  {
    FoundIsFirst(pkg, path, None);
    RootsOfEntry(pkg, entry);
    assert ResolveEntry(pkg, entry) == CollectFiles(pkg, path, None);
  }

  /** An entry mapped to nothing loads nothing. */
  lemma UnloadedEntry(pkg: Package, entry: string)
    requires pkg.exportTarget(entry) == Some(None)
    ensures Roots(pkg, {entry}) == {} && Files(pkg, {entry}) == {} && Packages(pkg, {entry}) == {}
  {
    assert Roots(pkg, {entry}) == {};
    ClosureIsLeast(pkg, {entry}, {});
  }

  // ---- the main entry is the root entry's alone --------------------------------------------------------

  lemma SameNext(pkg: Package, other: Package)
    requires other == pkg.(mainEntry := other.mainEntry)
    ensures forall f :: Next(other, f) == Next(pkg, f) && Imports(other, f) == Imports(pkg, f)
  {
    forall f, dep ensures Edge(other, f, dep) == Edge(pkg, f, dep) {
      SameEdge(pkg, other, f, dep);
    }
    forall f ensures Next(other, f) == Next(pkg, f) && Imports(other, f) == Imports(pkg, f) {
      assert Dependencies(other, f) == Dependencies(pkg, f);
    }
  }

  lemma SameEdge(pkg: Package, other: Package, f: string, dep: string)
    requires other == pkg.(mainEntry := other.mainEntry)
    ensures Edge(other, f, dep) == Edge(pkg, f, dep)
  {
    forall path, current ensures CollectFiles(other, path, current) == CollectFiles(pkg, path, current) {
      SameFound(pkg, other, path, current);
    }
    forall files ensures BrowserFiles(other, files) == BrowserFiles(pkg, files) {
      assert forall file :: BrowserFile(other, file) == BrowserFile(pkg, file);
    }
  }

  lemma SameFound(pkg: Package, other: Package, path: string, current: Option<string>)
    requires other == pkg.(mainEntry := other.mainEntry)
    ensures CollectFiles(other, path, current) == CollectFiles(pkg, path, current)
  {
    var extensions := (if current.Some? then [current.value] else []) + EXTENSIONS;
    FirstListedIs(pkg, path, extensions);
    FirstListedIs(other, path, extensions);
    FirstListedIs(pkg, path + "/index", extensions);
    FirstListedIs(other, path + "/index", extensions);
  }

  /** Entries other than the root load the same, whatever the main entry is. */
  lemma MainEntryIsForRoot(pkg: Package, main: string, entries: set<string>)
    requires "." !in entries
    ensures var other := pkg.(mainEntry := main);
            Files(other, entries) == Files(pkg, entries) && Packages(other, entries) == Packages(pkg, entries)
  {
    var other := pkg.(mainEntry := main);
    SameNext(pkg, other);
    SameRoots(pkg, other, entries);
    ClosureIsLeast(pkg, entries, Files(other, entries));
    ClosureIsLeast(other, entries, Files(pkg, entries));
    assert Closed(pkg, Files(other, entries)) && Closed(other, Files(pkg, entries));
  }

  lemma SameRoots(pkg: Package, other: Package, entries: set<string>)
    requires other == pkg.(mainEntry := other.mainEntry) && "." !in entries
    ensures Roots(other, entries) == Roots(pkg, entries)
  {
    forall entry, f | entry in entries
      ensures f in BrowserFiles(other, ResolveEntry(other, entry)) <==> f in BrowserFiles(pkg, ResolveEntry(pkg, entry))
    {
      SameResolved(pkg, other, entry);
      assert forall file :: BrowserFile(other, file) == BrowserFile(pkg, file);
    }
  }

  lemma SameResolved(pkg: Package, other: Package, entry: string)
    requires other == pkg.(mainEntry := other.mainEntry) && entry != "."
    ensures ResolveEntry(other, entry) == ResolveEntry(pkg, entry)
  {
    forall path ensures CollectFiles(other, path, None) == CollectFiles(pkg, path, None) {
      SameFound(pkg, other, path, None);
    }
  }

  // ---- what a loaded file leads to --------------------------------------------------------------------------

  /** A loaded file that was transformed has this dependency. */
  predicate Depends(pkg: Package, entries: set<string>, file: string, dep: string) {
    file in Files(pkg, entries) && file in pkg.files && pkg.files[file].File? && dep in pkg.files[file].dependencies
  }

  lemma EdgeIsFollowed(pkg: Package, entries: set<string>, file: string, dep: string)
    requires Depends(pkg, entries, file, dep)
    ensures Edge(pkg, file, dep).0 <= Files(pkg, entries) && Edge(pkg, file, dep).1 <= Packages(pkg, entries)
  {
    ClosureIsLeast(pkg, entries, {});
    assert Next(pkg, file) <= Files(pkg, entries);
    assert Edge(pkg, file, dep).0 <= Next(pkg, file) && Edge(pkg, file, dep).1 <= Imports(pkg, file);
  }

  /** A relative import of a file loads it, from the importer's directory. */
  lemma RelativeImportIsLoaded(pkg: Package, entries: set<string>, dir: seq<string>, name: string, dep: string, path: string)
    requires Good(dir + [name]) && Depends(pkg, entries, Join(dir + [name]), dep)
    requires pkg.parse(dep) == Some(Relative(path)) && PlainFile(pkg, Paths.PushAll(dir, Split(path), false))
    ensures Join(Paths.PushAll(dir, Split(path), false)) in Files(pkg, entries)
  {
    var file, target := Join(dir + [name]), Paths.PushAll(dir, Split(path), false);
    DirectoryOfFile(dir, name);
    assert forall i :: 0 <= i < |dir| ==> dir[i] == (dir + [name])[i];
    assert forall p :: p in dir ==> p in dir + [name];
    MakeBelow(dir, path);
    PlainFileFound(pkg, target, Extension(file));
    EdgeIsFollowed(pkg, entries, file, dep);
  }

  /** The entry a package import names. */
  lemma ImportedEntry(subpath: string)
    requires subpath != "" && subpath[0] != '/' && subpath[|subpath| - 1] != '/'
    ensures EntryOf(None) == "." && EntryOf(Some(subpath)) == "./" + subpath
    ensures EntryOf(Some("/" + subpath)) == "./" + subpath && EntryOf(Some(subpath + "/")) == "./" + subpath
  {
    TrimsNothing(subpath);
    assert ("/" + subpath)[1..] == subpath;
    assert (subpath + "/")[..|subpath|] == subpath && (subpath + "/")[0] == subpath[0];
  }

  lemma TrimsNothing(s: string)
    requires s != "" && s[|s| - 1] != '/'
    ensures Paths.TrimTrailing(s) == s
  {
  }

  /** A bare import that the browser field leaves alone is a package edge of the closure. */
  lemma BareImportIsReported(pkg: Package, entries: set<string>, file: string, dep: string, name: string, subpath: Option<string>)
    requires Depends(pkg, entries, file, dep) && pkg.parse(dep) == Some(PackageImport(name, subpath))
    requires dep !in pkg.browserModules || pkg.browserModules[dep] == Keep
    ensures (name, EntryOf(subpath)) in Packages(pkg, entries)
  {
    EdgeIsFollowed(pkg, entries, file, dep);
  }

  /** One that the field maps to another module is that module's edge, one it maps to a file loads the file. */
  lemma BareImportIsReplaced(pkg: Package, entries: set<string>, file: string, dep: string)
    requires Depends(pkg, entries, file, dep) && pkg.parse(dep).Some? && pkg.parse(dep).value.PackageImport?
    requires dep in pkg.browserModules
    ensures match pkg.browserModules[dep]
            case Excluded => Edge(pkg, file, dep) == ({}, {})
            case ReplacedByModule(m) =>
              (match pkg.parse(m) case Some(PackageImport(name, subpath)) => (name, EntryOf(subpath)) in Packages(pkg, entries) case _ => true)
            case ReplacedByFile(f) => f in pkg.files && '*' !in f && Untouched(pkg, f) ==> f in Files(pkg, entries)
            case Keep => true
  {
    EdgeIsFollowed(pkg, entries, file, dep);
    match pkg.browserModules[dep]
    case ReplacedByFile(f) =>
      if f in pkg.files && '*' !in f && Untouched(pkg, f) {
        UntouchedIsLoaded(pkg, f);
        assert CollectFiles(pkg, f, Extension(file)) == [f];
      }
    case _ =>
  }
}
