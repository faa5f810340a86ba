/** Two imports on which the fast path and the full resolver differ. */
module FastPathExample {
  import opened Wrappers
  import opened Strings
  import opened Paths
  import opened AbsolutePaths
  import opened PackageJson
  import opened Resolver
  import opened CdnLayout
  import opened Specifiers
  import opened MainEntries
  import opened FastPath

  const NO_FIELDS := Composite(false, [])
  const MAIN_ONLY := Composite(false, [("main", Str("m"))])

  /** An app whose one package, `p`, has these files. */
  function AppWith(files: Files): Disk {
    Disk(
      map["p" := files],
      path => None,
      path => None,
      (text: string) => if text == "{}" then Some(NO_FIELDS) else if text == "{main}" then Some(MAIN_ONLY) else None,
      (aliases, path) => path,
      (path, filename, exts) => Err(NotFound))
  }

  const PKG: seq<string> := ["p"]
  const IMPORTER := InPackage("p", "x.js")

  lemma {:induction false} OneSegment(p: string)
    requires OrdinarySegment(p) && '/' !in p
    ensures Good([p]) && Join([p]) == p && Abs(ROOT + PKG + [p]) == InPackage("p", p) && Good(ROOT + PKG + [p])
    ensures PackageName(PKG) && Join(PKG) == "p" && Good(ROOT + PKG)
    ensures ParseNodeModulePath(InPackage("p", p)) == Some(("p", p))
  {
    InsideAbs(PKG, [p]);
    GoodConcat(ROOT, PKG);
    GoodConcat(ROOT + PKG, [p]);
    ParseInside(PKG, p);
  }

  lemma {:induction false} TwoSegments(p: string, q: string)
    requires OrdinarySegment(p) && '/' !in p && OrdinarySegment(q) && '/' !in q
    ensures Good([p, q]) && Good(ROOT + PKG + [p] + [q])
    ensures Abs(ROOT + PKG + [p] + [q]) == InPackage("p", p + "/" + q)
    ensures Join2(InPackage("p", p), q) == InPackage("p", p + "/" + q)
    ensures Dirname(InPackage("p", p + "/" + q)) == InPackage("p", p)
  {
    OneSegment(p);
    GoodConcat(ROOT + PKG + [p], [q]);
    JoinBelow(ROOT + PKG + [p], [q]);
    DirnameAbs(ROOT + PKG + [p], q);
    AbsConcat(ROOT + PKG + [p], [q]);
    Regroup(NODE_MODULES + "p" + "/", p, "/" + q);
    Regroup(p, "/", q);
    Regroup(InPackage("p", p), "/", q);
  }

  /** Reading a file of the package. */
  lemma {:induction false} Reads(files: Files, rel: string)
    requires rel != ""
    ensures ReadFile(AppWith(files), InPackage("p", rel)) ==
            if rel !in files then None else match files[rel] case Inlined(text) => Some(text) case Listed => None
  {
    OneSegment("d");
    ParseInside(PKG, rel);
  }

  lemma {:induction false} NoManifest(files: Files, rel: seq<string>)
    requires Good(rel) && rel != [] && Join(rel + ["package.json"]) !in files
    ensures PackageAt(AppWith(files), Join2(Abs(ROOT + PKG + rel), "package.json")) == None
  {
    OneSegment("d");
    ManifestPath(PKG, rel);
    Reads(files, Join(rel + ["package.json"]));
  }

  lemma {:induction false} ManifestRead(files: Files, rel: seq<string>, text: string, aliases: Aliases)
    requires Good(rel) && Join(rel + ["package.json"]) in files && files[Join(rel + ["package.json"])] == Inlined(text)
    requires Processed(AppWith(files), text, Abs(ROOT + PKG + rel)) == Some(aliases)
    ensures PackageAt(AppWith(files), Join2(Abs(ROOT + PKG + rel), "package.json")) == Some(aliases)
  {
    OneSegment("d");
    ManifestPath(PKG, rel);
    Reads(files, Join(rel + ["package.json"]));
  }

  lemma {:induction false} NearestAtDirectory(disk: Disk, dir: seq<string>, aliases: Aliases)
    requires Good(dir) && dir != [] && PackageAt(disk, Join2(Abs(dir), "package.json")) == Some(aliases)
    ensures FindPackageJSON(disk, Abs(dir)) == aliases
    ensures Nearest(disk, ParentDirectories([""] + dir, "/")) == Some(aliases)
  {
    SplitAbs(dir);
    DirectoriesCons(dir);
    NearestCons(disk, Abs(dir), ParentDirectories(([""] + dir)[..|dir|], "/"));
  }

  lemma {:induction false} NearestAtFile(disk: Disk, dir: seq<string>, file: string, aliases: Aliases)
    requires Good(dir + [file]) && Good(dir) && dir != []
    requires Nearest(disk, ParentDirectories([""] + dir, "/")) == Some(aliases)
    requires PackageAt(disk, Join2(Abs(dir + [file]), "package.json")) == None
    ensures FindPackageJSON(disk, Abs(dir + [file])) == aliases
    ensures Nearest(disk, ParentDirectories([""] + (dir + [file]), "/")) == Some(aliases)
  {
    SplitAbs(dir + [file]);
    DirectoriesCons(dir + [file]);
    assert ([""] + (dir + [file]))[..|dir + [file]|] == [""] + dir;
    NearestCons(disk, Abs(dir + [file]), ParentDirectories([""] + dir, "/"));
  }

  lemma {:induction false} Spellings()
    ensures "d" + "/" + "package.json" == "d/package.json"
    ensures "d" + "/" + "m" == "d/m"
    ensures Join(["d"] + ["package.json"]) == "d/package.json" && Join([] + ["package.json"]) == "package.json"
  {
    JoinCons("d", ["package.json"]);
    Regroup("d", "/", "package.json");
  }

  lemma {:induction false} NothingProcessed(files: Files, root: string)
    ensures Processed(AppWith(files), "{}", root) == Some(map[])
  {
    assert AppWith(files).parse("{}") == Some(NO_FIELDS);
    NoFieldsNoAliases(root);
  }

  lemma {:induction false} TwoExtensions()
    ensures Extensions([".js"]) == ["", ".js"]
  {
    assert ([""] + [".js"])[1..] == [".js"];
    assert Dedup([".js"], {} + {""}) == [".js"] + Dedup([".js"][1..], {} + {""} + {".js"});
    assert [""] + [".js"] == ["", ".js"];
  }

  // ---- a directory with a main entry -------------------------------------------------------------

  /** A module `d.js` beside a directory `d` whose main entry is `m`, short for `m.js`. */
  const FILES: Files := map[
    "package.json" := Inlined("{}"),
    "d/package.json" := Inlined("{main}"),
    "d.js" := Inlined(""),
    "d/m.js" := Inlined("")]

  const DISK := AppWith(FILES)
  const DIRECTORY := InPackage("p", "d")
  const ENTRY := InPackage("p", "d/m")

  lemma {:induction false} JoinedIsDirectory()
    ensures Joined("./d", IMPORTER) == DIRECTORY
  {
    OneSegment("x.js");
    OneSegment("d");
    DirnameAbs(ROOT + PKG, "x.js");
    JoinDot(ROOT + PKG, "d");
    assert "./" + "d" == "./d";
  }

  lemma {:induction false} MainProcessed()
    ensures Processed(DISK, "{main}", DIRECTORY) == Some(map[DIRECTORY := ENTRY])
  {
    assert DISK.parse("{main}") == Some(MAIN_ONLY);
    TwoSegments("d", "m");
    Spellings();
    MainAlone("m", DIRECTORY);
  }

  lemma {:induction false} ManifestRoots()
    ensures IsManifest("package.json") && ManifestRoot("p", "package.json") == NODE_MODULES + "p"
    ensures IsManifest("d/package.json") && ManifestRoot("p", "d/package.json") == DIRECTORY
  {
    OneSegment("d");
    Spellings();
    KeyIsManifest(PKG, ["d"]);
  }

  lemma {:induction false} OthersAreNoManifests()
    ensures !IsManifest("d.js") && !IsManifest("d/m.js")
  {
  }

  lemma {:induction false} PackageIsSuitable()
    ensures Suitable(DISK, "p")
  {
    ManifestRoots();
    OthersAreNoManifests();
    MainProcessed();
    NothingProcessed(FILES, NODE_MODULES + "p");
    forall rel | rel in FILES ensures Verified(DISK, "p", rel, FILES[rel]) {
    }
  }

  lemma {:induction false} EntryIsPath()
    ensures DIRECTORY == Abs(ROOT + PKG + ["d"]) && ENTRY == Abs(ROOT + PKG + ["d"] + ["m"])
    ensures Good(ROOT + PKG + ["d"]) && Good(ROOT + PKG + ["d"] + ["m"]) && Good(ROOT + PKG + ["d"] + ["m"] + ["index"])
    ensures Join2(ENTRY, "index") == Abs(ROOT + PKG + ["d"] + ["m"] + ["index"])
    ensures ParseNodeModulePath(ENTRY) == Some(("p", "d/m"))
  {
    Spellings();
    TwoSegments("d", "m");
    OneSegment("d");
    JoinBelow(ROOT + PKG + ["d"] + ["m"], ["index"]);
    ParseInside(PKG, "d/m");
  }

  lemma {:induction false} NoneBelow()
    ensures PackageAt(DISK, Join2(Abs(ROOT + PKG + ["d"] + ["m"]), "package.json")) == None
    ensures PackageAt(DISK, Join2(Abs(ROOT + PKG + ["d"] + ["m"] + ["index"]), "package.json")) == None
  {
    TwoSegments("d", "m");
    assert ROOT + PKG + ["d"] + ["m"] == ROOT + PKG + ["d", "m"];
    assert ROOT + PKG + ["d"] + ["m"] + ["index"] == ROOT + PKG + ["d", "m", "index"];
    LongKeys();
    GoodConcat(["d", "m"], ["index"]);
    assert ["d", "m"] + ["index"] == ["d", "m", "index"];
    NoManifest(FILES, ["d", "m"]);
    NoManifest(FILES, ["d", "m", "index"]);
  }

  lemma {:induction false} LongKeys()
    ensures Join(["d", "m"] + ["package.json"]) !in FILES && Join(["d", "m", "index"] + ["package.json"]) !in FILES
  {
    JoinConcat(["d", "m"], ["package.json"]);
    JoinConcat(["d", "m", "index"], ["package.json"]);
    assert Join(["d", "m"]) == "d" + "/" + "m" by { assert ["d", "m"][1..] == ["m"]; }
    assert |Join(["d", "m"] + ["package.json"])| == 16;
    assert ["d", "m", "index"][1..] == ["m", "index"] && ["m", "index"][1..] == ["index"];
    assert |Join(["d", "m", "index"] + ["package.json"])| == 22;
  }

  /** The package.json nearest to the directory, to its main entry and to that entry's index is the directory's own. */
  lemma {:induction false} DirectoryAliases()
    ensures FindPackageJSON(DISK, DIRECTORY) == map[DIRECTORY := ENTRY]
    ensures FindPackageJSON(DISK, ENTRY) == map[DIRECTORY := ENTRY]
    ensures FindPackageJSON(DISK, Join2(ENTRY, "index")) == map[DIRECTORY := ENTRY]
  {
    EntryIsPath();
    Spellings();
    MainProcessed();
    OneSegment("d");
    ManifestRead(FILES, ["d"], "{main}", map[DIRECTORY := ENTRY]);
    NearestAtDirectory(DISK, ROOT + PKG + ["d"], map[DIRECTORY := ENTRY]);
    NoneBelow();
    NearestAtFile(DISK, ROOT + PKG + ["d"], "m", map[DIRECTORY := ENTRY]);
    NearestAtFile(DISK, ROOT + PKG + ["d"] + ["m"], "index", map[DIRECTORY := ENTRY]);
  }

  lemma {:induction false} NoStarIn(a: string, b: string)
    requires '*' !in a && '*' !in b
    ensures '*' !in a + b
  {
  }

  lemma {:induction false} DirectoryIsPlain()
    ensures '*' !in DIRECTORY && |DIRECTORY| < |ENTRY| < |Join2(ENTRY, "index")|
  {
    NoStarIn(NODE_MODULES, "p");
    NoStarIn(NODE_MODULES + "p", "/");
    NoStarIn(NODE_MODULES + "p" + "/", "d");
    EntryIsPath();
    AbsConcat(ROOT + PKG + ["d"] + ["m"], ["index"]);
  }

  /** Where one alias applies, its key leads to its target, and the target and its index are left alone. */
  lemma {:induction false} OneAlias(disk: Disk, key: string, target: string)
    requires '*' !in key && |key| < |target| < |Join2(target, "index")|
    requires FindPackageJSON(disk, key) == map[key := target] && FindPackageJSON(disk, target) == map[key := target]
    requires FindPackageJSON(disk, Join2(target, "index")) == map[key := target]
    ensures Redirect(disk, key) == Some(target) && NoStars(disk, key)
    ensures NoMainEntry(disk, target) && NoStars(disk, target) && NoStars(disk, Join2(target, "index"))
  {
  }

  /** The directory leads to its main entry, and the main entry is left to the files. */
  lemma {:induction false} EntryIsCalm()
    ensures Redirect(DISK, DIRECTORY) == Some(ENTRY) && NoStars(DISK, DIRECTORY) && Calm(DISK, ENTRY)
  {
    DirectoryAliases();
    DirectoryIsPlain();
    OneAlias(DISK, DIRECTORY, ENTRY);
    EntryIsPath();
    PackageIsSuitable();
  }

  lemma {:induction false} EntryLookup()
    ensures Lookup(FILES, "d/m", ["", ".js"]) == Some("d/m.js") && Lookup(FILES, "d", ["", ".js"]) == Some("d.js")
  {
    assert ["", ".js"][1..] == [".js"];
    assert "d/m" + "" == "d/m" && "d/m" + ".js" == "d/m.js" && "d" + "" == "d" && "d" + ".js" == "d.js";
    assert "d/m" !in FILES && "d/m.js" in FILES && "d" !in FILES && "d.js" in FILES;
  }

  lemma {:induction false} NormalPaths()
    ensures Normal(DIRECTORY) && Normal(ENTRY)
  {
    EntryIsPath();
    NormalizeAbs(ROOT + PKG + ["d"]);
    NormalizeAbs(ROOT + PKG + ["d"] + ["m"]);
  }

  lemma {:induction false} DirectoryIsStraight(exts: seq<string>)
    requires exts == ["", ".js"]
    ensures Straight(DISK, DIRECTORY, exts, true)
    ensures Expected(DISK, DIRECTORY, exts, true) == Some(InPackage("p", "d/m.js"))
  {
    NormalPaths();
    EntryIsCalm();
    EntryIsPath();
    EntryLookup();
  }

  lemma {:induction false} DirectoryImport()
    ensures Comparable(DISK, "./d", IMPORTER) && !EndsInIndex("./d")
    ensures ParseNodeModulePath(IMPORTER).Some? && ParseNodeModulePath(DIRECTORY) == Some(("p", "d"))
  {
    OneSegment("x.js");
    OneSegment("d");
    JoinedIsDirectory();
    PackageIsSuitable();
    SplitDot("d");
    assert "./" + "d" == "./d";
  }

  /**
   * The fast path can be wrong: `./d` names a directory with a main entry, which the full resolver
   * follows and extends to `d/m.js`, but also a module `d.js`, which the fast path returns.
   */
  lemma {:induction false} FastCanBeWrong()
    ensures Comparable(DISK, "./d", IMPORTER)
    ensures Fast(DISK, "./d", IMPORTER, [".js"]) == Some(InPackage("p", "d.js"))
    ensures Resolution(DISK, "./d", IMPORTER, [".js"]) == Ok(InPackage("p", "d/m.js"))
  {
    DirectoryImport();
    JoinedIsDirectory();
    TwoExtensions();
    DirectoryIsStraight(["", ".js"]);
    FullIsExpected(DISK, "./d", IMPORTER, [".js"]);
    PackageIsSuitable();
    EntryLookup();
  }

  // ---- the package root ------------------------------------------------------------------------------

  /** A package with a file named by a bare extension. */
  const BARE: Files := map["package.json" := Inlined("{}"), ".js" := Inlined(""), "index.js" := Inlined("")]

  const BARE_DISK := AppWith(BARE)

  lemma {:induction false} JoinedIsRoot()
    ensures Joined(".", IMPORTER) == Abs(ROOT + PKG) && Good(ROOT + PKG) && Abs(ROOT + PKG) == NODE_MODULES + "p"
  {
    OneSegment("x.js");
    RootAbs(PKG);
    DirnameAbs(ROOT + PKG, "x.js");
    JoinHere(ROOT + PKG);
  }

  lemma {:induction false} BareIsSuitable()
    ensures Suitable(BARE_DISK, "p")
  {
    NothingProcessed(BARE, NODE_MODULES + "p");
    assert !IsManifest(".js") && !IsManifest("index.js");
    forall rel | rel in BARE ensures Verified(BARE_DISK, "p", rel, BARE[rel]) {
    }
  }

  lemma {:induction false} RootManifest()
    ensures PackageAt(BARE_DISK, Join2(Abs(ROOT + PKG), "package.json")) == Some(map[])
  {
    Spellings();
    NothingProcessed(BARE, Abs(ROOT + PKG + []));
    ManifestRead(BARE, [], "{}", map[]);
    assert ROOT + PKG + [] == ROOT + PKG;
  }

  lemma {:induction false} NoIndexManifest()
    ensures PackageAt(BARE_DISK, Join2(Abs(ROOT + PKG + ["index"]), "package.json")) == None
  {
    JoinCons("index", ["package.json"]);
    OneSegment("index");
    assert |Join(["index"] + ["package.json"])| == 18;
    NoManifest(BARE, ["index"]);
  }

  lemma {:induction false} RootAliases(root: string)
    requires root == Abs(ROOT + PKG)
    ensures FindPackageJSON(BARE_DISK, root) == map[] && FindPackageJSON(BARE_DISK, Join2(root, "index")) == map[]
  {
    OneSegment("index");
    RootManifest();
    NearestAtDirectory(BARE_DISK, ROOT + PKG, map[]);
    JoinBelow(ROOT + PKG, ["index"]);
    NoIndexManifest();
    NearestAtFile(BARE_DISK, ROOT + PKG, "index", map[]);
  }

  lemma {:induction false} NoAliases(disk: Disk, path: string)
    requires FindPackageJSON(disk, path) == map[] && FindPackageJSON(disk, Join2(path, "index")) == map[]
    ensures NoMainEntry(disk, path) && NoStars(disk, path) && NoStars(disk, Join2(path, "index"))
  {
  }

  /** A package's root is a directory, not a file, installed or not. */
  lemma {:induction false} RootNoFile(disk: Disk, pkg: string)
    requires PackageName([pkg]) && disk.outside(NODE_MODULES + pkg).None?
    ensures !IsFile(disk, NODE_MODULES + pkg)
  {
    ParseRoot([pkg]);
    assert Join([pkg]) == pkg;
    assert (NODE_MODULES + pkg)[1] == 'n' && EMPTY_SHIM[1] == 'e';
  }

  lemma {:induction false} RootIsNoFile(exts: seq<string>)
    requires exts == ["", ".js"]
    ensures FileAt(BARE_DISK, NODE_MODULES + "p", exts) == None
  {
    RootNoFile(BARE_DISK, "p");
    RootNoFile(BARE_DISK, "p" + ".js");
    Regroup(NODE_MODULES, "p", ".js");
    NeitherIsFile(BARE_DISK, NODE_MODULES + "p", exts);
  }

  lemma {:induction false} NeitherIsFile(disk: Disk, path: string, exts: seq<string>)
    requires exts == ["", ".js"] && !IsFile(disk, path) && !IsFile(disk, path + ".js")
    ensures FileAt(disk, path, exts) == None
  {
    assert path + "" == path;
    assert exts[1..] == [".js"] && [".js"][1..] == [];
    assert FileAt(disk, path, [".js"]) == None;
  }

  lemma {:induction false} RootLookups(exts: seq<string>)
    requires exts == ["", ".js"]
    ensures FirstHit(BARE, "", exts) == Some(".js") && FirstHit(BARE, "index", exts) == Some("index.js")
  {
    assert exts[1..] == [".js"];
    assert "" + "" == "" && "" + ".js" == ".js" && "index" + "" == "index" && "index" + ".js" == "index.js";
    assert "index" !in BARE;
  }

  lemma {:induction false} CalmIsStraight(disk: Disk, base: string, pkg: string, rel: string, exts: seq<string>, found: string)
    requires Normal(base) && Calm(disk, base) && ParseNodeModulePath(base) == Some((pkg, rel))
    requires Here(disk, pkg, rel, exts) == Some(found)
    ensures Straight(disk, base, exts, true) && Expected(disk, base, exts, true) == Some(found)
  {
  }

  lemma {:induction false} RootIsCalm(root: string)
    requires root == Abs(ROOT + PKG)
    ensures Normal(root) && Calm(BARE_DISK, root) && ParseNodeModulePath(root) == Some(("p", ""))
  {
    JoinedIsRoot();
    NormalizeAbs(ROOT + PKG);
    RootAliases(root);
    NoAliases(BARE_DISK, root);
    BareIsSuitable();
    OneSegment("d");
    ParseRoot(PKG);
  }

  lemma {:induction false} RootIsStraight(root: string, exts: seq<string>)
    requires exts == ["", ".js"] && root == Abs(ROOT + PKG)
    ensures Straight(BARE_DISK, root, exts, true)
    ensures Expected(BARE_DISK, root, exts, true) == Some(InPackage("p", "index.js"))
  {
    RootIsCalm(root);
    RootIsNoFile(exts);
    RootLookups(exts);
    CalmIsStraight(BARE_DISK, root, "p", "", exts, InPackage("p", "index.js"));
  }

  lemma {:induction false} RootImport()
    ensures Comparable(BARE_DISK, ".", IMPORTER) && !EndsInIndex(".")
    ensures Joined(".", IMPORTER) == NODE_MODULES + "p"
    ensures Fast(BARE_DISK, ".", IMPORTER, [".js"]) == Some(InPackage("p", ".js"))
  {
    JoinedIsRoot();
    BareIsSuitable();
    OneSegment("x.js");
    ParseRoot(PKG);
    TwoExtensions();
    SplitSlashFree(".");
    RootLookups(["", ".js"]);
  }

  /** And at a package's root: a file `.js` there is what the fast path returns for `.`, and no one else does. */
  lemma {:induction false} RootCanBeWrong()
    ensures Comparable(BARE_DISK, ".", IMPORTER)
    ensures Fast(BARE_DISK, ".", IMPORTER, [".js"]) == Some(InPackage("p", ".js"))
    ensures Resolution(BARE_DISK, ".", IMPORTER, [".js"]) == Ok(InPackage("p", "index.js"))
  {
    RootImport();
    JoinedIsRoot();
    TwoExtensions();
    RootIsStraight(Abs(ROOT + PKG), ["", ".js"]);
    FullIsExpected(BARE_DISK, ".", IMPORTER, [".js"]);
  }
}
