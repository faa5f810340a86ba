/** When the CDN-layout fast path answers what the full resolver would. */
module FastPath {
  import opened Wrappers
  import opened Strings
  import opened Paths
  import opened AbsolutePaths
  import opened PackageJson
  import opened Resolver
  import opened CdnLayout
  import opened Specifiers
  import opened MainEntries

  // ---- package paths -------------------------------------------------------------------

  const ROOT: seq<string> := ["node_modules"]

  lemma {:induction false} ParsePackage(name: seq<string>, tail: seq<string>)
    requires PackageName(name)
    ensures ParseSegments(name + tail) == Some((Join(name), Join(tail)))
  {
  }

  lemma {:induction false} ParseInside(name: seq<string>, rel: string)
    requires PackageName(name)
    ensures ParseNodeModulePath(InPackage(Join(name), rel)) == Some((Join(name), rel))
  {
    var path := InPackage(Join(name), rel);
    assert path[|NODE_MODULES|..] == Join(name) + "/" + rel;
    SplitConcat(Join(name), rel);
    SplitJoin(name);
    JoinSplit(rel);
    ParsePackage(name, Split(rel));
  }

  lemma {:induction false} ParseRoot(name: seq<string>)
    requires PackageName(name)
    ensures ParseNodeModulePath(NODE_MODULES + Join(name)) == Some((Join(name), ""))
  {
    var path := NODE_MODULES + Join(name);
    assert path[|NODE_MODULES|..] == Join(name);
    SplitJoin(name);
    JoinIsEmpty(name);
    ParsePackage(name, []);
    assert name + [] == name;
  }

  lemma {:induction false} RootAbs(name: seq<string>)
    requires name != []
    ensures Abs(ROOT + name) == NODE_MODULES + Join(name)
  {
  }

  lemma {:induction false} InsideAbs(name: seq<string>, rel: seq<string>)
    requires name != [] && rel != []
    ensures Abs(ROOT + name + rel) == InPackage(Join(name), Join(rel))
  {
    AbsConcat(ROOT + name, rel);
    RootAbs(name);
  }

  lemma {:induction false} SplitUnderRoot(segs: seq<string>, rest: string)
    requires Good(segs) && segs != [] && Abs(segs) == Abs(ROOT) + "/" + rest
    ensures segs == ROOT + Split(rest)
  {
    SplitAbs(segs);
    SplitAbs(ROOT);
    SplitConcat(Abs(ROOT), rest);
    assert segs == ([""] + segs)[1..];
    assert [""] + ROOT + Split(rest) == [""] + (ROOT + Split(rest));
  }

  lemma {:induction false} UnderRoot(path: string)
    requires NODE_MODULES <= path
    ensures path == Abs(ROOT) + "/" + path[|NODE_MODULES|..]
  {
  }

  /** A normal path that parses is made of a package's segments and a rest. */
  lemma {:induction false} ParsedSegments(segs: seq<string>) returns (name: seq<string>, rel: seq<string>)
    requires Good(segs) && ParseNodeModulePath(Abs(segs)).Some?
    ensures segs == ROOT + name + rel && PackageName(name) && Good(rel)
    ensures ParseNodeModulePath(Abs(segs)) == Some((Join(name), Join(rel)))
  {
    UnderRoot(Abs(segs));
    var parts := Split(Abs(segs)[|NODE_MODULES|..]);
    SplitUnderRoot(segs, Abs(segs)[|NODE_MODULES|..]);
    name, rel := CutPackage(parts);
    GoodConcat(ROOT, parts);
    GoodConcat(name, rel);
    assert ROOT + parts == ROOT + name + rel;
    ParsePackage(name, rel);
  }

  lemma {:induction false} CutPackage(parts: seq<string>) returns (name: seq<string>, rel: seq<string>)
    requires |parts| > 0 && ParseSegments(parts).Some?
    ensures parts == name + rel && (Good(name) ==> PackageName(name))
  {
    var n := if "@" <= parts[0] then 2 else 1;
    name, rel := parts[..n], parts[n..];
  }

  // ---- the package.json the resolver finds ------------------------------------------------

  /** The package is fast-path eligible and has a root package.json. */
  predicate Suitable(disk: Disk, pkg: string) {
    && pkg in disk.registry && "package.json" in disk.registry[pkg]
    && Eligible(disk, pkg, disk.registry[pkg])
  }

  /** Where the package.json of directory `rel` is. */
  lemma {:induction false} ManifestPath(name: seq<string>, rel: seq<string>)
    requires PackageName(name) && Good(rel)
    ensures var dir, key := Abs(ROOT + name + rel), Join(rel + ["package.json"]);
            && Join2(dir, "package.json") == InPackage(Join(name), key) && key != ""
            && Dirname(InPackage(Join(name), key)) == dir
            && ParseNodeModulePath(InPackage(Join(name), key)) == Some((Join(name), key))
  {
    var dir, file := ROOT + name + rel, rel + ["package.json"];
    assert ROOT + name + file == dir + ["package.json"];
    GoodConcat(ROOT, name);
    GoodConcat(ROOT + name, rel);
    JoinBelow(dir, ["package.json"]);
    InsideAbs(name, file);
    ParseInside(name, Join(file));
    DirnameAbs(dir, "package.json");
    JoinIsEmpty(file);
  }

  /** The package.json in directory `rel` of the package, if there is one, aliases only that directory. */
  lemma {:induction false} ManifestAt(disk: Disk, name: seq<string>, rel: seq<string>)
    requires PackageName(name) && Good(rel) && Suitable(disk, Join(name))
    ensures var dir := Abs(ROOT + name + rel);
            var found := PackageAt(disk, Join2(dir, "package.json"));
            && (rel == [] ==> found.Some?)
            && (found.Some? ==> found.value.Keys <= {dir})
  {
    var pkg, key := Join(name), Join(rel + ["package.json"]);
    ManifestPath(name, rel);
    KeyIsManifest(name, rel);
    if key in disk.registry[pkg] {
      assert Verified(disk, pkg, key, disk.registry[pkg][key]);
    }
  }

  lemma {:induction false} KeyIsManifest(name: seq<string>, rel: seq<string>)
    requires PackageName(name) && Good(rel)
    ensures var key := Join(rel + ["package.json"]);
            IsManifest(key) && ManifestRoot(Join(name), key) == Abs(ROOT + name + rel)
    ensures rel == [] ==> Join(rel + ["package.json"]) == "package.json"
  {
    GoodConcat(ROOT, name);
    RootAbs(name);
    if rel == [] {
      assert rel + ["package.json"] == ["package.json"];
      assert ROOT + name + rel == ROOT + name;
    } else {
      JoinConcat(rel, ["package.json"]);
      var key := Join(rel) + ("/" + "package.json");
      Regroup(Join(rel), "/", "package.json");
      assert "/" + "package.json" == "/package.json";
      assert key[..|key| - |"/package.json"|] == Join(rel);
      JoinIsEmpty(rel);
      JoinBelow(ROOT + name, rel);
    }
  }

  /** At most one alias key: the path itself or one of its ancestors. */
  ghost predicate Above(aliases: Aliases, path: string) {
    && (forall key :: key in aliases ==> key <= path)
    && (forall a, b :: a in aliases && b in aliases ==> a == b)
  }

  lemma {:induction false} UpOne(name: seq<string>, rel: seq<string>)
    requires name != [] && rel != [] && Good(rel)
    ensures var up := rel[..|rel| - 1];
            && ([""] + (ROOT + name + rel))[..|ROOT + name + rel|] == [""] + (ROOT + name + up)
            && Good(up) && Abs(ROOT + name + up) <= Abs(ROOT + name + rel)
  {
    var up, last := rel[..|rel| - 1], rel[|rel| - 1..];
    assert rel == up + last;
    GoodConcat(up, last);
    assert ROOT + name + rel == ROOT + name + up + last;
    AbsConcat(ROOT + name + up, last);
  }

  lemma {:induction false} DirectoriesCons(segs: seq<string>)
    requires segs != []
    ensures ParentDirectories([""] + segs, "/") == [Abs(segs)] + ParentDirectories(([""] + segs)[..|segs|], "/")
  {
    JoinCons("", segs);
    assert "" + ("/" + Join(segs)) == Abs(segs);
    assert DirectoryOf([""] + segs) == Abs(segs);
  }

  lemma {:induction false} NearestCons(disk: Disk, directory: string, rest: seq<string>)
    ensures Nearest(disk, [directory] + rest) ==
            match PackageAt(disk, Join2(directory, "package.json")) case Some(a) => Some(a) case None => Nearest(disk, rest)
  {
  }

  lemma {:induction false} NearestInside(disk: Disk, name: seq<string>, rel: seq<string>)
    requires PackageName(name) && Good(rel) && Suitable(disk, Join(name))
    ensures var found := Nearest(disk, ParentDirectories([""] + (ROOT + name + rel), "/"));
            found.Some? && Above(found.value, Abs(ROOT + name + rel))
    decreases |rel|
  {
    var segs := ROOT + name + rel;
    DirectoriesCons(segs);
    NearestCons(disk, Abs(segs), ParentDirectories(([""] + segs)[..|segs|], "/"));
    ManifestAt(disk, name, rel);
    if rel != [] {
      UpOne(name, rel);
      NearestInside(disk, name, rel[..|rel| - 1]);
    }
  }

  lemma {:induction false} FoundInside(disk: Disk, name: seq<string>, rel: seq<string>)
    requires PackageName(name) && Good(rel) && Suitable(disk, Join(name))
    ensures Above(FindPackageJSON(disk, Abs(ROOT + name + rel)), Abs(ROOT + name + rel))
  {
    GoodConcat(ROOT, name);
    GoodConcat(ROOT + name, rel);
    SplitAbs(ROOT + name + rel);
    NearestInside(disk, name, rel);
  }

  // ---- paths in a package -----------------------------------------------------------------------

  /** No alias key that applies to `path` holds a star. */
  predicate NoStars(disk: Disk, path: string) {
    !HasWildcard(FindPackageJSON(disk, path))
  }

  /** In a suitable package, only the path itself can be an alias key of its nearest package.json. */
  lemma {:induction false} InsideIsMild(disk: Disk, name: seq<string>, rel: seq<string>, exts: seq<string>)
    requires PackageName(name) && Good(rel) && Suitable(disk, Join(name)) && NoStars(disk, Abs(ROOT + name + rel))
    ensures Mild(disk, Abs(ROOT + name + rel), exts)
  {
    var path := Abs(ROOT + name + rel);
    FoundInside(disk, name, rel);
    forall i | 0 <= i < |exts|
      ensures ResolveAlias(disk, FindPackageJSON(disk, path), path + exts[i]) ==
              Ok(if exts[i] == "" && Redirect(disk, path).Some? then Redirect(disk, path).value else path + exts[i])
    {
      OneKey(disk, FindPackageJSON(disk, path), path, exts[i]);
    }
  }

  lemma {:induction false} OneKey(disk: Disk, aliases: Aliases, path: string, ext: string)
    requires Above(aliases, path) && !HasWildcard(aliases)
    ensures ResolveAlias(disk, aliases, path + ext) ==
            Ok(if ext == "" && Direct(aliases, path) && aliases[path] != path then aliases[path] else path + ext)
  {
    var f := path + ext;
    if f in aliases {
      assert f <= path;
      assert |ext| == 0 && f == path;
      if Direct(aliases, path) && aliases[path] != path {
        assert aliases[path] !in aliases;
        assert FollowAlias(disk, aliases, aliases[path], 1) == Ok(aliases[path]);
      }
    } else if ext == "" {
      assert f == path;
    }
  }

  lemma {:induction false} FileInside(disk: Disk, name: seq<string>, rel: seq<string>, ext: string)
    requires PackageName(name) && rel != [] && Good(rel) && Join(name) in disk.registry
    ensures IsFile(disk, Abs(ROOT + name + rel) + ext) <==> Join(rel) + ext != "" && Join(rel) + ext in disk.registry[Join(name)]
  {
    InsideAbs(name, rel);
    ParseInside(name, Join(rel) + ext);
    Regroup(NODE_MODULES + Join(name) + "/", Join(rel), ext);
  }

  lemma {:induction false} IndexInside(name: seq<string>, rel: seq<string>)
    requires PackageName(name) && Good(rel)
    ensures Join2(Abs(ROOT + name + rel), "index") == Abs(ROOT + name + (rel + ["index"])) && Good(rel + ["index"])
  {
    var dir := ROOT + name + rel;
    GoodConcat(ROOT, name);
    GoodConcat(ROOT + name, rel);
    GoodConcat(rel, ["index"]);
    JoinBelow(dir, ["index"]);
    assert dir + ["index"] == ROOT + name + (rel + ["index"]);
  }

  lemma {:induction false} IndexRel(rel: seq<string>)
    requires Good(rel)
    ensures IndexOf(Join(rel)) == Join(rel + ["index"])
  {
    JoinIsEmpty(rel);
    if rel == [] {
      assert rel + ["index"] == ["index"];
    } else {
      JoinConcat(rel, ["index"]);
      Regroup(Join(rel), "/", "index");
      assert "/" + "index" == "/index";
    }
  }

  /** The files of a package below its root are found as the fast path finds them. */
  lemma {:induction false} FileAtInside(disk: Disk, name: seq<string>, rel: seq<string>, exts: seq<string>)
    requires PackageName(name) && rel != [] && Good(rel) && Join(name) in disk.registry
    ensures FileAt(disk, Abs(ROOT + name + rel), exts) == Placed(Join(name), FirstHit(disk.registry[Join(name)], Join(rel), exts))
    decreases |exts|
  {
    if |exts| > 0 {
      FileInside(disk, name, rel, exts[0]);
      InsideAbs(name, rel);
      Regroup(NODE_MODULES + Join(name) + "/", Join(rel), exts[0]);
      FileAtInside(disk, name, rel, exts[1..]);
    }
  }

  /** A package's file as an absolute path. */
  function Placed(pkg: string, hit: Option<string>): Option<string> {
    match hit case None => None case Some(rel) => Some(InPackage(pkg, rel))
  }

  lemma {:induction false} JoinedIsAbs(specifier: string, filename: string) returns (segs: seq<string>)
    requires IsAbsolute(filename) && Plain(specifier)
    ensures Good(segs) && Joined(specifier, filename) == Abs(segs)
  {
    var path := Dirname(filename) + "/" + specifier;
    DirnameIsAbsolute(filename);
    NormalIsAbs(path);
    segs := Segments(path);
  }

  /** A joined path in an installed package, taken apart. */
  lemma {:induction false} JoinedSegments(specifier: string, filename: string) returns (name: seq<string>, rel: seq<string>)
    requires IsAbsolute(filename) && Plain(specifier) && ParseNodeModulePath(Joined(specifier, filename)).Some?
    ensures PackageName(name) && Good(rel)
    ensures Joined(specifier, filename) == Abs(ROOT + name + rel)
    ensures ParseNodeModulePath(Joined(specifier, filename)) == Some((Join(name), Join(rel)))
  {
    var segs := JoinedIsAbs(specifier, filename);
    name, rel := ParsedSegments(segs);
  }

  // ---- answers from file lookups ------------------------------------------------------------------

  /**
   * What a path in a package is by its files alone: the package's lookup, except that its root is
   * extended as the resolver extends it, outside the package.
   */
  function Here(disk: Disk, pkg: string, rel: string, exts: seq<string>): Option<string>
    requires pkg in disk.registry
  {
    if rel == "" then
      match FileAt(disk, NODE_MODULES + pkg, exts)
      case Some(found) => Some(found)
      case None => Placed(pkg, FirstHit(disk.registry[pkg], "index", exts))
    else Placed(pkg, Lookup(disk.registry[pkg], rel, exts))
  }

  /** No package.json sits at the path, or at its `index` child, with a main entry of its own. */
  predicate NoMainEntry(disk: Disk, path: string) {
    Redirect(disk, path).None? && Redirect(disk, Join2(path, "index")).None?
  }

  /** A path in a suitable package, with no main entry and no starred alias to reckon with. */
  predicate Calm(disk: Disk, path: string) {
    && ParseNodeModulePath(path).Some? && Suitable(disk, ParseNodeModulePath(path).value.0)
    && NoMainEntry(disk, path) && NoStars(disk, path) && NoStars(disk, Join2(path, "index"))
  }

  /** A path that names segments, as every joined path and every main entry in a package does. */
  predicate Normal(path: string) {
    IsAbsolute(path) && path[|path| - 1] != '/' && Normalize(path) == path
  }

  /** A calm path is what its files say. */
  lemma {:induction false} CalmIsHere(disk: Disk, path: string, exts: seq<string>)
    requires Normal(path) && Calm(disk, path) && |exts| > 0
    ensures MildProbe(disk, path, exts) && Mild(disk, path, [""])
    ensures var parsed := ParseNodeModulePath(path).value;
            Probed(disk, path, exts) == Ok(Here(disk, parsed.0, parsed.1, exts))
  {
    NormalIsAbs(path);
    var name, rel := ParsedSegments(Segments(path));
    CalmInside(disk, name, rel, exts);
    InsideIsMild(disk, name, rel, [""]);
  }

  lemma {:induction false} CalmInside(disk: Disk, name: seq<string>, rel: seq<string>, exts: seq<string>)
    requires PackageName(name) && Good(rel) && Suitable(disk, Join(name)) && |exts| > 0
    requires NoMainEntry(disk, Abs(ROOT + name + rel))
    requires NoStars(disk, Abs(ROOT + name + rel)) && NoStars(disk, Join2(Abs(ROOT + name + rel), "index"))
    ensures MildProbe(disk, Abs(ROOT + name + rel), exts)
    ensures Probed(disk, Abs(ROOT + name + rel), exts) == Ok(Here(disk, Join(name), Join(rel), exts))
  {
    IndexInside(name, rel);
    InsideIsMild(disk, name, rel, exts);
    InsideIsMild(disk, name, rel + ["index"], exts);
    FilesOnly(disk, Abs(ROOT + name + rel), exts);
    HereInside(disk, name, rel, exts);
  }

  lemma {:induction false} FilesOnly(disk: Disk, path: string, exts: seq<string>)
    requires |exts| > 0 && NoMainEntry(disk, path)
    ensures Probed(disk, path, exts) ==
            Ok(match FileAt(disk, path, exts) case Some(found) => Some(found) case None => FileAt(disk, Join2(path, "index"), exts))
  {
  }

  lemma {:induction false} HereInside(disk: Disk, name: seq<string>, rel: seq<string>, exts: seq<string>)
    requires PackageName(name) && Good(rel) && Join(name) in disk.registry
    ensures var path := Abs(ROOT + name + rel);
            Here(disk, Join(name), Join(rel), exts) ==
            match FileAt(disk, path, exts) case Some(found) => Some(found) case None => FileAt(disk, Join2(path, "index"), exts)
  {
    IndexInside(name, rel);
    IndexRel(rel);
    FileAtInside(disk, name, rel + ["index"], exts);
    JoinIsEmpty(rel);
    if rel != [] {
      FileAtInside(disk, name, rel, exts);
    } else {
      RootAbs(name);
      assert ROOT + name + rel == ROOT + name;
    }
  }

  /** By files alone: the main entry at the joined path if there is one, else the path, else its index again. */
  function Expected(disk: Disk, base: string, exts: seq<string>, retry: bool): Option<string>
    requires Straight(disk, base, exts, retry)
  {
    var entered := ParseNodeModulePath(Entered(disk, base)).value;
    match Here(disk, entered.0, entered.1, exts)
    case Some(found) => Some(found)
    case None =>
      if !retry then None
      else
        var index := ParseNodeModulePath(Join2(base, "index")).value;
        Here(disk, index.0, index.1, exts)
  }

  /** The joined path, or where its main entry leads, is calm; and so is its index, if it comes to that. */
  predicate Straight(disk: Disk, base: string, exts: seq<string>, retry: bool) {
    && Normal(base) && NoStars(disk, base)
    && Normal(Entered(disk, base)) && Calm(disk, Entered(disk, base))
    && var entered := ParseNodeModulePath(Entered(disk, base)).value;
       Here(disk, entered.0, entered.1, exts).None? && retry ==>
         Normal(Join2(base, "index")) && Calm(disk, Join2(base, "index"))
  }

  // ---- the main results --------------------------------------------------------------------------------

  /** A relative import of a suitable package, as both resolvers are given it. */
  predicate Comparable(disk: Disk, specifier: string, filename: string) {
    && IsAbsolute(filename) && Plain(specifier) && "." <= specifier
    && ParseNodeModulePath(Joined(specifier, filename)).Some?
    && Suitable(disk, ParseNodeModulePath(Joined(specifier, filename)).value.0)
  }

  lemma {:induction false} StraightIsRegular(disk: Disk, base: string, exts: seq<string>, retry: bool)
    requires ParseNodeModulePath(base).Some? && Suitable(disk, ParseNodeModulePath(base).value.0)
    requires Straight(disk, base, exts, retry) && |exts| > 0
    ensures Regular(disk, base, exts, retry)
    ensures Answer(disk, base, exts, retry) ==
            match Expected(disk, base, exts, retry) case Some(found) => Ok(found) case None => Err(NotFound)
  {
    NormalIsAbs(base);
    var name, rel := ParsedSegments(Segments(base));
    InsideIsMild(disk, name, rel, [""]);
    CalmIsHere(disk, Entered(disk, base), exts);
    var entered := ParseNodeModulePath(Entered(disk, base)).value;
    if Here(disk, entered.0, entered.1, exts).None? && retry {
      CalmIsHere(disk, Join2(base, "index"), exts);
      assert Entered(disk, Join2(base, "index")) == Join2(base, "index");
    }
  }

  lemma {:induction false} JoinedIsNormal(specifier: string, filename: string)
    requires IsAbsolute(filename) && Plain(specifier) && ParseNodeModulePath(Joined(specifier, filename)).Some?
    ensures Normal(Joined(specifier, filename))
  {
    var name, rel := JoinedSegments(specifier, filename);
    GoodConcat(ROOT, name);
    GoodConcat(ROOT + name, rel);
    NormalizeAbs(ROOT + name + rel);
  }

  /** Where the main entry leads straight to files, the full resolver answers from file lookups alone. */
  lemma {:induction false} FullIsExpected(disk: Disk, specifier: string, filename: string, extensions: seq<string>)
    requires Comparable(disk, specifier, filename)
    requires Straight(disk, Joined(specifier, filename), Extensions(extensions), !EndsInIndex(specifier))
    ensures Resolution(disk, specifier, filename, extensions) ==
            match Expected(disk, Joined(specifier, filename), Extensions(extensions), !EndsInIndex(specifier))
            case Some(found) => Ok(found)
            case None => Err(NotFound)
  {
    ExtensionsExactOnce(extensions);
    StraightIsRegular(disk, Joined(specifier, filename), Extensions(extensions), !EndsInIndex(specifier));
    FullIsAnswer(disk, specifier, filename, extensions);
  }

  /** No bare extension is a file of the package, and the package root extended is no file either. */
  predicate CleanRoot(disk: Disk, pkg: string, exts: seq<string>)
    requires pkg in disk.registry
  {
    FileAt(disk, NODE_MODULES + pkg, exts).None? && FirstHit(disk.registry[pkg], "", exts).None?
  }

  /**
   * The fast path refines the full resolver: unless a package.json sits exactly at the joined path or
   * at its `index` child, whatever the fast path answers is what the full resolver answers. At a
   * package's root no file may be named by a bare extension.
   */
  lemma {:induction false} FastRefinesFull(disk: Disk, specifier: string, filename: string, extensions: seq<string>)
    requires Comparable(disk, specifier, filename) && Calm(disk, Joined(specifier, filename))
    requires var (pkg, rel) := ParseNodeModulePath(Joined(specifier, filename)).value;
             rel == "" ==> CleanRoot(disk, pkg, Extensions(extensions))
    requires Fast(disk, specifier, filename, extensions).Some?
    ensures Resolution(disk, specifier, filename, extensions) == Ok(Fast(disk, specifier, filename, extensions).value)
  {
    var base, exts := Joined(specifier, filename), Extensions(extensions);
    JoinedIsNormal(specifier, filename);
    ExtensionsExactOnce(extensions);
    FastIsHere(disk, specifier, filename, extensions);
    FullIsExpected(disk, specifier, filename, extensions);
  }

  /** Away from the root, or at a clean one, the fast path says what the files say. */
  lemma {:induction false} FastIsHere(disk: Disk, specifier: string, filename: string, extensions: seq<string>)
    requires Comparable(disk, specifier, filename) && ParseNodeModulePath(filename).Some?
    requires var (pkg, rel) := ParseNodeModulePath(Joined(specifier, filename)).value;
             rel == "" ==> CleanRoot(disk, pkg, Extensions(extensions))
    ensures var (pkg, rel) := ParseNodeModulePath(Joined(specifier, filename)).value;
            Fast(disk, specifier, filename, extensions) == Here(disk, pkg, rel, Extensions(extensions))
  {
  }

  /** A main entry that leads to nothing leaves the fast path right where it answers with an index. */
  lemma {:induction false} BrokenMainFallsBack(disk: Disk, specifier: string, filename: string, extensions: seq<string>)
    requires Comparable(disk, specifier, filename) && Fast(disk, specifier, filename, extensions).Some?
    requires Straight(disk, Joined(specifier, filename), Extensions(extensions), true) && !EndsInIndex(specifier)
    requires var entered := ParseNodeModulePath(Entered(disk, Joined(specifier, filename))).value;
             Here(disk, entered.0, entered.1, Extensions(extensions)).None?
    requires var (pkg, rel) := ParseNodeModulePath(Joined(specifier, filename)).value;
             FirstHit(disk.registry[pkg], rel, Extensions(extensions)).None?
    ensures Resolution(disk, specifier, filename, extensions) == Ok(Fast(disk, specifier, filename, extensions).value)
  {
    var name, rel := JoinedSegments(specifier, filename);
    IndexInside(name, rel);
    IndexRel(rel);
    JoinIsEmpty(rel + ["index"]);
    InsideAbs(name, rel + ["index"]);
    ParseInside(name, Join(rel + ["index"]));
    FullIsExpected(disk, specifier, filename, extensions);
  }
}
