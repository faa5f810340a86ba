/** What the full resolver finds, in terms of the files of the disk it reads. */
module ResolverFiles {
  import opened Wrappers
  import opened Strings
  import opened Paths
  import opened AbsolutePaths
  import opened PackageJson
  import opened Resolver
  import opened Specifiers

  // ---- files ------------------------------------------------------------------------------------

  /** The path of a file of an installed package, by the file map. */
  ghost predicate Registered(disk: Disk, path: string) {
    exists pkg, rel :: pkg in disk.registry && rel in disk.registry[pkg] && rel != "" && path == "/node_modules/" + pkg + "/" + rel
  }

  /** The path lies in no installed package. */
  predicate Elsewhere(disk: Disk, path: string) {
    path != "/empty.js" && (ParseNodeModulePath(path).None? || ParseNodeModulePath(path).value.0 !in disk.registry)
  }

  lemma {:induction false} ParseSpells(path: string)
    requires ParseNodeModulePath(path).Some? && ParseNodeModulePath(path).value.1 != ""
    ensures var (pkg, rel) := ParseNodeModulePath(path).value;
            path == "/node_modules/" + pkg + "/" + rel
  {
    var rest := path[|NODE_MODULES|..];
    JoinSplit(rest);
    ParseJoins(Split(rest));
    assert path == NODE_MODULES + rest;
  }

  lemma {:induction false} ParseJoins(segs: seq<string>)
    requires |segs| > 0 && ParseSegments(segs).Some? && ParseSegments(segs).value.1 != ""
    ensures Join(segs) == ParseSegments(segs).value.0 + "/" + ParseSegments(segs).value.1
  {
    if "@" <= segs[0] {
      assert segs == segs[..2] + segs[2..];
      JoinConcat(segs[..2], segs[2..]);
      assert segs[..2][1..] == [segs[1]];
      assert Join(segs[..2]) == segs[0] + "/" + segs[1];
    } else {
      assert segs == [segs[0]] + segs[1..];
      JoinConcat([segs[0]], segs[1..]);
    }
  }

  /** A file is the empty module, a file of an installed package's map, or readable where no package is installed. */
  lemma {:induction false} FileMeans(disk: Disk, path: string)
    ensures IsFile(disk, path) ==> path == "/empty.js" || Registered(disk, path) || (Elsewhere(disk, path) && disk.outside(path).Some?)
    ensures Elsewhere(disk, path) ==> (IsFile(disk, path) <==> disk.outside(path).Some?)
    ensures path == "/empty.js" ==> IsFile(disk, path)
  {
    if IsFile(disk, path) && path != "/empty.js" && !Elsewhere(disk, path) {
      ParseSpells(path);
    }
  }

  // ---- every answer is a file -----------------------------------------------------------------------

  lemma {:induction false} ExpandFinds(disk: Disk, path: string, exts: seq<string>, count: nat, found: string)
    requires ExpandFile(disk, path, exts, count) == Ok(Some(found))
    ensures IsFile(disk, found)
    decreases if count > 5 then 0 else 6 - count, |exts| + 2
  {
    if count <= 5 {
      ExpandWithFinds(disk, FindPackageJSON(disk, path), path, exts, count, found);
    }
  }

  lemma {:induction false} ExpandWithFinds(disk: Disk, aliases: Aliases, path: string, exts: seq<string>, count: nat, found: string)
    requires count <= 5 && ExpandWith(disk, aliases, path, exts, count) == Ok(Some(found))
    ensures IsFile(disk, found)
    decreases 6 - count, |exts| + 1
  {
    if |exts| > 0 {
      if Candidate(disk, aliases, path + exts[0], count) == Ok(None) {
        ExpandWithFinds(disk, aliases, path, exts[1..], count, found);
      } else {
        CandidateFinds(disk, aliases, path + exts[0], count, found);
      }
    }
  }

  lemma {:induction false} CandidateFinds(disk: Disk, aliases: Aliases, f: string, count: nat, found: string)
    requires count <= 5 && Candidate(disk, aliases, f, count) == Ok(Some(found))
    ensures IsFile(disk, found)
    decreases 6 - count, 0
  {
    var aliased := ResolveAlias(disk, aliases, f).value;
    if aliased != f {
      ExpandFinds(disk, aliased, [""], count + 1, found);
    }
  }

  lemma ProbeFinds(disk: Disk, path: string, exts: seq<string>, found: string)
    requires Probe(disk, path, exts) == Ok(Some(found))
    ensures IsFile(disk, found)
  {
    if ExpandFile(disk, path, exts, 0) == Ok(None) {
      ExpandFinds(disk, Join2(path, "index"), exts, 0, found);
    } else {
      ExpandFinds(disk, path, exts, 0, found);
    }
  }

  /** The answer comes from the resolution of a path that is not absolute. */
  ghost predicate FromBare(disk: Disk, filename: string, found: string) {
    exists path, exts :: !IsAbsolute(path) && disk.bare(path, filename, exts) == Ok(found)
  }

  /**
   * Whatever the resolver answers for a path is the empty module, a file in an installed package's map,
   * or a file readable outside: an alias to a bare name is the only other way out.
   */
  lemma {:induction false} AnswersAreFiles(disk: Disk, specifier: string, filename: string, extensions: seq<string>, found: string)
    requires Resolution(disk, specifier, filename, extensions) == Ok(found)
    ensures || found == "/empty.js" || Registered(disk, found) || (Elsewhere(disk, found) && disk.outside(found).Some?)
            || FromBare(disk, filename, found)
    decreases if EndsInIndex(specifier) then 0 else 1
  {
    var exts := Extensions(extensions);
    var path := ResolveModule(disk, NormalizeModuleSpecifier(specifier), filename).value;
    if IsAbsolute(path) {
      if Probe(disk, path, exts).value.Some? {
        ProbeFinds(disk, path, exts, found);
        FileMeans(disk, found);
      } else {
        RetryEndsInIndex(specifier);
        AnswersAreFiles(disk, specifier + "/index", filename, exts, found);
      }
    }
  }

  // ---- imports between an app's own files ---------------------------------------------------------------

  /** The first extension of `path` that is readable outside the packages. */
  function Readable(disk: Disk, path: string, exts: seq<string>): Option<string> {
    if |exts| == 0 then None
    else if disk.outside(path + exts[0]).Some? then Some(path + exts[0])
    else Readable(disk, path, exts[1..])
  }

  /** No extension of `path` lies in an installed package, and the nearest package.json mentions none. */
  predicate OnItsOwn(disk: Disk, path: string, exts: seq<string>) {
    && !HasWildcard(FindPackageJSON(disk, path))
    && forall i :: 0 <= i < |exts| ==> Elsewhere(disk, path + exts[i]) && path + exts[i] !in FindPackageJSON(disk, path)
  }

  lemma {:induction false} ExpandOutside(disk: Disk, aliases: Aliases, path: string, exts: seq<string>)
    requires !HasWildcard(aliases)
    requires forall i :: 0 <= i < |exts| ==> Elsewhere(disk, path + exts[i]) && path + exts[i] !in aliases
    ensures ExpandWith(disk, aliases, path, exts, 0) == Ok(Readable(disk, path, exts))
    decreases |exts|
  {
    if |exts| > 0 {
      assert forall i :: 0 <= i < |exts[1..]| ==> exts[1..][i] == exts[i + 1];
      ExpandOutside(disk, aliases, path, exts[1..]);
      FileMeans(disk, path + exts[0]);
    }
  }

  lemma {:induction false} ExpandOwn(disk: Disk, path: string, exts: seq<string>)
    requires OnItsOwn(disk, path, exts)
    ensures ExpandFile(disk, path, exts, 0) == Ok(Readable(disk, path, exts))
  {
    ExpandOutside(disk, FindPackageJSON(disk, path), path, exts);
  }

  lemma {:induction false} ProbeIs(disk: Disk, path: string, exts: seq<string>, first: Option<string>, second: Option<string>)
    requires ExpandFile(disk, path, exts, 0) == Ok(first) && ExpandFile(disk, Join2(path, "index"), exts, 0) == Ok(second)
    ensures Probe(disk, path, exts) == Ok(if first.Some? then first else second)
  {
  }

  lemma {:induction false} ProbeOutside(disk: Disk, path: string, index: string, exts: seq<string>)
    requires index == Join2(path, "index") && OnItsOwn(disk, path, exts) && OnItsOwn(disk, index, exts)
    ensures Probe(disk, path, exts) ==
            Ok(if Readable(disk, path, exts).Some? then Readable(disk, path, exts) else Readable(disk, index, exts))
  {
    ExpandOwn(disk, path, exts);
    ExpandOwn(disk, index, exts);
    ProbeIs(disk, path, exts, Readable(disk, path, exts), Readable(disk, index, exts));
  }

  lemma {:induction false} OutsideModulePath(disk: Disk, specifier: string, filename: string, extensions: seq<string>)
    requires IsAbsolute(filename) && Plain(specifier) && "." <= specifier
    requires OnItsOwn(disk, Joined(specifier, filename), Extensions(extensions))
    ensures IsAbsolute(Joined(specifier, filename))
    ensures ResolveModule(disk, NormalizeModuleSpecifier(specifier), filename) == Ok(Joined(specifier, filename))
  {
    var base := Joined(specifier, filename);
    ModulePath(disk, specifier, filename);
    ExtensionsExactOnce(extensions);
    assert base + Extensions(extensions)[0] == base;
  }

  /** The last attempt, with `/index` at the end already. */
  lemma {:induction false} OutsideLast(disk: Disk, specifier: string, filename: string, extensions: seq<string>)
    requires IsAbsolute(filename) && Plain(specifier) && "." <= specifier && EndsInIndex(specifier)
    requires OnItsOwn(disk, Joined(specifier, filename), Extensions(extensions))
    requires OnItsOwn(disk, Join2(Joined(specifier, filename), "index"), Extensions(extensions))
    ensures var base, exts := Joined(specifier, filename), Extensions(extensions);
            Resolution(disk, specifier, filename, extensions) ==
            match Readable(disk, base, exts)
            case Some(found) => Ok(found)
            case None => match Readable(disk, Join2(base, "index"), exts) case Some(found) => Ok(found) case None => Err(NotFound)
  {
    OutsideModulePath(disk, specifier, filename, extensions);
    ProbeOutside(disk, Joined(specifier, filename), Join2(Joined(specifier, filename), "index"), Extensions(extensions));
  }

  /**
   * A relative import that leads outside the packages, and that no package.json aliases, is the first
   * readable file among the path's extensions, then its index's, then its index's index's.
   */
  lemma {:induction false} OutsideImport(disk: Disk, specifier: string, filename: string, extensions: seq<string>)
    requires IsAbsolute(filename) && Plain(specifier) && "." <= specifier && !EndsInIndex(specifier)
    requires OnItsOwn(disk, Joined(specifier, filename), Extensions(extensions))
    requires OnItsOwn(disk, Join2(Joined(specifier, filename), "index"), Extensions(extensions))
    requires OnItsOwn(disk, Join2(Join2(Joined(specifier, filename), "index"), "index"), Extensions(extensions))
    ensures var base, exts := Joined(specifier, filename), Extensions(extensions);
            Resolution(disk, specifier, filename, extensions) ==
            match Readable(disk, base, exts)
            case Some(found) => Ok(found)
            case None =>
              match Readable(disk, Join2(base, "index"), exts)
              case Some(found) => Ok(found)
              case None =>
                match Readable(disk, Join2(Join2(base, "index"), "index"), exts) case Some(found) => Ok(found) case None => Err(NotFound)
  {
    var base, exts := Joined(specifier, filename), Extensions(extensions);
    OutsideModulePath(disk, specifier, filename, extensions);
    ProbeOutside(disk, base, Join2(base, "index"), exts);
    if Readable(disk, base, exts).None? && Readable(disk, Join2(base, "index"), exts).None? {
      JoinedIndex(specifier, filename);
      RetryEndsInIndex(specifier);
      ExtensionsTwice(extensions);
      OutsideLast(disk, specifier + "/index", filename, exts);
    }
  }

  // ---- the package.json that applies ------------------------------------------------------------------

  /** A path's directories, from itself up to the root. */
  function Ancestors(segs: seq<string>): seq<string> {
    ["/" + Join(segs)] + if segs == [] then [] else Ancestors(segs[..|segs| - 1])
  }

  lemma {:induction false} ParentsAreAncestors(segs: seq<string>)
    requires Good(segs)
    ensures ParentDirectories([""] + segs, "/") == Ancestors(segs)
  {
    var parts := [""] + segs;
    if segs == [] {
      assert parts == [""] && DirectoryOf(parts) == "/" && parts[..|parts| - 1] == [];
      assert ParentDirectories(parts, "/") == ["/"] + ParentDirectories([], "/") == ["/"];
      assert "/" + Join([]) == "/";
    } else {
      JoinCons("", segs);
      assert Join(parts) == "/" + Join(segs);
      assert parts[..|parts| - 1] == [""] + segs[..|segs| - 1];
      assert segs == segs[..|segs| - 1] + [segs[|segs| - 1]];
      GoodConcat(segs[..|segs| - 1], [segs[|segs| - 1]]);
      ParentsAreAncestors(segs[..|segs| - 1]);
    }
  }

  /** Reading: what is outside the packages from the disk, a package's file from its map, or fetched if only listed. */
  lemma ReadsWhatIsThere(disk: Disk, path: string)
    ensures Elsewhere(disk, path) ==> ReadFile(disk, path) == disk.outside(path)
    ensures !Elsewhere(disk, path) && path != "/empty.js" ==>
              var (pkg, rel) := ParseNodeModulePath(path).value;
              ReadFile(disk, path) ==
              if rel == "" || rel !in disk.registry[pkg] then None
              else match disk.registry[pkg][rel] case Inlined(text) => Some(text) case Listed => disk.remote(path)
  {
  }

  /** No package.json that can be read and processed is in this directory. */
  predicate Bare(disk: Disk, directory: string) {
    var text := ReadFile(disk, Join2(directory, "package.json"));
    text.None? || Processed(disk, text.value, Dirname(Join2(directory, "package.json"))).None?
  }

  lemma BareMeans(disk: Disk, directory: string)
    ensures var file := Join2(directory, "package.json");
            if Bare(disk, directory) then PackageAt(disk, file) == None
            else PackageAt(disk, file).Some? && PackageAt(disk, file) == Processed(disk, ReadFile(disk, file).value, Dirname(file))
  {
  }

  function TablesOf(disk: Disk, directories: seq<string>): seq<Option<Aliases>> {
    seq(|directories|, i requires 0 <= i < |directories| => PackageAt(disk, Join2(directories[i], "package.json")))
  }

  function FirstSome(tables: seq<Option<Aliases>>): Option<Aliases> {
    if |tables| == 0 then None else if tables[0].Some? then tables[0] else FirstSome(tables[1..])
  }

  lemma {:induction false} FirstSomeIs(tables: seq<Option<Aliases>>, k: nat)
    requires k < |tables| && tables[k].Some? && forall i :: 0 <= i < k ==> tables[i].None?
    ensures FirstSome(tables) == tables[k]
  {
    if k > 0 {
      FirstSomeIs(tables[1..], k - 1);
    }
  }

  lemma {:induction false} NearestIsFirst(disk: Disk, directories: seq<string>)
    ensures Nearest(disk, directories) == FirstSome(TablesOf(disk, directories))
  {
    if |directories| > 0 {
      NearestUncons(disk, directories, TablesOf(disk, directories)[0]);
      NearestIsFirst(disk, directories[1..]);
      assert TablesOf(disk, directories)[1..] == TablesOf(disk, directories[1..]);
    }
  }

  lemma NearestUncons(disk: Disk, directories: seq<string>, table: Option<Aliases>)
    requires |directories| > 0 && table == PackageAt(disk, Join2(directories[0], "package.json"))
    ensures Nearest(disk, directories) == if table.Some? then table else Nearest(disk, directories[1..])
  {
  }

  /** The package.json that applies to a path is the first, going up, that can be read and processed. */
  lemma NearestApplies(disk: Disk, segs: seq<string>, k: nat)
    requires Good(segs) && segs != [] && k < |Ancestors(segs)| && !Bare(disk, Ancestors(segs)[k])
    requires forall i :: 0 <= i < k ==> Bare(disk, Ancestors(segs)[i])
    ensures var file := Join2(Ancestors(segs)[k], "package.json");
            Some(FindPackageJSON(disk, "/" + Join(segs))) == Processed(disk, ReadFile(disk, file).value, Dirname(file))
  {
    SplitAbs(segs);
    ParentsAreAncestors(segs);
    forall i | 0 <= i <= k
      ensures PackageAt(disk, Join2(Ancestors(segs)[i], "package.json")).None? <==> Bare(disk, Ancestors(segs)[i])
    {
      BareMeans(disk, Ancestors(segs)[i]);
    }
    BareMeans(disk, Ancestors(segs)[k]);
    NearestIsFirst(disk, Ancestors(segs));
    FirstSomeIs(TablesOf(disk, Ancestors(segs)), k);
  }

  // ---- package names and aliases with stars --------------------------------------------------------------

  /** A path below `/node_modules` names a package by its first segment, or two after a scope; not by an empty one. */
  lemma PackageOfPath(first: string, second: string, rest: string, path: string)
    requires '/' !in first && '/' !in second && second != ""
    requires path == "/node_modules/" + first + "/" + second + "/" + rest
    ensures ParseNodeModulePath(path) ==
            if "@" <= first then Some((first + "/" + second, rest))
            else if first == "" then None
            else Some((first, second + "/" + rest))
  {
    var below := first + "/" + (second + "/" + rest);
    Regroup(NODE_MODULES + first, "/", second);
    Regroup(NODE_MODULES + first, "/" + second, "/");
    assert path == NODE_MODULES + below;
    assert path[|NODE_MODULES|..] == below;
    SplitConcat(first, second + "/" + rest);
    SplitConcat(second, rest);
    SplitSlashFree(first);
    SplitSlashFree(second);
    var segs := [first] + ([second] + Split(rest));
    assert Split(below) == segs && segs[1..] == [second] + Split(rest) && segs[2..] == Split(rest);
    JoinSplit(rest);
    JoinCons(second, Split(rest));
  }

  /** Keys with a star apply where no key names the path itself. */
  lemma StarredKeysApply(disk: Disk, aliases: Aliases, path: string, key: string)
    requires key in aliases && '*' in key && (path !in aliases || aliases[path] == "")
    ensures ResolveAlias(disk, aliases, path) ==
            Ok(if disk.wildcard(aliases, path) == "" then path else disk.wildcard(aliases, path))
  {
  }

  /** A bare specifier that no package.json aliases goes to the resolution of bare specifiers, with the importer. */
  lemma BareImport(disk: Disk, specifier: string, filename: string, extensions: seq<string>)
    requires var path := NormalizeModuleSpecifier(specifier);
             && path != "" && path[0] != '.' && path[0] != '/'
             && path !in FindPackageJSON(disk, filename) && !HasWildcard(FindPackageJSON(disk, filename))
    ensures Resolution(disk, specifier, filename, extensions) ==
            disk.bare(NormalizeModuleSpecifier(specifier), filename, Extensions(extensions))
  {
  }
}
