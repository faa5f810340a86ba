/**
 * The full resolver's path for absolute module paths (packages/sandpack-bundler/src/resolver/resolver.ts
 * and utils/fs.ts). `Disk` is what it reads: the installed packages' file maps below `/node_modules`,
 * and everything else as functions of the path. The functions specify; `ModuleResolver` is the code,
 * with its cache.
 */
module Resolver {
  import opened Wrappers
  import opened Strings
  import opened Paths
  import opened PackageJson

  /** A file of an installed package: its text, or only its name. */
  datatype FileEntry = Inlined(text: string) | Listed

  datatype Failure = NotFound | CyclicAlias

  /**
   * `remote` fetches a listed file and `outside` reads any path that is in no installed package;
   * `parse` is `JSON.parse`, `wildcard` rewrites a path by the alias keys that hold a star, and
   * `bare` resolves a path that is not absolute.
   */
  datatype Disk = Disk(
    registry: map<string, map<string, FileEntry>>,
    remote: string -> Option<string>,
    outside: string -> Option<string>,
    parse: string -> Option<Json>,
    wildcard: (Aliases, string) -> string,
    bare: (string, string, seq<string>) -> Result<string, Failure>)

  const NODE_MODULES := "/node_modules/"

  /** `parseNodeModulePath`: the package a path lies in, and the path inside it. */
  function ParseNodeModulePath(path: string): Option<(string, string)> {
    if !(NODE_MODULES <= path) || |path| == |NODE_MODULES| then None
    else ParseSegments(Split(path[|NODE_MODULES|..]))
  }

  function ParseSegments(segs: seq<string>): Option<(string, string)>
    requires |segs| > 0
  {
    if "@" <= segs[0] then
      if |segs| < 2 || segs[1] == "" then None else Some((segs[0] + "/" + segs[1], Join(segs[2..])))
    else if segs[0] == "" then None
    else Some((segs[0], Join(segs[1..])))
  }

  /** The installed file at a path; `None` when the path is in no installed package. */
  predicate InRegistry(disk: Disk, path: string) {
    var parsed := ParseNodeModulePath(path);
    parsed.Some? && parsed.value.0 in disk.registry
  }

  predicate IsFile(disk: Disk, path: string) {
    if path == EMPTY_SHIM then true
    else if InRegistry(disk, path) then
      var (pkg, rel) := ParseNodeModulePath(path).value;
      rel != "" && rel in disk.registry[pkg]
    else disk.outside(path).Some?
  }

  function ReadFile(disk: Disk, path: string): Option<string> {
    if InRegistry(disk, path) then
      var (pkg, rel) := ParseNodeModulePath(path).value;
      if rel == "" || rel !in disk.registry[pkg] then None
      else match disk.registry[pkg][rel] case Inlined(text) => Some(text) case Listed => disk.remote(path)
    else disk.outside(path)
  }

  // ---- package.json lookup ---------------------------------------------------------------

  /** `processPackageJSON(JSON.parse(text), root)`; `None` when either throws. */
  function Processed(disk: Disk, text: string, root: string): Option<Aliases> {
    match disk.parse(text) case None => None case Some(json) => Process(json, root)
  }

  function PackageAt(disk: Disk, path: string): Option<Aliases> {
    match ReadFile(disk, path) case None => None case Some(text) => Processed(disk, text, Dirname(path))
  }

  function DirectoryOf(parts: seq<string>): string {
    if Join(parts) == "" then "/" else Join(parts)
  }

  predicate Within(directory: string, rootDir: string) {
    rootDir <= directory
  }

  /** `getParentDirectories` of the path with these parts. */
  function ParentDirectories(parts: seq<string>, rootDir: string): seq<string> {
    if |parts| == 0 || !Within(DirectoryOf(parts), rootDir) then []
    else [DirectoryOf(parts)] + ParentDirectories(parts[..|parts| - 1], rootDir)
  }

  /** The first of `directories` with a readable package.json. */
  function Nearest(disk: Disk, directories: seq<string>): Option<Aliases> {
    if |directories| == 0 then None
    else
      match PackageAt(disk, Join2(directories[0], "package.json"))
      case Some(aliases) => Some(aliases)
      case None => Nearest(disk, directories[1..])
  }

  /** `findPackageJSON`. */
  function FindPackageJSON(disk: Disk, path: string): Aliases {
    match Nearest(disk, ParentDirectories(Split(path), "/"))
    case Some(aliases) => aliases
    case None => match Nearest(disk, ParentDirectories(Split("/index"), "/")) case Some(aliases) => aliases case None => map[]
  }

  // ---- aliases and extensions --------------------------------------------------------------

  predicate HasWildcard(aliases: Aliases) {
    exists key :: key in aliases && '*' in key
  }

  predicate Direct(aliases: Aliases, path: string) {
    path in aliases && aliases[path] != ""
  }

  /** `resolveAlias` after `count` direct replacements. */
  function FollowAlias(disk: Disk, aliases: Aliases, path: string, count: nat): Result<string, Failure>
    decreases 6 - count
  {
    if count > 5 then Err(CyclicAlias)
    else if Direct(aliases, path) then
      if aliases[path] == path then Ok(path) else FollowAlias(disk, aliases, aliases[path], count + 1)
    else
      var aliased := if HasWildcard(aliases) then disk.wildcard(aliases, path) else path;
      Ok(if aliased == "" then path else aliased)
  }

  function ResolveAlias(disk: Disk, aliases: Aliases, path: string): Result<string, Failure> {
    FollowAlias(disk, aliases, path, 0)
  }

  /** `path` after `n` direct replacements, or where they end. */
  function Hop(aliases: Aliases, path: string, n: nat): string
    decreases n
  {
    if n > 0 && Direct(aliases, path) then Hop(aliases, aliases[path], n - 1) else path
  }

  predicate Stable(aliases: Aliases, path: string) {
    Direct(aliases, path) ==> aliases[path] == path
  }

  /** Without wildcard keys, a path resolves exactly when five replacements bring it to rest, and rests there. */
  lemma {:induction false} AliasComesToRest(disk: Disk, aliases: Aliases, path: string, count: nat)
    requires !HasWildcard(aliases) && count <= 5
    ensures FollowAlias(disk, aliases, path, count) ==
            var rest := Hop(aliases, path, 5 - count);
            if Stable(aliases, rest) then Ok(rest) else Err(CyclicAlias)
    decreases 6 - count
  {
    if Direct(aliases, path) {
      if aliases[path] == path {
        HopStays(aliases, path, 5 - count);
      } else if count < 5 {
        AliasComesToRest(disk, aliases, aliases[path], count + 1);
      }
    }
  }

  lemma {:induction false} HopStays(aliases: Aliases, path: string, n: nat)
    requires Stable(aliases, path)
    ensures Hop(aliases, path, n) == path
  {
    if n > 0 && Direct(aliases, path) {
      HopStays(aliases, path, n - 1);
    }
  }

  function ExpandFile(disk: Disk, path: string, exts: seq<string>, count: nat): Result<Option<string>, Failure>
    decreases if count > 5 then 0 else 6 - count, |exts| + 2
  {
    if count > 5 then Err(CyclicAlias) else ExpandWith(disk, FindPackageJSON(disk, path), path, exts, count)
  }

  /** The extensions still to try, under the aliases found for `path`. */
  function ExpandWith(disk: Disk, aliases: Aliases, path: string, exts: seq<string>, count: nat): Result<Option<string>, Failure>
    requires count <= 5
    decreases 6 - count, |exts| + 1
  {
    if |exts| == 0 then Ok(None)
    else
      match Candidate(disk, aliases, path + exts[0], count)
      case Ok(None) => ExpandWith(disk, aliases, path, exts[1..], count)
      case found => found
  }

  /** One candidate: itself when it is a file, or what its alias leads to. */
  function Candidate(disk: Disk, aliases: Aliases, f: string, count: nat): Result<Option<string>, Failure>
    requires count <= 5
    decreases 6 - count, 0
  {
    match ResolveAlias(disk, aliases, f)
    case Err(error) => Err(error)
    case Ok(aliased) =>
      if aliased == f then Ok(if IsFile(disk, f) then Some(f) else None) else ExpandFile(disk, aliased, [""], count + 1)
  }

  // ---- the resolver ------------------------------------------------------------------------------

  predicate Separator(c: char) {
    c == '/' || c == '\\'
  }

  /** Every run of separators becomes one slash. */
  function Collapse(s: string): string {
    if s == "" then ""
    else if Separator(s[0]) then
      if |s| > 1 && Separator(s[1]) then Collapse(s[1..]) else "/" + Collapse(s[1..])
    else [s[0]] + Collapse(s[1..])
  }

  function NormalizeModuleSpecifier(specifier: string): string {
    var normalized := Collapse(specifier);
    if normalized != "" && normalized[|normalized| - 1] == '/' then normalized[..|normalized| - 1] else normalized
  }

  function Dedup(exts: seq<string>, seen: set<string>): seq<string>
    decreases |exts|
  {
    if |exts| == 0 then []
    else if exts[0] in seen then Dedup(exts[1..], seen)
    else [exts[0]] + Dedup(exts[1..], seen + {exts[0]})
  }

  /** `[...new Set(['', ...extensions])]`. */
  function Extensions(extensions: seq<string>): seq<string> {
    Dedup([""] + extensions, {})
  }

  function ResolveFile(path: string, dir: string): string {
    if "." <= path then Join2(dir, path) else path
  }

  function ResolveModule(disk: Disk, specifier: string, filename: string): Result<string, Failure> {
    var path := ResolveFile(specifier, Dirname(filename));
    ResolveAlias(disk, FindPackageJSON(disk, if IsAbsolute(path) then path else filename), path)
  }

  /** `parts[parts.length - 1].startsWith('index')`. */
  predicate EndsInIndex(specifier: string) {
    var parts := Split(specifier);
    "index" <= parts[|parts| - 1]
  }

  lemma RetryEndsInIndex(specifier: string)
    ensures EndsInIndex(specifier + "/index")
  {
    assert specifier + "/index" == specifier + "/" + "index";
    SplitConcat(specifier, "index");
    SplitSlashFree("index");
  }

  /** The module path itself, then its `index` file. */
  function Probe(disk: Disk, path: string, exts: seq<string>): Result<Option<string>, Failure> {
    match ExpandFile(disk, path, exts, 0)
    case Ok(None) => ExpandFile(disk, Join2(path, "index"), exts, 0)
    case found => found
  }

  function Resolution(disk: Disk, specifier: string, filename: string, extensions: seq<string>): Result<string, Failure>
    decreases if EndsInIndex(specifier) then 0 else 1
  {
    var exts := Extensions(extensions);
    match ResolveModule(disk, NormalizeModuleSpecifier(specifier), filename)
    case Err(error) => Err(error)
    case Ok(path) =>
      if !IsAbsolute(path) then disk.bare(path, filename, exts)
      else
        match Probe(disk, path, exts)
        case Err(error) => Err(error)
        case Ok(Some(found)) => Ok(found)
        case Ok(None) =>
          if EndsInIndex(specifier) then Err(NotFound)
          else
            RetryEndsInIndex(specifier);
            match Resolution(disk, specifier + "/index", filename, exts)
            case Ok(found) => Ok(found)
            case Err(_) => Err(NotFound)
  }

  // ---- the code ------------------------------------------------------------------------------------

  lemma {:induction false} ParentsStep(done: seq<string>, parts: seq<string>, rootDir: string)
    requires |parts| > 0
    ensures if Within(DirectoryOf(parts), rootDir) then
              done + ParentDirectories(parts, rootDir) == (done + [DirectoryOf(parts)]) + ParentDirectories(parts[..|parts| - 1], rootDir)
            else done + ParentDirectories(parts, rootDir) == done
  {
  }

  method GetParentDirectories(filepath: string, rootDir: string) returns (directories: seq<string>)
    ensures directories == ParentDirectories(Split(filepath), rootDir)
  {
    var parts := Split(filepath);
    directories := [];
    while |parts| > 0
      invariant directories + ParentDirectories(parts, rootDir) == ParentDirectories(Split(filepath), rootDir)
      decreases |parts|
    {
      ParentsStep(directories, parts, rootDir);
      var joined := Join(parts);
      var directory := if joined == "" then "/" else joined;
      if |directory| < |rootDir| || directory[..|rootDir|] != rootDir {
        return;
      }
      directories := directories + [directory];
      parts := parts[..|parts| - 1];
    }
  }

  method FollowAliases(disk: Disk, aliases: Aliases, filename: string) returns (resolved: Result<string, Failure>)
    ensures resolved == ResolveAlias(disk, aliases, filename)
  {
    var aliasedPath := filename;
    var count := 0;
    while true
      invariant count <= 6
      invariant FollowAlias(disk, aliases, aliasedPath, count) == ResolveAlias(disk, aliases, filename)
      decreases 7 - count
    {
      var relativeFilepath := aliasedPath;
      if count > 5 {
        return Err(CyclicAlias);
      }
      count := count + 1;
      if Direct(aliases, relativeFilepath) {
        aliasedPath := aliases[relativeFilepath];
        if relativeFilepath == aliasedPath {
          return Ok(aliasedPath);
        }
      } else {
        if HasWildcard(aliases) {
          aliasedPath := disk.wildcard(aliases, relativeFilepath);
        }
        return Ok(if aliasedPath == "" then relativeFilepath else aliasedPath);
      }
    }
  }

  class ModuleResolver {
    const disk: Disk
    /** What each package.json read so far turned out to be; `None` for `false`. */
    var resolverCache: map<string, Option<Aliases>>

    ghost predicate Coherent()
      reads this
    {
      forall path :: path in resolverCache ==> resolverCache[path] == PackageAt(disk, path)
    }

    constructor (disk: Disk)
      ensures this.disk == disk && Coherent()
    {
      this.disk := disk;
      resolverCache := map[];
    }

    method LoadAt(packageFilePath: string) returns (content: Option<Aliases>)
      requires Coherent()
      modifies this
      ensures Coherent() && content == PackageAt(disk, packageFilePath)
    {
      if packageFilePath in resolverCache {
        return resolverCache[packageFilePath];
      }
      var text := ReadFile(disk, packageFilePath);
      content := if text.Some? then Processed(disk, text.value, Dirname(packageFilePath)) else None;
      resolverCache := resolverCache[packageFilePath := content];
    }

    method LoadPackageJSON(filepath: string, rootDir: string) returns (found: Option<Aliases>)
      requires Coherent()
      modifies this
      ensures Coherent()
      ensures found == Nearest(disk, ParentDirectories(Split(filepath), rootDir))
    {
      var directories := GetParentDirectories(filepath, rootDir);
      var i := 0;
      while i < |directories|
        invariant 0 <= i <= |directories| && Coherent()
        invariant Nearest(disk, directories[i..]) == Nearest(disk, directories)
      {
        assert directories[i..][1..] == directories[i + 1..];
        var packageFilePath := JoinPaths([directories[i], "package.json"]);
        found := LoadAt(packageFilePath);
        if found.Some? {
          return;
        }
        i := i + 1;
      }
      found := None;
    }

    method FindPackage(filepath: string) returns (aliases: Aliases)
      requires Coherent()
      modifies this
      ensures Coherent()
      ensures aliases == FindPackageJSON(disk, filepath)
    {
      var pkg := LoadPackageJSON(filepath, "/");
      if pkg.None? {
        pkg := LoadPackageJSON("/index", "/");
        if pkg.None? {
          return map[];
        }
      }
      aliases := pkg.value;
    }

    method Expand(filepath: string, extensions: seq<string>, expandCount: nat) returns (found: Result<Option<string>, Failure>)
      requires Coherent()
      modifies this
      ensures Coherent()
      ensures found == ExpandFile(disk, filepath, extensions, expandCount)
      decreases if expandCount > 5 then 0 else 6 - expandCount, 1
    {
      var pkg := FindPackage(filepath);
      if expandCount > 5 {
        return Err(CyclicAlias);
      }
      var i := 0;
      while i < |extensions|
        invariant 0 <= i <= |extensions| && Coherent()
        invariant ExpandWith(disk, pkg, filepath, extensions[i..], expandCount) == ExpandFile(disk, filepath, extensions, expandCount)
      {
        assert extensions[i..][1..] == extensions[i + 1..];
        found := Try(pkg, filepath + extensions[i], expandCount);
        if found != Ok(None) {
          return;
        }
        i := i + 1;
      }
      found := Ok(None);
    }

    method Try(pkg: Aliases, f: string, expandCount: nat) returns (found: Result<Option<string>, Failure>)
      requires Coherent() && expandCount <= 5
      modifies this
      ensures Coherent()
      ensures found == Candidate(disk, pkg, f, expandCount)
      decreases 6 - expandCount, 0
    {
      var aliasedPath := FollowAliases(disk, pkg, f);
      if aliasedPath.Err? {
        return Err(aliasedPath.error);
      }
      if aliasedPath.value == f {
        return Ok(if IsFile(disk, f) then Some(f) else None);
      }
      found := Expand(aliasedPath.value, [""], expandCount + 1);
    }

    method ResolveSpecifier(moduleSpecifier: string, filename: string, extensions: seq<string>) returns (resolved: Result<string, Failure>)
      requires Coherent()
      modifies this
      ensures Coherent()
      ensures resolved == Resolution(disk, moduleSpecifier, filename, extensions)
      decreases if EndsInIndex(moduleSpecifier) then 0 else 1
    {
      var exts := Extensions(extensions);
      var target := ResolveFile(NormalizeModuleSpecifier(moduleSpecifier), Dirname(filename));
      var pkgJson := FindPackage(if IsAbsolute(target) then target else filename);
      var modulePath := FollowAliases(disk, pkgJson, target);
      if modulePath.Err? {
        return Err(modulePath.error);
      }
      if !IsAbsolute(modulePath.value) {
        return disk.bare(modulePath.value, filename, exts);
      }
      var foundFile := Expand(modulePath.value, exts, 0);
      if foundFile == Ok(None) {
        var index := JoinPaths([modulePath.value, "index"]);
        foundFile := Expand(index, exts, 0);
      }
      if foundFile.Err? {
        return Err(foundFile.error);
      }
      if foundFile.value.Some? {
        return Ok(foundFile.value.value);
      }
      if !EndsInIndex(moduleSpecifier) {
        RetryEndsInIndex(moduleSpecifier);
        var retried := ResolveSpecifier(moduleSpecifier + "/index", filename, exts);
        if retried.Ok? {
          return retried;
        }
      }
      resolved := Err(NotFound);
    }
  }
}
