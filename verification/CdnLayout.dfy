/**
 * The CDN-layout fast path (packages/sandpack-bundler/src/bundler/module-registry/cdnLayoutResolve.ts):
 * relative imports inside installed packages, looked up in the package's file map.
 */
module CdnLayout {
  import opened Wrappers
  import opened Strings
  import opened Paths
  import opened Resolver

  type Files = map<string, FileEntry>

  predicate IsManifest(rel: string) {
    rel == "package.json" || EndsWith(rel, "/package.json")
  }

  /** The directory of a package's own or nested package.json. */
  function ManifestRoot(pkg: string, rel: string): string
    requires IsManifest(rel)
  {
    var dirRel := if rel == "package.json" then "" else rel[..|rel| - |"/package.json"|];
    if dirRel == "" then NODE_MODULES + pkg else Join2(NODE_MODULES + pkg, dirRel)
  }

  /** The file is no package.json, or one that aliases nothing but its own directory. */
  predicate Verified(disk: Disk, pkg: string, rel: string, file: FileEntry) {
    IsManifest(rel) ==>
      && file.Inlined?
      && var aliases := Processed(disk, file.text, ManifestRoot(pkg, rel));
         aliases.Some? && aliases.value.Keys <= {ManifestRoot(pkg, rel)}
  }

  predicate Eligible(disk: Disk, pkg: string, files: Files) {
    forall rel :: rel in files ==> Verified(disk, pkg, rel, files[rel])
  }

  /** The first `rel + ext` the package has. */
  function FirstHit(files: Files, rel: string, exts: seq<string>): Option<string> {
    if |exts| == 0 then None
    else if rel + exts[0] != "" && rel + exts[0] in files then Some(rel + exts[0])
    else FirstHit(files, rel, exts[1..])
  }

  function IndexOf(rel: string): string {
    if rel == "" then "index" else rel + "/index"
  }

  /** Both probes. */
  function Lookup(files: Files, rel: string, exts: seq<string>): Option<string> {
    match FirstHit(files, rel, exts) case Some(hit) => Some(hit) case None => FirstHit(files, IndexOf(rel), exts)
  }

  function InPackage(pkg: string, rel: string): string {
    NODE_MODULES + pkg + "/" + rel
  }

  /** `resolveFromCdnLayout`, every verdict taken afresh. */
  function Fast(disk: Disk, specifier: string, filename: string, extensions: seq<string>): Option<string> {
    if !("." <= specifier) || ParseNodeModulePath(filename).None? then None
    else
      match ParseNodeModulePath(Join2(Dirname(filename), specifier))
      case None => None
      case Some((pkg, rel)) =>
        if pkg !in disk.registry || !Eligible(disk, pkg, disk.registry[pkg]) then None
        else
          match Lookup(disk.registry[pkg], rel, Extensions(extensions))
          case None => None
          case Some(hit) => Some(InPackage(pkg, hit))
  }

  // ---- the code ----------------------------------------------------------------------

  method IsFastPathEligible(disk: Disk, pkg: string, files: Files) returns (eligible: bool)
    ensures eligible == Eligible(disk, pkg, files)
  {
    var left := files.Keys;
    while left != {}
      invariant left <= files.Keys
      invariant forall rel :: rel in files && rel !in left ==> Verified(disk, pkg, rel, files[rel])
      decreases left
    {
      var rel :| rel in left;
      left := left - {rel};
      if IsManifest(rel) {
        if files[rel].Listed? {
          return false;
        }
        var pkgRoot := ManifestRoot(pkg, rel);
        var processed := Processed(disk, files[rel].text, pkgRoot);
        if processed.None? {
          return false;
        }
        var keys := processed.value.Keys;
        while keys != {}
          invariant keys <= processed.value.Keys
          invariant processed.value.Keys <= keys + {pkgRoot}
          decreases keys
        {
          var key :| key in keys;
          if key != pkgRoot {
            return false;
          }
          keys := keys - {key};
        }
      }
    }
    eligible := true;
  }

  method FirstFile(files: Files, rel: string, exts: seq<string>) returns (hit: Option<string>)
    ensures hit == FirstHit(files, rel, exts)
  {
    var i := 0;
    while i < |exts|
      invariant 0 <= i <= |exts|
      invariant FirstHit(files, rel, exts[i..]) == FirstHit(files, rel, exts)
    {
      assert exts[i..][1..] == exts[i + 1..];
      var path := rel + exts[i];
      if |path| > 0 && path in files {
        return Some(path);
      }
      i := i + 1;
    }
    hit := None;
  }

  class LayoutResolver {
    const disk: Disk
    var eligibilityCache: map<string, bool>

    ghost predicate Coherent()
      reads this
    {
      forall pkg :: pkg in eligibilityCache ==>
        pkg in disk.registry && eligibilityCache[pkg] == Eligible(disk, pkg, disk.registry[pkg])
    }

    constructor (disk: Disk)
      ensures this.disk == disk && Coherent()
    {
      this.disk := disk;
      eligibilityCache := map[];
    }

    method ResolveFromCdnLayout(specifier: string, filename: string, extensions: seq<string>) returns (found: Option<string>)
      requires Coherent()
      modifies this
      ensures Coherent()
      ensures found == Fast(disk, specifier, filename, extensions)
    {
      if !("." <= specifier) || ParseNodeModulePath(filename).None? {
        return None;
      }
      var base := JoinPaths([Dirname(filename), specifier]);
      var targetParsed := ParseNodeModulePath(base);
      if targetParsed.None? {
        return None;
      }
      var (pkg, baseRel) := targetParsed.value;
      if pkg !in disk.registry {
        return None;
      }
      var files := disk.registry[pkg];
      if pkg !in eligibilityCache {
        var eligible := IsFastPathEligible(disk, pkg, files);
        eligibilityCache := eligibilityCache[pkg := eligible];
      }
      if !eligibilityCache[pkg] {
        return None;
      }
      var exts := Extensions(extensions);
      var hit := FirstFile(files, baseRel, exts);
      if hit.None? {
        hit := FirstFile(files, if baseRel != "" then baseRel + "/index" else "index", exts);
      }
      found := if hit.Some? then Some(InPackage(pkg, hit.value)) else None;
    }
  }
}
