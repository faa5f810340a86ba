/**
 * Installing a package in parts: the CDN serves a listing and one response per entry
 * (crates/sandpack-cdn/src/package/entries.rs), the bundler overlays them
 * (packages/sandpack-bundler/src/bundler/module-registry/module-cdn.ts) and expands installed
 * packages later (module-registry/index.ts).
 */
module ModuleParts {
  import opened EntryClosures

  /** One `/package` response, and an installed package's content: files by path, packages used. */
  datatype Part = Part(f: map<string, MinimalFile>, m: set<string>)

  const NOTHING := Part(map[], {})

  /** What a listing says about a file: its size, unless it is the manifest or was not transformed. */
  function Listed(path: string, file: MinimalFile): MinimalFile {
    if file.File? && path != "package.json" then Ignored(|file.content|) else file
  }

  function Listing(pkg: Package): Part {
    Part(map path | path in pkg.files :: Listed(path, pkg.files[path]), {})
  }

  function PackageNames(pkg: Package, entries: set<string>): set<string> {
    set edge | edge in Packages(pkg, entries) && edge.0 != pkg.name :: edge.0
  }

  /** The response for one entry: the transformed files its closure loads, and the packages they import. */
  function EntryModule(pkg: Package, entry: string): Part {
    Part(map path | path in pkg.files && path in Files(pkg, {entry}) && pkg.files[path].File? :: pkg.files[path],
         PackageNames(pkg, {entry}))
  }

  // ---- mergeModuleParts ----------------------------------------------------------

  function Overlay(files: map<string, MinimalFile>, part: map<string, MinimalFile>): map<string, MinimalFile> {
    map path | path in files.Keys + part.Keys ::
      if path in part && (part[path].File? || path !in files) then part[path] else files[path]
  }

  function Merge(into: Part, parts: seq<Part>): Part
    decreases |parts|
  {
    if |parts| == 0 then into
    else Merge(Part(Overlay(into.f, parts[0].f), into.m + parts[0].m), parts[1..])
  }

  method MergeModuleParts(into: Part, parts: seq<Part>) returns (merged: Part)
    ensures merged == Merge(into, parts)
  {
    var files := into.f;
    var modules := into.m;
    var i := 0;
    while i < |parts|
      invariant 0 <= i <= |parts|
      invariant Merge(Part(files, modules), parts[i..]) == Merge(into, parts)
    {
      var part := parts[i];
      ghost var before := files;
      var paths := part.f.Keys;
      while paths != {}
        invariant paths <= part.f.Keys
        invariant files.Keys == before.Keys + (part.f.Keys - paths)
        invariant forall path :: path in files ==>
          files[path] == if path in part.f && path !in paths && (part.f[path].File? || path !in before)
                         then part.f[path] else before[path]
        decreases paths
      {
        var path :| path in paths;
        if part.f[path].File? || path !in files {
          files := files[path := part.f[path]];
        }
        paths := paths - {path};
      }
      assert files == Overlay(before, part.f);
      modules := modules + part.m;
      assert parts[i..][1..] == parts[i + 1..];
      i := i + 1;
    }
    merged := Part(files, modules);
  }

  /** `fetchModuleEntries`: the closures without the listing. */
  function FetchModuleEntries(pkg: Package, entries: seq<string>): Part {
    Merge(NOTHING, seq(|entries|, i requires 0 <= i < |entries| => EntryModule(pkg, entries[i])))
  }

  /** `fetchModule`: the listing with the closures of `entries` inlined. */
  function FetchModule(pkg: Package, entries: seq<string>): Part {
    Merge(Listing(pkg), seq(|entries|, i requires 0 <= i < |entries| => EntryModule(pkg, entries[i])))
  }

  // ---- one-shot install, the reference --------------------------------------------

  /** A package whose loaded entries are exactly `entries`. */
  function Installed(pkg: Package, entries: set<string>): Part {
    Part(Inlined(pkg, Files(pkg, entries)), PackageNames(pkg, entries))
  }

  lemma PackageNamesOfUnion(pkg: Package, a: set<string>, b: set<string>)
    ensures PackageNames(pkg, a + b) == PackageNames(pkg, a) + PackageNames(pkg, b)
  {
    ClosureOfUnion(pkg, a, b);
  }

  /** Overlaying one more response adds that entry to what is installed. */
  lemma OverlayOne(pkg: Package, entries: set<string>, entry: string)
    ensures Merge(Installed(pkg, entries), [EntryModule(pkg, entry)]) == Installed(pkg, entries + {entry})
  {
    var part := EntryModule(pkg, entry);
    FilesOfUnion(pkg, entries, {entry});
    PackageNamesOfUnion(pkg, entries, {entry});
    OverlayInlines(pkg, Files(pkg, entries), Files(pkg, {entry}));
    assert [part][1..] == [];
  }

  /** The files of a package with those of `loaded` inlined. */
  function Inlined(pkg: Package, loaded: set<string>): map<string, MinimalFile> {
    map path | path in pkg.files :: if path in loaded then pkg.files[path] else Listed(path, pkg.files[path])
  }

  lemma OverlayInlines(pkg: Package, loaded: set<string>, more: set<string>)
    ensures Overlay(Inlined(pkg, loaded), map path | path in pkg.files && path in more && pkg.files[path].File? :: pkg.files[path])
            == Inlined(pkg, loaded + more)
  {
  }

  lemma ListingIsInstalled(pkg: Package)
    ensures Listing(pkg) == Installed(pkg, {})
  {
    assert Roots(pkg, {}) == {};
    assert Closed(pkg, {});
    ReachIsLeast(pkg, {}, {});
    assert Files(pkg, {}) == {};
    assert PackageNames(pkg, {}) == {};
    assert Listing(pkg).f == Installed(pkg, {}).f;
  }

  lemma MergeOne(into: Part, part: Part)
    ensures Merge(into, [part]) == Part(Overlay(into.f, part.f), into.m + part.m)
  {
    assert [part][1..] == [];
  }

  lemma {:induction false} MergeConcat(into: Part, a: seq<Part>, b: seq<Part>)
    ensures Merge(into, a + b) == Merge(Merge(into, a), b)
    decreases |a|
  {
    if |a| == 0 {
      assert a + b == b;
    } else {
      assert (a + b)[1..] == a[1..] + b;
      MergeConcat(Part(Overlay(into.f, a[0].f), into.m + a[0].m), a[1..], b);
    }
  }

  /** Overlaying a pre-merged group is overlaying its members. */
  lemma {:induction false} MergeGrouped(into: Part, group: seq<Part>)
    ensures Merge(into, [Merge(NOTHING, group)]) == Merge(into, group)
    decreases |group|
  {
    var merged := Merge(NOTHING, group);
    assert [merged][1..] == [];
    if |group| == 0 {
      assert Overlay(into.f, map[]) == into.f;
    } else {
      var last := group[|group| - 1];
      var init := group[..|group| - 1];
      assert group == init + [last];
      MergeConcat(NOTHING, init, [last]);
      MergeConcat(into, init, [last]);
      MergeGrouped(into, init);
      OverlayAssociates(into.f, Merge(NOTHING, init).f, last.f);
      assert [last][1..] == [] && [Merge(NOTHING, init)][1..] == [];
    }
  }

  lemma OverlayAssociates(a: map<string, MinimalFile>, b: map<string, MinimalFile>, c: map<string, MinimalFile>)
    ensures Overlay(a, Overlay(b, c)) == Overlay(Overlay(a, b), c)
  {
  }

  function Responses(pkg: Package, entries: seq<string>): seq<Part> {
    seq(|entries|, i requires 0 <= i < |entries| => EntryModule(pkg, entries[i]))
  }

  /** Responses overlaid in any order, with any repetition, install exactly the entries they answer. */
  lemma {:induction false} OverlayMany(pkg: Package, have: set<string>, entries: seq<string>)
    ensures Merge(Installed(pkg, have), Responses(pkg, entries)) == Installed(pkg, have + ToSet(entries))
    decreases |entries|
  {
    if |entries| == 0 {
      assert have + ToSet(entries) == have;
    } else {
      var responses := Responses(pkg, entries);
      OverlayOne(pkg, have, entries[0]);
      assert responses == [responses[0]] + responses[1..];
      assert responses[1..] == Responses(pkg, entries[1..]);
      MergeConcat(Installed(pkg, have), [responses[0]], responses[1..]);
      OverlayMany(pkg, have + {entries[0]}, entries[1..]);
      assert have + {entries[0]} + ToSet(entries[1..]) == have + ToSet(entries);
    }
  }

  /** An install is its entries: the order and repetition of the request do not show. */
  lemma FetchModuleInstalls(pkg: Package, entries: seq<string>)
    ensures FetchModule(pkg, entries) == Installed(pkg, ToSet(entries))
  {
    ListingIsInstalled(pkg);
    OverlayMany(pkg, {}, entries);
    assert {} + ToSet(entries) == ToSet(entries);
  }

  /** Later expansions, each a fetched group overlaid on what is installed. */
  function Expand(pkg: Package, have: Part, groups: seq<seq<string>>): Part
    decreases |groups|
  {
    if |groups| == 0 then have
    else Expand(pkg, Merge(have, [FetchModuleEntries(pkg, groups[0])]), groups[1..])
  }

  function Flatten(groups: seq<seq<string>>): seq<string> {
    if |groups| == 0 then [] else groups[0] + Flatten(groups[1..])
  }

  lemma {:induction false} ExpandInstalls(pkg: Package, have: set<string>, groups: seq<seq<string>>)
    ensures Expand(pkg, Installed(pkg, have), groups) == Installed(pkg, have + ToSet(Flatten(groups)))
    decreases |groups|
  {
    if |groups| == 0 {
      assert have + ToSet(Flatten(groups)) == have;
    } else {
      MergeGrouped(Installed(pkg, have), Responses(pkg, groups[0]));
      OverlayMany(pkg, have, groups[0]);
      ExpandInstalls(pkg, have + ToSet(groups[0]), groups[1..]);
      assert have + ToSet(groups[0]) + ToSet(Flatten(groups[1..])) == have + ToSet(Flatten(groups));
    }
  }

  /**
   * Staged installation equals one-shot installation: whatever the first request named and
   * however the later entries were grouped, ordered and repeated, the package ends up as one
   * request for all the entries, listed in any order, would have installed it.
   */
  lemma StagedEqualsOneShot(pkg: Package, first: seq<string>, groups: seq<seq<string>>, all: seq<string>)
    requires ToSet(all) == ToSet(first) + ToSet(Flatten(groups))
    ensures Expand(pkg, FetchModule(pkg, first), groups) == FetchModule(pkg, all)
  {
    FetchModuleInstalls(pkg, first);
    ExpandInstalls(pkg, ToSet(first), groups);
    FetchModuleInstalls(pkg, all);
  }

  lemma ExpandOne(pkg: Package, have: set<string>, entry: string)
    ensures Merge(Installed(pkg, have), [FetchModuleEntries(pkg, [entry])]) == Installed(pkg, have + {entry})
  {
    MergeGrouped(Installed(pkg, have), Responses(pkg, [entry]));
    OverlayMany(pkg, have, [entry]);
    assert ToSet([entry]) == {entry};
  }

  /** An installed package: `ModuleRegistry`'s `NodeModule`. */
  class NodeModule {
    var files: map<string, MinimalFile>
    var modules: set<string>
    var entries: set<string>

    /** The files and used packages are those of the entries recorded as inlined. */
    ghost predicate Holds(pkg: Package)
      reads this
    {
      Part(files, modules) == Installed(pkg, entries)
    }

    constructor (pkg: Package, asked: seq<string>)
      ensures Holds(pkg) && entries == ToSet(asked)
    {
      var part := FetchModule(pkg, asked);
      files, modules, entries := part.f, part.m, ToSet(asked);
      FetchModuleInstalls(pkg, asked);
    }

    /** `expandModule`: fetch and inline, one by one, the entries not recorded yet. */
    method ExpandModule(pkg: Package, asked: seq<string>)
      requires Holds(pkg)
      modifies this
      ensures Holds(pkg) && entries == old(entries) + ToSet(asked)
    {
      var i := 0;
      while i < |asked|
        invariant 0 <= i <= |asked|
        invariant Holds(pkg) && entries == old(entries) + ToSet(asked[..i])
      {
        var entry := asked[i];
        assert asked[..i + 1] == asked[..i] + [entry];
        if entry !in entries {
          var part := FetchModuleEntries(pkg, [entry]);
          ExpandOne(pkg, entries, entry);
          var merged := MergeModuleParts(Part(files, modules), [part]);
          files, modules := merged.f, merged.m;
          entries := entries + {entry};
        }
        ToSetAppend(asked[..i], entry);
        i := i + 1;
      }
      assert asked[..|asked|] == asked;
    }
  }

  // ---- what is inlined ------------------------------------------------------------------------

  /**
   * In an installed package a file is inlined if an entry loads it, and package.json always is, as is what
   * was not transformed; any other file is known by its size. It uses the packages its entries import.
   */
  lemma InstalledFiles(pkg: Package, entries: set<string>, path: string, name: string)
    ensures path in Installed(pkg, entries).f <==> path in pkg.files
    ensures path in pkg.files ==>
              Installed(pkg, entries).f[path] ==
              if path in Files(pkg, entries) || path == "package.json" then pkg.files[path]
              else match pkg.files[path] case File(content, _, _) => Ignored(|content|) case other => other
    ensures name in Installed(pkg, entries).m <==> name != pkg.name && exists entry :: (name, entry) in Packages(pkg, entries)
  {
    if name != pkg.name && exists entry :: (name, entry) in Packages(pkg, entries) {
      var entry :| (name, entry) in Packages(pkg, entries);
      assert (name, entry).0 == name;
    }
  }
}
