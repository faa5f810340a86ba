/**
 * Seeding pre-transpiled artifacts (packages/sandpack-bundler/src/bundler/artifacts/artifactStore.ts
 * and artifactIndex.ts). `JSON.parse` with the shape checks is a function of the text; `None` is its failure.
 */
module Artifacts {
  import opened Wrappers
  import opened Strings
  import opened Paths

  datatype FileEntry = FileEntry(srcSha: string, out: string, deps: seq<string>)

  datatype Toolchain = Toolchain(version: string, toolchainHash: string)

  /** Index keys and their entries, in the order of the index. */
  type Entries = seq<(string, FileEntry)>

  datatype Index = Index(toolchain: Toolchain, files: Entries)

  datatype Rejection = BadPath | NotInManifest | OutEscapesArtifacts | Dirty | SrcShaMismatch

  /** A checked entry: where its artifact is, and its dependencies. */
  datatype Checked = Checked(path: string, out: string, deps: seq<string>)

  const ARTIFACTS_DIR := ".tinkerable/artifacts"
  const INDEX_REPO_PATH := "/" + ARTIFACTS_DIR + "/index.json"
  const MANIFEST_SIDECAR_PATH := "/.tinkerable/contribute-manifest.json"

  function ArtifactsPrefix(): string {
    ARTIFACTS_DIR + "/"
  }

  function UnderAppRoot(path: string): string {
    "/app" + (if IsAbsolute(path) then path else "/" + path)
  }

  /** `absolute`. */
  function Absolute(path: string): string {
    if IsAbsolute(path) then path else if "./" <= path then path[1..] else "/" + path
  }

  // ---- the validators ----------------------------------------------------------------

  method NormalizeRepoRelPath(key: string) returns (path: Option<string>)
    ensures path == RepoRelPath(key)
  {
    if !IsAbsolute(key) {
      return None;
    }
    var segments := Split(key)[1..];
    var i := 0;
    while i < |segments|
      invariant 0 <= i <= |segments| && Ordinary(segments[..i])
    {
      if segments[i] == "" || segments[i] == "." || segments[i] == ".." {
        assert !OrdinarySegment(segments[i]);
        return None;
      }
      assert segments[..i + 1] == segments[..i] + [segments[i]];
      i := i + 1;
    }
    assert segments[..i] == segments;
    path := Some(key);
  }

  function RepoRelPath(key: string): Option<string> {
    if IsAbsolute(key) && |Split(key)| > 1 && Ordinary(Split(key)[1..]) then Some(key) else None
  }

  function OutWithinArtifacts(out: string): Option<string> {
    if out == "" || IsAbsolute(out) then None
    else
      var joined := Normalize(ArtifactsPrefix() + out);
      if ArtifactsPrefix() <= joined && |joined| > |ArtifactsPrefix()| then Some(joined) else None
  }

  function ValidateSeedEntry(key: string, entry: FileEntry, manifestShas: map<string, string>, dirtySet: set<string>): Result<Checked, Rejection> {
    match RepoRelPath(key)
    case None => Err(BadPath)
    case Some(path) =>
      if path !in manifestShas then Err(NotInManifest)
      else
        match OutWithinArtifacts(entry.out)
        case None => Err(OutEscapesArtifacts)
        case Some(out) =>
          if path in dirtySet then Err(Dirty)
          else if entry.srcSha != manifestShas[path] then Err(SrcShaMismatch)
          else Ok(Checked(path, out, entry.deps))
  }

  /** `manifestShaMap`: later entries win. */
  function AddShas(shas: map<string, string>, entries: seq<(string, string)>): map<string, string>
    decreases |entries|
  {
    if |entries| == 0 then shas
    else
      match RepoRelPath(Absolute(entries[0].0))
      case None => AddShas(shas, entries[1..])
      case Some(path) => AddShas(shas[path := entries[0].1], entries[1..])
  }

  method ManifestShaMap(entries: seq<(string, string)>) returns (shas: map<string, string>)
    ensures shas == AddShas(map[], entries)
  {
    shas := map[];
    var i := 0;
    while i < |entries|
      invariant 0 <= i <= |entries| && AddShas(shas, entries[i..]) == AddShas(map[], entries)
    {
      assert entries[i..][1..] == entries[i + 1..];
      var canonical := NormalizeRepoRelPath(Absolute(entries[i].0));
      if canonical.Some? {
        shas := shas[canonical.value := entries[i].1];
      }
      i := i + 1;
    }
  }

  // ---- seeding -----------------------------------------------------------------------

  /** The file system and the records of the store; `seeded` counts copies. */
  datatype Store = Store(disk: map<string, string>, deps: map<string, seq<string>>, seededPaths: set<string>, seeded: nat)

  /** What a seeding run trusts: the manifest's blobs, and the paths never to seed. */
  datatype Trust = Trust(manifestShas: map<string, string>, dirtySet: set<string>)

  function Source(out: string): string {
    UnderAppRoot("/" + out)
  }

  function Target(path: string): string {
    "/transpiled" + path + ".js"
  }

  function Check(e: (string, FileEntry), trust: Trust): Result<Checked, Rejection> {
    ValidateSeedEntry(e.0, e.1, trust.manifestShas, trust.dirtySet)
  }

  /** The entry passes every rule and its artifact can be read. */
  predicate Seedable(disk: map<string, string>, e: (string, FileEntry), trust: Trust) {
    Check(e, trust).Ok? && Source(Check(e, trust).value.out) in disk
  }

  function SeedEntry(s: Store, e: (string, FileEntry), trust: Trust): Store {
    if !Seedable(s.disk, e, trust) then s
    else
      var checked := Check(e, trust).value;
      Store(s.disk[Target(checked.path) := s.disk[Source(checked.out)]],
            s.deps[UnderAppRoot(checked.path) := checked.deps],
            s.seededPaths + {UnderAppRoot(checked.path)},
            s.seeded + 1)
  }

  function SeedAll(s: Store, entries: Entries, trust: Trust): Store
    decreases |entries|
  {
    if |entries| == 0 then s else SeedAll(SeedEntry(s, entries[0], trust), entries[1..], trust)
  }

  /** The index, if it can be read and was made by this toolchain. */
  function UsableIndex(disk: map<string, string>, parse: string -> Option<Index>, embedded: Toolchain): Option<Index> {
    var file := UnderAppRoot(INDEX_REPO_PATH);
    if file !in disk then None
    else match parse(disk[file]) case Some(index) => if index.toolchain == embedded then Some(index) else None case None => None
  }

  function ReadShas(disk: map<string, string>, parse: string -> Option<seq<(string, string)>>): map<string, string> {
    var file := UnderAppRoot(MANIFEST_SIDECAR_PATH);
    if file !in disk then map[]
    else match parse(disk[file]) case Some(entries) => AddShas(map[], entries) case None => map[]
  }

  /** The index, the sidecar and every confined artifact. */
  function SeedingInputs(entries: Entries): seq<string> {
    [INDEX_REPO_PATH, MANIFEST_SIDECAR_PATH] + Outputs(entries)
  }

  function Outputs(entries: Entries): seq<string> {
    if |entries| == 0 then []
    else
      (match OutWithinArtifacts(entries[0].1.out) case Some(out) => ["/" + out] case None => []) + Outputs(entries[1..])
  }

  predicate ReadableLayerOnly(inputs: seq<string>, writableLayer: set<string>) {
    forall p :: p in inputs ==> p !in writableLayer
  }

  datatype SeedResult = SeedResult(seeded: nat, securityReject: bool)

  class ArtifactStore {
    const embedded: Toolchain
    const parseIndex: string -> Option<Index>
    const parseSidecar: string -> Option<seq<(string, string)>>
    var disk: map<string, string>
    var deps: map<string, seq<string>>
    var seededPaths: set<string>
    var didSeed: bool
    var distrusted: bool

    function View(seeded: nat): Store
      reads this
    {
      Store(disk, deps, seededPaths, seeded)
    }

    method Seed(dirtySet: set<string>, writableLayer: set<string>) returns (result: SeedResult)
      modifies this`disk, this`deps, this`seededPaths, this`didSeed
      ensures didSeed == (old(didSeed) || !distrusted)
      ensures var index := UsableIndex(old(disk), parseIndex, embedded);
              if old(didSeed) || distrusted || index.None? then
                result == SeedResult(0, false) && View(0) == old(View(0))
              else if !ReadableLayerOnly(SeedingInputs(index.value.files), writableLayer) then
                result == SeedResult(0, true) && View(0) == old(View(0))
              else
                && !result.securityReject
                && View(result.seeded) == SeedAll(old(View(0)), index.value.files, Trust(ReadShas(old(disk), parseSidecar), dirtySet))
    {
      result := SeedResult(0, false);
      if didSeed || distrusted {
        return;
      }
      didSeed := true;
      var index := UsableIndex(disk, parseIndex, embedded);
      if index.None? {
        return;
      }
      var entries := index.value.files;
      var inputs := CollectInputs(entries);
      if !ReadableLayerOnly(inputs, writableLayer) {
        return SeedResult(0, true);
      }
      var trust := Trust(ReadShas(disk, parseSidecar), dirtySet);
      var seeded := 0;
      var i := 0;
      while i < |entries|
        invariant 0 <= i <= |entries| && didSeed
        invariant SeedAll(View(seeded), entries[i..], trust) == SeedAll(old(View(0)), entries, trust)
      {
        assert entries[i..][1..] == entries[i + 1..];
        var copied := CopyArtifact(entries[i], trust, seeded);
        if copied {
          seeded := seeded + 1;
        }
        i := i + 1;
      }
      result := SeedResult(seeded, false);
    }

    /** One turn of the loop. */
    method CopyArtifact(e: (string, FileEntry), trust: Trust, ghost seeded: nat) returns (copied: bool)
      modifies this`disk, this`deps, this`seededPaths
      ensures View(if copied then seeded + 1 else seeded) == SeedEntry(old(View(seeded)), e, trust)
    {
      var checked := ValidateSeedEntry(e.0, e.1, trust.manifestShas, trust.dirtySet);
      if checked.Err? || Source(checked.value.out) !in disk {
        return false;
      }
      var content := disk[Source(checked.value.out)];
      disk := disk[Target(checked.value.path) := content];
      deps := deps[UnderAppRoot(checked.value.path) := checked.value.deps];
      seededPaths := seededPaths + {UnderAppRoot(checked.value.path)};
      copied := true;
    }
  }

  method CollectInputs(entries: Entries) returns (inputs: seq<string>)
    ensures inputs == SeedingInputs(entries)
  {
    inputs := [INDEX_REPO_PATH, MANIFEST_SIDECAR_PATH];
    var i := 0;
    while i < |entries|
      invariant 0 <= i <= |entries| && inputs + Outputs(entries[i..]) == SeedingInputs(entries)
    {
      assert entries[i..][1..] == entries[i + 1..];
      var confined := OutWithinArtifacts(entries[i].1.out);
      if confined.Some? {
        inputs := inputs + ["/" + confined.value];
      }
      i := i + 1;
    }
  }

  // ---- where artifacts may come from ---------------------------------------------------------

  const ARTIFACT_SEGS: seq<string> := [".tinkerable", "artifacts"]

  lemma {:induction false} DirSegments()
    ensures Split(ARTIFACTS_DIR) == ARTIFACT_SEGS && Join(ARTIFACT_SEGS) == ARTIFACTS_DIR
    ensures SlashFree(ARTIFACT_SEGS)
  {
    SplitJoin(ARTIFACT_SEGS);
    assert ARTIFACT_SEGS[1..] == ["artifacts"];
    assert ".tinkerable" + "/" + "artifacts" == ".tinkerable/artifacts";
  }

  lemma {:induction false} SplitSpelling(segs: seq<string>, trailing: bool)
    requires SlashFree(segs) && segs != []
    ensures Split(Join(segs) + (if trailing then "/" else "")) == segs + (if trailing then [""] else [])
  {
    SplitJoin(segs);
    if trailing {
      SplitConcat(Join(segs), "");
      assert Join(segs) + "/" + "" == Join(segs) + "/";
    } else {
      assert Join(segs) + "" == Join(segs) && segs + [] == segs;
    }
  }

  /** Behind directory `dir` there is at least one more segment. */
  predicate Below(dir: seq<string>, segs: seq<string>) {
    |segs| > |dir| && segs[..|dir|] == dir
  }

  lemma {:induction false} PrefixMeansBelow(dir: seq<string>, segs: seq<string>, trailing: bool, p: string)
    requires SlashFree(dir) && dir != []
    requires SlashFree(segs) && segs != [] && (trailing ==> segs[|segs| - 1] != "")
    requires p == Join(segs) + (if trailing then "/" else "")
    requires Join(dir) + "/" <= p && |p| > |Join(dir) + "/"|
    ensures Below(dir, segs)
  {
    var tail := p[|Join(dir) + "/"|..];
    assert p == Join(dir) + "/" + tail;
    SplitConcat(Join(dir), tail);
    SplitJoin(dir);
    SplitSpelling(segs, trailing);
    JoinSplit(tail);
    TailIsMore(dir, segs, trailing, Split(tail));
  }

  lemma {:induction false} TailIsMore(dir: seq<string>, segs: seq<string>, trailing: bool, tail: seq<string>)
    requires segs + (if trailing then [""] else []) == dir + tail
    requires |tail| > 0 && Join(tail) != ""
    ensures Below(dir, segs)
  {
    var shown := dir + tail;
    if trailing {
      assert shown[|shown| - 1] == "" && tail[|tail| - 1] == "";
      assert |tail| > 1;
    }
    assert shown[..|dir|] == dir && segs[..|dir|] == shown[..|dir|];
  }

  lemma {:induction false} BelowMeansPrefix(dir: seq<string>, segs: seq<string>, trailing: bool)
    requires dir != [] && Below(dir, segs) && NonEmptyParts(segs)
    ensures var p := Join(segs) + (if trailing then "/" else "");
            Join(dir) + "/" <= p && |p| > |Join(dir) + "/"|
  {
    var rest := segs[|dir|..];
    assert segs == dir + rest;
    JoinConcat(dir, rest);
    JoinIsEmpty(rest);
  }

  lemma {:induction false} SpellsRelative(path: string) returns (trailing: bool)
    requires path != "" && !IsAbsolute(path)
    ensures var segs := Segments(path);
            && SlashFree(segs) && ClimbsOnlyFirst(segs) && NonEmptyParts(segs)
            && if segs == [] then |Normalize(path)| <= 2 else Normalize(path) == Join(segs) + (if trailing then "/" else "")
  {
    trailing := path[|path| - 1] == '/';
    SegmentsShape(path);
    NormalizeSpells(path);
    JoinIsEmpty(Segments(path));
  }

  lemma {:induction false} BelowIffPrefix(dir: seq<string>, segs: seq<string>, trailing: bool, p: string)
    requires SlashFree(dir) && dir != []
    requires SlashFree(segs) && segs != [] && NonEmptyParts(segs) && p == Join(segs) + (if trailing then "/" else "")
    ensures Join(dir) + "/" <= p && |p| > |Join(dir) + "/"| <==> Below(dir, segs)
  {
    if Below(dir, segs) {
      BelowMeansPrefix(dir, segs, trailing);
    } else if Join(dir) + "/" <= p && |p| > |Join(dir) + "/"| {
      PrefixMeansBelow(dir, segs, trailing, p);
    }
  }

  lemma {:induction false} StaysBelow(dir: seq<string>, out: string)
    requires SlashFree(dir) && dir != [] && dir[0] != "" && !IsAbsolute(Join(dir) + "/" + out)
    ensures var prefix := Join(dir) + "/";
            var p, segs := Normalize(prefix + out), Segments(prefix + out);
            && (prefix <= p && |p| > |prefix| <==> Below(dir, segs))
            && (Below(dir, segs) ==> ClimbsOnlyFirst(segs) && (p == Join(segs) || p == Join(segs) + "/"))
  {
    var path := Join(dir) + "/" + out;
    var p, segs := Normalize(path), Segments(path);
    var trailing := SpellsRelative(path);
    if segs == [] {
      NotBelowDot(dir, p);
    } else {
      BelowIffPrefix(dir, segs, trailing, p);
      assert trailing || Join(segs) + "" == Join(segs);
    }
  }

  lemma {:induction false} NotBelowDot(dir: seq<string>, p: string)
    requires dir != [] && dir[0] != "" && |p| <= 2
    ensures !(Join(dir) + "/" <= p && |p| > |Join(dir) + "/"|)
  {
  }

  lemma {:induction false} OutStays(out: string)
    ensures var p, segs := Normalize(ArtifactsPrefix() + out), Segments(ArtifactsPrefix() + out);
            && (ArtifactsPrefix() <= p && |p| > |ArtifactsPrefix()| <==> Below(ARTIFACT_SEGS, segs))
            && (Below(ARTIFACT_SEGS, segs) ==> ClimbsOnlyFirst(segs) && (p == Join(segs) || p == Join(segs) + "/"))
  {
    DirSegments();
    assert (ArtifactsPrefix() + out)[0] == '.';
    StaysBelow(ARTIFACT_SEGS, out);
  }

  /**
   * `outWithinArtifacts` accepts exactly the relative paths that stay below the artifacts directory, and
   * what it returns is that directory followed by at least one segment, all of them ordinary.
   */
  lemma {:induction false} OutIsConfined(out: string)
    ensures OutWithinArtifacts(out).Some? <==>
            out != "" && !IsAbsolute(out) && Below(ARTIFACT_SEGS, Segments(ArtifactsPrefix() + out))
    ensures OutWithinArtifacts(out).Some? ==>
              var segs, p := Segments(ArtifactsPrefix() + out), OutWithinArtifacts(out).value;
              Ordinary(segs) && (p == Join(segs) || p == Join(segs) + "/")
  {
    OutStays(out);
    if Below(ARTIFACT_SEGS, Segments(ArtifactsPrefix() + out)) {
      BelowIsOrdinary(Segments(ArtifactsPrefix() + out));
    }
  }

  lemma {:induction false} BelowIsOrdinary(segs: seq<string>)
    requires Below(ARTIFACT_SEGS, segs) && ClimbsOnlyFirst(segs)
    ensures Ordinary(segs)
  {
    assert segs[0] == ARTIFACT_SEGS[0];
    assert segs[0] != "..";
    assert forall i :: 0 < i < |segs| ==> segs[i] != "..";
  }

  // ---- the gate on canonical paths -----------------------------------------------------------

  /** The absolute path that `p` leads to, without a trailing slash. */
  function Canonical(p: string): string {
    "/" + Join(Segments(p))
  }

  function DropSlash(p: string): string {
    if p != "" && p[|p| - 1] == '/' then p[..|p| - 1] else p
  }

  /** A gathered path is canonical but for a trailing slash, which it has exactly when its entry's `out` has. */
  lemma ConfinedIsCanonical(out: string)
    requires OutWithinArtifacts(out).Some?
    ensures var p := "/" + OutWithinArtifacts(out).value;
            Canonical(p) == DropSlash(p) && (p == DropSlash(p) <==> out[|out| - 1] != '/')
  {
    var path := ArtifactsPrefix() + out;
    var segs, trailing := Segments(path), out[|out| - 1] == '/';
    assert !IsAbsolute(path) && path[|path| - 1] == out[|out| - 1];
    OutIsConfined(out);
    SegmentsShape(path);
    NormalizeSpells(path);
    SpelledBelowRoot(segs, trailing);
  }

  lemma {:induction false} SpelledBelowRoot(segs: seq<string>, trailing: bool)
    requires SlashFree(segs) && Ordinary(segs) && segs != []
    ensures var p := "/" + Spell(segs, false, trailing);
            Canonical(p) == DropSlash(p) && (p == DropSlash(p) <==> !trailing)
  {
    JoinIsEmpty(segs);
    LastOfNormal(segs, Join(segs));
    SegmentsOfSpelling(segs, true, trailing);
    DropsSlash(Join(segs), trailing);
    assert Spell(segs, true, trailing) == "/" + Spell(segs, false, trailing);
  }

  lemma {:induction false} DropsSlash(named: string, trailing: bool)
    requires named != "" && named[|named| - 1] != '/'
    ensures var p := "/" + ("" + named + (if trailing then "/" else ""));
            DropSlash(p) == "/" + named && (p == DropSlash(p) <==> !trailing)
  {
    var p := "/" + ("" + named + (if trailing then "/" else ""));
    assert p[..|named| + 1] == "/" + named;
  }

  /** Some entry's confined `out` names this canonical path with a slash behind it. */
  predicate NamedWithSlash(entries: Entries, p: string) {
    exists e :: e in entries && OutWithinArtifacts(e.1.out).Some? && "/" + OutWithinArtifacts(e.1.out).value == p + "/"
  }

  lemma {:induction false} OutputsAre(entries: Entries, p: string)
    ensures p in Outputs(entries) <==>
            exists e :: e in entries && OutWithinArtifacts(e.1.out).Some? && p == "/" + OutWithinArtifacts(e.1.out).value
  {
    if |entries| > 0 {
      OutputsAre(entries[1..], p);
    }
  }

  /** A path that ends in a plain file name below `dir` is canonical. */
  lemma {:induction false} FileIsCanonical(dir: seq<string>, file: string, p: string)
    requires SlashFree(dir) && Ordinary(dir) && dir != [] && '/' !in file && OrdinarySegment(file)
    requires p == "/" + (Join(dir) + "/" + file)
    ensures Canonical(p) == p && DropSlash(p) == p
  {
    JoinConcat(dir, [file]);
    SpelledBelowRoot(dir + [file], false);
    assert Spell(dir + [file], false, false) == Join(dir + [file]);
  }

  lemma {:induction false} LongIsOrdinary(segs: seq<string>)
    requires forall s :: s in segs ==> |s| > 2
    ensures Ordinary(segs)
  {
    assert forall i :: 0 <= i < |segs| ==> segs[i] in segs;
  }

  lemma {:induction false} ArtifactsDir() returns (dir: seq<string>)
    ensures SlashFree(dir) && Ordinary(dir) && dir != [] && Join(dir) == ARTIFACTS_DIR
  {
    DirSegments();
    LongIsOrdinary(ARTIFACT_SEGS);
    dir := ARTIFACT_SEGS;
  }

  lemma {:induction false} IndexSpelling(file: string, p: string)
    requires file == "index.json" && p == INDEX_REPO_PATH
    ensures p == "/" + (ARTIFACTS_DIR + "/" + file) && OrdinarySegment(file) && '/' !in file
  {
  }

  lemma {:induction false} IndexIsCanonical(p: string)
    requires p == INDEX_REPO_PATH
    ensures Canonical(p) == p && DropSlash(p) == p
  {
    var file :| file == "index.json";
    var dir := ArtifactsDir();
    IndexSpelling(file, p);
    FileIsCanonical(dir, file, p);
  }

  lemma {:induction false} SidecarSpelling(dir: string, file: string, p: string)
    requires dir == ".tinkerable" && file == "contribute-manifest.json" && p == MANIFEST_SIDECAR_PATH
    ensures p == "/" + (dir + "/" + file)
  {
  }

  lemma {:induction false} SidecarSegments(dir: string, file: string)
    requires dir == ".tinkerable" && file == "contribute-manifest.json"
    ensures OrdinarySegment(file) && '/' !in file && OrdinarySegment(dir) && '/' !in dir
  {
  }

  lemma {:induction false} SidecarIsCanonical(p: string)
    requires p == MANIFEST_SIDECAR_PATH
    ensures Canonical(p) == p && DropSlash(p) == p
  {
    var dir, file :| dir == ".tinkerable" && file == "contribute-manifest.json";
    SidecarSpelling(dir, file, p);
    SidecarSegments(dir, file);
    FileIsCanonical([dir], file, p);
  }

  lemma {:induction false} InputIsCanonical(entries: Entries, p: string)
    requires p in SeedingInputs(entries)
    ensures Canonical(p) == DropSlash(p) && (p != DropSlash(p) ==> NamedWithSlash(entries, DropSlash(p)))
  {
    if p == INDEX_REPO_PATH {
      IndexIsCanonical(p);
    } else if p == MANIFEST_SIDECAR_PATH {
      SidecarIsCanonical(p);
    } else {
      OutputIsCanonical(entries, p);
    }
  }

  lemma {:induction false} OutputIsCanonical(entries: Entries, p: string)
    requires p in Outputs(entries)
    ensures Canonical(p) == DropSlash(p) && (p != DropSlash(p) ==> NamedWithSlash(entries, DropSlash(p)))
  {
    OutputsAre(entries, p);
    var e :| e in entries && OutWithinArtifacts(e.1.out).Some? && p == "/" + OutWithinArtifacts(e.1.out).value;
    ConfinedIsCanonical(e.1.out);
    SlashBack(p);
  }

  lemma {:induction false} SlashBack(p: string)
    ensures p != DropSlash(p) ==> p == DropSlash(p) + "/"
  {
  }

  lemma {:induction false} NamedIsInput(entries: Entries, w: string)
    requires NamedWithSlash(entries, w)
    ensures w + "/" in SeedingInputs(entries) && DropSlash(w + "/") == w
  {
    OutputsAre(entries, w + "/");
    assert (w + "/")[..|w|] == w;
  }

  /**
   * `readableLayerOnly` compares spellings. On a layer of canonical paths it finds that no input leads
   * into the layer, except that it overlooks the paths which an output names with a trailing slash.
   */
  lemma GateOnCanonicalPaths(entries: Entries, layer: set<string>)
    requires forall w :: w in layer ==> Canonical(w) == w
    ensures (forall p :: p in SeedingInputs(entries) ==> Canonical(p) !in layer) <==>
            ReadableLayerOnly(SeedingInputs(entries), layer) && forall w :: w in layer ==> !NamedWithSlash(entries, w)
  {
    var inputs := SeedingInputs(entries);
    forall p | p in inputs
      ensures Canonical(p) == DropSlash(p) && (p != DropSlash(p) ==> NamedWithSlash(entries, DropSlash(p)))
    {
      InputIsCanonical(entries, p);
    }
    forall w | w in layer && NamedWithSlash(entries, w) ensures w + "/" in inputs && Canonical(w + "/") == w {
      NamedIsInput(entries, w);
    }
  }

  /** The gate does overlook some: an output spelt with a slash behind a plain file name. */
  lemma {:induction false} GateOverlooks(key: string, file: string)
    requires OrdinarySegment(file) && '/' !in file
    ensures var entries, w := [(key, FileEntry("", file + "/", []))], "/" + (ARTIFACTS_DIR + "/" + file);
            Canonical(w) == w && NamedWithSlash(entries, w)
  {
    var entries, w := [(key, FileEntry("", file + "/", []))], "/" + (ARTIFACTS_DIR + "/" + file);
    var dir := ArtifactsDir();
    FileIsCanonical(dir, file, w);
    OutputWithSlash(dir, file);
    assert entries[0] in entries && "/" + (ARTIFACTS_DIR + "/" + file + "/") == w + "/";
  }

  lemma {:induction false} OutputWithSlash(dir: seq<string>, file: string)
    requires SlashFree(dir) && Ordinary(dir) && dir != [] && Join(dir) == ARTIFACTS_DIR
    requires OrdinarySegment(file) && '/' !in file
    ensures OutWithinArtifacts(file + "/") == Some(ARTIFACTS_DIR + "/" + file + "/")
  {
    var segs := dir + [file];
    JoinConcat(dir, [file]);
    SegmentsOfSpelling(segs, false, true);
    var path := ArtifactsPrefix() + (file + "/");
    assert path == Join(segs) + "/" == Spell(segs, false, true);
    NormalizeSpells(path);
    assert path == ARTIFACTS_DIR + "/" + file + "/";
  }

  /** An accepted key is absolute, and its segments are all ordinary. */
  lemma {:induction false} KeyIsPlain(key: string)
    ensures RepoRelPath(key).Some? <==> IsAbsolute(key) && Ordinary(Split(key)[1..])
    ensures RepoRelPath(key).Some? ==> RepoRelPath(key).value == key
  {
  }

  /** A path's blob in the manifest is that of the last entry that names it. */
  lemma {:induction false} LastEntryWins(shas: map<string, string>, entries: seq<(string, string)>, path: string)
    ensures path in AddShas(shas, entries) <==> path in shas || exists i :: 0 <= i < |entries| && Named(entries, i, path)
    ensures (forall i :: 0 <= i < |entries| ==> !Named(entries, i, path)) && path in shas ==> AddShas(shas, entries)[path] == shas[path]
    ensures forall i :: 0 <= i < |entries| && Named(entries, i, path) && (forall j :: i < j < |entries| ==> !Named(entries, j, path)) ==>
              AddShas(shas, entries)[path] == entries[i].1
    decreases |entries|
  {
    if |entries| > 0 {
      var rest := entries[1..];
      var canonical := RepoRelPath(Absolute(entries[0].0));
      var more := if canonical.Some? then shas[canonical.value := entries[0].1] else shas;
      LastEntryWins(more, rest, path);
      forall i | 0 <= i < |rest| ensures Named(rest, i, path) <==> Named(entries, i + 1, path) {
      }
      NamedLater(entries, path);
    }
  }

  predicate Named(entries: seq<(string, string)>, i: nat, path: string)
    requires i < |entries|
  {
    RepoRelPath(Absolute(entries[i].0)) == Some(path)
  }

  lemma {:induction false} NamedLater(entries: seq<(string, string)>, path: string)
    requires |entries| > 0
    ensures (exists i :: 0 <= i < |entries| && Named(entries, i, path)) <==>
            Named(entries, 0, path) || exists i :: 0 <= i < |entries[1..]| && Named(entries[1..], i, path)
  {
    forall i | 0 <= i < |entries[1..]| ensures Named(entries[1..], i, path) <==> Named(entries, i + 1, path) {
    }
    if i :| 0 < i < |entries| && Named(entries, i, path) {
      assert Named(entries[1..], i - 1, path);
    }
  }

  // ---- what seeding writes ---------------------------------------------------------------------

  lemma {:induction false} SourceIsNoTarget(out: string, path: string)
    ensures Source(out) != Target(path)
  {
    assert Source(out)[1] == 'a' && Target(path)[1] == 't';
  }

  lemma {:induction false} TargetsDiffer(a: string, b: string)
    ensures Target(a) == Target(b) <==> a == b
  {
    assert a == Target(a)[|"/transpiled"|..|Target(a)| - 3];
    assert b == Target(b)[|"/transpiled"|..|Target(b)| - 3];
  }

  /** Copying one artifact changes no later verdict. */
  lemma {:induction false} SameVerdict(s: Store, e: (string, FileEntry), other: (string, FileEntry), trust: Trust)
    ensures Seedable(SeedEntry(s, e, trust).disk, other, trust) <==> Seedable(s.disk, other, trust)
    ensures Seedable(s.disk, other, trust) ==>
              var source := Source(Check(other, trust).value.out);
              SeedEntry(s, e, trust).disk[source] == s.disk[source]
  {
    if Seedable(s.disk, e, trust) && Check(other, trust).Ok? {
      SourceIsNoTarget(Check(other, trust).value.out, Check(e, trust).value.path);
    }
  }

  predicate DistinctKeys(entries: Entries) {
    forall i, j :: 0 <= i < j < |entries| ==> entries[i].0 != entries[j].0
  }

  /** A path no seedable entry targets is left as it was. */
  lemma {:induction false} Untouched(s: Store, entries: Entries, trust: Trust, p: string)
    requires forall e :: e in entries && Seedable(s.disk, e, trust) ==> p != Target(e.0)
    ensures var t := SeedAll(s, entries, trust);
            (p in t.disk <==> p in s.disk) && (p in s.disk ==> t.disk[p] == s.disk[p])
    decreases |entries|
  {
    if |entries| > 0 {
      var next := SeedEntry(s, entries[0], trust);
      forall e | e in entries[1..] && Seedable(next.disk, e, trust) ensures p != Target(e.0) {
        SameVerdict(s, entries[0], e, trust);
        assert e in entries;
      }
      assert entries[0] in entries;
      Untouched(next, entries[1..], trust, p);
    }
  }

  lemma {:induction false} DepsUntouched(s: Store, entries: Entries, trust: Trust, p: string)
    requires forall e :: e in entries && Seedable(s.disk, e, trust) ==> p != UnderAppRoot(e.0)
    ensures var t := SeedAll(s, entries, trust);
            (p in t.deps <==> p in s.deps) && (p in s.deps ==> t.deps[p] == s.deps[p])
    decreases |entries|
  {
    if |entries| > 0 {
      var next := SeedEntry(s, entries[0], trust);
      forall e | e in entries[1..] && Seedable(next.disk, e, trust) ensures p != UnderAppRoot(e.0) {
        SameVerdict(s, entries[0], e, trust);
        assert e in entries;
      }
      assert entries[0] in entries;
      DepsUntouched(next, entries[1..], trust, p);
    }
  }

  lemma {:induction false} RootsDiffer(a: string, b: string)
    requires IsAbsolute(a) && IsAbsolute(b)
    ensures UnderAppRoot(a) == UnderAppRoot(b) <==> a == b
  {
    assert a == UnderAppRoot(a)[4..] && b == UnderAppRoot(b)[4..];
  }

  /** Every seedable artifact ends up copied, with the content it had before the run. */
  lemma {:induction false} SeedableIsCopied(s: Store, entries: Entries, trust: Trust, i: nat)
    requires DistinctKeys(entries) && i < |entries| && Seedable(s.disk, entries[i], trust)
    ensures var t, checked := SeedAll(s, entries, trust), Check(entries[i], trust).value;
            && Target(entries[i].0) in t.disk && t.disk[Target(entries[i].0)] == s.disk[Source(checked.out)]
            && UnderAppRoot(entries[i].0) in t.seededPaths
            && UnderAppRoot(entries[i].0) in t.deps && t.deps[UnderAppRoot(entries[i].0)] == entries[i].1.deps
    decreases |entries|
  {
    var next, rest := SeedEntry(s, entries[0], trust), entries[1..];
    forall a, b | 0 <= a < b < |rest| ensures rest[a].0 != rest[b].0 {
      assert rest[a] == entries[a + 1] && rest[b] == entries[b + 1];
    }
    if i == 0 {
      forall e | e in rest && Seedable(next.disk, e, trust) ensures Target(entries[0].0) != Target(e.0) {
        var k :| 0 <= k < |rest| && rest[k] == e;
        assert e == entries[k + 1];
        TargetsDiffer(entries[0].0, e.0);
      }
      Untouched(next, rest, trust, Target(entries[0].0));
      ChecksAreTheRules(entries[0], trust);
      forall e | e in rest && Seedable(next.disk, e, trust) ensures UnderAppRoot(entries[0].0) != UnderAppRoot(e.0) {
        var k :| 0 <= k < |rest| && rest[k] == e;
        assert e == entries[k + 1];
        ChecksAreTheRules(e, trust);
        RootsDiffer(entries[0].0, e.0);
      }
      DepsUntouched(next, rest, trust, UnderAppRoot(entries[0].0));
      SeededGrows(next, rest, trust);
    } else {
      SameVerdict(s, entries[0], entries[i], trust);
      assert rest[i - 1] == entries[i];
      SeedableIsCopied(next, rest, trust, i - 1);
    }
  }

  lemma {:induction false} SeededGrows(s: Store, entries: Entries, trust: Trust)
    ensures s.seededPaths <= SeedAll(s, entries, trust).seededPaths
    decreases |entries|
  {
    if |entries| > 0 {
      SeededGrows(SeedEntry(s, entries[0], trust), entries[1..], trust);
    }
  }

  /** The rules a seeded entry met. */
  predicate Trusted(e: (string, FileEntry), trust: Trust) {
    && IsAbsolute(e.0) && Ordinary(Split(e.0)[1..])
    && e.0 in trust.manifestShas && trust.manifestShas[e.0] == e.1.srcSha
    && e.0 !in trust.dirtySet
    && e.1.out != "" && !IsAbsolute(e.1.out)
    && Below(ARTIFACT_SEGS, Segments(ArtifactsPrefix() + e.1.out)) && Ordinary(Segments(ArtifactsPrefix() + e.1.out))
  }

  /** An entry passes exactly when it meets every rule, and its dependencies come with it. */
  lemma {:induction false} ChecksAreTheRules(e: (string, FileEntry), trust: Trust)
    ensures Check(e, trust).Ok? <==> Trusted(e, trust)
    ensures Check(e, trust).Ok? ==>
              Check(e, trust).value == Checked(e.0, Normalize(ArtifactsPrefix() + e.1.out), e.1.deps)
  {
    KeyIsPlain(e.0);
    OutIsConfined(e.1.out);
  }

  /** Whatever a run newly seeds comes from an entry that meets every rule. */
  lemma {:induction false} SeededIsTrusted(s: Store, entries: Entries, trust: Trust, p: string)
    requires p in SeedAll(s, entries, trust).seededPaths && p !in s.seededPaths
    ensures exists i :: 0 <= i < |entries| && UnderAppRoot(entries[i].0) == p && Trusted(entries[i], trust)
                        && Seedable(s.disk, entries[i], trust)
    decreases |entries|
  {
    if |entries| > 0 {
      var next, rest := SeedEntry(s, entries[0], trust), entries[1..];
      ChecksAreTheRules(entries[0], trust);
      if p !in next.seededPaths {
        SeededIsTrusted(next, rest, trust, p);
        var i :| 0 <= i < |rest| && UnderAppRoot(rest[i].0) == p && Trusted(rest[i], trust) && Seedable(next.disk, rest[i], trust);
        SameVerdict(s, entries[0], rest[i], trust);
        assert rest[i] == entries[i + 1];
      }
    }
  }
}
