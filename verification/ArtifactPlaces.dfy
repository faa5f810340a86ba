/** Where the artifact store reads and writes, and whose artifacts it takes. */
module ArtifactPlaces {
  import opened Wrappers
  import opened Strings
  import opened Paths
  import opened Artifacts

  /** Artifacts are read below `/app`, and a module's goes to `/transpiled`, under its path with `.js` behind it. */
  lemma Places(path: string)
    ensures UnderAppRoot("/" + path) == "/app/" + path && UnderAppRoot(path) == if "/" <= path then "/app" + path else "/app/" + path
    ensures Source(path) == "/app/" + path
    ensures Target("/" + path) == "/transpiled/" + path + ".js"
  {
    var slash :| slash == "/";
    Regroup("/app", slash, path);
    Regroup("/transpiled", slash, path);
    Regroup("/transpiled", slash + path, ".js");
    Regroup("/transpiled/", path, ".js");
  }

  /** The three ways a sidecar may spell a path mean the same one. */
  lemma SpellingsAgree(path: string)
    requires path != "" && path[0] != '/' && !("./" <= path)
    ensures Absolute("/" + path) == Absolute("./" + path) == Absolute(path) == "/" + path
  {
    var s := "./" + path;
    assert s[0] == '.' && s[1..] == "/" + path;
  }

  /** An index counts if it can be read and parsed and was made by this very toolchain. */
  lemma IndexCounts(disk: map<string, string>, parse: string -> Option<Index>, embedded: Toolchain, index: Index, file: string)
    requires file == "/app" + ("/" + ".tinkerable/artifacts" + "/index.json")
    ensures UsableIndex(disk, parse, embedded) == Some(index) <==>
            file in disk && parse(disk[file]) == Some(index) && index.toolchain == embedded
  {
    IndexFile(file);
  }

  lemma BelowApp(path: string)
    requires "/" <= path
    ensures UnderAppRoot(path) == "/app" + path
  {
  }

  lemma IndexFile(file: string)
    requires file == "/app" + ("/" + ".tinkerable/artifacts" + "/index.json")
    ensures UnderAppRoot(INDEX_REPO_PATH) == file
  {
    BelowApp(INDEX_REPO_PATH);
  }

  /** Artifacts of another version of the toolchain, or another build of it, are not seeded. */
  lemma OtherToolchainIsRefused(disk: map<string, string>, parse: string -> Option<Index>, embedded: Toolchain, file: string)
    requires file == "/app" + ("/" + ".tinkerable/artifacts" + "/index.json") && file in disk && parse(disk[file]).Some?
    requires var made := parse(disk[file]).value.toolchain;
             made.version != embedded.version || made.toolchainHash != embedded.toolchainHash
    ensures UsableIndex(disk, parse, embedded) == None
  {
    IndexFile(file);
  }

  /** The manifest's blobs are those of the sidecar, and none if it cannot be read or parsed. */
  lemma SidecarCounts(disk: map<string, string>, parse: string -> Option<seq<(string, string)>>, file: string)
    requires file == "/app" + "/.tinkerable/contribute-manifest.json"
    ensures ReadShas(disk, parse) ==
            if file in disk && parse(disk[file]).Some? then AddShas(map[], parse(disk[file]).value) else map[]
  {
    SidecarFile(file);
  }

  lemma SidecarFile(file: string)
    requires file == "/app" + "/.tinkerable/contribute-manifest.json"
    ensures UnderAppRoot(MANIFEST_SIDECAR_PATH) == file
  {
    BelowApp(MANIFEST_SIDECAR_PATH);
  }

  /** One layer decides for all: a single input in the writable layer refuses the whole section. */
  lemma OneWritableInputRefuses(entries: Entries, layer: set<string>, e: (string, FileEntry))
    requires e in entries && OutWithinArtifacts(e.1.out).Some? && "/" + OutWithinArtifacts(e.1.out).value in layer
    ensures !ReadableLayerOnly(SeedingInputs(entries), layer)
  {
    OutputsAre(entries, "/" + OutWithinArtifacts(e.1.out).value);
  }

  /** A refused entry is refused for the first rule it breaks: path, manifest, confinement, edits, blob. */
  lemma RefusedFor(e: (string, FileEntry), trust: Trust)
    ensures Check(e, trust) == Err(BadPath) <==> !(IsAbsolute(e.0) && Ordinary(Split(e.0)[1..]))
    ensures Check(e, trust) == Err(NotInManifest) <==> IsAbsolute(e.0) && Ordinary(Split(e.0)[1..]) && e.0 !in trust.manifestShas
    ensures Check(e, trust) == Err(OutEscapesArtifacts) <==>
            IsAbsolute(e.0) && Ordinary(Split(e.0)[1..]) && e.0 in trust.manifestShas && OutWithinArtifacts(e.1.out).None?
    ensures Check(e, trust) == Err(Dirty) ==> e.0 in trust.dirtySet
    ensures Check(e, trust) == Err(SrcShaMismatch) ==> e.0 !in trust.dirtySet && e.1.srcSha != trust.manifestShas[e.0]
  {
    KeyIsPlain(e.0);
  }
}
