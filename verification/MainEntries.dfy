/**
 * What the full resolver answers for a relative import, written out: the main entry of a package.json
 * at the joined path, else the path's own file, else its index, and once more with `/index`.
 */
module MainEntries {
  import opened Wrappers
  import opened Paths
  import opened PackageJson
  import opened Resolver
  import opened Specifiers

  /** Where the nearest package.json sends `path`, if anywhere else. */
  function Redirect(disk: Disk, path: string): Option<string> {
    var aliases := FindPackageJSON(disk, path);
    if Direct(aliases, path) && aliases[path] != path then Some(aliases[path]) else None
  }

  /** The first extension of `path` that is a file. */
  function FileAt(disk: Disk, path: string, exts: seq<string>): Option<string> {
    if |exts| == 0 then None
    else if IsFile(disk, path + exts[0]) then Some(path + exts[0])
    else FileAt(disk, path, exts[1..])
  }

  /** An exact file, or the exact file that the main entries met from `path` on lead to. */
  function Chase(disk: Disk, path: string, count: nat): Result<Option<string>, Failure>
    decreases 6 - count
  {
    if count > 5 then Err(CyclicAlias)
    else
      match Redirect(disk, path)
      case Some(target) => Chase(disk, target, count + 1)
      case None => Ok(if IsFile(disk, path) then Some(path) else None)
  }

  /** A path with its extensions; a main entry at the path itself comes first. */
  function Expansion(disk: Disk, path: string, exts: seq<string>): Result<Option<string>, Failure>
    requires |exts| > 0
  {
    match Redirect(disk, path)
    case None => Ok(FileAt(disk, path, exts))
    case Some(target) =>
      match Chase(disk, target, 1)
      case Ok(None) => Ok(FileAt(disk, path, exts[1..]))
      case found => found
  }

  function Probed(disk: Disk, path: string, exts: seq<string>): Result<Option<string>, Failure>
    requires |exts| > 0
  {
    match Expansion(disk, path, exts)
    case Ok(None) => Expansion(disk, Join2(path, "index"), exts)
    case found => found
  }

  /** The module path: where the main entry at the joined path leads, or the joined path. */
  function Entered(disk: Disk, base: string): string {
    match Redirect(disk, base) case Some(target) => target case None => base
  }

  function Answer(disk: Disk, base: string, exts: seq<string>, retry: bool): Result<string, Failure>
    requires |exts| > 0
    decreases retry
  {
    match Probed(disk, Entered(disk, base), exts)
    case Err(error) => Err(error)
    case Ok(Some(found)) => Ok(found)
    case Ok(None) =>
      if !retry then Err(NotFound)
      else match Answer(disk, Join2(base, "index"), exts, false) case Ok(found) => Ok(found) case Err(_) => Err(NotFound)
  }

  // ---- where this is what the resolver does ------------------------------------------------

  /** The package.json that applies to `path` moves none of its extensions, and the path itself only to its redirect. */
  predicate Mild(disk: Disk, path: string, exts: seq<string>) {
    forall i :: 0 <= i < |exts| ==>
      ResolveAlias(disk, FindPackageJSON(disk, path), path + exts[i]) ==
      Ok(if exts[i] == "" && Redirect(disk, path).Some? then Redirect(disk, path).value else path + exts[i])
  }

  predicate MildChain(disk: Disk, path: string, count: nat)
    decreases 6 - count
  {
    count <= 5 ==>
      Mild(disk, path, [""]) && (Redirect(disk, path).Some? ==> MildChain(disk, Redirect(disk, path).value, count + 1))
  }

  predicate MildExpansion(disk: Disk, path: string, exts: seq<string>) {
    Mild(disk, path, exts) && (Redirect(disk, path).Some? ==> MildChain(disk, Redirect(disk, path).value, 1))
  }

  predicate MildProbe(disk: Disk, path: string, exts: seq<string>)
    requires |exts| > 0
  {
    && IsAbsolute(path) && MildExpansion(disk, path, exts)
    && (Expansion(disk, path, exts) == Ok(None) ==> MildExpansion(disk, Join2(path, "index"), exts))
  }

  /** Every path consulted on the way is mild, and every main entry names an absolute path. */
  predicate Regular(disk: Disk, base: string, exts: seq<string>, retry: bool)
    requires |exts| > 0
    decreases retry
  {
    && Mild(disk, base, [""]) && MildProbe(disk, Entered(disk, base), exts)
    && (retry && Probed(disk, Entered(disk, base), exts) == Ok(None) ==> Regular(disk, Join2(base, "index"), exts, false))
  }

  lemma {:induction false} ChaseIs(disk: Disk, path: string, count: nat)
    requires MildChain(disk, path, count)
    ensures ExpandFile(disk, path, [""], count) == Chase(disk, path, count)
    decreases 6 - count
  {
    if count <= 5 {
      var aliases := FindPackageJSON(disk, path);
      assert path + [""][0] == path;
      assert ExpandWith(disk, aliases, path, [""][1..], count) == Ok(None);
      if Redirect(disk, path).Some? {
        ChaseIs(disk, Redirect(disk, path).value, count + 1);
      }
      assert Candidate(disk, aliases, path, count) == Chase(disk, path, count);
    }
  }

  /** Extensions that no alias moves are looked up as files. */
  lemma {:induction false} PlainExtensions(disk: Disk, aliases: Aliases, path: string, exts: seq<string>)
    requires forall i :: 0 <= i < |exts| ==> ResolveAlias(disk, aliases, path + exts[i]) == Ok(path + exts[i])
    ensures ExpandWith(disk, aliases, path, exts, 0) == Ok(FileAt(disk, path, exts))
    decreases |exts|
  {
    if |exts| > 0 {
      assert forall i :: 0 <= i < |exts[1..]| ==> exts[1..][i] == exts[i + 1];
      PlainExtensions(disk, aliases, path, exts[1..]);
    }
  }

  lemma {:induction false} ExpansionIs(disk: Disk, path: string, exts: seq<string>)
    requires ExactOnce(exts) && MildExpansion(disk, path, exts)
    ensures ExpandFile(disk, path, exts, 0) == Expansion(disk, path, exts)
  {
    var aliases := FindPackageJSON(disk, path);
    if Redirect(disk, path).None? {
      PlainExtensions(disk, aliases, path, exts);
    } else {
      var target := Redirect(disk, path).value;
      ChaseIs(disk, target, 1);
      assert forall i :: 0 <= i < |exts[1..]| ==> exts[1..][i] == exts[i + 1];
      PlainExtensions(disk, aliases, path, exts[1..]);
      assert Candidate(disk, aliases, path + exts[0], 0) == ExpandFile(disk, target, [""], 1);
    }
  }

  lemma {:induction false} ProbedIs(disk: Disk, path: string, exts: seq<string>)
    requires ExactOnce(exts) && MildProbe(disk, path, exts)
    ensures Probe(disk, path, exts) == Probed(disk, path, exts)
  {
    ExpansionIs(disk, path, exts);
    if Expansion(disk, path, exts) == Ok(None) {
      ExpansionIs(disk, Join2(path, "index"), exts);
    }
  }

  /** The module path of a relative import. */
  lemma {:induction false} EnteredIs(disk: Disk, specifier: string, filename: string)
    requires IsAbsolute(filename) && Plain(specifier) && "." <= specifier && Mild(disk, Joined(specifier, filename), [""])
    ensures ResolveModule(disk, NormalizeModuleSpecifier(specifier), filename) == Ok(Entered(disk, Joined(specifier, filename)))
  {
    var base := Joined(specifier, filename);
    ModulePath(disk, specifier, filename);
    assert base + [""][0] == base;
  }

  /** The full resolver answers what is written out above, for every regular relative import. */
  lemma {:induction false} FullIsAnswer(disk: Disk, specifier: string, filename: string, extensions: seq<string>)
    requires IsAbsolute(filename) && Plain(specifier) && "." <= specifier
    requires Regular(disk, Joined(specifier, filename), Extensions(extensions), !EndsInIndex(specifier))
    ensures Resolution(disk, specifier, filename, extensions) ==
            Answer(disk, Joined(specifier, filename), Extensions(extensions), !EndsInIndex(specifier))
    decreases !EndsInIndex(specifier)
  {
    var base, exts := Joined(specifier, filename), Extensions(extensions);
    ExtensionsExactOnce(extensions);
    EnteredIs(disk, specifier, filename);
    ProbedIs(disk, Entered(disk, base), exts);
    if Probed(disk, Entered(disk, base), exts) == Ok(None) && !EndsInIndex(specifier) {
      JoinedIndex(specifier, filename);
      RetryEndsInIndex(specifier);
      ExtensionsTwice(extensions);
      FullIsAnswer(disk, specifier + "/index", filename, exts);
    }
  }
}
