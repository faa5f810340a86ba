/** At which range a batch asks for a package, and what the CDN reads it as. */
module RegistryRequests {
  import opened Wrappers
  import opened Registry
  import opened RegistrySafety
  import opened RegistryRuns
  import opened RegistryContents

  // ---- what the CDN reads ---------------------------------------------------------------------

  function LastAt(s: string): (at: Option<nat>)
    ensures at.Some? ==> at.value < |s| && s[at.value] == '@'
  {
    if s == "" then None
    else
      match LastAt(s[1..])
      case Some(at) => Some(at + 1)
      case None => if s[0] == '@' then Some(0) else None
  }

  predicate Blank(s: string) {
    forall c :: c in s ==> c in " \t\r\n"
  }

  /**
   * `DependencyRequest::new` (crates/sandpack-cdn/src/package/collect_dep_tree.rs): the npm package and
   * the range that a range string of `name` stands for. Blanks around the string, and package
   * names that npm would not accept, are not modelled.
   */
  function ReadRange(name: string, range: string): (string, string) {
    if !("npm:" <= range) then (name, range)
    else
      var target := range[4..];
      match LastAt(target)
      case Some(at) =>
        if at > 0 then (target[..at], if Blank(target[at + 1..]) then "latest" else target[at + 1..]) else (target, "latest")
      case None => (target, "latest")
  }

  lemma {:induction false} LastAtIs(a: string, b: string)
    requires '@' !in b
    ensures LastAt(a + "@" + b) == Some(|a|)
  {
    var s := a + "@" + b;
    if a == "" {
      assert s[1..] == b;
      NoAt(b);
    } else {
      assert s[1..] == a[1..] + "@" + b;
      LastAtIs(a[1..], b);
    }
  }

  lemma {:induction false} NoAt(s: string)
    requires '@' !in s
    ensures LastAt(s) == None
  {
    if s != "" {
      NoAt(s[1..]);
    }
  }

  /** A release as npm publishes them. */
  predicate Published(r: Release) {
    r.name != "" && !Blank(r.version) && '@' !in r.version && !("npm:" <= r.version)
  }

  /** A release's exact range, spelt for the install name `name`, reads back as the release. */
  lemma ExactReadsBack(name: string, r: Release)
    requires Published(r)
    ensures ReadRange(name, if r.name == name then r.version else "npm:" + r.name + "@" + r.version) == (r.name, r.version)
  {
    if r.name != name {
      var range := "npm:" + r.name + "@" + r.version;
      assert range[4..] == r.name + "@" + r.version;
      LastAtIs(r.name, r.version);
      assert range[4..][..|r.name|] == r.name && range[4..][|r.name| + 1..] == r.version;
    }
  }

  // ---- what a batch asks ------------------------------------------------------------------------

  /** The range a batch asks a package for, in a registry where these are installed, fallbacks and declared. */
  ghost predicate AskedAt(modules: map<string, NodeModule>, fallbacks: map<string, string>, declared: map<string, string>,
                          name: string, range: string)
  {
    if name !in modules then
      range == if name in declared then declared[name] else ""
    else if name in fallbacks || modules[name].release.None? then
      range == modules[name].version
    else
      var r := modules[name].release.value;
      range == if r.name == name then r.version else "npm:" + r.name + "@" + r.version
  }

  /**
   * Each package of a request is asked for at its installed release, or at the installed version where that
   * has no release of its own, or at its declared range where it is not installed.
   */
  lemma {:induction false} RequestRanges(c: Core, imports: Imports, p: (string, (string, set<string>)))
    requires p in RequestOf(c, imports)
    ensures AskedAt(c.modules, c.fallbacks, c.declared, p.0, p.1.0)
  {
    OneMoreAsked(c, imports);
    if p in RequestOf(c, imports[1..]) {
      RequestRanges(c, imports[1..], p);
    }
  }

  /** An installed package is asked for at exactly its release: the CDN reads the range back as that. */
  lemma RequestReadsBack(c: Core, imports: Imports, p: (string, (string, set<string>)))
    requires p in RequestOf(c, imports) && p.0 in c.modules && p.0 !in c.fallbacks
    requires c.modules[p.0].release.Some? && Published(c.modules[p.0].release.value)
    ensures ReadRange(p.0, p.1.0) == (c.modules[p.0].release.value.name, c.modules[p.0].release.value.version)
  {
    RequestRanges(c, imports, p);
    ExactReadsBack(p.0, c.modules[p.0].release.value);
  }

  /** What is declared has no say in what is asked for an installed package. */
  lemma {:induction false} DeclaredIsIgnored(c: Core, declared: map<string, string>, imports: Imports, p: (string, (string, set<string>)))
    requires p.0 in c.modules
    ensures p in RequestOf(c.(declared := declared), imports) <==> p in RequestOf(c, imports)
  {
    if |imports| > 0 {
      DeclaredIsIgnored(c, declared, imports[1..], p);
    }
  }

  /**
   * In every run a committed package is always asked for at the release it was committed with, through
   * all later batches, failures and edits of what is declared.
   */
  lemma CommittedRange(trace: seq<State>, labels: seq<Label>, j: nat, k: nat, imports: Imports, p: (string, (string, set<string>)))
    requires Run(trace, labels) && j <= k < |trace|
    requires p.0 in Committed(trace[j]) && p in RequestOf(trace[k].core, imports)
    ensures p.0 in trace[j].core.modules
    ensures AskedAt(trace[j].core.modules, trace[j].core.fallbacks, trace[j].core.declared, p.0, p.1.0)
  {
    CommittedStays(trace, labels, j, k, p.0);
    RequestRanges(trace[k].core, imports, p);
  }

  // ---- what a batch does with the answer --------------------------------------------------------------

  /** A batch whose imports are all loaded asks for nothing: it ends at once and changes nothing. */
  lemma LoadedBatchEnds(s: State, i: nat)
    requires Inv(s) && CanStart(s, i)
    requires forall name :: Lacking(s.core, s.batches[i].imports, name) == {}
    ensures var t := Next(s, DoStart(i));
            t.batches[i].Ending? && t.body == NoBody && t.core == s.core
  {
    NoBodyAtStart(s, i);
    var request := RequestOf(s.core, s.batches[i].imports);
    forall name ensures name !in Firsts(request) {
      RequestNames(s.core, s.batches[i].imports, name);
    }
    assert request != [] ==> request[0] in request && request[0].0 in Firsts(request);
  }

  lemma {:induction false} FallbackRange(c: Core, resolved: set<string>, request: Request, k: nat)
    requires DistinctFirsts(request) && k < |request| && request[k].0 !in resolved
    ensures request[k].0 in RegisterFallbacks(c, resolved, request).fallbacks
    ensures RegisterFallbacks(c, resolved, request).fallbacks[request[k].0] == request[k].1.0
    decreases |request|
  {
    var (name, (range, _)) := request[0];
    var more := if name in resolved then c
                else c.(fallbacks := c.fallbacks[name := range], manifest := c.manifest + [Dep(name, range, name, {})]);
    FirstsUncons(request);
    if k > 0 {
      FallbackRange(more, resolved, request[1..], k - 1);
    } else {
      OthersLeave(more, resolved, request[1..], name);
    }
  }

  lemma {:induction false} OthersLeave(c: Core, resolved: set<string>, request: Request, name: string)
    requires name in c.fallbacks && name !in Firsts(request)
    ensures name in RegisterFallbacks(c, resolved, request).fallbacks
    ensures RegisterFallbacks(c, resolved, request).fallbacks[name] == c.fallbacks[name]
    decreases |request|
  {
    if |request| > 0 {
      FirstsUncons(request);
      var (other, (range, _)) := request[0];
      OthersLeave(if other in resolved then c
                  else c.(fallbacks := c.fallbacks[other := range], manifest := c.manifest + [Dep(other, range, other, {})]),
                  resolved, request[1..], name);
    }
  }

  /**
   * A requested package that neither the tree lists nor the manifest knows becomes a fallback, at the
   * range it was requested at, where fallbacks are enabled; otherwise the batch rejects.
   */
  lemma DroppedName(s: State, i: nat, deps: seq<Dep>, k: nat)
    requires Inv(s) && Enabled(s, DoTree(i, deps)) && k < |s.body.request|
    requires s.body.request[k].0 !in Names(s.core.manifest) && s.body.request[k].0 !in Names(deps)
    ensures var name, t := s.body.request[k].0, TreeArrives(s, i, deps);
            if s.core.fallbackEnabled then
              var core := Merged(s.core, deps, s.body.request);
              name in core.fallbacks && core.fallbacks[name] == s.body.request[k].1.0 && (t.body != NoBody ==> t.core.fallbacks == core.fallbacks)
            else t.body == NoBody
  {
    ManifestGrows(s.core.manifest, deps);
    if s.core.fallbackEnabled {
      var merged := s.core.(manifest := s.core.manifest + Unknown(Names(s.core.manifest), deps));
      FallbackRange(merged, Names(merged.manifest), s.body.request, k);
      StartsKeepModules(s.(core := Merged(s.core, deps, s.body.request)), map[], TreeDeps(s, deps));
    }
  }

  /** A download that is no fallback's registers its package at exactly the release the tree listed. */
  lemma DownloadedRelease(s: State, id: nat, installed: NodeModule)
    requires Inv(s) && Enabled(s, DoFulfil(id, installed)) && Live(s, id) && !s.flights[id].fallback
    ensures var key, t := s.flights[id].key, Next(s, DoFulfil(id, installed));
            && key.name in t.core.modules
            && t.core.modules[key.name].release == Some(Release(key.source, key.version))
            && t.core.modules[key.name].entries == s.flights[id].entries
  {
  }

  /** A package of unknown origin takes its entries at once, and keeps no batch waiting. */
  lemma UnknownOriginIsWhole(s: State, dep: Dep, e: string)
    requires CanExpand(s, dep) && s.core.modules[dep.n].release.None? && e in EntriesOf(dep)
    ensures var t := ExpandDep(s, dep);
            && e in t.core.modules[dep.n].entries && t.body.pending == s.body.pending
            && t.core.expansions == s.core.expansions
  {
  }
}
