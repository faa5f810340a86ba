/** What installed packages hold, whatever interleaves: their releases' files, never less. */
module RegistryContents {
  import opened Wrappers
  import opened Registry
  import opened RegistrySafety
  import opened RegistryRuns
  import P = ModuleParts
  import E = EntryClosures

  /**
   * What is known of the answers: nothing, or that the CDN and the bundled zip serve from the processed
   * package of each release.
   */
  datatype World = Anything | Serving(package: Release -> E.Package)

  /** A one-shot install of the recorded entries, or a bundled package, which is inlined whole. */
  ghost predicate Served(world: World, m: NodeModule) {
    world.Serving? ==>
      && m.release.Some?
      && var pkg := world.package(m.release.value);
         m.content == P.Installed(pkg, m.entries) || m.content.f == pkg.files
  }

  /** The step's payload, if it has one, is what the world answers; fallbacks come from elsewhere. */
  ghost predicate Honest(world: World, s: State, l: Label)
    requires Enabled(s, l)
  {
    match l
    case DoFulfil(id, installed) => s.flights[id].fallback || Served(world, installed)
    case DoExpanded(name, entry, part) =>
      world.Serving? ==> part == P.FetchModuleEntries(world.package(s.core.expansions[(name, entry)].release), [entry])
    case _ => true
  }

  /** A run in the world, from a boot that installed from it. */
  ghost predicate HonestRun(world: World, trace: seq<State>, labels: seq<Label>) {
    && Run(trace, labels)
    && (forall n :: n in trace[0].core.modules && n !in trace[0].core.fallbacks ==> Served(world, trace[0].core.modules[n]))
    && (forall k :: 0 <= k < |labels| ==> Honest(world, trace[k], labels[k]))
  }

  // ---- objects --------------------------------------------------------------------------

  /** Object `id` exists: its download is past its `then`. */
  predicate Made(s: State, id: nat) {
    id < s.nextId && !FetchingAt(s, id)
  }

  /** An expansion works on an object that exists, and fetches from that object's release. */
  ghost predicate ExpansionOk(s: State, key: (string, string))
    requires key in s.core.expansions
  {
    var x := s.core.expansions[key];
    && Made(s, x.obj)
    && (key.0 in s.core.modules && s.core.modules[key.0].id == x.obj ==> s.core.modules[key.0].release == Some(x.release))
  }

  ghost predicate ObjectsOk(s: State) {
    && (forall n :: n in s.core.modules ==> Made(s, s.core.modules[n].id))
    && (forall key :: key in s.core.expansions ==> ExpansionOk(s, key))
  }

  /** Live downloads know whether they are fallbacks, and the snapshot's fallbacks are still those of its packages. */
  ghost predicate FallbacksOk(s: State) {
    && (forall id: nat :: Live(s, id) ==> (s.flights[id].fallback <==> s.flights[id].key.name in s.core.fallbacks))
    && match s.body
       case NoBody => true
       case Resolving(_) => true
       case _ => s.core.fallbacks.Keys * s.body.before.names == s.body.before.fallbacks.Keys
  }

  ghost predicate ServedOk(world: World, c: Core) {
    forall n :: n in c.modules && n !in c.fallbacks ==> Served(world, c.modules[n])
  }

  ghost predicate ContentsOk(world: World, s: State) {
    ObjectsOk(s) && FallbacksOk(s) && ServedOk(world, s.core)
  }

  // ---- one more entry ------------------------------------------------------------------------

  lemma OnePart(pkg: E.Package, entry: string)
    ensures var part := P.FetchModuleEntries(pkg, [entry]);
            forall path :: path in part.f ==> path in pkg.files && part.f[path] == pkg.files[path] && part.f[path].File?
  {
    assert P.Responses(pkg, [entry]) == [P.EntryModule(pkg, entry)];
    P.MergeOne(P.NOTHING, P.EntryModule(pkg, entry));
  }

  /** Expanding a served package serves one more entry, and changes no inlined file. */
  lemma ExpandServed(world: World, m: NodeModule, entry: string, part: P.Part)
    requires world.Serving? && Served(world, m) && part == P.FetchModuleEntries(world.package(m.release.value), [entry])
    ensures var content := P.Merge(m.content, [part]);
            Served(world, m.(content := content, entries := m.entries + {entry})) && Keeps(m.content, content)
  {
    var pkg := world.package(m.release.value);
    OnePart(pkg, entry);
    if m.content == P.Installed(pkg, m.entries) {
      P.ExpandOne(pkg, m.entries, entry);
    }
    OverlayKeeps(pkg, m, part);
  }

  lemma OverlayKeeps(pkg: E.Package, m: NodeModule, part: P.Part)
    requires m.content == P.Installed(pkg, m.entries) || m.content.f == pkg.files
    requires forall path :: path in part.f ==> path in pkg.files && part.f[path] == pkg.files[path] && part.f[path].File?
    ensures var content := P.Merge(m.content, [part]);
            Keeps(m.content, content) && (m.content.f == pkg.files ==> content.f == pkg.files)
  {
    P.MergeOne(m.content, part);
  }

  /** The same files; a listed one may have been inlined, everything else is as it was. */
  ghost predicate Keeps(a: P.Part, b: P.Part) {
    && a.f.Keys == b.f.Keys && a.m <= b.m
    && forall path :: path in a.f ==> b.f[path] == a.f[path] || (!a.f[path].File? && b.f[path].File?)
  }

  // ---- what steps keep --------------------------------------------------------------------------

  /** A step that leaves the objects, the expansions and the fallbacks alone. */
  ghost predicate SameObjects(s: State, t: State) {
    && t.core.modules == s.core.modules && t.core.expansions == s.core.expansions && t.core.fallbacks == s.core.fallbacks
    && s.nextId <= t.nextId
    && (forall id: nat :: FetchingAt(t, id) ==> FetchingAt(s, id) || id >= s.nextId)
    && (forall id: nat :: Live(t, id) ==> Live(s, id) && t.flights[id].fallback == s.flights[id].fallback && t.flights[id].key == s.flights[id].key)
  }

  predicate SameSnapshot(s: State, t: State) {
    match t.body
    case NoBody => true
    case Resolving(_) => true
    case _ => (s.body.Installing? || s.body.Closing? || s.body.Linking?) && t.body.before == s.body.before
  }

  lemma ContentsFrame(world: World, s: State, t: State)
    requires ContentsOk(world, s) && SameObjects(s, t) && SameSnapshot(s, t)
    ensures ContentsOk(world, t)
  {
    forall key | key in t.core.expansions ensures ExpansionOk(t, key) {
      assert ExpansionOk(s, key);
    }
  }

  lemma ContentsFulfil(world: World, s: State, id: nat, installed: NodeModule)
    requires Inv(s) && ContentsOk(world, s)
    requires Enabled(s, DoFulfil(id, installed)) && Honest(world, s, DoFulfil(id, installed))
    ensures ContentsOk(world, FlightFulfilled(s, id, installed))
  {
    var t := FlightFulfilled(s, id, installed);
    forall key | key in t.core.expansions ensures ExpansionOk(t, key) {
      assert ExpansionOk(s, key);
    }
    forall n | n in t.core.modules ensures Made(t, t.core.modules[n].id) {
    }
  }

  lemma ContentsExpand(world: World, s: State, dep: Dep)
    requires ContentsOk(world, s) && CanExpand(s, dep)
    ensures ContentsOk(world, ExpandDep(s, dep))
  {
    var t := ExpandDep(s, dep);
    forall key | key in t.core.expansions ensures ExpansionOk(t, key) {
      if key in s.core.expansions { assert ExpansionOk(s, key); }
    }
    forall n | n in t.core.modules && n !in t.core.fallbacks ensures Served(world, t.core.modules[n]) {
      assert Served(world, s.core.modules[n]);
    }
  }

  /** What a finished expansion changes: at most the content and entries of its own object. */
  lemma ExpandedIs(c: Core, name: string, entry: string, part: P.Part)
    requires (name, entry) in c.expansions
    ensures var d := Expanded(c, name, entry, part);
            && d == c.(modules := d.modules, expansions := c.expansions - {(name, entry)})
            && d.modules.Keys == c.modules.Keys
            && (forall n :: n in c.modules && n != name ==> d.modules[n] == c.modules[n])
            && (name in c.modules && c.modules[name].id == c.expansions[(name, entry)].obj ==>
                  d.modules[name] == Grown(c.modules[name], entry, part))
            && (name in c.modules && c.modules[name].id != c.expansions[(name, entry)].obj ==> d.modules[name] == c.modules[name])
  {
  }

  function Grown(m: NodeModule, entry: string, part: P.Part): NodeModule {
    m.(content := P.Merge(m.content, [part]), entries := m.entries + {entry})
  }

  lemma ServedExpanded(world: World, s: State, name: string, entry: string, part: P.Part)
    requires ServedOk(world, s.core) && (name, entry) in s.core.expansions && ExpansionOk(s, (name, entry))
    requires world.Serving? ==> part == P.FetchModuleEntries(world.package(s.core.expansions[(name, entry)].release), [entry])
    ensures ServedOk(world, Expanded(s.core, name, entry, part))
    ensures world.Serving? && name in s.core.modules && name !in s.core.fallbacks ==>
              Keeps(s.core.modules[name].content, Expanded(s.core, name, entry, part).modules[name].content)
  {
    ExpandedIs(s.core, name, entry, part);
    if world.Serving? && name in s.core.modules && name !in s.core.fallbacks && s.core.modules[name].id == s.core.expansions[(name, entry)].obj {
      ExpandServed(world, s.core.modules[name], entry, part);
    }
  }

  lemma ContentsExpanded(world: World, s: State, name: string, entry: string, part: P.Part)
    requires ContentsOk(world, s)
    requires Enabled(s, DoExpanded(name, entry, part)) && Honest(world, s, DoExpanded(name, entry, part))
    ensures ContentsOk(world, ExpansionArrives(s, name, entry, part))
  {
    ServedExpanded(world, s, name, entry, part);
    ExpandedIs(s.core, name, entry, part);
    ObjectsFrame(s, ExpansionArrives(s, name, entry, part));
  }

  /** A step that ends expansions and keeps every object's identity and release. */
  lemma ObjectsFrame(s: State, t: State)
    requires ObjectsOk(s) && FallbacksOk(s) && SameSnapshot(s, t)
    requires t.flights == s.flights && t.nextId == s.nextId && t.core.cancelled == s.core.cancelled && t.core.fallbacks == s.core.fallbacks
    requires t.core.modules.Keys == s.core.modules.Keys
    requires forall n :: n in s.core.modules ==>
               t.core.modules[n].id == s.core.modules[n].id && t.core.modules[n].release == s.core.modules[n].release
    requires forall key :: key in t.core.expansions ==> key in s.core.expansions && t.core.expansions[key] == s.core.expansions[key]
    ensures ObjectsOk(t) && FallbacksOk(t)
  {
    forall key | key in t.core.expansions ensures ExpansionOk(t, key) {
      assert ExpansionOk(s, key);
    }
    assert forall id: nat :: Live(t, id) == Live(s, id);
  }

  lemma ContentsFail(world: World, s: State, i: nat, before: Snapshot)
    requires ContentsOk(world, s) && FlightsOk(s, Waits(s)) && ActiveAt(s, i)
    requires s.core.fallbacks.Keys * before.names <= before.fallbacks.Keys
    ensures ContentsOk(world, Fail(s, i, before))
  {
    var t := Fail(s, i, before);
    RollbackFlights(s, Waits(s), before);
    forall key | key in t.core.expansions ensures ExpansionOk(t, key) {
      assert ExpansionOk(s, key);
    }
  }

  /** What starting downloads adds: fresh flights, which know whether they are fallbacks. */
  lemma {:induction false} StartsFlights(s: State, waits: map<nat, string>, deps: seq<Dep>)
    requires forall id :: id in s.flights ==> id < s.nextId
    ensures var t := StartInstalls(s, waits, deps).0;
            && t.core == s.core.(downloads := t.core.downloads) && s.nextId <= t.nextId
            && (forall id :: id in t.flights ==> id < t.nextId)
            && (forall id :: id in t.flights && id < s.nextId ==> id in s.flights && t.flights[id] == s.flights[id])
            && (forall id :: id in t.flights && s.nextId <= id ==>
                  (t.flights[id].fallback <==> t.flights[id].key.name in s.core.fallbacks))
    decreases |deps|
  {
    if |deps| > 0 {
      var (t, more) := StartInstall(s, waits, deps[0]);
      StartsFlights(t, more, deps[1..]);
    }
  }

  lemma NoneLive(s: State)
    requires FlightsOk(s, map[])
    ensures forall id: nat :: !Live(s, id)
  {
  }

  lemma ContentsLaunch(world: World, s: State, core: Core, deps: seq<Dep>, before: Snapshot)
    requires ContentsOk(world, s) && FlightsOk(s, map[])
    requires core == s.core.(manifest := core.manifest, fallbacks := core.fallbacks)
    requires s.core.fallbacks.Keys <= core.fallbacks.Keys
    requires core.fallbacks.Keys * before.names == before.fallbacks.Keys
    ensures ContentsOk(world, Launch(s, core, deps, before))
  {
    var t := Launch(s, core, deps, before);
    StartsFlights(s.(core := core), map[], deps);
    NoneLive(s);
    assert forall id: nat :: Live(t, id) && id < s.nextId ==> Live(s, id);
    forall n | n in t.core.modules ensures Made(t, t.core.modules[n].id) {
      assert Made(s, s.core.modules[n].id);
    }
    forall key | key in t.core.expansions ensures ExpansionOk(t, key) {
      assert ExpansionOk(s, key);
    }
  }

  lemma ContentsTree(world: World, s: State, i: nat, deps: seq<Dep>)
    requires Inv(s) && ContentsOk(world, s) && Enabled(s, DoTree(i, deps))
    ensures ContentsOk(world, TreeArrives(s, i, deps))
  {
    var core := Merged(s.core, deps, s.body.request);
    MergedIs(s.core, deps, s.body.request);
    if AllResolved(core, s.body.request) {
      ContentsLaunch(world, s, core, TreeDeps(s, deps), Take(s.core));
    } else {
      TreeFailIsFail(s, i, core);
      ContentsFail(world, s, i, Take(s.core));
      ContentsFrame(world, Fail(s, i, Take(s.core)), TreeArrives(s, i, deps));
    }
  }

  /** A tree that leaves a request open is rolled back as if it had never come. */
  lemma TreeFailIsFail(s: State, i: nat, core: Core)
    requires ActiveAt(s, i) && core == s.core.(manifest := core.manifest, fallbacks := core.fallbacks)
    ensures Fail(s.(core := core), i, Take(s.core)) == Fail(s, i, Take(s.core))
  {
  }

  lemma ContentsClosure(world: World, s: State, i: nat, extra: seq<Dep>)
    requires Inv(s) && ContentsOk(world, s) && Enabled(s, DoClosure(i, extra))
    ensures ContentsOk(world, ClosureArrives(s, i, extra))
  {
    if extra == [] {
      ContentsFrame(world, s, ClosureArrives(s, i, extra));
    } else {
      ContentsLaunch(world, s, ClosureCore(s, extra), extra, s.body.before);
    }
  }

  lemma ContentsStep(world: World, s: State, l: Label)
    requires Inv(s) && ContentsOk(world, s) && Enabled(s, l) && Honest(world, s, l)
    ensures ContentsOk(world, Next(s, l))
  {
    match l
    case DoFulfil(id, installed) => ContentsFulfil(world, s, id, installed);
    case DoExpand(_, dep) => ContentsExpand(world, s, dep);
    case DoExpanded(name, entry, part) => ContentsExpanded(world, s, name, entry, part);
    case DoExpandFails(name, entry) => ContentsDrop(world, s, name, entry);
    case DoTree(i, deps) => ContentsTree(world, s, i, deps);
    case DoClosure(i, deps) => ContentsClosure(world, s, i, deps);
    case DoFail(i) => ContentsFail(world, s, i, s.body.before);
    case _ => ContentsOther(world, s, l);
  }

  /** Steps that touch neither objects nor expansions nor fallbacks. */
  predicate Plain(l: Label) {
    !l.DoFulfil? && !l.DoExpand? && !l.DoExpanded? && !l.DoExpandFails? && !l.DoTree? && !l.DoClosure? && !l.DoFail?
  }

  lemma ContentsOther(world: World, s: State, l: Label)
    requires ContentsOk(world, s) && Enabled(s, l) && Plain(l)
    ensures ContentsOk(world, Next(s, l))
  {
    PlainStep(s, l);
    ContentsFrame(world, s, Next(s, l));
  }

  lemma PlainStep(s: State, l: Label)
    requires Enabled(s, l) && Plain(l)
    ensures SameObjects(s, Next(s, l)) && SameSnapshot(s, Next(s, l))
  {
    match l
    case DoReject(id) => RejectObjects(s, id);
    case DoSettle(id) => SettleObjects(s, id);
    case DoInstalled(_) => ClosesObjects(s);
    case _ =>
  }

  lemma ClosesObjects(s: State)
    requires s.body.Installing?
    ensures SameObjects(s, CloseOver(s)) && SameSnapshot(s, CloseOver(s))
  {
  }

  lemma RejectObjects(s: State, id: nat)
    requires FetchingAt(s, id)
    ensures SameObjects(s, FlightRejected(s, id))
  {
  }

  lemma SettleObjects(s: State, id: nat)
    requires id in s.flights && s.flights[id].phase.Thened?
    ensures SameObjects(s, FlightSettled(s, id))
  {
  }

  lemma ContentsDrop(world: World, s: State, name: string, entry: string)
    requires ContentsOk(world, s) && (name, entry) in s.core.expansions
    ensures ContentsOk(world, Next(s, DoExpandFails(name, entry)))
  {
    ObjectsFrame(s, Next(s, DoExpandFails(name, entry)));
  }

  lemma {:induction false} ContentsRun(world: World, trace: seq<State>, labels: seq<Label>, k: nat)
    requires HonestRun(world, trace, labels) && k < |trace|
    ensures ContentsOk(world, trace[k])
  {
    if k > 0 {
      ContentsRun(world, trace, labels, k - 1);
      InvRun(trace, labels, k - 1);
      HonestStepAt(world, trace, labels, k - 1);
      ContentsStep(world, trace[k - 1], labels[k - 1]);
    }
  }

  lemma HonestStepAt(world: World, trace: seq<State>, labels: seq<Label>, k: nat)
    requires HonestRun(world, trace, labels) && k < |labels|
    ensures Enabled(trace[k], labels[k]) && Honest(world, trace[k], labels[k]) && trace[k + 1] == Next(trace[k], labels[k])
  {
  }

  /**
   * Staged installation equals one-shot installation under every interleaving of installs, expansions,
   * failures and late downloads: an installed package that is no fallback holds exactly what one request
   * for its recorded entries would install, or is a bundled package inlined whole.
   */
  lemma InstalledIsServed(world: World, trace: seq<State>, labels: seq<Label>, k: nat, n: string)
    requires HonestRun(world, trace, labels) && k < |trace|
    requires n in trace[k].core.modules && n !in trace[k].core.fallbacks
    ensures Served(world, trace[k].core.modules[n])
  {
    ContentsRun(world, trace, labels, k);
  }

  // ---- stability --------------------------------------------------------------------------------

  /** The same object and release, with perhaps more entries loaded and more files inlined. */
  ghost predicate Gained(a: NodeModule, b: NodeModule) {
    && a.id == b.id && a.version == b.version && a.release == b.release && a.entries <= b.entries
    && a.content.f.Keys <= b.content.f.Keys && a.content.m <= b.content.m
    && forall path :: path in a.content.f ==> b.content.f[path].File? || b.content.f[path] == a.content.f[path]
  }

  /** What may happen to an installed package; only one from an unknown source may see a file's text replaced. */
  ghost predicate Kept(unknown: bool, a: NodeModule, b: NodeModule) {
    Gained(a, b) && (!unknown ==> Keeps(a.content, b.content))
  }

  lemma KeptTransitive(unknown: bool, a: NodeModule, b: NodeModule, c: NodeModule)
    requires Kept(unknown, a, b) && Kept(unknown, b, c)
    ensures Kept(unknown, a, c)
  {
  }

  /** The packages no failure can take back. */
  function Committed(s: State): set<string> {
    if s.body.Installing? || s.body.Closing? || s.body.Linking? then s.body.before.names else s.core.modules.Keys
  }

  /** Packages on both sides of a step are the same ones. */
  ghost predicate SameModules(world: World, c: Core, d: Core) {
    forall n :: n in c.modules && n in d.modules ==> Kept(world.Anything? || n in c.fallbacks, c.modules[n], d.modules[n])
  }

  /** Nothing committed is taken back, or becomes or ceases to be a fallback. */
  ghost predicate Stable(world: World, s: State, t: State) {
    && Committed(s) <= Committed(t) && SameModules(world, s.core, t.core)
    && forall n :: n in Committed(s) ==> (n in t.core.fallbacks <==> n in s.core.fallbacks)
  }

  lemma Unchanged(world: World, c: Core, d: Core)
    requires forall n :: n in c.modules && n in d.modules ==> d.modules[n] == c.modules[n]
    ensures SameModules(world, c, d)
  {
  }

  lemma StartsKeepModules(s: State, waits: map<nat, string>, deps: seq<Dep>)
    ensures StartInstalls(s, waits, deps).0.core.modules == s.core.modules
    ensures StartInstalls(s, waits, deps).0.core.fallbacks == s.core.fallbacks
    decreases |deps|
  {
    if |deps| > 0 {
      var (t, more) := StartInstall(s, waits, deps[0]);
      StartsKeepModules(t, more, deps[1..]);
    }
  }

  lemma StableTree(world: World, s: State, i: nat, deps: seq<Dep>)
    requires Inv(s) && Enabled(s, DoTree(i, deps))
    ensures Stable(world, s, TreeArrives(s, i, deps))
  {
    var core := Merged(s.core, deps, s.body.request);
    MergedIs(s.core, deps, s.body.request);
    if AllResolved(core, s.body.request) {
      StableLaunch(world, s, core, TreeDeps(s, deps), Take(s.core));
    } else {
      TreeFailIsFail(s, i, core);
      Unchanged(world, s.core, TreeArrives(s, i, deps).core);
    }
  }

  lemma StableLaunch(world: World, s: State, core: Core, deps: seq<Dep>, before: Snapshot)
    requires core.modules == s.core.modules && Committed(s) <= before.names
    requires forall n :: n in Committed(s) ==> (n in core.fallbacks <==> n in s.core.fallbacks)
    ensures Stable(world, s, Launch(s, core, deps, before))
  {
    StartsKeepModules(s.(core := core), map[], deps);
    Unchanged(world, s.core, Launch(s, core, deps, before).core);
  }

  lemma StableClosure(world: World, s: State, i: nat, deps: seq<Dep>)
    requires Enabled(s, DoClosure(i, deps))
    ensures Stable(world, s, ClosureArrives(s, i, deps))
  {
    if deps == [] {
      Unchanged(world, s.core, s.core);
    } else {
      StableLaunch(world, s, ClosureCore(s, deps), deps, s.body.before);
    }
  }

  /** A download registers a name nobody registered before. */
  lemma StableFulfil(world: World, s: State, id: nat, installed: NodeModule)
    requires Inv(s) && FetchingAt(s, id)
    ensures Stable(world, s, FlightFulfilled(s, id, installed))
  {
    if Live(s, id) {
      assert LiveOk(s, id, Waits(s));
    }
    Unchanged(world, s.core, FlightFulfilled(s, id, installed).core);
  }

  lemma StableExpanded(world: World, s: State, name: string, entry: string, part: P.Part)
    requires ContentsOk(world, s)
    requires Enabled(s, DoExpanded(name, entry, part)) && Honest(world, s, DoExpanded(name, entry, part))
    ensures Stable(world, s, ExpansionArrives(s, name, entry, part))
  {
    ServedExpanded(world, s, name, entry, part);
    ExpandedKeeps(world, s.core, name, entry, part);
    ExpandedCommits(s, name, entry, part);
  }

  lemma ExpandedCommits(s: State, name: string, entry: string, part: P.Part)
    requires (name, entry) in s.core.expansions
    ensures Committed(ExpansionArrives(s, name, entry, part)) == Committed(s)
    ensures ExpansionArrives(s, name, entry, part).core.fallbacks == s.core.fallbacks
  {
    ExpandedIs(s.core, name, entry, part);
  }

  lemma ExpandedKeeps(world: World, c: Core, name: string, entry: string, part: P.Part)
    requires (name, entry) in c.expansions
    requires world.Serving? && name in c.modules && name !in c.fallbacks ==>
               Keeps(c.modules[name].content, Expanded(c, name, entry, part).modules[name].content)
    ensures SameModules(world, c, Expanded(c, name, entry, part))
  {
    ExpandedIs(c, name, entry, part);
    if name in c.modules {
      GrownGains(c.modules[name], entry, part);
    }
  }

  lemma GrownGains(m: NodeModule, entry: string, part: P.Part)
    ensures Gained(m, Grown(m, entry, part))
  {
    P.MergeOne(m.content, part);
  }

  lemma StableExpand(world: World, s: State, dep: Dep)
    requires CanExpand(s, dep)
    ensures Stable(world, s, ExpandDep(s, dep))
  {
  }

  lemma StableFail(world: World, s: State, i: nat)
    requires FallbacksOk(s) && Enabled(s, DoFail(i)) && s.body.before.names <= s.core.modules.Keys
    ensures Stable(world, s, Fail(s, i, s.body.before))
  {
    Unchanged(world, s.core, Fail(s, i, s.body.before).core);
  }

  lemma StableOther(world: World, s: State, l: Label)
    requires Inv(s) && Enabled(s, l) && Plain(l)
    ensures Stable(world, s, Next(s, l))
  {
    if l.DoStart? {
      NoBodyAtStart(s, l.i);
    }
    PlainStep(s, l);
    Unchanged(world, s.core, Next(s, l).core);
  }

  lemma StableDrop(world: World, s: State, name: string, entry: string)
    requires (name, entry) in s.core.expansions
    ensures Stable(world, s, Next(s, DoExpandFails(name, entry)))
  {
    Unchanged(world, s.core, Next(s, DoExpandFails(name, entry)).core);
  }

  lemma StableStep(world: World, s: State, l: Label)
    requires Inv(s) && ContentsOk(world, s) && Enabled(s, l) && Honest(world, s, l)
    ensures Stable(world, s, Next(s, l))
  {
    match l
    case DoFulfil(id, installed) => StableFulfil(world, s, id, installed);
    case DoTree(i, deps) => StableTree(world, s, i, deps);
    case DoClosure(i, deps) => StableClosure(world, s, i, deps);
    case DoExpand(_, dep) => StableExpand(world, s, dep);
    case DoExpanded(name, entry, part) => StableExpanded(world, s, name, entry, part);
    case DoExpandFails(name, entry) => StableDrop(world, s, name, entry);
    case DoFail(i) => StableFail(world, s, i);
    case _ => StableOther(world, s, l);
  }

  ghost predicate StableTrace(world: World, trace: seq<State>) {
    && (forall k :: 0 <= k < |trace| ==> Committed(trace[k]) <= trace[k].core.modules.Keys)
    && (forall k :: 0 <= k < |trace| - 1 ==> Stable(world, trace[k], trace[k + 1]))
  }

  lemma RunIsStable(world: World, trace: seq<State>, labels: seq<Label>)
    requires HonestRun(world, trace, labels)
    ensures StableTrace(world, trace)
  {
    forall k | 0 <= k < |trace| ensures Committed(trace[k]) <= trace[k].core.modules.Keys {
      InvRun(trace, labels, k);
    }
    forall k | 0 <= k < |trace| - 1 ensures Stable(world, trace[k], trace[k + 1]) {
      StableAt(world, trace, labels, k);
    }
  }

  lemma StableAt(world: World, trace: seq<State>, labels: seq<Label>, k: nat)
    requires HonestRun(world, trace, labels) && k < |labels|
    ensures Stable(world, trace[k], trace[k + 1])
  {
    InvRun(trace, labels, k);
    ContentsRun(world, trace, labels, k);
    HonestStepAt(world, trace, labels, k);
    StableStep(world, trace[k], labels[k]);
  }

  lemma {:induction false} StableFor(world: World, trace: seq<State>, j: nat, k: nat, n: string)
    requires StableTrace(world, trace) && j <= k < |trace| && n in Committed(trace[j])
    ensures n in trace[j].core.modules && n in Committed(trace[k]) && n in trace[k].core.modules
    ensures n in trace[k].core.fallbacks <==> n in trace[j].core.fallbacks
    ensures Kept(world.Anything? || n in trace[j].core.fallbacks, trace[j].core.modules[n], trace[k].core.modules[n])
  {
    if j < k {
      StableFor(world, trace, j, k - 1, n);
      assert Stable(world, trace[k - 1], trace[k - 1 + 1]);
      KeptTransitive(world.Anything? || n in trace[j].core.fallbacks, trace[j].core.modules[n], trace[k - 1].core.modules[n], trace[k].core.modules[n]);
    }
  }

  /**
   * An installed package that its batch has committed stays for good, and if answers are served from a
   * world, its files stay the same, except that listed ones may get inlined. Only a fallback's files
   * may in addition be replaced.
   */
  lemma CommittedIsStable(world: World, trace: seq<State>, labels: seq<Label>, j: nat, k: nat, n: string)
    requires HonestRun(world, trace, labels) && j <= k < |trace| && n in Committed(trace[j])
    ensures n in trace[j].core.modules && n in Committed(trace[k]) && n in trace[k].core.modules
    ensures n in trace[k].core.fallbacks <==> n in trace[j].core.fallbacks
    ensures Kept(world.Anything? || n in trace[j].core.fallbacks, trace[j].core.modules[n], trace[k].core.modules[n])
  {
    RunIsStable(world, trace, labels);
    StableFor(world, trace, j, k, n);
  }

  lemma RunIsHonest(trace: seq<State>, labels: seq<Label>)
    requires Run(trace, labels)
    ensures HonestRun(Anything, trace, labels)
  {
    forall k | 0 <= k < |labels| ensures Enabled(trace[k], labels[k]) && Honest(Anything, trace[k], labels[k]) {
      StepAt(trace, labels, k);
    }
  }

  /**
   * In every run, whatever is answered: a committed package stays the same object, version and release,
   * its entries, file names and used packages only grow, and it neither becomes nor ceases to be a fallback.
   */
  lemma CommittedStays(trace: seq<State>, labels: seq<Label>, j: nat, k: nat, n: string)
    requires Run(trace, labels) && j <= k < |trace| && n in Committed(trace[j])
    ensures n in trace[j].core.modules && n in Committed(trace[k]) && n in trace[k].core.modules
    ensures n in trace[k].core.fallbacks <==> n in trace[j].core.fallbacks
    ensures Gained(trace[j].core.modules[n], trace[k].core.modules[n])
  {
    RunIsHonest(trace, labels);
    CommittedIsStable(Anything, trace, labels, j, k, n);
  }
}
