/**
 * The bundler's on-demand installs (packages/sandpack-bundler/src/bundler/module-registry/index.ts).
 * `Core` is the registry object's own state and its functions are the synchronous segments between
 * awaits; `ModuleRegistry` is that object, its methods proved against them. `State` adds what the
 * promises hold, and one step is one segment, in any interleaving.
 */
module Registry {
  import opened Wrappers
  import P = ModuleParts

  datatype Release = Release(name: string, version: string)

  /** A `/dep_tree` entry: install name, version, npm package, entries to load. */
  datatype Dep = Dep(n: string, v: string, s: string, e: set<string>)

  /** An installed package, as the object download `id` made; no release marks a fallback of unknown origin. */
  datatype NodeModule = NodeModule(id: nat, version: string, release: Option<Release>, content: P.Part, entries: set<string>)

  /** An expansion in flight: the object it will add to, and the release it fetches from. */
  datatype Expansion = Expansion(obj: nat, release: Release)

  /** A download's cache key: `name::source::version`. */
  datatype Key = Key(name: string, source: string, version: string)

  /** Package name to entries, in insertion order. */
  type Imports = seq<(string, set<string>)>

  /** Package name to range and missing entries, in insertion order. */
  type Request = seq<(string, (string, set<string>))>

  const ROOT_ENTRY := "."

  /** The entries a tree entry is loaded through. */
  function EntriesOf(dep: Dep): set<string> {
    if dep.e == {} then {ROOT_ENTRY} else dep.e
  }

  datatype Core = Core(
    modules: map<string, NodeModule>,
    downloads: map<Key, nat>,
    cancelled: set<nat>,
    expansions: map<(string, string), Expansion>,
    manifest: seq<Dep>,
    fallbacks: map<string, string>,
    declared: map<string, string>,
    fallbackEnabled: bool,
    nextBatch: Option<Imports>,
    pendingBatches: nat)

  // ---- requests ------------------------------------------------------------------------

  function AddImport(imports: Imports, name: string, entry: string): Imports {
    if |imports| == 0 then [(name, {entry})]
    else if imports[0].0 == name then [(name, imports[0].1 + {entry})] + imports[1..]
    else [imports[0]] + AddImport(imports[1..], name, entry)
  }

  /** `enqueueInstall`: the first import of a window opens a batch. */
  function Enqueue(c: Core, name: string, entry: string): Core {
    match c.nextBatch
    case Some(imports) => c.(nextBatch := Some(AddImport(imports, name, entry)))
    case None => c.(nextBatch := Some(AddImport([], name, entry)), pendingBatches := c.pendingBatches + 1)
  }

  function PinOf(c: Core, name: string, installed: NodeModule): Option<string> {
    if installed.release.None? || name in c.fallbacks then None
    else
      var release := installed.release.value;
      Some(if release.name == name then release.version else "npm:" + release.name + "@" + release.version)
  }

  function RangeOf(c: Core, name: string): string {
    if name in c.modules then
      match PinOf(c, name, c.modules[name]) case Some(pin) => pin case None => c.modules[name].version
    else if name in c.declared then c.declared[name]
    else ""
  }

  /** What a batch asks of one package, if it lacks an entry. */
  function AskOf(c: Core, name: string, wanted: set<string>): Request {
    var missing := wanted - (if name in c.modules then c.modules[name].entries else {});
    if missing == {} then [] else [(name, (RangeOf(c, name), missing))]
  }

  /** What a batch asks for: the packages that lack an entry it imports, with the entries they lack. */
  function RequestOf(c: Core, imports: Imports): Request {
    if |imports| == 0 then [] else AskOf(c, imports[0].0, imports[0].1) + RequestOf(c, imports[1..])
  }

  lemma RequestStep(c: Core, done: Request, imports: Imports, i: nat)
    requires i < |imports|
    ensures done + RequestOf(c, imports[i..]) == (done + AskOf(c, imports[i].0, imports[i].1)) + RequestOf(c, imports[i + 1..])
  {
    assert imports[i..][1..] == imports[i + 1..];
  }

  // ---- the manifest ----------------------------------------------------------------------

  function Names(deps: seq<Dep>): set<string> {
    set d | d in deps :: d.n
  }

  /** `resolved.filter((dep) => !known.has(dep.n))`. */
  function Unknown(known: set<string>, deps: seq<Dep>): seq<Dep> {
    if |deps| == 0 then []
    else (if deps[0].n in known then [] else [deps[0]]) + Unknown(known, deps[1..])
  }

  /** `registerEsmFallbacks`: a fallback, and a manifest entry, for every requested name nobody resolved. */
  function RegisterFallbacks(c: Core, resolved: set<string>, request: Request): Core
    decreases |request|
  {
    if |request| == 0 then c
    else
      var (name, (range, _)) := request[0];
      RegisterFallbacks(
        if name in resolved then c
        else c.(fallbacks := c.fallbacks[name := range], manifest := c.manifest + [Dep(name, range, name, {})]),
        resolved, request[1..])
  }

  /** `assertDependenciesResolved`: every requested name has a manifest entry. */
  predicate AllResolved(c: Core, request: Request) {
    forall i :: 0 <= i < |request| ==> request[i].0 in Names(c.manifest)
  }

  /** `manifest.filter((dep) => esmFallbacks.has(dep.n) && !before.has(dep.n))`. */
  function NewFallbacks(c: Core, before: map<string, string>, deps: seq<Dep>): seq<Dep> {
    if |deps| == 0 then []
    else (if deps[0].n in c.fallbacks && deps[0].n !in before then [deps[0]] else []) + NewFallbacks(c, before, deps[1..])
  }

  // ---- downloads ---------------------------------------------------------------------------

  /**
   * `fetchNodeModule`: an installed package is used as it is, a download of the same key is shared
   * unless it was cancelled, and otherwise download `id` starts. `None`: already installed.
   */
  function FetchNodeModule(c: Core, dep: Dep, id: nat): (Core, Option<nat>) {
    var key := Key(dep.n, dep.s, dep.v);
    if dep.n in c.modules then (c, None)
    else if key in c.downloads && c.downloads[key] !in c.cancelled then (c, Some(c.downloads[key]))
    else (c.(downloads := c.downloads[key := id]), Some(id))
  }

  /** The download's `then`: it registers unless a failed install rolled it back. */
  function Fulfil(c: Core, id: nat, name: string, installed: NodeModule): Core {
    if id in c.cancelled then c else c.(modules := c.modules[name := installed])
  }

  /** The download's `finally`: another download of the same key is left alone. */
  function Settle(c: Core, id: nat, key: Key): Core {
    c.(cancelled := c.cancelled - {id},
       downloads := if key in c.downloads && c.downloads[key] == id then c.downloads - {key} else c.downloads)
  }

  // ---- expansions -------------------------------------------------------------------------

  function AddEntries(c: Core, name: string, entries: set<string>): Core
    requires name in c.modules
  {
    c.(modules := c.modules[name := c.modules[name].(entries := c.modules[name].entries + entries)])
  }

  /**
   * `expandModule` up to its first await. A fallback of unknown origin is whole already; otherwise
   * an expansion of the same name and entry is shared, whatever object it works on, or started.
   */
  function ExpandModule(c: Core, name: string, missing: set<string>): Core
    requires name in c.modules
  {
    match c.modules[name].release
    case None => AddEntries(c, name, missing)
    case Some(release) =>
      c.(expansions := map key | key in c.expansions.Keys + Under(name, missing) ::
           if key in c.expansions then c.expansions[key] else Expansion(c.modules[name].id, release))
  }

  function Under(name: string, entries: set<string>): set<(string, string)> {
    set e | e in entries :: (name, e)
  }

  /** The expansion's `then` and `finally`: it adds to its own object, registered or not. */
  function Expanded(c: Core, name: string, entry: string, part: P.Part): Core
    requires (name, entry) in c.expansions
  {
    var left := c.(expansions := c.expansions - {(name, entry)});
    if name !in c.modules || c.modules[name].id != c.expansions[(name, entry)].obj then left
    else
      var m := c.modules[name];
      left.(modules := c.modules[name := m.(content := P.Merge(m.content, [part]), entries := m.entries + {entry})])
  }

  // ---- rollback ------------------------------------------------------------------------------

  datatype Snapshot = Snapshot(manifest: seq<Dep>, fallbacks: map<string, string>, names: set<string>)

  function Take(c: Core): Snapshot {
    Snapshot(c.manifest, c.fallbacks, c.modules.Keys)
  }

  /** The `catch` of `installBatch`. */
  function Rollback(c: Core, before: Snapshot): Core {
    c.(cancelled := c.cancelled + c.downloads.Values,
       manifest := before.manifest,
       fallbacks := before.fallbacks,
       modules := map n | n in c.modules && n in before.names :: c.modules[n])
  }

  /** The registry object. */
  class ModuleRegistry {
    var modules: map<string, NodeModule>
    var moduleDownloadPromises: map<Key, nat>
    var cancelledDownloads: set<nat>
    var expansions: map<(string, string), Expansion>
    var manifest: seq<Dep>
    var esmFallbacks: map<string, string>
    var declared: map<string, string>
    const esmFallbackEnabled: bool
    var nextBatch: Option<Imports>
    var pendingBatches: nat

    function View(): Core
      reads this
    {
      Core(modules, moduleDownloadPromises, cancelledDownloads, expansions, manifest, esmFallbacks, declared,
           esmFallbackEnabled, nextBatch, pendingBatches)
    }

    method EnqueueInstall(name: string, entry: string)
      modifies this
      ensures View() == Enqueue(old(View()), name, entry)
    {
      if nextBatch.None? {
        pendingBatches := pendingBatches + 1;
        nextBatch := Some([]);
      }
      nextBatch := Some(AddImport(nextBatch.value, name, entry));
    }

    method BatchRequest(imports: Imports) returns (request: Request)
      ensures request == RequestOf(View(), imports)
    {
      request := [];
      var i := 0;
      while i < |imports|
        invariant 0 <= i <= |imports|
        invariant request + RequestOf(View(), imports[i..]) == RequestOf(View(), imports)
      {
        var (name, wanted) := imports[i];
        RequestStep(View(), request, imports, i);
        var installed := if name in modules then modules[name].entries else {};
        if wanted - installed != {} {
          request := request + [(name, (RangeOf(View(), name), wanted - installed))];
        }
        i := i + 1;
      }
    }

    method RegisterEsmFallbacks(requested: Request)
      modifies this
      ensures View() == if esmFallbackEnabled then RegisterFallbacks(old(View()), Names(old(manifest)), requested) else old(View())
    {
      if !esmFallbackEnabled {
        return;
      }
      var resolved := Names(manifest);
      var i := 0;
      while i < |requested|
        invariant 0 <= i <= |requested|
        invariant RegisterFallbacks(View(), resolved, requested[i..]) == RegisterFallbacks(old(View()), resolved, requested)
      {
        var (name, (range, _)) := requested[i];
        assert requested[i..][1..] == requested[i + 1..];
        if name !in resolved {
          esmFallbacks := esmFallbacks[name := range];
          manifest := manifest + [Dep(name, range, name, {})];
        }
        i := i + 1;
      }
    }

    method StartDownload(dep: Dep, id: nat) returns (promise: Option<nat>)
      modifies this
      ensures (View(), promise) == FetchNodeModule(old(View()), dep, id)
    {
      if dep.n in modules {
        return None;
      }
      var cacheKey := Key(dep.n, dep.s, dep.v);
      if cacheKey !in moduleDownloadPromises || moduleDownloadPromises[cacheKey] in cancelledDownloads {
        moduleDownloadPromises := moduleDownloadPromises[cacheKey := id];
      }
      promise := Some(moduleDownloadPromises[cacheKey]);
    }

    method DownloadFulfilled(id: nat, name: string, installed: NodeModule)
      modifies this
      ensures View() == Fulfil(old(View()), id, name, installed)
    {
      if id !in cancelledDownloads {
        modules := modules[name := installed];
      }
    }

    method DownloadSettled(id: nat, cacheKey: Key)
      modifies this
      ensures View() == Settle(old(View()), id, cacheKey)
    {
      cancelledDownloads := cancelledDownloads - {id};
      if cacheKey in moduleDownloadPromises && moduleDownloadPromises[cacheKey] == id {
        moduleDownloadPromises := moduleDownloadPromises - {cacheKey};
      }
    }

    /** The synchronous part of `expandModule`, for the registered package `name`. */
    method StartExpansions(name: string, entries: set<string>)
      requires name in modules
      modifies this
      ensures View() == ExpandModule(old(View()), name, entries - old(modules[name].entries))
    {
      var nodeModule := modules[name];
      var missing := entries - nodeModule.entries;
      if nodeModule.release.None? {
        modules := modules[name := nodeModule.(entries := nodeModule.entries + missing)];
        return;
      }
      ghost var before := expansions;
      var left := missing;
      while left != {}
        invariant left <= missing && View() == old(View()).(expansions := expansions)
        invariant expansions == map key | key in before.Keys + Under(name, missing - left) ::
                    if key in before then before[key] else Expansion(nodeModule.id, nodeModule.release.value)
        decreases left
      {
        var entry :| entry in left;
        if (name, entry) !in expansions {
          expansions := expansions[(name, entry) := Expansion(nodeModule.id, nodeModule.release.value)];
        }
        left := left - {entry};
      }
      assert missing - left == missing;
    }

    method ExpansionDone(name: string, entry: string, part: P.Part)
      requires (name, entry) in expansions
      modifies this
      ensures View() == Expanded(old(View()), name, entry, part)
    {
      var obj := expansions[(name, entry)].obj;
      expansions := expansions - {(name, entry)};
      if name in modules && modules[name].id == obj {
        var m := modules[name];
        modules := modules[name := m.(content := P.Merge(m.content, [part]), entries := m.entries + {entry})];
      }
    }

    /** The `catch` block: cancel what is in flight, restore, delete what was registered since. */
    method RollBack(before: Snapshot)
      modifies this
      ensures View() == Rollback(old(View()), before)
    {
      CancelDownloads();
      manifest := before.manifest;
      esmFallbacks := before.fallbacks;
      DeleteNew(before.names);
    }

    method CancelDownloads()
      modifies this
      ensures View() == old(View()).(cancelled := old(cancelledDownloads) + moduleDownloadPromises.Values)
    {
      var keys := moduleDownloadPromises.Keys;
      while keys != {}
        invariant keys <= moduleDownloadPromises.Keys
        invariant View() == old(View()).(cancelled := cancelledDownloads)
        invariant cancelledDownloads ==
                  old(cancelledDownloads) + set k | k in moduleDownloadPromises && k !in keys :: moduleDownloadPromises[k]
        decreases keys
      {
        var key :| key in keys;
        cancelledDownloads := cancelledDownloads + {moduleDownloadPromises[key]};
        keys := keys - {key};
      }
      assert (set k | k in moduleDownloadPromises && k !in keys :: moduleDownloadPromises[k]) == moduleDownloadPromises.Values;
    }

    method DeleteNew(known: set<string>)
      modifies this
      ensures View() == old(View()).(modules := map n | n in old(modules) && n in known :: old(modules)[n])
    {
      var names := modules.Keys;
      while names != {}
        invariant names <= old(modules).Keys
        invariant View() == old(View()).(modules := modules)
        invariant modules == map n | n in old(modules) && (n in names || n in known) :: old(modules)[n]
        decreases names
      {
        var name :| name in names;
        if name !in known {
          modules := modules - {name};
        }
        names := names - {name};
      }
    }
  }

  // ---- the promises --------------------------------------------------------------------------

  /** A download between its start and its `finally`: fetching, or past its `then`. */
  datatype Phase = Fetching | Thened(ok: bool)

  datatype Flight = Flight(key: Key, entries: set<string>, fallback: bool, phase: Phase)

  /** A batch on the install chain; `Ending` is settled with its `finally` still to run. */
  datatype Batch = Queued(imports: Imports) | Active | Ending | Done

  /**
   * Where the active batch's body is. Its `Promise.all` awaits the downloads `waits`, then expands
   * the packages of `todo`, and awaits the expansions `pending`.
   */
  datatype Body =
    | NoBody
    | Resolving(request: Request)
    | Installing(before: Snapshot, waits: map<nat, string>, todo: set<Dep>, pending: set<(string, string)>)
    | Closing(before: Snapshot)
    | Linking(before: Snapshot)

  /**
   * `attempted` are the names the active batch's used-module closure has requested. `begun` is what the
   * latest batch to start found, and `asked` what its trees gave it to load, by package and entry; no
   * code reads these two.
   */
  datatype State = State(
    core: Core,
    batches: seq<Batch>,
    body: Body,
    flights: map<nat, Flight>,
    settled: map<nat, bool>,
    nextId: nat,
    attempted: set<string>,
    begun: Snapshot,
    asked: set<(string, string)>)

  function Elements(deps: seq<Dep>): set<Dep> {
    set d | d in deps
  }

  function Asks(deps: seq<Dep>): set<(string, string)> {
    set d, e | d in deps && e in EntriesOf(d) :: (d.n, e)
  }

  /** `fetchNodeModule` for one dependency: nothing to wait for, or the download to wait for. */
  function StartInstall(s: State, waits: map<nat, string>, dep: Dep): (State, map<nat, string>) {
    var (core, promise) := FetchNodeModule(s.core, dep, s.nextId);
    match promise
    case None => (s, waits)
    case Some(id) =>
      (if id != s.nextId then s
       else s.(core := core, nextId := id + 1,
               flights := s.flights[id := Flight(Key(dep.n, dep.s, dep.v), EntriesOf(dep), dep.n in s.core.fallbacks, Fetching)]),
       waits[id := dep.n])
  }

  /** The same for each of `deps`, as `Promise.all` starts them. */
  function StartInstalls(s: State, waits: map<nat, string>, deps: seq<Dep>): (State, map<nat, string>)
    decreases |deps|
  {
    if |deps| == 0 then (s, waits)
    else var (t, more) := StartInstall(s, waits, deps[0]); StartInstalls(t, more, deps[1..])
  }

  /** `Promise.all` over `installEntries` begins for `deps`, with `core` as the registry. */
  function Launch(s: State, core: Core, deps: seq<Dep>, before: Snapshot): State {
    var (started, waits) := StartInstalls(s.(core := core), map[], deps);
    started.(body := Installing(before, waits, Elements(deps), {}), asked := s.asked + Asks(deps))
  }

  /** The batching window closes: the batch joins the chain. */
  function CloseWindow(s: State): State
    requires s.core.nextBatch.Some?
  {
    s.(core := s.core.(nextBatch := None), batches := s.batches + [Queued(s.core.nextBatch.value)])
  }

  /** The chain reaches batch `i`. */
  predicate CanStart(s: State, i: nat) {
    i < |s.batches| && s.batches[i].Queued? && (i > 0 ==> s.batches[i - 1].Done?)
  }

  function StartBatch(s: State, i: nat): State
    requires CanStart(s, i)
  {
    var request := RequestOf(s.core, s.batches[i].imports);
    if request == [] then s.(batches := s.batches[i := Ending], attempted := {}, begun := Take(s.core), asked := {})
    else s.(batches := s.batches[i := Active], body := Resolving(request), attempted := {}, begun := Take(s.core), asked := {})
  }

  predicate ActiveAt(s: State, i: nat) {
    i < |s.batches| && s.batches[i].Active?
  }

  /** The body settles. */
  function Leave(s: State, i: nat): State
    requires ActiveAt(s, i)
  {
    s.(batches := s.batches[i := Ending], body := NoBody)
  }

  function Fail(s: State, i: nat, before: Snapshot): State
    requires ActiveAt(s, i)
  {
    Leave(s.(core := Rollback(s.core, before)), i)
  }

  /** The registry once the tree is merged and the fallbacks are registered. */
  function Merged(c: Core, resolved: seq<Dep>, request: Request): Core {
    var merged := c.(manifest := c.manifest + Unknown(Names(c.manifest), resolved));
    if c.fallbackEnabled then RegisterFallbacks(merged, Names(merged.manifest), request) else merged
  }

  /** The tree arrives: the manifest, the fallbacks, the completeness check, then the downloads. */
  function TreeArrives(s: State, i: nat, resolved: seq<Dep>): State
    requires ActiveAt(s, i) && s.body.Resolving?
  {
    var before := Take(s.core);
    var core := Merged(s.core, resolved, s.body.request);
    if !AllResolved(core, s.body.request) then Fail(s.(core := core), i, before)
    else Launch(s, core, resolved + NewFallbacks(core, before.fallbacks, core.manifest), before)
  }

  predicate AllInstalled(s: State, waits: map<nat, string>) {
    forall id :: id in waits ==> id in s.settled && s.settled[id]
  }

  /** A used module that is a package, by its first character. */
  predicate Bare(used: string) {
    used != "" && used[0] != '.' && used[0] != '/'
  }

  /** The packages that installed packages use and that are neither installed nor requested yet. */
  function MissingUsed(c: Core, attempted: set<string>): set<string> {
    set n, used | n in c.modules && used in c.modules[n].content.m && Bare(used) && used !in c.modules && used !in attempted :: used
  }

  /** A turn of the used-module closure: nothing is missing, or the missing packages are requested. */
  function CloseOver(s: State): State
    requires s.body.Installing?
  {
    var missing := MissingUsed(s.core, s.attempted);
    if missing == {} then s.(body := Linking(s.body.before))
    else s.(body := Closing(s.body.before), attempted := s.attempted + missing)
  }

  /** The closure's request resolves to more packages; an empty answer ends it. */
  function ClosureArrives(s: State, i: nat, extra: seq<Dep>): State
    requires ActiveAt(s, i) && s.body.Closing?
  {
    var before := s.body.before;
    if extra == [] then s.(body := Linking(before))
    else
      Launch(s, s.core.(manifest := s.core.manifest + Unknown(Names(s.core.manifest), extra)), extra, before)
  }

  /** The download of a package to expand has settled, if it had one. */
  predicate CanExpand(s: State, dep: Dep) {
    && s.body.Installing? && dep in s.body.todo && dep.n in s.core.modules
    && forall id :: id in s.body.waits && s.body.waits[id] == dep.n ==> id in s.settled && s.settled[id]
  }

  /** `expandModule` for one dependency: its missing entries are awaited, or all there at once. */
  function ExpandDep(s: State, dep: Dep): State
    requires CanExpand(s, dep)
  {
    var m := s.core.modules[dep.n];
    var missing := EntriesOf(dep) - m.entries;
    s.(core := ExpandModule(s.core, dep.n, missing),
       body := s.body.(todo := s.body.todo - {dep},
                       pending := s.body.pending + if m.release.Some? then Under(dep.n, missing) else {}))
  }

  /** An expansion completes: whoever awaits its name and entry goes on. */
  function ExpansionArrives(s: State, name: string, entry: string, part: P.Part): State
    requires (name, entry) in s.core.expansions
  {
    s.(core := Expanded(s.core, name, entry, part),
       body := if s.body.Installing? then s.body.(pending := s.body.pending - {(name, entry)}) else s.body)
  }

  predicate FetchingAt(s: State, id: nat) {
    id in s.flights && s.flights[id].phase.Fetching?
  }

  function FlightFulfilled(s: State, id: nat, installed: NodeModule): State
    requires FetchingAt(s, id)
  {
    s.(core := Fulfil(s.core, id, s.flights[id].key.name, installed), flights := s.flights[id := s.flights[id].(phase := Thened(true))])
  }

  function FlightRejected(s: State, id: nat): State
    requires FetchingAt(s, id)
  {
    s.(flights := s.flights[id := s.flights[id].(phase := Thened(false))])
  }

  function FlightSettled(s: State, id: nat): State
    requires id in s.flights && s.flights[id].phase.Thened?
  {
    s.(core := Settle(s.core, id, s.flights[id].key), flights := s.flights - {id}, settled := s.settled[id := s.flights[id].phase.ok])
  }

  /** `.finally(() => this.pendingBatches--)`, after which the chain goes on. */
  function EndBatch(s: State, i: nat): State
    requires i < |s.batches| && s.batches[i].Ending?
  {
    s.(batches := s.batches[i := Done],
       core := s.core.(pendingBatches := if s.core.pendingBatches > 0 then s.core.pendingBatches - 1 else 0))
  }

  /** A tree lists a name once; `TreeAnswers.ReplyAnswers` is the collector's promise of it. */
  predicate Distinct(deps: seq<Dep>) {
    forall i, j :: 0 <= i < j < |deps| ==> deps[i].n != deps[j].n
  }

  /** A tree lists a requested package with every entry asked of it, which the collector promises there too. */
  predicate Answers(request: Request, deps: seq<Dep>) {
    forall i, j :: 0 <= i < |request| && 0 <= j < |deps| && request[i].0 == deps[j].n ==> request[i].1.1 <= deps[j].e
  }

  /** What a download of `flight` makes; only a fallback may come from another release, or none. */
  predicate Makes(flight: Flight, id: nat, installed: NodeModule) {
    && installed.id == id && installed.version == flight.key.version && installed.entries == flight.entries
    && (!flight.fallback ==> installed.release == Some(Release(flight.key.source, flight.key.version)))
  }

  /** One synchronous segment. */
  datatype Label =
    | DoEnqueue(name: string, entry: string)
    | DoSetDeclared(declared: map<string, string>)
    | DoCloseWindow
    | DoStart(i: nat)
    | DoTreeFails(i: nat)
    | DoTree(i: nat, deps: seq<Dep>)
    | DoExpand(i: nat, dep: Dep)
    | DoInstalled(i: nat)
    | DoClosure(i: nat, deps: seq<Dep>)
    | DoClosureFails(i: nat)
    | DoLinked(i: nat)
    | DoFail(i: nat)
    | DoEnd(i: nat)
    | DoFulfil(id: nat, installed: NodeModule)
    | DoReject(id: nat)
    | DoSettle(id: nat)
    | DoExpanded(name: string, entry: string, part: P.Part)
    | DoExpandFails(name: string, entry: string)

  predicate Enabled(s: State, l: Label) {
    match l
    case DoEnqueue(_, _) => true
    case DoSetDeclared(_) => true
    case DoCloseWindow => s.core.nextBatch.Some?
    case DoStart(i) => CanStart(s, i)
    case DoTreeFails(i) => ActiveAt(s, i) && s.body.Resolving?
    case DoTree(i, deps) => ActiveAt(s, i) && s.body.Resolving? && Distinct(deps) && Answers(s.body.request, deps)
    case DoExpand(i, dep) => ActiveAt(s, i) && CanExpand(s, dep)
    case DoInstalled(i) =>
      ActiveAt(s, i) && s.body.Installing? && AllInstalled(s, s.body.waits) && s.body.todo == {} && s.body.pending == {}
    case DoClosure(i, deps) => ActiveAt(s, i) && s.body.Closing? && Distinct(deps)
    case DoClosureFails(i) => ActiveAt(s, i) && s.body.Closing?
    case DoLinked(i) => ActiveAt(s, i) && s.body.Linking?
    case DoFail(i) => ActiveAt(s, i) && (s.body.Installing? || s.body.Linking?)
    case DoEnd(i) => i < |s.batches| && s.batches[i].Ending?
    case DoFulfil(id, installed) => FetchingAt(s, id) && Makes(s.flights[id], id, installed)
    case DoReject(id) => FetchingAt(s, id)
    case DoSettle(id) => id in s.flights && s.flights[id].phase.Thened?
    case DoExpanded(name, entry, _) => (name, entry) in s.core.expansions
    case DoExpandFails(name, entry) => (name, entry) in s.core.expansions
  }

  function Next(s: State, l: Label): State
    requires Enabled(s, l)
  {
    match l
    case DoEnqueue(name, entry) => s.(core := Enqueue(s.core, name, entry))
    case DoSetDeclared(declared) => s.(core := s.core.(declared := declared))
    case DoCloseWindow => CloseWindow(s)
    case DoStart(i) => StartBatch(s, i)
    case DoTreeFails(i) => Leave(s, i)
    case DoTree(i, deps) => TreeArrives(s, i, deps)
    case DoExpand(_, dep) => ExpandDep(s, dep)
    case DoInstalled(i) => CloseOver(s)
    case DoClosure(i, deps) => ClosureArrives(s, i, deps)
    case DoClosureFails(_) => s.(body := Linking(s.body.before))
    case DoLinked(i) => Leave(s, i)
    case DoFail(i) => Fail(s, i, s.body.before)
    case DoEnd(i) => EndBatch(s, i)
    case DoFulfil(id, installed) => FlightFulfilled(s, id, installed)
    case DoReject(id) => FlightRejected(s, id)
    case DoSettle(id) => FlightSettled(s, id)
    case DoExpanded(name, entry, part) => ExpansionArrives(s, name, entry, part)
    case DoExpandFails(name, entry) => s.(core := s.core.(expansions := s.core.expansions - {(name, entry)}))
  }

  /** `labels[k]` takes `trace[k]` to `trace[k + 1]`. */
  ghost predicate Steps(trace: seq<State>, labels: seq<Label>) {
    && |trace| == |labels| + 1
    && forall k :: 0 <= k < |labels| ==> Enabled(trace[k], labels[k]) && trace[k + 1] == Next(trace[k], labels[k])
  }

  ghost predicate Run(trace: seq<State>, labels: seq<Label>) {
    Steps(trace, labels) && Booted(trace[0])
  }

  /** After a successful boot install: nothing is in flight and the manifest is what is installed. */
  ghost predicate Booted(s: State) {
    && s.flights == map[] && s.batches == [] && s.body == NoBody
    && s.core.downloads == map[] && s.core.cancelled == {} && s.core.expansions == map[]
    && s.core.nextBatch.None? && s.core.pendingBatches == 0
    && Distinct(s.core.manifest) && Names(s.core.manifest) == s.core.modules.Keys
    && s.core.fallbacks.Keys <= Names(s.core.manifest)
    && (forall id :: id in s.settled ==> id < s.nextId)
    && (forall n :: n in s.core.modules ==> s.core.modules[n].id < s.nextId)
    && s.begun == Take(s.core)
  }
}
