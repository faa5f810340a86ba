/**
 * A run that loses an entry. An install expands the package it has just registered, fails and takes it
 * back; the next install registers the package again while that expansion is still in flight.
 */
module RegistryStaleExample {
  import opened Wrappers
  import opened Registry
  import opened RegistryRuns
  import opened RegistryLoads
  import opened RegistryStale
  import P = ModuleParts

  /** `t` is some steps after `s`. */
  ghost predicate Reaches(s: State, t: State) {
    exists trace: seq<State>, labels: seq<Label> :: Steps(trace, labels) && trace[0] == s && trace[|labels|] == t
  }

  lemma ReachesSelf(s: State)
    ensures Reaches(s, s)
  {
    var trace, labels: seq<Label> := [s], [];
    assert Steps(trace, labels);
  }

  lemma ReachesNext(s: State, t: State, l: Label)
    requires Reaches(s, t) && Enabled(t, l)
    ensures Reaches(s, Next(t, l))
  {
    var trace: seq<State>, labels: seq<Label> :| Steps(trace, labels) && trace[0] == s && trace[|labels|] == t;
    var all, ls := trace + [Next(t, l)], labels + [l];
    forall k | 0 <= k < |ls| ensures Enabled(all[k], ls[k]) && all[k + 1] == Next(all[k], ls[k]) {
      if k < |labels| {
        StepAt(trace, labels, k);
      }
    }
    assert Steps(all, ls);
  }

  lemma ReachesInv(s: State, t: State)
    requires Inv(s) && Reaches(s, t)
    ensures Inv(t)
  {
    var trace: seq<State>, labels: seq<Label> :| Steps(trace, labels) && trace[0] == s && trace[|labels|] == t;
    InvSteps(trace, labels, |labels|);
  }

  // ---- the steps of an install -------------------------------------------------------------------

  /** Between batches with nothing in flight but perhaps expansions. */
  predicate AtRest(s: State) {
    && s.body == NoBody && s.flights == map[] && s.core.downloads == map[] && s.core.cancelled == {}
    && s.core.nextBatch.None? && s.core.fallbacks == map[] && !s.core.fallbackEnabled
    && (|s.batches| > 0 ==> s.batches[|s.batches| - 1].Done?)
  }

  function Imported(s: State, p: (string, string)): State {
    s.(core := s.core.(pendingBatches := s.core.pendingBatches + 1), batches := s.batches + [Queued([(p.0, {p.1})])])
  }

  lemma Imports(s: State, p: (string, string))
    requires AtRest(s)
    ensures Reaches(s, Imported(s, p)) && CanStart(Imported(s, p), |s.batches|)
  {
    ReachesSelf(s);
    ReachesNext(s, s, DoEnqueue(p.0, p.1));
    var t := Next(s, DoEnqueue(p.0, p.1));
    ReachesNext(s, t, DoCloseWindow);
    assert Next(t, DoCloseWindow) == Imported(s, p);
  }

  function Started(s: State, p: (string, string)): State {
    Imported(s, p).(batches := s.batches + [Active], body := Resolving([(p.0, (RangeOf(s.core, p.0), {p.1}))]), attempted := {}, begun := Take(s.core), asked := {})
  }

  lemma StartsFresh(s: State, p: (string, string))
    requires AtRest(s) && p.0 !in s.core.modules
    ensures Reaches(s, Started(s, p)) && ActiveAt(Started(s, p), |s.batches|)
  {
    var t, i := Imported(s, p), |s.batches|;
    Imports(s, p);
    RequestsOne(t.core, p);
    ReachesNext(s, t, DoStart(i));
    assert t.batches[i := Active] == s.batches + [Active];
    assert Take(t.core) == Take(s.core);
    assert Next(t, DoStart(i)) == Started(s, p);
  }

  // ---- one download ---------------------------------------------------------------------------------

  /** The active batch awaits a tree, and nothing is in flight. */
  predicate Waiting(s: State, i: nat) {
    && ActiveAt(s, i) && s.flights == map[] && s.core.downloads == map[] && s.core.cancelled == {}
    && s.core.fallbacks == map[] && !s.core.fallbackEnabled
  }

  function KeyOf(dep: Dep): Key {
    Key(dep.n, dep.s, dep.v)
  }

  /** Download `s.nextId` of `dep` in `phase`. */
  function Downloading(s: State, dep: Dep, phase: Phase): State {
    s.(core := s.core.(downloads := map[KeyOf(dep) := s.nextId]),
       flights := map[s.nextId := Flight(KeyOf(dep), EntriesOf(dep), false, phase)],
       nextId := s.nextId + 1)
  }

  lemma StartsDownload(s: State, dep: Dep)
    requires s.flights == map[] && s.core.downloads == map[] && s.core.fallbacks == map[] && dep.n !in s.core.modules
    ensures StartInstall(s, map[], dep) == (Downloading(s, dep, Fetching), map[s.nextId := dep.n])
  {
    var id := s.nextId;
    assert s.core.downloads[KeyOf(dep) := id] == map[KeyOf(dep) := id];
  }

  lemma LaunchesDownload(s: State, core: Core, dep: Dep, before: Snapshot)
    requires s.flights == map[] && core.downloads == map[] && core.fallbacks == map[] && dep.n !in core.modules
    ensures Launch(s, core, [dep], before) ==
            Downloading(s.(core := core), dep, Fetching).(
              body := Installing(before, map[s.nextId := dep.n], {dep}, {}), asked := s.asked + Asks([dep]))
  {
    var mid, deps := s.(core := core), [dep];
    StartsDownload(mid, dep);
    assert deps[1..] == [] && Elements(deps) == {dep};
    var (t, more) := StartInstall(mid, map[], deps[0]);
    assert StartInstalls(t, more, deps[1..]) == (t, more);
    assert StartInstalls(mid, map[], deps) == (t, more);
  }

  lemma TreeDownloads(s: State, i: nat, dep: Dep, range: string)
    requires Waiting(s, i) && s.body == Resolving([(dep.n, (range, dep.e))])
    requires s.core.manifest == [] && dep.n !in s.core.modules
    ensures Enabled(s, DoTree(i, [dep]))
    ensures TreeArrives(s, i, [dep]) ==
            Downloading(s.(core := s.core.(manifest := [dep])), dep, Fetching).(
              body := Installing(Take(s.core), map[s.nextId := dep.n], {dep}, {}), asked := s.asked + Asks([dep]))
  {
    var core := s.core.(manifest := [dep]);
    assert [dep][1..] == [] && Names([]) == {};
    assert Unknown({}, [dep]) == [dep] && [] + [dep] == [dep];
    assert Merged(s.core, [dep], s.body.request) == core;
    assert dep.n in Names(core.manifest);
    assert AllResolved(core, s.body.request);
    NoNewFallbacks(core, core.manifest);
    assert [dep] + [] == [dep];
    LaunchesDownload(s, core, dep, Take(s.core));
  }

  /** A package just registered and expanded: nothing is awaited any more. */
  function Installed(s: State, dep: Dep, m: NodeModule): State {
    s.(core := s.core.(manifest := [dep], modules := s.core.modules[dep.n := m]), nextId := s.nextId + 1,
       settled := s.settled[s.nextId := true],
       body := Installing(Take(s.core), map[s.nextId := dep.n], {}, {}), asked := s.asked + Asks([dep]))
  }

  predicate Fetched(s: State, dep: Dep, m: NodeModule) {
    m.id == s.nextId && m.version == dep.v && m.entries == EntriesOf(dep) && m.release == Some(Release(dep.s, dep.v))
  }

  /** Download `id` of `dep` is the only one in flight. */
  predicate OneFlight(s: State, id: nat, dep: Dep, phase: Phase) {
    && s.core.cancelled == {} && s.core.downloads == map[KeyOf(dep) := id]
    && s.flights == map[id := Flight(KeyOf(dep), EntriesOf(dep), false, phase)]
  }

  lemma Settles(s: State, id: nat, dep: Dep, ok: bool)
    requires OneFlight(s, id, dep, Thened(ok))
    ensures Enabled(s, DoSettle(id))
    ensures FlightSettled(s, id) == s.(core := s.core.(downloads := map[]), flights := map[], settled := s.settled[id := ok])
  {
    assert s.flights - {id} == map[] && s.core.downloads - {KeyOf(dep)} == map[];
  }

  lemma Fulfils(s: State, id: nat, dep: Dep, m: NodeModule)
    requires OneFlight(s, id, dep, Fetching) && m.id == id && Fetched(s.(nextId := id), dep, m)
    ensures Enabled(s, DoFulfil(id, m))
    ensures var t := FlightFulfilled(s, id, m);
            && OneFlight(t, id, dep, Thened(true))
            && t == s.(core := s.core.(modules := s.core.modules[dep.n := m]), flights := t.flights)
  {
  }

  /** The download completes and settles. */
  lemma DownloadArrives(s: State, t: State, id: nat, dep: Dep, m: NodeModule) returns (u: State)
    requires Reaches(s, t) && OneFlight(t, id, dep, Fetching) && m.id == id && Fetched(t.(nextId := id), dep, m)
    ensures Reaches(s, u)
    ensures u == t.(core := t.core.(modules := t.core.modules[dep.n := m], downloads := map[]), flights := map[], settled := t.settled[id := true])
  {
    Fulfils(t, id, dep, m);
    ReachesNext(s, t, DoFulfil(id, m));
    var mid := FlightFulfilled(t, id, m);
    Settles(mid, id, dep, true);
    ReachesNext(s, mid, DoSettle(id));
    u := FlightSettled(mid, id);
  }

  /** The download fails and settles. */
  lemma DownloadFails(s: State, t: State, id: nat, dep: Dep) returns (u: State)
    requires Reaches(s, t) && OneFlight(t, id, dep, Fetching)
    ensures Reaches(s, u)
    ensures u == t.(core := t.core.(downloads := map[]), flights := map[], settled := t.settled[id := false])
  {
    ReachesNext(s, t, DoReject(id));
    var mid := FlightRejected(t, id);
    Settles(mid, id, dep, false);
    ReachesNext(s, mid, DoSettle(id));
    u := FlightSettled(mid, id);
  }

  lemma ExpandsNothing(s: State, i: nat, dep: Dep, id: nat, before: Snapshot)
    requires ActiveAt(s, i) && s.body == Installing(before, map[id := dep.n], {dep}, {}) && id in s.settled && s.settled[id]
    requires dep.n in s.core.modules && s.core.modules[dep.n].entries == EntriesOf(dep) && s.core.modules[dep.n].release.Some?
    ensures Enabled(s, DoExpand(i, dep)) && ExpandDep(s, dep) == s.(body := Installing(before, map[id := dep.n], {}, {}))
  {
    var m := s.core.modules[dep.n];
    assert EntriesOf(dep) - m.entries == {} && Under(dep.n, {}) == {};
    assert s.core.expansions.Keys + {} == s.core.expansions.Keys;
    assert ExpandModule(s.core, dep.n, {}).expansions == s.core.expansions;
    assert {dep} - {dep} == {} && {} + Under(dep.n, {}) == {};
    assert ExpandModule(s.core, dep.n, {}) == s.core;
  }

  lemma Registered(s: State, t: State, u: State, i: nat, dep: Dep, m: NodeModule)
    requires ActiveAt(s, i) && Fetched(s, dep, m) && s.core.downloads == map[] && s.flights == map[]
    requires t == Downloading(s.(core := s.core.(manifest := [dep])), dep, Fetching).(
                    body := Installing(Take(s.core), map[s.nextId := dep.n], {dep}, {}), asked := s.asked + Asks([dep]))
    requires u == t.(core := t.core.(modules := t.core.modules[dep.n := m], downloads := map[]), flights := map[],
                     settled := t.settled[s.nextId := true])
    ensures Enabled(u, DoExpand(i, dep)) && ExpandDep(u, dep) == Installed(s, dep, m)
  {
    ExpandsNothing(u, i, dep, s.nextId, Take(s.core));
  }

  lemma Installs(s: State, i: nat, dep: Dep, range: string, m: NodeModule)
    requires Waiting(s, i) && s.body == Resolving([(dep.n, (range, dep.e))])
    requires s.core.manifest == [] && dep.n !in s.core.modules && Fetched(s, dep, m)
    ensures Reaches(s, Installed(s, dep, m))
  {
    TreeDownloads(s, i, dep, range);
    ReachesSelf(s);
    ReachesNext(s, s, DoTree(i, [dep]));
    var t := TreeArrives(s, i, [dep]);
    var u := DownloadArrives(s, t, s.nextId, dep, m);
    Registered(s, t, u, i, dep, m);
    ReachesNext(s, u, DoExpand(i, dep));
  }

  // ---- the end of a batch -----------------------------------------------------------------------------

  /** The active batch is over. */
  function Ended(s: State, i: nat): State
    requires ActiveAt(s, i)
  {
    s.(batches := s.batches[i := Done], body := NoBody,
       core := s.core.(pendingBatches := if s.core.pendingBatches > 0 then s.core.pendingBatches - 1 else 0))
  }

  lemma Ends(s: State, t: State, u: State, i: nat)
    requires ActiveAt(t, i) && Reaches(s, u) && u == t.(batches := t.batches[i := Ending], body := NoBody)
    ensures Reaches(s, Ended(t, i))
  {
    ReachesNext(s, u, DoEnd(i));
    assert t.batches[i := Ending][i := Done] == t.batches[i := Done];
    assert Next(u, DoEnd(i)) == Ended(t, i);
  }

  /** Nothing is missing: the batch succeeds. */
  lemma Succeeds(s: State, t: State, i: nat, before: Snapshot, waits: map<nat, string>)
    requires Reaches(s, t) && ActiveAt(t, i) && t.body == Installing(before, waits, {}, {})
    requires AllInstalled(t, waits) && MissingUsed(t.core, t.attempted) == {}
    ensures Reaches(s, Ended(t, i))
  {
    ReachesNext(s, t, DoInstalled(i));
    var linking := t.(body := Linking(before));
    assert Next(t, DoInstalled(i)) == linking;
    ReachesNext(s, linking, DoLinked(i));
    Ends(s, t, Leave(linking, i), i);
  }

  // ---- the failing closure --------------------------------------------------------------------------

  /** Package `p` is installed without entry `x` and uses package `q`. */
  datatype Scenario = Scenario(p: string, q: string, x: string)

  predicate Proper(n: Scenario) {
    n.p != n.q && n.x != ROOT_ENTRY && Bare(n.q)
  }

  function Main(n: Scenario): Dep {
    Dep(n.p, "1", n.p, {ROOT_ENTRY})
  }

  function More(n: Scenario): Dep {
    Dep(n.p, "1", n.p, {n.x})
  }

  function Used(n: Scenario): Dep {
    Dep(n.q, "1", n.q, {ROOT_ENTRY})
  }

  function Module(n: Scenario, id: nat, used: set<string>): NodeModule {
    NodeModule(id, "1", Some(Release(n.p, "1")), P.Part(map[], used), {ROOT_ENTRY})
  }

  /** Only `p` is installed, `q` is missing. */
  predicate UsesMissing(s: State, i: nat, n: Scenario, id: nat, before: Snapshot) {
    && Proper(n) && ActiveAt(s, i) && s.core.modules == map[n.p := Module(n, id, {n.q})] && s.core.manifest == [Main(n)]
    && s.flights == map[] && s.core.downloads == map[] && s.core.cancelled == {} && s.core.fallbacks == map[]
    && s.attempted == {} && s.core.expansions == map[] && id < s.nextId
    && s.body.Installing? && s.body.before == before && s.body.todo == {} && s.body.pending == {}
    && AllInstalled(s, s.body.waits)
  }

  lemma AsksForUsed(s: State, i: nat, n: Scenario, id: nat, before: Snapshot)
    requires UsesMissing(s, i, n, id, before)
    ensures Enabled(s, DoInstalled(i)) && CloseOver(s) == s.(body := Closing(before), attempted := {n.q})
  {
    assert MissingUsed(s.core, {}) == {n.q} by {
      assert s.core.modules[n.p].content.m == {n.q};
    }
    assert {} + {n.q} == {n.q};
  }

  /** The closure's tree lists more of `p`, and `q`. */
  lemma ClosureLaunches(s: State, i: nat, n: Scenario, before: Snapshot)
    requires Proper(n) && ActiveAt(s, i) && s.body == Closing(before) && n.p in s.core.modules && n.q !in s.core.modules
    requires s.core.manifest == [Main(n)] && s.flights == map[] && s.core.downloads == map[] && s.core.fallbacks == map[]
    ensures Enabled(s, DoClosure(i, [More(n), Used(n)]))
    ensures ClosureArrives(s, i, [More(n), Used(n)]) ==
            Downloading(s.(core := s.core.(manifest := [Main(n), Used(n)])), Used(n), Fetching).(
              body := Installing(before, map[s.nextId := n.q], {More(n), Used(n)}, {}), asked := s.asked + Asks([More(n), Used(n)]))
  {
    var deps, core := [More(n), Used(n)], s.core.(manifest := [Main(n), Used(n)]);
    assert deps[1..] == [Used(n)] && [Used(n)][1..] == [];
    assert Names([Main(n)]) == {n.p};
    assert Unknown({n.p}, [Used(n)]) == [Used(n)];
    assert deps[0].n in {n.p};
    assert Unknown({n.p}, deps) == [] + Unknown({n.p}, deps[1..]) == [Used(n)];
    assert [Main(n)] + [Used(n)] == [Main(n), Used(n)];
    assert ClosureCore(s, deps) == core;
    var mid := s.(core := core);
    StartsDownload(mid, Used(n));
    assert StartInstall(mid, map[], deps[0]) == (mid, map[]);
    assert StartInstalls(mid, map[], deps) == StartInstalls(mid, map[], [Used(n)]);
    assert StartInstalls(mid, map[], [Used(n)]) == StartInstall(mid, map[], Used(n));
    assert Elements(deps) == {More(n), Used(n)};
  }

  /** The batch expands `p` while it awaits `q`. */
  lemma ExpandsMore(s: State, i: nat, n: Scenario, id: nat, later: nat, before: Snapshot)
    requires Proper(n) && ActiveAt(s, i) && s.core.modules == map[n.p := Module(n, id, {n.q})] && s.core.expansions == map[]
    requires s.body == Installing(before, map[later := n.q], {More(n), Used(n)}, {})
    ensures Enabled(s, DoExpand(i, More(n)))
    ensures ExpandDep(s, More(n)) ==
            s.(core := s.core.(expansions := map[(n.p, n.x) := Expansion(id, Release(n.p, "1"))]),
               body := Installing(before, map[later := n.q], {Used(n)}, {(n.p, n.x)}))
  {
    var missing := EntriesOf(More(n)) - s.core.modules[n.p].entries;
    assert missing == {n.x} && Under(n.p, missing) == {(n.p, n.x)};
    assert s.core.expansions.Keys + {(n.p, n.x)} == {(n.p, n.x)};
    assert {More(n), Used(n)} - {More(n)} == {Used(n)} by { assert More(n).n != Used(n).n; }
    assert {} + {(n.p, n.x)} == {(n.p, n.x)};
  }

  /** The failure takes `p` back and leaves its expansion in flight. */
  lemma TakesBack(s: State, i: nat, n: Scenario, before: Snapshot)
    requires ActiveAt(s, i) && s.body.Installing? && s.body.before == before && before.names == {} && before.manifest == [] && before.fallbacks == map[]
    requires s.core.downloads == map[] && s.core.cancelled == {} && s.core.fallbacks == map[]
    ensures Enabled(s, DoFail(i))
    ensures Fail(s, i, before) == s.(core := s.core.(manifest := [], modules := map[]), batches := s.batches[i := Ending], body := NoBody)
  {
    assert s.core.cancelled + s.core.downloads.Values == {};
    assert Rollback(s.core, before) == s.core.(manifest := [], modules := map[]);
  }

  /** From the closure's request to where `p` is being expanded. */
  lemma ExpandsInFlight(s: State, t: State, i: nat, n: Scenario, id: nat, before: Snapshot) returns (u: State)
    requires Reaches(s, t) && UsesMissing(t, i, n, id, before)
    ensures Reaches(s, u) && u.batches == t.batches && u.nextId == t.nextId + 1
    ensures OneFlight(u, t.nextId, Used(n), Fetching) && u.body.Installing? && u.body.before == before
    ensures u.core == t.core.(manifest := u.core.manifest, downloads := u.core.downloads,
                              expansions := map[(n.p, n.x) := Expansion(id, Release(n.p, "1"))])
  {
    AsksForUsed(t, i, n, id, before);
    ReachesNext(s, t, DoInstalled(i));
    var closing := CloseOver(t);
    ClosureLaunches(closing, i, n, before);
    ReachesNext(s, closing, DoClosure(i, [More(n), Used(n)]));
    var launched := ClosureArrives(closing, i, [More(n), Used(n)]);
    ExpandsMore(launched, i, n, id, t.nextId, before);
    ReachesNext(s, launched, DoExpand(i, More(n)));
    u := ExpandDep(launched, More(n));
  }

  /** And on to the end of the failed batch. */
  lemma FailsStale(s: State, t: State, i: nat, n: Scenario, id: nat, before: Snapshot) returns (u: State)
    requires Reaches(s, t) && UsesMissing(t, i, n, id, before)
    requires before.names == {} && before.manifest == [] && before.fallbacks == map[]
    ensures Reaches(s, u) && u.body == NoBody && u.batches == t.batches[i := Done] && u.nextId == t.nextId + 1
    ensures u.flights == map[] && u.core == t.core.(manifest := [], modules := map[], pendingBatches := u.core.pendingBatches,
                                                    expansions := map[(n.p, n.x) := Expansion(id, Release(n.p, "1"))])
  {
    var expanding := ExpandsInFlight(s, t, i, n, id, before);
    var failed := DownloadFails(s, expanding, t.nextId, Used(n));
    TakesBack(failed, i, n, before);
    ReachesNext(s, failed, DoFail(i));
    var ending := Fail(failed, i, before);
    Ends(s, failed.(core := ending.core), ending, i);
    u := Ended(failed.(core := ending.core), i);
  }

  // ---- the run ----------------------------------------------------------------------------------------

  lemma ReachesOn(s: State, t: State, u: State)
    requires Reaches(s, t) && Reaches(t, u)
    ensures Reaches(s, u)
  {
    var trace: seq<State>, labels: seq<Label> :| Steps(trace, labels) && trace[0] == t && trace[|labels|] == u;
    ReachesAlong(s, trace, labels, |labels|);
  }

  lemma {:induction false} ReachesAlong(s: State, trace: seq<State>, labels: seq<Label>, k: nat)
    requires Steps(trace, labels) && k < |trace| && Reaches(s, trace[0])
    ensures Reaches(s, trace[k])
  {
    if k > 0 {
      ReachesAlong(s, trace, labels, k - 1);
      StepAt(trace, labels, k - 1);
      ReachesNext(s, trace[k - 1], labels[k - 1]);
    }
  }

  /** A registry that declares `p`, with nothing installed or in flight. */
  function Blank(n: Scenario): State {
    State(Core(map[], map[], {}, map[], [], map[], map[n.p := "1"], false, None, 0), [], NoBody, map[], map[], 0, {}, Snapshot([], map[], {}), {})
  }

  /** One successful or failing install of `p` from a state at rest, up to its used-module closure. */
  lemma InstallsMain(s: State, n: Scenario, used: set<string>) returns (t: State)
    requires AtRest(s) && s.core.modules == map[] && s.core.manifest == []
    ensures Reaches(s, t) && ActiveAt(t, |s.batches|)
    ensures var m := Module(n, s.nextId, used);
            && t.core == s.core.(manifest := [Main(n)], modules := map[n.p := m], pendingBatches := s.core.pendingBatches + 1)
            && t.batches == s.batches + [Active] && t.flights == map[] && t.nextId == s.nextId + 1 && t.attempted == {}
            && t.body == Installing(Snapshot([], map[], {}), map[s.nextId := n.p], {}, {})
            && s.nextId in t.settled && t.settled[s.nextId]
  {
    var p, m := (n.p, ROOT_ENTRY), Module(n, s.nextId, used);
    StartsFresh(s, p);
    var mid := Started(s, p);
    Installs(mid, |s.batches|, Main(n), RangeOf(s.core, n.p), m);
    t := Installed(mid, Main(n), m);
    ReachesOn(s, mid, t);
    assert Take(mid.core) == Snapshot([], map[], {});
    assert mid.core.modules[n.p := m] == map[n.p := m];
  }

  lemma FirstFails(n: Scenario) returns (u: State)
    requires Proper(n)
    ensures Reaches(Blank(n), u) && AtRest(u) && u.core.modules == map[] && u.core.manifest == []
    ensures u.core.expansions == map[(n.p, n.x) := Expansion(0, Release(n.p, "1"))] && u.nextId > 0
  {
    var t := InstallsMain(Blank(n), n, {n.q});
    u := FailsStale(Blank(n), t, 0, n, 0, Snapshot([], map[], {}));
  }

  lemma SecondSucceeds(u: State, n: Scenario) returns (t: State)
    requires AtRest(u) && u.core.modules == map[] && u.core.manifest == []
    ensures Reaches(u, t) && AtRest(t) && t.core.modules == map[n.p := Module(n, u.nextId, {})] && t.core.expansions == u.core.expansions
  {
    var mid := InstallsMain(u, n, {});
    assert MissingUsed(mid.core, mid.attempted) == {} by {
      assert forall name :: name in mid.core.modules ==> mid.core.modules[name].content.m == {};
    }
    Succeeds(u, mid, |u.batches|, mid.body.before, mid.body.waits);
    t := Ended(mid, |u.batches|);
  }

  lemma BlankIsBooted(n: Scenario)
    ensures Booted(Blank(n)) && Inv(Blank(n)) && AtRest(Blank(n))
  {
    InvBooted(Blank(n));
  }

  /**
   * A batch can start stale: from a blank registry an install fails while it expands package `p`, the next
   * one installs `p` again, and the third wants the very entry whose expansion is still in flight.
   */
  lemma StaleIsReachable(n: Scenario) returns (s: State, i: nat)
    requires Proper(n)
    ensures Booted(Blank(n)) && Reaches(Blank(n), s) && WantsOne(s, i, (n.p, n.x)) && !Fresh(s.core, (n.p, n.x))
  {
    BlankIsBooted(n);
    var u := FirstFails(n);
    var t := SecondSucceeds(u, n);
    ReachesOn(Blank(n), u, t);
    Imports(t, (n.p, n.x));
    s, i := Imported(t, (n.p, n.x)), |t.batches|;
    ReachesOn(Blank(n), t, s);
    ReachesInv(Blank(n), s);
  }

  /** And then the entry can be lost: that third batch can finish, its tree listing the entry, without it. */
  lemma EntryCanBeLost(n: Scenario) returns (s: State, i: nat, trace: seq<State>, labels: seq<Label>)
    requires Proper(n)
    ensures Booted(Blank(n)) && Reaches(Blank(n), s) && Finishes(s, i, (n.p, n.x), trace, labels)
    ensures s.batches[i].imports == [(n.p, {n.x})] && !Loaded(trace[|labels|].core, (n.p, n.x))
  {
    s, i := StaleIsReachable(n);
    trace, labels := StaleRun(s, i, (n.p, n.x), P.NOTHING);
  }
}
