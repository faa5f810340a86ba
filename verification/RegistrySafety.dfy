/** What every interleaving of installs, failures and late downloads keeps. */
module RegistrySafety {
  import opened Registry

  // ---- downloads -----------------------------------------------------------------------

  predicate Live(s: State, id: nat) {
    id in s.flights && id !in s.core.cancelled
  }

  /** Download `id` has settled, and if it succeeded its package is registered. */
  predicate Arrived(s: State, id: nat, name: string) {
    id in s.settled && (s.settled[id] ==> name in s.core.modules)
  }

  /**
   * Every download that may still register is one the active batch waits for, under its own key;
   * no name is awaited twice, and a live download's package is registered exactly from its `then` on.
   */
  ghost predicate FlightsOk(s: State, waits: map<nat, string>) {
    && (forall id :: id in s.flights || id in s.settled ==> id < s.nextId)
    && (forall id :: id in s.flights ==> id !in s.settled)
    && s.core.cancelled <= s.flights.Keys
    && (forall key :: key in s.core.downloads ==>
          s.core.downloads[key] in s.flights && s.flights[s.core.downloads[key]].key == key)
    && (forall id :: Live(s, id) ==> LiveOk(s, id, waits))
    && (forall id :: id in waits ==> Live(s, id) || Arrived(s, id, waits[id]))
    && (forall a, b :: a in waits && b in waits && a != b ==> waits[a] != waits[b])
  }

  predicate LiveOk(s: State, id: nat, waits: map<nat, string>)
    requires id in s.flights
  {
    var key := s.flights[id].key;
    && key in s.core.downloads && s.core.downloads[key] == id
    && id in waits && waits[id] == key.name
    && (s.flights[id].phase == Thened(true) <==> key.name in s.core.modules)
  }

  predicate NothingLive(s: State) {
    s.flights.Keys == s.core.cancelled
  }

  lemma NothingLiveMeans(s: State, waits: map<nat, string>)
    requires FlightsOk(s, waits) && forall id :: id in waits ==> id in s.settled
    ensures NothingLive(s) && FlightsOk(s, map[])
  {
    forall id | id in s.flights ensures id in s.core.cancelled {
      if Live(s, id) {
        assert false;
      }
    }
  }

  // ---- starting downloads ------------------------------------------------------------------

  /** The names of `deps` that are not installed. */
  function Missing(modules: set<string>, deps: seq<Dep>): set<string> {
    Names(deps) - modules
  }

  predicate NotAwaited(waits: map<nat, string>, name: string) {
    forall id :: id in waits ==> waits[id] != name
  }

  /** A name nobody awaits and nobody installed has no download to share. */
  lemma NotShared(s: State, waits: map<nat, string>, dep: Dep)
    requires FlightsOk(s, waits) && NotAwaited(waits, dep.n)
    ensures var key := Key(dep.n, dep.s, dep.v); key in s.core.downloads ==> s.core.downloads[key] in s.core.cancelled
  {
    var key := Key(dep.n, dep.s, dep.v);
    if key in s.core.downloads && Live(s, s.core.downloads[key]) {
      assert false;
    }
  }

  lemma StartOne(s: State, waits: map<nat, string>, dep: Dep)
    requires FlightsOk(s, waits) && NotAwaited(waits, dep.n) && dep.n !in s.core.modules
    ensures StartInstall(s, waits, dep) == (Launched(s, dep), waits[s.nextId := dep.n])
    ensures FlightsOk(Launched(s, dep), waits[s.nextId := dep.n])
  {
    NotShared(s, waits, dep);
    var id, t, more := s.nextId, Launched(s, dep), waits[s.nextId := dep.n];
    forall other | Live(t, other) ensures LiveOk(t, other, more) {
      if other != id {
        assert Live(s, other) && LiveOk(s, other, waits);
      }
    }
    forall other | other in more ensures Live(t, other) || Arrived(t, other, more[other]) {
      if other != id { assert Live(s, other) || Arrived(s, other, waits[other]); }
    }
  }

  /** One more download in flight. */
  function Launched(s: State, dep: Dep): State {
    var key := Key(dep.n, dep.s, dep.v);
    s.(core := s.core.(downloads := s.core.downloads[key := s.nextId]),
       flights := s.flights[s.nextId := Flight(key, EntriesOf(dep), dep.n in s.core.fallbacks, Fetching)],
       nextId := s.nextId + 1)
  }

  /** What starting downloads leaves alone. */
  ghost predicate OnlyDownloads(s: State, t: State) {
    && t.core == s.core.(downloads := t.core.downloads)
    && t.batches == s.batches && t.body == s.body && t.begun == s.begun && t.settled == s.settled && t.asked == s.asked
  }

  lemma {:induction false} StartAll(s: State, waits: map<nat, string>, deps: seq<Dep>)
    requires FlightsOk(s, waits) && Distinct(deps)
    requires forall n :: n in Names(deps) ==> NotAwaited(waits, n)
    ensures var (t, more) := StartInstalls(s, waits, deps);
            FlightsOk(t, more) && OnlyDownloads(s, t)
            && more.Values == waits.Values + Missing(s.core.modules.Keys, deps)
    decreases |deps|
  {
    if |deps| > 0 {
      var dep, rest := deps[0], deps[1..];
      NamesUncons(deps);
      if dep.n in s.core.modules {
        StartAll(s, waits, rest);
      } else {
        StartOne(s, waits, dep);
        ValuesAdd(waits, s.nextId, dep.n, s);
        StartAll(Launched(s, dep), waits[s.nextId := dep.n], rest);
      }
    }
  }

  lemma NamesUncons(deps: seq<Dep>)
    requires |deps| > 0 && Distinct(deps)
    ensures Names(deps) == {deps[0].n} + Names(deps[1..])
    ensures deps[0].n !in Names(deps[1..]) && Distinct(deps[1..])
  {
  }

  lemma ValuesAdd(waits: map<nat, string>, id: nat, name: string, s: State)
    requires FlightsOk(s, waits) && id == s.nextId
    ensures waits[id := name].Values == waits.Values + {name}
  {
    assert id !in waits by {
      assert !Live(s, id) && id !in s.settled;
    }
    forall v | v in waits.Values ensures v in waits[id := name].Values {
      var k :| k in waits && waits[k] == v;
      assert waits[id := name][k] == v;
    }
    assert waits[id := name][id] == name;
  }

  // ---- a download's own steps --------------------------------------------------------------------

  lemma FulfilFlights(s: State, waits: map<nat, string>, id: nat, installed: NodeModule)
    requires FlightsOk(s, waits) && FetchingAt(s, id)
    ensures FlightsOk(FlightFulfilled(s, id, installed), waits)
  {
    var t := FlightFulfilled(s, id, installed);
    forall other | Live(t, other) ensures LiveOk(t, other, waits) {
      assert Live(s, other) && LiveOk(s, other, waits);
      if Live(s, id) && other != id { assert LiveOk(s, id, waits); }
    }
    forall w | w in waits ensures Live(t, w) || Arrived(t, w, waits[w]) {
      assert Live(s, w) || Arrived(s, w, waits[w]);
    }
  }

  lemma RejectFlights(s: State, waits: map<nat, string>, id: nat)
    requires FlightsOk(s, waits) && FetchingAt(s, id)
    ensures FlightsOk(FlightRejected(s, id), waits)
  {
    var t := FlightRejected(s, id);
    forall other | Live(t, other) ensures LiveOk(t, other, waits) {
      assert Live(s, other) && LiveOk(s, other, waits);
    }
    forall w | w in waits ensures Live(t, w) || Arrived(t, w, waits[w]) {
      assert Live(s, w) || Arrived(s, w, waits[w]);
    }
  }

  lemma SettleFlights(s: State, waits: map<nat, string>, id: nat)
    requires FlightsOk(s, waits) && id in s.flights && s.flights[id].phase.Thened?
    ensures FlightsOk(FlightSettled(s, id), waits)
  {
    var t := FlightSettled(s, id);
    forall other | Live(t, other) ensures LiveOk(t, other, waits) {
      assert Live(s, other) && LiveOk(s, other, waits);
    }
    forall w | w in waits ensures Live(t, w) || Arrived(t, w, waits[w]) {
      assert Live(s, w) || Arrived(s, w, waits[w]);
      if w == id && Live(s, w) { assert LiveOk(s, w, waits); }
    }
  }

  /** Modules registered or deleted by others leave the downloads as they are, if no awaited name is touched. */
  lemma FlightsFrame(s: State, t: State, waits: map<nat, string>)
    requires FlightsOk(s, waits)
    requires t.flights == s.flights && t.settled == s.settled && t.nextId == s.nextId
    requires t.core.downloads == s.core.downloads && t.core.cancelled == s.core.cancelled
    requires t.core.modules.Keys == s.core.modules.Keys
    ensures FlightsOk(t, waits)
  {
    forall id | Live(t, id) ensures LiveOk(t, id, waits) {
      assert Live(s, id) && LiveOk(s, id, waits);
    }
    forall w | w in waits ensures Live(t, w) || Arrived(t, w, waits[w]) {
      assert Live(s, w) || Arrived(s, w, waits[w]);
    }
  }

  /** Rolling back leaves no live download. */
  lemma RollbackFlights(s: State, waits: map<nat, string>, before: Snapshot)
    requires FlightsOk(s, waits)
    ensures FlightsOk(s.(core := Rollback(s.core, before)), map[])
    ensures NothingLive(s.(core := Rollback(s.core, before)))
  {
    var t := s.(core := Rollback(s.core, before));
    forall id | id in t.flights ensures id in t.core.cancelled {
      if Live(s, id) {
        assert LiveOk(s, id, waits);
        assert s.core.downloads[s.flights[id].key] in s.core.downloads.Values;
      }
    }
    forall id | id in t.core.cancelled ensures id in t.flights {
      if id !in s.core.cancelled {
        var key :| key in s.core.downloads && s.core.downloads[key] == id;
      }
    }
  }

  // ---- the manifest --------------------------------------------------------------------------------

  lemma NamesConcat(a: seq<Dep>, b: seq<Dep>)
    ensures Names(a + b) == Names(a) + Names(b)
  {
  }

  lemma DistinctConcat(a: seq<Dep>, b: seq<Dep>)
    requires Distinct(a) && Distinct(b) && Names(a) !! Names(b)
    ensures Distinct(a + b)
  {
    forall i, j | 0 <= i < j < |a + b| ensures (a + b)[i].n != (a + b)[j].n {
      if i < |a| <= j {
        assert a[i].n in Names(a) && b[j - |a|].n in Names(b);
      }
    }
  }

  lemma {:induction false} UnknownIs(known: set<string>, deps: seq<Dep>)
    requires Distinct(deps)
    ensures Names(Unknown(known, deps)) == Names(deps) - known && Distinct(Unknown(known, deps))
  {
    if |deps| > 0 {
      NamesUncons(deps);
      UnknownIs(known, deps[1..]);
      if deps[0].n !in known {
        NamesConcat([deps[0]], Unknown(known, deps[1..]));
        assert Names([deps[0]]) == {deps[0].n};
        DistinctConcat([deps[0]], Unknown(known, deps[1..]));
      } else {
        assert Unknown(known, deps) == Unknown(known, deps[1..]);
      }
    }
  }

  /** Adding what a tree lists that the manifest does not keeps the names distinct. */
  lemma ManifestGrows(manifest: seq<Dep>, deps: seq<Dep>)
    requires Distinct(manifest) && Distinct(deps)
    ensures var merged := manifest + Unknown(Names(manifest), deps);
            Distinct(merged) && Names(merged) == Names(manifest) + Names(deps)
  {
    UnknownIs(Names(manifest), deps);
    NamesConcat(manifest, Unknown(Names(manifest), deps));
    DistinctConcat(manifest, Unknown(Names(manifest), deps));
  }

  /** The keys of an insertion-ordered map. */
  ghost function Firsts<T>(pairs: seq<(string, T)>): set<string> {
    set p | p in pairs :: p.0
  }

  ghost predicate DistinctFirsts<T>(pairs: seq<(string, T)>) {
    forall i, j :: 0 <= i < j < |pairs| ==> pairs[i].0 != pairs[j].0
  }

  lemma FirstsUncons<T>(pairs: seq<(string, T)>)
    requires |pairs| > 0
    ensures Firsts(pairs) == {pairs[0].0} + Firsts(pairs[1..])
    ensures DistinctFirsts(pairs) <==> pairs[0].0 !in Firsts(pairs[1..]) && DistinctFirsts(pairs[1..])
  {
  }

  lemma {:induction false} RegisterFallbacksIs(c: Core, resolved: set<string>, request: Request)
    requires DistinctFirsts(request) && Distinct(c.manifest)
    requires (Firsts(request) - resolved) !! Names(c.manifest)
    ensures var d, dropped := RegisterFallbacks(c, resolved, request), Firsts(request) - resolved;
            && d == c.(fallbacks := d.fallbacks, manifest := d.manifest)
            && d.fallbacks.Keys == c.fallbacks.Keys + dropped
            && Names(d.manifest) == Names(c.manifest) + dropped && Distinct(d.manifest)
    decreases |request|
  {
    if |request| > 0 {
      var (name, (range, _)) := request[0];
      FirstsUncons(request);
      if name in resolved {
        RegisterFallbacksIs(c, resolved, request[1..]);
      } else {
        var entry := Dep(name, range, name, {});
        NamesConcat(c.manifest, [entry]);
        assert Names([entry]) == {name};
        DistinctConcat(c.manifest, [entry]);
        RegisterFallbacksIs(c.(fallbacks := c.fallbacks[name := range], manifest := c.manifest + [entry]), resolved, request[1..]);
      }
    }
  }

  lemma {:induction false} NewFallbacksIs(c: Core, before: map<string, string>, deps: seq<Dep>)
    requires Distinct(deps)
    ensures Names(NewFallbacks(c, before, deps)) == (set n | n in Names(deps) && n in c.fallbacks && n !in before)
    ensures Distinct(NewFallbacks(c, before, deps))
  {
    if |deps| > 0 {
      var rest := NewFallbacks(c, before, deps[1..]);
      NamesUncons(deps);
      NewFallbacksIs(c, before, deps[1..]);
      if deps[0].n in c.fallbacks && deps[0].n !in before {
        NamesConcat([deps[0]], rest);
        assert Names([deps[0]]) == {deps[0].n};
        DistinctConcat([deps[0]], rest);
      } else {
        assert NewFallbacks(c, before, deps) == rest;
      }
    }
  }

  lemma {:induction false} AddImportDistinct(imports: Imports, name: string, entry: string)
    requires DistinctFirsts(imports)
    ensures DistinctFirsts(AddImport(imports, name, entry))
    ensures Firsts(AddImport(imports, name, entry)) == Firsts(imports) + {name}
  {
    var more := AddImport(imports, name, entry);
    if |imports| == 0 {
      assert more == [(name, {entry})];
    } else {
      FirstsUncons(imports);
      FirstsUncons(more);
      if imports[0].0 != name {
        AddImportDistinct(imports[1..], name, entry);
      }
    }
  }

  lemma {:induction false} RequestDistinct(c: Core, imports: Imports)
    requires DistinctFirsts(imports)
    ensures DistinctFirsts(RequestOf(c, imports)) && Firsts(RequestOf(c, imports)) <= Firsts(imports)
  {
    if |imports| > 0 {
      FirstsUncons(imports);
      RequestDistinct(c, imports[1..]);
      RequestUncons(c, imports);
    }
  }

  lemma {:induction false} RequestUncons(c: Core, imports: Imports)
    requires |imports| > 0
    ensures AskOf(c, imports[0].0, imports[0].1) == [] ==> RequestOf(c, imports) == RequestOf(c, imports[1..])
    ensures AskOf(c, imports[0].0, imports[0].1) != [] ==>
              var ask, rest, request := AskOf(c, imports[0].0, imports[0].1)[0], RequestOf(c, imports[1..]), RequestOf(c, imports);
              && |request| > 0 && request[0] == ask && request[1..] == rest
              && Firsts(request) == {ask.0} + Firsts(rest)
              && (DistinctFirsts(request) <==> ask.0 !in Firsts(rest) && DistinctFirsts(rest))
  {
    var request := RequestOf(c, imports);
    if AskOf(c, imports[0].0, imports[0].1) != [] {
      assert request[1..] == RequestOf(c, imports[1..]);
      FirstsUncons(request);
    }
  }

  /** The entries a batch wants from a package. */
  function Wanted(imports: Imports, name: string): set<string> {
    if |imports| == 0 then {} else (if imports[0].0 == name then imports[0].1 else {}) + Wanted(imports[1..], name)
  }

  /** One more import adds its entry to its own package's, and to no other's. */
  lemma {:induction false} AddImportAdds(imports: Imports, name: string, entry: string, other: string)
    ensures Wanted(AddImport(imports, name, entry), other) == Wanted(imports, other) + (if other == name then {entry} else {})
  {
    var more := AddImport(imports, name, entry);
    if |imports| == 0 {
      assert more[1..] == [];
    } else if imports[0].0 == name {
      assert more[1..] == imports[1..];
    } else {
      assert more[1..] == AddImport(imports[1..], name, entry);
      AddImportAdds(imports[1..], name, entry, other);
    }
  }

  /** Whether the first import wants anything of `name`, and what the others want of it. */
  lemma {:induction false} WantedUncons(imports: Imports, name: string)
    requires |imports| > 0 && DistinctFirsts(imports)
    ensures DistinctFirsts(imports[1..])
    ensures Wanted(imports, name) == if imports[0].0 == name then imports[0].1 else Wanted(imports[1..], name)
  {
    FirstsUncons(imports);
    if imports[0].0 == name {
      NotWanted(imports[1..], name);
    }
  }

  lemma {:induction false} RequestNames(c: Core, imports: Imports, name: string)
    requires DistinctFirsts(imports)
    ensures name in Firsts(RequestOf(c, imports)) <==> Lacking(c, imports, name) != {}
  {
    if |imports| > 0 {
      WantedUncons(imports, name);
      RequestNames(c, imports[1..], name);
      RequestUncons(c, imports);
      if imports[0].0 == name {
        RequestDistinct(c, imports[1..]);
        FirstsUncons(imports);
      }
    }
  }

  lemma {:induction false} RequestAsks(c: Core, imports: Imports, p: (string, (string, set<string>)))
    requires DistinctFirsts(imports) && p in RequestOf(c, imports)
    ensures p.1.0 == RangeOf(c, p.0) && p.1.1 == Lacking(c, imports, p.0)
  {
    if |imports| > 0 {
      WantedUncons(imports, p.0);
      OneMoreAsked(c, imports);
      if p in RequestOf(c, imports[1..]) {
        RequestAsks(c, imports[1..], p);
        RequestDistinct(c, imports[1..]);
        FirstsUncons(imports);
        assert p.0 in Firsts(RequestOf(c, imports[1..]));
      }
    }
  }

  /** A batch requests exactly the packages that lack an entry it wants, each at its own range and for the entries it lacks. */
  lemma {:induction false} RequestIsMissing(c: Core, imports: Imports, name: string)
    requires DistinctFirsts(imports)
    ensures name in Firsts(RequestOf(c, imports)) <==> Lacking(c, imports, name) != {}
    ensures forall p :: p in RequestOf(c, imports) ==> p.1.0 == RangeOf(c, p.0) && p.1.1 == Lacking(c, imports, p.0)
  {
    RequestNames(c, imports, name);
    forall p | p in RequestOf(c, imports) ensures p.1.0 == RangeOf(c, p.0) && p.1.1 == Lacking(c, imports, p.0) {
      RequestAsks(c, imports, p);
    }
  }

  lemma {:induction false} OneMoreAsked(c: Core, imports: Imports)
    requires |imports| > 0
    ensures forall p :: p in RequestOf(c, imports) ==>
              p in RequestOf(c, imports[1..]) || (p.0 == imports[0].0 && p in AskOf(c, imports[0].0, imports[0].1))
  {
  }

  /** The entries a batch wants from a package that are not loaded. */
  function Lacking(c: Core, imports: Imports, name: string): set<string> {
    Wanted(imports, name) - if name in c.modules then c.modules[name].entries else {}
  }

  lemma {:induction false} NotWanted(imports: Imports, name: string)
    requires name !in Firsts(imports)
    ensures Wanted(imports, name) == {}
  {
    if |imports| > 0 {
      FirstsUncons(imports);
      NotWanted(imports[1..], name);
    }
  }
}
