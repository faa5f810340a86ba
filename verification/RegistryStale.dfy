/**
 * When a batch can miss an entry it wants: exactly when an expansion of that entry is in flight for an
 * object that a failure took back.
 */
module RegistryStale {
  import opened Registry
  import opened RegistrySafety
  import opened RegistryRuns
  import opened RegistryLoads
  import P = ModuleParts

  // ---- runs that end without the entry --------------------------------------------------------

  /** Batch `i` is next, and wants one entry that its installed package lacks. */
  ghost predicate WantsOne(s: State, i: nat, p: (string, string)) {
    && Inv(s) && CanStart(s, i) && s.batches[i].imports == [(p.0, {p.1})]
    && p.0 in s.core.modules && s.core.modules[p.0].release.Some? && !Loaded(s.core, p)
  }

  /** A run in which batch `i` starts at once, its tree lists the entry in step `t`, and it ends well in step `k`. */
  ghost predicate FinishesAt(s: State, i: nat, p: (string, string), trace: seq<State>, labels: seq<Label>, t: nat, k: nat) {
    && Running(trace, labels, 0, k) && 0 < t < k && |labels| == k + 1
    && trace[0] == s && labels[0] == DoStart(i) && labels[k].DoLinked?
    && labels[t].DoTree? && p in Asks(labels[t].deps)
  }

  ghost predicate Finishes(s: State, i: nat, p: (string, string), trace: seq<State>, labels: seq<Label>) {
    |trace| == |labels| + 1 && exists t: nat, k: nat :: FinishesAt(s, i, p, trace, labels, t, k)
  }

  function DepFor(p: (string, string)): Dep {
    Dep(p.0, "", p.0, {p.1})
  }

  lemma RequestsOne(c: Core, p: (string, string))
    requires !Loaded(c, p)
    ensures RequestOf(c, [(p.0, {p.1})]) == [(p.0, (RangeOf(c, p.0), {p.1}))]
  {
    var imports: Imports := [(p.0, {p.1})];
    assert imports[1..] == [];
    assert {p.1} - (if p.0 in c.modules then c.modules[p.0].entries else {}) == {p.1};
  }

  lemma Starts(s: State, i: nat, p: (string, string))
    requires WantsOne(s, i, p)
    ensures var t := StartBatch(s, i);
            && t.body == Resolving([(p.0, (RangeOf(s.core, p.0), {p.1}))]) && ActiveAt(t, i) && t.core == s.core && t.asked == {}
  {
    RequestsOne(s.core, p);
  }

  lemma NothingNew(c: Core, dep: Dep, request: Request)
    requires dep.n in Names(c.manifest) && |request| == 1 && request[0].0 == dep.n
    ensures Merged(c, [dep], request) == c && AllResolved(c, request)
  {
    assert [dep][1..] == [] && request[1..] == [];
    assert Unknown(Names(c.manifest), [dep]) == [];
    assert c.manifest + [] == c.manifest;
    assert RegisterFallbacks(c, Names(c.manifest), request) == c;
  }

  lemma NoNewFallbacks(c: Core, deps: seq<Dep>)
    ensures NewFallbacks(c, c.fallbacks, deps) == []
  {
  }

  lemma LaunchesOne(s: State, dep: Dep, before: Snapshot)
    requires dep.n in s.core.modules
    ensures Launch(s, s.core, [dep], before) == s.(body := Installing(before, map[], {dep}, {}), asked := s.asked + Asks([dep]))
  {
    assert [dep][1..] == [];
    assert Elements([dep]) == {dep};
    assert StartInstalls(s, map[], [dep]) == (s, map[]);
  }

  lemma TreeOfOne(s: State, i: nat, p: (string, string), range: string)
    requires Inv(s) && ActiveAt(s, i) && s.body == Resolving([(p.0, (range, {p.1}))]) && p.0 in s.core.modules
    ensures Enabled(s, DoTree(i, [DepFor(p)]))
    ensures TreeArrives(s, i, [DepFor(p)]) ==
            s.(body := Installing(Take(s.core), map[], {DepFor(p)}, {}), asked := s.asked + Asks([DepFor(p)]))
  {
    var dep := DepFor(p);
    NothingNew(s.core, dep, s.body.request);
    NoNewFallbacks(s.core, s.core.manifest);
    assert [dep] + [] == [dep];
    LaunchesOne(s, dep, Take(s.core));
  }

  lemma SharesStale(s: State, i: nat, p: (string, string), before: Snapshot)
    requires ActiveAt(s, i) && s.body == Installing(before, map[], {DepFor(p)}, {})
    requires p.0 in s.core.modules && s.core.modules[p.0].release.Some? && !Loaded(s.core, p) && p in s.core.expansions
    ensures Enabled(s, DoExpand(i, DepFor(p)))
    ensures ExpandDep(s, DepFor(p)) == s.(body := Installing(before, map[], {}, {p}))
  {
    var m, dep := s.core.modules[p.0], DepFor(p);
    assert EntriesOf(dep) - m.entries == {p.1};
    assert Under(p.0, {p.1}) == {p};
    assert s.core.expansions.Keys + {p} == s.core.expansions.Keys;
    assert ExpandModule(s.core, p.0, {p.1}).expansions == s.core.expansions;
    assert {dep} - {dep} == {} && {} + {p} == {p};
  }

  lemma ArrivesStale(s: State, p: (string, string), before: Snapshot, part: P.Part)
    requires s.body == Installing(before, map[], {}, {p}) && p in s.core.expansions && !Fresh(s.core, p)
    ensures Enabled(s, DoExpanded(p.0, p.1, part))
    ensures ExpansionArrives(s, p.0, p.1, part) ==
            s.(core := s.core.(expansions := s.core.expansions - {p}), body := Installing(before, map[], {}, {}))
  {
    assert p == (p.0, p.1);
    assert {p} - {p} == {};
  }

  /** From where nothing is awaited to the end, the used-module closure failing if there is anything to request. */
  lemma LinksUp(s: State, i: nat, before: Snapshot) returns (trace: seq<State>, labels: seq<Label>)
    requires ActiveAt(s, i) && s.body == Installing(before, map[], {}, {})
    ensures Steps(trace, labels) && |labels| > 0 && trace[0] == s && labels[|labels| - 1] == DoLinked(i)
    ensures forall k :: 0 <= k < |labels| ==> trace[k].body != NoBody
    ensures trace[|labels|].core == s.core
  {
    var t := Next(s, DoInstalled(i));
    if t.body.Linking? {
      trace, labels := [s, t, Next(t, DoLinked(i))], [DoInstalled(i), DoLinked(i)];
    } else {
      var u := Next(t, DoClosureFails(i));
      trace, labels := [s, t, u, Next(u, DoLinked(i))], [DoInstalled(i), DoClosureFails(i), DoLinked(i)];
    }
  }

  lemma StepFirst(s: State, l: Label, trace: seq<State>, labels: seq<Label>)
    requires Steps(trace, labels) && Enabled(s, l) && trace[0] == Next(s, l)
    ensures Steps([s] + trace, [l] + labels)
  {
    var all, ls := [s] + trace, [l] + labels;
    forall k | 0 <= k < |ls| ensures Enabled(all[k], ls[k]) && all[k + 1] == Next(all[k], ls[k]) {
      if k > 0 {
        assert all[k] == trace[k - 1] && all[k + 1] == trace[k - 1 + 1] && ls[k] == labels[k - 1];
      }
    }
  }

  /** One more step in front of a run that goes on to a batch's end. */
  lemma BusyFirst(s: State, l: Label, trace: seq<State>, labels: seq<Label>) returns (all: seq<State>, ls: seq<Label>)
    requires Steps(trace, labels) && |labels| > 0 && Enabled(s, l) && trace[0] == Next(s, l)
    requires forall k :: 0 <= k < |labels| ==> trace[k].body != NoBody
    ensures Steps(all, ls) && all == [s] + trace && ls == [l] + labels
    ensures forall k :: 0 < k < |ls| ==> all[k].body != NoBody
    ensures ls[|ls| - 1] == labels[|labels| - 1] && all[|ls|] == trace[|labels|]
  {
    StepFirst(s, l, trace, labels);
    all, ls := [s] + trace, [l] + labels;
    assert forall k :: 0 < k < |ls| ==> all[k] == trace[k - 1];
  }

  /** The batch's body from its tree on, when the entry's expansion is stale. */
  lemma StaleBody(s: State, i: nat, p: (string, string), range: string, part: P.Part) returns (trace: seq<State>, labels: seq<Label>)
    requires Inv(s) && ActiveAt(s, i) && s.body == Resolving([(p.0, (range, {p.1}))]) && s.asked == {}
    requires p.0 in s.core.modules && s.core.modules[p.0].release.Some? && !Loaded(s.core, p) && !Fresh(s.core, p)
    ensures Steps(trace, labels) && |labels| > 1 && trace[0] == s && labels[|labels| - 1] == DoLinked(i)
    ensures labels[0] == DoTree(i, [DepFor(p)])
    ensures forall k :: 0 <= k < |labels| ==> trace[k].body != NoBody
    ensures !Loaded(trace[|labels|].core, p)
  {
    var before := Take(s.core);
    TreeOfOne(s, i, p, range);
    var s2 := TreeArrives(s, i, [DepFor(p)]);
    SharesStale(s2, i, p, before);
    var s3 := ExpandDep(s2, DepFor(p));
    ArrivesStale(s3, p, before, part);
    var s4 := ExpansionArrives(s3, p.0, p.1, part);
    trace, labels := LinksUp(s4, i, before);
    trace, labels := BusyFirst(s3, DoExpanded(p.0, p.1, part), trace, labels);
    trace, labels := BusyFirst(s2, DoExpand(i, DepFor(p)), trace, labels);
    trace, labels := BusyFirst(s, DoTree(i, [DepFor(p)]), trace, labels);
  }

  lemma StaleRun(s: State, i: nat, p: (string, string), part: P.Part) returns (trace: seq<State>, labels: seq<Label>)
    requires WantsOne(s, i, p) && !Fresh(s.core, p)
    ensures Finishes(s, i, p, trace, labels) && !Loaded(trace[|labels|].core, p)
  {
    Starts(s, i, p);
    InvStep(s, DoStart(i));
    trace, labels := StaleBody(StartBatch(s, i), i, p, RangeOf(s.core, p.0), part);
    var tree, body := labels[0], |labels|;
    trace, labels := BusyFirst(s, DoStart(i), trace, labels);
    assert labels[1] == tree && DepFor(p) in tree.deps;
    assert FinishesAt(s, i, p, trace, labels, 1, body);
  }

  /**
   * A batch that wants one more entry of an installed package loads it in every run that finishes with a
   * tree that lists it, if and only if no stale expansion of that entry is in flight when it starts.
   */
  lemma LoadsExactlyWhenFresh(s: State, i: nat, p: (string, string))
    requires WantsOne(s, i, p)
    ensures Fresh(s.core, p) <==>
            forall trace: seq<State>, labels: seq<Label> :: Finishes(s, i, p, trace, labels) ==> Loaded(trace[|labels|].core, p)
  {
    if Fresh(s.core, p) {
      forall trace: seq<State>, labels: seq<Label> | Finishes(s, i, p, trace, labels) ensures Loaded(trace[|labels|].core, p) {
        FreshLoads(s, i, p, trace, labels);
      }
    } else {
      var trace, labels := StaleRun(s, i, p, P.NOTHING);
    }
  }

  lemma FreshLoads(s: State, i: nat, p: (string, string), trace: seq<State>, labels: seq<Label>)
    requires WantsOne(s, i, p) && Fresh(s.core, p) && Finishes(s, i, p, trace, labels)
    ensures Loaded(trace[|labels|].core, p)
  {
    var t: nat, k: nat :| FinishesAt(s, i, p, trace, labels, t, k);
    WantsIt(s, i, p);
    ListsName(labels[t].deps, p);
    StartListsLoads(s, i, p, trace, labels, t, k);
  }

  lemma StartListsLoads(s: State, i: nat, p: (string, string), trace: seq<State>, labels: seq<Label>, t: nat, k: nat)
    requires Running(trace, labels, 0, k) && 0 < t < k < |labels| && labels[t].DoTree? && labels[k].DoLinked?
    requires trace[0] == s && labels[0] == DoStart(i) && CanStart(s, i) && Fresh(s.core, p)
    requires p.1 in Wanted(s.batches[i].imports, p.0) && p.0 in Names(labels[t].deps)
    ensures Loaded(trace[k + 1].core, p)
  {
    WantedIsLoaded(trace, labels, 0, t, k, p.0, p.1);
  }

  lemma WantsIt(s: State, i: nat, p: (string, string))
    requires WantsOne(s, i, p)
    ensures p.1 in Wanted(s.batches[i].imports, p.0)
  {
  }

  lemma ListsName(deps: seq<Dep>, p: (string, string))
    requires p in Asks(deps)
    ensures p.0 in Names(deps)
  {
  }
}
