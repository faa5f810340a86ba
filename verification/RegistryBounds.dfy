/** A batch loads nothing but what its trees ask for. */
module RegistryBounds {
  import opened Registry
  import opened RegistrySafety
  import opened RegistryRuns
  import opened RegistryLoads
  import C = RegistryContents
  import P = ModuleParts

  // ---- what may come to be loaded --------------------------------------------------------------

  /** A live download brings `p`. */
  predicate Brings(s: State, id: nat, p: (string, string)) {
    Live(s, id) && s.flights[id].key.name == p.0 && p.1 in s.flights[id].entries
  }

  /** `p` was there at the start, is being loaded, or is about to be, only if it may. */
  ghost predicate Bounded(s: State, p: (string, string), start: bool) {
    && (Loaded(s.core, p) || p in s.core.expansions ==> start || p in s.asked)
    && (s.body.Installing? && InTodo(s.body.todo, p) ==> p in s.asked)
    && (forall id: nat :: Brings(s, id, p) ==> p in s.asked)
  }

  /** Nothing comes nearer to being loaded. */
  ghost predicate NoNearer(s: State, t: State, p: (string, string)) {
    && s.asked <= t.asked
    && (Loaded(t.core, p) ==> Loaded(s.core, p)) && (p in t.core.expansions ==> p in s.core.expansions)
    && (t.body.Installing? && InTodo(t.body.todo, p) ==> s.body.Installing? && InTodo(s.body.todo, p))
    && (forall id: nat :: Brings(t, id, p) ==> Brings(s, id, p))
  }

  lemma BoundedFrame(s: State, t: State, p: (string, string), start: bool)
    requires Bounded(s, p, start) && NoNearer(s, t, p)
    ensures Bounded(t, p, start)
  {
  }

  lemma BoundedFulfil(s: State, id: nat, installed: NodeModule, p: (string, string), start: bool)
    requires Inv(s) && Bounded(s, p, start) && Enabled(s, DoFulfil(id, installed))
    ensures Bounded(FlightFulfilled(s, id, installed), p, start)
  {
    var t := FlightFulfilled(s, id, installed);
    if Live(s, id) && s.flights[id].key.name == p.0 && p.1 in installed.entries {
      assert Brings(s, id, p);
    }
    forall other: nat | Brings(t, other, p) ensures Brings(s, other, p) {
    }
  }

  lemma BoundedExpand(s: State, dep: Dep, p: (string, string), start: bool)
    requires Bounded(s, p, start) && CanExpand(s, dep)
    ensures Bounded(ExpandDep(s, dep), p, start)
  {
    var t := ExpandDep(s, dep);
    if p.0 == dep.n && p.1 in EntriesOf(dep) {
      assert InTodo(s.body.todo, p);
    }
    forall id: nat | Brings(t, id, p) ensures Brings(s, id, p) {
    }
  }

  lemma BoundedExpanded(s: State, name: string, entry: string, part: P.Part, p: (string, string), start: bool)
    requires Bounded(s, p, start) && (name, entry) in s.core.expansions
    ensures Bounded(ExpansionArrives(s, name, entry, part), p, start)
  {
    var t := ExpansionArrives(s, name, entry, part);
    C.ExpandedIs(s.core, name, entry, part);
    forall id: nat | Brings(t, id, p) ensures Brings(s, id, p) {
    }
  }

  /** Every live download that starts is for a listed package, with the entries it is listed with. */
  lemma StartsBring(s: State, waits: map<nat, string>, deps: seq<Dep>, id: nat, p: (string, string))
    requires Brings(StartInstalls(s, waits, deps).0, id, p)
    ensures Brings(s, id, p) || p in Asks(deps)
    decreases |deps|
  {
    if |deps| > 0 {
      var (t, more) := StartInstall(s, waits, deps[0]);
      StartsBring(t, more, deps[1..], id, p);
      AsksUncons(deps, p);
    }
  }

  lemma AsksUncons(deps: seq<Dep>, p: (string, string))
    requires |deps| > 0
    ensures p in Asks(deps) <==> (deps[0].n == p.0 && p.1 in EntriesOf(deps[0])) || p in Asks(deps[1..])
  {
    assert deps == [deps[0]] + deps[1..];
  }

  lemma TodoAsks(deps: seq<Dep>, p: (string, string))
    ensures InTodo(Elements(deps), p) <==> p in Asks(deps)
  {
    if p in Asks(deps) {
      var d, e :| d in deps && e in EntriesOf(d) && p == (d.n, e);
      assert d in Elements(deps);
    }
  }

  lemma BoundedLaunch(s: State, core: Core, deps: seq<Dep>, before: Snapshot, p: (string, string), start: bool)
    requires Bounded(s, p, start)
    requires core == s.core.(manifest := core.manifest, fallbacks := core.fallbacks)
    ensures Bounded(Launch(s, core, deps, before), p, start)
  {
    var t, mid := Launch(s, core, deps, before), s.(core := core);
    LaunchHolds(s, core, deps, before);
    TodoAsks(deps, p);
    forall id: nat | Brings(t, id, p) ensures p in t.asked {
      var started := StartInstalls(mid, map[], deps).0;
      assert Brings(started, id, p);
      StartsBring(mid, map[], deps, id, p);
      assert Brings(mid, id, p) ==> Brings(s, id, p);
    }
  }

  lemma BoundedTree(s: State, i: nat, deps: seq<Dep>, p: (string, string), start: bool)
    requires Inv(s) && Bounded(s, p, start) && Enabled(s, DoTree(i, deps)) && TreeArrives(s, i, deps).body != NoBody
    ensures Bounded(TreeArrives(s, i, deps), p, start)
  {
    MergedIs(s.core, deps, s.body.request);
    BoundedLaunch(s, Merged(s.core, deps, s.body.request), TreeDeps(s, deps), Take(s.core), p, start);
  }

  lemma BoundedClosure(s: State, i: nat, deps: seq<Dep>, p: (string, string), start: bool)
    requires Bounded(s, p, start) && Enabled(s, DoClosure(i, deps))
    ensures Bounded(ClosureArrives(s, i, deps), p, start)
  {
    if deps != [] {
      BoundedLaunch(s, ClosureCore(s, deps), deps, s.body.before, p, start);
    } else {
      BoundedFrame(s, ClosureArrives(s, i, deps), p, start);
    }
  }

  lemma BoundedStep(s: State, l: Label, p: (string, string), start: bool)
    requires Inv(s) && Bounded(s, p, start) && Enabled(s, l) && GoesOn(s, l) && !l.DoStart?
    ensures Bounded(Next(s, l), p, start)
  {
    match l
    case DoFulfil(id, installed) => BoundedFulfil(s, id, installed, p, start);
    case DoTree(i, deps) => BoundedTree(s, i, deps, p, start);
    case DoClosure(i, deps) => BoundedClosure(s, i, deps, p, start);
    case DoExpand(_, dep) => BoundedExpand(s, dep, p, start);
    case DoExpanded(name, entry, part) => BoundedExpanded(s, name, entry, part, p, start);
    case _ => BoundedOther(s, l, p, start);
  }

  lemma BoundedOther(s: State, l: Label, p: (string, string), start: bool)
    requires Bounded(s, p, start) && Enabled(s, l) && GoesOn(s, l) && !l.DoStart?
    requires !l.DoFulfil? && !l.DoTree? && !l.DoClosure? && !l.DoExpand? && !l.DoExpanded?
    ensures Bounded(Next(s, l), p, start)
  {
    OtherStep(s, l);
    OtherBrings(s, l, p);
    TodoShrinks(s, Next(s, l), p);
    BoundedFrame(s, Next(s, l), p, start);
  }

  lemma TodoShrinks(s: State, t: State, p: (string, string))
    requires OnlyMoves(s, t)
    ensures t.body.Installing? && InTodo(t.body.todo, p) ==> s.body.Installing? && InTodo(s.body.todo, p)
  {
  }

  lemma OtherBrings(s: State, l: Label, p: (string, string))
    requires Enabled(s, l) && GoesOn(s, l) && !l.DoStart?
    requires !l.DoFulfil? && !l.DoTree? && !l.DoClosure? && !l.DoExpand? && !l.DoExpanded?
    ensures forall id: nat :: Brings(Next(s, l), id, p) ==> Brings(s, id, p)
  {
  }

  // ---- what the trees of a batch ask for ----------------------------------------------------------

  /** What a step's tree lists to load, new fallbacks included. */
  function Lists(s: State, l: Label): set<(string, string)>
    requires Enabled(s, l)
  {
    match l
    case DoTree(_, deps) => Asks(TreeDeps(s, deps))
    case DoClosure(_, deps) => Asks(deps)
    case _ => {}
  }

  /** A package listed with entries is asked for them, one listed without, as a new fallback is, for its root. */
  lemma ListedIsAsked(deps: seq<Dep>, d: Dep, e: string)
    requires d in deps
    ensures if d.e == {} then (d.n, ".") in Asks(deps) else e in d.e ==> (d.n, e) in Asks(deps)
  {
    assert d.e == {} ==> "." in EntriesOf(d);
  }

  lemma AskedStep(s: State, l: Label)
    requires Enabled(s, l) && GoesOn(s, l) && !l.DoStart?
    ensures Next(s, l).asked == s.asked + Lists(s, l)
  {
    match l
    case DoTree(i, deps) => StartsHold(s.(core := Merged(s.core, deps, s.body.request)), map[], TreeDeps(s, deps));
    case DoClosure(i, deps) => StartsHold(s.(core := ClosureCore(s, deps)), map[], deps);
    case _ =>
  }

  /** A tree adds, to what it lists, the root entries of the packages that became fallbacks for want of listing. */
  lemma TreeListsRoots(s: State, i: nat, deps: seq<Dep>, p: (string, string))
    requires Inv(s) && Enabled(s, DoTree(i, deps)) && p in Asks(TreeDeps(s, deps)) && p !in Asks(deps)
    ensures p.1 == ROOT_ENTRY && p.0 !in Names(deps)
  {
    var core := Merged(s.core, deps, s.body.request);
    MergedIs(s.core, deps, s.body.request);
    var d, e :| d in TreeDeps(s, deps) && e in EntriesOf(d) && p == (d.n, e);
    NewFallbacksFrom(core, s.core.fallbacks, core.manifest, d);
    UnlistedAsksRoot(s, deps, p.0, p.1);
  }

  // ---- whole batches ----------------------------------------------------------------------------------

  ghost predicate BoundedStepAt(s: State, t: State, p: (string, string), start: bool) {
    s.body != NoBody && t.body != NoBody && Bounded(s, p, start) ==> Bounded(t, p, start)
  }

  lemma BoundedAt(trace: seq<State>, labels: seq<Label>, k: nat, p: (string, string), start: bool)
    requires Sound(trace, labels) && k < |labels|
    ensures BoundedStepAt(trace[k], trace[k + 1], p, start)
  {
    InvSteps(trace, labels, k);
    StepAt(trace, labels, k);
    var s, l := trace[k], labels[k];
    if s.body != NoBody && Next(s, l).body != NoBody && Bounded(s, p, start) {
      if l.DoStart? {
        NoBodyAtStart(s, l.i);
      } else {
        BoundedStep(s, l, p, start);
      }
    }
  }

  lemma {:induction false} BoundedUntil(trace: seq<State>, j: nat, k: nat, p: (string, string), start: bool)
    requires (forall i :: 0 <= i < |trace| - 1 ==> BoundedStepAt(trace[i], trace[i + 1], p, start)) && Busy(trace, j, k)
    requires Bounded(trace[j], p, start)
    ensures Bounded(trace[k], p, start)
  {
    if j < k {
      BoundedUntil(trace, j, k - 1, p, start);
      assert BoundedStepAt(trace[k - 1], trace[k - 1 + 1], p, start);
    }
  }

  lemma BoundedAtStart(trace: seq<State>, labels: seq<Label>, j: nat, p: (string, string))
    requires Running(trace, labels, j, j + 1)
    ensures Bounded(trace[j + 1], p, Loaded(trace[j].core, p) || p in trace[j].core.expansions)
  {
    StartOpens(trace, labels, j);
    InvSteps(trace, labels, j + 1);
    C.NoneLive(trace[j + 1]);
  }

  /** Whatever is loaded while a batch runs was loaded or being loaded when it started, or its trees list it. */
  lemma LoadedIsBounded(trace: seq<State>, labels: seq<Label>, j: nat, k: nat, p: (string, string))
    requires Running(trace, labels, j, k)
    ensures Loaded(trace[k].core, p) ==> Loaded(trace[j].core, p) || p in trace[j].core.expansions || p in trace[k].asked
  {
    var start := Loaded(trace[j].core, p) || p in trace[j].core.expansions;
    BoundedAtStart(trace, labels, j, p);
    forall i | 0 <= i < |trace| - 1 ensures BoundedStepAt(trace[i], trace[i + 1], p, start) {
      BoundedAt(trace, labels, i, p, start);
    }
    BoundedUntil(trace, j + 1, k, p, start);
  }

  /**
   * What a batch has loaded at its end, entry by entry: unless the entry was being expanded when it
   * started, exactly what was loaded then and what its trees have listed since.
   */
  lemma LoadedExactly(trace: seq<State>, labels: seq<Label>, j: nat, k: nat, p: (string, string))
    requires Running(trace, labels, j, k) && k < |labels| && labels[k].DoLinked? && p !in trace[j].core.expansions
    ensures Loaded(trace[k + 1].core, p) <==> Loaded(trace[j].core, p) || p in trace[k].asked
  {
    StepAt(trace, labels, k);
    LoadedIsBounded(trace, labels, j, k, p);
    ListedIsLoaded(trace, labels, j, k, p);
    FinishedInstallDelivers(trace, labels, j, k);
    if Loaded(trace[j].core, p) {
      HoldsLoaded(trace[j].core, trace[k + 1].core, p);
    }
  }

  ghost predicate AskedTrace(trace: seq<State>, labels: seq<Label>, j: nat, k: nat) {
    && j < k < |trace| && |trace| == |labels| + 1 && trace[j + 1].asked == {}
    && forall t :: j < t < k ==> Enabled(trace[t], labels[t]) && trace[t + 1].asked == trace[t].asked + Lists(trace[t], labels[t])
  }

  lemma {:induction false} AskedUntil(trace: seq<State>, labels: seq<Label>, j: nat, k: nat, p: (string, string))
    requires AskedTrace(trace, labels, j, k)
    ensures p in trace[k].asked <==> exists t :: j < t < k && Enabled(trace[t], labels[t]) && p in Lists(trace[t], labels[t])
  {
    if j + 1 < k {
      AskedUntil(trace, labels, j, k - 1, p);
      assert trace[k] == trace[k - 1 + 1];
    }
  }

  /** What is asked for is what the trees of the batch list. */
  lemma AskedIsListed(trace: seq<State>, labels: seq<Label>, j: nat, k: nat, p: (string, string))
    requires Running(trace, labels, j, k)
    ensures p in trace[k].asked <==> exists t :: j < t < k && Enabled(trace[t], labels[t]) && p in Lists(trace[t], labels[t])
  {
    StartOpens(trace, labels, j);
    forall t | j < t < k
      ensures Enabled(trace[t], labels[t]) && trace[t + 1].asked == trace[t].asked + Lists(trace[t], labels[t])
    {
      InvSteps(trace, labels, t);
      StepAt(trace, labels, t);
      if labels[t].DoStart? {
        NoBodyAtStart(trace[t], labels[t].i);
      }
      AskedStep(trace[t], labels[t]);
    }
    AskedUntil(trace, labels, j, k, p);
  }

  /**
   * A subpath that no tree of the batch lists is not loaded at its end, wanted or not, unless it was
   * loaded or being expanded when the batch started: not for a package the tree dropped, and not for one it lists otherwise.
   */
  lemma UnlistedIsNotLoaded(trace: seq<State>, labels: seq<Label>, j: nat, k: nat, p: (string, string))
    requires Running(trace, labels, j, k) && k < |labels| && labels[k].DoLinked?
    requires p.1 != ROOT_ENTRY && !Loaded(trace[j].core, p) && p !in trace[j].core.expansions
    requires forall t :: j < t < k && (labels[t].DoTree? || labels[t].DoClosure?) ==> p !in Asks(labels[t].deps)
    ensures !Loaded(trace[k + 1].core, p)
  {
    LoadedExactly(trace, labels, j, k, p);
    AskedIsListed(trace, labels, j, k, p);
    forall t | j < t < k && Enabled(trace[t], labels[t]) ensures p !in Lists(trace[t], labels[t]) {
      InvSteps(trace, labels, t);
      if labels[t].DoTree? && p in Lists(trace[t], labels[t]) {
        TreeListsRoots(trace[t], labels[t].i, labels[t].deps, p);
      }
    }
  }
}
