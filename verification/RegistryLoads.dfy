/** What a batch that succeeds has installed and loaded. */
module RegistryLoads {
  import opened Registry
  import opened RegistrySafety
  import opened RegistryRuns
  import C = RegistryContents
  import P = ModuleParts

  /** An entry of a package, by package and entry, that is recorded as loaded. */
  predicate Loaded(c: Core, p: (string, string)) {
    p.0 in c.modules && p.1 in c.modules[p.0].entries
  }

  /** An expansion of `p` in flight works on the registered package, not on one that a failure took back. */
  predicate Fresh(c: Core, p: (string, string)) {
    p in c.expansions ==> p.0 in c.modules && c.modules[p.0].id == c.expansions[p].obj
  }

  predicate InTodo(todo: set<Dep>, p: (string, string)) {
    exists d :: d in todo && d.n == p.0 && p.1 in EntriesOf(d)
  }

  /** If the batch's trees asked for `p`, it is loaded, awaited, or still to be expanded. */
  predicate Owes(s: State, p: (string, string)) {
    match s.body
    case NoBody => true
    case Resolving(_) => p !in s.asked
    case Installing(_, _, todo, pending) => p in s.asked ==> Loaded(s.core, p) || p in pending || InTodo(todo, p)
    case _ => p in s.asked ==> Loaded(s.core, p)
  }

  // ---- steps of a running batch --------------------------------------------------------------

  /** Packages stay, their entries only grow, and a package that is there stays the same object. */
  ghost predicate Holds(c: Core, d: Core) {
    forall n :: n in c.modules ==>
      n in d.modules && d.modules[n].id == c.modules[n].id && c.modules[n].entries <= d.modules[n].entries
  }

  lemma HoldsLoaded(c: Core, d: Core, p: (string, string))
    requires Holds(c, d) && Loaded(c, p)
    ensures Loaded(d, p)
  {
  }

  /** A step inside a batch: the body goes on. */
  predicate GoesOn(s: State, l: Label)
    requires Enabled(s, l)
  {
    s.body != NoBody && Next(s, l).body != NoBody
  }

  lemma LaunchHolds(s: State, core: Core, deps: seq<Dep>, before: Snapshot)
    requires core.modules == s.core.modules && core.expansions == s.core.expansions
    ensures var t := Launch(s, core, deps, before);
            && t.core.modules == s.core.modules && t.core.expansions == s.core.expansions
            && t.body.Installing? && t.body.todo == Elements(deps) && t.asked == s.asked + Asks(deps)
  {
    StartsHold(s.(core := core), map[], deps);
  }

  lemma StartsHold(s: State, waits: map<nat, string>, deps: seq<Dep>)
    ensures var t := StartInstalls(s, waits, deps).0;
            t.core.modules == s.core.modules && t.core.expansions == s.core.expansions && t.asked == s.asked
    decreases |deps|
  {
    if |deps| > 0 {
      var (t, more) := StartInstall(s, waits, deps[0]);
      StartsHold(t, more, deps[1..]);
    }
  }

  lemma OwesLaunch(s: State, core: Core, deps: seq<Dep>, before: Snapshot, p: (string, string))
    requires core.modules == s.core.modules && core.expansions == s.core.expansions
    requires p in s.asked ==> Loaded(s.core, p)
    ensures Owes(Launch(s, core, deps, before), p)
    ensures Launch(s, core, deps, before).core.expansions == s.core.expansions
    ensures Launch(s, core, deps, before).core.modules == s.core.modules
  {
    var t := Launch(s, core, deps, before);
    LaunchHolds(s, core, deps, before);
    if p in Asks(deps) {
      var d, e :| d in deps && e in EntriesOf(d) && p == (d.n, e);
      assert d in Elements(deps);
    }
  }

  lemma OwesExpand(s: State, dep: Dep, p: (string, string))
    requires Owes(s, p) && Fresh(s.core, p) && CanExpand(s, dep)
    ensures Owes(ExpandDep(s, dep), p) && Fresh(ExpandDep(s, dep).core, p)
  {
    FreshExpand(s, dep, p);
    if p in s.asked {
      ExpandOwes(s, dep, p);
    }
  }

  lemma ExpandOwes(s: State, dep: Dep, p: (string, string))
    requires CanExpand(s, dep) && (Loaded(s.core, p) || p in s.body.pending || InTodo(s.body.todo, p))
    ensures var t := ExpandDep(s, dep); Loaded(t.core, p) || p in t.body.pending || InTodo(t.body.todo, p)
  {
    var t := ExpandDep(s, dep);
    if InTodo(s.body.todo, p) && !Loaded(s.core, p) {
      var d :| d in s.body.todo && d.n == p.0 && p.1 in EntriesOf(d);
      if d == dep {
        assert p.1 in EntriesOf(dep) - s.core.modules[dep.n].entries;
        assert p in Under(dep.n, EntriesOf(dep) - s.core.modules[dep.n].entries);
      } else {
        assert d in t.body.todo;
      }
    }
  }

  lemma OwesExpanded(s: State, name: string, entry: string, part: P.Part, p: (string, string))
    requires Owes(s, p) && Fresh(s.core, p) && (name, entry) in s.core.expansions
    ensures var t := ExpansionArrives(s, name, entry, part);
            Owes(t, p) && Fresh(t.core, p)
  {
    var t := ExpansionArrives(s, name, entry, part);
    C.ExpandedIs(s.core, name, entry, part);
    HoldsExpanded(s, name, entry, part);
    if Loaded(s.core, p) {
      HoldsLoaded(s.core, t.core, p);
    }
  }

  lemma OwesFulfil(s: State, id: nat, installed: NodeModule, p: (string, string))
    requires Inv(s) && Owes(s, p) && Fresh(s.core, p) && FetchingAt(s, id)
    ensures var t := FlightFulfilled(s, id, installed);
            Owes(t, p) && Fresh(t.core, p)
  {
    var t := FlightFulfilled(s, id, installed);
    if Live(s, id) {
      assert LiveOk(s, id, Waits(s));
    }
    assert Holds(s.core, t.core);
    if Loaded(s.core, p) {
      HoldsLoaded(s.core, t.core, p);
    }
  }

  lemma OwesTree(s: State, i: nat, deps: seq<Dep>, p: (string, string))
    requires Inv(s) && Owes(s, p) && Fresh(s.core, p) && Enabled(s, DoTree(i, deps)) && TreeArrives(s, i, deps).body != NoBody
    ensures var t := TreeArrives(s, i, deps);
            Owes(t, p) && Fresh(t.core, p)
  {
    MergedIs(s.core, deps, s.body.request);
    OwesLaunch(s, Merged(s.core, deps, s.body.request), TreeDeps(s, deps), Take(s.core), p);
  }

  lemma OwesClosure(s: State, i: nat, deps: seq<Dep>, p: (string, string))
    requires Owes(s, p) && Fresh(s.core, p) && Enabled(s, DoClosure(i, deps))
    ensures var t := ClosureArrives(s, i, deps);
            Owes(t, p) && Fresh(t.core, p)
  {
    if deps != [] {
      OwesLaunch(s, ClosureCore(s, deps), deps, s.body.before, p);
    }
  }

  lemma OwesStep(s: State, l: Label, p: (string, string))
    requires Inv(s) && Owes(s, p) && Fresh(s.core, p) && Enabled(s, l) && GoesOn(s, l)
    ensures Owes(Next(s, l), p) && Fresh(Next(s, l).core, p)
  {
    match l
    case DoFulfil(id, installed) => OwesFulfil(s, id, installed, p);
    case DoTree(i, deps) => OwesTree(s, i, deps, p);
    case DoClosure(i, deps) => OwesClosure(s, i, deps, p);
    case DoExpand(_, dep) => OwesExpand(s, dep, p);
    case DoExpanded(name, entry, part) => OwesExpanded(s, name, entry, part, p);
    case DoStart(i) => NoBodyAtStart(s, i);
    case _ => OwesOther(s, l, p);
  }

  lemma OwesOther(s: State, l: Label, p: (string, string))
    requires Owes(s, p) && Fresh(s.core, p) && Enabled(s, l) && GoesOn(s, l)
    requires !l.DoFulfil? && !l.DoTree? && !l.DoClosure? && !l.DoExpand? && !l.DoExpanded? && !l.DoStart?
    ensures Owes(Next(s, l), p) && Fresh(Next(s, l).core, p)
  {
    OtherStep(s, l);
    OwesFrame(s, Next(s, l), p);
  }

  /** The body stays where it is, or moves on with nothing left to expand. */
  ghost predicate MovesOn(s: State, t: State) {
    || t.body == s.body
    || (s.body.Installing? && s.body.todo == {} && s.body.pending == {} && (t.body.Closing? || t.body.Linking?))
    || (s.body.Closing? && t.body.Linking?)
  }

  /** What such a step leaves alone. */
  ghost predicate OnlyMoves(s: State, t: State) {
    && t.core.modules == s.core.modules && t.asked == s.asked && MovesOn(s, t)
    && t.core.expansions.Keys <= s.core.expansions.Keys
    && forall key :: key in t.core.expansions ==> t.core.expansions[key] == s.core.expansions[key]
  }

  lemma OtherStep(s: State, l: Label)
    requires Enabled(s, l) && GoesOn(s, l)
    requires !l.DoFulfil? && !l.DoTree? && !l.DoClosure? && !l.DoExpand? && !l.DoExpanded? && !l.DoStart?
    ensures OnlyMoves(s, Next(s, l))
  {
    if l.DoReject? || l.DoSettle? || l.DoEnd? || l.DoCloseWindow? || l.DoEnqueue? {
      AsideStep(s, l);
    } else {
      BodyStep(s, l);
    }
  }

  lemma AsideStep(s: State, l: Label)
    requires Enabled(s, l) && (l.DoReject? || l.DoSettle? || l.DoEnd? || l.DoCloseWindow? || l.DoEnqueue?)
    ensures OnlyMoves(s, Next(s, l))
  {
    C.PlainStep(s, l);
    AsideBody(s, l);
  }

  lemma AsideBody(s: State, l: Label)
    requires Enabled(s, l) && (l.DoReject? || l.DoSettle? || l.DoEnd? || l.DoCloseWindow? || l.DoEnqueue?)
    ensures Next(s, l).body == s.body && Next(s, l).asked == s.asked
  {
  }

  lemma BodyStep(s: State, l: Label)
    requires Enabled(s, l) && GoesOn(s, l)
    requires l.DoTreeFails? || l.DoInstalled? || l.DoClosureFails? || l.DoLinked? || l.DoFail? || l.DoExpandFails? || l.DoSetDeclared?
    ensures OnlyMoves(s, Next(s, l))
  {
  }

  lemma OwesFrame(s: State, t: State, p: (string, string))
    requires Owes(s, p) && Fresh(s.core, p) && s.body != NoBody
    requires OnlyMoves(s, t)
    ensures Owes(t, p) && Fresh(t.core, p)
  {
    assert !InTodo({}, p);
  }

  // ---- nothing installed or loaded is lost inside a batch --------------------------------------------

  lemma HoldsSame(c: Core, d: Core)
    requires d.modules == c.modules
    ensures Holds(c, d)
  {
  }

  lemma HoldsExpand(s: State, dep: Dep)
    requires CanExpand(s, dep)
    ensures Holds(s.core, ExpandDep(s, dep).core)
  {
  }

  lemma HoldsExpanded(s: State, name: string, entry: string, part: P.Part)
    requires (name, entry) in s.core.expansions
    ensures Holds(s.core, ExpansionArrives(s, name, entry, part).core)
  {
    C.ExpandedIs(s.core, name, entry, part);
  }

  lemma HoldsFulfil(s: State, id: nat, installed: NodeModule)
    requires Inv(s) && FetchingAt(s, id)
    ensures Holds(s.core, FlightFulfilled(s, id, installed).core)
  {
    if Live(s, id) {
      assert LiveOk(s, id, Waits(s));
    }
  }

  lemma HoldsTree(s: State, i: nat, deps: seq<Dep>)
    requires Inv(s) && Enabled(s, DoTree(i, deps)) && TreeArrives(s, i, deps).body != NoBody
    ensures Holds(s.core, TreeArrives(s, i, deps).core)
  {
    MergedIs(s.core, deps, s.body.request);
    LaunchHolds(s, Merged(s.core, deps, s.body.request), TreeDeps(s, deps), Take(s.core));
  }

  lemma HoldsClosure(s: State, i: nat, deps: seq<Dep>)
    requires Enabled(s, DoClosure(i, deps))
    ensures Holds(s.core, ClosureArrives(s, i, deps).core)
  {
    LaunchHolds(s, ClosureCore(s, deps), deps, s.body.before);
  }

  lemma HoldsDrop(s: State, name: string, entry: string)
    requires (name, entry) in s.core.expansions
    ensures Holds(s.core, Next(s, DoExpandFails(name, entry)).core)
  {
  }

  lemma HoldsPlain(s: State, l: Label)
    requires Enabled(s, l) && C.Plain(l)
    ensures Holds(s.core, Next(s, l).core)
  {
    C.PlainStep(s, l);
    HoldsSame(s.core, Next(s, l).core);
  }

  lemma HoldsStep(s: State, l: Label)
    requires Inv(s) && Enabled(s, l) && GoesOn(s, l)
    ensures Holds(s.core, Next(s, l).core)
  {
    match l
    case DoFulfil(id, installed) => HoldsFulfil(s, id, installed);
    case DoTree(i, deps) => HoldsTree(s, i, deps);
    case DoClosure(i, deps) => HoldsClosure(s, i, deps);
    case DoExpand(_, dep) => HoldsExpand(s, dep);
    case DoExpanded(name, entry, part) => HoldsExpanded(s, name, entry, part);
    case DoExpandFails(name, entry) => HoldsDrop(s, name, entry);
    case DoFail(i) =>
    case _ => HoldsPlain(s, l);
  }

  // ---- whole batches -------------------------------------------------------------------------------

  predicate Busy(trace: seq<State>, j: nat, k: nat) {
    j <= k < |trace| && forall i :: j <= i <= k ==> trace[i].body != NoBody
  }

  /** The batch's request is still open, or its trees' answer is on record. */
  ghost predicate Pursues(s: State, request: Request) {
    match s.body
    case NoBody => true
    case Resolving(r) => r == request
    case _ => Firsts(request) <= Names(s.core.manifest)
  }

  lemma PursuesStep(s: State, l: Label, request: Request)
    requires Inv(s) && Enabled(s, l) && GoesOn(s, l) && Pursues(s, request)
    ensures Pursues(Next(s, l), request)
  {
    match l
    case DoStart(i) => NoBodyAtStart(s, i);
    case DoTree(i, deps) => PursuesTree(s, i, deps);
    case DoClosure(i, deps) => PursuesClosure(s, i, deps, request);
    case _ => PursuesOther(s, l, request);
  }

  lemma PursuesOther(s: State, l: Label, request: Request)
    requires Enabled(s, l) && GoesOn(s, l) && Pursues(s, request) && !l.DoStart? && !l.DoTree? && !l.DoClosure?
    ensures Pursues(Next(s, l), request)
  {
    if l.DoReject? || l.DoSettle? || l.DoEnd? || l.DoCloseWindow? || l.DoEnqueue? {
      AsideManifest(s, l);
      AsideBody(s, l);
    } else if l.DoFulfil? || l.DoExpand? || l.DoExpanded? {
      ObjectManifest(s, l);
    } else {
      BodyManifest(s, l);
    }
  }

  /** The manifest stays, and the batch is as much at its request as before. */
  predicate SameManifest(s: State, t: State) {
    && t.core.manifest == s.core.manifest && (t.body.Resolving? <==> s.body.Resolving?)
    && (s.body.Resolving? ==> t.body == s.body)
  }

  lemma ObjectManifest(s: State, l: Label)
    requires Enabled(s, l) && (l.DoFulfil? || l.DoExpand? || l.DoExpanded?)
    ensures SameManifest(s, Next(s, l))
  {
  }

  lemma AsideManifest(s: State, l: Label)
    requires Enabled(s, l) && (l.DoReject? || l.DoSettle? || l.DoEnd? || l.DoCloseWindow? || l.DoEnqueue?)
    ensures Next(s, l).core.manifest == s.core.manifest
  {
  }

  lemma BodyManifest(s: State, l: Label)
    requires Enabled(s, l) && GoesOn(s, l)
    requires l.DoTreeFails? || l.DoInstalled? || l.DoClosureFails? || l.DoLinked? || l.DoFail? || l.DoExpandFails? || l.DoSetDeclared?
    ensures SameManifest(s, Next(s, l))
  {
  }

  lemma PursuesClosure(s: State, i: nat, deps: seq<Dep>, request: Request)
    requires Inv(s) && Enabled(s, DoClosure(i, deps)) && Pursues(s, request)
    ensures Pursues(ClosureArrives(s, i, deps), request)
  {
    ManifestGrows(s.core.manifest, deps);
    StartsKeepManifest(s.(core := ClosureCore(s, deps)), map[], deps);
  }

  lemma PursuesTree(s: State, i: nat, deps: seq<Dep>)
    requires Inv(s) && Enabled(s, DoTree(i, deps)) && TreeArrives(s, i, deps).body != NoBody
    ensures Pursues(TreeArrives(s, i, deps), s.body.request)
  {
    var core := Merged(s.core, deps, s.body.request);
    StartsKeepManifest(s.(core := core), map[], TreeDeps(s, deps));
    forall n | n in Firsts(s.body.request) ensures n in Names(core.manifest) {
      var r :| r in s.body.request && r.0 == n;
      var k :| 0 <= k < |s.body.request| && s.body.request[k] == r;
    }
  }

  lemma StartsKeepManifest(s: State, waits: map<nat, string>, deps: seq<Dep>)
    ensures StartInstalls(s, waits, deps).0.core.manifest == s.core.manifest
    decreases |deps|
  {
    if |deps| > 0 {
      var (t, more) := StartInstall(s, waits, deps[0]);
      StartsKeepManifest(t, more, deps[1..]);
    }
  }

  /** The books on `p` are kept, and no expansion of it is stale. */
  predicate Booked(s: State, p: (string, string)) {
    Owes(s, p) && Fresh(s.core, p)
  }

  ghost predicate CourseStep(s: State, t: State, request: Request, p: (string, string)) {
    s.body != NoBody && t.body != NoBody ==>
      && Holds(s.core, t.core) && s.asked <= t.asked
      && (Pursues(s, request) ==> Pursues(t, request))
      && (Booked(s, p) ==> Booked(t, p))
  }

  ghost predicate CourseTrace(trace: seq<State>, request: Request, p: (string, string)) {
    forall k :: 0 <= k < |trace| - 1 ==> CourseStep(trace[k], trace[k + 1], request, p)
  }

  lemma AskedGrows(s: State, l: Label)
    requires Enabled(s, l) && GoesOn(s, l) && !l.DoStart?
    ensures s.asked <= Next(s, l).asked
  {
    match l
    case DoTree(i, deps) => StartsHold(s.(core := Merged(s.core, deps, s.body.request)), map[], TreeDeps(s, deps));
    case DoClosure(i, deps) => StartsHold(s.(core := ClosureCore(s, deps)), map[], deps);
    case _ =>
  }

  lemma CourseAt(trace: seq<State>, labels: seq<Label>, k: nat, request: Request, p: (string, string))
    requires Sound(trace, labels) && k < |labels|
    ensures CourseStep(trace[k], trace[k + 1], request, p)
  {
    InvSteps(trace, labels, k);
    StepAt(trace, labels, k);
    var s, l := trace[k], labels[k];
    if s.body != NoBody && Next(s, l).body != NoBody {
      if l.DoStart? {
        NoBodyAtStart(s, l.i);
      } else {
        CourseGoesOn(s, l, request, p);
      }
    }
  }

  lemma CourseGoesOn(s: State, l: Label, request: Request, p: (string, string))
    requires Inv(s) && Enabled(s, l) && GoesOn(s, l) && !l.DoStart?
    ensures CourseStep(s, Next(s, l), request, p)
  {
    HoldsStep(s, l);
    AskedGrows(s, l);
    if Booked(s, p) {
      OwesStep(s, l, p);
    }
    if Pursues(s, request) {
      PursuesStep(s, l, request);
    }
  }

  lemma {:induction false} CourseUntil(trace: seq<State>, j: nat, k: nat, request: Request, p: (string, string))
    requires CourseTrace(trace, request, p) && Busy(trace, j, k)
    ensures Holds(trace[j].core, trace[k].core) && trace[j].asked <= trace[k].asked
    ensures Pursues(trace[j], request) ==> Pursues(trace[k], request)
    ensures Booked(trace[j], p) ==> Booked(trace[k], p)
  {
    if j < k {
      CourseUntil(trace, j, k - 1, request, p);
      assert CourseStep(trace[k - 1], trace[k - 1 + 1], request, p);
    }
  }

  /** The request of the batch that starts in step `j`. */
  function RequestAt(trace: seq<State>, labels: seq<Label>, j: nat): Request
    requires j < |labels| && j < |trace| && labels[j].DoStart? && CanStart(trace[j], labels[j].i)
  {
    RequestOf(trace[j].core, trace[j].batches[labels[j].i].imports)
  }

  /** The batch that starts in step `j` is still running in state `k`. */
  ghost predicate Running(trace: seq<State>, labels: seq<Label>, j: nat, k: nat) {
    && Sound(trace, labels) && j < k < |trace| && labels[j].DoStart? && Busy(trace, j + 1, k)
    && CanStart(trace[j], labels[j].i)
  }

  lemma StartOpens(trace: seq<State>, labels: seq<Label>, j: nat)
    requires Running(trace, labels, j, j + 1)
    ensures trace[j + 1].body == Resolving(RequestAt(trace, labels, j)) && trace[j + 1].asked == {}
    ensures trace[j + 1].core == trace[j].core
  {
    StepAt(trace, labels, j);
    InvSteps(trace, labels, j);
    NoBodyAtStart(trace[j], labels[j].i);
  }

  lemma RunKeepsCourse(trace: seq<State>, labels: seq<Label>, request: Request, p: (string, string))
    requires Sound(trace, labels)
    ensures CourseTrace(trace, request, p)
  {
    forall i | 0 <= i < |trace| - 1 ensures CourseStep(trace[i], trace[i + 1], request, p) {
      CourseAt(trace, labels, i, request, p);
    }
  }

  lemma CourseFrom(trace: seq<State>, labels: seq<Label>, j: nat, k: nat, p: (string, string))
    requires Running(trace, labels, j, k)
    ensures Pursues(trace[k], RequestAt(trace, labels, j)) && Holds(trace[j].core, trace[k].core)
    ensures Fresh(trace[j].core, p) ==> Booked(trace[k], p)
  {
    var request := RequestAt(trace, labels, j);
    StartOpens(trace, labels, j);
    RunKeepsCourse(trace, labels, request, p);
    CourseUntil(trace, j + 1, k, request, p);
  }

  /**
   * When the body of a batch is done, everything it requested is installed, the manifest is exactly what
   * is installed, and whatever was installed and loaded when it started still is.
   */
  lemma FinishedInstallDelivers(trace: seq<State>, labels: seq<Label>, j: nat, k: nat)
    requires Running(trace, labels, j, k) && k < |labels| && labels[k].DoLinked?
    ensures Firsts(RequestAt(trace, labels, j)) <= trace[k + 1].core.modules.Keys
    ensures Names(trace[k + 1].core.manifest) == trace[k + 1].core.modules.Keys
    ensures Holds(trace[j].core, trace[k + 1].core)
  {
    CourseFrom(trace, labels, j, k, ("", ""));
    StepAt(trace, labels, k);
    InvSteps(trace, labels, k);
  }

  /** Every package that the batch imports is installed by then, whether or not it had to be requested. */
  lemma ImportsAreInstalled(trace: seq<State>, labels: seq<Label>, j: nat, k: nat, name: string)
    requires Running(trace, labels, j, k) && k < |labels| && labels[k].DoLinked?
    requires Wanted(trace[j].batches[labels[j].i].imports, name) != {}
    ensures name in trace[k + 1].core.modules
  {
    FinishedInstallDelivers(trace, labels, j, k);
    InvSteps(trace, labels, j);
    RequestIsMissing(trace[j].core, trace[j].batches[labels[j].i].imports, name);
  }

  /**
   * By then every entry that the batch's trees listed is loaded too, unless the batch started with an
   * expansion of it in flight for a package that an earlier failure took back.
   */
  lemma ListedIsLoaded(trace: seq<State>, labels: seq<Label>, j: nat, k: nat, p: (string, string))
    requires Running(trace, labels, j, k) && k < |labels| && labels[k].DoLinked? && Fresh(trace[j].core, p)
    ensures p in trace[k].asked ==> Loaded(trace[k + 1].core, p)
  {
    CourseFrom(trace, labels, j, k, p);
    StepAt(trace, labels, k);
  }

  /** A tree's arrival puts every entry it lists on record. */
  lemma TreeIsAsked(trace: seq<State>, labels: seq<Label>, j: nat, t: nat, k: nat, p: (string, string))
    requires Running(trace, labels, j, k) && j < t < k && labels[t].DoTree?
    ensures Answers(RequestAt(trace, labels, j), labels[t].deps)
    ensures p in Asks(labels[t].deps) ==> p in trace[k].asked
  {
    CourseFrom(trace, labels, j, t, p);
    StepAt(trace, labels, t);
    TreeAsks(trace[t], labels[t].i, labels[t].deps);
    RunKeepsCourse(trace, labels, [], p);
    CourseUntil(trace, t + 1, k, [], p);
  }

  lemma TreeAsks(s: State, i: nat, deps: seq<Dep>)
    requires Enabled(s, DoTree(i, deps)) && TreeArrives(s, i, deps).body != NoBody
    ensures Asks(deps) <= TreeArrives(s, i, deps).asked
  {
    var core := Merged(s.core, deps, s.body.request);
    StartsHold(s.(core := core), map[], TreeDeps(s, deps));
    AsksMore(deps, NewFallbacks(core, s.core.fallbacks, core.manifest));
  }

  lemma AsksMore(a: seq<Dep>, b: seq<Dep>)
    ensures Asks(a) <= Asks(a + b)
  {
    assert forall d :: d in a ==> d in a + b;
  }

  /**
   * Every entry that the batch wants of a package is loaded at its end, if its tree lists the package:
   * the entries that were missing were asked of the tree, and the others were loaded already.
   */
  lemma WantedIsLoaded(trace: seq<State>, labels: seq<Label>, j: nat, t: nat, k: nat, name: string, e: string)
    requires Running(trace, labels, j, k) && j < t < k < |labels| && labels[t].DoTree? && labels[k].DoLinked?
    requires Fresh(trace[j].core, (name, e))
    requires e in Wanted(trace[j].batches[labels[j].i].imports, name) && name in Names(labels[t].deps)
    ensures Loaded(trace[k + 1].core, (name, e))
  {
    FinishedInstallDelivers(trace, labels, j, k);
    if Loaded(trace[j].core, (name, e)) {
      HoldsLoaded(trace[j].core, trace[k + 1].core, (name, e));
    } else {
      ListedIsLoaded(trace, labels, j, k, (name, e));
      TreeIsAsked(trace, labels, j, t, k, (name, e));
      InvSteps(trace, labels, j);
      LackingIsAsked(trace[j].core, trace[j].batches[labels[j].i].imports, labels[t].deps, name, e);
    }
  }

  lemma LackingIsAsked(c: Core, imports: Imports, deps: seq<Dep>, name: string, e: string)
    requires DistinctFirsts(imports) && Answers(RequestOf(c, imports), deps) && name in Names(deps)
    requires e in Wanted(imports, name) && !Loaded(c, (name, e))
    ensures (name, e) in Asks(deps)
  {
    RequestIsMissing(c, imports, name);
    assert e in Lacking(c, imports, name);
    var r :| r in RequestOf(c, imports) && r.0 == name;
    var i :| 0 <= i < |RequestOf(c, imports)| && RequestOf(c, imports)[i] == r;
    var d :| d in deps && d.n == name;
    var l :| 0 <= l < |deps| && deps[l] == d;
    assert e in d.e;
  }

  /**
   * A package that the tree does not list is loaded only if it becomes a fallback, and then only through
   * its root entry, whatever was wanted of it.
   */
  lemma UnlistedAsksRoot(s: State, deps: seq<Dep>, name: string, e: string)
    requires Inv(s) && s.body.Resolving? && Distinct(deps) && name !in Names(deps) && (name, e) in Asks(TreeDeps(s, deps))
    ensures name in Merged(s.core, deps, s.body.request).fallbacks && name !in s.core.fallbacks && e == ROOT_ENTRY
  {
    var merged := s.core.(manifest := s.core.manifest + Unknown(Names(s.core.manifest), deps));
    var core := Merged(s.core, deps, s.body.request);
    MergedIs(s.core, deps, s.body.request);
    ManifestGrows(s.core.manifest, deps);
    var d :| d in TreeDeps(s, deps) && d.n == name && e in EntriesOf(d);
    NewFallbacksFrom(core, s.core.fallbacks, core.manifest, d);
    RegisterFallbacksAdds(merged, Names(merged.manifest), s.body.request, d);
    assert d in merged.manifest ==> d.n in Names(merged.manifest);
  }

  lemma NewFallbacksFrom(c: Core, before: map<string, string>, deps: seq<Dep>, d: Dep)
    requires d in NewFallbacks(c, before, deps)
    ensures d in deps && d.n in c.fallbacks && d.n !in before
  {
  }

  lemma RegisterFallbacksAdds(c: Core, resolved: set<string>, request: Request, d: Dep)
    requires d in RegisterFallbacks(c, resolved, request).manifest
    ensures d in c.manifest || d.e == {}
    decreases |request|
  {
    if |request| > 0 {
      var (name, (range, _)) := request[0];
      RegisterFallbacksAdds(if name in resolved then c
        else c.(fallbacks := c.fallbacks[name := range], manifest := c.manifest + [Dep(name, range, name, {})]),
        resolved, request[1..], d);
    }
  }

  // ---- when a batch starts fresh --------------------------------------------------------------------

  /** Only a failure that takes back the package makes an expansion in flight stale. */
  lemma StaysFresh(s: State, l: Label, p: (string, string))
    requires Inv(s) && Enabled(s, l) && Fresh(s.core, p)
    requires p in s.core.expansions ==> p.0 in Next(s, l).core.modules
    ensures Fresh(Next(s, l).core, p)
  {
    match l
    case DoFulfil(id, installed) => FreshFulfil(s, id, installed, p);
    case DoTree(i, deps) => FreshTree(s, i, deps, p);
    case DoClosure(i, deps) => FreshClosure(s, i, deps, p);
    case DoExpand(_, dep) => FreshExpand(s, dep, p);
    case DoExpanded(name, entry, part) => FreshExpanded(s, name, entry, part, p);
    case DoFail(i) =>
    case _ => FreshOther(s, l, p);
  }

  lemma FreshFulfil(s: State, id: nat, installed: NodeModule, p: (string, string))
    requires Inv(s) && Fresh(s.core, p) && FetchingAt(s, id)
    ensures Fresh(FlightFulfilled(s, id, installed).core, p)
  {
    if Live(s, id) {
      assert LiveOk(s, id, Waits(s));
    }
  }

  lemma FreshTree(s: State, i: nat, deps: seq<Dep>, p: (string, string))
    requires Inv(s) && Fresh(s.core, p) && Enabled(s, DoTree(i, deps))
    ensures Fresh(TreeArrives(s, i, deps).core, p)
  {
    MergedIs(s.core, deps, s.body.request);
    StartsHold(s.(core := Merged(s.core, deps, s.body.request)), map[], TreeDeps(s, deps));
  }

  lemma FreshClosure(s: State, i: nat, deps: seq<Dep>, p: (string, string))
    requires Fresh(s.core, p) && Enabled(s, DoClosure(i, deps))
    ensures Fresh(ClosureArrives(s, i, deps).core, p)
  {
    StartsHold(s.(core := ClosureCore(s, deps)), map[], deps);
  }

  lemma FreshExpand(s: State, dep: Dep, p: (string, string))
    requires Fresh(s.core, p) && CanExpand(s, dep)
    ensures Fresh(ExpandDep(s, dep).core, p)
  {
  }

  lemma FreshExpanded(s: State, name: string, entry: string, part: P.Part, p: (string, string))
    requires Fresh(s.core, p) && (name, entry) in s.core.expansions
    ensures Fresh(ExpansionArrives(s, name, entry, part).core, p)
  {
  }

  lemma FreshOther(s: State, l: Label, p: (string, string))
    requires Fresh(s.core, p) && Enabled(s, l)
    requires !l.DoFulfil? && !l.DoTree? && !l.DoClosure? && !l.DoExpand? && !l.DoExpanded? && !l.DoFail?
    ensures Fresh(Next(s, l).core, p)
  {
    if l.DoExpandFails? {
      FreshDrop(s, l.name, l.entry, p);
    } else {
      C.PlainStep(s, l);
    }
  }

  lemma FreshDrop(s: State, name: string, entry: string, p: (string, string))
    requires Fresh(s.core, p) && (name, entry) in s.core.expansions
    ensures Fresh(Next(s, DoExpandFails(name, entry)).core, p)
  {
  }
}
