/** Runs of the registry: one batch at a time, all-or-nothing installs. */
module RegistryRuns {
  import opened Registry
  import opened RegistrySafety
  import P = ModuleParts

  // ---- the invariant -------------------------------------------------------------------

  function Waits(s: State): map<nat, string> {
    if s.body.Installing? then s.body.waits else map[]
  }

  /** Batches not done yet. */
  function Unfinished(batches: seq<Batch>): nat {
    if |batches| == 0 then 0 else (if batches[0].Done? then 0 else 1) + Unfinished(batches[1..])
  }

  /** Batches run one after the other, and `pendingBatches` counts those collecting, queued or running. */
  ghost predicate BatchesOk(s: State) {
    && (forall i, j :: 0 <= i < j < |s.batches| && !s.batches[j].Queued? ==> s.batches[i].Done?)
    && (s.body != NoBody <==> exists i :: ActiveAt(s, i))
    && s.core.pendingBatches == Unfinished(s.batches) + (if s.core.nextBatch.Some? then 1 else 0)
  }

  /** The manifest names, once each, what is installed or being waited for. */
  ghost predicate ManifestOk(s: State) {
    && Distinct(s.core.manifest)
    && Names(s.core.manifest) == s.core.modules.Keys + Waits(s).Values
    && s.core.fallbacks.Keys <= Names(s.core.manifest)
  }

  ghost predicate SnapshotOk(b: Snapshot) {
    Distinct(b.manifest) && Names(b.manifest) == b.names && b.fallbacks.Keys <= b.names
  }

  /** The body can restore exactly what its batch started from. */
  ghost predicate BodyOk(s: State) {
    match s.body
    case NoBody => true
    case Resolving(request) => s.begun == Take(s.core) && DistinctFirsts(request)
    case Installing(before, _, _, _) => before == s.begun && SnapshotOk(before) && before.names <= s.core.modules.Keys
    case Closing(before) => before == s.begun && SnapshotOk(before) && before.names <= s.core.modules.Keys
    case Linking(before) => before == s.begun && SnapshotOk(before) && before.names <= s.core.modules.Keys
  }

  ghost predicate ImportsOk(s: State) {
    && (s.core.nextBatch.Some? ==> DistinctFirsts(s.core.nextBatch.value))
    && forall i :: 0 <= i < |s.batches| && s.batches[i].Queued? ==> DistinctFirsts(s.batches[i].imports)
  }

  ghost predicate Inv(s: State) {
    FlightsOk(s, Waits(s)) && BatchesOk(s) && ManifestOk(s) && BodyOk(s) && ImportsOk(s)
  }

  // ---- batches ------------------------------------------------------------------------------

  lemma {:induction false} UnfinishedUpdate(batches: seq<Batch>, i: nat, b: Batch)
    requires i < |batches|
    ensures Unfinished(batches[i := b]) + (if batches[i].Done? then 0 else 1) == Unfinished(batches) + (if b.Done? then 0 else 1)
  {
    if i > 0 {
      assert batches[i := b][1..] == batches[1..][i - 1 := b];
      UnfinishedUpdate(batches[1..], i - 1, b);
    }
  }

  lemma {:induction false} UnfinishedAppend(batches: seq<Batch>, b: Batch)
    ensures Unfinished(batches + [b]) == Unfinished(batches) + (if b.Done? then 0 else 1)
  {
    if |batches| > 0 {
      assert (batches + [b])[1..] == batches[1..] + [b];
      UnfinishedAppend(batches[1..], b);
    }
  }

  lemma {:induction false} UnfinishedNone(batches: seq<Batch>)
    requires Unfinished(batches) == 0
    ensures forall i :: 0 <= i < |batches| ==> batches[i].Done?
  {
    if |batches| > 0 {
      UnfinishedNone(batches[1..]);
      assert forall i :: 0 < i < |batches| ==> batches[i] == batches[1..][i - 1];
    }
  }

  /** A batch that changes status among the unfinished ones. */
  lemma BatchesMove(s: State, t: State, i: nat, b: Batch)
    requires BatchesOk(s) && i < |s.batches| && !s.batches[i].Done? && !b.Queued?
    requires i > 0 ==> s.batches[i - 1].Done?
    requires t.batches == s.batches[i := b] && (t.body != NoBody <==> b.Active?)
    requires t.core.nextBatch == s.core.nextBatch
    requires t.core.pendingBatches + (if b.Done? then 1 else 0) == s.core.pendingBatches
    ensures BatchesOk(t)
  {
    UnfinishedUpdate(s.batches, i, b);
    assert forall j :: 0 <= j < i ==> s.batches[j].Done? by {
      forall j | 0 <= j < i ensures s.batches[j].Done? {
        if j < i - 1 { assert !s.batches[i - 1].Queued?; }
      }
    }
    assert forall j :: i < j < |s.batches| ==> s.batches[j].Queued?;
    if b.Active? { assert ActiveAt(t, i); }
  }

  lemma BeforeActive(s: State, i: nat)
    requires BatchesOk(s) && i < |s.batches| && !s.batches[i].Queued?
    ensures i > 0 ==> s.batches[i - 1].Done?
  {
  }

  lemma NoBodyAtStart(s: State, i: nat)
    requires BatchesOk(s) && CanStart(s, i)
    ensures s.body == NoBody
  {
  }

  // ---- steps that only move batches ---------------------------------------------------------------

  lemma InvEnqueue(s: State, name: string, entry: string)
    requires Inv(s)
    ensures Inv(Next(s, DoEnqueue(name, entry)))
  {
    var t := Next(s, DoEnqueue(name, entry));
    FlightsFrame(s, t, Waits(s));
    AddImportDistinct(if s.core.nextBatch.Some? then s.core.nextBatch.value else [], name, entry);
    assert forall i :: ActiveAt(t, i) == ActiveAt(s, i);
  }

  lemma InvCloseWindow(s: State)
    requires Inv(s) && Enabled(s, DoCloseWindow)
    ensures Inv(CloseWindow(s))
  {
    var t := CloseWindow(s);
    FlightsFrame(s, t, Waits(s));
    UnfinishedAppend(s.batches, t.batches[|s.batches|]);
    forall i: nat ensures ActiveAt(t, i) == ActiveAt(s, i) {
    }
  }

  lemma InvStart(s: State, i: nat)
    requires Inv(s) && Enabled(s, DoStart(i))
    ensures Inv(StartBatch(s, i))
  {
    var t := StartBatch(s, i);
    NoBodyAtStart(s, i);
    FlightsFrame(s, t, Waits(s));
    RequestDistinct(s.core, s.batches[i].imports);
    BatchesMove(s, t, i, t.batches[i]);
  }

  lemma InvEnd(s: State, i: nat)
    requires Inv(s) && Enabled(s, DoEnd(i))
    ensures Inv(EndBatch(s, i))
  {
    var t := EndBatch(s, i);
    forall j: nat ensures !ActiveAt(s, j) {
    }
    assert s.body == NoBody;
    FlightsFrame(s, t, Waits(s));
    UnfinishedUpdate(s.batches, i, Done);
    BeforeActive(s, i);
    BatchesMove(s, t, i, Done);
  }

  /** The body leaves with nothing awaited: the batch settles. */
  lemma InvLeave(s: State, i: nat)
    requires Inv(s) && ActiveAt(s, i) && Waits(s) == map[]
    ensures Inv(Leave(s, i))
  {
    var t := Leave(s, i);
    FlightsFrame(s, t, map[]);
    BeforeActive(s, i);
    BatchesMove(s, t, i, Ending);
  }

  // ---- the body ------------------------------------------------------------------------------------

  lemma SameBatches(s: State, t: State)
    requires BatchesOk(s) && t.batches == s.batches && (t.body == NoBody <==> s.body == NoBody)
    requires t.core.nextBatch == s.core.nextBatch && t.core.pendingBatches == s.core.pendingBatches
    ensures BatchesOk(t)
  {
    assert forall i :: ActiveAt(t, i) == ActiveAt(s, i);
  }

  /** The same body, up to what is still to be expanded. */
  predicate SameBody(s: State, t: State) {
    if s.body.Installing? then t.body == s.body.(todo := if t.body.Installing? then t.body.todo else {}, pending := if t.body.Installing? then t.body.pending else {})
    else t.body == s.body
  }

  /** A step that only touches declarations, expansions, and what packages hold. */
  ghost predicate OnlyContents(s: State, t: State) {
    && t.flights == s.flights && t.settled == s.settled && t.nextId == s.nextId && t.batches == s.batches
    && t.begun == s.begun && SameBody(s, t)
    && t.core == s.core.(declared := t.core.declared, expansions := t.core.expansions, modules := t.core.modules)
    && t.core.modules.Keys == s.core.modules.Keys
  }

  lemma InvContents(s: State, t: State)
    requires Inv(s) && OnlyContents(s, t)
    ensures Inv(t)
  {
    FlightsFrame(s, t, Waits(s));
    SameBatches(s, t);
  }

  lemma ExpandIsContents(s: State, dep: Dep)
    requires CanExpand(s, dep)
    ensures OnlyContents(s, ExpandDep(s, dep))
  {
    assert ExpandDep(s, dep).core.modules.Keys == s.core.modules.Keys;
  }

  lemma ExpandedIsContents(s: State, name: string, entry: string, part: P.Part)
    requires (name, entry) in s.core.expansions
    ensures OnlyContents(s, ExpansionArrives(s, name, entry, part))
  {
    assert ExpansionArrives(s, name, entry, part).core.modules.Keys == s.core.modules.Keys;
  }

  lemma AllAwaitedArrived(s: State)
    requires Inv(s) && s.body.Installing? && AllInstalled(s, s.body.waits)
    ensures FlightsOk(s, map[]) && Waits(s).Values <= s.core.modules.Keys
  {
    NothingLiveMeans(s, Waits(s));
    forall v | v in Waits(s).Values ensures v in s.core.modules {
      var id :| id in Waits(s) && Waits(s)[id] == v;
      assert Live(s, id) || Arrived(s, id, Waits(s)[id]);
    }
  }

  lemma InvCloses(s: State, t: State, body: Body)
    requires Inv(s) && s.body.Installing? && AllInstalled(s, s.body.waits)
    requires t == s.(body := body, attempted := t.attempted)
    requires body == Linking(s.body.before) || body == Closing(s.body.before)
    ensures Inv(t)
  {
    AllAwaitedArrived(s);
    FlightsFrame(s, t, map[]);
    SameBatches(s, t);
  }

  lemma InvInstalled(s: State, i: nat)
    requires Inv(s) && Enabled(s, DoInstalled(i))
    ensures Inv(CloseOver(s))
  {
    InvCloses(s, CloseOver(s), CloseOver(s).body);
  }

  /** The batch fails with the snapshot it started from. */
  lemma InvFail(s: State, i: nat, before: Snapshot)
    requires FlightsOk(s, Waits(s)) && BatchesOk(s) && ImportsOk(s) && ActiveAt(s, i)
    requires SnapshotOk(before) && before.names <= s.core.modules.Keys
    ensures Inv(Fail(s, i, before)) && NothingLive(Fail(s, i, before))
    ensures Take(Fail(s, i, before).core) == before
  {
    var mid := s.(core := Rollback(s.core, before));
    var t := Fail(s, i, before);
    RollbackFlights(s, Waits(s), before);
    FlightsFrame(mid, t, map[]);
    BeforeActive(s, i);
    BatchesMove(s, t, i, Ending);
    assert t.core.modules.Keys == before.names;
  }

  ghost predicate CanLaunch(s: State, merged: Core, deps: seq<Dep>) {
    && Distinct(deps)
    && merged == s.core.(manifest := merged.manifest, fallbacks := merged.fallbacks)
    && Distinct(merged.manifest) && Names(merged.manifest) == merged.modules.Keys + Names(deps)
    && merged.fallbacks.Keys <= Names(merged.manifest)
  }

  lemma LaunchStarts(s: State, merged: Core, deps: seq<Dep>, before: Snapshot)
    requires FlightsOk(s, map[]) && CanLaunch(s, merged, deps)
    ensures var t := Launch(s, merged, deps, before);
            && t.body == Installing(before, Waits(t), Elements(deps), {}) && FlightsOk(t, Waits(t))
            && t.core == merged.(downloads := t.core.downloads)
            && t.batches == s.batches && t.begun == s.begun && t.settled == s.settled && t.asked == s.asked + Asks(deps)
            && Waits(t).Values == Names(deps) - merged.modules.Keys
  {
    var mid := s.(core := merged);
    FlightsFrame(s, mid, map[]);
    StartAll(mid, map[], deps);
    var (started, waits) := StartInstalls(mid, map[], deps);
    FlightsFrame(started, Launch(s, merged, deps, before), waits);
  }

  /** The state after a tree is merged: `waits` hold what the manifest gained beyond the installed. */
  lemma InvLaunch(s: State, merged: Core, deps: seq<Dep>, before: Snapshot)
    requires FlightsOk(s, map[]) && CanLaunch(s, merged, deps) && BatchesOk(s) && ImportsOk(s) && s.body != NoBody
    requires before == s.begun && SnapshotOk(before) && before.names <= merged.modules.Keys
    ensures Inv(Launch(s, merged, deps, before))
  {
    LaunchStarts(s, merged, deps, before);
    SameBatches(s, Launch(s, merged, deps, before));
  }

  lemma MergedIs(c: Core, resolved: seq<Dep>, request: Request)
    requires Distinct(c.manifest) && Distinct(resolved) && DistinctFirsts(request)
    requires c.fallbacks.Keys <= Names(c.manifest)
    ensures var d := Merged(c, resolved, request);
            && d == c.(manifest := d.manifest, fallbacks := d.fallbacks)
            && Distinct(d.manifest) && Names(c.manifest) + Names(resolved) <= Names(d.manifest)
            && d.fallbacks.Keys == c.fallbacks.Keys + (Names(d.manifest) - Names(c.manifest) - Names(resolved))
  {
    var merged := c.(manifest := c.manifest + Unknown(Names(c.manifest), resolved));
    ManifestGrows(c.manifest, resolved);
    RegisterFallbacksIs(merged, Names(merged.manifest), request);
  }

  /** The tree's packages and the new fallbacks are what the manifest gained. */
  lemma MergedLaunches(s: State, resolved: seq<Dep>, request: Request)
    requires Distinct(s.core.manifest) && Distinct(resolved) && DistinctFirsts(request)
    requires s.core.fallbacks.Keys <= Names(s.core.manifest) && Names(s.core.manifest) == s.core.modules.Keys
    ensures var core := Merged(s.core, resolved, request);
            CanLaunch(s, core, resolved + NewFallbacks(core, s.core.fallbacks, core.manifest))
  {
    var core := Merged(s.core, resolved, request);
    MergedIs(s.core, resolved, request);
    GainedLaunches(s.core, core, resolved);
  }

  lemma GainedLaunches(c: Core, d: Core, resolved: seq<Dep>)
    requires Distinct(c.manifest) && Distinct(d.manifest) && Distinct(resolved)
    requires c.fallbacks.Keys <= Names(c.manifest) && Names(c.manifest) + Names(resolved) <= Names(d.manifest)
    requires d.fallbacks.Keys == c.fallbacks.Keys + (Names(d.manifest) - Names(c.manifest) - Names(resolved))
    ensures var deps := resolved + NewFallbacks(d, c.fallbacks, d.manifest);
            Distinct(deps) && Names(d.manifest) == Names(c.manifest) + Names(deps)
  {
    var added := NewFallbacks(d, c.fallbacks, d.manifest);
    NewFallbacksIs(d, c.fallbacks, d.manifest);
    NamesConcat(resolved, added);
    assert Names(added) == Names(d.manifest) - Names(c.manifest) - Names(resolved);
    DistinctConcat(resolved, added);
  }

  lemma InvTree(s: State, i: nat, resolved: seq<Dep>)
    requires Inv(s) && Enabled(s, DoTree(i, resolved))
    ensures Inv(TreeArrives(s, i, resolved))
  {
    var core := Merged(s.core, resolved, s.body.request);
    MergedIs(s.core, resolved, s.body.request);
    if !AllResolved(core, s.body.request) {
      var mid := s.(core := core);
      FlightsFrame(s, mid, map[]);
      SameBatches(s, mid);
      InvFail(mid, i, Take(s.core));
    } else {
      MergedLaunches(s, resolved, s.body.request);
      InvLaunch(s, core, resolved + NewFallbacks(core, s.core.fallbacks, core.manifest), Take(s.core));
    }
  }

  lemma InvClosure(s: State, i: nat, extra: seq<Dep>)
    requires Inv(s) && Enabled(s, DoClosure(i, extra))
    ensures Inv(ClosureArrives(s, i, extra))
  {
    if extra == [] {
      FlightsFrame(s, ClosureArrives(s, i, extra), map[]);
      SameBatches(s, ClosureArrives(s, i, extra));
    } else {
      ManifestGrows(s.core.manifest, extra);
      var merged := s.core.(manifest := s.core.manifest + Unknown(Names(s.core.manifest), extra));
      InvLaunch(s, merged, extra, s.body.before);
    }
  }

  // ---- downloads ------------------------------------------------------------------

  lemma InvFulfil(s: State, id: nat, installed: NodeModule)
    requires Inv(s) && FetchingAt(s, id)
    ensures Inv(FlightFulfilled(s, id, installed))
  {
    var t := FlightFulfilled(s, id, installed);
    FulfilFlights(s, Waits(s), id, installed);
    SameBatches(s, t);
    if Live(s, id) {
      assert LiveOk(s, id, Waits(s));
      assert s.flights[id].key.name in Waits(s).Values;
    }
  }

  lemma InvReject(s: State, id: nat)
    requires Inv(s) && FetchingAt(s, id)
    ensures Inv(FlightRejected(s, id))
  {
    RejectFlights(s, Waits(s), id);
    SameBatches(s, FlightRejected(s, id));
  }

  lemma InvSettle(s: State, id: nat)
    requires Inv(s) && Enabled(s, DoSettle(id))
    ensures Inv(FlightSettled(s, id))
  {
    SettleFlights(s, Waits(s), id);
    SameBatches(s, FlightSettled(s, id));
  }

  lemma InvLink(s: State, i: nat)
    requires Inv(s) && Enabled(s, DoClosureFails(i))
    ensures Inv(Next(s, DoClosureFails(i)))
  {
    var t := Next(s, DoClosureFails(i));
    FlightsFrame(s, t, map[]);
    SameBatches(s, t);
  }

  // ---- runs ----------------------------------------------------------------------------------------

  lemma InvStep(s: State, l: Label)
    requires Inv(s) && Enabled(s, l)
    ensures Inv(Next(s, l))
  {
    match l
    case DoEnqueue(name, entry) => InvEnqueue(s, name, entry);
    case DoSetDeclared(_) => InvContents(s, Next(s, l));
    case DoCloseWindow => InvCloseWindow(s);
    case DoStart(i) => InvStart(s, i);
    case DoTreeFails(i) => InvLeave(s, i);
    case DoTree(i, deps) => InvTree(s, i, deps);
    case DoExpand(_, dep) =>
      ExpandIsContents(s, dep);
      InvContents(s, Next(s, l));
    case DoInstalled(i) => InvInstalled(s, i);
    case DoClosure(i, deps) => InvClosure(s, i, deps);
    case DoClosureFails(i) => InvLink(s, i);
    case DoLinked(i) => InvLeave(s, i);
    case DoFail(i) => InvFail(s, i, s.body.before);
    case DoEnd(i) => InvEnd(s, i);
    case DoFulfil(id, installed) => InvFulfil(s, id, installed);
    case DoReject(id) => InvReject(s, id);
    case DoSettle(id) => InvSettle(s, id);
    case DoExpanded(name, entry, part) =>
      ExpandedIsContents(s, name, entry, part);
      InvContents(s, Next(s, l));
    case DoExpandFails(_, _) => InvContents(s, Next(s, l));
  }

  lemma InvBooted(s: State)
    requires Booted(s)
    ensures Inv(s)
  {
  }

  /** Step `k` of a run. */
  lemma StepAt(trace: seq<State>, labels: seq<Label>, k: nat)
    requires Steps(trace, labels) && k < |labels|
    ensures Enabled(trace[k], labels[k]) && trace[k + 1] == Next(trace[k], labels[k])
  {
  }

  /** Steps from a state that keeps the invariant, a booted one or any later one. */
  ghost predicate Sound(trace: seq<State>, labels: seq<Label>) {
    Steps(trace, labels) && Inv(trace[0])
  }

  lemma {:induction false} InvSteps(trace: seq<State>, labels: seq<Label>, k: nat)
    requires Sound(trace, labels) && k < |trace|
    ensures Inv(trace[k])
  {
    if k > 0 {
      InvSteps(trace, labels, k - 1);
      StepAt(trace, labels, k - 1);
      InvStep(trace[k - 1], labels[k - 1]);
    }
  }

  lemma InvRun(trace: seq<State>, labels: seq<Label>, k: nat)
    requires Run(trace, labels) && k < |trace|
    ensures Inv(trace[k])
  {
    InvBooted(trace[0]);
    InvSteps(trace, labels, k);
  }

  /** At most one batch runs, and the manifest lists no name twice. */
  lemma OneBatchAtATime(trace: seq<State>, labels: seq<Label>, k: nat, i: nat, j: nat)
    requires Run(trace, labels) && k < |trace| && ActiveAt(trace[k], i)
    ensures ActiveAt(trace[k], j) ==> i == j
    ensures Distinct(trace[k].core.manifest)
  {
    InvRun(trace, labels, k);
  }

  /** `whenIdle`: no batch is collecting, queued or running, nothing can register, the manifest is what is installed. */
  lemma IdleMeans(trace: seq<State>, labels: seq<Label>, k: nat)
    requires Run(trace, labels) && k < |trace|
    ensures trace[k].core.pendingBatches == 0 <==>
            trace[k].core.nextBatch.None? && forall i :: 0 <= i < |trace[k].batches| ==> trace[k].batches[i].Done?
    ensures trace[k].core.pendingBatches == 0 ==>
              NothingLive(trace[k]) && Names(trace[k].core.manifest) == trace[k].core.modules.Keys
  {
    var s := trace[k];
    InvRun(trace, labels, k);
    if s.core.pendingBatches == 0 {
      UnfinishedNone(s.batches);
      NothingLiveMeans(s, Waits(s));
    } else if s.core.nextBatch.None? {
      UnfinishedSome(s.batches);
    }
  }

  lemma {:induction false} UnfinishedSome(batches: seq<Batch>)
    requires Unfinished(batches) > 0
    ensures exists i :: 0 <= i < |batches| && !batches[i].Done?
  {
    if batches[0].Done? {
      UnfinishedSome(batches[1..]);
      var i :| 0 <= i < |batches[1..]| && !batches[1..][i].Done?;
      assert batches[1..][i] == batches[i + 1];
    }
  }

  // ---- rollback ------------------------------------------------------------------------------------

  /** The step that rejects the running batch. */
  predicate Rejects(s: State, l: Label)
    requires Enabled(s, l)
  {
    l.DoFail? || l.DoTreeFails? || (l.DoTree? && Next(s, l).body.NoBody?)
  }

  lemma RejectRestores(s: State, l: Label)
    requires Inv(s) && Enabled(s, l) && Rejects(s, l)
    ensures Next(s, l).body.NoBody? && Take(Next(s, l).core) == s.begun
  {
    match l
    case DoFail(i) => InvFail(s, i, s.body.before);
    case DoTreeFails(i) =>
    case DoTree(i, deps) =>
      MergedIs(s.core, deps, s.body.request);
      TreeFailRestores(s, i, Merged(s.core, deps, s.body.request));
  }

  lemma TreeFailRestores(s: State, i: nat, core: Core)
    requires Inv(s) && ActiveAt(s, i) && s.body.Resolving?
    requires core == s.core.(manifest := core.manifest, fallbacks := core.fallbacks)
    ensures Take(Fail(s.(core := core), i, Take(s.core)).core) == s.begun
  {
    var mid := s.(core := core);
    FlightsFrame(s, mid, map[]);
    SameBatches(s, mid);
    InvFail(mid, i, Take(s.core));
  }

  /** While no batch runs, late completions register nothing. */
  lemma QuietStep(s: State, l: Label)
    requires Inv(s) && Enabled(s, l) && s.body.NoBody? && !l.DoStart?
    ensures Next(s, l).body.NoBody? && Take(Next(s, l).core) == Take(s.core)
  {
    match l
    case DoFulfil(id, installed) => assert Live(s, id) ==> LiveOk(s, id, Waits(s));
    case DoExpanded(name, entry, part) => ExpandedIsContents(s, name, entry, part);
    case _ =>
  }

  ghost predicate QuietTrace(trace: seq<State>, labels: seq<Label>) {
    && |trace| == |labels| + 1
    && forall k :: 0 <= k < |labels| && trace[k].body.NoBody? && !labels[k].DoStart? ==>
         trace[k + 1].body.NoBody? && Take(trace[k + 1].core) == Take(trace[k].core)
  }

  lemma RunIsQuiet(trace: seq<State>, labels: seq<Label>)
    requires Run(trace, labels)
    ensures QuietTrace(trace, labels)
  {
    forall k | 0 <= k < |labels| && trace[k].body.NoBody? && !labels[k].DoStart?
      ensures trace[k + 1].body.NoBody? && Take(trace[k + 1].core) == Take(trace[k].core)
    {
      InvRun(trace, labels, k);
      StepAt(trace, labels, k);
      QuietStep(trace[k], labels[k]);
    }
  }

  lemma BegunStep(s: State, l: Label)
    requires Inv(s) && Enabled(s, l) && !l.DoStart?
    ensures Next(s, l).begun == s.begun
  {
    match l
    case DoTree(i, deps) => StartsKeepBegun(s.(core := Merged(s.core, deps, s.body.request)), map[], TreeDeps(s, deps));
    case DoClosure(i, deps) => StartsKeepBegun(s.(core := ClosureCore(s, deps)), map[], deps);
    case _ =>
  }

  /** What a tree's arrival installs. */
  function TreeDeps(s: State, deps: seq<Dep>): seq<Dep>
    requires s.body.Resolving?
  {
    var core := Merged(s.core, deps, s.body.request);
    deps + NewFallbacks(core, s.core.fallbacks, core.manifest)
  }

  function ClosureCore(s: State, extra: seq<Dep>): Core {
    s.core.(manifest := s.core.manifest + Unknown(Names(s.core.manifest), extra))
  }

  lemma StartsKeepBegun(s: State, waits: map<nat, string>, deps: seq<Dep>)
    ensures StartInstalls(s, waits, deps).0.begun == s.begun
    decreases |deps|
  {
    if |deps| > 0 {
      var (t, more) := StartInstall(s, waits, deps[0]);
      StartsKeepBegun(t, more, deps[1..]);
    }
  }

  ghost predicate BegunTrace(trace: seq<State>, labels: seq<Label>) {
    && |trace| == |labels| + 1
    && forall k :: 0 <= k < |labels| && !labels[k].DoStart? ==> trace[k + 1].begun == trace[k].begun
  }

  lemma RunKeepsBegun(trace: seq<State>, labels: seq<Label>)
    requires Run(trace, labels)
    ensures BegunTrace(trace, labels)
  {
    forall k | 0 <= k < |labels| && !labels[k].DoStart? ensures trace[k + 1].begun == trace[k].begun {
      InvRun(trace, labels, k);
      StepAt(trace, labels, k);
      BegunStep(trace[k], labels[k]);
    }
  }

  predicate NoStart(labels: seq<Label>, j: nat, k: nat) {
    j <= k <= |labels| && forall i :: j <= i < k ==> !labels[i].DoStart?
  }

  lemma {:induction false} BegunKept(trace: seq<State>, labels: seq<Label>, j: nat, k: nat)
    requires BegunTrace(trace, labels) && NoStart(labels, j, k)
    ensures trace[k].begun == trace[j].begun
  {
    if j < k {
      BegunKept(trace, labels, j, k - 1);
      assert trace[k] == trace[k - 1 + 1];
    }
  }

  lemma {:induction false} QuietUntil(trace: seq<State>, labels: seq<Label>, j: nat, k: nat)
    requires QuietTrace(trace, labels) && NoStart(labels, j, k) && trace[j].body.NoBody?
    ensures trace[k].body.NoBody? && Take(trace[k].core) == Take(trace[j].core)
  {
    if j < k {
      QuietUntil(trace, labels, j, k - 1);
      assert trace[k] == trace[k - 1 + 1];
    }
  }

  /** While no batch runs, nothing changes the manifest, the fallbacks or the installed names. */
  lemma QuietUntilNextBatch(trace: seq<State>, labels: seq<Label>, j: nat, k: nat)
    requires Run(trace, labels) && NoStart(labels, j, k) && trace[j].body.NoBody?
    ensures trace[k].body.NoBody? && Take(trace[k].core) == Take(trace[j].core)
  {
    RunIsQuiet(trace, labels);
    QuietUntil(trace, labels, j, k);
  }

  /**
   * A batch that started in step `j` and is rejected in step `k` leaves the manifest, the fallbacks
   * and the installed names as it found them, whatever completes late, until the next batch starts.
   */
  lemma RejectedInstallLeavesNoTrace(trace: seq<State>, labels: seq<Label>, j: nat, k: nat, m: nat)
    requires Run(trace, labels) && j < k < m < |trace|
    requires labels[j].DoStart? && NoStart(labels, j + 1, m) && Rejects(trace[k], labels[k])
    ensures Take(trace[m].core) == Take(trace[j].core)
  {
    RunKeepsBegun(trace, labels);
    BegunKept(trace, labels, j + 1, k);
    StartTakes(trace, labels, j);
    RejectedAt(trace, labels, k);
    QuietUntilNextBatch(trace, labels, k + 1, m);
  }

  lemma StartTakes(trace: seq<State>, labels: seq<Label>, j: nat)
    requires Run(trace, labels) && j < |labels| && labels[j].DoStart?
    ensures trace[j + 1].begun == Take(trace[j].core)
  {
    StepAt(trace, labels, j);
  }

  lemma RejectedAt(trace: seq<State>, labels: seq<Label>, k: nat)
    requires Run(trace, labels) && k < |labels| && Rejects(trace[k], labels[k])
    ensures trace[k + 1].body.NoBody? && Take(trace[k + 1].core) == trace[k].begun
  {
    InvRun(trace, labels, k);
    StepAt(trace, labels, k);
    RejectRestores(trace[k], labels[k]);
  }

  // ---- cancelled downloads -----------------------------------------------------------------------------

  /** Download `id` started and, if it is still in flight, was cancelled. */
  predicate Doomed(s: State, id: nat) {
    id < s.nextId && !Live(s, id)
  }

  lemma StartsKeep(s: State, waits: map<nat, string>, deps: seq<Dep>, id: nat)
    requires Doomed(s, id)
    ensures Doomed(StartInstalls(s, waits, deps).0, id)
    decreases |deps|
  {
    if |deps| > 0 {
      var (t, more) := StartInstall(s, waits, deps[0]);
      StartsKeep(t, more, deps[1..], id);
    }
  }

  lemma DoomedTree(s: State, i: nat, deps: seq<Dep>, id: nat)
    requires Inv(s) && Enabled(s, DoTree(i, deps)) && Doomed(s, id)
    ensures Doomed(TreeArrives(s, i, deps), id)
  {
    var core := Merged(s.core, deps, s.body.request);
    MergedIs(s.core, deps, s.body.request);
    StartsKeep(s.(core := core), map[], TreeDeps(s, deps), id);
  }

  lemma DoomedClosure(s: State, i: nat, deps: seq<Dep>, id: nat)
    requires Enabled(s, DoClosure(i, deps)) && Doomed(s, id)
    ensures Doomed(ClosureArrives(s, i, deps), id)
  {
    StartsKeep(s.(core := ClosureCore(s, deps)), map[], deps, id);
  }

  lemma DoomedStep(s: State, l: Label, id: nat)
    requires Inv(s) && Enabled(s, l) && Doomed(s, id)
    ensures Doomed(Next(s, l), id)
  {
    match l
    case DoTree(i, deps) => DoomedTree(s, i, deps, id);
    case DoClosure(i, deps) => DoomedClosure(s, i, deps, id);
    case _ =>
  }

  ghost predicate DoomedTrace(trace: seq<State>, id: nat) {
    forall k :: 0 <= k < |trace| - 1 && Doomed(trace[k], id) ==> Doomed(trace[k + 1], id)
  }

  lemma RunKeepsDoomed(trace: seq<State>, labels: seq<Label>, id: nat)
    requires Run(trace, labels)
    ensures DoomedTrace(trace, id)
  {
    forall k | 0 <= k < |trace| - 1 && Doomed(trace[k], id) ensures Doomed(trace[k + 1], id) {
      InvRun(trace, labels, k);
      StepAt(trace, labels, k);
      DoomedStep(trace[k], labels[k], id);
    }
  }

  lemma {:induction false} DoomedUntil(trace: seq<State>, j: nat, k: nat, id: nat)
    requires DoomedTrace(trace, id) && j <= k < |trace| && Doomed(trace[j], id)
    ensures Doomed(trace[k], id)
  {
    if j < k {
      DoomedUntil(trace, j, k - 1, id);
      assert trace[k] == trace[k - 1 + 1];
    }
  }

  /** A download cancelled at `j` never registers, however late it completes and whatever reuses its key. */
  lemma CancelledNeverRegisters(trace: seq<State>, labels: seq<Label>, j: nat, k: nat, id: nat)
    requires Run(trace, labels) && j <= k < |labels| && id in trace[j].core.cancelled
    requires labels[k].DoFulfil? && labels[k].id == id
    ensures trace[k + 1].core == trace[k].core
  {
    InvRun(trace, labels, j);
    RunKeepsDoomed(trace, labels, id);
    DoomedUntil(trace, j, k, id);
    StepAt(trace, labels, k);
  }
}
