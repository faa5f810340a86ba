/**
 * No request is lost: whenever the collector returns a tree, the tree is closed under the
 * requests its own packages make.
 */
module CollectorClosure {
  import opened Wrappers
  import opened Collector
  import opened CollectorSafety
  import E = EntryClosures

  // ---- what is still owed -------------------------------------------------------------

  ghost predicate Errored(s: State) {
    s.firstError.Some? || exists i :: 0 <= i < |s.tasks| && s.tasks[i].Failing?
  }

  function Pending(t: Task): set<Request> {
    match t
    case Adding(reqs) => reqs
    case Spawning(_, reqs) => reqs
    case _ => {}
  }

  /** A request asking for the same name and at least the same entries. */
  predicate Subsumes(q: Request, r: Request) {
    q.name == r.name && r.entries <= q.entries
  }

  predicate Recorded(s: State, r: Request) {
    r.name in s.states && r.entries <= s.states[r.name].entries
  }

  ghost predicate Awaited(s: State, r: Request) {
    exists i, q :: 0 <= i < |s.tasks| && q in Pending(s.tasks[i]) && Subsumes(q, r)
  }

  /** `should_skip` refuses the request: its name is not recorded, and is no package's or comes after the cap. */
  predicate Refused(w: World, s: State, r: Request) {
    r.name !in s.states && ShouldSkip(w, r.name, |s.states|)
  }

  /** A request is recorded, or refused, or some task has yet to handle it. */
  ghost predicate Handled(w: World, s: State, r: Request) {
    Recorded(s, r) || Refused(w, s, r) || Awaited(s, r)
  }

  predicate JobCarries(job: Job, n: string, e: string) {
    job.Expansion? && job.name == n && e in job.entries
  }

  /** A task that will request what entry `e` of `n` imports. */
  predicate Carries(t: Task, n: string, e: string) {
    match t
    case Awaits(job) => JobCarries(job, n, e)
    case Spawning(job, _) => JobCarries(job, n, e)
    case Pushing(req, _, _, entries) => req.name == n && e in entries
    case _ => false
  }

  ghost predicate Carried(s: State, n: string, e: string) {
    exists i :: 0 <= i < |s.tasks| && Carries(s.tasks[i], n, e)
  }

  ghost predicate EntryHandled(w: World, s: State, n: string, e: string)
    requires n in s.states && s.states[n].resolved.Some?
  {
    var (version, source) := s.states[n].resolved.value;
    w.content(source, version).Ok? &&
    forall r :: r in ClosureRequests(w, n, source, version, w.content(source, version).value, {e}, 0) ==> Handled(w, s, r)
  }

  /** Every recorded entry of a resolved name has been, or will be, followed. */
  ghost predicate Covered(w: World, s: State) {
    Errored(s) ||
    forall n, e :: n in s.states && s.states[n].resolved.Some? && e in s.states[n].entries ==>
      Carried(s, n, e) || EntryHandled(w, s, n, e)
  }

  /** Every recorded name is being resolved, about to be listed, or listed. */
  ghost predicate Attended(s: State) {
    Errored(s) ||
    forall n :: n in s.states ==>
      n in Listed(s) || exists i :: 0 <= i < |s.tasks| && Owner(s.tasks[i]) == Some(n)
  }

  // ---- requests are monotone in the entries that make them -------------------------------

  lemma RequestsMonotone(w: World, n: string, source: string, version: string, content: Content,
                         small: set<string>, large: set<string>, d: nat, d': nat, r: Request) returns (q: Request)
    requires small <= large && r in ClosureRequests(w, n, source, version, content, small, d)
    ensures q in ClosureRequests(w, n, source, version, content, large, d') && Subsumes(q, r)
  {
    var edges, more := E.Packages(content.pkg, small), E.Packages(content.pkg, large);
    PackagesMonotone(content.pkg, small, large);
    var edge :| edge in edges && RequestFor(w, n, source, version, content, d, edge.0, EntriesOf(edges, edge.0)) == Some(r);
    var asked := RequestFor(w, n, source, version, content, d', edge.0, EntriesOf(more, edge.0));
    assert asked.Some?;
    q := asked.value;
    EntriesMonotone(edges, more, edge.0);
  }

  lemma PackagesMonotone(pkg: E.Package, small: set<string>, large: set<string>)
    requires small <= large
    ensures E.Packages(pkg, small) <= E.Packages(pkg, large)
  {
    E.ClosureOfUnion(pkg, small, large);
    assert small + large == large;
  }

  lemma EntriesMonotone(a: set<(string, string)>, b: set<(string, string)>, package: string)
    requires a <= b
    ensures EntriesOf(a, package) <= EntriesOf(b, package)
  {
  }

  // ---- handled requests stay handled ------------------------------------------------------

  lemma AddHandles(w: World, s: State, i: nat, q: Request)
    requires WellPinned(w) && i < |s.tasks| && s.tasks[i].Adding? && q in s.tasks[i].reqs
    ensures var t := AddRequest(w, s, i, q);
            Recorded(t, q) || Refused(w, t, q)
  {
    var t := AddRequest(w, s, i, q);
    assert ApplyPin(w, q).name == q.name && ApplyPin(w, q).entries == q.entries;
    if q.name in s.states {
      assert Recorded(t, q);
    }
  }

  /** One turn of the loop: request `q` is the one handled, or it is still pending. */
  lemma AwaitedAdd(w: World, s: State, i: nat, x: Request, q: Request, r: Request)
    requires WellPinned(w) && i < |s.tasks| && s.tasks[i].Adding? && x in s.tasks[i].reqs
    requires q in s.tasks[i].reqs && Subsumes(q, r)
    ensures Handled(w, AddRequest(w, s, i, x), r)
  {
    var t := AddRequest(w, s, i, x);
    if x == q {
      AddHandles(w, s, i, q);
    } else {
      assert Pending(t.tasks[i]) == s.tasks[i].reqs - {x};
      assert q in Pending(t.tasks[i]);
    }
  }

  lemma AwaitedStep(w: World, s: State, t: State, i: nat, r: Request)
    requires WellPinned(w) && i < |s.tasks| && TaskStep(w, s, t, i) && Awaited(s, r)
    ensures Handled(w, t, r)
  {
    var j, q :| 0 <= j < |s.tasks| && q in Pending(s.tasks[j]) && Subsumes(q, r);
    if j != i {
      TaskStepOnly(w, s, t, i);
      assert q in Pending(t.tasks[j]);
    } else {
      match s.tasks[i]
      case Spawning(_, _) => assert q in Pending(t.tasks[i]);
      case Adding(reqs) =>
        var x :| x in reqs && t == AddRequest(w, s, i, x);
        AwaitedAdd(w, s, i, x, q, r);
    }
  }

  lemma HandledStep(w: World, s: State, t: State, r: Request)
    requires WellPinned(w) && Consistent(w, s) && Step(w, s, t) && Handled(w, s, r)
    ensures Handled(w, t, r)
  {
    StepGrows(w, s, t);
    if Awaited(s, r) {
      if MainStep(s, t) {
        assert t.tasks == s.tasks;
      } else {
        var i :| 0 <= i < |s.tasks| && TaskStep(w, s, t, i);
        AwaitedStep(w, s, t, i, r);
      }
    }
  }

  lemma ErroredStep(w: World, s: State, t: State)
    requires Step(w, s, t) && Errored(s)
    ensures Errored(t)
  {
    if !MainStep(s, t) && s.firstError.None? {
      var i :| 0 <= i < |s.tasks| && TaskStep(w, s, t, i);
      TaskStepOnly(w, s, t, i);
      var j :| 0 <= j < |s.tasks| && s.tasks[j].Failing?;
      assert j != i ==> t.tasks[j].Failing?;
    }
  }

  lemma EntryHandledStep(w: World, s: State, t: State, n: string, e: string)
    requires WellPinned(w) && Consistent(w, s) && Step(w, s, t)
    requires n in s.states && s.states[n].resolved.Some? && EntryHandled(w, s, n, e)
    requires n in t.states && t.states[n].resolved == s.states[n].resolved
    ensures EntryHandled(w, t, n, e)
  {
    var (version, source) := s.states[n].resolved.value;
    forall r | r in ClosureRequests(w, n, source, version, w.content(source, version).value, {e}, 0) ensures Handled(w, t, r) {
      HandledStep(w, s, t, r);
    }
  }

  /** The step by which a carrier delivers: the requests of all its entries are now pending. */
  lemma Delivered(w: World, t: State, i: nat, n: string, source: string, version: string, entries: set<string>, d: nat, e: string)
    requires i < |t.tasks| && w.content(source, version).Ok? && e in entries
    requires t.tasks[i] == Adding(ClosureRequests(w, n, source, version, w.content(source, version).value, entries, d))
    requires ResolvedAs(t, n, version, source)
    ensures EntryHandled(w, t, n, e)
  {
    var content := w.content(source, version).value;
    forall r | r in ClosureRequests(w, n, source, version, content, {e}, 0) ensures Handled(w, t, r) {
      var q := RequestsMonotone(w, n, source, version, content, {e}, entries, 0, d, r);
      assert q in Pending(t.tasks[i]);
    }
  }

  /** A carrier still carries after a step, or it has delivered, or it failed. */
  lemma CarriedStep(w: World, s: State, t: State, i: nat, n: string, e: string)
    requires Consistent(w, s) && i < |s.tasks| && TaskStep(w, s, t, i) && Carried(s, n, e)
    requires n in s.states && s.states[n].resolved.Some?
    ensures n in t.states && t.states[n].resolved == s.states[n].resolved
    ensures Carried(t, n, e) || Errored(t) || EntryHandled(w, t, n, e)
  {
    TaskStepOnly(w, s, t, i);
    assert TaskAgrees(w, s, s.tasks[i]);
    TaskStepGrows(w, s, t, i);
    var j :| 0 <= j < |s.tasks| && Carries(s.tasks[j], n, e);
    if j != i {
      assert Carries(t.tasks[j], n, e);
    } else {
      match s.tasks[i]
      case Spawning(job, _) => assert Carries(t.tasks[|s.tasks|], n, e);
      case Pushing(req, version, _, entries) =>
        Delivered(w, t, i, n, req.source, version, entries, req.depth, e);
      case Awaits(job) =>
        if w.content(job.source, job.version).Ok? {
          Delivered(w, t, i, n, job.source, job.version, job.entries, job.depth, e);
        } else {
          assert t.tasks[i].Failing?;
        }
    }
  }

  /** An entry that a step records, or whose name it resolves, is carried from then on. */
  lemma NewEntryCarried(w: World, s: State, t: State, i: nat, n: string, e: string)
    requires Consistent(w, s) && i < |s.tasks| && TaskStep(w, s, t, i)
    requires n in t.states && t.states[n].resolved.Some? && e in t.states[n].entries
    requires !(n in s.states && s.states[n].resolved.Some? && e in s.states[n].entries)
    ensures Carried(t, n, e)
  {
    assert TaskAgrees(w, s, s.tasks[i]);
    assert Carries(t.tasks[i], n, e);
  }

  lemma CoveredTaskStep(w: World, s: State, t: State, i: nat)
    requires WellPinned(w) && Consistent(w, s) && i < |s.tasks| && TaskStep(w, s, t, i) && Covered(w, s)
    ensures Covered(w, t)
  {
    assert Step(w, s, t);
    if Errored(s) {
      ErroredStep(w, s, t);
    } else if !Errored(t) {
      forall n, e | n in t.states && t.states[n].resolved.Some? && e in t.states[n].entries
        ensures Carried(t, n, e) || EntryHandled(w, t, n, e)
      {
        if n in s.states && s.states[n].resolved.Some? && e in s.states[n].entries {
          StepGrows(w, s, t);
          if Carried(s, n, e) {
            CarriedStep(w, s, t, i, n, e);
          } else {
            EntryHandledStep(w, s, t, n, e);
          }
        } else {
          NewEntryCarried(w, s, t, i, n, e);
        }
      }
    }
  }

  lemma CoveredStep(w: World, s: State, t: State)
    requires WellPinned(w) && Consistent(w, s) && Step(w, s, t) && Covered(w, s)
    ensures Covered(w, t)
  {
    if MainStep(s, t) {
      if !Errored(t) {
        assert !Errored(s);
        forall n, e | n in t.states && t.states[n].resolved.Some? && e in t.states[n].entries
          ensures Carried(t, n, e) || EntryHandled(w, t, n, e)
        {
          if Carried(s, n, e) {
            var i :| 0 <= i < |s.tasks| && Carries(s.tasks[i], n, e);
            assert Carries(t.tasks[i], n, e);
          } else {
            EntryHandledStep(w, s, t, n, e);
          }
        }
      }
    } else {
      var i :| 0 <= i < |s.tasks| && TaskStep(w, s, t, i);
      CoveredTaskStep(w, s, t, i);
    }
  }

  // ---- every recorded name is listed in the end -------------------------------------------

  ghost predicate AttendedName(s: State, n: string) {
    n in Listed(s) || exists i :: 0 <= i < |s.tasks| && Owner(s.tasks[i]) == Some(n)
  }

  lemma ListedGrows(w: World, s: State, t: State, i: nat)
    requires i < |s.tasks| && TaskStep(w, s, t, i)
    ensures Listed(s) <= Listed(t)
    ensures s.tasks[i].Pushing? ==> s.tasks[i].req.name in Listed(t)
  {
    if s.tasks[i].Pushing? {
      ListedOneMore(s, t);
    } else {
      assert t.deps == s.deps;
    }
  }

  lemma AttendedTaskStep(w: World, s: State, t: State, i: nat, n: string)
    requires Consistent(w, s) && i < |s.tasks| && TaskStep(w, s, t, i) && n in t.states
    requires n in s.states ==> AttendedName(s, n)
    ensures Errored(t) || AttendedName(t, n)
  {
    assert TaskAgrees(w, s, s.tasks[i]);
    ListedGrows(w, s, t, i);
    if n !in s.states {
      assert Owner(t.tasks[i]) == Some(n);
    } else if n !in Listed(s) {
      TaskStepOnly(w, s, t, i);
      var j :| 0 <= j < |s.tasks| && Owner(s.tasks[j]) == Some(n);
      if j != i {
        assert Owner(t.tasks[j]) == Some(n);
      } else {
        OwnerStep(w, s, t, i, n);
      }
    }
  }

  lemma OwnerStep(w: World, s: State, t: State, i: nat, n: string)
    requires i < |s.tasks| && TaskStep(w, s, t, i) && Owner(s.tasks[i]) == Some(n)
    ensures Errored(t) || AttendedName(t, n)
  {
    match s.tasks[i]
    case Spawning(job, _) => assert Owner(t.tasks[|s.tasks|]) == Some(n);
    case Pushing(_, _, _, _) => ListedOneMore(s, t);
    case Awaits(job) =>
      assert t.tasks[i].Failing? || Owner(t.tasks[i]) == Some(n);
  }

  lemma AttendedStep(w: World, s: State, t: State)
    requires Consistent(w, s) && Step(w, s, t) && Attended(s)
    ensures Attended(t)
  {
    if Errored(s) {
      ErroredStep(w, s, t);
    } else if MainStep(s, t) {
      assert Listed(t) == Listed(s);
      forall n | n in t.states ensures AttendedName(t, n) {
        assert AttendedName(s, n);
        if n !in Listed(s) {
          var i :| 0 <= i < |s.tasks| && Owner(s.tasks[i]) == Some(n);
          assert Owner(t.tasks[i]) == Some(n);
        }
      }
    } else {
      var i :| 0 <= i < |s.tasks| && TaskStep(w, s, t, i);
      forall n | n in t.states ensures Errored(t) || AttendedName(t, n) {
        assert n in s.states ==> AttendedName(s, n);
        AttendedTaskStep(w, s, t, i, n);
      }
    }
  }

  lemma CapStep(w: World, s: State, t: State)
    requires Consistent(w, s) && Step(w, s, t) && |s.states| <= 501
    ensures |t.states| <= 501
  {
    if !MainStep(s, t) {
      var i :| 0 <= i < |s.tasks| && TaskStep(w, s, t, i);
      assert TaskAgrees(w, s, s.tasks[i]);
      CapTaskStep(w, s, t, i);
    }
  }

  lemma CapTaskStep(w: World, s: State, t: State, i: nat)
    requires i < |s.tasks| && TaskAgrees(w, s, s.tasks[i]) && TaskStep(w, s, t, i) && |s.states| <= 501
    ensures |t.states| <= 501
  {
  }

  // ---- releases ---------------------------------------------------------------------------

  /** The release a name's pin resolves to. */
  function PinnedRelease(w: World, n: string): Result<(string, Content), string>
    requires n in w.pins
  {
    Resolve(w, w.pins[n].source, w.pins[n].range)
  }

  predicate JobPinned(w: World, job: Job) {
    job.Resolution? && job.req.name in w.pins ==>
      job.req.source == w.pins[job.req.name].source && job.req.range == w.pins[job.req.name].range
  }

  predicate TaskPinned(w: World, t: Task) {
    match t
    case Awaits(job) => JobPinned(w, job)
    case Spawning(job, _) => JobPinned(w, job)
    case _ => true
  }

  /** The releases a name can be resolved to: any with content, or its pin's when it has one. */
  ghost predicate MayResolve(w: World, n: string, source: string, version: string) {
    && w.content(source, version).Ok?
    && (n in w.pins ==> source == w.pins[n].source && PinnedRelease(w, n).Ok? && PinnedRelease(w, n).value.0 == version)
  }

  ghost predicate ReleaseKnown(w: World, s: State, n: string)
    requires n in s.states
  {
    match s.states[n].resolved
    case None => true
    case Some((version, source)) => MayResolve(w, n, source, version)
  }

  ghost predicate ReleasesKnown(w: World, s: State) {
    && (forall i :: 0 <= i < |s.tasks| ==> TaskPinned(w, s.tasks[i]))
    && (forall n :: n in s.states ==> ReleaseKnown(w, s, n))
  }

  lemma ReleasesStep(w: World, s: State, t: State)
    requires WellPinned(w) && ReleasesKnown(w, s) && Step(w, s, t)
    ensures ReleasesKnown(w, t)
  {
    if MainStep(s, t) {
      forall n | n in t.states ensures ReleaseKnown(w, t, n) {
        assert ReleaseKnown(w, s, n);
      }
    } else {
      var i :| 0 <= i < |s.tasks| && TaskStep(w, s, t, i);
      ReleasesTaskStep(w, s, t, i);
    }
  }

  lemma ReleaseTaskStep(w: World, s: State, t: State, i: nat, n: string)
    requires i < |s.tasks| && TaskStep(w, s, t, i) && TaskPinned(w, s.tasks[i]) && n in t.states
    requires n in s.states ==> ReleaseKnown(w, s, n)
    ensures ReleaseKnown(w, t, n)
  {
  }

  lemma PinnedTaskStep(w: World, s: State, t: State, i: nat)
    requires WellPinned(w) && i < |s.tasks| && TaskStep(w, s, t, i) && TaskPinned(w, s.tasks[i])
    ensures TaskPinned(w, t.tasks[i])
    ensures |t.tasks| == |s.tasks| || (|t.tasks| == |s.tasks| + 1 && TaskPinned(w, t.tasks[|s.tasks|]))
  {
  }

  lemma ReleasesTaskStep(w: World, s: State, t: State, i: nat)
    requires WellPinned(w) && ReleasesKnown(w, s) && i < |s.tasks| && TaskStep(w, s, t, i)
    ensures ReleasesKnown(w, t)
  {
    TaskStepOnly(w, s, t, i);
    PinnedTaskStep(w, s, t, i);
    forall j | 0 <= j < |t.tasks| ensures TaskPinned(w, t.tasks[j]) {
      if j < |s.tasks| && j != i { assert TaskPinned(w, s.tasks[j]); }
    }
    forall n | n in t.states ensures ReleaseKnown(w, t, n) {
      ReleaseTaskStep(w, s, t, i, n);
    }
  }

  // ---- runs -----------------------------------------------------------------------------

  ghost predicate ResultTrue(s: State) {
    match s.main
    case Returned(Ok(tree)) => s.firstError.None? && tree == GetDependencies(s)
    case Returned(Err(e)) => s.firstError == Some(e)
    case _ => true
  }

  /** The invariant of every run from `requests`. */
  ghost predicate Inv(w: World, requests: set<Request>, s: State) {
    && HandlesTracked(s) && Consistent(w, s) && Covered(w, s) && Attended(s) && ReleasesKnown(w, s) && ResultTrue(s)
    && |s.states| <= 501
    && forall r :: r in requests ==> Handled(w, s, r)
  }

  lemma InvStart(w: World, requests: set<Request>)
    ensures Inv(w, requests, Start(requests))
  {
    var s := Start(requests);
    forall r | r in requests ensures Handled(w, s, r) {
      assert r in Pending(s.tasks[0]) && Subsumes(r, r);
    }
  }

  lemma InvStep(w: World, requests: set<Request>, s: State, t: State)
    requires WellPinned(w) && Inv(w, requests, s) && Step(w, s, t)
    ensures Inv(w, requests, t)
  {
    TrackedStep(w, s, t);
    ConsistentStep(w, s, t);
    CoveredStep(w, s, t);
    AttendedStep(w, s, t);
    CapStep(w, s, t);
    ReleasesStep(w, s, t);
    ResultStep(w, s, t);
    forall r | r in requests ensures Handled(w, t, r) {
      HandledStep(w, s, t, r);
    }
  }

  lemma ResultStep(w: World, s: State, t: State)
    requires HandlesTracked(s) && ResultTrue(s) && Step(w, s, t)
    ensures ResultTrue(t)
  {
    if MainStep(s, t) {
      if s.main.Exited? {
        SameDependencies(s, t);
      }
    } else {
      var i :| 0 <= i < |s.tasks| && TaskStep(w, s, t, i);
      TaskStepOnly(w, s, t, i);
    }
  }

  lemma SameDependencies(s: State, t: State)
    requires t.deps == s.deps && t.states == s.states
    ensures GetDependencies(t) == GetDependencies(s)
  {
  }

  lemma {:induction false} InvRun(w: World, requests: set<Request>, trace: seq<State>, k: nat)
    requires WellPinned(w) && Run(w, requests, trace) && k < |trace|
    ensures Inv(w, requests, trace[k])
  {
    if k == 0 {
      InvStart(w, requests);
    } else {
      InvRun(w, requests, trace, k - 1);
      InvStep(w, requests, trace[k - 1], trace[k]);
    }
  }

  // ---- the theorems ------------------------------------------------------------------------

  predicate InTree(tree: Tree, r: Request) {
    r.name in tree && r.entries <= tree[r.name].2
  }

  /** A request the returned tree answers: it holds the name and its entries, or `should_skip` refused a name it does not hold. */
  predicate Answered(w: World, tree: Tree, r: Request) {
    InTree(tree, r) || (r.name !in tree && ShouldSkip(w, r.name, |tree|))
  }

  /**
   * In every reachable state: at most 501 names, each listed at most once, at most one task
   * resolving a name; and once `try_collect` leaves its loop, no task is alive.
   */
  lemma EveryStateIsSafe(w: World, requests: set<Request>, trace: seq<State>, k: nat)
    requires WellPinned(w) && Run(w, requests, trace) && k < |trace|
    ensures |trace[k].states| <= 501
    ensures forall i, j :: 0 <= i < j < |trace[k].deps| ==> trace[k].deps[i].name != trace[k].deps[j].name
    ensures forall i, j :: 0 <= i < j < |trace[k].tasks| && Owner(trace[k].tasks[i]).Some? ==>
              Owner(trace[k].tasks[i]) != Owner(trace[k].tasks[j])
    ensures trace[k].main.Exited? || trace[k].main.Returned? ==> AllDone(trace[k])
  {
    InvRun(w, requests, trace, k);
  }

  /** At the end of a run without errors the tree is the shared state, name for name. */
  ghost predicate Settled(w: World, requests: set<Request>, s: State, tree: Tree) {
    && Inv(w, requests, s) && AllDone(s) && s.firstError.None? && !Errored(s)
    && tree.Keys == s.states.Keys && |tree| == |s.states|
    && forall n :: n in tree ==> ResolvedAs(s, n, tree[n].0, tree[n].1) && tree[n].2 == s.states[n].entries
  }

  lemma TreeIsState(w: World, requests: set<Request>, s: State, tree: Tree)
    requires Inv(w, requests, s) && s.main == Returned(Ok(tree))
    ensures Settled(w, requests, s, tree)
  {
    AllListed(s);
    TreeEntries(w, s);
    assert |tree.Keys| == |s.states.Keys|;
  }

  lemma AllListed(s: State)
    requires Attended(s) && AllDone(s) && s.firstError.None?
    requires forall k :: 0 <= k < |s.deps| ==> s.deps[k].name in s.states
    ensures Listed(s) == s.states.Keys
  {
  }

  lemma TreeEntries(w: World, s: State)
    requires Consistent(w, s)
    ensures GetDependencies(s).Keys == Listed(s)
    ensures forall n :: n in Listed(s) ==>
              var entry := GetDependencies(s)[n];
              ResolvedAs(s, n, entry.0, entry.1) && entry.2 == s.states[n].entries
  {
  }

  lemma HandledIsAnswered(w: World, requests: set<Request>, s: State, tree: Tree, r: Request)
    requires Settled(w, requests, s, tree) && Handled(w, s, r)
    ensures Answered(w, tree, r)
  {
  }

  /** Each entry a request asks for is asked for on behalf of one entry of the importer. */
  lemma RequestFromOne(w: World, n: string, source: string, version: string, content: Content,
                       entries: set<string>, d: nat, r: Request, asked: string) returns (e: string, one: Request)
    requires r in ClosureRequests(w, n, source, version, content, entries, d) && asked in r.entries
    ensures e in entries && one in ClosureRequests(w, n, source, version, content, {e}, 0)
    ensures one.name == r.name && asked in one.entries
  {
    var edges := E.Packages(content.pkg, entries);
    var edge :| edge in edges && RequestFor(w, n, source, version, content, d, edge.0, EntriesOf(edges, edge.0)) == Some(r);
    assert (edge.0, asked) in edges;
    e := PackagesFromOne(content.pkg, entries, (edge.0, asked));
    var mine := E.Packages(content.pkg, {e});
    var made := RequestFor(w, n, source, version, content, 0, edge.0, EntriesOf(mine, edge.0));
    assert (edge.0, asked) in mine && (edge.0, asked).0 == edge.0;
    assert made.Some?;
    one := made.value;
    assert one == RequestFor(w, n, source, version, content, 0, (edge.0, asked).0, EntriesOf(mine, (edge.0, asked).0)).value;
  }

  lemma {:induction false} PackagesFromOne(pkg: E.Package, entries: set<string>, edge: (string, string)) returns (e: string)
    requires edge in E.Packages(pkg, entries)
    ensures e in entries && edge in E.Packages(pkg, {e})
    decreases entries
  {
    if entries == {} {
      NoEntriesNoPackages(pkg);
    } else {
      e :| e in entries;
      if edge !in E.Packages(pkg, {e}) {
        assert entries == {e} + (entries - {e});
        E.ClosureOfUnion(pkg, {e}, entries - {e});
        e := PackagesFromOne(pkg, entries - {e}, edge);
      }
    }
  }

  lemma NoEntriesNoPackages(pkg: E.Package)
    ensures E.Packages(pkg, {}) == {}
  {
  }

  lemma OneAnswered(w: World, requests: set<Request>, s: State, tree: Tree, n: string, d: nat, r: Request, asked: string)
    requires Settled(w, requests, s, tree) && n in tree && w.content(tree[n].1, tree[n].0).Ok?
    requires r in ClosureRequests(w, n, tree[n].1, tree[n].0, w.content(tree[n].1, tree[n].0).value, tree[n].2, d)
    requires asked in r.entries
    ensures (r.name !in tree && ShouldSkip(w, r.name, |tree|)) || (r.name in tree && asked in tree[r.name].2)
  {
    var (version, source, entries) := tree[n];
    var e, one := RequestFromOne(w, n, source, version, w.content(source, version).value, entries, d, r, asked);
    DoneCarriesNothing(s, n, e);
    assert EntryHandled(w, s, n, e);
    HandledIsAnswered(w, requests, s, tree, one);
  }

  lemma DoneCarriesNothing(s: State, n: string, e: string)
    requires AllDone(s)
    ensures !Carried(s, n, e)
  {
  }

  lemma ClosureAnswered(w: World, requests: set<Request>, s: State, tree: Tree, n: string, d: nat, r: Request)
    requires Settled(w, requests, s, tree) && n in tree && w.content(tree[n].1, tree[n].0).Ok?
    requires r in ClosureRequests(w, n, tree[n].1, tree[n].0, w.content(tree[n].1, tree[n].0).value, tree[n].2, d)
    ensures Answered(w, tree, r)
  {
    var (version, source, entries) := tree[n];
    var content := w.content(source, version).value;
    RequestAsks(w, n, source, version, content, entries, d, r);
    forall asked | asked in r.entries
      ensures (r.name !in tree && ShouldSkip(w, r.name, |tree|)) || (r.name in tree && asked in tree[r.name].2)
    {
      OneAnswered(w, requests, s, tree, n, d, r, asked);
    }
  }

  lemma RequestAsks(w: World, n: string, source: string, version: string, content: Content,
                    entries: set<string>, d: nat, r: Request)
    requires r in ClosureRequests(w, n, source, version, content, entries, d)
    ensures r.entries != {}
  {
    var edges := E.Packages(content.pkg, entries);
    var edge :| edge in edges && RequestFor(w, n, source, version, content, d, edge.0, EntriesOf(edges, edge.0)) == Some(r);
    assert edge.1 in EntriesOf(edges, edge.0);
  }

  /**
   * A tree that a collection returns is closed, under every interleaving: it answers the initial
   * requests and everything that the closures of its own packages' entries request, however late
   * an entry was recorded.
   */
  lemma CollectedTreeIsClosed(w: World, requests: set<Request>, trace: seq<State>, tree: Tree)
    requires WellPinned(w) && Run(w, requests, trace) && trace[|trace| - 1].main == Returned(Ok(tree))
    ensures |tree| <= 501
    ensures forall r :: r in requests ==> Answered(w, tree, r)
    ensures forall n :: n in tree ==> w.content(tree[n].1, tree[n].0).Ok?
    ensures forall n, d: nat, r :: n in tree
              && r in ClosureRequests(w, n, tree[n].1, tree[n].0, w.content(tree[n].1, tree[n].0).value, tree[n].2, d)
              ==> Answered(w, tree, r)
  {
    var s := trace[|trace| - 1];
    InvRun(w, requests, trace, |trace| - 1);
    TreeIsState(w, requests, s, tree);
    SettledIsClosed(w, requests, s, tree);
  }

  lemma SettledIsClosed(w: World, requests: set<Request>, s: State, tree: Tree)
    requires Settled(w, requests, s, tree)
    ensures forall r :: r in requests ==> Answered(w, tree, r)
    ensures forall n :: n in tree ==> w.content(tree[n].1, tree[n].0).Ok?
    ensures forall n, d: nat, r :: n in tree
              && r in ClosureRequests(w, n, tree[n].1, tree[n].0, w.content(tree[n].1, tree[n].0).value, tree[n].2, d)
              ==> Answered(w, tree, r)
  {
    forall r | r in requests ensures Answered(w, tree, r) {
      HandledIsAnswered(w, requests, s, tree, r);
    }
    forall n | n in tree ensures w.content(tree[n].1, tree[n].0).Ok? {
      assert ReleaseKnown(w, s, n);
    }
    forall n, d: nat, r | n in tree
              && r in ClosureRequests(w, n, tree[n].1, tree[n].0, w.content(tree[n].1, tree[n].0).value, tree[n].2, d)
      ensures Answered(w, tree, r)
    {
      ClosureAnswered(w, requests, s, tree, n, d, r);
    }
  }

  // ---- the reported error --------------------------------------------------------------------------

  /** The first error recorded is kept, and is the one a failing collection returns. */
  lemma FirstErrorStays(w: World, s: State, t: State)
    requires Step(w, s, t) && s.firstError.Some?
    ensures t.firstError == s.firstError
  {
    if !MainStep(s, t) {
      var i :| 0 <= i < |s.tasks| && TaskStep(w, s, t, i);
    }
  }
}
