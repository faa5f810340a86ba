/**
 * Which tree a collection returns does not depend on the schedule, once pins fix the releases:
 * it is the least one closed under the requests.
 */
module CollectorConfluence {
  import opened Wrappers
  import opened Sets
  import opened Collector
  import opened CollectorSafety
  import opened CollectorClosure

  /** Names with entries: a bound on what a collection may record. */
  type Bound = map<string, set<string>>

  predicate Admits(w: World, bound: Bound, r: Request) {
    SkippedByName(w, r.name) || (r.name in bound && r.entries <= bound[r.name])
  }

  /** A bound that holds the initial requests and everything its own names may request. */
  ghost predicate ClosedBound(w: World, requests: set<Request>, bound: Bound) {
    && (forall r :: r in requests ==> Admits(w, bound, r))
    && (forall n, source, version, r :: n in bound && MayResolve(w, n, source, version)
          && r in ClosureRequests(w, n, source, version, w.content(source, version).value, bound[n], 0)
          ==> Admits(w, bound, r))
  }

  predicate JobBelow(bound: Bound, job: Job) {
    match job
    case Resolution(req) => req.name in bound
    case Expansion(n, _, _, entries, _) => n in bound && entries <= bound[n]
  }

  ghost predicate TaskBelow(w: World, bound: Bound, t: Task) {
    && (forall r :: r in Pending(t) ==> Admits(w, bound, r))
    && match t
       case Awaits(job) => JobBelow(bound, job)
       case Spawning(job, _) => JobBelow(bound, job)
       case Pushing(req, _, _, entries) => req.name in bound && entries <= bound[req.name]
       case _ => true
  }

  /** Nothing recorded or still to be recorded exceeds the bound. */
  ghost predicate Below(w: World, bound: Bound, s: State) {
    && (forall n :: n in s.states ==> n in bound && s.states[n].entries <= bound[n] && !SkippedByName(w, n))
    && (forall i :: 0 <= i < |s.tasks| ==> TaskBelow(w, bound, s.tasks[i]))
  }

  lemma RequestsBelow(w: World, requests: set<Request>, bound: Bound, n: string, source: string, version: string,
                      entries: set<string>, d: nat)
    requires ClosedBound(w, requests, bound) && n in bound && entries <= bound[n] && MayResolve(w, n, source, version)
    ensures TaskBelow(w, bound, Adding(ClosureRequests(w, n, source, version, w.content(source, version).value, entries, d)))
  {
    var content := w.content(source, version).value;
    forall r | r in ClosureRequests(w, n, source, version, content, entries, d) ensures Admits(w, bound, r) {
      var q := RequestsMonotone(w, n, source, version, content, entries, bound[n], d, 0, r);
      assert Admits(w, bound, q);
    }
  }

  lemma BelowAdd(w: World, bound: Bound, s: State, i: nat, r: Request)
    requires WellPinned(w) && Below(w, bound, s) && i < |s.tasks| && s.tasks[i].Adding? && r in s.tasks[i].reqs
    ensures Below(w, bound, AddRequest(w, s, i, r))
  {
    var t := AddRequest(w, s, i, r);
    assert TaskBelow(w, bound, s.tasks[i]);
    assert Admits(w, bound, r);
    forall j | 0 <= j < |t.tasks| && j != i ensures TaskBelow(w, bound, t.tasks[j]) {
      assert TaskBelow(w, bound, s.tasks[j]);
    }
  }

  lemma BelowTask(w: World, requests: set<Request>, bound: Bound, s: State, t: State, i: nat)
    requires ClosedBound(w, requests, bound) && Below(w, bound, s)
    requires Consistent(w, s) && ReleasesKnown(w, s)
    requires i < |s.tasks| && TaskStep(w, s, t, i) && !s.tasks[i].Adding?
    ensures TaskBelow(w, bound, t.tasks[i])
    ensures |t.tasks| > |s.tasks| ==> TaskBelow(w, bound, t.tasks[|s.tasks|])
  {
    assert TaskBelow(w, bound, s.tasks[i]) && TaskAgrees(w, s, s.tasks[i]);
    match s.tasks[i]
    case Pushing(req, version, content, entries) =>
      assert ReleaseKnown(w, s, req.name);
      RequestsBelow(w, requests, bound, req.name, req.source, version, entries, req.depth);
    case Awaits(job) =>
      if job.Expansion? && w.content(job.source, job.version).Ok? {
        assert ReleaseKnown(w, s, job.name);
        RequestsBelow(w, requests, bound, job.name, job.source, job.version, job.entries, job.depth);
      }
    case _ =>
  }

  lemma BelowStep(w: World, requests: set<Request>, bound: Bound, s: State, t: State)
    requires WellPinned(w) && ClosedBound(w, requests, bound) && Below(w, bound, s)
    requires Consistent(w, s) && ReleasesKnown(w, s) && Step(w, s, t)
    ensures Below(w, bound, t)
  {
    if !MainStep(s, t) {
      var i :| 0 <= i < |s.tasks| && TaskStep(w, s, t, i);
      BelowTaskStep(w, requests, bound, s, t, i);
    }
  }

  lemma BelowTaskStep(w: World, requests: set<Request>, bound: Bound, s: State, t: State, i: nat)
    requires WellPinned(w) && ClosedBound(w, requests, bound) && Below(w, bound, s)
    requires Consistent(w, s) && ReleasesKnown(w, s) && i < |s.tasks| && TaskStep(w, s, t, i)
    ensures Below(w, bound, t)
  {
    if s.tasks[i].Adding? {
      if s.tasks[i].reqs != {} {
        var r :| r in s.tasks[i].reqs && t == AddRequest(w, s, i, r);
        BelowAdd(w, bound, s, i, r);
      }
    } else {
      TaskStepOnly(w, s, t, i);
      BelowTask(w, requests, bound, s, t, i);
      assert TaskAgrees(w, s, s.tasks[i]);
      forall j | 0 <= j < |t.tasks| ensures TaskBelow(w, bound, t.tasks[j]) {
        if j < |s.tasks| && j != i { assert TaskBelow(w, bound, s.tasks[j]); }
      }
    }
  }

  lemma RunStep(w: World, requests: set<Request>, trace: seq<State>, k: nat)
    requires WellPinned(w) && Run(w, requests, trace) && k + 1 < |trace|
    ensures Consistent(w, trace[k]) && ReleasesKnown(w, trace[k]) && Step(w, trace[k], trace[k + 1])
  {
    InvRun(w, requests, trace, k);
  }

  lemma {:induction false} BelowRun(w: World, requests: set<Request>, bound: Bound, trace: seq<State>, k: nat)
    requires WellPinned(w) && ClosedBound(w, requests, bound) && Run(w, requests, trace) && k < |trace|
    ensures Below(w, bound, trace[k])
  {
    if k > 0 {
      BelowRun(w, requests, bound, trace, k - 1);
      RunStep(w, requests, trace, k - 1);
      BelowStep(w, requests, bound, trace[k - 1], trace[k]);
    }
  }

  // ---- no errors where every release is known -------------------------------------------------

  ghost predicate AllResolvable(w: World, bound: Bound) {
    forall n :: n in bound ==> n in w.pins && PinnedRelease(w, n).Ok?
  }

  lemma NoErrorStep(w: World, bound: Bound, s: State, t: State)
    requires AllResolvable(w, bound) && Below(w, bound, s) && Consistent(w, s) && ReleasesKnown(w, s)
    requires Step(w, s, t) && !Errored(s)
    ensures !Errored(t)
  {
    if !MainStep(s, t) {
      var i :| 0 <= i < |s.tasks| && TaskStep(w, s, t, i);
      TaskStepOnly(w, s, t, i);
      NoErrorTask(w, bound, s, t, i);
      forall j | 0 <= j < |t.tasks| ensures !t.tasks[j].Failing? {
        if j < |s.tasks| && j != i { assert !s.tasks[j].Failing?; }
      }
    }
  }

  lemma NoErrorTask(w: World, bound: Bound, s: State, t: State, i: nat)
    requires AllResolvable(w, bound) && Below(w, bound, s) && Consistent(w, s) && ReleasesKnown(w, s)
    requires i < |s.tasks| && TaskStep(w, s, t, i) && !s.tasks[i].Failing?
    ensures !t.tasks[i].Failing? && t.firstError == s.firstError
    ensures |t.tasks| > |s.tasks| ==> !t.tasks[|s.tasks|].Failing?
  {
    if s.tasks[i].Awaits? {
      NoErrorAwait(w, bound, s, t, i);
    }
  }

  lemma NoErrorAwait(w: World, bound: Bound, s: State, t: State, i: nat)
    requires AllResolvable(w, bound) && Below(w, bound, s) && Consistent(w, s) && ReleasesKnown(w, s)
    requires i < |s.tasks| && TaskStep(w, s, t, i) && s.tasks[i].Awaits?
    ensures !t.tasks[i].Failing? && t.firstError == s.firstError && |t.tasks| == |s.tasks|
  {
    assert TaskBelow(w, bound, s.tasks[i]) && TaskAgrees(w, s, s.tasks[i]) && TaskPinned(w, s.tasks[i]);
    JobSucceeds(w, bound, s, s.tasks[i].job);
  }

  lemma JobSucceeds(w: World, bound: Bound, s: State, job: Job)
    requires AllResolvable(w, bound) && ReleasesKnown(w, s)
    requires JobBelow(bound, job) && JobAgrees(s, job) && JobPinned(w, job)
    ensures if job.Resolution? then Resolve(w, job.req.source, job.req.range).Ok? else w.content(job.source, job.version).Ok?
  {
  }

  lemma {:induction false} NoErrorRun(w: World, requests: set<Request>, bound: Bound, trace: seq<State>, k: nat)
    requires WellPinned(w) && ClosedBound(w, requests, bound) && AllResolvable(w, bound)
    requires Run(w, requests, trace) && k < |trace|
    ensures !Errored(trace[k])
  {
    if k > 0 {
      NoErrorRun(w, requests, bound, trace, k - 1);
      RunStep(w, requests, trace, k - 1);
      BelowRun(w, requests, bound, trace, k - 1);
      NoErrorStep(w, bound, trace[k - 1], trace[k]);
    }
  }

  // ---- the theorems ------------------------------------------------------------------------------

  /** The names of a tree with their entries. */
  function BoundOf(tree: Tree): Bound {
    map n | n in tree :: tree[n].2
  }

  ghost predicate Returns(w: World, requests: set<Request>, trace: seq<State>, result: Result<Tree, string>) {
    Run(w, requests, trace) && trace[|trace| - 1].main == Returned(result)
  }

  ghost predicate AllPinned(w: World, tree: Tree) {
    forall n :: n in tree ==> n in w.pins
  }

  /** Every returned tree lies below every closed bound... */
  lemma TreeIsLeast(w: World, requests: set<Request>, trace: seq<State>, tree: Tree, bound: Bound)
    requires WellPinned(w) && Returns(w, requests, trace, Ok(tree)) && ClosedBound(w, requests, bound)
    ensures forall n :: n in tree ==> n in bound && tree[n].2 <= bound[n]
  {
    var s := trace[|trace| - 1];
    InvRun(w, requests, trace, |trace| - 1);
    TreeIsState(w, requests, s, tree);
    BelowRun(w, requests, bound, trace, |trace| - 1);
  }

  /**
   * The cap refused nothing: every request, an initial one or one of the tree's own packages, asks for
   * listed entries, or for a name that is refused whatever the tree's size.
   */
  ghost predicate Uncut(w: World, requests: set<Request>, tree: Tree) {
    && (forall r :: r in requests ==> Admits(w, BoundOf(tree), r))
    && (forall n, r :: n in tree && w.content(tree[n].1, tree[n].0).Ok?
          && r in ClosureRequests(w, n, tree[n].1, tree[n].0, w.content(tree[n].1, tree[n].0).value, tree[n].2, 0)
          ==> Admits(w, BoundOf(tree), r))
  }

  /** No tree of up to 500 names is cut. */
  lemma SmallIsUncut(w: World, requests: set<Request>, trace: seq<State>, tree: Tree)
    requires WellPinned(w) && Returns(w, requests, trace, Ok(tree)) && |tree| <= 500
    ensures Uncut(w, requests, tree)
  {
    CollectedTreeIsClosed(w, requests, trace, tree);
    forall r | r in requests ensures Admits(w, BoundOf(tree), r) {
      AnsweredIsAdmitted(w, tree, r);
    }
    forall n, r | n in tree && w.content(tree[n].1, tree[n].0).Ok?
          && r in ClosureRequests(w, n, tree[n].1, tree[n].0, w.content(tree[n].1, tree[n].0).value, tree[n].2, 0)
      ensures Admits(w, BoundOf(tree), r)
    {
      AnsweredIsAdmitted(w, tree, r);
    }
  }

  /** ...and one whose names are pinned and that the cap did not cut is closed itself. */
  lemma TreeIsClosed(w: World, requests: set<Request>, trace: seq<State>, tree: Tree)
    requires WellPinned(w) && Returns(w, requests, trace, Ok(tree)) && AllPinned(w, tree) && Uncut(w, requests, tree)
    ensures ClosedBound(w, requests, BoundOf(tree)) && AllResolvable(w, BoundOf(tree))
    ensures forall n :: n in tree ==> tree[n].0 == PinnedRelease(w, n).value.0 && tree[n].1 == w.pins[n].source
  {
    TreeReleases(w, requests, trace, tree);
    var bound := BoundOf(tree);
    forall n, source, version, r | n in bound && MayResolve(w, n, source, version)
          && r in ClosureRequests(w, n, source, version, w.content(source, version).value, bound[n], 0)
      ensures Admits(w, bound, r)
    {
      assert source == tree[n].1 && version == tree[n].0;
    }
  }

  lemma AnsweredIsAdmitted(w: World, tree: Tree, r: Request)
    requires Answered(w, tree, r) && |tree| <= 500
    ensures Admits(w, BoundOf(tree), r)
  {
  }

  lemma TreeReleases(w: World, requests: set<Request>, trace: seq<State>, tree: Tree)
    requires WellPinned(w) && Returns(w, requests, trace, Ok(tree))
    ensures forall n :: n in tree ==> MayResolve(w, n, tree[n].1, tree[n].0)
  {
    var s := trace[|trace| - 1];
    InvRun(w, requests, trace, |trace| - 1);
    TreeIsState(w, requests, s, tree);
    forall n | n in tree ensures MayResolve(w, n, tree[n].1, tree[n].0) {
      assert ReleaseKnown(w, s, n);
    }
  }

  /**
   * Confluence: if one schedule returns a tree that the cap did not cut and whose names are all
   * pinned, then every schedule that returns at all returns that tree, name for name, release for
   * release, entry for entry.
   */
  lemma SchedulesAgree(w: World, requests: set<Request>, trace: seq<State>, tree: Tree,
                       trace': seq<State>, result': Result<Tree, string>)
    requires WellPinned(w)
    requires Returns(w, requests, trace, Ok(tree)) && AllPinned(w, tree) && Uncut(w, requests, tree)
    requires Returns(w, requests, trace', result')
    ensures result' == Ok(tree)
  {
    TreeIsClosed(w, requests, trace, tree);
    NoErrorRun(w, requests, BoundOf(tree), trace', |trace'| - 1);
    NoErrorReturnsTree(w, requests, trace', result');
    var tree' := result'.value;
    TreeIsLeast(w, requests, trace', tree', BoundOf(tree));
    SmallerTree(w, tree, tree');
    SmallerIsUncut(w, requests, trace, tree, trace', tree');
    TreeIsClosed(w, requests, trace', tree');
    TreeIsLeast(w, requests, trace, tree, BoundOf(tree'));
    SameTree(tree, tree');
  }

  lemma NoErrorReturnsTree(w: World, requests: set<Request>, trace: seq<State>, result: Result<Tree, string>)
    requires WellPinned(w) && Returns(w, requests, trace, result) && !Errored(trace[|trace| - 1])
    ensures result.Ok?
  {
    InvRun(w, requests, trace, |trace| - 1);
  }

  lemma SmallerTree(w: World, tree: Tree, tree': Tree)
    requires AllPinned(w, tree) && forall n :: n in tree' ==> n in BoundOf(tree)
    ensures AllPinned(w, tree')
  {
  }

  /** A tree below an uncut one has nothing the cap could have refused: either it is small, or it lists every name. */
  lemma SmallerIsUncut(w: World, requests: set<Request>, trace: seq<State>, tree: Tree, trace': seq<State>, tree': Tree)
    requires WellPinned(w) && Returns(w, requests, trace, Ok(tree)) && Returns(w, requests, trace', Ok(tree'))
    requires ClosedBound(w, requests, BoundOf(tree))
    requires forall n :: n in tree' ==> n in BoundOf(tree) && tree'[n].2 <= BoundOf(tree)[n]
    ensures Uncut(w, requests, tree')
  {
    if |tree'| <= 500 {
      SmallIsUncut(w, requests, trace', tree');
    } else {
      CollectedTreeIsClosed(w, requests, trace, tree);
      SameNames(tree, tree');
      FullIsUncut(w, requests, trace', tree', BoundOf(tree));
    }
  }

  lemma SameNames(tree: Tree, tree': Tree)
    requires |tree| <= 501 && |tree'| > 500 && forall n :: n in tree' ==> n in BoundOf(tree)
    ensures tree'.Keys == tree.Keys
  {
    assert tree'.Keys <= tree.Keys;
    SubsetSize(tree'.Keys, tree.Keys);
  }

  lemma FullIsUncut(w: World, requests: set<Request>, trace: seq<State>, tree: Tree, bound: Bound)
    requires WellPinned(w) && Returns(w, requests, trace, Ok(tree)) && ClosedBound(w, requests, bound)
    requires tree.Keys == bound.Keys && forall n :: n in tree ==> tree[n].2 <= bound[n]
    ensures Uncut(w, requests, tree)
  {
    CollectedTreeIsClosed(w, requests, trace, tree);
    TreeReleases(w, requests, trace, tree);
    forall r | r in requests ensures Admits(w, BoundOf(tree), r) {
      FullAdmits(w, tree, bound, r);
    }
    forall n, r | n in tree && w.content(tree[n].1, tree[n].0).Ok?
          && r in ClosureRequests(w, n, tree[n].1, tree[n].0, w.content(tree[n].1, tree[n].0).value, tree[n].2, 0)
      ensures Admits(w, BoundOf(tree), r)
    {
      BoundAdmits(w, requests, bound, n, tree[n].1, tree[n].0, tree[n].2, r);
      FullAdmits(w, tree, bound, r);
    }
  }

  lemma BoundAdmits(w: World, requests: set<Request>, bound: Bound, n: string, source: string, version: string, entries: set<string>, r: Request)
    requires ClosedBound(w, requests, bound) && n in bound && entries <= bound[n] && MayResolve(w, n, source, version)
    requires r in ClosureRequests(w, n, source, version, w.content(source, version).value, entries, 0)
    ensures Admits(w, bound, r)
  {
    var q := RequestsMonotone(w, n, source, version, w.content(source, version).value, entries, bound[n], 0, 0, r);
    assert Admits(w, bound, q);
  }

  /** An answered request is admitted by a tree that lists every name the bound does. */
  lemma FullAdmits(w: World, tree: Tree, bound: Bound, r: Request)
    requires tree.Keys == bound.Keys && Admits(w, bound, r) && Answered(w, tree, r)
    ensures Admits(w, BoundOf(tree), r)
  {
  }

  lemma SameTree(tree: Tree, tree': Tree)
    requires forall n :: n in tree' ==> n in tree && tree'[n].2 <= tree[n].2
    requires forall n :: n in tree ==> n in tree' && tree[n].2 <= tree'[n].2
    requires forall n :: n in tree && n in tree' ==> tree[n].0 == tree'[n].0 && tree[n].1 == tree'[n].1
    ensures tree == tree'
  {
    assert tree'.Keys == tree.Keys;
    forall n | n in tree ensures tree'[n] == tree[n] {
      assert tree[n].2 == tree'[n].2;
      assert tree[n] == (tree[n].0, tree[n].1, tree[n].2);
    }
  }
}
