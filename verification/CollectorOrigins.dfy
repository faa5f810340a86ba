/**
 * What a returned tree says of its packages' imports: each import of a listed package is listed, each
 * listed entry is imported or was asked for, and each release answers a range somebody declares.
 */
module CollectorOrigins {
  import opened Wrappers
  import opened Collector
  import opened CollectorSafety
  import opened CollectorClosure
  import E = EntryClosures

  // ---- every import is followed ---------------------------------------------------------------

  /** The range a package declares for a dependency it imports; what it does not declare is its latest. */
  function Declared(content: Content, d: string): string {
    if d in content.ranges then content.ranges[d] else "latest"
  }

  /** How a package asks for its own release: by version, or by npm's name for it where it is installed under another. */
  function OwnRange(n: string, source: string, version: string): string {
    if source == n then version else "npm:" + source + "@" + version
  }

  /** A listed package has the entry, or the package is not listed and may not be. */
  predicate ListedOrRefused(w: World, tree: Tree, d: string, e: string) {
    || (d in tree && e in tree[d].2)
    || (d !in tree && ("@types/" <= d || !w.validName(d) || |tree| > 500))
  }

  lemma EdgeIsRequested(w: World, n: string, source: string, version: string, content: Content, entries: set<string>,
                        edge: (string, string)) returns (r: Request)
    requires edge in E.Packages(content.pkg, entries)
    requires if edge.0 == source then w.parse(n, OwnRange(n, source, version)).Some? else w.parse(edge.0, Declared(content, edge.0)).Some?
    ensures r in ClosureRequests(w, n, source, version, content, entries, 0)
    ensures r.name == (if edge.0 == source then n else edge.0) && edge.1 in r.entries
  {
    var edges := E.Packages(content.pkg, entries);
    var asked := RequestFor(w, n, source, version, content, 0, edge.0, EntriesOf(edges, edge.0));
    assert asked.Some?;
    r := asked.value;
  }

  /**
   * Under every interleaving, a returned tree follows its packages' imports. Whatever a file that a listed
   * package's entries load imports from another package, at a range npm can read, is listed with the
   * imported entry, unless the name may not be listed; what it imports from itself is an entry of its own.
   */
  lemma ImportsAreFollowed(w: World, requests: set<Request>, trace: seq<State>, tree: Tree, n: string, d: string, e: string)
    requires WellPinned(w) && Run(w, requests, trace) && trace[|trace| - 1].main == Returned(Ok(tree)) && n in tree
    ensures w.content(tree[n].1, tree[n].0).Ok?
    ensures var (version, source, entries) := tree[n];
            var content := w.content(source, version).value;
            (d, e) in E.Packages(content.pkg, entries) ==>
              && (d != source && w.parse(d, Declared(content, d)).Some? ==> ListedOrRefused(w, tree, d, e))
              && (d == source && w.parse(n, OwnRange(n, source, version)).Some? ==> e in entries)
  {
    CollectedTreeIsClosed(w, requests, trace, tree);
    var (version, source, entries) := tree[n];
    var content := w.content(source, version).value;
    if (d, e) in E.Packages(content.pkg, entries)
      && if d == source then w.parse(n, OwnRange(n, source, version)).Some? else w.parse(d, Declared(content, d)).Some?
    {
      var r := EdgeIsRequested(w, n, source, version, content, entries, (d, e));
      assert Answered(w, tree, r);
    }
  }

  // ---- where requests come from -----------------------------------------------------------------

  /** Resolved package `m` imports each of `entries` from `d`. */
  ghost predicate ImportsFrom(w: World, s: State, m: string, d: string, entries: set<string>) {
    && m in s.states && s.states[m].resolved.Some?
    && var (version, source) := s.states[m].resolved.value;
       && w.content(source, version).Ok?
       && forall e :: e in entries ==> (d, e) in E.Packages(w.content(source, version).value.pkg, s.states[m].entries)
  }

  /** `m` imports `r.name` from another package, and declares the range that `r` asks for. */
  ghost predicate Declares(w: World, s: State, m: string, r: Request) {
    && ImportsFrom(w, s, m, r.name, r.entries) && r.entries != {}
    && var (version, source) := s.states[m].resolved.value;
       r.name != source && w.parse(r.name, Declared(w.content(source, version).value, r.name)) == Some((r.source, r.range))
  }

  /** `m` imports entries of itself. */
  ghost predicate ImportsItself(w: World, s: State, m: string, r: Request) {
    r.name == m && m in s.states && s.states[m].resolved.Some? && ImportsFrom(w, s, m, s.states[m].resolved.value.1, r.entries)
  }

  predicate Initial(requests: set<Request>, r: Request) {
    exists q :: q in requests && q.name == r.name && q.source == r.source && q.range == r.range && r.entries <= q.entries
  }

  /** An initial request, or one a resolved package makes of another. */
  ghost predicate Foreign(w: World, requests: set<Request>, s: State, r: Request) {
    Initial(requests, r) || exists m :: Declares(w, s, m, r)
  }

  ghost predicate Origin(w: World, requests: set<Request>, s: State, r: Request) {
    Foreign(w, requests, s, r) || exists m :: ImportsItself(w, s, m, r)
  }

  ghost predicate EntryOrigin(w: World, requests: set<Request>, s: State, n: string, e: string) {
    exists r :: Origin(w, requests, s, r) && r.name == n && e in r.entries
  }

  /** An unpinned name's resolution asks for a range somebody gave. */
  ghost predicate JobOrigin(w: World, requests: set<Request>, s: State, job: Job) {
    match job
    case Resolution(req) => req.name !in w.pins ==> Foreign(w, requests, s, req)
    case Expansion(n, _, _, entries, _) => n in s.states && entries <= s.states[n].entries
  }

  ghost predicate TaskOrigin(w: World, requests: set<Request>, s: State, t: Task) {
    && (forall r :: r in Pending(t) ==> Origin(w, requests, s, r))
    && match t
       case Awaits(job) => JobOrigin(w, requests, s, job)
       case Spawning(job, _) => JobOrigin(w, requests, s, job)
       case Pushing(req, _, _, entries) => req.name in s.states && entries <= s.states[req.name].entries
       case _ => true
  }

  /** An unpinned resolved release is npm's answer to a range somebody gave. */
  ghost predicate ReleaseOrigin(w: World, requests: set<Request>, s: State, n: string)
    requires n in s.states
  {
    s.states[n].resolved.Some? && n !in w.pins ==>
      var (version, source) := s.states[n].resolved.value;
      exists r :: Foreign(w, requests, s, r) && r.name == n && r.source == source && w.version(source, r.range) == Ok(version)
  }

  ghost predicate Originates(w: World, requests: set<Request>, s: State) {
    && (forall i :: 0 <= i < |s.tasks| ==> TaskOrigin(w, requests, s, s.tasks[i]))
    && (forall n, e :: n in s.states && e in s.states[n].entries ==> EntryOrigin(w, requests, s, n, e))
    && (forall n :: n in s.states ==> ReleaseOrigin(w, requests, s, n))
  }

  // ---- origins stay ---------------------------------------------------------------------------------

  lemma ImportsStay(w: World, s: State, t: State, m: string, d: string, entries: set<string>)
    requires Grows(s, t) && ImportsFrom(w, s, m, d, entries)
    ensures ImportsFrom(w, t, m, d, entries)
  {
    var (version, source) := s.states[m].resolved.value;
    PackagesMonotone(w.content(source, version).value.pkg, s.states[m].entries, t.states[m].entries);
  }

  lemma ForeignStays(w: World, requests: set<Request>, s: State, t: State, r: Request)
    requires Grows(s, t) && Foreign(w, requests, s, r)
    ensures Foreign(w, requests, t, r)
  {
    if m :| Declares(w, s, m, r) {
      ImportsStay(w, s, t, m, r.name, r.entries);
      assert Declares(w, t, m, r);
    }
  }

  lemma OriginStays(w: World, requests: set<Request>, s: State, t: State, r: Request)
    requires Grows(s, t) && Origin(w, requests, s, r)
    ensures Origin(w, requests, t, r)
  {
    if Foreign(w, requests, s, r) {
      ForeignStays(w, requests, s, t, r);
    } else {
      var m :| ImportsItself(w, s, m, r);
      ImportsStay(w, s, t, m, s.states[m].resolved.value.1, r.entries);
      assert ImportsItself(w, t, m, r);
    }
  }

  lemma EntryOriginStays(w: World, requests: set<Request>, s: State, t: State, n: string, e: string)
    requires Grows(s, t) && EntryOrigin(w, requests, s, n, e)
    ensures EntryOrigin(w, requests, t, n, e)
  {
    var r :| Origin(w, requests, s, r) && r.name == n && e in r.entries;
    OriginStays(w, requests, s, t, r);
  }

  lemma ReleaseOriginStays(w: World, requests: set<Request>, s: State, t: State, n: string)
    requires Grows(s, t) && n in s.states && s.states[n].resolved.Some? && ReleaseOrigin(w, requests, s, n)
    ensures ReleaseOrigin(w, requests, t, n)
  {
    if n !in w.pins {
      var (version, source) := s.states[n].resolved.value;
      var r :| Foreign(w, requests, s, r) && r.name == n && r.source == source && w.version(source, r.range) == Ok(version);
      ForeignStays(w, requests, s, t, r);
    }
  }

  lemma TaskOriginStays(w: World, requests: set<Request>, s: State, t: State, task: Task)
    requires Grows(s, t) && TaskOrigin(w, requests, s, task)
    ensures TaskOrigin(w, requests, t, task)
  {
    forall r | r in Pending(task) ensures Origin(w, requests, t, r) {
      OriginStays(w, requests, s, t, r);
    }
    if (task.Awaits? || task.Spawning?) && task.job.Resolution? && task.job.req.name !in w.pins {
      ForeignStays(w, requests, s, t, task.job.req);
    }
  }

  // ---- origins are made -----------------------------------------------------------------------------

  /** The edge behind a request, and what the request makes of it. */
  lemma RequestHasEdge(w: World, n: string, source: string, version: string, content: Content,
                       entries: set<string>, depth: nat, r: Request) returns (d: string)
    requires r in ClosureRequests(w, n, source, version, content, entries, depth)
    ensures r.entries != {} && forall e :: e in r.entries ==> (d, e) in E.Packages(content.pkg, entries)
    ensures if d == source then r.name == n else r.name == d && w.parse(d, Declared(content, d)) == Some((r.source, r.range))
  {
    var edges := E.Packages(content.pkg, entries);
    var edge :| edge in edges && RequestFor(w, n, source, version, content, depth, edge.0, EntriesOf(edges, edge.0)) == Some(r);
    d := edge.0;
    assert edge.1 in EntriesOf(edges, d);
  }

  /** What the closure of a resolved package's entries requests comes from that package. */
  lemma RequestsOriginate(w: World, requests: set<Request>, s: State, n: string, source: string, version: string,
                          entries: set<string>, depth: nat, r: Request)
    requires ResolvedAs(s, n, version, source) && w.content(source, version).Ok? && entries <= s.states[n].entries
    requires r in ClosureRequests(w, n, source, version, w.content(source, version).value, entries, depth)
    ensures Origin(w, requests, s, r)
  {
    var content := w.content(source, version).value;
    var d := RequestHasEdge(w, n, source, version, content, entries, depth, r);
    PackagesMonotone(content.pkg, entries, s.states[n].entries);
    assert ImportsFrom(w, s, n, d, r.entries);
    if d == source {
      assert ImportsItself(w, s, n, r);
    } else {
      assert Declares(w, s, n, r);
    }
  }

  lemma OriginAdd(w: World, requests: set<Request>, s: State, i: nat, r: Request)
    requires WellPinned(w) && Originates(w, requests, s) && i < |s.tasks| && s.tasks[i].Adding? && r in s.tasks[i].reqs
    requires Grows(s, AddRequest(w, s, i, r))
    ensures var t := AddRequest(w, s, i, r);
            && TaskOrigin(w, requests, t, t.tasks[i])
            && (forall n, e :: n in t.states && e in t.states[n].entries ==> EntryOrigin(w, requests, t, n, e))
            && (forall n :: n in t.states ==> ReleaseOrigin(w, requests, t, n))
  {
    var t := AddRequest(w, s, i, r);
    assert TaskOrigin(w, requests, s, s.tasks[i]) && Origin(w, requests, s, r);
    assert ApplyPin(w, r).name == r.name && ApplyPin(w, r).entries == r.entries;
    forall q | q in Pending(t.tasks[i]) ensures Origin(w, requests, t, q) {
      OriginStays(w, requests, s, t, q);
    }
    AddedEntries(w, requests, s, i, r);
    AddedJob(w, requests, s, i, r);
    forall n | n in t.states ensures ReleaseOrigin(w, requests, t, n) {
      if n in s.states && s.states[n].resolved.Some? {
        ReleaseOriginStays(w, requests, s, t, n);
      }
    }
  }

  lemma AddedEntries(w: World, requests: set<Request>, s: State, i: nat, r: Request)
    requires WellPinned(w) && Originates(w, requests, s) && i < |s.tasks| && s.tasks[i].Adding? && Origin(w, requests, s, r)
    requires Grows(s, AddRequest(w, s, i, r))
    ensures var t := AddRequest(w, s, i, r);
            forall n, e :: n in t.states && e in t.states[n].entries ==> EntryOrigin(w, requests, t, n, e)
  {
    var t := AddRequest(w, s, i, r);
    assert ApplyPin(w, r).name == r.name && ApplyPin(w, r).entries == r.entries;
    OriginStays(w, requests, s, t, r);
    forall n, e | n in t.states && e in t.states[n].entries ensures EntryOrigin(w, requests, t, n, e) {
      if n in s.states && e in s.states[n].entries {
        EntryOriginStays(w, requests, s, t, n, e);
      } else {
        assert n == r.name && e in r.entries;
      }
    }
  }

  lemma AddedJob(w: World, requests: set<Request>, s: State, i: nat, r: Request)
    requires WellPinned(w) && i < |s.tasks| && s.tasks[i].Adding? && Origin(w, requests, s, r)
    requires Grows(s, AddRequest(w, s, i, r))
    ensures var t := AddRequest(w, s, i, r);
            t.tasks[i].Spawning? ==> JobOrigin(w, requests, t, t.tasks[i].job)
  {
    var t := AddRequest(w, s, i, r);
    if r.name !in s.states {
      assert Foreign(w, requests, s, r);
      ForeignStays(w, requests, s, t, r);
    }
  }

  lemma OriginResolve(w: World, requests: set<Request>, s: State, i: nat, req: Request)
    requires Consistent(w, s) && Originates(w, requests, s) && i < |s.tasks| && s.tasks[i] == Awaits(Resolution(req))
    requires Grows(s, FinishResolve(w, s, i, req))
    ensures var t := FinishResolve(w, s, i, req);
            && TaskOrigin(w, requests, t, t.tasks[i])
            && (forall n, e :: n in t.states && e in t.states[n].entries ==> EntryOrigin(w, requests, t, n, e))
            && (forall n :: n in t.states ==> ReleaseOrigin(w, requests, t, n))
  {
    var t := FinishResolve(w, s, i, req);
    assert TaskAgrees(w, s, s.tasks[i]) && TaskOrigin(w, requests, s, s.tasks[i]);
    forall n, e | n in t.states && e in t.states[n].entries ensures EntryOrigin(w, requests, t, n, e) {
      EntryOriginStays(w, requests, s, t, n, e);
    }
    forall n | n in t.states ensures ReleaseOrigin(w, requests, t, n) {
      if n in s.states && s.states[n].resolved.Some? {
        ReleaseOriginStays(w, requests, s, t, n);
      } else if n == req.name && n !in w.pins {
        ForeignStays(w, requests, s, t, req);
      }
    }
  }

  /** A step that leaves the shared state alone and gives its task requests of known origin. */
  lemma OriginFrame(w: World, requests: set<Request>, s: State, t: State)
    requires Originates(w, requests, s) && t.states == s.states && Grows(s, t)
    ensures forall n, e :: n in t.states && e in t.states[n].entries ==> EntryOrigin(w, requests, t, n, e)
    ensures forall n :: n in t.states ==> ReleaseOrigin(w, requests, t, n)
  {
    forall n, e | n in t.states && e in t.states[n].entries ensures EntryOrigin(w, requests, t, n, e) {
      EntryOriginStays(w, requests, s, t, n, e);
    }
    forall n | n in t.states ensures ReleaseOrigin(w, requests, t, n) {
      if s.states[n].resolved.Some? {
        ReleaseOriginStays(w, requests, s, t, n);
      }
    }
  }

  lemma OriginDeliver(w: World, requests: set<Request>, s: State, t: State, i: nat)
    requires Consistent(w, s) && Originates(w, requests, s) && i < |s.tasks| && TaskStep(w, s, t, i) && Grows(s, t)
    requires s.tasks[i].Pushing? || (s.tasks[i].Awaits? && s.tasks[i].job.Expansion?)
    ensures t.states == s.states && TaskOrigin(w, requests, t, t.tasks[i])
  {
    assert TaskAgrees(w, s, s.tasks[i]) && TaskOrigin(w, requests, s, s.tasks[i]);
    forall r | r in Pending(t.tasks[i]) ensures Origin(w, requests, t, r) {
      match s.tasks[i]
      case Pushing(req, version, _, entries) =>
        RequestsOriginate(w, requests, t, req.name, req.source, version, entries, req.depth, r);
      case Awaits(job) =>
        RequestsOriginate(w, requests, t, job.name, job.source, job.version, job.entries, job.depth, r);
    }
  }

  lemma OriginAdding(w: World, requests: set<Request>, s: State, t: State, i: nat, reqs: set<Request>)
    requires WellPinned(w) && Originates(w, requests, s) && Grows(s, t)
    requires i < |s.tasks| && s.tasks[i] == Adding(reqs) && TaskStep(w, s, t, i)
    ensures TaskOrigin(w, requests, t, t.tasks[i]) && |t.tasks| == |s.tasks|
    ensures forall n, e :: n in t.states && e in t.states[n].entries ==> EntryOrigin(w, requests, t, n, e)
    ensures forall n :: n in t.states ==> ReleaseOrigin(w, requests, t, n)
  {
    if reqs == {} {
      OriginFrame(w, requests, s, t);
    } else {
      var r :| r in reqs && t == AddRequest(w, s, i, r);
      OriginAdd(w, requests, s, i, r);
    }
  }

  lemma OriginMoved(w: World, requests: set<Request>, s: State, t: State, i: nat)
    requires WellPinned(w) && Consistent(w, s) && Originates(w, requests, s) && i < |s.tasks| && TaskStep(w, s, t, i) && Grows(s, t)
    ensures TaskOrigin(w, requests, t, t.tasks[i])
    ensures |t.tasks| > |s.tasks| ==> TaskOrigin(w, requests, t, t.tasks[|s.tasks|])
    ensures forall n, e :: n in t.states && e in t.states[n].entries ==> EntryOrigin(w, requests, t, n, e)
    ensures forall n :: n in t.states ==> ReleaseOrigin(w, requests, t, n)
  {
    assert TaskOrigin(w, requests, s, s.tasks[i]);
    match s.tasks[i] {
      case Adding(reqs) =>
        OriginAdding(w, requests, s, t, i, reqs);
      case Spawning(_, _) =>
        TaskOriginStays(w, requests, s, t, s.tasks[i]);
        OriginFrame(w, requests, s, t);
      case Awaits(job) =>
        if job.Resolution? {
          OriginResolve(w, requests, s, i, job.req);
        } else {
          OriginDeliver(w, requests, s, t, i);
          OriginFrame(w, requests, s, t);
        }
      case Pushing(_, _, _, _) =>
        OriginDeliver(w, requests, s, t, i);
        OriginFrame(w, requests, s, t);
      case Failing(_) => OriginFrame(w, requests, s, t);
    }
  }

  lemma OriginTaskStep(w: World, requests: set<Request>, s: State, t: State, i: nat)
    requires WellPinned(w) && Consistent(w, s) && Originates(w, requests, s) && i < |s.tasks| && TaskStep(w, s, t, i)
    ensures Originates(w, requests, t)
  {
    TaskStepOnly(w, s, t, i);
    assert TaskAgrees(w, s, s.tasks[i]);
    TaskStepGrows(w, s, t, i);
    OriginMoved(w, requests, s, t, i);
    forall j | 0 <= j < |t.tasks| ensures TaskOrigin(w, requests, t, t.tasks[j]) {
      if j < |s.tasks| && j != i {
        TaskOriginStays(w, requests, s, t, s.tasks[j]);
      }
    }
  }

  lemma OriginMainStep(w: World, requests: set<Request>, s: State, t: State)
    requires Originates(w, requests, s) && MainStep(s, t)
    ensures Originates(w, requests, t)
  {
    OriginFrame(w, requests, s, t);
    forall j | 0 <= j < |t.tasks| ensures TaskOrigin(w, requests, t, t.tasks[j]) {
      TaskOriginStays(w, requests, s, t, s.tasks[j]);
    }
  }

  lemma OriginStart(w: World, requests: set<Request>)
    ensures Originates(w, requests, Start(requests))
  {
  }

  lemma {:induction false} OriginRun(w: World, requests: set<Request>, trace: seq<State>, k: nat)
    requires WellPinned(w) && Run(w, requests, trace) && k < |trace|
    ensures Originates(w, requests, trace[k])
  {
    if k == 0 {
      OriginStart(w, requests);
    } else {
      OriginRun(w, requests, trace, k - 1);
      InvRun(w, requests, trace, k - 1);
      OriginStep(w, requests, trace, k - 1);
    }
  }

  lemma OriginStep(w: World, requests: set<Request>, trace: seq<State>, k: nat)
    requires WellPinned(w) && Run(w, requests, trace) && k + 1 < |trace|
    requires Consistent(w, trace[k]) && Originates(w, requests, trace[k])
    ensures Originates(w, requests, trace[k + 1])
  {
    assert Step(w, trace[k], trace[k + 1]);
    if MainStep(trace[k], trace[k + 1]) {
      OriginMainStep(w, requests, trace[k], trace[k + 1]);
    } else {
      var i :| 0 <= i < |trace[k].tasks| && TaskStep(w, trace[k], trace[k + 1], i);
      OriginTaskStep(w, requests, trace[k], trace[k + 1], i);
    }
  }

  // ---- the tree -----------------------------------------------------------------------------------------

  /** Listed package `m` imports entry `e` from package `d`. */
  ghost predicate TreeImports(w: World, tree: Tree, m: string, d: string, e: string) {
    && m in tree && w.content(tree[m].1, tree[m].0).Ok?
    && (d, e) in E.Packages(w.content(tree[m].1, tree[m].0).value.pkg, tree[m].2)
  }

  lemma TreeImportsFrom(w: World, requests: set<Request>, s: State, tree: Tree, m: string, d: string, entries: set<string>, e: string)
    requires Settled(w, requests, s, tree) && ImportsFrom(w, s, m, d, entries) && e in entries
    ensures TreeImports(w, tree, m, d, e) && s.states[m].resolved == Some((tree[m].0, tree[m].1))
  {
    assert m in tree;
  }

  lemma SettledTree(w: World, requests: set<Request>, trace: seq<State>, tree: Tree) returns (s: State)
    requires WellPinned(w) && Run(w, requests, trace) && trace[|trace| - 1].main == Returned(Ok(tree))
    ensures Settled(w, requests, s, tree) && Originates(w, requests, s) && ReleasesKnown(w, s)
  {
    s := trace[|trace| - 1];
    InvRun(w, requests, trace, |trace| - 1);
    TreeIsState(w, requests, s, tree);
    OriginRun(w, requests, trace, |trace| - 1);
  }

  /**
   * Nothing is listed for nothing: each entry of a listed package was asked for, or a listed package
   * imports it, another one or the package itself.
   */
  lemma EntriesAreImported(w: World, requests: set<Request>, trace: seq<State>, tree: Tree, n: string, e: string)
    requires WellPinned(w) && Run(w, requests, trace) && trace[|trace| - 1].main == Returned(Ok(tree))
    requires n in tree && e in tree[n].2
    ensures || (exists q :: q in requests && q.name == n && e in q.entries)
            || (exists m :: TreeImports(w, tree, m, n, e) && tree[m].1 != n)
            || TreeImports(w, tree, n, tree[n].1, e)
  {
    var s := SettledTree(w, requests, trace, tree);
    assert EntryOrigin(w, requests, s, n, e);
    var r :| Origin(w, requests, s, r) && r.name == n && e in r.entries;
    if Initial(requests, r) {
      var q :| q in requests && q.name == r.name && q.source == r.source && q.range == r.range && r.entries <= q.entries;
      assert q.name == n && e in q.entries;
    } else if m :| Declares(w, s, m, r) {
      TreeImportsFrom(w, requests, s, tree, m, n, r.entries, e);
    } else {
      assert ImportsItself(w, s, n, r);
      TreeImportsFrom(w, requests, s, tree, n, s.states[n].resolved.value.1, r.entries, e);
    }
  }

  /** An initial request asks for this range of `n`, or a listed package that imports `n` declares it. */
  ghost predicate RangeGiven(w: World, requests: set<Request>, tree: Tree, n: string, range: string)
    requires n in tree
  {
    || (exists q :: q in requests && q.name == n && q.source == tree[n].1 && q.range == range)
    || (exists m, e :: TreeImports(w, tree, m, n, e) && tree[m].1 != n
          && w.parse(n, Declared(w.content(tree[m].1, tree[m].0).value, n)) == Some((tree[n].1, range)))
  }

  /**
   * Each listed release is npm's answer: to the pin where there is one, and otherwise to a range that an
   * initial request or a listed importer gives.
   */
  lemma ReleasesAreAnswers(w: World, requests: set<Request>, trace: seq<State>, tree: Tree, n: string)
    requires WellPinned(w) && Run(w, requests, trace) && trace[|trace| - 1].main == Returned(Ok(tree)) && n in tree
    ensures n in w.pins ==> tree[n].1 == w.pins[n].source && w.version(tree[n].1, w.pins[n].range) == Ok(tree[n].0)
    ensures n !in w.pins ==> exists range :: RangeGiven(w, requests, tree, n, range) && w.version(tree[n].1, range) == Ok(tree[n].0)
  {
    var s := SettledTree(w, requests, trace, tree);
    if n in w.pins {
      PinnedAnswer(w, requests, s, tree, n);
    } else {
      assert ReleaseOrigin(w, requests, s, n);
      var r :| Foreign(w, requests, s, r) && r.name == n && r.source == tree[n].1 && w.version(tree[n].1, r.range) == Ok(tree[n].0);
      ForeignRange(w, requests, s, tree, r);
    }
  }

  lemma PinnedAnswer(w: World, requests: set<Request>, s: State, tree: Tree, n: string)
    requires Settled(w, requests, s, tree) && ReleasesKnown(w, s) && n in tree && n in w.pins
    ensures tree[n].1 == w.pins[n].source && w.version(tree[n].1, w.pins[n].range) == Ok(tree[n].0)
  {
    assert ReleaseKnown(w, s, n);
  }

  lemma ForeignRange(w: World, requests: set<Request>, s: State, tree: Tree, r: Request)
    requires Settled(w, requests, s, tree) && Foreign(w, requests, s, r) && r.name in tree && r.source == tree[r.name].1
    ensures RangeGiven(w, requests, tree, r.name, r.range)
  {
    if m :| Declares(w, s, m, r) {
      var e :| e in r.entries;
      TreeImportsFrom(w, requests, s, tree, m, r.name, r.entries, e);
    }
  }

  // ---- names ------------------------------------------------------------------------------------------------

  /** Only npm's names are recorded, and no type declarations. */
  predicate Installable(w: World, s: State) {
    forall n :: n in s.states ==> !("@types/" <= n) && w.validName(n)
  }

  lemma InstallableStep(w: World, s: State, t: State, i: nat)
    requires i < |s.tasks| && TaskAgrees(w, s, s.tasks[i]) && TaskStep(w, s, t, i) && Installable(w, s)
    ensures Installable(w, t)
  {
  }

  lemma {:induction false} InstallableRun(w: World, requests: set<Request>, trace: seq<State>, k: nat)
    requires WellPinned(w) && Run(w, requests, trace) && k < |trace|
    ensures Installable(w, trace[k])
  {
    if k > 0 {
      InstallableRun(w, requests, trace, k - 1);
      ConsistentAt(w, requests, trace, k - 1);
      InstallableNext(w, requests, trace, k - 1);
    }
  }

  lemma ConsistentAt(w: World, requests: set<Request>, trace: seq<State>, k: nat)
    requires WellPinned(w) && Run(w, requests, trace) && k < |trace|
    ensures Consistent(w, trace[k])
  {
    InvRun(w, requests, trace, k);
  }

  lemma InstallableNext(w: World, requests: set<Request>, trace: seq<State>, k: nat)
    requires Run(w, requests, trace) && k + 1 < |trace| && Consistent(w, trace[k]) && Installable(w, trace[k])
    ensures Installable(w, trace[k + 1])
  {
    assert Step(w, trace[k], trace[k + 1]);
    if !MainStep(trace[k], trace[k + 1]) {
      var i :| 0 <= i < |trace[k].tasks| && TaskStep(w, trace[k], trace[k + 1], i);
      assert TaskAgrees(w, trace[k], trace[k].tasks[i]);
      InstallableStep(w, trace[k], trace[k + 1], i);
    }
  }

  /** Whatever is requested, no listed name is a type declaration's or no npm name. */
  lemma ListedNamesAreInstallable(w: World, requests: set<Request>, trace: seq<State>, tree: Tree, n: string)
    requires WellPinned(w) && Run(w, requests, trace) && trace[|trace| - 1].main == Returned(Ok(tree)) && n in tree
    ensures !("@types/" <= n) && w.validName(n)
  {
    InstallableRun(w, requests, trace, |trace| - 1);
    TreeNames(w, requests, trace, tree);
  }

  lemma TreeNames(w: World, requests: set<Request>, trace: seq<State>, tree: Tree)
    requires WellPinned(w) && Run(w, requests, trace) && trace[|trace| - 1].main == Returned(Ok(tree))
    ensures tree.Keys == trace[|trace| - 1].states.Keys
  {
    InvRun(w, requests, trace, |trace| - 1);
    TreeIsState(w, requests, trace[|trace| - 1], tree);
  }
}
