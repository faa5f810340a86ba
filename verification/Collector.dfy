/**
 * The CDN's dependency-tree collector (crates/sandpack-cdn/src/package/collect_dep_tree.rs) as an
 * interleaved step system: tokio tasks share `states`, `dependencies`, `futures` and
 * `first_error`, and one step is one lock section or the completion of one await.
 */
module Collector {
  import opened Wrappers
  import E = EntryClosures

  // ---- requests ------------------------------------------------------------------

  datatype Request = Request(name: string, source: string, range: string, depth: nat, entries: set<string>)

  /** A processed release: its files and the range it declares for each dependency. */
  datatype Content = Content(pkg: E.Package, ranges: map<string, string>)

  /**
   * The collector's surroundings, fixed for one collection: the pins, `DependencyRequest::new`'s
   * parse of a range string (`None`: rejected), npm's answer to a range, the processed content of
   * a release, and the package-name check.
   */
  datatype World = World(
    pins: map<string, Request>,
    parse: (string, string) -> Option<(string, string)>,
    version: (string, string) -> Result<string, string>,
    content: (string, string) -> Result<Content, string>,
    validName: string -> bool)

  /** `process_pins` keys every pin by its own name. */
  predicate WellPinned(w: World) {
    forall n :: n in w.pins ==> w.pins[n].name == n
  }

  function ApplyPin(w: World, r: Request): Request {
    if r.name in w.pins then w.pins[r.name].(depth := r.depth, entries := r.entries) else r
  }

  /** `resolve_dep`: the exact release, and its content. */
  function Resolve(w: World, source: string, range: string): Result<(string, Content), string> {
    match w.version(source, range)
    case Err(e) => Err(e)
    case Ok(version) =>
      match w.content(source, version)
      case Err(e) => Err(e)
      case Ok(content) => Ok((version, content))
  }

  function EntriesOf(edges: set<(string, string)>, package: string): set<string> {
    set edge | edge in edges && edge.0 == package :: edge.1
  }

  /** The request a package edge makes: a self-import asks for the package at its own release. */
  function RequestFor(w: World, name: string, source: string, version: string, content: Content,
                      depth: nat, package: string, entries: set<string>): Option<Request>
  {
    var (target, range, at) :=
      if package == source
      then (name, if source == name then version else "npm:" + source + "@" + version, depth)
      else (package, if package in content.ranges then content.ranges[package] else "latest", depth + 1);
    match w.parse(target, range)
    case None => None
    case Some((npmSource, npmRange)) => Some(Request(target, npmSource, npmRange, at, entries))
  }

  function ClosureRequests(w: World, name: string, source: string, version: string, content: Content,
                           entries: set<string>, depth: nat): set<Request>
  {
    var edges := E.Packages(content.pkg, entries);
    set edge | edge in edges && RequestFor(w, name, source, version, content, depth, edge.0, EntriesOf(edges, edge.0)).Some? ::
      RequestFor(w, name, source, version, content, depth, edge.0, EntriesOf(edges, edge.0)).value
  }

  predicate SkippedByName(w: World, name: string) {
    "@types/" <= name || !w.validName(name)
  }

  predicate ShouldSkip(w: World, name: string, known: nat) {
    SkippedByName(w, name) || known > 500
  }

  // ---- the shared state ----------------------------------------------------------

  /** `resolved` is `(version, source)`. */
  datatype NameState = NameState(resolved: Option<(string, string)>, entries: set<string>)

  datatype Dependency = Dependency(name: string, version: string, depth: nat, source: string)

  /** What a spawned task first awaits: a resolution, or the content to expand more entries of. */
  datatype Job =
    | Resolution(req: Request)
    | Expansion(name: string, source: string, version: string, entries: set<string>, depth: nat)

  /**
   * Where a task is. `Adding` is inside `add_dep_requests` with the requests still to handle,
   * `Spawning` holds the task it is about to spawn before it goes on with them.
   */
  datatype Task =
    | Awaits(job: Job)
    | Pushing(req: Request, version: string, content: Content, entries: set<string>)
    | Adding(reqs: set<Request>)
    | Spawning(job: Job, reqs: set<Request>)
    | Failing(error: string)
    | Done

  /** `try_collect` after its own `add_dep_requests`: popping a handle, awaiting one, or out of the loop. */
  datatype Main = Popping | Awaiting(task: nat) | Exited | Returned(result: Result<Tree, string>)

  type Tree = map<string, (string, string, set<string>)>

  datatype State = State(
    states: map<string, NameState>,
    deps: seq<Dependency>,
    tasks: seq<Task>,
    queue: seq<nat>,
    firstError: Option<string>,
    main: Main)

  /** Task 0 is `try_collect` itself, adding the initial requests; it has no handle. */
  function Start(requests: set<Request>): State {
    State(map[], [], [Adding(requests)], [], None, Popping)
  }

  /** `get_dependencies`: the list, each package with every entry requested from it. */
  function GetDependencies(s: State): Tree {
    map n | n in Listed(s) :: ListedAs(s, n)
  }

  function Listed(s: State): set<string> {
    set i | 0 <= i < |s.deps| :: s.deps[i].name
  }

  /** The list entry of `n`: the first, should there be several. */
  function IndexOf(deps: seq<Dependency>, n: string): (i: nat)
    requires exists j :: 0 <= j < |deps| && deps[j].name == n
    ensures i < |deps| && deps[i].name == n
  {
    if deps[0].name == n then 0 else 1 + IndexOf(deps[1..], n)
  }

  function ListedAs(s: State, n: string): (string, string, set<string>)
    requires n in Listed(s)
  {
    var d := s.deps[IndexOf(s.deps, n)];
    (d.version, d.source, if n in s.states then s.states[n].entries else {})
  }

  // ---- steps ---------------------------------------------------------------------

  function With(s: State, i: nat, t: Task): State
    requires i < |s.tasks|
  {
    s.(tasks := s.tasks[i := t])
  }

  /** One turn of the `add_dep_requests` loop: the lock on `states`. */
  function AddRequest(w: World, s: State, i: nat, r: Request): State
    requires i < |s.tasks| && s.tasks[i].Adding?
  {
    var rest := s.tasks[i].reqs - {r};
    var pinned := ApplyPin(w, r);
    var n := pinned.name;
    if n in s.states then
      var added := pinned.entries - s.states[n].entries;
      if added == {} then With(s, i, Adding(rest))
      else
        var recorded := s.(states := s.states[n := s.states[n].(entries := s.states[n].entries + added)]);
        match s.states[n].resolved
        case None => With(recorded, i, Adding(rest))
        case Some((version, source)) => With(recorded, i, Spawning(Expansion(n, source, version, added, pinned.depth), rest))
    else if ShouldSkip(w, n, |s.states|) then With(s, i, Adding(rest))
    else
      With(s.(states := s.states[n := NameState(None, pinned.entries)]), i, Spawning(Resolution(pinned), rest))
  }

  /** `spawn`: the handle enters the queue under the same lock that starts the task. */
  function Spawn(s: State, i: nat): State
    requires i < |s.tasks| && s.tasks[i].Spawning?
  {
    var t := s.tasks[i];
    s.(tasks := s.tasks[i := Adding(t.reqs)] + [Awaits(t.job)], queue := s.queue + [|s.tasks|])
  }

  /** `resolve_dep` completes; on success the release is recorded and the entries so far are read, under one lock. */
  function FinishResolve(w: World, s: State, i: nat, req: Request): State
    requires i < |s.tasks|
  {
    match Resolve(w, req.source, req.range)
    case Err(e) => With(s, i, Failing(e))
    case Ok((version, content)) =>
      var entries := if req.name in s.states then s.states[req.name].entries else {};
      With(s.(states := s.states[req.name := NameState(Some((version, req.source)), entries)]),
           i, Pushing(req, version, content, entries))
  }

  function PushDependency(w: World, s: State, i: nat): State
    requires i < |s.tasks| && s.tasks[i].Pushing?
  {
    var t := s.tasks[i];
    With(s.(deps := s.deps + [Dependency(t.req.name, t.version, t.req.depth, t.req.source)]),
         i, Adding(ClosureRequests(w, t.req.name, t.req.source, t.version, t.content, t.entries, t.req.depth)))
  }

  function FinishExpand(w: World, s: State, i: nat, job: Job): State
    requires i < |s.tasks| && job.Expansion?
  {
    match w.content(job.source, job.version)
    case Err(e) => With(s, i, Failing(e))
    case Ok(content) =>
      With(s, i, Adding(ClosureRequests(w, job.name, job.source, job.version, content, job.entries, job.depth)))
  }

  function RecordError(s: State, i: nat): State
    requires i < |s.tasks| && s.tasks[i].Failing?
  {
    With(s.(firstError := if s.firstError.None? then Some(s.tasks[i].error) else s.firstError), i, Done)
  }

  /** A step of task `i`. */
  ghost predicate TaskStep(w: World, s: State, t: State, i: nat)
    requires i < |s.tasks|
  {
    match s.tasks[i]
    case Adding(reqs) =>
      if reqs == {} then t == With(s, i, Done) else exists r :: r in reqs && t == AddRequest(w, s, i, r)
    case Spawning(_, _) => t == Spawn(s, i)
    case Awaits(job) => t == if job.Resolution? then FinishResolve(w, s, i, job.req) else FinishExpand(w, s, i, job)
    case Pushing(_, _, _, _) => t == PushDependency(w, s, i)
    case Failing(_) => t == RecordError(s, i)
    case Done => false
  }

  /** A step of `try_collect`'s own loop, once its `add_dep_requests` has returned. */
  ghost predicate MainStep(s: State, t: State) {
    && |s.tasks| > 0 && s.tasks[0].Done?
    && match s.main
       case Popping =>
         t == if s.queue == [] then s.(main := Exited) else s.(main := Awaiting(s.queue[0]), queue := s.queue[1..])
       case Awaiting(i) => i < |s.tasks| && s.tasks[i].Done? && t == s.(main := Popping)
       case Exited =>
         t == s.(main := Returned(match s.firstError case Some(e) => Err(e) case None => Ok(GetDependencies(s))))
       case Returned(_) => false
  }

  ghost predicate Step(w: World, s: State, t: State) {
    MainStep(s, t) || exists i :: 0 <= i < |s.tasks| && TaskStep(w, s, t, i)
  }

  /** A run from the initial requests. */
  ghost predicate Run(w: World, requests: set<Request>, trace: seq<State>) {
    && |trace| > 0 && trace[0] == Start(requests)
    && forall k :: 0 <= k < |trace| - 1 ==> Step(w, trace[k], trace[k + 1])
  }
}
