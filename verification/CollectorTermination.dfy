/** Every schedule of a collection ends, and it ends in a result. */
module CollectorTermination {
  import opened Wrappers
  import opened Sets
  import opened Collector
  import opened CollectorSafety
  import opened CollectorClosure
  import E = EntryClosures

  // ---- no schedule gets stuck ------------------------------------------------------------

  lemma TaskCanStep(w: World, s: State, i: nat) returns (t: State)
    requires i < |s.tasks| && !s.tasks[i].Done?
    ensures TaskStep(w, s, t, i)
  {
    match s.tasks[i]
    case Adding(reqs) =>
      if reqs == {} {
        t := With(s, i, Done);
      } else {
        var r :| r in reqs;
        t := AddRequest(w, s, i, r);
      }
    case Spawning(_, _) => t := Spawn(s, i);
    case Awaits(job) => t := if job.Resolution? then FinishResolve(w, s, i, job.req) else FinishExpand(w, s, i, job);
    case Pushing(_, _, _, _) => t := PushDependency(w, s, i);
    case Failing(_) => t := RecordError(s, i);
  }

  ghost predicate CanStep(w: World, s: State) {
    exists t {:trigger Step(w, s, t)} :: Step(w, s, t)
  }

  /** A reachable state that has not returned has a next step. */
  lemma NeverStuck(w: World, requests: set<Request>, trace: seq<State>)
    requires WellPinned(w) && Run(w, requests, trace)
    ensures trace[|trace| - 1].main.Returned? <==> !CanStep(w, trace[|trace| - 1])
  {
    var s := trace[|trace| - 1];
    InvRun(w, requests, trace, |trace| - 1);
    if s.main.Returned? {
      forall t ensures !Step(w, s, t) {
        assert forall i :: 0 <= i < |s.tasks| ==> !TaskStep(w, s, t, i);
      }
    } else if AllDone(s) {
      var t := MainTurn(s);
      assert Step(w, s, t);
    } else {
      var i :| 0 <= i < |s.tasks| && !s.tasks[i].Done?;
      var t := TaskCanStep(w, s, i);
      assert Step(w, s, t);
    }
  }

  lemma MainTurn(s: State) returns (t: State)
    requires HandlesTracked(s) && AllDone(s) && !s.main.Returned?
    ensures MainStep(s, t)
  {
    match s.main
    case Popping => t := if s.queue == [] then s.(main := Exited) else s.(main := Awaiting(s.queue[0]), queue := s.queue[1..]);
    case Awaiting(_) => t := s.(main := Popping);
    case Exited =>
      t := s.(main := Returned(match s.firstError case Some(e) => Err(e) case None => Ok(GetDependencies(s))));
  }

  // ---- the measure ---------------------------------------------------------------------------

  /** Tasks at each stage; a later stage never goes back to an earlier one without recording something new. */
  datatype Load = Load(spawning: nat, awaiting: nat, pushing: nat, requests: nat, alive: nat)

  function LoadOf(t: Task): Load {
    match t
    case Spawning(_, reqs) => Load(1, 0, 0, |reqs|, 1)
    case Awaits(_) => Load(0, 1, 0, 0, 1)
    case Pushing(_, _, _, _) => Load(0, 0, 1, 0, 1)
    case Adding(reqs) => Load(0, 0, 0, |reqs|, 1)
    case Failing(_) => Load(0, 0, 0, 0, 1)
    case Done => Load(0, 0, 0, 0, 0)
  }

  function Plus(a: Load, b: Load): Load {
    Load(a.spawning + b.spawning, a.awaiting + b.awaiting, a.pushing + b.pushing, a.requests + b.requests, a.alive + b.alive)
  }

  function Sum(loads: seq<Load>): Load {
    if |loads| == 0 then Load(0, 0, 0, 0, 0) else Plus(loads[0], Sum(loads[1..]))
  }

  function Loads(tasks: seq<Task>): seq<Load> {
    seq(|tasks|, i requires 0 <= i < |tasks| => LoadOf(tasks[i]))
  }

  function Total(tasks: seq<Task>): Load {
    Sum(Loads(tasks))
  }

  lemma {:induction false} SumUpdate(loads: seq<Load>, i: nat, x: Load)
    requires i < |loads|
    ensures Plus(Sum(loads[i := x]), loads[i]) == Plus(Sum(loads), x)
  {
    if i == 0 {
      assert loads[i := x][1..] == loads[1..];
    } else {
      assert loads[i := x][1..] == loads[1..][i - 1 := x];
      SumUpdate(loads[1..], i - 1, x);
    }
  }

  lemma {:induction false} SumAppend(loads: seq<Load>, x: Load)
    ensures Sum(loads + [x]) == Plus(Sum(loads), x)
  {
    if |loads| == 0 {
      assert (loads + [x])[1..] == [];
    } else {
      assert (loads + [x])[1..] == loads[1..] + [x];
      SumAppend(loads[1..], x);
    }
  }

  /** Replacing one task changes the total by that task's share. */
  lemma {:induction false} TotalUpdate(tasks: seq<Task>, i: nat, t: Task)
    requires i < |tasks|
    ensures Plus(Total(tasks[i := t]), LoadOf(tasks[i])) == Plus(Total(tasks), LoadOf(t))
  {
    assert Loads(tasks[i := t]) == Loads(tasks)[i := LoadOf(t)];
    SumUpdate(Loads(tasks), i, LoadOf(t));
  }

  lemma {:induction false} TotalAppend(tasks: seq<Task>, t: Task)
    ensures Total(tasks + [t]) == Plus(Total(tasks), LoadOf(t))
  {
    assert Loads(tasks + [t]) == Loads(tasks) + [LoadOf(t)];
    SumAppend(Loads(tasks), LoadOf(t));
  }

  // ---- what is still to be recorded ----------------------------------------------------------

  /** Every package edge of a release, whatever entries load it. */
  function AllImports(pkg: E.Package): set<(string, string)> {
    E.ImportsOf(pkg, pkg.files.Keys)
  }

  /** The entries a resolved name's release can ever ask for, by the name it asks them of. */
  function ReleaseAsks(n: string, source: string, pkg: E.Package): set<(string, string)> {
    set edge | edge in AllImports(pkg) :: (if edge.0 == source then n else edge.0, edge.1)
  }

  function AskedBy(w: World, n: string, state: NameState): set<(string, string)> {
    match state.resolved
    case None => {}
    case Some((version, source)) =>
      match w.content(source, version) case Err(_) => {} case Ok(content) => ReleaseAsks(n, source, content.pkg)
  }

  function PairsOf(requests: set<Request>): set<(string, string)> {
    set r, e | r in requests && e in r.entries :: (r.name, e)
  }

  /** The names and entries that the initial requests and the releases resolved so far can ask for. */
  function Askable(w: World, requests: set<Request>, s: State): set<(string, string)> {
    PairsOf(requests) + set n, p | n in s.states && p in AskedBy(w, n, s.states[n]) :: p
  }

  /** Every pending request is one of those. */
  ghost predicate PendingAskable(w: World, requests: set<Request>, s: State) {
    forall i :: 0 <= i < |s.tasks| ==> PairsOf(Pending(s.tasks[i])) <= Askable(w, requests, s)
  }

  lemma PackagesAreImports(pkg: E.Package, entries: set<string>)
    ensures E.Packages(pkg, entries) <= AllImports(pkg)
  {
    forall edge | edge in E.Packages(pkg, entries) ensures edge in AllImports(pkg) {
      var f :| f in E.Files(pkg, entries) && edge in E.Imports(pkg, f);
      assert f in pkg.files;
    }
  }

  lemma RequestsAreAsked(w: World, n: string, source: string, version: string, content: Content, entries: set<string>, d: nat)
    ensures PairsOf(ClosureRequests(w, n, source, version, content, entries, d)) <= ReleaseAsks(n, source, content.pkg)
  {
    PackagesAreImports(content.pkg, entries);
    var edges := E.Packages(content.pkg, entries);
    forall r, e | r in ClosureRequests(w, n, source, version, content, entries, d) && e in r.entries
      ensures (r.name, e) in ReleaseAsks(n, source, content.pkg)
    {
      var edge :| edge in edges && RequestFor(w, n, source, version, content, d, edge.0, EntriesOf(edges, edge.0)) == Some(r);
      var asked :| asked in edges && asked.0 == edge.0 && asked.1 == e;
    }
  }

  lemma AskableGrows(w: World, requests: set<Request>, s: State, t: State)
    requires Grows(s, t)
    ensures Askable(w, requests, s) <= Askable(w, requests, t)
  {
    forall n, p | n in s.states && p in AskedBy(w, n, s.states[n]) ensures p in AskedBy(w, n, t.states[n]) {
    }
  }

  /** What a resolved name's closure requests is askable. */
  lemma ResolvedAsks(w: World, requests: set<Request>, s: State, n: string, source: string, version: string,
                     content: Content, entries: set<string>, d: nat)
    requires ResolvedAs(s, n, version, source) && w.content(source, version) == Ok(content)
    ensures PairsOf(ClosureRequests(w, n, source, version, content, entries, d)) <= Askable(w, requests, s)
  {
    RequestsAreAsked(w, n, source, version, content, entries, d);
    assert AskedBy(w, n, s.states[n]) == ReleaseAsks(n, source, content.pkg);
  }

  /** A task's next pending requests are its old ones, or those of a resolved name. */
  lemma TaskAsks(w: World, requests: set<Request>, s: State, t: State, i: nat)
    requires i < |s.tasks| && TaskAgrees(w, s, s.tasks[i]) && TaskStep(w, s, t, i)
    ensures Pending(t.tasks[i]) <= Pending(s.tasks[i]) || PairsOf(Pending(t.tasks[i])) <= Askable(w, requests, s)
  {
    match s.tasks[i]
    case Pushing(req, version, content, entries) =>
      ResolvedAsks(w, requests, s, req.name, req.source, version, content, entries, req.depth);
    case Awaits(job) => JobAsks(w, requests, s, t, i, job);
    case _ =>
  }

  lemma JobAsks(w: World, requests: set<Request>, s: State, t: State, i: nat, job: Job)
    requires i < |s.tasks| && s.tasks[i] == Awaits(job) && JobAgrees(s, job) && TaskStep(w, s, t, i)
    ensures PairsOf(Pending(t.tasks[i])) <= Askable(w, requests, s)
  {
    if job.Expansion? && w.content(job.source, job.version).Ok? {
      ResolvedAsks(w, requests, s, job.name, job.source, job.version, w.content(job.source, job.version).value, job.entries, job.depth);
    }
  }

  lemma SpawnAsks(w: World, s: State, t: State, i: nat)
    requires i < |s.tasks| && TaskStep(w, s, t, i) && |t.tasks| > |s.tasks|
    ensures |t.tasks| == |s.tasks| + 1 && Pending(t.tasks[|s.tasks|]) == {}
  {
  }

  /** The task behind a step, and what the step leaves alone. */
  lemma Stepper(w: World, s: State, t: State) returns (i: nat)
    requires Consistent(w, s) && Step(w, s, t) && !MainStep(s, t)
    ensures i < |s.tasks| && TaskStep(w, s, t, i) && TaskAgrees(w, s, s.tasks[i]) && OnlyTask(s, t, i)
  {
    i :| 0 <= i < |s.tasks| && TaskStep(w, s, t, i);
    TaskStepOnly(w, s, t, i);
  }

  lemma PendingStep(w: World, requests: set<Request>, s: State, t: State)
    requires Consistent(w, s) && PendingAskable(w, requests, s) && Step(w, s, t)
    ensures PendingAskable(w, requests, t)
  {
    AskableStep(w, requests, s, t);
    if MainStep(s, t) {
      PendingMainStep(w, requests, s, t);
    } else {
      var i := Stepper(w, s, t);
      PendingTaskStep(w, requests, s, t, i);
    }
  }

  lemma AskableStep(w: World, requests: set<Request>, s: State, t: State)
    requires Consistent(w, s) && Step(w, s, t)
    ensures Askable(w, requests, s) <= Askable(w, requests, t)
  {
    StepGrows(w, s, t);
    AskableGrows(w, requests, s, t);
  }

  lemma PendingMainStep(w: World, requests: set<Request>, s: State, t: State)
    requires PendingAskable(w, requests, s) && MainStep(s, t)
    ensures PendingAskable(w, requests, t)
  {
    assert t.tasks == s.tasks && t.states == s.states;
    forall i | 0 <= i < |t.tasks| ensures PairsOf(Pending(t.tasks[i])) <= Askable(w, requests, t) {
      assert PairsOf(Pending(s.tasks[i])) <= Askable(w, requests, s);
    }
  }

  lemma PendingTaskStep(w: World, requests: set<Request>, s: State, t: State, i: nat)
    requires i < |s.tasks| && TaskStep(w, s, t, i) && TaskAgrees(w, s, s.tasks[i]) && OnlyTask(s, t, i)
    requires PendingAskable(w, requests, s) && Askable(w, requests, s) <= Askable(w, requests, t)
    ensures PendingAskable(w, requests, t)
  {
    TaskAsks(w, requests, s, t, i);
    if |t.tasks| > |s.tasks| {
      SpawnAsks(w, s, t, i);
    }
    OthersAsk(w, requests, s, t, i);
  }

  lemma OthersAsk(w: World, requests: set<Request>, s: State, t: State, i: nat)
    requires PendingAskable(w, requests, s) && OnlyTask(s, t, i) && Askable(w, requests, s) <= Askable(w, requests, t)
    requires Pending(t.tasks[i]) <= Pending(s.tasks[i]) || PairsOf(Pending(t.tasks[i])) <= Askable(w, requests, s)
    requires |t.tasks| > |s.tasks| ==> |t.tasks| == |s.tasks| + 1 && Pending(t.tasks[|s.tasks|]) == {}
    ensures PendingAskable(w, requests, t)
  {
    forall j | 0 <= j < |t.tasks| ensures PairsOf(Pending(t.tasks[j])) <= Askable(w, requests, t) {
      if j < |s.tasks| { assert PairsOf(Pending(s.tasks[j])) <= Askable(w, requests, s); }
    }
  }

  /** What is still free: names under the cap, names to resolve, askable entries to record. */
  datatype Room = Room(names: nat, unresolved: nat, unrecorded: nat)

  function Unresolved(s: State): set<string> {
    set n | n in s.states && s.states[n].resolved.None?
  }

  function RecordedPairs(s: State): set<(string, string)> {
    set n, e | n in s.states && e in s.states[n].entries :: (n, e)
  }

  function RoomOf(w: World, requests: set<Request>, s: State): Room {
    Room(if |s.states| <= 501 then 501 - |s.states| else 0, |Unresolved(s)|, |Askable(w, requests, s) - RecordedPairs(s)|)
  }

  predicate Smaller(a: Room, b: Room) {
    if a.names != b.names then a.names < b.names
    else if a.unresolved != b.unresolved then a.unresolved < b.unresolved
    else a.unrecorded < b.unrecorded
  }

  function MainRank(s: State): nat {
    2 * |s.queue| + match s.main case Popping => 2 case Awaiting(_) => 3 case Exited => 1 case Returned(_) => 0
  }

  /** The lexicographic order of loads. */
  predicate Lighter(a: Load, b: Load) {
    if a.spawning != b.spawning then a.spawning < b.spawning
    else if a.awaiting != b.awaiting then a.awaiting < b.awaiting
    else if a.pushing != b.pushing then a.pushing < b.pushing
    else if a.requests != b.requests then a.requests < b.requests
    else a.alive < b.alive
  }

  /** The well-founded order of states: room first, then the tasks, then the main loop. */
  ghost predicate Less(w: World, requests: set<Request>, t: State, s: State) {
    || Smaller(RoomOf(w, requests, t), RoomOf(w, requests, s))
    || (RoomOf(w, requests, t) == RoomOf(w, requests, s) &&
        (Lighter(Total(t.tasks), Total(s.tasks)) || (Total(t.tasks) == Total(s.tasks) && MainRank(t) < MainRank(s))))
  }

  lemma LessWork(w: World, requests: set<Request>, s: State, t: State)
    requires t.states == s.states
    requires Lighter(Total(t.tasks), Total(s.tasks)) || (t.tasks == s.tasks && MainRank(t) < MainRank(s))
    ensures Less(w, requests, t, s)
  {
    assert Askable(w, requests, t) == Askable(w, requests, s) && RecordedPairs(t) == RecordedPairs(s);
    assert Unresolved(t) == Unresolved(s);
  }

  /** A task that moves on without spawning makes the total lighter as it gets lighter itself. */
  lemma LighterTask(tasks: seq<Task>, i: nat, t: Task)
    requires i < |tasks| && Lighter(LoadOf(t), LoadOf(tasks[i]))
    ensures Lighter(Total(tasks[i := t]), Total(tasks))
  {
    TotalUpdate(tasks, i, t);
  }

  /** Recording a new name uses one of the 501. */
  lemma NameUsed(w: World, requests: set<Request>, s: State, t: State, n: string, state: NameState)
    requires n !in s.states && |s.states| <= 500 && t.states == s.states[n := state]
    ensures Smaller(RoomOf(w, requests, t), RoomOf(w, requests, s))
  {
    assert t.states.Keys == s.states.Keys + {n};
    assert |t.states| == |t.states.Keys| && |s.states| == |s.states.Keys|;
  }

  /** Resolving a name leaves one fewer to resolve. */
  lemma NameResolved(w: World, requests: set<Request>, s: State, t: State, n: string, state: NameState)
    requires n in s.states && s.states[n].resolved.None? && state.resolved.Some? && t.states == s.states[n := state]
    ensures Smaller(RoomOf(w, requests, t), RoomOf(w, requests, s))
  {
    assert t.states.Keys == s.states.Keys;
    assert |t.states| == |t.states.Keys| && |s.states| == |s.states.Keys|;
    assert Unresolved(s) == Unresolved(t) + {n};
  }

  /** Recording an askable entry leaves one fewer to record. */
  lemma EntryUsed(w: World, requests: set<Request>, s: State, t: State, n: string, entries: set<string>, e: string)
    requires n in s.states && e in entries && e !in s.states[n].entries && (n, e) in Askable(w, requests, s)
    requires t.states == s.states[n := s.states[n].(entries := s.states[n].entries + entries)]
    ensures Smaller(RoomOf(w, requests, t), RoomOf(w, requests, s))
  {
    assert t.states.Keys == s.states.Keys;
    assert |t.states| == |t.states.Keys| && |s.states| == |s.states.Keys|;
    assert Unresolved(s) == Unresolved(t);
    SameAskable(w, requests, s, t);
    var all := Askable(w, requests, s);
    forall p | p in RecordedPairs(s) ensures p in RecordedPairs(t) {
    }
    assert (n, e) in all - RecordedPairs(s) && (n, e) !in all - RecordedPairs(t);
    SubsetSize(all - RecordedPairs(t), all - RecordedPairs(s));
  }

  lemma SameAskable(w: World, requests: set<Request>, s: State, t: State)
    requires t.states.Keys == s.states.Keys
    requires forall n :: n in s.states ==> t.states[n].resolved == s.states[n].resolved
    ensures Askable(w, requests, t) == Askable(w, requests, s)
  {
    forall n | n in s.states ensures AskedBy(w, n, t.states[n]) == AskedBy(w, n, s.states[n]) {
    }
  }

  lemma AddDecreases(w: World, requests: set<Request>, s: State, i: nat, r: Request)
    requires WellPinned(w) && PendingAskable(w, requests, s)
    requires i < |s.tasks| && s.tasks[i].Adding? && r in s.tasks[i].reqs
    ensures Less(w, requests, AddRequest(w, s, i, r), s)
  {
    var t := AddRequest(w, s, i, r);
    if t.states == s.states {
      NothingAdded(w, s, i, r);
      LighterTask(s.tasks, i, t.tasks[i]);
      LessWork(w, requests, s, t);
    } else if r.name in s.states {
      EntryAdded(w, s, i, r);
      var e :| e in r.entries && e !in s.states[r.name].entries;
      assert (r.name, e) in PairsOf(Pending(s.tasks[i]));
      EntryUsed(w, requests, s, t, r.name, r.entries, e);
    } else {
      NameAdded(w, s, i, r);
      NameUsed(w, requests, s, t, r.name, NameState(None, r.entries));
    }
  }

  lemma NothingAdded(w: World, s: State, i: nat, r: Request)
    requires WellPinned(w) && i < |s.tasks| && s.tasks[i].Adding? && r in s.tasks[i].reqs
    requires AddRequest(w, s, i, r).states == s.states
    ensures AddRequest(w, s, i, r) == With(s, i, Adding(s.tasks[i].reqs - {r}))
    ensures |s.tasks[i].reqs - {r}| < |s.tasks[i].reqs|
  {
  }

  lemma EntryAdded(w: World, s: State, i: nat, r: Request)
    requires WellPinned(w) && i < |s.tasks| && s.tasks[i].Adding? && r.name in s.states
    requires AddRequest(w, s, i, r).states != s.states
    ensures var t := AddRequest(w, s, i, r);
      && t.states == s.states[r.name := s.states[r.name].(entries := s.states[r.name].entries + r.entries)]
      && exists e :: e in r.entries && e !in s.states[r.name].entries
  {
    var had := s.states[r.name].entries;
    assert had + (r.entries - had) == had + r.entries;
    var e :| e in r.entries - had;
  }

  lemma NameAdded(w: World, s: State, i: nat, r: Request)
    requires WellPinned(w) && i < |s.tasks| && s.tasks[i].Adding? && r.name !in s.states
    requires AddRequest(w, s, i, r).states != s.states
    ensures AddRequest(w, s, i, r).states == s.states[r.name := NameState(None, r.entries)]
    ensures |s.states| <= 500
  {
  }

  lemma SpawnDecreases(w: World, requests: set<Request>, s: State, i: nat)
    requires i < |s.tasks| && s.tasks[i].Spawning?
    ensures Less(w, requests, Spawn(s, i), s)
  {
    var t := s.tasks[i];
    TotalUpdate(s.tasks, i, Adding(t.reqs));
    TotalAppend(s.tasks[i := Adding(t.reqs)], Awaits(t.job));
    LessWork(w, requests, s, Spawn(s, i));
  }

  lemma ResolveDecreases(w: World, requests: set<Request>, s: State, i: nat, req: Request)
    requires Consistent(w, s) && i < |s.tasks| && s.tasks[i] == Awaits(Resolution(req))
    ensures Less(w, requests, FinishResolve(w, s, i, req), s)
  {
    var t := FinishResolve(w, s, i, req);
    assert TaskAgrees(w, s, s.tasks[i]);
    if Resolve(w, req.source, req.range).Ok? {
      NameResolved(w, requests, s, t, req.name, t.states[req.name]);
    } else {
      MoveDecreases(w, requests, s, t, i);
    }
  }

  lemma MoveDecreases(w: World, requests: set<Request>, s: State, t: State, i: nat)
    requires i < |s.tasks| == |t.tasks| && t.tasks == s.tasks[i := t.tasks[i]] && t.states == s.states
    requires Lighter(LoadOf(t.tasks[i]), LoadOf(s.tasks[i]))
    ensures Less(w, requests, t, s)
  {
    LighterTask(s.tasks, i, t.tasks[i]);
    LessWork(w, requests, s, t);
  }

  lemma TaskStepDecreases(w: World, requests: set<Request>, s: State, t: State, i: nat)
    requires WellPinned(w) && PendingAskable(w, requests, s) && Consistent(w, s)
    requires i < |s.tasks| && TaskStep(w, s, t, i)
    ensures Less(w, requests, t, s)
  {
    match s.tasks[i]
    case Adding(reqs) =>
      if reqs == {} {
        MoveDecreases(w, requests, s, t, i);
      } else {
        var r :| r in reqs && t == AddRequest(w, s, i, r);
        AddDecreases(w, requests, s, i, r);
      }
    case Spawning(_, _) => SpawnDecreases(w, requests, s, i);
    case Awaits(job) =>
      if job.Resolution? { ResolveDecreases(w, requests, s, i, job.req); } else { MoveDecreases(w, requests, s, t, i); }
    case Pushing(_, _, _, _) => MoveDecreases(w, requests, s, t, i);
    case Failing(_) => MoveDecreases(w, requests, s, t, i);
  }

  /** Every step uses up room, makes the tasks lighter, or moves the main loop on. */
  lemma StepDecreases(w: World, requests: set<Request>, s: State, t: State)
    requires WellPinned(w) && PendingAskable(w, requests, s) && Consistent(w, s) && Step(w, s, t)
    ensures Less(w, requests, t, s)
  {
    if MainStep(s, t) {
      LessWork(w, requests, s, t);
    } else {
      var i :| 0 <= i < |s.tasks| && TaskStep(w, s, t, i);
      TaskStepDecreases(w, requests, s, t, i);
    }
  }

  ghost predicate KeepsStepping(w: World, run: nat -> State) {
    forall k: nat :: Step(w, run(k), run(k + 1))
  }

  lemma {:induction false} Descend(w: World, requests: set<Request>, run: nat -> State, k: nat)
    requires WellPinned(w) && KeepsStepping(w, run)
    requires PendingAskable(w, requests, run(k)) && Consistent(w, run(k))
    ensures false
    decreases RoomOf(w, requests, run(k)).names, RoomOf(w, requests, run(k)).unresolved, RoomOf(w, requests, run(k)).unrecorded,
              Total(run(k).tasks).spawning, Total(run(k).tasks).awaiting, Total(run(k).tasks).pushing,
              Total(run(k).tasks).requests, Total(run(k).tasks).alive, MainRank(run(k))
  {
    assert Step(w, run(k), run(k + 1));
    StepDecreases(w, requests, run(k), run(k + 1));
    PendingStep(w, requests, run(k), run(k + 1));
    ConsistentStep(w, run(k), run(k + 1));
    Descend(w, requests, run, k + 1);
  }

  /** No schedule of any collection goes on for ever. */
  lemma EveryScheduleEnds(w: World, requests: set<Request>, run: nat -> State)
    requires WellPinned(w) && run(0) == Start(requests)
    ensures exists k: nat :: !Step(w, run(k), run(k + 1))
  {
    if KeepsStepping(w, run) {
      StartConsistent(w, requests);
      assert PendingAskable(w, requests, run(0));
      Descend(w, requests, run, 0);
    }
  }
}
