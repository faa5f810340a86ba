/** What every interleaving of the collector keeps, and what that gives when it returns. */
module CollectorSafety {
  import opened Wrappers
  import opened Sets
  import opened Collector

  // ---- quiescence: the handle queue ---------------------------------------------------

  /** A live task's handle is queued or being awaited; out of the loop, nothing is alive. */
  ghost predicate HandlesTracked(s: State) {
    && |s.tasks| > 0
    && (forall k :: 0 <= k < |s.queue| ==> 0 < s.queue[k] < |s.tasks|)
    && (forall i :: 0 < i < |s.tasks| && !s.tasks[i].Done? ==> i in s.queue || s.main == Awaiting(i))
    && (s.main != Popping ==> s.tasks[0].Done?)
    && (s.main.Awaiting? ==> s.main.task < |s.tasks|)
    && (s.main.Exited? || s.main.Returned? ==> AllDone(s))
  }

  ghost predicate AllDone(s: State) {
    forall i :: 0 <= i < |s.tasks| ==> s.tasks[i].Done?
  }

  /** A task that is about to step keeps its slot; every other task and the handles stay as they are. */
  ghost predicate OnlyTask(s: State, t: State, i: nat) {
    && i < |s.tasks| <= |t.tasks| && t.main == s.main
    && (forall j :: 0 <= j < |s.tasks| && j != i ==> t.tasks[j] == s.tasks[j])
  }

  lemma TaskStepOnly(w: World, s: State, t: State, i: nat)
    requires i < |s.tasks| && TaskStep(w, s, t, i)
    ensures OnlyTask(s, t, i) && !s.tasks[i].Done?
    ensures !s.tasks[i].Spawning? ==> |t.tasks| == |s.tasks| && t.queue == s.queue
  {
  }

  lemma TrackedStep(w: World, s: State, t: State)
    requires HandlesTracked(s) && Step(w, s, t)
    ensures HandlesTracked(t)
  {
    if MainStep(s, t) {
      TrackedMainStep(s, t);
    } else {
      var i :| 0 <= i < |s.tasks| && TaskStep(w, s, t, i);
      if s.tasks[i].Spawning? {
        TrackedSpawn(s, i);
      } else {
        TaskStepOnly(w, s, t, i);
        assert !AllDone(s);
      }
    }
  }

  lemma TrackedSpawn(s: State, i: nat)
    requires HandlesTracked(s) && i < |s.tasks| && s.tasks[i].Spawning?
    ensures HandlesTracked(Spawn(s, i))
  {
    var t, added := Spawn(s, i), |s.tasks|;
    assert !AllDone(s);
    assert t.queue == s.queue + [added] && added in t.queue;
    forall j | 0 < j < |t.tasks| && !t.tasks[j].Done? ensures j in t.queue || t.main == Awaiting(j) {
      if j < added {
        assert !s.tasks[j].Done?;
      }
    }
  }

  lemma TrackedMainStep(s: State, t: State)
    requires HandlesTracked(s) && MainStep(s, t)
    ensures HandlesTracked(t)
  {
  }

  // ---- a name is resolved once and listed once ------------------------------------------

  /** The name a task is resolving, or has resolved and not listed yet. */
  function Owner(t: Task): Option<string> {
    match t
    case Awaits(job) => JobOwner(job)
    case Spawning(job, _) => JobOwner(job)
    case Pushing(req, _, _, _) => Some(req.name)
    case _ => None
  }

  function JobOwner(job: Job): Option<string> {
    if job.Resolution? then Some(job.req.name) else None
  }

  predicate ResolvedAs(s: State, n: string, version: string, source: string) {
    n in s.states && s.states[n].resolved == Some((version, source))
  }

  /** What a task's own record says agrees with the shared one. */
  predicate JobAgrees(s: State, job: Job) {
    match job
    case Resolution(req) => req.name in s.states && s.states[req.name].resolved.None?
    case Expansion(n, source, version, _, _) => ResolvedAs(s, n, version, source)
  }

  ghost predicate TaskAgrees(w: World, s: State, t: Task) {
    match t
    case Awaits(job) => JobAgrees(s, job)
    case Spawning(job, _) => JobAgrees(s, job)
    case Pushing(req, version, content, _) =>
      ResolvedAs(s, req.name, version, req.source) && w.content(req.source, version) == Ok(content) && req.name !in Listed(s)
    case _ => true
  }

  ghost predicate Consistent(w: World, s: State) {
    && (forall i :: 0 <= i < |s.tasks| ==> TaskAgrees(w, s, s.tasks[i]))
    && (forall i, j :: 0 <= i < j < |s.tasks| && Owner(s.tasks[i]).Some? ==> Owner(s.tasks[i]) != Owner(s.tasks[j]))
    && (forall k :: 0 <= k < |s.deps| ==> ResolvedAs(s, s.deps[k].name, s.deps[k].version, s.deps[k].source))
    && (forall k, l :: 0 <= k < l < |s.deps| ==> s.deps[k].name != s.deps[l].name)
  }

  lemma StartConsistent(w: World, requests: set<Request>)
    ensures Consistent(w, Start(requests))
  {
  }

  /** Names stay, entries only grow, a resolved release never changes. */
  ghost predicate Grows(s: State, t: State) {
    forall n :: n in s.states ==>
      && n in t.states
      && s.states[n].entries <= t.states[n].entries
      && (s.states[n].resolved.Some? ==> t.states[n].resolved == s.states[n].resolved)
  }

  lemma StepGrows(w: World, s: State, t: State)
    requires Consistent(w, s) && Step(w, s, t)
    ensures Grows(s, t) && |s.states| <= |t.states|
  {
    if !MainStep(s, t) {
      var i :| 0 <= i < |s.tasks| && TaskStep(w, s, t, i);
      TaskStepGrows(w, s, t, i);
    }
    SubsetSize(s.states.Keys, t.states.Keys);
  }

  lemma TaskStepGrows(w: World, s: State, t: State, i: nat)
    requires i < |s.tasks| && TaskAgrees(w, s, s.tasks[i]) && TaskStep(w, s, t, i)
    ensures Grows(s, t)
  {
  }

  /** One task changes; the others and the list do not. */
  ghost predicate Moves(s: State, t: State, i: nat) {
    && i < |s.tasks| && t.deps == s.deps && |t.tasks| == |s.tasks|
    && (forall j :: 0 <= j < |s.tasks| && j != i ==> t.tasks[j] == s.tasks[j])
  }

  /** Such a step keeps consistency when the other tasks' names are left alone and the mover owns no other's name. */
  lemma ConsistentMove(w: World, s: State, t: State, i: nat)
    requires Consistent(w, s) && Moves(s, t, i) && Grows(s, t)
    requires TaskAgrees(w, t, t.tasks[i])
    requires forall j :: 0 <= j < |s.tasks| && j != i && Owner(s.tasks[j]).Some? ==>
               var n := Owner(s.tasks[j]).value;
               n in s.states ==> n in t.states && t.states[n].resolved == s.states[n].resolved
    requires forall j :: 0 <= j < |s.tasks| && j != i && Owner(t.tasks[i]).Some? ==> Owner(s.tasks[j]) != Owner(t.tasks[i])
    ensures Consistent(w, t)
  {
  }

  lemma ConsistentAdd(w: World, s: State, i: nat, r: Request)
    requires Consistent(w, s) && i < |s.tasks| && s.tasks[i].Adding?
    ensures Consistent(w, AddRequest(w, s, i, r))
  {
    var t := AddRequest(w, s, i, r);
    forall j | 0 <= j < |s.tasks| && j != i && Owner(t.tasks[i]).Some? ensures Owner(s.tasks[j]) != Owner(t.tasks[i]) {
      assert TaskAgrees(w, s, s.tasks[j]);
    }
    ConsistentMove(w, s, t, i);
  }

  lemma ConsistentSpawn(w: World, s: State, i: nat)
    requires Consistent(w, s) && i < |s.tasks| && s.tasks[i].Spawning?
    ensures Consistent(w, Spawn(s, i))
  {
  }

  lemma ConsistentResolve(w: World, s: State, i: nat, req: Request)
    requires Consistent(w, s) && i < |s.tasks| && s.tasks[i] == Awaits(Resolution(req))
    ensures Consistent(w, FinishResolve(w, s, i, req))
  {
    assert TaskAgrees(w, s, s.tasks[i]);
    assert Owner(s.tasks[i]) == Some(req.name);
    ConsistentMove(w, s, FinishResolve(w, s, i, req), i);
  }

  lemma ConsistentPush(w: World, s: State, i: nat)
    requires Consistent(w, s) && i < |s.tasks| && s.tasks[i].Pushing?
    ensures Consistent(w, PushDependency(w, s, i))
  {
  }

  lemma ListedOneMore(s: State, t: State)
    requires |t.deps| == |s.deps| + 1 && t.deps[..|s.deps|] == s.deps
    ensures Listed(t) == Listed(s) + {t.deps[|s.deps|].name}
  {
  }

  lemma ConsistentStep(w: World, s: State, t: State)
    requires Consistent(w, s) && Step(w, s, t)
    ensures Consistent(w, t)
  {
    if MainStep(s, t) {
      ConsistentFrame(w, s, t);
    } else {
      var i :| 0 <= i < |s.tasks| && TaskStep(w, s, t, i);
      ConsistentTaskStep(w, s, t, i);
    }
  }

  lemma ConsistentFrame(w: World, s: State, t: State)
    requires Consistent(w, s) && t.tasks == s.tasks && t.states == s.states && t.deps == s.deps
    ensures Consistent(w, t)
  {
  }

  lemma ConsistentTaskStep(w: World, s: State, t: State, i: nat)
    requires Consistent(w, s) && i < |s.tasks| && TaskStep(w, s, t, i)
    ensures Consistent(w, t)
  {
    match s.tasks[i] {
      case Adding(reqs) =>
        if reqs == {} {
          ConsistentMove(w, s, t, i);
        } else {
          var r :| r in reqs && t == AddRequest(w, s, i, r);
          ConsistentAdd(w, s, i, r);
        }
      case Spawning(_, _) => ConsistentSpawn(w, s, i);
      case Awaits(job) =>
        if job.Resolution? { ConsistentResolve(w, s, i, job.req); } else { ConsistentMove(w, s, t, i); }
      case Pushing(_, _, _, _) => ConsistentPush(w, s, i);
      case Failing(_) => ConsistentMove(w, s, t, i);
    }
  }
}
