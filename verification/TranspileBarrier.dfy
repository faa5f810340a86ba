/**
 * The wait for a module and everything it depends on to be compiled: `moduleFinishedPromise` in
 * packages/sandpack-bundler/src/bundler/bundler.ts, on a module map that no longer changes.
 */
module TranspileBarrier {
  import opened Wrappers
  import opened Sets

  /** A registered module: its compiled code, its compilation error, and its resolved dependencies. */
  datatype Asset = Asset(compiled: Option<string>, compilationError: Option<string>, dependencies: seq<string>)

  datatype Failure = NotInTree(id: string) | CompilationFailed(id: string, error: string) | NotCompiled(id: string)

  type Modules = map<string, Asset>

  /** What is wrong with a module by itself, if anything. */
  function Fault(modules: Modules, id: string): Option<Failure> {
    if id !in modules then Some(NotInTree(id))
    else if modules[id].compilationError.Some? then Some(CompilationFailed(id, modules[id].compilationError.value))
    else if modules[id].compiled.None? then Some(NotCompiled(id))
    else None
  }

  function DependenciesOf(modules: Modules, id: string): seq<string> {
    if id in modules then modules[id].dependencies else []
  }

  /** A walk along dependencies. */
  ghost predicate Walk(modules: Modules, path: seq<string>) {
    |path| > 0 && forall k :: 0 <= k < |path| - 1 ==> path[k + 1] in DependenciesOf(modules, path[k])
  }

  ghost predicate Reachable(modules: Modules, from: string, to: string) {
    exists path :: Walk(modules, path) && path[0] == from && path[|path| - 1] == to
  }

  /** Every module within reach is present, compiled and free of errors. */
  ghost predicate Ready(modules: Modules, id: string) {
    forall m :: Reachable(modules, id, m) ==> Fault(modules, m).None?
  }

  /** A module is at fault if it is missing, failed to compile, or is not compiled, in this order. */
  lemma ReadyMeans(modules: Modules, id: string)
    ensures Ready(modules, id) <==>
            forall m :: Reachable(modules, id, m) ==> m in modules && modules[m].compilationError.None? && modules[m].compiled.Some?
    ensures id !in modules ==> Fault(modules, id) == Some(NotInTree(id))
    ensures id in modules && modules[id].compilationError.Some? ==>
              Fault(modules, id) == Some(CompilationFailed(id, modules[id].compilationError.value))
    ensures id in modules && modules[id].compilationError.None? && modules[id].compiled.None? ==> Fault(modules, id) == Some(NotCompiled(id))
  {
    if forall m :: Reachable(modules, id, m) ==> m in modules && modules[m].compilationError.None? && modules[m].compiled.Some? {
      forall m | Reachable(modules, id, m) ensures Fault(modules, m).None? {
      }
    }
    forall m | Ready(modules, id) && Reachable(modules, id, m)
      ensures m in modules && modules[m].compilationError.None? && modules[m].compiled.Some?
    {
      assert Fault(modules, m).None?;
    }
  }

  /** Modules that are fine and whose dependencies are all in `within`. */
  ghost predicate Settled(modules: Modules, ids: set<string>, within: set<string>) {
    forall m :: m in ids ==> Fault(modules, m).None? && forall dep :: dep in DependenciesOf(modules, m) ==> dep in within
  }

  lemma {:induction false} SettledWalk(modules: Modules, ids: set<string>, path: seq<string>)
    requires Settled(modules, ids, ids) && Walk(modules, path) && path[0] in ids
    ensures path[|path| - 1] in ids
    decreases |path|
  {
    if |path| > 1 {
      assert path[1] in DependenciesOf(modules, path[0]);
      SettledWalk(modules, ids, path[1..]);
      assert path[1..][|path| - 2] == path[|path| - 1];
    }
  }

  /** A set that is settled within itself covers everything its members reach. */
  lemma SettledIsReady(modules: Modules, ids: set<string>, id: string)
    requires Settled(modules, ids, ids) && id in ids
    ensures Ready(modules, id)
  {
    forall m | Reachable(modules, id, m) ensures Fault(modules, m).None? {
      var path :| Walk(modules, path) && path[0] == id && path[|path| - 1] == m;
      SettledWalk(modules, ids, path);
    }
  }

  lemma ReachSelf(modules: Modules, id: string)
    ensures Reachable(modules, id, id)
  {
    assert Walk(modules, [id]) && [id][0] == id;
  }

  lemma ReachThrough(modules: Modules, id: string, dep: string, m: string)
    requires dep in DependenciesOf(modules, id) && Reachable(modules, dep, m)
    ensures Reachable(modules, id, m)
  {
    var path :| Walk(modules, path) && path[0] == dep && path[|path| - 1] == m;
    var longer := [id] + path;
    assert longer[|longer| - 1] == m;
    forall k | 0 <= k < |longer| - 1 ensures longer[k + 1] in DependenciesOf(modules, longer[k]) {
      if k > 0 { assert path[k] in DependenciesOf(modules, path[k - 1]); }
    }
    assert Walk(modules, longer);
  }

  // ---- the walk as a function ------------------------------------------------------------------

  /** The first failure met from `id` on, if any, and the modules visited by then. */
  ghost function FinishOf(modules: Modules, visited: set<string>, id: string): (r: (Option<Failure>, set<string>))
    ensures visited <= r.1
    decreases |modules.Keys - visited|, 0, 0
  {
    if id in visited then (None, visited)
    else
      match Fault(modules, id)
      case Some(failure) => (Some(failure), visited)
      case None =>
        FewerLeft(modules.Keys, visited, id);
        FinishAll(modules, visited + {id}, modules[id].dependencies)
  }

  /** The same for each of `ids`, from first to last. */
  ghost function FinishAll(modules: Modules, visited: set<string>, ids: seq<string>): (r: (Option<Failure>, set<string>))
    ensures visited <= r.1
    decreases |modules.Keys - visited|, 1, |ids|
  {
    if |ids| == 0 then (None, visited)
    else
      var first := FinishOf(modules, visited, ids[0]);
      if first.0.Some? then first
      else
        SubsetSize(modules.Keys - first.1, modules.Keys - visited);
        FinishAll(modules, first.1, ids[1..])
  }

  /** The first `k` of `ids` finish, and leave `after` visited. */
  ghost predicate Finishes(modules: Modules, visited: set<string>, ids: seq<string>, k: nat, after: set<string>)
    requires k <= |ids|
    decreases k
  {
    if k == 0 then after == visited
    else
      var first := FinishOf(modules, visited, ids[0]);
      first.0.None? && Finishes(modules, first.1, ids[1..], k - 1, after)
  }

  /** What fails is the first dependency that does; those before it have finished. */
  lemma {:induction false} FailsAtFirst(modules: Modules, visited: set<string>, ids: seq<string>) returns (k: nat, after: set<string>)
    requires FinishAll(modules, visited, ids).0.Some?
    ensures k < |ids| && Finishes(modules, visited, ids, k, after)
    ensures FinishOf(modules, after, ids[k]) == FinishAll(modules, visited, ids)
    decreases |ids|
  {
    var first := FinishOf(modules, visited, ids[0]);
    if first.0.Some? {
      k, after := 0, visited;
    } else {
      k, after := FailsAtFirst(modules, first.1, ids[1..]);
      k := k + 1;
    }
  }

  /** The visited set one top-level call shares with all its recursive calls. */
  class Visited {
    var ids: set<string>

    constructor ()
      ensures ids == {}
    {
      ids := {};
    }
  }

  /**
   * The recursion. A module counts as visited before its dependencies are, so a normal return
   * only says that whatever this call visited leads to visited modules; a failure is within reach.
   */
  method Finish(modules: Modules, id: string, visited: Visited) returns (failure: Option<Failure>)
    modifies visited
    ensures old(visited.ids) <= visited.ids
    ensures failure.None? ==> id in visited.ids && Settled(modules, visited.ids - old(visited.ids), visited.ids)
    ensures failure.Some? ==> exists m :: Reachable(modules, id, m) && Fault(modules, m) == failure
    ensures (failure, visited.ids) == old(FinishOf(modules, visited.ids, id))
    decreases |modules.Keys - visited.ids|
  {
    if id in visited.ids {
      return None;
    }
    failure := Fault(modules, id);
    if failure.Some? {
      ReachSelf(modules, id);
      return;
    }
    FewerLeft(modules.Keys, visited.ids, id);
    visited.ids := visited.ids + {id};
    var dependencies := modules[id].dependencies;
    assert dependencies[0..] == dependencies;
    var i := 0;
    while i < |dependencies|
      invariant 0 <= i <= |dependencies| && failure.None?
      invariant old(visited.ids) + {id} <= visited.ids
      invariant Settled(modules, visited.ids - old(visited.ids) - {id}, visited.ids)
      invariant forall k :: 0 <= k < i ==> dependencies[k] in visited.ids
      invariant FinishAll(modules, visited.ids, dependencies[i..]) == old(FinishOf(modules, visited.ids, id))
    {
      assert dependencies[i..][1..] == dependencies[i + 1..];
      if dependencies[i] !in visited.ids {
        SubsetSize(modules.Keys - visited.ids, modules.Keys - (old(visited.ids) + {id}));
        failure := Finish(modules, dependencies[i], visited);
        if failure.Some? {
          ghost var m :| Reachable(modules, dependencies[i], m) && Fault(modules, m) == failure;
          ReachThrough(modules, id, dependencies[i], m);
          return;
        }
      }
      i := i + 1;
    }
  }

  /**
   * `moduleFinishedPromise(id)`: it returns normally exactly when everything within reach of `id`
   * is compiled, although the recursion shares one visited set and the graph may have cycles.
   */
  method ModuleFinished(modules: Modules, id: string) returns (failure: Option<Failure>)
    ensures failure.None? <==> Ready(modules, id)
    ensures failure.Some? ==> exists m :: Reachable(modules, id, m) && Fault(modules, m) == failure
    ensures failure == FinishOf(modules, {}, id).0
  {
    var visited := new Visited();
    failure := Finish(modules, id, visited);
    if failure.None? {
      SettledIsReady(modules, visited.ids, id);
    }
  }
}
