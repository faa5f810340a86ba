/**
 * Module evaluation with cycle detection: packages/sandpack-bundler/src/bundler/module/Module.ts
 * (`evaluate`), Evaluation.ts (`require`) and circularImport.ts (`detectCycle`).
 */
module Evaluations {
  import opened Wrappers
  import opened Sets

  /** What running a module's code does, in order: require a specifier, or throw. */
  datatype Action = Require(specifier: string) | Throw(message: string)

  /** A compiled module: its code, and the file each collected specifier resolved to. */
  datatype Code = Code(actions: seq<Action>, dependencyMap: map<string, string>)

  type Graph = map<string, Code>

  datatype EvalError =
    | CircularImport(cycle: seq<string>)
    | NotCollected(specifier: string, from: string)
    | Unavailable(path: string, from: string)
    | Thrown(message: string, from: string)

  /** The specifier served from the evaluation scope itself, never from a module. */
  const SWC_HELPERS := "@swc/helpers"

  // ---- the require graph ---------------------------------------------------------------

  function Target(code: Code, action: Action): Option<string> {
    match action
    case Throw(_) => None
    case Require(specifier) =>
      if specifier == SWC_HELPERS || specifier !in code.dependencyMap || code.dependencyMap[specifier] == "" then None
      else Some(code.dependencyMap[specifier])
  }

  /** The modules `id` requires. */
  ghost predicate Edge(graph: Graph, id: string, dep: string) {
    id in graph && exists action :: action in graph[id].actions && Target(graph[id], action) == Some(dep)
  }

  /** An action that cannot fail by itself: every specifier is collected and its module loaded. */
  predicate SoundAction(graph: Graph, code: Code, action: Action) {
    match action
    case Throw(_) => false
    case Require(specifier) =>
      specifier == SWC_HELPERS || (Target(code, action).Some? && Target(code, action).value in graph)
  }

  predicate Sound(graph: Graph, id: string) {
    id in graph && forall action :: action in graph[id].actions ==> SoundAction(graph, graph[id], action)
  }

  /** A walk along require edges. */
  ghost predicate Walk(graph: Graph, path: seq<string>) {
    |path| > 0 && forall k :: 0 <= k < |path| - 1 ==> Edge(graph, path[k], path[k + 1])
  }

  ghost predicate Reachable(graph: Graph, from: string, to: string) {
    exists path :: Walk(graph, path) && path[0] == from && path[|path| - 1] == to
  }

  /** A require cycle: consecutive edges, and one from the last module back to the first. */
  ghost predicate Cycle(graph: Graph, cycle: seq<string>) {
    Walk(graph, cycle) && Edge(graph, cycle[|cycle| - 1], cycle[0])
  }

  /** Whether nothing reachable from `id` is faulty or lies on a cycle. */
  ghost predicate Evaluable(graph: Graph, id: string) {
    && (forall m :: Reachable(graph, id, m) ==> Sound(graph, m))
    && (forall cycle :: Cycle(graph, cycle) ==> !Reachable(graph, id, cycle[0]))
  }

  /** What an error says is true of the graph, and lies within reach of `root`. */
  ghost predicate Genuine(graph: Graph, root: string, error: EvalError) {
    match error
    case CircularImport(cycle) => Cycle(graph, cycle) && Reachable(graph, root, cycle[0])
    case NotCollected(specifier, from) =>
      Reachable(graph, root, from) && from in graph && Require(specifier) in graph[from].actions
      && specifier != SWC_HELPERS && Target(graph[from], Require(specifier)).None?
    case Unavailable(path, from) => Reachable(graph, root, from) && Edge(graph, from, path) && path !in graph
    case Thrown(message, from) => Reachable(graph, root, from) && from in graph && Throw(message) in graph[from].actions
  }

  lemma GenuineMeansNotEvaluable(graph: Graph, root: string, error: EvalError)
    requires Genuine(graph, root, error)
    ensures !Evaluable(graph, root)
  {
  }

  // ---- completion orders -----------------------------------------------------------------

  /** Every module completes once, is sound, and completes after everything it requires. */
  ghost predicate DependenciesFirst(graph: Graph, order: seq<string>) {
    && (forall i, j :: 0 <= i < j < |order| ==> order[i] != order[j])
    && (forall i :: 0 <= i < |order| ==> Sound(graph, order[i]))
    && (forall i, dep :: 0 <= i < |order| && Edge(graph, order[i], dep) ==> dep in order[..i])
  }

  /** What a completed module reaches has completed, no later than it. */
  lemma {:induction false} CompletedReach(graph: Graph, order: seq<string>, path: seq<string>, i: nat)
    requires DependenciesFirst(graph, order) && Walk(graph, path) && i < |order| && order[i] == path[0]
    ensures path[|path| - 1] in order[..i + 1]
    ensures |path| > 1 ==> path[|path| - 1] in order[..i]
    decreases |path|
  {
    if |path| > 1 {
      assert Edge(graph, path[0], path[1]);
      var j :| 0 <= j < i && order[j] == path[1];
      CompletedReach(graph, order, path[1..], j);
      assert path[1..][|path| - 2] == path[|path| - 1];
    }
  }

  /** A dependency-first order leaves no cycle and no fault within reach. */
  lemma CompletedIsEvaluable(graph: Graph, order: seq<string>, id: string)
    requires DependenciesFirst(graph, order) && id in order
    ensures Evaluable(graph, id)
  {
    var i :| 0 <= i < |order| && order[i] == id;
    forall m | Reachable(graph, id, m) ensures m in order {
      var path :| Walk(graph, path) && path[0] == id && path[|path| - 1] == m;
      CompletedReach(graph, order, path, i);
    }
    forall cycle | Cycle(graph, cycle) ensures !Reachable(graph, id, cycle[0]) {
      if Reachable(graph, id, cycle[0]) {
        CycleNotCompleted(graph, order, cycle);
      }
    }
  }

  lemma CycleNotCompleted(graph: Graph, order: seq<string>, cycle: seq<string>)
    requires DependenciesFirst(graph, order) && Cycle(graph, cycle)
    ensures cycle[0] !in order
  {
    var round := cycle + [cycle[0]];
    forall j | 0 <= j < |round| - 1 ensures Edge(graph, round[j], round[j + 1]) {
      if j < |cycle| - 1 { assert Edge(graph, cycle[j], cycle[j + 1]); }
    }
    forall k | 0 <= k < |order| ensures order[k] != cycle[0] {
      if order[k] == cycle[0] {
        CompletedReach(graph, order, round, k);
      }
    }
  }

  // ---- detectCycle -------------------------------------------------------------------------

  function IndexOf(stack: seq<string>, path: string): Option<nat> {
    if |stack| == 0 then None
    else if stack[0] == path then Some(0)
    else match IndexOf(stack[1..], path) case None => None case Some(i) => Some(i + 1)
  }

  lemma IndexOfFinds(stack: seq<string>, path: string)
    ensures IndexOf(stack, path).None? <==> path !in stack
    ensures IndexOf(stack, path).Some? ==> IndexOf(stack, path).value < |stack| && stack[IndexOf(stack, path).value] == path
  {
  }

  /** The slice of the stack from the re-entered module on. */
  function DetectCycle(stack: seq<string>, path: string): Option<seq<string>> {
    match IndexOf(stack, path)
    case None => None
    case Some(start) => IndexOfFinds(stack, path); Some(stack[start..])
  }

  // ---- evaluation as a function ---------------------------------------------------------------

  /** How an evaluation ends, and the completed modules in the order they completed. */
  datatype Outcome = Outcome(result: Result<(), EvalError>, order: seq<string>)

  /** Evaluating `id` on top of the running modules `stack`, when those in `order` have completed. */
  ghost function EvalOf(graph: Graph, stack: seq<string>, order: seq<string>, id: string): Outcome
    requires id in graph
    decreases Idle(graph, stack), 0, 0
  {
    if id in order then Outcome(Ok(()), order)
    else
      match DetectCycle(stack, id)
      case Some(cycle) => Outcome(Err(CircularImport(cycle)), order)
      case None =>
        IndexOfFinds(stack, id);
        FewerIdle(graph, stack, id);
        var ran := ActionsFrom(graph, stack + [id], order, id, 0);
        if ran.result.Ok? then ran.(order := ran.order + [id]) else ran
  }

  /** The actions of `id` from the `i`-th on, from first to last. */
  ghost function ActionsFrom(graph: Graph, stack: seq<string>, order: seq<string>, id: string, i: nat): Outcome
    requires id in graph && i <= |graph[id].actions|
    decreases Idle(graph, stack), 2, |graph[id].actions| - i
  {
    if i == |graph[id].actions| then Outcome(Ok(()), order)
    else
      var first := ActionOf(graph, stack, order, id, graph[id].actions[i]);
      if first.result.Err? then first else ActionsFrom(graph, stack, first.order, id, i + 1)
  }

  ghost function ActionOf(graph: Graph, stack: seq<string>, order: seq<string>, id: string, action: Action): Outcome
    requires id in graph
    decreases Idle(graph, stack), 1, 0
  {
    match action
    case Throw(message) => Outcome(Err(Thrown(message, id)), order)
    case Require(specifier) =>
      var dependencyMap := graph[id].dependencyMap;
      if specifier == SWC_HELPERS then Outcome(Ok(()), order)
      else if specifier !in dependencyMap || dependencyMap[specifier] == "" then
        Outcome(Err(NotCollected(specifier, id)), order)
      else if dependencyMap[specifier] !in graph then Outcome(Err(Unavailable(dependencyMap[specifier], id)), order)
      else EvalOf(graph, stack, order, dependencyMap[specifier])
  }

  /** A module that is neither completed nor running runs, and completes when its code does. */
  lemma FreshRuns(graph: Graph, stack: seq<string>, order: seq<string>, id: string) returns (ran: Outcome)
    requires id in graph && id !in order && id !in stack
    ensures ran == ActionsFrom(graph, stack + [id], order, id, 0)
    ensures EvalOf(graph, stack, order, id) == if ran.result.Ok? then ran.(order := ran.order + [id]) else ran
  {
    IndexOfFinds(stack, id);
    ran := ActionsFrom(graph, stack + [id], order, id, 0);
  }

  // ---- evaluation ----------------------------------------------------------------------------

  /** The stack is a walk through running modules, and what completed did so dependencies first. */
  ghost predicate Coherent(graph: Graph, stack: seq<string>, evaluated: set<string>, order: seq<string>) {
    && (stack != [] ==> Walk(graph, stack))
    && (forall i, j :: 0 <= i < j < |stack| ==> stack[i] != stack[j])
    && (forall m :: m in stack ==> m in graph && m !in evaluated)
    && DependenciesFirst(graph, order)
    && (forall m :: m in evaluated <==> m in order)
  }

  /**
   * What running the code of `id` did: on success everything it requires has completed, and what ran is
   * `id` and the new completions, once each; on failure the error is genuine within reach of `root`.
   */
  ghost predicate Ran(graph: Graph, root: string, id: string, result: Result<(), EvalError>,
                      before: seq<string>, order: seq<string>, runsBefore: multiset<string>, runs: multiset<string>)
  {
    && before <= order
    && match result
       case Ok(_) =>
         && Sound(graph, id) && (forall dep :: Edge(graph, id, dep) ==> dep in order)
         && runs == runsBefore + multiset{id} + multiset(order[|before|..])
       case Err(error) => Genuine(graph, root, error)
  }

  class Bundler {
    const modules: Graph
    /** `evaluationStack`: the modules whose code is running, outermost first. */
    var evaluationStack: seq<string>
    /** The modules whose `evaluation` is set. */
    var evaluated: set<string>
    /** Those modules in the order they completed, and every run of a module's code. */
    ghost var order: seq<string>
    ghost var runs: multiset<string>

    constructor (modules: Graph)
      ensures this.modules == modules && Valid() && evaluationStack == [] && evaluated == {} && runs == multiset{}
    {
      this.modules := modules;
      evaluationStack, evaluated, order, runs := [], {}, [], multiset{};
    }

    ghost predicate Valid()
      reads this
    {
      Coherent(modules, evaluationStack, evaluated, order)
    }

    /** The module a failing evaluation can be blamed within reach of: the outermost one running. */
    function Root(id: string): string
      reads this
    {
      if evaluationStack == [] then id else evaluationStack[0]
    }

    /**
     * `evaluate`: the stack is restored, completed modules stay completed, and every run code
     * belongs to exactly one new completion when nothing fails. From an idle bundler it succeeds
     * exactly when nothing within reach is faulty or cyclic; an error says what is.
     */
    method Evaluate(id: string) returns (result: Result<(), EvalError>)
      requires Valid() && id in modules
      requires evaluationStack != [] ==> Edge(modules, evaluationStack[|evaluationStack| - 1], id)
      modifies this
      ensures Valid() && evaluationStack == old(evaluationStack)
      ensures old(order) <= order && old(evaluated) <= evaluated
      ensures result.Ok? ==> id in evaluated && Evaluable(modules, id)
      ensures result.Ok? ==> runs == old(runs) + multiset(order[|old(order)|..])
      ensures result.Err? ==> Genuine(modules, old(Root(id)), result.error)
      ensures old(evaluationStack) == [] ==> (result.Ok? <==> Evaluable(modules, id))
      ensures Outcome(result, order) == old(EvalOf(modules, evaluationStack, order, id))
      decreases Idle(modules, evaluationStack), 1
    {
      if id in evaluated {
        CompletedIsEvaluable(modules, order, id);
        assert order[|order|..] == [];
        return Ok(());
      }
      IndexOfFinds(evaluationStack, id);
      match DetectCycle(evaluationStack, id) {
        case Some(cycle) =>
          StackCycle(modules, evaluationStack, id, cycle);
          result := Err(CircularImport(cycle));
        case None =>
          result := EvaluateFresh(id);
      }
      if result.Err? && old(evaluationStack) == [] {
        GenuineMeansNotEvaluable(modules, id, result.error);
      }
    }

    /** The rest of `evaluate`: push, run the code, pop whatever happened, and record a success. */
    method EvaluateFresh(id: string) returns (result: Result<(), EvalError>)
      requires Valid() && id in modules && id !in evaluated && id !in evaluationStack
      requires evaluationStack != [] ==> Edge(modules, evaluationStack[|evaluationStack| - 1], id)
      modifies this
      ensures Valid() && evaluationStack == old(evaluationStack)
      ensures old(order) <= order && old(evaluated) <= evaluated
      ensures result.Ok? ==> id in evaluated && Evaluable(modules, id)
      ensures result.Ok? ==> runs == old(runs) + multiset(order[|old(order)|..])
      ensures result.Err? ==> Genuine(modules, old(Root(id)), result.error)
      ensures Outcome(result, order) == old(EvalOf(modules, evaluationStack, order, id))
      decreases Idle(modules, evaluationStack), 0
    {
      ghost var whole := EvalOf(modules, evaluationStack, order, id);
      ghost var ran := FreshRuns(modules, evaluationStack, order, id);
      result := RunOnStack(id);
      assert ran == Outcome(result, order);
      if result.Ok? {
        Completed(modules, evaluationStack, evaluated, order, id);
        RunsCounted(old(runs), runs, order, |old(order)|, id);
        Complete(id);
      }
      assert whole == Outcome(result, order);
    }

    /** The `try … finally` around `new Evaluation`: push, run, pop whatever happened. */
    method RunOnStack(id: string) returns (result: Result<(), EvalError>)
      requires Valid() && id in modules && id !in evaluated && id !in evaluationStack
      requires evaluationStack != [] ==> Edge(modules, evaluationStack[|evaluationStack| - 1], id)
      modifies this
      ensures Valid() && evaluationStack == old(evaluationStack) && id !in evaluated
      ensures old(evaluated) <= evaluated
      ensures Ran(modules, old(Root(id)), id, result, old(order), order, old(runs), runs)
      ensures Outcome(result, order) == old(ActionsFrom(modules, evaluationStack + [id], order, id, 0))
      decreases Idle(modules, evaluationStack), 0, 0
    {
      ghost var outer := Push(id);
      result := RunCode(id);
      Pop(outer, id);
    }

    method Push(id: string) returns (ghost outer: seq<string>)
      requires Valid() && id in modules && id !in evaluated && id !in evaluationStack
      requires evaluationStack != [] ==> Edge(modules, evaluationStack[|evaluationStack| - 1], id)
      modifies `evaluationStack
      ensures Valid() && outer == old(evaluationStack) && evaluationStack == outer + [id]
      ensures evaluationStack[0] == old(Root(id)) && Idle(modules, evaluationStack) < Idle(modules, outer)
    {
      outer := evaluationStack;
      Pushed(modules, outer, evaluated, order, id);
      evaluationStack := evaluationStack + [id];
    }

    method Pop(ghost outer: seq<string>, ghost id: string)
      requires Valid() && evaluationStack == outer + [id]
      modifies `evaluationStack
      ensures Valid() && evaluationStack == outer && id !in evaluated && id !in outer
    {
      Popped(modules, outer, evaluated, order, id);
      evaluationStack := evaluationStack[..|evaluationStack| - 1];
    }

    /** `this.evaluation = …`. */
    method Complete(id: string)
      modifies `evaluated, `order
      ensures evaluated == old(evaluated) + {id} && order == old(order) + [id]
    {
      evaluated := evaluated + {id};
      order := order + [id];
    }

    /** `new Evaluation(module)`: run the code of the module on top of the stack. */
    method RunCode(id: string) returns (result: Result<(), EvalError>)
      requires Valid() && evaluationStack != [] && evaluationStack[|evaluationStack| - 1] == id
      modifies this
      ensures Valid() && evaluationStack == old(evaluationStack)
      ensures old(evaluated) <= evaluated && id !in evaluated
      ensures Ran(modules, evaluationStack[0], id, result, old(order), order, old(runs), runs)
      ensures Outcome(result, order) == old(ActionsFrom(modules, evaluationStack, order, id, 0))
      decreases Idle(modules, evaluationStack), 2
    {
      assert id in evaluationStack && id in modules;
      var code := modules[id];
      runs := runs + multiset{id};
      assert Reachable(modules, evaluationStack[0], id);
      assert order[|order|..] == [];
      var i := 0;
      while i < |code.actions|
        invariant 0 <= i <= |code.actions|
        invariant Valid() && evaluationStack == old(evaluationStack)
        invariant old(order) <= order && old(evaluated) <= evaluated
        invariant ActionsDone(modules, code, i, order)
        invariant runs == old(runs) + multiset{id} + multiset(order[|old(order)|..])
        invariant ActionsFrom(modules, evaluationStack, order, id, i) == old(ActionsFrom(modules, evaluationStack, order, id, 0))
      {
        if code.actions[i].Throw? {
          return Err(Thrown(code.actions[i].message, id));
        }
        ghost var sofar := order;
        result := RequireSpecifier(id, code.actions[i].specifier);
        if result.Err? {
          return;
        }
        RunsAdd(old(order), sofar, order);
        ActionDone(modules, code, i, sofar, order);
        i := i + 1;
      }
      AllActionsDone(modules, id, order);
      assert id !in evaluated by {
        assert id in evaluationStack;
      }
      result := Ok(());
    }

    /** `require`: resolve a specifier against the collected dependencies and evaluate its module. */
    method RequireSpecifier(id: string, specifier: string) returns (result: Result<(), EvalError>)
      requires Valid() && evaluationStack != [] && evaluationStack[|evaluationStack| - 1] == id && id in modules
      requires Require(specifier) in modules[id].actions && Reachable(modules, evaluationStack[0], id)
      modifies this
      ensures Valid() && evaluationStack == old(evaluationStack)
      ensures old(order) <= order && old(evaluated) <= evaluated
      ensures result.Ok? ==> SoundAction(modules, modules[id], Require(specifier))
      ensures result.Ok? ==> var t := Target(modules[id], Require(specifier)); t.Some? ==> t.value in order
      ensures result.Ok? ==> runs == old(runs) + multiset(order[|old(order)|..])
      ensures result.Err? ==> Genuine(modules, evaluationStack[0], result.error)
      ensures Outcome(result, order) == old(ActionOf(modules, evaluationStack, order, id, Require(specifier)))
      decreases Idle(modules, evaluationStack), 2, 0
    {
      assert order[|order|..] == [];
      if specifier == SWC_HELPERS {
        return Ok(());
      }
      var dependencyMap := modules[id].dependencyMap;
      if specifier !in dependencyMap || dependencyMap[specifier] == "" {
        return Err(NotCollected(specifier, id));
      }
      var path := dependencyMap[specifier];
      assert Target(modules[id], Require(specifier)) == Some(path);
      assert Edge(modules, id, path);
      if path !in modules {
        return Err(Unavailable(path, id));
      }
      result := Evaluate(path);
    }
  }

  lemma Pushed(graph: Graph, stack: seq<string>, evaluated: set<string>, order: seq<string>, id: string)
    requires Coherent(graph, stack, evaluated, order) && id in graph && id !in evaluated && id !in stack
    requires stack != [] ==> Edge(graph, stack[|stack| - 1], id)
    ensures Coherent(graph, stack + [id], evaluated, order)
    ensures (stack + [id])[0] == if stack == [] then id else stack[0]
    ensures Idle(graph, stack + [id]) < Idle(graph, stack)
  {
    FewerIdle(graph, stack, id);
  }

  lemma Popped(graph: Graph, stack: seq<string>, evaluated: set<string>, order: seq<string>, id: string)
    requires Coherent(graph, stack + [id], evaluated, order)
    ensures Coherent(graph, stack, evaluated, order) && id !in stack && id !in evaluated
  {
    var whole := stack + [id];
    assert whole[|stack|] == id;
    assert forall i :: 0 <= i < |stack| ==> whole[i] == stack[i];
    if stack != [] {
      forall k | 0 <= k < |stack| - 1 ensures Edge(graph, stack[k], stack[k + 1]) {
        assert Edge(graph, whole[k], whole[k + 1]);
      }
    }
    forall m | m in stack ensures m in whole {
    }
    assert id in whole;
  }

  lemma Completed(graph: Graph, stack: seq<string>, evaluated: set<string>, order: seq<string>, id: string)
    requires Coherent(graph, stack, evaluated, order) && id !in stack && id !in evaluated
    requires Sound(graph, id) && forall dep :: Edge(graph, id, dep) ==> dep in order
    ensures Coherent(graph, stack, evaluated + {id}, order + [id])
    ensures Evaluable(graph, id)
  {
    CompleteOne(graph, order, id);
    CompletedIsEvaluable(graph, order + [id], id);
  }

  lemma RunsCounted(before: multiset<string>, runs: multiset<string>, order: seq<string>, n: nat, id: string)
    requires n <= |order| && runs == before + multiset{id} + multiset(order[n..])
    ensures runs == before + multiset((order + [id])[n..])
  {
    assert (order + [id])[n..] == order[n..] + [id];
  }

  lemma RunsAdd(a: seq<string>, b: seq<string>, c: seq<string>)
    requires a <= b <= c
    ensures multiset(c[|a|..]) == multiset(b[|a|..]) + multiset(c[|b|..])
  {
    assert c[|a|..] == b[|a|..] + c[|b|..];
  }

  /** The first `n` actions ran without failing, and what they required has completed. */
  ghost predicate ActionsDone(graph: Graph, code: Code, n: nat, order: seq<string>)
    requires n <= |code.actions|
  {
    forall k :: 0 <= k < n ==>
      SoundAction(graph, code, code.actions[k])
      && (Target(code, code.actions[k]).Some? ==> Target(code, code.actions[k]).value in order)
  }

  lemma ActionDone(graph: Graph, code: Code, n: nat, before: seq<string>, after: seq<string>)
    requires n < |code.actions| && ActionsDone(graph, code, n, before) && before <= after
    requires SoundAction(graph, code, code.actions[n])
    requires var t := Target(code, code.actions[n]); t.Some? ==> t.value in after
    ensures ActionsDone(graph, code, n + 1, after)
  {
  }

  lemma AllActionsDone(graph: Graph, id: string, order: seq<string>)
    requires id in graph && ActionsDone(graph, graph[id], |graph[id].actions|, order)
    ensures Sound(graph, id) && forall dep :: Edge(graph, id, dep) ==> dep in order
  {
  }

  /** How many modules are not running. */
  ghost function Idle(graph: Graph, stack: seq<string>): nat {
    |graph.Keys - set m | m in stack|
  }

  lemma FewerIdle(graph: Graph, stack: seq<string>, id: string)
    requires id in graph && id !in stack
    ensures Idle(graph, stack + [id]) < Idle(graph, stack)
  {
    FewerLeft(graph.Keys, (set m | m in stack), id);
    assert (set m | m in stack + [id]) == (set m | m in stack) + {id};
  }

  /** The slice `detectCycle` returns is a genuine require cycle, reachable from the bottom of the stack. */
  lemma StackCycle(graph: Graph, stack: seq<string>, id: string, cycle: seq<string>)
    requires stack != [] && Walk(graph, stack) && Edge(graph, stack[|stack| - 1], id)
    requires DetectCycle(stack, id) == Some(cycle)
    ensures Cycle(graph, cycle) && cycle[0] == id && Reachable(graph, stack[0], id)
  {
    IndexOfFinds(stack, id);
    var start := IndexOf(stack, id).value;
    assert cycle == stack[start..];
    forall k | 0 <= k < |cycle| - 1 ensures Edge(graph, cycle[k], cycle[k + 1]) {
      assert Edge(graph, stack[start + k], stack[start + k + 1]);
    }
    var path := stack[..start + 1];
    assert Walk(graph, path) && path[0] == stack[0] && path[|path| - 1] == id;
  }

  lemma CompleteOne(graph: Graph, order: seq<string>, id: string)
    requires DependenciesFirst(graph, order) && id !in order && Sound(graph, id)
    requires forall dep :: Edge(graph, id, dep) ==> dep in order
    ensures DependenciesFirst(graph, order + [id])
  {
    var after := order + [id];
    forall i, dep | 0 <= i < |after| && Edge(graph, after[i], dep) ensures dep in after[..i] {
      if i < |order| {
        assert after[..i] == order[..i];
      } else {
        assert after[..i] == order;
      }
    }
  }
}
