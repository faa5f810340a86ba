/** The order in which modules run: depth first, each module's requires from first to last. */
module EvaluationOrder {
  import opened Wrappers
  import opened Evaluations

  // ---- on success: the depth-first post-order ---------------------------------------------------

  /** The modules that `id` requires, in the order its code does. */
  function Requires(code: Code, actions: seq<Action>): seq<string> {
    if |actions| == 0 then []
    else
      (match Target(code, actions[0]) case Some(dep) => [dep] case None => []) + Requires(code, actions[1..])
  }

  /** `done`, followed by what `id` adds in depth-first post-order; `path` leads to it. */
  ghost function PostOrder(graph: Graph, path: seq<string>, done: seq<string>, id: string): seq<string>
    decreases Idle(graph, path), 1, 0
  {
    if id in done || id in path || id !in graph then done
    else
      FewerIdle(graph, path, id);
      PostOrderAll(graph, path + [id], done, Requires(graph[id], graph[id].actions)) + [id]
  }

  ghost function PostOrderAll(graph: Graph, path: seq<string>, done: seq<string>, ids: seq<string>): seq<string>
    decreases Idle(graph, path), 2, |ids|
  {
    if |ids| == 0 then done else PostOrderAll(graph, path, PostOrder(graph, path, done, ids[0]), ids[1..])
  }

  /** A successful evaluation completes exactly the depth-first post-order, after what had completed before. */
  lemma {:induction false} SuccessIsPostOrder(graph: Graph, stack: seq<string>, order: seq<string>, id: string)
    requires id in graph && EvalOf(graph, stack, order, id).result.Ok?
    ensures EvalOf(graph, stack, order, id).order == PostOrder(graph, stack, order, id)
    decreases Idle(graph, stack), 0, 0
  {
    IndexOfFinds(stack, id);
    if id !in order {
      FewerIdle(graph, stack, id);
      ActionsArePostOrder(graph, stack + [id], order, id, 0);
      assert graph[id].actions[0..] == graph[id].actions;
    }
  }

  lemma {:induction false} ActionsArePostOrder(graph: Graph, stack: seq<string>, order: seq<string>, id: string, i: nat)
    requires id in graph && i <= |graph[id].actions| && ActionsFrom(graph, stack, order, id, i).result.Ok?
    ensures ActionsFrom(graph, stack, order, id, i).order ==
            PostOrderAll(graph, stack, order, Requires(graph[id], graph[id].actions[i..]))
    decreases Idle(graph, stack), 2, |graph[id].actions| - i
  {
    var actions := graph[id].actions;
    if i < |actions| {
      var first := ActionOf(graph, stack, order, id, actions[i]);
      assert actions[i..][1..] == actions[i + 1..];
      ActionIsPostOrder(graph, stack, order, id, actions[i]);
      ActionsArePostOrder(graph, stack, first.order, id, i + 1);
      RequiresUncons(graph[id], actions[i..]);
    }
  }

  lemma RequiresUncons(code: Code, actions: seq<Action>)
    requires |actions| > 0
    ensures var rest := Requires(code, actions[1..]);
            Requires(code, actions) == match Target(code, actions[0]) case Some(dep) => [dep] + rest case None => rest
  {
  }

  lemma {:induction false} ActionIsPostOrder(graph: Graph, stack: seq<string>, order: seq<string>, id: string, action: Action)
    requires id in graph && ActionOf(graph, stack, order, id, action).result.Ok?
    ensures ActionOf(graph, stack, order, id, action).order ==
            match Target(graph[id], action) case Some(dep) => PostOrder(graph, stack, order, dep) case None => order
    decreases Idle(graph, stack), 1, 0
  {
    if Target(graph[id], action).Some? {
      SuccessIsPostOrder(graph, stack, order, Target(graph[id], action).value);
    }
  }

  // ---- on failure: the first action that fails ----------------------------------------------------

  /** The actions of `id` from `i` to `k` succeed, and leave `after` completed. */
  ghost predicate Succeeds(graph: Graph, stack: seq<string>, order: seq<string>, id: string, i: nat, k: nat, after: seq<string>)
    requires id in graph && i <= k <= |graph[id].actions|
    decreases k - i
  {
    if i == k then after == order
    else
      var first := ActionOf(graph, stack, order, id, graph[id].actions[i]);
      first.result.Ok? && Succeeds(graph, stack, first.order, id, i + 1, k, after)
  }

  /** A failing module fails with its first failing action, every action before which had succeeded. */
  lemma {:induction false} FailsAtFirst(graph: Graph, stack: seq<string>, order: seq<string>, id: string, i: nat)
    returns (k: nat, after: seq<string>)
    requires id in graph && i <= |graph[id].actions| && ActionsFrom(graph, stack, order, id, i).result.Err?
    ensures i <= k < |graph[id].actions| && Succeeds(graph, stack, order, id, i, k, after)
    ensures ActionOf(graph, stack, after, id, graph[id].actions[k]) == ActionsFrom(graph, stack, order, id, i)
    decreases |graph[id].actions| - i
  {
    var first := ActionOf(graph, stack, order, id, graph[id].actions[i]);
    if first.result.Err? {
      k, after := i, order;
    } else {
      k, after := FailsAtFirst(graph, stack, first.order, id, i + 1);
    }
  }

  /** An evaluation that fails fails with the first failing action of its module. */
  lemma EvaluationFailsAtFirst(graph: Graph, stack: seq<string>, order: seq<string>, id: string) returns (k: nat, after: seq<string>)
    requires id in graph && id !in order && id !in stack && EvalOf(graph, stack, order, id).result.Err?
    ensures k < |graph[id].actions| && Succeeds(graph, stack + [id], order, id, 0, k, after)
    ensures ActionOf(graph, stack + [id], after, id, graph[id].actions[k]) == EvalOf(graph, stack, order, id)
  {
    var ran := FreshRuns(graph, stack, order, id);
    k, after := FailsAtFirst(graph, stack + [id], order, id, 0);
  }
}
