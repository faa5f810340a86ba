/** The collector keeps what the bundler's registry relies on in a `/dep_tree` reply. */
module TreeAnswers {
  import opened Wrappers
  import C = Collector
  import Closure = CollectorClosure
  import R = Registry

  /** `get_dependencies` as the list that is sent, in the order the packages were listed. */
  function Reply(s: C.State): seq<R.Dep> {
    seq(|s.deps|, i requires 0 <= i < |s.deps| => Sent(s, s.deps[i]))
  }

  function Sent(s: C.State, d: C.Dependency): R.Dep {
    R.Dep(d.name, d.version, d.source, if d.name in s.states then s.states[d.name].entries else {})
  }

  /** One package of the bundler's request is asked of the collector, with the entries it lacks. */
  predicate PosedAs(ask: (string, (string, set<string>)), r: C.Request) {
    r.name == ask.0 && ask.1.1 <= r.entries
  }

  ghost predicate Posed(request: R.Request, requests: set<C.Request>) {
    forall ask :: ask in request ==> exists r :: r in requests && PosedAs(ask, r)
  }

  lemma SettledFacts(w: C.World, requests: set<C.Request>, s: C.State, tree: C.Tree)
    requires Closure.Settled(w, requests, s, tree)
    ensures C.Listed(s) == tree.Keys == s.states.Keys
    ensures forall n :: n in tree ==> tree[n].2 == s.states[n].entries
  {
    Closure.AllListed(s);
  }

  lemma ReplyNames(s: C.State)
    requires forall i, j :: 0 <= i < j < |s.deps| ==> s.deps[i].name != s.deps[j].name
    ensures R.Distinct(Reply(s)) && R.Names(Reply(s)) == C.Listed(s)
  {
    forall n | n in C.Listed(s) ensures n in R.Names(Reply(s)) {
      var i :| 0 <= i < |s.deps| && s.deps[i].name == n;
      assert Reply(s)[i].n == n;
    }
  }

  lemma {:induction false} NamesSize(deps: seq<R.Dep>)
    requires R.Distinct(deps)
    ensures |R.Names(deps)| == |deps|
  {
    if |deps| > 0 {
      NamesSize(deps[1..]);
      assert R.Names(deps) == {deps[0].n} + R.Names(deps[1..]);
    }
  }

  lemma AskIsAnswered(w: C.World, requests: set<C.Request>, tree: C.Tree, ask: (string, (string, set<string>)))
    requires forall r :: r in requests ==> Closure.Answered(w, tree, r)
    requires exists r :: r in requests && PosedAs(ask, r)
    ensures if ask.0 in tree then ask.1.1 <= tree[ask.0].2 else C.ShouldSkip(w, ask.0, |tree|)
  {
    var r :| r in requests && PosedAs(ask, r);
    assert Closure.Answered(w, tree, r);
  }

  /**
   * Under every interleaving the reply lists a name once, lists every requested package it lists with all
   * the entries asked of it, and leaves out a requested package only if `should_skip` refuses it.
   */
  lemma ReplyAnswers(w: C.World, requests: set<C.Request>, trace: seq<C.State>, tree: C.Tree, request: R.Request)
    requires C.WellPinned(w) && C.Run(w, requests, trace) && trace[|trace| - 1].main == C.Returned(Ok(tree))
    requires Posed(request, requests)
    ensures var reply := Reply(trace[|trace| - 1]);
            && R.Distinct(reply) && R.Answers(request, reply) && R.Names(reply) == tree.Keys
            && forall ask :: ask in request && ask.0 !in R.Names(reply) ==> C.ShouldSkip(w, ask.0, |reply|)
  {
    Closure.CollectedTreeIsClosed(w, requests, trace, tree);
    ReplyListsTree(w, requests, trace, tree);
    forall ask | ask in request ensures if ask.0 in tree then ask.1.1 <= tree[ask.0].2 else C.ShouldSkip(w, ask.0, |tree|) {
      AskIsAnswered(w, requests, tree, ask);
    }
  }

  lemma ReplyListsTree(w: C.World, requests: set<C.Request>, trace: seq<C.State>, tree: C.Tree)
    requires C.WellPinned(w) && C.Run(w, requests, trace) && trace[|trace| - 1].main == C.Returned(Ok(tree))
    ensures var reply := Reply(trace[|trace| - 1]);
            && R.Distinct(reply) && R.Names(reply) == tree.Keys && |reply| == |tree|
            && forall d :: d in reply ==> d.e == tree[d.n].2
  {
    var s := trace[|trace| - 1];
    Closure.EveryStateIsSafe(w, requests, trace, |trace| - 1);
    TreeFacts(w, requests, trace, tree);
    ReplyIs(s, tree);
  }

  lemma ReplyIs(s: C.State, tree: C.Tree)
    requires forall i, j :: 0 <= i < j < |s.deps| ==> s.deps[i].name != s.deps[j].name
    requires C.Listed(s) == tree.Keys == s.states.Keys && forall n :: n in tree ==> tree[n].2 == s.states[n].entries
    ensures var reply := Reply(s);
            && R.Distinct(reply) && R.Names(reply) == tree.Keys && |reply| == |tree|
            && forall d :: d in reply ==> d.e == tree[d.n].2
  {
    ReplyNames(s);
    NamesSize(Reply(s));
    assert |tree| == |tree.Keys|;
    forall d | d in Reply(s) ensures d.e == tree[d.n].2 {
      assert d.n in R.Names(Reply(s));
    }
  }

  lemma TreeFacts(w: C.World, requests: set<C.Request>, trace: seq<C.State>, tree: C.Tree)
    requires C.WellPinned(w) && C.Run(w, requests, trace) && trace[|trace| - 1].main == C.Returned(Ok(tree))
    ensures var s := trace[|trace| - 1];
            && C.Listed(s) == tree.Keys == s.states.Keys
            && forall n :: n in tree ==> tree[n].2 == s.states[n].entries
  {
    var s := trace[|trace| - 1];
    Closure.InvRun(w, requests, trace, |trace| - 1);
    Closure.TreeIsState(w, requests, s, tree);
    SettledFacts(w, requests, s, tree);
  }
}
