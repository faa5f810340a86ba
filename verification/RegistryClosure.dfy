/** The used-module closure: packages that installed ones use are installed, or were asked for. */
module RegistryClosure {
  import opened Registry
  import opened RegistrySafety
  import opened RegistryRuns
  import opened RegistryLoads
  import C = RegistryContents

  // ---- how a batch comes to link ----------------------------------------------------------------

  /** The closure's request failed, or was answered with nothing. */
  predicate GivesUp(l: Label) {
    l.DoClosureFails? || (l.DoClosure? && l.deps == [])
  }

  /** Every package that an installed one uses is installed, or was requested. */
  ghost predicate ClosedOver(c: Core, attempted: set<string>) {
    forall n, used :: n in c.modules && used in c.modules[n].content.m && used != "" && used[0] != '.' && used[0] != '/' ==>
      used in c.modules || used in attempted
  }

  lemma NothingMissing(c: Core, attempted: set<string>)
    requires MissingUsed(c, attempted) == {}
    ensures ClosedOver(c, attempted)
  {
    forall n, used | n in c.modules && used in c.modules[n].content.m && used != "" && used[0] != '.' && used[0] != '/'
      ensures used in c.modules || used in attempted
    {
      assert used !in c.modules && used !in attempted ==> used in MissingUsed(c, attempted);
    }
  }

  lemma ClosureLaunches(s: State, i: nat, deps: seq<Dep>)
    requires Enabled(s, DoClosure(i, deps))
    ensures ClosureArrives(s, i, deps).body.Linking? ==> deps == []
  {
    LaunchHolds(s, ClosureCore(s, deps), deps, s.body.before);
  }

  /** The body gets to linking when nothing is missing any more, or when the closure gives up. */
  lemma LinkStep(s: State, l: Label)
    requires Enabled(s, l) && s.body != NoBody && !s.body.Linking? && Next(s, l).body.Linking?
    ensures GivesUp(l) || (l.DoInstalled? && ClosedOver(s.core, s.attempted))
    ensures Next(s, l).core == s.core
  {
    match l
    case DoInstalled(_) => NothingMissing(s.core, s.attempted);
    case DoTree(i, deps) =>
      var core := Merged(s.core, deps, s.body.request);
      assert AllResolved(core, s.body.request);
      LaunchHolds(s, core, TreeDeps(s, deps), Take(s.core));
    case DoClosure(i, deps) =>
      ClosureLaunches(s, i, deps);
    case _ => OtherLinks(s, l);
  }

  lemma OtherLinks(s: State, l: Label)
    requires Enabled(s, l) && s.body != NoBody && !s.body.Linking? && Next(s, l).body.Linking?
    requires !l.DoInstalled? && !l.DoTree? && !l.DoClosure?
    ensures l.DoClosureFails? && Next(s, l).core == s.core
  {
  }

  /** While a batch links, nothing registers. */
  lemma LinkingKeeps(s: State, l: Label)
    requires Inv(s) && Enabled(s, l) && s.body.Linking? && Next(s, l).body.Linking?
    ensures Next(s, l).core.modules.Keys == s.core.modules.Keys
  {
    C.NoneLive(s);
    match l
    case DoFulfil(id, installed) => assert !Live(s, id);
    case DoExpanded(name, entry, part) => C.ExpandedIs(s.core, name, entry, part);
    case DoExpandFails(_, _) =>
    case _ => C.PlainStep(s, l);
  }

  /** Step `t` is the one into the linking that goes on to state `k`. */
  ghost predicate LinksAt(trace: seq<State>, labels: seq<Label>, t: nat, k: nat) {
    && t < k < |trace| && |trace| == |labels| + 1 && Enabled(trace[t], labels[t]) && !trace[t].body.Linking?
    && (GivesUp(labels[t]) || (labels[t].DoInstalled? && ClosedOver(trace[t].core, trace[t].attempted)))
    && trace[k].core.modules.Keys == trace[t].core.modules.Keys
  }

  lemma {:induction false} LinkedSince(trace: seq<State>, labels: seq<Label>, j: nat, k: nat) returns (t: nat)
    requires Sound(trace, labels) && Busy(trace, j, k) && !trace[j].body.Linking? && trace[k].body.Linking?
    ensures j <= t && LinksAt(trace, labels, t, k)
  {
    InvSteps(trace, labels, k - 1);
    StepAt(trace, labels, k - 1);
    if trace[k - 1].body.Linking? {
      t := LinkedSince(trace, labels, j, k - 1);
      LinkingKeeps(trace[k - 1], labels[k - 1]);
    } else {
      t := k - 1;
      LinkStep(trace[t], labels[t]);
    }
  }

  /**
   * When the body of a batch is done, every package that an installed one was found to use is installed
   * or was requested by the closure, unless a request of the closure failed or was answered with nothing.
   * `t` is the closure's last turn; the packages installed then are those installed in the end.
   */
  lemma UsedIsInstalled(trace: seq<State>, labels: seq<Label>, j: nat, k: nat) returns (t: nat)
    requires Running(trace, labels, j, k) && k < |labels| && labels[k].DoLinked?
    ensures j < t && LinksAt(trace, labels, t, k)
    ensures trace[k + 1].core.modules == trace[k].core.modules
    ensures GivesUp(labels[t]) || ClosedOver(trace[t].core, trace[t].attempted)
    ensures trace[t].core.modules.Keys == trace[k + 1].core.modules.Keys
  {
    StepAt(trace, labels, k);
    StartOpens(trace, labels, j);
    t := LinkedSince(trace, labels, j + 1, k);
  }

  // ---- what was requested -----------------------------------------------------------------------------

  /** The names a step's closure turn requests. */
  function Requests(s: State, l: Label): set<string>
    requires Enabled(s, l)
  {
    if l.DoInstalled? then MissingUsed(s.core, s.attempted) else {}
  }

  lemma AttemptedStep(s: State, l: Label)
    requires Enabled(s, l) && GoesOn(s, l) && !l.DoStart?
    ensures Next(s, l).attempted == s.attempted + Requests(s, l)
  {
    match l
    case DoTree(i, deps) => StartsKeepAttempted(s.(core := Merged(s.core, deps, s.body.request)), map[], TreeDeps(s, deps));
    case DoClosure(i, deps) => StartsKeepAttempted(s.(core := ClosureCore(s, deps)), map[], deps);
    case _ =>
  }

  lemma StartsKeepAttempted(s: State, waits: map<nat, string>, deps: seq<Dep>)
    ensures StartInstalls(s, waits, deps).0.attempted == s.attempted
    decreases |deps|
  {
    if |deps| > 0 {
      var (t, more) := StartInstall(s, waits, deps[0]);
      StartsKeepAttempted(t, more, deps[1..]);
    }
  }

  ghost predicate AttemptedTrace(trace: seq<State>, labels: seq<Label>, j: nat, k: nat) {
    && j < k < |trace| && |trace| == |labels| + 1 && trace[j + 1].attempted == {}
    && forall t :: j < t < k ==> Enabled(trace[t], labels[t]) && trace[t + 1].attempted == trace[t].attempted + Requests(trace[t], labels[t])
  }

  lemma {:induction false} AttemptedUntil(trace: seq<State>, labels: seq<Label>, j: nat, k: nat, name: string)
    requires AttemptedTrace(trace, labels, j, k)
    ensures name in trace[k].attempted <==> exists t :: j < t < k && Enabled(trace[t], labels[t]) && name in Requests(trace[t], labels[t])
  {
    if j + 1 < k {
      AttemptedUntil(trace, labels, j, k - 1, name);
      assert trace[k] == trace[k - 1 + 1];
    }
  }

  /** A batch has attempted exactly the names that earlier turns of its closure found missing, and each only once. */
  lemma AttemptedIsRequested(trace: seq<State>, labels: seq<Label>, j: nat, k: nat, name: string)
    requires Running(trace, labels, j, k)
    ensures name in trace[k].attempted <==> exists t :: j < t < k && Enabled(trace[t], labels[t]) && name in Requests(trace[t], labels[t])
    ensures k < |labels| && Enabled(trace[k], labels[k]) && name in Requests(trace[k], labels[k]) ==> name !in trace[k].attempted
  {
    InvSteps(trace, labels, j);
    StepAt(trace, labels, j);
    NoBodyAtStart(trace[j], labels[j].i);
    forall t | j < t < k
      ensures Enabled(trace[t], labels[t]) && trace[t + 1].attempted == trace[t].attempted + Requests(trace[t], labels[t])
    {
      InvSteps(trace, labels, t);
      StepAt(trace, labels, t);
      if labels[t].DoStart? {
        NoBodyAtStart(trace[t], labels[t].i);
      }
      AttemptedStep(trace[t], labels[t]);
    }
    AttemptedUntil(trace, labels, j, k, name);
  }

  /** Only packages that an installed one uses, and that are not there yet, are requested: no paths. */
  lemma OnlyMissingAreRequested(c: Core, attempted: set<string>, name: string)
    requires name in MissingUsed(c, attempted)
    ensures name !in c.modules && name !in attempted && name != "" && name[0] != '.' && name[0] != '/'
    ensures exists n :: n in c.modules && name in c.modules[n].content.m
  {
  }
}
