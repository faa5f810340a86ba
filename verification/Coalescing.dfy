/**
 * Request coalescing (crates/sandpack-cdn/src/cached.rs) as a lock-step protocol: callers and the
 * spawned fetch share `last_fetched` and `inflight` under one mutex, and one step is one lock
 * section, one receive, or the loss of a fetch task.
 */
module Coalescing {
  import opened Wrappers

  type Value = string

  /** What the mutex guards: the last good value with its time, and a weak handle on the running fetch. */
  datatype Inner = Inner(lastFetched: Option<(nat, Value)>, inflight: Option<nat>)

  /** What a caller leaves its lock section with. */
  datatype Outcome =
    | Hit(value: Value)
    | Join(flight: nat)
    | Launch(flight: nat, stale: Option<Value>)

  /** `get_cached`'s lock section. `alive` are the flights whose sender still exists, `next` a fresh one. */
  function Enter(inner: Inner, now: nat, interval: nat, alive: set<nat>, next: nat): (Inner, Outcome) {
    if inner.lastFetched.Some? && now - inner.lastFetched.value.0 < interval then
      (inner, Hit(inner.lastFetched.value.1))
    else
      var last := match inner.lastFetched case Some((_, value)) => Some(value) case None => None;
      if inner.inflight.Some? && inner.inflight.value in alive then
        (inner, if last.Some? then Hit(last.value) else Join(inner.inflight.value))
      else
        (inner.(inflight := Some(next)), Launch(next, last))
  }

  /** The fetch task's lock section: it clears `inflight` and keeps a good value. */
  function Finish(inner: Inner, now: nat, result: Result<Value, string>): Inner {
    match result
    case Ok(value) => Inner(Some((now, value)), None)
    case Err(_) => inner.(inflight := None)
  }

  /** The guarded object itself. */
  class CachedInner {
    var lastFetched: Option<(nat, Value)>
    var inflight: Option<nat>

    function View(): Inner
      reads this
    {
      Inner(lastFetched, inflight)
    }

    constructor ()
      ensures View() == Inner(None, None)
    {
      lastFetched, inflight := None, None;
    }

    method EnterCall(now: nat, interval: nat, alive: set<nat>, next: nat) returns (outcome: Outcome)
      modifies this
      ensures (View(), outcome) == Enter(old(View()), now, interval, alive, next)
    {
      if lastFetched.Some? {
        var (fetchedAt, value) := lastFetched.value;
        if now - fetchedAt < interval {
          return Hit(value);
        }
      }
      var last := match lastFetched case Some((_, value)) => Some(value) case None => None;
      if inflight.Some? && inflight.value in alive {
        if last.Some? {
          return Hit(last.value);
        }
        return Join(inflight.value);
      }
      inflight := Some(next);
      outcome := Launch(next, last);
    }

    method FinishFetch(now: nat, result: Result<Value, string>)
      modifies this
      ensures View() == Finish(old(View()), now, result)
    {
      inflight := None;
      if result.Ok? {
        lastFetched := Some((now, result.value));
      }
    }
  }

  // ---- the protocol ---------------------------------------------------------------------

  /** A fetch task's broadcast channel: whether its sender still exists, and what it sent. */
  datatype Flight = Flight(alive: bool, sent: Option<Result<Value, string>>)

  /** A waiting caller holds a receiver of one flight, with what was sent since it subscribed. */
  datatype Caller =
    | Idle
    | Waiting(flight: nat, mailbox: Option<Result<Value, string>>)
    | Served(value: Value)
    | Received(outcome: Option<Result<Value, string>>)

  /** `finished` records every completed fetch in order. */
  datatype State = State(
    clock: nat,
    inner: Inner,
    flights: seq<Flight>,
    callers: seq<Caller>,
    finished: seq<Result<Value, string>>)

  function Start(callers: nat): State {
    State(0, Inner(None, None), [], seq(callers, _ => Idle), [])
  }

  /** The flights whose weak handle can still be upgraded. */
  function Alive(s: State): set<nat> {
    set f: nat | f < |s.flights| && s.flights[f].alive
  }

  predicate Fetching(s: State, f: nat) {
    f < |s.flights| && s.flights[f].alive && s.flights[f].sent.None?
  }

  /** A caller's lock section. A new receiver has received nothing. */
  function Call(s: State, interval: nat, c: nat): State
    requires c < |s.callers|
  {
    var (inner, outcome) := Enter(s.inner, s.clock, interval, Alive(s), |s.flights|);
    match outcome
    case Hit(value) => s.(inner := inner, callers := s.callers[c := Served(value)])
    case Join(f) => s.(inner := inner, callers := s.callers[c := Waiting(f, None)])
    case Launch(f, stale) =>
      s.(inner := inner, flights := s.flights + [Flight(true, None)],
         callers := s.callers[c := match stale case Some(value) => Served(value) case None => Waiting(f, None)])
  }

  /** A send reaches the receivers that exist at that moment, and no later one. */
  function Deliver(caller: Caller, f: nat, result: Result<Value, string>): Caller {
    if caller.Waiting? && caller.flight == f then caller.(mailbox := Some(result)) else caller
  }

  /** The fetch task's lock section, the send included. */
  function Complete(s: State, f: nat, result: Result<Value, string>): State
    requires f < |s.flights|
  {
    s.(inner := Finish(s.inner, s.clock, result),
       flights := s.flights[f := s.flights[f].(sent := Some(result))],
       callers := seq(|s.callers|, c requires 0 <= c < |s.callers| => Deliver(s.callers[c], f, result)),
       finished := s.finished + [result])
  }

  /** The fetch task ends and drops its sender, after its send or, when it dies, without one. */
  function Drop(s: State, f: nat): State
    requires f < |s.flights|
  {
    s.(flights := s.flights[f := s.flights[f].(alive := false)])
  }

  /** A receive: what the mailbox holds, or `None` when it is empty and the channel is closed. */
  function Receive(s: State, c: nat): State
    requires CanReceive(s, c)
  {
    s.(callers := s.callers[c := Received(s.callers[c].mailbox)])
  }

  predicate CanReceive(s: State, c: nat) {
    && c < |s.callers| && s.callers[c].Waiting? && s.callers[c].flight < |s.flights|
    && (s.callers[c].mailbox.Some? || !s.flights[s.callers[c].flight].alive)
  }

  ghost predicate Step(interval: nat, s: State, t: State) {
    || (t.clock >= s.clock && t == s.(clock := t.clock))
    || (exists c: nat :: c < |s.callers| && s.callers[c].Idle? && t == Call(s, interval, c))
    || (exists f: nat, result :: Fetching(s, f) && t == Complete(s, f, result))
    || (exists f: nat :: f < |s.flights| && s.flights[f].alive && t == Drop(s, f))
    || (exists c: nat :: CanReceive(s, c) && t == Receive(s, c))
  }

  ghost predicate Run(interval: nat, callers: nat, trace: seq<State>) {
    && |trace| > 0 && trace[0] == Start(callers)
    && forall k :: 0 <= k < |trace| - 1 ==> Step(interval, trace[k], trace[k + 1])
  }

  // ---- what every run keeps -----------------------------------------------------------------

  /** The last successful result, if any fetch succeeded. */
  function LastGood(finished: seq<Result<Value, string>>): Option<Value> {
    if |finished| == 0 then None
    else if finished[|finished| - 1].Ok? then Some(finished[|finished| - 1].value)
    else LastGood(finished[..|finished| - 1])
  }

  /** The handle kept is that of the one fetch that has not sent yet, if there is one. */
  ghost predicate HandleOk(s: State) {
    && (forall f: nat :: Fetching(s, f) ==> s.inner.inflight == Some(f))
    && (s.inner.inflight.Some? ==> s.inner.inflight.value < |s.flights| && s.flights[s.inner.inflight.value].sent.None?)
  }

  /** Every receiver subscribed before its flight's send: its mailbox holds whatever was sent. */
  ghost predicate MailOk(s: State) {
    forall c :: 0 <= c < |s.callers| && s.callers[c].Waiting? ==>
      s.callers[c].flight < |s.flights| && s.callers[c].mailbox == s.flights[s.callers[c].flight].sent
  }

  ghost predicate ValueOk(s: State) {
    match s.inner.lastFetched
    case None => LastGood(s.finished).None?
    case Some((at, value)) => at <= s.clock && LastGood(s.finished) == Some(value)
  }

  ghost predicate Inv(s: State) {
    HandleOk(s) && MailOk(s) && ValueOk(s)
  }

  lemma LastGoodAppend(finished: seq<Result<Value, string>>, result: Result<Value, string>)
    ensures LastGood(finished + [result]) == if result.Ok? then Some(result.value) else LastGood(finished)
  {
    assert (finished + [result])[..|finished|] == finished;
  }

  /** A caller only ever joins a flight that has not sent. */
  lemma InvCall(interval: nat, s: State, c: nat)
    requires Inv(s) && c < |s.callers|
    ensures Inv(Call(s, interval, c))
  {
  }

  lemma InvComplete(s: State, f: nat, result: Result<Value, string>)
    requires Inv(s) && Fetching(s, f)
    ensures Inv(Complete(s, f, result))
  {
    LastGoodAppend(s.finished, result);
  }

  lemma InvStep(interval: nat, s: State, t: State)
    requires Inv(s) && Step(interval, s, t)
    ensures Inv(t)
  {
    if c: nat :| c < |s.callers| && s.callers[c].Idle? && t == Call(s, interval, c) {
      InvCall(interval, s, c);
    } else if f: nat, result :| Fetching(s, f) && t == Complete(s, f, result) {
      InvComplete(s, f, result);
    }
  }

  lemma StepOf(interval: nat, callers: nat, trace: seq<State>, k: nat)
    requires Run(interval, callers, trace) && k + 1 < |trace|
    ensures Step(interval, trace[k], trace[k + 1])
  {
  }

  lemma {:induction false} InvRun(interval: nat, callers: nat, trace: seq<State>, k: nat)
    requires Run(interval, callers, trace) && k < |trace|
    ensures Inv(trace[k])
  {
    if k > 0 {
      InvRun(interval, callers, trace, k - 1);
      StepOf(interval, callers, trace, k - 1);
      InvStep(interval, trace[k - 1], trace[k]);
    }
  }

  /** In every reachable state at most one fetch is running, and the value kept is the last good one. */
  lemma OneFetchLastGood(interval: nat, callers: nat, trace: seq<State>, k: nat)
    requires Run(interval, callers, trace) && k < |trace|
    ensures forall f: nat, g: nat :: Fetching(trace[k], f) && Fetching(trace[k], g) ==> f == g
    ensures (match trace[k].inner.lastFetched case Some((_, value)) => Some(value) case None => None) == LastGood(trace[k].finished)
  {
    InvRun(interval, callers, trace, k);
  }

  /**
   * A call waits exactly when no fetch has ever succeeded, on the one running fetch; otherwise it is
   * served the last good value at once. It starts a fetch exactly when none is running and the value
   * is missing or stale.
   */
  lemma CallServesOrWaits(interval: nat, callers: nat, trace: seq<State>, k: nat, c: nat)
    requires Run(interval, callers, trace) && k < |trace| && c < |trace[k].callers|
    ensures var s, t := trace[k], Call(trace[k], interval, c);
      && (t.callers[c].Waiting? <==> LastGood(s.finished).None?)
      && (t.callers[c].Waiting? || t.callers[c] == Served(LastGood(s.finished).value))
      && (t.callers[c].Waiting? ==> Fetching(t, t.callers[c].flight))
      && (|t.flights| > |s.flights| <==>
            (forall f: nat :: !Fetching(s, f)) && !(s.inner.lastFetched.Some? && s.clock - s.inner.lastFetched.value.0 < interval))
  {
    InvRun(interval, callers, trace, k);
    CallFromInv(interval, trace[k], c);
  }

  lemma CallFromInv(interval: nat, s: State, c: nat)
    requires Inv(s) && c < |s.callers|
    ensures var t := Call(s, interval, c);
      && (t.callers[c].Waiting? <==> LastGood(s.finished).None?)
      && (t.callers[c].Waiting? || t.callers[c] == Served(LastGood(s.finished).value))
      && (t.callers[c].Waiting? ==> Fetching(t, t.callers[c].flight))
      && (|t.flights| > |s.flights| <==>
            (forall f: nat :: !Fetching(s, f)) && !(s.inner.lastFetched.Some? && s.clock - s.inner.lastFetched.value.0 < interval))
  {
    if s.inner.inflight.Some? && s.inner.inflight.value in Alive(s) {
      assert Fetching(s, s.inner.inflight.value);
    }
  }

  // ---- no missed send ------------------------------------------------------------------------------

  /** A caller that waited for `f`: it still does, or received what `f` sent, or learnt that `f` ended without sending. */
  ghost predicate Faithful(s: State, c: nat, f: nat) {
    c < |s.callers| && f < |s.flights| &&
    match s.callers[c]
    case Waiting(g, _) => g == f
    case Received(Some(result)) => s.flights[f].sent == Some(result)
    case Received(None) => s.flights[f] == Flight(false, None)
    case _ => false
  }

  lemma FaithfulCall(interval: nat, s: State, d: nat, c: nat, f: nat)
    requires d < |s.callers| && s.callers[d].Idle? && Faithful(s, c, f)
    ensures Faithful(Call(s, interval, d), c, f)
  {
  }

  lemma FaithfulComplete(s: State, g: nat, result: Result<Value, string>, c: nat, f: nat)
    requires Fetching(s, g) && Faithful(s, c, f)
    ensures Faithful(Complete(s, g, result), c, f)
  {
  }

  lemma FaithfulReceive(s: State, d: nat, c: nat, f: nat)
    requires MailOk(s) && CanReceive(s, d) && Faithful(s, c, f)
    ensures Faithful(Receive(s, d), c, f)
  {
  }

  lemma FaithfulStep(interval: nat, s: State, t: State, c: nat, f: nat)
    requires MailOk(s) && Step(interval, s, t) && Faithful(s, c, f)
    ensures Faithful(t, c, f)
  {
    if d: nat :| d < |s.callers| && s.callers[d].Idle? && t == Call(s, interval, d) {
      FaithfulCall(interval, s, d, c, f);
    } else if g: nat, result :| Fetching(s, g) && t == Complete(s, g, result) {
      FaithfulComplete(s, g, result, c, f);
    } else if d: nat :| CanReceive(s, d) && t == Receive(s, d) {
      FaithfulReceive(s, d, c, f);
    }
  }

  lemma FaithfulNext(interval: nat, callers: nat, trace: seq<State>, k: nat, c: nat, f: nat)
    requires Run(interval, callers, trace) && k + 1 < |trace| && Faithful(trace[k], c, f)
    ensures Faithful(trace[k + 1], c, f)
  {
    InvRun(interval, callers, trace, k);
    StepOf(interval, callers, trace, k);
    FaithfulStep(interval, trace[k], trace[k + 1], c, f);
  }

  ghost predicate StaysFaithful(trace: seq<State>, c: nat, f: nat) {
    forall k :: 0 <= k < |trace| - 1 && Faithful(trace[k], c, f) ==> Faithful(trace[k + 1], c, f)
  }

  lemma {:induction false} FaithfulUntil(trace: seq<State>, i: nat, j: nat, c: nat, f: nat)
    requires StaysFaithful(trace, c, f) && i <= j < |trace| && Faithful(trace[i], c, f)
    ensures Faithful(trace[j], c, f)
    decreases j - i
  {
    if i < j {
      FaithfulUntil(trace, i, j - 1, c, f);
      assert trace[j] == trace[j - 1 + 1];
    }
  }

  lemma FaithfulRun(interval: nat, callers: nat, trace: seq<State>, i: nat, j: nat, c: nat, f: nat)
    requires Run(interval, callers, trace) && i <= j < |trace| && Faithful(trace[i], c, f)
    ensures Faithful(trace[j], c, f)
  {
    forall k | 0 <= k < |trace| - 1 && Faithful(trace[k], c, f) ensures Faithful(trace[k + 1], c, f) {
      FaithfulNext(interval, callers, trace, k, c, f);
    }
    FaithfulUntil(trace, i, j, c, f);
  }

  /**
   * No missed send. A caller once waiting for a flight holds that flight's own result as soon as it is
   * sent, and can receive it; it gets a closed-channel error only if the flight ended without a send.
   */
  lemma WaiterIsAnswered(interval: nat, callers: nat, trace: seq<State>, i: nat, j: nat, c: nat)
    requires Run(interval, callers, trace) && i <= j < |trace|
    requires c < |trace[i].callers| && trace[i].callers[c].Waiting?
    ensures var f := trace[i].callers[c].flight;
            && Faithful(trace[j], c, f)
            && (trace[j].callers[c].Waiting? ==> trace[j].callers[c].mailbox == trace[j].flights[f].sent)
            && (trace[j].callers[c].Waiting? && !Fetching(trace[j], f) ==> CanReceive(trace[j], c))
  {
    InvRun(interval, callers, trace, i);
    FaithfulRun(interval, callers, trace, i, j, c, trace[i].callers[c].flight);
    InvRun(interval, callers, trace, j);
  }

  /**
   * When a fetch completes, every waiting caller can receive, no fetch is left running, and the kept
   * value changes only if the fetch succeeded, to its result.
   */
  lemma CompletionAnswersAll(interval: nat, callers: nat, trace: seq<State>, k: nat, f: nat, result: Result<Value, string>)
    requires Run(interval, callers, trace) && k < |trace| && Fetching(trace[k], f)
    ensures var s, t := trace[k], Complete(trace[k], f, result);
      && (forall c :: 0 <= c < |t.callers| && t.callers[c].Waiting? ==> CanReceive(t, c))
      && (forall c :: 0 <= c < |t.callers| && t.callers[c].Waiting? && t.callers[c].flight == f ==> t.callers[c].mailbox == Some(result))
      && (forall g: nat :: !Fetching(t, g))
      && t.inner.lastFetched == if result.Ok? then Some((s.clock, result.value)) else s.inner.lastFetched
  {
    InvRun(interval, callers, trace, k);
    InvComplete(trace[k], f, result);
    var t := Complete(trace[k], f, result);
    forall c | 0 <= c < |t.callers| && t.callers[c].Waiting? ensures CanReceive(t, c) {
      assert !Fetching(t, t.callers[c].flight);
    }
  }
}
