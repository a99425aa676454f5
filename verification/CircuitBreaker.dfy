/** The circuit breaker, a timed state machine whose counters summarise its history, and
    the registry that keeps one breaker per provider. Time is passed in by the caller. */
module CircuitBreaking {
  import opened Wrappers

  datatype CircuitState = Closed | Open | HalfOpen

  datatype CircuitConfig = CircuitConfig(failureThreshold: nat, recoveryTimeout: nat, successThreshold: nat)

  /** The fields of a breaker as one value. */
  datatype Breaker = Breaker(
    config: CircuitConfig,
    state: CircuitState,
    consecutiveFailures: nat,
    consecutiveSuccesses: nat,
    totalFailures: nat,
    totalSuccesses: nat,
    totalRejected: nat,
    lastFailureTime: Option<nat>,
    openedAt: Option<nat>)

  datatype Event = Request(now: nat) | Success | Failure(now: nat) | Force(state: CircuitState, now: nat) | Reset

  function New(config: CircuitConfig): Breaker {
    Breaker(config, Closed, 0, 0, 0, 0, 0, None, None)
  }

  function Elapsed(since: nat, now: nat): nat {
    if now <= since then 0 else now - since
  }

  predicate TimedOut(b: Breaker, now: nat) {
    b.openedAt.Some? && Elapsed(b.openedAt.value, now) >= b.config.recoveryTimeout
  }

  predicate Admits(b: Breaker, now: nat) {
    b.state.Open? ==> TimedOut(b, now)
  }

  function After(b: Breaker, e: Event): Breaker {
    match e
    case Request(now) =>
      if !b.state.Open? then b
      else if TimedOut(b, now) then b.(state := HalfOpen, consecutiveSuccesses := 0)
      else b.(totalRejected := b.totalRejected + 1)
    case Success =>
      var b' := b.(totalSuccesses := b.totalSuccesses + 1,
                   consecutiveFailures := 0,
                   consecutiveSuccesses := b.consecutiveSuccesses + 1);
      (match b.state
       case HalfOpen =>
         if b'.consecutiveSuccesses >= b.config.successThreshold then b'.(state := Closed, openedAt := None) else b'
       case Open => b'.(state := HalfOpen)
       case Closed => b')
    case Failure(now) =>
      var b' := b.(totalFailures := b.totalFailures + 1,
                   consecutiveFailures := b.consecutiveFailures + 1,
                   consecutiveSuccesses := 0,
                   lastFailureTime := Some(now));
      (match b.state
       case Closed =>
         if b'.consecutiveFailures >= b.config.failureThreshold then b'.(state := Open, openedAt := Some(now)) else b'
       case HalfOpen => b'.(state := Open, openedAt := Some(now))
       case Open => b')
    case Force(state, now) =>
      (match state
       case Open => b.(state := Open, openedAt := Some(now))
       case Closed => b.(state := Closed, openedAt := None, consecutiveFailures := 0)
       case HalfOpen => b.(state := HalfOpen))
    case Reset => New(b.config)
  }

  /** `history` lists the events since the breaker was made; the fields are their outcome,
      so whatever holds of every run holds of every breaker. */
  class CircuitBreaker {
    const config: CircuitConfig
    var state: CircuitState
    var consecutiveFailures: nat
    var consecutiveSuccesses: nat
    var totalFailures: nat
    var totalSuccesses: nat
    var totalRejected: nat
    var lastFailureTime: Option<nat>
    var openedAt: Option<nat>
    ghost var history: seq<Event>

    function Snapshot(): Breaker
      reads this
    {
      Breaker(config, state, consecutiveFailures, consecutiveSuccesses,
              totalFailures, totalSuccesses, totalRejected, lastFailureTime, openedAt)
    }

    ghost predicate Valid()
      reads this
    {
      Snapshot() == Run(config, history)
    }

    constructor (config: CircuitConfig)
      ensures Valid() && this.config == config && history == []
    {
      this.config := config;
      state := Closed;
      consecutiveFailures, consecutiveSuccesses := 0, 0;
      totalFailures, totalSuccesses, totalRejected := 0, 0, 0;
      lastFailureTime, openedAt := None, None;
      history := [];
    }

    /** The fields have been updated for `e`; so is the history. */
    ghost method Note(e: Event)
      requires Snapshot() == After(Run(config, history), e)
      modifies this`history
      ensures Valid() && history == old(history) + [e]
    {
      RunNext(config, history, e);
      history := history + [e];
    }

    method AllowRequest(now: nat) returns (allowed: bool)
      requires Valid()
      modifies this
      ensures Valid() && history == old(history) + [Request(now)]
      ensures Snapshot() == After(old(Snapshot()), Request(now))
      ensures allowed == Admits(old(Snapshot()), now)
    {
      allowed := true;
      if state == Open {
        if openedAt.Some? && Elapsed(openedAt.value, now) >= config.recoveryTimeout {
          state := HalfOpen;
          consecutiveSuccesses := 0;
        } else {
          totalRejected := totalRejected + 1;
          allowed := false;
        }
      }
      Note(Request(now));
    }

    method RecordSuccess()
      requires Valid()
      modifies this
      ensures Valid() && history == old(history) + [Success]
      ensures Snapshot() == After(old(Snapshot()), Success)
    {
      totalSuccesses := totalSuccesses + 1;
      consecutiveFailures := 0;
      consecutiveSuccesses := consecutiveSuccesses + 1;
      match state {
        case HalfOpen =>
          if consecutiveSuccesses >= config.successThreshold {
            state := Closed;
            openedAt := None;
          }
        case Open => state := HalfOpen;
        case Closed =>
      }
      Note(Success);
    }

    method RecordFailure(now: nat)
      requires Valid()
      modifies this
      ensures Valid() && history == old(history) + [Failure(now)]
      ensures Snapshot() == After(old(Snapshot()), Failure(now))
    {
      totalFailures := totalFailures + 1;
      consecutiveFailures := consecutiveFailures + 1;
      consecutiveSuccesses := 0;
      lastFailureTime := Some(now);
      match state {
        case Closed =>
          if consecutiveFailures >= config.failureThreshold {
            state := Open;
            openedAt := Some(now);
          }
        case HalfOpen =>
          state := Open;
          openedAt := Some(now);
        case Open =>
      }
      Note(Failure(now));
    }

    method ForceState(forced: CircuitState, now: nat)
      requires Valid()
      modifies this
      ensures Valid() && history == old(history) + [Force(forced, now)]
      ensures Snapshot() == After(old(Snapshot()), Force(forced, now))
    {
      state := forced;
      if forced == Open {
        openedAt := Some(now);
      } else if forced == Closed {
        openedAt := None;
        consecutiveFailures := 0;
      }
      Note(Force(forced, now));
    }

    method ResetBreaker()
      requires Valid()
      modifies this
      ensures Valid() && history == old(history) + [Reset]
      ensures Snapshot() == After(old(Snapshot()), Reset)
    {
      state := Closed;
      consecutiveFailures, consecutiveSuccesses := 0, 0;
      totalFailures, totalSuccesses, totalRejected := 0, 0, 0;
      lastFailureTime, openedAt := None, None;
      Note(Reset);
    }
  }

  // ---- Histories ----

  /** The breaker after the events, the latest of which stands last. */
  function Run(config: CircuitConfig, events: seq<Event>): Breaker {
    if events == [] then New(config)
    else After(Run(config, events[..|events| - 1]), events[|events| - 1])
  }

  function Failures(events: seq<Event>): nat {
    if events == [] then 0
    else Failures(events[..|events| - 1]) + if events[|events| - 1].Failure? then 1 else 0
  }

  function Successes(events: seq<Event>): nat {
    if events == [] then 0
    else Successes(events[..|events| - 1]) + if events[|events| - 1].Success? then 1 else 0
  }

  /** Events that end a run of failures. */
  predicate EndsFailures(e: Event) {
    e.Success? || e.Reset? || (e.Force? && e.state.Closed?)
  }

  /** Events that end a run of successes. */
  predicate EndsSuccesses(e: Event) {
    e.Failure? || e.Reset?
  }

  /** Event `i` clears the success counter: a failure, a reset, or the request that an open
      breaker admits as a probe. */
  predicate ClearsSuccesses(config: CircuitConfig, events: seq<Event>, i: nat)
    requires i < |events|
  {
    || EndsSuccesses(events[i])
    || (&& events[i].Request?
        && Run(config, events[..i]).state.Open?
        && Admits(Run(config, events[..i]), events[i].now))
  }

  /** `events[k..]` is the history since the last event that cleared the success counter. */
  ghost predicate LastSuccessRun(config: CircuitConfig, events: seq<Event>, k: nat) {
    && k <= |events|
    && (forall i :: k <= i < |events| ==> !ClearsSuccesses(config, events, i))
    && (k > 0 ==> ClearsSuccesses(config, events, k - 1))
  }

  /** `events[k..]` is the history since the last event that ends a run of failures. */
  ghost predicate LastFailureRun(events: seq<Event>, k: nat) {
    && k <= |events|
    && (forall i :: k <= i < |events| ==> !EndsFailures(events[i]))
    && (k > 0 ==> EndsFailures(events[k - 1]))
  }

  lemma TailNext(events: seq<Event>, k: nat)
    requires k < |events|
    ensures Failures(events[k..]) == Failures(events[k..|events| - 1]) + if events[|events| - 1].Failure? then 1 else 0
    ensures Successes(events[k..]) == Successes(events[k..|events| - 1]) + if events[|events| - 1].Success? then 1 else 0
  {
    var tail := events[k..];
    assert tail[..|tail| - 1] == events[k..|events| - 1];
  }

  /** In every run, the failure counter is the number of failures since the last success,
      reset or forced close; a closed breaker is below its threshold; an open one knows
      when it opened. */
  lemma {:induction false} FailuresSummarised(config: CircuitConfig, events: seq<Event>) returns (k: nat)
    ensures LastFailureRun(events, k)
    ensures Run(config, events).consecutiveFailures == Failures(events[k..])
    ensures Run(config, events).config == config
    ensures Run(config, events).state.Closed? ==>
              var n := Run(config, events).consecutiveFailures; n == 0 || n < config.failureThreshold
    ensures Run(config, events).state.Open? ==> Run(config, events).openedAt.Some?
    ensures Run(config, events).state.Closed? ==> Run(config, events).openedAt.None?
  {
    StateIsSound(config, events);
    if events == [] {
      k := 0;
    } else {
      var n := |events| - 1;
      k := FailuresSummarised(config, events[..n]);
      if EndsFailures(events[n]) {
        k := n + 1;
      } else {
        TailNext(events, k);
        assert events[..n][k..] == events[k..n];
        assert k > 0 ==> events[..n][k - 1] == events[k - 1];
        assert forall i :: k <= i < n ==> events[..n][i] == events[i];
      }
    }
  }

  lemma {:induction false} StateIsSound(config: CircuitConfig, events: seq<Event>)
    ensures var b := Run(config, events);
            && b.config == config
            && (b.state.Closed? ==> b.consecutiveFailures == 0 || b.consecutiveFailures < config.failureThreshold)
            && (b.state.Closed? ==> b.openedAt.None?)
            && (b.state.Open? ==> b.openedAt.Some?)
  {
    if events != [] { StateIsSound(config, events[..|events| - 1]); }
  }

  /** In every run, the success counter is the number of successes since the last failure,
      reset or admitted probe. */
  lemma {:induction false} SuccessesSummarised(config: CircuitConfig, events: seq<Event>) returns (k: nat)
    ensures LastSuccessRun(config, events, k)
    ensures Run(config, events).consecutiveSuccesses == Successes(events[k..])
  {
    if events == [] {
      k := 0;
    } else {
      var n := |events| - 1;
      k := SuccessesSummarised(config, events[..n]);
      forall i | 0 <= i < n ensures ClearsSuccesses(config, events[..n], i) <==> ClearsSuccesses(config, events, i) {
        assert events[..n][..i] == events[..i];
      }
      if ClearsSuccesses(config, events, n) {
        k := n + 1;
      } else {
        TailNext(events, k);
        assert events[..n][k..] == events[k..n];
      }
    }
  }

  /** A time before the recovery timeout of a breaker opened at `since` is over; there is none
      if that timeout is zero. */
  ghost predicate Early(config: CircuitConfig, since: nat, now: nat) {
    config.recoveryTimeout > 0 && now < since + config.recoveryTimeout
  }

  /** Request `i` met an open breaker before its recovery timeout was over. */
  ghost predicate RejectedAt(config: CircuitConfig, events: seq<Event>, i: nat)
    requires i < |events|
  {
    var b := Run(config, events[..i]);
    && events[i].Request? && b.state.Open?
    && (b.openedAt.Some? ==> Early(config, b.openedAt.value, events[i].now))
  }

  ghost function RejectedSince(config: CircuitConfig, events: seq<Event>, k: nat): set<nat> {
    set i: nat | k <= i < |events| && RejectedAt(config, events, i)
  }

  lemma RejectedNext(config: CircuitConfig, events: seq<Event>, k: nat)
    requires k < |events|
    ensures var n := |events| - 1;
            && RejectedSince(config, events, k) == RejectedSince(config, events[..n], k) + (if RejectedAt(config, events, n) then {n} else {})
            && n !in RejectedSince(config, events[..n], k)
  {
    var n := |events| - 1;
    forall i: nat | i < n ensures RejectedAt(config, events[..n], i) <==> RejectedAt(config, events, i) {
      assert events[..n][..i] == events[..i];
    }
  }

  lemma RejectionStep(config: CircuitConfig, events: seq<Event>)
    requires events != []
    ensures var n := |events| - 1;
            Run(config, events).totalRejected
            == if events[n].Reset? then 0
               else Run(config, events[..n]).totalRejected + if RejectedAt(config, events, n) then 1 else 0
  {
    StateIsSound(config, events[..|events| - 1]);
  }

  /** In every run, the number of rejections counts the rejected requests since the last reset. */
  lemma {:induction false} RejectionsSummarised(config: CircuitConfig, events: seq<Event>) returns (k: nat)
    ensures k <= |events| && (forall i :: k <= i < |events| ==> !events[i].Reset?) && (k > 0 ==> events[k - 1].Reset?)
    ensures Run(config, events).totalRejected == |RejectedSince(config, events, k)|
  {
    if events == [] {
      k := 0;
      assert RejectedSince(config, events, 0) == {};
    } else {
      var n := |events| - 1;
      k := RejectionsSummarised(config, events[..n]);
      RejectionStep(config, events);
      if events[n].Reset? {
        k := n + 1;
        assert RejectedSince(config, events, k) == {};
      } else {
        RejectedNext(config, events, k);
      }
    }
  }

  /** In every run, the last failure time is that of the last failure since the last reset. */
  lemma {:induction false} LastFailureTimeSummarised(config: CircuitConfig, events: seq<Event>) returns (k: nat)
    ensures k <= |events| && (forall i :: k <= i < |events| ==> !events[i].Failure? && !events[i].Reset?)
    ensures k > 0 ==> events[k - 1].Failure? || events[k - 1].Reset?
    ensures Run(config, events).lastFailureTime
            == if k > 0 && events[k - 1].Failure? then Some(events[k - 1].now) else None
  {
    if events == [] {
      k := 0;
    } else {
      var n := |events| - 1;
      k := LastFailureTimeSummarised(config, events[..n]);
      if events[n].Failure? || events[n].Reset? { k := n + 1; }
    }
  }

  /** In every run, the totals count the outcomes since the last reset. */
  lemma {:induction false} TotalsSummarised(config: CircuitConfig, events: seq<Event>) returns (k: nat)
    ensures k <= |events| && (forall i :: k <= i < |events| ==> !events[i].Reset?) && (k > 0 ==> events[k - 1].Reset?)
    ensures Run(config, events).totalFailures == Failures(events[k..])
    ensures Run(config, events).totalSuccesses == Successes(events[k..])
  {
    if events == [] {
      k := 0;
    } else {
      var n := |events| - 1;
      k := TotalsSummarised(config, events[..n]);
      if events[n].Reset? {
        k := n + 1;
      } else {
        TailNext(events, k);
        assert events[..n][k..] == events[k..n];
        assert k > 0 ==> events[..n][k - 1] == events[k - 1];
        assert forall i :: k <= i < n ==> events[..n][i] == events[i];
      }
    }
  }

  /** A closed breaker opens exactly when the failures since the last success, reset or
      forced close reach the threshold. */
  lemma OpensExactlyAtThreshold(config: CircuitConfig, events: seq<Event>, now: nat, k: nat)
    requires config.failureThreshold >= 1 && Run(config, events).state.Closed?
    requires LastFailureRun(events + [Failure(now)], k)
    ensures Run(config, events + [Failure(now)]).state.Open?
            <==> Failures((events + [Failure(now)])[k..]) == config.failureThreshold
    ensures Failures((events + [Failure(now)])[k..]) <= config.failureThreshold
  {
    var all := events + [Failure(now)];
    assert all[..|events|] == events;
    var j := FailuresSummarised(config, all);
    SameRun(all, j, k);
    var _ := FailuresSummarised(config, events);
  }

  lemma SameRun(events: seq<Event>, j: nat, k: nat)
    requires LastFailureRun(events, j) && LastFailureRun(events, k)
    ensures j == k
  {
    // The event just before each start ends a run of failures, so neither start lies inside the other's run.
    assert k > 0 ==> EndsFailures(events[k - 1]);
    assert j > 0 ==> EndsFailures(events[j - 1]);
  }

  lemma SameSuccessRun(config: CircuitConfig, events: seq<Event>, j: nat, k: nat)
    requires LastSuccessRun(config, events, j) && LastSuccessRun(config, events, k)
    ensures j == k
  {
    assert k > 0 ==> ClearsSuccesses(config, events, k - 1);
    assert j > 0 ==> ClearsSuccesses(config, events, j - 1);
  }

  /** A success closes a half-open breaker exactly when, with it, the successes since the
      last failure, reset or admitted probe reach `successThreshold`. */
  lemma ClosesExactlyAtThreshold(config: CircuitConfig, events: seq<Event>, k: nat)
    requires Run(config, events).state.HalfOpen?
    requires LastSuccessRun(config, events + [Success], k)
    ensures Run(config, events + [Success]).state.Closed?
            <==> Successes((events + [Success])[k..]) >= config.successThreshold
    ensures !Run(config, events + [Success]).state.Closed? ==> Run(config, events + [Success]).state.HalfOpen?
  {
    var all := events + [Success];
    assert all[..|events|] == events;
    var j := SuccessesSummarised(config, all);
    SameSuccessRun(config, all, j, k);
    var _ := FailuresSummarised(config, events);
  }

  // ---- Transitions in any run ----

  /** A breaker starts closed, and a reset brings it back to its start. */
  lemma ResetIsNew(config: CircuitConfig, events: seq<Event>)
    ensures Run(config, events + [Reset]) == Run(config, [])
    ensures Run(config, []) == Breaker(config, Closed, 0, 0, 0, 0, 0, None, None)
  {
    RunNext(config, events, Reset);
    var _ := FailuresSummarised(config, events);
  }

  /** A failure leaves a breaker open exactly if it was not closed, or if the failures since
      the last success, reset or forced close reach the threshold; otherwise it stays closed.
      It dates the opening unless the breaker was open already. */
  lemma FailureOpensExactly(config: CircuitConfig, events: seq<Event>, t: nat, k: nat)
    requires LastFailureRun(events + [Failure(t)], k)
    ensures var b, b' := Run(config, events), Run(config, events + [Failure(t)]);
            && (b'.state.Open? <==> !b.state.Closed? || Failures((events + [Failure(t)])[k..]) >= config.failureThreshold)
            && (!b'.state.Open? ==> b'.state.Closed?)
            && (b'.state.Open? ==> b'.openedAt == if b.state.Open? then b.openedAt else Some(t))
  {
    RunNext(config, events, Failure(t));
    var j := FailuresSummarised(config, events + [Failure(t)]);
    SameRun(events + [Failure(t)], j, k);
    var _ := FailuresSummarised(config, events);
  }

  /** A failure of a half-open breaker reopens it: requests are rejected again until the
      timeout has passed since that failure. */
  lemma FailedProbeReopens(config: CircuitConfig, events: seq<Event>, t: nat, quiet: seq<Event>, now: nat)
    requires Run(config, events).state.HalfOpen?
    requires QuietUntil(quiet, t, config.recoveryTimeout) && t <= now
    ensures Run(config, events + [Failure(t)]).state.Open? && Run(config, events + [Failure(t)]).openedAt == Some(t)
    ensures var b := Run(config, events + [Failure(t)] + quiet);
            && b.state.Open? && b.totalRejected == Run(config, events).totalRejected + Requests(quiet)
            && (Admits(b, now) <==> t + config.recoveryTimeout <= now)
  {
    var k := FailuresSummarised(config, events + [Failure(t)]);
    FailureOpensExactly(config, events, t, k);
    OpeningStartsWindow(config, events, t, quiet, now);
  }

  /** A success never opens a breaker: it keeps a closed one closed and turns an open one half-open. */
  lemma SuccessNeverOpens(config: CircuitConfig, events: seq<Event>)
    ensures var b, b' := Run(config, events), Run(config, events + [Success]);
            && !b'.state.Open?
            && (b.state.Closed? ==> b'.state.Closed?)
            && (b.state.Open? ==> b'.state.HalfOpen? && b'.openedAt == b.openedAt)
  {
    RunNext(config, events, Success);
  }

  /** A request is admitted by every breaker that is not open, and changes nothing about it. */
  lemma RequestChangesOnlyOpen(config: CircuitConfig, events: seq<Event>, now: nat)
    requires !Run(config, events).state.Open?
    ensures Admits(Run(config, events), now) && Run(config, events + [Request(now)]) == Run(config, events)
  {
    RunNext(config, events, Request(now));
  }

  /** A forced state is the state. Opening is dated, closing forgets the date and the run of
      failures; nothing else changes. */
  lemma ForcedState(config: CircuitConfig, events: seq<Event>, forced: CircuitState, now: nat)
    ensures var b, b' := Run(config, events), Run(config, events + [Force(forced, now)]);
            && b'.state == forced
            && b'.openedAt == (if forced == Open then Some(now) else if forced == Closed then None else b.openedAt)
            && b'.consecutiveFailures == (if forced == Closed then 0 else b.consecutiveFailures)
            && b' == b.(state := b'.state, openedAt := b'.openedAt, consecutiveFailures := b'.consecutiveFailures)
  {
    RunNext(config, events, Force(forced, now));
  }

  // ---- Open exactly since when ----

  /** The failures since the last success, reset or forced close reach the threshold. */
  ghost predicate ThresholdReached(config: CircuitConfig, events: seq<Event>) {
    exists j: nat :: LastFailureRun(events, j) && Failures(events[j..]) >= config.failureThreshold
  }

  /** Event `k` opens the breaker at time `t`: a forced opening, or a failure of a half-open
      breaker, or one that completes a run of `failureThreshold` failures of a closed breaker. */
  ghost predicate OpensAt(config: CircuitConfig, events: seq<Event>, k: nat, t: nat) {
    && k < |events|
    && var before := Run(config, events[..k]).state;
    || events[k] == Force(Open, t)
    || (&& events[k] == Failure(t)
        && (before.HalfOpen? || (before.Closed? && ThresholdReached(config, events[..k + 1]))))
  }

  /** Since event `k` there were only failures, and requests before the timeout. */
  ghost predicate QuietAfter(config: CircuitConfig, events: seq<Event>, k: nat, t: nat) {
    forall i :: k < i < |events| ==>
      events[i].Failure? || (events[i].Request? && Early(config, t, events[i].now))
  }

  lemma OpensNow(config: CircuitConfig, events: seq<Event>, e: Event, t: nat)
    ensures OpensAt(config, events + [e], |events|, t) ==>
              Run(config, events + [e]).state.Open? && Run(config, events + [e]).openedAt == Some(t)
    ensures e.Failure? && !Run(config, events).state.Open? && Run(config, events + [e]).state.Open? ==>
              OpensAt(config, events + [e], |events|, e.now)
  {
    var all := events + [e];
    assert all[..|events|] == events && all[..|events| + 1] == all;
    RunNext(config, events, e);
    if e.Failure? {
      var k := FailuresSummarised(config, all);
      FailureOpensExactly(config, events, e.now, k);
      forall j: nat | LastFailureRun(all, j) ensures j == k { SameRun(all, j, k); }
    }
  }

  lemma OpensAtPrefix(config: CircuitConfig, events: seq<Event>, n: nat, k: nat, t: nat)
    requires k < n <= |events|
    ensures OpensAt(config, events[..n], k, t) <==> OpensAt(config, events, k, t)
  {
    assert events[..n][..k] == events[..k] && events[..n][..k + 1] == events[..k + 1];
  }

  /** A breaker that was opened stays open, with that date, as long as nothing but failures
      and early requests follow. */
  lemma {:induction false} OpenedStaysOpen(config: CircuitConfig, events: seq<Event>, k: nat, t: nat)
    requires OpensAt(config, events, k, t) && QuietAfter(config, events, k, t)
    ensures Run(config, events).state.Open? && Run(config, events).openedAt == Some(t)
  {
    var n := |events| - 1;
    assert events == events[..n] + [events[n]];
    if k == n {
      OpensNow(config, events[..n], events[n], t);
    } else {
      OpensAtPrefix(config, events, n, k, t);
      OpenedStaysOpen(config, events[..n], k, t);
      var _ := FailuresSummarised(config, events[..n]);
    }
  }

  /** Only such a history leaves a breaker open. */
  lemma {:induction false} OpenWasOpened(config: CircuitConfig, events: seq<Event>) returns (k: nat, t: nat)
    requires Run(config, events).state.Open?
    ensures OpensAt(config, events, k, t) && QuietAfter(config, events, k, t)
    ensures Run(config, events).openedAt == Some(t)
  {
    var n := |events| - 1;
    assert events == events[..n] + [events[n]];
    var b := Run(config, events[..n]);
    if events[n].Force? {
      k, t := n, events[n].now;
    } else if b.state.Open? {
      k, t := OpenWasOpened(config, events[..n]);
      OpensAtPrefix(config, events, n, k, t);
      var _ := FailuresSummarised(config, events[..n]);
    } else {
      k, t := n, events[n].now;
      OpensNow(config, events[..n], events[n], t);
    }
  }

  /** In every run, a breaker is open exactly if some event opened it and since then there
      were only failures, and requests before the timeout. */
  lemma OpenIffOpened(config: CircuitConfig, events: seq<Event>)
    ensures Run(config, events).state.Open? <==> exists k, t :: OpensAt(config, events, k, t) && QuietAfter(config, events, k, t)
  {
    if Run(config, events).state.Open? {
      var k, t := OpenWasOpened(config, events);
    }
    forall k, t | OpensAt(config, events, k, t) && QuietAfter(config, events, k, t) ensures Run(config, events).state.Open? {
      OpenedStaysOpen(config, events, k, t);
    }
  }

  // ---- Timing ----

  /** The breaker after more events. */
  function RunFrom(b: Breaker, events: seq<Event>): Breaker {
    if events == [] then b
    else After(RunFrom(b, events[..|events| - 1]), events[|events| - 1])
  }

  lemma {:induction false} RunsCompose(config: CircuitConfig, before: seq<Event>, events: seq<Event>)
    ensures Run(config, before + events) == RunFrom(Run(config, before), events)
  {
    if events == [] {
      assert before + events == before;
    } else {
      var n := |events| - 1;
      RunsCompose(config, before, events[..n]);
      assert (before + events)[..|before| + n] == before + events[..n];
    }
  }

  function Requests(events: seq<Event>): nat {
    if events == [] then 0
    else Requests(events[..|events| - 1]) + if events[|events| - 1].Request? then 1 else 0
  }

  /** Nothing but requests before the timeout, and late failures. */
  ghost predicate QuietUntil(events: seq<Event>, since: nat, timeout: nat) {
    forall i :: 0 <= i < |events| ==>
      events[i].Failure? || (events[i].Request? && since <= events[i].now < since + timeout)
  }

  /** While the recovery timeout runs, an open breaker stays open and rejects and counts
      every request; the first request after it is admitted as a probe. */
  lemma {:induction false} OpenUntilTimeout(b: Breaker, since: nat, events: seq<Event>)
    requires b.state.Open? && b.openedAt == Some(since)
    requires QuietUntil(events, since, b.config.recoveryTimeout)
    ensures var b' := RunFrom(b, events);
            && b'.state.Open? && b'.openedAt == b.openedAt && b'.config == b.config
            && b'.totalRejected == b.totalRejected + Requests(events)
            && (forall now :: since <= now ==> (Admits(b', now) <==> since + b.config.recoveryTimeout <= now))
            && (forall now :: since + b.config.recoveryTimeout <= now ==> After(b', Request(now)).state.HalfOpen?)
  {
    if events != [] {
      OpenUntilTimeout(b, since, events[..|events| - 1]);
    }
  }

  /** In every run, a failure at time `t` that opens the breaker starts such a window. */
  lemma OpeningStartsWindow(config: CircuitConfig, events: seq<Event>, t: nat, quiet: seq<Event>, now: nat)
    requires !Run(config, events).state.Open? && Run(config, events + [Failure(t)]).state.Open?
    requires QuietUntil(quiet, t, config.recoveryTimeout) && t <= now
    ensures Run(config, events + [Failure(t)] + quiet).state.Open?
    ensures Run(config, events + [Failure(t)] + quiet).totalRejected == Run(config, events).totalRejected + Requests(quiet)
    ensures Admits(Run(config, events + [Failure(t)] + quiet), now) <==> t + config.recoveryTimeout <= now
  {
    var opening := events + [Failure(t)];
    assert opening[..|events|] == events;
    var _ := FailuresSummarised(config, opening);
    RunsCompose(config, opening, quiet);
    OpenUntilTimeout(Run(config, opening), t, quiet);
  }

  /** After a probe is admitted, successes alone close the breaker exactly when there have
      been enough of them, and at least one. */
  lemma {:induction false} ProbesCloseExactly(b: Breaker, now: nat, events: seq<Event>)
    requires b.state.Open? && Admits(b, now)
    requires forall i :: 0 <= i < |events| ==> events[i].Success? || events[i].Request?
    ensures var b' := RunFrom(After(b, Request(now)), events);
            && b'.config == b.config
            && (b'.state.Closed? <==> Successes(events) >= 1 && Successes(events) >= b.config.successThreshold)
            && (b'.state.HalfOpen? <==> !b'.state.Closed?)
            && b'.consecutiveSuccesses == Successes(events)
  {
    if events != [] {
      ProbesCloseExactly(b, now, events[..|events| - 1]);
    }
  }

  // ---- The registry ----

  /** What a caller tells the registry: a registration, or an event of one provider. */
  datatype Entry = Register(config: CircuitConfig) | On(event: Event)

  datatype Call = Call(provider: string, entry: Entry)

  /** Requests and failures create a missing breaker; a success for an unknown provider is ignored. */
  function Updated(b: Option<Breaker>, defaultConfig: CircuitConfig, entry: Entry): Option<Breaker> {
    match entry
    case Register(config) => Some(New(config))
    case On(event) =>
      if b.None? && event.Success? then None
      else Some(After(if b.Some? then b.value else New(defaultConfig), event))
  }

  function Find(breakers: map<string, Breaker>, provider: string): Option<Breaker> {
    if provider in breakers then Some(breakers[provider]) else None
  }

  /** `calls` lists what the registry has been told; its breakers are the outcome. */
  class CircuitBreakerRegistry {
    const defaultConfig: CircuitConfig
    var breakers: map<string, Breaker>
    ghost var calls: seq<Call>

    ghost predicate Valid()
      reads this
    {
      breakers == RegistryRun(defaultConfig, calls)
    }

    constructor (defaultConfig: CircuitConfig)
      ensures Valid() && this.defaultConfig == defaultConfig && calls == []
    {
      this.defaultConfig := defaultConfig;
      breakers := map[];
      calls := [];
    }

    method RegisterProvider(name: string, config: CircuitConfig)
      requires Valid()
      modifies this
      ensures Valid() && calls == old(calls) + [Call(name, Register(config))]
      ensures breakers == Step(defaultConfig, old(breakers), Call(name, Register(config)))
    {
      RegistryRunNext(defaultConfig, calls, Call(name, Register(config)));
      calls := calls + [Call(name, Register(config))];
      breakers := breakers[name := New(config)];
    }

    method AllowRequest(provider: string, now: nat) returns (allowed: bool)
      requires Valid()
      modifies this
      ensures Valid() && calls == old(calls) + [Call(provider, On(Request(now)))]
      ensures breakers == Step(defaultConfig, old(breakers), Call(provider, On(Request(now))))
      ensures allowed == (provider in old(breakers) ==> Admits(old(breakers)[provider], now))
    {
      RegistryRunNext(defaultConfig, calls, Call(provider, On(Request(now))));
      calls := calls + [Call(provider, On(Request(now)))];
      if provider !in breakers {
        breakers := breakers[provider := New(defaultConfig)];
      }
      allowed := Admits(breakers[provider], now);
      breakers := breakers[provider := After(breakers[provider], Request(now))];
    }

    method RecordSuccess(provider: string)
      requires Valid()
      modifies this
      ensures Valid() && calls == old(calls) + [Call(provider, On(Success))]
      ensures breakers == Step(defaultConfig, old(breakers), Call(provider, On(Success)))
    {
      RegistryRunNext(defaultConfig, calls, Call(provider, On(Success)));
      calls := calls + [Call(provider, On(Success))];
      if provider in breakers {
        breakers := breakers[provider := After(breakers[provider], Success)];
      }
    }

    method RecordFailure(provider: string, now: nat)
      requires Valid()
      modifies this
      ensures Valid() && calls == old(calls) + [Call(provider, On(Failure(now)))]
      ensures breakers == Step(defaultConfig, old(breakers), Call(provider, On(Failure(now))))
    {
      RegistryRunNext(defaultConfig, calls, Call(provider, On(Failure(now))));
      calls := calls + [Call(provider, On(Failure(now)))];
      if provider !in breakers {
        breakers := breakers[provider := New(defaultConfig)];
      }
      breakers := breakers[provider := After(breakers[provider], Failure(now))];
    }
  }

  function Step(defaultConfig: CircuitConfig, breakers: map<string, Breaker>, call: Call): map<string, Breaker> {
    var b := Updated(Find(breakers, call.provider), defaultConfig, call.entry);
    if b.Some? then breakers[call.provider := b.value] else breakers
  }

  function RegistryRun(defaultConfig: CircuitConfig, calls: seq<Call>): map<string, Breaker> {
    if calls == [] then map[]
    else Step(defaultConfig, RegistryRun(defaultConfig, calls[..|calls| - 1]), calls[|calls| - 1])
  }

  lemma RegistryRunNext(defaultConfig: CircuitConfig, calls: seq<Call>, call: Call)
    ensures RegistryRun(defaultConfig, calls + [call]) == Step(defaultConfig, RegistryRun(defaultConfig, calls), call)
  {
    assert (calls + [call])[..|calls|] == calls;
  }

  /** What one provider's breaker has been fed: a configuration and the events since. */
  datatype Feed = Feed(config: CircuitConfig, events: seq<Event>)

  /** A registration restarts the feed; before one, the first request or failure starts it
      with the default configuration. Calls about other providers are passed over. */
  function FeedOf(defaultConfig: CircuitConfig, calls: seq<Call>, provider: string): Option<Feed> {
    if calls == [] then None
    else
      var feed, last := FeedOf(defaultConfig, calls[..|calls| - 1], provider), calls[|calls| - 1];
      if last.provider != provider then feed
      else if last.entry.Register? then Some(Feed(last.entry.config, []))
      else if feed.Some? then Some(Feed(feed.value.config, feed.value.events + [last.entry.event]))
      else if last.entry.event.Success? then None
      else Some(Feed(defaultConfig, [last.entry.event]))
  }

  /** In every run of the registry, each provider's breaker is a lone breaker fed that
      provider's events and no others. */
  lemma {:induction false} ProvidersAreIndependent(defaultConfig: CircuitConfig, calls: seq<Call>, provider: string)
    ensures var feed := FeedOf(defaultConfig, calls, provider);
            Find(RegistryRun(defaultConfig, calls), provider)
            == if feed.Some? then Some(Run(feed.value.config, feed.value.events)) else None
  {
    if calls != [] {
      var n := |calls| - 1;
      ProvidersAreIndependent(defaultConfig, calls[..n], provider);
      var feed, entry := FeedOf(defaultConfig, calls[..n], provider), calls[n].entry;
      if calls[n].provider == provider && entry.On? {
        var before := if feed.Some? then feed.value else Feed(defaultConfig, []);
        RunNext(before.config, before.events, entry.event);
        assert feed.None? ==> before.events + [entry.event] == [entry.event];
      }
    }
  }

  lemma RunNext(config: CircuitConfig, events: seq<Event>, e: Event)
    ensures Run(config, events + [e]) == After(Run(config, events), e)
  {
    assert (events + [e])[..|events|] == events;
  }
}
