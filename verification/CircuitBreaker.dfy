/** The three-state circuit breaker guarding each LLM provider, and what its state says
    about the history of calls. Every method runs under one mutex, so a history is an
    arbitrary sequence of `Allow`, `RecordSuccess` and `RecordFailure` steps. */
module CircuitBreaker {
  import opened Common

  datatype State = Closed | Open | HalfOpen

  datatype Config = Config(failureThreshold: int, successThreshold: int, openTimeout: Time, halfOpenMaxReqs: int)

  const DEFAULT_CONFIG := Config(5, 3, 30 * SECOND, 1)

  datatype Breaker = Breaker(state: State, failures: int, successes: int, halfOpenReqs: int, lastFailureTime: Time)

  const FRESH := Breaker(Closed, 0, 0, 0, 0)

  function SetState(b: Breaker, s: State): Breaker {
    if b.state == s then b
    else match s
      case Closed => b.(state := s, failures := 0, successes := 0, halfOpenReqs := 0)
      case Open => b.(state := s, successes := 0, halfOpenReqs := 0)
      case HalfOpen => b.(state := s, failures := 0, successes := 0, halfOpenReqs := 0)
  }

  predicate Admits(cfg: Config, b: Breaker, now: Time) {
    match b.state
    case Closed => true
    case Open => now - b.lastFailureTime > cfg.openTimeout
    case HalfOpen => b.halfOpenReqs < cfg.halfOpenMaxReqs
  }

  function AfterAllow(cfg: Config, b: Breaker, now: Time): Breaker {
    if !Admits(cfg, b, now) then b
    else match b.state
      case Closed => b
      case Open => SetState(b, HalfOpen).(halfOpenReqs := 1)
      case HalfOpen => b.(halfOpenReqs := b.halfOpenReqs + 1)
  }

  function Released(b: Breaker): Breaker {
    if b.halfOpenReqs > 0 then b.(halfOpenReqs := b.halfOpenReqs - 1) else b
  }

  function AfterSuccess(cfg: Config, b: Breaker): Breaker {
    match b.state
    case HalfOpen =>
      var b' := Released(b.(successes := b.successes + 1));
      if b'.successes >= cfg.successThreshold then SetState(b', Closed) else b'
    case Closed => b.(failures := 0)
    case Open => b
  }

  function AfterFailure(cfg: Config, b: Breaker, now: Time): Breaker {
    var b' := b.(lastFailureTime := now);
    match b.state
    case Closed =>
      var b'' := b'.(failures := b'.failures + 1);
      if b''.failures >= cfg.failureThreshold then SetState(b'', Open) else b''
    case HalfOpen => SetState(Released(b'), Open)
    case Open => b'
  }

  class CircuitBreaker {
    const config: Config
    var state: State
    var failures: int
    var successes: int
    var halfOpenReqs: int
    var lastFailureTime: Time

    ghost function View(): Breaker
      reads this
    {
      Breaker(state, failures, successes, halfOpenReqs, lastFailureTime)
    }

    constructor (config: Config)
      ensures this.config == config && View() == FRESH
    {
      this.config := config;
      state, failures, successes, halfOpenReqs, lastFailureTime := Closed, 0, 0, 0, 0;
    }

    method Allow(now: Time) returns (ok: bool)
      modifies this
      ensures ok == Admits(config, old(View()), now)
      ensures View() == AfterAllow(config, old(View()), now)
    {
      match state {
        case Closed =>
          return true;
        case Open =>
          if now - lastFailureTime > config.openTimeout {
            ChangeState(HalfOpen);
            halfOpenReqs := 1;
            return true;
          }
          return false;
        case HalfOpen =>
          if halfOpenReqs >= config.halfOpenMaxReqs {
            return false;
          }
          halfOpenReqs := halfOpenReqs + 1;
          return true;
      }
    }

    method RecordSuccess()
      modifies this
      ensures View() == AfterSuccess(config, old(View()))
    {
      match state {
        case HalfOpen =>
          successes := successes + 1;
          if halfOpenReqs > 0 {
            halfOpenReqs := halfOpenReqs - 1;
          }
          if successes >= config.successThreshold {
            ChangeState(Closed);
          }
        case Closed =>
          failures := 0;
        case Open =>
      }
    }

    method RecordFailure(now: Time)
      modifies this
      ensures View() == AfterFailure(config, old(View()), now)
    {
      lastFailureTime := now;
      match state {
        case Closed =>
          failures := failures + 1;
          if failures >= config.failureThreshold {
            ChangeState(Open);
          }
        case HalfOpen =>
          if halfOpenReqs > 0 {
            halfOpenReqs := halfOpenReqs - 1;
          }
          ChangeState(Open);
        case Open =>
      }
    }

    method ChangeState(newState: State)
      modifies this
      ensures View() == SetState(old(View()), newState)
    {
      if state == newState {
        return;
      }
      state := newState;
      match newState {
        case Closed => failures, successes, halfOpenReqs := 0, 0, 0;
        case Open => successes, halfOpenReqs := 0, 0;
        case HalfOpen => failures, successes, halfOpenReqs := 0, 0, 0;
      }
    }
  }

  // ------------------------------------------------------------------------ histories

  datatype Event = Allowed(now: Time) | Succeeded | Failed(now: Time)

  function Apply(cfg: Config, b: Breaker, e: Event): Breaker {
    match e
    case Allowed(now) => AfterAllow(cfg, b, now)
    case Succeeded => AfterSuccess(cfg, b)
    case Failed(now) => AfterFailure(cfg, b, now)
  }

  function Run(cfg: Config, es: seq<Event>): Breaker {
    if es == [] then FRESH else Apply(cfg, Run(cfg, es[..|es|-1]), es[|es|-1])
  }

  /** The state after the first `i` events. */
  function StateAt(cfg: Config, es: seq<Event>, i: nat): State
    requires i <= |es|
  {
    Run(cfg, es[..i]).state
  }

  function Max(a: int, b: int): int {
    if a >= b then a else b
  }

  function FailuresFrom(es: seq<Event>, j: nat): nat {
    if |es| <= j then 0 else FailuresFrom(es[..|es|-1], j) + if es[|es|-1].Failed? then 1 else 0
  }

  function SuccessesFrom(es: seq<Event>, j: nat): nat {
    if |es| <= j then 0 else SuccessesFrom(es[..|es|-1], j) + if es[|es|-1].Succeeded? then 1 else 0
  }

  function LatestFailure(es: seq<Event>): Option<Time> {
    if es == [] then None
    else if es[|es|-1].Failed? then Some(es[|es|-1].now)
    else LatestFailure(es[..|es|-1])
  }

  /** Position `j` is where the current closed stretch without a success began: the
      start, a closing, or just after a success. Only states and events are mentioned. */
  ghost predicate ClosedSince(cfg: Config, es: seq<Event>, j: nat) {
    && j <= |es|
    && (forall i :: j <= i <= |es| ==> StateAt(cfg, es, i) == Closed)
    && (forall i :: j <= i < |es| ==> !es[i].Succeeded?)
    && (j == 0 || StateAt(cfg, es, j - 1) != Closed || es[j - 1].Succeeded?)
  }

  /** Position `j` is where the current half-open stretch began. */
  ghost predicate HalfOpenSince(cfg: Config, es: seq<Event>, j: nat) {
    && 1 <= j <= |es|
    && (forall i :: j <= i <= |es| ==> StateAt(cfg, es, i) == HalfOpen)
    && StateAt(cfg, es, j - 1) != HalfOpen
  }

  lemma {:induction false} PrefixStates(cfg: Config, es: seq<Event>)
    requires es != []
    ensures forall i :: 0 <= i < |es| ==> StateAt(cfg, es[..|es|-1], i) == StateAt(cfg, es, i)
    ensures StateAt(cfg, es, |es|) == Run(cfg, es).state
    ensures StateAt(cfg, es, |es| - 1) == Run(cfg, es[..|es|-1]).state
  {
    var before := es[..|es|-1];
    forall i | 0 <= i < |es| ensures StateAt(cfg, before, i) == StateAt(cfg, es, i) {
      assert before[..i] == es[..i];
    }
    assert es[..|es|] == es;
  }

  /** Counters stay in range in every reachable state, whatever the configuration. */
  lemma {:induction false} CountersInRange(cfg: Config, es: seq<Event>)
    ensures var b := Run(cfg, es);
            && 0 <= b.halfOpenReqs <= Max(1, cfg.halfOpenMaxReqs)
            && (b.state != HalfOpen ==> b.halfOpenReqs == 0 && b.successes == 0)
            && (b.state == Closed ==> 0 <= b.failures < Max(1, cfg.failureThreshold))
            && (b.state == HalfOpen ==> 0 <= b.successes < Max(1, cfg.successThreshold) && b.failures == 0)
  {
    if es != [] {
      CountersInRange(cfg, es[..|es|-1]);
    }
  }

  lemma {:induction false} ClosedStretchExists(cfg: Config, es: seq<Event>)
    requires Run(cfg, es).state == Closed
    ensures exists j :: ClosedSince(cfg, es, j)
  {
    assert es[..|es|] == es;
    if es == [] {
      assert ClosedSince(cfg, es, 0);
    } else {
      PrefixStates(cfg, es);
      var before := es[..|es|-1];
      if StateAt(cfg, es, |es| - 1) != Closed || es[|es|-1].Succeeded? {
        assert ClosedSince(cfg, es, |es|);
      } else {
        ClosedStretchExists(cfg, before);
        var j :| ClosedSince(cfg, before, j);
        assert ClosedSince(cfg, es, j);
      }
    }
  }

  /** While closed, `failures` counts the failures since the last success or closing. */
  lemma {:induction false} ClosedCounts(cfg: Config, es: seq<Event>, j: nat)
    requires ClosedSince(cfg, es, j)
    ensures Run(cfg, es).failures == FailuresFrom(es, j)
  {
    if es != [] {
      PrefixStates(cfg, es);
      CountersInRange(cfg, es[..|es|-1]);
      if j < |es| {
        var before := es[..|es|-1];
        assert forall i :: j <= i <= |before| ==> StateAt(cfg, before, i) == StateAt(cfg, es, i) == Closed;
        assert ClosedSince(cfg, before, j);
        ClosedCounts(cfg, before, j);
      } else {
        assert StateAt(cfg, es, |es|) == Closed;
      }
    }
  }

  /** A closed circuit opens exactly when the failures since the last success or closing
      reach the threshold, and on nothing else. */
  lemma {:induction false} ClosedOpensExactlyAtThreshold(cfg: Config, es: seq<Event>, j: nat, e: Event)
    requires ClosedSince(cfg, es, j)
    ensures var next := Run(cfg, es + [e]).state;
            && (next == Open <==> e.Failed? && FailuresFrom(es + [e], j) == Max(1, cfg.failureThreshold))
            && next != HalfOpen
            && (next == Open ==> Run(cfg, es + [e]).failures == FailuresFrom(es + [e], j))
  {
    ClosedCounts(cfg, es, j);
    CountersInRange(cfg, es);
    assert (es + [e])[..|es|] == es && es[..|es|] == es;
    assert StateAt(cfg, es, |es|) == Closed;
  }

  lemma {:induction false} HalfOpenStretchExists(cfg: Config, es: seq<Event>)
    requires Run(cfg, es).state == HalfOpen
    ensures exists j :: HalfOpenSince(cfg, es, j)
  {
    PrefixStates(cfg, es);
    if StateAt(cfg, es, |es| - 1) != HalfOpen {
      assert HalfOpenSince(cfg, es, |es|);
    } else {
      HalfOpenStretchExists(cfg, es[..|es|-1]);
      var j :| HalfOpenSince(cfg, es[..|es|-1], j);
      assert HalfOpenSince(cfg, es, j);
    }
  }

  /** Half-open is entered from open, by an admitted call; while it lasts there is no
      failure, and `successes` counts the successes since entry. */
  lemma {:induction false} HalfOpenCounts(cfg: Config, es: seq<Event>, j: nat)
    requires HalfOpenSince(cfg, es, j)
    ensures StateAt(cfg, es, j - 1) == Open && es[j - 1].Allowed?
    ensures FailuresFrom(es, j) == 0
    ensures Run(cfg, es).successes == SuccessesFrom(es, j)
  {
    PrefixStates(cfg, es);
    assert StateAt(cfg, es, |es|) == HalfOpen;
    if j < |es| {
      var before := es[..|es|-1];
      assert forall i :: j <= i <= |before| ==> StateAt(cfg, before, i) == StateAt(cfg, es, i) == HalfOpen;
      assert HalfOpenSince(cfg, before, j);
      HalfOpenCounts(cfg, before, j);
    }
  }

  /** A half-open circuit closes exactly when the successes since entry reach the
      threshold, and opens exactly on a failure. */
  lemma {:induction false} HalfOpenResolvesExactly(cfg: Config, es: seq<Event>, j: nat, e: Event)
    requires HalfOpenSince(cfg, es, j)
    ensures var next := Run(cfg, es + [e]).state;
            && (next == Closed <==> e.Succeeded? && SuccessesFrom(es + [e], j) == Max(1, cfg.successThreshold))
            && (next == Open <==> e.Failed?)
            && (next == Open ==> Run(cfg, es + [e]).failures == 0)
  {
    HalfOpenCounts(cfg, es, j);
    CountersInRange(cfg, es);
    assert (es + [e])[..|es|] == es && es[..|es|] == es;
    assert StateAt(cfg, es, |es|) == HalfOpen;
  }

  /** How many calls were let through from position `j` on. */
  function AdmittedFrom(cfg: Config, es: seq<Event>, j: nat): nat {
    if |es| <= j then 0
    else
      var before, e := es[..|es|-1], es[|es|-1];
      AdmittedFrom(cfg, before, j) + if e.Allowed? && Admits(cfg, Run(cfg, before), e.now) then 1 else 0
  }

  /** The probe limit: since the call that made the circuit half-open, and counting it, at
      most the limit more calls were let through than have succeeded. A taken slot stands
      for a call let through that has not yet succeeded. */
  lemma {:induction false} ProbesAreLimited(cfg: Config, es: seq<Event>, j: nat)
    requires HalfOpenSince(cfg, es, j)
    ensures var admitted, slots := AdmittedFrom(cfg, es, j - 1), Run(cfg, es).halfOpenReqs;
            && slots <= admitted <= SuccessesFrom(es, j) + slots
            && admitted <= SuccessesFrom(es, j) + Max(1, cfg.halfOpenMaxReqs)
  {
    PrefixStates(cfg, es);
    CountersInRange(cfg, es);
    CountersInRange(cfg, es[..|es|-1]);
    assert StateAt(cfg, es, |es|) == HalfOpen;
    if j < |es| {
      var before := es[..|es|-1];
      assert forall i :: j <= i <= |before| ==> StateAt(cfg, before, i) == StateAt(cfg, es, i) == HalfOpen;
      assert HalfOpenSince(cfg, before, j);
      ProbesAreLimited(cfg, before, j);
    }
  }

  lemma {:induction false} LatestFailureIsRemembered(cfg: Config, es: seq<Event>)
    ensures LatestFailure(es).Some? ==> Run(cfg, es).lastFailureTime == LatestFailure(es).value
    ensures Run(cfg, es).state != Closed ==> LatestFailure(es).Some?
  {
    if es != [] {
      LatestFailureIsRemembered(cfg, es[..|es|-1]);
    }
  }

  /** An open circuit admits a call, and leaves the open state, exactly when more than
      the timeout has passed since the latest failure in the whole history, failures
      recorded while open included. */
  lemma {:induction false} OpenAdmitsOnlyAfterTimeout(cfg: Config, es: seq<Event>, e: Event)
    requires Run(cfg, es).state == Open
    ensures LatestFailure(es).Some?
    ensures forall now :: Admits(cfg, Run(cfg, es), now) <==> now - LatestFailure(es).value > cfg.openTimeout
    ensures Run(cfg, es + [e]).state ==
            if e.Allowed? && e.now - LatestFailure(es).value > cfg.openTimeout then HalfOpen else Open
  {
    LatestFailureIsRemembered(cfg, es);
    assert (es + [e])[..|es|] == es;
  }
}
