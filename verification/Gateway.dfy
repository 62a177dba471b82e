/** The LLM gateway: one breaker for each provider, driven by concurrent calls. `Allow`
    and the recording of the outcome are separate steps of a call. */
module Gateway {
  import opened Common
  import opened History = CircuitBreaker

  datatype ChatError = UnsupportedProvider | CircuitOpen | ProviderFailed

  datatype Outcome = Ok | Err(error: ChatError)

  class Gateway {
    var providers: set<string>
    var circuitBreakers: map<string, CircuitBreaker>

    constructor ()
      ensures providers == {} && circuitBreakers == map[]
    {
      providers, circuitBreakers := {}, map[];
    }

    ghost predicate Valid()
      reads this
    {
      forall p, q :: p in circuitBreakers && q in circuitBreakers && p != q ==> circuitBreakers[p] != circuitBreakers[q]
    }

    /** Registering a provider gives it a fresh breaker of its own. */
    method Register(name: string)
      requires Valid()
      modifies this
      ensures Valid() && providers == old(providers) + {name}
      ensures name in circuitBreakers && fresh(circuitBreakers[name])
      ensures circuitBreakers == old(circuitBreakers)[name := circuitBreakers[name]]
      ensures circuitBreakers[name].View() == FRESH
      ensures circuitBreakers[name].config == Config(5, 3, 30_000_000_000, 1)
    {
      providers := providers + {name};
      var cb := new CircuitBreaker(DEFAULT_CONFIG);
      circuitBreakers := circuitBreakers[name := cb];
    }

    /** A whole non-streaming call with nothing interleaved: `good` is what the provider
        answers, `later` when it answers. */
    method Chat(provider: string, good: bool, now: Time, later: Time) returns (r: Outcome)
      requires Valid()
      modifies if provider in circuitBreakers then {circuitBreakers[provider]} else {}
      ensures Valid()
      ensures provider !in providers ==> r == Err(UnsupportedProvider)
      ensures provider in providers && provider in circuitBreakers ==>
                var cb := circuitBreakers[provider];
                if !Admits(cb.config, old(cb.View()), now) then r == Err(CircuitOpen)
                else r == if good then Ok else Err(ProviderFailed)
      ensures provider in providers && provider !in circuitBreakers ==> r == if good then Ok else Err(ProviderFailed)
      ensures provider in circuitBreakers ==>
                var cb := circuitBreakers[provider];
                cb.View() ==
                if provider !in providers || !Admits(cb.config, old(cb.View()), now) then old(cb.View())
                else if good then AfterSuccess(cb.config, AfterAllow(cb.config, old(cb.View()), now))
                else AfterFailure(cb.config, AfterAllow(cb.config, old(cb.View()), now), later)
      ensures forall q :: q in circuitBreakers && q != provider ==>
                circuitBreakers[q].View() == old(circuitBreakers[q].View())
    {
      if provider !in providers {
        return Err(UnsupportedProvider);
      }
      if provider in circuitBreakers {
        var ok := circuitBreakers[provider].Allow(now);
        if !ok {
          return Err(CircuitOpen);
        }
      }
      if good {
        if provider in circuitBreakers {
          circuitBreakers[provider].RecordSuccess();
        }
        return Ok;
      }
      if provider in circuitBreakers {
        circuitBreakers[provider].RecordFailure(later);
      }
      return Err(ProviderFailed);
    }

    /** Opening a stream. Success is not recorded, since the stream may still fail while
        it is read. */
    method ChatStream(provider: string, opens: bool, now: Time, later: Time) returns (r: Outcome)
      requires Valid()
      modifies if provider in circuitBreakers then {circuitBreakers[provider]} else {}
      ensures Valid()
      ensures provider !in providers ==> r == Err(UnsupportedProvider)
      ensures provider in providers && provider in circuitBreakers ==>
                var cb := circuitBreakers[provider];
                if !Admits(cb.config, old(cb.View()), now) then r == Err(CircuitOpen)
                else r == if opens then Ok else Err(ProviderFailed)
      ensures provider in providers && provider !in circuitBreakers ==> r == if opens then Ok else Err(ProviderFailed)
      ensures provider in circuitBreakers ==>
                var cb := circuitBreakers[provider];
                cb.View() ==
                if provider !in providers || !Admits(cb.config, old(cb.View()), now) then old(cb.View())
                else if opens then AfterAllow(cb.config, old(cb.View()), now)
                else AfterFailure(cb.config, AfterAllow(cb.config, old(cb.View()), now), later)
      ensures forall q :: q in circuitBreakers && q != provider ==>
                circuitBreakers[q].View() == old(circuitBreakers[q].View())
    {
      if provider !in providers {
        return Err(UnsupportedProvider);
      }
      if provider in circuitBreakers {
        var ok := circuitBreakers[provider].Allow(now);
        if !ok {
          return Err(CircuitOpen);
        }
      }
      if opens {
        return Ok;
      }
      if provider in circuitBreakers {
        circuitBreakers[provider].RecordFailure(later);
      }
      return Err(ProviderFailed);
    }
  }

  // ------------------------------------------------------------------ concurrent runs

  /** Providers with their breakers, the calls between `Allow` and their outcome, and the
      streams that opened: an opened stream never reports an outcome. */
  datatype Calls = Calls(breakers: map<string, Breaker>, chats: multiset<string>,
                         opening: multiset<string>, streams: multiset<string>)

  datatype Step =
    | ChatBegin(provider: string, now: Time)
    | ChatEnd(provider: string, good: bool, now: Time)
    | StreamBegin(provider: string, now: Time)
    | StreamEnd(provider: string, good: bool, now: Time)

  type Configs = map<string, Config>

  predicate Lets(cfgs: Configs, g: Calls, p: string, now: Time) {
    p in g.breakers && p in cfgs && Admits(cfgs[p], g.breakers[p], now)
  }

  function Entered(cfgs: Configs, g: Calls, p: string, now: Time): map<string, Breaker>
    requires Lets(cfgs, g, p, now)
  {
    g.breakers[p := AfterAllow(cfgs[p], g.breakers[p], now)]
  }

  /** One step of a concurrent run. A refused call changes nothing, and only a call that
      was let through can end. */
  function Next(cfgs: Configs, g: Calls, s: Step): Calls {
    var p := s.provider;
    if p !in g.breakers || p !in cfgs then g
    else match s
      case ChatBegin(_, now) =>
        if !Lets(cfgs, g, p, now) then g
        else g.(breakers := Entered(cfgs, g, p, now), chats := g.chats + multiset{p})
      case StreamBegin(_, now) =>
        if !Lets(cfgs, g, p, now) then g
        else g.(breakers := Entered(cfgs, g, p, now), opening := g.opening + multiset{p})
      case ChatEnd(_, good, now) =>
        if p !in g.chats then g
        else g.(chats := g.chats - multiset{p},
                breakers := g.breakers[p := if good then AfterSuccess(cfgs[p], g.breakers[p])
                                            else AfterFailure(cfgs[p], g.breakers[p], now)])
      case StreamEnd(_, good, now) =>
        if p !in g.opening then g
        else if good then g.(opening := g.opening - multiset{p}, streams := g.streams + multiset{p})
        else g.(opening := g.opening - multiset{p},
                breakers := g.breakers[p := AfterFailure(cfgs[p], g.breakers[p], now)])
  }

  function Run(cfgs: Configs, g: Calls, steps: seq<Step>): Calls {
    if steps == [] then g else Next(cfgs, Run(cfgs, g, steps[..|steps|-1]), steps[|steps|-1])
  }

  /** All breakers fresh, nothing in flight. */
  function Start(cfgs: Configs): Calls {
    Calls(map p | p in cfgs :: FRESH, multiset{}, multiset{}, multiset{})
  }

  /** A whole `Chat` call that is let through is two steps with nothing in between: they
      leave the breaker as that method does, and nothing in flight. */
  lemma {:induction false} ChatIsTwoSteps(cfgs: Configs, g: Calls, p: string, good: bool, now: Time, later: Time)
    requires Lets(cfgs, g, p, now)
    ensures var b := AfterAllow(cfgs[p], g.breakers[p], now);
            Next(cfgs, Next(cfgs, g, ChatBegin(p, now)), ChatEnd(p, good, later)) ==
            g.(breakers := g.breakers[p := if good then AfterSuccess(cfgs[p], b) else AfterFailure(cfgs[p], b, later)])
  {
    assert g.chats + multiset{p} - multiset{p} == g.chats;
  }

  /** Likewise `ChatStream`: only a stream that fails to open tells the breaker. */
  lemma {:induction false} StreamIsTwoSteps(cfgs: Configs, g: Calls, p: string, opens: bool, now: Time, later: Time)
    requires Lets(cfgs, g, p, now)
    ensures var b := AfterAllow(cfgs[p], g.breakers[p], now);
            Next(cfgs, Next(cfgs, g, StreamBegin(p, now)), StreamEnd(p, opens, later)) ==
            if opens then g.(breakers := g.breakers[p := b], streams := g.streams + multiset{p})
            else g.(breakers := g.breakers[p := AfterFailure(cfgs[p], b, later)])
  {
    assert g.opening + multiset{p} - multiset{p} == g.opening;
  }

  /** What holds of one breaker when `callers` calls could still release a slot. */
  ghost predicate BreakerInv(cfg: Config, b: Breaker, callers: nat) {
    && 0 <= b.halfOpenReqs <= callers
    && b.halfOpenReqs <= Max(1, cfg.halfOpenMaxReqs)
    && (b.state != HalfOpen ==> b.halfOpenReqs == 0)
    && (b.state == HalfOpen ==> 0 <= b.successes < Max(1, cfg.successThreshold))
  }

  function Callers(g: Calls, p: string): nat {
    g.chats[p] + g.opening[p] + g.streams[p]
  }

  ghost predicate Inv(cfgs: Configs, g: Calls) {
    && g.breakers.Keys == cfgs.Keys
    && forall p :: p in cfgs ==> BreakerInv(cfgs[p], g.breakers[p], Callers(g, p))
  }

  /** Entering takes at most one slot, leaving frees one if any is taken. */
  lemma {:induction false} BreakerSteps(cfg: Config, b: Breaker, callers: nat, now: Time)
    requires BreakerInv(cfg, b, callers)
    ensures Admits(cfg, b, now) ==> BreakerInv(cfg, AfterAllow(cfg, b, now), callers + 1)
    ensures callers > 0 ==> BreakerInv(cfg, AfterSuccess(cfg, b), callers - 1)
    ensures callers > 0 ==> BreakerInv(cfg, AfterFailure(cfg, b, now), callers - 1)
  {
  }

  lemma {:induction false} NextFramesOthers(cfgs: Configs, g: Calls, s: Step, q: string)
    requires q != s.provider && q in g.breakers
    ensures var g' := Next(cfgs, g, s);
            q in g'.breakers && g'.breakers[q] == g.breakers[q] && Callers(g', q) == Callers(g, q)
  {
  }

  lemma {:induction false} NextKeepsOwnInv(cfgs: Configs, g: Calls, s: Step)
    requires var p := s.provider; p in g.breakers && p in cfgs && BreakerInv(cfgs[p], g.breakers[p], Callers(g, p))
    ensures var g', p := Next(cfgs, g, s), s.provider;
            p in g'.breakers && BreakerInv(cfgs[p], g'.breakers[p], Callers(g', p))
  {
    var p := s.provider;
    BreakerSteps(cfgs[p], g.breakers[p], Callers(g, p), s.now);
  }

  lemma {:induction false} NextKeepsInv(cfgs: Configs, g: Calls, s: Step)
    requires Inv(cfgs, g)
    ensures Inv(cfgs, Next(cfgs, g, s))
  {
    var g' := Next(cfgs, g, s);
    forall q | q in cfgs ensures q in g'.breakers && BreakerInv(cfgs[q], g'.breakers[q], Callers(g', q)) {
      if q == s.provider {
        NextKeepsOwnInv(cfgs, g, s);
      } else {
        NextFramesOthers(cfgs, g, s, q);
      }
    }
    assert g'.breakers.Keys == cfgs.Keys;
  }

  /** Probe slots never outnumber the calls that can still release one: over every run,
      late completions from earlier states included, the slots of a provider are at most
      its calls in flight plus its opened streams. */
  lemma {:induction false} ProbesAreInFlight(cfgs: Configs, steps: seq<Step>)
    ensures Inv(cfgs, Run(cfgs, Start(cfgs), steps))
  {
    if steps != [] {
      ProbesAreInFlight(cfgs, steps[..|steps|-1]);
      NextKeepsInv(cfgs, Run(cfgs, Start(cfgs), steps[..|steps|-1]), steps[|steps|-1]);
    }
  }

  /** Without streams, a half-open provider with no call in flight admits the next call if
      and only if its probe limit is at least one. */
  lemma {:induction false} IdleHalfOpenAdmits(cfgs: Configs, steps: seq<Step>, p: string, now: Time)
    requires forall i :: 0 <= i < |steps| ==> !steps[i].StreamBegin?
    requires var g := Run(cfgs, Start(cfgs), steps);
             p in cfgs && p in g.breakers && g.breakers[p].state == HalfOpen && p !in g.chats
    ensures Lets(cfgs, Run(cfgs, Start(cfgs), steps), p, now) <==> cfgs[p].halfOpenMaxReqs >= 1
  {
    ProbesAreInFlight(cfgs, steps);
    NoStreams(cfgs, steps);
  }

  lemma {:induction false} NoStreams(cfgs: Configs, steps: seq<Step>)
    requires forall i :: 0 <= i < |steps| ==> !steps[i].StreamBegin?
    ensures var g := Run(cfgs, Start(cfgs), steps); g.opening == multiset{} && g.streams == multiset{}
  {
    if steps != [] {
      NoStreams(cfgs, steps[..|steps|-1]);
    }
  }

  /** Calls to one provider never touch another provider's breaker. */
  lemma {:induction false} OthersUntouched(cfgs: Configs, g: Calls, steps: seq<Step>, q: string)
    requires q in g.breakers
    requires forall i :: 0 <= i < |steps| ==> steps[i].provider != q
    ensures q in Run(cfgs, g, steps).breakers && Run(cfgs, g, steps).breakers[q] == g.breakers[q]
  {
    if steps != [] {
      var before := steps[..|steps|-1];
      OthersUntouched(cfgs, g, before, q);
      NextFramesOthers(cfgs, Run(cfgs, g, before), steps[|steps|-1], q);
    }
  }

  /** What one step tells the breaker of its provider: every request asks, every ended
      chat and every stream that failed to open reports. */
  function Told(g: Calls, s: Step): Option<Event> {
    match s
    case ChatBegin(_, now) => Some(Allowed(now))
    case StreamBegin(_, now) => Some(Allowed(now))
    case ChatEnd(p, good, now) => if p !in g.chats then None else if good then Some(Succeeded) else Some(Failed(now))
    case StreamEnd(p, good, now) => if p !in g.opening || good then None else Some(Failed(now))
  }

  /** The breaker events of provider `p` in a run. */
  function EventsOf(cfgs: Configs, steps: seq<Step>, p: string): seq<Event> {
    if steps == [] then []
    else
      var before, s := steps[..|steps|-1], steps[|steps|-1];
      var e := Told(Run(cfgs, Start(cfgs), before), s);
      EventsOf(cfgs, before, p) + if s.provider == p && e.Some? then [e.value] else []
  }

  lemma {:induction false} NextAppliesEvent(cfgs: Configs, g: Calls, s: Step)
    requires s.provider in cfgs && s.provider in g.breakers
    ensures var p, e := s.provider, Told(g, s);
            && p in Next(cfgs, g, s).breakers
            && Next(cfgs, g, s).breakers[p] == if e.Some? then Apply(cfgs[p], g.breakers[p], e.value) else g.breakers[p]
  {
  }

  /** Each breaker of a concurrent run is its own history: what is proved of breaker
      histories holds of every provider, whatever the interleaving. */
  lemma {:induction false} BreakerIsItsHistory(cfgs: Configs, steps: seq<Step>, p: string)
    requires p in cfgs
    ensures p in Run(cfgs, Start(cfgs), steps).breakers
    ensures Run(cfgs, Start(cfgs), steps).breakers[p] == History.Run(cfgs[p], EventsOf(cfgs, steps, p))
  {
    if steps != [] {
      var before, s := steps[..|steps|-1], steps[|steps|-1];
      var g, es := Run(cfgs, Start(cfgs), before), EventsOf(cfgs, before, p);
      BreakerIsItsHistory(cfgs, before, p);
      if s.provider != p {
        NextFramesOthers(cfgs, g, s, p);
      } else {
        NextAppliesEvent(cfgs, g, s);
      }
      var e := Told(g, s);
      if s.provider == p && e.Some? {
        assert (es + [e.value])[..|es|] == es;
      } else {
        assert es + [] == es;
      }
    }
  }

  // ------------------------------------------------------------------------- recovery

  function GoodChat(cfgs: Configs, g: Calls, p: string, now: Time): Calls {
    Next(cfgs, Next(cfgs, g, ChatBegin(p, now)), ChatEnd(p, true, now))
  }

  function GoodChats(cfgs: Configs, g: Calls, p: string, times: seq<Time>): Calls {
    if times == [] then g else GoodChat(cfgs, GoodChats(cfgs, g, p, times[..|times|-1]), p, times[|times|-1])
  }

  /** The breaker's own view of one whole good call. */
  function Probed(cfg: Config, b: Breaker, now: Time): Breaker {
    if Admits(cfg, b, now) then AfterSuccess(cfg, AfterAllow(cfg, b, now)) else b
  }

  lemma {:induction false} GoodChatProbes(cfgs: Configs, g: Calls, p: string, now: Time)
    requires p in g.breakers && p in cfgs && p !in g.chats
    ensures var g' := GoodChat(cfgs, g, p, now);
            p in g'.breakers && p !in g'.chats && g'.breakers[p] == Probed(cfgs[p], g.breakers[p], now)
  {
  }

  /** After some but not enough good calls: half-open, no slot taken, and every call
      counted, unless the probe limit let only the first one through. */
  lemma {:induction false} Recovering(cfgs: Configs, g: Calls, p: string, times: seq<Time>)
    requires p in g.breakers && p in cfgs && p !in g.chats && g.breakers[p].state == Open
    requires 1 <= |times| < Max(1, cfgs[p].successThreshold)
    requires times[0] - g.breakers[p].lastFailureTime > cfgs[p].openTimeout
    ensures var g' := GoodChats(cfgs, g, p, times);
            && p in g'.breakers && p !in g'.chats
            && g'.breakers[p].state == HalfOpen && g'.breakers[p].halfOpenReqs == 0
            && g'.breakers[p].successes == if cfgs[p].halfOpenMaxReqs >= 1 then |times| else 1
  {
    var before := times[..|times|-1];
    if before == [] {
      GoodChatProbes(cfgs, g, p, times[0]);
    } else {
      Recovering(cfgs, g, p, before);
      var mid := GoodChats(cfgs, g, p, before);
      GoodChatProbes(cfgs, mid, p, times[|times|-1]);
      ProbeCounts(cfgs[p], mid.breakers[p], times[|times|-1]);
    }
  }

  lemma {:induction false} ProbeCounts(cfg: Config, b: Breaker, now: Time)
    requires b.state == HalfOpen && b.halfOpenReqs == 0
    ensures var b' := Probed(cfg, b, now);
            if cfg.halfOpenMaxReqs < 1 then b' == b
            else if b.successes + 1 >= cfg.successThreshold then b'.state == Closed
            else b' == b.(successes := b.successes + 1)
  {
  }

  /** Once an open circuit's timeout has passed and nothing is in flight, the required
      number of successive good calls closes it if and only if the probe limit is at least
      one or a single success is enough. */
  lemma {:induction false} GoodCallsCloseCircuit(cfgs: Configs, g: Calls, p: string, times: seq<Time>)
    requires p in g.breakers && p in cfgs && p !in g.chats && g.breakers[p].state == Open
    requires |times| == Max(1, cfgs[p].successThreshold)
    requires times[0] - g.breakers[p].lastFailureTime > cfgs[p].openTimeout
    ensures p in GoodChats(cfgs, g, p, times).breakers
    ensures GoodChats(cfgs, g, p, times).breakers[p].state == Closed <==>
            cfgs[p].halfOpenMaxReqs >= 1 || cfgs[p].successThreshold <= 1
  {
    var before := times[..|times|-1];
    if before == [] {
      GoodChatProbes(cfgs, g, p, times[0]);
    } else {
      Recovering(cfgs, g, p, before);
      var mid := GoodChats(cfgs, g, p, before);
      GoodChatProbes(cfgs, mid, p, times[|times|-1]);
      ProbeCounts(cfgs[p], mid.breakers[p], times[|times|-1]);
    }
  }

  // ----------------------------------------------------------- streams and the lockout

  /** All probe slots are taken and no call is left that could release one. */
  ghost predicate Wedged(cfgs: Configs, g: Calls, p: string) {
    && p in g.breakers && p in cfgs
    && g.breakers[p].state == HalfOpen && cfgs[p].halfOpenMaxReqs <= g.breakers[p].halfOpenReqs
    && p !in g.chats && p !in g.opening
  }

  /** A wedged provider stays refused for ever: no call is let through after any further
      run, at any time. */
  lemma {:induction false} WedgedForEver(cfgs: Configs, g: Calls, p: string, steps: seq<Step>)
    requires Wedged(cfgs, g, p)
    ensures Wedged(cfgs, Run(cfgs, g, steps), p)
    ensures forall now :: !Lets(cfgs, Run(cfgs, g, steps), p, now)
  {
    if steps != [] {
      WedgedForEver(cfgs, g, p, steps[..|steps|-1]);
    }
  }

  /** The steps happen in order, none before `from` and none after `now`. */
  predicate InOrder(steps: seq<Step>, from: Time, now: Time) {
    && from <= now
    && (forall i :: 0 <= i < |steps| ==> from <= steps[i].now <= now)
    && (forall i, j :: 0 <= i < j < |steps| ==> steps[i].now <= steps[j].now)
  }

  /** A provider that is not wedged can always be brought to admit again, with the clock
      running on from `from`: at once when closed, after the timeout when open, and when
      half-open with a call in flight by letting that call fail and waiting. */
  lemma {:induction false} NotWedgedCanRecover(cfgs: Configs, g: Calls, p: string, from: Time)
    returns (steps: seq<Step>, now: Time)
    requires p in cfgs && p in g.breakers && !Wedged(cfgs, g, p)
    ensures InOrder(steps, from, now) && Lets(cfgs, Run(cfgs, g, steps), p, now)
  {
    var b, timeout := g.breakers[p], cfgs[p].openTimeout;
    now := Max(from, b.lastFailureTime + timeout + 1);
    if Admits(cfgs[p], b, now) {
      steps := [];
    } else {
      var fail := if p in g.chats then ChatEnd(p, false, from) else StreamEnd(p, false, from);
      steps, now := [fail], Max(from, from + timeout + 1);
      RunOne(cfgs, g, fail);
    }
  }

  lemma {:induction false} RunOne(cfgs: Configs, g: Calls, s: Step)
    ensures Run(cfgs, g, [s]) == Next(cfgs, g, s)
  {
    assert [s][..0] == [];
  }

  /** Some further run from the time `from` on lets a call of `p` through. */
  ghost predicate CanAdmit(cfgs: Configs, g: Calls, p: string, from: Time) {
    exists steps, now :: InOrder(steps, from, now) && AdmitsAfter(cfgs, g, p, steps, now)
  }

  predicate AdmitsAfter(cfgs: Configs, g: Calls, p: string, steps: seq<Step>, now: Time) {
    Lets(cfgs, Run(cfgs, g, steps), p, now)
  }

  /** The lockout, exactly: no later run ever makes the provider admit another call if and
      only if it is wedged. */
  lemma {:induction false} LockedOutExactlyWhenWedged(cfgs: Configs, g: Calls, p: string, from: Time)
    requires p in cfgs && p in g.breakers
    ensures !CanAdmit(cfgs, g, p, from) <==> Wedged(cfgs, g, p)
  {
    if Wedged(cfgs, g, p) {
      forall steps, now ensures !AdmitsAfter(cfgs, g, p, steps, now) {
        WedgedForEver(cfgs, g, p, steps);
      }
    } else {
      var steps, now := NotWedgedCanRecover(cfgs, g, p, from);
      assert AdmitsAfter(cfgs, g, p, steps, now);
    }
  }

  /** Without streams no reachable state is wedged while the probe limit is at least one:
      only an opened stream can lock a provider out. */
  lemma {:induction false} OnlyStreamsWedge(cfgs: Configs, steps: seq<Step>, p: string)
    requires p in cfgs && cfgs[p].halfOpenMaxReqs >= 1
    requires Wedged(cfgs, Run(cfgs, Start(cfgs), steps), p)
    ensures Run(cfgs, Start(cfgs), steps).streams[p] >= cfgs[p].halfOpenMaxReqs
  {
    ProbesAreInFlight(cfgs, steps);
    var g := Run(cfgs, Start(cfgs), steps);
    assert BreakerInv(cfgs[p], g.breakers[p], Callers(g, p));
  }

  /** Under a probe limit of at most one (the gateway's own setting) a single stream that
      opens well on an expired open circuit, while no other call is in flight, wedges the
      provider: its outcome is never recorded, so its slot is never released. */
  lemma {:induction false} OpenedStreamWedges(
    cfgs: Configs, g: Calls, p: string, now: Time, later: Time,
    steps: seq<Step>, at: Time)
    requires p in g.breakers && p in cfgs && cfgs[p].halfOpenMaxReqs <= 1
    requires g.breakers[p].state == Open && p !in g.chats && p !in g.opening
    requires now - g.breakers[p].lastFailureTime > cfgs[p].openTimeout
    ensures !Lets(cfgs, Run(cfgs, g, [StreamBegin(p, now), StreamEnd(p, true, later)] + steps), p, at)
  {
    var begin, end := StreamBegin(p, now), StreamEnd(p, true, later);
    assert [begin, end] == [begin] + [end];
    RunConcat(cfgs, g, [begin, end], steps);
    RunConcat(cfgs, g, [begin], [end]);
    RunOne(cfgs, g, begin);
    RunOne(cfgs, Next(cfgs, g, begin), end);
    StreamWedges(cfgs, g, p, now, later);
    WedgedForEver(cfgs, Next(cfgs, Next(cfgs, g, begin), end), p, steps);
  }

  lemma {:induction false} StreamWedges(cfgs: Configs, g: Calls, p: string, now: Time, later: Time)
    requires p in g.breakers && p in cfgs && cfgs[p].halfOpenMaxReqs <= 1
    requires g.breakers[p].state == Open && p !in g.chats && p !in g.opening
    requires now - g.breakers[p].lastFailureTime > cfgs[p].openTimeout
    ensures Wedged(cfgs, Next(cfgs, Next(cfgs, g, StreamBegin(p, now)), StreamEnd(p, true, later)), p)
  {
  }

  lemma {:induction false} RunConcat(cfgs: Configs, g: Calls, xs: seq<Step>, ys: seq<Step>)
    ensures Run(cfgs, g, xs + ys) == Run(cfgs, Run(cfgs, g, xs), ys)
  {
    if ys == [] {
      assert xs + ys == xs;
    } else {
      assert (xs + ys)[..|xs + ys| - 1] == xs + ys[..|ys|-1];
      RunConcat(cfgs, g, xs, ys[..|ys|-1]);
    }
  }
}
