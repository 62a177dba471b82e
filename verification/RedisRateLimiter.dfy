/** The Redis-backed limiter. It trims, counts, adds and refreshes the key's expiry in one
    pipeline, so it counts refused requests too; compared here with the in-memory one. */
module RedisRateLimiter {
  import opened Common
  import opened RateLimiter

  /** A sorted set of timestamps with the instant at which Redis drops the key. */
  datatype Entry = Entry(scores: set<Time>, expiresAt: Time)

  type Store = map<string, Entry>

  /** EXPIRE takes whole seconds: the window plus one second, rounded down. */
  function Ttl(window: Time): (ttl: Time)
    ensures window < ttl <= window + 1_000_000_000 && ttl % 1_000_000_000 == 0
  {
    (window + SECOND) / SECOND * SECOND
  }

  function Stored(s: Store, key: string, now: Time): set<Time> {
    if key in s && now < s[key].expiresAt then s[key].scores else {}
  }

  /** What is left after removing the scores up to the window start. */
  function Trimmed(l: Limit, s: Store, key: string, now: Time): set<Time> {
    set t | t in Stored(s, key, now) && t > now - l.window
  }

  predicate RedisAdmits(l: Limit, s: Store, key: string, now: Time) {
    |Trimmed(l, s, key, now)| < l.max
  }

  function AfterRequest(l: Limit, s: Store, key: string, now: Time): Store {
    s[key := Entry(Trimmed(l, s, key, now) + {now}, now + Ttl(l.window))]
  }

  class RedisRateLimiter {
    var store: Store
    const limit: Limit

    constructor (max: int, window: Time)
      ensures store == map[] && limit == Limit(max, window)
    {
      store := map[];
      limit := Limit(max, window);
    }

    /** When Redis cannot be reached the request is let through and nothing is stored. */
    method Allow(key: string, now: Time, reachable: bool) returns (ok: bool)
      modifies this
      ensures !reachable ==> ok && store == old(store)
      ensures reachable ==> ok == RedisAdmits(limit, old(store), key, now)
      ensures reachable ==> store == AfterRequest(limit, old(store), key, now)
    {
      if !reachable {
        return true;
      }
      var scores := Stored(store, key, now);
      scores := set t | t in scores && t > now - limit.window;
      var count := |scores|;
      scores := scores + {now};
      store := store[key := Entry(scores, now + Ttl(limit.window))];
      return count < limit.max;
    }
  }

  datatype Request = Request(key: string, now: Time)

  function RunRedis(l: Limit, reqs: seq<Request>): Store {
    if reqs == [] then map[]
    else AfterRequest(l, RunRedis(l, reqs[..|reqs|-1]), reqs[|reqs|-1].key, reqs[|reqs|-1].now)
  }

  /** The times of all requests of a key, admitted or refused. */
  function Asked(reqs: seq<Request>, key: string): set<Time> {
    if reqs == [] then {}
    else Asked(reqs[..|reqs|-1], key) + if reqs[|reqs|-1].key == key then {reqs[|reqs|-1].now} else {}
  }

  function After(ts: set<Time>, start: Time): set<Time> {
    set t | t in ts && t > start
  }

  ghost predicate Ordered(reqs: seq<Request>) {
    forall i, j :: 0 <= i < j < |reqs| ==> reqs[i].now <= reqs[j].now
  }

  /** No two requests of one key carry the same timestamp. */
  ghost predicate Distinct(reqs: seq<Request>) {
    forall i, j :: 0 <= i < j < |reqs| && reqs[i].key == reqs[j].key ==> reqs[i].now != reqs[j].now
  }

  lemma {:induction false} AskedBefore(reqs: seq<Request>, n: nat, key: string, t: Time)
    requires Ordered(reqs) && n < |reqs| && t in Asked(reqs[..n], key)
    ensures t <= reqs[n].now
    ensures Distinct(reqs) && reqs[n].key == key ==> t < reqs[n].now
  {
    var before := reqs[..n];
    assert before[..|before|-1] == reqs[..n - 1] && before[|before|-1] == reqs[n - 1];
    assert reqs[n - 1].now <= reqs[n].now;
    if t in Asked(reqs[..n - 1], key) {
      AskedMeans(reqs[..n - 1], key, t);
    }
  }

  /** One request, seen from any later moment: entries that expired with the key were
      outside the window anyway. */
  lemma {:induction false} RequestKept(l: Limit, s: Store, asked: set<Time>, key: string, at: Time, now: Time)
    requires at <= now && Trimmed(l, s, key, at) == After(asked, at - l.window)
    requires forall t :: t in asked ==> t <= at
    ensures Trimmed(l, AfterRequest(l, s, key, at), key, now) == After(asked + {at}, now - l.window)
  {
  }

  /** The sorted set shows exactly the requests inside the window, whether or not the key
      has expired meanwhile: expiry never changes a decision. */
  lemma {:induction false} RedisHoldsAsked(l: Limit, reqs: seq<Request>, key: string, now: Time)
    requires Ordered(reqs)
    requires reqs != [] ==> reqs[|reqs|-1].now <= now
    ensures Trimmed(l, RunRedis(l, reqs), key, now) == After(Asked(reqs, key), now - l.window)
  {
    if reqs != [] {
      var n := |reqs| - 1;
      var before, last := reqs[..n], reqs[n];
      assert n > 0 ==> reqs[n - 1].now <= last.now;
      if last.key != key {
        RedisHoldsAsked(l, before, key, now);
        assert Asked(reqs, key) == Asked(before, key);
      } else {
        RedisHoldsAsked(l, before, key, last.now);
        forall t | t in Asked(before, key) ensures t <= last.now {
          AskedBefore(reqs, n, key, t);
        }
        RequestKept(l, RunRedis(l, before), Asked(before, key), key, last.now, now);
      }
    }
  }

  /** The request can come after the others. */
  ghost predicate Next(reqs: seq<Request>, r: Request) {
    Ordered(reqs) && (reqs != [] ==> reqs[|reqs|-1].now <= r.now)
  }

  /** Redis admits a request exactly when fewer than the limit of requests, admitted or
      refused, lie in the window. */
  lemma {:induction false} RedisCountsRequests(l: Limit, reqs: seq<Request>, r: Request)
    requires Next(reqs, r)
    ensures RedisAdmits(l, RunRedis(l, reqs), r.key, r.now) <==>
            |After(Asked(reqs, r.key), r.now - l.window)| < l.max
    ensures After(Asked(reqs, r.key), r.now - l.window) ==
            set i | 0 <= i < |reqs| && reqs[i].key == r.key && r.now - l.window < reqs[i].now :: reqs[i].now
  {
    RedisHoldsAsked(l, reqs, r.key, r.now);
    forall t ensures t in Asked(reqs, r.key) <==> exists i :: 0 <= i < |reqs| && reqs[i] == Request(r.key, t) {
      AskedMeans(reqs, r.key, t);
    }
  }

  /** The recorded times are those of the requests of the key. */
  lemma {:induction false} AskedMeans(reqs: seq<Request>, key: string, t: Time)
    ensures t in Asked(reqs, key) <==> exists i :: 0 <= i < |reqs| && reqs[i] == Request(key, t)
  {
    if reqs != [] {
      var n := |reqs| - 1;
      AskedMeans(reqs[..n], key, t);
      assert forall i :: 0 <= i < n ==> reqs[..n][i] == reqs[i];
    }
  }

  // ----------------------------------------------- compared with the in-memory limiter

  ghost predicate SameTrace(reqs: seq<Request>, calls: seq<Call>) {
    |reqs| == |calls| && forall i :: 0 <= i < |reqs| ==> reqs[i] == Request(calls[i].key, calls[i].now)
  }

  ghost predicate StrictlyIncreasing(ts: seq<Time>) {
    forall i, j :: 0 <= i < j < |ts| ==> ts[i] < ts[j]
  }

  /** What the in-memory limiter has admitted is an increasing list of request times. */
  lemma {:induction false} AdmittedAreAsked(l: Limit, reqs: seq<Request>, calls: seq<Call>, key: string)
    requires SameTrace(reqs, calls) && Ordered(reqs) && Distinct(reqs)
    ensures var ts := Get(Admitted(l, calls), key);
            StrictlyIncreasing(ts) && forall t :: t in ts ==> t in Asked(reqs, key)
  {
    if calls != [] {
      var n := |calls| - 1;
      AdmittedAreAsked(l, reqs[..n], calls[..n], key);
      assert reqs[n] == Request(calls[n].key, calls[n].now);
      var ts := Get(Admitted(l, calls[..n]), key);
      forall t | t in ts && reqs[n].key == key ensures t < reqs[n].now {
        AskedBefore(reqs, n, key, t);
      }
      if calls[n].key == key {
        IncreasingSnoc(ts, reqs[n].now);
      }
    }
  }

  lemma {:induction false} IncreasingSnoc(ts: seq<Time>, t: Time)
    requires StrictlyIncreasing(ts) && forall s :: s in ts ==> s < t
    ensures StrictlyIncreasing(ts + [t])
  {
    assert forall i :: 0 <= i < |ts| ==> ts[i] in ts;
  }

  /** The live part of an increasing list inherits its order, and its members exceed the
      window start. */
  lemma {:induction false} LiveIsIncreasing(ts: seq<Time>, start: Time)
    requires StrictlyIncreasing(ts)
    ensures StrictlyIncreasing(Live(ts, start))
    ensures forall t :: t in Live(ts, start) ==> t > start && t in ts
  {
    if ts != [] {
      var before := ts[..|ts|-1];
      LiveIsIncreasing(before, start);
      var live := Live(before, start);
      forall i | 0 <= i < |live| ensures live[i] < ts[|ts|-1] {
        assert live[i] in live;
        assert live[i] in before;
      }
    }
  }

  lemma {:induction false} IncreasingFits(ts: seq<Time>, s: set<Time>)
    requires StrictlyIncreasing(ts)
    requires forall t :: t in ts ==> t in s
    ensures |ts| <= |s|
  {
    if ts != [] {
      var last := ts[|ts|-1];
      assert last in ts && last !in ts[..|ts|-1];
      IncreasingFits(ts[..|ts|-1], s - {last});
    }
  }

  lemma {:induction false} TraceIsOrdered(l: Limit, reqs: seq<Request>, calls: seq<Call>)
    requires SameTrace(reqs, calls) && IsTrace(l, calls)
    ensures Ordered(reqs)
  {
    if calls != [] {
      var n := |calls| - 1;
      TraceIsOrdered(l, reqs[..n], calls[..n]);
      OrderedSnoc(reqs[..n], reqs[n]);
      assert reqs[..n] + [reqs[n]] == reqs;
    }
  }

  lemma {:induction false} OrderedSnoc(reqs: seq<Request>, r: Request)
    requires Next(reqs, r)
    ensures Ordered(reqs + [r])
  {
    assert forall i :: 0 <= i < |reqs| ==> reqs[i].now <= reqs[|reqs|-1].now;
  }

  /** What Redis admits, the reference with the complete admitted history admits. */
  lemma {:induction false} ReferenceIsLaxer(l: Limit, reqs: seq<Request>, calls: seq<Call>, r: Request)
    requires SameTrace(reqs, calls) && Next(reqs, r) && Distinct(reqs)
    requires RedisAdmits(l, RunRedis(l, reqs), r.key, r.now)
    ensures Admits(l, Admitted(l, calls), r.key, r.now)
  {
    RedisCountsRequests(l, reqs, r);
    AdmittedFits(l, reqs, calls, r.key, r.now - l.window);
  }

  /** Dominance: after any trace with distinct timestamps, a further request that Redis
      admits the in-memory limiter with the same limit and window admits as well, whatever
      it has evicted. */
  lemma {:induction false} RedisIsStricter(l: Limit, reqs: seq<Request>, calls: seq<Call>)
    requires Extends(l, reqs, calls) && Distinct(reqs)
    requires RedisAdmits(l, RunRedis(l, reqs), calls[|reqs|].key, calls[|reqs|].now)
    ensures Admits(l, calls[|reqs|].kept, calls[|reqs|].key, calls[|reqs|].now)
  {
    var before, next := calls[..|reqs|], calls[|reqs|];
    ExtendsIsOrdered(l, reqs, calls);
    ReferenceIsLaxer(l, reqs, before, Request(next.key, next.now));
    EvictionIsTransparent(l, before, next);
  }

  /** The calls are the requests followed by one more. */
  ghost predicate Extends(l: Limit, reqs: seq<Request>, calls: seq<Call>) {
    |calls| == |reqs| + 1 && SameTrace(reqs, calls[..|reqs|]) && IsTrace(l, calls)
  }

  lemma {:induction false} ExtendsIsOrdered(l: Limit, reqs: seq<Request>, calls: seq<Call>)
    requires Extends(l, reqs, calls)
    ensures Next(reqs, Request(calls[|reqs|].key, calls[|reqs|].now))
  {
    TraceIsOrdered(l, reqs, calls[..|reqs|]);
    assert CanFollow(l, calls[..|reqs|], calls[|reqs|]);
  }

  /** Admitted requests inside a window are among the requests inside it. */
  lemma {:induction false} AdmittedFits(l: Limit, reqs: seq<Request>, calls: seq<Call>, key: string, start: Time)
    requires SameTrace(reqs, calls) && Ordered(reqs) && Distinct(reqs)
    ensures |Live(Get(Admitted(l, calls), key), start)| <= |After(Asked(reqs, key), start)|
  {
    AdmittedAreAsked(l, reqs, calls, key);
    var ts := Get(Admitted(l, calls), key);
    LiveIsIncreasing(ts, start);
    IncreasingFits(Live(ts, start), After(Asked(reqs, key), start));
  }

  // ------------------------------------------------------------------ equal timestamps

  /** How many requests of a key fall on one instant. */
  function AtInstant(reqs: seq<Request>, r: Request): nat {
    if reqs == [] then 0 else AtInstant(reqs[..|reqs|-1], r) + if reqs[|reqs|-1] == r then 1 else 0
  }

  /** With a limit of two and a window of one nanosecond, the in-memory limiter admits the
      first two requests of an instant and no more. */
  lemma {:induction false} InstantAdmitted(reqs: seq<Request>, calls: seq<Call>, r: Request)
    requires SameTrace(reqs, calls) && forall i :: 0 <= i < |reqs| ==> reqs[i].now <= r.now
    ensures |Live(Get(Admitted(Limit(2, 1), calls), r.key), r.now - 1)| ==
            if AtInstant(reqs, r) < 2 then AtInstant(reqs, r) else 2
  {
    if calls != [] {
      var n := |calls| - 1;
      InstantAdmitted(reqs[..n], calls[..n], r);
      assert reqs[n] == Request(calls[n].key, calls[n].now);
      InstantStep(Admitted(Limit(2, 1), calls[..n]), reqs[n], r);
    }
  }

  lemma {:induction false} InstantStep(hist: Windows, q: Request, r: Request)
    requires q.now <= r.now
    ensures var before := |Live(Get(hist, r.key), r.now - 1)|;
            |Live(Get(Record(Limit(2, 1), hist, q.key, q.now), r.key), r.now - 1)| ==
            if q == r && before < 2 then before + 1 else before
  {
    var ts := Get(hist, r.key);
    LiveAppend(ts, q.now, r.now - 1);
    var hist' := Record(Limit(2, 1), hist, q.key, q.now);
    assert Get(hist', r.key) == if q.key == r.key && Admits(Limit(2, 1), hist, q.key, q.now) then ts + [q.now] else ts;
  }

  lemma {:induction false} TieCounts(reqs: seq<Request>, i: nat, j: nat)
    requires i < j < |reqs| && reqs[i] == reqs[j]
    ensures AtInstant(reqs[..j + 1], reqs[j]) >= 2
  {
    OneCounts(reqs, i, j);
    assert reqs[..j + 1][..j] == reqs[..j];
  }

  lemma {:induction false} OneCounts(reqs: seq<Request>, i: nat, n: nat)
    requires i < n <= |reqs|
    ensures AtInstant(reqs[..n], reqs[i]) >= 1
  {
    assert reqs[..n][..n - 1] == reqs[..n - 1];
    if i < n - 1 {
      OneCounts(reqs, i, n - 1);
    }
  }

  /** To Redis all requests of one instant are a single member. */
  lemma {:induction false} InstantCollapses(reqs: seq<Request>, r: Request)
    requires forall i :: 0 <= i < |reqs| ==> reqs[i].now <= r.now
    ensures After(Asked(reqs, r.key), r.now - 1) <= {r.now}
  {
    if reqs != [] {
      InstantCollapses(reqs[..|reqs|-1], r);
    }
  }

  /** The requests as calls of an in-memory limiter that never evicts. */
  function Unevicted(l: Limit, reqs: seq<Request>): seq<Call> {
    if reqs == [] then []
    else
      var before, r := Unevicted(l, reqs[..|reqs|-1]), reqs[|reqs|-1];
      before + [Call(r.key, r.now, RunWindows(l, before))]
  }

  lemma {:induction false} UnevictedIsTrace(l: Limit, reqs: seq<Request>)
    requires Ordered(reqs)
    ensures SameTrace(reqs, Unevicted(l, reqs)) && IsTrace(l, Unevicted(l, reqs))
  {
    if reqs != [] {
      var n := |reqs| - 1;
      var before, r := Unevicted(l, reqs[..n]), reqs[n];
      UnevictedIsTrace(l, reqs[..n]);
      assert n > 0 ==> reqs[n - 1].now <= r.now && reqs[..n][n - 1] == reqs[n - 1];
      var c := Call(r.key, r.now, RunWindows(l, before));
      assert CanFollow(l, before, c);
      assert (before + [c])[..n] == before;
    }
  }

  /** Any tie can be turned against the comparison: under a limit of two and a window of one
      nanosecond, Redis admits the tied request once more and the in-memory limiter does
      not. */
  lemma {:induction false} TieBreaksDominance(reqs: seq<Request>, i: nat, j: nat) returns (calls: seq<Call>)
    requires Ordered(reqs) && i < j < |reqs| && reqs[i] == reqs[j]
    ensures Extends(Limit(2, 1), reqs[..j + 1], calls)
    ensures calls[j + 1] == Call(reqs[j].key, reqs[j].now, calls[j + 1].kept)
    ensures RedisAdmits(Limit(2, 1), RunRedis(Limit(2, 1), reqs[..j + 1]), reqs[j].key, reqs[j].now)
    ensures !Admits(Limit(2, 1), calls[j + 1].kept, reqs[j].key, reqs[j].now)
  {
    var l, r, before := Limit(2, 1), reqs[j], reqs[..j + 1];
    calls := Repeated(l, before);
    TiedRequestPassesRedis(before, r);
    TieCounts(reqs, i, j);
    TiedRequestRefused(l, before, calls);
  }

  lemma {:induction false} TiedRequestRefused(l: Limit, reqs: seq<Request>, calls: seq<Call>)
    requires l == Limit(2, 1) && Extends(l, reqs, calls)
    requires AtInstant(reqs, Request(calls[|reqs|].key, calls[|reqs|].now)) >= 2
    ensures !Admits(l, calls[|reqs|].kept, calls[|reqs|].key, calls[|reqs|].now)
  {
    var before, c := calls[..|calls|-1], calls[|calls|-1];
    EvictionIsTransparent(l, before, c);
    ExtendsIsOrdered(l, reqs, calls);
    TiedReferenceRefuses(l, reqs, before, Request(c.key, c.now));
  }

  lemma {:induction false} TiedReferenceRefuses(l: Limit, reqs: seq<Request>, calls: seq<Call>, r: Request)
    requires l == Limit(2, 1) && SameTrace(reqs, calls) && Next(reqs, r) && AtInstant(reqs, r) >= 2
    ensures !Admits(l, Admitted(l, calls), r.key, r.now)
  {
    assert forall i :: 0 <= i < |reqs| ==> reqs[i].now <= reqs[|reqs|-1].now;
    InstantAdmitted(reqs, calls, r);
  }

  /** The requests, and the last of them once more. */
  lemma {:induction false} Repeated(l: Limit, reqs: seq<Request>) returns (calls: seq<Call>)
    requires Ordered(reqs) && reqs != []
    ensures Extends(l, reqs, calls)
    ensures Request(calls[|reqs|].key, calls[|reqs|].now) == reqs[|reqs|-1]
  {
    var r := reqs[|reqs|-1];
    OrderedSnoc(reqs, r);
    UnevictedIsTrace(l, reqs + [r]);
    calls := Unevicted(l, reqs + [r]);
    assert (reqs + [r])[|reqs|] == r;
  }

  lemma {:induction false} TiedRequestPassesRedis(reqs: seq<Request>, r: Request)
    requires Next(reqs, r)
    ensures RedisAdmits(Limit(2, 1), RunRedis(Limit(2, 1), reqs), r.key, r.now)
  {
    RedisCountsRequests(Limit(2, 1), reqs, r);
    assert forall i :: 0 <= i < |reqs| ==> reqs[i].now <= reqs[|reqs|-1].now;
    InstantCollapses(reqs, r);
    FitsInSingleton(After(Asked(reqs, r.key), r.now - 1), r.now);
  }

  lemma {:induction false} FitsInSingleton(s: set<Time>, t: Time)
    requires s <= {t}
    ensures |s| <= 1
  {
    assert s == {} || s == {t};
  }

  /** For every limit and window, after the first `n` requests and whatever the in-memory
      limiter has evicted, it admits each further request that Redis admits. */
  ghost predicate DominatesAfter(reqs: seq<Request>, n: nat)
    requires n <= |reqs|
  {
    forall l, calls: seq<Call> | Extends(l, reqs[..n], calls) ::
      RedisAdmits(l, RunRedis(l, reqs[..n]), calls[n].key, calls[n].now) ==>
      Admits(l, calls[n].kept, calls[n].key, calls[n].now)
  }

  /** The comparison, exactly: the in-memory limiter admits all that Redis admits, after
      every prefix of the trace, if and only if no two requests of a key carry the same
      timestamp. */
  lemma {:induction false} StricterExactlyWhenDistinct(reqs: seq<Request>)
    requires Ordered(reqs)
    ensures (forall n :: 0 <= n <= |reqs| ==> DominatesAfter(reqs, n)) <==> Distinct(reqs)
  {
    if Distinct(reqs) {
      forall n | 0 <= n <= |reqs| ensures DominatesAfter(reqs, n) {
        DistinctDominates(reqs, n);
      }
    } else {
      var i, j :| 0 <= i < j < |reqs| && reqs[i].key == reqs[j].key && reqs[i].now == reqs[j].now;
      var calls := TieBreaksDominance(reqs, i, j);
      assert !DominatesAfter(reqs, j + 1);
    }
  }

  lemma {:induction false} DistinctDominates(reqs: seq<Request>, n: nat)
    requires Distinct(reqs) && n <= |reqs|
    ensures DominatesAfter(reqs, n)
  {
    forall l, calls: seq<Call> | Extends(l, reqs[..n], calls) &&
                      RedisAdmits(l, RunRedis(l, reqs[..n]), calls[n].key, calls[n].now)
      ensures Admits(l, calls[n].kept, calls[n].key, calls[n].now)
    {
      RedisIsStricter(l, reqs[..n], calls);
    }
  }
}
