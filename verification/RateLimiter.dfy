/** The in-memory sliding-window rate limiter, against a reference that keeps the complete
    admitted history and never evicts. The clock is read under the mutex, so the times of
    a call sequence never decrease. */
module RateLimiter {
  import opened Common

  type Windows = map<string, seq<Time>>

  /** The timestamps strictly after the window start. */
  function Live(ts: seq<Time>, windowStart: Time): seq<Time> {
    if ts == [] then []
    else Live(ts[..|ts|-1], windowStart) + if ts[|ts|-1] > windowStart then [ts[|ts|-1]] else []
  }

  function Get(ws: Windows, key: string): seq<Time> {
    if key in ws then ws[key] else []
  }

  datatype Limit = Limit(max: int, window: Time)

  /** What `Allow` answers when key `key` has the timestamps of `ws`. */
  predicate Admits(l: Limit, ws: Windows, key: string, now: Time) {
    |Live(Get(ws, key), now - l.window)| < l.max
  }

  /** Eviction may drop a key only when all its timestamps are outside the window. */
  ghost predicate Evicted(l: Limit, ws: Windows, now: Time, kept: Windows) {
    && (forall k :: k in kept ==> k in ws && kept[k] == ws[k])
    && (forall k :: k in ws && k !in kept ==> Live(ws[k], now - l.window) == [])
  }

  /** The windows after `Allow`, given what eviction kept. */
  function AfterAllow(l: Limit, kept: Windows, key: string, now: Time): Windows {
    kept[key := Live(Get(kept, key), now - l.window) + if Admits(l, kept, key, now) then [now] else []]
  }

  /** What `Live` keeps: every timestamp after the window start as often as it occurs, and
      no other. */
  lemma {:induction false} LiveIsFilter(ts: seq<Time>, windowStart: Time, t: Time)
    ensures multiset(Live(ts, windowStart))[t] == if t > windowStart then multiset(ts)[t] else 0
  {
    if ts != [] {
      var before, last := ts[..|ts|-1], ts[|ts|-1];
      LiveIsFilter(before, windowStart, t);
      assert ts == before + [last];
    }
  }

  /** What is left when the keys of `sample` have been checked. */
  function Remaining(l: Limit, ws: Windows, now: Time, sample: set<string>): Windows {
    map k | k in ws && !(k in sample && Live(ws[k], now - l.window) == []) :: ws[k]
  }

  function Dropped(ws: Windows, key: string): Windows {
    map k | k in ws && k != key :: ws[k]
  }

  lemma {:induction false} CheckOne(l: Limit, ws: Windows, now: Time, sample: set<string>, k: string)
    requires k in ws
    ensures var kept := Remaining(l, ws, now, sample);
            Remaining(l, ws, now, sample + {k}) == if Live(ws[k], now - l.window) == [] then Dropped(kept, k) else kept
  {
  }

  /** One eviction round checks every key of a small map and 200 keys of a large one. */
  ghost predicate Round(l: Limit, ws: Windows, now: Time, kept: Windows) {
    exists sample :: && sample <= ws.Keys && |sample| == (if |ws| <= 500 then |ws| else 200)
                     && kept == Remaining(l, ws, now, sample)
  }

  lemma {:induction false} RoundEvicts(l: Limit, ws: Windows, now: Time, kept: Windows)
    requires Round(l, ws, now, kept)
    ensures Evicted(l, ws, now, kept)
  {
  }

  lemma {:induction false} SmallRoundIsComplete(l: Limit, ws: Windows, now: Time, kept: Windows)
    requires Round(l, ws, now, kept) && |ws| <= 500
    ensures forall k :: k in kept ==> Live(kept[k], now - l.window) != []
  {
    var sample :| sample <= ws.Keys && |sample| == |ws| && kept == Remaining(l, ws, now, sample);
    SameSize(sample, ws.Keys);
  }

  lemma {:induction false} SameSize(a: set<string>, b: set<string>)
    requires a <= b && |a| == |b|
    ensures a == b
  {
    assert b == a + (b - a);
  }

  /** Filters a window's buffer in place: the write position never overtakes the read
      position, so no timestamp is lost. */
  method Compact(buf: array<Time>, windowStart: Time) returns (n: nat)
    modifies buf
    ensures n <= buf.Length && buf[..n] == Live(old(buf[..]), windowStart)
  {
    ghost var ts := buf[..];
    n := 0;
    for i := 0 to buf.Length
      invariant n <= i
      invariant buf[..n] == Live(ts[..i], windowStart)
      invariant forall j :: i <= j < buf.Length ==> buf[j] == ts[j]
    {
      assert ts[..i + 1][..i] == ts[..i];
      if buf[i] > windowStart {
        ghost var kept := buf[..n];
        buf[n] := buf[i];
        n := n + 1;
        assert buf[..n] == kept + [ts[i]];
      }
    }
    assert ts[..|ts|] == ts;
  }

  /** True when no timestamp lies inside the window. */
  method IsWindowExpired(ts: seq<Time>, windowStart: Time) returns (expired: bool)
    ensures expired <==> Live(ts, windowStart) == []
  {
    for i := 0 to |ts|
      invariant Live(ts[..i], windowStart) == []
    {
      assert ts[..i + 1][..i] == ts[..i];
      if ts[i] > windowStart {
        LiveOfPrefix(ts, i + 1, windowStart);
        return false;
      }
    }
    assert ts[..|ts|] == ts;
    return true;
  }

  class RateLimiter {
    var windows: Windows
    const limit: Limit
    const evictInterval: nat
    var callCount: nat

    constructor (max: int, window: Time, evictInterval: nat)
      ensures windows == map[] && callCount == 0
      ensures limit == Limit(max, window) && this.evictInterval == evictInterval
    {
      windows := map[];
      limit := Limit(max, window);
      this.evictInterval := evictInterval;
      callCount := 0;
    }

    /** Drops expired windows: all of them when the map is small, otherwise those among
        an arbitrary sample of the keys. */
    method EvictLocked(now: Time)
      modifies this`windows
      ensures Round(limit, old(windows), now, windows)
    {
      var all, checked := windows, {};
      var sampleSize := if |windows| <= 500 then |windows| else 200;
      assert windows == Remaining(limit, all, now, {});
      while |checked| < sampleSize
        invariant checked <= all.Keys && |checked| <= sampleSize <= |all|
        invariant windows == Remaining(limit, all, now, checked)
        decreases sampleSize - |checked|
      {
        Unchecked(checked, all.Keys);
        var k :| k in all && k !in checked;
        CheckOne(limit, all, now, checked, k);
        var expired := IsWindowExpired(all[k], now - limit.window);
        if expired {
          windows := Dropped(windows, k);
        }
        checked := checked + {k};
      }
    }

    method Allow(key: string, now: Time) returns (ok: bool, ghost kept: Windows)
      modifies this
      ensures callCount == old(callCount) + 1
      ensures if evictInterval > 0 && callCount % evictInterval == 0 then Round(limit, old(windows), now, kept)
              else kept == old(windows)
      ensures Evicted(limit, old(windows), now, kept)
      ensures ok == Admits(limit, kept, key, now)
      ensures windows == AfterAllow(limit, kept, key, now)
    {
      callCount := callCount + 1;
      if evictInterval > 0 && callCount % evictInterval == 0 {
        EvictLocked(now);
        RoundEvicts(limit, old(windows), now, windows);
      }
      kept := windows;
      if key !in windows {
        windows := windows[key := []];
      }
      var ts;
      ok, ts := Admit(windows[key], now);
      windows := windows[key := ts];
      assert windows == kept[key := ts];
    }

    /** The window of one key: trim, then admit while there is room. */
    method Admit(before: seq<Time>, now: Time) returns (ok: bool, ts: seq<Time>)
      ensures ok == (|Live(before, now - limit.window)| < limit.max)
      ensures ts == Live(before, now - limit.window) + if ok then [now] else []
    {
      var buf := new Time[|before|](i requires 0 <= i < |before| => before[i]);
      assert buf[..] == before;
      var n := Compact(buf, now - limit.window);
      if n >= limit.max {
        return false, buf[..n];
      }
      return true, buf[..n] + [now];
    }

    /** The number of requests of the key inside the window. */
    method Count(key: string, now: Time) returns (count: nat)
      ensures count == |Live(Get(windows, key), now - limit.window)|
    {
      if key !in windows {
        return 0;
      }
      var ts := windows[key];
      count := 0;
      for i := 0 to |ts|
        invariant count == |Live(ts[..i], now - limit.window)|
      {
        assert ts[..i + 1][..i] == ts[..i];
        if ts[i] > now - limit.window {
          count := count + 1;
        }
      }
      assert ts[..|ts|] == ts;
    }
  }

  lemma {:induction false} Unchecked(checked: set<string>, all: set<string>)
    requires checked <= all && |checked| < |all|
    ensures exists k :: k in all && k !in checked
  {
    assert all == checked + (all - checked);
    var k :| k in all - checked;
  }

  lemma {:induction false} LiveOfPrefix(ts: seq<Time>, n: nat, windowStart: Time)
    requires n <= |ts|
    ensures Live(ts[..n], windowStart) <= Live(ts, windowStart)
  {
    if n < |ts| {
      assert ts[..|ts|-1][..n] == ts[..n];
      LiveOfPrefix(ts[..|ts|-1], n, windowStart);
    } else {
      assert ts[..n] == ts;
    }
  }

  // ------------------------------------------------------------- against the reference

  /** One `Allow` call; `kept` is whatever eviction happened to leave. */
  datatype Call = Call(key: string, now: Time, kept: Windows)

  /** The windows the limiter holds after the calls. */
  function RunWindows(l: Limit, calls: seq<Call>): Windows {
    if calls == [] then map[]
    else var c := calls[|calls|-1]; AfterAllow(l, c.kept, c.key, c.now)
  }

  function Record(l: Limit, hist: Windows, key: string, now: Time): Windows {
    if Admits(l, hist, key, now) then hist[key := Get(hist, key) + [now]] else hist
  }

  /** The reference: every admitted timestamp, kept for ever. */
  function Admitted(l: Limit, calls: seq<Call>): Windows {
    if calls == [] then map[]
    else
      Record(l, Admitted(l, calls[..|calls|-1]), calls[|calls|-1].key, calls[|calls|-1].now)
  }

  /** What the limiter itself has admitted, by its own decisions on the windows it kept. */
  function Granted(l: Limit, calls: seq<Call>): Windows {
    if calls == [] then map[]
    else
      var c, hist := calls[|calls|-1], Granted(l, calls[..|calls|-1]);
      if Admits(l, c.kept, c.key, c.now) then hist[c.key := Get(hist, c.key) + [c.now]] else hist
  }

  /** A call that can come next: time does not run backwards, and eviction only drops
      expired windows. */
  ghost predicate CanFollow(l: Limit, calls: seq<Call>, next: Call) {
    && (calls != [] ==> calls[|calls|-1].now <= next.now)
    && Evicted(l, RunWindows(l, calls), next.now, next.kept)
  }

  /** A possible call sequence. */
  ghost predicate IsTrace(l: Limit, calls: seq<Call>) {
    calls != [] ==> IsTrace(l, calls[..|calls|-1]) && CanFollow(l, calls[..|calls|-1], calls[|calls|-1])
  }

  lemma {:induction false} LiveLive(ts: seq<Time>, a: Time, b: Time)
    requires a <= b
    ensures Live(Live(ts, a), b) == Live(ts, b)
  {
    if ts != [] {
      LiveLive(ts[..|ts|-1], a, b);
      var kept, last := Live(ts[..|ts|-1], a), ts[|ts|-1];
      if last > a {
        assert (kept + [last])[..|kept|] == kept;
      } else {
        assert kept + [] == kept;
      }
    }
  }

  lemma {:induction false} LiveAppend(ts: seq<Time>, t: Time, b: Time)
    ensures Live(ts + [t], b) == Live(ts, b) + if t > b then [t] else []
  {
    assert (ts + [t])[..|ts|] == ts;
  }

  /** The same live timestamps, for every window start from `start` on. */
  ghost predicate SameLive(a: seq<Time>, b: seq<Time>, start: Time) {
    forall c :: start <= c ==> Live(a, c) == Live(b, c)
  }

  lemma {:induction false} SameLiveTrim(a: seq<Time>, b: seq<Time>, start: Time)
    requires SameLive(a, b, start)
    ensures SameLive(Live(a, start), b, start)
  {
    forall c | start <= c ensures Live(Live(a, start), c) == Live(b, c) {
      LiveLive(a, start, c);
    }
  }

  lemma {:induction false} SameLiveAppend(a: seq<Time>, b: seq<Time>, start: Time, t: Time)
    requires SameLive(a, b, start)
    ensures SameLive(a + [t], b + [t], start)
  {
  }

  ghost predicate Agree(ws: Windows, hist: Windows, start: Time) {
    forall k :: SameLive(Get(ws, k), Get(hist, k), start)
  }

  lemma {:induction false} EvictionAgrees(l: Limit, ws: Windows, hist: Windows, c: Call)
    requires Agree(ws, hist, c.now - l.window) && Evicted(l, ws, c.now, c.kept)
    ensures Agree(c.kept, hist, c.now - l.window)
  {
    forall k ensures SameLive(Get(c.kept, k), Get(hist, k), c.now - l.window) {
      assert SameLive(Get(ws, k), Get(hist, k), c.now - l.window);
      SameLiveTrim(Get(ws, k), Get(hist, k), c.now - l.window);
    }
  }

  /** What one call does to the timestamps of its key, here and in the reference. */
  lemma {:induction false} KeyAgrees(ts: seq<Time>, full: seq<Time>, start: Time, now: Time)
    requires SameLive(ts, full, start)
    ensures SameLive(Live(ts, start) + [], full, start)
    ensures SameLive(Live(ts, start) + [now], full + [now], start)
  {
    SameLiveTrim(ts, full, start);
    SameLiveAppend(Live(ts, start), full, start, now);
    assert Live(ts, start) + [] == Live(ts, start);
  }

  lemma {:induction false} OwnKeyAgrees(l: Limit, kept: Windows, hist: Windows, key: string, now: Time)
    requires SameLive(Get(kept, key), Get(hist, key), now - l.window)
    ensures SameLive(Get(AfterAllow(l, kept, key, now), key), Get(Record(l, hist, key, now), key), now - l.window)
  {
    KeyAgrees(Get(kept, key), Get(hist, key), now - l.window, now);
    SameDecision(l, kept, hist, key, now);
    OwnKeyStep(l, kept, hist, key, now);
  }

  lemma {:induction false} SameDecision(l: Limit, kept: Windows, hist: Windows, key: string, now: Time)
    requires SameLive(Get(kept, key), Get(hist, key), now - l.window)
    ensures Admits(l, kept, key, now) == Admits(l, hist, key, now)
  {
    assert Live(Get(kept, key), now - l.window) == Live(Get(hist, key), now - l.window);
  }

  lemma {:induction false} OwnKeyStep(l: Limit, kept: Windows, hist: Windows, key: string, now: Time)
    ensures Get(AfterAllow(l, kept, key, now), key) ==
            Live(Get(kept, key), now - l.window) + if Admits(l, kept, key, now) then [now] else []
    ensures Get(Record(l, hist, key, now), key) ==
            if Admits(l, hist, key, now) then Get(hist, key) + [now] else Get(hist, key)
  {
  }

  lemma {:induction false} OtherKeyStays(l: Limit, kept: Windows, hist: Windows, key: string, now: Time, k: string)
    requires k != key
    ensures Get(AfterAllow(l, kept, key, now), k) == Get(kept, k)
    ensures Get(Record(l, hist, key, now), k) == Get(hist, k)
  {
  }

  lemma {:induction false} StepAgrees(l: Limit, kept: Windows, hist: Windows, key: string, now: Time)
    requires Agree(kept, hist, now - l.window)
    ensures Agree(AfterAllow(l, kept, key, now), Record(l, hist, key, now), now - l.window)
  {
    forall k
      ensures SameLive(Get(AfterAllow(l, kept, key, now), k), Get(Record(l, hist, key, now), k), now - l.window)
    {
      assert SameLive(Get(kept, k), Get(hist, k), now - l.window);
      if k == key {
        OwnKeyAgrees(l, kept, hist, key, now);
      } else {
        OtherKeyStays(l, kept, hist, key, now, k);
      }
    }
  }

  lemma {:induction false} AgreeLater(ws: Windows, hist: Windows, start: Time, later: Time)
    requires Agree(ws, hist, start) && start <= later
    ensures Agree(ws, hist, later)
  {
  }

  lemma {:induction false} RunsAgree(l: Limit, calls: seq<Call>, now: Time)
    requires IsTrace(l, calls)
    requires calls != [] ==> calls[|calls|-1].now <= now
    ensures Agree(RunWindows(l, calls), Admitted(l, calls), now - l.window)
  {
    if calls != [] {
      var n := |calls| - 1;
      var before, c := calls[..n], calls[n];
      RunsAgree(l, before, c.now);
      CallAgrees(l, RunWindows(l, before), Admitted(l, before), c, now);
    }
  }

  lemma {:induction false} CallAgrees(l: Limit, ws: Windows, hist: Windows, c: Call, now: Time)
    requires Agree(ws, hist, c.now - l.window) && Evicted(l, ws, c.now, c.kept) && c.now <= now
    ensures Agree(AfterAllow(l, c.kept, c.key, c.now), Record(l, hist, c.key, c.now), now - l.window)
  {
    EvictionAgrees(l, ws, hist, c);
    StepAgrees(l, c.kept, hist, c.key, c.now);
    AgreeLater(AfterAllow(l, c.kept, c.key, c.now), Record(l, hist, c.key, c.now), c.now - l.window, now - l.window);
  }

  /** Eviction and in-place filtering are invisible: after any call sequence the next `Allow`,
      and any `Count` made in its place, answer as if the complete admitted history had been
      kept. */
  lemma {:induction false} EvictionIsTransparent(l: Limit, before: seq<Call>, c: Call)
    requires IsTrace(l, before) && CanFollow(l, before, c)
    ensures Admits(l, c.kept, c.key, c.now) == Admits(l, Admitted(l, before), c.key, c.now)
    ensures Live(Get(RunWindows(l, before), c.key), c.now - l.window) ==
            Live(Get(Admitted(l, before), c.key), c.now - l.window)
  {
    RunsAgree(l, before, c.now);
    EvictionAgrees(l, RunWindows(l, before), Admitted(l, before), c);
    AgreeMeans(c.kept, Admitted(l, before), c.key, c.now - l.window);
    AgreeMeans(RunWindows(l, before), Admitted(l, before), c.key, c.now - l.window);
  }

  lemma {:induction false} AgreeMeans(ws: Windows, hist: Windows, key: string, start: Time)
    requires Agree(ws, hist, start)
    ensures Live(Get(ws, key), start) == Live(Get(hist, key), start)
  {
    assert SameLive(Get(ws, key), Get(hist, key), start);
  }

  /** The limiter's own decisions are the reference's: both have admitted the same
      requests. */
  lemma {:induction false} GrantedIsAdmitted(l: Limit, calls: seq<Call>)
    requires IsTrace(l, calls)
    ensures Granted(l, calls) == Admitted(l, calls)
  {
    if calls != [] {
      var n := |calls| - 1;
      GrantedIsAdmitted(l, calls[..n]);
      EvictionIsTransparent(l, calls[..n], calls[n]);
    }
  }

  // ------------------------------------------------------------- the sliding-window law

  /** How many timestamps lie in the half-open interval from `a` to `b`. */
  function CountIn(ts: seq<Time>, a: Time, b: Time): nat {
    if ts == [] then 0
    else CountIn(ts[..|ts|-1], a, b) + if a <= ts[|ts|-1] < b then 1 else 0
  }

  lemma {:induction false} CountInIsLive(ts: seq<Time>, a: Time, b: Time, windowStart: Time)
    requires windowStart < a
    ensures CountIn(ts, a, b) <= |Live(ts, windowStart)|
  {
    if ts != [] {
      CountInIsLive(ts[..|ts|-1], a, b, windowStart);
    }
  }

  lemma {:induction false} ReferenceBound(l: Limit, calls: seq<Call>, key: string, a: Time)
    ensures CountIn(Get(Admitted(l, calls), key), a, a + l.window) <= if l.max > 0 then l.max else 0
  {
    if calls != [] {
      var before, c := calls[..|calls|-1], calls[|calls|-1];
      ReferenceBound(l, before, key, a);
      var hist := Admitted(l, before);
      if c.key == key && Admits(l, hist, key, c.now) {
        var ts := Get(hist, key);
        assert (ts + [c.now])[..|ts|] == ts;
        if a <= c.now < a + l.window {
          CountInIsLive(ts, a, a + l.window, c.now - l.window);
        }
      }
    }
  }

  /** The limiter's purpose: in every interval as long as the window, at most the limit of
      requests of a key are admitted, whatever is evicted when. */
  lemma {:induction false} SlidingWindowBound(l: Limit, calls: seq<Call>, key: string, a: Time)
    requires IsTrace(l, calls)
    ensures CountIn(Get(Granted(l, calls), key), a, a + l.window) <= if l.max > 0 then l.max else 0
  {
    GrantedIsAdmitted(l, calls);
    ReferenceBound(l, calls, key, a);
  }

  lemma {:induction false} LiveIsCount(ts: seq<Time>, start: Time, now: Time)
    requires forall i :: 0 <= i < |ts| ==> ts[i] <= now
    ensures |Live(ts, start)| == CountIn(ts, start + 1, now + 1)
  {
    if ts != [] {
      LiveIsCount(ts[..|ts|-1], start, now);
    }
  }

  /** None of the timestamps of any key lies after `now`. */
  ghost predicate UpTo(hist: Windows, now: Time) {
    forall k, i :: k in hist && 0 <= i < |hist[k]| ==> hist[k][i] <= now
  }

  lemma {:induction false} GrantedUpTo(l: Limit, calls: seq<Call>, now: Time)
    requires IsTrace(l, calls) && (calls != [] ==> calls[|calls|-1].now <= now)
    ensures UpTo(Granted(l, calls), now)
  {
    if calls != [] {
      var before, c := calls[..|calls|-1], calls[|calls|-1];
      GrantedUpTo(l, before, now);
      UpToAppend(Granted(l, before), c.key, c.now, now);
    }
  }

  lemma {:induction false} UpToAppend(hist: Windows, key: string, t: Time, now: Time)
    requires UpTo(hist, now) && t <= now
    ensures UpTo(hist[key := Get(hist, key) + [t]], now)
  {
  }

  /** The limiter decides on what it has granted so far, complete and unevicted. */
  lemma {:induction false} DecidesOnGranted(l: Limit, before: seq<Call>, c: Call)
    requires IsTrace(l, before) && CanFollow(l, before, c)
    ensures Admits(l, c.kept, c.key, c.now) == Admits(l, Granted(l, before), c.key, c.now)
  {
    EvictionIsTransparent(l, before, c);
    GrantedIsAdmitted(l, before);
  }

  /** How many timestamps lie in the window that ends with `now`: one as old as the window
      no longer counts. */
  function InWindow(l: Limit, ts: seq<Time>, now: Time): nat {
    CountIn(ts, now - l.window + 1, now + 1)
  }

  lemma {:induction false} AdmitsMeans(l: Limit, hist: Windows, key: string, now: Time)
    requires UpTo(hist, now)
    ensures Admits(l, hist, key, now) == (InWindow(l, Get(hist, key), now) < l.max)
  {
    LiveIsCount(Get(hist, key), now - l.window, now);
  }

  /** A request is refused exactly when the limit of granted requests really lies in the
      window that ends with it. */
  lemma {:induction false} RefusedOnlyWhenFull(l: Limit, before: seq<Call>, c: Call)
    requires IsTrace(l, before) && CanFollow(l, before, c)
    ensures Admits(l, c.kept, c.key, c.now) ==
            (InWindow(l, Get(Granted(l, before), c.key), c.now) < l.max)
  {
    DecidesOnGranted(l, before, c);
    GrantedUpTo(l, before, c.now);
    AdmitsMeans(l, Granted(l, before), c.key, c.now);
  }
}
