/** The daily AI quota: an atomic increment under a limit, a rolling 24-hour reset in SQL,
    and an in-memory cache that skips the reset statement once per UTC day and user. */
module Quota {
  import opened Common

  const DAY: Time := 86_400_000_000_000

  /** The UTC calendar day of an instant, counted from the epoch. */
  function UtcDay(t: Time): int {
    t / DAY
  }

  datatype Row = Row(plan: string, limit: int, used: int, resetAt: Time)

  function LimitOf(plan: string): int {
    if plan == "pro" || plan == "lifetime" then 500 else 50
  }

  /** Everything the service knows about one user. */
  datatype Account = Account(row: Option<Row>, cachedDay: Option<int>)

  /** UPDATE ... SET used = 0, reset_at = now WHERE reset_at < now - 1 day. */
  function ResetRow(r: Row, now: Time): Row {
    if r.resetAt < now - DAY then r.(used := 0, resetAt := now) else r
  }

  function ResetAny(row: Option<Row>, now: Time): Option<Row> {
    if row.Some? then Some(ResetRow(row.value, now)) else None
  }

  /** resetIfNeeded: nothing when today is cached or the statement fails. */
  function Refreshed(a: Account, now: Time, fails: bool): Account {
    if a.cachedDay == Some(UtcDay(now)) || fails then a
    else Account(ResetAny(a.row, now), Some(UtcDay(now)))
  }

  predicate HasRoom(a: Account) {
    a.row.Some? && a.row.value.used < a.row.value.limit
  }

  function Incremented(a: Account): Account {
    if HasRoom(a) then a.(row := Some(a.row.value.(used := a.row.value.used + 1))) else a
  }

  function Ensured(a: Account, plan: string, now: Time): Account {
    if a.row.Some? then a else a.(row := Some(Row(plan, LimitOf(plan), 0, now)))
  }

  class QuotaRepository {
    var rows: map<Uuid, Row>

    constructor ()
      ensures rows == map[]
    {
      rows := map[];
    }

    function Lookup(user: Uuid): Option<Row>
      reads this
    {
      if user in rows then Some(rows[user]) else None
    }

    method ResetIfNeeded(user: Uuid, now: Time, fails: bool) returns (ok: bool)
      modifies this
      ensures ok == !fails
      ensures Lookup(user) == if fails then old(Lookup(user)) else ResetAny(old(Lookup(user)), now)
      ensures rows.Keys == old(rows.Keys) && forall u :: u in rows && u != user ==> rows[u] == old(rows)[u]
      ensures user in rows ==>
                var r := old(rows)[user];
                rows[user] == if fails || now - r.resetAt <= 24 * 3600 * 1_000_000_000 then r
                              else Row(r.plan, r.limit, 0, now)
    {
      if fails {
        return false;
      }
      if user in rows && rows[user].resetAt < now - DAY {
        rows := rows[user := rows[user].(used := 0, resetAt := now)];
      }
      return true;
    }

    method TryIncrementUsage(user: Uuid, fails: bool) returns (r: Result<bool>)
      modifies this
      ensures r.Failure? <==> fails
      ensures r == Success(true) <==> !fails && user in old(rows) && old(rows)[user].used < old(rows)[user].limit
      ensures rows == if r == Success(true) then old(rows)[user := old(rows)[user].(used := old(rows)[user].used + 1)]
                      else old(rows)
    {
      if fails {
        return Failure;
      }
      if user in rows && rows[user].used < rows[user].limit {
        rows := rows[user := rows[user].(used := rows[user].used + 1)];
        return Success(true);
      }
      return Success(false);
    }

    method EnsureQuota(user: Uuid, plan: string, now: Time, fails: bool) returns (ok: bool)
      modifies this
      ensures ok == !fails
      ensures rows == if fails || user in old(rows) then old(rows)
                      else old(rows)[user := Row(plan, LimitOf(plan), 0, now)]
      ensures !fails ==> forall day :: Account(Lookup(user), day) == Ensured(Account(old(Lookup(user)), day), plan, now)
      ensures !fails && user !in old(rows) ==>
                rows[user] == Row(plan, if plan in {"pro", "lifetime"} then 500 else 50, 0, now)
    {
      var limit := 50;
      if plan == "pro" || plan == "lifetime" {
        limit := 500;
      }
      if fails {
        return false;
      }
      if user !in rows {
        rows := rows[user := Row(plan, limit, 0, now)];
      }
      return true;
    }
  }

  datatype QuotaResponse = QuotaResponse(plan: string, dailyLimit: int, dailyUsed: int, resetAt: Time)

  datatype IncrementError = RepositoryError | QuotaExceeded

  class QuotaService {
    const repo: QuotaRepository
    var lastReset: map<Uuid, int>

    constructor (repo: QuotaRepository)
      ensures this.repo == repo && lastReset == map[]
    {
      this.repo := repo;
      lastReset := map[];
    }

    function View(user: Uuid): Account
      reads this, repo
    {
      Account(repo.Lookup(user), if user in lastReset then Some(lastReset[user]) else None)
    }

    method ResetIfNeeded(user: Uuid, now: Time, fails: bool)
      modifies this, repo
      ensures View(user) == Refreshed(old(View(user)), now, fails)
      ensures forall u :: u != user ==> View(u) == old(View(u))
    {
      var today := UtcDay(now);
      if user in lastReset && lastReset[user] == today {
        return;
      }
      var ok := repo.ResetIfNeeded(user, now, fails);
      if !ok {
        return;
      }
      lastReset := lastReset[user := today];
    }

    method GetQuota(user: Uuid, now: Time, resetFails: bool, readFails: bool) returns (q: QuotaResponse)
      modifies this, repo
      ensures View(user) == Refreshed(old(View(user)), now, resetFails)
      ensures forall u :: u != user ==> View(u) == old(View(u))
      ensures var row := View(user).row;
              if readFails || row.None? then q == QuotaResponse("free", 50, 0, now + 24 * 3600 * 1_000_000_000)
              else q == QuotaResponse(row.value.plan, row.value.limit, row.value.used, row.value.resetAt)
    {
      ResetIfNeeded(user, now, resetFails);
      var row := repo.Lookup(user);
      if readFails || row.None? {
        return QuotaResponse("free", 50, 0, now + DAY);
      }
      return QuotaResponse(row.value.plan, row.value.limit, row.value.used, row.value.resetAt);
    }

    /** None is success. */
    method IncrementUsage(user: Uuid, now: Time, resetFails: bool, incFails: bool)
      returns (err: Option<IncrementError>)
      modifies this, repo
      ensures var a := Refreshed(old(View(user)), now, resetFails);
              && View(user) == (if incFails then a else Incremented(a))
              && err == if incFails then Some(RepositoryError) else if HasRoom(a) then None else Some(QuotaExceeded)
      ensures forall u :: u != user ==> View(u) == old(View(u))
    {
      ResetIfNeeded(user, now, resetFails);
      var r := repo.TryIncrementUsage(user, incFails);
      match r
      case Failure => return Some(RepositoryError);
      case Success(ok) => return if ok then None else Some(QuotaExceeded);
    }
  }

  // ----------------------------------------------------------------------------- runs

  /** The operations that touch one user's account as one service process sees it, with
      their repository failures. The row is shared: between two operations of this process
      the statements of any number of others, each with a cache of its own, may run. */
  datatype Op =
    | Ensure(now: Time, plan: string)
    | Get(now: Time, resetFails: bool)
    | Increment(now: Time, resetFails: bool, incFails: bool)
    | OtherReset(now: Time)
    | OtherIncrement(now: Time)

  function Step(a: Account, op: Op): Account {
    match op
    case Ensure(now, plan) => Ensured(a, plan, now)
    case Get(now, resetFails) => Refreshed(a, now, resetFails)
    case Increment(now, resetFails, incFails) =>
      var b := Refreshed(a, now, resetFails);
      if incFails then b else Incremented(b)
    case OtherReset(now) => a.(row := ResetAny(a.row, now))
    case OtherIncrement(_) => Incremented(a)
  }

  function Run(a: Account, ops: seq<Op>): Account {
    if ops == [] then a else Step(Run(a, ops[..|ops|-1]), ops[|ops|-1])
  }

  predicate Ordered(ops: seq<Op>) {
    forall i, j :: 0 <= i < j < |ops| ==> ops[i].now <= ops[j].now
  }

  /** An account before its first operation: nothing cached, counters in range, and a
      reset time that is not in the future. */
  predicate Fresh(a: Account, now: Time) {
    && a.cachedDay == None
    && (a.row.Some? ==> 0 <= a.row.value.used <= a.row.value.limit && a.row.value.resetAt <= now)
  }

  /** The invariant at time `now`: a cached day is not in the future, and on that day the
      row was at most one day old. */
  predicate Inv(a: Account, now: Time) {
    && (a.row.Some? ==> 0 <= a.row.value.used <= a.row.value.limit && a.row.value.resetAt <= now)
    && (a.cachedDay.Some? ==> a.cachedDay.value <= UtcDay(now))
    && (a.cachedDay.Some? && a.row.Some? ==> (a.cachedDay.value - 1) * DAY <= a.row.value.resetAt)
  }

  lemma {:induction false} StepKeepsInv(a: Account, op: Op, before: Time)
    requires Inv(a, before) && before <= op.now
    ensures Inv(Step(a, op), op.now)
  {
  }

  lemma {:induction false} RunKeepsInv(a: Account, ops: seq<Op>, start: Time)
    requires Fresh(a, start) && Ordered(ops) && (ops != [] ==> start <= ops[0].now)
    ensures Inv(Run(a, ops), if ops == [] then start else ops[|ops|-1].now)
  {
    if ops != [] {
      var n := |ops| - 1;
      RunKeepsInv(a, ops[..n], start);
      StepKeepsInv(Run(a, ops[..n]), ops[n], if n == 0 then start else ops[n - 1].now);
    }
  }

  /** Usage stays within the limit in every reachable state. */
  lemma {:induction false} UsageWithinLimit(a: Account, ops: seq<Op>, start: Time)
    requires Fresh(a, start) && Ordered(ops) && (ops != [] ==> start <= ops[0].now)
    ensures Run(a, ops).row.Some? ==> 0 <= Run(a, ops).row.value.used <= Run(a, ops).row.value.limit
  {
    RunKeepsInv(a, ops, start);
  }

  /** Cache lag: after any reset check that meets no repository error, the row is less than
      two days old. The uncached rule keeps it at most one day old, so the cache delays a
      reset by less than one day. */
  lemma {:induction false} CacheLagBound(a: Account, ops: seq<Op>, start: Time, now: Time)
    requires Fresh(a, start) && Ordered(ops) && (ops != [] ==> start <= ops[0].now && ops[|ops|-1].now <= now)
    requires start <= now
    ensures var b := Refreshed(Run(a, ops), now, false);
            b.row.Some? ==> now - b.row.value.resetAt < 2 * DAY
    ensures var uncached := ResetAny(Run(a, ops).row, now);
            uncached.Some? ==> now - uncached.value.resetAt <= DAY
  {
    RunKeepsInv(a, ops, start);
    StepKeepsInv(Run(a, ops), Get(now, false), if ops == [] then start else ops[|ops|-1].now);
    assert now < (UtcDay(now) + 1) * DAY;
  }

  /** The bound is tight: a check in the first nanosecond of a day caches that day, and in
      its last nanosecond the row is one nanosecond short of two days old. */
  lemma {:induction false} CacheLagIsReached(plan: string, limit: nat)
    ensures var a := Account(Some(Row(plan, limit, 0, 0)), None);
            var b := Refreshed(Run(a, [Get(DAY, false)]), 2 * DAY - 1, false);
            b.row.Some? && (2 * DAY - 1) - b.row.value.resetAt == 2 * DAY - 1
  {
  }

  /** The operation resets the row. */
  predicate Resets(a: Account, op: Op) {
    && (op.OtherReset? || ((op.Get? || op.Increment?) && !op.resetFails && a.cachedDay != Some(UtcDay(op.now))))
    && a.row.Some? && a.row.value.resetAt < op.now - DAY
  }

  lemma {:induction false} ResetTimeGrows(a: Account, ops: seq<Op>, n: nat, start: Time)
    requires Ordered(ops) && n <= |ops|
    requires a.row.Some? && a.row.value.resetAt <= start && (ops != [] ==> start <= ops[0].now)
    ensures Run(a, ops[..n]).row.Some?
    ensures a.row.value.resetAt <= Run(a, ops[..n]).row.value.resetAt
    ensures Run(a, ops[..n]).row.value.resetAt <= if n == 0 then start else ops[n - 1].now
  {
    if n > 0 {
      ResetTimeGrows(a, ops, n - 1, start);
      assert ops[..n][..n - 1] == ops[..n - 1];
    }
  }

  lemma {:induction false} RunConcat(a: Account, xs: seq<Op>, ys: seq<Op>)
    ensures Run(a, xs + ys) == Run(Run(a, xs), ys)
  {
    if ys == [] {
      assert xs + ys == xs;
    } else {
      assert (xs + ys)[..|xs + ys| - 1] == xs + ys[..|ys|-1];
      RunConcat(a, xs, ys[..|ys|-1]);
    }
  }

  /** Consecutive resets are more than 24 hours apart. */
  lemma {:induction false} ResetsAreSpaced(a: Account, ops: seq<Op>, i: nat, j: nat)
    requires Ordered(ops) && i < j < |ops|
    requires Resets(Run(a, ops[..i]), ops[i]) && Resets(Run(a, ops[..j]), ops[j])
    ensures ops[j].now - ops[i].now > DAY
  {
    var mid, later := Run(a, ops[..i + 1]), ops[i + 1..j];
    assert ops[..i + 1][..i] == ops[..i];
    assert ops[..j] == ops[..i + 1] + later;
    RunConcat(a, ops[..i + 1], later);
    ResetTimeGrows(mid, later, |later|, ops[i].now);
    assert later[..|later|] == later;
  }

  // ----------------------------------------------------------------- the window bound

  /** The operation is an increment that succeeds, in this process or another. */
  predicate Consumes(a: Account, op: Op) {
    if op.OtherIncrement? then HasRoom(a)
    else op.Increment? && !op.incFails && HasRoom(Refreshed(a, op.now, op.resetFails))
  }

  /** Successful increments in the interval from `lo` up to but excluding `hi`. */
  function Consumed(a: Account, ops: seq<Op>, lo: Time, hi: Time): nat {
    if ops == [] then 0
    else var n := |ops| - 1;
         Consumed(a, ops[..n], lo, hi) + if Consumes(Run(a, ops[..n]), ops[n]) && lo <= ops[n].now < hi then 1 else 0
  }

  function LimitNow(a: Account): int {
    if a.row.Some? then a.row.value.limit else 0
  }

  /** How the consumption `u` of the day from `lo` relates to the account at time `now`. */
  predicate Budget(a: Account, u: nat, lo: Time, now: Time) {
    && Inv(a, now)
    && u <= 2 * LimitNow(a)
    && (now < lo ==> u == 0)
    && (a.row.Some? && a.row.value.resetAt < lo + DAY ==>
          u <= a.row.value.used + if lo <= a.row.value.resetAt then a.row.value.limit else 0)
  }

  lemma {:induction false} StepKeepsBudget(a: Account, op: Op, u: nat, lo: Time, before: Time)
    requires Budget(a, u, lo, before) && before <= op.now
    ensures Budget(Step(a, op), u + if Consumes(a, op) && lo <= op.now < lo + DAY then 1 else 0, lo, op.now)
  {
  }

  lemma {:induction false} RunKeepsBudget(a: Account, ops: seq<Op>, lo: Time, start: Time)
    requires Fresh(a, start) && Ordered(ops) && (ops != [] ==> start <= ops[0].now)
    ensures Budget(Run(a, ops), Consumed(a, ops, lo, lo + DAY), lo, if ops == [] then start else ops[|ops|-1].now)
  {
    if ops != [] {
      var n := |ops| - 1;
      RunKeepsBudget(a, ops[..n], lo, start);
      StepKeepsBudget(Run(a, ops[..n]), ops[n], Consumed(a, ops[..n], lo, lo + DAY), lo,
                      if n == 0 then start else ops[n - 1].now);
    }
  }

  /** In any 24 hours all processes together consume at most twice the limit. */
  lemma {:induction false} TwiceTheLimit(a: Account, ops: seq<Op>, lo: Time, start: Time)
    requires Fresh(a, start) && Ordered(ops) && (ops != [] ==> start <= ops[0].now)
    ensures Consumed(a, ops, lo, lo + DAY) <= 2 * LimitNow(Run(a, ops))
  {
    RunKeepsBudget(a, ops, lo, start);
  }

  function Repeat(op: Op, n: nat): seq<Op> {
    seq(n, _ => op)
  }

  /** A run of increments at one instant, while there is room and no reset is due. */
  lemma {:induction false} Burst(b: Account, now: Time, n: nat, lo: Time, hi: Time)
    requires b.row.Some? && b.row.value.used + n <= b.row.value.limit && now - DAY <= b.row.value.resetAt
    requires lo <= now < hi
    ensures Consumed(b, Repeat(Increment(now, false, false), n), lo, hi) == n
    ensures Run(b, Repeat(Increment(now, false, false), n)) ==
            if n == 0 then b else Account(Some(b.row.value.(used := b.row.value.used + n)), Some(UtcDay(now)))
  {
    if n > 0 {
      var op := Increment(now, false, false);
      Burst(b, now, n - 1, lo, hi);
      var fewer := Repeat(op, n - 1);
      assert Repeat(op, n) == fewer + [op];
      AppendOp(b, fewer, op, lo, hi);
      OneMore(Run(b, fewer), now);
    }
  }

  lemma {:induction false} ConsumedConcat(a: Account, xs: seq<Op>, ys: seq<Op>, lo: Time, hi: Time)
    ensures Consumed(a, xs + ys, lo, hi) == Consumed(a, xs, lo, hi) + Consumed(Run(a, xs), ys, lo, hi)
  {
    if ys == [] {
      assert xs + ys == xs;
    } else {
      var n := |ys| - 1;
      assert xs + ys == (xs + ys[..n]) + [ys[n]];
      AppendOp(a, xs + ys[..n], ys[n], lo, hi);
      ConsumedConcat(a, xs, ys[..n], lo, hi);
      RunConcat(a, xs, ys[..n]);
    }
  }

  lemma {:induction false} OneMore(b: Account, now: Time)
    requires HasRoom(b) && now - DAY <= b.row.value.resetAt
    ensures Consumes(b, Increment(now, false, false))
    ensures Step(b, Increment(now, false, false)) ==
            Account(Some(b.row.value.(used := b.row.value.used + 1)), Some(UtcDay(now)))
  {
  }

  /** The whole limit in the last nanosecond of a day, then one increment that resets. */
  lemma {:induction false} FullDayThenReset(plan: string, limit: nat)
    requires limit > 0
    ensures var a := Account(Some(Row(plan, limit, 0, -1)), None);
            var ops := Repeat(Increment(DAY - 1, false, false), limit) + [Increment(DAY, false, false)];
            && Consumed(a, ops, DAY - 1, 2 * DAY - 1) == limit + 1
            && Run(a, ops).row == Some(Row(plan, limit, 1, DAY))
  {
    var a := Account(Some(Row(plan, limit, 0, -1)), None);
    var first, second := Repeat(Increment(DAY - 1, false, false), limit), Increment(DAY, false, false);
    Burst(a, DAY - 1, limit, DAY - 1, 2 * DAY - 1);
    AppendOp(a, first, second, DAY - 1, 2 * DAY - 1);
    ResetsAtMidnight(Run(a, first), plan, limit);
  }

  lemma {:induction false} AppendOp(a: Account, ops: seq<Op>, op: Op, lo: Time, hi: Time)
    ensures Run(a, ops + [op]) == Step(Run(a, ops), op)
    ensures Consumed(a, ops + [op], lo, hi) ==
            Consumed(a, ops, lo, hi) + if Consumes(Run(a, ops), op) && lo <= op.now < hi then 1 else 0
  {
    assert (ops + [op])[..|ops|] == ops;
  }

  lemma {:induction false} ResetsAtMidnight(b: Account, plan: string, limit: nat)
    requires limit > 0
    requires b == Account(Some(Row(plan, limit, limit, -1)), Some(UtcDay(DAY - 1)))
    ensures Consumes(b, Increment(DAY, false, false))
    ensures Step(b, Increment(DAY, false, false)).row == Some(Row(plan, limit, 1, DAY))
  {
    assert UtcDay(DAY - 1) == 0 && UtcDay(DAY) == 1;
  }

  /** The bound is reached: the whole limit in the last nanosecond of a day and the whole
      limit again in the first nanosecond of the next. */
  lemma {:induction false} TwiceTheLimitIsReached(plan: string, limit: nat) returns (ops: seq<Op>)
    requires limit > 0
    ensures Ordered(ops) && forall i :: 0 <= i < |ops| ==> -1 <= ops[i].now
    ensures Consumed(Account(Some(Row(plan, limit, 0, -1)), None), ops, DAY - 1, 2 * DAY - 1) == 2 * limit
  {
    var a := Account(Some(Row(plan, limit, 0, -1)), None);
    var first, second := Increment(DAY - 1, false, false), Increment(DAY, false, false);
    FullDayThenReset(plan, limit);
    var mid := Repeat(first, limit) + [second];
    Burst(Run(a, mid), DAY, limit - 1, DAY - 1, 2 * DAY - 1);
    ops := mid + Repeat(second, limit - 1);
    ConsumedConcat(a, mid, Repeat(second, limit - 1), DAY - 1, 2 * DAY - 1);
    assert forall i :: 0 <= i < |ops| ==> ops[i] == if i < limit then first else second;
  }
}
