# AnyNote backend: a verified model of its stateful protocols

The AnyNote backend keeps end-to-end encrypted notes in step between devices, calls LLM
providers on the user's behalf and sells plans. This Dafny project models the parts of it
whose correctness is a statement about whole runs, and proves those statements.

| file | protocol |
|---|---|
| `SyncTable.dfy` | rows of `sync_blobs`, the guarded upsert, what a batch of upserts means |
| `SyncQueries.dfy` | ordered pulls, pages with a limit, counts, deletes |
| `SyncRepository.dfy` | the repository's statements, transactions and loops |
| `SyncService.dfy` | push reports, the operation log, one page of a pull |
| `SyncConvergence.dfy` | last-writer-wins over all push runs |
| `SyncWalk.dfy` | multi-page pulls, alone and interleaved with pushes |
| `CircuitBreaker.dfy` | the three-state breaker and its histories |
| `Gateway.dfy` | concurrent calls through per-provider breakers |
| `RateLimiter.dfy` | the in-memory sliding window against the full history |
| `RedisRateLimiter.dfy` | the Redis sliding window, compared with the in-memory one |
| `Quota.dfy` | daily AI quota: rolling reset, per-day cache, atomic increment |
| `Payments.dfy` | checkouts, webhooks and plan entitlement |
| `RefreshTokens.dfy` | refresh-token rotation, revocation and purging |
| `Common.dfy` | shared vocabulary |

## How it is built

Each protocol has a pure step function, a class whose methods are proved to perform exactly
that step, and lemmas over arbitrary sequences of steps. Inductions are written out; no lemma
uses Dafny's automatic one. SQL statements are atomic table
operations with the meaning of their query text; a failed statement aborts its transaction,
so that the commit reports an error. Repository failures, the clock, random identifiers and
the answers of LLM providers and Stripe are parameters. An authentication service without a
token store behaves as one whose every token statement fails. Time is one non-decreasing clock in
nanoseconds; identifiers are natural numbers; `INTERVAL '1 day'` is 24 hours. Versions come
from clients and may tie; rows of equal version are returned in any order, and the order may
differ between two queries.

The main results, by protocol:

- Sync. Any push-only run leaves, for each key, the earliest push of the highest version
  (`SyncConvergence.Converges`, `RunConverges`); replays and retries change nothing. The order
  of the pushes shows exactly when two writes differ at the highest version of a key and that
  version is newer than the stored row; ties below it are harmless. A batch is the
  left-to-right run of its single upserts, its report is truthful and it is all-or-nothing. A
  push stores each requested item for its own user, answers and logs each one, and touches
  nothing else. Pages concatenate to the full answer if and only if no page ends inside a
  group of equal versions. A walk interleaved with pushes, whatever query fails, misses
  exactly the rows that such a boundary split off and the rows ahead of the cursor when a
  has-more query failed. Every walk ends.
- LLM gateway. The breaker's state is characterised by its history, for every configuration.
  Half-open lets through at most the probe limit more calls than succeed. Probe slots never
  outnumber the calls that can release them, so without streams an idle half-open provider
  admits again if and only if its probe limit is at least one. A stream that opens well during
  probing never gives its slot back itself. Under the gateway's own settings, when no other
  call is in flight whose ending could free the slot or reopen the circuit, it locks the
  provider out permanently (`Gateway.OpenedStreamWedges`). A provider is locked out for ever
  exactly when it is half-open with all slots taken and no call left to release one.
- Rate limits. Eviction is invisible: the limiter's own decisions are those on the complete
  history, and they keep the sliding-window bound in every interval. Redis, which counts
  refusals, admits nothing that the in-memory limiter refuses if and only if no two requests
  of a key carry the same timestamp.
- Quota. A row is always less than 48 hours old after an undisturbed check, and at most twice
  the limit is consumed in 24 hours, by however many processes; both bounds are reached.
- Payments. After any run, whatever failed in it, a paid plan is backed by a completed payment
  exactly when no step refunded the last payment behind it and lost the downgrade without a
  later completion or downgrade repairing that; the status of a payment is what the events
  that reached it make of it; redelivered webhooks leave no trace, nor do retries of a
  delivery whose handling failed.
- Tokens. After any run, whatever failed in it, a token of an existing user is accepted
  exactly when it has not expired and its check fails, its jti was never stored, or no step
  revoked it. So every token whose own store, check and revocation work is used at most once,
  whatever fails for other tokens. Purging never changes an answer, and every signed token
  lives exactly the expiry of its kind.

Where the code and its comments disagree, the model follows the code. The comment on
`RecordSuccess` calls a success in the closed state a no-op, but it resets the failure count
(backend/internal/llm/circuit_breaker.go:135-153). The comment in the quota service says that
after a successful check the reset date is current, but it may be almost two days old
(backend/internal/service/quota_service.go:56-59). The comment on `PullSince` mentions a limit
and a cursor that the query does not have (backend/internal/repository/sync_blob_repository.go:24-26).

## Model

| member | source | states |
|---|---|---|
| `SyncTable.ReplayKeepsKeys` | backend/internal/repository/sync_blob_repository.go:145-150 | no sequence of upserts removes a row, lowers its version or changes its creation time |
| `SyncTable.ItemIsCovered` | backend/internal/repository/sync_blob_repository.go:142-174 | after a batch every item's key is present at a version at least the item's |
| `SyncTable.CommitsExactly` | backend/internal/repository/sync_blob_repository.go:122-209 | a batch commits if and only if begin, commit, every upsert and one version read for each conflict work |
| `SyncRepository.SyncBlobRepository.Upsert` | backend/internal/repository/sync_blob_repository.go:90-117 | accepted exactly when the row is absent or strictly older; a conflict leaves the table alone and rewrites the caller's version when it can be read |
| `SyncRepository.SyncBlobRepository.BatchUpsert` | backend/internal/repository/sync_blob_repository.go:122-209 | commits all items or none; a committed batch reports each item's outcome, any other reports an error on every item; conflicting blobs are rewritten with the server version and nothing else of them changes |
| `SyncRepository.FillIdentity` | backend/internal/repository/sync_blob_repository.go:144-156 | each result slot names the item at its position |
| `SyncRepository.MarkAll` | backend/internal/repository/sync_blob_repository.go:202-206 | a failed begin or commit puts the error on every result and changes nothing else of them |
| `SyncRepository.ExecUpserts` | backend/internal/repository/sync_blob_repository.go:160-174 | while no statement fails, the working table is the fold so far, flags are those of single upserts and conflicts are collected in order |
| `SyncRepository.ReadVersions` | backend/internal/repository/sync_blob_repository.go:176-200 | without failures every conflict ends with the end-of-batch version in its result and in the caller's blob |
| `SyncRepository.SyncBlobRepository.PullSince` | backend/internal/repository/sync_blob_repository.go:26-48 | exactly the user's newer rows, each once, by ascending version |
| `SyncRepository.SyncBlobRepository.PullSincePaginated` | backend/internal/repository/sync_blob_repository.go:52-75 | a sorted selection of at most the limit; rows left out only when the page is full and only rows not older than any on it |
| `SyncRepository.SyncBlobRepository.HasMoreSince` | backend/internal/repository/sync_blob_repository.go:78-85 | true exactly when the user has a newer row |
| `SyncRepository.SyncBlobRepository.GetLatestVersion` | backend/internal/repository/sync_blob_repository.go:211-223 | the attained maximum of the user's versions, 0 without rows |
| `SyncRepository.SyncBlobRepository.BatchDelete` | backend/internal/repository/sync_blob_repository.go:369-406 | on success exactly the user's rows with one of those ids are gone, whatever their item type, every other row is as before, and the answer is their number, duplicates in the request notwithstanding; a failure changes nothing |
| `SyncQueries.PrefixIsPage` | backend/internal/repository/sync_blob_repository.go:54-58 | cutting any full answer at the limit gives a valid page |
| `SyncQueries.EmptyPage` | backend/internal/repository/sync_blob_repository.go:52-75 | a page is empty only when nothing matches |
| `SyncQueries.PageExists` | backend/internal/repository/sync_blob_repository.go:52-75 | every positive limit has a page, and it is empty exactly when nothing matches |
| `SyncQueries.TypesAddUp` | backend/internal/repository/sync_blob_repository.go:225-286 | each count by item type is the number of the user's rows of that type, and they add up to the number of the user's rows |
| `SyncService.SyncService.Push` | backend/internal/service/sync_service.go:105-201 | accepted ids, conflicts and log entries are those of the committed outcomes in request order; nothing is reported or logged when the batch did not commit |
| `SyncService.Classify` | backend/internal/service/sync_service.go:131-168 | results are sorted into accepted ids, conflicts and log entries, errors skipped, conflicts logged with version 0 |
| `SyncService.SyncService.Pull` | backend/internal/service/sync_service.go:64-103 | a page at the effective cursor; next cursor is the last version; has-more is true exactly when the page is non-empty, the query worked and newer rows exist; latest version is the maximum or 0 on failure |
| `SyncService.HavingIsSelection` | backend/internal/service/sync_service.go:135-168 | each reported list is the order-preserving selection of the items with that fate |
| `SyncService.FatesPartition` | backend/internal/service/sync_service.go:135-168 | every item is in exactly one of accepted, conflict, skipped |
| `SyncService.BatchRefinesSingleUpserts` | backend/internal/repository/sync_blob_repository.go:90-209 | the batch passes through the tables of single upserts with the same flags; a conflict reports the end-of-batch version, at least the version met, at least the client's |
| `SyncService.ReportIsTruthful` | backend/internal/service/sync_service.go:139-156 | an accepted item is stored at its version or a newer one, and verbatim if at its own; a conflict names the stored version, and the caller's blob is told it |
| `SyncService.PushIsPulled` | backend/internal/service/sync_service.go:113-129 | after a committed push each requested item is stored for the pushing user at the requested version or newer, and a full pull of that user from any older version returns it |
| `SyncService.PushTouchesOnlyItsItems` | backend/internal/service/sync_service.go:113-129 | a row that a push changes is the pushing user's, holds the content of a requested item and the time of the push, and is newer than before; all other rows, those of other users included, stay as they are |
| `SyncService.PushAnswersItem` | backend/internal/service/sync_service.go:135-156 | each requested item has its own entry in the answer: its id if it met no row or an older one, else a conflict with the item, the version now stored and the version sent |
| `SyncService.PushLogsEveryItem` | backend/internal/service/sync_service.go:139-168 | the log holds one entry per item in request order, with user, item, time, and the version or 0 |
| `SyncService.ConflictCounterIsExact` | backend/internal/repository/sync_blob_repository.go:289-299 | over every run the counter equals conflicts returned plus accepted items that carried version 0 |
| `SyncService.ConflictCounterCountsConflicts` | backend/internal/service/sync_service.go:157-176 | when no client uses version 0 the counter is exactly the conflicts ever returned |
| `SyncService.ZeroVersionIsMiscounted` | backend/internal/service/sync_service.go:139-149 | one accepted item with version 0 is counted as a conflict |
| `SyncConvergence.RunIsFlatReplay` | backend/internal/repository/sync_blob_repository.go:122-209 | any grouping into batches, failed ones included, equals the flat fold of what committed |
| `SyncConvergence.WinnerExists` | backend/internal/repository/sync_blob_repository.go:148-150 | a written key has a winning write: the first of the highest version |
| `SyncConvergence.Converges` | backend/internal/repository/sync_blob_repository.go:145-150 | from any table, a written key ends with the winning write unless its old row was at least as new |
| `SyncConvergence.FirstWriteDatesRow` | backend/internal/repository/sync_blob_repository.go:145-150 | a new row keeps the time of the first write of its key as its creation time |
| `SyncConvergence.UnwrittenKeyKeepsRow` | backend/internal/repository/sync_blob_repository.go:145-150 | a key never written keeps its row |
| `SyncConvergence.RunConverges` | backend/internal/service/sync_service.go:105-129 | after any run over an empty table exactly the written keys exist, each with the content and time of its winning write |
| `SyncConvergence.RunNeverGoesBack` | backend/internal/repository/sync_blob_repository.go:142-174 | rows never vanish, versions never decrease, and an unchanged version means an unchanged row |
| `SyncConvergence.RedeliveryIsNoOp` | backend/internal/repository/sync_blob_repository.go:142-174 | redelivering past writes in any selection, order and number changes nothing |
| `SyncConvergence.RetriedBatchIsNoOp` | backend/internal/repository/sync_blob_repository.go:122-209 | resending a committed batch changes nothing and accepts nothing, whatever fails |
| `SyncConvergence.OrderIndependence` | backend/internal/repository/sync_blob_repository.go:142-174 | every order of the same writes, repeated or not, leaves the same contents if and only if all writes tied at the highest version of a key, where newer than the stored row, carry the same content |
| `SyncConvergence.AgreeingTiesAreOrderFree` | backend/internal/repository/sync_blob_repository.go:142-174 | one half: agreeing top ties make any two deliveries of the same blobs end in the same contents |
| `SyncConvergence.DisagreeingTieShows` | backend/internal/repository/sync_blob_repository.go:142-174 | the other half: moving a tied write of different content to the front leaves different contents |
| `SyncConvergence.OrderMattersOnTies` | backend/internal/repository/sync_blob_repository.go:150-150 | the smallest such case: two different contents under one key and version leave different tables in the two orders |
| `SyncWalk.PageCovers` | backend/internal/service/sync_service.go:83-95 | a page divides the matching rows into returned, split off by its boundary, and newer |
| `SyncWalk.WalkReturns` | backend/internal/service/sync_service.go:66-95 | a complete walk returns the matching rows minus exactly those split off by a page |
| `SyncWalk.WalkIsSelection` | backend/internal/service/sync_service.go:66-95 | concatenated pages are sorted and free of repetitions |
| `SyncWalk.PaginationIsExact` | backend/internal/service/sync_service.go:66-95 | the pages are a full answer if and only if no page ends inside a group of equal versions |
| `SyncWalk.WalkIsFinishedPartialWalk` | backend/internal/service/sync_service.go:83-95 | a complete walk is exactly a walk under way with nothing left to fetch |
| `SyncWalk.WalkIsBounded` | backend/internal/service/sync_service.go:83-95 | a walk, finished or still under way, has at most as many pages as matching rows, so it cannot go on for ever |
| `SyncWalk.UnfinishedWalkGoesOn` | backend/internal/service/sync_service.go:83-95 | a walk with something left to fetch has a next page, which is not empty once the walk has begun |
| `SyncWalk.CursorAdvances` | backend/internal/service/sync_service.go:87-88 | the cursor strictly increases from page to page, in finished and unfinished walks |
| `SyncWalk.TiedRowIsLost` | backend/internal/service/sync_service.go:83-95 | two rows under one version and a limit of one: the second is never returned |
| `SyncWalk.WalkCovers` | backend/internal/service/sync_service.go:64-103 | for every interleaving of pushes with page and has-more queries, failed ones included, each row due at the start has been returned at its version or newer, was split off, is still ahead of the cursor, or was ahead of it when a has-more query failed |
| `SyncWalk.WalkMissesNothing` | backend/internal/service/sync_service.go:64-103 | a finished walk whose pages split nothing, and whose has-more queries failed only where nothing was newer, has returned every row due at the start |
| `SyncWalk.RowIsMissedExactly` | backend/internal/service/sync_service.go:64-103 | a row not pushed again is missed by a finished walk if and only if a page boundary split it off or it was ahead of the cursor when a has-more query failed |
| `SyncWalk.FailedMoreQueryLosesRow` | backend/internal/service/sync_service.go:90-95 | the smallest such case: a failed has-more query ends a walk without a newer row, although nothing was split |
| `CircuitBreaker.CircuitBreaker.constructor` | backend/internal/llm/circuit_breaker.go:87-99 | a new breaker is closed with zero counters |
| `CircuitBreaker.CircuitBreaker.Allow` | backend/internal/llm/circuit_breaker.go:106-133 | admission and the whole new state, including the move to half-open with one probe |
| `CircuitBreaker.CircuitBreaker.RecordSuccess` | backend/internal/llm/circuit_breaker.go:138-155 | the whole new state in each of the three states |
| `CircuitBreaker.CircuitBreaker.RecordFailure` | backend/internal/llm/circuit_breaker.go:160-178 | the whole new state; the failure time is taken in every state |
| `CircuitBreaker.CircuitBreaker.ChangeState` | backend/internal/llm/circuit_breaker.go:189-214 | counters reset by a real transition only |
| `CircuitBreaker.CountersInRange` | backend/internal/llm/circuit_breaker.go:106-214 | in every reachable state probes are between 0 and the larger of 1 and the limit, probes and successes are zero outside half-open, failures are zero in half-open, and counters stay below their thresholds |
| `CircuitBreaker.ClosedStretchExists` | backend/internal/llm/circuit_breaker.go:151-171 | every closed state has a stretch that began at the start, at a closing or after a success |
| `CircuitBreaker.ClosedCounts` | backend/internal/llm/circuit_breaker.go:151-171 | the failure counter is the number of failures in that stretch |
| `CircuitBreaker.ClosedOpensExactlyAtThreshold` | backend/internal/llm/circuit_breaker.go:166-171 | closed opens exactly on the failure that brings the stretch to the threshold, and keeps that count |
| `CircuitBreaker.HalfOpenStretchExists` | backend/internal/llm/circuit_breaker.go:114-128 | every half-open state has an entry point |
| `CircuitBreaker.HalfOpenCounts` | backend/internal/llm/circuit_breaker.go:114-150 | entry is by an admitted call from open, no failure since, and the success counter counts successes since entry |
| `CircuitBreaker.HalfOpenResolvesExactly` | backend/internal/llm/circuit_breaker.go:143-177 | half-open closes exactly when successes since entry reach the threshold and opens exactly on a failure |
| `CircuitBreaker.ProbesAreLimited` | backend/internal/llm/circuit_breaker.go:113-128 | since the circuit became half-open at most the probe limit more calls were let through than succeeded, and a taken slot stands for such a call |
| `CircuitBreaker.LatestFailureIsRemembered` | backend/internal/llm/circuit_breaker.go:160-164 | the stored time is that of the latest failure in the whole history |
| `CircuitBreaker.OpenAdmitsOnlyAfterTimeout` | backend/internal/llm/circuit_breaker.go:114-121 | open admits, and becomes half-open, exactly when more than the timeout has passed since the latest failure, those recorded while open included |
| `Gateway.Gateway.Register` | backend/internal/llm/gateway.go:48-59 | the provider gets a fresh breaker of its own with thresholds 5 and 3, a timeout of 30 seconds and one probe |
| `Gateway.Gateway.Chat` | backend/internal/llm/gateway.go:119-160 | result and breaker state of a whole call; other providers' breakers unchanged |
| `Gateway.Gateway.ChatStream` | backend/internal/llm/gateway.go:79-114 | a failed opening is recorded, a successful one is not; other providers' breakers unchanged |
| `Gateway.ChatIsTwoSteps` | backend/internal/llm/gateway.go:119-160 | the two steps of a chat call in a concurrent run, taken together, leave the breaker as the whole call does and nothing in flight |
| `Gateway.StreamIsTwoSteps` | backend/internal/llm/gateway.go:79-114 | likewise for a stream, which tells the breaker only when it fails to open |
| `Gateway.ProbesAreInFlight` | backend/internal/llm/gateway.go:119-160 | over every concurrent run a provider's probe slots are at most its calls in flight plus its opened streams |
| `Gateway.IdleHalfOpenAdmits` | backend/internal/llm/circuit_breaker.go:123-128 | without streams, half-open with nothing in flight admits if and only if the probe limit is at least one |
| `Gateway.OthersUntouched` | backend/internal/llm/gateway.go:205-219 | no run of calls to other providers changes a provider's breaker |
| `Gateway.BreakerIsItsHistory` | backend/internal/llm/gateway.go:79-160 | each breaker of a concurrent run is the breaker of its own event history |
| `Gateway.Recovering` | backend/internal/llm/circuit_breaker.go:138-150 | before the threshold a recovering provider is half-open, holds no slot and has counted every call let through |
| `Gateway.GoodCallsCloseCircuit` | backend/internal/llm/gateway.go:119-160 | after the timeout with no chat in flight, the threshold number of good calls closes the circuit if and only if the probe limit is at least one or one success suffices |
| `Gateway.WedgedForEver` | backend/internal/llm/circuit_breaker.go:123-128 | with all slots taken and no call left to release one, no call is ever admitted again |
| `Gateway.NotWedgedCanRecover` | backend/internal/llm/circuit_breaker.go:106-178 | from every other state, and from any instant on, some continuation in clock order admits again: at once when closed, after the timeout when open, after one failed ending when half-open |
| `Gateway.LockedOutExactlyWhenWedged` | backend/internal/llm/circuit_breaker.go:106-178 | no continuation in clock order ever admits a call to a provider if and only if it is half-open with all slots taken and no call in flight |
| `Gateway.OnlyStreamsWedge` | backend/internal/llm/gateway.go:79-114 | with a probe limit of at least one, a locked-out provider has opened at least that many streams |
| `Gateway.OpenedStreamWedges` | backend/internal/llm/gateway.go:107-113 | under a probe limit of at most one, a stream that opens well on an expired open circuit with no other call in flight locks the provider out for ever |
| `RateLimiter.Compact` | backend/internal/service/rate_limiter.go:72-79 | filtering in place keeps exactly the timestamps inside the window, in order |
| `RateLimiter.LiveIsFilter` | backend/internal/service/rate_limiter.go:72-79 | what stays in a window is every timestamp strictly inside it, as often as it occurred |
| `RateLimiter.IsWindowExpired` | backend/internal/service/rate_limiter.go:155-162 | true exactly when nothing is inside the window |
| `RateLimiter.RateLimiter.EvictLocked` | backend/internal/service/rate_limiter.go:123-150 | a round checks every key of at most 500, else 200 of them, and drops exactly the expired ones among those checked |
| `RateLimiter.SmallRoundIsComplete` | backend/internal/service/rate_limiter.go:126-135 | a round over at most 500 keys leaves no expired window |
| `RateLimiter.RateLimiter.Allow` | backend/internal/service/rate_limiter.go:53-89 | an eviction round on every call that is due and none otherwise, then the decision and all windows after the call |
| `RateLimiter.RateLimiter.Admit` | backend/internal/service/rate_limiter.go:72-88 | the key's window is trimmed and the request recorded while there is room |
| `RateLimiter.RateLimiter.Count` | backend/internal/service/rate_limiter.go:92-111 | the number of timestamps inside the window |
| `RateLimiter.RunsAgree` | backend/internal/service/rate_limiter.go:53-162 | windows and complete history show the same live timestamps for every later window |
| `RateLimiter.EvictionIsTransparent` | backend/internal/service/rate_limiter.go:53-162 | after any call sequence the next decision and count equal those of a reference keeping the complete admitted history |
| `RateLimiter.GrantedIsAdmitted` | backend/internal/service/rate_limiter.go:53-162 | the requests granted by the evicting limiter's own decisions are those the reference admits |
| `RateLimiter.DecidesOnGranted` | backend/internal/service/rate_limiter.go:53-89 | every decision is the one on everything the limiter has granted so far |
| `RateLimiter.SlidingWindowBound` | backend/internal/service/rate_limiter.go:53-89 | in every half-open interval of the window's length the evicting limiter grants at most the limit |
| `RateLimiter.RefusedOnlyWhenFull` | backend/internal/service/rate_limiter.go:53-89 | a request is admitted if and only if fewer than the limit of the requests granted before lie in the window that ends with it |
| `RedisRateLimiter.RedisRateLimiter.Allow` | backend/internal/service/redis_rate_limiter.go:48-77 | trim, count, add and expiry; lets everything through when Redis is unreachable |
| `RedisRateLimiter.RequestKept` | backend/internal/service/redis_rate_limiter.go:58-68 | one request seen from any later moment: what expired with the key was outside the window |
| `RedisRateLimiter.RedisHoldsAsked` | backend/internal/service/redis_rate_limiter.go:58-68 | the sorted set shows exactly the requests inside the window, key expiry notwithstanding |
| `RedisRateLimiter.RedisCountsRequests` | backend/internal/service/redis_rate_limiter.go:58-76 | admitted exactly when fewer than the limit of the times of requests of the key, refused ones included, lie in the window |
| `RedisRateLimiter.RedisIsStricter` | backend/internal/service/redis_rate_limiter.go:48-77 | after distinct timestamps whatever Redis admits the in-memory limiter admits, on the windows it kept after evicting |
| `RedisRateLimiter.TieBreaksDominance` | backend/internal/service/redis_rate_limiter.go:54-65 | every tie in a trace yields a limit and a window under which Redis admits the tied request again and the in-memory limiter refuses it |
| `RedisRateLimiter.StricterExactlyWhenDistinct` | backend/internal/service/redis_rate_limiter.go:48-77 | over all limits, windows and prefixes of a trace, Redis admits nothing the in-memory limiter refuses if and only if no two requests of a key are simultaneous |
| `Quota.QuotaRepository.ResetIfNeeded` | backend/internal/repository/quota_repository.go:72-79 | usage restarts at zero exactly when the row is more than 24 hours old; plan, limit and other users stay |
| `Quota.QuotaRepository.TryIncrementUsage` | backend/internal/repository/quota_repository.go:54-70 | increments exactly when below the limit |
| `Quota.QuotaRepository.EnsureQuota` | backend/internal/repository/quota_repository.go:84-97 | inserts 500 for pro and lifetime, else 50, unused, only when no row exists |
| `Quota.QuotaService.ResetIfNeeded` | backend/internal/service/quota_service.go:41-60 | skipped when today is cached; a failed statement leaves row and cache alone; other users untouched |
| `Quota.QuotaService.GetQuota` | backend/internal/service/quota_service.go:62-83 | the refreshed row, or the free default when it cannot be read |
| `Quota.QuotaService.IncrementUsage` | backend/internal/service/quota_service.go:85-95 | refresh, then increment; quota exceeded exactly when there is no room |
| `Quota.UsageWithinLimit` | backend/internal/repository/quota_repository.go:54-97 | usage is between 0 and the limit in every reachable state |
| `Quota.CacheLagBound` | backend/internal/service/quota_service.go:41-60 | after an undisturbed check the row is less than two days old; without the cache it would be at most one |
| `Quota.CacheLagIsReached` | backend/internal/service/quota_service.go:41-60 | a row one nanosecond short of two days survives a check |
| `Quota.ResetsAreSpaced` | backend/internal/repository/quota_repository.go:72-79 | two resets are more than 24 hours apart |
| `Quota.TwiceTheLimit` | backend/internal/service/quota_service.go:85-95 | any 24 hours contain at most twice the limit of successful increments, by all service processes together |
| `Quota.TwiceTheLimitIsReached` | backend/internal/service/quota_service.go:85-95 | for every positive limit some run consumes exactly twice the limit in 24 hours |
| `Payments.PaymentRepository.CreatePayment` | backend/internal/repository/payment_repository.go:26-34 | inserts unless the session is taken or the user does not exist |
| `Payments.PaymentRepository.UpdateStatus` | backend/internal/repository/payment_repository.go:53-70 | changes the status; only completion sets the completion time, nothing clears it |
| `Payments.PaymentRepository.CompletePaymentTx` | backend/internal/repository/payment_repository.go:118-147 | payment and plan change together or not at all |
| `Payments.PaymentRepository.SetPlan` | backend/internal/repository/plan_repository.go:37-46 | sets the plan of an existing user; no other plan and no payment changes, and no user is added |
| `Payments.PaymentRepository.RecordWebhookEvent` | backend/internal/repository/payment_repository.go:151-164 | records the id and says whether it was new |
| `Payments.PaymentService.CreateCheckoutSession` | backend/internal/service/payment_service.go:96-130 | a pending payment of 499 cents for pro or 4999 for lifetime, or the error of the step that failed with nothing stored |
| `Payments.PaymentService.HandleWebhook` | backend/internal/service/payment_service.go:134-213 | in both modes a recorded event changes nothing; production refuses events without an id or that cannot be recorded, test mode handles them |
| `Payments.PaymentService.Route` | backend/internal/service/payment_service.go:162-176 | each event kind has the effect of its handler; subscription deletion downgrades to free |
| `Payments.PaymentService.CompletePayment` | backend/internal/service/payment_service.go:217-254 | completes any payment not already completed |
| `Payments.PaymentService.HandleExpired` | backend/internal/service/payment_service.go:283-303 | expires pending payments only |
| `Payments.PaymentService.HandleRefunded` | backend/internal/service/payment_service.go:307-330 | refunds and downgrades; a failed downgrade is swallowed |
| `Payments.EventStopped` | backend/internal/service/payment_service.go:145-160 | an event that does not pass the record check leaves the ledger alone, with the answer for each reason |
| `Payments.UnfoundIsRefused` | backend/internal/service/payment_service.go:217-226 | events whose payment is not named or not found change nothing but the record |
| `Payments.CompletionLaw` | backend/internal/service/payment_service.go:217-245 | a payment in any other state becomes completed now and its user gets its plan; a completed one is refused; a failed write changes neither |
| `Payments.ExpiryLaw` | backend/internal/service/payment_service.go:283-303 | a pending payment becomes expired, any other stays, and no plan changes |
| `Payments.RefundLaw` | backend/internal/service/payment_service.go:307-330 | a payment in any state becomes refunded and its user free; a failed downgrade is not answered |
| `Payments.SubscriptionLaw` | backend/internal/service/payment_service.go:162-176 | a deleted subscription makes its user free and touches no payment; failed invoices and unknown events change nothing |
| `Payments.StatusIsItsHistory` | backend/internal/service/payment_service.go:134-330 | over any run the status of a payment is what the events that reached it, in order, make of it |
| `Payments.CompletionBacks` | backend/internal/service/payment_service.go:217-245 | completing a payment leaves its user's plan backed and concerns nobody else |
| `Payments.StatusChangeUnbacks` | backend/internal/service/payment_service.go:283-330 | taking the completed status from a payment unbacks its user exactly when no other payment backs the plan |
| `Payments.PaidPlansAreBacked` | backend/internal/service/payment_service.go:96-330 | from all-free users, whatever fails, a paid plan is backed by a completed payment of that user for that plan exactly when no lost downgrade of that user is still unrepaired; completed payments carry a completion time |
| `Payments.LostDowngrade` | backend/internal/service/payment_service.go:134-330 | one step unbacks a plan if and only if it is a refund that passes the record check, whose write works and downgrade fails, of the only payment behind the plan; it backs an unbacked one if and only if it completes a payment of the user or takes the plan away |
| `Payments.BackedUnlessLost` | backend/internal/service/payment_service.go:96-330 | over any run a user backed at the start ends unbacked if and only if some step lost the backing and no later step restored it |
| `Payments.RefundedUserKeepsPlan` | backend/internal/service/payment_service.go:307-330 | bought, completed and refunded with the downgrade failing: the user keeps the paid plan with nothing behind it, in either mode |
| `Payments.PaymentsOnlyEvolve` | backend/internal/service/payment_service.go:217-330 | over any run a payment keeps user, plan and price, never returns to pending and never expires once completed or refunded |
| `Payments.FirstDeliveriesAreDistinct` | backend/internal/service/payment_service.go:152-160 | the first recorded deliveries repeat no event id |
| `Payments.ReplaysHaveNoEffect` | backend/internal/service/payment_service.go:134-177 | in production a run equals the run of the first recorded delivery of each event |
| `Payments.RecordedEventIsNeverRetried` | backend/internal/service/payment_service.go:152-160 | a recorded event, even one whose handling failed, is answered as done for ever after |
| `RefreshTokens.StoredExpiryCoversClaim` | backend/internal/service/auth_service.go:321-329 | the stored expiry, in microseconds, is never earlier than the second-truncated claim |
| `RefreshTokens.RefreshTokenRepository.Store` | backend/internal/repository/refresh_token_repository.go:22-29 | inserts an unrevoked row unless the jti is taken |
| `RefreshTokens.RefreshTokenRepository.Revoke` | backend/internal/repository/refresh_token_repository.go:33-42 | revokes an existing row and says whether it did |
| `RefreshTokens.RefreshTokenRepository.RevokeAllForUser` | backend/internal/repository/refresh_token_repository.go:61-67 | no row of the user stays unrevoked, and no other row changes |
| `RefreshTokens.RefreshTokenRepository.PurgeExpired` | backend/internal/repository/refresh_token_repository.go:71-79 | exactly the rows that expired before now are gone, and the answer is their number |
| `RefreshTokens.AuthService.IssueTokens` | backend/internal/service/auth_service.go:298-351 | signs both tokens and stores the refresh jti unless it reads back as expired |
| `RefreshTokens.IssueSignsPair` | backend/internal/service/auth_service.go:298-337 | exactly one access and one refresh claim of the user are signed, each living its own expiry in whole seconds |
| `RefreshTokens.IssueStoresRow` | backend/internal/service/auth_service.go:225-231 | at most one row is added: of the new jti and the user, unrevoked, expiring a refresh expiry after storing |
| `RefreshTokens.EveryTokenWasSigned` | backend/internal/service/auth_service.go:109-234 | every signed token of a run was handed out by one of its steps, to the user of that step and with the lifetime of its kind |
| `RefreshTokens.AuthService.Check` | backend/internal/service/auth_service.go:173-210 | which refusal is given exactly when: not signed or expired, not a refresh token, seen to be revoked, user gone |
| `RefreshTokens.AuthService.RefreshToken` | backend/internal/service/auth_service.go:172-234 | a passed check revokes the presented token and issues a new pair; any other changes nothing |
| `RefreshTokens.AuthService.Register` | backend/internal/service/auth_service.go:109-142 | a new user with a stored refresh token |
| `RefreshTokens.AuthService.Login` | backend/internal/service/auth_service.go:145-170 | tokens only for an existing user with the right password |
| `RefreshTokens.AuthService.DeleteAccount` | backend/internal/service/auth_service.go:240-269 | revokes, deletes and cascades: afterwards no row of the user is left and no other row has changed; a failed deletion keeps the user |
| `RefreshTokens.NextKeepsInv` | backend/internal/service/auth_service.go:172-234 | whatever fails in a step, the row of a refresh token stays its own and outlives it, and no jti is signed twice |
| `RefreshTokens.RowIsItsHistory` | backend/internal/service/auth_service.go:172-234 | the row of every unexpired token of an existing user is there exactly when it was stored and revoked exactly when some step revoked it |
| `RefreshTokens.AcceptedExactlyWhen` | backend/internal/service/auth_service.go:172-234 | after any run a token passes the check if and only if it was issued, its user exists, it has not expired, and the check fails, its jti was never stored, or no step revoked it |
| `RefreshTokens.ReusableExactlyWhen` | backend/internal/service/auth_service.go:192-231 | a token just refreshed can be refreshed again if and only if it has not expired and the check fails, its row is missing, or its revocation failed |
| `RefreshTokens.SpentStays` | backend/internal/repository/refresh_token_repository.go:45-79 | a token that cannot be refreshed stays so under every step, purge, deletion and failing statements included |
| `RefreshTokens.RefreshSpends` | backend/internal/service/auth_service.go:217-223 | a successful refresh with a working check and revocation spends a stored token, which was not spent before |
| `RefreshTokens.SingleUse` | backend/internal/service/auth_service.go:172-234 | over every run a token for which store, check and revocation worked is refreshed at most once, whatever failed for others |
| `RefreshTokens.PurgeNeverRevives` | backend/internal/repository/refresh_token_repository.go:69-79 | after any run, whatever failed in it, every presented token is answered as if no purge had ever taken place |
| `RefreshTokens.DeletedUserStaysOut` | backend/internal/service/auth_service.go:240-269 | after an account is deleted none of its tokens is ever refreshed again |

## Left out

- HTTP handlers, router, middleware, metrics, logging and request validation; only the bounds the pull handler enforces appear, as preconditions of `Pull`.
- Platform adapters, push notifications, object storage, job queues, and the retry and stream-parsing code of the LLM providers.
- Cryptography: a valid token is its claims, a webhook event is already verified and parsed, a password check is a parameter.
- Filling in request defaults (model, retries, temperature) in the gateway, and replacing a breaker with `SetCircuitBreaker`.
- Deletes inside pull walks and convergence runs: a delete leaves no tombstone, so a later push may reinstate an older version.
- `CleanOldOperationLogs`, `ListTagsByType`, `GetOperationCounts` and the progress ratio: thin queries; the operation log's random ids are not modelled either.
- Interleaving inside one transaction, one webhook handler, one token refresh or one Redis pipeline: each is one step, except that a pull's page and has-more queries are separate steps.
- Integer widths: versions and counters are unbounded; a version the database rejects is a failing statement.
- RateLimiter.RateLimiter.Allow: a window is a sequence between calls and an array only while it is filtered, so reuse of one backing array across calls is not captured.
- RedisRateLimiter.RedisRateLimiter.Allow: scores are exact timestamps; rounding of scores to floating point and a pipeline that fails half-way are not modelled.
- SyncRepository.SyncBlobRepository.BatchUpsert: results are a sequence rather than a shared slice, and the blobs are values in an array rather than pointers.
- `QuotaRepository.Create`, which the quota service never calls.
- Payments.PaymentService.CreateCheckoutSession: the session id is a parameter in test mode too, where the code derives it from the user and the plan.
- Payments.PaidPlansAreBacked: `UpgradePlan`, a declared stub that sets plans without payment, is not a step.
- RefreshTokens.AuthService.Register: the duplicate email and username checks are not modelled; they leave the token store alone.
- Comments, profiles, note links, embeddings, devices, sharing, configuration, and the mobile and desktop clients.
