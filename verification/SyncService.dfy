/** The push half of the sync service: what a client is told about its items, and the
    operation log that conflict statistics are read from. */
module SyncService {
  import opened Common
  import opened SyncTable
  import opened SyncQueries
  import opened SyncRepository
  import opened SyncConvergence

  datatype PushItem = PushItem(itemId: Uuid, itemType: string, content: Content)

  datatype Conflict = Conflict(itemId: Uuid, itemType: string, serverVersion: int, clientVersion: int)

  function ToBlob(user: Uuid, item: PushItem): Blob {
    Blob(Key(user, item.itemType, item.itemId), item.content)
  }

  function ToBlobs(user: Uuid, req: seq<PushItem>): seq<Blob> {
    seq(|req|, i requires 0 <= i < |req| => ToBlob(user, req[i]))
  }

  /** The three things that can happen to one request item. */
  datatype Fate = Accepted | Conflicted | Skipped

  function FateOf(r: UpsertResult): Fate {
    if r.error.Some? then Skipped else if r.accepted then Accepted else Conflicted
  }

  /** The items with fate `f`, in request order. */
  function Having(rs: seq<UpsertResult>, f: Fate): seq<UpsertResult> {
    if rs == [] then []
    else Having(rs[..|rs|-1], f) + if FateOf(rs[|rs|-1]) == f then [rs[|rs|-1]] else []
  }

  function Ids(rs: seq<UpsertResult>): seq<Uuid> {
    seq(|rs|, i requires 0 <= i < |rs| => rs[i].itemId)
  }

  function AsConflict(r: UpsertResult): Conflict {
    Conflict(r.itemId, r.itemType, r.serverVersion, r.clientVersion)
  }

  function AsConflicts(rs: seq<UpsertResult>): seq<Conflict> {
    seq(|rs|, i requires 0 <= i < |rs| => AsConflict(rs[i]))
  }

  /** A conflict is logged with version 0, an accepted item with the client's version. */
  function LogOf(user: Uuid, r: UpsertResult, now: Time): OperationLog {
    OperationLog(user, "push", r.itemType, r.itemId, if r.accepted then r.clientVersion else 0, now)
  }

  function LogsOf(user: Uuid, rs: seq<UpsertResult>, now: Time): seq<OperationLog> {
    if rs == [] then []
    else LogsOf(user, rs[..|rs|-1], now) +
         if FateOf(rs[|rs|-1]) == Skipped then [] else [LogOf(user, rs[|rs|-1], now)]
  }

  /** What the classification works on: the outcomes if the batch committed, else nothing. */
  function Reported(t: Table, bs: seq<Blob>, faults: TxFaults, now: Time): seq<UpsertResult> {
    if Commits(t, bs, faults, now) then Outcomes(t, bs, now) else []
  }

  class SyncService {
    const repo: SyncBlobRepository

    constructor (repo: SyncBlobRepository)
      ensures this.repo == repo
    {
      this.repo := repo;
    }

    /** One page. The latest-version and has-more queries may fail without failing the
        call; the limits on the arguments are those the HTTP handler enforces. */
    method Pull(user: Uuid, since: int, limit: nat, cursor: int,
                queryFails: bool, latestFails: bool, moreFails: bool)
      returns (r: Result<PullResponse>)
      requires 0 <= since && 0 <= cursor && 1 <= limit <= 500
      ensures r.Failure? <==> queryFails
      ensures r.Success? ==> IsPage(repo.rows, user, EffectiveSince(since, cursor), limit, r.value.blobs)
      ensures r.Success? ==>
                r.value.nextCursor == if r.value.blobs == [] then 0 else LastVersion(r.value.blobs)
      ensures r.Success? ==>
                (r.value.hasMore <==>
                   r.value.blobs != [] && !moreFails && Matching(repo.rows, user, r.value.nextCursor) != {})
      ensures r.Success? ==> forall i :: 0 <= i < |r.value.blobs| ==>
                var item := r.value.blobs[i];
                && item.key in repo.rows && item.row == repo.rows[item.key] && item.key.user == user
                && (if cursor > 0 then cursor else since) < item.row.content.version
      ensures r.Success? && r.value.blobs == [] ==> Matching(repo.rows, user, EffectiveSince(since, cursor)) == {}
      ensures r.Success? ==>
                if latestFails then r.value.latestVersion == 0 else IsLatest(repo.rows, user, r.value.latestVersion)
    {
      if queryFails {
        return Failure;
      }
      var blobs := repo.PullSincePaginated(user, EffectiveSince(since, cursor), limit);
      if blobs == [] {
        EmptyPage(repo.rows, user, EffectiveSince(since, cursor), limit);
      }
      var latest := 0;
      if !latestFails {
        latest := repo.GetLatestVersion(user);
      }
      var nextCursor, hasMore := 0, false;
      if |blobs| > 0 {
        nextCursor := LastVersion(blobs);
        if !moreFails {
          hasMore := repo.HasMoreSince(user, nextCursor);
          MatchingNonEmpty(repo.rows, user, nextCursor);
        }
      }
      return Success(PullResponse(blobs, latest, hasMore, nextCursor));
    }

    method Push(user: Uuid, req: seq<PushItem>, faults: TxFaults, logFails: bool, now: Time)
      returns (accepted: seq<Uuid>, conflicts: seq<Conflict>)
      modifies repo
      ensures repo.rows == BatchEffect(old(repo.rows), ToBlobs(user, req), faults, now)
      ensures var rs := Reported(old(repo.rows), ToBlobs(user, req), faults, now);
              && accepted == Ids(Having(rs, Accepted))
              && conflicts == AsConflicts(Having(rs, Conflicted))
              && repo.logs == old(repo.logs) + if logFails then [] else LogsOf(user, rs, now)
    {
      accepted, conflicts := [], [];
      if |req| == 0 {
        assert ToBlobs(user, req) == [];
        assert Stamped([], now) == [] && Outcomes(repo.rows, [], now) == [];
        return;
      }
      var blobs := new Blob[|req|](i requires 0 <= i < |req| => ToBlob(user, req[i]));
      assert blobs[..] == ToBlobs(user, req);
      var results := repo.BatchUpsert(blobs, faults, now);
      var opLogs;
      accepted, conflicts, opLogs := Classify(user, results, now);
      if !Commits(old(repo.rows), ToBlobs(user, req), faults, now) {
        AllSkipped(user, results, now);
      }
      if |opLogs| > 0 && !logFails {
        repo.logs := repo.logs + opLogs;
      }
    }
  }

  // ---------------------------------------------------------------------------- pull

  datatype PullResponse = PullResponse(blobs: seq<Item>, latestVersion: int, hasMore: bool, nextCursor: int)

  /** A cursor, when given, replaces the `since` version. */
  function EffectiveSince(since: int, cursor: int): int {
    if cursor > 0 then cursor else since
  }

  /** The loop of `Push` that sorts results into accepted items, conflicts and log entries. */
  method Classify(user: Uuid, results: seq<UpsertResult>, now: Time)
    returns (accepted: seq<Uuid>, conflicts: seq<Conflict>, opLogs: seq<OperationLog>)
    ensures accepted == Ids(Having(results, Accepted))
    ensures conflicts == AsConflicts(Having(results, Conflicted))
    ensures opLogs == LogsOf(user, results, now)
  {
    accepted, conflicts, opLogs := [], [], [];
    for i := 0 to |results|
      invariant accepted == Ids(Having(results[..i], Accepted))
      invariant conflicts == AsConflicts(Having(results[..i], Conflicted))
      invariant opLogs == LogsOf(user, results[..i], now)
    {
      var res := results[i];
      ClassifyStep(user, results, i, now);
      if res.error.Some? {
        continue;
      }
      if res.accepted {
        accepted := accepted + [res.itemId];
        opLogs := opLogs + [OperationLog(user, "push", res.itemType, res.itemId, res.clientVersion, now)];
      } else {
        conflicts := conflicts + [Conflict(res.itemId, res.itemType, res.serverVersion, res.clientVersion)];
        opLogs := opLogs + [OperationLog(user, "push", res.itemType, res.itemId, 0, now)];
      }
    }
    assert results[..|results|] == results;
  }

  /** One more result: it extends exactly the lists of its fate. */
  lemma {:induction false} ClassifyStep(user: Uuid, results: seq<UpsertResult>, i: nat, now: Time)
    requires i < |results|
    ensures var r, before, after := results[i], results[..i], results[..i + 1];
            && Ids(Having(after, Accepted)) ==
               Ids(Having(before, Accepted)) + (if FateOf(r) == Accepted then [r.itemId] else [])
            && AsConflicts(Having(after, Conflicted)) ==
               AsConflicts(Having(before, Conflicted)) + (if FateOf(r) == Conflicted then [AsConflict(r)] else [])
            && LogsOf(user, after, now) ==
               LogsOf(user, before, now) + (if FateOf(r) == Skipped then [] else [LogOf(user, r, now)])
  {
    assert results[..i + 1][..i] == results[..i];
  }

  /** When every result carries an error nothing is reported and nothing is logged. */
  lemma {:induction false} AllSkipped(user: Uuid, rs: seq<UpsertResult>, now: Time)
    requires forall i :: 0 <= i < |rs| ==> FateOf(rs[i]) == Skipped
    ensures Having(rs, Accepted) == [] && Having(rs, Conflicted) == [] && LogsOf(user, rs, now) == []
  {
    if rs != [] {
      AllSkipped(user, rs[..|rs|-1], now);
    }
  }

  /** Positions of the items with fate `f`. */
  function Positions(rs: seq<UpsertResult>, f: Fate): seq<nat> {
    if rs == [] then []
    else Positions(rs[..|rs|-1], f) + if FateOf(rs[|rs|-1]) == f then [|rs| - 1] else []
  }

  /** `Having` is an order-preserving selection: its positions increase, are exactly the
      items with that fate, and the entries are the items at those positions. */
  lemma {:induction false} HavingIsSelection(rs: seq<UpsertResult>, f: Fate)
    ensures var ps := Positions(rs, f);
            && |Having(rs, f)| == |ps|
            && (forall c :: 0 <= c < |ps| ==> ps[c] < |rs| && Having(rs, f)[c] == rs[ps[c]])
            && (forall c, d :: 0 <= c < d < |ps| ==> ps[c] < ps[d])
            && (forall i :: 0 <= i < |rs| ==> (i in ps <==> FateOf(rs[i]) == f))
  {
    if rs != [] {
      HavingIsSelection(rs[..|rs|-1], f);
    }
  }

  /** Every item falls in exactly one class: the three lists share no position and
      together account for every item. */
  lemma {:induction false} FatesPartition(rs: seq<UpsertResult>)
    ensures |Having(rs, Accepted)| + |Having(rs, Conflicted)| + |Having(rs, Skipped)| == |rs|
    ensures forall i :: 0 <= i < |rs| ==>
              multiset{i in Positions(rs, Accepted), i in Positions(rs, Conflicted), i in Positions(rs, Skipped)}
              == multiset{true, false, false}
  {
    HavingIsSelection(rs, Accepted);
    HavingIsSelection(rs, Conflicted);
    HavingIsSelection(rs, Skipped);
    if rs != [] {
      FatesPartition(rs[..|rs|-1]);
    }
  }

  /** The batch is a left-to-right run of single upserts, repeated keys included: the same
      table before and after every item and the same accepted flag. Only the version named
      in a conflict differs: the single upsert would report the version it met, the batch
      reports the one at its end, which is at least that. */
  lemma {:induction false} BatchRefinesSingleUpserts(t: Table, bs: seq<Blob>, now: Time, i: nat)
    requires i < |bs|
    ensures TableAt(t, bs, now, 0) == t
    ensures TableAt(t, bs, now, i + 1) == UpsertRow(TableAt(t, bs, now, i), Write(bs[i], now))
    ensures TableAt(t, bs, now, |bs|) == BatchEffect(t, bs, TxFaults(false, None, false), now)
    ensures Outcome(t, bs, now, i).accepted == Accepts(TableAt(t, bs, now, i), bs[i])
    ensures !Outcome(t, bs, now, i).accepted ==>
              var met := TableAt(t, bs, now, i);
              && bs[i].key in met
              && bs[i].content.version <= met[bs[i].key].content.version <= Outcome(t, bs, now, i).serverVersion
  {
    TableAtStep(t, bs, now, i);
    TableAtEnd(t, bs, now);
    assert Stamped(bs, now)[..0] == [];
    if !Outcome(t, bs, now, i).accepted {
      var ws := Stamped(bs, now);
      assert ws == ws[..i] + ws[i..];
      ReplayConcat(t, ws[..i], ws[i..]);
      ReplayKeepsKeys(TableAt(t, bs, now, i), ws[i..], bs[i].key);
    }
  }

  /** What a committed report promises about the table it leaves behind: an accepted item
      is there, at its version or a newer one; a conflict names the version that is
      there, and that version is at least the client's. */
  lemma {:induction false} ReportIsTruthful(t: Table, bs: seq<Blob>, now: Time, i: nat)
    requires i < |bs|
    ensures var r, end := Outcome(t, bs, now, i), Replay(t, Stamped(bs, now));
            && bs[i].key in end
            && r.clientVersion == bs[i].content.version <= end[bs[i].key].content.version
            && r.serverVersion == (if r.accepted then 0 else end[bs[i].key].content.version) && r.error == None
            && Told(r) == (if r.accepted then bs[i].content.version else end[bs[i].key].content.version)
            && (r.accepted && r.clientVersion == end[bs[i].key].content.version ==>
                  end[bs[i].key].content == bs[i].content)
  {
    ItemIsCovered(t, bs, now, i);
    var ws := Stamped(bs, now);
    if Outcome(t, bs, now, i).accepted {
      TableAtStep(t, bs, now, i);
      assert ws == ws[..i + 1] + ws[i + 1..];
      ReplayConcat(t, ws[..i + 1], ws[i + 1..]);
      SameVersionSameContent(TableAt(t, bs, now, i + 1), ws[i + 1..], bs[i].key);
    }
  }

  lemma {:induction false} SameVersionSameContent(t: Table, ws: seq<Write>, k: Key)
    requires k in t
    ensures k in Replay(t, ws)
    ensures Replay(t, ws)[k].content.version == t[k].content.version ==> Replay(t, ws)[k].content == t[k].content
  {
    ReplayKeepsKeys(t, ws, k);
    if ws != [] {
      ReplayKeepsKeys(t, ws[..|ws|-1], k);
      SameVersionSameContent(t, ws[..|ws|-1], k);
    }
  }

  // ------------------------------------------------------------- in terms of the request

  /** After a committed push every requested item is there for its user, at the requested
      version or a newer one, so that a full pull from any older version returns it. */
  lemma {:induction false} PushIsPulled(
    t: Table, user: Uuid, req: seq<PushItem>, now: Time, i: nat, since: int, items: seq<Item>)
    requires i < |req|
    requires IsFullAnswer(Replay(t, Stamped(ToBlobs(user, req), now)), user, since, items)
    ensures var end := Replay(t, Stamped(ToBlobs(user, req), now));
            && Key(user, req[i].itemType, req[i].itemId) in end
            && req[i].content.version <= end[Key(user, req[i].itemType, req[i].itemId)].content.version
    ensures since < req[i].content.version ==>
              exists c :: && 0 <= c < |items| && items[c].key == Key(user, req[i].itemType, req[i].itemId)
                          && req[i].content.version <= Version(items[c])
  {
    ItemIsCovered(t, ToBlobs(user, req), now, i);
    var end, k := Replay(t, Stamped(ToBlobs(user, req), now)), ToBlobs(user, req)[i].key;
    if since < req[i].content.version {
      assert k in Matching(end, user, since);
      assert k in Keys(items);
      var c :| 0 <= c < |items| && items[c].key == k;
      assert items[c].row == end[k];
    }
  }

  /** Item `j` of the request is what a changed row `k` now holds. */
  ghost predicate Supplies(user: Uuid, req: seq<PushItem>, j: int, k: Key, content: Content) {
    && 0 <= j < |req| && k == Key(user, req[j].itemType, req[j].itemId)
    && content == req[j].content
  }

  /** A push removes no row and touches no row but those it names: a row that changes is
      the pushing user's, holds the content of an item of the request, and carries the
      time of the push; a row that was there keeps its creation time. */
  lemma {:induction false} PushTouchesOnlyItsItems(
    t: Table, user: Uuid, req: seq<PushItem>, faults: TxFaults, now: Time, k: Key)
    ensures var end := BatchEffect(t, ToBlobs(user, req), faults, now);
            && (k in t ==> k in end)
            && (k in end && (k !in t || end[k] != t[k]) ==>
                  && k.user == user && (exists j :: Supplies(user, req, j, k, end[k].content))
                  && end[k].updatedAt == now && end[k].createdAt == (if k in t then t[k].createdAt else now)
                  && (k in t ==> t[k].content.version < end[k].content.version))
  {
    var bs := ToBlobs(user, req);
    var ws := Stamped(bs, now);
    if Commits(t, bs, faults, now) {
      WinnerExists(ws, k);
      if Written(ws, k) {
        var w :| Wins(ws, k, w);
        Converges(t, ws, k, w);
        assert bs[w] == ToBlob(user, req[w]) && Supplies(user, req, w, k, ws[w].blob.content);
        if k in t {
          ReplayKeepsKeys(t, ws, k);
        } else {
          var f := FirstWrite(ws, k);
          FirstWriteDatesRow(t, ws, k, f);
        }
      } else {
        UnwrittenKeyKeepsRow(t, ws, k);
      }
    }
  }

  lemma {:induction false} FirstWrite(ws: seq<Write>, k: Key) returns (f: nat)
    requires Written(ws, k)
    ensures f < |ws| && ws[f].blob.key == k && forall j :: 0 <= j < f ==> ws[j].blob.key != k
  {
    f := 0;
    while ws[f].blob.key != k
      invariant f < |ws| && forall j :: 0 <= j < f ==> ws[j].blob.key != k
      decreases |ws| - f
    {
      assert exists j :: f < j < |ws| && ws[j].blob.key == k;
      f := f + 1;
    }
  }

  /** Entry `c` of the list of items with fate `f` is item `i`. */
  ghost predicate Listed(rs: seq<UpsertResult>, f: Fate, i: int, c: int) {
    0 <= c < |Positions(rs, f)| && Positions(rs, f)[c] == i
  }

  /** What a committed push answers for item `i`, in terms of the request: its id among the
      accepted ones if it met no row or an older one, else a conflict naming the item, the
      version now stored and the version sent. */
  lemma {:induction false} PushAnswersItem(t: Table, user: Uuid, req: seq<PushItem>, now: Time, i: nat)
    returns (c: nat)
    requires i < |req|
    ensures var rs := Outcomes(t, ToBlobs(user, req), now);
            var met, end := TableAt(t, ToBlobs(user, req), now, i), Replay(t, Stamped(ToBlobs(user, req), now));
            var k := Key(user, req[i].itemType, req[i].itemId);
            && k in end
            && if k !in met || met[k].content.version < req[i].content.version then
                 var accepted := Ids(Having(rs, Accepted));
                 Listed(rs, Accepted, i, c) && c < |accepted| && accepted[c] == req[i].itemId
               else
                 var conflicts := AsConflicts(Having(rs, Conflicted));
                 && Listed(rs, Conflicted, i, c) && c < |conflicts|
                 && conflicts[c] ==
                    Conflict(req[i].itemId, req[i].itemType, end[k].content.version, req[i].content.version)
  {
    ItemIsCovered(t, ToBlobs(user, req), now, i);
    var rs := Outcomes(t, ToBlobs(user, req), now);
    var f := FateOf(rs[i]);
    HavingIsSelection(rs, f);
    assert i in Positions(rs, f);
    c :| 0 <= c < |Positions(rs, f)| && Positions(rs, f)[c] == i;
  }

  /** A committed push that can write its log logs every item in request order: under its
      user and time, with its version if accepted and with version 0 if not. */
  lemma {:induction false} PushLogsEveryItem(user: Uuid, rs: seq<UpsertResult>, now: Time)
    requires forall i :: 0 <= i < |rs| ==> rs[i].error.None?
    ensures |LogsOf(user, rs, now)| == |rs|
    ensures forall i :: 0 <= i < |rs| ==>
              LogsOf(user, rs, now)[i] == OperationLog(user, "push", rs[i].itemType, rs[i].itemId,
                                                       if rs[i].accepted then rs[i].clientVersion else 0, now)
  {
    if rs != [] {
      PushLogsEveryItem(user, rs[..|rs|-1], now);
    }
  }

  // ---------------------------------------------------------------- conflict accounting

  datatype PushCall = PushCall(user: Uuid, req: seq<PushItem>, faults: TxFaults, logFails: bool, now: Time)

  datatype SyncState = SyncState(rows: Table, logs: seq<OperationLog>)

  function ReportOf(st: SyncState, c: PushCall): seq<UpsertResult> {
    Reported(st.rows, ToBlobs(c.user, c.req), c.faults, c.now)
  }

  /** The effect of one `Push` on table and log. */
  function PushStep(st: SyncState, c: PushCall): SyncState {
    SyncState(BatchEffect(st.rows, ToBlobs(c.user, c.req), c.faults, c.now),
              st.logs + if c.logFails then [] else LogsOf(c.user, ReportOf(st, c), c.now))
  }

  function RunPushes(st: SyncState, calls: seq<PushCall>): SyncState {
    if calls == [] then st else PushStep(RunPushes(st, calls[..|calls|-1]), calls[|calls|-1])
  }

  /** GetConflictCount: log entries of pushes carrying the sentinel version. */
  function ConflictCount(logs: seq<OperationLog>, user: Uuid): nat {
    if logs == [] then 0
    else ConflictCount(logs[..|logs|-1], user) +
         var l := logs[|logs|-1]; if l.user == user && l.operation == "push" && l.version == 0 then 1 else 0
  }

  /** Conflicts ever returned to `user`. */
  function ConflictsReturned(st: SyncState, calls: seq<PushCall>, user: Uuid): nat {
    if calls == [] then 0
    else var before, c := calls[..|calls|-1], calls[|calls|-1];
         ConflictsReturned(st, before, user) +
         if c.user == user then |Having(ReportOf(RunPushes(st, before), c), Conflicted)| else 0
  }

  function ZeroVersioned(rs: seq<UpsertResult>): nat {
    if rs == [] then 0
    else ZeroVersioned(rs[..|rs|-1]) + if FateOf(rs[|rs|-1]) == Accepted && rs[|rs|-1].clientVersion == 0 then 1 else 0
  }

  /** Items of `user` ever accepted while carrying version 0. */
  function ZeroVersionsAccepted(st: SyncState, calls: seq<PushCall>, user: Uuid): nat {
    if calls == [] then 0
    else var before, c := calls[..|calls|-1], calls[|calls|-1];
         ZeroVersionsAccepted(st, before, user) +
         if c.user == user then ZeroVersioned(ReportOf(RunPushes(st, before), c)) else 0
  }

  lemma {:induction false} ConflictCountConcat(a: seq<OperationLog>, b: seq<OperationLog>, user: Uuid)
    ensures ConflictCount(a + b, user) == ConflictCount(a, user) + ConflictCount(b, user)
  {
    if b == [] {
      assert a + b == a;
    } else {
      assert (a + b)[..|a + b| - 1] == a + b[..|b|-1];
      ConflictCountConcat(a, b[..|b|-1], user);
    }
  }

  lemma {:induction false} LoggedConflicts(owner: Uuid, rs: seq<UpsertResult>, now: Time, user: Uuid)
    ensures ConflictCount(LogsOf(owner, rs, now), user) ==
            if owner == user then |Having(rs, Conflicted)| + ZeroVersioned(rs) else 0
  {
    if rs != [] {
      var before, last := rs[..|rs|-1], rs[|rs|-1];
      LoggedConflicts(owner, before, now, user);
      var entry := if FateOf(last) == Skipped then [] else [LogOf(owner, last, now)];
      ConflictCountConcat(LogsOf(owner, before, now), entry, user);
      LoggedEntry(owner, last, now, user);
    }
  }

  /** The log entry of one result counts as a conflict when it is one, or when the item
      was accepted with version 0. */
  lemma {:induction false} LoggedEntry(owner: Uuid, r: UpsertResult, now: Time, user: Uuid)
    ensures var entry := if FateOf(r) == Skipped then [] else [LogOf(owner, r, now)];
            ConflictCount(entry, user) ==
            if owner == user && (FateOf(r) == Conflicted || (FateOf(r) == Accepted && r.clientVersion == 0))
            then 1 else 0
  {
    assert [LogOf(owner, r, now)][..0] == [];
  }

  /** The exact meaning of the conflict counter, over every run with successful log
      writes: conflicts returned, plus accepted items that carried the sentinel version 0. */
  lemma {:induction false} ConflictCounterIsExact(st: SyncState, calls: seq<PushCall>, user: Uuid)
    requires forall i :: 0 <= i < |calls| ==> !calls[i].logFails
    ensures ConflictCount(RunPushes(st, calls).logs, user) ==
            ConflictCount(st.logs, user) + ConflictsReturned(st, calls, user) + ZeroVersionsAccepted(st, calls, user)
  {
    if calls != [] {
      var before, c := calls[..|calls|-1], calls[|calls|-1];
      ConflictCounterIsExact(st, before, user);
      var mid := RunPushes(st, before);
      LoggedConflicts(c.user, ReportOf(mid, c), c.now, user);
      ConflictCountConcat(mid.logs, LogsOf(c.user, ReportOf(mid, c), c.now), user);
    }
  }

  lemma {:induction false} NoZeroVersions(rs: seq<UpsertResult>)
    requires forall i :: 0 <= i < |rs| ==> rs[i].clientVersion != 0
    ensures ZeroVersioned(rs) == 0
  {
    if rs != [] {
      NoZeroVersions(rs[..|rs|-1]);
    }
  }

  /** With no client using version 0, the counter is exactly the conflicts returned. */
  lemma {:induction false} ConflictCounterCountsConflicts(calls: seq<PushCall>, user: Uuid)
    requires forall i :: 0 <= i < |calls| ==> !calls[i].logFails
    requires forall i, j :: 0 <= i < |calls| && 0 <= j < |calls[i].req| ==> calls[i].req[j].content.version != 0
    ensures ConflictCount(RunPushes(SyncState(map[], []), calls).logs, user) ==
            ConflictsReturned(SyncState(map[], []), calls, user)
  {
    var st := SyncState(map[], []);
    ConflictCounterIsExact(st, calls, user);
    for n := 0 to |calls|
      invariant ZeroVersionsAccepted(st, calls[..n], user) == 0
    {
      assert calls[..n + 1][..n] == calls[..n];
      NoZeroVersions(ReportOf(RunPushes(st, calls[..n]), calls[n]));
    }
    assert calls[..|calls|] == calls;
  }

  /** The proviso is needed: one accepted item with version 0 is counted as a conflict. */
  lemma {:induction false} ZeroVersionIsMiscounted(user: Uuid, item: PushItem, now: Time)
    requires item.content.version == 0
    ensures var call := PushCall(user, [item], TxFaults(false, None, false), false, now);
            var st := SyncState(map[], []);
            && ConflictsReturned(st, [call], user) == 0
            && ConflictCount(RunPushes(st, [call]).logs, user) == 1
  {
    var call := PushCall(user, [item], TxFaults(false, None, false), false, now);
    var st := SyncState(map[], []);
    ConflictCounterIsExact(st, [call], user);
    LoneItemIsAccepted(user, item, now);
    OneCall(st, call);
  }

  lemma {:induction false} OneCall(st: SyncState, c: PushCall)
    ensures ConflictsReturned(st, [c], c.user) == |Having(ReportOf(st, c), Conflicted)|
    ensures ZeroVersionsAccepted(st, [c], c.user) == ZeroVersioned(ReportOf(st, c))
  {
    assert [c][..0] == [] && RunPushes(st, []) == st;
    assert ConflictsReturned(st, [], c.user) == 0 && ZeroVersionsAccepted(st, [], c.user) == 0;
  }

  /** A single item pushed into an empty table is accepted. */
  lemma {:induction false} LoneItemIsAccepted(user: Uuid, item: PushItem, now: Time)
    ensures var rs := Reported(map[], ToBlobs(user, [item]), TxFaults(false, None, false), now);
            && |rs| == 1 && FateOf(rs[0]) == Accepted && rs[0].clientVersion == item.content.version
            && Having(rs, Conflicted) == []
            && ZeroVersioned(rs) == if item.content.version == 0 then 1 else 0
  {
    var bs := ToBlobs(user, [item]);
    var rs := Outcomes(map[], bs, now);
    assert TableAt(map[], bs, now, 0) == map[];
    assert rs[0].accepted;
    assert rs[..0] == [];
    assert Having(rs, Conflicted) == Having([], Conflicted) + [];
  }
}
