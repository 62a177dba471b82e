/** The sync repository: statements, transactions and the loops around them. */
module SyncRepository {
  import opened Common
  import opened SyncTable
  import opened SyncQueries

  class SyncBlobRepository {
    var rows: Table
    var logs: seq<OperationLog>

    constructor ()
      ensures rows == map[] && logs == []
    {
      rows, logs := map[], [];
    }

    /** Single upsert. On a conflict the caller's blob is rewritten with the server
        version when that version can be read. */
    method Upsert(blob: Blob, execFails: bool, readFails: bool, now: Time)
      returns (r: Result<bool>, blob': Blob)
      modifies this`rows
      ensures execFails ==> r == Failure && rows == old(rows) && blob' == blob
      ensures !execFails ==> r == Success(Accepts(old(rows), blob))
      ensures !execFails ==> rows == UpsertRow(old(rows), Write(blob, now))
      ensures r == Success(true) ==> blob.key in rows && rows[blob.key].content == blob.content
      ensures r == Success(true) ==> blob' == blob
      ensures r == Success(false) ==> rows == old(rows) && blob.key in rows
      ensures r == Success(false) ==>
                blob' == if readFails then blob
                         else WithVersion(blob, rows[blob.key].content.version)
    {
      blob' := blob;
      if execFails {
        return Failure, blob';
      }
      var affected := if Accepts(rows, blob) then 1 else 0;
      rows := UpsertRow(rows, Write(blob, now));
      if affected == 0 {
        if !readFails {
          blob' := WithVersion(blob, rows[blob.key].content.version);
        }
        return Success(false), blob';
      }
      return Success(true), blob';
    }

    /** All rows newer than `since`, oldest version first. */
    method PullSince(user: Uuid, since: int) returns (items: seq<Item>)
      ensures IsFullAnswer(rows, user, since, items)
      ensures forall k :: k in Keys(items) <==> k in rows && k.user == user && since < rows[k].content.version
    {
      items := [];
      var left := Matching(rows, user, since);
      while left != {}
        invariant left <= Matching(rows, user, since)
        invariant Selected(rows, user, since, items) && Sorted(items)
        invariant Keys(items) == Matching(rows, user, since) - left
        invariant forall i, k :: 0 <= i < |items| && k in left ==> Version(items[i]) <= rows[k].content.version
        decreases left
      {
        OldestExists(rows, left);
        var k :| k in left && forall other :: other in left ==> rows[k].content.version <= rows[other].content.version;
        ghost var before := items;
        items := items + [Item(k, rows[k])];
        left := left - {k};
        KeysAppend(before, Item(k, rows[k]));
      }
    }

    method PullSincePaginated(user: Uuid, since: int, limit: nat) returns (page: seq<Item>)
      ensures IsPage(rows, user, since, limit, page)
    {
      var full := PullSince(user, since);
      PrefixIsPage(rows, user, since, limit, full);
      page := if |full| <= limit then full else full[..limit];
    }

    method HasMoreSince(user: Uuid, since: int) returns (more: bool)
      ensures more <==> exists k :: k in rows && k.user == user && since < rows[k].content.version
    {
      more := Matching(rows, user, since) != {};
      MatchingNonEmpty(rows, user, since);
    }

    method GetLatestVersion(user: Uuid) returns (latest: int)
      ensures IsLatest(rows, user, latest)
    {
      var left := UserKeys(rows, user);
      latest := 0;
      while left != {}
        invariant left <= UserKeys(rows, user)
        invariant forall k :: k in UserKeys(rows, user) - left ==> rows[k].content.version <= latest
        invariant if left == UserKeys(rows, user) then latest == 0
                  else exists k :: k in UserKeys(rows, user) && rows[k].content.version == latest
        decreases left
      {
        var k :| k in left;
        if left == UserKeys(rows, user) || latest < rows[k].content.version {
          latest := rows[k].content.version;
        }
        left := left - {k};
      }
    }

    /** Deletes every row of the user with one of the ids, counting affected rows
        statement by statement; all in one transaction. */
    method BatchDelete(user: Uuid, ids: seq<Uuid>, faults: TxFaults) returns (r: Result<nat>)
      modifies this`rows
      ensures r.Failure? <==> ids != [] && (faults.beginFails || faults.Fails(|ids| - 1) || faults.commitFails)
      ensures r.Failure? ==> rows == old(rows)
      ensures r.Success? ==> rows == Without(old(rows), user, ids)
      ensures r.Success? ==> forall k :: k in rows <==> k in old(rows) && !(k.user == user && k.itemId in ids)
      ensures r.Success? ==> forall k :: k in rows ==> rows[k] == old(rows)[k]
      ensures r.Success? ==> r.value == |set k | k in old(rows) && k.user == user && k.itemId in ids|
      ensures r.Success? ==> r.value == CountItems(old(rows), user) - CountItems(rows, user)
    {
      DeletedCount(rows, user, ids);
      if |ids| == 0 {
        assert Without(rows, user, ids) == rows;
        return Success(0);
      }
      if faults.beginFails {
        return Failure;
      }
      var work, deleted: nat := rows, 0;
      assert Without(rows, user, ids[..0]) == rows;
      for i := 0 to |ids|
        invariant rows == old(rows)
        invariant i > 0 ==> !faults.Fails(i - 1)
        invariant work == Without(rows, user, ids[..i])
        invariant deleted + CountItems(work, user) == CountItems(rows, user)
      {
        if faults.Fails(i) {
          return Failure;
        }
        WithoutOneMore(rows, user, ids, i);
        deleted := deleted + |Hit(work, user, ids[i])|;
        work := work - Hit(work, user, ids[i]);
      }
      if faults.commitFails {
        return Failure;
      }
      assert ids[..|ids|] == ids;
      rows := work;
      return Success(deleted);
    }

    /** The batch form: all upserts in one transaction, then one version read for each
        conflict. Commit of an aborted transaction reports an error. */
    method BatchUpsert(blobs: array<Blob>, faults: TxFaults, now: Time)
      returns (results: seq<UpsertResult>)
      modifies this`rows, blobs
      ensures rows == BatchEffect(old(rows), old(blobs[..]), faults, now)
      ensures SameItems(old(blobs[..]), results, blobs[..])
      ensures Commits(old(rows), old(blobs[..]), faults, now) ==>
                results == Outcomes(old(rows), old(blobs[..]), now)
      ensures !Commits(old(rows), old(blobs[..]), faults, now) ==>
                forall i :: 0 <= i < |results| ==> results[i].error.Some?
      ensures Commits(old(rows), old(blobs[..]), faults, now) ==>
                forall i :: 0 <= i < blobs.Length ==> blobs[i].content.version == Told(results[i])
    {
      ghost var t, bs := rows, blobs[..];
      if blobs.Length == 0 {
        assert Stamped(bs, now) == [];
        return [];
      }
      results := FillIdentity(blobs);
      if faults.beginFails {
        results := MarkAll(results, BeginFailed);
        return;
      }
      var work, conflicts;
      results, work, conflicts := ExecUpserts(rows, blobs, results, faults, now);
      if !faults.Fails(blobs.Length - 1) {
        ExecutedAll(t, bs, now, work, conflicts, results);
      }
      results := ReadVersions(rows, work, conflicts, blobs, results, faults, now);

      // Committing an aborted transaction reports an error too.
      if faults.Fails(blobs.Length + |conflicts| - 1) || faults.commitFails {
        results := MarkAll(results, CommitFailed);
      } else {
        rows := work;
      }
    }
  }

  /** Records which item each result slot belongs to. */
  method FillIdentity(blobs: array<Blob>) returns (results: seq<UpsertResult>)
    ensures |results| == blobs.Length
    ensures forall j :: 0 <= j < |results| ==> results[j] == Blank(blobs[j])
  {
    results := seq(blobs.Length, _ => UpsertResult(0, "", 0, false, 0, None));
    for i := 0 to blobs.Length
      invariant |results| == blobs.Length
      invariant forall j :: 0 <= j < i ==> results[j] == Blank(blobs[j])
      invariant forall j :: i <= j < |results| ==> results[j] == UpsertResult(0, "", 0, false, 0, None)
    {
      results := results[i := results[i].(itemId := blobs[i].key.itemId, itemType := blobs[i].key.itemType,
                                          clientVersion := blobs[i].content.version)];
    }
  }

  /** Puts one error on every result. */
  method MarkAll(before: seq<UpsertResult>, e: DbError) returns (results: seq<UpsertResult>)
    ensures |results| == |before|
    ensures forall j :: 0 <= j < |results| ==> results[j] == before[j].(error := Some(e))
  {
    results := before;
    for i := 0 to |results|
      invariant |results| == |before|
      invariant forall j :: 0 <= j < i ==> results[j] == before[j].(error := Some(e))
      invariant forall j :: i <= j < |results| ==> results[j] == before[j]
    {
      results := results[i := results[i].(error := Some(e))];
    }
  }

  /** Phase 1 of the batch: the upserts run against the transaction's own view. */
  method ExecUpserts(t: Table, blobs: array<Blob>, blank: seq<UpsertResult>, faults: TxFaults, now: Time)
    returns (results: seq<UpsertResult>, work: Table, conflicts: seq<nat>)
    requires 0 < blobs.Length == |blank|
    requires forall j :: 0 <= j < |blank| ==> blank[j] == Blank(blobs[j])
    ensures |results| == blobs.Length
    ensures forall j :: 0 <= j < |results| ==> Identified(results[j], blobs[j])
    ensures forall c :: 0 <= c < |conflicts| ==> conflicts[c] < blobs.Length
    ensures !faults.Fails(blobs.Length - 1) ==> Executed(t, blobs[..], now, blobs.Length, work, conflicts, results)
  {
    ghost var bs := blobs[..];
    ghost var flags := AcceptFlags(t, bs, now);
    results, work, conflicts := blank, t, [];
    assert Stamped(bs, now)[..0] == [];
    for i := 0 to blobs.Length
      invariant forall c :: 0 <= c < |conflicts| ==> conflicts[c] < i
      invariant Pending(bs, i, results)
      invariant i == 0 || !faults.Fails(i - 1) ==>
                  work == TableAt(t, bs, now, i) && Marked(flags, bs, i, conflicts, results)
    {
      PendingStep(bs, i, results);
      if faults.Fails(i) {
        results := results[i := results[i].(error := Some(StatementFailed))];
      } else {
        TableAtStep(t, bs, now, i);
        MarkedStep(flags, bs, i, conflicts, results);
        if Accepts(work, blobs[i]) {
          results := results[i := results[i].(accepted := true)];
        } else {
          conflicts := conflicts + [i];
        }
        work := UpsertRow(work, Write(blobs[i], now));
      }
    }
  }

  /** Every result names its item, and those from `i` on carry no outcome yet. */
  ghost predicate Pending(bs: seq<Blob>, i: nat, results: seq<UpsertResult>) {
    && |results| == |bs|
    && (forall j :: 0 <= j < |bs| ==> Identified(results[j], bs[j]))
    && (forall j :: i <= j < |bs| ==> results[j] == Blank(bs[j]))
  }

  lemma {:induction false} PendingStep(bs: seq<Blob>, i: nat, results: seq<UpsertResult>)
    requires i < |bs| && Pending(bs, i, results)
    ensures Pending(bs, i + 1, results)
    ensures Pending(bs, i + 1, results[i := results[i].(accepted := true)])
    ensures Pending(bs, i + 1, results[i := results[i].(error := Some(StatementFailed))])
  {
  }

  /** Flags and conflicts of the first `i` items have been entered. */
  ghost predicate Marked(flags: seq<bool>, bs: seq<Blob>, i: nat, conflicts: seq<nat>, results: seq<UpsertResult>)
    requires i <= |bs| == |results| == |flags|
  {
    && conflicts == ConflictIndices(flags[..i])
    && forall j :: 0 <= j < i ==> results[j] == Blank(bs[j]).(accepted := flags[j])
  }

  lemma {:induction false} MarkedStep(
    flags: seq<bool>, bs: seq<Blob>, i: nat, conflicts: seq<nat>, results: seq<UpsertResult>)
    requires i < |bs| == |results| == |flags|
    requires Marked(flags, bs, i, conflicts, results) && results[i] == Blank(bs[i])
    ensures flags[i] ==> Marked(flags, bs, i + 1, conflicts, results[i := results[i].(accepted := true)])
    ensures !flags[i] ==> Marked(flags, bs, i + 1, conflicts + [i], results)
  {
    assert flags[..i + 1][..i] == flags[..i];
  }

  /** The first `i` upserts have run, without failure. */
  ghost predicate Executed(t: Table, bs: seq<Blob>, now: Time, i: nat,
                           work: Table, conflicts: seq<nat>, results: seq<UpsertResult>)
    requires i <= |bs| == |results|
  {
    work == TableAt(t, bs, now, i) && Marked(AcceptFlags(t, bs, now), bs, i, conflicts, results)
  }

  /** Phase 2 of the batch: each conflict's server version is read back, into its result
      and into the caller's blob. */
  method ReadVersions(ghost t: Table, work: Table, conflicts: seq<nat>, blobs: array<Blob>,
                      before: seq<UpsertResult>, faults: TxFaults, ghost now: Time)
    returns (results: seq<UpsertResult>)
    requires 0 < blobs.Length == |before|
    requires forall j :: 0 <= j < |before| ==> Identified(before[j], blobs[j])
    requires forall c :: 0 <= c < |conflicts| ==> conflicts[c] < |before|
    requires !faults.Fails(|before| - 1) ==> Executed(t, blobs[..], now, |before|, work, conflicts, before)
    modifies blobs
    ensures SameItems(old(blobs[..]), results, blobs[..])
    ensures !faults.Fails(|before| + |conflicts| - 1) ==>
              && results == Outcomes(t, old(blobs[..]), now)
              && forall j :: 0 <= j < |results| ==> blobs[j].content.version == Told(results[j])
  {
    ghost var bs := blobs[..];
    results := before;
    for c := 0 to |conflicts|
      invariant SameItems(bs, results, blobs[..])
      invariant !faults.Fails(|bs| + c - 1) ==> ReadBack(work, bs, before, conflicts[..c], results, blobs[..])
    {
      var idx := conflicts[c];
      ghost var cur := blobs[..];
      SameItemsUpdate(bs, results, cur, idx);
      if faults.Fails(|before| + c) {
        results := results[idx := results[idx].(serverVersion := blobs[idx].content.version)];
      } else {
        ConflictReadable(t, bs, now, work, conflicts, before, c);
        ReadBackStep(work, bs, before, conflicts, c, results, blobs[..]);
        var serverVersion := work[blobs[idx].key].content.version;
        results := results[idx := results[idx].(serverVersion := serverVersion)];
        blobs[idx] := WithVersion(blobs[idx], serverVersion);
        assert blobs[..] == cur[idx := WithVersion(cur[idx], serverVersion)];
      }
    }
    if !faults.Fails(|before| + |conflicts| - 1) {
      assert conflicts[..|conflicts|] == conflicts;
      ReadBackAll(t, bs, now, work, conflicts, before, results, blobs[..]);
    }
  }

  lemma {:induction false} SameItemsUpdate(bs: seq<Blob>, results: seq<UpsertResult>, cur: seq<Blob>, idx: nat)
    requires SameItems(bs, results, cur) && idx < |bs|
    ensures forall v :: SameItems(bs, results[idx := results[idx].(serverVersion := v)], cur)
    ensures forall v ::
      SameItems(bs, results[idx := results[idx].(serverVersion := v)], cur[idx := WithVersion(cur[idx], v)])
  {
  }

  /** The versions of the conflicts in `done` have been read back, nothing else changed. */
  ghost predicate ReadBack(work: Table, bs: seq<Blob>, before: seq<UpsertResult>, done: seq<nat>,
                           results: seq<UpsertResult>, cur: seq<Blob>)
    requires |bs| == |before|
  {
    && |results| == |cur| == |bs|
    && forall j :: 0 <= j < |bs| ==>
         if j in done then
           && bs[j].key in work
           && results[j] == before[j].(serverVersion := work[bs[j].key].content.version)
           && cur[j] == WithVersion(bs[j], work[bs[j].key].content.version)
         else results[j] == before[j] && cur[j] == bs[j]
  }

  lemma {:induction false} ReadBackStep(
    work: Table, bs: seq<Blob>, before: seq<UpsertResult>, conflicts: seq<nat>, c: nat,
    results: seq<UpsertResult>, cur: seq<Blob>)
    requires |bs| == |before| && c < |conflicts| && conflicts[c] < |bs|
    requires bs[conflicts[c]].key in work
    requires forall d :: 0 <= d < c ==> conflicts[d] < conflicts[c]
    requires ReadBack(work, bs, before, conflicts[..c], results, cur)
    ensures cur[conflicts[c]] == bs[conflicts[c]]
    ensures var idx := conflicts[c]; var v := work[cur[idx].key].content.version;
            ReadBack(work, bs, before, conflicts[..c + 1],
                     results[idx := results[idx].(serverVersion := v)], cur[idx := WithVersion(cur[idx], v)])
  {
  }

  /** When all upserts have run, the conflicts are in increasing order and every one of
      them has a row whose version can be read. */
  lemma {:induction false} ExecutedAll(
    t: Table, bs: seq<Blob>, now: Time, work: Table, conflicts: seq<nat>, results: seq<UpsertResult>)
    requires |bs| == |results|
    requires Executed(t, bs, now, |bs|, work, conflicts, results)
    ensures work == Replay(t, Stamped(bs, now))
    ensures conflicts == ConflictIndices(AcceptFlags(t, bs, now))
    ensures forall c, d :: 0 <= c < d < |conflicts| ==> conflicts[c] < conflicts[d]
    ensures forall j :: 0 <= j < |bs| ==> bs[j].key in work
    ensures forall j :: 0 <= j < |bs| ==> (j in conflicts <==> !results[j].accepted)
  {
    TableAtEnd(t, bs, now);
    var flags := AcceptFlags(t, bs, now);
    assert flags[..|bs|] == flags;
    ConflictIndicesSorted(flags);
    forall j | 0 <= j < |bs| ensures bs[j].key in work {
      ItemIsCovered(t, bs, now, j);
    }
  }

  lemma {:induction false} ConflictReadable(
    t: Table, bs: seq<Blob>, now: Time, work: Table, conflicts: seq<nat>,
    results: seq<UpsertResult>, c: nat)
    requires |bs| == |results| && c < |conflicts|
    requires Executed(t, bs, now, |bs|, work, conflicts, results)
    ensures conflicts[c] < |bs| && bs[conflicts[c]].key in work
    ensures forall d :: 0 <= d < c ==> conflicts[d] < conflicts[c]
  {
    ExecutedAll(t, bs, now, work, conflicts, results);
    ConflictIndicesSorted(AcceptFlags(t, bs, now));
  }

  lemma {:induction false} ReadBackAll(
    t: Table, bs: seq<Blob>, now: Time, work: Table, conflicts: seq<nat>,
    before: seq<UpsertResult>, results: seq<UpsertResult>, cur: seq<Blob>)
    requires |bs| == |before|
    requires Executed(t, bs, now, |bs|, work, conflicts, before)
    requires ReadBack(work, bs, before, conflicts, results, cur)
    ensures results == Outcomes(t, bs, now)
    ensures forall j :: 0 <= j < |bs| ==> cur[j].content.version == Told(results[j])
  {
    ExecutedAll(t, bs, now, work, conflicts, before);
  }

  function WithVersion(b: Blob, v: int): Blob {
    b.(content := b.content.(version := v))
  }

  function Blank(b: Blob): UpsertResult {
    UpsertResult(b.key.itemId, b.key.itemType, b.content.version, false, 0, None)
  }

  /** Result `j` belongs to item `j`, and of the caller's blobs only versions changed. */
  predicate SameItems(bs: seq<Blob>, results: seq<UpsertResult>, cur: seq<Blob>) {
    && |bs| == |results| == |cur|
    && (forall j :: 0 <= j < |bs| ==> Identified(results[j], bs[j]))
    && (forall j :: 0 <= j < |bs| ==> cur[j] == WithVersion(bs[j], cur[j].content.version))
  }

  predicate Identified(r: UpsertResult, b: Blob) {
    r.itemId == b.key.itemId && r.itemType == b.key.itemType && r.clientVersion == b.content.version
  }
}
