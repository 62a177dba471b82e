/** The `sync_blobs` table, the guarded upsert and what a transaction of upserts means.

    A table is a map from (user, item type, item id) to a row. Every statement is
    one atomic table operation with the meaning of its query text; statement
    failures, commit failures and the clock are parameters. */
module SyncTable {
  import opened Common

  newtype byte = x: int | 0 <= x < 256

  datatype Key = Key(user: Uuid, itemType: string, itemId: Uuid)

  /** What a client supplies and the server stores verbatim. */
  datatype Content = Content(version: int, data: seq<byte>, size: int, device: string)

  datatype Blob = Blob(key: Key, content: Content)

  datatype Row = Row(content: Content, createdAt: Time, updatedAt: Time)

  type Table = map<Key, Row>

  /** One upsert together with the transaction time at which it is executed. */
  datatype Write = Write(blob: Blob, at: Time)

  /** The guard of the upsert: the row is absent or strictly older. */
  predicate Accepts(t: Table, b: Blob) {
    b.key !in t || t[b.key].content.version < b.content.version
  }

  function UpsertRow(t: Table, w: Write): Table {
    var k := w.blob.key;
    if Accepts(t, w.blob) then
      t[k := Row(w.blob.content, if k in t then t[k].createdAt else w.at, w.at)]
    else t
  }

  /** Left-to-right fold of single upserts. */
  function Replay(t: Table, ws: seq<Write>): Table {
    if ws == [] then t else UpsertRow(Replay(t, ws[..|ws|-1]), ws[|ws|-1])
  }

  function Stamped(bs: seq<Blob>, now: Time): seq<Write> {
    seq(|bs|, i requires 0 <= i < |bs| => Write(bs[i], now))
  }

  /** The table as item `i` of a batch meets it. */
  function TableAt(t: Table, bs: seq<Blob>, now: Time, i: nat): Table
    requires i <= |bs|
  {
    Replay(t, Stamped(bs, now)[..i])
  }

  datatype DbError = BeginFailed | StatementFailed | CommitFailed

  datatype UpsertResult = UpsertResult(itemId: Uuid, itemType: string, clientVersion: int,
                                       accepted: bool, serverVersion: int, error: Option<DbError>)

  /** What goes wrong in one transaction: `failAt` is the first statement to fail.
      A failed statement aborts the transaction, so every later one fails as well. */
  datatype TxFaults = TxFaults(beginFails: bool, failAt: Option<nat>, commitFails: bool) {
    predicate Fails(statement: nat) {
      failAt.Some? && failAt.value <= statement
    }
  }

  /** Which items of a batch are accepted, each judged on the table it meets. */
  function AcceptFlags(t: Table, bs: seq<Blob>, now: Time): seq<bool> {
    seq(|bs|, i requires 0 <= i < |bs| => Accepts(TableAt(t, bs, now, i), bs[i]))
  }

  /** Positions of the items whose upsert affected no row. */
  function ConflictIndices(flags: seq<bool>): seq<nat> {
    if flags == [] then []
    else ConflictIndices(flags[..|flags|-1]) + (if flags[|flags|-1] then [] else [|flags| - 1])
  }

  lemma {:induction false} ConflictIndicesSorted(flags: seq<bool>)
    ensures var r := ConflictIndices(flags);
            && (forall c :: 0 <= c < |r| ==> r[c] < |flags|)
            && (forall c, d :: 0 <= c < d < |r| ==> r[c] < r[d])
            && (forall i :: 0 <= i < |flags| ==> (i in r <==> !flags[i]))
  {
    if flags != [] {
      ConflictIndicesSorted(flags[..|flags|-1]);
    }
  }

  /** A batch commits unless begin, one of its statements (one upsert per item, one
      version read per conflict) or the commit itself fails. */
  predicate Commits(t: Table, bs: seq<Blob>, faults: TxFaults, now: Time) {
    && !faults.beginFails
    && !faults.commitFails
    && (faults.failAt.Some? ==>
          |bs| + |ConflictIndices(AcceptFlags(t, bs, now))| <= faults.failAt.value)
  }

  function Falses(flags: seq<bool>): set<nat> {
    set i | 0 <= i < |flags| && !flags[i]
  }

  lemma {:induction false} ConflictsCounted(flags: seq<bool>)
    ensures |ConflictIndices(flags)| == |Falses(flags)|
  {
    if flags == [] {
      assert Falses(flags) == {};
    } else {
      var n := |flags| - 1;
      ConflictsCounted(flags[..n]);
      assert Falses(flags) == Falses(flags[..n]) + if flags[n] then {} else {n};
    }
  }

  /** When a batch commits: begin and commit work, and no statement fails before the last
      one, of which there is one for each item and one more for each item that meets a row
      at least as new. */
  lemma {:induction false} CommitsExactly(t: Table, bs: seq<Blob>, faults: TxFaults, now: Time)
    ensures Commits(t, bs, faults, now) <==>
            && !faults.beginFails && !faults.commitFails
            && (faults.failAt.Some? ==>
                  faults.failAt.value >=
                  |bs| + |set i | 0 <= i < |bs| && !Accepts(TableAt(t, bs, now, i), bs[i])|)
  {
    var flags := AcceptFlags(t, bs, now);
    ConflictsCounted(flags);
    assert Falses(flags) == set i | 0 <= i < |bs| && !Accepts(TableAt(t, bs, now, i), bs[i]);
  }

  /** The table after a batch: all of it or none of it. */
  function BatchEffect(t: Table, bs: seq<Blob>, faults: TxFaults, now: Time): Table {
    if Commits(t, bs, faults, now) then Replay(t, Stamped(bs, now)) else t
  }

  /** What a committed batch reports for item `i`. */
  function Outcome(t: Table, bs: seq<Blob>, now: Time, i: nat): UpsertResult
    requires i < |bs|
  {
    var b, end := bs[i], Replay(t, Stamped(bs, now));
    var accepted := Accepts(TableAt(t, bs, now, i), b);
    UpsertResult(b.key.itemId, b.key.itemType, b.content.version, accepted,
                 if accepted || b.key !in end then 0 else end[b.key].content.version, None)
  }

  function Outcomes(t: Table, bs: seq<Blob>, now: Time): seq<UpsertResult> {
    seq(|bs|, i requires 0 <= i < |bs| => Outcome(t, bs, now, i))
  }

  /** The version the caller's blob carries after the batch. */
  function Told(r: UpsertResult): int {
    if r.accepted then r.clientVersion else r.serverVersion
  }

  lemma {:induction false} ReplayKeepsKeys(t: Table, ws: seq<Write>, k: Key)
    requires k in t
    ensures k in Replay(t, ws)
    ensures t[k].content.version <= Replay(t, ws)[k].content.version
    ensures t[k].createdAt == Replay(t, ws)[k].createdAt
  {
    if ws != [] {
      ReplayKeepsKeys(t, ws[..|ws|-1], k);
    }
  }

  lemma {:induction false} ReplayConcat(t: Table, xs: seq<Write>, ys: seq<Write>)
    ensures Replay(t, xs + ys) == Replay(Replay(t, xs), ys)
  {
    if ys == [] {
      assert xs + ys == xs;
    } else {
      assert (xs + ys)[..|xs + ys| - 1] == xs + ys[..|ys|-1];
      ReplayConcat(t, xs, ys[..|ys|-1]);
    }
  }

  lemma {:induction false} TableAtStep(t: Table, bs: seq<Blob>, now: Time, i: nat)
    requires i < |bs|
    ensures TableAt(t, bs, now, i + 1) == UpsertRow(TableAt(t, bs, now, i), Write(bs[i], now))
  {
    var ws := Stamped(bs, now)[..i + 1];
    assert ws[..i] == Stamped(bs, now)[..i] && ws[i] == Write(bs[i], now);
  }

  lemma {:induction false} TableAtEnd(t: Table, bs: seq<Blob>, now: Time)
    ensures TableAt(t, bs, now, |bs|) == Replay(t, Stamped(bs, now))
  {
    assert Stamped(bs, now)[..|bs|] == Stamped(bs, now);
  }

  /** Once item `i` has been executed its key stays present, at a version at least the
      one the item carried: its own, or that of a row that was or became newer. */
  lemma {:induction false} ItemIsCovered(t: Table, bs: seq<Blob>, now: Time, i: nat)
    requires i < |bs|
    ensures var end := Replay(t, Stamped(bs, now));
            bs[i].key in end && bs[i].content.version <= end[bs[i].key].content.version
  {
    var ws := Stamped(bs, now);
    TableAtStep(t, bs, now, i);
    assert ws == ws[..i + 1] + ws[i + 1..];
    ReplayConcat(t, ws[..i + 1], ws[i + 1..]);
    ReplayKeepsKeys(TableAt(t, bs, now, i + 1), ws[i + 1..], bs[i].key);
  }

  datatype OperationLog = OperationLog(user: Uuid, operation: string, itemType: string, itemId: Uuid,
                                       version: int, createdAt: Time)
}
