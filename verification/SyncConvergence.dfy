/** Last-writer-wins: what any push-only run leaves in the table. */
module SyncConvergence {
  import opened Common
  import opened SyncTable

  /** One `BatchUpsert` call with everything its environment decides. */
  datatype Batch = Batch(blobs: seq<Blob>, faults: TxFaults, now: Time)

  function RunBatches(t: Table, run: seq<Batch>): Table {
    if run == [] then t
    else var last := run[|run|-1];
         BatchEffect(RunBatches(t, run[..|run|-1]), last.blobs, last.faults, last.now)
  }

  /** The individual writes of the batches that committed, in order. */
  function CommittedWrites(t: Table, run: seq<Batch>): seq<Write> {
    if run == [] then []
    else
      var last, before := run[|run|-1], run[..|run|-1];
      CommittedWrites(t, before) +
      if Commits(RunBatches(t, before), last.blobs, last.faults, last.now) then Stamped(last.blobs, last.now) else []
  }

  /** Grouping into batches is invisible: a run equals the flat fold of what committed. */
  lemma {:induction false} RunIsFlatReplay(t: Table, run: seq<Batch>)
    ensures RunBatches(t, run) == Replay(t, CommittedWrites(t, run))
  {
    if run != [] {
      var last, before := run[|run|-1], run[..|run|-1];
      RunIsFlatReplay(t, before);
      var committed := Commits(RunBatches(t, before), last.blobs, last.faults, last.now);
      ReplayConcat(t, CommittedWrites(t, before), if committed then Stamped(last.blobs, last.now) else []);
    }
  }

  /** Write `w` carries the highest version pushed for `k`, and is the first to do so. */
  ghost predicate Wins(ws: seq<Write>, k: Key, w: int) {
    && 0 <= w < |ws| && ws[w].blob.key == k
    && forall j :: 0 <= j < |ws| && ws[j].blob.key == k ==>
         && ws[j].blob.content.version <= ws[w].blob.content.version
         && (j < w ==> ws[j].blob.content.version < ws[w].blob.content.version)
  }

  ghost predicate Written(ws: seq<Write>, k: Key) {
    exists j :: 0 <= j < |ws| && ws[j].blob.key == k
  }

  lemma {:induction false} WinnerExists(ws: seq<Write>, k: Key)
    ensures Written(ws, k) <==> exists w :: Wins(ws, k, w)
  {
    if Written(ws, k) {
      var n := |ws| - 1;
      var before := ws[..n];
      WinnerExists(before, k);
      if exists w :: Wins(before, k, w) {
        var w :| Wins(before, k, w);
        var newer := ws[n].blob.key == k && before[w].blob.content.version < ws[n].blob.content.version;
        assert Wins(ws, k, if newer then n else w);
      } else {
        assert forall j :: 0 <= j < n ==> before[j] == ws[j];
        assert Wins(ws, k, n);
      }
    }
  }

  lemma {:induction false} UnwrittenKeyKeepsRow(t: Table, ws: seq<Write>, k: Key)
    requires !Written(ws, k)
    ensures k in Replay(t, ws) <==> k in t
    ensures k in t ==> Replay(t, ws)[k] == t[k]
  {
    if ws != [] {
      var n := |ws| - 1;
      assert ws[n].blob.key != k;
      assert forall j :: 0 <= j < n ==> ws[..n][j] == ws[j];
      UnwrittenKeyKeepsRow(t, ws[..n], k);
    }
  }

  /** Key `k` of `end` holds write `w`, unless the row of `t` was at least as new. */
  ghost predicate Holds(t: Table, end: Table, k: Key, w: Write) {
    && k in end
    && if k in t && w.blob.content.version <= t[k].content.version then end[k] == t[k]
       else end[k].content == w.blob.content && end[k].updatedAt == w.at
  }

  /** The convergence law, from any starting table. */
  lemma {:induction false} Converges(t: Table, ws: seq<Write>, k: Key, w: int)
    requires Wins(ws, k, w)
    ensures Holds(t, Replay(t, ws), k, ws[w])
  {
    var n := |ws| - 1;
    var before := ws[..n];
    assert forall j :: 0 <= j < n ==> before[j] == ws[j];
    if w < n {
      assert Wins(before, k, w);
      Converges(t, before, k, w);
    } else if Written(before, k) {
      WinnerExists(before, k);
      var v :| Wins(before, k, v);
      Converges(t, before, k, v);
    } else {
      UnwrittenKeyKeepsRow(t, before, k);
    }
  }

  /** A new row keeps the time of the first write of its key as its creation time. */
  lemma {:induction false} FirstWriteDatesRow(t: Table, ws: seq<Write>, k: Key, f: nat)
    requires k !in t && f < |ws| && ws[f].blob.key == k
    requires forall j :: 0 <= j < f ==> ws[j].blob.key != k
    ensures k in Replay(t, ws) && Replay(t, ws)[k].createdAt == ws[f].at
  {
    var before, rest := ws[..f], ws[f + 1..];
    UnwrittenKeyKeepsRow(t, before, k);
    assert ws == (before + [ws[f]]) + rest;
    assert (before + [ws[f]])[..f] == before;
    ReplayConcat(t, before + [ws[f]], rest);
    ReplayKeepsKeys(Replay(t, before + [ws[f]]), rest, k);
  }

  /** Convergence of a whole run of batches over an empty table, failed batches included. */
  lemma {:induction false} RunConverges(run: seq<Batch>, k: Key)
    ensures var ws := CommittedWrites(map[], run); var end := RunBatches(map[], run);
            && (k in end <==> Written(ws, k))
            && (k in end ==> exists w :: Wins(ws, k, w) && end[k].content == ws[w].blob.content
                                                         && end[k].updatedAt == ws[w].at)
  {
    var ws := CommittedWrites(map[], run);
    RunIsFlatReplay(map[], run);
    WinnerExists(ws, k);
    if Written(ws, k) {
      var w :| Wins(ws, k, w);
      Converges(map[], ws, k, w);
    } else {
      UnwrittenKeyKeepsRow(map[], ws, k);
    }
  }

  /** Stored versions never decrease and rows never vanish, over any run of batches. */
  lemma {:induction false} RunNeverGoesBack(t: Table, run: seq<Batch>, k: Key)
    requires k in t
    ensures k in RunBatches(t, run)
    ensures t[k].content.version <= RunBatches(t, run)[k].content.version
    ensures t[k].content.version == RunBatches(t, run)[k].content.version ==> RunBatches(t, run)[k] == t[k]
  {
    var ws := CommittedWrites(t, run);
    RunIsFlatReplay(t, run);
    ReplayKeepsKeys(t, ws, k);
    WinnerExists(ws, k);
    if Written(ws, k) {
      var w :| Wins(ws, k, w);
      Converges(t, ws, k, w);
    } else {
      UnwrittenKeyKeepsRow(t, ws, k);
    }
  }

  /** Every write already replayed is covered by the table. */
  lemma {:induction false} WriteIsCovered(t: Table, ws: seq<Write>, i: nat)
    requires i < |ws|
    ensures !Accepts(Replay(t, ws), ws[i].blob)
  {
    assert ws == (ws[..i] + [ws[i]]) + ws[i + 1..];
    ReplayConcat(t, ws[..i] + [ws[i]], ws[i + 1..]);
    ReplayConcat(t, ws[..i], [ws[i]]);
    assert [ws[i]][..0] == [];
    ReplayKeepsKeys(Replay(t, ws[..i] + [ws[i]]), ws[i + 1..], ws[i].blob.key);
  }

  ghost predicate Has(ws: seq<Write>, b: Blob) {
    exists i :: 0 <= i < |ws| && ws[i].blob == b
  }

  /** Redelivering any selection of past writes, in any order, at any later time, changes
      nothing. */
  lemma {:induction false} RedeliveryIsNoOp(t: Table, ws: seq<Write>, again: seq<Write>)
    requires forall a :: 0 <= a < |again| ==> Has(ws, again[a].blob)
    ensures Replay(Replay(t, ws), again) == Replay(t, ws)
  {
    if again != [] {
      var n := |again| - 1;
      RedeliveryIsNoOp(t, ws, again[..n]);
      assert Has(ws, again[n].blob);
      var i :| 0 <= i < |ws| && ws[i].blob == again[n].blob;
      WriteIsCovered(t, ws, i);
    }
  }

  /** A client that lost the response may resend its whole batch: whatever the second
      attempt meets, the table stays as it is and no item is accepted again. */
  lemma {:induction false} RetriedBatchIsNoOp(t: Table, bs: seq<Blob>, now: Time, faults: TxFaults, later: Time)
    ensures var end := Replay(t, Stamped(bs, now));
            && BatchEffect(end, bs, faults, later) == end
            && forall i :: 0 <= i < |bs| ==> !Outcome(end, bs, later, i).accepted
  {
    var ws, again := Stamped(bs, now), Stamped(bs, later);
    forall a | 0 <= a < |again| ensures Has(ws, again[a].blob) {
      assert ws[a].blob == again[a].blob;
    }
    RedeliveryIsNoOp(t, ws, again);
    forall i | 0 <= i < |bs| ensures !Outcome(Replay(t, ws), bs, later, i).accepted {
      RedeliveryIsNoOp(t, ws, again[..i]);
      WriteIsCovered(t, ws, i);
    }
  }

  function Contents(t: Table): map<Key, Content> {
    map k | k in t :: t[k].content
  }

  ghost predicate SameBlobs(xs: seq<Write>, ys: seq<Write>) {
    forall b :: Has(xs, b) <==> Has(ys, b)
  }

  /** Write `j` ties with the winner `w` of its key, and their version is newer than the
      row of `t`, so that whichever comes first is the one stored. */
  ghost predicate TopTie(t: Table, xs: seq<Write>, k: Key, w: int, j: int) {
    && Wins(xs, k, w) && 0 <= j < |xs| && xs[j].blob.key == k
    && xs[j].blob.content.version == xs[w].blob.content.version
    && (k in t ==> t[k].content.version < xs[w].blob.content.version)
  }

  /** All writes tied at the top of a key carry the same content. */
  ghost predicate TopAgrees(t: Table, xs: seq<Write>) {
    forall k, w, j :: TopTie(t, xs, k, w, j) ==> xs[j].blob == xs[w].blob
  }

  lemma {:induction false} SameBlobsWritten(xs: seq<Write>, ys: seq<Write>, k: Key)
    requires SameBlobs(xs, ys) && Written(xs, k)
    ensures Written(ys, k)
  {
    var i :| 0 <= i < |xs| && xs[i].blob.key == k;
    assert Has(xs, xs[i].blob);
    assert Has(ys, xs[i].blob);
  }

  /** The winners of the same blobs in two orders carry the same version, so the second
      is, among the first order's writes, tied with its winner. */
  lemma {:induction false} WinnersTie(xs: seq<Write>, ys: seq<Write>, k: Key, w: int, v: int) returns (j: int)
    requires SameBlobs(xs, ys) && Wins(xs, k, w) && Wins(ys, k, v)
    ensures 0 <= j < |xs| && xs[j].blob == ys[v].blob
    ensures xs[j].blob.content.version == xs[w].blob.content.version
  {
    assert Has(xs, xs[w].blob) && Has(ys, ys[v].blob);
    var i :| 0 <= i < |ys| && ys[i].blob == xs[w].blob;
    j :| 0 <= j < |xs| && xs[j].blob == ys[v].blob;
  }

  lemma {:induction false} SameContentAt(t: Table, xs: seq<Write>, ys: seq<Write>, k: Key)
    requires SameBlobs(xs, ys) && TopAgrees(t, xs)
    ensures k in Replay(t, xs) <==> k in Replay(t, ys)
    ensures k in Replay(t, xs) ==> Replay(t, xs)[k].content == Replay(t, ys)[k].content
  {
    if Written(xs, k) {
      SameBlobsWritten(xs, ys, k);
      WinnerExists(xs, k);
      WinnerExists(ys, k);
      var w, v :| Wins(xs, k, w) && Wins(ys, k, v);
      var j := WinnersTie(xs, ys, k, w, v);
      assert TopTie(t, xs, k, w, j) || (k in t && xs[w].blob.content.version <= t[k].content.version);
      Converges(t, xs, k, w);
      Converges(t, ys, k, v);
    } else {
      if Written(ys, k) {
        SameBlobsWritten(ys, xs, k);
      }
      UnwrittenKeyKeepsRow(t, xs, k);
      UnwrittenKeyKeepsRow(t, ys, k);
    }
  }

  /** The same blobs in any order, repeated or not, leave the same contents when top ties
      agree. */
  lemma {:induction false} AgreeingTiesAreOrderFree(t: Table, xs: seq<Write>, ys: seq<Write>)
    requires SameBlobs(xs, ys) && TopAgrees(t, xs)
    ensures Contents(Replay(t, xs)) == Contents(Replay(t, ys))
  {
    forall k
      ensures k in Replay(t, xs) <==> k in Replay(t, ys)
      ensures k in Replay(t, xs) ==> Replay(t, xs)[k].content == Replay(t, ys)[k].content
    {
      SameContentAt(t, xs, ys, k);
    }
  }

  /** The same writes in another order. */
  ghost predicate Reordered(xs: seq<Write>, ys: seq<Write>) {
    multiset(xs) == multiset(ys)
  }

  lemma {:induction false} ReorderedHas(xs: seq<Write>, ys: seq<Write>, b: Blob)
    requires Reordered(xs, ys) && Has(xs, b)
    ensures Has(ys, b)
  {
    var i :| 0 <= i < |xs| && xs[i].blob == b;
    assert xs[i] in multiset(xs);
    assert xs[i] in ys;
  }

  lemma {:induction false} ReorderedIsSameBlobs(xs: seq<Write>, ys: seq<Write>)
    requires Reordered(xs, ys)
    ensures SameBlobs(xs, ys)
  {
    forall b ensures Has(xs, b) <==> Has(ys, b) {
      if Has(xs, b) {
        ReorderedHas(xs, ys, b);
      }
      if Has(ys, b) {
        ReorderedHas(ys, xs, b);
      }
    }
  }

  function MovedFirst(xs: seq<Write>, j: nat): (ys: seq<Write>)
    requires j < |xs|
    ensures multiset(ys) == multiset(xs)
  {
    assert xs == xs[..j] + [xs[j]] + xs[j + 1..];
    [xs[j]] + xs[..j] + xs[j + 1..]
  }

  /** Delivering a tied write first makes it the winner: a top tie between different
      contents shows in the final store. */
  lemma {:induction false} DisagreeingTieShows(t: Table, xs: seq<Write>, k: Key, w: int, j: int)
    requires TopTie(t, xs, k, w, j) && xs[j].blob != xs[w].blob
    ensures Reordered(xs, MovedFirst(xs, j))
    ensures Contents(Replay(t, xs)) != Contents(Replay(t, MovedFirst(xs, j)))
  {
    var ys := MovedFirst(xs, j);
    assert Wins(ys, k, 0) by {
      assert forall i :: 0 <= i < |ys| ==> ys[i] == xs[if i == 0 then j else if i <= j then i - 1 else i];
    }
    Converges(t, xs, k, w);
    Converges(t, ys, k, 0);
    assert Contents(Replay(t, xs))[k] != Contents(Replay(t, ys))[k];
  }

  /** Order independence, exactly: every order of the same writes leaves the same contents
      if and only if all writes tied at the highest version of a key, where that version is
      newer than the stored row, agree. Then repeated deliveries change nothing either. */
  lemma {:induction false} OrderIndependence(t: Table, xs: seq<Write>)
    ensures (forall ys :: Reordered(xs, ys) ==> Contents(Replay(t, xs)) == Contents(Replay(t, ys))) <==>
            TopAgrees(t, xs)
    ensures (forall ys :: SameBlobs(xs, ys) ==> Contents(Replay(t, xs)) == Contents(Replay(t, ys))) <==>
            TopAgrees(t, xs)
  {
    if TopAgrees(t, xs) {
      forall ys | SameBlobs(xs, ys) ensures Contents(Replay(t, xs)) == Contents(Replay(t, ys)) {
        AgreeingTiesAreOrderFree(t, xs, ys);
      }
      forall ys | Reordered(xs, ys) ensures Contents(Replay(t, xs)) == Contents(Replay(t, ys)) {
        ReorderedIsSameBlobs(xs, ys);
      }
    } else {
      var k, w, j :| TopTie(t, xs, k, w, j) && xs[j].blob != xs[w].blob;
      DisagreeingTieShows(t, xs, k, w, j);
      ReorderedIsSameBlobs(xs, MovedFirst(xs, j));
    }
  }

  /** The smallest failing case: two devices pushing different content under one version
      leave whichever arrived first. */
  lemma {:induction false} OrderMattersOnTies(k: Key, a: Write, b: Write)
    requires a.blob.key == b.blob.key == k
    requires a.blob.content.version == b.blob.content.version && a.blob.content != b.blob.content
    ensures Reordered([a, b], [b, a])
    ensures Contents(Replay(map[], [a, b])) != Contents(Replay(map[], [b, a]))
  {
    var xs, ys := [a, b], [b, a];
    assert xs[0] == ys[1] && xs[1] == ys[0];
    assert Wins(xs, k, 0) && Wins(ys, k, 0);
    Converges(map[], xs, k, 0);
    Converges(map[], ys, k, 0);
    assert Contents(Replay(map[], xs))[k] != Contents(Replay(map[], ys))[k];
  }
}
