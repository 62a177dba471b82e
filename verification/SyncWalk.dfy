/** A client walking a multi-page pull, on a store at rest and on a store that other
    devices keep pushing to. */
module SyncWalk {
  import opened Common
  import opened SyncTable
  import opened SyncQueries
  import opened SyncConvergence
  import opened SyncService

  // ------------------------------------------------------------- an unchanging store

  /** `pages` is a complete walk from `cursor`: each page answers the query at the cursor
      left by the page before, and the walk ends when a page is empty or nothing is
      newer than its last row. */
  ghost predicate IsWalk(t: Table, u: Uuid, cursor: int, limit: nat, pages: seq<seq<Item>>)
    decreases |pages|
  {
    && pages != []
    && IsPage(t, u, cursor, limit, pages[0])
    && if pages[0] == [] || Matching(t, u, LastVersion(pages[0])) == {} then |pages| == 1
       else IsWalk(t, u, LastVersion(pages[0]), limit, pages[1..])
  }

  function Concat(pages: seq<seq<Item>>): seq<Item> {
    if pages == [] then [] else pages[0] + Concat(pages[1..])
  }

  /** Rows sharing the last version of a page without being on it: the page ends inside
      a group of equal versions. */
  function Split(t: Table, u: Uuid, page: seq<Item>): set<Key> {
    if page == [] then {}
    else set k | k in t && k.user == u && t[k].content.version == LastVersion(page) && k !in Keys(page)
  }

  function SplitOff(t: Table, u: Uuid, pages: seq<seq<Item>>): set<Key> {
    if pages == [] then {} else Split(t, u, pages[0]) + SplitOff(t, u, pages[1..])
  }

  lemma {:induction false} KeysConcat(a: seq<Item>, b: seq<Item>)
    ensures Keys(a + b) == Keys(a) + Keys(b)
  {
    forall k | k in Keys(a) + Keys(b) ensures k in Keys(a + b) {
      if i :| 0 <= i < |a| && a[i].key == k {
        assert (a + b)[i].key == k;
      } else {
        var j :| 0 <= j < |b| && b[j].key == k;
        assert (a + b)[|a| + j].key == k;
      }
    }
  }

  /** A non-empty page splits the matching rows in three: on the page, split off by it,
      and newer than its last version. */
  lemma {:induction false} PageCovers(t: Table, u: Uuid, cursor: int, limit: nat, page: seq<Item>)
    requires IsPage(t, u, cursor, limit, page) && page != []
    ensures cursor < LastVersion(page)
    ensures var rest := Matching(t, u, LastVersion(page));
            && Matching(t, u, cursor) == Keys(page) + Split(t, u, page) + rest
            && Keys(page) !! Split(t, u, page) && (Keys(page) + Split(t, u, page)) !! rest
  {
  }

  /** What a complete walk returns: the matching rows minus exactly those split off by
      some page. */
  lemma {:induction false} WalkReturns(t: Table, u: Uuid, cursor: int, limit: nat, pages: seq<seq<Item>>)
    requires 1 <= limit && IsWalk(t, u, cursor, limit, pages)
    ensures Keys(Concat(pages)) == Matching(t, u, cursor) - SplitOff(t, u, pages)
    ensures SplitOff(t, u, pages) <= Matching(t, u, cursor)
    decreases |pages|
  {
    var page, later := pages[0], pages[1..];
    KeysConcat(page, Concat(later));
    if page == [] {
      EmptyPage(t, u, cursor, limit);
      assert later == [];
    } else {
      PageCovers(t, u, cursor, limit, page);
      if Matching(t, u, LastVersion(page)) == {} {
        assert later == [];
      } else {
        WalkReturns(t, u, LastVersion(page), limit, later);
      }
    }
  }

  /** The pages concatenate to a sorted selection without repetitions. */
  lemma {:induction false} WalkIsSelection(t: Table, u: Uuid, cursor: int, limit: nat, pages: seq<seq<Item>>)
    requires 1 <= limit && IsWalk(t, u, cursor, limit, pages)
    ensures Selected(t, u, cursor, Concat(pages)) && Sorted(Concat(pages))
    decreases |pages|
  {
    var page, later := pages[0], pages[1..];
    if page == [] || Matching(t, u, LastVersion(page)) == {} {
      assert later == [];
      assert Concat(pages) == page;
    } else {
      var c := LastVersion(page);
      WalkIsSelection(t, u, c, limit, later);
      PageCovers(t, u, cursor, limit, page);
      AppendLater(t, u, cursor, c, page, Concat(later));
    }
  }

  lemma {:induction false} AppendLater(t: Table, u: Uuid, cursor: int, c: int, page: seq<Item>, later: seq<Item>)
    requires page != [] && c == LastVersion(page) && cursor < c
    requires Selected(t, u, cursor, page) && Sorted(page)
    requires Selected(t, u, c, later) && Sorted(later)
    ensures Selected(t, u, cursor, page + later) && Sorted(page + later)
  {
  }

  /** Pagination is exact if and only if no page ends inside a group of equal versions. */
  lemma {:induction false} PaginationIsExact(t: Table, u: Uuid, since: int, limit: nat, pages: seq<seq<Item>>)
    requires 1 <= limit && IsWalk(t, u, since, limit, pages)
    ensures IsFullAnswer(t, u, since, Concat(pages)) <==>
            forall p :: 0 <= p < |pages| ==> Split(t, u, pages[p]) == {}
  {
    WalkReturns(t, u, since, limit, pages);
    WalkIsSelection(t, u, since, limit, pages);
    SplitOffIsUnion(t, u, pages);
    assert IsFullAnswer(t, u, since, Concat(pages)) <==> SplitOff(t, u, pages) == {};
  }

  lemma {:induction false} SplitOffIsUnion(t: Table, u: Uuid, pages: seq<seq<Item>>)
    ensures forall p :: 0 <= p < |pages| ==> Split(t, u, pages[p]) <= SplitOff(t, u, pages)
    ensures (forall p :: 0 <= p < |pages| ==> Split(t, u, pages[p]) == {}) ==> SplitOff(t, u, pages) == {}
  {
    if pages != [] {
      var later := pages[1..];
      SplitOffIsUnion(t, u, later);
      assert forall p :: 0 < p < |pages| ==> pages[p] == later[p - 1];
      assert forall p :: 0 <= p < |later| ==> later[p] == pages[p + 1];
    }
  }

  /** A walk that may still be under way: every page but the last is non-empty and has
      something newer after it. */
  ghost predicate IsPartialWalk(t: Table, u: Uuid, cursor: int, limit: nat, pages: seq<seq<Item>>)
    decreases |pages|
  {
    pages != [] ==>
      && IsPage(t, u, cursor, limit, pages[0])
      && (|pages| > 1 ==>
            && pages[0] != [] && Matching(t, u, LastVersion(pages[0])) != {}
            && IsPartialWalk(t, u, LastVersion(pages[0]), limit, pages[1..]))
  }

  /** Nothing is left to fetch. */
  ghost predicate Finished(t: Table, u: Uuid, pages: seq<seq<Item>>) {
    pages != [] && var last := pages[|pages| - 1]; last == [] || Matching(t, u, LastVersion(last)) == {}
  }

  /** A complete walk is a walk under way with nothing left to fetch. */
  lemma {:induction false} WalkIsFinishedPartialWalk(t: Table, u: Uuid, cursor: int, limit: nat, pages: seq<seq<Item>>)
    ensures IsWalk(t, u, cursor, limit, pages) <==>
            IsPartialWalk(t, u, cursor, limit, pages) && Finished(t, u, pages)
    decreases |pages|
  {
    if |pages| > 1 && pages[0] != [] {
      WalkIsFinishedPartialWalk(t, u, LastVersion(pages[0]), limit, pages[1..]);
    }
  }

  /** Walks end: finished or not, each page takes at least one row past the cursor, so
      there are never more pages than matching rows (one page, when there is none). */
  lemma {:induction false} WalkIsBounded(t: Table, u: Uuid, cursor: int, limit: nat, pages: seq<seq<Item>>)
    requires 1 <= limit && IsPartialWalk(t, u, cursor, limit, pages)
    ensures |pages| <= 1 || |pages| <= |Matching(t, u, cursor)|
    decreases |pages|
  {
    if |pages| > 1 {
      var page, later := pages[0], pages[1..];
      PageCovers(t, u, cursor, limit, page);
      WalkIsBounded(t, u, LastVersion(page), limit, later);
      assert page[0].key in Keys(page);
      FewerKeys(Matching(t, u, LastVersion(page)), Matching(t, u, cursor), page[0].key);
      assert |Matching(t, u, LastVersion(page))| > 0;
    }
  }

  /** A walk that is not finished has a next page, and that page is not empty unless it is
      the first. With the bound, every walk can be carried on to its end. */
  lemma {:induction false} UnfinishedWalkGoesOn(t: Table, u: Uuid, cursor: int, limit: nat, pages: seq<seq<Item>>)
    returns (page: seq<Item>)
    requires 1 <= limit && IsPartialWalk(t, u, cursor, limit, pages) && !Finished(t, u, pages)
    ensures IsPartialWalk(t, u, cursor, limit, pages + [page])
    ensures pages != [] ==> page != []
    decreases |pages|
  {
    if |pages| <= 1 {
      page := PageExists(t, u, if pages == [] then cursor else LastVersion(pages[0]), limit);
      assert (pages + [page])[1..] == if pages == [] then [] else [page];
    } else {
      page := UnfinishedWalkGoesOn(t, u, LastVersion(pages[0]), limit, pages[1..]);
      assert (pages + [page])[1..] == pages[1..] + [page];
    }
  }

  /** The cursors of a walk, in order. */
  function Cursors(pages: seq<seq<Item>>): seq<int> {
    if pages == [] || pages[0] == [] then [] else [LastVersion(pages[0])] + Cursors(pages[1..])
  }

  predicate Increasing(cs: seq<int>) {
    forall p, q :: 0 <= p < q < |cs| ==> cs[p] < cs[q]
  }

  lemma {:induction false} IncreasingCons(c: int, cs: seq<int>)
    requires Increasing(cs) && cs != [] && c < cs[0]
    ensures Increasing([c] + cs)
  {
  }

  /** The cursor strictly increases from page to page, in finished and unfinished walks. */
  lemma {:induction false} CursorAdvances(t: Table, u: Uuid, cursor: int, limit: nat, pages: seq<seq<Item>>)
    requires 1 <= limit && IsPartialWalk(t, u, cursor, limit, pages)
    ensures Increasing([cursor] + Cursors(pages))
    decreases |pages|
  {
    if pages != [] && pages[0] != [] {
      var page, later := pages[0], pages[1..];
      PageCovers(t, u, cursor, limit, page);
      if later != [] {
        CursorAdvances(t, u, LastVersion(page), limit, later);
        IncreasingCons(cursor, [LastVersion(page)] + Cursors(later));
      }
    }
  }

  lemma {:induction false} FewerKeys(a: set<Key>, b: set<Key>, k: Key)
    requires a <= b && k in b && k !in a
    ensures |a| < |b|
  {
    assert b == a + (b - a) && a !! (b - a) && k in b - a;
  }

  /** The smallest failing case: two rows under one version and a limit of one. The
      second row is never returned. */
  lemma {:induction false} TiedRowIsLost(t: Table, u: Uuid, a: Key, b: Key)
    requires t.Keys == {a, b} && a != b && a.user == b.user == u
    requires t[a].content.version == t[b].content.version > 0
    ensures IsWalk(t, u, 0, 1, [[Item(a, t[a])]])
    ensures !IsFullAnswer(t, u, 0, Concat([[Item(a, t[a])]]))
  {
    var page := [Item(a, t[a])];
    var pages := [page];
    assert b in Split(t, u, page) && pages[0] == page;
    PaginationIsExact(t, u, 0, 1, pages);
  }

  // ------------------------------------------------- a store that is being pushed to

  datatype Phase = NeedPage | NeedMore | Done

  /** The walk between two queries. `got` is everything returned so far and `splitOff`
      the rows that some page boundary cut off at the moment of its query. */
  datatype WalkState = WalkState(rows: Table, cursor: int, phase: Phase, got: seq<Item>, splitOff: set<Key>)

  /** A push by any device, the page query of a pull, or its has-more query. */
  datatype Step = Push(batch: Batch) | Page(items: seq<Item>) | More(fails: bool)

  datatype Request = Request(user: Uuid, since: int, limit: nat)

  ghost predicate Next(req: Request, s: WalkState, step: Step, s': WalkState) {
    match step
    case Push(b) =>
      s' == s.(rows := BatchEffect(s.rows, b.blobs, b.faults, b.now))
    case Page(items) =>
      && s.phase == NeedPage
      && IsPage(s.rows, req.user, EffectiveSince(req.since, s.cursor), req.limit, items)
      && s' == if items == [] then s.(phase := Done)
               else s.(cursor := LastVersion(items), phase := NeedMore, got := s.got + items,
                       splitOff := s.splitOff + Split(s.rows, req.user, items))
    case More(fails) =>
      && s.phase == NeedMore
      && s' == s.(phase := if !fails && Matching(s.rows, req.user, s.cursor) != {} then NeedPage else Done)
  }

  ghost predicate IsRun(req: Request, states: seq<WalkState>, steps: seq<Step>) {
    && |states| == |steps| + 1
    && forall i :: 0 <= i < |steps| ==> Next(req, states[i], steps[i], states[i + 1])
  }

  ghost predicate Returned(got: seq<Item>, k: Key, version: int) {
    exists i :: 0 <= i < |got| && got[i].key == k && version <= Version(got[i])
  }

  /** Where a row that was due at the start may be at any later moment. */
  ghost predicate Accounted(req: Request, t0: Table, s: WalkState, k: Key)
    requires k in t0
  {
    && k in s.rows && t0[k].content.version <= s.rows[k].content.version
    && (Returned(s.got, k, t0[k].content.version) || k in s.splitOff ||
        (s.phase != Done && EffectiveSince(req.since, s.cursor) < s.rows[k].content.version))
  }

  ghost predicate CursorOk(req: Request, s: WalkState) {
    s.phase == NeedMore ==> 0 < s.cursor
  }

  lemma {:induction false} PushKeepsAccounted(req: Request, t0: Table, s: WalkState, b: Batch, k: Key)
    requires k in t0 && Accounted(req, t0, s, k)
    ensures Accounted(req, t0, s.(rows := BatchEffect(s.rows, b.blobs, b.faults, b.now)), k)
  {
    ReplayKeepsKeys(s.rows, Stamped(b.blobs, b.now), k);
  }

  lemma {:induction false} PageKeepsAccounted(
    req: Request, t0: Table, s: WalkState, items: seq<Item>, s': WalkState, k: Key)
    requires 0 <= req.since && 1 <= req.limit
    requires k in t0 && k.user == req.user && Accounted(req, t0, s, k)
    requires Next(req, s, Page(items), s')
    ensures Accounted(req, t0, s', k) && CursorOk(req, s')
  {
    var eff := EffectiveSince(req.since, s.cursor);
    if items == [] {
      EmptyPage(s.rows, req.user, eff, req.limit);
      assert k !in Matching(s.rows, req.user, eff);
    } else {
      PageCovers(s.rows, req.user, eff, req.limit, items);
      if i :| 0 <= i < |s.got| && s.got[i].key == k && t0[k].content.version <= Version(s.got[i]) {
        assert s'.got[i] == s.got[i];
      } else if k !in s.splitOff {
        assert k in Matching(s.rows, req.user, eff);
        if k in Keys(items) {
          var j :| 0 <= j < |items| && items[j].key == k;
          assert s'.got[|s.got| + j] == items[j];
        }
      }
    }
  }

  /** Some has-more query among the first `n` steps failed while `k` was ahead of the
      cursor. */
  ghost predicate CutOff(states: seq<WalkState>, steps: seq<Step>, n: nat, k: Key)
    requires n <= |steps| < |states|
  {
    exists i :: 0 <= i < n && steps[i] == More(true) && k in states[i].rows
                && states[i].cursor < states[i].rows[k].content.version
  }

  ghost predicate Starts(req: Request, states: seq<WalkState>, steps: seq<Step>) {
    && 0 <= req.since && 1 <= req.limit
    && IsRun(req, states, steps)
    && states[0] == WalkState(states[0].rows, 0, NeedPage, [], {})
  }

  /** Coverage of the cursor walk, for every interleaving with pushes and whatever query
      fails: at any moment a row that was newer than `since` at the start has been
      returned, at its version or a newer one, was split off by a page boundary, is still
      ahead of the cursor of an unfinished walk, or was cut off by a failed has-more query. */
  lemma {:induction false} WalkCovers(req: Request, states: seq<WalkState>, steps: seq<Step>, k: Key)
    requires Starts(req, states, steps)
    requires k in Matching(states[0].rows, req.user, req.since)
    ensures Accounted(req, states[0].rows, states[|steps|], k) || CutOff(states, steps, |steps|, k)
  {
    var t0 := states[0].rows;
    for i := 0 to |steps|
      invariant CursorOk(req, states[i])
      invariant Accounted(req, t0, states[i], k) || CutOff(states, steps, i, k)
    {
      assert Next(req, states[i], steps[i], states[i + 1]);
      if Accounted(req, t0, states[i], k) {
        match steps[i]
        case Push(b) => PushKeepsAccounted(req, t0, states[i], b, k);
        case Page(items) => PageKeepsAccounted(req, t0, states[i], items, states[i + 1], k);
        case More(fails) =>
          assert k in Matching(states[i].rows, req.user, states[i].cursor) <==>
                 states[i].cursor < states[i].rows[k].content.version;
      } else if steps[i].Page? {
        PageCursorOk(req, states[i], steps[i].items, states[i + 1]);
      }
    }
  }

  lemma {:induction false} PageCursorOk(req: Request, s: WalkState, items: seq<Item>, s': WalkState)
    requires 0 <= req.since && Next(req, s, Page(items), s')
    ensures CursorOk(req, s')
  {
    if items != [] {
      PageCovers(s.rows, req.user, EffectiveSince(req.since, s.cursor), req.limit, items);
    }
  }

  /** If no page boundary splits a group of equal versions, and a has-more query fails only
      where nothing is newer, nothing is missed. */
  lemma {:induction false} WalkMissesNothing(req: Request, states: seq<WalkState>, steps: seq<Step>)
    requires Starts(req, states, steps)
    requires forall i :: 0 <= i < |steps| && steps[i] == More(true) ==>
               Matching(states[i].rows, req.user, states[i].cursor) == {}
    requires forall i :: 0 <= i < |steps| && steps[i].Page? ==> Split(states[i].rows, req.user, steps[i].items) == {}
    requires states[|steps|].phase == Done
    ensures forall k :: k in Matching(states[0].rows, req.user, req.since) ==>
              Returned(states[|steps|].got, k, states[0].rows[k].content.version)
  {
    for i := 0 to |steps|
      invariant states[i].splitOff == {}
    {
      assert Next(req, states[i], steps[i], states[i + 1]);
    }
    forall k | k in Matching(states[0].rows, req.user, req.since)
      ensures Returned(states[|steps|].got, k, states[0].rows[k].content.version)
    {
      WalkCovers(req, states, steps, k);
      assert forall i :: 0 <= i < |steps| && k in states[i].rows ==>
          (k in Matching(states[i].rows, req.user, states[i].cursor) <==>
             states[i].cursor < states[i].rows[k].content.version);
    }
  }

  /** Everything returned lies at or below the cursor, and a row that keeps its version `v`
      is never both returned and split off. */
  ghost predicate Behind(s: WalkState, k: Key, v: int) {
    && (forall i :: 0 <= i < |s.got| ==> Version(s.got[i]) <= s.cursor)
    && (s.got != [] || s.splitOff != {} ==> 0 < s.cursor)
    && (k in s.splitOff ==> v <= s.cursor && !Returned(s.got, k, v))
  }

  lemma {:induction false} PageKeepsBehind(req: Request, s: WalkState, items: seq<Item>, s': WalkState, k: Key)
    requires 0 <= req.since && Next(req, s, Page(items), s')
    requires k in s.rows && Behind(s, k, s.rows[k].content.version)
    ensures Behind(s', k, s.rows[k].content.version)
  {
    if items != [] {
      var eff, v := EffectiveSince(req.since, s.cursor), s.rows[k].content.version;
      PageCovers(s.rows, req.user, eff, req.limit, items);
      forall i | 0 <= i < |s'.got| ensures Version(s'.got[i]) <= s'.cursor {
        if i >= |s.got| {
          var j := i - |s.got|;
          assert s'.got[i] == items[j];
          assert j < |items| - 1 ==> Version(items[j]) <= Version(items[|items| - 1]);
        }
      }
      assert forall i :: 0 <= i < |s.got| ==> s'.got[i] == s.got[i];
      assert forall j :: 0 <= j < |items| ==> items[j].key in Keys(items);
    }
  }

  /** Which rows a finished walk misses, exactly, among those not pushed to a new version
      meanwhile: the ones split off by a page boundary and the ones ahead of the cursor when
      a has-more query failed. */
  lemma {:induction false} RowIsMissedExactly(req: Request, states: seq<WalkState>, steps: seq<Step>, k: Key)
    requires Starts(req, states, steps)
    requires k in Matching(states[0].rows, req.user, req.since)
    requires forall i :: 0 <= i <= |steps| ==>
               k in states[i].rows && states[i].rows[k].content.version == states[0].rows[k].content.version
    requires states[|steps|].phase == Done
    ensures !Returned(states[|steps|].got, k, states[0].rows[k].content.version) <==>
            k in states[|steps|].splitOff || CutOff(states, steps, |steps|, k)
  {
    var v := states[0].rows[k].content.version;
    WalkCovers(req, states, steps, k);
    for i := 0 to |steps|
      invariant Behind(states[i], k, v)
      invariant CutOff(states, steps, i, k) ==> states[i].phase == Done && states[i].cursor < v
    {
      assert Next(req, states[i], steps[i], states[i + 1]);
      if steps[i].Page? {
        PageKeepsBehind(req, states[i], steps[i].items, states[i + 1], k);
      }
    }
  }

  /** The smallest run that a failed has-more query spoils: two rows under different versions
      and a limit of one, so no page splits anything, yet the walk ends without the newer
      row. */
  lemma {:induction false} FailedMoreQueryLosesRow(t: Table, u: Uuid, a: Key, b: Key)
    returns (states: seq<WalkState>, steps: seq<Step>)
    requires t.Keys == {a, b} && a.user == b.user == u
    requires 0 < t[a].content.version < t[b].content.version
    ensures IsRun(Request(u, 0, 1), states, steps) && states[0] == WalkState(t, 0, NeedPage, [], {})
    ensures states[|steps|].phase == Done && states[|steps|].splitOff == {}
    ensures b in Matching(t, u, 0) && !Returned(states[|steps|].got, b, t[b].content.version)
  {
    var items := [Item(a, t[a])];
    assert items[0].key in Keys(items);
    assert IsPage(t, u, 0, 1, items);
    var s0 := WalkState(t, 0, NeedPage, [], {});
    assert Split(t, u, items) == {};
    var s1 := WalkState(t, LastVersion(items), NeedMore, [] + items, {} + Split(t, u, items));
    var s2 := s1.(phase := Done);
    states, steps := [s0, s1, s2], [Page(items), More(true)];
  }
}
