/** The read queries of the sync repository: ordered pulls, pages and counts. */
module SyncQueries {
  import opened Common
  import opened SyncTable

  datatype Item = Item(key: Key, row: Row)

  /** Keys of the rows selected by `user_id = u AND version > since`. */
  function Matching(t: Table, u: Uuid, since: int): set<Key> {
    set k | k in t && k.user == u && since < t[k].content.version
  }

  lemma {:induction false} MatchingNonEmpty(t: Table, u: Uuid, since: int)
    ensures Matching(t, u, since) != {} <==> exists k :: k in t && k.user == u && since < t[k].content.version
  {
    if k :| k in t && k.user == u && since < t[k].content.version {
      assert k in Matching(t, u, since);
    }
  }

  function Version(item: Item): int {
    item.row.content.version
  }

  function Keys(items: seq<Item>): set<Key> {
    set i | 0 <= i < |items| :: items[i].key
  }

  predicate Sorted(items: seq<Item>) {
    forall i, j :: 0 <= i < j < |items| ==> Version(items[i]) <= Version(items[j])
  }

  /** The items are rows of the table that match, each at most once. */
  predicate Selected(t: Table, u: Uuid, since: int, items: seq<Item>) {
    && (forall i :: 0 <= i < |items| ==> items[i].key in Matching(t, u, since) && items[i].row == t[items[i].key])
    && (forall i, j :: 0 <= i < j < |items| ==> items[i].key != items[j].key)
  }

  /** An answer to the unlimited query. Rows of equal version come in any order. */
  predicate IsFullAnswer(t: Table, u: Uuid, since: int, items: seq<Item>) {
    Selected(t, u, since, items) && Sorted(items) && Keys(items) == Matching(t, u, since)
  }

  /** An answer to the query with LIMIT: sorted, and only rows that could sort after all
      returned ones are left out, and only when the page is full. */
  predicate IsPage(t: Table, u: Uuid, since: int, limit: nat, items: seq<Item>) {
    && Selected(t, u, since, items) && Sorted(items)
    && |items| <= limit
    && forall k :: k in Matching(t, u, since) - Keys(items) ==>
         |items| == limit && forall i :: 0 <= i < |items| ==> Version(items[i]) <= t[k].content.version
  }

  /** Cutting a full answer at the limit gives a page. */
  lemma {:induction false} PrefixIsPage(t: Table, u: Uuid, since: int, limit: nat, full: seq<Item>)
    requires IsFullAnswer(t, u, since, full)
    ensures IsPage(t, u, since, limit, if |full| <= limit then full else full[..limit])
  {
  }

  function LastVersion(items: seq<Item>): int
    requires items != []
  {
    Version(items[|items| - 1])
  }

  /** With a positive limit a page is empty only when nothing matches. */
  lemma {:induction false} EmptyPage(t: Table, u: Uuid, since: int, limit: nat)
    requires 1 <= limit && IsPage(t, u, since, limit, [])
    ensures Matching(t, u, since) == {}
  {
  }

  lemma {:induction false} OldestExists(t: Table, keys: set<Key>)
    requires keys != {} && keys <= t.Keys
    ensures exists k :: k in keys && forall other :: other in keys ==> t[k].content.version <= t[other].content.version
    decreases keys
  {
    var k :| k in keys;
    var rest := keys - {k};
    if rest != {} {
      OldestExists(t, rest);
      var m :| m in rest && forall other :: other in rest ==> t[m].content.version <= t[other].content.version;
      var best := if t[m].content.version <= t[k].content.version then m else k;
      assert forall other :: other in keys ==> other == k || other in rest;
      assert best in keys && forall other :: other in keys ==> t[best].content.version <= t[other].content.version;
    } else {
      assert keys == {k};
    }
  }

  lemma {:induction false} KeysAppend(items: seq<Item>, item: Item)
    ensures Keys(items + [item]) == Keys(items) + {item.key}
  {
    var all := items + [item];
    forall k | k in Keys(items) ensures k in Keys(all) {
      var i :| 0 <= i < |items| && items[i].key == k;
      assert all[i].key == k;
    }
    assert all[|items|].key == item.key;
  }

  /** Any set of matching rows can be listed by ascending version. */
  lemma {:induction false} ListingExists(t: Table, u: Uuid, since: int, keys: set<Key>) returns (items: seq<Item>)
    requires keys <= Matching(t, u, since)
    ensures Selected(t, u, since, items) && Sorted(items) && Keys(items) == keys
    decreases keys
  {
    items := [];
    if keys != {} {
      OldestExists(t, keys);
      var k :| k in keys && forall other :: other in keys ==> t[k].content.version <= t[other].content.version;
      var rest := ListingExists(t, u, since, keys - {k});
      assert forall i :: 0 <= i < |rest| ==> rest[i].key in Keys(rest);
      items := [Item(k, t[k])] + rest;
      KeysPrepend(Item(k, t[k]), rest);
      PrependOldest(t, u, since, k, rest);
    }
  }

  lemma {:induction false} PrependOldest(t: Table, u: Uuid, since: int, k: Key, rest: seq<Item>)
    requires k in Matching(t, u, since) && Selected(t, u, since, rest) && Sorted(rest)
    requires forall i :: 0 <= i < |rest| ==> rest[i].key != k && t[k].content.version <= Version(rest[i])
    ensures Selected(t, u, since, [Item(k, t[k])] + rest) && Sorted([Item(k, t[k])] + rest)
  {
    var all := [Item(k, t[k])] + rest;
    assert forall i :: 0 < i < |all| ==> all[i] == rest[i - 1];
  }

  lemma {:induction false} KeysPrepend(item: Item, items: seq<Item>)
    ensures Keys([item] + items) == {item.key} + Keys(items)
  {
    var all := [item] + items;
    forall k | k in Keys(items) ensures k in Keys(all) {
      var i :| 0 <= i < |items| && items[i].key == k;
      assert all[i + 1].key == k;
    }
    assert all[0].key == item.key;
  }

  /** Every query has a page, and it is empty only when nothing matches. */
  lemma {:induction false} PageExists(t: Table, u: Uuid, since: int, limit: nat) returns (page: seq<Item>)
    requires 1 <= limit
    ensures IsPage(t, u, since, limit, page)
    ensures page == [] <==> Matching(t, u, since) == {}
  {
    var full := ListingExists(t, u, since, Matching(t, u, since));
    PrefixIsPage(t, u, since, limit, full);
    page := if |full| <= limit then full else full[..limit];
    assert full != [] ==> full[0].key in Keys(full);
  }

  // ------------------------------------------------------------------------- counts

  function UserKeys(t: Table, u: Uuid): set<Key> {
    set k | k in t && k.user == u
  }

  /** MAX(version) of the user's rows, or 0 when there is none. */
  ghost predicate IsLatest(t: Table, u: Uuid, v: int) {
    && (forall k :: k in UserKeys(t, u) ==> t[k].content.version <= v)
    && if UserKeys(t, u) == {} then v == 0
       else exists k :: k in UserKeys(t, u) && t[k].content.version == v
  }

  function CountItems(t: Table, u: Uuid): nat {
    |UserKeys(t, u)|
  }

  function KeysOfType(t: Table, u: Uuid, itemType: string): set<Key> {
    set k | k in t && k.user == u && k.itemType == itemType
  }

  /** GROUP BY item_type: one entry for each type the user has. */
  function ItemsByType(t: Table, u: Uuid): map<string, nat> {
    map ty | ty in (set k | k in UserKeys(t, u) :: k.itemType) :: |KeysOfType(t, u, ty)|
  }

  function SumOver(m: map<string, nat>, types: seq<string>): nat
    requires forall i :: 0 <= i < |types| ==> types[i] in m
  {
    if types == [] then 0 else SumOver(m, types[..|types|-1]) + m[types[|types|-1]]
  }

  function KeysOfTypes(t: Table, u: Uuid, types: seq<string>): set<Key> {
    set k | k in t && k.user == u && k.itemType in types
  }

  lemma {:induction false} SumOverIsCount(t: Table, u: Uuid, types: seq<string>)
    requires forall i :: 0 <= i < |types| ==> types[i] in ItemsByType(t, u)
    requires forall i, j :: 0 <= i < j < |types| ==> types[i] != types[j]
    ensures SumOver(ItemsByType(t, u), types) == |KeysOfTypes(t, u, types)|
  {
    if types == [] {
      assert KeysOfTypes(t, u, types) == {};
    } else {
      var before, last := types[..|types|-1], types[|types|-1];
      SumOverIsCount(t, u, before);
      assert last !in before && types == before + [last];
      OneMoreType(t, u, before, last);
    }
  }

  lemma {:induction false} OneMoreType(t: Table, u: Uuid, types: seq<string>, last: string)
    requires last !in types
    ensures |KeysOfTypes(t, u, types + [last])| == |KeysOfTypes(t, u, types)| + |KeysOfType(t, u, last)|
  {
    assert KeysOfTypes(t, u, types + [last]) == KeysOfTypes(t, u, types) + KeysOfType(t, u, last);
    assert KeysOfTypes(t, u, types) !! KeysOfType(t, u, last);
  }

  /** The per-type counts add up to the total, however the map is enumerated. */
  lemma {:induction false} TypesAddUp(t: Table, u: Uuid, types: seq<string>)
    requires forall ty :: ty in types <==> ty in ItemsByType(t, u)
    requires forall i, j :: 0 <= i < j < |types| ==> types[i] != types[j]
    ensures SumOver(ItemsByType(t, u), types) == CountItems(t, u) == |set k | k in t && k.user == u|
    ensures forall ty :: ty in types ==> ItemsByType(t, u)[ty] == |set k | k in t && k.user == u && k.itemType == ty|
  {
    SumOverIsCount(t, u, types);
    assert KeysOfTypes(t, u, types) == UserKeys(t, u);
  }

  // ------------------------------------------------------------------------ deletes

  /** The table without every row of `u` whose item id is among `ids`. */
  function Without(t: Table, u: Uuid, ids: seq<Uuid>): Table {
    map k | k in t && !(k.user == u && k.itemId in ids) :: t[k]
  }

  function Hit(t: Table, u: Uuid, id: Uuid): set<Key> {
    set k | k in t && k.user == u && k.itemId == id
  }

  /** The rows of `u` with one of the ids are what the table loses. */
  lemma {:induction false} DeletedCount(t: Table, u: Uuid, ids: seq<Uuid>)
    ensures |set k | k in t && k.user == u && k.itemId in ids| == CountItems(t, u) - CountItems(Without(t, u, ids), u)
  {
    var gone := set k | k in t && k.user == u && k.itemId in ids;
    assert UserKeys(t, u) == UserKeys(Without(t, u, ids), u) + gone;
    assert UserKeys(Without(t, u, ids), u) !! gone;
  }

  /** Deleting one more id removes exactly the rows it hits, whatever their item types. */
  lemma {:induction false} WithoutOneMore(t: Table, u: Uuid, ids: seq<Uuid>, i: nat)
    requires i < |ids|
    ensures var before := Without(t, u, ids[..i]);
            && Without(t, u, ids[..i + 1]) == before - Hit(before, u, ids[i])
            && CountItems(Without(t, u, ids[..i + 1]), u) + |Hit(before, u, ids[i])| == CountItems(before, u)
  {
    var before, after := Without(t, u, ids[..i]), Without(t, u, ids[..i + 1]);
    assert ids[..i + 1] == ids[..i] + [ids[i]];
    assert UserKeys(before, u) == UserKeys(after, u) + Hit(before, u, ids[i]);
    assert UserKeys(after, u) !! Hit(before, u, ids[i]);
  }
}
