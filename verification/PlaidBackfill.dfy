/** The migration that gives legacy bank accounts their Plaid items and mappings.

    The item id is derived from a digest of "uid:secret", which is taken to be injective.
  */
module PlaidBackfill {
  import opened Text

  datatype Kind = Traditional | Investment | Other

  datatype Row = Row(id: nat, uid: string, kind: Kind, provider: Option<string>, secret: Option<string>)

  /** Items and mappings are only ever added; the key of an item is its position. */
  datatype Item = Item(uid: string, itemId: string, institution: Option<string>, secret: string)

  datatype Mapping = Mapping(uid: string, item: nat, account: nat)

  datatype Tables = Tables(items: seq<Item>, mappings: seq<Mapping>)

  datatype Group = Group(uid: string, secret: string, rows: seq<Row>)

  ghost predicate Injective(digest: string -> string) {
    forall s, t :: digest(s) == digest(t) ==> s == t
  }

  function LegacyName(uid: string, secret: string): string {
    uid + ":" + secret
  }

  function LegacyItemId(digest: string -> string, uid: string, secret: string): string {
    "legacy-" + digest(LegacyName(uid, secret))
  }

  // ----- Which rows, and their groups -----

  predicate Eligible(r: Row) {
    r.kind != Other && r.secret.Some? && r.secret.value != ""
  }

  predicate AllEligible(rows: seq<Row>) {
    forall i :: 0 <= i < |rows| ==> Eligible(rows[i])
  }

  function Wanted(rows: seq<Row>): (s: seq<Row>)
    ensures forall r :: r in s <==> r in rows && Eligible(r)
    ensures AllEligible(s)
  {
    if rows == [] then []
    else
      var n := |rows| - 1;
      var init := Wanted(rows[..n]);
      assert rows == rows[..n] + [rows[n]];
      if Eligible(rows[n]) then init + [rows[n]] else init
  }

  function FindGroup(groups: seq<Group>, uid: string, secret: string): (i: nat)
    ensures i <= |groups|
    ensures i < |groups| ==> groups[i].uid == uid && groups[i].secret == secret
    ensures forall k :: 0 <= k < i ==> groups[k].uid != uid || groups[k].secret != secret
  {
    if groups == [] || (groups[0].uid == uid && groups[0].secret == secret) then 0
    else 1 + FindGroup(groups[1..], uid, secret)
  }

  function Grouped(groups: seq<Group>, r: Row): seq<Group>
    requires r.secret.Some?
  {
    var i := FindGroup(groups, r.uid, r.secret.value);
    if i == |groups| then groups + [Group(r.uid, r.secret.value, [r])]
    else groups[i := groups[i].(rows := groups[i].rows + [r])]
  }

  function GroupAll(rows: seq<Row>): seq<Group>
    requires AllEligible(rows)
  {
    if rows == [] then [] else Grouped(GroupAll(rows[..|rows| - 1]), rows[|rows| - 1])
  }

  // ----- One group -----

  function FindItem(items: seq<Item>, itemId: string): (i: nat)
    ensures i <= |items|
    ensures i < |items| ==> items[i].itemId == itemId
    ensures forall k :: 0 <= k < i ==> items[k].itemId != itemId
  {
    if items == [] || items[0].itemId == itemId then 0 else 1 + FindItem(items[1..], itemId)
  }

  /** The first provider name that is not blank. */
  function Institution(rows: seq<Row>): (p: Option<string>)
    ensures p.Some? ==> p.value != "" && exists r :: r in rows && r.provider == p
    ensures p.None? ==> forall r :: r in rows ==> r.provider.None? || r.provider.value == ""
  {
    if rows == [] then None
    else if rows[0].provider.Some? && rows[0].provider.value != "" then rows[0].provider
    else
      assert rows == [rows[0]] + rows[1..];
      Institution(rows[1..])
  }

  function WithItem(t: Tables, itemId: string, g: Group): Tables {
    if FindItem(t.items, itemId) < |t.items| then t
    else t.(items := t.items + [Item(g.uid, itemId, Institution(g.rows), g.secret)])
  }

  predicate IsMapped(t: Tables, account: nat) {
    exists k :: 0 <= k < |t.mappings| && t.mappings[k].account == account
  }

  function WithMapping(t: Tables, uid: string, item: nat, account: nat): Tables {
    if IsMapped(t, account) then t else t.(mappings := t.mappings + [Mapping(uid, item, account)])
  }

  function WithMappings(t: Tables, uid: string, item: nat, rows: seq<Row>): (r: Tables)
    ensures r.items == t.items
  {
    if rows == [] then t
    else WithMapping(WithMappings(t, uid, item, rows[..|rows| - 1]), uid, item, rows[|rows| - 1].id)
  }

  function WithGroup(t: Tables, digest: string -> string, g: Group): Tables {
    var itemId := LegacyItemId(digest, g.uid, g.secret);
    var t1 := WithItem(t, itemId, g);
    WithMappings(t1, g.uid, FindItem(t1.items, itemId), g.rows)
  }

  function WithGroups(t: Tables, digest: string -> string, groups: seq<Group>): Tables {
    if groups == [] then t else WithGroup(WithGroups(t, digest, groups[..|groups| - 1]), digest, groups[|groups| - 1])
  }

  function Backfilled(t: Tables, digest: string -> string, rows: seq<Row>): Tables {
    WithGroups(t, digest, GroupAll(Wanted(rows)))
  }

  // ----- The migration -----

  class Migration {
    var tables: Tables

    constructor (t: Tables)
      ensures tables == t
    {
      tables := t;
    }

    method GroupRows(rows: seq<Row>) returns (groups: seq<Group>)
      requires AllEligible(rows)
      ensures groups == GroupAll(rows)
    {
      groups := [];
      for i := 0 to |rows|
        invariant groups == GroupAll(rows[..i])
      {
        assert rows[..i + 1][..i] == rows[..i];
        var r := rows[i];
        var k := FindGroup(groups, r.uid, r.secret.value);
        if k == |groups| {
          groups := groups + [Group(r.uid, r.secret.value, [r])];
        } else {
          groups := groups[k := groups[k].(rows := groups[k].rows + [r])];
        }
      }
      assert rows[..|rows|] == rows;
    }

    method AddGroup(digest: string -> string, g: Group)
      modifies this
      ensures tables == WithGroup(old(tables), digest, g)
    {
      var itemId := LegacyItemId(digest, g.uid, g.secret);
      var item := FindItem(tables.items, itemId);
      if item == |tables.items| {
        tables := tables.(items := tables.items + [Item(g.uid, itemId, Institution(g.rows), g.secret)]);
      }
      ghost var start := tables;
      item := FindItem(tables.items, itemId);
      for i := 0 to |g.rows|
        invariant tables == WithMappings(start, g.uid, item, g.rows[..i])
      {
        assert g.rows[..i + 1][..i] == g.rows[..i];
        if !IsMapped(tables, g.rows[i].id) {
          tables := tables.(mappings := tables.mappings + [Mapping(g.uid, item, g.rows[i].id)]);
        }
      }
      assert g.rows[..|g.rows|] == g.rows;
    }

    method Backfill(digest: string -> string, rows: seq<Row>)
      modifies this
      ensures tables == Backfilled(old(tables), digest, rows)
    {
      hide WithGroup, Wanted, Grouped;
      var wanted := Wanted(rows);
      if wanted == [] {
        return;
      }
      var groups := GroupRows(wanted);
      for i := 0 to |groups|
        invariant tables == WithGroups(old(tables), digest, groups[..i])
      {
        assert groups[..i + 1][..i] == groups[..i];
        AddGroup(digest, groups[i]);
      }
      assert groups[..|groups|] == groups;
    }
  }

  // ----- Grouping loses no row -----

  /** Every row is in the group of its user and secret, and groups hold nothing else. */
  predicate GroupedRow(groups: seq<Group>, r: Row) {
    exists i :: 0 <= i < |groups| && r in groups[i].rows && groups[i].uid == r.uid && r.secret == Some(groups[i].secret)
  }

  ghost predicate GroupsOf(groups: seq<Group>, rows: seq<Row>) {
    && (forall r :: r in rows ==> GroupedRow(groups, r))
    && (forall i, r :: 0 <= i < |groups| && r in groups[i].rows ==>
          r in rows && r.uid == groups[i].uid && r.secret == Some(groups[i].secret))
  }

  lemma {:induction false} GroupedOne(groups: seq<Group>, rows: seq<Row>, r: Row)
    requires GroupsOf(groups, rows) && r.secret.Some?
    ensures GroupsOf(Grouped(groups, r), rows + [r])
  {
    var i := FindGroup(groups, r.uid, r.secret.value);
    var groups' := Grouped(groups, r);
    assert r in groups'[i].rows;
    forall q | q in rows + [r] ensures GroupedRow(groups', q) {
      if q in rows {
        assert GroupedRow(groups, q);
        var k :| 0 <= k < |groups| && q in groups[k].rows && groups[k].uid == q.uid
            && q.secret == Some(groups[k].secret);
        assert q in groups'[k].rows;
      }
    }
  }

  lemma {:induction false} GroupingIsExact(rows: seq<Row>)
    requires AllEligible(rows)
    ensures GroupsOf(GroupAll(rows), rows)
    decreases |rows|
  {
    if rows == [] {
    } else {
      var n := |rows| - 1;
      GroupingIsExact(rows[..n]);
      hide GroupsOf, Grouped;
      GroupedOne(GroupAll(rows[..n]), rows[..n], rows[n]);
      assert rows[..n] + [rows[n]] == rows;
    }
  }

  // ----- What the tables hold -----

  ghost predicate DistinctItems(items: seq<Item>) {
    forall i, j :: 0 <= i < j < |items| ==> items[i].itemId != items[j].itemId
  }

  ghost predicate OnePerAccount(mappings: seq<Mapping>) {
    forall i, j :: 0 <= i < j < |mappings| ==> mappings[i].account != mappings[j].account
  }

  /** A mapping is of an eligible account, under its user, and points at the item of its secret. */
  ghost predicate Explained(t: Tables, digest: string -> string, rows: seq<Row>, m: Mapping) {
    && m.item < |t.items|
    && exists r :: r in rows && Eligible(r) && r.id == m.account && r.uid == m.uid
                   && t.items[m.item].itemId == LegacyItemId(digest, r.uid, r.secret.value)
  }

  ghost predicate Sound(t: Tables, digest: string -> string, rows: seq<Row>) {
    && DistinctItems(t.items) && OnePerAccount(t.mappings)
    && forall k :: 0 <= k < |t.mappings| ==> Explained(t, digest, rows, t.mappings[k])
  }

  lemma {:induction false} MappingSound(t: Tables, digest: string -> string, rows: seq<Row>, item: nat, r: Row)
    requires Sound(t, digest, rows) && r in rows && Eligible(r)
    requires item < |t.items| && t.items[item].itemId == LegacyItemId(digest, r.uid, r.secret.value)
    ensures Sound(WithMapping(t, r.uid, item, r.id), digest, rows)
  {
    hide DistinctItems, LegacyItemId;
    if !IsMapped(t, r.id) {
      var t' := WithMapping(t, r.uid, item, r.id);
      forall k | 0 <= k < |t'.mappings| ensures Explained(t', digest, rows, t'.mappings[k]) {
        if k < |t.mappings| {
          assert Explained(t, digest, rows, t.mappings[k]);
        }
      }
    }
  }

  lemma {:induction false} MappingsSound(
      t: Tables, digest: string -> string, rows: seq<Row>, uid: string, secret: string, item: nat, some: seq<Row>)
    requires Sound(t, digest, rows) && item < |t.items| && t.items[item].itemId == LegacyItemId(digest, uid, secret)
    requires forall r :: r in some ==> r in rows && Eligible(r) && r.uid == uid && r.secret == Some(secret)
    ensures Sound(WithMappings(t, uid, item, some), digest, rows)
    ensures forall r :: r in some ==> IsMapped(WithMappings(t, uid, item, some), r.id)
    ensures forall a :: IsMapped(t, a) ==> IsMapped(WithMappings(t, uid, item, some), a)
    decreases |some|
  {
    hide Sound, LegacyItemId, WithMapping, IsMapped;
    if some == [] {
    } else {
      var n := |some| - 1;
      MappingsSound(t, digest, rows, uid, secret, item, some[..n]);
      var t1 := WithMappings(t, uid, item, some[..n]);
      MappingSound(t1, digest, rows, item, some[n]);
      MappedAfter(t1, uid, item, some[n].id);
      assert some == some[..n] + [some[n]];
    }
  }

  lemma {:induction false} MappedAfter(t: Tables, uid: string, item: nat, account: nat)
    ensures IsMapped(WithMapping(t, uid, item, account), account)
    ensures forall a :: IsMapped(t, a) ==> IsMapped(WithMapping(t, uid, item, account), a)
  {
    var t' := WithMapping(t, uid, item, account);
    if !IsMapped(t, account) {
      assert t'.mappings[|t.mappings|].account == account;
    }
    forall a | IsMapped(t, a) ensures IsMapped(t', a) {
      var k :| 0 <= k < |t.mappings| && t.mappings[k].account == a;
      assert t'.mappings[k].account == a;
    }
  }

  lemma {:induction false} ItemSound(t: Tables, digest: string -> string, rows: seq<Row>, itemId: string, g: Group)
    requires Sound(t, digest, rows)
    ensures var t1 := WithItem(t, itemId, g);
            Sound(t1, digest, rows) && FindItem(t1.items, itemId) < |t1.items| && t1.mappings == t.mappings
            && |t.items| <= |t1.items| && t1.items[..|t.items|] == t.items
  {
    hide OnePerAccount, LegacyItemId;
    var t1 := WithItem(t, itemId, g);
    forall k | 0 <= k < |t1.mappings| ensures Explained(t1, digest, rows, t1.mappings[k]) {
      assert Explained(t, digest, rows, t.mappings[k]);
    }
    if FindItem(t.items, itemId) == |t.items| {
      assert t1.items[|t.items|].itemId == itemId;
    }
  }

  predicate HasItem(t: Tables, itemId: string) {
    FindItem(t.items, itemId) < |t.items|
  }

  /** The tables know a row: its item and a mapping of it exist. */
  predicate Known(t: Tables, digest: string -> string, r: Row)
    requires r.secret.Some?
  {
    HasItem(t, LegacyItemId(digest, r.uid, r.secret.value)) && IsMapped(t, r.id)
  }

  /** From one state of the tables to a later one, nothing is lost. */
  ghost predicate Grows(t: Tables, t': Tables) {
    && (forall id :: HasItem(t, id) ==> HasItem(t', id))
    && (forall a :: IsMapped(t, a) ==> IsMapped(t', a))
  }

  lemma {:induction false} MoreItems(items: seq<Item>, more: seq<Item>, itemId: string)
    requires |items| <= |more| && more[..|items|] == items && FindItem(items, itemId) < |items|
    ensures FindItem(more, itemId) < |more|
  {
    var i := FindItem(items, itemId);
    assert more[i] == more[..|items|][i];
  }

  lemma {:induction false} GroupSound(t: Tables, digest: string -> string, rows: seq<Row>, g: Group)
    requires Sound(t, digest, rows)
    requires forall r :: r in g.rows ==> r in rows && Eligible(r) && r.uid == g.uid && r.secret == Some(g.secret)
    ensures var t' := WithGroup(t, digest, g);
            && Sound(t', digest, rows) && Grows(t, t')
            && forall r :: r in g.rows ==> r.secret.Some? && Known(t', digest, r)
  {
    hide Sound, LegacyItemId, WithItem, WithMappings, FindItem, IsMapped;
    var itemId := LegacyItemId(digest, g.uid, g.secret);
    ItemSound(t, digest, rows, itemId, g);
    var t1 := WithItem(t, itemId, g);
    var i := FindItem(t1.items, itemId);
    MappingsSound(t1, digest, rows, g.uid, g.secret, i, g.rows);
    forall id | HasItem(t, id) ensures HasItem(t1, id) {
      MoreItems(t.items, t1.items, id);
    }
    assert forall a :: IsMapped(t, a) ==> IsMapped(t1, a) by {
      SameMapped(t, t1);
    }
  }

  lemma {:induction false} SameMapped(t: Tables, t1: Tables)
    requires t.mappings == t1.mappings
    ensures forall a :: IsMapped(t, a) ==> IsMapped(t1, a)
  {
  }

  lemma {:induction false} GroupsSound(t: Tables, digest: string -> string, rows: seq<Row>, groups: seq<Group>)
    requires Sound(t, digest, rows)
    requires forall i, r :: 0 <= i < |groups| && r in groups[i].rows ==>
               r in rows && Eligible(r) && r.uid == groups[i].uid && r.secret == Some(groups[i].secret)
    ensures var t' := WithGroups(t, digest, groups);
            && Sound(t', digest, rows) && Grows(t, t')
            && forall i, r :: 0 <= i < |groups| && r in groups[i].rows ==> r.secret.Some? && Known(t', digest, r)
    decreases |groups|
  {
    hide Sound, LegacyItemId, WithGroup, FindItem, IsMapped, HasItem;
    if groups == [] {
    } else {
      var n := |groups| - 1;
      GroupsSound(t, digest, rows, groups[..n]);
      GroupSound(WithGroups(t, digest, groups[..n]), digest, rows, groups[n]);
    }
  }

  /** From any tables it explains, the backfill ends with every eligible account mapped exactly once,
      under its own user and to the item of its secret, and with nothing else mapped. */
  lemma {:induction false} EveryEligibleIsMappedOnce(t: Tables, digest: string -> string, rows: seq<Row>)
    requires Sound(t, digest, rows)
    ensures var t' := Backfilled(t, digest, rows);
            && Sound(t', digest, rows)
            && forall r :: r in rows && Eligible(r) ==> Known(t', digest, r)
  {
    var wanted := Wanted(rows);
    GroupingIsExact(wanted);
    var groups := GroupAll(wanted);
    hide Sound, Known, WithGroups, GroupAll, Wanted;
    GroupsSound(t, digest, rows, groups);
    forall r | r in rows && Eligible(r) ensures Known(Backfilled(t, digest, rows), digest, r) {
      assert GroupedRow(groups, r);
    }
  }

  lemma {:induction false} EmptyIsSound(digest: string -> string, rows: seq<Row>)
    ensures Sound(Tables([], []), digest, rows)
  {
  }

  // ----- Sharing an item -----

  ghost predicate DistinctAccounts(rows: seq<Row>) {
    forall r, q :: r in rows && q in rows && r.id == q.id ==> r == q
  }

  /** Two accounts share an item exactly when the names "uid:secret" of their groups are the same. */
  lemma {:induction false} ItemIsSharedIff(
      t: Tables, digest: string -> string, rows: seq<Row>, m: Mapping, n: Mapping, r: Row, q: Row)
    requires Injective(digest) && Sound(t, digest, rows) && DistinctAccounts(rows)
    requires m in t.mappings && n in t.mappings && r in rows && q in rows && Eligible(r) && Eligible(q)
    requires m.account == r.id && n.account == q.id
    ensures m.item == n.item <==> LegacyName(r.uid, r.secret.value) == LegacyName(q.uid, q.secret.value)
  {
    assert Explained(t, digest, rows, m) && Explained(t, digest, rows, n);
    var i, j := LegacyItemId(digest, r.uid, r.secret.value), LegacyItemId(digest, q.uid, q.secret.value);
    assert t.items[m.item].itemId == i && t.items[n.item].itemId == j;
    assert digest(LegacyName(r.uid, r.secret.value)) == i[7..];
    assert digest(LegacyName(q.uid, q.secret.value)) == j[7..];
  }

  /** Those names tell user and secret apart as long as user ids hold no colon. */
  lemma {:induction false} NamesAreDistinct(uid: string, secret: string, uid': string, secret': string)
    requires ':' !in uid && ':' !in uid'
    requires LegacyName(uid, secret) == LegacyName(uid', secret')
    ensures uid == uid' && secret == secret'
  {
    var s := LegacyName(uid, secret);
    assert s[|uid|] == ':' && s[|uid'|] == ':';
    assert forall k :: 0 <= k < |uid'| ==> s[k] == uid'[k] && s[k] != ':';
    assert forall k :: 0 <= k < |uid| ==> s[k] == uid[k] && s[k] != ':';
    assert |uid| == |uid'|;
    assert uid == s[..|uid|] && uid' == s[..|uid'|];
    assert secret == s[|uid| + 1..] && secret' == s[|uid'| + 1..];
  }

  predicate PlainUsers(rows: seq<Row>) {
    forall i :: 0 <= i < |rows| ==> ':' !in rows[i].uid
  }

  /** Mapping m is the one of the eligible row r. */
  predicate MapsRow(t: Tables, rows: seq<Row>, m: Mapping, r: Row) {
    m in t.mappings && r in rows && Eligible(r) && m.account == r.id
  }

  ghost predicate SharedBySecret(t: Tables, rows: seq<Row>) {
    forall m, n, r, q :: MapsRow(t, rows, m, r) && MapsRow(t, rows, n, q) ==>
      (m.item == n.item <==> r.uid == q.uid && r.secret == q.secret)
  }

  lemma {:induction false} SharedPair(
      t: Tables, digest: string -> string, rows: seq<Row>, m: Mapping, n: Mapping, r: Row, q: Row)
    requires Injective(digest) && Sound(t, digest, rows) && DistinctAccounts(rows) && PlainUsers(rows)
    requires MapsRow(t, rows, m, r) && MapsRow(t, rows, n, q)
    ensures m.item == n.item <==> r.uid == q.uid && r.secret == q.secret
  {
    hide Sound, LegacyName, Injective;
    ItemIsSharedIff(t, digest, rows, m, n, r, q);
    if m.item == n.item {
      NamesAreDistinct(r.uid, r.secret.value, q.uid, q.secret.value);
    }
  }

  /** From empty tables, with user ids that hold no colon: every eligible account has exactly one mapping,
      and two accounts share an item exactly when they share user and secret. */
  lemma {:induction false} BackfillFromEmpty(digest: string -> string, rows: seq<Row>)
    requires Injective(digest) && DistinctAccounts(rows) && PlainUsers(rows)
    ensures var t := Backfilled(Tables([], []), digest, rows);
            && OnePerAccount(t.mappings) && SharedBySecret(t, rows)
            && (forall r :: r in rows && Eligible(r) ==> IsMapped(t, r.id))
  {
    EmptyIsSound(digest, rows);
    EveryEligibleIsMappedOnce(Tables([], []), digest, rows);
    var t := Backfilled(Tables([], []), digest, rows);
    SoundIsOne(t, digest, rows);
    hide Backfilled, Injective, DistinctAccounts, PlainUsers, MapsRow, OnePerAccount, Sound, IsMapped, HasItem;
    forall m, n, r, q | MapsRow(t, rows, m, r) && MapsRow(t, rows, n, q)
      ensures m.item == n.item <==> r.uid == q.uid && r.secret == q.secret
    {
      SharedPair(t, digest, rows, m, n, r, q);
    }
  }

  lemma {:induction false} SoundIsOne(t: Tables, digest: string -> string, rows: seq<Row>)
    requires Sound(t, digest, rows)
    ensures OnePerAccount(t.mappings)
  {
    hide OnePerAccount, DistinctItems, Explained;
  }

  const COLON_IN_SECRET := Row(1, "a", Traditional, None, Some("b:c"))
  const COLON_IN_USER := Row(2, "a:b", Traditional, None, Some("c"))

  /** With a colon in a user id the names do not tell users apart: two users end up on one item, which is
      the first one's. */
  lemma {:induction false} ColonsConfuseUsers(digest: string -> string)
    requires Injective(digest)
    ensures var t := Backfilled(Tables([], []), digest, [COLON_IN_SECRET, COLON_IN_USER]);
            && |t.items| == 1 && t.items[0].uid == "a"
            && t.mappings == [Mapping("a", 0, 1), Mapping("a:b", 0, 2)]
  {
    TwoGroups();
    var one, two := Group("a", "b:c", [COLON_IN_SECRET]), Group("a:b", "c", [COLON_IN_USER]);
    var empty := Tables([], []);
    SameLegacyId(digest);
    hide WithGroup, WithGroups, GroupAll, Wanted, LegacyItemId, IsMapped, Institution, Backfilled;
    TwoInTurn(empty, digest, one, two);
    NobodyElse(empty, [], 1);
    OneRowGroup(empty, digest, one, LegacyItemId(digest, "a", "b:c"));
    NobodyElse(WithGroup(empty, digest, one), [1], 2);
    OneRowGroup(WithGroup(empty, digest, one), digest, two, LegacyItemId(digest, "a", "b:c"));
    BackfilledIs(empty, digest, [COLON_IN_SECRET, COLON_IN_USER]);
  }

  lemma {:induction false} SameLegacyId(digest: string -> string)
    ensures LegacyItemId(digest, "a", "b:c") == LegacyItemId(digest, "a:b", "c")
  {
    assert LegacyName("a", "b:c") == "a:b:c" && LegacyName("a:b", "c") == "a:b:c";
  }

  lemma {:induction false} NobodyElse(t: Tables, mapped: seq<nat>, account: nat)
    requires |t.mappings| == |mapped| && forall k :: 0 <= k < |mapped| ==> t.mappings[k].account == mapped[k] != account
    ensures !IsMapped(t, account)
  {
  }

  lemma {:induction false} BackfilledIs(t: Tables, digest: string -> string, rows: seq<Row>)
    ensures Backfilled(t, digest, rows) == WithGroups(t, digest, GroupAll(Wanted(rows)))
  {
    hide WithGroups, GroupAll, Wanted;
  }

  lemma {:induction false} TwoGroups()
    ensures GroupAll(Wanted([COLON_IN_SECRET, COLON_IN_USER]))
            == [Group("a", "b:c", [COLON_IN_SECRET]), Group("a:b", "c", [COLON_IN_USER])]
  {
    var rows := [COLON_IN_SECRET, COLON_IN_USER];
    assert rows[..1] == [COLON_IN_SECRET] && rows[..1][..0] == [];
    assert Wanted([]) == [];
    assert Wanted(rows[..1]) == [COLON_IN_SECRET];
    assert Wanted(rows) == rows;
    assert GroupAll([]) == [];
    assert GroupAll(rows[..1]) == [Group("a", "b:c", [COLON_IN_SECRET])];
    assert FindGroup([Group("a", "b:c", [COLON_IN_SECRET])], "a:b", "c") == 1;
  }

  /** A group of one row that is not mapped yet. */
  lemma {:induction false} OneRowGroup(t: Tables, digest: string -> string, g: Group, itemId: string)
    requires |g.rows| == 1 && itemId == LegacyItemId(digest, g.uid, g.secret) && !IsMapped(t, g.rows[0].id)
    requires t.items == [] || (|t.items| == 1 && t.items[0].itemId == itemId)
    ensures var r := WithGroup(t, digest, g);
            && r.mappings == t.mappings + [Mapping(g.uid, 0, g.rows[0].id)]
            && r.items == if t.items == [] then [Item(g.uid, itemId, Institution(g.rows), g.secret)] else t.items
  {
    hide LegacyItemId, Institution;
    var t1 := WithItem(t, itemId, g);
    assert FindItem(t1.items, itemId) == 0;
    assert g.rows[..0] == [];
    assert WithMappings(t1, g.uid, 0, []) == t1;
  }

  lemma {:induction false} TwoInTurn(t: Tables, digest: string -> string, one: Group, two: Group)
    ensures WithGroups(t, digest, [one, two]) == WithGroup(WithGroup(t, digest, one), digest, two)
  {
    hide WithGroup;
    assert [one, two][..1] == [one] && [one][..0] == [];
    assert WithGroups(t, digest, []) == t;
    assert WithGroups(t, digest, [one]) == WithGroup(t, digest, one);
  }

  // ----- Running it again -----

  lemma {:induction false} KnownRowsStay(t: Tables, uid: string, item: nat, rows: seq<Row>)
    requires forall r :: r in rows ==> IsMapped(t, r.id)
    ensures WithMappings(t, uid, item, rows) == t
    decreases |rows|
  {
    hide IsMapped;
    if rows == [] {
    } else {
      KnownRowsStay(t, uid, item, rows[..|rows| - 1]);
      assert rows[|rows| - 1] in rows;
    }
  }

  lemma {:induction false} KnownGroupsStay(t: Tables, digest: string -> string, groups: seq<Group>)
    requires forall i :: 0 <= i < |groups| ==>
               && HasItem(t, LegacyItemId(digest, groups[i].uid, groups[i].secret))
               && forall r :: r in groups[i].rows ==> IsMapped(t, r.id)
    ensures WithGroups(t, digest, groups) == t
    decreases |groups|
  {
    hide IsMapped, LegacyItemId, FindItem;
    if groups == [] {
    } else {
      var n := |groups| - 1;
      KnownGroupsStay(t, digest, groups[..n]);
      KnownRowsStay(t, groups[n].uid, FindItem(t.items, LegacyItemId(digest, groups[n].uid, groups[n].secret)),
          groups[n].rows);
    }
  }

  /** A group has at least one row. */
  lemma {:induction false} GroupsAreInhabited(rows: seq<Row>)
    requires AllEligible(rows)
    ensures forall i :: 0 <= i < |GroupAll(rows)| ==> GroupAll(rows)[i].rows != []
    decreases |rows|
  {
    if rows == [] {
    } else {
      GroupsAreInhabited(rows[..|rows| - 1]);
    }
  }

  /** Running the backfill again adds nothing. */
  lemma {:induction false} SecondRunAddsNothing(t: Tables, digest: string -> string, rows: seq<Row>)
    requires Sound(t, digest, rows)
    ensures Backfilled(Backfilled(t, digest, rows), digest, rows) == Backfilled(t, digest, rows)
  {
    EveryEligibleIsMappedOnce(t, digest, rows);
    var t' := Backfilled(t, digest, rows);
    var groups := GroupAll(Wanted(rows));
    GroupingIsExact(Wanted(rows));
    GroupsAreInhabited(Wanted(rows));
    hide Sound, WithGroups, GroupAll, Wanted, HasItem, IsMapped, LegacyItemId;
    forall i | 0 <= i < |groups|
      ensures HasItem(t', LegacyItemId(digest, groups[i].uid, groups[i].secret))
      ensures forall r :: r in groups[i].rows ==> IsMapped(t', r.id)
    {
      assert groups[i].rows[0] in groups[i].rows;
      forall r | r in groups[i].rows
        ensures IsMapped(t', r.id) && HasItem(t', LegacyItemId(digest, groups[i].uid, groups[i].secret))
      {
        assert r in rows && Eligible(r);
        assert Known(t', digest, r);
      }
    }
    KnownGroupsStay(t', digest, groups);
  }

  // ----- Account by account -----

  /** The migration is for bank and investment accounts with a stored access token. */
  predicate HasToken(r: Row) {
    (r.kind == Traditional || r.kind == Investment) && r.secret.Some? && r.secret.value != ""
  }

  lemma {:induction false} EligibleIs(r: Row)
    ensures Eligible(r) <==> HasToken(r)
  {
  }

  /** The rows of one user and token, in the order of the query. */
  function RowsOf(rows: seq<Row>, uid: string, secret: string): seq<Row> {
    if rows == [] then []
    else
      var r := rows[|rows| - 1];
      RowsOf(rows[..|rows| - 1], uid, secret) + if r.uid == uid && r.secret == Some(secret) then [r] else []
  }

  /** Each group holds all the rows of its user and token, in order, and no two groups are of the same. */
  ghost predicate GroupsAre(groups: seq<Group>, rows: seq<Row>) {
    && (forall i :: 0 <= i < |groups| ==>
          groups[i].rows == RowsOf(rows, groups[i].uid, groups[i].secret) && groups[i].rows != [])
    && (forall i, j :: 0 <= i < j < |groups| ==> groups[i].uid != groups[j].uid || groups[i].secret != groups[j].secret)
    && (forall r :: r in rows && r.secret.Some? ==>
          exists i :: 0 <= i < |groups| && groups[i].uid == r.uid && groups[i].secret == r.secret.value)
  }

  lemma {:induction false} RowsOfNext(rows: seq<Row>, r: Row, uid: string, secret: string)
    ensures RowsOf(rows + [r], uid, secret)
            == RowsOf(rows, uid, secret) + if r.uid == uid && r.secret == Some(secret) then [r] else []
  {
    assert (rows + [r])[..|rows|] == rows;
  }

  lemma {:induction false} NoRowsOf(rows: seq<Row>, uid: string, secret: string)
    requires forall r :: r in rows ==> r.uid != uid || r.secret != Some(secret)
    ensures RowsOf(rows, uid, secret) == []
  {
    if rows == [] {
    } else {
      var n := |rows| - 1;
      assert forall r :: r in rows[..n] ==> r in rows;
      assert rows[n] in rows;
      NoRowsOf(rows[..n], uid, secret);
    }
  }

  lemma {:induction false} GroupRowsNext(groups: seq<Group>, rows: seq<Row>, r: Row, i: nat)
    requires GroupsAre(groups, rows) && r.secret.Some? && i < |Grouped(groups, r)|
    ensures var g := Grouped(groups, r)[i];
            g.rows == RowsOf(rows + [r], g.uid, g.secret) && g.rows != []
  {
    var k := FindGroup(groups, r.uid, r.secret.value);
    var g := Grouped(groups, r)[i];
    RowsOfNext(rows, r, g.uid, g.secret);
    hide RowsOf, FindGroup;
    if i == |groups| {
      assert forall q :: q in rows ==> q.uid != r.uid || q.secret != Some(r.secret.value);
      NoRowsOf(rows, r.uid, r.secret.value);
    } else {
      assert groups[i].rows == RowsOf(rows, groups[i].uid, groups[i].secret);
    }
  }

  lemma {:induction false} GroupsDifferNext(groups: seq<Group>, rows: seq<Row>, r: Row)
    requires GroupsAre(groups, rows) && r.secret.Some?
    ensures var groups' := Grouped(groups, r);
            forall i, j :: 0 <= i < j < |groups'| ==>
              groups'[i].uid != groups'[j].uid || groups'[i].secret != groups'[j].secret
  {
    hide RowsOf;
  }

  lemma {:induction false} GroupedNext(groups: seq<Group>, rows: seq<Row>, r: Row, q: Row)
    requires GroupsAre(groups, rows) && r.secret.Some? && q in rows + [r] && q.secret.Some?
    ensures var groups' := Grouped(groups, r);
            exists i :: 0 <= i < |groups'| && groups'[i].uid == q.uid && groups'[i].secret == q.secret.value
  {
    hide RowsOf;
    var k := FindGroup(groups, r.uid, r.secret.value);
    var groups' := Grouped(groups, r);
    if q in rows {
      var i :| 0 <= i < |groups| && groups[i].uid == q.uid && groups[i].secret == q.secret.value;
      assert groups'[i].uid == q.uid && groups'[i].secret == q.secret.value;
    } else {
      assert groups'[k].uid == q.uid && groups'[k].secret == q.secret.value;
    }
  }

  lemma {:induction false} GroupNext(groups: seq<Group>, rows: seq<Row>, r: Row)
    requires GroupsAre(groups, rows) && r.secret.Some?
    ensures GroupsAre(Grouped(groups, r), rows + [r])
  {
    var groups' := Grouped(groups, r);
    hide Grouped, RowsOf;
    GroupsDifferNext(groups, rows, r);
    forall i | 0 <= i < |groups'|
      ensures groups'[i].rows == RowsOf(rows + [r], groups'[i].uid, groups'[i].secret) && groups'[i].rows != []
    {
      GroupRowsNext(groups, rows, r, i);
    }
    forall q | q in rows + [r] && q.secret.Some?
      ensures exists i :: 0 <= i < |groups'| && groups'[i].uid == q.uid && groups'[i].secret == q.secret.value
    {
      GroupedNext(groups, rows, r, q);
    }
  }

  lemma {:induction false} GroupAllIs(rows: seq<Row>)
    requires AllEligible(rows)
    ensures GroupsAre(GroupAll(rows), rows)
  {
    hide GroupsAre, Grouped;
    if rows == [] {
      NothingToGroup();
    } else {
      var n := |rows| - 1;
      GroupAllIs(rows[..n]);
      GroupNext(GroupAll(rows[..n]), rows[..n], rows[n]);
      assert rows[..n] + [rows[n]] == rows;
    }
  }

  lemma {:induction false} NothingToGroup()
    ensures GroupsAre([], [])
  {
  }

  /** Every item was made for a group. */
  ghost predicate ItemsAreOf(items: seq<Item>, digest: string -> string, groups: seq<Group>) {
    forall k :: 0 <= k < |items| ==> IsItemOfSome(items[k], digest, groups)
  }

  ghost predicate IsItemOfSome(m: Item, digest: string -> string, groups: seq<Group>) {
    exists i :: 0 <= i < |groups| && IsItemOf(m, digest, groups[i])
  }

  predicate IsItemOf(m: Item, digest: string -> string, g: Group) {
    m == Item(g.uid, LegacyItemId(digest, g.uid, g.secret), Institution(g.rows), g.secret)
  }

  lemma {:induction false} ItemsFromGroups(digest: string -> string, groups: seq<Group>)
    ensures ItemsAreOf(WithGroups(Tables([], []), digest, groups).items, digest, groups)
  {
    hide IsItemOf, WithMappings, LegacyItemId, Institution;
    if groups == [] {
    } else {
      var n := |groups| - 1;
      ItemsFromGroups(digest, groups[..n]);
      var before := WithGroups(Tables([], []), digest, groups[..n]);
      var now := WithGroup(before, digest, groups[n]);
      NewItemIs(before, digest, groups[n]);
      forall k | 0 <= k < |now.items|
        ensures IsItemOfSome(now.items[k], digest, groups)
      {
        if k < |before.items| {
          var i :| 0 <= i < n && IsItemOf(before.items[k], digest, groups[..n][i]);
          assert groups[..n][i] == groups[i];
        } else {
          assert IsItemOf(now.items[k], digest, groups[n]);
        }
      }
    }
  }

  lemma {:induction false} NewItemIs(t: Tables, digest: string -> string, g: Group)
    ensures var now := WithGroup(t, digest, g).items;
            && |t.items| <= |now| <= |t.items| + 1
            && (forall k :: 0 <= k < |t.items| ==> now[k] == t.items[k])
            && (|t.items| < |now| ==> IsItemOf(now[|t.items|], digest, g))
  {
    hide LegacyItemId, Institution;
  }

  predicate HasProvider(r: Row) {
    r.provider.Some? && r.provider.value != ""
  }

  /** The provider of the first row that names one. */
  ghost predicate IsInstitution(rows: seq<Row>, p: Option<string>) {
    if exists i :: 0 <= i < |rows| && HasProvider(rows[i])
    then exists i :: 0 <= i < |rows| && HasProvider(rows[i]) && rows[i].provider == p
                     && forall j :: 0 <= j < i ==> !HasProvider(rows[j])
    else p == None
  }

  lemma {:induction false} InstitutionIs(rows: seq<Row>)
    ensures IsInstitution(rows, Institution(rows))
  {
    if rows == [] {
    } else if HasProvider(rows[0]) {
    } else {
      InstitutionIs(rows[1..]);
      InstitutionNext(rows, Institution(rows[1..]));
    }
  }

  lemma {:induction false} InstitutionNext(rows: seq<Row>, p: Option<string>)
    requires rows != [] && !HasProvider(rows[0]) && IsInstitution(rows[1..], p)
    ensures IsInstitution(rows, p)
  {
    hide HasProvider;
    var rest := rows[1..];
    assert forall i :: 0 <= i < |rest| ==> rest[i] == rows[i + 1];
    if exists i :: 0 <= i < |rest| && HasProvider(rest[i]) {
      var i :| 0 <= i < |rest| && HasProvider(rest[i]) && rest[i].provider == p
               && forall j :: 0 <= j < i ==> !HasProvider(rest[j]);
      assert HasProvider(rows[i + 1]);
    } else {
      assert forall i :: 1 <= i < |rows| ==> rows[i] == rest[i - 1];
    }
  }

  /** The rows of one user and token among those the migration is for, in the order of the query. */
  function TokenRows(rows: seq<Row>, uid: string, secret: string): seq<Row> {
    if rows == [] then []
    else
      var r := rows[|rows| - 1];
      TokenRows(rows[..|rows| - 1], uid, secret)
      + if HasToken(r) && r.uid == uid && r.secret == Some(secret) then [r] else []
  }

  lemma {:induction false} TokenRowsAre(rows: seq<Row>, uid: string, secret: string)
    ensures RowsOf(Wanted(rows), uid, secret) == TokenRows(rows, uid, secret)
  {
    if rows == [] {
    } else {
      var n := |rows| - 1;
      TokenRowsAre(rows[..n], uid, secret);
      EligibleIs(rows[n]);
      RowsOfNext(Wanted(rows[..n]), rows[n], uid, secret);
      hide RowsOf, HasToken;
    }
  }

  lemma {:induction false} InRowsOf(rows: seq<Row>, uid: string, secret: string, r: Row)
    requires r in RowsOf(rows, uid, secret)
    ensures r in rows && r.uid == uid && r.secret == Some(secret)
  {
    var n := |rows| - 1;
    assert rows == rows[..n] + [rows[n]];
    if r in RowsOf(rows[..n], uid, secret) {
      InRowsOf(rows[..n], uid, secret, r);
    }
  }

  lemma {:induction false} GroupHasRow(groups: seq<Group>, rows: seq<Row>, i: nat) returns (q: Row)
    requires GroupsAre(groups, Wanted(rows)) && i < |groups|
    ensures q in rows && Eligible(q) && q.uid == groups[i].uid && q.secret == Some(groups[i].secret)
  {
    q := groups[i].rows[0];
    assert q in groups[i].rows;
    InRowsOf(Wanted(rows), groups[i].uid, groups[i].secret, q);
  }

  /** From empty tables an account is mapped exactly when it is a bank or investment account with a token; and,
      with user ids that hold no colon, the mapping is the user's own and leads to an item of that user, that
      token and the first named institution among his rows with it. */
  lemma {:induction false} BackfilledAccount(digest: string -> string, rows: seq<Row>, a: nat)
    requires Injective(digest) && PlainUsers(rows)
    ensures var t := Backfilled(Tables([], []), digest, rows);
            && (IsMapped(t, a) <==> exists r :: r in rows && r.id == a && HasToken(r))
            && forall k :: 0 <= k < |t.mappings| ==> MappedRight(t, digest, rows, t.mappings[k])
  {
    hide *;
    var t, groups := Backfilled(Tables([], []), digest, rows), GroupAll(Wanted(rows));
    EmptyIsSound(digest, rows);
    EveryEligibleIsMappedOnce(Tables([], []), digest, rows);
    AllWanted(rows);
    GroupAllIs(Wanted(rows));
    ItemsFromGroups(digest, groups);
    BackfilledItems(digest, rows);
    MappedIff(t, digest, rows, a);
    forall k | 0 <= k < |t.mappings|
      ensures MappedRight(t, digest, rows, t.mappings[k])
    {
      MappingIsRight(t, digest, rows, groups, k);
    }
  }

  lemma {:induction false} AllWanted(rows: seq<Row>)
    ensures AllEligible(Wanted(rows))
  {
  }

  lemma {:induction false} BackfilledItems(digest: string -> string, rows: seq<Row>)
    ensures AllEligible(Wanted(rows))
    ensures Backfilled(Tables([], []), digest, rows) == WithGroups(Tables([], []), digest, GroupAll(Wanted(rows)))
  {
    hide WithGroups, GroupAll;
  }

  lemma {:induction false} MappedIff(t: Tables, digest: string -> string, rows: seq<Row>, a: nat)
    requires Sound(t, digest, rows) && forall r :: r in rows && Eligible(r) ==> Known(t, digest, r)
    ensures IsMapped(t, a) <==> exists r :: r in rows && r.id == a && HasToken(r)
  {
    hide LegacyItemId, DistinctItems, OnePerAccount, HasItem;
    if IsMapped(t, a) {
      var k :| 0 <= k < |t.mappings| && t.mappings[k].account == a;
      assert Explained(t, digest, rows, t.mappings[k]);
    }
    if r :| r in rows && r.id == a && HasToken(r) {
      EligibleIs(r);
      assert Known(t, digest, r);
    }
  }

  lemma {:induction false} SoundAt(t: Tables, digest: string -> string, rows: seq<Row>, k: nat)
    requires Sound(t, digest, rows) && k < |t.mappings|
    ensures Explained(t, digest, rows, t.mappings[k])
  {
    hide Explained, DistinctItems, OnePerAccount;
  }

  /** The mapping is of an account with a token, its user's, and leads to the item of that user and token. */
  ghost predicate MappedRight(t: Tables, digest: string -> string, rows: seq<Row>, m: Mapping) {
    && m.item < |t.items|
    && exists r :: r in rows && HasToken(r) && r.id == m.account && r.uid == m.uid
                   && RightItem(t.items[m.item], digest, rows, r)
  }

  ghost predicate RightItem(m: Item, digest: string -> string, rows: seq<Row>, r: Row)
    requires r.secret.Some?
  {
    && m.uid == r.uid && m.secret == r.secret.value
    && m.itemId == "legacy-" + digest(r.uid + ":" + r.secret.value)
    && IsInstitution(TokenRows(rows, r.uid, r.secret.value), m.institution)
  }

  lemma {:induction false} MappingIsRight(
      t: Tables, digest: string -> string, rows: seq<Row>, groups: seq<Group>, k: nat)
    requires Injective(digest) && PlainUsers(rows) && Sound(t, digest, rows) && k < |t.mappings|
    requires GroupsAre(groups, Wanted(rows)) && ItemsAreOf(t.items, digest, groups)
    ensures MappedRight(t, digest, rows, t.mappings[k])
  {
    SoundAt(t, digest, rows, k);
    var m := t.mappings[k];
    var r :| r in rows && Eligible(r) && r.id == m.account && r.uid == m.uid
             && t.items[m.item].itemId == LegacyItemId(digest, r.uid, r.secret.value);
    EligibleIs(r);
    hide Sound, GroupsAre, Wanted, RowsOf, Institution, IsInstitution, Injective, TokenRows, Eligible;
    assert IsItemOfSome(t.items[m.item], digest, groups);
    var i :| 0 <= i < |groups| && IsItemOf(t.items[m.item], digest, groups[i]);
    ItemOfGroup(t.items[m.item], digest, rows, groups, i, r);
  }

  lemma {:induction false} ItemOfGroup(
      m: Item, digest: string -> string, rows: seq<Row>, groups: seq<Group>, i: nat, r: Row)
    requires Injective(digest) && PlainUsers(rows) && GroupsAre(groups, Wanted(rows)) && i < |groups|
    requires IsItemOf(m, digest, groups[i]) && r in rows && r.secret.Some?
    requires m.itemId == LegacyItemId(digest, r.uid, r.secret.value)
    ensures RightItem(m, digest, rows, r)
  {
    var g := groups[i];
    var q := GroupHasRow(groups, rows, i);
    SameName(digest, rows, r, q);
    assert g.rows == RowsOf(Wanted(rows), g.uid, g.secret);
    TokenRowsAre(rows, g.uid, g.secret);
    InstitutionIs(g.rows);
    hide GroupsAre, Wanted, RowsOf, Institution, IsInstitution, Injective, TokenRows;
  }

  lemma {:induction false} SameName(digest: string -> string, rows: seq<Row>, r: Row, q: Row)
    requires Injective(digest) && PlainUsers(rows) && r in rows && q in rows && r.secret.Some? && q.secret.Some?
    requires LegacyItemId(digest, r.uid, r.secret.value) == LegacyItemId(digest, q.uid, q.secret.value)
    ensures r.uid == q.uid && r.secret == q.secret
  {
    var a, b := digest(LegacyName(r.uid, r.secret.value)), digest(LegacyName(q.uid, q.secret.value));
    assert ("legacy-" + a)[7..] == a && ("legacy-" + b)[7..] == b;
    NamesAreDistinct(r.uid, r.secret.value, q.uid, q.secret.value);
  }
}
