/** What an exchange makes of the accounts that were fetched and the ids that were chosen, told from the
    tables before it.
  */
module PlaidChoice {
  import opened Text
  import opened PlaidLinks
  import opened PlaidProofs
  import opened PlaidLimit
  import opened PlaidSelection
  import opened PlaidTwins
  import opened PlaidConnect

  // ----- The choice -----

  /** Without a choice everything fetched is wanted. */
  predicate Wanted(e: Exchange, x: Fetched) {
    e.selectedIds == {} || x.pid in e.selectedIds
  }

  /** `at` lists, in order, the places of the wanted accounts among the fetched ones, and xs holds them. */
  ghost predicate IsChoice(e: Exchange, xs: seq<Fetched>, at: seq<nat>) {
    && |at| == |xs|
    && (forall i, j :: 0 <= i < j < |at| ==> at[i] < at[j])
    && (forall i :: 0 <= i < |at| ==> at[i] < |e.fetched| && xs[i] == e.fetched[at[i]])
    && (forall k :: 0 <= k < |e.fetched| ==> (k in at <==> Wanted(e, e.fetched[k])))
  }

  /** The selection is exactly the wanted accounts, each as often and in the order it was fetched. */
  lemma {:induction false} SelectionIsChoice(e: Exchange) returns (at: seq<nat>)
    ensures IsChoice(e, Selected(e), at)
  {
    if e.selectedIds == {} {
      at := seq(|e.fetched|, i => i);
      assert forall k :: 0 <= k < |e.fetched| ==> at[k] == k;
    } else {
      at := ChosenPlaces(e.fetched, e.selectedIds);
    }
  }

  lemma {:induction false} ChosenPlaces(fetched: seq<Fetched>, ids: set<string>) returns (at: seq<nat>)
    ensures ArePlaces(fetched, ids, Chosen(fetched, ids), at)
  {
    if fetched == [] {
      at := [];
    } else {
      var n := |fetched| - 1;
      at := ChosenPlaces(fetched[..n], ids);
      ArePlacesOfPrefix(fetched, n, ids, Chosen(fetched[..n], ids), at);
      if fetched[n].pid in ids {
        at := at + [n];
      }
    }
  }

  ghost predicate ArePlaces(fetched: seq<Fetched>, ids: set<string>, xs: seq<Fetched>, at: seq<nat>) {
    && |at| == |xs|
    && (forall i, j :: 0 <= i < j < |at| ==> at[i] < at[j])
    && (forall i :: 0 <= i < |at| ==> at[i] < |fetched| && xs[i] == fetched[at[i]])
    && (forall k :: 0 <= k < |fetched| ==> (k in at <==> fetched[k].pid in ids))
  }

  lemma {:induction false} ArePlacesOfPrefix(
      fetched: seq<Fetched>, n: nat, ids: set<string>, xs: seq<Fetched>, at: seq<nat>)
    requires n + 1 == |fetched| && ArePlaces(fetched[..n], ids, xs, at)
    ensures n !in at
    ensures fetched[n].pid !in ids ==> ArePlaces(fetched, ids, xs, at)
    ensures fetched[n].pid in ids ==> ArePlaces(fetched, ids, xs + [fetched[n]], at + [n])
  {
    assert forall k :: 0 <= k < n ==> fetched[..n][k] == fetched[k];
    assert n in at + [n];
  }

  /** In particular a fetched account is in the selection exactly when it is wanted. */
  lemma {:induction false} SelectedIffWanted(e: Exchange, x: Fetched)
    ensures x in Selected(e) <==> x in e.fetched && Wanted(e, x)
  {
    var xs := Selected(e);
    var at := SelectionIsChoice(e);
    hide Selected;
    if x in xs {
      var i :| 0 <= i < |xs| && xs[i] == x;
      assert at[i] in at;
    }
    if x in e.fetched && Wanted(e, x) {
      var k :| 0 <= k < |e.fetched| && e.fetched[k] == x;
      var i :| 0 <= i < |at| && at[i] == k;
      assert xs[i] == x;
    }
  }

  // ----- Where a selected account is stored -----

  /** A mapping of the user carries the id and leads to this account of his. */
  ghost predicate MapsTo(t: Tables, uid: string, pid: string, a: nat) {
    && a < |t.accounts| && t.accounts[a].Some? && t.accounts[a].value.uid == uid
    && exists k :: 0 <= k < |t.links| && t.links[k].Some? && t.links[k].value.uid == uid
                   && t.links[k].value.pid == Some(pid) && t.links[k].value.account == a
  }

  /** The user's account at the institution has the mask and the type of the fetched one. */
  predicate LooksLike(a: Option<Account>, e: Exchange, x: Fetched) {
    && a.Some? && a.value.uid == e.uid && a.value.provider == e.institution && a.value.mask == x.mask
    && a.value.kind == (if x.investment then Investment else Traditional)
  }

  /** The account reads as the institution reported it. */
  predicate ReportedAs(a: Option<Account>, e: Exchange, x: Fetched) {
    a == Some(Account(e.uid, if x.investment then Investment else Traditional, e.institution, x.mask, x.balance,
                      Some(e.secret)))
  }

  /** Where the fetched account belongs: its mapped account, else the first that looks like it, else a new
      one. */
  ghost predicate BelongsTo(t: Tables, e: Exchange, x: Fetched, a: nat) {
    if exists b: nat :: MapsTo(t, e.uid, x.pid, b) then MapsTo(t, e.uid, x.pid, a)
    else if exists b :: 0 <= b < |t.accounts| && LooksLike(t.accounts[b], e, x)
    then a < |t.accounts| && LooksLike(t.accounts[a], e, x)
         && forall b :: 0 <= b < a ==> !LooksLike(t.accounts[b], e, x)
    else a >= |t.accounts|
  }

  lemma {:induction false} KnownMaps(t: Tables, e: Exchange, x: Fetched)
    ensures KnownId(t, e, x) <==> exists b: nat :: MapsTo(t, e.uid, x.pid, b)
    ensures KnownId(t, e, x) ==> MapsTo(t, e.uid, x.pid, KnownAccount(t, e, x))
  {
    hide First;
    if KnownId(t, e, x) {
      var k := FindLink(t, e.uid, x.pid);
      assert IsLinkOf(t, t.links[k], e.uid, x.pid);
      assert MapsTo(t, e.uid, x.pid, t.links[k].value.account);
    }
    if b: nat :| MapsTo(t, e.uid, x.pid, b) {
      var k :| 0 <= k < |t.links| && t.links[k].Some? && t.links[k].value.uid == e.uid
               && t.links[k].value.pid == Some(x.pid) && t.links[k].value.account == b;
      assert IsLinkOf(t, t.links[k], e.uid, x.pid);
    }
  }

  lemma {:induction false} DescribedIs(t: Tables, e: Exchange, x: Fetched)
    ensures var d := Described(t, e, x);
            && d <= |t.accounts| && (d < |t.accounts| ==> LooksLike(t.accounts[d], e, x))
            && forall b :: 0 <= b < d ==> !LooksLike(t.accounts[b], e, x)
  {
    hide First;
    assert forall b :: 0 <= b < |t.accounts| ==>
             (SameBankAccount(t.accounts[b], e.uid, e.institution, x) <==> LooksLike(t.accounts[b], e, x));
  }

  lemma {:induction false} SeparateBelongs(t: Tables, e: Exchange, xs: seq<Fetched>, acc: seq<nat>, n: nat)
    requires Good(t) && Identified(xs) && |acc| == |xs| && Fits(t, e, xs, acc) && Separate(t, e, xs) && n < |xs|
    ensures BelongsTo(t, e, xs[n], acc[n])
  {
    KnownMaps(t, e, xs[n]);
    DescribedIs(t, e, xs[n]);
    assert FitsAt(t, e, xs, acc, n);
    hide Good, Identified, Fits, Described, KnownId, MapsTo, LooksLike, Outranked, OwnLook, Mapped;
    SeparateDiffers(t, e, xs, acc);
    if KnownId(t, e, xs[n]) {
      NotBefore(acc, n);
    } else {
      AloneAt(t, e, xs, n);
    }
  }

  lemma {:induction false} NotBefore(acc: seq<nat>, n: nat)
    requires AllDiffer(acc) && n < |acc|
    ensures acc[n] !in acc[..n]
  {
  }

  // ----- The item -----

  lemma {:induction false} LinkOneKeepsItems(p: Pass, e: Exchange, item: nat, x: Fetched)
    requires p.Pass? && LinkOne(p, e, item, x).Pass?
    ensures LinkOne(p, e, item, x).mem.items == p.mem.items
  {
    hide Consistent, Resolve, Refreshed, FindLinkOfAccount;
  }

  lemma {:induction false} LinkAllKeepsItems(p: Pass, e: Exchange, item: nat, xs: seq<Fetched>)
    requires p.Pass? && LinkAll(p, e, item, xs).Pass?
    ensures LinkAll(p, e, item, xs).mem.items == p.mem.items
  {
    hide LinkOne;
    if xs == [] {
    } else {
      var before := LinkAll(p, e, item, xs[..|xs| - 1]);
      BrokenStays(before, e, item, xs[|xs| - 1]);
      LinkAllKeepsItems(p, e, item, xs[..|xs| - 1]);
      LinkOneKeepsItems(before, e, item, xs[|xs| - 1]);
    }
  }

  lemma {:induction false} BrokenStays(p: Pass, e: Exchange, item: nat, x: Fetched)
    ensures p.Broken? ==> LinkOne(p, e, item, x).Broken?
  {
    hide UpsertAccount, UpsertLink;
  }

  /** The item is the user's, live, with the new access token; every other item is as it was. */
  ghost predicate ItemIsLive(t: Tables, t': Tables, e: Exchange, i: nat) {
    && i < |t'.items|
    && t'.items[i] == Item(e.uid, e.itemId, e.institution, Some(e.secret), true, false)
    && (if i < |t.items| then t.items[i].itemId == e.itemId && |t'.items| == |t.items| else |t'.items| == |t.items| + 1)
    && (forall k :: 0 <= k < |t.items| && k != i ==>
          t'.items[k] == t.items[k] && (i == |t.items| ==> t.items[k].itemId != e.itemId))
  }

  lemma {:induction false} ItemAfter(t: Tables, e: Exchange)
    requires ExchangeStep(t, e).1 == Ok
    ensures ItemIsLive(t, ExchangeStep(t, e).0, e, FindItem(t, e.itemId))
  {
    ExchangeOkMeans(t, e);
    var i := FindItem(t, e.itemId);
    var start := UpsertItem(t, e);
    hide ExchangeStep, LinkAll, Consistent, Linked, CountNew, Selected, First;
    BrokenFromStart(start, e, i, Selected(e));
    LinkAllKeepsItems(start, e, i, Selected(e));
  }

  lemma {:induction false} BrokenFromStart(p: Pass, e: Exchange, item: nat, xs: seq<Fetched>)
    ensures p.Broken? ==> LinkAll(p, e, item, xs).Broken?
  {
    hide LinkOne;
    if xs == [] {
    } else {
      BrokenFromStart(p, e, item, xs[..|xs| - 1]);
      BrokenStays(LinkAll(p, e, item, xs[..|xs| - 1]), e, item, xs[|xs| - 1]);
    }
  }

  // ----- What a successful exchange leaves -----

  /** The x at this place is stored as reported in account a and mapped there, under its id, to the item. */
  ghost predicate ConnectedAs(t: Tables, e: Exchange, i: nat, x: Fetched, a: nat) {
    && a < |t.accounts| && ReportedAs(t.accounts[a], e, x)
    && exists k :: 0 <= k < |t.links| && t.links[k] == Some(Link(e.uid, i, a, Some(x.pid), true))
  }

  /** After a successful exchange of accounts that do not fall on one another: every wanted account is
      connected where it belongs, to the live item, no two in one place, and all other accounts and
      mappings are as they were. */
  lemma {:induction false} WantedAreConnected(t: Tables, e: Exchange) returns (at: seq<nat>, acc: seq<nat>)
    requires Good(t) && Identified(Selected(e)) && SameDescriptions(t, e.uid, Selected(e))
    requires ExchangeStep(t, e).1 == Ok && Separate(t, e, Selected(e))
    ensures IsChoice(e, Selected(e), at) && |acc| == |at| && AllDiffer(acc)
    ensures var t', i := ExchangeStep(t, e).0, FindItem(t, e.itemId);
            && ItemIsLive(t, t', e, i)
            && (forall n :: 0 <= n < |at| ==>
                  && BelongsTo(t, e, e.fetched[at[n]], acc[n])
                  && ConnectedAs(t', e, i, e.fetched[at[n]], acc[n]))
            && OthersStay(t, t', acc)
  {
    at := SelectionIsChoice(e);
    var xs, i, t' := Selected(e), FindItem(t, e.itemId), ExchangeStep(t, e).0;
    hide *;
    ItemAfter(t, e);
    acc := ExchangeWrote(t, e);
    SeparateDiffers(t, e, xs, acc);
    ChoiceLength(e, xs, at);
    forall n | 0 <= n < |at|
      ensures at[n] < |e.fetched|
      ensures BelongsTo(t, e, e.fetched[at[n]], acc[n]) && ConnectedAs(t', e, i, e.fetched[at[n]], acc[n])
    {
      ChoiceAt(e, xs, at, n);
      SeparateBelongs(t, e, xs, acc, n);
      LastIsOnly(acc, n);
      PlacedAt(t, t', e, i, xs, acc, n);
      PlacedIsConnected(t', e, i, xs[n], acc[n]);
    }
    RestStays(t, t', e, i, xs, acc);
  }

  lemma {:induction false} ChoiceLength(e: Exchange, xs: seq<Fetched>, at: seq<nat>)
    requires IsChoice(e, xs, at)
    ensures |at| == |xs|
  {
  }

  lemma {:induction false} ChoiceAt(e: Exchange, xs: seq<Fetched>, at: seq<nat>, n: nat)
    requires IsChoice(e, xs, at) && n < |at|
    ensures |at| == |xs| && at[n] < |e.fetched| && xs[n] == e.fetched[at[n]] && Wanted(e, e.fetched[at[n]])
  {
    hide Wanted;
    assert at[n] in at;
  }

  lemma {:induction false} PlacedIsConnected(t: Tables, e: Exchange, i: nat, x: Fetched, a: nat)
    requires Placed(t, e, i, x, a)
    ensures ConnectedAs(t, e, i, x, a)
  {
    var k :| 0 <= k < |t.links| && LinkPlaced(t.links[k], e, i, x, a);
    assert t.links[k] == Some(Link(e.uid, i, a, Some(x.pid), true));
  }

  /** Accounts that were not written are as they were, and so are their mappings. */
  ghost predicate OthersStay(t: Tables, t': Tables, acc: seq<nat>) {
    && |t.accounts| <= |t'.accounts| && |t.links| <= |t'.links|
    && (forall a :: 0 <= a < |t'.accounts| && a !in acc ==> a < |t.accounts| && t'.accounts[a] == t.accounts[a])
    && (forall k :: 0 <= k < |t'.links| && t'.links[k].Some? && t'.links[k].value.account !in acc ==>
          k < |t.links| && t'.links[k] == t.links[k])
    && (forall k :: 0 <= k < |t'.links| && t'.links[k].None? && k < |t.links| ==> t.links[k].None?)
  }

  lemma {:induction false} RestStays(
      t: Tables, t': Tables, e: Exchange, i: nat, xs: seq<Fetched>, acc: seq<nat>)
    requires |acc| == |xs| && AccountsAfter(t, t'.accounts, e, xs, acc) && LinksAfter(t, t'.links, e, i, xs, acc)
    ensures OthersStay(t, t', acc)
  {
    hide Last, LinkPlaced, AccountPlaced, OnePerAccount, Mapped;
    forall a | 0 <= a < |t'.accounts| && a !in acc
      ensures a < |t.accounts| && t'.accounts[a] == t.accounts[a]
    {
      assert AccountAfter(t, t'.accounts[a], a, e, xs, acc);
    }
    forall k | 0 <= k < |t'.links|
      ensures t'.links[k].Some? && t'.links[k].value.account !in acc ==> k < |t.links| && t'.links[k] == t.links[k]
      ensures t'.links[k].None? && k < |t.links| ==> t.links[k].None?
    {
      assert LinkAfter(t, t'.links[k], k, e, i, xs, acc);
    }
  }

  /** The id of a wanted account. */
  ghost predicate IsWantedId(e: Exchange, pid: Option<string>) {
    exists n :: 0 <= n < |e.fetched| && Wanted(e, e.fetched[n]) && pid == Some(e.fetched[n].pid)
  }

  /** No mapping comes to carry an id that was fetched and not chosen, nor one that was not fetched: an id
      that a mapping carries afterwards is a wanted one, or was carried before. */
  lemma {:induction false} OnlyWantedAreConnected(t: Tables, e: Exchange, k: nat)
    requires Good(t) && Identified(Selected(e)) && SameDescriptions(t, e.uid, Selected(e))
    requires ExchangeStep(t, e).1 == Ok
    requires k < |ExchangeStep(t, e).0.links| && ExchangeStep(t, e).0.links[k].Some?
    ensures var l := ExchangeStep(t, e).0.links[k].value;
            || (k < |t.links| && t.links[k] == Some(l))
            || (l.uid == e.uid && IsWantedId(e, l.pid))
  {
    var at := SelectionIsChoice(e);
    var xs, i, t' := Selected(e), FindItem(t, e.itemId), ExchangeStep(t, e).0;
    var l := t'.links[k].value;
    hide *;
    var acc := ExchangeWrote(t, e);
    WrittenLink(t, t', e, i, xs, acc, k);
    if l.account in acc {
      var n := LastOf(acc, l.account);
      ChoiceLength(e, xs, at);
      ChoiceAt(e, xs, at, n);
      WantedId(e, at[n]);
    }
  }

  lemma {:induction false} WantedId(e: Exchange, n: nat)
    requires n < |e.fetched| && Wanted(e, e.fetched[n])
    ensures IsWantedId(e, Some(e.fetched[n].pid))
  {
  }

  lemma {:induction false} LastOf(acc: seq<nat>, a: nat) returns (n: nat)
    requires a in acc
    ensures n < |acc| && n == Last(acc, a)
  {
    n := Last(acc, a);
  }

  lemma {:induction false} WrittenLink(
      t: Tables, t': Tables, e: Exchange, i: nat, xs: seq<Fetched>, acc: seq<nat>, k: nat)
    requires |acc| == |xs| && LinksAfter(t, t'.links, e, i, xs, acc) && k < |t'.links| && t'.links[k].Some?
    ensures var l := t'.links[k].value;
            if l.account in acc then l.uid == e.uid && Last(acc, l.account) < |xs|
                && l.pid == Some(xs[Last(acc, l.account)].pid)
            else k < |t.links| && t.links[k] == Some(l)
  {
    hide Last, OnePerAccount, Mapped;
    assert LinkAfter(t, t'.links[k], k, e, i, xs, acc);
  }

  // ----- What the limit counts -----

  /** An active mapping of the user through a live item. */
  predicate IsConnected(t: Tables, uid: string, k: nat) {
    && k < |t.links| && t.links[k].Some? && t.links[k].value.active
    && t.links[k].value.account < |t.accounts| && t.accounts[t.links[k].value.account].Some?
    && t.accounts[t.links[k].value.account].value.uid == uid
    && t.links[k].value.item < |t.items| && t.items[t.links[k].value.item].active
    && !t.items[t.links[k].value.item].removed
  }

  lemma {:induction false} CountIsSize(t: Tables, uid: string, n: nat)
    requires n <= |t.links|
    ensures CountLinked(t, t.links[..n], uid) == |set k: nat | k < n && IsConnected(t, uid, k)|
  {
    if n == 0 {
      assert (set k: nat | k < 0 && IsConnected(t, uid, k)) == {};
    } else {
      CountIsSize(t, uid, n - 1);
      OneMore(t, uid, n);
      OneMoreConnected(t, uid, n);
    }
  }

  lemma {:induction false} OneMoreConnected(t: Tables, uid: string, n: nat)
    requires n > 0
    ensures |set k: nat | k < n && IsConnected(t, uid, k)|
            == |set k: nat | k < n - 1 && IsConnected(t, uid, k)| + if IsConnected(t, uid, n - 1) then 1 else 0
  {
    hide IsConnected;
    var before := set k: nat | k < n - 1 && IsConnected(t, uid, k);
    var now := set k: nat | k < n && IsConnected(t, uid, k);
    if IsConnected(t, uid, n - 1) {
      assert now == before + {n - 1};
    } else {
      assert now == before;
    }
  }

  lemma {:induction false} OneMore(t: Tables, uid: string, n: nat)
    requires 0 < n <= |t.links|
    ensures CountLinked(t, t.links[..n], uid)
            == CountLinked(t, t.links[..n - 1], uid) + if IsConnected(t, uid, n - 1) then 1 else 0
  {
    assert t.links[..n][..n - 1] == t.links[..n - 1];
  }

  /** An account to add: no active mapping carries its id and no account of the user looks like it. */
  ghost predicate ToAdd(t: Tables, e: Exchange, x: Fetched) {
    && (forall k :: 0 <= k < |t.links| ==> !ActivelyMaps(t, e.uid, x.pid, k))
    && (forall a :: 0 <= a < |t.accounts| ==> !LooksLike(t.accounts[a], e, x))
  }

  predicate ActivelyMaps(t: Tables, uid: string, pid: string, k: nat) {
    && k < |t.links| && t.links[k].Some? && t.links[k].value.active
    && t.links[k].value.uid == uid && t.links[k].value.pid == Some(pid)
    && t.links[k].value.account < |t.accounts| && t.accounts[t.links[k].value.account].Some?
    && t.accounts[t.links[k].value.account].value.uid == uid
  }

  lemma {:induction false} NewIsToAdd(t: Tables, e: Exchange, x: Fetched)
    ensures IsNew(t, e, x) <==> ToAdd(t, e, x)
  {
    hide First;
    DescribedIs(t, e, x);
    assert forall k :: 0 <= k < |t.links| ==>
             (IsLinkOf(t, t.links[k], e.uid, x.pid) && t.links[k].value.active <==> ActivelyMaps(t, e.uid, x.pid, k));
  }

  ghost predicate ToAddAt(t: Tables, e: Exchange, xs: seq<Fetched>, n: nat) {
    n < |xs| && ToAdd(t, e, xs[n])
  }

  lemma {:induction false} NewIsSize(t: Tables, e: Exchange, xs: seq<Fetched>)
    ensures CountNew(t, e, xs) == |set n: nat | n < |xs| && ToAddAt(t, e, xs, n)|
  {
    hide IsNew, ToAdd;
    if xs == [] {
      assert (set n: nat | n < |xs| && ToAddAt(t, e, xs, n)) == {};
    } else {
      var m := |xs| - 1;
      var init := xs[..m];
      NewIsSize(t, e, init);
      NewIsToAdd(t, e, xs[m]);
      var before := set n: nat | n < |init| && ToAddAt(t, e, init, n);
      var now := set n: nat | n < |xs| && ToAddAt(t, e, xs, n);
      assert forall n: nat :: n < m ==> (ToAddAt(t, e, init, n) <==> ToAddAt(t, e, xs, n));
      assert ToAddAt(t, e, xs, m) <==> ToAdd(t, e, xs[m]);
      hide ToAddAt;
      if ToAddAt(t, e, xs, m) {
        assert now == before + {m};
      } else {
        assert now == before;
      }
    }
  }

  /** The first pass refuses exactly when the mappings that count and the selected accounts to add are
      together more than the limit. */
  lemma {:induction false} LimitCounts(t: Tables, e: Exchange)
    ensures Linked(t, e.uid) == |set k: nat | k < |t.links| && IsConnected(t, e.uid, k)|
    ensures CountNew(t, e, Selected(e)) == |set n: nat | n < |Selected(e)| && ToAddAt(t, e, Selected(e), n)|
  {
    hide IsConnected, ToAddAt, CountNew, CountLinked, Selected;
    CountIsSize(t, e.uid, |t.links|);
    assert t.links[..|t.links|] == t.links;
    NewIsSize(t, e, Selected(e));
  }

  /** An id was chosen that the institution did not return. */
  ghost predicate SomeMissing(e: Exchange) {
    exists id :: id in e.selectedIds && NotFetched(e, id)
  }

  predicate NotFetched(e: Exchange, id: string) {
    forall k :: 0 <= k < |e.fetched| ==> e.fetched[k].pid != id
  }

  /** Why an exchange is refused, in this order: an id that was chosen was not fetched, or nothing was; the
      limit; another user's item; a broken constraint. A refusal changes nothing. */
  lemma {:induction false} RefusedBecause(t: Tables, e: Exchange)
    ensures var (t', reply) := ExchangeStep(t, e);
            var missing := SomeMissing(e);
            var connected := |set k: nat | k < |t.links| && IsConnected(t, e.uid, k)|;
            var added := |set n: nat | n < |Selected(e)| && ToAddAt(t, e, Selected(e), n)|;
            var others := exists m :: 0 <= m < |t.items| && t.items[m].itemId == e.itemId && t.items[m].uid != e.uid
                            && forall k :: 0 <= k < m ==> t.items[k].itemId != e.itemId;
            && (reply != Ok ==> t' == t)
            && (reply == Fail(400) <==> missing || e.fetched == [])
            && (reply == Fail(403) <==> !(missing || e.fetched == []) && connected + added > e.limit)
            && (reply == Fail(409) <==> !(missing || e.fetched == []) && connected + added <= e.limit && others)
  {
    LimitCounts(t, e);
    MissingIs(e);
    NothingSelected(e);
    ForeignItem(t, e);
    hide Linked, CountNew, Selected, FindItem, AllReturned, IsConnected, ToAddAt, LinkAll, UpsertItem, Consistent;
  }

  lemma {:induction false} MissingIs(e: Exchange)
    ensures !AllReturned(e) <==> SomeMissing(e)
  {
  }

  lemma {:induction false} NothingSelected(e: Exchange)
    ensures AllReturned(e) ==> (Selected(e) == [] <==> e.fetched == [])
  {
    if AllReturned(e) && e.fetched != [] {
      if id :| id in e.selectedIds {
        var k :| 0 <= k < |e.fetched| && e.fetched[k].pid == id;
        assert e.fetched[k] in e.fetched;
        SelectedIffWanted(e, e.fetched[k]);
      }
    }
    hide Chosen;
    assert e.fetched == [] ==> Selected(e) == [] by {
      if e.fetched == [] {
        ChosenOfNone(e.selectedIds);
      }
    }
  }

  lemma {:induction false} ChosenOfNone(ids: set<string>)
    ensures Chosen([], ids) == []
  {
  }

  lemma {:induction false} ForeignItem(t: Tables, e: Exchange)
    ensures var i := FindItem(t, e.itemId);
            (i < |t.items| && t.items[i].uid != e.uid) <==>
              exists m :: 0 <= m < |t.items| && t.items[m].itemId == e.itemId && t.items[m].uid != e.uid
                && forall k :: 0 <= k < m ==> t.items[k].itemId != e.itemId
  {
    hide First;
  }
}
