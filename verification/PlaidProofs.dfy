/** What every run of exchanges and deletions keeps. */
module PlaidProofs {
  import opened Text
  import opened PlaidLinks

  // ----- The invariant -----

  predicate Live(m: Item, uid: string) {
    m.uid == uid && m.active && !m.removed && m.secret.Some?
  }

  /** A mapping joins a bank account and an item of one user, and the item is live. */
  predicate LinkOk(t: Tables, l: Option<Link>) {
    l.Some? ==>
      var k := l.value;
      && k.active && k.pid != Some("")
      && k.account < |t.accounts| && t.accounts[k.account].Some?
      && t.accounts[k.account].value.uid == k.uid && t.accounts[k.account].value.kind != Other
      && k.item < |t.items| && Live(t.items[k.item], k.uid)
  }

  ghost predicate LinksOk(t: Tables) {
    forall i :: 0 <= i < |t.links| ==> LinkOk(t, t.links[i])
  }

  ghost predicate OnePerAccount(links: seq<Option<Link>>) {
    forall i, j :: 0 <= i < j < |links| && links[i].Some? && links[j].Some?
        ==> links[i].value.account != links[j].value.account
  }

  ghost predicate Good(t: Tables) {
    LinksOk(t) && OnePerAccount(t.links) && Consistent(t)
  }

  // ----- The pass -----

  /** Session and database hold the same rows, up to what an update may change. */
  ghost predicate Aligned(seen: Tables, mem: Tables) {
    && |seen.accounts| <= |mem.accounts| && |seen.links| <= |mem.links|
    && (forall a :: 0 <= a < |seen.accounts| ==>
          && seen.accounts[a].Some? == mem.accounts[a].Some?
          && (seen.accounts[a].Some? ==> seen.accounts[a].value.uid == mem.accounts[a].value.uid))
    && (forall k :: 0 <= k < |seen.links| ==>
          && seen.links[k].Some? == mem.links[k].Some?
          && (seen.links[k].Some? ==> seen.links[k].value.account == mem.links[k].value.account))
  }

  /** Mappings not yet written are all of this item and of accounts that have none in the database. */
  ghost predicate PendingOk(seen: Tables, mem: Tables, item: nat)
    requires |seen.links| <= |mem.links|
  {
    forall k :: |seen.links| <= k < |mem.links| ==>
      && mem.links[k].Some? && mem.links[k].value.item == item
      && forall j :: 0 <= j < |seen.links| && seen.links[j].Some?
          ==> seen.links[j].value.account != mem.links[k].value.account
  }

  ghost predicate PassOk(p: Pass, e: Exchange, item: nat) {
    p.Pass? ==>
      && Aligned(p.seen, p.mem) && PendingOk(p.seen, p.mem, item)
      && OnePerAccount(p.seen.links) && LinksOk(p.mem)
      && item < |p.mem.items| && Live(p.mem.items[item], e.uid)
  }

  lemma {:induction false} FlushGivesOne(seen: Tables, mem: Tables, item: nat)
    requires Aligned(seen, mem) && PendingOk(seen, mem, item) && OnePerAccount(seen.links) && Consistent(mem)
    ensures OnePerAccount(mem.links)
  {
  }

  lemma {:induction false} FlushedOk(seen: Tables, mem: Tables, e: Exchange, item: nat)
    requires Aligned(seen, mem) && PendingOk(seen, mem, item) && OnePerAccount(seen.links) && LinksOk(mem)
    requires item < |mem.items| && Live(mem.items[item], e.uid)
    ensures PassOk(Flushed(mem), e, item)
  {
    hide LinkOk, Live, LinksOk;
    if Consistent(mem) {
      FlushGivesOne(seen, mem, item);
    }
  }

  lemma {:induction false} StartOk(t: Tables, e: Exchange)
    requires Good(t)
    requires var i := FindItem(t, e.itemId); i < |t.items| ==> t.items[i].uid == e.uid
    ensures PassOk(UpsertItem(t, e), e, FindItem(t, e.itemId))
  {
    hide First, OnePerAccount, Consistent;
    var i := FindItem(t, e.itemId);
    var item := Item(e.uid, e.itemId, e.institution, Some(e.secret), true, false);
    var mem := t.(items := if i == |t.items| then t.items + [item] else t.items[i := item]);
    assert LinksOk(mem) by {
      forall k | 0 <= k < |mem.links| ensures LinkOk(mem, mem.links[k]) {
        assert LinkOk(t, t.links[k]);
      }
    }
    if i == |t.items| {
      FlushedOk(t, mem, e, i);
    }
  }

  /** The account is one of the user's own bank accounts, in the session. */
  predicate OwnAccount(mem: Tables, e: Exchange, a: nat) {
    a < |mem.accounts| && mem.accounts[a].Some? && mem.accounts[a].value.uid == e.uid
        && mem.accounts[a].value.kind != Other
  }

  lemma {:induction false} ResolvedIsOwn(p: Pass, e: Exchange, item: nat, x: Fetched)
    requires p.Pass? && PassOk(p, e, item) && Resolve(p.seen, e, x).Some?
    ensures var a := Resolve(p.seen, e, x).value;
            a < |p.seen.accounts| && p.mem.accounts[a].Some? && p.mem.accounts[a].value.uid == e.uid
  {
    hide First, LinkOk, PendingOk, OnePerAccount, Live;
  }

  lemma {:induction false} CreatedOk(p: Pass, e: Exchange, item: nat, a: Account)
    requires p.Pass? && PassOk(p, e, item)
    ensures PassOk(Flushed(p.mem.(accounts := p.mem.accounts + [Some(a)])), e, item)
  {
    hide OnePerAccount, Consistent;
    var mem := p.mem.(accounts := p.mem.accounts + [Some(a)]);
    forall k | 0 <= k < |mem.links| ensures LinkOk(mem, mem.links[k]) {
      assert LinkOk(p.mem, p.mem.links[k]);
    }
    FlushedOk(p.seen, mem, e, item);
  }

  lemma {:induction false} RefreshedOk(p: Pass, e: Exchange, item: nat, a: nat, x: Fetched)
    requires p.Pass? && PassOk(p, e, item) && a < |p.mem.accounts| && p.mem.accounts[a].Some?
    ensures PassOk(Pass(p.seen,
        p.mem.(accounts := p.mem.accounts[a := Some(Refreshed(p.mem.accounts[a].value, e, x))])), e, item)
  {
    hide OnePerAccount;
    var mem := p.mem.(accounts := p.mem.accounts[a := Some(Refreshed(p.mem.accounts[a].value, e, x))]);
    forall k | 0 <= k < |mem.links| ensures LinkOk(mem, mem.links[k]) {
      assert LinkOk(p.mem, p.mem.links[k]);
    }
  }

  lemma {:induction false} AccountStep(p: Pass, e: Exchange, item: nat, x: Fetched)
    requires p.Pass? && PassOk(p, e, item)
    ensures PassOk(UpsertAccount(p, e, x), e, item)
    ensures UpsertAccount(p, e, x).Pass? ==> OwnAccount(UpsertAccount(p, e, x).mem, e, Written(p, e, x))
  {
    hide PassOk, Resolve;
    if Resolve(p.seen, e, x).None? {
      CreatedOk(p, e, item, Account(e.uid, x.Kind(), e.institution, x.mask, x.balance, Some(e.secret)));
    } else {
      ResolvedIsOwn(p, e, item, x);
      PassLengths(p, e, item);
      RefreshedOk(p, e, item, Resolve(p.seen, e, x).value, x);
    }
  }

  lemma {:induction false} PassLengths(p: Pass, e: Exchange, item: nat)
    requires p.Pass? && PassOk(p, e, item)
    ensures |p.seen.accounts| <= |p.mem.accounts| && |p.seen.links| <= |p.mem.links|
  {
  }

  lemma {:induction false} AppendLinkOk(p: Pass, e: Exchange, item: nat, a: nat, pid: Option<string>)
    requires p.Pass? && PassOk(p, e, item) && OwnAccount(p.mem, e, a) && pid != Some("")
    requires FindLinkOfAccount(p.seen, a) == |p.seen.links|
    ensures PassOk(Pass(p.seen, p.mem.(links := p.mem.links + [Some(Link(e.uid, item, a, pid, true))])), e, item)
  {
    hide First, OnePerAccount;
    var mem := p.mem.(links := p.mem.links + [Some(Link(e.uid, item, a, pid, true))]);
    forall k | 0 <= k < |mem.links| ensures LinkOk(mem, mem.links[k]) {
      if k < |p.mem.links| {
        assert LinkOk(p.mem, p.mem.links[k]);
      }
    }
    forall j | 0 <= j < |p.seen.links| && p.seen.links[j].Some? ensures p.seen.links[j].value.account != a {
    }
  }

  lemma {:induction false} UpdateLinkOk(p: Pass, e: Exchange, item: nat, a: nat, k: nat, pid: Option<string>)
    requires p.Pass? && PassOk(p, e, item) && OwnAccount(p.mem, e, a) && pid != Some("")
    requires k < |p.seen.links| && k < |p.mem.links| && p.mem.links[k].Some? && p.mem.links[k].value.account == a
    ensures PassOk(Pass(p.seen, p.mem.(links := p.mem.links[k := Some(p.mem.links[k].value.(uid := e.uid, item := item,
                     pid := if pid.Some? then pid else p.mem.links[k].value.pid, active := true))])), e, item)
  {
    hide OnePerAccount;
    var link := p.mem.links[k].value.(uid := e.uid, item := item,
                  pid := if pid.Some? then pid else p.mem.links[k].value.pid, active := true);
    var mem := p.mem.(links := p.mem.links[k := Some(link)]);
    assert LinkOk(p.mem, p.mem.links[k]);
    forall i | 0 <= i < |mem.links| ensures LinkOk(mem, mem.links[i]) {
      assert LinkOk(p.mem, p.mem.links[i]);
    }
  }

  /** The mapping the second pass finds for an account is one of that account in the session too. */
  lemma {:induction false} FoundLink(p: Pass, e: Exchange, item: nat, a: nat)
    requires p.Pass? && PassOk(p, e, item)
    ensures var k := FindLinkOfAccount(p.seen, a);
            k < |p.seen.links| ==> k < |p.mem.links| && p.mem.links[k].Some? && p.mem.links[k].value.account == a
  {
    hide First, PendingOk, OnePerAccount, LinkOk;
  }

  lemma {:induction false} LinkStep(p: Pass, e: Exchange, item: nat, a: nat, x: Fetched)
    requires p.Pass? && PassOk(p, e, item) && OwnAccount(p.mem, e, a)
    ensures PassOk(UpsertLink(p, e, item, a, x), e, item)
  {
    hide PassOk, OwnAccount, FindLinkOfAccount;
    var pid := if x.pid == "" then None else Some(x.pid);
    var k := FindLinkOfAccount(p.seen, a);
    if k == |p.seen.links| {
      AppendLinkOk(p, e, item, a, pid);
    } else {
      FoundLink(p, e, item, a);
      FindBound(p.seen, a);
      UpdateLinkOk(p, e, item, a, k, pid);
    }
  }

  lemma {:induction false} FindBound(t: Tables, a: nat)
    ensures FindLinkOfAccount(t, a) <= |t.links|
  {
    hide First;
  }

  lemma {:induction false} OneStep(p: Pass, e: Exchange, item: nat, x: Fetched)
    requires PassOk(p, e, item)
    ensures PassOk(LinkOne(p, e, item, x), e, item)
  {
    hide PassOk, UpsertAccount, UpsertLink, Written, OwnAccount;
    if p.Pass? {
      AccountStep(p, e, item, x);
      var q := UpsertAccount(p, e, x);
      if q.Pass? {
        LinkStep(q, e, item, Written(p, e, x), x);
      } else {
        BrokenOk(e, item);
      }
    }
  }

  lemma {:induction false} BrokenOk(e: Exchange, item: nat)
    ensures PassOk(Broken, e, item)
  {
  }

  lemma {:induction false} AllSteps(p: Pass, e: Exchange, item: nat, xs: seq<Fetched>)
    requires PassOk(p, e, item)
    ensures PassOk(LinkAll(p, e, item, xs), e, item)
    decreases |xs|
  {
    hide PassOk, LinkOne;
    if xs == [] {
    } else {
      AllSteps(p, e, item, xs[..|xs| - 1]);
      OneStep(LinkAll(p, e, item, xs[..|xs| - 1]), e, item, xs[|xs| - 1]);
    }
  }

  lemma {:induction false} ExchangeKeepsGood(t: Tables, e: Exchange)
    requires Good(t)
    ensures Good(ExchangeStep(t, e).0)
  {
    var i := FindItem(t, e.itemId);
    if i < |t.items| ==> t.items[i].uid == e.uid {
      var xs := Selected(e);
      hide Good, UpsertItem, LinkAll, Selected, AllReturned, Linked, CountNew, FindItem;
      StartOk(t, e);
      AllSteps(UpsertItem(t, e), e, i, xs);
      var p := LinkAll(UpsertItem(t, e), e, i, xs);
      if p.Pass? && Consistent(p.mem) {
        PassGood(p, e, i);
      }
    }
  }

  lemma {:induction false} PassGood(p: Pass, e: Exchange, item: nat)
    requires p.Pass? && PassOk(p, e, item) && Consistent(p.mem)
    ensures Good(p.mem)
  {
    hide Consistent, LinksOk, OnePerAccount, PendingOk, Aligned;
    FlushGivesOne(p.seen, p.mem, item);
  }

  // ----- Deletion -----

  /** Exactly which items a deletion changes, and how. */
  lemma {:induction false} RetiredItems(t: Tables, account: nat, n: nat, removable: set<nat>, purgeable: set<nat>)
    requires Good(t) && n <= |t.links|
    ensures var r := RetireItems(t, account, n, removable, purgeable);
            && |r.items| == |t.items|
            && forall m :: 0 <= m < |t.items| ==>
                 r.items[m] ==
                   if !HasSibling(t, m, account)
                      && (exists k ::
                            0 <= k < n && t.links[k].Some? && t.links[k].value.account == account
                            && t.links[k].value.item == m)
                   then t.items[m].(active := m !in removable, removed := m in removable,
                                    secret := if m in purgeable then None else t.items[m].secret)
                   else t.items[m]
  {
    if n == 0 {
    } else {
      RetiredItems(t, account, n - 1, removable, purgeable);
      var r := RetireItems(t, account, n - 1, removable, purgeable);
      assert forall m :: HasSibling(r, m, account) == HasSibling(t, m, account);
      assert LinkOk(t, t.links[n - 1]);
      var l := t.links[n - 1];
      if l.Some? && l.value.account == account {
        forall k | 0 <= k < n - 1 && t.links[k].Some? ensures t.links[k].value.account != account {
        }
        assert r.items[l.value.item] == t.items[l.value.item];
      }
    }
  }

  /** Deleting a mapped account retires its item exactly when no sibling mapping remains, and touches no
      other item, no other account and no other mapping. */
  lemma {:induction false} DeletionIsExact(
      t: Tables, uid: string, account: nat, removable: set<nat>, purgeable: set<nat>)
    requires Good(t) && account < |t.accounts| && t.accounts[account].Some? && t.accounts[account].value.uid == uid
    ensures var r := DeleteStep(t, uid, account, removable, purgeable).0;
            && r.accounts == t.accounts[account := None]
            && |r.links| == |t.links| && |r.items| == |t.items|
            && (forall k :: 0 <= k < |t.links| ==>
                  r.links[k] == if t.links[k].Some? && t.links[k].value.account == account then None else t.links[k])
            && (forall m :: 0 <= m < |t.items| ==>
                  r.items[m] ==
                    if !HasSibling(t, m, account)
                       && (exists k :: 0 <= k < |t.links| && t.links[k].Some? && t.links[k].value.account == account
                                       && t.links[k].value.item == m)
                    then t.items[m].(active := m !in removable, removed := m in removable,
                                     secret := if m in purgeable then None else t.items[m].secret)
                    else t.items[m])
  {
    hide HasSibling, RetireItem, Consistent, OnePerAccount;
    RetiredItems(t, account, |t.links|, removable, purgeable);
    if t.accounts[account].value.kind == Other {
      forall k | 0 <= k < |t.links| && t.links[k].Some? ensures t.links[k].value.account != account {
        assert LinkOk(t, t.links[k]);
      }
    }
  }

  lemma {:induction false} DeleteKeepsGood(
      t: Tables, uid: string, account: nat, removable: set<nat>, purgeable: set<nat>)
    requires Good(t)
    ensures Good(DeleteStep(t, uid, account, removable, purgeable).0)
  {
    if account < |t.accounts| && t.accounts[account].Some? && t.accounts[account].value.uid == uid {
      DeletionIsExact(t, uid, account, removable, purgeable);
      var r := DeleteStep(t, uid, account, removable, purgeable).0;
      hide DeleteStep;
      forall k | 0 <= k < |r.links| ensures LinkOk(r, r.links[k]) {
        assert LinkOk(t, t.links[k]);
        if r.links[k].Some? {
          assert HasSibling(t, t.links[k].value.item, account);
        }
      }
    }
  }

  /** Over every run: an account has at most one mapping, a user's Plaid account id occurs in at most
      one mapping, and every mapping is active and joins a bank account and an item of one user,
      where the item is active, not removed, and still has its secret. */
  lemma {:induction false} RunKeepsGood(t: Tables, events: seq<Event>)
    requires Good(t)
    ensures Good(Run(t, events))
    decreases |events|
  {
    hide Good, ExchangeStep, DeleteStep;
    if events == [] {
    } else {
      match events[0] {
        case Connect(e) => ExchangeKeepsGood(t, e);
        case Delete(uid, account, removable, purgeable) => DeleteKeepsGood(t, uid, account, removable, purgeable);
      }
      RunKeepsGood(Step(t, events[0]), events[1..]);
    }
  }

  /** Unmapped accounts, as before the mappings existed, are a start. */
  lemma {:induction false} UnmappedIsGood(accounts: seq<Option<Account>>)
    ensures Good(Tables(accounts, [], []))
  {
  }

  /** In particular over every run from accounts that nothing maps yet. */
  lemma {:induction false} RunFromUnmapped(accounts: seq<Option<Account>>, events: seq<Event>)
    ensures Good(Run(Tables(accounts, [], []), events))
  {
    hide Good, Step;
    UnmappedIsGood(accounts);
    RunKeepsGood(Tables(accounts, [], []), events);
  }

  // ----- Other users -----

  /** Rows of other users are as they were. */
  ghost predicate OthersKept(t: Tables, now: Tables, uid: string) {
    && |t.accounts| <= |now.accounts| && |t.items| <= |now.items| && |t.links| <= |now.links|
    && (forall a :: 0 <= a < |t.accounts| && t.accounts[a].Some? && t.accounts[a].value.uid != uid ==>
          now.accounts[a] == t.accounts[a])
    && (forall m :: 0 <= m < |t.items| && t.items[m].uid != uid ==> now.items[m] == t.items[m])
    && (forall k :: 0 <= k < |t.links| && t.links[k].Some? && t.links[k].value.uid != uid ==>
          now.links[k] == t.links[k])
  }

  lemma {:induction false} OneKeepsOthers(t: Tables, p: Pass, e: Exchange, item: nat, x: Fetched)
    requires p.Pass? && PassOk(p, e, item) && OthersKept(t, p.mem, e.uid)
    ensures var r := LinkOne(p, e, item, x); r.Pass? ==> OthersKept(t, r.mem, e.uid)
  {
    hide PassOk, Resolve, FindLinkOfAccount, OwnAccount, Consistent;
    AccountStep(p, e, item, x);
    if Resolve(p.seen, e, x).Some? {
      ResolvedIsOwn(p, e, item, x);
      PassLengths(p, e, item);
    }
    var q := UpsertAccount(p, e, x);
    if q.Pass? {
      assert OthersKept(t, q.mem, e.uid);
      var a := Written(p, e, x);
      var k := FindLinkOfAccount(q.seen, a);
      FoundLink(q, e, item, a);
      FindBound(q.seen, a);
      if k < |q.seen.links| {
        LinkIsOwn(q, e, item, a, k);
      }
    }
  }

  lemma {:induction false} LinkIsOwn(q: Pass, e: Exchange, item: nat, a: nat, k: nat)
    requires q.Pass? && PassOk(q, e, item) && OwnAccount(q.mem, e, a)
    requires k < |q.mem.links| && q.mem.links[k].Some? && q.mem.links[k].value.account == a
    ensures q.mem.links[k].value.uid == e.uid
  {
    hide Aligned, PendingOk, OnePerAccount, Live;
    assert LinkOk(q.mem, q.mem.links[k]);
  }

  lemma {:induction false} AllKeepOthers(t: Tables, p: Pass, e: Exchange, item: nat, xs: seq<Fetched>)
    requires PassOk(p, e, item) && (p.Pass? ==> OthersKept(t, p.mem, e.uid))
    ensures var r := LinkAll(p, e, item, xs); r.Pass? ==> OthersKept(t, r.mem, e.uid)
    decreases |xs|
  {
    hide PassOk, OthersKept, UpsertAccount, UpsertLink;
    if xs == [] {
    } else {
      AllKeepOthers(t, p, e, item, xs[..|xs| - 1]);
      AllSteps(p, e, item, xs[..|xs| - 1]);
      var q := LinkAll(p, e, item, xs[..|xs| - 1]);
      if q.Pass? {
        OneKeepsOthers(t, q, e, item, xs[|xs| - 1]);
      }
    }
  }

  /** No exchange and no deletion touches a row of another user. */
  lemma {:induction false} OthersAreUntouched(t: Tables, event: Event)
    requires Good(t)
    ensures OthersKept(t, Step(t, event), if event.Connect? then event.e.uid else event.uid)
  {
    match event {
      case Connect(e) => ExchangeKeepsOthers(t, e);
      case Delete(uid, account, removable, purgeable) => DeleteKeepsOthers(t, uid, account, removable, purgeable);
    }
  }

  lemma {:induction false} ExchangeKeepsOthers(t: Tables, e: Exchange)
    requires Good(t)
    ensures OthersKept(t, ExchangeStep(t, e).0, e.uid)
  {
    var i := FindItem(t, e.itemId);
    if i < |t.items| ==> t.items[i].uid == e.uid {
      var p := UpsertItem(t, e);
      assert p.Pass? ==> OthersKept(t, p.mem, e.uid) by {
        hide Consistent, Good, First;
      }
      hide Good, UpsertItem, LinkAll, Selected, AllReturned, Linked, CountNew, FindItem, Consistent;
      StartOk(t, e);
      AllKeepOthers(t, p, e, i, Selected(e));
    }
  }

  lemma {:induction false} DeleteKeepsOthers(
      t: Tables, uid: string, account: nat, removable: set<nat>, purgeable: set<nat>)
    requires Good(t)
    ensures OthersKept(t, DeleteStep(t, uid, account, removable, purgeable).0, uid)
  {
    if account < |t.accounts| && t.accounts[account].Some? && t.accounts[account].value.uid == uid {
      DeletionIsExact(t, uid, account, removable, purgeable);
      hide DeleteStep, Consistent, OnePerAccount, HasSibling;
      forall k | 0 <= k < |t.links| && t.links[k].Some? && t.links[k].value.account == account
        ensures t.links[k].value.uid == uid && t.items[t.links[k].value.item].uid == uid
      {
        assert LinkOk(t, t.links[k]);
      }
    }
  }
}
