/** The plan limit: the count of the first pass bounds what the second pass connects. */
module PlaidLimit {
  import opened Text
  import opened PlaidLinks
  import opened PlaidProofs

  // ----- Counting -----

  function CountLinks(links: seq<Option<Link>>, uid: string): nat {
    if links == [] then 0
    else
      var n, l := CountLinks(links[..|links| - 1], uid), links[|links| - 1];
      if l.Some? && l.value.uid == uid then n + 1 else n
  }

  lemma {:induction false} CountUpdated(links: seq<Option<Link>>, uid: string, k: nat, l: Option<Link>)
    requires k < |links| && links[k].Some? && l.Some? && links[k].value.uid == l.value.uid
    ensures CountLinks(links[k := l], uid) == CountLinks(links, uid)
    decreases |links|
  {
    var n := |links| - 1;
    if k == n {
      assert links[k := l][..n] == links[..n];
    } else {
      assert links[k := l][..n] == links[..n][k := l];
      CountUpdated(links[..n], uid, k, l);
    }
  }

  lemma {:induction false} CountAppended(links: seq<Option<Link>>, l: Link)
    ensures CountLinks(links + [Some(l)], l.uid) == CountLinks(links, l.uid) + 1
  {
    assert (links + [Some(l)])[..|links|] == links;
  }

  /** In good tables the join of the limit query counts the user's mappings. */
  lemma {:induction false} LinkedIsCount(t: Tables, n: nat, uid: string)
    requires LinksOk(t) && n <= |t.links|
    ensures CountLinked(t, t.links[..n], uid) == CountLinks(t.links[..n], uid)
  {
    if n == 0 {
    } else {
      assert t.links[..n][..n - 1] == t.links[..n - 1];
      LinkedIsCount(t, n - 1, uid);
      assert LinkOk(t, t.links[n - 1]);
    }
  }

  predicate Mapped(links: seq<Option<Link>>, a: nat) {
    exists k :: 0 <= k < |links| && links[k].Some? && links[k].value.account == a
  }

  /** How many bank accounts of the user have no mapping. */
  function Unmapped(accounts: seq<Option<Account>>, links: seq<Option<Link>>, uid: string): nat {
    if accounts == [] then 0
    else
      var n := |accounts| - 1;
      var rest, a := Unmapped(accounts[..n], links, uid), accounts[n];
      if BankAccountOf(a, uid) && !Mapped(links, n) then rest + 1 else rest
  }

  lemma {:induction false} UnmappedFalls(
      accounts: seq<Option<Account>>, links: seq<Option<Link>>, links': seq<Option<Link>>, uid: string)
    requires forall a :: Mapped(links, a) ==> Mapped(links', a)
    ensures Unmapped(accounts, links', uid) <= Unmapped(accounts, links, uid)
    decreases |accounts|
  {
    hide Mapped;
    if accounts == [] {
    } else {
      UnmappedFalls(accounts[..|accounts| - 1], links, links', uid);
    }
  }

  lemma {:induction false} UnmappedDrops(
      accounts: seq<Option<Account>>, links: seq<Option<Link>>, links': seq<Option<Link>>, uid: string, a: nat)
    requires forall b :: Mapped(links, b) ==> Mapped(links', b)
    requires a < |accounts| && accounts[a].Some? && accounts[a].value.uid == uid && accounts[a].value.kind != Other
    requires !Mapped(links, a) && Mapped(links', a)
    ensures Unmapped(accounts, links', uid) < Unmapped(accounts, links, uid)
    decreases |accounts|
  {
    hide Mapped;
    var n := |accounts| - 1;
    if a == n {
      UnmappedFalls(accounts[..n], links, links', uid);
    } else {
      UnmappedDrops(accounts[..n], links, links', uid, a);
    }
  }

  // ----- What the first pass relies on -----

  /** The institution does not report one account twice. */
  ghost predicate DistinctIds(xs: seq<Fetched>) {
    forall i, j :: 0 <= i < j < |xs| ==> xs[i].pid != xs[j].pid || xs[i].pid == ""
  }

  /** No account that is already linked changed its mask or type. */
  ghost predicate SameDescriptions(t: Tables, uid: string, xs: seq<Fetched>) {
    forall k, m :: 0 <= k < |t.links| && 0 <= m < |xs| && IsLinkOf(t, t.links[k], uid, xs[m].pid) ==>
      var a := t.accounts[t.links[k].value.account].value;
      a.mask == xs[m].mask && a.kind == xs[m].Kind()
  }

  // ----- What the second pass may have changed so far -----

  /** An account that existed before stays its user's; one of this user keeps its description, and its
      provider or takes the institution's name. */
  predicate AccountKept(was: Option<Account>, now: Option<Account>, e: Exchange) {
    && was.Some? == now.Some?
    && (was.Some? ==> now.value.uid == was.value.uid)
    && (was.Some? && was.value.uid == e.uid ==>
          && now.value.mask == was.value.mask && now.value.kind == was.value.kind
          && (now.value.provider == was.value.provider || now.value.provider == e.institution))
  }

  /** A mapping of the user stays with its account; if it took another Plaid id, its account took the
      institution's name. */
  predicate LinkKept(was: Option<Link>, now: Option<Link>, accounts: seq<Option<Account>>, e: Exchange) {
    was.Some? && was.value.uid == e.uid ==>
      && now.Some? && now.value.uid == e.uid && now.value.account == was.value.account
      && (now.value.pid == was.value.pid
          || (now.value.account < |accounts| && accounts[now.value.account].Some?
              && accounts[now.value.account].value.provider == e.institution))
  }

  ghost predicate Tracks(t: Tables, now: Tables, e: Exchange) {
    && |t.accounts| <= |now.accounts| && |t.links| <= |now.links|
    && (forall a :: 0 <= a < |t.accounts| ==> AccountKept(t.accounts[a], now.accounts[a], e))
    && (forall k :: 0 <= k < |t.links| ==> LinkKept(t.links[k], now.links[k], now.accounts, e))
  }

  /** An id still to come is only carried by a mapping that carried it before. */
  predicate CarriedBefore(t: Tables, k: nat, l: Option<Link>, e: Exchange, pid: string) {
    l.Some? && l.value.uid == e.uid && l.value.pid == Some(pid) ==>
      k < |t.links| && t.links[k].Some? && t.links[k].value.uid == e.uid && t.links[k].value.pid == Some(pid)
  }

  ghost predicate Untaken(t: Tables, now: Tables, e: Exchange, xs: seq<Fetched>, n: nat) {
    forall k, m :: 0 <= k < |now.links| && n <= m < |xs| ==> CarriedBefore(t, k, now.links[k], e, xs[m].pid)
  }

  /** Accounts the exchange created have a mapping, at the latest when the next account is looked at. */
  ghost predicate CreatedMapped(t: Tables, mem: Tables) {
    forall a :: |t.accounts| <= a < |mem.accounts| ==> Mapped(mem.links, a)
  }

  ghost predicate Twice(links: seq<Option<Link>>) {
    !OnePerAccount(links)
  }

  /** The balance sheet of the second pass after the accounts `done`. */
  ghost predicate Bounded(t: Tables, mem: Tables, e: Exchange, done: seq<Fetched>) {
    || Twice(mem.links)
    || CountLinks(mem.links, e.uid) + Unmapped(t.accounts, mem.links, e.uid)
         <= CountLinks(t.links, e.uid) + Unmapped(t.accounts, t.links, e.uid) + CountNew(t, e, done)
  }

  ghost predicate Sound(t: Tables, p: Pass, e: Exchange, xs: seq<Fetched>, n: nat)
    requires n <= |xs|
  {
    p.Pass? ==>
      && Tracks(t, p.seen, e) && Tracks(t, p.mem, e)
      && Untaken(t, p.seen, e, xs, n) && Untaken(t, p.mem, e, xs, n)
      && CreatedMapped(t, p.mem) && Bounded(t, p.mem, e, xs[..n])
  }

  // ----- The second pass finds what the first pass found -----

  lemma {:induction false} KnownByAccount(t: Tables, seen: Tables, e: Exchange, x: Fetched)
    requires Tracks(t, seen, e) && FindAccount(t.accounts, e.uid, e.institution, x) < |t.accounts|
    ensures FindAccount(seen.accounts, e.uid, e.institution, x) < |seen.accounts|
  {
    var a := FindAccount(t.accounts, e.uid, e.institution, x);
    assert SameBankAccount(t.accounts[a], e.uid, e.institution, x);
    assert AccountKept(t.accounts[a], seen.accounts[a], e);
    assert SameBankAccount(seen.accounts[a], e.uid, e.institution, x);
  }

  lemma {:induction false} KnownByLink(t: Tables, seen: Tables, e: Exchange, xs: seq<Fetched>, n: nat)
    requires Good(t) && Tracks(t, seen, e) && n < |xs| && SameDescriptions(t, e.uid, xs)
    requires FindActiveLink(t, e.uid, xs[n].pid) < |t.links|
    ensures FindLink(seen, e.uid, xs[n].pid) < |seen.links|
        || FindAccount(seen.accounts, e.uid, e.institution, xs[n]) < |seen.accounts|
  {
    hide First, Consistent, OnePerAccount;
    var x := xs[n];
    var k := FindActiveLink(t, e.uid, x.pid);
    assert IsLinkOf(t, t.links[k], e.uid, x.pid);
    var a := t.links[k].value.account;
    assert AccountKept(t.accounts[a], seen.accounts[a], e);
    assert LinkKept(t.links[k], seen.links[k], seen.accounts, e);
    if seen.links[k].value.pid == t.links[k].value.pid {
      assert IsLinkOf(seen, seen.links[k], e.uid, x.pid);
    } else {
      assert SameBankAccount(seen.accounts[a], e.uid, e.institution, x);
    }
  }

  /** Every account the second pass creates was counted by the first. */
  lemma {:induction false} CreatedWasCounted(t: Tables, seen: Tables, e: Exchange, xs: seq<Fetched>, n: nat)
    requires Good(t) && Tracks(t, seen, e) && n < |xs| && SameDescriptions(t, e.uid, xs)
    requires Resolve(seen, e, xs[n]).None?
    ensures IsNew(t, e, xs[n])
  {
    hide First, Tracks, Good, SameDescriptions;
    if FindAccount(t.accounts, e.uid, e.institution, xs[n]) < |t.accounts| {
      KnownByAccount(t, seen, e, xs[n]);
    }
    if FindActiveLink(t, e.uid, xs[n].pid) < |t.links| {
      KnownByLink(t, seen, e, xs, n);
    }
  }

  // ----- One account -----

  /** An account that is found has the description of the fetched one, if it existed before. */
  lemma {:induction false} ResolvedMatches(t: Tables, seen: Tables, e: Exchange, xs: seq<Fetched>, n: nat)
    requires Good(t) && Tracks(t, seen, e) && Untaken(t, seen, e, xs, n) && n < |xs| && SameDescriptions(t, e.uid, xs)
    requires Resolve(seen, e, xs[n]).Some?
    ensures var a := Resolve(seen, e, xs[n]).value;
            a < |t.accounts| && t.accounts[a].Some? && t.accounts[a].value.uid == e.uid ==>
              t.accounts[a].value.mask == xs[n].mask && t.accounts[a].value.kind == xs[n].Kind()
  {
    hide First, Consistent, OnePerAccount;
    var x := xs[n];
    var a := Resolve(seen, e, x).value;
    if a < |t.accounts| && t.accounts[a].Some? && t.accounts[a].value.uid == e.uid {
      assert AccountKept(t.accounts[a], seen.accounts[a], e);
      var k := FindLink(seen, e.uid, x.pid);
      if k < |seen.links| {
        assert IsLinkOf(seen, seen.links[k], e.uid, x.pid);
        assert CarriedBefore(t, k, seen.links[k], e, x.pid);
        assert LinkKept(t.links[k], seen.links[k], seen.accounts, e);
        assert LinkOk(t, t.links[k]);
        assert IsLinkOf(t, t.links[k], e.uid, x.pid);
      }
    }
  }

  lemma {:induction false} TracksCreated(t: Tables, mem: Tables, e: Exchange, a: Account)
    requires Tracks(t, mem, e)
    ensures Tracks(t, mem.(accounts := mem.accounts + [Some(a)]), e)
  {
    var now := mem.(accounts := mem.accounts + [Some(a)]);
    forall k | 0 <= k < |t.links| ensures LinkKept(t.links[k], now.links[k], now.accounts, e) {
      assert LinkKept(t.links[k], mem.links[k], mem.accounts, e);
    }
    forall b | 0 <= b < |t.accounts| ensures AccountKept(t.accounts[b], now.accounts[b], e) {
      assert AccountKept(t.accounts[b], mem.accounts[b], e);
    }
  }

  lemma {:induction false} TracksRefreshed(t: Tables, mem: Tables, e: Exchange, a: nat, x: Fetched)
    requires Tracks(t, mem, e) && a < |mem.accounts| && mem.accounts[a].Some?
    requires a < |t.accounts| && t.accounts[a].Some? && t.accounts[a].value.uid == e.uid ==>
               t.accounts[a].value.mask == x.mask && t.accounts[a].value.kind == x.Kind()
    ensures Tracks(t, mem.(accounts := mem.accounts[a := Some(Refreshed(mem.accounts[a].value, e, x))]), e)
  {
    var now := mem.(accounts := mem.accounts[a := Some(Refreshed(mem.accounts[a].value, e, x))]);
    forall k | 0 <= k < |t.links| ensures LinkKept(t.links[k], now.links[k], now.accounts, e) {
      assert LinkKept(t.links[k], mem.links[k], mem.accounts, e);
    }
    forall b | 0 <= b < |t.accounts| ensures AccountKept(t.accounts[b], now.accounts[b], e) {
      assert AccountKept(t.accounts[b], mem.accounts[b], e);
    }
  }

  lemma {:induction false} TracksAppended(t: Tables, mem: Tables, e: Exchange, l: Link)
    requires Tracks(t, mem, e)
    ensures Tracks(t, mem.(links := mem.links + [Some(l)]), e)
  {
    hide AccountKept;
    var now := mem.(links := mem.links + [Some(l)]);
    forall k | 0 <= k < |t.links| ensures LinkKept(t.links[k], now.links[k], now.accounts, e) {
      assert LinkKept(t.links[k], mem.links[k], mem.accounts, e);
    }
  }

  lemma {:induction false} TracksUpdated(t: Tables, mem: Tables, e: Exchange, k: nat, l: Link)
    requires Tracks(t, mem, e) && k < |mem.links| && mem.links[k].Some?
    requires l.uid == e.uid && l.account == mem.links[k].value.account
    requires l.account < |mem.accounts| && mem.accounts[l.account].Some?
    requires mem.accounts[l.account].value.provider == e.institution
    ensures Tracks(t, mem.(links := mem.links[k := Some(l)]), e)
  {
    hide AccountKept;
    var now := mem.(links := mem.links[k := Some(l)]);
    forall i | 0 <= i < |t.links| ensures LinkKept(t.links[i], now.links[i], now.accounts, e) {
      assert LinkKept(t.links[i], mem.links[i], mem.accounts, e);
    }
  }

  /** A mapping may take the id of the account at hand, or keep its own. */
  lemma {:induction false} UntakenNext(
      t: Tables, mem: Tables, mem': Tables, e: Exchange, xs: seq<Fetched>, n: nat, k: nat)
    requires Untaken(t, mem, e, xs, n) && n < |xs| && DistinctIds(xs)
    requires k < |mem'.links| && |mem.links| <= |mem'.links| <= |mem.links| + 1
    requires forall i :: 0 <= i < |mem'.links| && i != k ==> i < |mem.links| && mem'.links[i] == mem.links[i]
    requires mem'.links[k].Some?
    requires mem'.links[k].value.pid.None? || (xs[n].pid != "" && mem'.links[k].value.pid == Some(xs[n].pid))
             || (k < |mem.links| && mem.links[k].Some? && mem.links[k].value.uid == mem'.links[k].value.uid
                 && mem.links[k].value.pid == mem'.links[k].value.pid)
    ensures Untaken(t, mem', e, xs, n + 1)
  {
    forall i, m | 0 <= i < |mem'.links| && n + 1 <= m < |xs| ensures CarriedBefore(t, i, mem'.links[i], e, xs[m].pid) {
      if i < |mem.links| {
        assert CarriedBefore(t, i, mem.links[i], e, xs[m].pid);
      }
    }
  }

  /** What the pass has kept of the first tables, in both versions. */
  ghost predicate Faithful(t: Tables, p: Pass, e: Exchange, xs: seq<Fetched>, n: nat) {
    p.Pass? ==>
      && Tracks(t, p.seen, e) && Tracks(t, p.mem, e)
      && Untaken(t, p.seen, e, xs, n) && Untaken(t, p.mem, e, xs, n)
  }

  lemma {:induction false} AccountFaithful(t: Tables, p: Pass, e: Exchange, item: nat, xs: seq<Fetched>, n: nat)
    requires Good(t) && p.Pass? && PassOk(p, e, item) && Faithful(t, p, e, xs, n)
    requires n < |xs| && SameDescriptions(t, e.uid, xs)
    ensures Faithful(t, UpsertAccount(p, e, xs[n]), e, xs, n)
  {
    hide Good, PassOk, Resolve, SameDescriptions, Tracks, Consistent;
    var x := xs[n];
    if Resolve(p.seen, e, x).None? {
      var a := Account(e.uid, x.Kind(), e.institution, x.mask, x.balance, Some(e.secret));
      TracksCreated(t, p.mem, e, a);
      SameLinksUntaken(t, p.mem, p.mem.(accounts := p.mem.accounts + [Some(a)]), e, xs, n);
    } else {
      ResolvedIsOwn(p, e, item, x);
      ResolvedMatches(t, p.seen, e, xs, n);
      PassLengths(p, e, item);
      TracksRefreshed(t, p.mem, e, Resolve(p.seen, e, x).value, x);
    }
  }

  lemma {:induction false} SameLinksUntaken(t: Tables, mem: Tables, mem': Tables, e: Exchange, xs: seq<Fetched>, n: nat)
    requires Untaken(t, mem, e, xs, n) && mem'.links == mem.links
    ensures Untaken(t, mem', e, xs, n)
  {
  }

  /** The account written carries the institution's name. */
  lemma {:induction false} WrittenIsNamed(p: Pass, e: Exchange, item: nat, x: Fetched)
    requires p.Pass? && PassOk(p, e, item)
    ensures var q := UpsertAccount(p, e, x);
            var a := Written(p, e, x);
            q.Pass? ==>
              && a < |q.mem.accounts| && q.mem.accounts[a].Some? && q.mem.accounts[a].value.provider == e.institution
              && q.mem.links == p.mem.links
              && (Resolve(p.seen, e, x).None? ==> a == |p.mem.accounts| && |q.mem.accounts| == a + 1 && q.seen == q.mem)
              && (Resolve(p.seen, e, x).Some? ==> |q.mem.accounts| == |p.mem.accounts| && q.seen == p.seen)
  {
    hide PassOk, Resolve, Consistent;
    if Resolve(p.seen, e, x).Some? {
      ResolvedIsOwn(p, e, item, x);
      PassLengths(p, e, item);
    }
  }

  lemma {:induction false} UntakenFurther(t: Tables, now: Tables, e: Exchange, xs: seq<Fetched>, n: nat)
    requires Untaken(t, now, e, xs, n)
    ensures Untaken(t, now, e, xs, n + 1)
  {
  }

  /** The mapping in the session that the account's update applies to is the user's. */
  lemma {:induction false} FoundIsUsers(q: Pass, e: Exchange, item: nat, a: nat)
    requires q.Pass? && PassOk(q, e, item) && OwnAccount(q.mem, e, a)
    ensures var k := FindLinkOfAccount(q.seen, a);
            k < |q.seen.links| ==> k < |q.mem.links| && q.mem.links[k].Some? && q.mem.links[k].value.account == a
                                   && q.mem.links[k].value.uid == e.uid
  {
    hide First, PendingOk, OnePerAccount, Aligned, Live;
    FoundLink(q, e, item, a);
    var k := FindLinkOfAccount(q.seen, a);
    if k < |q.seen.links| {
      assert LinkOk(q.mem, q.mem.links[k]);
    }
  }

  lemma {:induction false} LinkFaithful(t: Tables, q: Pass, e: Exchange, item: nat, xs: seq<Fetched>, n: nat, a: nat)
    requires q.Pass? && PassOk(q, e, item) && Faithful(t, q, e, xs, n) && n < |xs| && DistinctIds(xs)
    requires OwnAccount(q.mem, e, a) && q.mem.accounts[a].value.provider == e.institution
    ensures Faithful(t, UpsertLink(q, e, item, a, xs[n]), e, xs, n + 1)
  {
    hide PassOk, Tracks, DistinctIds, Untaken, FindLinkOfAccount;
    var x := xs[n];
    var pid := if x.pid == "" then None else Some(x.pid);
    var k := FindLinkOfAccount(q.seen, a);
    FoundIsUsers(q, e, item, a);
    FindBound(q.seen, a);
    UntakenFurther(t, q.seen, e, xs, n);
    if k == |q.seen.links| {
      var l := Link(e.uid, item, a, pid, true);
      TracksAppended(t, q.mem, e, l);
      UntakenNext(t, q.mem, q.mem.(links := q.mem.links + [Some(l)]), e, xs, n, |q.mem.links|);
    } else {
      var was := q.mem.links[k].value;
      var l := was.(uid := e.uid, item := item, pid := if pid.Some? then pid else was.pid, active := true);
      TracksUpdated(t, q.mem, e, k, l);
      UntakenNext(t, q.mem, q.mem.(links := q.mem.links[k := Some(l)]), e, xs, n, k);
    }
  }

  // ----- The balance sheet -----

  lemma {:induction false} UpdateBounded(
      t: Tables, mem: Tables, mem': Tables, e: Exchange, done: seq<Fetched>, k: nat, l: Link)
    requires Bounded(t, mem, e, done) && k < |mem.links| && mem.links[k].Some?
    requires l.uid == mem.links[k].value.uid && l.account == mem.links[k].value.account
    requires mem'.links == mem.links[k := Some(l)]
    ensures Bounded(t, mem', e, done)
    ensures forall a :: Mapped(mem.links, a) ==> Mapped(mem'.links, a)
  {
    CountUpdated(mem.links, e.uid, k, Some(l));
    forall a | Mapped(mem.links, a) ensures Mapped(mem'.links, a) {
      var i :| 0 <= i < |mem.links| && mem.links[i].Some? && mem.links[i].value.account == a;
      assert mem'.links[i].Some? && mem'.links[i].value.account == a;
    }
    if Twice(mem.links) {
      var i, j :| 0 <= i < j < |mem.links| && mem.links[i].Some? && mem.links[j].Some?
                  && mem.links[i].value.account == mem.links[j].value.account;
      assert mem'.links[i].value.account == mem'.links[j].value.account;
    }
    UnmappedFalls(t.accounts, mem.links, mem'.links, e.uid);
  }

  lemma {:induction false} AppendMaps(links: seq<Option<Link>>, l: Link)
    ensures forall a :: Mapped(links, a) ==> Mapped(links + [Some(l)], a)
    ensures Mapped(links + [Some(l)], l.account)
    ensures Twice(links) || Mapped(links, l.account) ==> Twice(links + [Some(l)])
  {
    var links' := links + [Some(l)];
    assert links'[|links|] == Some(l);
    forall a | Mapped(links, a) ensures Mapped(links', a) {
      var i :| 0 <= i < |links| && links[i].Some? && links[i].value.account == a;
      assert links'[i].Some? && links'[i].value.account == a;
    }
    if Mapped(links, l.account) {
      var i :| 0 <= i < |links| && links[i].Some? && links[i].value.account == l.account;
      assert links'[i].value.account == links'[|links|].value.account;
    }
    if Twice(links) {
      var i, j :| 0 <= i < j < |links| && links[i].Some? && links[j].Some?
          && links[i].value.account == links[j].value.account;
      assert links'[i].value.account == links'[j].value.account;
    }
  }

  /** A mapping is added: either the account was counted as new, or it was an unmapped one. */
  lemma {:induction false} AppendBounded(
      t: Tables, mem: Tables, mem': Tables, e: Exchange, xs: seq<Fetched>, n: nat, l: Link)
    requires n < |xs| && Bounded(t, mem, e, xs[..n]) && l.uid == e.uid && mem'.links == mem.links + [Some(l)]
    requires IsNew(t, e, xs[n]) || Mapped(mem.links, l.account)
             || (l.account < |t.accounts| && t.accounts[l.account].Some? && t.accounts[l.account].value.uid == e.uid
                 && t.accounts[l.account].value.kind != Other)
    ensures Bounded(t, mem', e, xs[..n + 1])
  {
    hide IsNew, Mapped, Twice;
    AppendMaps(mem.links, l);
    CountAppended(mem.links, l);
    UnmappedFalls(t.accounts, mem.links, mem'.links, e.uid);
    assert xs[..n + 1][..n] == xs[..n];
    if !Mapped(mem.links, l.account) && !IsNew(t, e, xs[n]) {
      UnmappedDrops(t.accounts, mem.links, mem'.links, e.uid, l.account);
    }
  }

  lemma {:induction false} CountNewGrows(t: Tables, mem: Tables, e: Exchange, xs: seq<Fetched>, n: nat)
    requires n < |xs| && Bounded(t, mem, e, xs[..n])
    ensures Bounded(t, mem, e, xs[..n + 1])
  {
    hide IsNew, Twice;
    assert xs[..n + 1][..n] == xs[..n];
  }

  lemma {:induction false} SameLinksBounded(t: Tables, mem: Tables, mem': Tables, e: Exchange, done: seq<Fetched>)
    requires Bounded(t, mem, e, done) && mem'.links == mem.links
    ensures Bounded(t, mem', e, done)
  {
  }

  /** An account that is found unmapped, and not one of this exchange, was an unmapped bank account. */
  lemma {:induction false} UnmappedBefore(t: Tables, p: Pass, e: Exchange, item: nat, xs: seq<Fetched>, n: nat)
    requires Good(t) && p.Pass? && PassOk(p, e, item) && Faithful(t, p, e, xs, n)
    requires n < |xs| && SameDescriptions(t, e.uid, xs)
    requires Resolve(p.seen, e, xs[n]).Some?
    requires Resolve(p.seen, e, xs[n]).value < |t.accounts|
    ensures var a := t.accounts[Resolve(p.seen, e, xs[n]).value];
            a.Some? && a.value.uid == e.uid && a.value.kind != Other
  {
    hide Resolve, Good, SameDescriptions, First, LinkOk, PendingOk, OnePerAccount, LinkKept, Untaken;
    ResolvedIsOwn(p, e, item, xs[n]);
    ResolvedMatches(t, p.seen, e, xs, n);
    var a := Resolve(p.seen, e, xs[n]).value;
    assert AccountKept(t.accounts[a], p.mem.accounts[a], e);
  }

  lemma {:induction false} MappedGrows(mem: Tables, mem': Tables, t: Tables, a: nat)
    requires CreatedMapped(t, mem) && |mem'.accounts| <= |mem.accounts| + 1
    requires forall b :: Mapped(mem.links, b) ==> Mapped(mem'.links, b)
    requires |mem'.accounts| == |mem.accounts| + 1 ==> a == |mem.accounts| && Mapped(mem'.links, a)
    ensures CreatedMapped(t, mem')
  {
    hide Mapped;
  }

  lemma {:induction false} OneSound(t: Tables, p: Pass, e: Exchange, item: nat, xs: seq<Fetched>, n: nat)
    requires Good(t) && p.Pass? && PassOk(p, e, item) && Faithful(t, p, e, xs, n) && n < |xs|
    requires SameDescriptions(t, e.uid, xs) && DistinctIds(xs)
    requires CreatedMapped(t, p.mem) && Bounded(t, p.mem, e, xs[..n])
    ensures var r := LinkOne(p, e, item, xs[n]);
            && Faithful(t, r, e, xs, n + 1)
            && (r.Pass? ==> CreatedMapped(t, r.mem) && Bounded(t, r.mem, e, xs[..n + 1]))
  {
    hide *;
    var x := xs[n];
    var q := UpsertAccount(p, e, x);
    var a := Written(p, e, x);
    AccountFaithful(t, p, e, item, xs, n);
    AccountStep(p, e, item, x);
    WrittenIsNamed(p, e, item, x);
    LinkOneIs(p, e, item, x);
    if q.Pass? {
      LinkFaithful(t, q, e, item, xs, n, a);
      SheetStep(t, p, e, item, xs, n, q, a);
    } else {
      BrokenFaithful(t, e, xs, n + 1);
    }
  }

  lemma {:induction false} BrokenFaithful(t: Tables, e: Exchange, xs: seq<Fetched>, n: nat)
    ensures Faithful(t, Broken, e, xs, n)
  {
  }

  lemma {:induction false} LinkOneIs(p: Pass, e: Exchange, item: nat, x: Fetched)
    requires p.Pass?
    ensures var q := UpsertAccount(p, e, x);
            && LinkOne(p, e, item, x) == (if q.Broken? then Broken else UpsertLink(q, e, item, Written(p, e, x), x))
  {
    hide UpsertAccount, UpsertLink, Written;
  }

  lemma {:induction false} SheetStep(
      t: Tables, p: Pass, e: Exchange, item: nat, xs: seq<Fetched>, n: nat, q: Pass, a: nat)
    requires Good(t) && p.Pass? && PassOk(p, e, item) && Faithful(t, p, e, xs, n) && n < |xs|
    requires SameDescriptions(t, e.uid, xs)
    requires CreatedMapped(t, p.mem) && Bounded(t, p.mem, e, xs[..n])
    requires q == UpsertAccount(p, e, xs[n]) && q.Pass? && a == Written(p, e, xs[n])
    requires PassOk(q, e, item) && OwnAccount(q.mem, e, a)
    requires q.mem.links == p.mem.links
    requires Resolve(p.seen, e, xs[n]).None? ==> a == |p.mem.accounts| && |q.mem.accounts| == a + 1 && q.seen == q.mem
    requires Resolve(p.seen, e, xs[n]).Some? ==> |q.mem.accounts| == |p.mem.accounts| && q.seen == p.seen
    ensures var r := UpsertLink(q, e, item, a, xs[n]);
            r.Pass? ==> CreatedMapped(t, r.mem) && Bounded(t, r.mem, e, xs[..n + 1])
  {
    hide Good, PassOk, Faithful, SameDescriptions, CreatedMapped, Bounded, UpsertAccount, Resolve, OwnAccount,
        FindLinkOfAccount, Mapped, IsNew;
    var x := xs[n];
    var k := FindLinkOfAccount(q.seen, a);
    var r := UpsertLink(q, e, item, a, x);
    FoundIsUsers(q, e, item, a);
    FindBound(q.seen, a);
    SameLinksBounded(t, p.mem, q.mem, e, xs[..n]);
    if k == |q.seen.links| {
      var l := Link(e.uid, item, a, if x.pid == "" then None else Some(x.pid), true);
      AppendMaps(q.mem.links, l);
      if Resolve(p.seen, e, x).None? {
        FaithfulTracks(t, p, e, xs, n);
        CreatedWasCounted(t, p.seen, e, xs, n);
      } else if a < |t.accounts| {
        UnmappedBefore(t, p, e, item, xs, n);
      } else {
        CreatedIsMapped(t, p, e, item, a, q);
      }
      AppendBounded(t, q.mem, r.mem, e, xs, n, l);
      MappedGrows(p.mem, r.mem, t, a);
    } else {
      var was := q.mem.links[k].value;
      var pid := if x.pid == "" then None else Some(x.pid);
      var l := was.(uid := e.uid, item := item, pid := if pid.Some? then pid else was.pid, active := true);
      UpdateBounded(t, q.mem, r.mem, e, xs[..n], k, l);
      CountNewGrows(t, r.mem, e, xs, n);
      if Resolve(p.seen, e, x).None? {
        NewHasNoLink(p, q, e, item, a);
      } else {
        MappedGrows(p.mem, r.mem, t, a);
      }
    }
  }

  lemma {:induction false} FaithfulTracks(t: Tables, p: Pass, e: Exchange, xs: seq<Fetched>, n: nat)
    requires p.Pass? && Faithful(t, p, e, xs, n)
    ensures Tracks(t, p.seen, e) && Tracks(t, p.mem, e)
  {
  }

  lemma {:induction false} CreatedIsMapped(t: Tables, p: Pass, e: Exchange, item: nat, a: nat, q: Pass)
    requires p.Pass? && q.Pass? && CreatedMapped(t, p.mem)
    requires OwnAccount(q.mem, e, a) && |q.mem.accounts| == |p.mem.accounts|
    requires a >= |t.accounts| && q.mem.links == p.mem.links
    ensures Mapped(q.mem.links, a)
  {
    hide Mapped;
  }

  /** A new account has no mapping yet. */
  lemma {:induction false} NewHasNoLink(p: Pass, q: Pass, e: Exchange, item: nat, a: nat)
    requires p.Pass? && PassOk(p, e, item) && q.Pass? && q.mem.links == p.mem.links
    requires q.seen == q.mem && a == |p.mem.accounts|
    ensures FindLinkOfAccount(q.seen, a) == |q.seen.links|
  {
    hide First, Aligned, PendingOk, OnePerAccount;
    forall k | 0 <= k < |p.mem.links| && p.mem.links[k].Some? ensures p.mem.links[k].value.account != a {
      assert LinkOk(p.mem, p.mem.links[k]);
    }
  }

  lemma {:induction false} StartSound(t: Tables, e: Exchange, xs: seq<Fetched>)
    requires Good(t)
    ensures var p := UpsertItem(t, e);
            p.Pass? ==> Faithful(t, p, e, xs, 0) && CreatedMapped(t, p.mem) && Bounded(t, p.mem, e, xs[..0])
  {
    hide Good, First, Consistent, Mapped;
    forall k | 0 <= k < |t.links| ensures LinkKept(t.links[k], t.links[k], t.accounts, e) {
    }
  }

  lemma {:induction false} AllSound(t: Tables, p: Pass, e: Exchange, item: nat, xs: seq<Fetched>, n: nat)
    requires Good(t) && PassOk(p, e, item) && n <= |xs| && SameDescriptions(t, e.uid, xs) && DistinctIds(xs)
    requires p.Pass? ==> Faithful(t, p, e, xs, 0) && CreatedMapped(t, p.mem) && Bounded(t, p.mem, e, xs[..0])
    ensures var r := LinkAll(p, e, item, xs[..n]);
            r.Pass? ==> Faithful(t, r, e, xs, n) && CreatedMapped(t, r.mem) && Bounded(t, r.mem, e, xs[..n])
    decreases n
  {
    hide Good, PassOk, Faithful, CreatedMapped, Bounded, SameDescriptions, DistinctIds, UpsertAccount, UpsertLink;
    if n == 0 {
    } else {
      assert xs[..n][..n - 1] == xs[..n - 1] && xs[..n][n - 1] == xs[n - 1];
      AllSound(t, p, e, item, xs, n - 1);
      var q := LinkAll(p, e, item, xs[..n - 1]);
      AllSteps(p, e, item, xs[..n - 1]);
      if q.Pass? {
        OneSound(t, q, e, item, xs, n - 1);
      }
    }
  }

  /** A successful exchange: the connected accounts are at most the plan limit plus the unmapped bank
      accounts it connected on the way, which the first pass does not count. */
  lemma {:induction false} ExchangeWithinLimit(t: Tables, e: Exchange)
    requires Good(t) && ExchangeStep(t, e).1 == Ok
    requires DistinctIds(Selected(e)) && SameDescriptions(t, e.uid, Selected(e))
    ensures var t' := ExchangeStep(t, e).0;
            Linked(t', e.uid) + Unmapped(t.accounts, t'.links, e.uid) <= e.limit + Unmapped(t.accounts, t.links, e.uid)
  {
    var xs, i := Selected(e), FindItem(t, e.itemId);
    var p := LinkAll(UpsertItem(t, e), e, i, xs);
    assert xs[..|xs|] == xs;
    hide *;
    ExchangeOkMeans(t, e);
    StartOk(t, e);
    StartSound(t, e, xs);
    AllSteps(UpsertItem(t, e), e, i, xs);
    AllSound(t, UpsertItem(t, e), e, i, xs, |xs|);
    PassGood(p, e, i);
    LinkedIsAll(t, e.uid);
    LinkedIsAll(p.mem, e.uid);
    SheetCloses(t, p.mem, e, xs);
  }

  lemma {:induction false} ExchangeOkMeans(t: Tables, e: Exchange)
    requires ExchangeStep(t, e).1 == Ok
    ensures var xs, i := Selected(e), FindItem(t, e.itemId);
            var p := LinkAll(UpsertItem(t, e), e, i, xs);
            && (i < |t.items| ==> t.items[i].uid == e.uid)
            && p.Pass? && Consistent(p.mem) && ExchangeStep(t, e).0 == p.mem
            && Linked(t, e.uid) + CountNew(t, e, xs) <= e.limit
  {
    hide LinkAll, UpsertItem, Linked, CountNew, Selected, FindItem, AllReturned, Consistent;
  }

  lemma {:induction false} LinkedIsAll(t: Tables, uid: string)
    requires Good(t)
    ensures Linked(t, uid) == CountLinks(t.links, uid)
  {
    hide Consistent, OnePerAccount;
    LinkedIsCount(t, |t.links|, uid);
    assert t.links[..|t.links|] == t.links;
  }

  lemma {:induction false} SheetCloses(t: Tables, mem: Tables, e: Exchange, xs: seq<Fetched>)
    requires Good(mem) && Bounded(t, mem, e, xs)
    ensures CountLinks(mem.links, e.uid) + Unmapped(t.accounts, mem.links, e.uid)
              <= CountLinks(t.links, e.uid) + Unmapped(t.accounts, t.links, e.uid) + CountNew(t, e, xs)
  {
    hide Consistent, LinksOk;
  }

  predicate BankAccountOf(a: Option<Account>, uid: string) {
    a.Some? && a.value.uid == uid && a.value.kind != Other
  }

  ghost predicate AllMapped(accounts: seq<Option<Account>>, links: seq<Option<Link>>, uid: string) {
    forall a :: 0 <= a < |accounts| && BankAccountOf(accounts[a], uid) ==> Mapped(links, a)
  }

  lemma {:induction false} NoneUnmapped(accounts: seq<Option<Account>>, links: seq<Option<Link>>, uid: string)
    requires AllMapped(accounts, links, uid)
    ensures Unmapped(accounts, links, uid) == 0
    decreases |accounts|
  {
    hide Mapped;
    if accounts == [] {
    } else {
      NoneUnmapped(accounts[..|accounts| - 1], links, uid);
    }
  }

  /** With every bank account of the user mapped, the plan limit is kept. */
  lemma {:induction false} LimitIsKept(t: Tables, e: Exchange)
    requires Good(t) && ExchangeStep(t, e).1 == Ok
    requires DistinctIds(Selected(e)) && SameDescriptions(t, e.uid, Selected(e))
    requires AllMapped(t.accounts, t.links, e.uid)
    ensures Linked(ExchangeStep(t, e).0, e.uid) <= e.limit
  {
    hide Good, ExchangeStep, Selected, Linked, Mapped, AllMapped, DistinctIds, SameDescriptions;
    ExchangeWithinLimit(t, e);
    NoneUnmapped(t.accounts, t.links, e.uid);
  }

  // ----- Where the limit and the exchange give way -----

  const LEGACY_ACCOUNT := Account("u", Traditional, Some("Bank"), Some("1234"), None, None)
  const LEGACY := Tables([Some(LEGACY_ACCOUNT)], [], [])
  const LEGACY_REPORT := Fetched("p", Some("1234"), false, None)
  const LEGACY_EXCHANGE := Exchange("u", Some("Bank"), "item", "secret", 0, [LEGACY_REPORT], {})

  /** An account from before the mappings existed is connected without being counted: a plan without
      any Plaid account ends up with one. */
  lemma {:induction false} UnmappedEscapesTheLimit()
    ensures Good(LEGACY) && DistinctIds(Selected(LEGACY_EXCHANGE))
    ensures SameDescriptions(LEGACY, "u", Selected(LEGACY_EXCHANGE))
    ensures var (t, reply) := ExchangeStep(LEGACY, LEGACY_EXCHANGE);
            reply == Ok && Linked(t, "u") == 1 > LEGACY_EXCHANGE.limit
  {
    LegacyPass();
    LegacyIsNotNew();
    var p := LinkAll(UpsertItem(LEGACY, LEGACY_EXCHANGE), LEGACY_EXCHANGE, 0, [LEGACY_REPORT]);
    LegacyIsLinked(p.mem);
    hide LinkAll, UpsertItem, Linked, CountNew;
  }

  lemma {:induction false} LegacyIsLinked(t: Tables)
    requires t.items == [Item("u", "item", Some("Bank"), Some("secret"), true, false)]
    requires t.links == [Some(Link("u", 0, 0, Some("p"), true))]
    requires t.accounts == [Some(LEGACY_ACCOUNT.(secret := Some("secret")))]
    ensures Linked(t, "u") == 1
  {
    assert CountsFor(t, t.links[0], "u");
    assert t.links[..0] == [];
    assert CountLinked(t, [], "u") == 0;
  }

  lemma {:induction false} LegacyIsNotNew()
    ensures FindAccount(LEGACY.accounts, "u", Some("Bank"), LEGACY_REPORT) == 0
    ensures Linked(LEGACY, "u") == 0 && CountNew(LEGACY, LEGACY_EXCHANGE, [LEGACY_REPORT]) == 0
  {
    assert SameBankAccount(LEGACY.accounts[0], "u", Some("Bank"), LEGACY_REPORT);
    assert [LEGACY_REPORT][..0] == [];
  }

  lemma {:induction false} LegacyPass()
    ensures var p := LinkAll(UpsertItem(LEGACY, LEGACY_EXCHANGE), LEGACY_EXCHANGE, 0, [LEGACY_REPORT]);
            && p.Pass? && p.mem.items == [Item("u", "item", Some("Bank"), Some("secret"), true, false)]
            && p.mem.links == [Some(Link("u", 0, 0, Some("p"), true))]
            && p.mem.accounts == [Some(LEGACY_ACCOUNT.(secret := Some("secret")))]
  {
    LegacyIsNotNew();
    hide IsNew, CountNew, Linked, FindAccount;
    var p := UpsertItem(LEGACY, LEGACY_EXCHANGE);
    assert p.Pass? && p.seen.accounts == LEGACY.accounts && p.seen.links == [];
    assert [LEGACY_REPORT][..0] == [];
    assert LinkAll(p, LEGACY_EXCHANGE, 0, []) == p;
  }

  /** Two accounts of the same mask and type, both unknown, cannot be connected in one exchange: the
      second is taken for the first, whose mapping is not yet written, so a second mapping of the same
      account breaks the unique constraint and the request is undone. */
  lemma {:induction false} TwinsCannotConnect(t: Tables, e: Exchange, x: Fetched, y: Fetched)
    requires Good(t) && Selected(e) == [x, y] && x.mask == y.mask && x.Kind() == y.Kind()
    requires FindAccount(t.accounts, e.uid, e.institution, x) == |t.accounts|
    requires FindLink(t, e.uid, x.pid) == |t.links| && FindLink(t, e.uid, y.pid) == |t.links|
    ensures ExchangeStep(t, e).0 == t && ExchangeStep(t, e).1 != Ok
  {
    hide *;
    var p, i := UpsertItem(t, e), FindItem(t, e.itemId);
    UpsertKeepsRows(t, e);
    if p.Pass? {
      TwinPass(t, e, p, i, x, y);
      LinkTwo(p, e, i, x, y);
    } else {
      BrokenStays(e, i, [x, y]);
    }
    OnlyConsistentOk(t, e);
  }

  lemma {:induction false} UpsertKeepsRows(t: Tables, e: Exchange)
    ensures var p := UpsertItem(t, e);
            p.Pass? ==> p.seen.accounts == p.mem.accounts == t.accounts && p.seen.links == p.mem.links == t.links
  {
    hide Consistent, FindItem;
  }

  lemma {:induction false} LinkTwo(p: Pass, e: Exchange, item: nat, x: Fetched, y: Fetched)
    ensures LinkAll(p, e, item, [x, y]) == LinkOne(LinkOne(p, e, item, x), e, item, y)
  {
    hide LinkOne;
    assert [x, y][..1] == [x] && [x][..0] == [];
    assert LinkAll(p, e, item, []) == p;
    assert LinkAll(p, e, item, [x]) == LinkOne(p, e, item, x);
  }

  lemma {:induction false} OnlyConsistentOk(t: Tables, e: Exchange)
    ensures var p := LinkAll(UpsertItem(t, e), e, FindItem(t, e.itemId), Selected(e));
            p.Broken? || !Consistent(p.mem) ==> ExchangeStep(t, e).0 == t && ExchangeStep(t, e).1 != Ok
  {
    hide LinkAll, UpsertItem, Linked, CountNew, Selected, FindItem, AllReturned, Consistent;
  }

  lemma {:induction false} BrokenStays(e: Exchange, item: nat, xs: seq<Fetched>)
    ensures LinkAll(Broken, e, item, xs) == Broken
    decreases |xs|
  {
    if xs == [] {
    } else {
      BrokenStays(e, item, xs[..|xs| - 1]);
    }
  }

  lemma {:induction false} TwinPass(t: Tables, e: Exchange, p: Pass, item: nat, x: Fetched, y: Fetched)
    requires Good(t) && x.mask == y.mask && x.Kind() == y.Kind()
    requires p.Pass? && p.seen.accounts == p.mem.accounts == t.accounts && p.seen.links == p.mem.links == t.links
    requires FindAccount(t.accounts, e.uid, e.institution, x) == |t.accounts|
    requires FindLink(t, e.uid, x.pid) == |t.links| && FindLink(t, e.uid, y.pid) == |t.links|
    ensures var r := LinkOne(LinkOne(p, e, item, x), e, item, y);
            r.Pass? ==> !Consistent(r.mem)
  {
    hide First, Consistent, OnePerAccount;
    var a := |t.accounts|;
    assert forall b :: 0 <= b < a ==> !SameBankAccount(t.accounts[b], e.uid, e.institution, x);
    assert forall k :: 0 <= k < |t.links| ==>
        !IsLinkOf(t, t.links[k], e.uid, x.pid) && !IsLinkOf(t, t.links[k], e.uid, y.pid);
    assert Resolve(p.seen, e, x).None?;
    var q := UpsertAccount(p, e, x);
    if q.Pass? {
      assert q.seen == q.mem && |q.seen.accounts| == a + 1
          && SameBankAccount(q.seen.accounts[a], e.uid, e.institution, y);
      forall k | 0 <= k < |t.links| ensures !IsLinkOf(q.seen, t.links[k], e.uid, y.pid)
                                     ensures t.links[k].Some? ==> t.links[k].value.account != a {
        assert LinkOk(t, t.links[k]);
      }
      assert FindLinkOfAccount(q.seen, a) == |t.links|;
      var r := UpsertLink(q, e, item, a, x);
      assert r == LinkOne(p, e, item, x) && r.seen == q.seen;
      assert FindLink(r.seen, e.uid, y.pid) == |t.links|;
      assert FindAccount(r.seen.accounts, e.uid, e.institution, y) == a;
      var s := LinkOne(r, e, item, y);
      TwiceIsInconsistent(s.mem, |t.links|, |t.links| + 1);
    }
  }

  lemma {:induction false} TwiceIsInconsistent(t: Tables, i: nat, j: nat)
    requires i < j < |t.links| && t.links[i].Some? && t.links[j].Some?
    requires t.links[i].value.item == t.links[j].value.item && t.links[i].value.account == t.links[j].value.account
    ensures !Consistent(t)
  {
  }
}
