/** Linking bank accounts through Plaid: the exchange that connects an item and its accounts, and the
    part of account deletion that retires an item.

    Rows are kept in table order and never move: the id of a row is its position, a deleted row
    leaves None, and a query returns the first match. Sessions do not flush before queries, so the
    exchange carries two versions of the tables: what the database holds, which the WHERE clauses
    see, and what the session holds, which a flush writes. A flush that breaks a unique constraint
    undoes the whole request.
  */
module PlaidLinks {
  import opened Text

  datatype Kind = Traditional | Investment | Other

  datatype Account = Account(
    uid: string, kind: Kind, provider: Option<string>, mask: Option<string>, balance: Option<int>,
    secret: Option<string>)

  /** `secret` is None once the stored access token was purged. */
  datatype Item = Item(
    uid: string, itemId: string, institution: Option<string>, secret: Option<string>, active: bool, removed: bool)

  datatype Link = Link(uid: string, item: nat, account: nat, pid: Option<string>, active: bool)

  datatype Tables = Tables(accounts: seq<Option<Account>>, items: seq<Item>, links: seq<Option<Link>>)

  /** An account as the institution reports it, its id without surrounding blanks. */
  datatype Fetched = Fetched(pid: string, mask: Option<string>, investment: bool, balance: Option<int>)
  {
    function Kind(): Kind {
      if investment then Investment else Traditional
    }
  }

  /** One exchange: who asks, and what the provider returned. */
  datatype Exchange = Exchange(
    uid: string, institution: Option<string>, itemId: string, secret: string, limit: int,
    fetched: seq<Fetched>, selectedIds: set<string>)

  datatype Reply = Ok | Fail(status: int)

  // ----- Queries -----

  function First<T>(rows: seq<T>, p: T -> bool): (i: nat)
    ensures i <= |rows|
    ensures i < |rows| ==> p(rows[i])
    ensures forall k :: 0 <= k < i ==> !p(rows[k])
  {
    if rows == [] || p(rows[0]) then 0 else 1 + First(rows[1..], p)
  }

  predicate IsLinkOf(t: Tables, l: Option<Link>, uid: string, pid: string) {
    && l.Some? && l.value.uid == uid && l.value.pid == Some(pid)
    && l.value.account < |t.accounts| && t.accounts[l.value.account].Some?
        && t.accounts[l.value.account].value.uid == uid
  }

  function FindLink(t: Tables, uid: string, pid: string): nat {
    First(t.links, l => IsLinkOf(t, l, uid, pid))
  }

  function FindActiveLink(t: Tables, uid: string, pid: string): nat {
    First(t.links, l => IsLinkOf(t, l, uid, pid) && l.value.active)
  }

  predicate SameBankAccount(a: Option<Account>, uid: string, institution: Option<string>, x: Fetched) {
    && a.Some? && a.value.uid == uid && a.value.provider == institution
    && a.value.mask == x.mask && a.value.kind == x.Kind()
  }

  function FindAccount(accounts: seq<Option<Account>>, uid: string, institution: Option<string>, x: Fetched): nat {
    First(accounts, a => SameBankAccount(a, uid, institution, x))
  }

  function FindLinkOfAccount(t: Tables, account: nat): nat {
    First(t.links, (l: Option<Link>) => l.Some? && l.value.account == account)
  }

  function FindItem(t: Tables, itemId: string): nat {
    First(t.items, (m: Item) => m.itemId == itemId)
  }

  /** A row of the join that the limit counts. */
  predicate CountsFor(t: Tables, l: Option<Link>, uid: string) {
    && l.Some? && l.value.active
    && l.value.account < |t.accounts| && t.accounts[l.value.account].Some?
        && t.accounts[l.value.account].value.uid == uid
    && l.value.item < |t.items| && t.items[l.value.item].active && !t.items[l.value.item].removed
  }

  function CountLinked(t: Tables, links: seq<Option<Link>>, uid: string): nat {
    if links == [] then 0
    else
      var n := CountLinked(t, links[..|links| - 1], uid);
      if CountsFor(t, links[|links| - 1], uid) then n + 1 else n
  }

  /** How many accounts of the user are connected through a live item. */
  function Linked(t: Tables, uid: string): nat {
    CountLinked(t, t.links, uid)
  }

  // ----- Unique constraints -----

  predicate Consistent(t: Tables) {
    && (forall i, j :: 0 <= i < j < |t.items| ==> t.items[i].itemId != t.items[j].itemId)
    && (forall i, j :: 0 <= i < j < |t.links| && t.links[i].Some? && t.links[j].Some? ==>
          && (t.links[i].value.item != t.links[j].value.item || t.links[i].value.account != t.links[j].value.account)
          && (t.links[i].value.uid != t.links[j].value.uid || t.links[i].value.pid != t.links[j].value.pid
              || t.links[i].value.pid.None?))
  }

  // ----- The exchange -----

  function Selected(e: Exchange): seq<Fetched> {
    if e.selectedIds == {} then e.fetched else Chosen(e.fetched, e.selectedIds)
  }

  function Chosen(fetched: seq<Fetched>, ids: set<string>): seq<Fetched> {
    if fetched == [] then []
    else
      var init, last := Chosen(fetched[..|fetched| - 1], ids), fetched[|fetched| - 1];
      if last.pid in ids then init + [last] else init
  }

  predicate AllReturned(e: Exchange) {
    forall id :: id in e.selectedIds ==> exists k :: 0 <= k < |e.fetched| && e.fetched[k].pid == id
  }

  /** Whether the limit counts this account as one to add. */
  predicate IsNew(t: Tables, e: Exchange, x: Fetched) {
    && FindActiveLink(t, e.uid, x.pid) == |t.links|
    && FindAccount(t.accounts, e.uid, e.institution, x) == |t.accounts|
  }

  function CountNew(t: Tables, e: Exchange, xs: seq<Fetched>): nat {
    if xs == [] then 0
    else
      var n := CountNew(t, e, xs[..|xs| - 1]);
      if IsNew(t, e, xs[|xs| - 1]) then n + 1 else n
  }

  /** `seen` is in the database, `mem` in the session. */
  datatype Pass = Pass(seen: Tables, mem: Tables) | Broken

  function Flushed(mem: Tables): Pass {
    if Consistent(mem) then Pass(mem, mem) else Broken
  }

  /** Creates the item, or brings it back to life. */
  function UpsertItem(t: Tables, e: Exchange): Pass {
    var i := FindItem(t, e.itemId);
    var item := Item(e.uid, e.itemId, e.institution, Some(e.secret), true, false);
    if i == |t.items| then Flushed(t.(items := t.items + [item])) else Pass(t, t.(items := t.items[i := item]))
  }

  function Refreshed(a: Account, e: Exchange, x: Fetched): Account {
    a.(kind := x.Kind(), provider := e.institution, mask := x.mask, balance := x.balance, secret := Some(e.secret))
  }

  /** The account the fetched one stands for: the linked one, else one of the same description. */
  function Resolve(seen: Tables, e: Exchange, x: Fetched): (r: Option<nat>)
    ensures r.Some? && FindLink(seen, e.uid, x.pid) == |seen.links| ==> r.value < |seen.accounts|
  {
    var l := FindLink(seen, e.uid, x.pid);
    if l < |seen.links| then Some(seen.links[l].value.account)
    else
      var a := FindAccount(seen.accounts, e.uid, e.institution, x);
      if a < |seen.accounts| then Some(a) else None
  }

  function UpsertAccount(p: Pass, e: Exchange, x: Fetched): Pass
    requires p.Pass?
  {
    var r := Resolve(p.seen, e, x);
    if r.None? then
      var a := Account(e.uid, x.Kind(), e.institution, x.mask, x.balance, Some(e.secret));
      Flushed(p.mem.(accounts := p.mem.accounts + [Some(a)]))
    else if r.value < |p.mem.accounts| && p.mem.accounts[r.value].Some? then
      Pass(p.seen, p.mem.(accounts := p.mem.accounts[r.value := Some(Refreshed(p.mem.accounts[r.value].value, e, x))]))
    else p
  }

  /** The id of the account that UpsertAccount wrote. */
  function Written(p: Pass, e: Exchange, x: Fetched): nat
    requires p.Pass?
  {
    var r := Resolve(p.seen, e, x);
    if r.Some? then r.value else |p.mem.accounts|
  }

  function UpsertLink(p: Pass, e: Exchange, item: nat, account: nat, x: Fetched): Pass
    requires p.Pass?
  {
    var pid := if x.pid == "" then None else Some(x.pid);
    var l := FindLinkOfAccount(p.seen, account);
    if l == |p.seen.links| then
      Pass(p.seen, p.mem.(links := p.mem.links + [Some(Link(e.uid, item, account, pid, true))]))
    else if l < |p.mem.links| && p.mem.links[l].Some? then
      var was := p.mem.links[l].value;
      var link := was.(uid := e.uid, item := item, pid := if pid.Some? then pid else was.pid, active := true);
      Pass(p.seen, p.mem.(links := p.mem.links[l := Some(link)]))
    else p
  }

  function LinkOne(p: Pass, e: Exchange, item: nat, x: Fetched): Pass {
    if p.Broken? then Broken
    else
      var q := UpsertAccount(p, e, x);
      if q.Broken? then Broken else UpsertLink(q, e, item, Written(p, e, x), x)
  }

  function LinkAll(p: Pass, e: Exchange, item: nat, xs: seq<Fetched>): Pass {
    if xs == [] then p else LinkOne(LinkAll(p, e, item, xs[..|xs| - 1]), e, item, xs[|xs| - 1])
  }

  function ExchangeStep(t: Tables, e: Exchange): (Tables, Reply) {
    var xs := Selected(e);
    if !AllReturned(e) || xs == [] then (t, Fail(400))
    else if Linked(t, e.uid) + CountNew(t, e, xs) > e.limit then (t, Fail(403))
    else
      var i := FindItem(t, e.itemId);
      if i < |t.items| && t.items[i].uid != e.uid then (t, Fail(409))
      else
        var p := LinkAll(UpsertItem(t, e), e, i, xs);
        if p.Broken? || !Consistent(p.mem) then (t, Fail(500)) else (p.mem, Ok)
  }

  // ----- Deletion -----

  /** Another active mapping of the item remains. */
  predicate HasSibling(t: Tables, item: nat, account: nat) {
    exists k :: 0 <= k < |t.links| && t.links[k].Some? && t.links[k].value.item == item
                && t.links[k].value.active && t.links[k].value.account != account
  }

  /** The final mapping of an item goes: it is retired if the provider agrees (`removable`), and its
      secret is purged, if the secret store agrees (`purgeable`), in either case. */
  function RetireItem(t: Tables, item: nat, account: nat, removable: set<nat>, purgeable: set<nat>): Tables {
    if item >= |t.items| || !t.items[item].active || t.items[item].removed || HasSibling(t, item, account) then t
    else
      var retired := if item in removable then t.items[item].(active := false, removed := true) else t.items[item];
      var purged := if item in purgeable then retired.(secret := None) else retired;
      t.(items := t.items[item := purged])
  }

  function RetireItems(t: Tables, account: nat, n: nat, removable: set<nat>, purgeable: set<nat>): (r: Tables)
    requires n <= |t.links|
    ensures r.links == t.links && r.accounts == t.accounts
  {
    if n == 0 then t
    else
      var r := RetireItems(t, account, n - 1, removable, purgeable);
      var l := t.links[n - 1];
      if l.Some? && l.value.account == account && l.value.active
      then RetireItem(r, l.value.item, account, removable, purgeable)
      else r
  }

  function WithoutAccount(links: seq<Option<Link>>, account: nat): (r: seq<Option<Link>>)
    ensures |r| == |links|
    ensures forall k :: 0 <= k < |links| ==>
              r[k] == if links[k].Some? && links[k].value.account == account then None else links[k]
  {
    seq(|links|, k requires 0 <= k < |links| =>
      if links[k].Some? && links[k].value.account == account then None else links[k])
  }

  function DeleteStep(t: Tables, uid: string, account: nat, removable: set<nat>, purgeable: set<nat>): (Tables, Reply) {
    if account >= |t.accounts| || t.accounts[account].None? || t.accounts[account].value.uid != uid then (t, Fail(404))
    else
      var r := if t.accounts[account].value.kind == Other then t
               else RetireItems(t, account, |t.links|, removable, purgeable);
      (r.(accounts := r.accounts[account := None], links := WithoutAccount(r.links, account)), Ok)
  }

  // ----- Runs -----

  datatype Event =
    | Connect(e: Exchange)
    | Delete(uid: string, account: nat, removable: set<nat>, purgeable: set<nat>)

  function Step(t: Tables, event: Event): Tables {
    match event
    case Connect(e) => ExchangeStep(t, e).0
    case Delete(uid, account, removable, purgeable) => DeleteStep(t, uid, account, removable, purgeable).0
  }

  function Run(t: Tables, events: seq<Event>): Tables
    decreases |events|
  {
    if events == [] then t else Run(Step(t, events[0]), events[1..])
  }

  // ----- The endpoints -----

  class Store {
    var tables: Tables

    constructor (t: Tables)
      ensures tables == t
    {
      tables := t;
    }

    /** The accounts to connect; None when a selected id is missing. */
    method Select(e: Exchange) returns (xs: Option<seq<Fetched>>)
      ensures xs == if AllReturned(e) then Some(Selected(e)) else None
    {
      if e.selectedIds == {} {
        return Some(e.fetched);
      }
      var chosen, found: set<string> := [], {};
      for i := 0 to |e.fetched|
        invariant chosen == Chosen(e.fetched[..i], e.selectedIds)
        invariant found == set k | 0 <= k < i && e.fetched[k].pid in e.selectedIds :: e.fetched[k].pid
      {
        assert e.fetched[..i + 1][..i] == e.fetched[..i];
        if e.fetched[i].pid in e.selectedIds {
          chosen, found := chosen + [e.fetched[i]], found + {e.fetched[i].pid};
        }
      }
      assert e.fetched[..|e.fetched|] == e.fetched;
      xs := if e.selectedIds - found == {} then Some(chosen) else None;
      if AllReturned(e) {
        forall id | id in e.selectedIds ensures id in found {
          var k :| 0 <= k < |e.fetched| && e.fetched[k].pid == id;
        }
      } else {
        var id :| id in e.selectedIds && forall k :: 0 <= k < |e.fetched| ==> e.fetched[k].pid != id;
        assert id in e.selectedIds - found;
      }
    }

    method CountToAdd(e: Exchange, xs: seq<Fetched>) returns (n: nat)
      ensures n == CountNew(tables, e, xs)
    {
      n := 0;
      for i := 0 to |xs|
        invariant n == CountNew(tables, e, xs[..i])
      {
        assert xs[..i + 1][..i] == xs[..i];
        if FindActiveLink(tables, e.uid, xs[i].pid) < |tables.links| {
          continue;
        }
        if FindAccount(tables.accounts, e.uid, e.institution, xs[i]) < |tables.accounts| {
          continue;
        }
        n := n + 1;
      }
      assert xs[..|xs|] == xs;
    }

    method ConnectAccounts(e: Exchange, start: Pass, item: nat, xs: seq<Fetched>) returns (p: Pass)
      ensures p == LinkAll(start, e, item, xs)
    {
      p := start;
      for i := 0 to |xs|
        invariant p == LinkAll(start, e, item, xs[..i])
      {
        assert xs[..i + 1][..i] == xs[..i];
        if p.Pass? {
          var account := Written(p, e, xs[i]);
          p := UpsertAccount(p, e, xs[i]);
          if p.Pass? {
            p := UpsertLink(p, e, item, account, xs[i]);
          }
        }
      }
      assert xs[..|xs|] == xs;
    }

    method ExchangeToken(e: Exchange) returns (reply: Reply)
      modifies this
      ensures (tables, reply) == ExchangeStep(old(tables), e)
    {
      var chosen := Select(e);
      if chosen.None? || chosen.value == [] {
        return Fail(400);
      }
      var xs := chosen.value;
      var toAdd := CountToAdd(e, xs);
      if Linked(tables, e.uid) + toAdd > e.limit {
        return Fail(403);
      }
      var i := FindItem(tables, e.itemId);
      if i < |tables.items| && tables.items[i].uid != e.uid {
        return Fail(409);
      }
      var p := ConnectAccounts(e, UpsertItem(tables, e), i, xs);
      if p.Broken? || !Consistent(p.mem) {
        return Fail(500);
      }
      tables := p.mem;
      reply := Ok;
    }

    method DeleteAccount(uid: string, account: nat, removable: set<nat>, purgeable: set<nat>) returns (reply: Reply)
      modifies this
      ensures (tables, reply) == DeleteStep(old(tables), uid, account, removable, purgeable)
    {
      if account >= |tables.accounts| || tables.accounts[account].None? || tables.accounts[account].value.uid != uid {
        return Fail(404);
      }
      if tables.accounts[account].value.kind != Other {
        for n := 0 to |tables.links|
          invariant tables == RetireItems(old(tables), account, n, removable, purgeable)
        {
          var l := tables.links[n];
          if l.Some? && l.value.account == account && l.value.active {
            tables := RetireItem(tables, l.value.item, account, removable, purgeable);
          }
        }
      }
      tables := tables.(accounts := tables.accounts[account := None], links := WithoutAccount(tables.links, account));
      reply := Ok;
    }
  }
}
