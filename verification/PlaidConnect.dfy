/** When an exchange succeeds, and what it leaves: for accounts the institution names, and that kept the
    description they were linked under, exactly which selections break a constraint, which lose an
    account on the way, and how many accounts are newly connected.
  */
module PlaidConnect {
  import opened Text
  import opened PlaidLinks
  import opened PlaidProofs
  import opened PlaidLimit
  import opened PlaidSelection
  import opened PlaidTwins

  // ----- The tables after some accounts were written -----

  /** The last position at which `a` was written. */
  function Last(acc: seq<nat>, a: nat): (r: nat)
    requires a in acc
    ensures r < |acc| && acc[r] == a && forall j :: r < j < |acc| ==> acc[j] != a
  {
    var n := |acc| - 1;
    if acc[n] == a then n
    else
      assert acc == acc[..n] + [acc[n]];
      Last(acc[..n], a)
  }

  predicate LinkPlaced(l: Option<Link>, e: Exchange, item: nat, x: Fetched, a: nat) {
    l == Some(Link(e.uid, item, a, Some(x.pid), true))
  }

  predicate AccountPlaced(a: Option<Account>, e: Exchange, x: Fetched) {
    a == Some(Account(e.uid, x.Kind(), e.institution, x.mask, x.balance, Some(e.secret)))
  }

  /** The fetched account is stored as account `a` and mapped to the item. */
  ghost predicate Placed(mem: Tables, e: Exchange, item: nat, x: Fetched, a: nat) {
    && a < |mem.accounts| && AccountPlaced(mem.accounts[a], e, x)
    && exists k :: 0 <= k < |mem.links| && LinkPlaced(mem.links[k], e, item, x, a)
  }

  /** A mapping is as it was, or is the one its account was last written with. */
  predicate LinkAfter(t: Tables, l: Option<Link>, k: nat, e: Exchange, item: nat, xs: seq<Fetched>, acc: seq<nat>)
    requires |acc| <= |xs|
  {
    if l.None? then k < |t.links| ==> t.links[k].None?
    else if l.value.account in acc then
      && LinkPlaced(l, e, item, xs[Last(acc, l.value.account)], l.value.account)
      && (k < |t.links| ==> t.links[k].Some? && t.links[k].value.account == l.value.account)
    else k < |t.links| && l == t.links[k]
  }

  ghost predicate LinksAfter(
      t: Tables, links: seq<Option<Link>>, e: Exchange, item: nat, xs: seq<Fetched>, acc: seq<nat>)
    requires |acc| <= |xs|
  {
    && |t.links| <= |links|
    && (forall k :: 0 <= k < |links| ==> LinkAfter(t, links[k], k, e, item, xs, acc))
    && (forall a :: a in acc ==> Mapped(links, a))
    && OnePerAccount(links)
  }

  /** An account is as it was, or as it was last written. */
  predicate AccountAfter(t: Tables, row: Option<Account>, a: nat, e: Exchange, xs: seq<Fetched>, acc: seq<nat>)
    requires |acc| <= |xs|
  {
    if a in acc then AccountPlaced(row, e, xs[Last(acc, a)]) else a < |t.accounts| && row == t.accounts[a]
  }

  ghost predicate AccountsAfter(t: Tables, accounts: seq<Option<Account>>, e: Exchange, xs: seq<Fetched>, acc: seq<nat>)
    requires |acc| <= |xs|
  {
    && |t.accounts| <= |accounts| && (forall a :: a in acc ==> a < |accounts|)
    && forall a :: 0 <= a < |accounts| ==> AccountAfter(t, accounts[a], a, e, xs, acc)
  }

  /** The database holds what was written up to the last creation; of the account created there, not
      yet the mapping. */
  ghost predicate SeenAfter(t: Tables, seen: Tables, e: Exchange, item: nat, xs: seq<Fetched>, acc: seq<nat>)
    requires |acc| <= |xs|
  {
    var f := LastCreated(t, e, xs, |acc|);
    && AccountsAfter(t, seen.accounts, e, xs, acc[..f + 1])
    && LinksAfter(t, seen.links, e, item, xs, acc[..if f < 0 then 0 else f])
  }

  ghost predicate DistinctItems(items: seq<Item>) {
    forall i, j :: 0 <= i < j < |items| ==> items[i].itemId != items[j].itemId
  }

  /** The pass has written the accounts `acc`, one for each of the first fetched ones, and nothing else. */
  ghost predicate Wrote(t: Tables, p: Pass, e: Exchange, item: nat, xs: seq<Fetched>, acc: seq<nat>)
    requires |acc| <= |xs|
  {
    && p.Pass? && Fits(t, e, xs, acc)
    && AccountsAfter(t, p.mem.accounts, e, xs, acc) && LinksAfter(t, p.mem.links, e, item, xs, acc)
    && SeenAfter(t, p.seen, e, item, xs, acc) && DistinctItems(p.mem.items)
  }

  // ----- The unique constraints -----

  lemma {:induction false} SamePid(t: Tables, i: nat, k: nat)
    requires Consistent(t) && i < |t.links| && k < |t.links| && t.links[i].Some? && t.links[k].Some?
    requires t.links[i].value.uid == t.links[k].value.uid
    requires t.links[i].value.pid == t.links[k].value.pid && t.links[i].value.pid.Some?
    ensures i == k
  {
  }

  /** Plaid ids stay unique: a written mapping carries an id that no other mapping has. */
  lemma {:induction false} PidsDiffer(
      t: Tables, links: seq<Option<Link>>, e: Exchange, item: nat, xs: seq<Fetched>, acc: seq<nat>, i: nat, k: nat)
    requires Good(t) && |acc| <= |xs| && Identified(xs) && Fits(t, e, xs, acc) && LinksAfter(t, links, e, item, xs, acc)
    requires i < |links| && k < |links| && i != k && links[i].Some? && links[k].Some? && links[i].value.account in acc
    ensures links[i].value.uid != links[k].value.uid || links[i].value.pid != links[k].value.pid
  {
    hide Good, FitsAt, KnownId, First;
    assert LinkAfter(t, links[i], i, e, item, xs, acc) && LinkAfter(t, links[k], k, e, item, xs, acc);
    OtherAccount(links, i, k);
    var a, b := links[i].value.account, links[k].value.account;
    var j := Last(acc, a);
    if b in acc {
      assert xs[j].pid != xs[Last(acc, b)].pid;
    } else if links[k].value.uid == e.uid && links[k].value.pid == Some(xs[j].pid) {
      HadTheId(t, e, xs, acc, k, j);
    }
  }

  lemma {:induction false} OtherAccount(links: seq<Option<Link>>, i: nat, k: nat)
    requires OnePerAccount(links) && i < |links| && k < |links| && links[i].Some? && links[k].Some? && i != k
    ensures links[i].value.account != links[k].value.account
  {
  }

  lemma {:induction false} IsLink(t: Tables, e: Exchange, k: nat, x: Fetched)
    requires Good(t) && k < |t.links| && t.links[k].Some?
    requires t.links[k].value.uid == e.uid && t.links[k].value.pid == Some(x.pid)
    ensures IsLinkOf(t, t.links[k], e.uid, x.pid) && KnownId(t, e, x)
    ensures KnownAccount(t, e, x) == t.links[k].value.account
  {
    hide OnePerAccount, First;
    assert LinkOk(t, t.links[k]);
    hide Live;
    assert IsLinkOf(t, t.links[k], e.uid, x.pid);
    var m := FindLink(t, e.uid, x.pid);
    assert IsLinkOf(t, t.links[m], e.uid, x.pid);
    SamePid(t, m, k);
  }

  /** A mapping that had the id of the j-th belongs to an account that is written. */
  lemma {:induction false} HadTheId(t: Tables, e: Exchange, xs: seq<Fetched>, acc: seq<nat>, k: nat, j: nat)
    requires Good(t) && j < |acc| <= |xs| && Fits(t, e, xs, acc)
    requires k < |t.links| && t.links[k].Some? && t.links[k].value.uid == e.uid
    requires t.links[k].value.pid == Some(xs[j].pid)
    ensures t.links[k].value.account in acc
  {
    hide Good, Fits, KnownId, KnownAccount, Mapped, OwnLook;
    AllFit(t, e, xs, acc);
    IsLink(t, e, k, xs[j]);
    var b := t.links[k].value.account;
    if b in acc[..j] {
      var i :| 0 <= i < j && acc[..j][i] == b;
      assert acc[i] == b;
    } else {
      assert FitsAt(t, e, xs, acc, j);
      assert acc[j] == b;
    }
  }

  lemma {:induction false} WroteIsConsistent(
      t: Tables, p: Pass, e: Exchange, item: nat, xs: seq<Fetched>, acc: seq<nat>)
    requires Good(t) && |acc| <= |xs| && Identified(xs) && Wrote(t, p, e, item, xs, acc)
    ensures Consistent(p.mem)
  {
    var links := p.mem.links;
    hide Fits, AccountsAfter, SeenAfter, Identified, LinksOk, LinkAfter;
    forall i, k | 0 <= i < k < |links| && links[i].Some? && links[k].Some?
      ensures links[i].value.account != links[k].value.account
      ensures links[i].value.uid != links[k].value.uid || links[i].value.pid != links[k].value.pid
          || links[i].value.pid.None?
    {
      OtherAccount(links, i, k);
      if links[i].value.account in acc {
        PidsDiffer(t, links, e, item, xs, acc, i, k);
      } else if links[k].value.account in acc {
        PidsDiffer(t, links, e, item, xs, acc, k, i);
      } else {
        KeptLinks(t, links, e, item, xs, acc, i);
        KeptLinks(t, links, e, item, xs, acc, k);
      }
    }
  }

  lemma {:induction false} KeptLinks(
      t: Tables, links: seq<Option<Link>>, e: Exchange, item: nat, xs: seq<Fetched>, acc: seq<nat>, k: nat)
    requires |acc| <= |xs| && LinksAfter(t, links, e, item, xs, acc) && k < |links| && links[k].Some?
    requires links[k].value.account !in acc
    ensures k < |t.links| && links[k] == t.links[k]
  {
    assert LinkAfter(t, links[k], k, e, item, xs, acc);
  }

  // ----- What the queries of the n-th account find -----

  lemma {:induction false} SeenMatch(
      t: Tables, accounts: seq<Option<Account>>, e: Exchange, xs: seq<Fetched>, acc: seq<nat>, n: nat, a: nat)
    requires n < |xs| && |acc| == n && Fits(t, e, xs, acc)
    requires AccountsAfter(t, accounts, e, xs, acc[..LastCreated(t, e, xs, n) + 1])
    ensures MatchIn(t, e, xs, acc, n, a) ==> a < |accounts|
    ensures a < |accounts|
        ==> (SameBankAccount(accounts[a], e.uid, e.institution, xs[n]) <==> MatchIn(t, e, xs, acc, n, a))
  {
    hide FitsAt, Creates;
    var f := LastCreated(t, e, xs, n);
    var w := acc[..f + 1];
    forall j | 0 <= j <= f && WrittenAlike(xs, acc, n, j, a) ensures a in w {
      assert w[j] == a;
    }
    if a < |accounts| && a in w {
      assert AccountAfter(t, accounts[a], a, e, xs, w);
      var j := Last(w, a);
      WrittenIsAlike(t, e, xs, acc, n, a, j);
    } else if a < |accounts| {
      assert AccountAfter(t, accounts[a], a, e, xs, w);
    }
  }

  /** The last account written to `a` looks like the n-th if and only if `a` matches it. */
  lemma {:induction false} WrittenIsAlike(
      t: Tables, e: Exchange, xs: seq<Fetched>, acc: seq<nat>, n: nat, a: nat, j: nat)
    requires n < |xs| && |acc| == n && Fits(t, e, xs, acc) && 0 <= j <= LastCreated(t, e, xs, n) && acc[j] == a
    ensures Alike(xs[j], xs[n]) <==> MatchIn(t, e, xs, acc, n, a)
  {
    hide FitsAt, Creates, LastCreated;
    if Alike(xs[j], xs[n]) {
      assert WrittenAlike(xs, acc, n, j, a);
    }
    if MatchIn(t, e, xs, acc, n, a) {
      if a < |t.accounts| && SameBankAccount(t.accounts[a], e.uid, e.institution, xs[n]) {
        AllFit(t, e, xs, acc);
        WrittenLook(t, e, xs, acc, j);
        LooksAlike(t, e, a, xs[j], xs[n]);
      } else {
        var i :| 0 <= i <= LastCreated(t, e, xs, n) && WrittenAlike(xs, acc, n, i, a);
        WritersAlike(t, e, xs, acc, i, j);
      }
    }
  }

  /** A mapping in the database with the id of the n-th is one that had it before. */
  lemma {:induction false} CarriesOldId(
      t: Tables, links: seq<Option<Link>>, e: Exchange, item: nat, xs: seq<Fetched>, acc: seq<nat>, n: nat, k: nat)
    requires n < |xs| && |acc| <= n && Identified(xs) && LinksAfter(t, links, e, item, xs, acc)
    requires k < |links| && links[k].Some? && links[k].value.pid == Some(xs[n].pid)
    ensures links[k].value.account !in acc && k < |t.links| && links[k] == t.links[k]
  {
    assert LinkAfter(t, links[k], k, e, item, xs, acc);
    if links[k].value.account in acc {
      IdsDiffer(xs, Last(acc, links[k].value.account), n);
    }
  }

  lemma {:induction false} IdsDiffer(xs: seq<Fetched>, i: nat, j: nat)
    requires Identified(xs) && i < j < |xs|
    ensures xs[i].pid != xs[j].pid
  {
  }

  ghost function LinksSeen(t: Tables, e: Exchange, xs: seq<Fetched>, acc: seq<nat>): (w: seq<nat>)
    requires |acc| <= |xs|
    ensures |w| <= |acc| && w == acc[..|w|]
  {
    var f := LastCreated(t, e, xs, |acc|);
    acc[..if f < 0 then 0 else f]
  }

  lemma {:induction false} UnknownNotFound(
      t: Tables, seen: Tables, e: Exchange, item: nat, xs: seq<Fetched>, acc: seq<nat>)
    requires Good(t) && |acc| < |xs| && Identified(xs) && !KnownId(t, e, xs[|acc|])
    requires LinksAfter(t, seen.links, e, item, xs, LinksSeen(t, e, xs, acc))
    ensures FindLink(seen, e.uid, xs[|acc|].pid) == |seen.links|
  {
    hide First, Good, KnownId, Identified, LinksAfter, LinksSeen;
    var n := |acc|;
    var k := FindLink(seen, e.uid, xs[n].pid);
    if k < |seen.links| {
      assert IsLinkOf(seen, seen.links[k], e.uid, xs[n].pid);
      CarriesOldId(t, seen.links, e, item, xs, LinksSeen(t, e, xs, acc), n, k);
      IsLink(t, e, k, xs[n]);
    }
  }

  /** A known one is found by its id, unless a twin took the mapping over before the flush. */
  lemma {:induction false} KnownFound(t: Tables, seen: Tables, e: Exchange, item: nat, xs: seq<Fetched>, acc: seq<nat>)
    requires Good(t) && |acc| < |xs| && Identified(xs) && KnownId(t, e, xs[|acc|])
    requires LinksAfter(t, seen.links, e, item, xs, LinksSeen(t, e, xs, acc))
    requires AccountsAfter(t, seen.accounts, e, xs, acc[..LastCreated(t, e, xs, |acc|) + 1])
    ensures var k := FindLink(seen, e.uid, xs[|acc|].pid);
            if KnownAccount(t, e, xs[|acc|]) in LinksSeen(t, e, xs, acc) then k == |seen.links|
            else k < |seen.links| && seen.links[k].value.account == KnownAccount(t, e, xs[|acc|])
  {
    hide First, Good, Identified, LinksAfter, LinksSeen, AccountsAfter, LastCreated;
    var n := |acc|;
    var w := LinksSeen(t, e, xs, acc);
    var b, k := KnownAccount(t, e, xs[n]), FindLink(seen, e.uid, xs[n].pid);
    var k0 := FindLink(t, e.uid, xs[n].pid);
    assert IsLinkOf(t, t.links[k0], e.uid, xs[n].pid);
    if k < |seen.links| {
      assert IsLinkOf(seen, seen.links[k], e.uid, xs[n].pid);
      CarriesOldId(t, seen.links, e, item, xs, w, n, k);
      IsLink(t, e, k, xs[n]);
    }
    if b !in w {
      StillThere(t, seen, e, item, xs, acc, k0);
      assert IsLinkOf(seen, seen.links[k0], e.uid, xs[n].pid);
    }
  }

  lemma {:induction false} StillThere(
      t: Tables, seen: Tables, e: Exchange, item: nat, xs: seq<Fetched>, acc: seq<nat>, k: nat)
    requires |acc| < |xs| && k < |t.links| && IsLinkOf(t, t.links[k], e.uid, xs[|acc|].pid)
    requires LinksAfter(t, seen.links, e, item, xs, LinksSeen(t, e, xs, acc))
    requires AccountsAfter(t, seen.accounts, e, xs, acc[..LastCreated(t, e, xs, |acc|) + 1])
    requires t.links[k].value.account !in LinksSeen(t, e, xs, acc)
    ensures k < |seen.links| && IsLinkOf(seen, seen.links[k], e.uid, xs[|acc|].pid)
  {
    hide LinksSeen, LastCreated;
    var w, v := LinksSeen(t, e, xs, acc), acc[..LastCreated(t, e, xs, |acc|) + 1];
    assert LinkAfter(t, seen.links[k], k, e, item, xs, w);
    var b := t.links[k].value.account;
    assert AccountAfter(t, seen.accounts[b], b, e, xs, v);
  }

  // ----- The account step -----

  /** The account the n-th is written to fits. */
  lemma {:induction false} WrittenFits(t: Tables, p: Pass, e: Exchange, item: nat, xs: seq<Fetched>, acc: seq<nat>)
    requires Good(t) && SameDescriptions(t, e.uid, xs) && Identified(xs)
    requires |acc| < |xs| && Wrote(t, p, e, item, xs, acc)
    ensures FitsAt(t, e, xs, acc + [Written(p, e, xs[|acc|])], |acc|)
    ensures Resolve(p.seen, e, xs[|acc|]).None? <==> Creates(t, e, xs, |acc|)
    ensures Resolve(p.seen, e, xs[|acc|]).Some? ==> Resolve(p.seen, e, xs[|acc|]).value < |p.seen.accounts|
  {
    hide Good, SameDescriptions, Identified, KnownId, Fits, AccountsAfter, LinksAfter, LastCreated;
    SeenParts(t, p, e, item, xs, acc);
    if KnownId(t, e, xs[|acc|]) {
      hide Wrote;
      KnownWrittenFits(t, p, e, item, xs, acc);
    } else {
      hide Wrote;
      UnknownWrittenFits(t, p, e, item, xs, acc);
    }
  }

  lemma {:induction false} SeenParts(t: Tables, p: Pass, e: Exchange, item: nat, xs: seq<Fetched>, acc: seq<nat>)
    requires |acc| <= |xs| && Wrote(t, p, e, item, xs, acc)
    ensures p.Pass? && Fits(t, e, xs, acc)
    ensures LinksAfter(t, p.seen.links, e, item, xs, LinksSeen(t, e, xs, acc))
    ensures AccountsAfter(t, p.seen.accounts, e, xs, acc[..LastCreated(t, e, xs, |acc|) + 1])
    ensures forall a :: a in acc ==> a < |p.mem.accounts|
    ensures |t.accounts| <= |p.mem.accounts|
  {
    hide LinksAfter, LastCreated, Fits;
  }

  /** The description lookup returns the first match. */
  lemma {:induction false} FirstMatch(t: Tables, p: Pass, e: Exchange, item: nat, xs: seq<Fetched>, acc: seq<nat>)
    requires |acc| < |xs| && p.Pass? && Fits(t, e, xs, acc)
    requires AccountsAfter(t, p.seen.accounts, e, xs, acc[..LastCreated(t, e, xs, |acc|) + 1])
    ensures var a := FindAccount(p.seen.accounts, e.uid, e.institution, xs[|acc|]);
            && a <= |p.seen.accounts|
            && (forall b :: 0 <= b < a ==> !MatchIn(t, e, xs, acc, |acc|, b))
            && (if a < |p.seen.accounts| then MatchIn(t, e, xs, acc, |acc|, a)
                else forall b :: !MatchIn(t, e, xs, acc, |acc|, b))
  {
    hide First, Fits, AccountsAfter, LastCreated, MatchIn, SameBankAccount;
    forall b: nat
      ensures MatchIn(t, e, xs, acc, |acc|, b) ==> b < |p.seen.accounts|
      ensures b < |p.seen.accounts| ==>
                (SameBankAccount(p.seen.accounts[b], e.uid, e.institution, xs[|acc|])
                 <==> MatchIn(t, e, xs, acc, |acc|, b))
    {
      SeenMatch(t, p.seen.accounts, e, xs, acc, |acc|, b);
    }
  }

  lemma {:induction false} UnknownWrittenFits(
      t: Tables, p: Pass, e: Exchange, item: nat, xs: seq<Fetched>, acc: seq<nat>)
    requires Good(t) && SameDescriptions(t, e.uid, xs) && Identified(xs)
    requires |acc| < |xs| && Wrote(t, p, e, item, xs, acc)
    requires !KnownId(t, e, xs[|acc|])
    ensures FitsAt(t, e, xs, acc + [Written(p, e, xs[|acc|])], |acc|)
    ensures Resolve(p.seen, e, xs[|acc|]).None? <==> Creates(t, e, xs, |acc|)
    ensures Resolve(p.seen, e, xs[|acc|]).Some? ==> Resolve(p.seen, e, xs[|acc|]).value < |p.seen.accounts|
  {
    hide Good, SameDescriptions, Identified, KnownId, Fits, AccountsAfter, LinksAfter, LastCreated, Creates, LinksSeen,
        MatchIn, FindAccount, FindLink, Wrote, Outranked, Mapped, OwnLook, Described;
    var n := |acc|;
    SeenParts(t, p, e, item, xs, acc);
    UnknownNotFound(t, p.seen, e, item, xs, acc);
    FirstMatch(t, p, e, item, xs, acc);
    var a := FindAccount(p.seen.accounts, e.uid, e.institution, xs[n]);
    assert (acc + [Written(p, e, xs[n])])[..n] == acc && acc[..n] == acc;
    if a == |p.seen.accounts| {
      NoMatchCreates(t, e, xs, acc, n);
    } else {
      MatchFits(t, e, xs, acc, a);
      if Creates(t, e, xs, n) {
        CreatesHasNoMatch(t, e, xs, acc, n, a);
      }
    }
  }

  lemma {:induction false} KnownWrittenFits(t: Tables, p: Pass, e: Exchange, item: nat, xs: seq<Fetched>, acc: seq<nat>)
    requires Good(t) && SameDescriptions(t, e.uid, xs) && Identified(xs)
    requires |acc| < |xs| && Wrote(t, p, e, item, xs, acc)
    requires KnownId(t, e, xs[|acc|])
    ensures FitsAt(t, e, xs, acc + [Written(p, e, xs[|acc|])], |acc|)
    ensures Resolve(p.seen, e, xs[|acc|]).Some? && !Creates(t, e, xs, |acc|)
    ensures Resolve(p.seen, e, xs[|acc|]).value < |p.seen.accounts|
  {
    hide Good, SameDescriptions, Identified, KnownId, Fits, AccountsAfter, LinksAfter, LastCreated, LinksSeen, MatchIn,
        FindAccount, FindLink, Wrote, Outranked, Mapped, OwnLook, Described, KnownAccount;
    var n := |acc|;
    SeenParts(t, p, e, item, xs, acc);
    KnownFound(t, p.seen, e, item, xs, acc);
    KnownLook(t, e, xs, n);
    KnownInTable(t, e, xs[n]);
    var b := KnownAccount(t, e, xs[n]);
    assert (acc + [Written(p, e, xs[n])])[..n] == acc && acc[..n] == acc;
    if b in LinksSeen(t, e, xs, acc) {
      FirstMatch(t, p, e, item, xs, acc);
      var a := FindAccount(p.seen.accounts, e.uid, e.institution, xs[n]);
      var j := SeenWriter(t, e, xs, acc, b);
      WriterMatches(t, e, xs, acc, j);
      TakenOverFits(t, e, xs, acc, j, a);
    } else {
      SeenHasAll(t, p.seen.accounts, e, xs, acc[..LastCreated(t, e, xs, n) + 1]);
    }
  }

  lemma {:induction false} SeenHasAll(
      t: Tables, accounts: seq<Option<Account>>, e: Exchange, xs: seq<Fetched>, w: seq<nat>)
    requires |w| <= |xs| && AccountsAfter(t, accounts, e, xs, w)
    ensures |t.accounts| <= |accounts|
  {
  }

  lemma {:induction false} SeenWriter(t: Tables, e: Exchange, xs: seq<Fetched>, acc: seq<nat>, b: nat) returns (j: nat)
    requires |acc| <= |xs| && b in LinksSeen(t, e, xs, acc)
    ensures j < |acc| && j <= LastCreated(t, e, xs, |acc|) && acc[j] == b
    ensures j < LastCreated(t, e, xs, |acc|)
  {
    hide LastCreated;
    var w := LinksSeen(t, e, xs, acc);
    j :| 0 <= j < |w| && w[j] == b;
    assert acc[j] == b;
  }

  lemma {:induction false} LastExtended(acc: seq<nat>, a: nat, b: nat)
    ensures b == a ==> Last(acc + [a], b) == |acc|
    ensures b != a && b in acc ==> Last(acc + [a], b) == Last(acc, b)
    ensures b in acc + [a] <==> b == a || b in acc
  {
    assert (acc + [a])[..|acc|] == acc;
  }

  lemma {:induction false} AccountsWritten(
      t: Tables, before: seq<Option<Account>>, after: seq<Option<Account>>, e: Exchange, xs: seq<Fetched>,
      acc: seq<nat>, a: nat)
    requires |acc| < |xs| && AccountsAfter(t, before, e, xs, acc) && a < |after| && |before| <= |after| <= |before| + 1
    requires AccountPlaced(after[a], e, xs[|acc|])
    requires forall b :: 0 <= b < |after| && b != a ==> b < |before| && after[b] == before[b]
    ensures AccountsAfter(t, after, e, xs, acc + [a])
  {
    hide AccountPlaced, Last;
    forall b | 0 <= b < |after| ensures AccountAfter(t, after[b], b, e, xs, acc + [a]) {
      LastExtended(acc, a, b);
      if b != a {
        var row := after[b];
        assert AccountAfter(t, before[b], b, e, xs, acc);
      }
    }
  }

  /** The account is written; its mapping is still to come. */
  ghost predicate Halfway(t: Tables, q: Pass, e: Exchange, item: nat, xs: seq<Fetched>, acc: seq<nat>, a: nat)
    requires |acc| < |xs|
  {
    && q.Pass? && Fits(t, e, xs, acc + [a])
    && AccountsAfter(t, q.mem.accounts, e, xs, acc + [a]) && LinksAfter(t, q.mem.links, e, item, xs, acc)
    && SeenAfter(t, q.seen, e, item, xs, acc + [a]) && DistinctItems(q.mem.items)
  }

  lemma {:induction false} FitsExtended(t: Tables, e: Exchange, xs: seq<Fetched>, acc: seq<nat>, a: nat)
    requires |acc| < |xs| && Fits(t, e, xs, acc) && FitsAt(t, e, xs, acc + [a], |acc|)
    ensures Fits(t, e, xs, acc + [a])
  {
    hide KnownId, OwnLook, Creates, Outranked, Mapped, Described, KnownAccount, FirstUnknown;
    forall j | 0 <= j < |acc| + 1 ensures FitsAt(t, e, xs, acc + [a], j) {
      if j < |acc| {
        assert FitsAt(t, e, xs, acc, j);
        assert (acc + [a])[..j] == acc[..j];
      }
    }
  }

  lemma {:induction false} AccountWritten(t: Tables, p: Pass, e: Exchange, item: nat, xs: seq<Fetched>, acc: seq<nat>)
    requires Good(t) && SameDescriptions(t, e.uid, xs) && Identified(xs)
    requires |acc| < |xs| && Wrote(t, p, e, item, xs, acc)
    requires PassOk(p, e, item)
    ensures Halfway(t, UpsertAccount(p, e, xs[|acc|]), e, item, xs, acc, Written(p, e, xs[|acc|]))
  {
    hide *;
    SeenParts(t, p, e, item, xs, acc);
    var a := Written(p, e, xs[|acc|]);
    WrittenIs(p, e, xs[|acc|]);
    WrittenFits(t, p, e, item, xs, acc);
    FitsExtended(t, e, xs, acc, a);
    if Creates(t, e, xs, |acc|) {
      WroteIsConsistent(t, p, e, item, xs, acc);
      CreatedHalfway(t, p, e, item, xs, acc);
    } else {
      ResolvedIsOwn(p, e, item, xs[|acc|]);
      PassLengths(p, e, item);
      RefreshedHalfway(t, p, e, item, xs, acc);
    }
  }

  lemma {:induction false} WrittenIs(p: Pass, e: Exchange, x: Fetched)
    requires p.Pass?
    ensures Resolve(p.seen, e, x).None? ==> Written(p, e, x) == |p.mem.accounts|
    ensures Resolve(p.seen, e, x).Some? ==> Written(p, e, x) == Resolve(p.seen, e, x).value
  {
    hide Resolve;
  }

  lemma {:induction false} CreatedHalfway(t: Tables, p: Pass, e: Exchange, item: nat, xs: seq<Fetched>, acc: seq<nat>)
    requires |acc| < |xs| && Wrote(t, p, e, item, xs, acc) && Consistent(p.mem) && Creates(t, e, xs, |acc|)
    requires Resolve(p.seen, e, xs[|acc|]).None? && Fits(t, e, xs, acc + [|p.mem.accounts|])
    ensures Written(p, e, xs[|acc|]) == |p.mem.accounts|
    ensures Halfway(t, UpsertAccount(p, e, xs[|acc|]), e, item, xs, acc, Written(p, e, xs[|acc|]))
  {
    hide Fits, Resolve, LinksAfter, AccountsAfter, Creates, Consistent, DistinctItems;
    var n, x := |acc|, xs[|acc|];
    var row := Account(e.uid, x.Kind(), e.institution, x.mask, x.balance, Some(e.secret));
    var mem := p.mem.(accounts := p.mem.accounts + [Some(row)]);
    SameConstraints(p.mem, mem);
    AccountsWritten(t, p.mem.accounts, mem.accounts, e, xs, acc, |p.mem.accounts|) by {
      HasAll(t, p.mem.accounts, e, xs, acc);
    }
    var acc' := acc + [|p.mem.accounts|];
    assert acc'[..n + 1] == acc' && acc'[..n] == acc;
  }

  lemma {:induction false} HasAll(
      t: Tables, accounts: seq<Option<Account>>, e: Exchange, xs: seq<Fetched>, acc: seq<nat>)
    requires |acc| <= |xs| && AccountsAfter(t, accounts, e, xs, acc)
    ensures |t.accounts| <= |accounts|
  {
  }

  lemma {:induction false} SameConstraints(t: Tables, t': Tables)
    requires Consistent(t) && t'.items == t.items && t'.links == t.links
    ensures Consistent(t')
  {
  }

  lemma {:induction false} RefreshedHalfway(t: Tables, p: Pass, e: Exchange, item: nat, xs: seq<Fetched>, acc: seq<nat>)
    requires |acc| < |xs| && Wrote(t, p, e, item, xs, acc) && !Creates(t, e, xs, |acc|)
    requires Resolve(p.seen, e, xs[|acc|]).Some? && Fits(t, e, xs, acc + [Resolve(p.seen, e, xs[|acc|]).value])
    requires var a := Resolve(p.seen, e, xs[|acc|]).value;
             a < |p.mem.accounts| && p.mem.accounts[a].Some? && p.mem.accounts[a].value.uid == e.uid
    ensures Written(p, e, xs[|acc|]) == Resolve(p.seen, e, xs[|acc|]).value
    ensures Halfway(t, UpsertAccount(p, e, xs[|acc|]), e, item, xs, acc, Written(p, e, xs[|acc|]))
  {
    hide Fits, Resolve, LinksAfter, AccountsAfter, Creates, DistinctItems;
    var n, a := |acc|, Resolve(p.seen, e, xs[|acc|]).value;
    AccountsWritten(t, p.mem.accounts, UpsertAccount(p, e, xs[n]).mem.accounts, e, xs, acc, a);
    var f := LastCreated(t, e, xs, n);
    assert LastCreated(t, e, xs, n + 1) == f;
    assert (acc + [a])[..f + 1] == acc[..f + 1];
    assert (acc + [a])[..if f < 0 then 0 else f] == acc[..if f < 0 then 0 else f];
  }

  // ----- The mapping step -----

  /** The mapping of `a` is in the database exactly when it was there before or was written and flushed. */
  lemma {:induction false} SeenMapping(
      t: Tables, seen: Tables, e: Exchange, item: nat, xs: seq<Fetched>, w: seq<nat>, a: nat)
    requires |w| <= |xs| && LinksAfter(t, seen.links, e, item, xs, w)
    ensures FindLinkOfAccount(seen, a) < |seen.links| <==> Mapped(t.links, a) || a in w
  {
    hide First, OnePerAccount;
    var k := FindLinkOfAccount(seen, a);
    if k < |seen.links| {
      assert LinkAfter(t, seen.links[k], k, e, item, xs, w);
    } else {
      assert !Mapped(seen.links, a);
      if Mapped(t.links, a) {
        var m :| 0 <= m < |t.links| && t.links[m].Some? && t.links[m].value.account == a;
        StaysMapped(t, seen.links, e, item, xs, w, m);
      }
    }
  }

  lemma {:induction false} StaysMapped(
      t: Tables, links: seq<Option<Link>>, e: Exchange, item: nat, xs: seq<Fetched>, w: seq<nat>, m: nat)
    requires |w| <= |xs| && LinksAfter(t, links, e, item, xs, w) && m < |t.links| && t.links[m].Some?
    ensures Mapped(links, t.links[m].value.account)
  {
    hide OnePerAccount;
    assert LinkAfter(t, links[m], m, e, item, xs, w);
    assert links[m].Some? && links[m].value.account == t.links[m].value.account;
  }

  lemma {:induction false} LinkUpdated(
      t: Tables, links: seq<Option<Link>>, e: Exchange, item: nat, xs: seq<Fetched>, acc: seq<nat>, a: nat, k: nat,
      l: Option<Link>)
    requires |acc| < |xs| && LinksAfter(t, links, e, item, xs, acc)
    requires k < |links| && links[k].Some? && links[k].value.account == a
    requires LinkPlaced(l, e, item, xs[|acc|], a)
    ensures LinksAfter(t, links[k := l], e, item, xs, acc + [a])
  {
    hide Last;
    var after := links[k := l];
    forall m | 0 <= m < |after| ensures LinkAfter(t, after[m], m, e, item, xs, acc + [a]) {
      assert LinkAfter(t, links[m], m, e, item, xs, acc);
      if links[m].Some? {
        LastExtended(acc, a, links[m].value.account);
        if m != k {
          OtherAccount(links, m, k);
        }
      }
    }
    forall b | b in acc + [a] ensures Mapped(after, b) {
      if b == a {
        assert after[k].value.account == b;
      } else {
        var m :| 0 <= m < |links| && links[m].Some? && links[m].value.account == b;
        assert after[m].value.account == b;
      }
    }
  }

  lemma {:induction false} LinkAppended(
      t: Tables, links: seq<Option<Link>>, e: Exchange, item: nat, xs: seq<Fetched>, acc: seq<nat>, a: nat,
      l: Option<Link>)
    requires |acc| < |xs| && LinksAfter(t, links, e, item, xs, acc) && a !in acc && !Mapped(t.links, a)
    requires LinkPlaced(l, e, item, xs[|acc|], a)
    ensures LinksAfter(t, links + [l], e, item, xs, acc + [a])
  {
    hide Last;
    var after := links + [l];
    forall m | 0 <= m < |links| && links[m].Some? ensures links[m].value.account != a {
      if links[m].value.account == a {
        KeptLinks(t, links, e, item, xs, acc, m);
      }
    }
    forall m | 0 <= m < |after| ensures LinkAfter(t, after[m], m, e, item, xs, acc + [a]) {
      LastExtended(acc, a, a);
      if m < |links| {
        assert LinkAfter(t, links[m], m, e, item, xs, acc);
        if links[m].Some? {
          LastExtended(acc, a, links[m].value.account);
        }
      }
    }
    forall b | b in acc + [a] ensures Mapped(after, b) {
      if b == a {
        assert after[|links|].value.account == b;
      } else {
        var m :| 0 <= m < |links| && links[m].Some? && links[m].value.account == b;
        assert after[m].value.account == b;
      }
    }
  }

  /** The mapping step: what it does to the session's mappings. */
  lemma {:induction false} MappingWritten(
      t: Tables, q: Pass, e: Exchange, item: nat, xs: seq<Fetched>, acc: seq<nat>, a: nat)
    requires |acc| < |xs| && Identified(xs) && Halfway(t, q, e, item, xs, acc, a)
    requires PassOk(q, e, item) && OwnAccount(q.mem, e, a)
    ensures var r := UpsertLink(q, e, item, a, xs[|acc|]);
            && r.Pass? && r.seen == q.seen && r.mem.accounts == q.mem.accounts && r.mem.items == q.mem.items
            && (Mapped(t.links, a) || a !in acc ==> LinksAfter(t, r.mem.links, e, item, xs, acc + [a]))
            && (TakenUnflushed(t, e, xs, acc + [a], |acc|) ==> Twice(r.mem.links))
            && (!TakenUnflushed(t, e, xs, acc + [a], |acc|) ==> LinksAfter(t, r.mem.links, e, item, xs, acc + [a]))
            && CountLinks(r.mem.links, e.uid) ==
                 CountLinks(q.mem.links, e.uid) + if FindLinkOfAccount(q.seen, a) == |q.seen.links| then 1 else 0
  {
    hide PassOk, FindLinkOfAccount, Fits, AccountsAfter, LinksAfter, Mapped, LastCreated, Twice, OwnAccount, LinkPlaced;
    var n, x := |acc|, xs[|acc|];
    HasPid(xs, n);
    var k := FindLinkOfAccount(q.seen, a);
    FindBound(q.seen, a);
    FoundIsUsers(q, e, item, a);
    var l := Some(Link(e.uid, item, a, Some(x.pid), true));
    assert LinkPlaced(l, e, item, x, a) by {
      PlacedIs(e, item, x, a);
    }
    var f := LastCreated(t, e, xs, n + 1);
    var w := (acc + [a])[..if f < 0 then 0 else f];
    SeenMapping(t, q.seen, e, item, xs, w, a);
    if k < |q.seen.links| {
      CountUpdated(q.mem.links, e.uid, k, l);
      LinkUpdated(t, q.mem.links, e, item, xs, acc, a, k, l);
      FoundIsNotTaken(t, e, xs, acc, a);
    } else {
      CountAppended(q.mem.links, l.value);
      AppendMaps(q.mem.links, l.value);
      if a in acc {
        MissingIsTaken(t, e, xs, acc, a);
        MappedNow(t, q.mem.links, e, item, xs, acc, a);
      } else {
        NotTaken(t, e, xs, acc, a);
        LinkAppended(t, q.mem.links, e, item, xs, acc, a, l);
      }
    }
  }

  lemma {:induction false} PlacedIs(e: Exchange, item: nat, x: Fetched, a: nat)
    ensures LinkPlaced(Some(Link(e.uid, item, a, Some(x.pid), true)), e, item, x, a)
  {
  }

  lemma {:induction false} HasPid(xs: seq<Fetched>, n: nat)
    requires Identified(xs) && n < |xs|
    ensures xs[n].pid != "" && DistinctIds(xs)
  {
    hide DistinctIds;
  }

  lemma {:induction false} MappedNow(
      t: Tables, links: seq<Option<Link>>, e: Exchange, item: nat, xs: seq<Fetched>, acc: seq<nat>, a: nat)
    requires |acc| <= |xs| && LinksAfter(t, links, e, item, xs, acc) && a in acc
    ensures Mapped(links, a)
  {
    hide Mapped;
  }

  lemma {:induction false} NotTaken(t: Tables, e: Exchange, xs: seq<Fetched>, acc: seq<nat>, a: nat)
    requires |acc| < |xs| && a !in acc
    ensures !TakenUnflushed(t, e, xs, acc + [a], |acc|)
  {
    hide Mapped, LastCreated;
    assert (acc + [a])[..|acc|] == acc;
  }

  /** When the mapping is found, it was flushed or there before. */
  lemma {:induction false} FoundIsNotTaken(t: Tables, e: Exchange, xs: seq<Fetched>, acc: seq<nat>, a: nat)
    requires |acc| < |xs| && Fits(t, e, xs, acc + [a])
    requires var f := LastCreated(t, e, xs, |acc| + 1);
             Mapped(t.links, a) || a in (acc + [a])[..if f < 0 then 0 else f]
    ensures !TakenUnflushed(t, e, xs, acc + [a], |acc|)
  {
    hide Mapped, Fits, Creates;
    var acc' := acc + [a];
    if !Mapped(t.links, a) {
      CreationIsFresh(t, e, xs, acc, a);
      var f := LastCreated(t, e, xs, |acc| + 1);
      var j :| 0 <= j < f && acc'[..f][j] == a;
      assert acc'[j] == a;
      InPrefix(acc', j, |acc|);
      assert acc'[..|acc|] == acc;
    }
  }

  lemma {:induction false} CreationIsFresh(t: Tables, e: Exchange, xs: seq<Fetched>, acc: seq<nat>, a: nat)
    requires |acc| < |xs| && Fits(t, e, xs, acc + [a])
    ensures Creates(t, e, xs, |acc|) ==> a !in acc && LastCreated(t, e, xs, |acc| + 1) == |acc|
    ensures !Creates(t, e, xs, |acc|) ==> LastCreated(t, e, xs, |acc| + 1) == LastCreated(t, e, xs, |acc|)
  {
    hide Outranked, Described, KnownId, Mapped;
    assert (acc + [a])[..|acc|] == acc;
    assert FitsAt(t, e, xs, acc + [a], |acc|);
  }

  lemma {:induction false} MissingIsTaken(t: Tables, e: Exchange, xs: seq<Fetched>, acc: seq<nat>, a: nat)
    requires |acc| < |xs| && Fits(t, e, xs, acc + [a]) && a in acc && !Mapped(t.links, a)
    requires var f := LastCreated(t, e, xs, |acc| + 1);
             a !in (acc + [a])[..if f < 0 then 0 else f]
    ensures TakenUnflushed(t, e, xs, acc + [a], |acc|)
  {
    hide Mapped, Fits, Creates;
    CreationIsFresh(t, e, xs, acc, a);
    var acc' := acc + [a];
    var f := LastCreated(t, e, xs, |acc|);
    assert acc'[..|acc|] == acc;
    forall j | 0 <= j < f ensures acc'[j] != a {
      assert acc'[..f][j] == acc'[j];
    }
  }

  // ----- The whole pass -----

  ghost predicate Unbroken(t: Tables, e: Exchange, xs: seq<Fetched>, n: nat)
    requires n <= |xs|
  {
    forall w :: 0 <= w < n ==> !BreaksAt(t, e, xs, w)
  }

  lemma {:induction false} HalfwayWrote(
      t: Tables, q: Pass, r: Pass, e: Exchange, item: nat, xs: seq<Fetched>, acc: seq<nat>, a: nat)
    requires |acc| < |xs| && Halfway(t, q, e, item, xs, acc, a)
    requires r.Pass? && r.seen == q.seen && r.mem.accounts == q.mem.accounts && r.mem.items == q.mem.items
    requires LinksAfter(t, r.mem.links, e, item, xs, acc + [a])
    ensures Wrote(t, r, e, item, xs, acc + [a])
  {
    hide Fits, AccountsAfter, LinksAfter, SeenAfter, DistinctItems;
  }

  /** One account: unless it breaks a constraint, it counts as written afterwards. */
  lemma {:induction false} OneWrote(t: Tables, p: Pass, e: Exchange, item: nat, xs: seq<Fetched>, acc: seq<nat>)
    requires Good(t) && SameDescriptions(t, e.uid, xs) && Identified(xs)
    requires |acc| < |xs| && Wrote(t, p, e, item, xs, acc)
    requires PassOk(p, e, item) && Unbroken(t, e, xs, |acc|) && p.Pass?
    ensures var r := LinkOne(p, e, item, xs[|acc|]);
            var acc' := acc + [Written(p, e, xs[|acc|])];
            && r.Pass?
            && (BreaksAt(t, e, xs, |acc|) ==> Twice(r.mem.links))
            && (!BreaksAt(t, e, xs, |acc|) ==>
                  && Wrote(t, r, e, item, xs, acc')
                  && CountLinks(r.mem.links, e.uid) == CountLinks(p.mem.links, e.uid) + if Adds(t, e, xs, |acc|)
                      then 1 else 0)
  {
    hide *;
    var n, x, a := |acc|, xs[|acc|], Written(p, e, xs[|acc|]);
    AccountWritten(t, p, e, item, xs, acc);
    AccountStep(p, e, item, x);
    LinkOneIs(p, e, item, x);
    WrittenIsNamed(p, e, item, x);
    var q := UpsertAccount(p, e, x);
    HalfwayParts(t, q, e, item, xs, acc, a);
    MappingWritten(t, q, e, item, xs, acc, a);
    BreaksIffTaken(t, e, xs, acc, a);
    if !BreaksAt(t, e, xs, n) {
      HalfwayWrote(t, q, UpsertLink(q, e, item, a, x), e, item, xs, acc, a);
      AddsOne(t, q, e, item, xs, acc, a);
    }
  }

  lemma {:induction false} HalfwayParts(
      t: Tables, q: Pass, e: Exchange, item: nat, xs: seq<Fetched>, acc: seq<nat>, a: nat)
    requires |acc| < |xs| && Halfway(t, q, e, item, xs, acc, a)
    ensures q.Pass? && Fits(t, e, xs, acc + [a])
  {
    hide Fits, AccountsAfter, LinksAfter, SeenAfter, DistinctItems;
  }

  lemma {:induction false} BreaksIffTaken(t: Tables, e: Exchange, xs: seq<Fetched>, acc: seq<nat>, a: nat)
    requires Good(t) && |acc| < |xs| && Fits(t, e, xs, acc + [a]) && Unbroken(t, e, xs, |acc|)
    ensures BreaksAt(t, e, xs, |acc|) <==> TakenUnflushed(t, e, xs, acc + [a], |acc|)
  {
    hide Good, Fits, BreaksAt, TakenUnflushed;
    if BreaksAt(t, e, xs, |acc|) {
      BreakIsTaken(t, e, xs, acc + [a], |acc|);
    } else if TakenUnflushed(t, e, xs, acc + [a], |acc|) {
      TakenIsBreak(t, e, xs, acc + [a], |acc|);
    }
  }

  lemma {:induction false} AddsOne(t: Tables, q: Pass, e: Exchange, item: nat, xs: seq<Fetched>, acc: seq<nat>, a: nat)
    requires Good(t) && |acc| < |xs| && Halfway(t, q, e, item, xs, acc, a)
    requires !TakenUnflushed(t, e, xs, acc + [a], |acc|)
    ensures Adds(t, e, xs, |acc|) <==> FindLinkOfAccount(q.seen, a) == |q.seen.links|
  {
    HalfwayParts(t, q, e, item, xs, acc, a);
    AddsIff(t, e, xs, acc + [a], |acc|);
    hide Good, Fits, AccountsAfter, LinksAfter, DistinctItems, FindLinkOfAccount, LastCreated, Adds, Mapped,
        TakenUnflushed;
    var acc', f := acc + [a], LastCreated(t, e, xs, |acc| + 1);
    assert acc'[..|acc|] == acc;
    SeenMapping(t, q.seen, e, item, xs, acc'[..if f < 0 then 0 else f], a);
    FindBound(q.seen, a);
    if !Mapped(t.links, a) {
      if a in acc {
        if a !in acc'[..if f < 0 then 0 else f] {
          MissingIsTaken(t, e, xs, acc, a);
        }
      } else {
        assert a !in acc'[..if f < 0 then 0 else f] by {
          SliceOf(acc, a, if f < 0 then 0 else f);
        }
      }
    }
  }

  lemma {:induction false} SliceOf(acc: seq<nat>, a: nat, f: nat)
    requires f <= |acc|
    ensures (acc + [a])[..f] == acc[..f]
    ensures a !in acc ==> a !in (acc + [a])[..f]
  {
  }

  /** The accounts the pass writes, in order. */
  function Accounts(p: Pass, e: Exchange, item: nat, xs: seq<Fetched>): seq<nat> {
    if xs == [] then []
    else
      var init := xs[..|xs| - 1];
      var q := LinkAll(p, e, item, init);
      if q.Pass? then Accounts(p, e, item, init) + [Written(q, e, xs[|xs| - 1])] else Accounts(p, e, item, init)
  }

  lemma {:induction false} AllWrote(t: Tables, p: Pass, e: Exchange, item: nat, xs: seq<Fetched>, n: nat)
    requires Good(t) && PassOk(p, e, item) && n <= |xs| && SameDescriptions(t, e.uid, xs) && Identified(xs)
    requires Wrote(t, p, e, item, xs, []) && p.Pass? && p.mem.links == t.links && Unbroken(t, e, xs, n)
    ensures var r, acc := LinkAll(p, e, item, xs[..n]), Accounts(p, e, item, xs[..n]);
            && |acc| == n && Wrote(t, r, e, item, xs, acc) && r.Pass?
            && CountLinks(r.mem.links, e.uid) == CountLinks(t.links, e.uid) + CountAdds(t, e, xs, n)
    decreases n
  {
    hide Good, PassOk, SameDescriptions, Identified, Wrote, LinkOne, Written, BreaksAt, Adds, CountLinks;
    if n == 0 {
      assert xs[..0] == [];
    } else {
      assert xs[..n][..n - 1] == xs[..n - 1] && xs[..n][n - 1] == xs[n - 1];
      AllWrote(t, p, e, item, xs, n - 1);
      AllSteps(p, e, item, xs[..n - 1]);
      OneWrote(t, LinkAll(p, e, item, xs[..n - 1]), e, item, xs, Accounts(p, e, item, xs[..n - 1]));
    }
  }

  lemma {:induction false} StartWrote(t: Tables, e: Exchange, xs: seq<Fetched>)
    requires Good(t)
    requires var i := FindItem(t, e.itemId); i < |t.items| ==> t.items[i].uid == e.uid
    ensures var p := UpsertItem(t, e);
            p.Pass? && p.mem.links == t.links && Wrote(t, p, e, FindItem(t, e.itemId), xs, [])
  {
    hide First, LinksOk, Mapped;
    var i := FindItem(t, e.itemId);
    assert i == |t.items| ==> forall k :: 0 <= k < |t.items| ==> t.items[k].itemId != e.itemId;
    assert LinksAfter(t, t.links, e, i, xs, []) && AccountsAfter(t, t.accounts, e, xs, []);
  }

  // ----- A broken pass stays broken -----

  ghost predicate Doomed(p: Pass) {
    p.Broken? || Twice(p.mem.links)
  }

  lemma {:induction false} OneDoomed(p: Pass, e: Exchange, item: nat, x: Fetched)
    requires PassOk(p, e, item) && Doomed(p)
    ensures Doomed(LinkOne(p, e, item, x))
  {
    hide PassOk, Twice, Resolve, FindLinkOfAccount;
    if p.Pass? {
      AccountStep(p, e, item, x);
      WrittenIsNamed(p, e, item, x);
      LinkOneIs(p, e, item, x);
      var q := UpsertAccount(p, e, x);
      hide UpsertAccount;
      if q.Pass? {
        LinkKeepsTwice(q, e, item, Written(p, e, x), x);
      }
    }
  }

  lemma {:induction false} LinkKeepsTwice(q: Pass, e: Exchange, item: nat, a: nat, x: Fetched)
    requires q.Pass? && PassOk(q, e, item) && OwnAccount(q.mem, e, a) && Twice(q.mem.links)
    ensures Doomed(UpsertLink(q, e, item, a, x))
  {
    hide PassOk, FindLinkOfAccount, OwnAccount;
    var k := FindLinkOfAccount(q.seen, a);
    FoundIsUsers(q, e, item, a);
    var r := UpsertLink(q, e, item, a, x);
    var i, j :| 0 <= i < j < |q.mem.links| && q.mem.links[i].Some? && q.mem.links[j].Some?
                && q.mem.links[i].value.account == q.mem.links[j].value.account;
    FindBound(q.seen, a);
    assert r.mem.links[i].Some? && r.mem.links[j].Some?;
    assert r.mem.links[i].value.account == r.mem.links[j].value.account;
  }

  lemma {:induction false} AllDoomed(p: Pass, e: Exchange, item: nat, xs: seq<Fetched>, v: nat, n: nat)
    requires PassOk(p, e, item) && v <= n <= |xs| && Doomed(LinkAll(p, e, item, xs[..v]))
    ensures Doomed(LinkAll(p, e, item, xs[..n]))
    decreases n
  {
    hide PassOk, Doomed, LinkOne;
    if v < n {
      assert xs[..n][..n - 1] == xs[..n - 1] && xs[..n][n - 1] == xs[n - 1];
      AllDoomed(p, e, item, xs, v, n - 1);
      AllSteps(p, e, item, xs[..n - 1]);
      OneDoomed(LinkAll(p, e, item, xs[..n - 1]), e, item, xs[n - 1]);
    }
  }

  lemma {:induction false} FirstBreak(t: Tables, e: Exchange, xs: seq<Fetched>, w: nat) returns (v: nat)
    requires w < |xs| && BreaksAt(t, e, xs, w)
    ensures v <= w && BreaksAt(t, e, xs, v) && Unbroken(t, e, xs, v)
    decreases w
  {
    hide BreaksAt;
    if Unbroken(t, e, xs, w) {
      v := w;
    } else {
      var u :| 0 <= u < w && BreaksAt(t, e, xs, u);
      v := FirstBreak(t, e, xs, u);
    }
  }

  lemma {:induction false} SomeBreak(t: Tables, e: Exchange, xs: seq<Fetched>) returns (v: nat)
    requires Breaks(t, e, xs)
    ensures v < |xs| && BreaksAt(t, e, xs, v) && Unbroken(t, e, xs, v)
  {
    hide BreaksAt;
    var w :| 0 <= w < |xs| && BreaksAt(t, e, xs, w);
    v := FirstBreak(t, e, xs, w);
  }

  lemma {:induction false} BreakingDooms(t: Tables, p: Pass, e: Exchange, item: nat, xs: seq<Fetched>)
    requires Good(t) && PassOk(p, e, item) && SameDescriptions(t, e.uid, xs) && Identified(xs)
    requires Wrote(t, p, e, item, xs, []) && p.Pass? && p.mem.links == t.links && Breaks(t, e, xs)
    ensures Doomed(LinkAll(p, e, item, xs))
  {
    hide *;
    assert xs[..|xs|] == xs;
    var v := SomeBreak(t, e, xs);
    AllWrote(t, p, e, item, xs, v);
    AllSteps(p, e, item, xs[..v]);
    var q := LinkAll(p, e, item, xs[..v]);
    OneWrote(t, q, e, item, xs, Accounts(p, e, item, xs[..v]));
    DoomedNow(p, q, e, item, xs, v);
    AllDoomed(p, e, item, xs, v + 1, |xs|);
  }

  lemma {:induction false} DoomedNow(p: Pass, q: Pass, e: Exchange, item: nat, xs: seq<Fetched>, v: nat)
    requires v < |xs| && q == LinkAll(p, e, item, xs[..v])
    requires LinkOne(q, e, item, xs[v]).Pass? && Twice(LinkOne(q, e, item, xs[v]).mem.links)
    ensures Doomed(LinkAll(p, e, item, xs[..v + 1]))
  {
    hide LinkOne, Twice;
    assert xs[..v + 1][..v] == xs[..v] && xs[..v + 1][v] == xs[v];
  }

  /** How the pass ends: with every constraint kept, or broken. */
  lemma {:induction false} PassEnds(t: Tables, e: Exchange)
    requires Good(t) && Identified(Selected(e)) && SameDescriptions(t, e.uid, Selected(e))
    requires var i := FindItem(t, e.itemId); i < |t.items| ==> t.items[i].uid == e.uid
    ensures var xs, i, start := Selected(e), FindItem(t, e.itemId), UpsertItem(t, e);
            var p, acc := LinkAll(start, e, i, xs), Accounts(start, e, i, xs);
            if Breaks(t, e, xs) then p.Broken? || !Consistent(p.mem)
            else p.Pass? && Consistent(p.mem) && |acc| == |xs| && Wrote(t, p, e, i, xs, acc) && Good(p.mem)
                 && CountLinks(p.mem.links, e.uid) == CountLinks(t.links, e.uid) + CountAdds(t, e, xs, |xs|)
  {
    var xs, i, start := Selected(e), FindItem(t, e.itemId), UpsertItem(t, e);
    assert xs[..|xs|] == xs;
    assert !Breaks(t, e, xs) ==> Unbroken(t, e, xs, |xs|);
    hide *;
    StartOk(t, e);
    StartWrote(t, e, xs);
    AllSteps(start, e, i, xs);
    var p, acc := LinkAll(start, e, i, xs), Accounts(start, e, i, xs);
    if Breaks(t, e, xs) {
      BreakingDooms(t, start, e, i, xs);
      DoomedFails(p, e, i);
    } else {
      AllWrote(t, start, e, i, xs, |xs|);
      WroteIsConsistent(t, p, e, i, xs, acc);
      PassGood(p, e, i);
    }
  }

  lemma {:induction false} DoomedFails(p: Pass, e: Exchange, item: nat)
    requires PassOk(p, e, item) && Doomed(p)
    ensures p.Broken? || !Consistent(p.mem)
  {
    hide Consistent, LinksOk, OnePerAccount, PendingOk, Aligned;
    if p.Pass? && Consistent(p.mem) {
      FlushGivesOne(p.seen, p.mem, item);
    }
  }

  // ----- Main results -----

  /** An exchange succeeds exactly when everything selected was returned, something was, the limit leaves
      room, the item is not another user's, and no twin maps an account that its first twin has just
      mapped, with no account created in between. */
  lemma {:induction false} ExchangeSucceedsIff(t: Tables, e: Exchange)
    requires Good(t) && Identified(Selected(e)) && SameDescriptions(t, e.uid, Selected(e))
    ensures var xs, i := Selected(e), FindItem(t, e.itemId);
            ExchangeStep(t, e).1 == Ok <==>
              && AllReturned(e) && xs != []
              && Linked(t, e.uid) + CountNew(t, e, xs) <= e.limit
              && (i < |t.items| ==> t.items[i].uid == e.uid)
              && !Breaks(t, e, xs)
  {
    var xs, i := Selected(e), FindItem(t, e.itemId);
    if i < |t.items| ==> t.items[i].uid == e.uid {
      PassEnds(t, e);
    }
    hide Selected, FindItem, AllReturned, Linked, CountNew, LinkAll, UpsertItem, Consistent, Breaks, Good, Wrote;
  }

  /** What a successful exchange leaves, account by account. */
  lemma {:induction false} ExchangeWrote(t: Tables, e: Exchange) returns (acc: seq<nat>)
    requires Good(t) && Identified(Selected(e)) && SameDescriptions(t, e.uid, Selected(e)) && ExchangeStep(t, e).1 == Ok
    ensures |acc| == |Selected(e)| && Good(ExchangeStep(t, e).0) && Fits(t, e, Selected(e), acc)
    ensures AccountsAfter(t, ExchangeStep(t, e).0.accounts, e, Selected(e), acc)
    ensures LinksAfter(t, ExchangeStep(t, e).0.links, e, FindItem(t, e.itemId), Selected(e), acc)
    ensures CountLinks(ExchangeStep(t, e).0.links, e.uid)
            == CountLinks(t.links, e.uid) + CountAdds(t, e, Selected(e), |Selected(e)|)
  {
    ExchangeOkMeans(t, e);
    PassEnds(t, e);
    ExchangeSucceedsIff(t, e);
    acc := Accounts(UpsertItem(t, e), e, FindItem(t, e.itemId), Selected(e));
    hide Selected, FindItem, Linked, CountNew, LinkAll, UpsertItem, Consistent, Breaks, Good, Fits, AccountsAfter,
        LinksAfter, SeenAfter, CountLinks, CountAdds, ExchangeStep, Accounts;
  }

  /** How many more accounts are connected: exactly those that the selection newly maps. So the limit
      holds afterwards exactly when it leaves room for them. */
  lemma {:induction false} ConnectedAfter(t: Tables, e: Exchange)
    requires Good(t) && Identified(Selected(e)) && SameDescriptions(t, e.uid, Selected(e)) && ExchangeStep(t, e).1 == Ok
    ensures var adds := CountAdds(t, e, Selected(e), |Selected(e)|);
            && Linked(ExchangeStep(t, e).0, e.uid) == Linked(t, e.uid) + adds
            && (Linked(ExchangeStep(t, e).0, e.uid) <= e.limit <==> Linked(t, e.uid) + adds <= e.limit)
  {
    hide *;
    var acc := ExchangeWrote(t, e);
    LinkedIsAll(t, e.uid);
    LinkedIsAll(ExchangeStep(t, e).0, e.uid);
  }

  ghost predicate DistinctDescriptions(xs: seq<Fetched>) {
    forall i, j :: 0 <= i < j < |xs| ==> !Alike(xs[i], xs[j])
  }

  /** Without twins these are the unknown ones that look like no account or like an unmapped one. */
  lemma {:induction false} AddsWithoutTwins(t: Tables, e: Exchange, xs: seq<Fetched>, n: nat)
    requires DistinctDescriptions(xs) && n < |xs|
    ensures Adds(t, e, xs, n) <==>
              !KnownId(t, e, xs[n])
              && (Described(t, e, xs[n]) == |t.accounts| || !Mapped(t.links, Described(t, e, xs[n])))
  {
    hide KnownId, Described, Mapped, Alike, Creates;
  }

  lemma {:induction false} LastIsOnly(acc: seq<nat>, n: nat)
    requires AllDiffer(acc) && n < |acc|
    ensures Last(acc, acc[n]) == n
  {
    hide Last;
  }

  lemma {:induction false} PlacedAt(
      t: Tables, mem: Tables, e: Exchange, item: nat, xs: seq<Fetched>, acc: seq<nat>, n: nat)
    requires |acc| == |xs| && n < |xs| && Last(acc, acc[n]) == n
    requires AccountsAfter(t, mem.accounts, e, xs, acc) && LinksAfter(t, mem.links, e, item, xs, acc)
    ensures Placed(mem, e, item, xs[n], acc[n])
  {
    hide Last, OnePerAccount;
    var a := acc[n];
    assert a in acc;
    assert AccountAfter(t, mem.accounts[a], a, e, xs, acc);
    var k :| 0 <= k < |mem.links| && mem.links[k].Some? && mem.links[k].value.account == a;
    assert LinkAfter(t, mem.links[k], k, e, item, xs, acc);
  }

  /** No mapping of the user carries the id. */
  ghost predicate Lost(t: Tables, e: Exchange, x: Fetched) {
    forall k :: 0 <= k < |t.links| && t.links[k].Some? && t.links[k].value.uid == e.uid
        ==> t.links[k].value.pid != Some(x.pid)
  }

  /** An account that is written again loses the id it was written with before. */
  lemma {:induction false} OverwrittenIsLost(
      t: Tables, mem: Tables, e: Exchange, item: nat, xs: seq<Fetched>, acc: seq<nat>, i: nat, j: nat)
    requires Good(t) && Identified(xs) && |acc| == |xs| && Fits(t, e, xs, acc) && i < j < |acc| && acc[i] == acc[j]
    requires LinksAfter(t, mem.links, e, item, xs, acc)
    ensures Lost(mem, e, xs[i])
  {
    hide Good, Fits, Last, OnePerAccount;
    forall k | 0 <= k < |mem.links| && mem.links[k].Some? && mem.links[k].value.uid == e.uid
      ensures mem.links[k].value.pid != Some(xs[i].pid)
    {
      assert LinkAfter(t, mem.links[k], k, e, item, xs, acc);
      var a := mem.links[k].value.account;
      if a in acc {
        WrittenOnceMore(xs, acc, i, j, a);
      } else if mem.links[k].value.pid == Some(xs[i].pid) {
        HadTheId(t, e, xs, acc, k, i);
      }
    }
  }

  lemma {:induction false} WrittenOnceMore(xs: seq<Fetched>, acc: seq<nat>, i: nat, j: nat, a: nat)
    requires Identified(xs) && |acc| == |xs| && i < j < |acc| && acc[i] == acc[j] && a in acc
    ensures xs[Last(acc, a)].pid != xs[i].pid
  {
    hide Last;
    var m := Last(acc, a);
    if m < i {
      IdsDiffer(xs, m, i);
    } else if i < m {
      IdsDiffer(xs, i, m);
    }
  }

  /** Everything fetched is stored as reported and mapped under its id. */
  ghost predicate AllConnected(t: Tables, e: Exchange, item: nat, xs: seq<Fetched>) {
    forall n :: 0 <= n < |xs| ==> Connected(t, e, item, xs[n])
  }

  ghost predicate Connected(t: Tables, e: Exchange, item: nat, x: Fetched) {
    exists a :: Placed(t, e, item, x, a)
  }

  /** Some fetched id is carried by no mapping. */
  ghost predicate SomeLost(t: Tables, e: Exchange, xs: seq<Fetched>) {
    exists n :: 0 <= n < |xs| && Lost(t, e, xs[n])
  }

  lemma {:induction false} PlacedIsNotLost(t: Tables, e: Exchange, item: nat, x: Fetched, a: nat)
    requires Placed(t, e, item, x, a)
    ensures !Lost(t, e, x)
  {
  }

  /** After a successful exchange every selected account is stored as reported and mapped under its id,
      exactly when the selection is separate; otherwise some selected id is carried by no mapping. */
  lemma {:induction false} SelectedAreConnectedIff(t: Tables, e: Exchange)
    requires Good(t) && Identified(Selected(e)) && SameDescriptions(t, e.uid, Selected(e)) && ExchangeStep(t, e).1 == Ok
    ensures var xs, i, t' := Selected(e), FindItem(t, e.itemId), ExchangeStep(t, e).0;
            && (AllConnected(t', e, i, xs) <==> Separate(t, e, xs))
            && (SomeLost(t', e, xs) <==> !Separate(t, e, xs))
  {
    var acc := ExchangeWrote(t, e);
    var xs, i, t' := Selected(e), FindItem(t, e.itemId), ExchangeStep(t, e).0;
    hide *;
    if Separate(t, e, xs) {
      SeparateConnects(t, t', e, i, xs, acc);
    } else {
      var n := SomeIsLost(t, t', e, i, xs, acc);
      LostIsNotConnected(t', e, i, xs, n);
    }
  }

  lemma {:induction false} SeparateConnects(
      t: Tables, mem: Tables, e: Exchange, item: nat, xs: seq<Fetched>, acc: seq<nat>)
    requires Good(t) && Identified(xs) && |acc| == |xs| && Fits(t, e, xs, acc) && Separate(t, e, xs)
    requires AccountsAfter(t, mem.accounts, e, xs, acc) && LinksAfter(t, mem.links, e, item, xs, acc)
    ensures AllConnected(mem, e, item, xs) && !SomeLost(mem, e, xs)
  {
    hide Good, Fits, AccountsAfter, LinksAfter, Placed, Lost, Separate, Identified, AllDiffer, Last;
    SeparateDiffers(t, e, xs, acc);
    forall n | 0 <= n < |xs| ensures Connected(mem, e, item, xs[n]) && !Lost(mem, e, xs[n]) {
      LastIsOnly(acc, n);
      PlacedAt(t, mem, e, item, xs, acc, n);
      PlacedIsNotLost(mem, e, item, xs[n], acc[n]);
    }
  }

  lemma {:induction false} LostIsNotConnected(t: Tables, e: Exchange, item: nat, xs: seq<Fetched>, n: nat)
    requires n < |xs| && Lost(t, e, xs[n])
    ensures !AllConnected(t, e, item, xs) && SomeLost(t, e, xs)
  {
    hide Placed, Lost;
    forall a ensures !Placed(t, e, item, xs[n], a) {
      if Placed(t, e, item, xs[n], a) {
        PlacedIsNotLost(t, e, item, xs[n], a);
      }
    }
    assert !Connected(t, e, item, xs[n]);
  }

  lemma {:induction false} SomeIsLost(
      t: Tables, mem: Tables, e: Exchange, item: nat, xs: seq<Fetched>, acc: seq<nat>)
    returns (n: nat)
    requires Good(t) && Identified(xs) && |acc| == |xs| && Fits(t, e, xs, acc)
    requires LinksAfter(t, mem.links, e, item, xs, acc)
    requires !Separate(t, e, xs)
    ensures n < |xs| && Lost(mem, e, xs[n])
  {
    hide Good, Fits, LinksAfter, Lost, Separate, Identified;
    if AllDiffer(acc) {
      DiffersSeparate(t, e, xs, acc);
    }
    var i, j :| 0 <= i < j < |acc| && acc[i] == acc[j];
    OverwrittenIsLost(t, mem, e, item, xs, acc, i, j);
    n := i;
  }

  /** A separate selection breaks nothing. */
  lemma {:induction false} SeparateIsUnbroken(t: Tables, e: Exchange, xs: seq<Fetched>)
    requires Separate(t, e, xs)
    ensures !Breaks(t, e, xs)
  {
    hide KnownId, Outranked, Adds, Described, KnownAccount, Creates, Alike;
    forall v, u | 0 <= u < v < |xs| ensures !MapsAgain(t, e, xs, u, v) {
      if MapsAgain(t, e, xs, u, v) {
        AloneAt(t, e, xs, v);
        AddsUnknown(t, e, xs, u);
      }
    }
  }

  lemma {:induction false} AddsUnknown(t: Tables, e: Exchange, xs: seq<Fetched>, u: nat)
    requires u < |xs| && Adds(t, e, xs, u)
    ensures !KnownId(t, e, xs[u])
  {
    hide KnownId, Outranked, Described, Mapped;
  }

  /** An exchange succeeds and connects everything selected exactly when its own conditions hold and the
      selection is separate. */
  lemma {:induction false} ExchangeConnectsIff(t: Tables, e: Exchange)
    requires Good(t) && Identified(Selected(e)) && SameDescriptions(t, e.uid, Selected(e))
    ensures var xs, i := Selected(e), FindItem(t, e.itemId);
            ExchangeStep(t, e).1 == Ok && AllConnected(ExchangeStep(t, e).0, e, i, xs) <==>
              && AllReturned(e) && xs != []
              && Linked(t, e.uid) + CountNew(t, e, xs) <= e.limit
              && (i < |t.items| ==> t.items[i].uid == e.uid)
              && Separate(t, e, xs)
  {
    hide *;
    ExchangeSucceedsIff(t, e);
    if ExchangeStep(t, e).1 == Ok {
      SelectedAreConnectedIff(t, e);
    }
    if Separate(t, e, Selected(e)) {
      SeparateIsUnbroken(t, e, Selected(e));
    }
  }

  // ----- Twins with a new account between them -----

  /** An account nobody knows: no mapping carries its id, and no account looks like it. */
  predicate Unheard(t: Tables, e: Exchange, x: Fetched) {
    !KnownId(t, e, x) && Described(t, e, x) == |t.accounts|
  }

  lemma {:induction false} AroundPattern(t: Tables, e: Exchange, x: Fetched, z: Fetched, y: Fetched)
    requires Unheard(t, e, x) && Unheard(t, e, z) && Unheard(t, e, y) && Alike(x, y) && !Alike(x, z) && !Alike(z, y)
    ensures !Breaks(t, e, [x, z, y]) && FirstUnknown(t, e, [x, z, y], 0) && !Outranked(t, e, [x, z, y], 2)
  {
    hide Described, KnownId, Alike, Mapped;
    var xs := [x, z, y];
    assert forall n :: 0 <= n < 3 ==> !KnownId(t, e, xs[n]) && Described(t, e, xs[n]) == |t.accounts|;
    assert forall n :: 0 <= n < 3 ==> !Outranked(t, e, xs, n);
    assert Creates(t, e, xs, 1);
    forall v | 0 <= v < 3 ensures !BreaksAt(t, e, xs, v) {
    }
  }

  /** Twins around a new account: the exchange succeeds, and the first twin is lost. Creating the account
      between them writes the first one's mapping, which the second then takes over. */
  lemma {:induction false} TwinsAroundANewAccount(t: Tables, e: Exchange, x: Fetched, z: Fetched, y: Fetched)
    requires Good(t) && Selected(e) == [x, z, y] && Identified([x, z, y]) && AllReturned(e)
    requires Unheard(t, e, x) && Unheard(t, e, z) && Unheard(t, e, y) && Alike(x, y) && !Alike(x, z) && !Alike(z, y)
    requires Linked(t, e.uid) + CountNew(t, e, [x, z, y]) <= e.limit
    requires var i := FindItem(t, e.itemId); i < |t.items| ==> t.items[i].uid == e.uid
    ensures ExchangeStep(t, e).1 == Ok && Lost(ExchangeStep(t, e).0, e, x)
  {
    var xs := [x, z, y];
    UnheardKeep(t, e, xs);
    AroundPattern(t, e, x, z, y);
    assert !KnownId(t, e, xs[2]) && Alike(xs[0], xs[2]);
    hide *;
    ExchangeSucceedsIff(t, e);
    var acc := ExchangeWrote(t, e);
    SameAsFirst(t, e, xs, acc, 0, 2);
    OverwrittenIsLost(t, ExchangeStep(t, e).0, e, FindItem(t, e.itemId), xs, acc, 0, 2);
  }

  lemma {:induction false} UnheardKeep(t: Tables, e: Exchange, xs: seq<Fetched>)
    requires forall n :: 0 <= n < |xs| ==> Unheard(t, e, xs[n])
    ensures SameDescriptions(t, e.uid, xs)
  {
    hide First, Described;
    forall k, m | 0 <= k < |t.links| && 0 <= m < |xs| ensures !IsLinkOf(t, t.links[k], e.uid, xs[m].pid) {
      assert Unheard(t, e, xs[m]);
    }
  }
}
