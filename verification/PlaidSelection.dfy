/** What a selection means for the accounts there are: which accounts an exchange creates, which it
    maps for the first time, and where two fetched accounts fall on one stored account. Everything here
    reads the tables before the exchange and the selection, never the pass.

    A fetched account is known when a mapping carries its id. An unknown one is recognised by its mask
    and type, so two alike unknown ones, twins, fall on the same account.
  */
module PlaidSelection {
  import opened Text
  import opened PlaidLinks
  import opened PlaidProofs
  import opened PlaidLimit

  /** The institution names every account, and no two alike. */
  ghost predicate Identified(xs: seq<Fetched>) {
    DistinctIds(xs) && forall i :: 0 <= i < |xs| ==> xs[i].pid != ""
  }

  predicate Alike(x: Fetched, y: Fetched) {
    x.mask == y.mask && x.Kind() == y.Kind()
  }

  predicate KnownId(t: Tables, e: Exchange, x: Fetched) {
    FindLink(t, e.uid, x.pid) < |t.links|
  }

  function KnownAccount(t: Tables, e: Exchange, x: Fetched): nat
    requires KnownId(t, e, x)
  {
    t.links[FindLink(t, e.uid, x.pid)].value.account
  }

  /** The first account of the user that looks like the fetched one; the number of accounts when none does. */
  function Described(t: Tables, e: Exchange, x: Fetched): nat {
    FindAccount(t.accounts, e.uid, e.institution, x)
  }

  /** No unknown twin comes before. */
  predicate FirstUnknown(t: Tables, e: Exchange, xs: seq<Fetched>, n: nat)
    requires n < |xs|
  {
    !KnownId(t, e, xs[n]) && forall j :: 0 <= j < n && Alike(xs[j], xs[n]) ==> KnownId(t, e, xs[j])
  }

  /** An account known by id took the institution's name early enough for the lookup to find it first. */
  ghost predicate Outranked(t: Tables, e: Exchange, xs: seq<Fetched>, n: nat)
    requires n < |xs|
    decreases n, 0
  {
    exists y, z :: 0 <= y < z < n && Renames(t, e, xs, y, n) && Creates(t, e, xs, z)
  }

  predicate Renames(t: Tables, e: Exchange, xs: seq<Fetched>, y: nat, n: nat)
    requires y < |xs| && n < |xs|
  {
    KnownId(t, e, xs[y]) && Alike(xs[y], xs[n]) && KnownAccount(t, e, xs[y]) < Described(t, e, xs[n])
  }

  /** The exchange creates an account for it, which is also when the session is flushed. */
  ghost predicate Creates(t: Tables, e: Exchange, xs: seq<Fetched>, n: nat)
    requires n < |xs|
    decreases n, 1
  {
    FirstUnknown(t, e, xs, n) && Described(t, e, xs[n]) == |t.accounts| && !Outranked(t, e, xs, n)
  }

  /** The exchange maps an account that had no mapping. */
  ghost predicate Adds(t: Tables, e: Exchange, xs: seq<Fetched>, n: nat)
    requires n < |xs|
  {
    && FirstUnknown(t, e, xs, n) && !Outranked(t, e, xs, n)
    && (Described(t, e, xs[n]) == |t.accounts| || !Mapped(t.links, Described(t, e, xs[n])))
  }

  /** The twin v maps the account that u has just mapped, before anything was flushed. */
  ghost predicate MapsAgain(t: Tables, e: Exchange, xs: seq<Fetched>, u: nat, v: nat)
    requires u < v < |xs|
  {
    && Adds(t, e, xs, u) && !KnownId(t, e, xs[v]) && Alike(xs[u], xs[v]) && !Outranked(t, e, xs, v)
    && (forall w :: u < w < v && Alike(xs[w], xs[v]) ==> KnownId(t, e, xs[w]))
    && (forall w :: u < w < v ==> !Creates(t, e, xs, w))
  }

  ghost predicate BreaksAt(t: Tables, e: Exchange, xs: seq<Fetched>, v: nat)
    requires v < |xs|
  {
    exists u :: 0 <= u < v && MapsAgain(t, e, xs, u, v)
  }

  ghost predicate Breaks(t: Tables, e: Exchange, xs: seq<Fetched>) {
    exists v :: 0 <= v < |xs| && BreaksAt(t, e, xs, v)
  }

  /** No two fetched accounts fall on one stored account. */
  ghost predicate Separate(t: Tables, e: Exchange, xs: seq<Fetched>) {
    forall u :: 0 <= u < |xs| && !KnownId(t, e, xs[u]) ==> StandsAlone(t, e, xs, u)
  }

  ghost predicate StandsAlone(t: Tables, e: Exchange, xs: seq<Fetched>, u: nat)
    requires u < |xs|
  {
    && !Outranked(t, e, xs, u)
    && (forall v :: 0 <= v < |xs| && v != u && Alike(xs[v], xs[u]) ==> KnownId(t, e, xs[v]))
    && (forall v :: 0 <= v < |xs| && KnownId(t, e, xs[v]) ==> KnownAccount(t, e, xs[v]) != Described(t, e, xs[u]))
  }

  /** How many accounts the first n newly map. */
  ghost function CountAdds(t: Tables, e: Exchange, xs: seq<Fetched>, n: nat): nat
    requires n <= |xs|
  {
    if n == 0 then 0
    else if Adds(t, e, xs, n - 1) then CountAdds(t, e, xs, n - 1) + 1
    else CountAdds(t, e, xs, n - 1)
  }

  // ----- The accounts an exchange writes, one per fetched account -----

  /** Account `a` is the user's and looked like the fetched one before. */
  predicate OwnLook(t: Tables, e: Exchange, a: nat, x: Fetched) {
    && a < |t.accounts| && t.accounts[a].Some? && t.accounts[a].value.uid == e.uid
    && t.accounts[a].value.mask == x.mask && t.accounts[a].value.kind == x.Kind()
  }

  /** Which account a known one is written to: its own, unless a twin took that over. */
  ghost predicate KnownFits(t: Tables, e: Exchange, xs: seq<Fetched>, acc: seq<nat>, j: nat)
    requires j < |acc| <= |xs| && KnownId(t, e, xs[j])
  {
    && OwnLook(t, e, acc[j], xs[j]) && Mapped(t.links, acc[j])
    && (if KnownAccount(t, e, xs[j]) in acc[..j] then acc[j] in acc[..j] else acc[j] == KnownAccount(t, e, xs[j]))
  }

  /** Which account an unknown one is written to: a new one, an account renamed on the way, the one it
      looks like, or the one its first twin created. */
  ghost predicate UnknownFits(t: Tables, e: Exchange, xs: seq<Fetched>, acc: seq<nat>, j: nat)
    requires j < |acc| <= |xs| && !KnownId(t, e, xs[j])
  {
    if Creates(t, e, xs, j) then acc[j] >= |t.accounts| && acc[j] !in acc[..j]
    else if Outranked(t, e, xs, j) then acc[j] in acc[..j] && OwnLook(t, e, acc[j], xs[j]) && Mapped(t.links, acc[j])
    else if Described(t, e, xs[j]) < |t.accounts| then acc[j] == Described(t, e, xs[j])
    else
      && acc[j] in acc[..j]
      && forall u :: 0 <= u < j && FirstUnknown(t, e, xs, u) && Alike(xs[u], xs[j]) ==> acc[j] == acc[u]
  }

  ghost predicate FitsAt(t: Tables, e: Exchange, xs: seq<Fetched>, acc: seq<nat>, j: nat)
    requires j < |acc| <= |xs|
  {
    if KnownId(t, e, xs[j]) then KnownFits(t, e, xs, acc, j) else UnknownFits(t, e, xs, acc, j)
  }

  ghost predicate Fits(t: Tables, e: Exchange, xs: seq<Fetched>, acc: seq<nat>)
    requires |acc| <= |xs|
  {
    forall j :: 0 <= j < |acc| ==> FitsAt(t, e, xs, acc, j)
  }

  lemma {:induction false} DescribedLook(t: Tables, e: Exchange, x: Fetched)
    ensures Described(t, e, x) <= |t.accounts|
    ensures Described(t, e, x) < |t.accounts| ==> OwnLook(t, e, Described(t, e, x), x)
  {
    hide First;
  }

  lemma {:induction false} DescribedAlike(t: Tables, e: Exchange, x: Fetched, y: Fetched)
    requires Alike(x, y)
    ensures Described(t, e, x) == Described(t, e, y)
  {
    hide First;
    assert forall k :: 0 <= k < |t.accounts| ==>
      SameBankAccount(t.accounts[k], e.uid, e.institution, x)
          == SameBankAccount(t.accounts[k], e.uid, e.institution, y);
  }

  lemma {:induction false} KnownLook(t: Tables, e: Exchange, xs: seq<Fetched>, j: nat)
    requires SameDescriptions(t, e.uid, xs) && j < |xs| && KnownId(t, e, xs[j])
    ensures OwnLook(t, e, KnownAccount(t, e, xs[j]), xs[j]) && Mapped(t.links, KnownAccount(t, e, xs[j]))
  {
    hide First;
    var k := FindLink(t, e.uid, xs[j].pid);
    assert IsLinkOf(t, t.links[k], e.uid, xs[j].pid);
  }

  /** Two known ones have different accounts. */
  lemma {:induction false} KnownDiffer(t: Tables, e: Exchange, xs: seq<Fetched>, i: nat, j: nat)
    requires Good(t) && DistinctIds(xs) && i < |xs| && j < |xs| && KnownId(t, e, xs[i]) && KnownId(t, e, xs[j])
    requires KnownAccount(t, e, xs[i]) == KnownAccount(t, e, xs[j]) && xs[i].pid != ""
    ensures i == j
  {
    hide First, Consistent, LinksOk;
    var k, m := FindLink(t, e.uid, xs[i].pid), FindLink(t, e.uid, xs[j].pid);
    assert IsLinkOf(t, t.links[k], e.uid, xs[i].pid) && IsLinkOf(t, t.links[m], e.uid, xs[j].pid);
    assert k == m;
  }

  lemma {:induction false} OutrankedLater(t: Tables, e: Exchange, xs: seq<Fetched>, i: nat, j: nat)
    requires i <= j < |xs| && Alike(xs[i], xs[j]) && Outranked(t, e, xs, i)
    ensures Outranked(t, e, xs, j)
  {
    hide Creates, Described, KnownId;
    DescribedAlike(t, e, xs[i], xs[j]);
    var y, z :| 0 <= y < z < i && Renames(t, e, xs, y, i) && Creates(t, e, xs, z);
    assert Renames(t, e, xs, y, j);
  }

  /** A stored account that is written looked like what is written to it. */
  lemma {:induction false} WrittenLook(t: Tables, e: Exchange, xs: seq<Fetched>, acc: seq<nat>, j: nat)
    requires j < |acc| <= |xs| && FitsAt(t, e, xs, acc, j) && acc[j] < |t.accounts|
    requires forall u :: 0 <= u < j ==> FitsAt(t, e, xs, acc, u)
    ensures OwnLook(t, e, acc[j], xs[j])
    decreases j
  {
    hide Creates, Outranked, OwnLook, Described, Mapped;
    DescribedLook(t, e, xs[j]);
    if !KnownId(t, e, xs[j]) && !Creates(t, e, xs, j) && !Outranked(t, e, xs, j)
        && Described(t, e, xs[j]) == |t.accounts| {
      var u := FirstTwin(t, e, xs, j);
      DescribedAlike(t, e, xs[u], xs[j]);
      FirstCreates(t, e, xs, u, j);
      if u < j {
        CreatedIsNew(t, e, xs, acc, u);
      }
    }
  }

  lemma {:induction false} CreatedIsNew(t: Tables, e: Exchange, xs: seq<Fetched>, acc: seq<nat>, u: nat)
    requires u < |acc| <= |xs| && FitsAt(t, e, xs, acc, u) && Creates(t, e, xs, u)
    ensures acc[u] >= |t.accounts|
  {
    hide Outranked, Described, KnownId;
  }

  /** The first unknown account of a look. */
  lemma {:induction false} FirstTwin(t: Tables, e: Exchange, xs: seq<Fetched>, j: nat) returns (u: nat)
    requires j < |xs| && !KnownId(t, e, xs[j])
    ensures u <= j && FirstUnknown(t, e, xs, u) && Alike(xs[u], xs[j])
    decreases j
  {
    hide KnownId;
    if FirstUnknown(t, e, xs, j) {
      u := j;
    } else {
      var i :| 0 <= i < j && Alike(xs[i], xs[j]) && !KnownId(t, e, xs[i]);
      u := FirstTwin(t, e, xs, i);
    }
  }

  lemma {:induction false} FirstIsOne(t: Tables, e: Exchange, xs: seq<Fetched>, u: nat, v: nat)
    requires u < |xs| && v < |xs| && FirstUnknown(t, e, xs, u) && FirstUnknown(t, e, xs, v) && Alike(xs[u], xs[v])
    ensures u == v
  {
    hide KnownId;
  }

  /** The first twin of one that looks like no account creates one, unless a renamed account comes between. */
  lemma {:induction false} FirstCreates(t: Tables, e: Exchange, xs: seq<Fetched>, u: nat, j: nat)
    requires u <= j < |xs| && FirstUnknown(t, e, xs, u) && Alike(xs[u], xs[j])
    requires Described(t, e, xs[j]) == |t.accounts| && !Outranked(t, e, xs, j)
    ensures Creates(t, e, xs, u)
  {
    hide Described, Outranked, KnownId;
    DescribedAlike(t, e, xs[u], xs[j]);
    if Outranked(t, e, xs, u) {
      OutrankedLater(t, e, xs, u, j);
    }
  }

  /** Where a new account comes from: the first twin created it. */
  lemma {:induction false} NewIsFirsts(t: Tables, e: Exchange, xs: seq<Fetched>, acc: seq<nat>, j: nat) returns (u: nat)
    requires j < |acc| <= |xs| && Fits(t, e, xs, acc) && acc[j] >= |t.accounts|
    ensures u <= j && Creates(t, e, xs, u) && Alike(xs[u], xs[j]) && acc[u] == acc[j] && !KnownId(t, e, xs[j])
  {
    assert FitsAt(t, e, xs, acc, j);
    hide Outranked, Described, Mapped, KnownId;
    u := FirstTwin(t, e, xs, j);
    if !Creates(t, e, xs, j) {
      NotBeyond(t, e, xs[j]);
      FirstCreates(t, e, xs, u, j);
    } else {
      FirstIsOne(t, e, xs, u, j);
    }
  }

  lemma {:induction false} NotBeyond(t: Tables, e: Exchange, x: Fetched)
    ensures Described(t, e, x) <= |t.accounts|
  {
    hide First;
  }

  /** Whatever is written to one account is alike. */
  lemma {:induction false} WritersAlike(t: Tables, e: Exchange, xs: seq<Fetched>, acc: seq<nat>, i: nat, j: nat)
    requires i < |acc| <= |xs| && j < |acc| && Fits(t, e, xs, acc) && acc[i] == acc[j]
    ensures Alike(xs[i], xs[j])
  {
    hide FitsAt, Creates, KnownId;
    if acc[i] < |t.accounts| {
      WrittenLook(t, e, xs, acc, i);
      WrittenLook(t, e, xs, acc, j);
    } else {
      var u := NewIsFirsts(t, e, xs, acc, i);
      var v := NewIsFirsts(t, e, xs, acc, j);
      CreatedOnce(t, e, xs, acc, u, v);
    }
  }

  lemma {:induction false} InPrefix(acc: seq<nat>, i: nat, n: nat)
    requires i < |acc| && n <= |acc|
    ensures i < n ==> acc[i] in acc[..n]
  {
    if i < n {
      assert acc[..n][i] == acc[i];
    }
  }

  lemma {:induction false} CreatedOnce(t: Tables, e: Exchange, xs: seq<Fetched>, acc: seq<nat>, u: nat, v: nat)
    requires u < |acc| <= |xs| && v < |acc| && Fits(t, e, xs, acc)
    requires Creates(t, e, xs, u) && Creates(t, e, xs, v) && acc[u] == acc[v]
    ensures u == v
  {
    hide Outranked, Described, Mapped, KnownId;
    assert FitsAt(t, e, xs, acc, u) && FitsAt(t, e, xs, acc, v);
    InPrefix(acc, u, v);
    InPrefix(acc, v, u);
  }

  /** A stored account that is written although it looked otherwise was reached by its id first. */
  lemma {:induction false} FirstByLink(t: Tables, e: Exchange, xs: seq<Fetched>, acc: seq<nat>, j: nat) returns (y: nat)
    requires j < |acc| <= |xs| && Fits(t, e, xs, acc) && acc[j] < |t.accounts| && acc[j] != Described(t, e, xs[j])
    ensures y <= j && KnownId(t, e, xs[y]) && KnownAccount(t, e, xs[y]) == acc[j] && Alike(xs[y], xs[j])
    decreases j
  {
    assert FitsAt(t, e, xs, acc, j);
    hide Creates, Outranked, Described, Mapped, KnownId, OwnLook, Fits, FitsAt;
    if KnownId(t, e, xs[j]) && KnownAccount(t, e, xs[j]) !in acc[..j] {
      y := j;
    } else {
      EarlierWriter(t, e, xs, acc, j);
      var i :| 0 <= i < j && acc[i] == acc[j];
      WritersAlike(t, e, xs, acc, i, j);
      DescribedAlike(t, e, xs[i], xs[j]);
      y := FirstByLink(t, e, xs, acc, i);
    }
  }

  lemma {:induction false} EarlierWriter(t: Tables, e: Exchange, xs: seq<Fetched>, acc: seq<nat>, j: nat)
    requires j < |acc| <= |xs| && FitsAt(t, e, xs, acc, j) && acc[j] < |t.accounts| && acc[j] != Described(t, e, xs[j])
    requires !(KnownId(t, e, xs[j]) && KnownAccount(t, e, xs[j]) !in acc[..j])
    ensures exists i :: 0 <= i < j && acc[i] == acc[j]
  {
    hide Creates, Outranked, Mapped, KnownId, OwnLook;
    NotBeyond(t, e, xs[j]);
    hide Described;
    assert acc[j] in acc[..j];
    var i :| 0 <= i < |acc[..j]| && acc[..j][i] == acc[j];
    assert acc[i] == acc[j];
  }

  // ----- What the lookup by description finds -----

  /** The last creation before n: what was written up to there is in the database. */
  ghost function LastCreated(t: Tables, e: Exchange, xs: seq<Fetched>, n: nat): (f: int)
    requires n <= |xs|
    ensures -1 <= f < n
    ensures f >= 0 ==> Creates(t, e, xs, f)
    ensures forall z :: f < z < n ==> !Creates(t, e, xs, z)
  {
    if n == 0 then -1 else if Creates(t, e, xs, n - 1) then n - 1 else LastCreated(t, e, xs, n - 1)
  }

  /** Account `a` looks like the n-th, in the database: it did before, or one alike was written to it. */
  ghost predicate MatchIn(t: Tables, e: Exchange, xs: seq<Fetched>, acc: seq<nat>, n: nat, a: nat)
    requires n < |xs| && n <= |acc| <= |xs|
  {
    || (a < |t.accounts| && SameBankAccount(t.accounts[a], e.uid, e.institution, xs[n]))
    || exists j :: 0 <= j <= LastCreated(t, e, xs, n) && WrittenAlike(xs, acc, n, j, a)
  }

  predicate WrittenAlike(xs: seq<Fetched>, acc: seq<nat>, n: nat, j: nat, a: nat)
    requires n < |xs| && j < |acc| <= |xs|
  {
    acc[j] == a && Alike(xs[j], xs[n])
  }

  lemma {:induction false} DescribedIsFirst(t: Tables, e: Exchange, x: Fetched)
    ensures var d := Described(t, e, x);
            && (d < |t.accounts| ==> SameBankAccount(t.accounts[d], e.uid, e.institution, x))
            && forall k :: 0 <= k < d && k < |t.accounts| ==> !SameBankAccount(t.accounts[k], e.uid, e.institution, x)
  {
    hide First;
  }

  /** The account of a known one that comes early enough is written before the flush. */
  lemma {:induction false} RenamedMatches(t: Tables, e: Exchange, xs: seq<Fetched>, acc: seq<nat>, n: nat, y: nat)
    requires SameDescriptions(t, e.uid, xs) && n < |xs| && n <= |acc| <= |xs| && Fits(t, e, xs, acc)
    requires 0 <= y < LastCreated(t, e, xs, n) && KnownId(t, e, xs[y]) && Alike(xs[y], xs[n])
    ensures MatchIn(t, e, xs, acc, n, KnownAccount(t, e, xs[y]))
  {
    assert FitsAt(t, e, xs, acc, y);
    hide Creates, Outranked, Described, Mapped, KnownId, Fits, FitsAt, LastCreated;
    KnownLook(t, e, xs, y);
    var c := KnownAccount(t, e, xs[y]);
    if c in acc[..y] {
      var j :| 0 <= j < y && acc[..y][j] == c;
      WrittenLook(t, e, xs, acc, j) by {
        AllFit(t, e, xs, acc);
      }
      assert WrittenAlike(xs, acc, n, j, c);
    } else {
      assert WrittenAlike(xs, acc, n, y, c);
    }
  }

  lemma {:induction false} AllFit(t: Tables, e: Exchange, xs: seq<Fetched>, acc: seq<nat>)
    requires |acc| <= |xs| && Fits(t, e, xs, acc)
    ensures forall j :: 0 <= j < |acc| ==> FitsAt(t, e, xs, acc, j)
  {
    hide FitsAt;
  }

  /** A match that did not look so before belongs to a known one, which ranks it before the flush. */
  lemma {:induction false} NewMatch(
      t: Tables, e: Exchange, xs: seq<Fetched>, acc: seq<nat>, n: nat, a: nat)
    returns (y: nat)
    requires n < |xs| && n <= |acc| <= |xs| && Fits(t, e, xs, acc) && a < |t.accounts| && MatchIn(t, e, xs, acc, n, a)
    requires a < Described(t, e, xs[n])
    ensures 0 <= y < LastCreated(t, e, xs, n) && KnownId(t, e, xs[y])
    ensures KnownAccount(t, e, xs[y]) == a && Alike(xs[y], xs[n])
    ensures OwnLook(t, e, a, xs[n]) && a in acc[..n]
  {
    DescribedIsFirst(t, e, xs[n]);
    var f := LastCreated(t, e, xs, n);
    hide Outranked, Described, Mapped, KnownId, Fits, FitsAt, LastCreated;
    var j :| 0 <= j <= f && WrittenAlike(xs, acc, n, j, a);
    DescribedAlike(t, e, xs[j], xs[n]);
    y := FirstByLink(t, e, xs, acc, j);
    InPrefix(acc, j, n);
    AllFit(t, e, xs, acc);
    WrittenLook(t, e, xs, acc, j);
  }

  /** When no account matches, one is created, and the other way around. */
  lemma {:induction false} NoMatchCreates(t: Tables, e: Exchange, xs: seq<Fetched>, acc: seq<nat>, n: nat)
    requires SameDescriptions(t, e.uid, xs) && n < |xs| && n <= |acc| <= |xs|
    requires Fits(t, e, xs, acc) && !KnownId(t, e, xs[n])
    requires forall a :: !MatchIn(t, e, xs, acc, n, a)
    ensures Creates(t, e, xs, n)
  {
    hide Mapped, Fits, FitsAt, MatchIn, Described, KnownId, Outranked, LastCreated;
    NothingDescribed(t, e, xs, acc, n);
    if Outranked(t, e, xs, n) {
      var y := OutrankedBy(t, e, xs, n);
      RenamedMatches(t, e, xs, acc, n, y);
    } else if !FirstUnknown(t, e, xs, n) {
      var u := FirstTwin(t, e, xs, n);
      FirstCreates(t, e, xs, u, n);
      CreatedMatches(t, e, xs, acc, n, u);
    }
  }

  lemma {:induction false} NothingDescribed(t: Tables, e: Exchange, xs: seq<Fetched>, acc: seq<nat>, n: nat)
    requires n < |xs| && n <= |acc| <= |xs| && forall a :: !MatchIn(t, e, xs, acc, n, a)
    ensures Described(t, e, xs[n]) == |t.accounts|
  {
    hide LastCreated, Described;
    DescribedIsFirst(t, e, xs[n]);
    NotBeyond(t, e, xs[n]);
    assert !MatchIn(t, e, xs, acc, n, Described(t, e, xs[n]));
  }

  lemma {:induction false} OutrankedBy(t: Tables, e: Exchange, xs: seq<Fetched>, n: nat) returns (y: nat)
    requires n < |xs| && Outranked(t, e, xs, n)
    ensures 0 <= y < LastCreated(t, e, xs, n) && Renames(t, e, xs, y, n)
  {
    hide Creates, Renames, LastCreated;
    var i, z :| 0 <= i < z < n && Renames(t, e, xs, i, n) && Creates(t, e, xs, z);
    y := i;
  }

  lemma {:induction false} CreatedMatches(t: Tables, e: Exchange, xs: seq<Fetched>, acc: seq<nat>, n: nat, u: nat)
    requires n < |xs| && n <= |acc| <= |xs| && u < n && Creates(t, e, xs, u) && Alike(xs[u], xs[n])
    ensures MatchIn(t, e, xs, acc, n, acc[u])
  {
    hide Creates, LastCreated;
    assert WrittenAlike(xs, acc, n, u, acc[u]);
  }

  lemma {:induction false} CreatesHasNoMatch(t: Tables, e: Exchange, xs: seq<Fetched>, acc: seq<nat>, n: nat, a: nat)
    requires Good(t) && n < |xs| && n <= |acc| <= |xs| && Creates(t, e, xs, n)
    ensures !MatchIn(t, e, xs, acc, n, a)
  {
    hide Good, Described, LastCreated, KnownId;
    DescribedIsFirst(t, e, xs[n]);
    var f := LastCreated(t, e, xs, n);
    if MatchIn(t, e, xs, acc, n, a) {
      var j :| 0 <= j <= f && WrittenAlike(xs, acc, n, j, a);
      if j < f {
        KnownInTable(t, e, xs[j]);
        NotOutranked(t, e, xs, n, j);
      }
    }
  }

  lemma {:induction false} KnownInTable(t: Tables, e: Exchange, x: Fetched)
    requires KnownId(t, e, x)
    ensures KnownAccount(t, e, x) < |t.accounts|
  {
    hide First;
  }

  /** The first match is the account an unknown one is written to. */
  lemma {:induction false} MatchFits(t: Tables, e: Exchange, xs: seq<Fetched>, acc: seq<nat>, a: nat)
    requires Good(t) && SameDescriptions(t, e.uid, xs) && |acc| < |xs|
    requires Fits(t, e, xs, acc) && !KnownId(t, e, xs[|acc|])
    requires MatchIn(t, e, xs, acc, |acc|, a) && forall b :: 0 <= b < a ==> !MatchIn(t, e, xs, acc, |acc|, b)
    ensures UnknownFits(t, e, xs, acc + [a], |acc|)
  {
    hide Good, Mapped, Fits, FitsAt, MatchIn, Described, KnownId, Outranked, LastCreated, OwnLook, Creates,
        SameDescriptions;
    var n := |acc|;
    assert (acc + [a])[..n] == acc && acc[..n] == acc;
    if Creates(t, e, xs, n) {
      CreatesHasNoMatch(t, e, xs, acc, n, a);
    } else if Outranked(t, e, xs, n) {
      OutrankedMatch(t, e, xs, acc, a);
    } else {
      NotBeyond(t, e, xs[n]);
      PlainMatch(t, e, xs, acc, a);
    }
  }

  lemma {:induction false} OutrankedMatch(t: Tables, e: Exchange, xs: seq<Fetched>, acc: seq<nat>, a: nat)
    requires Good(t) && SameDescriptions(t, e.uid, xs) && |acc| < |xs|
    requires Fits(t, e, xs, acc) && !KnownId(t, e, xs[|acc|])
    requires MatchIn(t, e, xs, acc, |acc|, a) && forall b :: 0 <= b < a ==> !MatchIn(t, e, xs, acc, |acc|, b)
    requires Outranked(t, e, xs, |acc|)
    ensures a in acc && OwnLook(t, e, a, xs[|acc|]) && Mapped(t.links, a)
  {
    hide Good, Mapped, Fits, FitsAt, MatchIn, Described, KnownId, Outranked, LastCreated, OwnLook, Creates,
        SameDescriptions;
    var n := |acc|;
    assert acc[..n] == acc;
    var y := OutrankedBy(t, e, xs, n);
    RenamedMatches(t, e, xs, acc, n, y);
    NotBeyond(t, e, xs[n]);
    assert a <= KnownAccount(t, e, xs[y]);
    var w := NewMatch(t, e, xs, acc, n, a);
    KnownLook(t, e, xs, w);
  }

  lemma {:induction false} PlainMatch(t: Tables, e: Exchange, xs: seq<Fetched>, acc: seq<nat>, a: nat)
    requires Good(t) && SameDescriptions(t, e.uid, xs) && |acc| < |xs|
    requires Fits(t, e, xs, acc) && !KnownId(t, e, xs[|acc|])
    requires MatchIn(t, e, xs, acc, |acc|, a) && forall b :: 0 <= b < a ==> !MatchIn(t, e, xs, acc, |acc|, b)
    requires !Outranked(t, e, xs, |acc|) && !Creates(t, e, xs, |acc|)
    ensures Described(t, e, xs[|acc|]) < |t.accounts| ==> a == Described(t, e, xs[|acc|])
    ensures Described(t, e, xs[|acc|]) == |t.accounts| ==> a in acc
    ensures Described(t, e, xs[|acc|]) == |t.accounts| ==>
              forall u :: 0 <= u < |acc| && FirstUnknown(t, e, xs, u) && Alike(xs[u], xs[|acc|]) ==> a == acc[u]
  {
    hide Good, Mapped, Fits, FitsAt, Described, KnownId, LastCreated, OwnLook, Creates, SameDescriptions, FirstUnknown,
        Outranked;
    var n := |acc|;
    var d := Described(t, e, xs[n]);
    DescribedIsFirst(t, e, xs[n]);
    NotBeyond(t, e, xs[n]);
    if a < d && a < |t.accounts| {
      var y := NewMatch(t, e, xs, acc, n, a);
      NotOutranked(t, e, xs, n, y);
    } else if d < |t.accounts| {
      assert MatchIn(t, e, xs, acc, n, d);
    } else {
      var j :| 0 <= j <= LastCreated(t, e, xs, n) && WrittenAlike(xs, acc, n, j, a);
      var v := NewIsFirsts(t, e, xs, acc, j);
      forall u | 0 <= u < n && FirstUnknown(t, e, xs, u) && Alike(xs[u], xs[n]) ensures a == acc[u] {
        CreatesIsFirst(t, e, xs, v);
        FirstIsOne(t, e, xs, u, v);
      }
    }
  }

  lemma {:induction false} CreatesIsFirst(t: Tables, e: Exchange, xs: seq<Fetched>, v: nat)
    requires v < |xs| && Creates(t, e, xs, v)
    ensures FirstUnknown(t, e, xs, v)
  {
    hide FirstUnknown;
  }

  lemma {:induction false} NotOutranked(t: Tables, e: Exchange, xs: seq<Fetched>, n: nat, y: nat)
    requires n < |xs| && 0 <= y < LastCreated(t, e, xs, n) && Renames(t, e, xs, y, n)
    ensures Outranked(t, e, xs, n)
  {
    hide Creates, Renames, LastCreated;
  }
}
