/** When two fetched accounts fall on one stored account, in terms of the accounts they are written to. */
module PlaidTwins {
  import opened Text
  import opened PlaidLinks
  import opened PlaidProofs
  import opened PlaidLimit
  import opened PlaidSelection

  /** A known one whose mapping a twin took over before the flush is found by its look, on an account
      that was mapped before and is already written. */
  lemma {:induction false} TakenOverFits(t: Tables, e: Exchange, xs: seq<Fetched>, acc: seq<nat>, j: nat, a: nat)
    requires Good(t) && SameDescriptions(t, e.uid, xs) && Identified(xs) && |acc| < |xs| && Fits(t, e, xs, acc)
    requires KnownId(t, e, xs[|acc|])
    requires 0 <= j <= LastCreated(t, e, xs, |acc|) && acc[j] == KnownAccount(t, e, xs[|acc|])
    requires MatchIn(t, e, xs, acc, |acc|, a) && forall b :: 0 <= b < a ==> !MatchIn(t, e, xs, acc, |acc|, b)
    ensures OwnLook(t, e, a, xs[|acc|]) && Mapped(t.links, a) && a in acc
  {
    hide Good, Mapped, Fits, FitsAt, Described, KnownId, LastCreated, OwnLook, SameDescriptions, Identified, MatchIn;
    var n, b := |acc|, acc[j];
    KnownLook(t, e, xs, n);
    TakenIsDescribed(t, e, xs, acc, j);
    WriterMatches(t, e, xs, acc, j);
    assert a <= b;
    if a < b {
      OwnInTable(t, e, b, xs[n]);
      var y := NewMatch(t, e, xs, acc, n, a);
      KnownLook(t, e, xs, y);
      assert acc[..n] == acc;
    }
  }

  lemma {:induction false} OwnInTable(t: Tables, e: Exchange, a: nat, x: Fetched)
    requires OwnLook(t, e, a, x)
    ensures a < |t.accounts|
  {
  }

  lemma {:induction false} LooksAlike(t: Tables, e: Exchange, a: nat, x: Fetched, y: Fetched)
    requires OwnLook(t, e, a, x) && OwnLook(t, e, a, y)
    ensures Alike(x, y)
  {
  }

  lemma {:induction false} WriterMatches(t: Tables, e: Exchange, xs: seq<Fetched>, acc: seq<nat>, j: nat)
    requires |acc| < |xs| && Fits(t, e, xs, acc) && 0 <= j <= LastCreated(t, e, xs, |acc|)
    requires OwnLook(t, e, acc[j], xs[|acc|])
    ensures MatchIn(t, e, xs, acc, |acc|, acc[j]) && Alike(xs[j], xs[|acc|])
  {
    hide FitsAt, LastCreated, OwnLook, Alike;
    AllFit(t, e, xs, acc);
    OwnInTable(t, e, acc[j], xs[|acc|]);
    WrittenLook(t, e, xs, acc, j);
    LooksAlike(t, e, acc[j], xs[j], xs[|acc|]);
    assert WrittenAlike(xs, acc, |acc|, j, acc[j]);
  }

  /** Whoever else writes a known one's account found it by its look. */
  lemma {:induction false} TakenIsDescribed(t: Tables, e: Exchange, xs: seq<Fetched>, acc: seq<nat>, j: nat)
    requires Good(t) && SameDescriptions(t, e.uid, xs) && Identified(xs) && |acc| < |xs| && Fits(t, e, xs, acc)
    requires j < |acc| && KnownId(t, e, xs[|acc|]) && acc[j] == KnownAccount(t, e, xs[|acc|])
    ensures Described(t, e, xs[|acc|]) == acc[j]
  {
    hide Good, Mapped, FitsAt, Described, KnownId, OwnLook, SameDescriptions, Alike;
    var n := |acc|;
    KnownLook(t, e, xs, n);
    OwnInTable(t, e, acc[j], xs[n]);
    AllFit(t, e, xs, acc);
    WrittenLook(t, e, xs, acc, j);
    LooksAlike(t, e, acc[j], xs[j], xs[n]);
    DescribedAlike(t, e, xs[j], xs[n]);
    if acc[j] != Described(t, e, xs[j]) {
      var y := FirstByLink(t, e, xs, acc, j);
      KnownDiffer(t, e, xs, y, n);
    }
  }

  // ----- Breaking a constraint -----

  /** The n-th is written to an account that had no mapping before the exchange and got one that is not
      in the database yet. */
  ghost predicate TakenUnflushed(t: Tables, e: Exchange, xs: seq<Fetched>, acc: seq<nat>, n: nat)
    requires n < |acc| <= |xs|
  {
    && !Mapped(t.links, acc[n]) && acc[n] in acc[..n]
    && forall j :: 0 <= j < LastCreated(t, e, xs, n) ==> acc[j] != acc[n]
  }

  /** Only unknown ones that were not outranked are written to an account without a mapping. */
  lemma {:induction false} UnmappedWriter(t: Tables, e: Exchange, xs: seq<Fetched>, acc: seq<nat>, j: nat)
    requires j < |acc| <= |xs| && FitsAt(t, e, xs, acc, j) && !Mapped(t.links, acc[j])
    ensures !KnownId(t, e, xs[j]) && !Outranked(t, e, xs, j)
  {
    hide Mapped, KnownId, Described, Outranked, OwnLook, FirstUnknown;
  }

  /** All of them that look alike are written to the same account as the first. */
  lemma {:induction false} SameAsFirst(t: Tables, e: Exchange, xs: seq<Fetched>, acc: seq<nat>, u: nat, j: nat)
    requires u <= j < |acc| <= |xs| && Fits(t, e, xs, acc) && FirstUnknown(t, e, xs, u) && Alike(xs[u], xs[j])
    requires !KnownId(t, e, xs[j]) && !Outranked(t, e, xs, j)
    ensures acc[j] == acc[u] && !Outranked(t, e, xs, u)
    ensures Described(t, e, xs[u]) < |t.accounts| ==> acc[u] == Described(t, e, xs[u])
    ensures Described(t, e, xs[u]) == |t.accounts| ==> acc[u] >= |t.accounts|
  {
    assert FitsAt(t, e, xs, acc, j) && FitsAt(t, e, xs, acc, u);
    hide Mapped, KnownId, Described, Outranked, OwnLook, Fits;
    NotBeyond(t, e, xs[u]);
    DescribedAlike(t, e, xs[u], xs[j]);
    if Outranked(t, e, xs, u) {
      OutrankedLater(t, e, xs, u, j);
    }
    if Creates(t, e, xs, j) {
      FirstIsOne(t, e, xs, u, j);
    }
  }

  lemma {:induction false} MappedInTable(t: Tables, a: nat)
    requires Good(t) && Mapped(t.links, a)
    ensures a < |t.accounts|
  {
    hide Consistent, OnePerAccount;
    var k :| 0 <= k < |t.links| && t.links[k].Some? && t.links[k].value.account == a;
    assert LinkOk(t, t.links[k]);
  }

  lemma {:induction false} BreakIsTaken(t: Tables, e: Exchange, xs: seq<Fetched>, acc: seq<nat>, v: nat)
    requires Good(t) && v < |acc| <= |xs| && Fits(t, e, xs, acc) && BreaksAt(t, e, xs, v)
    ensures TakenUnflushed(t, e, xs, acc, v)
  {
    hide Good, Mapped, KnownId, Described, Outranked, OwnLook, Fits, FitsAt, Creates, LastCreated, Alike;
    var u :| 0 <= u < v && MapsAgain(t, e, xs, u, v);
    SameAsFirst(t, e, xs, acc, u, v);
    InPrefix(acc, u, v);
    if Mapped(t.links, acc[u]) {
      MappedInTable(t, acc[u]);
      NotBeyond(t, e, xs[u]);
    }
    forall j | 0 <= j < LastCreated(t, e, xs, v) ensures acc[j] != acc[v] {
      if acc[j] == acc[v] {
        FlushedBefore(t, e, xs, u, v);
        AllFit(t, e, xs, acc);
        UnmappedWriter(t, e, xs, acc, j);
        WritersAlike(t, e, xs, acc, j, u);
        NoEarlierTwin(t, e, xs, j, u);
      }
    }
  }

  lemma {:induction false} FlushedBefore(t: Tables, e: Exchange, xs: seq<Fetched>, u: nat, v: nat)
    requires u < v < |xs| && MapsAgain(t, e, xs, u, v)
    ensures LastCreated(t, e, xs, v) <= u
  {
    hide Creates, Adds, KnownId, Alike, Outranked;
  }

  lemma {:induction false} NoEarlierTwin(t: Tables, e: Exchange, xs: seq<Fetched>, j: nat, u: nat)
    requires j < u < |xs| && FirstUnknown(t, e, xs, u) && Alike(xs[j], xs[u])
    ensures KnownId(t, e, xs[j])
  {
    hide KnownId, Alike;
  }

  /** As long as nothing broke before, that is the only way to take an unflushed mapping. */
  lemma {:induction false} TakenIsBreak(t: Tables, e: Exchange, xs: seq<Fetched>, acc: seq<nat>, n: nat)
    requires Good(t) && n < |acc| <= |xs| && Fits(t, e, xs, acc) && TakenUnflushed(t, e, xs, acc, n)
    requires forall w :: 0 <= w < n ==> !BreaksAt(t, e, xs, w)
    ensures BreaksAt(t, e, xs, n)
  {
    hide Good, Mapped, KnownId, Described, Outranked, OwnLook, Fits, FitsAt, Creates, LastCreated, BreaksAt;
    AllFit(t, e, xs, acc);
    UnmappedWriter(t, e, xs, acc, n);
    var u := FirstTwin(t, e, xs, n);
    SameAsFirst(t, e, xs, acc, u, n);
    TakenIsNotFirst(t, e, xs, acc, n, u);
    var v := NextTwin(t, e, xs, u, n);
    TwinNotOutranked(t, e, xs, v, n);
    AddsHere(t, e, xs, acc, u);
    forall w | u < w < v ensures !Creates(t, e, xs, w) {
      if Creates(t, e, xs, w) {
        CreatedBefore(t, e, xs, w, n);
      }
    }
    assert MapsAgain(t, e, xs, u, v);
    BreaksHere(t, e, xs, u, v);
    assert v == n;
  }

  lemma {:induction false} BreaksHere(t: Tables, e: Exchange, xs: seq<Fetched>, u: nat, v: nat)
    requires u < v < |xs| && MapsAgain(t, e, xs, u, v)
    ensures BreaksAt(t, e, xs, v)
  {
    hide MapsAgain;
  }

  lemma {:induction false} CreatedBefore(t: Tables, e: Exchange, xs: seq<Fetched>, w: nat, n: nat)
    requires w < n <= |xs| && Creates(t, e, xs, w)
    ensures w <= LastCreated(t, e, xs, n)
  {
    hide Creates;
  }

  lemma {:induction false} TakenIsNotFirst(t: Tables, e: Exchange, xs: seq<Fetched>, acc: seq<nat>, n: nat, u: nat)
    requires n < |acc| <= |xs| && Fits(t, e, xs, acc) && TakenUnflushed(t, e, xs, acc, n)
    requires u <= n && FirstUnknown(t, e, xs, u) && Alike(xs[u], xs[n])
    ensures u < n
  {
    hide Mapped, KnownId, Described, Outranked, OwnLook, Fits, FitsAt, Creates, LastCreated;
    var j :| 0 <= j < n && acc[..n][j] == acc[n];
    WritersAlike(t, e, xs, acc, j, n);
    AllFit(t, e, xs, acc);
    UnmappedWriter(t, e, xs, acc, j);
  }

  lemma {:induction false} NextTwin(t: Tables, e: Exchange, xs: seq<Fetched>, u: nat, n: nat) returns (v: nat)
    requires u < n < |xs| && !KnownId(t, e, xs[n]) && Alike(xs[u], xs[n])
    ensures u < v <= n && !KnownId(t, e, xs[v]) && Alike(xs[u], xs[v])
    ensures forall w :: u < w < v && Alike(xs[w], xs[v]) ==> KnownId(t, e, xs[w])
    decreases n
  {
    hide KnownId;
    if forall w :: u < w < n && Alike(xs[w], xs[n]) ==> KnownId(t, e, xs[w]) {
      v := n;
    } else {
      var w :| u < w < n && Alike(xs[w], xs[n]) && !KnownId(t, e, xs[w]);
      v := NextTwin(t, e, xs, u, w);
    }
  }

  lemma {:induction false} TwinNotOutranked(t: Tables, e: Exchange, xs: seq<Fetched>, v: nat, n: nat)
    requires v <= n < |xs| && Alike(xs[v], xs[n]) && !Outranked(t, e, xs, n)
    ensures !Outranked(t, e, xs, v)
  {
    hide Outranked;
    if Outranked(t, e, xs, v) {
      OutrankedLater(t, e, xs, v, n);
    }
  }

  lemma {:induction false} AddsHere(t: Tables, e: Exchange, xs: seq<Fetched>, acc: seq<nat>, u: nat)
    requires u < |acc| <= |xs| && Fits(t, e, xs, acc) && FirstUnknown(t, e, xs, u) && !Mapped(t.links, acc[u])
    requires !Outranked(t, e, xs, u)
    ensures Adds(t, e, xs, u)
  {
    hide Mapped, KnownId, Described, Outranked, Fits;
    NotBeyond(t, e, xs[u]);
    SameAsFirst(t, e, xs, acc, u, u);
  }

  // ----- Falling together -----

  ghost predicate AllDiffer(acc: seq<nat>) {
    forall i, j :: 0 <= i < j < |acc| ==> acc[i] != acc[j]
  }

  /** On a separate selection every known one is written to its own account. */
  lemma {:induction false} OwnAccounts(t: Tables, e: Exchange, xs: seq<Fetched>, acc: seq<nat>, n: nat)
    requires Good(t) && Identified(xs) && |acc| <= |xs| && Fits(t, e, xs, acc) && Separate(t, e, xs)
    requires n < |acc| && KnownId(t, e, xs[n])
    ensures acc[n] == KnownAccount(t, e, xs[n])
    decreases n
  {
    AllFit(t, e, xs, acc);
    var b := KnownAccount(t, e, xs[n]);
    hide Good, Mapped, KnownId, Described, Outranked, OwnLook, Fits, Creates, LastCreated, Alike, Separate, StandsAlone;
    KnownInTable(t, e, xs[n]);
    if b in acc[..n] {
      var j :| 0 <= j < n && acc[..n][j] == b;
      if KnownId(t, e, xs[j]) {
        OwnAccounts(t, e, xs, acc, j);
        KnownDiffer(t, e, xs, j, n);
      } else {
        AloneWrites(t, e, xs, acc, j);
        AloneFromKnown(t, e, xs, j, n);
        NotBeyond(t, e, xs[j]);
      }
    } else {
      assert FitsAt(t, e, xs, acc, n);
    }
  }

  lemma {:induction false} AloneAt(t: Tables, e: Exchange, xs: seq<Fetched>, u: nat)
    requires Separate(t, e, xs) && u < |xs| && !KnownId(t, e, xs[u])
    ensures StandsAlone(t, e, xs, u)
  {
    hide StandsAlone, KnownId;
  }

  lemma {:induction false} AloneFromKnown(t: Tables, e: Exchange, xs: seq<Fetched>, u: nat, v: nat)
    requires Separate(t, e, xs) && u < |xs| && !KnownId(t, e, xs[u]) && v < |xs| && KnownId(t, e, xs[v])
    ensures KnownAccount(t, e, xs[v]) != Described(t, e, xs[u])
  {
    hide Separate, KnownId, Described, Outranked, Alike, KnownAccount;
    AloneAt(t, e, xs, u);
  }

  /** One that stands alone is written to the account it looks like, or to a new one. */
  lemma {:induction false} AloneWrites(t: Tables, e: Exchange, xs: seq<Fetched>, acc: seq<nat>, u: nat)
    requires |acc| <= |xs| && Fits(t, e, xs, acc) && Separate(t, e, xs) && u < |acc| && !KnownId(t, e, xs[u])
    ensures Described(t, e, xs[u]) < |t.accounts| ==> acc[u] == Described(t, e, xs[u])
    ensures Described(t, e, xs[u]) == |t.accounts| ==> acc[u] >= |t.accounts|
    ensures FirstUnknown(t, e, xs, u)
  {
    AloneAt(t, e, xs, u);
    hide Separate, KnownId, Described, Outranked, Fits, KnownAccount, Mapped;
    NotBeyond(t, e, xs[u]);
    assert FirstUnknown(t, e, xs, u);
    SameAsFirst(t, e, xs, acc, u, u);
  }

  lemma {:induction false} AloneDiffer(t: Tables, e: Exchange, xs: seq<Fetched>, acc: seq<nat>, u: nat, v: nat)
    requires |acc| <= |xs| && Fits(t, e, xs, acc) && Separate(t, e, xs)
    requires u < |acc| && v < |acc| && u != v && !KnownId(t, e, xs[u]) && !KnownId(t, e, xs[v])
    ensures acc[u] != acc[v]
  {
    AloneAt(t, e, xs, u);
    hide Separate, KnownId, Described, Outranked, Fits, KnownAccount, Mapped;
    if acc[u] == acc[v] {
      WritersAlike(t, e, xs, acc, v, u);
    }
  }

  /** A separate selection is written to accounts that all differ. */
  lemma {:induction false} SeparateDiffers(t: Tables, e: Exchange, xs: seq<Fetched>, acc: seq<nat>)
    requires Good(t) && Identified(xs) && |acc| <= |xs| && Fits(t, e, xs, acc) && Separate(t, e, xs)
    ensures AllDiffer(acc)
  {
    hide Good, Mapped, KnownId, Described, Outranked, OwnLook, Fits, FitsAt, Creates, Alike, Separate, Identified;
    forall i, j | 0 <= i < j < |acc| ensures acc[i] != acc[j] {
      PairDiffers(t, e, xs, acc, i, j);
    }
  }

  lemma {:induction false} PairDiffers(t: Tables, e: Exchange, xs: seq<Fetched>, acc: seq<nat>, i: nat, j: nat)
    requires Good(t) && Identified(xs) && |acc| <= |xs| && Fits(t, e, xs, acc) && Separate(t, e, xs)
    requires i < |acc| && j < |acc| && i != j
    ensures acc[i] != acc[j]
  {
    hide Good, Mapped, KnownId, Described, Outranked, OwnLook, Fits, FitsAt, Creates, Alike, Separate;
    if KnownId(t, e, xs[i]) && KnownId(t, e, xs[j]) {
      OwnAccounts(t, e, xs, acc, i);
      OwnAccounts(t, e, xs, acc, j);
      if acc[i] == acc[j] {
        KnownDiffer(t, e, xs, i, j);
      }
    } else if KnownId(t, e, xs[i]) {
      KnownFromUnknown(t, e, xs, acc, i, j);
    } else if KnownId(t, e, xs[j]) {
      KnownFromUnknown(t, e, xs, acc, j, i);
    } else {
      AloneDiffer(t, e, xs, acc, i, j);
    }
  }

  lemma {:induction false} KnownFromUnknown(t: Tables, e: Exchange, xs: seq<Fetched>, acc: seq<nat>, v: nat, u: nat)
    requires Good(t) && Identified(xs) && |acc| <= |xs| && Fits(t, e, xs, acc) && Separate(t, e, xs)
    requires u < |acc| && v < |acc| && KnownId(t, e, xs[v]) && !KnownId(t, e, xs[u])
    ensures acc[v] != acc[u]
  {
    hide Good, Mapped, KnownId, Described, Outranked, OwnLook, Fits, FitsAt, Creates, Alike, Separate, KnownAccount;
    OwnAccounts(t, e, xs, acc, v);
    AloneWrites(t, e, xs, acc, u);
    AloneFromKnown(t, e, xs, u, v);
    KnownInTable(t, e, xs[v]);
    NotBeyond(t, e, xs[u]);
  }

  /** And the other way around: accounts that all differ mean a separate selection. */
  lemma {:induction false} DiffersSeparate(t: Tables, e: Exchange, xs: seq<Fetched>, acc: seq<nat>)
    requires Good(t) && |acc| == |xs| && Fits(t, e, xs, acc) && AllDiffer(acc)
    ensures Separate(t, e, xs)
  {
    hide Good, Mapped, KnownId, Described, Outranked, OwnLook, Fits, FitsAt, Creates, Alike, KnownAccount, AllDiffer;
    forall u | 0 <= u < |xs| && !KnownId(t, e, xs[u]) ensures StandsAlone(t, e, xs, u) {
      UnknownIsNotOutranked(t, e, xs, acc, u);
      forall v | 0 <= v < |xs| && v != u && Alike(xs[v], xs[u]) ensures KnownId(t, e, xs[v]) {
        NoTwin(t, e, xs, acc, u, v);
      }
      forall v | 0 <= v < |xs| && KnownId(t, e, xs[v]) ensures KnownAccount(t, e, xs[v]) != Described(t, e, xs[u]) {
        NotItsAccount(t, e, xs, acc, u, v);
      }
    }
  }

  lemma {:induction false} NotIn(acc: seq<nat>, n: nat)
    requires AllDiffer(acc) && n < |acc|
    ensures acc[n] !in acc[..n]
  {
  }

  lemma {:induction false} UnknownIsNotOutranked(t: Tables, e: Exchange, xs: seq<Fetched>, acc: seq<nat>, u: nat)
    requires |acc| == |xs| && Fits(t, e, xs, acc) && AllDiffer(acc) && u < |xs| && !KnownId(t, e, xs[u])
    ensures !Outranked(t, e, xs, u)
  {
    assert FitsAt(t, e, xs, acc, u);
    NotIn(acc, u);
    hide Mapped, KnownId, Described, Outranked, OwnLook, Fits, Alike, AllDiffer, FirstUnknown;
  }

  lemma {:induction false} NoTwin(t: Tables, e: Exchange, xs: seq<Fetched>, acc: seq<nat>, u: nat, v: nat)
    requires |acc| == |xs| && Fits(t, e, xs, acc) && AllDiffer(acc)
    requires u < |xs| && v < |xs| && u != v && Alike(xs[v], xs[u]) && !KnownId(t, e, xs[u])
    ensures KnownId(t, e, xs[v])
  {
    hide Mapped, KnownId, Described, Outranked, OwnLook, Fits;
    if !KnownId(t, e, xs[v]) {
      UnknownIsNotOutranked(t, e, xs, acc, u);
      UnknownIsNotOutranked(t, e, xs, acc, v);
      var w := FirstTwin(t, e, xs, u);
      var w' := FirstTwin(t, e, xs, v);
      FirstIsOne(t, e, xs, w, w');
      SameAsFirst(t, e, xs, acc, w, u);
      SameAsFirst(t, e, xs, acc, w, v);
    }
  }

  lemma {:induction false} NotItsAccount(t: Tables, e: Exchange, xs: seq<Fetched>, acc: seq<nat>, u: nat, v: nat)
    requires Good(t) && |acc| == |xs| && Fits(t, e, xs, acc) && AllDiffer(acc)
    requires u < |xs| && v < |xs| && !KnownId(t, e, xs[u]) && KnownId(t, e, xs[v])
    ensures KnownAccount(t, e, xs[v]) != Described(t, e, xs[u])
  {
    assert FitsAt(t, e, xs, acc, v);
    NotIn(acc, v);
    hide Good, Mapped, KnownId, Described, Outranked, OwnLook, Fits, FitsAt, Alike, KnownAccount;
    KnownInTable(t, e, xs[v]);
    KnownStays(t, e, xs, acc, v);
    UnknownIsNotOutranked(t, e, xs, acc, u);
    var w := FirstTwin(t, e, xs, u);
    SameAsFirst(t, e, xs, acc, w, u);
    DescribedAlike(t, e, xs[w], xs[u]);
  }

  lemma {:induction false} KnownStays(t: Tables, e: Exchange, xs: seq<Fetched>, acc: seq<nat>, v: nat)
    requires v < |acc| <= |xs| && FitsAt(t, e, xs, acc, v) && KnownId(t, e, xs[v]) && acc[v] !in acc[..v]
    ensures acc[v] == KnownAccount(t, e, xs[v])
  {
    hide Mapped, OwnLook;
  }

  // ----- New mappings -----

  /** A fetched account is newly mapped when it is the first written to an account without a mapping. */
  lemma {:induction false} AddsIff(t: Tables, e: Exchange, xs: seq<Fetched>, acc: seq<nat>, n: nat)
    requires Good(t) && n < |acc| <= |xs| && Fits(t, e, xs, acc)
    ensures Adds(t, e, xs, n) <==> !Mapped(t.links, acc[n]) && acc[n] !in acc[..n]
  {
    hide Good, Mapped, KnownId, Described, Outranked, OwnLook, Fits, FitsAt, Alike, FirstUnknown, Adds;
    AllFit(t, e, xs, acc);
    if Adds(t, e, xs, n) {
      AddsIsNew(t, e, xs, acc, n);
    } else if !Mapped(t.links, acc[n]) && acc[n] !in acc[..n] {
      UnmappedWriter(t, e, xs, acc, n);
      var u := FirstTwin(t, e, xs, n);
      SameAsFirst(t, e, xs, acc, u, n);
      InPrefix(acc, u, n);
      AddsHere(t, e, xs, acc, n);
    }
  }

  lemma {:induction false} AddsIsNew(t: Tables, e: Exchange, xs: seq<Fetched>, acc: seq<nat>, n: nat)
    requires Good(t) && n < |acc| <= |xs| && Fits(t, e, xs, acc) && Adds(t, e, xs, n)
    ensures !Mapped(t.links, acc[n]) && acc[n] !in acc[..n]
  {
    hide Good, Mapped, KnownId, Described, Outranked, OwnLook, Fits, FitsAt;
    NotBeyond(t, e, xs[n]);
    SameAsFirst(t, e, xs, acc, n, n);
    if Mapped(t.links, acc[n]) {
      MappedInTable(t, acc[n]);
    }
    if acc[n] in acc[..n] {
      var j :| 0 <= j < n && acc[..n][j] == acc[n];
      AllFit(t, e, xs, acc);
      UnmappedWriter(t, e, xs, acc, j);
      WritersAlike(t, e, xs, acc, j, n);
    }
  }
}
