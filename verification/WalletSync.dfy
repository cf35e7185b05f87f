/** Whole sync batches: which rows a committed batch leaves, when it commits, and re-syncing. */
module WalletSync {
  import opened Text
  import opened UnitOfWork
  import opened SyncStore
  import opened SyncProofs

  /** Every transaction the batch looks at carries an id with something before its first colon. */
  ghost predicate HasBases(ctx: Context, txns: seq<Incoming>) {
    forall i :: 0 <= i < |txns| && InBatch(ctx, txns[i]) ==> HasBase(txns[i])
  }

  predicate HasBase(t: Incoming) {
    t.txId.Some? && BeforeColon(t.txId.value) != ""
  }

  function BaseOf(t: Incoming): string
    requires HasBase(t)
  {
    BeforeColon(t.txId.value)
  }

  lemma {:induction false} BasesPrefix(ctx: Context, txns: seq<Incoming>)
    requires txns != [] && HasBases(ctx, txns)
    ensures HasBases(ctx, txns[..|txns| - 1])
    ensures InBatch(ctx, txns[|txns| - 1]) ==> HasBase(txns[|txns| - 1])
  {
  }

  // ----- The candidate query finds exactly the rows of one hash -----

  lemma {:induction false} MatchIsSameBase(f: Fields, base: string)
    requires base != "" && ':' !in base
    ensures MatchesBase(f, base) <==> Base(f) == base
  {
    if f.externalId.Some? {
      SharesBase(f.externalId.value, base);
    }
  }

  lemma {:induction false} BaseIsTruthy(t: Incoming)
    requires HasBase(t)
    ensures Truthy(t.txId) && IdOf(Web3, t) == Some(BaseOf(t)) && BaseOf(t) != "" && ':' !in BaseOf(t)
  {
  }

  /** The first matching row in query order comes first; the others follow it and are different rows. */
  lemma {:induction false} FirstCandidate(rows: seq<Row>, order: seq<nat>, base: string) returns (p: nat)
    requires InTable(rows, order) && Candidates(rows, order, base) != []
    requires forall i, j :: 0 <= i < j < |order| ==> order[i] != order[j]
    ensures p < |order| && order[p] == Candidates(rows, order, base)[0]
    ensures forall q :: 0 <= q < p ==> !MatchesBase(rows[order[q]].db.value, base)
    ensures forall k :: k in Candidates(rows, order, base)[1..] ==> k in order[p + 1..]
  {
    hide MatchesBase;
    var rest := Candidates(rows, order[1..], base);
    if MatchesBase(rows[order[0]].db.value, base) {
      p := 0;
      assert Candidates(rows, order, base)[1..] == rest;
      assert forall k :: k in rest ==> k in order[1..];
    } else {
      var q := FirstCandidate(rows, order[1..], base);
      p := q + 1;
      assert order[1..][q + 1..] == order[p + 1..];
      forall m | 0 <= m < p
        ensures !MatchesBase(rows[order[m]].db.value, base)
      {
        if m > 0 {
          assert order[1..][m - 1] == order[m];
        }
      }
    }
  }

  /** Where a wallet transaction goes: to the newest row of its hash, or to a new row when there is none. */
  lemma {:induction false} WalletTarget(ctx: Context, rows: seq<Row>, order: seq<nat>, t: Incoming)
    requires ctx.kind == Web3 && Ordering(rows, order) && HasBase(t)
    ensures Matching(ctx, rows, order, t) == Candidates(rows, order, BaseOf(t))
    ensures var e := Existing(ctx, rows, order, t);
            && (e.Some? ==> Matching(ctx, rows, order, t) != [] && e.value == Matching(ctx, rows, order, t)[0])
            && (e.Some? ==> Base(rows[e.value].db.value) == BaseOf(t))
            && (e.None? ==> Matching(ctx, rows, order, t) == [])
            && (e.None? ==> forall k :: 0 <= k < |rows| && rows[k].db.Some? ==> Base(rows[k].db.value) != BaseOf(t))
  {
    hide BeforeColon, FirstWithId;
    BaseIsTruthy(t);
    var base := BaseOf(t);
    forall k | 0 <= k < |rows| && rows[k].db.Some?
      ensures MatchesBase(rows[k].db.value, base) <==> Base(rows[k].db.value) == base
      ensures rows[k].db.value.externalId == Some(base) ==> MatchesBase(rows[k].db.value, base)
      ensures k in order
    {
      MatchIsSameBase(rows[k].db.value, base);
    }
    hide MatchesBase, Base;
    var c := Candidates(rows, order, base);
    if c == [] {
      forall k | 0 <= k < |rows| && rows[k].db.Some?
        ensures !MatchesBase(rows[k].db.value, base)
      {
        var i :| 0 <= i < |order| && order[i] == k;
        assert MatchesBase(rows[order[i]].db.value, base) ==> false;
      }
    }
  }

  // ----- The effect of a wallet batch on one row -----

  lemma {:induction false} WritesKeepBase(
      ctx: Context, rows: seq<Row>, order: seq<nat>, txns: seq<Incoming>, k: nat, f: Fields)
    requires ctx.kind == Web3 && Ordering(rows, order) && HasBases(ctx, txns)
    requires k < |rows| && rows[k].db == Some(f)
    ensures Base(Writes(ctx, rows, order, txns, k, f)) == Base(f)
    ensures Base(f) == "" ==> Writes(ctx, rows, order, txns, k, f) == f
  {
    OrderingInTable(rows, order);
    hide Existing, Ordering, InBatch, Signed;
    if txns == [] {
    } else {
      var n := |txns| - 1;
      BasesPrefix(ctx, txns);
      WritesKeepBase(ctx, rows, order, txns[..n], k, f);
      if InBatch(ctx, txns[n]) && Existing(ctx, rows, order, txns[n]) == Some(k) {
        WalletTarget(ctx, rows, order, txns[n]);
        BaseIsTruthy(txns[n]);
        NoColonKept(BaseOf(txns[n]));
      }
    }
  }

  /** A row is deleted by the batch only in favour of an earlier row of the same hash. */
  lemma {:induction false} VictimFollows(ctx: Context, rows: seq<Row>, order: seq<nat>, txns: seq<Incoming>, i: nat)
    requires ctx.kind == Web3 && Ordering(rows, order) && HasBases(ctx, txns)
    requires i < |order| && Pending(ctx, rows, order, txns, order[i], false)
    ensures exists p :: 0 <= p < i && Base(rows[order[p]].db.value) == Base(rows[order[i]].db.value) != ""
  {
    hide Existing, InBatch, Candidates, MatchesBase, Base;
    var n := |txns| - 1;
    BasesPrefix(ctx, txns);
    if Pending(ctx, rows, order, txns[..n], order[i], false) {
      VictimFollows(ctx, rows, order, txns[..n], i);
    } else {
      var t := txns[n];
      WalletTarget(ctx, rows, order, t);
      BaseIsTruthy(t);
      var c := Candidates(rows, order, BaseOf(t));
      var p := FirstCandidate(rows, order, BaseOf(t));
      assert order[i] in order[p + 1..];
      var q :| 0 <= q < |order[p + 1..]| && order[p + 1..][q] == order[i];
      assert order[p + 1 + q] == order[i];
      assert p < i;
      assert order[i] in c && c[0] in c;
      MatchIsSameBase(rows[order[i]].db.value, BaseOf(t));
      MatchIsSameBase(rows[order[p]].db.value, BaseOf(t));
    }
  }

  /** A new row carries a base id that no stored row has. */
  lemma {:induction false} CreatedIsFresh(ctx: Context, rows: seq<Row>, order: seq<nat>, txns: seq<Incoming>, m: nat)
    requires ctx.kind == Web3 && Ordering(rows, order) && HasBases(ctx, txns)
    requires m < |Created(ctx, rows, order, txns)|
    ensures var row := Created(ctx, rows, order, txns)[m];
            && row.db.None? && !row.deleted
            && Base(row.mem) != "" && row.mem.externalId == Some(Base(row.mem))
            && forall k :: 0 <= k < |rows| && rows[k].db.Some? ==> Base(rows[k].db.value) != Base(row.mem)
  {
    hide Existing, InBatch, Signed;
    var n := |txns| - 1;
    BasesPrefix(ctx, txns);
    if m < |Created(ctx, rows, order, txns[..n])| {
      CreatedIsFresh(ctx, rows, order, txns[..n], m);
    } else {
      WalletTarget(ctx, rows, order, txns[n]);
      BaseIsTruthy(txns[n]);
      NoColonKept(BaseOf(txns[n]));
    }
  }

  // ----- After a wallet batch -----

  /** A wallet batch over clean rows: the transactions, then the deduplication. */
  ghost predicate WalletBatch(
      ctx: Context, rows: seq<Row>, order: seq<nat>, fmt: Formats, txns: seq<Incoming>, r: seq<Row>)
  {
    && ctx.kind == Web3 && Clean(rows) && Ordering(rows, order) && HasBases(ctx, txns)
    && Deduped(ProcessAll(ctx, rows, order, txns), order, fmt, r)
  }

  /** What is known of the table between the two halves of the batch. */
  lemma {:induction false} Halfway(
      ctx: Context, rows: seq<Row>, order: seq<nat>, fmt: Formats, txns: seq<Incoming>, r: seq<Row>)
    returns (mid: seq<Row>)
    requires WalletBatch(ctx, rows, order, fmt, txns, r)
    ensures mid == ProcessAll(ctx, rows, order, txns)
    ensures SameDb(rows, mid) && Ordering(mid, order) && Deduped(mid, order, fmt, r)
    ensures BatchForm(ctx, rows, order, txns, mid)
  {
    hide Deduped, Clean, HasBases, Process;
    mid := ProcessAll(ctx, rows, order, txns);
    OrderingStays(rows, mid, order);
    BatchInClosedForm(ctx, rows, order, txns);
  }

  /** The first row of each key is never pending deletion when the deduplication starts. */
  lemma {:induction false} FirstsAreLive(
      ctx: Context, rows: seq<Row>, order: seq<nat>, fmt: Formats, txns: seq<Incoming>, r: seq<Row>)
    requires WalletBatch(ctx, rows, order, fmt, txns, r)
    ensures InTable(ProcessAll(ctx, rows, order, txns), order)
    ensures FirstsLive(ProcessAll(ctx, rows, order, txns), order, fmt)
  {
    hide Deduped, Process, Writes, Pending, Created, Base, HasBases;
    var mid := Halfway(ctx, rows, order, fmt, txns, r);
    forall i | 0 <= i < |order| && mid[order[i]].deleted
      ensures SeenBefore(mid, order, fmt, i)
    {
      VictimFollows(ctx, rows, order, txns, i);
      var p :| 0 <= p < i && Base(rows[order[p]].db.value) == Base(rows[order[i]].db.value) != "";
      WritesKeepBase(ctx, rows, order, txns, order[p], rows[order[p]].mem);
      WritesKeepBase(ctx, rows, order, txns, order[i], rows[order[i]].mem);
      KeyOfBase(mid[order[p]].mem, fmt);
      KeyOfBase(mid[order[i]].mem, fmt);
    }
  }

  lemma {:induction false} KeyOfBase(f: Fields, fmt: Formats)
    requires Base(f) != ""
    ensures Key(f, fmt) == Base(f)
  {
  }

  /** A surviving stored row keeps the base id it had; normalising only shortens the id to it. */
  lemma {:induction false} StoredRowAfter(
      ctx: Context, rows: seq<Row>, order: seq<nat>, fmt: Formats, txns: seq<Incoming>, r: seq<Row>, a: nat)
    requires WalletBatch(ctx, rows, order, fmt, txns, r) && a < |rows|
    ensures |rows| <= |r| && r[a].db == rows[a].db
    ensures !r[a].deleted ==> r[a].mem == Normalized(Writes(ctx, rows, order, txns, a, rows[a].mem), fmt)
    ensures !r[a].deleted && Base(r[a].mem) != "" ==> r[a].mem.externalId == Some(Base(r[a].mem))
    ensures !r[a].deleted && Base(rows[a].mem) != "" ==> Base(r[a].mem) == Base(rows[a].mem)
  {
    hide Process, Key, Base, HasBases, Writes, Normalized, Pending, Created;
    var mid := Halfway(ctx, rows, order, fmt, txns, r);
    var i := CleanOrder(rows, order, a);
    DedupedRowIs(mid, order, fmt, i);
    WritesKeepBase(ctx, rows, order, txns, a, rows[a].mem);
    NormalizedKeepsKey(mid[a].mem, fmt);
  }

  lemma {:induction false} NewRowAfter(
      ctx: Context, rows: seq<Row>, order: seq<nat>, fmt: Formats, txns: seq<Incoming>, r: seq<Row>, a: nat)
    requires WalletBatch(ctx, rows, order, fmt, txns, r) && |rows| <= a < |r|
    ensures |r| == |rows| + |Created(ctx, rows, order, txns)|
    ensures r[a] == Created(ctx, rows, order, txns)[a - |rows|] && r[a].db.None? && !r[a].deleted
    ensures Base(r[a].mem) != "" && r[a].mem.externalId == Some(Base(r[a].mem))
    ensures forall k :: 0 <= k < |rows| ==> Base(rows[k].mem) != Base(r[a].mem)
  {
    hide Process, Key, Base, HasBases, Writes, Normalized, Pending, Created;
    var mid := Halfway(ctx, rows, order, fmt, txns, r);
    assert mid[a] == mid[|rows|..][a - |rows|];
    assert a !in order;
    CreatedIsFresh(ctx, rows, order, txns, a - |rows|);
    assert forall k :: 0 <= k < |rows| ==> rows[k].db.Some? && rows[k].db.value == rows[k].mem;
  }

  /** However many suffixed rows a hash had before, a committed batch leaves one row per base id. */
  lemma {:induction false} OneRowPerBase(
      ctx: Context, rows: seq<Row>, order: seq<nat>, fmt: Formats, txns: seq<Incoming>, r: seq<Row>, i: nat, j: nat)
    requires WalletBatch(ctx, rows, order, fmt, txns, r) && CommitOk(r)
    requires i < |Committed(r)| && j < |Committed(r)| && i != j
    requires Base(Committed(r)[i].mem) != "" && Base(Committed(r)[j].mem) != ""
    ensures Base(Committed(r)[i].mem) != Base(Committed(r)[j].mem)
  {
    hide WalletBatch, Base, Committed, CommitOk;
    CommittedRows(r);
    var a, b := Live(r)[i], Live(r)[j];
    OneRowPerBaseAt(ctx, rows, order, fmt, txns, r, a, b);
  }

  lemma {:induction false} OneRowPerBaseAt(
      ctx: Context, rows: seq<Row>, order: seq<nat>, fmt: Formats, txns: seq<Incoming>, r: seq<Row>, a: nat, b: nat)
    requires WalletBatch(ctx, rows, order, fmt, txns, r) && CommitOk(r)
    requires a < |r| && b < |r| && a != b && !r[a].deleted && !r[b].deleted
    requires Base(r[a].mem) != "" && Base(r[b].mem) != ""
    ensures Base(r[a].mem) != Base(r[b].mem)
  {
    hide WalletBatch, Base, Created, Writes, Normalized;
    SettledId(ctx, rows, order, fmt, txns, r, a);
    SettledId(ctx, rows, order, fmt, txns, r, b);
    assert !Clash(r[a], r[b]);
  }

  /** After a batch every live row with a base id is stored under exactly that base id. */
  lemma {:induction false} SettledId(
      ctx: Context, rows: seq<Row>, order: seq<nat>, fmt: Formats, txns: seq<Incoming>, r: seq<Row>, a: nat)
    requires WalletBatch(ctx, rows, order, fmt, txns, r) && a < |r|
    ensures !r[a].deleted && Base(r[a].mem) != "" ==> r[a].mem.externalId == Some(Base(r[a].mem))
  {
    hide WalletBatch, Base, Created, Writes, Normalized;
    if a < |rows| {
      StoredRowAfter(ctx, rows, order, fmt, txns, r, a);
    } else {
      NewRowAfter(ctx, rows, order, fmt, txns, r, a);
    }
  }
}
