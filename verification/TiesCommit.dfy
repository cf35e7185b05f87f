/** Exactly when a wallet batch commits whose queries list rows of equal time in different orders. */
module TiesCommit {
  import opened Text
  import opened UnitOfWork
  import opened SyncStore
  import opened SyncProofs
  import opened WalletSync
  import opened SyncOutcomes
  import opened WalletCommit
  import opened SyncTies

  // ----- The same batch with all queries in the order of the deduplication -----

  function PlaceOf(order: seq<nat>, k: nat): (i: nat)
    requires k in order
    ensures i < |order| && order[i] == k
  {
    if order[0] == k then 0 else 1 + PlaceOf(order[1..], k)
  }

  function DedupedTable(rows: seq<Row>, order: seq<nat>, fmt: Formats): (r: seq<Row>)
    requires InTable(rows, order)
    ensures |r| == |rows|
    ensures forall k :: 0 <= k < |rows| ==>
              r[k] == if k in order then DedupedRow(rows, order, fmt, PlaceOf(order, k)) else rows[k]
  {
    seq(|rows|, k requires 0 <= k < |rows| =>
      if k in order then DedupedRow(rows, order, fmt, PlaceOf(order, k)) else rows[k])
  }

  lemma {:induction false} TableIsDeduped(rows: seq<Row>, order: seq<nat>, fmt: Formats)
    requires Ordering(rows, order)
    ensures InTable(rows, order) && Deduped(rows, order, fmt, DedupedTable(rows, order, fmt))
  {
    hide DedupedRow;
    forall i | 0 <= i < |order|
      ensures PlaceOf(order, order[i]) == i
    {
      var j := PlaceOf(order, order[i]);
      assert order[j] == order[i];
    }
  }

  lemma {:induction false} Alike(
      ctx: Context, rows: seq<Row>, orders: seq<seq<nat>>, last: seq<nat>, fmt: Formats, txns: seq<Incoming>,
      r: seq<Row>)
    returns (r0: seq<Row>)
    requires TiedBatch(ctx, rows, orders, last, fmt, txns, r)
    ensures WalletBatch(ctx, rows, last, fmt, txns, r0)
  {
    var mid := TiedTable(ctx, rows, orders, last, fmt, txns, r);
    var mid0 := ProcessAll(ctx, rows, last, txns);
    OrderingStays(rows, mid0, last);
    TableIsDeduped(mid0, last, fmt);
    r0 := DedupedTable(mid0, last, fmt);
  }

  /** Whether a wallet transaction creates a row does not depend on the order of the query. */
  lemma {:induction false} CreatesAlike(
      ctx: Context, rows: seq<Row>, a: seq<Row>, b: seq<Row>, order: seq<nat>, last: seq<nat>, t: Incoming)
    requires ctx.kind == Web3 && Clean(rows) && HasBase(t) && Ordering(rows, order) && Ordering(rows, last)
    requires SameDb(rows, a) && SameDb(rows, b) && InTable(a, order) && InTable(b, last)
    requires a[|rows|..] == b[|rows|..]
    ensures |Process(ctx, a, order, t)| >= |rows| && |Process(ctx, b, last, t)| >= |rows|
    ensures Process(ctx, a, order, t)[|rows|..] == Process(ctx, b, last, t)[|rows|..]
  {
    hide *;
    StillInTable(rows, a, order);
    StillInTable(rows, b, last);
    ExistingStable(ctx, rows, a, order, t);
    ExistingStable(ctx, rows, b, last, t);
    NewIffUnmatched(ctx, rows, order, t);
    NewIffUnmatched(ctx, rows, last, t);
    TailOf(ctx, rows, a, order, t);
    TailOf(ctx, rows, b, last, t);
  }

  lemma {:induction false} TailOf(ctx: Context, rows: seq<Row>, a: seq<Row>, order: seq<nat>, t: Incoming)
    requires SameDb(rows, a) && InTable(a, order)
    ensures |rows| <= |a| && |rows| <= |Process(ctx, a, order, t)|
    ensures Process(ctx, a, order, t)[|rows|..]
            == if Existing(ctx, a, order, t).None? then a[|rows|..] + [Row(None, NewFields(ctx, t), false)]
               else a[|rows|..]
  {
    hide Written, NewFields, Candidates, FirstWithId, BeforeColon;
  }

  lemma {:induction false} SameNewRows(
      ctx: Context, rows: seq<Row>, orders: seq<seq<nat>>, last: seq<nat>, txns: seq<Incoming>)
    requires ctx.kind == Web3 && Clean(rows) && HasBases(ctx, txns) && Ordering(rows, last) && InTable(rows, last)
    requires |orders| == |txns| && AllInTable(rows, orders) && AllOrderings(rows, orders)
    ensures |rows| <= |ProcessEach(ctx, rows, orders, txns)| && |rows| <= |ProcessAll(ctx, rows, last, txns)|
    ensures ProcessEach(ctx, rows, orders, txns)[|rows|..] == ProcessAll(ctx, rows, last, txns)[|rows|..]
  {
    hide Process, Ordering, InBatch, HasBase, Clean;
    if txns == [] {
    } else {
      var n := |txns| - 1;
      BasesPrefix(ctx, txns);
      SameNewRows(ctx, rows, orders[..n], last, txns[..n]);
      if InBatch(ctx, txns[n]) {
        var a := ProcessEach(ctx, rows, orders[..n], txns[..n]);
        var b := ProcessAll(ctx, rows, last, txns[..n]);
        CreatesAlike(ctx, rows, a, b, orders[n], last, txns[n]);
      }
    }
  }

  // ----- The two batches compared -----

  /** The rows of r are those of r0 but for the lost ones. */
  ghost predicate Thinned(
      ctx: Context, rows: seq<Row>, orders: seq<seq<nat>>, txns: seq<Incoming>, r0: seq<Row>, r: seq<Row>)
    requires |orders| == |txns| && AllInTable(rows, orders)
  {
    && |rows| <= |r| == |r0|
    && (forall k :: 0 <= k < |rows| ==> ThinnedAt(ctx, rows, orders, txns, r0[k], r[k], k))
    && (forall k :: |rows| <= k < |r| ==> r[k] == r0[k])
  }

  predicate ThinnedAt(
      ctx: Context, rows: seq<Row>, orders: seq<seq<nat>>, txns: seq<Incoming>, before: Row, now: Row, k: nat)
    requires |orders| == |txns| && AllInTable(rows, orders) && k < |rows|
  {
    && now.db == before.db
    && (now.deleted <==> before.deleted || Lost(ctx, rows, orders, txns, k))
    && (!now.deleted ==> now.mem.externalId == before.mem.externalId)
  }

  lemma {:induction false} TiedIdAfter(
      ctx: Context, rows: seq<Row>, orders: seq<seq<nat>>, last: seq<nat>, fmt: Formats, txns: seq<Incoming>,
      r: seq<Row>, k: nat)
    requires TiedBatch(ctx, rows, orders, last, fmt, txns, r) && k < |rows|
    ensures k < |r| && r[k].db == rows[k].db
    ensures !r[k].deleted ==> r[k].mem.externalId == Normalized(rows[k].mem, fmt).externalId
  {
    var mid := TiedTable(ctx, rows, orders, last, fmt, txns, r);
    var p := CleanOrder(rows, last, k);
    assert r[k] == DedupedRow(mid, last, fmt, p);
    assert mid[k].db == rows[k].db;
    hide *;
    DedupedRowIs(mid, last, fmt, p);
    RowHalfway(ctx, rows, orders, txns, k);
    NormalizedKeepsKey(mid[k].mem, fmt);
    NormalizedKeepsKey(rows[k].mem, fmt);
  }

  lemma {:induction false} IsThinned(
      ctx: Context, rows: seq<Row>, orders: seq<seq<nat>>, last: seq<nat>, fmt: Formats, txns: seq<Incoming>,
      r: seq<Row>, r0: seq<Row>)
    requires TiedBatch(ctx, rows, orders, last, fmt, txns, r) && WalletBatch(ctx, rows, last, fmt, txns, r0)
    ensures |orders| == |txns| && AllInTable(rows, orders) && Thinned(ctx, rows, orders, txns, r0, r)
  {
    var mid := TiedTable(ctx, rows, orders, last, fmt, txns, r);
    var mid0 := Halfway(ctx, rows, last, fmt, txns, r0);
    SameNewRows(ctx, rows, orders, last, txns);
    BatchCollapses(ctx, rows, last, fmt, txns, r0);
    hide Process, Lost, WalletBatch, TiedBatch, BatchForm, ProcessEach, ProcessAll, AllOrderings, Clean, HasBases,
        DedupedRow, Collapsed;
    forall k | |rows| <= k < |r|
      ensures r[k] == r0[k]
    {
      assert mid[k] == mid[|rows|..][k - |rows|] == mid0[|rows|..][k - |rows|] == mid0[k];
      assert k !in last;
    }
    forall k | 0 <= k < |rows|
      ensures ThinnedAt(ctx, rows, orders, txns, r0[k], r[k], k)
    {
      StoredIsThinned(ctx, rows, orders, last, fmt, txns, r, r0, k);
    }
  }

  lemma {:induction false} StoredIsThinned(
      ctx: Context, rows: seq<Row>, orders: seq<seq<nat>>, last: seq<nat>, fmt: Formats, txns: seq<Incoming>,
      r: seq<Row>, r0: seq<Row>, k: nat)
    requires TiedBatch(ctx, rows, orders, last, fmt, txns, r) && k < |rows| && InTable(rows, last)
    requires Collapsed(rows, last, fmt, r0)
    ensures |orders| == |txns| && AllInTable(rows, orders) && k < |r| && k < |r0|
    ensures ThinnedAt(ctx, rows, orders, txns, r0[k], r[k], k)
  {
    var mid := TiedTable(ctx, rows, orders, last, fmt, txns, r);
    var p := CleanOrder(rows, last, k);
    assert CollapsedAt(rows, last, fmt, r0, p);
    hide TiedBatch, Lost, SeenBefore, Normalized, Key, Collapsed, ProcessEach, Ordering, Clean, HasBases, Deduped;
    TiedIdAfter(ctx, rows, orders, last, fmt, txns, r, k);
    KeyAfter(ctx, rows, orders, last, fmt, txns, r, p);
    if !SeenBefore(rows, last, fmt, p) {
      FirstIsLostIff(ctx, rows, orders, last, fmt, txns, r, p);
    }
  }

  // ----- When the batch commits -----

  /** A row stored under its bare id may stand behind a newer row of its key only if that one is lost. */
  ghost predicate ExactBehindLost(
      ctx: Context, rows: seq<Row>, orders: seq<seq<nat>>, last: seq<nat>, fmt: Formats, txns: seq<Incoming>)
    requires |orders| == |txns| && AllInTable(rows, orders) && InTable(rows, last)
  {
    forall i, j :: 0 <= j < i < |last| && ExactBehind(rows, last, fmt, i, j) ==>
      Lost(ctx, rows, orders, txns, last[j])
  }

  ghost predicate TiedCommittable(
      ctx: Context, rows: seq<Row>, orders: seq<seq<nat>>, last: seq<nat>, fmt: Formats, txns: seq<Incoming>)
    requires |orders| == |txns| && AllInTable(rows, orders) && InTable(rows, last) && HasBases(ctx, txns)
  {
    && NewHashesDiffer(ctx, rows, txns)
    && ExactBehindLost(ctx, rows, orders, last, fmt, txns)
    && NewIdsFree(ctx, rows, last, fmt, txns)
  }

  /** The batch, its counterpart with one order, and how the two compare. */
  ghost predicate Compared(
      ctx: Context, rows: seq<Row>, orders: seq<seq<nat>>, last: seq<nat>, fmt: Formats, txns: seq<Incoming>,
      r0: seq<Row>, r: seq<Row>)
  {
    && WalletBatch(ctx, rows, last, fmt, txns, r0) && UniqueIds(rows)
    && Clean(rows) && Ordering(rows, last) && InTable(rows, last) && HasBases(ctx, txns)
    && |orders| == |txns| && AllInTable(rows, orders)
    && Collapsed(rows, last, fmt, r0) && Thinned(ctx, rows, orders, txns, r0, r)
  }

  lemma {:induction false} Compare(
      ctx: Context, rows: seq<Row>, orders: seq<seq<nat>>, last: seq<nat>, fmt: Formats, txns: seq<Incoming>,
      r: seq<Row>)
    returns (r0: seq<Row>)
    requires TiedBatch(ctx, rows, orders, last, fmt, txns, r) && UniqueIds(rows)
    ensures Compared(ctx, rows, orders, last, fmt, txns, r0, r)
  {
    r0 := Alike(ctx, rows, orders, last, fmt, txns, r);
    WalletInTable(ctx, rows, last, fmt, txns, r0);
    hide TiedBatch, WalletBatch, Thinned, Collapsed, Clean, HasBases, Ordering, UniqueIds;
    BatchCollapses(ctx, rows, last, fmt, txns, r0);
    IsThinned(ctx, rows, orders, last, fmt, txns, r, r0);
  }

  lemma {:induction false} StoredPair(
      ctx: Context, rows: seq<Row>, orders: seq<seq<nat>>, last: seq<nat>, fmt: Formats, txns: seq<Incoming>,
      r0: seq<Row>, r: seq<Row>, i: nat, j: nat)
    requires Compared(ctx, rows, orders, last, fmt, txns, r0, r) && i < |last| && j < |last| && i != j
    requires Clash(r[last[i]], r[last[j]])
    ensures ExactBehind(rows, last, fmt, j, i) && !Lost(ctx, rows, orders, txns, last[i])
  {
    var a, b := last[i], last[j];
    assert ThinnedAt(ctx, rows, orders, txns, r0[a], r[a], a) && ThinnedAt(ctx, rows, orders, txns, r0[b], r[b], b);
    assert CollapsedAt(rows, last, fmt, r0, i) && CollapsedAt(rows, last, fmt, r0, j);
    CleanRow(rows, b);
    hide Compared, Thinned, Collapsed, Clean, Ordering, UniqueIds, HasBases, Lost, ExactBehind, SeenBefore, Normalized,
        WalletBatch;
    assert r0[b].db.value.externalId == rows[b].mem.externalId;
    ComparedParts(ctx, rows, orders, last, fmt, txns, r0, r);
    if !r0[b].deleted {
      SurvivorsKeepApart(rows, last, fmt, r0, i, j);
    }
    StoredPairClash(rows, last, fmt, r0, i, j);
  }

  lemma {:induction false} ComparedParts(
      ctx: Context, rows: seq<Row>, orders: seq<seq<nat>>, last: seq<nat>, fmt: Formats, txns: seq<Incoming>,
      r0: seq<Row>, r: seq<Row>)
    requires Compared(ctx, rows, orders, last, fmt, txns, r0, r)
    ensures WalletBatch(ctx, rows, last, fmt, txns, r0) && UniqueIds(rows)
    ensures Clean(rows) && Ordering(rows, last) && InTable(rows, last) && HasBases(ctx, txns)
    ensures |orders| == |txns| && AllInTable(rows, orders) && |rows| <= |r| == |r0|
    ensures Collapsed(rows, last, fmt, r0) && Thinned(ctx, rows, orders, txns, r0, r)
  {
  }

  /** A stored row and a new one do not meet in either batch. */
  lemma {:induction false} NewAndStored(
      ctx: Context, rows: seq<Row>, orders: seq<seq<nat>>, last: seq<nat>, fmt: Formats, txns: seq<Incoming>,
      r0: seq<Row>, r: seq<Row>, a: nat, p: nat)
    requires Compared(ctx, rows, orders, last, fmt, txns, r0, r) && NewIdsFree(ctx, rows, last, fmt, txns)
    requires |rows| <= a < |r| && p < |last|
    ensures !Clash(r[a], r[last[p]]) && !Clash(r[last[p]], r[a])
  {
    var b := last[p];
    var i := NewRowComesFrom(ctx, rows, last, fmt, txns, r0, a);
    assert r[a] == r0[a] && ThinnedAt(ctx, rows, orders, txns, r0[b], r[b], b);
    assert CollapsedAt(rows, last, fmt, r0, p);
    CleanRow(rows, b);
    hide Compared, Thinned, Collapsed, Clean, Ordering, UniqueIds, HasBases, Lost, SeenBefore, Normalized, WalletBatch,
        NewIdsFree, IsNew, InBatch;
    ComparedParts(ctx, rows, orders, last, fmt, txns, r0, r);
    NewMeetsStored(ctx, rows, last, fmt, txns, r0, a, p);
    NewIdElsewhere(rows, b, txns[i]);
  }

  lemma {:induction false} TiedCommits(
      ctx: Context, rows: seq<Row>, orders: seq<seq<nat>>, last: seq<nat>, fmt: Formats, txns: seq<Incoming>,
      r0: seq<Row>, r: seq<Row>)
    requires Compared(ctx, rows, orders, last, fmt, txns, r0, r)
    requires TiedCommittable(ctx, rows, orders, last, fmt, txns)
    ensures CommitOk(r)
  {
    hide *;
    ComparedParts(ctx, rows, orders, last, fmt, txns, r0, r);
    TiedParts(ctx, rows, orders, last, fmt, txns);
    forall a, b | 0 <= a < |r| && 0 <= b < |r| && a != b
      ensures !Clash(r[a], r[b])
    {
      if a < |rows| && b < |rows| {
        var i := CleanOrder(rows, last, a);
        var j := CleanOrder(rows, last, b);
        if Clash(r[a], r[b]) {
          StoredPair(ctx, rows, orders, last, fmt, txns, r0, r, i, j);
          BehindLost(ctx, rows, orders, last, fmt, txns, j, i);
        }
      } else if a < |rows| {
        var p := CleanOrder(rows, last, a);
        NewAndStored(ctx, rows, orders, last, fmt, txns, r0, r, b, p);
      } else if b < |rows| {
        var p := CleanOrder(rows, last, b);
        NewAndStored(ctx, rows, orders, last, fmt, txns, r0, r, a, p);
      } else {
        NewApart(ctx, rows, last, fmt, txns, r0, a, b);
        NewAlike(ctx, rows, orders, txns, r0, r, a);
        NewAlike(ctx, rows, orders, txns, r0, r, b);
      }
    }
    NoClashCommits(r);
  }

  lemma {:induction false} NewAlike(
      ctx: Context, rows: seq<Row>, orders: seq<seq<nat>>, txns: seq<Incoming>, r0: seq<Row>, r: seq<Row>, a: nat)
    requires |orders| == |txns| && AllInTable(rows, orders) && Thinned(ctx, rows, orders, txns, r0, r)
    requires |rows| <= a < |r|
    ensures a < |r0| && r[a] == r0[a]
  {
  }

  lemma {:induction false} BehindLost(
      ctx: Context, rows: seq<Row>, orders: seq<seq<nat>>, last: seq<nat>, fmt: Formats, txns: seq<Incoming>,
      i: nat, j: nat)
    requires |orders| == |txns| && AllInTable(rows, orders) && InTable(rows, last)
    requires ExactBehindLost(ctx, rows, orders, last, fmt, txns) && ExactBehind(rows, last, fmt, i, j)
    ensures Lost(ctx, rows, orders, txns, last[j])
  {
    hide Lost;
  }

  lemma {:induction false} TiedParts(
      ctx: Context, rows: seq<Row>, orders: seq<seq<nat>>, last: seq<nat>, fmt: Formats, txns: seq<Incoming>)
    requires |orders| == |txns| && AllInTable(rows, orders) && InTable(rows, last) && HasBases(ctx, txns)
    ensures TiedCommittable(ctx, rows, orders, last, fmt, txns)
            <==> NewHashesDiffer(ctx, rows, txns) && ExactBehindLost(ctx, rows, orders, last, fmt, txns)
                 && NewIdsFree(ctx, rows, last, fmt, txns)
  {
    hide NewHashesDiffer, ExactBehindLost, NewIdsFree;
  }

  lemma {:induction false} OkMeansBehindLost(
      ctx: Context, rows: seq<Row>, orders: seq<seq<nat>>, last: seq<nat>, fmt: Formats, txns: seq<Incoming>,
      r0: seq<Row>, r: seq<Row>)
    requires Compared(ctx, rows, orders, last, fmt, txns, r0, r) && CommitOk(r)
    ensures ExactBehindLost(ctx, rows, orders, last, fmt, txns)
  {
    hide CommitOk, ExactBehind, Lost, Clean, Ordering, UniqueIds, HasBases, WalletBatch, Collapsed, Clash;
    forall i, j | 0 <= j < i < |last| && ExactBehind(rows, last, fmt, i, j)
      ensures Lost(ctx, rows, orders, txns, last[j])
    {
      ExactBehindClashes(rows, last, fmt, r0, i, j);
      ClashUnlessLost(ctx, rows, orders, txns, r0, r, last[j], last[i]);
    }
  }

  lemma {:induction false} ClashUnlessLost(
      ctx: Context, rows: seq<Row>, orders: seq<seq<nat>>, txns: seq<Incoming>, r0: seq<Row>, r: seq<Row>,
      a: nat, b: nat)
    requires |orders| == |txns| && AllInTable(rows, orders) && Thinned(ctx, rows, orders, txns, r0, r)
    requires a < |rows| && b < |rows| && a != b && CommitOk(r) && Clash(r0[a], r0[b]) && r0[b].deleted
    ensures Lost(ctx, rows, orders, txns, a)
  {
    hide Lost;
    assert ThinnedAt(ctx, rows, orders, txns, r0[a], r[a], a) && ThinnedAt(ctx, rows, orders, txns, r0[b], r[b], b);
    assert !Clash(r[a], r[b]);
  }

  lemma {:induction false} OkMeansNewDiffer(
      ctx: Context, rows: seq<Row>, orders: seq<seq<nat>>, last: seq<nat>, fmt: Formats, txns: seq<Incoming>,
      r0: seq<Row>, r: seq<Row>)
    requires Compared(ctx, rows, orders, last, fmt, txns, r0, r) && CommitOk(r)
    ensures HasBases(ctx, txns) && NewHashesDiffer(ctx, rows, txns)
  {
    hide *;
    ComparedParts(ctx, rows, orders, last, fmt, txns, r0, r);
    if !NewHashesDiffer(ctx, rows, txns) {
      var i, j := SameNewHash(ctx, rows, txns);
      var m := NewHashRow(ctx, rows, last, fmt, txns, r0, i);
      var n := NewHashRow(ctx, rows, last, fmt, txns, r0, j);
      NewAlike(ctx, rows, orders, txns, r0, r, |rows| + m);
      NewAlike(ctx, rows, orders, txns, r0, r, |rows| + n);
      SameIdsClash(r, |rows| + m, |rows| + n);
    }
  }

  lemma {:induction false} SameNewHash(ctx: Context, rows: seq<Row>, txns: seq<Incoming>) returns (i: nat, j: nat)
    requires HasBases(ctx, txns) && !NewHashesDiffer(ctx, rows, txns)
    ensures i < j < |txns| && InBatch(ctx, txns[i]) && InBatch(ctx, txns[j])
    ensures HasBase(txns[i]) && HasBase(txns[j]) && BaseOf(txns[i]) == BaseOf(txns[j])
    ensures IsNew(rows, txns[i]) && IsNew(rows, txns[j])
  {
    i, j :| 0 <= i < j < |txns| && InBatch(ctx, txns[i]) && InBatch(ctx, txns[j]) && IsNew(rows, txns[i])
            && BaseOf(txns[i]) == BaseOf(txns[j]);
  }

  lemma {:induction false} SameIdsClash(r: seq<Row>, a: nat, b: nat)
    requires a < |r| && b < |r| && a != b && !r[a].deleted && !r[b].deleted
    requires r[a].mem.externalId.Some? && r[a].mem.externalId == r[b].mem.externalId
    ensures !CommitOk(r)
  {
    assert Clash(r[a], r[b]);
  }

  lemma {:induction false} OkMeansNewFree(
      ctx: Context, rows: seq<Row>, orders: seq<seq<nat>>, last: seq<nat>, fmt: Formats, txns: seq<Incoming>,
      r0: seq<Row>, r: seq<Row>)
    requires Compared(ctx, rows, orders, last, fmt, txns, r0, r) && CommitOk(r)
    ensures InTable(rows, last) && HasBases(ctx, txns) && NewIdsFree(ctx, rows, last, fmt, txns)
  {
    hide Compared, WalletBatch, Collapsed, CommitOk, ShortensTo, IsNew, InBatch;
    ComparedParts(ctx, rows, orders, last, fmt, txns, r0, r);
    forall i, j | 0 <= i < |txns| && InBatch(ctx, txns[i]) && IsNew(rows, txns[i]) && 0 <= j < |last|
      ensures !ShortensTo(rows, last, fmt, j, BaseOf(txns[i]))
    {
      if ShortensTo(rows, last, fmt, j, BaseOf(txns[i])) {
        ShortenedRefused(ctx, rows, orders, last, fmt, txns, r0, r, i, j);
      }
    }
  }

  /** A row that shortens to a new hash has no base id of its own, so it is not lost. */
  lemma {:induction false} ShortenedNotLost(
      ctx: Context, rows: seq<Row>, orders: seq<seq<nat>>, last: seq<nat>, fmt: Formats, txns: seq<Incoming>,
      t: Incoming, j: nat)
    requires |orders| == |txns| && AllInTable(rows, orders) && InTable(rows, last)
    requires HasBase(t) && IsNew(rows, t) && ShortensTo(rows, last, fmt, j, BaseOf(t))
    ensures !Lost(ctx, rows, orders, txns, last[j])
  {
    hide Key, Base, LastElsewhere, Reached, SeenBefore;
    if Base(rows[last[j]].mem) != "" {
      KeyOfBase(rows[last[j]].mem, fmt);
    }
  }

  lemma {:induction false} ShortenedRefused(
      ctx: Context, rows: seq<Row>, orders: seq<seq<nat>>, last: seq<nat>, fmt: Formats, txns: seq<Incoming>,
      r0: seq<Row>, r: seq<Row>, i: nat, j: nat)
    requires Compared(ctx, rows, orders, last, fmt, txns, r0, r) && InTable(rows, last)
    requires i < |txns| && InBatch(ctx, txns[i]) && HasBase(txns[i]) && IsNew(rows, txns[i])
    requires ShortensTo(rows, last, fmt, j, BaseOf(txns[i]))
    ensures !CommitOk(r)
  {
    hide *;
    ComparedParts(ctx, rows, orders, last, fmt, txns, r0, r);
    var m := NewHashRow(ctx, rows, last, fmt, txns, r0, i);
    NewAlike(ctx, rows, orders, txns, r0, r, |rows| + m);
    BaseHasNoColon(txns[i]);
    ShortensIn(rows, last, fmt, j, BaseOf(txns[i]));
    ShortenedNotLost(ctx, rows, orders, last, fmt, txns, txns[i], j);
    ShortenedStays(ctx, rows, orders, last, fmt, txns, r0, r, j, BaseOf(txns[i]));
    SameIdsClash(r, last[j], |rows| + m);
  }

  lemma {:induction false} BaseHasNoColon(t: Incoming)
    requires HasBase(t)
    ensures ':' !in BaseOf(t)
  {
    BaseIsTruthy(t);
  }

  lemma {:induction false} ShortensIn(rows: seq<Row>, last: seq<nat>, fmt: Formats, j: nat, key: string)
    requires InTable(rows, last) && ShortensTo(rows, last, fmt, j, key)
    ensures j < |last| && last[j] < |rows|
  {
    hide Key, SeenBefore;
  }

  lemma {:induction false} ShortenedStays(
      ctx: Context, rows: seq<Row>, orders: seq<seq<nat>>, last: seq<nat>, fmt: Formats, txns: seq<Incoming>,
      r0: seq<Row>, r: seq<Row>, j: nat, key: string)
    requires |orders| == |txns| && AllInTable(rows, orders) && InTable(rows, last)
    requires Collapsed(rows, last, fmt, r0) && Thinned(ctx, rows, orders, txns, r0, r)
    requires ShortensTo(rows, last, fmt, j, key) && ':' !in key && !Lost(ctx, rows, orders, txns, last[j])
    ensures last[j] < |r| && !r[last[j]].deleted && r[last[j]].mem.externalId == Some(key)
  {
    var k := last[j];
    assert CollapsedAt(rows, last, fmt, r0, j) && ThinnedAt(ctx, rows, orders, txns, r0[k], r[k], k);
    hide Collapsed, Thinned, Key, Normalized, SeenBefore, Lost;
    ShortenedId(rows[k].mem, fmt);
  }

  /** Exactly when a wallet batch commits, whatever rows were stored before and in whatever order each of
      its queries lists rows of equal time. */
  lemma {:induction false} TiedCommitsIff(
      ctx: Context, rows: seq<Row>, orders: seq<seq<nat>>, last: seq<nat>, fmt: Formats, txns: seq<Incoming>,
      r: seq<Row>)
    requires TiedBatch(ctx, rows, orders, last, fmt, txns, r) && UniqueIds(rows)
    ensures |orders| == |txns| && AllInTable(rows, orders) && InTable(rows, last) && HasBases(ctx, txns)
    ensures CommitOk(r) <==> TiedCommittable(ctx, rows, orders, last, fmt, txns)
  {
    hide *;
    var r0 := Compare(ctx, rows, orders, last, fmt, txns, r);
    ComparedParts(ctx, rows, orders, last, fmt, txns, r0, r);
    if CommitOk(r) {
      OkMeansNewDiffer(ctx, rows, orders, last, fmt, txns, r0, r);
      OkMeansBehindLost(ctx, rows, orders, last, fmt, txns, r0, r);
      OkMeansNewFree(ctx, rows, orders, last, fmt, txns, r0, r);
      TiedParts(ctx, rows, orders, last, fmt, txns);
    }
    if TiedCommittable(ctx, rows, orders, last, fmt, txns) {
      TiedCommits(ctx, rows, orders, last, fmt, txns, r0, r);
    }
  }

  /** The order of the writes plays no part either. */
  lemma {:induction false} TiedNeverHandsOver(
      ctx: Context, rows: seq<Row>, orders: seq<seq<nat>>, last: seq<nat>, fmt: Formats, txns: seq<Incoming>,
      r: seq<Row>, pk: seq<nat>)
    requires TiedBatch(ctx, rows, orders, last, fmt, txns, r) && UniqueIds(rows) && UpdateOrder(r, pk)
    ensures !HandsOver(r, pk)
  {
    var r0 := Compare(ctx, rows, orders, last, fmt, txns, r);
    ComparedParts(ctx, rows, orders, last, fmt, txns, r0, r);
    hide TiedBatch, Compared, Collapsed, Thinned, Ordering, UniqueIds, WalletBatch, HasBases, Clean;
    forall i, j | 0 <= i < j < |pk| && r[pk[i]].mem.externalId.Some?
      ensures r[pk[j]].db.value.externalId != r[pk[i]].mem.externalId
    {
      assert !r[pk[i]].deleted && !r[pk[j]].deleted && pk[i] != pk[j];
      LiveAlike(ctx, rows, orders, txns, r0, r, pk[i]);
      LiveAlike(ctx, rows, orders, txns, r0, r, pk[j]);
      StoredNotTaken(ctx, rows, last, fmt, txns, r0, pk[i], pk[j]);
    }
  }

  lemma {:induction false} LiveAlike(
      ctx: Context, rows: seq<Row>, orders: seq<seq<nat>>, txns: seq<Incoming>, r0: seq<Row>, r: seq<Row>, k: nat)
    requires |orders| == |txns| && AllInTable(rows, orders) && Thinned(ctx, rows, orders, txns, r0, r)
    requires k < |r| && !r[k].deleted
    ensures k < |r0| && !r0[k].deleted && r0[k].db == r[k].db && r0[k].mem.externalId == r[k].mem.externalId
  {
    hide Lost;
    assert k < |rows| ==> ThinnedAt(ctx, rows, orders, txns, r0[k], r[k], k);
  }
}
