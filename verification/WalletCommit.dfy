/** Exactly when a wallet batch commits. */
module WalletCommit {
  import opened Text
  import opened UnitOfWork
  import opened SyncStore
  import opened SyncProofs
  import opened WalletSync
  import opened SyncOutcomes

  // ----- What becomes of the stored rows -----

  /** The first row of each key stays, stored under its shortened id; the others are deleted. */
  ghost predicate Collapsed(rows: seq<Row>, order: seq<nat>, fmt: Formats, r: seq<Row>)
    requires InTable(rows, order)
  {
    && |rows| <= |r|
    && forall p :: 0 <= p < |order| ==> CollapsedAt(rows, order, fmt, r, p)
  }

  predicate CollapsedAt(rows: seq<Row>, order: seq<nat>, fmt: Formats, r: seq<Row>, p: nat)
    requires InTable(rows, order) && |rows| <= |r| && p < |order|
  {
    var k := order[p];
    && r[k].db == rows[k].db
    && (r[k].deleted <==> SeenBefore(rows, order, fmt, p))
    && (!r[k].deleted ==> r[k].mem.externalId == Normalized(rows[k].mem, fmt).externalId)
  }

  lemma {:induction false} DedupeCollapses(rows: seq<Row>, order: seq<nat>, fmt: Formats, r: seq<Row>)
    requires Clean(rows) && Ordering(rows, order) && Deduped(rows, order, fmt, r)
    ensures InTable(rows, order) && Collapsed(rows, order, fmt, r)
  {
    OrderingInTable(rows, order);
    hide DedupedRow, SeenBefore, Normalized, Ordering;
    forall p | 0 <= p < |order|
      ensures CollapsedAt(rows, order, fmt, r, p)
    {
      DedupedRowIs(rows, order, fmt, p);
    }
  }

  lemma {:induction false} SeenAlike(
      ctx: Context, rows: seq<Row>, order: seq<nat>, fmt: Formats, txns: seq<Incoming>, r: seq<Row>, p: nat)
    requires WalletBatch(ctx, rows, order, fmt, txns, r) && p < |order|
    ensures InTable(rows, order) && InTable(ProcessAll(ctx, rows, order, txns), order)
    ensures SeenBefore(ProcessAll(ctx, rows, order, txns), order, fmt, p) <==> SeenBefore(rows, order, fmt, p)
  {
    WalletInTable(ctx, rows, order, fmt, txns, r);
    hide Key, WalletBatch, ProcessAll, Ordering, Clean, HasBases;
    forall q | 0 <= q < |order|
      ensures order[q] < |rows|
      ensures Key(ProcessAll(ctx, rows, order, txns)[order[q]].mem, fmt) == Key(rows[order[q]].mem, fmt)
    {
      StoredKeyHalfway(ctx, rows, order, fmt, txns, r, order[q]);
    }
  }

  /** A row's id after the batch is its shortened id, whether the batch wrote to the row or not. */
  lemma {:induction false} IdAfter(
      ctx: Context, rows: seq<Row>, order: seq<nat>, fmt: Formats, txns: seq<Incoming>, r: seq<Row>, k: nat)
    requires WalletBatch(ctx, rows, order, fmt, txns, r) && k < |rows| <= |r| && !r[k].deleted
    ensures r[k].mem.externalId == Normalized(rows[k].mem, fmt).externalId
  {
    WalletInTable(ctx, rows, order, fmt, txns, r);
    CleanRow(rows, k);
    hide *;
    var f := rows[k].mem;
    StoredRowAfter(ctx, rows, order, fmt, txns, r, k);
    NormalizedKeepsKey(f, fmt);
    if Base(f) == "" {
      WritesKeepBase(ctx, rows, order, txns, k, f);
    }
  }

  lemma {:induction false} CleanRow(rows: seq<Row>, k: nat)
    requires Clean(rows) && k < |rows|
    ensures rows[k].db == Some(rows[k].mem) && !rows[k].deleted
  {
  }

  lemma {:induction false} BatchCollapses(
      ctx: Context, rows: seq<Row>, order: seq<nat>, fmt: Formats, txns: seq<Incoming>, r: seq<Row>)
    requires WalletBatch(ctx, rows, order, fmt, txns, r)
    ensures InTable(rows, order) && Collapsed(rows, order, fmt, r)
  {
    WalletInTable(ctx, rows, order, fmt, txns, r);
    RowsOfBatch(ctx, rows, order, fmt, txns, r);
    var mid := Halfway(ctx, rows, order, fmt, txns, r);
    FirstsAreLive(ctx, rows, order, fmt, txns, r);
    forall p | 0 <= p < |order|
      ensures CollapsedAt(rows, order, fmt, r, p)
    {
      hide SeenBefore, Normalized, ProcessAll, BatchForm, Key, WalletBatch, Ordering, Clean, HasBases, DedupedRow;
      SeenAlike(ctx, rows, order, fmt, txns, r, p);
      DedupedRowIs(mid, order, fmt, p);
      var k := order[p];
      assert r[k] == DedupedRow(mid, order, fmt, p);
      if !r[k].deleted {
        IdAfter(ctx, rows, order, fmt, txns, r, k);
      }
    }
  }

  // ----- Stored rows against each other -----

  /** The first row of its key, with an external id to shorten to the key. */
  predicate ShortensTo(rows: seq<Row>, order: seq<nat>, fmt: Formats, j: nat, key: string)
    requires InTable(rows, order)
  {
    && j < |order| && !SeenBefore(rows, order, fmt, j)
    && Key(rows[order[j]].mem, fmt) == key && Truthy(rows[order[j]].mem.externalId)
  }

  /** The row already stored under the bare key is not the newest of its key, and the newest one has
      an external id of its own to shorten. */
  predicate ExactBehind(rows: seq<Row>, order: seq<nat>, fmt: Formats, i: nat, j: nat)
    requires InTable(rows, order)
  {
    && j < i < |order|
    && rows[order[i]].mem.externalId == Some(Key(rows[order[i]].mem, fmt))
    && ShortensTo(rows, order, fmt, j, Key(rows[order[i]].mem, fmt))
  }

  ghost predicate NoExactBehind(rows: seq<Row>, order: seq<nat>, fmt: Formats)
    requires InTable(rows, order)
  {
    forall i, j :: 0 <= j < i < |order| ==> !ExactBehind(rows, order, fmt, i, j)
  }

  /** A row stored under its own key has a base-id key. */
  lemma {:induction false} OwnKeyIsBase(f: Fields, fmt: Formats)
    requires f.externalId == Some(Key(f, fmt))
    ensures Base(f) == Key(f, fmt) && ':' !in Key(f, fmt)
  {
    hide ExtractTxId, DirectionOf;
    KeyShape(f, fmt);
    if IsFallback(Key(f, fmt)) {
      FallbackBase(Key(f, fmt));
    } else {
      NoColonKept(Key(f, fmt));
    }
  }

  lemma {:induction false} FallbackBase(key: string)
    requires IsFallback(key)
    ensures BeforeColon(key) != ""
  {
    assert key[..9][0] == "fallback:"[0] == key[0];
  }

  /** What shortening can do to an id: nothing, or make it the key. */
  lemma {:induction false} NormalizedId(f: Fields, fmt: Formats)
    ensures var g := Normalized(f, fmt);
            || g.externalId == f.externalId
            || (g.externalId == Some(Key(f, fmt)) && Truthy(f.externalId) && ':' !in Key(f, fmt) && Key(f, fmt) != "")
  {
    hide Key;
    KeyShape(f, fmt);
  }

  lemma {:induction false} ShortenedId(f: Fields, fmt: Formats)
    requires Truthy(f.externalId) && ':' !in Key(f, fmt)
    ensures Normalized(f, fmt).externalId == Some(Key(f, fmt))
  {
    hide Key;
    KeyShape(f, fmt);
  }

  lemma {:induction false} KeyWhenOwnId(f: Fields, fmt: Formats, key: string)
    requires f.externalId == Some(key) && key != "" && ':' !in key
    ensures Key(f, fmt) == key
  {
    NoColonKept(key);
    KeyOfBase(f, fmt);
  }

  lemma {:induction false} FirstThenSeen(rows: seq<Row>, order: seq<nat>, fmt: Formats, i: nat, j: nat)
    requires InTable(rows, order) && i < |order| && j < |order| && i != j
    requires !SeenBefore(rows, order, fmt, i) && Key(rows[order[i]].mem, fmt) == Key(rows[order[j]].mem, fmt)
    ensures i < j && SeenBefore(rows, order, fmt, j)
  {
    hide Key;
  }

  lemma {:induction false} FirstsDiffer(rows: seq<Row>, order: seq<nat>, fmt: Formats, i: nat, j: nat)
    requires InTable(rows, order) && i < |order| && j < |order| && i != j
    requires !SeenBefore(rows, order, fmt, i) && !SeenBefore(rows, order, fmt, j)
    ensures Key(rows[order[i]].mem, fmt) != Key(rows[order[j]].mem, fmt)
  {
    hide Key;
  }

  lemma {:induction false} ExactBehindClashes(
      rows: seq<Row>, order: seq<nat>, fmt: Formats, r: seq<Row>, i: nat, j: nat)
    requires Clean(rows) && Ordering(rows, order) && InTable(rows, order) && Collapsed(rows, order, fmt, r)
    requires ExactBehind(rows, order, fmt, i, j)
    ensures order[i] != order[j] && r[order[i]].deleted && Clash(r[order[j]], r[order[i]])
  {
    var f, g := rows[order[i]].mem, rows[order[j]].mem;
    hide Key, Base, SeenBefore, Normalized;
    assert CollapsedAt(rows, order, fmt, r, i) && CollapsedAt(rows, order, fmt, r, j);
    FirstThenSeen(rows, order, fmt, j, i);
    OwnKeyIsBase(f, fmt);
    ShortenedId(g, fmt);
    CleanRow(rows, order[i]);
  }

  /** No survivor takes the id under which another survivor is stored. */
  lemma {:induction false} SurvivorsKeepApart(
      rows: seq<Row>, order: seq<nat>, fmt: Formats, r: seq<Row>, i: nat, j: nat)
    requires Clean(rows) && UniqueIds(rows) && Ordering(rows, order) && InTable(rows, order)
    requires Collapsed(rows, order, fmt, r) && i < |order| && j < |order| && i != j
    requires !r[order[i]].deleted && !r[order[j]].deleted && r[order[i]].mem.externalId.Some?
    ensures r[order[i]].mem.externalId != rows[order[j]].mem.externalId
    ensures r[order[i]].mem.externalId != r[order[j]].mem.externalId
  {
    var f, g := rows[order[i]].mem, rows[order[j]].mem;
    assert CollapsedAt(rows, order, fmt, r, i) && CollapsedAt(rows, order, fmt, r, j);
    assert order[i] != order[j];
    hide Key, Normalized, SeenBefore, Ordering, Clean, Collapsed;
    FirstsDiffer(rows, order, fmt, i, j);
    IdsKeepApart(f, g, fmt);
  }

  /** Different keys and different ids stay different when the ids are shortened. */
  lemma {:induction false} IdsKeepApart(f: Fields, g: Fields, fmt: Formats)
    requires Key(f, fmt) != Key(g, fmt) && f.externalId != g.externalId
    ensures Normalized(f, fmt).externalId != g.externalId
    ensures Normalized(f, fmt).externalId != Normalized(g, fmt).externalId
  {
    hide Key, Normalized;
    NormalizedId(f, fmt);
    NormalizedId(g, fmt);
    if g.externalId == Some(Key(f, fmt)) && ':' !in Key(f, fmt) && Key(f, fmt) != "" {
      KeyWhenOwnId(g, fmt, Key(f, fmt));
    }
    if f.externalId == Some(Key(g, fmt)) && ':' !in Key(g, fmt) && Key(g, fmt) != "" {
      KeyWhenOwnId(f, fmt, Key(g, fmt));
    }
  }

  lemma {:induction false} StoredPairClash(
      rows: seq<Row>, order: seq<nat>, fmt: Formats, r: seq<Row>, i: nat, j: nat)
    requires Clean(rows) && UniqueIds(rows) && Ordering(rows, order) && InTable(rows, order)
    requires Collapsed(rows, order, fmt, r) && i < |order| && j < |order| && i != j
    requires Clash(r[order[i]], r[order[j]])
    ensures ExactBehind(rows, order, fmt, j, i)
  {
    var f, g := rows[order[i]].mem, rows[order[j]].mem;
    assert CollapsedAt(rows, order, fmt, r, i) && CollapsedAt(rows, order, fmt, r, j);
    CleanRow(rows, order[j]);
    assert order[i] != order[j];
    hide Key, Normalized, SeenBefore, Ordering, Clean, Collapsed;
    if r[order[j]].deleted {
      assert f.externalId != g.externalId;
      NormalizedId(f, fmt);
      KeyWhenOwnId(g, fmt, Key(f, fmt));
      FirstThenSeen(rows, order, fmt, i, j);
    } else {
      SurvivorsKeepApart(rows, order, fmt, r, i, j);
    }
  }

  ghost predicate StoredApart(rows: seq<Row>, r: seq<Row>) {
    && |rows| <= |r|
    && forall a, b :: 0 <= a < |rows| && 0 <= b < |rows| && a != b ==> !Clash(r[a], r[b])
  }

  lemma {:induction false} StoredApartIff(rows: seq<Row>, order: seq<nat>, fmt: Formats, r: seq<Row>)
    requires Clean(rows) && UniqueIds(rows) && Ordering(rows, order) && InTable(rows, order)
    requires Collapsed(rows, order, fmt, r)
    ensures StoredApart(rows, r) <==> NoExactBehind(rows, order, fmt)
  {
    hide ExactBehind, Clean, UniqueIds, Ordering, Clash, CollapsedAt;
    if NoExactBehind(rows, order, fmt) {
      forall a, b | 0 <= a < |rows| && 0 <= b < |rows| && a != b
        ensures !Clash(r[a], r[b])
      {
        var i := CleanOrder(rows, order, a);
        var j := CleanOrder(rows, order, b);
        if Clash(r[a], r[b]) {
          StoredPairClash(rows, order, fmt, r, i, j);
          ExactIsBehind(rows, order, fmt, j, i);
        }
      }
    } else {
      var i, j :| 0 <= j < i < |order| && ExactBehind(rows, order, fmt, i, j);
      ExactBehindClashes(rows, order, fmt, r, i, j);
    }
  }

  lemma {:induction false} ExactIsBehind(rows: seq<Row>, order: seq<nat>, fmt: Formats, i: nat, j: nat)
    requires InTable(rows, order) && ExactBehind(rows, order, fmt, i, j)
    ensures !NoExactBehind(rows, order, fmt)
  {
  }

  /** Collapsing the rows of an account commits exactly when no row already stored under the bare id
      has to give way to a newer row that takes that id: the update comes before the delete. */
  lemma {:induction false} CollapseCommitsIff(rows: seq<Row>, order: seq<nat>, fmt: Formats, r: seq<Row>)
    requires Clean(rows) && UniqueIds(rows) && Ordering(rows, order) && Deduped(rows, order, fmt, r)
    ensures InTable(rows, order)
    ensures CommitOk(r) <==> NoExactBehind(rows, order, fmt)
  {
    DedupeCollapses(rows, order, fmt, r);
    hide Clash, Ordering, Clean, UniqueIds, Collapsed, NoExactBehind;
    StoredApartIff(rows, order, fmt, r);
  }

  // ----- New rows -----

  /** No stored row is shortened to an id that a new row brings. */
  ghost predicate NewIdsFree(ctx: Context, rows: seq<Row>, order: seq<nat>, fmt: Formats, txns: seq<Incoming>)
    requires InTable(rows, order) && HasBases(ctx, txns)
  {
    forall i, j :: 0 <= i < |txns| && InBatch(ctx, txns[i]) && IsNew(rows, txns[i]) && 0 <= j < |order|
      ==> !ShortensTo(rows, order, fmt, j, BaseOf(txns[i]))
  }

  /** The transaction behind a new row. */
  lemma {:induction false} NewRowComesFrom(
      ctx: Context, rows: seq<Row>, order: seq<nat>, fmt: Formats, txns: seq<Incoming>, r: seq<Row>, a: nat)
    returns (i: nat)
    requires WalletBatch(ctx, rows, order, fmt, txns, r) && |rows| <= a < |r|
    ensures i < |txns| && InBatch(ctx, txns[i]) && HasBase(txns[i]) && IsNew(rows, txns[i])
    ensures !r[a].deleted && r[a].mem.externalId == Some(BaseOf(txns[i]))
  {
    hide *;
    WalletInTable(ctx, rows, order, fmt, txns, r);
    RowsOfBatch(ctx, rows, order, fmt, txns, r);
    CreatedFrom(ctx, rows, order, txns);
    FreshAreUnmatched(ctx, rows, order, txns);
    var m := a - |rows|;
    i := Fresh(ctx, rows, order, txns)[m];
    NewRowAt(ctx, rows, order, fmt, txns, r, m);
    UnmatchedBrings(ctx, rows, order, txns, i);
  }

  /** A stored row and a new one meet only when the stored id is shortened to the new one. */
  lemma {:induction false} NewMeetsStored(
      ctx: Context, rows: seq<Row>, order: seq<nat>, fmt: Formats, txns: seq<Incoming>, r: seq<Row>, a: nat, p: nat)
    requires WalletBatch(ctx, rows, order, fmt, txns, r) && InTable(rows, order) && Collapsed(rows, order, fmt, r)
    requires |rows| <= a < |r| && p < |order| && NewIdsFree(ctx, rows, order, fmt, txns)
    ensures !Clash(r[a], r[order[p]]) && !Clash(r[order[p]], r[a])
  {
    WalletInTable(ctx, rows, order, fmt, txns, r);
    var i := NewRowComesFrom(ctx, rows, order, fmt, txns, r, a);
    var f := rows[order[p]].mem;
    CleanRow(rows, order[p]);
    assert CollapsedAt(rows, order, fmt, r, p);
    assert !ShortensTo(rows, order, fmt, p, BaseOf(txns[i]));
    hide WalletBatch, Collapsed, Key, Normalized, SeenBefore, Ordering, Clean, HasBases, InBatch, NewIdsFree;
    NewIdElsewhere(rows, order[p], txns[i]);
    NormalizedId(f, fmt);
  }

  lemma {:induction false} NewIdElsewhere(rows: seq<Row>, k: nat, t: Incoming)
    requires k < |rows| && HasBase(t) && IsNew(rows, t)
    ensures rows[k].mem.externalId != Some(BaseOf(t))
  {
    if rows[k].mem.externalId == Some(BaseOf(t)) {
      NoColonKept(BaseOf(t));
    }
  }

  /** The row that shortens to a new id meets the new row. */
  lemma {:induction false} ShortenedMeetsNew(
      ctx: Context, rows: seq<Row>, order: seq<nat>, fmt: Formats, txns: seq<Incoming>, r: seq<Row>, i: nat, j: nat)
    requires WalletBatch(ctx, rows, order, fmt, txns, r) && InTable(rows, order) && Collapsed(rows, order, fmt, r)
    requires i < |txns| && InBatch(ctx, txns[i]) && HasBase(txns[i]) && IsNew(rows, txns[i])
    requires ShortensTo(rows, order, fmt, j, BaseOf(txns[i]))
    ensures !CommitOk(r)
  {
    var m := NewHashRow(ctx, rows, order, fmt, txns, r, i);
    assert CollapsedAt(rows, order, fmt, r, j);
    hide WalletBatch, Collapsed, Key, Normalized, SeenBefore, Fresh, IsNew, InBatch;
    ShortenedId(rows[order[j]].mem, fmt);
    assert Clash(r[order[j]], r[|rows| + m]);
  }

  // ----- The whole batch -----

  /** When the transactions of a wallet batch can be committed: no two bring the same new hash, no row
      stored under a bare id stands behind a newer row of its key, and no other row is shortened to a
      new hash. */
  ghost predicate Committable(ctx: Context, rows: seq<Row>, order: seq<nat>, fmt: Formats, txns: seq<Incoming>)
    requires InTable(rows, order) && HasBases(ctx, txns)
  {
    && NewHashesDiffer(ctx, rows, txns)
    && NoExactBehind(rows, order, fmt)
    && NewIdsFree(ctx, rows, order, fmt, txns)
  }

  lemma {:induction false} CommittableCommits(
      ctx: Context, rows: seq<Row>, order: seq<nat>, fmt: Formats, txns: seq<Incoming>, r: seq<Row>)
    requires WalletBatch(ctx, rows, order, fmt, txns, r) && InTable(rows, order) && HasBases(ctx, txns)
    requires UniqueIds(rows) && Committable(ctx, rows, order, fmt, txns)
    ensures CommitOk(r)
  {
    hide *;
    WalletInTable(ctx, rows, order, fmt, txns, r);
    BatchCollapses(ctx, rows, order, fmt, txns, r);
    StoredApartIff(rows, order, fmt, r);
    CommittableParts(ctx, rows, order, fmt, txns);
    forall a, b | 0 <= a < |r| && 0 <= b < |r| && a != b
      ensures !Clash(r[a], r[b])
    {
      if a < |rows| && b < |rows| {
        ApartAt(rows, r, a, b);
      } else if a < |rows| {
        var p := CleanOrder(rows, order, a);
        NewMeetsStored(ctx, rows, order, fmt, txns, r, b, p);
      } else if b < |rows| {
        var p := CleanOrder(rows, order, b);
        NewMeetsStored(ctx, rows, order, fmt, txns, r, a, p);
      } else {
        NewApart(ctx, rows, order, fmt, txns, r, a, b);
      }
    }
    NoClashCommits(r);
  }

  lemma {:induction false} NoClashCommits(r: seq<Row>)
    requires forall a, b :: 0 <= a < |r| && 0 <= b < |r| && a != b ==> !Clash(r[a], r[b])
    ensures CommitOk(r)
  {
    hide Clash;
  }

  lemma {:induction false} ApartAt(rows: seq<Row>, r: seq<Row>, a: nat, b: nat)
    requires StoredApart(rows, r) && a < |rows| && b < |rows| && a != b
    ensures a < |r| && b < |r| && !Clash(r[a], r[b])
  {
    hide Clash;
  }

  lemma {:induction false} CommittableParts(
      ctx: Context, rows: seq<Row>, order: seq<nat>, fmt: Formats, txns: seq<Incoming>)
    requires InTable(rows, order) && HasBases(ctx, txns)
    ensures Committable(ctx, rows, order, fmt, txns)
            <==> NewHashesDiffer(ctx, rows, txns) && NoExactBehind(rows, order, fmt)
                 && NewIdsFree(ctx, rows, order, fmt, txns)
  {
    hide NewHashesDiffer, NoExactBehind, NewIdsFree;
  }

  lemma {:induction false} NewApart(
      ctx: Context, rows: seq<Row>, order: seq<nat>, fmt: Formats, txns: seq<Incoming>, r: seq<Row>, a: nat, b: nat)
    requires WalletBatch(ctx, rows, order, fmt, txns, r) && HasBases(ctx, txns) && NewHashesDiffer(ctx, rows, txns)
    requires |rows| <= a < |r| && |rows| <= b < |r| && a != b
    ensures !Clash(r[a], r[b])
  {
    hide WalletBatch, Created, NewHashesDiffer, Base;
    NewRowAfter(ctx, rows, order, fmt, txns, r, a);
    NewRowAfter(ctx, rows, order, fmt, txns, r, b);
    NewRowsDiffer(ctx, rows, order, fmt, txns, r, a, b);
  }

  lemma {:induction false} OkMeansApart(rows: seq<Row>, r: seq<Row>)
    requires CommitOk(r) && |rows| <= |r|
    ensures StoredApart(rows, r)
  {
    hide Clash;
  }

  lemma {:induction false} OkFreesNewIds(
      ctx: Context, rows: seq<Row>, order: seq<nat>, fmt: Formats, txns: seq<Incoming>, r: seq<Row>)
    requires WalletBatch(ctx, rows, order, fmt, txns, r) && InTable(rows, order) && HasBases(ctx, txns)
    requires Collapsed(rows, order, fmt, r) && CommitOk(r)
    ensures NewIdsFree(ctx, rows, order, fmt, txns)
  {
    hide WalletBatch, Collapsed, CommitOk, ShortensTo, IsNew, InBatch;
    forall i, j | 0 <= i < |txns| && InBatch(ctx, txns[i]) && IsNew(rows, txns[i]) && 0 <= j < |order|
      ensures !ShortensTo(rows, order, fmt, j, BaseOf(txns[i]))
    {
      if ShortensTo(rows, order, fmt, j, BaseOf(txns[i])) {
        ShortenedMeetsNew(ctx, rows, order, fmt, txns, r, i, j);
      }
    }
  }

  /** Exactly when a wallet batch commits, whatever rows were stored before. */
  lemma {:induction false} WalletCommitsIff(
      ctx: Context, rows: seq<Row>, order: seq<nat>, fmt: Formats, txns: seq<Incoming>, r: seq<Row>)
    requires WalletBatch(ctx, rows, order, fmt, txns, r) && UniqueIds(rows)
    ensures InTable(rows, order) && HasBases(ctx, txns)
    ensures CommitOk(r) <==> Committable(ctx, rows, order, fmt, txns)
  {
    hide *;
    WalletInTable(ctx, rows, order, fmt, txns, r);
    if CommitOk(r) {
      BatchCollapses(ctx, rows, order, fmt, txns, r);
      RowsOfBatch(ctx, rows, order, fmt, txns, r);
      OkMeansApart(rows, r);
      StoredApartIff(rows, order, fmt, r);
      OkFreesNewIds(ctx, rows, order, fmt, txns, r);
      if !NewHashesDiffer(ctx, rows, txns) {
        SameHashConflicts(ctx, rows, order, fmt, txns, r);
      }
      CommittableParts(ctx, rows, order, fmt, txns);
    }
    if Committable(ctx, rows, order, fmt, txns) {
      CommittableCommits(ctx, rows, order, fmt, txns, r);
    }
  }

  /** When every stored row carries a base id, the new hashes are free anyway. */
  lemma {:induction false} WalletCommitsIffWithBases(
      ctx: Context, rows: seq<Row>, order: seq<nat>, fmt: Formats, txns: seq<Incoming>, r: seq<Row>)
    requires WalletBatch(ctx, rows, order, fmt, txns, r) && UniqueIds(rows)
    requires forall k :: 0 <= k < |rows| ==> Base(rows[k].mem) != ""
    ensures InTable(rows, order) && HasBases(ctx, txns)
    ensures CommitOk(r) <==> NewHashesDiffer(ctx, rows, txns) && NoExactBehind(rows, order, fmt)
  {
    hide *;
    WalletCommitsIff(ctx, rows, order, fmt, txns, r);
    CommittableParts(ctx, rows, order, fmt, txns);
    BasesFreeNewIds(ctx, rows, order, fmt, txns);
  }

  lemma {:induction false} BasesFreeNewIds(
      ctx: Context, rows: seq<Row>, order: seq<nat>, fmt: Formats, txns: seq<Incoming>)
    requires InTable(rows, order) && HasBases(ctx, txns)
    requires forall k :: 0 <= k < |rows| ==> Base(rows[k].mem) != ""
    ensures NewIdsFree(ctx, rows, order, fmt, txns)
  {
    forall i, j | 0 <= i < |txns| && InBatch(ctx, txns[i]) && IsNew(rows, txns[i]) && 0 <= j < |order|
      ensures !ShortensTo(rows, order, fmt, j, BaseOf(txns[i]))
    {
      hide ExtractTxId, SeenBefore, Base, InBatch, HasBases;
      KeyOfBase(rows[order[j]].mem, fmt);
    }
  }

  /** The legs of one new hash are added as separate rows with one id, so the commit is refused
      unless at most one of them is in the batch. */
  lemma {:induction false} CommitsIffNewHashesDiffer(
      ctx: Context, rows: seq<Row>, order: seq<nat>, fmt: Formats, txns: seq<Incoming>, r: seq<Row>)
    requires WalletBatch(ctx, rows, order, fmt, txns, r) && Settled(rows)
    ensures HasBases(ctx, txns) && (CommitOk(r) <==> NewHashesDiffer(ctx, rows, txns))
  {
    WalletInTable(ctx, rows, order, fmt, txns, r);
    hide NewHashesDiffer, WalletBatch, CommitOk, NoExactBehind, HasBases, Base;
    WalletCommitsIffWithBases(ctx, rows, order, fmt, txns, r);
    SettledNoneBehind(rows, order, fmt);
  }

  lemma {:induction false} SettledNoneBehind(rows: seq<Row>, order: seq<nat>, fmt: Formats)
    requires Settled(rows) && Ordering(rows, order)
    ensures InTable(rows, order) && NoExactBehind(rows, order, fmt)
  {
    forall i, j | 0 <= j < i < |order|
      ensures !ExactBehind(rows, order, fmt, i, j)
    {
      hide ExtractTxId, SeenBefore, Base;
      KeyOfBase(rows[order[i]].mem, fmt);
      KeyOfBase(rows[order[j]].mem, fmt);
    }
  }

  /** In particular the native and the token leg of one hash cannot both be in a first sync. */
  lemma {:induction false} FirstSyncOfTwoLegsConflicts(
      ctx: Context, fmt: Formats, native: Incoming, token: Incoming, r: seq<Row>)
    requires ctx.kind == Web3 && InBatch(ctx, native) && InBatch(ctx, token)
    requires HasBase(native) && HasBase(token) && BaseOf(native) == BaseOf(token)
    requires Deduped(ProcessAll(ctx, [], [], [native, token]), [], fmt, r)
    ensures !CommitOk(r)
  {
    var txns := [native, token];
    hide *;
    TwoLegs(ctx, native, token);
    FirstSync(ctx, fmt, txns, r);
    SameHashConflicts(ctx, [], [], fmt, txns, r);
  }

  lemma {:induction false} TwoLegs(ctx: Context, native: Incoming, token: Incoming)
    requires InBatch(ctx, native) && InBatch(ctx, token)
    requires HasBase(native) && HasBase(token) && BaseOf(native) == BaseOf(token)
    ensures HasBases(ctx, [native, token]) && !NewHashesDiffer(ctx, [], [native, token])
  {
    hide HasBase, InBatch;
    var txns := [native, token];
    assert IsNew([], txns[0]) && BaseOf(txns[0]) == BaseOf(txns[1]);
  }

  lemma {:induction false} FirstSync(ctx: Context, fmt: Formats, txns: seq<Incoming>, r: seq<Row>)
    requires ctx.kind == Web3 && HasBases(ctx, txns) && Deduped(ProcessAll(ctx, [], [], txns), [], fmt, r)
    ensures WalletBatch(ctx, [], [], fmt, txns, r)
  {
    hide ProcessAll, Deduped, HasBases;
  }

  /** A wallet batch never has one stored row take the stored id of another, so its commit never waits
      for the order in which the rows are written. */
  lemma {:induction false} WalletNeverHandsOver(
      ctx: Context, rows: seq<Row>, order: seq<nat>, fmt: Formats, txns: seq<Incoming>, r: seq<Row>, pk: seq<nat>)
    requires WalletBatch(ctx, rows, order, fmt, txns, r) && UniqueIds(rows) && UpdateOrder(r, pk)
    ensures !HandsOver(r, pk)
  {
    WalletInTable(ctx, rows, order, fmt, txns, r);
    BatchCollapses(ctx, rows, order, fmt, txns, r);
    hide Collapsed, Ordering, Normalized, Key, UniqueIds, WalletBatch, HasBases, Clean;
    forall i, j | 0 <= i < j < |pk| && r[pk[i]].mem.externalId.Some?
      ensures r[pk[j]].db.value.externalId != r[pk[i]].mem.externalId
    {
      assert !r[pk[i]].deleted && !r[pk[j]].deleted && pk[i] != pk[j];
      StoredNotTaken(ctx, rows, order, fmt, txns, r, pk[i], pk[j]);
    }
  }

  lemma {:induction false} StoredNotTaken(
      ctx: Context, rows: seq<Row>, order: seq<nat>, fmt: Formats, txns: seq<Incoming>, r: seq<Row>, a: nat, b: nat)
    requires WalletBatch(ctx, rows, order, fmt, txns, r) && UniqueIds(rows) && InTable(rows, order)
    requires a < |r| && b < |r| && a != b && r[a].db.Some? && r[b].db.Some? && !r[a].deleted && !r[b].deleted
    requires Collapsed(rows, order, fmt, r) && r[a].mem.externalId.Some?
    ensures r[b].db.value.externalId != r[a].mem.externalId
  {
    hide *;
    WalletInTable(ctx, rows, order, fmt, txns, r);
    if |rows| <= a {
      NewRowAfter(ctx, rows, order, fmt, txns, r, a);
    } else if |rows| <= b {
      NewRowAfter(ctx, rows, order, fmt, txns, r, b);
    } else {
      var i := CleanOrder(rows, order, a);
      var j := CleanOrder(rows, order, b);
      SurvivorsKeepApart(rows, order, fmt, r, i, j);
      CollapsedDb(rows, order, fmt, r, j);
      CleanRow(rows, b);
    }
  }

  lemma {:induction false} CollapsedDb(rows: seq<Row>, order: seq<nat>, fmt: Formats, r: seq<Row>, p: nat)
    requires InTable(rows, order) && Collapsed(rows, order, fmt, r) && p < |order|
    ensures r[order[p]].db == rows[order[p]].db
  {
    assert CollapsedAt(rows, order, fmt, r, p);
  }
}
