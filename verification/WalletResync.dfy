/** Syncing the same wallet batch again after it committed. */
module WalletResync {
  import opened Text
  import opened UnitOfWork
  import opened SyncStore
  import opened SyncProofs
  import opened WalletSync
  import opened SyncOutcomes
  import opened Resync

  /** A committed wallet batch on an account whose rows all carry base ids. */
  ghost predicate CommittedBatch(
      ctx: Context, rows: seq<Row>, order: seq<nat>, fmt: Formats, txns: seq<Incoming>, r: seq<Row>)
  {
    && WalletBatch(ctx, rows, order, fmt, txns, r) && CommitOk(r)
    && forall k :: 0 <= k < |rows| ==> Base(rows[k].mem) != ""
  }

  lemma {:induction false} CommittedBatchSettles(
      ctx: Context, rows: seq<Row>, order: seq<nat>, fmt: Formats, txns: seq<Incoming>, r: seq<Row>)
    requires CommittedBatch(ctx, rows, order, fmt, txns, r)
    ensures Settled(Committed(r)) && HasBases(ctx, txns) && ctx.kind == Web3 && InTable(rows, order)
    ensures WalletBatch(ctx, rows, order, fmt, txns, r) && CommitOk(r) && Clean(rows) && Ordering(rows, order)
  {
    CommitSettles(ctx, rows, order, fmt, txns, r);
  }

  // ----- The first sync -----

  lemma {:induction false} IdIsBase(ctx: Context, txns: seq<Incoming>, i: nat)
    requires ctx.kind == Web3 && HasBases(ctx, txns) && i < |txns| && InBatch(ctx, txns[i])
    ensures HasBase(txns[i]) && IdOf(ctx.kind, txns[i]) == Some(BaseOf(txns[i]))
  {
    BaseIsTruthy(txns[i]);
  }

  /** A stored row that survives is the newest of its hash, so it received all of its transactions. */
  lemma {:induction false} SurvivorReceives(
      ctx: Context, rows: seq<Row>, order: seq<nat>, fmt: Formats, txns: seq<Incoming>, r: seq<Row>, p: nat)
    requires CommittedBatch(ctx, rows, order, fmt, txns, r) && p < |rows| && p < |r| && !r[p].deleted
    ensures InTable(rows, order) && Receives(ctx, rows, order, txns, p, Some(Base(rows[p].mem)))
  {
    CommittedBatchSettles(ctx, rows, order, fmt, txns, r);
    var q := CleanOrder(rows, order, p);
    hide CommittedBatch, Settled, CommitOk, Existing, Base, InBatch, HasBases, Ordering;
    forall i | 0 <= i < |txns| && InBatch(ctx, txns[i])
      ensures Existing(ctx, rows, order, txns[i]) == Some(p) <==> IdOf(ctx.kind, txns[i]) == Some(Base(rows[p].mem))
    {
      IdIsBase(ctx, txns, i);
      SurvivorTarget(ctx, rows, order, fmt, txns, r, q, txns[i]);
    }
  }

  lemma {:induction false} SurvivorTarget(
      ctx: Context, rows: seq<Row>, order: seq<nat>, fmt: Formats, txns: seq<Incoming>, r: seq<Row>, q: nat,
      t: Incoming)
    requires CommittedBatch(ctx, rows, order, fmt, txns, r) && HasBase(t)
    requires q < |order| && order[q] < |rows| && order[q] < |r| && !r[order[q]].deleted
    ensures InTable(rows, order)
    ensures Existing(ctx, rows, order, t) == Some(order[q]) <==> BaseOf(t) == Base(rows[order[q]].mem)
  {
    hide *;
    CommittedBatchSettles(ctx, rows, order, fmt, txns, r);
    WalletTarget(ctx, rows, order, t);
    CleanDb(rows);
    if BaseOf(t) == Base(rows[order[q]].mem) {
      forall z | 0 <= z < q
        ensures Base(rows[order[z]].mem) != BaseOf(t)
      {
        NoEarlierLeg(ctx, rows, order, fmt, txns, r, z, q);
      }
      FirstLeg(rows, order, t, q);
    }
  }

  lemma {:induction false} CleanDb(rows: seq<Row>)
    requires Clean(rows)
    ensures forall k :: 0 <= k < |rows| ==> rows[k].db == Some(rows[k].mem)
  {
  }

  /** The newest row of a hash is the first candidate. */
  lemma {:induction false} FirstLeg(rows: seq<Row>, order: seq<nat>, t: Incoming, q: nat)
    requires Clean(rows) && Ordering(rows, order) && HasBase(t) && q < |order|
    requires Base(rows[order[q]].mem) == BaseOf(t)
    requires forall z :: 0 <= z < q ==> Base(rows[order[z]].mem) != BaseOf(t)
    ensures var candidates := Candidates(rows, order, BaseOf(t));
            candidates != [] && candidates[0] == order[q]
  {
    BaseIsTruthy(t);
    CleanDb(rows);
    MatchIsSameBase(rows[order[q]].db.value, BaseOf(t));
    var z := FirstCandidate(rows, order, BaseOf(t));
    MatchIsSameBase(rows[order[z]].db.value, BaseOf(t));
  }

  lemma {:induction false} NoEarlierLeg(
      ctx: Context, rows: seq<Row>, order: seq<nat>, fmt: Formats, txns: seq<Incoming>, r: seq<Row>, z: nat, q: nat)
    requires CommittedBatch(ctx, rows, order, fmt, txns, r)
    requires z < q < |order| && order[q] < |rows| && order[q] < |r| && !r[order[q]].deleted
    ensures order[z] < |rows| && Base(rows[order[z]].mem) != Base(rows[order[q]].mem)
  {
    CommittedBatchSettles(ctx, rows, order, fmt, txns, r);
    var mid := Halfway(ctx, rows, order, fmt, txns, r);
    hide Settled, CommitOk, Base, HasBases, Clean, Key, Process, BatchForm, Normalized, Ordering;
    OrderingInTable(rows, order);
    StoredKeyHalfway(ctx, rows, order, fmt, txns, r, order[z]);
    StoredKeyHalfway(ctx, rows, order, fmt, txns, r, order[q]);
    KeyOfBase(rows[order[z]].mem, fmt);
    KeyOfBase(rows[order[q]].mem, fmt);
    DedupedRowIs(mid, order, fmt, q);
    assert r[order[q]] == DedupedRow(mid, order, fmt, q);
  }

  // ----- The stored result is a fixed point of the batch's updates -----

  lemma {:induction false} NormalizedAfterWrite(f: Fields, fmt: Formats, h: string)
    requires h != "" && f.externalId == Some(h) && ':' !in h
    ensures Normalized(f, fmt) == f
  {
    NoColonKept(h);
    KeyOfBase(f, fmt);
  }

  /** A committed row is not changed by applying the batch's updates to its hash once more. */
  lemma {:induction false} CommittedRowIsFixed(
      ctx: Context, rows: seq<Row>, order: seq<nat>, fmt: Formats, txns: seq<Incoming>, r: seq<Row>, a: nat)
    requires CommittedBatch(ctx, rows, order, fmt, txns, r) && a < |r| && !r[a].deleted
    ensures Fold(ctx, txns, Some(Base(r[a].mem)), r[a].mem) == r[a].mem
  {
    CommittedBatchSettles(ctx, rows, order, fmt, txns, r);
    hide *;
    if a < |rows| {
      StoredRowIsFixed(ctx, rows, order, fmt, txns, r, a);
    } else {
      NewRowIsFixed(ctx, rows, order, fmt, txns, r, a);
    }
  }

  lemma {:induction false} StoredRowIsFixed(
      ctx: Context, rows: seq<Row>, order: seq<nat>, fmt: Formats, txns: seq<Incoming>, r: seq<Row>, a: nat)
    requires CommittedBatch(ctx, rows, order, fmt, txns, r) && a < |rows| && a < |r| && !r[a].deleted
    ensures Fold(ctx, txns, Some(Base(r[a].mem)), r[a].mem) == r[a].mem
  {
    CommittedBatchSettles(ctx, rows, order, fmt, txns, r);
    var h := Base(rows[a].mem);
    hide Settled, CommitOk, Base, HasBases, Clean, Fold, HasWriter, Receives, Ordering, WalletBatch, Normalized, Writes;
    StoredRowAfter(ctx, rows, order, fmt, txns, r, a);
    SurvivorReceives(ctx, rows, order, fmt, txns, r, a);
    var f := rows[a].mem;
    WritesIsFold(ctx, rows, order, txns, a, f, Some(h));
    var g := Fold(ctx, txns, Some(h), f);
    FoldTwice(ctx, txns, Some(h), f);
    FoldDependsOnCurrency(ctx, txns, Some(h), f, f);
    FoldDependsOnCurrency(ctx, txns, Some(h), Normalized(g, fmt), f);
    if HasWriter(ctx, txns, Some(h)) {
      BaseLacksColon(f);
      NormalizedAfterWrite(g, fmt, h);
    }
  }

  lemma {:induction false} BaseLacksColon(f: Fields)
    ensures ':' !in Base(f)
  {
  }

  lemma {:induction false} NewRowIsFixed(
      ctx: Context, rows: seq<Row>, order: seq<nat>, fmt: Formats, txns: seq<Incoming>, r: seq<Row>, a: nat)
    requires CommittedBatch(ctx, rows, order, fmt, txns, r) && |rows| <= a < |r|
    ensures Fold(ctx, txns, Some(Base(r[a].mem)), r[a].mem) == r[a].mem
  {
    hide *;
    CommittedBatchSettles(ctx, rows, order, fmt, txns, r);
    RowsOfBatch(ctx, rows, order, fmt, txns, r);
    CreatedFrom(ctx, rows, order, txns);
    FreshAreUnmatched(ctx, rows, order, txns);
    var m := a - |rows|;
    var i := Fresh(ctx, rows, order, txns)[m];
    NewRowAt(ctx, rows, order, fmt, txns, r, m);
    UnmatchedBrings(ctx, rows, order, txns, i);
    NewFieldsBase(ctx, txns[i]);
    forall j | 0 <= j < |txns| && j != i
      ensures !Targets(ctx, txns[j], Some(BaseOf(txns[i])))
    {
      OneTransactionPerNewHash(ctx, rows, order, fmt, txns, r, i, j);
    }
    BaseTargets(ctx, txns, i);
    OnlyWriter(ctx, txns, Some(BaseOf(txns[i])), i);
  }

  lemma {:induction false} BaseTargets(ctx: Context, txns: seq<Incoming>, i: nat)
    requires ctx.kind == Web3 && HasBases(ctx, txns) && i < |txns| && InBatch(ctx, txns[i])
    ensures HasBase(txns[i]) && Targets(ctx, txns[i], Some(BaseOf(txns[i])))
  {
    IdIsBase(ctx, txns, i);
  }

  lemma {:induction false} OneTransactionPerNewHash(
      ctx: Context, rows: seq<Row>, order: seq<nat>, fmt: Formats, txns: seq<Incoming>, r: seq<Row>, i: nat, j: nat)
    requires CommittedBatch(ctx, rows, order, fmt, txns, r)
    requires i < |txns| && j < |txns| && j != i && InBatch(ctx, txns[i]) && HasBase(txns[i]) && IsNew(rows, txns[i])
    ensures !Targets(ctx, txns[j], Some(BaseOf(txns[i])))
  {
    CommittedBatchSettles(ctx, rows, order, fmt, txns, r);
    if Targets(ctx, txns[j], Some(BaseOf(txns[i]))) {
      IdIsBase(ctx, txns, j);
      assert IsNew(rows, txns[j]);
      hide CommittedBatch, Settled, CommitOk, IsNew, HasBase, WalletBatch, IdOf, InBatch, Targets;
      if NewHashesDiffer(ctx, rows, txns) {
        NewHashesAt(ctx, rows, txns, i, j);
      } else {
        SameHashConflicts(ctx, rows, order, fmt, txns, r);
      }
    }
  }

  // ----- The second sync -----

  /** On a settled account a transaction goes to the one row with its base id. */
  lemma {:induction false} SettledReceives(ctx: Context, c: seq<Row>, order: seq<nat>, txns: seq<Incoming>, a: nat)
    requires ctx.kind == Web3 && Settled(c) && Ordering(c, order) && HasBases(ctx, txns) && a < |c|
    ensures InTable(c, order) && Receives(ctx, c, order, txns, a, Some(Base(c[a].mem)))
  {
    OrderingInTable(c, order);
    hide Existing, Base, InBatch, HasBases, Ordering;
    forall i | 0 <= i < |txns| && InBatch(ctx, txns[i])
      ensures Existing(ctx, c, order, txns[i]) == Some(a) <==> IdOf(ctx.kind, txns[i]) == Some(Base(c[a].mem))
    {
      IdIsBase(ctx, txns, i);
      WalletTarget(ctx, c, order, txns[i]);
      assert c[a].db == Some(c[a].mem);
      var e := Existing(ctx, c, order, txns[i]);
      if e.Some? {
        assert c[e.value].db == Some(c[e.value].mem);
      }
    }
  }

  /** Every hash of the batch is stored after the first sync. */
  lemma {:induction false} HashIsStored(
      ctx: Context, rows: seq<Row>, order: seq<nat>, fmt: Formats, txns: seq<Incoming>, r: seq<Row>,
      order': seq<nat>, i: nat)
    requires CommittedBatch(ctx, rows, order, fmt, txns, r) && Ordering(Committed(r), order')
    requires i < |txns| && InBatch(ctx, txns[i])
    ensures InTable(Committed(r), order') && Existing(ctx, Committed(r), order', txns[i]).Some?
  {
    CommittedBatchSettles(ctx, rows, order, fmt, txns, r);
    var c := Committed(r);
    OrderingInTable(c, order');
    CommittedRows(r);
    IdIsBase(ctx, txns, i);
    hide CommittedBatch, CommitOk, Existing, Base, Ordering, WalletBatch, Committed, HasBase, InBatch;
    var s := BatchStoresEveryHash(ctx, rows, order, fmt, txns, r, i);
    var a := LivePosition(r, s);
    KeyOfBase(c[a].mem, fmt);
    SettledReceives(ctx, c, order', txns, a);
  }

  lemma {:induction false} LivePosition(r: seq<Row>, s: nat) returns (a: nat)
    requires s < |r| && !r[s].deleted
    ensures a < |Live(r)| && Live(r)[a] == s
  {
    hide Live;
    assert s in Live(r);
    a :| 0 <= a < |Live(r)| && Live(r)[a] == s;
  }

  /** Syncing the same wallet batch again, in whatever order the database lists the rows, creates no
      row, deletes none and leaves every field as it is. */
  lemma {:induction false} WalletResyncUnchanged(
      ctx: Context, rows: seq<Row>, order: seq<nat>, fmt: Formats, txns: seq<Incoming>, r: seq<Row>,
      order': seq<nat>, r': seq<Row>)
    requires CommittedBatch(ctx, rows, order, fmt, txns, r)
    requires WalletBatch(ctx, Committed(r), order', fmt, txns, r')
    ensures |ProcessAll(ctx, Committed(r), order', txns)| == |Committed(r)|
    ensures r' == Committed(r)
  {
    var c := Committed(r);
    WalletInTable(ctx, c, order', fmt, txns, r');
    CommittedBatchSettles(ctx, rows, order, fmt, txns, r);
    CommittedRows(r);
    hide *;
    forall i | 0 <= i < |txns| && InBatch(ctx, txns[i])
      ensures Existing(ctx, c, order', txns[i]).Some?
    {
      HashIsStored(ctx, rows, order, fmt, txns, r, order', i);
    }
    NothingFresh(ctx, c, order', txns);
    CreatedFrom(ctx, c, order', txns);
    RowsOfBatch(ctx, c, order', fmt, txns, r');
    SameCount(ctx, c, order', txns);
    forall a | 0 <= a < |c|
      ensures r'[a] == c[a]
    {
      SettledRowUnchanged(ctx, rows, order, fmt, txns, r, order', r', a);
    }
  }

  lemma {:induction false} SameCount(ctx: Context, c: seq<Row>, order: seq<nat>, txns: seq<Incoming>)
    requires InTable(c, order) && Created(ctx, c, order, txns) == []
    ensures |ProcessAll(ctx, c, order, txns)| == |c|
  {
    BatchInClosedForm(ctx, c, order, txns);
  }

  lemma {:induction false} SettledRowUnchanged(
      ctx: Context, rows: seq<Row>, order: seq<nat>, fmt: Formats, txns: seq<Incoming>, r: seq<Row>,
      order': seq<nat>, r': seq<Row>, a: nat)
    requires CommittedBatch(ctx, rows, order, fmt, txns, r)
    requires WalletBatch(ctx, Committed(r), order', fmt, txns, r') && a < |Committed(r)|
    ensures a < |r'| && r'[a] == Committed(r)[a]
  {
    var c := Committed(r);
    WalletInTable(ctx, c, order', fmt, txns, r');
    CommittedBatchSettles(ctx, rows, order, fmt, txns, r);
    CommittedRows(r);
    assert c[a] == Row(Some(c[a].mem), c[a].mem, false);
    SettledBase(c, a);
    hide *;
    SettledReceives(ctx, c, order', txns, a);
    WritesIsFold(ctx, c, order', txns, a, c[a].mem, Some(Base(c[a].mem)));
    CommittedRowIsFixed(ctx, rows, order, fmt, txns, r, Live(r)[a]);
    SettledKeepsRows(ctx, c, order', fmt, txns, r', a);
    StoredRowAfter(ctx, c, order', fmt, txns, r', a);
    BaseLacksColon(c[a].mem);
    NormalizedAfterWrite(c[a].mem, fmt, Base(c[a].mem));
  }

  lemma {:induction false} SettledBase(c: seq<Row>, a: nat)
    requires Settled(c) && a < |c|
    ensures Base(c[a].mem) != "" && c[a].mem.externalId == Some(Base(c[a].mem))
  {
  }
}
