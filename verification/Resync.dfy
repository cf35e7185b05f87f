/** Syncing the same batch again after it committed. */
module Resync {
  import opened Text
  import opened UnitOfWork
  import opened SyncStore
  import opened SyncProofs
  import opened WalletSync
  import opened SyncOutcomes

  // ----- Applying the updates of one id twice -----

  predicate Targets(ctx: Context, t: Incoming, id: Option<string>) {
    InBatch(ctx, t) && IdOf(ctx.kind, t) == id
  }

  /** The updates a batch makes to the row with a given id. */
  function Fold(ctx: Context, txns: seq<Incoming>, id: Option<string>, f: Fields): Fields {
    if txns == [] then f
    else
      var n := |txns| - 1;
      var before := Fold(ctx, txns[..n], id, f);
      if Targets(ctx, txns[n], id) then Written(ctx, before, txns[n]) else before
  }

  predicate HasWriter(ctx: Context, txns: seq<Incoming>, id: Option<string>) {
    exists i :: 0 <= i < |txns| && Targets(ctx, txns[i], id)
  }

  /** An update that names no currency keeps the stored one: the only thing it takes from the row. */
  function Currency(ctx: Context, txns: seq<Incoming>, id: Option<string>, c: string): string {
    if txns == [] then c
    else
      var n := |txns| - 1;
      if Targets(ctx, txns[n], id) && Truthy(txns[n].currency) then txns[n].currency.value
      else Currency(ctx, txns[..n], id, c)
  }

  lemma {:induction false} FoldDependsOnCurrency(
      ctx: Context, txns: seq<Incoming>, id: Option<string>, f: Fields, g: Fields)
    ensures Fold(ctx, txns, id, f).currency == Currency(ctx, txns, id, f.currency)
    ensures HasWriter(ctx, txns, id) && Currency(ctx, txns, id, f.currency) == Currency(ctx, txns, id, g.currency)
            ==> Fold(ctx, txns, id, f) == Fold(ctx, txns, id, g)
    ensures !HasWriter(ctx, txns, id) ==> Fold(ctx, txns, id, f) == f
    ensures HasWriter(ctx, txns, id) ==> Fold(ctx, txns, id, f).externalId == id
  {
    hide Targets, Signed;
    if txns == [] {
    } else {
      var n := |txns| - 1;
      FoldDependsOnCurrency(ctx, txns[..n], id, f, g);
      FoldDependsOnCurrency(ctx, txns[..n], id, g, f);
      if Targets(ctx, txns[n], id) {
        TargetsId(ctx, txns[n], id);
      } else {
        assert HasWriter(ctx, txns, id) <==> HasWriter(ctx, txns[..n], id);
      }
    }
  }

  lemma {:induction false} TargetsId(ctx: Context, t: Incoming, id: Option<string>)
    requires Targets(ctx, t, id)
    ensures IdOf(ctx.kind, t) == id
  {
  }

  lemma {:induction false} CurrencyTwice(ctx: Context, txns: seq<Incoming>, id: Option<string>, c: string)
    ensures var once := Currency(ctx, txns, id, c);
            Currency(ctx, txns, id, once) == once
    ensures forall d :: Currency(ctx, txns, id, d) == d || Currency(ctx, txns, id, d) == Currency(ctx, txns, id, c)
  {
    hide Targets;
    if txns == [] {
    } else {
      CurrencyTwice(ctx, txns[..|txns| - 1], id, c);
    }
  }

  /** Writing the same updates over their own result changes nothing. */
  lemma {:induction false} FoldTwice(ctx: Context, txns: seq<Incoming>, id: Option<string>, f: Fields)
    ensures Fold(ctx, txns, id, Fold(ctx, txns, id, f)) == Fold(ctx, txns, id, f)
  {
    hide Fold, HasWriter;
    var g := Fold(ctx, txns, id, f);
    FoldDependsOnCurrency(ctx, txns, id, f, g);
    FoldDependsOnCurrency(ctx, txns, id, g, f);
    CurrencyTwice(ctx, txns, id, f.currency);
  }

  /** A row created by the only transaction with its id is left alone by that transaction. */
  lemma {:induction false} OnlyWriter(ctx: Context, txns: seq<Incoming>, id: Option<string>, i: nat)
    requires i < |txns| && Targets(ctx, txns[i], id)
    requires forall j :: 0 <= j < |txns| && j != i ==> !Targets(ctx, txns[j], id)
    ensures Fold(ctx, txns, id, NewFields(ctx, txns[i])) == NewFields(ctx, txns[i])
  {
    hide Targets, Signed;
    var n := |txns| - 1;
    if i < n {
      OnlyWriter(ctx, txns[..n], id, i);
    } else {
      assert !HasWriter(ctx, txns[..n], id);
      FoldDependsOnCurrency(ctx, txns[..n], id, NewFields(ctx, txns[n]), NewFields(ctx, txns[n]));
    }
  }

  // ----- Which updates reach a row -----

  /** Row k receives exactly the transactions with the given id. */
  ghost predicate Receives(
      ctx: Context, rows: seq<Row>, order: seq<nat>, txns: seq<Incoming>, k: nat, id: Option<string>)
    requires InTable(rows, order)
  {
    forall i :: 0 <= i < |txns| && InBatch(ctx, txns[i]) ==>
      (Existing(ctx, rows, order, txns[i]) == Some(k) <==> IdOf(ctx.kind, txns[i]) == id)
  }

  ghost predicate ReceivesNothing(ctx: Context, rows: seq<Row>, order: seq<nat>, txns: seq<Incoming>, k: nat)
    requires InTable(rows, order)
  {
    forall i :: 0 <= i < |txns| && InBatch(ctx, txns[i]) ==> Existing(ctx, rows, order, txns[i]) != Some(k)
  }

  lemma {:induction false} WritesIsFold(
      ctx: Context, rows: seq<Row>, order: seq<nat>, txns: seq<Incoming>, k: nat, f: Fields, id: Option<string>)
    requires InTable(rows, order) && Receives(ctx, rows, order, txns, k, id)
    ensures Writes(ctx, rows, order, txns, k, f) == Fold(ctx, txns, id, f)
  {
    hide Existing, InBatch, IdOf, Written;
    if txns == [] {
    } else {
      WritesIsFold(ctx, rows, order, txns[..|txns| - 1], k, f, id);
    }
  }

  lemma {:induction false} WritesNothing(
      ctx: Context, rows: seq<Row>, order: seq<nat>, txns: seq<Incoming>, k: nat, f: Fields)
    requires InTable(rows, order) && ReceivesNothing(ctx, rows, order, txns, k)
    ensures Writes(ctx, rows, order, txns, k, f) == f
  {
    hide Existing, InBatch, Written;
    if txns == [] {
    } else {
      WritesNothing(ctx, rows, order, txns[..|txns| - 1], k, f);
    }
  }

  // ----- Exchange accounts -----

  /** One exchange batch over clean rows, committed. */
  ghost predicate ExchangeSync(ctx: Context, rows: seq<Row>, txns: seq<Incoming>, c: seq<Row>) {
    && ctx.kind != Web3 && Clean(rows) && UniqueIds(rows)
    && var r := ProcessAll(ctx, rows, [], txns);
       CommitOk(r) && c == Committed(r)
  }

  lemma {:induction false} NoPending(ctx: Context, rows: seq<Row>, order: seq<nat>, txns: seq<Incoming>, k: nat)
    requires ctx.kind != Web3 && InTable(rows, order)
    ensures !Pending(ctx, rows, order, txns, k, false)
  {
    if txns == [] {
    } else {
      NoPending(ctx, rows, order, txns[..|txns| - 1], k);
    }
  }

  lemma {:induction false} KeepAll(rows: seq<Row>)
    requires forall k :: 0 <= k < |rows| ==> !rows[k].deleted
    ensures |Committed(rows)| == |rows|
    ensures forall k :: 0 <= k < |rows| ==> Committed(rows)[k] == Row(Some(rows[k].mem), rows[k].mem, false)
  {
    if rows == [] {
    } else {
      KeepAll(rows[..|rows| - 1]);
    }
  }

  lemma {:induction false} WritesKeepId(ctx: Context, rows: seq<Row>, txns: seq<Incoming>, k: nat)
    requires ctx.kind != Web3 && Clean(rows) && k < |rows|
    ensures Writes(ctx, rows, [], txns, k, rows[k].mem).externalId == rows[k].mem.externalId
  {
    hide InBatch, Signed, FirstWithId;
    if txns == [] {
    } else {
      WritesKeepId(ctx, rows, txns[..|txns| - 1], k);
    }
  }

  /** What an exchange batch makes of the table: nothing is deleted and every stored id stays. */
  lemma {:induction false} ExchangeTable(ctx: Context, rows: seq<Row>, txns: seq<Incoming>, r: seq<Row>)
    requires ctx.kind != Web3 && Clean(rows) && InTable(rows, []) && r == ProcessAll(ctx, rows, [], txns)
    ensures |r| == |rows| + |Fresh(ctx, rows, [], txns)|
    ensures forall k :: 0 <= k < |rows| ==>
              r[k] == Row(Some(rows[k].mem), Writes(ctx, rows, [], txns, k, rows[k].mem), false)
              && r[k].mem.externalId == rows[k].mem.externalId
    ensures forall m :: 0 <= m < |Fresh(ctx, rows, [], txns)| ==>
              r[|rows| + m] == Row(None, NewFields(ctx, txns[Fresh(ctx, rows, [], txns)[m]]), false)
    ensures forall k :: |rows| <= k < |r| ==> r[k].db.None? && !r[k].deleted
  {
    BatchInClosedForm(ctx, rows, [], txns);
    CreatedFrom(ctx, rows, [], txns);
    hide Writes, Process, Created, Fresh, NewFields;
    forall k | 0 <= k < |rows|
      ensures r[k] == Row(Some(rows[k].mem), Writes(ctx, rows, [], txns, k, rows[k].mem), false)
      ensures r[k].mem.externalId == rows[k].mem.externalId
    {
      NoPending(ctx, rows, [], txns, k);
      WritesKeepId(ctx, rows, txns, k);
    }
    forall m | 0 <= m < |Fresh(ctx, rows, [], txns)|
      ensures r[|rows| + m] == Row(None, NewFields(ctx, txns[Fresh(ctx, rows, [], txns)[m]]), false)
    {
      assert r[|rows|..][m] == r[|rows| + m];
    }
    forall k | |rows| <= k < |r|
      ensures r[k].db.None? && !r[k].deleted
    {
      assert r[|rows|..][k - |rows|] == r[k];
    }
  }

  /** The committed rows: the stored ones with their updates, then the new ones. */
  lemma {:induction false} ExchangeRows(ctx: Context, rows: seq<Row>, txns: seq<Incoming>, c: seq<Row>)
    requires ExchangeSync(ctx, rows, txns, c)
    ensures Clean(c) && UniqueIds(c)
    ensures |c| == |rows| + |Fresh(ctx, rows, [], txns)|
    ensures forall k :: 0 <= k < |rows| ==> c[k].mem == Writes(ctx, rows, [], txns, k, rows[k].mem)
    ensures forall m :: 0 <= m < |Fresh(ctx, rows, [], txns)| ==>
              c[|rows| + m].mem == NewFields(ctx, txns[Fresh(ctx, rows, [], txns)[m]])
  {
    var r := ProcessAll(ctx, rows, [], txns);
    ExchangeTable(ctx, rows, txns, r);
    hide Writes, Fresh, NewFields, ProcessAll, Committed;
    KeepAll(r);
    OkMeansUnique(r, c);
  }

  lemma {:induction false} OkMeansUnique(r: seq<Row>, c: seq<Row>)
    requires CommitOk(r) && |r| == |c|
    requires forall k :: 0 <= k < |r| ==> !r[k].deleted && c[k].mem == r[k].mem
    ensures UniqueIds(c)
  {
    forall i, j | 0 <= i < |c| && 0 <= j < |c| && i != j && c[i].mem.externalId.Some?
      ensures c[i].mem.externalId != c[j].mem.externalId
    {
      assert !Clash(r[i], r[j]);
    }
  }

  // ----- Exactly when an exchange batch commits -----

  /** No two transactions of the batch bring the same id that no row is stored under. */
  ghost predicate NewIdsDiffer(ctx: Context, rows: seq<Row>, txns: seq<Incoming>) {
    forall i, j :: 0 <= i < j < |txns| && InBatch(ctx, txns[i]) && InBatch(ctx, txns[j])
                   && txns[i].txId.Some? && HasNewId(rows, txns[i])
      ==> txns[i].txId != txns[j].txId
  }

  predicate HasNewId(rows: seq<Row>, t: Incoming) {
    forall k :: 0 <= k < |rows| ==> rows[k].mem.externalId != t.txId
  }

  lemma {:induction false} NewIdIffUnmatched(ctx: Context, rows: seq<Row>, t: Incoming)
    requires ctx.kind != Web3 && Clean(rows) && InTable(rows, [])
    ensures IsUnmatched(ctx, rows, [], t) <==> InBatch(ctx, t) && HasNewId(rows, t)
  {
    hide FirstWithId, InBatch;
    assert forall k :: 0 <= k < |rows| ==> rows[k].db == Some(rows[k].mem);
    var e := FirstWithId(rows, t.txId);
    assert Existing(ctx, rows, [], t) == e;
  }

  /** An exchange batch commits exactly when the new ids in it differ, in whatever order rows are written. */
  lemma {:induction false} ExchangeCommitsIff(
      ctx: Context, rows: seq<Row>, txns: seq<Incoming>, r: seq<Row>, pk: seq<nat>)
    requires ctx.kind != Web3 && Clean(rows) && UniqueIds(rows) && InTable(rows, [])
    requires r == ProcessAll(ctx, rows, [], txns) && UpdateOrder(r, pk)
    ensures CommitOk(r) && !HandsOver(r, pk) <==> NewIdsDiffer(ctx, rows, txns)
  {
    hide *;
    ExchangeTable(ctx, rows, txns, r);
    StoredIdsStay(rows, r, pk);
    if NewIdsDiffer(ctx, rows, txns) {
      forall a, b | 0 <= a < |r| && 0 <= b < |r| && a != b
        ensures !Clash(r[a], r[b])
      {
        ExchangeApart(ctx, rows, txns, r, a, b);
      }
      PairsCommit(r);
    } else {
      SameIdConflicts(ctx, rows, txns, r);
    }
  }

  lemma {:induction false} PairsCommit(r: seq<Row>)
    requires forall a, b :: 0 <= a < |r| && 0 <= b < |r| && a != b ==> !Clash(r[a], r[b])
    ensures CommitOk(r)
  {
    hide Clash;
  }

  lemma {:induction false} StoredIdsStay(rows: seq<Row>, r: seq<Row>, pk: seq<nat>)
    requires UniqueIds(rows) && UpdateOrder(r, pk) && |rows| <= |r|
    requires forall k :: 0 <= k < |rows| ==>
               r[k].db == Some(rows[k].mem) && r[k].mem.externalId == rows[k].mem.externalId
    requires forall k :: |rows| <= k < |r| ==> r[k].db.None?
    ensures !HandsOver(r, pk)
  {
    forall i, j | 0 <= i < j < |pk| && r[pk[i]].mem.externalId.Some?
      ensures r[pk[j]].db.value.externalId != r[pk[i]].mem.externalId
    {
      assert pk[i] < |rows| && pk[j] < |rows| && pk[i] != pk[j];
    }
  }

  /** The transaction behind a new row. */
  lemma {:induction false} NewRowFrom(ctx: Context, rows: seq<Row>, txns: seq<Incoming>, r: seq<Row>, m: nat)
    requires ctx.kind != Web3 && Clean(rows) && InTable(rows, []) && r == ProcessAll(ctx, rows, [], txns)
    requires m < |Fresh(ctx, rows, [], txns)|
    ensures |r| == |rows| + |Fresh(ctx, rows, [], txns)|
    ensures var i := Fresh(ctx, rows, [], txns)[m];
            && InBatch(ctx, txns[i]) && HasNewId(rows, txns[i])
            && r[|rows| + m].db.None? && !r[|rows| + m].deleted && r[|rows| + m].mem.externalId == txns[i].txId
  {
    hide Fresh, ProcessAll, IsUnmatched, InBatch, HasNewId, Clean;
    ExchangeTable(ctx, rows, txns, r);
    FreshAreUnmatched(ctx, rows, [], txns);
    NewIdIffUnmatched(ctx, rows, txns[Fresh(ctx, rows, [], txns)[m]]);
  }

  lemma {:induction false} ExchangeApart(
      ctx: Context, rows: seq<Row>, txns: seq<Incoming>, r: seq<Row>, a: nat, b: nat)
    requires ctx.kind != Web3 && Clean(rows) && UniqueIds(rows) && InTable(rows, [])
    requires r == ProcessAll(ctx, rows, [], txns) && NewIdsDiffer(ctx, rows, txns)
    requires a < |r| && b < |r| && a != b
    ensures !Clash(r[a], r[b])
  {
    hide *;
    LiveRow(ctx, rows, txns, r, a);
    LiveRow(ctx, rows, txns, r, b);
    if |rows| <= a && |rows| <= b {
      NewRowFrom(ctx, rows, txns, r, a - |rows|);
      NewRowFrom(ctx, rows, txns, r, b - |rows|);
      FreshAreUnmatched(ctx, rows, [], txns);
      NewIdsDifferAt(ctx, rows, txns, Fresh(ctx, rows, [], txns)[a - |rows|], Fresh(ctx, rows, [], txns)[b - |rows|]);
    } else if |rows| <= a {
      NewRowFrom(ctx, rows, txns, r, a - |rows|);
      NewIdIsNew(rows, txns[Fresh(ctx, rows, [], txns)[a - |rows|]], b);
    } else if |rows| <= b {
      NewRowFrom(ctx, rows, txns, r, b - |rows|);
      NewIdIsNew(rows, txns[Fresh(ctx, rows, [], txns)[b - |rows|]], a);
    } else {
      OldIdsDiffer(rows, a, b);
    }
    LiveApart(r[a], r[b]);
  }

  lemma {:induction false} LiveRow(ctx: Context, rows: seq<Row>, txns: seq<Incoming>, r: seq<Row>, a: nat)
    requires ctx.kind != Web3 && Clean(rows) && InTable(rows, []) && r == ProcessAll(ctx, rows, [], txns)
    requires a < |r|
    ensures |r| == |rows| + |Fresh(ctx, rows, [], txns)|
    ensures !r[a].deleted && (a < |rows| ==> r[a].mem.externalId == rows[a].mem.externalId)
  {
    hide *;
    ExchangeTable(ctx, rows, txns, r);
  }

  lemma {:induction false} NewIdIsNew(rows: seq<Row>, t: Incoming, k: nat)
    requires HasNewId(rows, t) && k < |rows|
    ensures rows[k].mem.externalId != t.txId
  {
  }

  lemma {:induction false} OldIdsDiffer(rows: seq<Row>, a: nat, b: nat)
    requires UniqueIds(rows) && a < |rows| && b < |rows| && a != b
    ensures rows[a].mem.externalId.Some? ==> rows[a].mem.externalId != rows[b].mem.externalId
  {
  }

  lemma {:induction false} LiveApart(a: Row, b: Row)
    requires !a.deleted && !b.deleted && (a.mem.externalId.Some? ==> a.mem.externalId != b.mem.externalId)
    ensures !Clash(a, b)
  {
  }

  lemma {:induction false} NewIdsDifferAt(ctx: Context, rows: seq<Row>, txns: seq<Incoming>, i: nat, j: nat)
    requires NewIdsDiffer(ctx, rows, txns) && i < |txns| && j < |txns| && i != j
    requires InBatch(ctx, txns[i]) && InBatch(ctx, txns[j]) && HasNewId(rows, txns[i]) && HasNewId(rows, txns[j])
    ensures txns[i].txId.Some? ==> txns[i].txId != txns[j].txId
  {
    hide HasNewId;
  }

  lemma {:induction false} SameIdConflicts(ctx: Context, rows: seq<Row>, txns: seq<Incoming>, r: seq<Row>)
    requires ctx.kind != Web3 && Clean(rows) && InTable(rows, []) && r == ProcessAll(ctx, rows, [], txns)
    requires !NewIdsDiffer(ctx, rows, txns)
    ensures !CommitOk(r)
  {
    var i, j :| 0 <= i < j < |txns| && InBatch(ctx, txns[i]) && InBatch(ctx, txns[j]) && txns[i].txId.Some?
                && HasNewId(rows, txns[i]) && txns[i].txId == txns[j].txId;
    NewIdIffUnmatched(ctx, rows, txns[i]);
    NewIdIffUnmatched(ctx, rows, txns[j]);
    hide Fresh, ProcessAll, IsUnmatched, InBatch, HasNewId, Clean, NewIdsDiffer;
    var m := UnmatchedAreFresh(ctx, rows, [], txns, i);
    var n := UnmatchedAreFresh(ctx, rows, [], txns, j);
    NewRowFrom(ctx, rows, txns, r, m);
    NewRowFrom(ctx, rows, txns, r, n);
    assert Clash(r[|rows| + m], r[|rows| + n]);
  }

  /** The order of a wallet query plays no part for other accounts. */
  lemma {:induction false} OrderIsIrrelevant(ctx: Context, rows: seq<Row>, order: seq<nat>, txns: seq<Incoming>)
    requires ctx.kind != Web3 && InTable(rows, order)
    ensures ProcessAll(ctx, rows, order, txns) == ProcessAll(ctx, rows, [], txns)
  {
    hide FirstWithId, InBatch, Written, NewFields;
    if txns == [] {
    } else {
      OrderIsIrrelevant(ctx, rows, order, txns[..|txns| - 1]);
    }
  }

  /** The ids stored after the first sync. */
  lemma {:induction false} ExchangeIds(ctx: Context, rows: seq<Row>, txns: seq<Incoming>, c: seq<Row>)
    requires ExchangeSync(ctx, rows, txns, c)
    ensures Clean(c) && UniqueIds(c) && |c| == |rows| + |Fresh(ctx, rows, [], txns)|
    ensures forall k :: 0 <= k < |rows| ==> c[k].mem.externalId == rows[k].mem.externalId
    ensures forall m :: 0 <= m < |Fresh(ctx, rows, [], txns)| ==>
              c[|rows| + m].mem.externalId == txns[Fresh(ctx, rows, [], txns)[m]].txId
  {
    ExchangeRows(ctx, rows, txns, c);
    hide Writes, Fresh, UniqueIds, CommitOk, ProcessAll, Committed;
    forall k | 0 <= k < |rows|
      ensures c[k].mem.externalId == rows[k].mem.externalId
    {
      WritesKeepId(ctx, rows, txns, k);
    }
  }

  /** Every transaction of a committed exchange batch has a row the next time. */
  lemma {:induction false} EveryIdIsStored(
      ctx: Context, rows: seq<Row>, txns: seq<Incoming>, c: seq<Row>, i: nat)
    returns (a: nat)
    requires ExchangeSync(ctx, rows, txns, c) && i < |txns| && InBatch(ctx, txns[i])
    ensures a < |c| && c[a].db.Some? && c[a].db.value.externalId == txns[i].txId
    ensures Existing(ctx, c, [], txns[i]).Some?
  {
    hide *;
    ExchangeIds(ctx, rows, txns, c);
    StartsClean(ctx, rows, txns, c);
    FoundById(ctx, rows, txns[i]);
    var e := Existing(ctx, rows, [], txns[i]);
    if e.Some? {
      a := e.value;
      IsStoredAs(rows, a);
    } else {
      NotFoundIsUnmatched(ctx, rows, txns[i]);
      var m := UnmatchedAreFresh(ctx, rows, [], txns, i);
      a := |rows| + m;
    }
    IsStoredAs(c, a);
    FoundById(ctx, c, txns[i]);
  }

  lemma {:induction false} StartsClean(ctx: Context, rows: seq<Row>, txns: seq<Incoming>, c: seq<Row>)
    requires ExchangeSync(ctx, rows, txns, c)
    ensures ctx.kind != Web3 && Clean(rows)
  {
  }

  lemma {:induction false} IsStoredAs(rows: seq<Row>, k: nat)
    requires Clean(rows) && k < |rows|
    ensures rows[k].db == Some(rows[k].mem)
  {
  }

  /** Accounts that are not wallets find a stored row by its whole id. */
  lemma {:induction false} FoundById(ctx: Context, rows: seq<Row>, t: Incoming)
    requires ctx.kind != Web3
    ensures InTable(rows, [])
    ensures Existing(ctx, rows, [], t) == FirstWithId(rows, t.txId)
  {
  }

  lemma {:induction false} NotFoundIsUnmatched(ctx: Context, rows: seq<Row>, t: Incoming)
    requires InTable(rows, []) && InBatch(ctx, t) && Existing(ctx, rows, [], t).None?
    ensures IsUnmatched(ctx, rows, [], t)
  {
  }

  lemma {:induction false} NothingFresh(ctx: Context, c: seq<Row>, order: seq<nat>, txns: seq<Incoming>)
    requires InTable(c, order)
    requires forall i :: 0 <= i < |txns| && InBatch(ctx, txns[i]) ==> Existing(ctx, c, order, txns[i]).Some?
    ensures Fresh(ctx, c, order, txns) == []
  {
    hide InBatch, Existing;
    if txns == [] {
    } else {
      NothingFresh(ctx, c, order, txns[..|txns| - 1]);
    }
  }

  /** Re-syncing a committed exchange batch never creates a row. */
  lemma {:induction false} ExchangeResyncCreatesNothing(ctx: Context, rows: seq<Row>, txns: seq<Incoming>, c: seq<Row>)
    requires ExchangeSync(ctx, rows, txns, c)
    ensures Fresh(ctx, c, [], txns) == []
    ensures |ProcessAll(ctx, c, [], txns)| == |c|
  {
    hide ExchangeSync, InBatch, Existing, Process;
    forall i | 0 <= i < |txns| && InBatch(ctx, txns[i])
      ensures Existing(ctx, c, [], txns[i]).Some?
    {
      var a := EveryIdIsStored(ctx, rows, txns, c, i);
    }
    NothingFresh(ctx, c, [], txns);
    CreatedFrom(ctx, c, [], txns);
    BatchInClosedForm(ctx, c, [], txns);
  }

  /** A row that is not the first with its id gets no update; the first gets them all. */
  lemma {:induction false} ExchangeReceives(ctx: Context, c: seq<Row>, txns: seq<Incoming>, a: nat)
    requires ctx.kind != Web3 && Clean(c) && a < |c|
    ensures var id := c[a].mem.externalId;
            if FirstWithId(c, id) == Some(a)
                then Receives(ctx, c, [], txns, a, id)
                else ReceivesNothing(ctx, c, [], txns, a)
  {
    hide InBatch, FirstWithId;
    assert forall t: Incoming :: Existing(ctx, c, [], t) == FirstWithId(c, IdOf(ctx.kind, t));
  }

  /** The first transaction without an id. */
  function FirstIdless(ctx: Context, txns: seq<Incoming>): (r: Option<nat>)
    ensures r.Some? ==> r.value < |txns| && Targets(ctx, txns[r.value], None)
  {
    if txns == [] then None
    else
      var n := |txns| - 1;
      var before := FirstIdless(ctx, txns[..n]);
      if before.Some? then before else if Targets(ctx, txns[n], None) then Some(n) else None
  }

  lemma {:induction false} FirstIdlessIsFirst(ctx: Context, txns: seq<Incoming>, j: nat)
    requires j < |txns| && Targets(ctx, txns[j], None)
    ensures FirstIdless(ctx, txns).Some? && FirstIdless(ctx, txns).value <= j
  {
    hide Targets;
    if j < |txns| - 1 {
      FirstIdlessIsFirst(ctx, txns[..|txns| - 1], j);
    }
  }

  predicate HasIdlessRow(rows: seq<Row>) {
    exists k :: 0 <= k < |rows| && rows[k].mem.externalId.None?
  }

  /** The last transaction with a given id. */
  function LastWriter(ctx: Context, txns: seq<Incoming>, id: Option<string>): (r: Option<nat>)
    ensures r.Some? ==> r.value < |txns| && Targets(ctx, txns[r.value], id)
    ensures r.Some? <==> HasWriter(ctx, txns, id)
  {
    if txns == [] then None
    else
      var n := |txns| - 1;
      if Targets(ctx, txns[n], id) then Some(n)
      else
        assert HasWriter(ctx, txns, id) <==> HasWriter(ctx, txns[..n], id);
        LastWriter(ctx, txns[..n], id)
  }

  /** Two transactions agree in everything they write but the currency. */
  predicate SameWrite(ctx: Context, s: Incoming, t: Incoming) {
    s.date == t.date && Signed(ctx.kind, s) == Signed(ctx.kind, t) && ctx.labels(s) == ctx.labels(t) && s.raw == t.raw
  }

  /** The condition under which re-syncing leaves every field alone: transactions without an id all
      fall on one row, so either that row was there already, or there are none, or the last one
      repeats the first and no later one names another currency. */
  predicate IdlessAgree(ctx: Context, rows: seq<Row>, txns: seq<Incoming>) {
    var first, last := FirstIdless(ctx, txns), LastWriter(ctx, txns, None);
    || HasIdlessRow(rows)
    || first.None?
    || last.None?
    || (var created := NewFields(ctx, txns[first.value]);
        SameWrite(ctx, txns[first.value], txns[last.value])
        && Currency(ctx, txns, None, created.currency) == created.currency)
  }

  /** All the updates of one id together write what the last one brings, in the last currency named. */
  lemma {:induction false} FoldIsLastWrite(ctx: Context, txns: seq<Incoming>, id: Option<string>, f: Fields)
    ensures var last := LastWriter(ctx, txns, id);
            Fold(ctx, txns, id, f) ==
            if last.None? then f
            else Written(ctx, f, txns[last.value]).(currency := Currency(ctx, txns, id, f.currency))
  {
    hide Targets, Signed, HasWriter;
    if txns == [] {
    } else {
      var n := |txns| - 1;
      FoldIsLastWrite(ctx, txns[..n], id, f);
      FoldDependsOnCurrency(ctx, txns[..n], id, f, f);
      if Targets(ctx, txns[n], id) {
        WrittenTakesCurrency(ctx, f, Fold(ctx, txns[..n], id, f), txns[n]);
      }
    }
  }

  lemma {:induction false} WrittenTakesCurrency(ctx: Context, f: Fields, g: Fields, t: Incoming)
    ensures Written(ctx, g, t)
            == Written(ctx, f, t).(currency := if Truthy(t.currency) then t.currency.value else g.currency)
  {
    hide Signed, IdOf;
  }

  lemma {:induction false} CreatedStays(ctx: Context, txns: seq<Incoming>, i: nat)
    requires ctx.kind != Web3 && i < |txns| && Targets(ctx, txns[i], None)
    ensures var last := LastWriter(ctx, txns, None);
            var created := NewFields(ctx, txns[i]);
            last.Some? && (Fold(ctx, txns, None, created) == created
                           <==> SameWrite(ctx, txns[i], txns[last.value])
                                && Currency(ctx, txns, None, created.currency) == created.currency)
  {
    hide Fold, Currency, LastWriter, Signed;
    FoldIsLastWrite(ctx, txns, None, NewFields(ctx, txns[i]));
    assert HasWriter(ctx, txns, None);
  }

  lemma {:induction false} StoredRowStable(ctx: Context, rows: seq<Row>, txns: seq<Incoming>, c: seq<Row>, a: nat)
    requires ExchangeSync(ctx, rows, txns, c) && a < |rows|
    ensures a < |c| && Writes(ctx, c, [], txns, a, c[a].mem) == c[a].mem
  {
    ExchangeIds(ctx, rows, txns, c);
    ExchangeRows(ctx, rows, txns, c);
    hide Fresh, UniqueIds, CommitOk, ProcessAll, Committed, Writes, Fold, Receives, ReceivesNothing;
    var id := c[a].mem.externalId;
    ExchangeReceives(ctx, c, txns, a);
    ExchangeReceives(ctx, rows, txns, a);
    if FirstWithId(c, id) == Some(a) {
      assert FirstWithId(rows, id) == Some(a) by {
        assert forall k :: 0 <= k < a ==>
            c[k].db.Some? && rows[k].db.Some? && c[k].db.value.externalId == rows[k].db.value.externalId;
      }
      WritesIsFold(ctx, rows, [], txns, a, rows[a].mem, id);
      WritesIsFold(ctx, c, [], txns, a, c[a].mem, id);
      FoldTwice(ctx, txns, id, rows[a].mem);
    } else {
      WritesNothing(ctx, c, [], txns, a, c[a].mem);
    }
  }

  lemma {:induction false} IdlessAppend(ctx: Context, rows: seq<Row>, txns: seq<Incoming>, c: seq<Row>, m: nat)
    requires ExchangeSync(ctx, rows, txns, c) && m < |Fresh(ctx, rows, [], txns)|
    ensures |rows| + m < |c|
    ensures c[|rows| + m].mem == NewFields(ctx, txns[Fresh(ctx, rows, [], txns)[m]])
    ensures c[|rows| + m].mem.externalId == txns[Fresh(ctx, rows, [], txns)[m]].txId
    ensures IsUnmatched(ctx, rows, [], txns[Fresh(ctx, rows, [], txns)[m]])
    ensures forall k :: 0 <= k < |rows| ==> rows[k].mem.externalId != c[|rows| + m].mem.externalId
    ensures Targets(ctx, txns[Fresh(ctx, rows, [], txns)[m]], c[|rows| + m].mem.externalId)
  {
    ExchangeRows(ctx, rows, txns, c);
    ExchangeIds(ctx, rows, txns, c);
    FreshAreUnmatched(ctx, rows, [], txns);
    hide Fresh, UniqueIds, CommitOk, ProcessAll, Committed, Writes, InBatch;
    var t := txns[Fresh(ctx, rows, [], txns)[m]];
    assert IsUnmatched(ctx, rows, [], t);
    assert forall k :: 0 <= k < |rows| ==> rows[k].db.Some?;
  }

  /** A new row with an id was created by the only transaction that carries it. */
  lemma {:induction false} NewRowWithIdStable(ctx: Context, rows: seq<Row>, txns: seq<Incoming>, c: seq<Row>, m: nat)
    requires ExchangeSync(ctx, rows, txns, c) && m < |Fresh(ctx, rows, [], txns)|
    requires txns[Fresh(ctx, rows, [], txns)[m]].txId.Some?
    ensures |rows| + m < |c|
    ensures Writes(ctx, c, [], txns, |rows| + m, c[|rows| + m].mem) == c[|rows| + m].mem
  {
    hide *;
    EmptyOrder(rows);
    EmptyOrder(c);
    var a, i := |rows| + m, Fresh(ctx, rows, [], txns)[m];
    IdlessAppend(ctx, rows, txns, c, m);
    ExchangeIds(ctx, rows, txns, c);
    NotWeb3(ctx, rows, txns, c);
    var id := c[a].mem.externalId;
    forall j | 0 <= j < |txns| && j != i
      ensures !Targets(ctx, txns[j], id)
    {
      OneTransactionPerNewRow(ctx, rows, txns, c, m, j);
    }
    ExchangeReceives(ctx, c, txns, a);
    ExchangeRowsStored(ctx, rows, txns, c);
    UniqueIsFirst(c, a);
    WritesIsFold(ctx, c, [], txns, a, c[a].mem, id);
    OnlyWriter(ctx, txns, id, i);
  }

  lemma {:induction false} UniqueIsFirst(c: seq<Row>, a: nat)
    requires UniqueIds(c) && a < |c| && c[a].mem.externalId.Some?
    requires forall k :: 0 <= k < |c| ==> c[k].db == Some(c[k].mem)
    ensures FirstWithId(c, c[a].mem.externalId) == Some(a)
  {
    hide FirstWithId;
  }

  /** Another transaction with the same id would have added a second row under it. */
  lemma {:induction false} OneTransactionPerNewRow(
      ctx: Context, rows: seq<Row>, txns: seq<Incoming>, c: seq<Row>, m: nat, j: nat)
    requires ExchangeSync(ctx, rows, txns, c) && m < |Fresh(ctx, rows, [], txns)|
    requires txns[Fresh(ctx, rows, [], txns)[m]].txId.Some?
    requires j < |txns| && j != Fresh(ctx, rows, [], txns)[m]
    ensures |rows| + m < |c| && !Targets(ctx, txns[j], c[|rows| + m].mem.externalId)
  {
    IdlessAppend(ctx, rows, txns, c, m);
    ExchangeIds(ctx, rows, txns, c);
    var id := c[|rows| + m].mem.externalId;
    if Targets(ctx, txns[j], id) {
      hide Fresh, CommitOk, ProcessAll, Committed, Process, NewFields;
      assert IsUnmatched(ctx, rows, [], txns[j]);
      var n := UnmatchedAreFresh(ctx, rows, [], txns, j);
    }
  }

  /** A new row without an id: only the first of them is written again. */
  lemma {:induction false} NewIdlessRow(ctx: Context, rows: seq<Row>, txns: seq<Incoming>, c: seq<Row>, m: nat)
    requires ExchangeSync(ctx, rows, txns, c) && m < |Fresh(ctx, rows, [], txns)|
    requires txns[Fresh(ctx, rows, [], txns)[m]].txId.None?
    ensures |rows| + m < |c| && !HasIdlessRow(rows) && FirstIdless(ctx, txns).Some?
    ensures var i := FirstIdless(ctx, txns).value;
            var a := |rows| + m;
            if Fresh(ctx, rows, [], txns)[m] == i
            then c[a].mem == NewFields(ctx, txns[i])
                && Writes(ctx, c, [], txns, a, c[a].mem) == Fold(ctx, txns, None, c[a].mem)
            else Writes(ctx, c, [], txns, a, c[a].mem) == c[a].mem
  {
    assert InTable(c, []);
    hide *;
    var a := |rows| + m;
    IdlessAppend(ctx, rows, txns, c, m);
    NotWeb3(ctx, rows, txns, c);
    ExchangeIds(ctx, rows, txns, c);
    NoIdlessRow(rows, c, a);
    var n := IdlessPosition(ctx, rows, txns, c, m);
    IdlessFirst(ctx, rows, txns, c, m, n);
    ExchangeReceives(ctx, c, txns, a);
    if n == m {
      WritesIsFold(ctx, c, [], txns, a, c[a].mem, None);
    } else {
      FreshIncrease(ctx, rows, txns, if m < n then m else n, if m < n then n else m);
      WritesNothing(ctx, c, [], txns, a, c[a].mem);
    }
  }

  lemma {:induction false} NoIdlessRow(rows: seq<Row>, c: seq<Row>, a: nat)
    requires a < |c| && c[a].mem.externalId == None
    requires forall k :: 0 <= k < |rows| ==> rows[k].mem.externalId != c[a].mem.externalId
    ensures !HasIdlessRow(rows)
  {
  }

  lemma {:induction false} FreshIncrease(ctx: Context, rows: seq<Row>, txns: seq<Incoming>, m: nat, n: nat)
    requires m < n < |Fresh(ctx, rows, [], txns)|
    ensures Fresh(ctx, rows, [], txns)[m] < Fresh(ctx, rows, [], txns)[n]
  {
    hide Fresh;
    FreshAreUnmatched(ctx, rows, [], txns);
  }

  lemma {:induction false} IdlessPosition(
      ctx: Context, rows: seq<Row>, txns: seq<Incoming>, c: seq<Row>, m: nat)
    returns (n: nat)
    requires ExchangeSync(ctx, rows, txns, c) && m < |Fresh(ctx, rows, [], txns)|
    requires txns[Fresh(ctx, rows, [], txns)[m]].txId.None?
    ensures n < |Fresh(ctx, rows, [], txns)| && FirstIdless(ctx, txns) == Some(Fresh(ctx, rows, [], txns)[n])
  {
    IdlessAppend(ctx, rows, txns, c, m);
    hide Fresh, CommitOk, ProcessAll, Committed, NewFields, FirstIdless, UniqueIds;
    FirstIdlessIsFirst(ctx, txns, Fresh(ctx, rows, [], txns)[m]);
    var i := FirstIdless(ctx, txns).value;
    IdlessTarget(ctx, txns);
    assert IsUnmatched(ctx, rows, [], txns[i]);
    n := UnmatchedAreFresh(ctx, rows, [], txns, i);
  }

  /** The ids of the new rows, in the order of their transactions. */
  lemma {:induction false} NoIdlessBefore(
      ctx: Context, rows: seq<Row>, txns: seq<Incoming>, c: seq<Row>, n: nat, k: nat)
    requires ExchangeSync(ctx, rows, txns, c) && n < |Fresh(ctx, rows, [], txns)|
    requires FirstIdless(ctx, txns) == Some(Fresh(ctx, rows, [], txns)[n]) && k < |rows| + n
    ensures |rows| + n < |c| && c[|rows| + n].mem.externalId == None && c[k].mem.externalId != None
  {
    hide *;
    EmptyOrder(rows);
    NotWeb3(ctx, rows, txns, c);
    IdlessAppend(ctx, rows, txns, c, n);
    IdlessTarget(ctx, txns);
    if |rows| <= k {
      var p := k - |rows|;
      IdlessAppend(ctx, rows, txns, c, p);
      FreshIncrease(ctx, rows, txns, p, n);
      if c[k].mem.externalId == None {
        FirstIdlessIsFirst(ctx, txns, Fresh(ctx, rows, [], txns)[p]);
      }
    } else {
      ExchangeIds(ctx, rows, txns, c);
    }
  }

  lemma {:induction false} EmptyOrder(rows: seq<Row>)
    ensures InTable(rows, [])
  {
  }

  lemma {:induction false} ExchangeRowsStored(ctx: Context, rows: seq<Row>, txns: seq<Incoming>, c: seq<Row>)
    requires ExchangeSync(ctx, rows, txns, c)
    ensures forall k :: 0 <= k < |c| ==> c[k].db == Some(c[k].mem)
  {
    ExchangeIds(ctx, rows, txns, c);
  }

  lemma {:induction false} IdlessTarget(ctx: Context, txns: seq<Incoming>)
    requires FirstIdless(ctx, txns).Some? && ctx.kind != Web3
    ensures txns[FirstIdless(ctx, txns).value].txId == None
  {
    hide FirstIdless;
  }

  lemma {:induction false} IdlessFirst(ctx: Context, rows: seq<Row>, txns: seq<Incoming>, c: seq<Row>, m: nat, n: nat)
    requires ExchangeSync(ctx, rows, txns, c)
    requires m < |Fresh(ctx, rows, [], txns)| && n < |Fresh(ctx, rows, [], txns)|
    requires txns[Fresh(ctx, rows, [], txns)[m]].txId.None?
    requires FirstIdless(ctx, txns) == Some(Fresh(ctx, rows, [], txns)[n])
    ensures |rows| + m < |c|
    ensures FirstWithId(c, None) == Some(|rows| + m) <==> n == m
  {
    hide *;
    IdlessAppend(ctx, rows, txns, c, n);
    IdlessAppend(ctx, rows, txns, c, m);
    ExchangeRowsStored(ctx, rows, txns, c);
    NotWeb3(ctx, rows, txns, c);
    IdlessTarget(ctx, txns);
    forall k | 0 <= k < |rows| + n
      ensures c[k].db.Some? && c[k].db.value.externalId != None
    {
      NoIdlessBefore(ctx, rows, txns, c, n, k);
    }
    FirstIs(c, None, |rows| + n);
  }

  lemma {:induction false} FirstIs(c: seq<Row>, id: Option<string>, a: nat)
    requires a < |c| && c[a].db.Some? && c[a].db.value.externalId == id
    requires forall k :: 0 <= k < a ==> c[k].db.Some? && c[k].db.value.externalId != id
    ensures FirstWithId(c, id) == Some(a)
  {
    hide FirstWithId;
  }

  /** Re-syncing a committed exchange batch leaves every stored field unchanged exactly when the
      transactions without an id agree. */
  lemma {:induction false} ExchangeResyncUnchangedIff(ctx: Context, rows: seq<Row>, txns: seq<Incoming>, c: seq<Row>)
    requires ExchangeSync(ctx, rows, txns, c)
    ensures ProcessAll(ctx, c, [], txns) == c <==> IdlessAgree(ctx, rows, txns)
  {
    ExchangeResyncCreatesNothing(ctx, rows, txns, c);
    ExchangeIds(ctx, rows, txns, c);
    BatchInClosedForm(ctx, c, [], txns);
    hide ExchangeSync, Fresh, Writes, Fold, Process, FirstIdless, HasIdlessRow, UniqueIds;
    var again := ProcessAll(ctx, c, [], txns);
    forall a | 0 <= a < |c|
      ensures again[a] == c[a] <==> Writes(ctx, c, [], txns, a, c[a].mem) == c[a].mem
    {
      NotWeb3(ctx, rows, txns, c);
      NoPending(ctx, c, [], txns, a);
    }
    if IdlessAgree(ctx, rows, txns) {
      forall a | 0 <= a < |c|
        ensures again[a] == c[a]
      {
        RowStable(ctx, rows, txns, c, a);
      }
      assert again == c;
    } else {
      var a := ChangedRow(ctx, rows, txns, c);
    }
  }

  /** When every transaction carries an id, syncing a committed batch again changes nothing at all. */
  lemma {:induction false} ExchangeResyncUnchanged(ctx: Context, rows: seq<Row>, txns: seq<Incoming>, c: seq<Row>)
    requires ExchangeSync(ctx, rows, txns, c)
    requires forall i :: 0 <= i < |txns| && InBatch(ctx, txns[i]) ==> txns[i].txId.Some?
    ensures ProcessAll(ctx, c, [], txns) == c
  {
    hide *;
    ExchangeResyncUnchangedIff(ctx, rows, txns, c);
    NotWeb3(ctx, rows, txns, c);
    if FirstIdless(ctx, txns).Some? {
      IdlessTarget(ctx, txns);
      TargetInBatch(ctx, txns[FirstIdless(ctx, txns).value]);
    } else {
      NoIdlessAgrees(ctx, rows, txns);
    }
  }

  lemma {:induction false} TargetInBatch(ctx: Context, t: Incoming)
    requires Targets(ctx, t, None)
    ensures InBatch(ctx, t)
  {
  }

  lemma {:induction false} NoIdlessAgrees(ctx: Context, rows: seq<Row>, txns: seq<Incoming>)
    requires FirstIdless(ctx, txns).None?
    ensures IdlessAgree(ctx, rows, txns)
  {
  }

  lemma {:induction false} NotWeb3(ctx: Context, rows: seq<Row>, txns: seq<Incoming>, c: seq<Row>)
    requires ExchangeSync(ctx, rows, txns, c)
    ensures ctx.kind != Web3 && Clean(rows)
  {
  }

  lemma {:induction false} RowStable(ctx: Context, rows: seq<Row>, txns: seq<Incoming>, c: seq<Row>, a: nat)
    requires ExchangeSync(ctx, rows, txns, c) && IdlessAgree(ctx, rows, txns) && a < |c|
    ensures Writes(ctx, c, [], txns, a, c[a].mem) == c[a].mem
  {
    hide *;
    EmptyOrder(rows);
    ExchangeIds(ctx, rows, txns, c);
    NotWeb3(ctx, rows, txns, c);
    if a < |rows| {
      StoredRowStable(ctx, rows, txns, c, a);
    } else if txns[Fresh(ctx, rows, [], txns)[a - |rows|]].txId.Some? {
      NewRowWithIdStable(ctx, rows, txns, c, a - |rows|);
    } else {
      NewIdlessRow(ctx, rows, txns, c, a - |rows|);
      AgreeStays(ctx, rows, txns);
    }
  }

  lemma {:induction false} AgreeStays(ctx: Context, rows: seq<Row>, txns: seq<Incoming>)
    requires ctx.kind != Web3 && FirstIdless(ctx, txns).Some? && !HasIdlessRow(rows)
    ensures var i := FirstIdless(ctx, txns).value;
            IdlessAgree(ctx, rows, txns)
            <==> Fold(ctx, txns, None, NewFields(ctx, txns[i])) == NewFields(ctx, txns[i])
  {
    hide Fold, Currency, LastWriter, Signed, FirstIdless, HasIdlessRow, SameWrite;
    CreatedStays(ctx, txns, FirstIdless(ctx, txns).value);
  }

  lemma {:induction false} DisagreeUnmatched(ctx: Context, rows: seq<Row>, txns: seq<Incoming>)
    requires ctx.kind != Web3 && Clean(rows) && !IdlessAgree(ctx, rows, txns)
    ensures InTable(rows, []) && !HasIdlessRow(rows)
    ensures FirstIdless(ctx, txns).Some? && IsUnmatched(ctx, rows, [], txns[FirstIdless(ctx, txns).value])
    ensures txns[FirstIdless(ctx, txns).value].txId.None?
  {
    hide FirstIdless, LastWriter, Currency, NewFields;
  }

  lemma {:induction false} ChangedRow(ctx: Context, rows: seq<Row>, txns: seq<Incoming>, c: seq<Row>) returns (a: nat)
    requires ExchangeSync(ctx, rows, txns, c) && !IdlessAgree(ctx, rows, txns)
    ensures a < |c| && Writes(ctx, c, [], txns, a, c[a].mem) != c[a].mem
  {
    hide *;
    NotWeb3(ctx, rows, txns, c);
    DisagreeUnmatched(ctx, rows, txns);
    AgreeStays(ctx, rows, txns);
    var m := UnmatchedAreFresh(ctx, rows, [], txns, FirstIdless(ctx, txns).value);
    NewIdlessRow(ctx, rows, txns, c, m);
    a := |rows| + m;
  }
}
