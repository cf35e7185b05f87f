/** What a wallet batch keeps and creates. */
module SyncOutcomes {
  import opened Text
  import opened UnitOfWork
  import opened SyncStore
  import opened SyncProofs
  import opened WalletSync

  // ----- The transactions that create rows -----

  /** The positions of the transactions that find no row. */
  function Fresh(ctx: Context, rows: seq<Row>, order: seq<nat>, txns: seq<Incoming>): (r: seq<nat>)
    requires InTable(rows, order)
    ensures forall m :: 0 <= m < |r| ==> r[m] < |txns|
  {
    if txns == [] then []
    else
      var n := |txns| - 1;
      var before := Fresh(ctx, rows, order, txns[..n]);
      if IsUnmatched(ctx, rows, order, txns[n]) then before + [n] else before
  }

  predicate IsUnmatched(ctx: Context, rows: seq<Row>, order: seq<nat>, t: Incoming)
    requires InTable(rows, order)
  {
    InBatch(ctx, t) && Existing(ctx, rows, order, t).None?
  }

  lemma {:induction false} FreshAreUnmatched(ctx: Context, rows: seq<Row>, order: seq<nat>, txns: seq<Incoming>)
    requires InTable(rows, order)
    ensures forall m :: 0 <= m < |Fresh(ctx, rows, order, txns)| ==>
              IsUnmatched(ctx, rows, order, txns[Fresh(ctx, rows, order, txns)[m]])
    ensures forall m, n :: 0 <= m < n < |Fresh(ctx, rows, order, txns)| ==>
              Fresh(ctx, rows, order, txns)[m] < Fresh(ctx, rows, order, txns)[n]
  {
    hide IsUnmatched;
    if txns == [] {
    } else {
      FreshAreUnmatched(ctx, rows, order, txns[..|txns| - 1]);
    }
  }

  lemma {:induction false} UnmatchedAreFresh(
      ctx: Context, rows: seq<Row>, order: seq<nat>, txns: seq<Incoming>, i: nat) returns (m: nat)
    requires InTable(rows, order) && i < |txns| && IsUnmatched(ctx, rows, order, txns[i])
    ensures m < |Fresh(ctx, rows, order, txns)| && Fresh(ctx, rows, order, txns)[m] == i
  {
    hide IsUnmatched;
    if i < |txns| - 1 {
      m := UnmatchedAreFresh(ctx, rows, order, txns[..|txns| - 1], i);
    } else {
      m := |Fresh(ctx, rows, order, txns[..|txns| - 1])|;
    }
  }

  lemma {:induction false} CreatedFrom(ctx: Context, rows: seq<Row>, order: seq<nat>, txns: seq<Incoming>)
    requires InTable(rows, order)
    ensures |Created(ctx, rows, order, txns)| == |Fresh(ctx, rows, order, txns)|
    ensures forall m :: 0 <= m < |Fresh(ctx, rows, order, txns)| ==>
              Created(ctx, rows, order, txns)[m]
                  == Row(None, NewFields(ctx, txns[Fresh(ctx, rows, order, txns)[m]]), false)
  {
    hide Existing, InBatch, NewFields;
    if txns == [] {
    } else {
      var n := |txns| - 1;
      CreatedFrom(ctx, rows, order, txns[..n]);
    }
  }

  // ----- No key is lost by a batch -----

  lemma {:induction false} StoredKeyHalfway(
      ctx: Context, rows: seq<Row>, order: seq<nat>, fmt: Formats, txns: seq<Incoming>, r: seq<Row>, k: nat)
    requires WalletBatch(ctx, rows, order, fmt, txns, r) && k < |rows|
    ensures k < |ProcessAll(ctx, rows, order, txns)|
    ensures Key(ProcessAll(ctx, rows, order, txns)[k].mem, fmt) == Key(rows[k].mem, fmt)
  {
    hide Key, Base, Deduped, Process, Writes, Pending, Created, HasBases;
    var mid := Halfway(ctx, rows, order, fmt, txns, r);
    WritesKeepBase(ctx, rows, order, txns, k, rows[k].mem);
    if Base(rows[k].mem) != "" {
      KeyOfBase(rows[k].mem, fmt);
      KeyOfBase(mid[k].mem, fmt);
    }
  }

  /** Every key stored before the batch is still held by a live row after it. */
  lemma {:induction false} BatchLosesNoKey(
      ctx: Context, rows: seq<Row>, order: seq<nat>, fmt: Formats, txns: seq<Incoming>, r: seq<Row>, k: nat)
    returns (s: nat)
    requires WalletBatch(ctx, rows, order, fmt, txns, r) && k < |rows|
    ensures s < |r| && !r[s].deleted && Key(r[s].mem, fmt) == Key(rows[k].mem, fmt)
  {
    var mid := Halfway(ctx, rows, order, fmt, txns, r);
    FirstsAreLive(ctx, rows, order, fmt, txns, r);
    StoredKeyHalfway(ctx, rows, order, fmt, txns, r, k);
    var i := CleanOrder(rows, order, k);
    hide Key, Deduped, Process, FirstsLive, HasBases, BatchForm, ProcessAll;
    s := KeySurvives(mid, order, fmt, r, i);
  }

  /** And every transaction of the batch is held under its base id. */
  lemma {:induction false} BatchStoresEveryHash(
      ctx: Context, rows: seq<Row>, order: seq<nat>, fmt: Formats, txns: seq<Incoming>, r: seq<Row>, i: nat)
    returns (s: nat)
    requires WalletBatch(ctx, rows, order, fmt, txns, r) && i < |txns| && InBatch(ctx, txns[i])
    ensures HasBase(txns[i]) && s < |r| && !r[s].deleted && Key(r[s].mem, fmt) == BaseOf(txns[i])
  {
    hide Key, Base, Deduped, Process, Existing, NewFields;
    WalletTarget(ctx, rows, order, txns[i]);
    var e := Existing(ctx, rows, order, txns[i]);
    if e.Some? {
      KeyOfBase(rows[e.value].mem, fmt);
      s := BatchLosesNoKey(ctx, rows, order, fmt, txns, r, e.value);
    } else {
      var m := UnmatchedAreFresh(ctx, rows, order, txns, i);
      s := |rows| + m;
      NewRowAt(ctx, rows, order, fmt, txns, r, m);
      NewFieldsBase(ctx, txns[i]);
      KeyOfBase(r[s].mem, fmt);
    }
  }

  lemma {:induction false} NewFieldsBase(ctx: Context, t: Incoming)
    requires ctx.kind == Web3 && HasBase(t)
    ensures NewFields(ctx, t).externalId == Some(BaseOf(t)) && Base(NewFields(ctx, t)) == BaseOf(t)
  {
    BaseIsTruthy(t);
    NoColonKept(BaseOf(t));
  }

  lemma {:induction false} RowsOfBatch(
      ctx: Context, rows: seq<Row>, order: seq<nat>, fmt: Formats, txns: seq<Incoming>, r: seq<Row>)
    requires WalletBatch(ctx, rows, order, fmt, txns, r)
    ensures |r| == |rows| + |Created(ctx, rows, order, txns)|
  {
    hide Process, HasBases, Clean, Writes, Pending, Created;
    var mid := Halfway(ctx, rows, order, fmt, txns, r);
  }

  // ----- A settled account: what a committed wallet sync leaves -----

  /** Nothing pending, every row stored under its own base id, and no base id twice. */
  ghost predicate Settled(rows: seq<Row>) {
    && Clean(rows) && UniqueIds(rows)
    && forall k :: 0 <= k < |rows| ==> Base(rows[k].mem) != "" && rows[k].mem.externalId == Some(Base(rows[k].mem))
  }

  lemma {:induction false} CommitSettles(
      ctx: Context, rows: seq<Row>, order: seq<nat>, fmt: Formats, txns: seq<Incoming>, r: seq<Row>)
    requires WalletBatch(ctx, rows, order, fmt, txns, r) && CommitOk(r)
    requires forall k :: 0 <= k < |rows| ==> Base(rows[k].mem) != ""
    ensures Settled(Committed(r))
  {
    hide Base, Committed, WalletBatch, CommitOk;
    CommittedRows(r);
    var c := Committed(r);
    forall i | 0 <= i < |c|
      ensures Base(c[i].mem) != "" && c[i].mem.externalId == Some(Base(c[i].mem))
    {
      var a := Live(r)[i];
      if a < |rows| {
        StoredRowAfter(ctx, rows, order, fmt, txns, r, a);
      } else {
        NewRowAfter(ctx, rows, order, fmt, txns, r, a);
      }
      SettledId(ctx, rows, order, fmt, txns, r, a);
    }
    forall i, j | 0 <= i < |c| && 0 <= j < |c| && i != j
      ensures c[i].mem.externalId != c[j].mem.externalId
    {
      OneRowPerBase(ctx, rows, order, fmt, txns, r, i, j);
    }
  }

  /** On a settled account a batch deletes nothing and leaves every stored id alone. */
  lemma {:induction false} SettledKeepsRows(
      ctx: Context, rows: seq<Row>, order: seq<nat>, fmt: Formats, txns: seq<Incoming>, r: seq<Row>, a: nat)
    requires WalletBatch(ctx, rows, order, fmt, txns, r) && Settled(rows) && a < |rows|
    ensures a < |r| && !r[a].deleted && r[a].mem.externalId == rows[a].mem.externalId
    ensures r[a].mem == Normalized(Writes(ctx, rows, order, txns, a, rows[a].mem), fmt)
  {
    var mid := Halfway(ctx, rows, order, fmt, txns, r);
    var i := CleanOrder(rows, order, a);
    hide Base, Deduped, Process, Key, Writes, Pending, Created, Normalized, SeenBefore, HasBases;
    SettledFirst(ctx, rows, order, fmt, txns, r, i);
    DedupedRowIs(mid, order, fmt, i);
    if Pending(ctx, rows, order, txns, a, false) {
      VictimFollows(ctx, rows, order, txns, i);
    }
    StoredRowAfter(ctx, rows, order, fmt, txns, r, a);
  }

  lemma {:induction false} SettledFirst(
      ctx: Context, rows: seq<Row>, order: seq<nat>, fmt: Formats, txns: seq<Incoming>, r: seq<Row>, i: nat)
    requires WalletBatch(ctx, rows, order, fmt, txns, r) && Settled(rows) && i < |order|
    ensures InTable(ProcessAll(ctx, rows, order, txns), order)
    ensures !SeenBefore(ProcessAll(ctx, rows, order, txns), order, fmt, i)
  {
    hide Base, Deduped, Process, Key, Writes, Pending, Created, HasBases;
    var mid := Halfway(ctx, rows, order, fmt, txns, r);
    if SeenBefore(mid, order, fmt, i) {
      var p :| 0 <= p < i && Key(mid[order[p]].mem, fmt) == Key(mid[order[i]].mem, fmt);
      StoredKeyHalfway(ctx, rows, order, fmt, txns, r, order[p]);
      StoredKeyHalfway(ctx, rows, order, fmt, txns, r, order[i]);
      KeyOfBase(rows[order[p]].mem, fmt);
      KeyOfBase(rows[order[i]].mem, fmt);
    }
  }

  // ----- The transactions with a new hash -----

  predicate IsNew(rows: seq<Row>, t: Incoming)
    requires HasBase(t)
  {
    forall k :: 0 <= k < |rows| ==> Base(rows[k].mem) != BaseOf(t)
  }

  /** No two transactions of the batch bring the same new hash. */
  ghost predicate NewHashesDiffer(ctx: Context, rows: seq<Row>, txns: seq<Incoming>)
    requires HasBases(ctx, txns)
  {
    forall i, j :: 0 <= i < j < |txns| && InBatch(ctx, txns[i]) && InBatch(ctx, txns[j]) && IsNew(rows, txns[i])
      ==> BaseOf(txns[i]) != BaseOf(txns[j])
  }

  lemma {:induction false} NewIffUnmatched(ctx: Context, rows: seq<Row>, order: seq<nat>, t: Incoming)
    requires ctx.kind == Web3 && Clean(rows) && Ordering(rows, order) && HasBase(t)
    ensures Existing(ctx, rows, order, t).None? <==> IsNew(rows, t)
  {
    hide Base, Existing;
    WalletTarget(ctx, rows, order, t);
    assert forall k :: 0 <= k < |rows| ==> rows[k].db == Some(rows[k].mem);
  }

  /** The row a transaction with a new hash creates. */
  lemma {:induction false} NewHashRow(
      ctx: Context, rows: seq<Row>, order: seq<nat>, fmt: Formats, txns: seq<Incoming>, r: seq<Row>, i: nat)
    returns (m: nat)
    requires WalletBatch(ctx, rows, order, fmt, txns, r) && i < |txns| && InBatch(ctx, txns[i])
    requires HasBase(txns[i]) && IsNew(rows, txns[i])
    ensures m < |Fresh(ctx, rows, order, txns)| && Fresh(ctx, rows, order, txns)[m] == i && |rows| + m < |r|
    ensures !r[|rows| + m].deleted && r[|rows| + m].mem.externalId == Some(BaseOf(txns[i]))
  {
    hide *;
    m := UnmatchedPosition(ctx, rows, order, fmt, txns, r, i);
    NewFieldsBase(ctx, txns[i]);
    NewRowAt(ctx, rows, order, fmt, txns, r, m);
  }

  lemma {:induction false} UnmatchedPosition(
      ctx: Context, rows: seq<Row>, order: seq<nat>, fmt: Formats, txns: seq<Incoming>, r: seq<Row>, i: nat)
    returns (m: nat)
    requires WalletBatch(ctx, rows, order, fmt, txns, r) && i < |txns| && InBatch(ctx, txns[i])
    requires HasBase(txns[i]) && IsNew(rows, txns[i])
    ensures InTable(rows, order) && ctx.kind == Web3
    ensures m < |Fresh(ctx, rows, order, txns)| && Fresh(ctx, rows, order, txns)[m] == i
  {
    NewIffUnmatched(ctx, rows, order, txns[i]);
    m := UnmatchedAreFresh(ctx, rows, order, txns, i);
  }

  lemma {:induction false} NewRowAt(
      ctx: Context, rows: seq<Row>, order: seq<nat>, fmt: Formats, txns: seq<Incoming>, r: seq<Row>, m: nat)
    requires WalletBatch(ctx, rows, order, fmt, txns, r) && m < |Fresh(ctx, rows, order, txns)|
    ensures |r| == |rows| + |Fresh(ctx, rows, order, txns)|
    ensures r[|rows| + m] == Row(None, NewFields(ctx, txns[Fresh(ctx, rows, order, txns)[m]]), false)
  {
    hide *;
    WalletInTable(ctx, rows, order, fmt, txns, r);
    CreatedFrom(ctx, rows, order, txns);
    RowsOfBatch(ctx, rows, order, fmt, txns, r);
    NewRowAfter(ctx, rows, order, fmt, txns, r, |rows| + m);
  }

  lemma {:induction false} WalletInTable(
      ctx: Context, rows: seq<Row>, order: seq<nat>, fmt: Formats, txns: seq<Incoming>, r: seq<Row>)
    requires WalletBatch(ctx, rows, order, fmt, txns, r)
    ensures InTable(rows, order) && Ordering(rows, order) && Clean(rows) && HasBases(ctx, txns) && ctx.kind == Web3
  {
  }

  lemma {:induction false} SameHashConflicts(
      ctx: Context, rows: seq<Row>, order: seq<nat>, fmt: Formats, txns: seq<Incoming>, r: seq<Row>)
    requires WalletBatch(ctx, rows, order, fmt, txns, r)
    requires !NewHashesDiffer(ctx, rows, txns)
    ensures !CommitOk(r)
  {
    var i, j :| 0 <= i < j < |txns| && InBatch(ctx, txns[i]) && InBatch(ctx, txns[j]) && IsNew(rows, txns[i])
                && BaseOf(txns[i]) == BaseOf(txns[j]);
    assert HasBase(txns[i]) && HasBase(txns[j]) && IsNew(rows, txns[j]);
    hide WalletBatch, HasBase, IsNew, InBatch, NewHashesDiffer, Fresh;
    var m := NewHashRow(ctx, rows, order, fmt, txns, r, i);
    var n := NewHashRow(ctx, rows, order, fmt, txns, r, j);
    assert m != n;
    assert Clash(r[|rows| + m], r[|rows| + n]);
  }

  lemma {:induction false} NewRowsDiffer(
      ctx: Context, rows: seq<Row>, order: seq<nat>, fmt: Formats, txns: seq<Incoming>, r: seq<Row>, a: nat, b: nat)
    requires WalletBatch(ctx, rows, order, fmt, txns, r) && NewHashesDiffer(ctx, rows, txns)
    requires |rows| <= a < |r| && |rows| <= b < |r| && a != b
    ensures r[a].mem.externalId != r[b].mem.externalId
  {
    hide *;
    WalletInTable(ctx, rows, order, fmt, txns, r);
    RowsOfBatch(ctx, rows, order, fmt, txns, r);
    CreatedFrom(ctx, rows, order, txns);
    FreshAreUnmatched(ctx, rows, order, txns);
    var firsts := Fresh(ctx, rows, order, txns);
    NewRowAt(ctx, rows, order, fmt, txns, r, a - |rows|);
    NewRowAt(ctx, rows, order, fmt, txns, r, b - |rows|);
    UnmatchedBrings(ctx, rows, order, txns, firsts[a - |rows|]);
    UnmatchedBrings(ctx, rows, order, txns, firsts[b - |rows|]);
    NewHashesAt(ctx, rows, txns, firsts[a - |rows|], firsts[b - |rows|]);
  }

  lemma {:induction false} UnmatchedBrings(ctx: Context, rows: seq<Row>, order: seq<nat>, txns: seq<Incoming>, i: nat)
    requires ctx.kind == Web3 && Clean(rows) && Ordering(rows, order) && HasBases(ctx, txns) && i < |txns|
    requires IsUnmatched(ctx, rows, order, txns[i])
    ensures InBatch(ctx, txns[i]) && HasBase(txns[i]) && IsNew(rows, txns[i])
    ensures NewFields(ctx, txns[i]).externalId == Some(BaseOf(txns[i]))
  {
    NewIffUnmatched(ctx, rows, order, txns[i]);
    NewFieldsBase(ctx, txns[i]);
  }

  lemma {:induction false} NewHashesAt(ctx: Context, rows: seq<Row>, txns: seq<Incoming>, i: nat, j: nat)
    requires HasBases(ctx, txns) && NewHashesDiffer(ctx, rows, txns) && i < |txns| && j < |txns| && i != j
    requires InBatch(ctx, txns[i]) && InBatch(ctx, txns[j]) && HasBase(txns[i]) && HasBase(txns[j])
    requires IsNew(rows, txns[i]) && IsNew(rows, txns[j])
    ensures BaseOf(txns[i]) != BaseOf(txns[j])
  {
    hide IsNew;
  }
}
