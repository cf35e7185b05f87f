/** What a sync leaves in a row, told from the incoming transactions alone. */
module SyncedFields {
  import opened Text
  import opened UnitOfWork
  import opened SyncStore
  import opened SyncProofs
  import opened WalletSync
  import opened SyncOutcomes
  import opened WalletCommit
  import opened Resync
  import opened WalletResync

  // ----- The row of a transaction -----

  /** Not older than the retention limit, if there is one. */
  predicate InRange(ctx: Context, t: Incoming) {
    ctx.minDate.Some? ==> t.date >= ctx.minDate.value
  }

  /** Money out is negative and money in positive when the direction says so; otherwise the amount keeps
      its sign, which bank feeds count the other way round. */
  predicate IsAmount(kind: Kind, t: Incoming, amount: int) {
    if t.direction == Some("outflow") then amount == if t.amount < 0 then t.amount else -t.amount
    else if t.direction == Some("inflow") then amount == if t.amount < 0 then -t.amount else t.amount
    else if kind == Traditional && (t.direction.None? || t.direction.value == "") then amount == -t.amount
    else amount == t.amount
  }

  /** The row tells the date, the amount, the labels and the record of the transaction. */
  predicate Records(ctx: Context, f: Fields, t: Incoming) {
    f.ts == t.date && f.raw == t.raw && f.labels == ctx.labels(t) && IsAmount(ctx.kind, t, f.amount)
  }

  /** The transaction in range has this id; a wallet reads an id up to its first colon. */
  predicate Brings(ctx: Context, t: Incoming, id: string) {
    && InRange(ctx, t) && t.txId.Some?
    && (if ctx.kind == Web3 then BeforeColon(t.txId.value) else t.txId.value) == id
  }

  predicate Names(ctx: Context, t: Incoming, id: string) {
    Brings(ctx, t, id) && t.currency.Some? && t.currency.value != ""
  }

  /** The currency named last for the id, or the one from before when none is named. */
  ghost predicate IsCurrency(ctx: Context, txns: seq<Incoming>, id: string, before: string, c: string) {
    if exists j :: 0 <= j < |txns| && Names(ctx, txns[j], id)
    then exists j ::
           0 <= j < |txns| && Names(ctx, txns[j], id) && txns[j].currency == Some(c)
           && forall k :: j < k < |txns| ==> !Names(ctx, txns[k], id)
    else c == before
  }

  /** The i-th transaction is the last one with its id. */
  ghost predicate IsLastOf(ctx: Context, txns: seq<Incoming>, i: nat, id: string) {
    i < |txns| && Brings(ctx, txns[i], id) && forall k :: i < k < |txns| ==> !Brings(ctx, txns[k], id)
  }

  // ----- One write -----

  lemma {:induction false} WrittenRecords(ctx: Context, f: Fields, t: Incoming)
    ensures Records(ctx, Written(ctx, f, t), t) && Records(ctx, NewFields(ctx, t), t)
    ensures Written(ctx, f, t).currency
            == if t.currency.Some? && t.currency.value != "" then t.currency.value else f.currency
    ensures NewFields(ctx, t).currency
            == if t.currency.Some? && t.currency.value != "" then t.currency.value else ctx.fallbackCurrency
  {
  }

  lemma {:induction false} BringsIsTargets(ctx: Context, t: Incoming, id: string)
    requires ctx.kind == Web3 && InBatch(ctx, t) ==> HasBase(t)
    ensures Brings(ctx, t, id) <==> Targets(ctx, t, Some(id))
  {
  }

  lemma {:induction false} NamesNow(ctx: Context, txns: seq<Incoming>, t: Incoming, id: string, before: string)
    requires Names(ctx, t, id)
    ensures IsCurrency(ctx, txns + [t], id, before, t.currency.value)
  {
    hide Brings;
    assert Names(ctx, (txns + [t])[|txns|], id);
  }

  lemma {:induction false} NamesNotNow(
      ctx: Context, txns: seq<Incoming>, t: Incoming, id: string, before: string, c: string)
    requires IsCurrency(ctx, txns, id, before, c) && !Names(ctx, t, id)
    ensures IsCurrency(ctx, txns + [t], id, before, c)
  {
    hide Names;
    var more := txns + [t];
    assert forall j :: 0 <= j < |txns| ==> more[j] == txns[j];
    if exists j :: 0 <= j < |txns| && Names(ctx, txns[j], id) {
      var j :| 0 <= j < |txns| && Names(ctx, txns[j], id) && txns[j].currency == Some(c)
               && forall k :: j < k < |txns| ==> !Names(ctx, txns[k], id);
      assert Names(ctx, more[j], id);
    }
  }

  lemma {:induction false} CurrencyIs(ctx: Context, txns: seq<Incoming>, id: string, before: string)
    requires ctx.kind == Web3 ==> HasBases(ctx, txns)
    ensures IsCurrency(ctx, txns, id, before, Currency(ctx, txns, Some(id), before))
  {
    if txns == [] {
    } else {
      var n := |txns| - 1;
      assert txns[..n] + [txns[n]] == txns;
      assert HasBases(ctx, txns) && InBatch(ctx, txns[n]) ==> HasBase(txns[n]);
      CurrencyIs(ctx, txns[..n], id, before);
      BringsIsTargets(ctx, txns[n], id);
      hide Targets, Brings, IsCurrency;
      if Names(ctx, txns[n], id) {
        NamesNow(ctx, txns[..n], txns[n], id, before);
      } else {
        NamesNotNow(ctx, txns[..n], txns[n], id, before, Currency(ctx, txns, Some(id), before));
      }
    }
  }

  lemma {:induction false} LastIsWriter(ctx: Context, txns: seq<Incoming>, i: nat, id: string)
    requires (ctx.kind == Web3 ==> HasBases(ctx, txns)) && IsLastOf(ctx, txns, i, id)
    ensures LastWriter(ctx, txns, Some(id)) == Some(i)
  {
    var n := |txns| - 1;
    assert HasBases(ctx, txns) && InBatch(ctx, txns[n]) ==> HasBase(txns[n]);
    BringsIsTargets(ctx, txns[n], id);
    hide Targets, Brings, HasWriter;
    if i == n {
    } else {
      assert IsLastOf(ctx, txns[..n], i, id);
      LastIsWriter(ctx, txns[..n], i, id);
    }
  }

  /** All the writes of one id leave what its last transaction says. */
  lemma {:induction false} FoldRecords(ctx: Context, txns: seq<Incoming>, i: nat, id: string, f: Fields)
    requires (ctx.kind == Web3 ==> HasBases(ctx, txns)) && IsLastOf(ctx, txns, i, id)
    ensures var g := Fold(ctx, txns, Some(id), f);
            Records(ctx, g, txns[i]) && IsCurrency(ctx, txns, id, f.currency, g.currency)
  {
    hide *;
    LastIsWriter(ctx, txns, i, id);
    FoldIsLastWrite(ctx, txns, Some(id), f);
    CurrencyIs(ctx, txns, id, f.currency);
    LastInside(ctx, txns, i, id);
    WrittenRecords(ctx, f, txns[i]);
    RecordsAnyCurrency(ctx, Written(ctx, f, txns[i]), txns[i], Currency(ctx, txns, Some(id), f.currency));
  }

  lemma {:induction false} LastInside(ctx: Context, txns: seq<Incoming>, i: nat, id: string)
    requires IsLastOf(ctx, txns, i, id)
    ensures i < |txns| && Brings(ctx, txns[i], id)
  {
  }

  lemma {:induction false} RecordsAnyCurrency(ctx: Context, f: Fields, t: Incoming, c: string)
    requires Records(ctx, f, t)
    ensures Records(ctx, f.(currency := c), t)
  {
  }

  // ----- Exchanges -----

  lemma {:induction false} BringsIs(ctx: Context, t: Incoming, id: string)
    requires ctx.kind != Web3
    ensures Brings(ctx, t, id) <==> InBatch(ctx, t) && t.txId == Some(id)
  {
  }

  /** After a committed exchange batch the one row under an id of the batch records the last transaction
      with that id; a row under any other id is as it was. */
  lemma {:induction false} ExchangeRecords(
      ctx: Context, rows: seq<Row>, txns: seq<Incoming>, c: seq<Row>, i: nat, id: string)
    returns (a: nat)
    requires ExchangeSync(ctx, rows, txns, c) && IsLastOf(ctx, txns, i, id)
    ensures a < |c| && c[a].mem.externalId == Some(id)
    ensures forall b :: 0 <= b < |c| && b != a ==> c[b].mem.externalId != Some(id)
    ensures Records(ctx, c[a].mem, txns[i])
    ensures IsCurrency(ctx, txns, id, if a < |rows| then rows[a].mem.currency else ctx.fallbackCurrency,
              c[a].mem.currency)
  {
    hide *;
    NotWeb3(ctx, rows, txns, c);
    LastInside(ctx, txns, i, id);
    BringsIs(ctx, txns[i], id);
    a := EveryIdIsStored(ctx, rows, txns, c, i);
    ExchangeRowsStored(ctx, rows, txns, c);
    OnlyRow(ctx, rows, txns, c, a, id);
    EmptyOrder(rows);
    ExchangeIds(ctx, rows, txns, c);
    if a < |rows| {
      StoredRecords(ctx, rows, txns, c, i, id, a);
    } else {
      CreatedRecords(ctx, rows, txns, c, i, id, a - |rows|);
    }
  }

  lemma {:induction false} OnlyRow(
      ctx: Context, rows: seq<Row>, txns: seq<Incoming>, c: seq<Row>, a: nat, id: string)
    requires ExchangeSync(ctx, rows, txns, c) && a < |c| && c[a].mem.externalId == Some(id)
    ensures forall b :: 0 <= b < |c| && b != a ==> c[b].mem.externalId != Some(id)
  {
    ExchangeIds(ctx, rows, txns, c);
  }

  lemma {:induction false} StoredRecords(
      ctx: Context, rows: seq<Row>, txns: seq<Incoming>, c: seq<Row>, i: nat, id: string, a: nat)
    requires ExchangeSync(ctx, rows, txns, c) && IsLastOf(ctx, txns, i, id)
    requires a < |rows| <= |c| && c[a].mem.externalId == Some(id)
    ensures Records(ctx, c[a].mem, txns[i]) && IsCurrency(ctx, txns, id, rows[a].mem.currency, c[a].mem.currency)
  {
    hide *;
    EmptyOrder(rows);
    NotWeb3(ctx, rows, txns, c);
    ExchangeIds(ctx, rows, txns, c);
    ExchangeRows(ctx, rows, txns, c);
    UniqueBefore(ctx, rows, txns, c);
    ExchangeReceives(ctx, rows, txns, a);
    CleanDb(rows);
    UniqueIsFirst(rows, a);
    WritesIsFold(ctx, rows, [], txns, a, rows[a].mem, Some(id));
    FoldRecords(ctx, txns, i, id, rows[a].mem);
  }

  lemma {:induction false} UniqueBefore(ctx: Context, rows: seq<Row>, txns: seq<Incoming>, c: seq<Row>)
    requires ExchangeSync(ctx, rows, txns, c)
    ensures UniqueIds(rows)
  {
  }

  lemma {:induction false} CreatedRecords(
      ctx: Context, rows: seq<Row>, txns: seq<Incoming>, c: seq<Row>, i: nat, id: string, m: nat)
    requires ExchangeSync(ctx, rows, txns, c) && IsLastOf(ctx, txns, i, id)
    requires m < |Fresh(ctx, rows, [], txns)| && |rows| + m < |c| && c[|rows| + m].mem.externalId == Some(id)
    ensures Records(ctx, c[|rows| + m].mem, txns[i])
    ensures IsCurrency(ctx, txns, id, ctx.fallbackCurrency, c[|rows| + m].mem.currency)
  {
    hide *;
    EmptyOrder(rows);
    NotWeb3(ctx, rows, txns, c);
    IdlessAppend(ctx, rows, txns, c, m);
    var k := Fresh(ctx, rows, [], txns)[m];
    LastInside(ctx, txns, i, id);
    BringsIs(ctx, txns[i], id);
    IdTargets(ctx, txns[i], id);
    if i != k {
      OneTransactionPerNewRow(ctx, rows, txns, c, m, i);
    }
    forall j | 0 <= j < |txns| && j != i
      ensures !Brings(ctx, txns[j], id)
    {
      OneTransactionPerNewRow(ctx, rows, txns, c, m, j);
      BringsIs(ctx, txns[j], id);
      IdTargets(ctx, txns[j], id);
    }
    WrittenRecords(ctx, NewFields(ctx, txns[i]), txns[i]);
    OnlyNamed(ctx, txns, i, id);
  }

  lemma {:induction false} IdTargets(ctx: Context, t: Incoming, id: string)
    requires ctx.kind != Web3
    ensures Targets(ctx, t, Some(id)) <==> InBatch(ctx, t) && t.txId == Some(id)
  {
    hide InBatch;
  }

  /** The currency of a new row is named by its only transaction or is the fallback. */
  lemma {:induction false} OnlyNamed(ctx: Context, txns: seq<Incoming>, i: nat, id: string)
    requires i < |txns| && Brings(ctx, txns[i], id)
    requires forall j :: 0 <= j < |txns| && j != i ==> !Brings(ctx, txns[j], id)
    ensures IsCurrency(ctx, txns, id, ctx.fallbackCurrency,
              if txns[i].currency.Some? && txns[i].currency.value != "" then txns[i].currency.value
              else ctx.fallbackCurrency)
  {
    hide Brings;
    if Names(ctx, txns[i], id) {
      assert Names(ctx, txns[i], id);
    }
  }

  lemma {:induction false} ExchangeLeaves(ctx: Context, rows: seq<Row>, txns: seq<Incoming>, c: seq<Row>, a: nat)
    requires ExchangeSync(ctx, rows, txns, c) && a < |rows| && rows[a].mem.externalId.Some?
    requires forall i :: 0 <= i < |txns| ==> !Brings(ctx, txns[i], rows[a].mem.externalId.value)
    ensures a < |c| && c[a].mem == rows[a].mem
  {
    hide *;
    EmptyOrder(rows);
    NotWeb3(ctx, rows, txns, c);
    ExchangeIds(ctx, rows, txns, c);
    ExchangeRows(ctx, rows, txns, c);
    UniqueBefore(ctx, rows, txns, c);
    ExchangeReceives(ctx, rows, txns, a);
    CleanDb(rows);
    UniqueIsFirst(rows, a);
    WritesIsFold(ctx, rows, [], txns, a, rows[a].mem, rows[a].mem.externalId);
    NothingFolds(ctx, txns, rows[a].mem.externalId.value, rows[a].mem);
  }

  lemma {:induction false} NothingFolds(ctx: Context, txns: seq<Incoming>, id: string, f: Fields)
    requires ctx.kind == Web3 ==> HasBases(ctx, txns)
    requires forall i :: 0 <= i < |txns| ==> !Brings(ctx, txns[i], id)
    ensures Fold(ctx, txns, Some(id), f) == f
  {
    forall i | 0 <= i < |txns|
      ensures !Targets(ctx, txns[i], Some(id))
    {
      BringsIsTargets(ctx, txns[i], id);
    }
    hide Targets, Brings, Fold;
    FoldDependsOnCurrency(ctx, txns, Some(id), f, f);
  }

  // ----- Wallets -----

  predicate HasRow(rows: seq<Row>, h: string) {
    exists k :: 0 <= k < |rows| && Base(rows[k].mem) == h
  }

  /** The newest row of the key is stored under the hash, if any row is: no row that has the hash in its
      raw record alone comes before it. */
  ghost predicate Leads(rows: seq<Row>, order: seq<nat>, fmt: Formats, h: string)
    requires InTable(rows, order)
  {
    HasRow(rows, h) ==>
      forall p :: 0 <= p < |order| && !SeenBefore(rows, order, fmt, p) && Key(rows[order[p]].mem, fmt) == h
        ==> Base(rows[order[p]].mem) == h
  }

  lemma {:induction false} BringsBase(ctx: Context, txns: seq<Incoming>, i: nat, h: string)
    requires ctx.kind == Web3 && HasBases(ctx, txns) && i < |txns| && Brings(ctx, txns[i], h)
    ensures InBatch(ctx, txns[i]) && HasBase(txns[i]) && BaseOf(txns[i]) == h != "" && ':' !in h
  {
    BaseIsTruthy(txns[i]);
  }

  /** Where the row of a hash is: the first of its rows, which nothing of its key precedes. */
  lemma {:induction false} LeadingRow(rows: seq<Row>, order: seq<nat>, fmt: Formats, t: Incoming) returns (q: nat)
    requires Clean(rows) && Ordering(rows, order) && InTable(rows, order) && HasBase(t)
    requires HasRow(rows, BaseOf(t)) && Leads(rows, order, fmt, BaseOf(t))
    ensures q < |order| && Base(rows[order[q]].mem) == BaseOf(t) && !SeenBefore(rows, order, fmt, q)
    ensures Candidates(rows, order, BaseOf(t)) != [] && Candidates(rows, order, BaseOf(t))[0] == order[q]
    ensures forall k :: 0 <= k < |rows| && Base(rows[k].mem) == BaseOf(t) ==> rows[order[q]].mem.ts >= rows[k].mem.ts
  {
    var h := BaseOf(t);
    var k :| 0 <= k < |rows| && Base(rows[k].mem) == h;
    var p := CleanOrder(rows, order, k);
    q := FirstOfBase(rows, order, h, p);
    hide Key, Base, Candidates;
    FirstLeg(rows, order, t, q);
    CleanDb(rows);
    KeyOfHash(rows[order[q]].mem, fmt, t);
    var j := FirstHolder(rows, order, fmt, q);
    assert Base(rows[order[j]].mem) == h;
    NewestOfBase(rows, order, h, q);
  }

  lemma {:induction false} KeyOfHash(f: Fields, fmt: Formats, t: Incoming)
    requires HasBase(t) && Base(f) == BaseOf(t)
    ensures Key(f, fmt) == BaseOf(t)
  {
    KeyOfBase(f, fmt);
  }

  lemma {:induction false} FirstOfBase(rows: seq<Row>, order: seq<nat>, h: string, p: nat) returns (q: nat)
    requires InTable(rows, order) && p < |order| && Base(rows[order[p]].mem) == h
    ensures q <= p && Base(rows[order[q]].mem) == h
    ensures forall z :: 0 <= z < q ==> Base(rows[order[z]].mem) != h
  {
    hide Base;
    if z :| 0 <= z < p && Base(rows[order[z]].mem) == h {
      q := FirstOfBase(rows, order, h, z);
    } else {
      q := p;
    }
  }

  lemma {:induction false} NewestOfBase(rows: seq<Row>, order: seq<nat>, h: string, q: nat)
    requires Clean(rows) && Ordering(rows, order) && q < |order|
    requires forall z :: 0 <= z < q ==> Base(rows[order[z]].mem) != h
    ensures forall k :: 0 <= k < |rows| && Base(rows[k].mem) == h ==> rows[order[q]].mem.ts >= rows[k].mem.ts
  {
    hide Base;
    forall k | 0 <= k < |rows| && Base(rows[k].mem) == h
      ensures rows[order[q]].mem.ts >= rows[k].mem.ts
    {
      var p := CleanOrder(rows, order, k);
      assert q <= p && rows[order[q]].db == Some(rows[order[q]].mem) && rows[k].db == Some(rows[k].mem);
    }
  }

  lemma {:induction false} LeaderReceives(
      ctx: Context, rows: seq<Row>, order: seq<nat>, txns: seq<Incoming>, t: Incoming, a: nat)
    requires ctx.kind == Web3 && Clean(rows) && Ordering(rows, order) && InTable(rows, order) && HasBases(ctx, txns)
    requires HasBase(t) && a < |rows| && Base(rows[a].mem) == BaseOf(t)
    requires Candidates(rows, order, BaseOf(t)) != [] && Candidates(rows, order, BaseOf(t))[0] == a
    ensures Receives(ctx, rows, order, txns, a, Some(BaseOf(t)))
  {
    CleanDb(rows);
    hide Base, Candidates, Existing, InBatch, HasBases, HasBase, Ordering, Clean;
    forall j | 0 <= j < |txns| && InBatch(ctx, txns[j])
      ensures Existing(ctx, rows, order, txns[j]) == Some(a) <==> IdOf(ctx.kind, txns[j]) == Some(BaseOf(t))
    {
      IdIsBase(ctx, txns, j);
      WalletTarget(ctx, rows, order, txns[j]);
    }
  }

  lemma {:induction false} WalletStoredRecords(
      ctx: Context, rows: seq<Row>, order: seq<nat>, fmt: Formats, txns: seq<Incoming>, r: seq<Row>,
      i: nat, h: string)
    returns (a: nat)
    requires WalletBatch(ctx, rows, order, fmt, txns, r) && InTable(rows, order)
    requires IsLastOf(ctx, txns, i, h) && HasRow(rows, h) && Leads(rows, order, fmt, h)
    ensures a < |rows| <= |r| && !r[a].deleted && r[a].mem.externalId == Some(h) && Records(ctx, r[a].mem, txns[i])
    ensures Base(rows[a].mem) == h
    ensures forall k :: 0 <= k < |rows| && Base(rows[k].mem) == h ==> rows[a].mem.ts >= rows[k].mem.ts
    ensures IsCurrency(ctx, txns, h, rows[a].mem.currency, r[a].mem.currency)
  {
    hide *;
    WalletInTable(ctx, rows, order, fmt, txns, r);
    LastInside(ctx, txns, i, h);
    BringsBase(ctx, txns, i, h);
    var q := LeadingRow(rows, order, fmt, txns[i]);
    InOrder(rows, order, q);
    a := order[q];
    BatchCollapses(ctx, rows, order, fmt, txns, r);
    FirstsStay(rows, order, fmt, r, q);
    StoredRowAfter(ctx, rows, order, fmt, txns, r, a);
    LeaderReceives(ctx, rows, order, txns, txns[i], a);
    WritesIsFold(ctx, rows, order, txns, a, rows[a].mem, Some(h));
    FoldRecords(ctx, txns, i, h, rows[a].mem);
    BringsIsTargets(ctx, txns[i], h);
    IsWriter(ctx, txns, i, h);
    FoldDependsOnCurrency(ctx, txns, Some(h), rows[a].mem, rows[a].mem);
    NormalizedAfterWrite(Fold(ctx, txns, Some(h), rows[a].mem), fmt, h);
  }

  lemma {:induction false} IsWriter(ctx: Context, txns: seq<Incoming>, i: nat, h: string)
    requires i < |txns| && Targets(ctx, txns[i], Some(h))
    ensures HasWriter(ctx, txns, Some(h))
  {
    hide Targets;
  }

  lemma {:induction false} InOrder(rows: seq<Row>, order: seq<nat>, q: nat)
    requires InTable(rows, order) && q < |order|
    ensures order[q] < |rows|
  {
  }

  lemma {:induction false} FirstsStay(rows: seq<Row>, order: seq<nat>, fmt: Formats, r: seq<Row>, q: nat)
    requires InTable(rows, order) && Collapsed(rows, order, fmt, r) && q < |order|
    ensures order[q] < |rows| <= |r| && (r[order[q]].deleted <==> SeenBefore(rows, order, fmt, q))
  {
    hide SeenBefore, Normalized;
    assert CollapsedAt(rows, order, fmt, r, q);
  }

  lemma {:induction false} WalletCreatedRecords(
      ctx: Context, rows: seq<Row>, order: seq<nat>, fmt: Formats, txns: seq<Incoming>, r: seq<Row>,
      i: nat, h: string)
    returns (a: nat)
    requires WalletBatch(ctx, rows, order, fmt, txns, r) && CommitOk(r)
    requires IsLastOf(ctx, txns, i, h) && !HasRow(rows, h)
    ensures |rows| <= a < |r| && !r[a].deleted && r[a].mem.externalId == Some(h) && Records(ctx, r[a].mem, txns[i])
    ensures IsCurrency(ctx, txns, h, ctx.fallbackCurrency, r[a].mem.currency)
  {
    hide *;
    WalletInTable(ctx, rows, order, fmt, txns, r);
    LastInside(ctx, txns, i, h);
    BringsBase(ctx, txns, i, h);
    NoRowIsNew(rows, txns[i]);
    var m := NewHashRow(ctx, rows, order, fmt, txns, r, i);
    NewRowAt(ctx, rows, order, fmt, txns, r, m);
    a := |rows| + m;
    forall j | 0 <= j < |txns| && j != i
      ensures !Brings(ctx, txns[j], h)
    {
      if Brings(ctx, txns[j], h) {
        BringsBase(ctx, txns, j, h);
        NoRowIsNew(rows, txns[j]);
        OnlyNewLeg(ctx, rows, order, fmt, txns, r, i, j);
      }
    }
    WrittenRecords(ctx, NewFields(ctx, txns[i]), txns[i]);
    OnlyNamed(ctx, txns, i, h);
  }

  lemma {:induction false} NoRowIsNew(rows: seq<Row>, t: Incoming)
    requires HasBase(t) && !HasRow(rows, BaseOf(t))
    ensures IsNew(rows, t)
  {
    hide Base;
  }

  lemma {:induction false} OnlyNewLeg(
      ctx: Context, rows: seq<Row>, order: seq<nat>, fmt: Formats, txns: seq<Incoming>, r: seq<Row>, i: nat, j: nat)
    requires WalletBatch(ctx, rows, order, fmt, txns, r) && CommitOk(r)
    requires i < |txns| && j < |txns| && i != j && InBatch(ctx, txns[i]) && InBatch(ctx, txns[j])
    requires HasBase(txns[i]) && HasBase(txns[j]) && IsNew(rows, txns[i]) && IsNew(rows, txns[j])
    ensures BaseOf(txns[i]) != BaseOf(txns[j])
  {
    hide *;
    WalletInTable(ctx, rows, order, fmt, txns, r);
    if NewHashesDiffer(ctx, rows, txns) {
      NewHashesAt(ctx, rows, txns, i, j);
    } else {
      SameHashConflicts(ctx, rows, order, fmt, txns, r);
    }
  }

  /** After a committed wallet batch the one row under a hash of the batch records the last transaction of
      that hash; when rows of the hash were stored before, it is a newest of them. */
  lemma {:induction false} WalletRecords(
      ctx: Context, rows: seq<Row>, order: seq<nat>, fmt: Formats, txns: seq<Incoming>, r: seq<Row>,
      i: nat, h: string)
    returns (a: nat)
    requires WalletBatch(ctx, rows, order, fmt, txns, r) && CommitOk(r) && InTable(rows, order)
    requires IsLastOf(ctx, txns, i, h) && Leads(rows, order, fmt, h)
    ensures |rows| <= |r| && a < |r| && !r[a].deleted && r[a].mem.externalId == Some(h)
    ensures forall b :: 0 <= b < |r| && b != a && !r[b].deleted ==> r[b].mem.externalId != Some(h)
    ensures Records(ctx, r[a].mem, txns[i])
    ensures IsCurrency(ctx, txns, h, if a < |rows| then rows[a].mem.currency else ctx.fallbackCurrency,
              r[a].mem.currency)
    ensures a < |rows| <==> HasRow(rows, h)
    ensures a < |rows| ==> Base(rows[a].mem) == h
                           && forall k :: 0 <= k < |rows| && Base(rows[k].mem) == h ==>
                                rows[a].mem.ts >= rows[k].mem.ts
  {
    hide *;
    RowsOfBatch(ctx, rows, order, fmt, txns, r);
    if HasRow(rows, h) {
      a := WalletStoredRecords(ctx, rows, order, fmt, txns, r, i, h);
    } else {
      a := WalletCreatedRecords(ctx, rows, order, fmt, txns, r, i, h);
    }
    OkMeansOneId(r, a, h);
  }

  lemma {:induction false} OkMeansOneId(r: seq<Row>, a: nat, h: string)
    requires CommitOk(r) && a < |r| && !r[a].deleted && r[a].mem.externalId == Some(h)
    ensures forall b :: 0 <= b < |r| && b != a && !r[b].deleted ==> r[b].mem.externalId != Some(h)
  {
    assert forall b :: 0 <= b < |r| && b != a ==> !Clash(r[a], r[b]);
  }

  // ----- What stays -----

  /** A surviving row whose hash is not in the batch is as it was, but for its shortened id. */
  lemma {:induction false} WalletLeaves(
      ctx: Context, rows: seq<Row>, order: seq<nat>, fmt: Formats, txns: seq<Incoming>, r: seq<Row>, a: nat)
    requires WalletBatch(ctx, rows, order, fmt, txns, r) && a < |rows| <= |r| && !r[a].deleted
    requires forall i :: 0 <= i < |txns| ==> Base(rows[a].mem) == "" || !Brings(ctx, txns[i], Base(rows[a].mem))
    ensures r[a].mem.(externalId := rows[a].mem.externalId) == rows[a].mem
  {
    hide *;
    WalletInTable(ctx, rows, order, fmt, txns, r);
    CleanRow(rows, a);
    StoredRowAfter(ctx, rows, order, fmt, txns, r, a);
    forall i | 0 <= i < |txns| && InBatch(ctx, txns[i])
      ensures Existing(ctx, rows, order, txns[i]) != Some(a)
    {
      OtherTarget(ctx, rows, order, txns, i, a);
    }
    NothingReceived(ctx, rows, order, txns, a);
    WritesNothing(ctx, rows, order, txns, a, rows[a].mem);
    NormalizedKeepsKey(rows[a].mem, fmt);
  }

  lemma {:induction false} NothingReceived(
      ctx: Context, rows: seq<Row>, order: seq<nat>, txns: seq<Incoming>, a: nat)
    requires InTable(rows, order)
    requires forall i :: 0 <= i < |txns| && InBatch(ctx, txns[i]) ==> Existing(ctx, rows, order, txns[i]) != Some(a)
    ensures ReceivesNothing(ctx, rows, order, txns, a)
  {
    hide Existing, InBatch;
  }

  lemma {:induction false} OtherTarget(
      ctx: Context, rows: seq<Row>, order: seq<nat>, txns: seq<Incoming>, i: nat, a: nat)
    requires ctx.kind == Web3 && Clean(rows) && Ordering(rows, order) && InTable(rows, order) && HasBases(ctx, txns)
    requires i < |txns| && InBatch(ctx, txns[i]) && a < |rows|
    requires Base(rows[a].mem) == "" || !Brings(ctx, txns[i], Base(rows[a].mem))
    ensures Existing(ctx, rows, order, txns[i]) != Some(a)
  {
    CleanRow(rows, a);
    IdIsBase(ctx, txns, i);
    WalletTarget(ctx, rows, order, txns[i]);
    hide Base, Existing, HasBases, Ordering, Clean, WalletBatch;
  }

  /** When a row that has the hash in its raw record alone is the newest of the key, it survives, and no
      transaction of the batch reaches it: what the batch brought for the hash is lost with the rows
      stored under it. */
  lemma {:induction false} OvershadowedIsLost(
      ctx: Context, rows: seq<Row>, order: seq<nat>, fmt: Formats, txns: seq<Incoming>, r: seq<Row>, h: string,
      p: nat, b: nat)
    requires WalletBatch(ctx, rows, order, fmt, txns, r) && InTable(rows, order) && HasRow(rows, h)
    requires p < |order| && !SeenBefore(rows, order, fmt, p) && Key(rows[order[p]].mem, fmt) == h
    requires Base(rows[order[p]].mem) != h
    requires b < |r| && !r[b].deleted && Key(r[b].mem, fmt) == h
    ensures b == order[p] && r[b].mem.(externalId := rows[b].mem.externalId) == rows[b].mem
  {
    WalletInTable(ctx, rows, order, fmt, txns, r);
    BaseOrNone(rows[order[p]].mem, fmt);
    hide *;
    BatchCollapses(ctx, rows, order, fmt, txns, r);
    if b < |rows| {
      var q := CleanOrder(rows, order, b);
      FirstsStay(rows, order, fmt, r, q);
      KeyAlike(ctx, rows, order, fmt, txns, r, b);
      if p != q {
        FirstsDiffer(rows, order, fmt, p, q);
      }
      WalletLeaves(ctx, rows, order, fmt, txns, r, b);
    } else {
      NewRowOtherKey(ctx, rows, order, fmt, txns, r, h, b);
    }
  }

  lemma {:induction false} NewRowOtherKey(
      ctx: Context, rows: seq<Row>, order: seq<nat>, fmt: Formats, txns: seq<Incoming>, r: seq<Row>, h: string, b: nat)
    requires WalletBatch(ctx, rows, order, fmt, txns, r) && HasRow(rows, h) && |rows| <= b < |r|
    ensures Key(r[b].mem, fmt) != h
  {
    hide *;
    NewRowAfter(ctx, rows, order, fmt, txns, r, b);
    KeyOfBase(r[b].mem, fmt);
    NoRowOf(rows, h, r[b].mem);
  }

  lemma {:induction false} BaseOrNone(f: Fields, fmt: Formats)
    requires Base(f) != Key(f, fmt)
    ensures Base(f) == ""
  {
    hide ExtractTxId, FallbackKey;
  }

  lemma {:induction false} NoRowOf(rows: seq<Row>, h: string, f: Fields)
    requires HasRow(rows, h) && forall k :: 0 <= k < |rows| ==> Base(rows[k].mem) != Base(f)
    ensures Base(f) != h
  {
    hide Base;
  }

  lemma {:induction false} KeyAlike(
      ctx: Context, rows: seq<Row>, order: seq<nat>, fmt: Formats, txns: seq<Incoming>, r: seq<Row>, b: nat)
    requires WalletBatch(ctx, rows, order, fmt, txns, r) && b < |rows| <= |r| && !r[b].deleted
    ensures Key(r[b].mem, fmt) == Key(rows[b].mem, fmt)
  {
    var mid := Halfway(ctx, rows, order, fmt, txns, r);
    hide *;
    StoredRowAfter(ctx, rows, order, fmt, txns, r, b);
    WalletInTable(ctx, rows, order, fmt, txns, r);
    CleanRow(rows, b);
    WritesKeepBase(ctx, rows, order, txns, b, rows[b].mem);
    NormalizedKeepsKey(Writes(ctx, rows, order, txns, b, rows[b].mem), fmt);
    if Base(rows[b].mem) != "" {
      KeyOfBase(rows[b].mem, fmt);
      KeyOfBase(Writes(ctx, rows, order, txns, b, rows[b].mem), fmt);
    }
  }

  // ----- The two counters -----

  /** What the batch reports as synced: the transactions in range. */
  lemma {:induction false} SyncedIsSize(ctx: Context, txns: seq<Incoming>)
    ensures CountBatch(ctx, txns) == |set i: nat | i < |txns| && IsInRange(ctx, txns, i)|
  {
    if txns == [] {
      assert (set i: nat | i < |txns| && IsInRange(ctx, txns, i)) == {};
    } else {
      var n := |txns| - 1;
      SyncedIsSize(ctx, txns[..n]);
      var before := set i: nat | i < n && IsInRange(ctx, txns[..n], i);
      var now := set i: nat | i < |txns| && IsInRange(ctx, txns, i);
      assert forall i: nat :: i < n ==> (IsInRange(ctx, txns[..n], i) <==> IsInRange(ctx, txns, i));
      assert InBatch(ctx, txns[n]) <==> IsInRange(ctx, txns, n);
      hide IsInRange, InBatch;
      if IsInRange(ctx, txns, n) {
        assert now == before + {n};
      } else {
        assert now == before;
      }
    }
  }

  predicate IsInRange(ctx: Context, txns: seq<Incoming>, i: nat) {
    i < |txns| && InRange(ctx, txns[i])
  }

  /** The transaction is in range, and no stored row has its id; a wallet compares hashes. */
  ghost predicate FindsNothing(ctx: Context, rows: seq<Row>, txns: seq<Incoming>, i: nat) {
    && i < |txns| && InRange(ctx, txns[i])
    && forall k :: 0 <= k < |rows| ==>
         if ctx.kind == Web3
         then !(txns[i].txId.Some? && Base(rows[k].mem) == BeforeColon(txns[i].txId.value))
         else rows[k].mem.externalId != txns[i].txId
  }

  lemma {:induction false} UnmatchedFindsNothing(
      ctx: Context, rows: seq<Row>, order: seq<nat>, txns: seq<Incoming>, i: nat)
    requires Clean(rows) && InTable(rows, order) && (ctx.kind == Web3 ==> Ordering(rows, order) && HasBases(ctx, txns))
    requires ctx.kind != Web3 ==> order == []
    ensures i < |txns| ==>
              (IsUnmatched(ctx, rows, order, txns[i]) <==> FindsNothing(ctx, rows, txns, i))
  {
    if i < |txns| && InBatch(ctx, txns[i]) {
      if ctx.kind == Web3 {
        NewIffUnmatched(ctx, rows, order, txns[i]);
      } else {
        NewIdIffUnmatched(ctx, rows, txns[i]);
      }
    }
    hide Base, Existing, BeforeColon;
  }

  lemma {:induction false} FreshIsSize(ctx: Context, rows: seq<Row>, order: seq<nat>, txns: seq<Incoming>)
    requires InTable(rows, order)
    ensures |Fresh(ctx, rows, order, txns)|
            == |set i: nat | i < |txns| && IsUnmatchedAt(ctx, rows, order, txns, i)|
  {
    if txns == [] {
      assert (set i: nat | i < |txns| && IsUnmatchedAt(ctx, rows, order, txns, i)) == {};
    } else {
      FreshIsSize(ctx, rows, order, txns[..|txns| - 1]);
      OneMoreUnmatched(ctx, rows, order, txns);
      OneMoreFresh(ctx, rows, order, txns);
    }
  }

  lemma {:induction false} OneMoreFresh(ctx: Context, rows: seq<Row>, order: seq<nat>, txns: seq<Incoming>)
    requires InTable(rows, order) && txns != []
    ensures |Fresh(ctx, rows, order, txns)|
            == |Fresh(ctx, rows, order, txns[..|txns| - 1])|
               + if IsUnmatched(ctx, rows, order, txns[|txns| - 1]) then 1 else 0
  {
    hide IsUnmatched;
  }

  lemma {:induction false} OneMoreUnmatched(ctx: Context, rows: seq<Row>, order: seq<nat>, txns: seq<Incoming>)
    requires InTable(rows, order) && txns != []
    ensures var n := |txns| - 1;
            |set i: nat | i < |txns| && IsUnmatchedAt(ctx, rows, order, txns, i)|
            == |set i: nat | i < n && IsUnmatchedAt(ctx, rows, order, txns[..n], i)|
               + if IsUnmatched(ctx, rows, order, txns[n]) then 1 else 0
  {
    hide IsUnmatched;
    var n := |txns| - 1;
    var before := set i: nat | i < n && IsUnmatchedAt(ctx, rows, order, txns[..n], i);
    var now := set i: nat | i < |txns| && IsUnmatchedAt(ctx, rows, order, txns, i);
    assert forall i: nat :: i < n ==>
             (IsUnmatchedAt(ctx, rows, order, txns[..n], i) <==> IsUnmatchedAt(ctx, rows, order, txns, i));
    assert IsUnmatched(ctx, rows, order, txns[n]) <==> IsUnmatchedAt(ctx, rows, order, txns, n);
    hide IsUnmatchedAt;
    if IsUnmatchedAt(ctx, rows, order, txns, n) {
      assert now == before + {n};
    } else {
      assert now == before;
    }
  }

  predicate IsUnmatchedAt(ctx: Context, rows: seq<Row>, order: seq<nat>, txns: seq<Incoming>, i: nat)
    requires InTable(rows, order)
  {
    i < |txns| && IsUnmatched(ctx, rows, order, txns[i])
  }

  /** What the batch reports as new: the transactions in range that find no row. */
  lemma {:induction false} NewIsSize(ctx: Context, rows: seq<Row>, order: seq<nat>, txns: seq<Incoming>)
    requires Clean(rows) && InTable(rows, order) && (ctx.kind == Web3 ==> Ordering(rows, order) && HasBases(ctx, txns))
    requires ctx.kind != Web3 ==> order == []
    ensures |ProcessAll(ctx, rows, order, txns)| - |rows|
            == |set i: nat | i < |txns| && FindsNothing(ctx, rows, txns, i)|
  {
    hide *;
    BatchInClosedForm(ctx, rows, order, txns);
    FormSize(ctx, rows, order, txns, ProcessAll(ctx, rows, order, txns));
    CreatedFrom(ctx, rows, order, txns);
    FreshIsSize(ctx, rows, order, txns);
    forall i: nat | i < |txns|
      ensures IsUnmatchedAt(ctx, rows, order, txns, i) <==> FindsNothing(ctx, rows, txns, i)
    {
      UnmatchedFindsNothing(ctx, rows, order, txns, i);
      UnmatchedAt(ctx, rows, order, txns, i);
    }
    assert (set i: nat | i < |txns| && FindsNothing(ctx, rows, txns, i))
        == (set i: nat | i < |txns| && IsUnmatchedAt(ctx, rows, order, txns, i));
  }

  lemma {:induction false} UnmatchedAt(ctx: Context, rows: seq<Row>, order: seq<nat>, txns: seq<Incoming>, i: nat)
    requires InTable(rows, order) && i < |txns|
    ensures IsUnmatchedAt(ctx, rows, order, txns, i) <==> IsUnmatched(ctx, rows, order, txns[i])
  {
    hide IsUnmatched;
  }

  lemma {:induction false} FormSize(
      ctx: Context, rows: seq<Row>, order: seq<nat>, txns: seq<Incoming>, r: seq<Row>)
    requires InTable(rows, order) && BatchForm(ctx, rows, order, txns, r)
    ensures |r| == |rows| + |Created(ctx, rows, order, txns)|
  {
    hide Created, Writes, Pending;
  }
}
