/** Wallet batches whose queries list rows of equal time in different orders. */
module SyncTies {
  import opened Text
  import opened UnitOfWork
  import opened SyncStore
  import opened SyncProofs
  import opened WalletSync

  /** A wallet batch over clean rows: each query, and the one of the deduplication, in its own ordering. */
  ghost predicate TiedBatch(
      ctx: Context, rows: seq<Row>, orders: seq<seq<nat>>, last: seq<nat>, fmt: Formats, txns: seq<Incoming>,
      r: seq<Row>)
  {
    && ctx.kind == Web3 && Clean(rows) && HasBases(ctx, txns)
    && |orders| == |txns| && AllInTable(rows, orders) && AllOrderings(rows, orders) && Ordering(rows, last)
    && Deduped(ProcessEach(ctx, rows, orders, txns), last, fmt, r)
  }

  ghost predicate AllOrderings(rows: seq<Row>, orders: seq<seq<nat>>) {
    forall i :: 0 <= i < |orders| ==> Ordering(rows, orders[i])
  }

  /** The transaction is a leg of the row's hash. */
  predicate IsLegOf(ctx: Context, t: Incoming, row: Row) {
    InBatch(ctx, t) && HasBase(t) && BaseOf(t) == Base(row.mem)
  }

  /** The last leg of the row's hash is written to another row. */
  predicate LastElsewhere(ctx: Context, rows: seq<Row>, orders: seq<seq<nat>>, txns: seq<Incoming>, k: nat)
    requires |orders| == |txns| && AllInTable(rows, orders) && k < |rows|
  {
    txns != [] &&
    var n := |txns| - 1;
    if IsLegOf(ctx, txns[n], rows[k]) then Existing(ctx, rows, orders[n], txns[n]) != Some(k)
    else LastElsewhere(ctx, rows, orders[..n], txns[..n], k)
  }

  /** Some leg of the row's hash is written to the row. */
  predicate Reached(ctx: Context, rows: seq<Row>, orders: seq<seq<nat>>, txns: seq<Incoming>, k: nat)
    requires |orders| == |txns| && AllInTable(rows, orders) && k < |rows|
  {
    txns != [] &&
    var n := |txns| - 1;
    || (IsLegOf(ctx, txns[n], rows[k]) && Existing(ctx, rows, orders[n], txns[n]) == Some(k))
    || Reached(ctx, rows, orders[..n], txns[..n], k)
  }

  // ----- One transaction -----

  /** The transaction goes to one row of its hash and deletes the others. */
  lemma {:induction false} CandidateIffBase(rows: seq<Row>, order: seq<nat>, t: Incoming, k: nat)
    requires Clean(rows) && Ordering(rows, order) && HasBase(t) && k < |rows|
    ensures k in Candidates(rows, order, BaseOf(t)) <==> Base(rows[k].mem) == BaseOf(t)
  {
    BaseIsTruthy(t);
    var i := CleanOrder(rows, order, k);
    assert rows[k].db.value == rows[k].mem;
    MatchIsSameBase(rows[k].mem, BaseOf(t));
    hide MatchesBase, Base, BeforeColon;
  }

  lemma {:induction false} FirstOnce(rows: seq<Row>, order: seq<nat>, base: string)
    requires Ordering(rows, order) && Candidates(rows, order, base) != []
    ensures Candidates(rows, order, base)[0] !in Candidates(rows, order, base)[1..]
  {
    var p := FirstCandidate(rows, order, base);
    hide Candidates;
    assert order[p] !in order[p + 1..];
  }

  lemma {:induction false} StepOnRow(
      ctx: Context, rows: seq<Row>, before: seq<Row>, order: seq<nat>, t: Incoming, k: nat)
    requires ctx.kind == Web3 && Clean(rows) && Ordering(rows, order) && HasBase(t) && k < |rows|
    requires SameDb(rows, before)
    ensures InTable(before, order) && k < |Process(ctx, before, order, t)|
    ensures Process(ctx, before, order, t)[k] ==
            if BaseOf(t) != Base(rows[k].mem) then before[k]
            else if Existing(ctx, rows, order, t) == Some(k)
            then Row(before[k].db, Written(ctx, before[k].mem, t), false)
            else before[k].(deleted := true)
  {
    hide *;
    StillInTable(rows, before, order);
    ExistingStable(ctx, rows, before, order, t);
    WalletTarget(ctx, rows, order, t);
    CandidateIffBase(rows, order, t, k);
    if Candidates(rows, order, BaseOf(t)) != [] {
      FirstOnce(rows, order, BaseOf(t));
    }
    StepByCandidates(ctx, before, order, t, k);
  }

  lemma {:induction false} StillInTable(rows: seq<Row>, before: seq<Row>, order: seq<nat>)
    requires Ordering(rows, order) && SameDb(rows, before)
    ensures InTable(rows, order) && InTable(before, order) && |rows| <= |before|
  {
  }

  lemma {:induction false} StepByCandidates(ctx: Context, before: seq<Row>, order: seq<nat>, t: Incoming, k: nat)
    requires InTable(before, order) && k < |before|
    requires var e, c := Existing(ctx, before, order, t), Matching(ctx, before, order, t);
             (c == [] ==> e.None?) && (c != [] ==> e == Some(c[0]) && c[0] !in c[1..])
    ensures k < |Process(ctx, before, order, t)|
    ensures Process(ctx, before, order, t)[k] ==
            if k !in Matching(ctx, before, order, t) then before[k]
            else if Existing(ctx, before, order, t) == Some(k)
            then Row(before[k].db, Written(ctx, before[k].mem, t), false)
            else before[k].(deleted := true)
  {
    hide Existing, Matching, Written, NewFields;
  }

  // ----- The rows between the two halves of the batch -----

  lemma {:induction false} RowHalfway(
      ctx: Context, rows: seq<Row>, orders: seq<seq<nat>>, txns: seq<Incoming>, k: nat)
    requires ctx.kind == Web3 && Clean(rows) && HasBases(ctx, txns) && k < |rows|
    requires |orders| == |txns| && AllInTable(rows, orders) && AllOrderings(rows, orders)
    ensures var mid := ProcessEach(ctx, rows, orders, txns);
            && |rows| <= |mid| && Base(mid[k].mem) == Base(rows[k].mem)
            && (Base(rows[k].mem) == "" ==> mid[k] == rows[k])
            && (Base(rows[k].mem) != "" ==>
                  && (mid[k].deleted <==> LastElsewhere(ctx, rows, orders, txns, k))
                  && mid[k].mem.externalId ==
                     if Reached(ctx, rows, orders, txns, k) then Some(Base(rows[k].mem)) else rows[k].mem.externalId)
  {
    hide Base, Process, Existing, Ordering, InBatch, HasBase;
    if txns == [] {
      assert !rows[k].deleted;
    } else {
      var n := |txns| - 1;
      BasesPrefix(ctx, txns);
      RowHalfway(ctx, rows, orders[..n], txns[..n], k);
      var before := ProcessEach(ctx, rows, orders[..n], txns[..n]);
      if InBatch(ctx, txns[n]) {
        StepOnRow(ctx, rows, before, orders[n], txns[n], k);
        WrittenId(ctx, before[k].mem, txns[n]);
      }
    }
  }

  lemma {:induction false} WrittenId(ctx: Context, f: Fields, t: Incoming)
    requires ctx.kind == Web3 && HasBase(t)
    ensures BaseOf(t) != "" && Written(ctx, f, t).externalId == Some(BaseOf(t)) && Base(Written(ctx, f, t)) == BaseOf(t)
  {
    hide Signed;
    BaseIsTruthy(t);
    NoColonKept(BaseOf(t));
  }

  /** A new row is stored under a base id that no stored row has. */
  ghost predicate IsNewRow(rows: seq<Row>, row: Row) {
    && row.db.None? && !row.deleted && Base(row.mem) != "" && row.mem.externalId == Some(Base(row.mem))
    && forall k :: 0 <= k < |rows| ==> Base(rows[k].mem) != Base(row.mem)
  }

  lemma {:induction false} NewRowsHalfway(
      ctx: Context, rows: seq<Row>, orders: seq<seq<nat>>, txns: seq<Incoming>, a: nat)
    requires ctx.kind == Web3 && Clean(rows) && HasBases(ctx, txns)
    requires |orders| == |txns| && AllInTable(rows, orders) && AllOrderings(rows, orders)
    requires |rows| <= a < |ProcessEach(ctx, rows, orders, txns)|
    ensures IsNewRow(rows, ProcessEach(ctx, rows, orders, txns)[a])
  {
    hide IsNewRow, Process, Ordering, InBatch, HasBase, Clean;
    var n := |txns| - 1;
    BasesPrefix(ctx, txns);
    var before := ProcessEach(ctx, rows, orders[..n], txns[..n]);
    if a < |before| {
      NewRowsHalfway(ctx, rows, orders[..n], txns[..n], a);
    }
    if InBatch(ctx, txns[n]) {
      StepOnNew(ctx, rows, before, orders[n], txns[n], a);
    }
  }

  lemma {:induction false} StepOnNew(
      ctx: Context, rows: seq<Row>, before: seq<Row>, order: seq<nat>, t: Incoming, a: nat)
    requires ctx.kind == Web3 && Clean(rows) && Ordering(rows, order) && HasBase(t) && SameDb(rows, before)
    requires InTable(before, order) && |rows| <= a < |Process(ctx, before, order, t)|
    ensures if a < |before| then Process(ctx, before, order, t)[a] == before[a]
            else IsNewRow(rows, Process(ctx, before, order, t)[a])
  {
    hide *;
    StillInTable(rows, before, order);
    ExistingStable(ctx, rows, before, order, t);
    WalletTarget(ctx, rows, order, t);
    NewRowStep(ctx, rows, before, order, t, a);
    if |before| <= a {
      NewFieldsId(ctx, t);
      CreatedIsNew(rows, t, NewFields(ctx, t));
    }
  }

  lemma {:induction false} NewRowStep(
      ctx: Context, rows: seq<Row>, before: seq<Row>, order: seq<nat>, t: Incoming, a: nat)
    requires SameDb(rows, before) && InTable(before, order) && |rows| <= a < |Process(ctx, before, order, t)|
    ensures if a < |before| then Process(ctx, before, order, t)[a] == before[a]
            else Existing(ctx, before, order, t).None?
                 && Process(ctx, before, order, t)[a] == Row(None, NewFields(ctx, t), false)
  {
    hide Written, NewFields;
  }

  lemma {:induction false} NewFieldsId(ctx: Context, t: Incoming)
    requires ctx.kind == Web3 && HasBase(t)
    ensures NewFields(ctx, t).externalId == Some(BaseOf(t)) && Base(NewFields(ctx, t)) == BaseOf(t) != ""
  {
    BaseIsTruthy(t);
    NoColonKept(BaseOf(t));
  }

  lemma {:induction false} CreatedIsNew(rows: seq<Row>, t: Incoming, f: Fields)
    requires Clean(rows) && HasBase(t) && f.externalId == Some(BaseOf(t)) && Base(f) == BaseOf(t) != ""
    requires forall k :: 0 <= k < |rows| && rows[k].db.Some? ==> Base(rows[k].db.value) != BaseOf(t)
    ensures IsNewRow(rows, Row(None, f, false))
  {
    hide Base;
    assert forall k :: 0 <= k < |rows| ==> rows[k].db == Some(rows[k].mem);
  }

  // ----- After the deduplication -----

  lemma {:induction false} TiedTable(
      ctx: Context, rows: seq<Row>, orders: seq<seq<nat>>, last: seq<nat>, fmt: Formats, txns: seq<Incoming>,
      r: seq<Row>)
    returns (mid: seq<Row>)
    requires TiedBatch(ctx, rows, orders, last, fmt, txns, r)
    ensures |orders| == |txns| && AllInTable(rows, orders) && mid == ProcessEach(ctx, rows, orders, txns)
    ensures SameDb(rows, mid) && Ordering(mid, last) && InTable(mid, last) && InTable(rows, last)
    ensures Deduped(mid, last, fmt, r) && |r| == |mid|
    ensures ctx.kind == Web3 && Clean(rows) && HasBases(ctx, txns) && AllOrderings(rows, orders) && Ordering(rows, last)
    ensures forall a :: |rows| <= a < |r| ==> a !in last && r[a] == mid[a]
  {
    mid := ProcessEach(ctx, rows, orders, txns);
    OrderingStays(rows, mid, last);
  }

  /** The keys are the same before the deduplication as before the batch. */
  lemma {:induction false} KeyHalfway(
      ctx: Context, rows: seq<Row>, orders: seq<seq<nat>>, txns: seq<Incoming>, fmt: Formats, k: nat)
    requires ctx.kind == Web3 && Clean(rows) && HasBases(ctx, txns) && k < |rows|
    requires |orders| == |txns| && AllInTable(rows, orders) && AllOrderings(rows, orders)
    ensures k < |ProcessEach(ctx, rows, orders, txns)|
    ensures Key(ProcessEach(ctx, rows, orders, txns)[k].mem, fmt) == Key(rows[k].mem, fmt)
  {
    hide *;
    RowHalfway(ctx, rows, orders, txns, k);
    if Base(rows[k].mem) != "" {
      KeyOfBase(rows[k].mem, fmt);
      KeyOfBase(ProcessEach(ctx, rows, orders, txns)[k].mem, fmt);
    }
  }

  lemma {:induction false} SeenHalfway(
      ctx: Context, rows: seq<Row>, orders: seq<seq<nat>>, last: seq<nat>, fmt: Formats, txns: seq<Incoming>,
      r: seq<Row>, p: nat)
    requires TiedBatch(ctx, rows, orders, last, fmt, txns, r) && p < |last|
    ensures InTable(rows, last) && InTable(ProcessEach(ctx, rows, orders, txns), last)
    ensures SeenBefore(ProcessEach(ctx, rows, orders, txns), last, fmt, p) <==> SeenBefore(rows, last, fmt, p)
  {
    var mid := TiedTable(ctx, rows, orders, last, fmt, txns, r);
    hide Key, TiedBatch, ProcessEach, Ordering, Clean, HasBases, AllOrderings, Deduped;
    forall q | 0 <= q < |last|
      ensures last[q] < |rows| && Key(mid[last[q]].mem, fmt) == Key(rows[last[q]].mem, fmt)
    {
      KeyHalfway(ctx, rows, orders, txns, fmt, last[q]);
    }
  }

  /** When the first row of its key is deleted all the same: the last leg of its hash went to another
      row, and its own id is the bare hash already, so that the deduplication has nothing to shorten. */
  predicate Lost(ctx: Context, rows: seq<Row>, orders: seq<seq<nat>>, txns: seq<Incoming>, k: nat)
    requires |orders| == |txns| && AllInTable(rows, orders) && k < |rows|
  {
    && Base(rows[k].mem) != "" && LastElsewhere(ctx, rows, orders, txns, k)
    && (rows[k].mem.externalId == Some(Base(rows[k].mem)) || Reached(ctx, rows, orders, txns, k))
  }

  lemma {:induction false} ShortenedDeleted(row: Row, fmt: Formats)
    ensures Shortened(row, fmt).deleted <==> row.deleted && Normalized(row.mem, fmt) == row.mem
    ensures Base(row.mem) != "" ==>
              (Normalized(row.mem, fmt) == row.mem <==> row.mem.externalId == Some(Base(row.mem)))
  {
    hide Key;
    if Base(row.mem) != "" {
      KeyOfBase(row.mem, fmt);
      NoColonKept(Base(row.mem));
      KeyShape(row.mem, fmt);
    }
  }

  lemma {:induction false} FirstIsLostIff(
      ctx: Context, rows: seq<Row>, orders: seq<seq<nat>>, last: seq<nat>, fmt: Formats, txns: seq<Incoming>,
      r: seq<Row>, p: nat)
    requires TiedBatch(ctx, rows, orders, last, fmt, txns, r) && p < |last| && InTable(rows, last)
    requires !SeenBefore(rows, last, fmt, p)
    ensures |orders| == |txns| && AllInTable(rows, orders) && last[p] < |r|
    ensures r[last[p]].deleted <==> Lost(ctx, rows, orders, txns, last[p])
  {
    var mid := TiedTable(ctx, rows, orders, last, fmt, txns, r);
    var k := last[p];
    assert r[k] == DedupedRow(mid, last, fmt, p);
    assert !rows[k].deleted;
    hide *;
    SeenHalfway(ctx, rows, orders, last, fmt, txns, r, p);
    DedupedRowIs(mid, last, fmt, p);
    ShortenedDeleted(mid[k], fmt);
    RowHalfway(ctx, rows, orders, txns, k);
    LostIs(ctx, rows, orders, txns, k);
  }

  lemma {:induction false} LostIs(ctx: Context, rows: seq<Row>, orders: seq<seq<nat>>, txns: seq<Incoming>, k: nat)
    requires |orders| == |txns| && AllInTable(rows, orders) && k < |rows|
    ensures Lost(ctx, rows, orders, txns, k) <==>
            Base(rows[k].mem) != "" && LastElsewhere(ctx, rows, orders, txns, k)
            && (rows[k].mem.externalId == Some(Base(rows[k].mem)) || Reached(ctx, rows, orders, txns, k))
  {
    hide Base, LastElsewhere, Reached;
  }

  /** A key that a stored row had is held by no row after the batch. */
  ghost predicate KeyIsGone(r: seq<Row>, fmt: Formats, key: string) {
    forall s :: 0 <= s < |r| && Key(r[s].mem, fmt) == key ==> r[s].deleted
  }

  /** Exactly when a key is lost, whatever the queries make of equal times. */
  lemma {:induction false} KeyIsLostIff(
      ctx: Context, rows: seq<Row>, orders: seq<seq<nat>>, last: seq<nat>, fmt: Formats, txns: seq<Incoming>,
      r: seq<Row>, p: nat)
    requires TiedBatch(ctx, rows, orders, last, fmt, txns, r) && p < |last| && InTable(rows, last)
    requires !SeenBefore(rows, last, fmt, p)
    ensures |orders| == |txns| && AllInTable(rows, orders)
    ensures KeyIsGone(r, fmt, Key(rows[last[p]].mem, fmt)) <==> Lost(ctx, rows, orders, txns, last[p])
  {
    var mid := TiedTable(ctx, rows, orders, last, fmt, txns, r);
    var k := last[p];
    hide *;
    FirstIsLostIff(ctx, rows, orders, last, fmt, txns, r, p);
    KeyAfter(ctx, rows, orders, last, fmt, txns, r, p);
    if Lost(ctx, rows, orders, txns, k) {
      forall s | 0 <= s < |r| && Key(r[s].mem, fmt) == Key(rows[k].mem, fmt)
        ensures r[s].deleted
      {
        OthersDeleted(ctx, rows, orders, last, fmt, txns, r, p, s);
      }
      GoneWhen(r, fmt, Key(rows[k].mem, fmt));
    } else {
      NotGoneWhen(r, fmt, k);
    }
  }

  lemma {:induction false} GoneWhen(r: seq<Row>, fmt: Formats, key: string)
    requires forall s :: 0 <= s < |r| && Key(r[s].mem, fmt) == key ==> r[s].deleted
    ensures KeyIsGone(r, fmt, key)
  {
    hide Key;
  }

  lemma {:induction false} NotGoneWhen(r: seq<Row>, fmt: Formats, s: nat)
    requires s < |r| && !r[s].deleted
    ensures !KeyIsGone(r, fmt, Key(r[s].mem, fmt))
  {
    hide Key;
  }

  lemma {:induction false} KeyAfter(
      ctx: Context, rows: seq<Row>, orders: seq<seq<nat>>, last: seq<nat>, fmt: Formats, txns: seq<Incoming>,
      r: seq<Row>, p: nat)
    requires TiedBatch(ctx, rows, orders, last, fmt, txns, r) && p < |last|
    ensures last[p] < |rows| <= |r| && Key(r[last[p]].mem, fmt) == Key(rows[last[p]].mem, fmt)
    ensures InTable(rows, last) && (SeenBefore(rows, last, fmt, p) ==> r[last[p]].deleted)
  {
    var mid := TiedTable(ctx, rows, orders, last, fmt, txns, r);
    assert r[last[p]] == DedupedRow(mid, last, fmt, p);
    assert last[p] < |rows|;
    hide *;
    SeenHalfway(ctx, rows, orders, last, fmt, txns, r, p);
    DedupedRowIs(mid, last, fmt, p);
    KeyHalfway(ctx, rows, orders, txns, fmt, last[p]);
    NormalizedKeepsKey(mid[last[p]].mem, fmt);
  }

  /** Where a key is lost, the other rows that had it are deleted and no new row takes it. */
  lemma {:induction false} OthersDeleted(
      ctx: Context, rows: seq<Row>, orders: seq<seq<nat>>, last: seq<nat>, fmt: Formats, txns: seq<Incoming>,
      r: seq<Row>, p: nat, s: nat)
    requires TiedBatch(ctx, rows, orders, last, fmt, txns, r) && p < |last| && InTable(rows, last)
    requires !SeenBefore(rows, last, fmt, p) && s < |r| && Key(r[s].mem, fmt) == Key(rows[last[p]].mem, fmt)
    requires |orders| == |txns| && AllInTable(rows, orders) && Lost(ctx, rows, orders, txns, last[p])
    ensures r[s].deleted
  {
    var mid := TiedTable(ctx, rows, orders, last, fmt, txns, r);
    hide *;
    if s < |rows| {
      var q := CleanOrder(rows, last, s);
      KeyAfter(ctx, rows, orders, last, fmt, txns, r, q);
      if q == p {
        FirstIsLostIff(ctx, rows, orders, last, fmt, txns, r, p);
      } else {
        SameKeySeen(rows, last, fmt, p, q);
      }
    } else {
      NewRowHasOtherKey(ctx, rows, orders, txns, fmt, s, last[p]);
    }
  }

  lemma {:induction false} NewRowHasOtherKey(
      ctx: Context, rows: seq<Row>, orders: seq<seq<nat>>, txns: seq<Incoming>, fmt: Formats, s: nat, k: nat)
    requires ctx.kind == Web3 && Clean(rows) && HasBases(ctx, txns) && k < |rows|
    requires |orders| == |txns| && AllInTable(rows, orders) && AllOrderings(rows, orders)
    requires |rows| <= s < |ProcessEach(ctx, rows, orders, txns)| && Lost(ctx, rows, orders, txns, k)
    ensures Key(ProcessEach(ctx, rows, orders, txns)[s].mem, fmt) != Key(rows[k].mem, fmt)
  {
    hide *;
    NewRowsHalfway(ctx, rows, orders, txns, s);
    LostIs(ctx, rows, orders, txns, k);
    NewKeyDiffers(rows, ProcessEach(ctx, rows, orders, txns)[s], fmt, k);
  }

  lemma {:induction false} SameKeySeen(rows: seq<Row>, last: seq<nat>, fmt: Formats, p: nat, q: nat)
    requires InTable(rows, last) && p < |last| && q < |last| && p != q && !SeenBefore(rows, last, fmt, p)
    requires Key(rows[last[p]].mem, fmt) == Key(rows[last[q]].mem, fmt)
    ensures SeenBefore(rows, last, fmt, q)
  {
    hide Key;
  }

  lemma {:induction false} NewKeyDiffers(rows: seq<Row>, row: Row, fmt: Formats, k: nat)
    requires IsNewRow(rows, row) && k < |rows| && Base(rows[k].mem) != ""
    ensures Key(row.mem, fmt) != Key(rows[k].mem, fmt)
  {
    hide Base;
    KeyOfBase(row.mem, fmt);
    KeyOfBase(rows[k].mem, fmt);
  }

  // ----- One row per base id, whatever the orderings -----

  lemma {:induction false} TiedSettledId(
      ctx: Context, rows: seq<Row>, orders: seq<seq<nat>>, last: seq<nat>, fmt: Formats, txns: seq<Incoming>,
      r: seq<Row>, a: nat)
    requires TiedBatch(ctx, rows, orders, last, fmt, txns, r) && a < |r|
    ensures !r[a].deleted && Base(r[a].mem) != "" ==> r[a].mem.externalId == Some(Base(r[a].mem))
  {
    var mid := TiedTable(ctx, rows, orders, last, fmt, txns, r);
    if a < |rows| {
      var p := CleanOrder(rows, last, a);
      assert r[a] == DedupedRow(mid, last, fmt, p);
      hide *;
      DedupedRowIs(mid, last, fmt, p);
      NormalizedKeepsKey(mid[a].mem, fmt);
    } else {
      NewRowsHalfway(ctx, rows, orders, txns, a);
    }
  }

  lemma {:induction false} TiedOneRowPerBase(
      ctx: Context, rows: seq<Row>, orders: seq<seq<nat>>, last: seq<nat>, fmt: Formats, txns: seq<Incoming>,
      r: seq<Row>, i: nat, j: nat)
    requires TiedBatch(ctx, rows, orders, last, fmt, txns, r) && CommitOk(r)
    requires i < |Committed(r)| && j < |Committed(r)| && i != j
    requires Base(Committed(r)[i].mem) != "" && Base(Committed(r)[j].mem) != ""
    ensures Base(Committed(r)[i].mem) != Base(Committed(r)[j].mem)
  {
    hide TiedBatch, Base, Committed, CommitOk;
    CommittedRows(r);
    var a, b := Live(r)[i], Live(r)[j];
    TiedSettledId(ctx, rows, orders, last, fmt, txns, r, a);
    TiedSettledId(ctx, rows, orders, last, fmt, txns, r, b);
    NoClashAt(r, a, b);
  }

  lemma {:induction false} NoClashAt(r: seq<Row>, a: nat, b: nat)
    requires CommitOk(r) && a < |r| && b < |r| && a != b && !r[a].deleted && !r[b].deleted
    ensures r[a].mem.externalId.Some? ==> r[a].mem.externalId != r[b].mem.externalId
  {
    assert !Clash(r[a], r[b]);
  }

  // ----- A hash that is lost -----

  lemma {:induction false} SecondIsTarget(ctx: Context, rows: seq<Row>, t: Incoming)
    requires ctx.kind == Web3 && Clean(rows) && |rows| == 2 && Ordering(rows, [1, 0]) && HasBase(t)
    requires Base(rows[1].mem) == BaseOf(t)
    ensures InTable(rows, [1, 0]) && Existing(ctx, rows, [1, 0], t) == Some(1)
  {
    var order: seq<nat> := [1, 0];
    OrderingInTable(rows, order);
    WalletTarget(ctx, rows, order, t);
    CandidateIffBase(rows, order, t, 1);
    BaseIsTruthy(t);
    MatchIsSameBase(rows[1].mem, BaseOf(t));
    var p := FirstCandidate(rows, order, BaseOf(t));
    hide Candidates, Existing, Matching, MatchesBase, Base;
    assert order[0] == 1 && rows[1].db == Some(rows[1].mem);
  }

  lemma {:induction false} OnlyTransaction(
      ctx: Context, rows: seq<Row>, orders: seq<seq<nat>>, txns: seq<Incoming>, k: nat)
    requires |txns| == |orders| == 1 && AllInTable(rows, orders) && k < |rows| && InBatch(ctx, txns[0])
    requires Existing(ctx, rows, orders[0], txns[0]).Some?
    ensures |ProcessEach(ctx, rows, orders, txns)| == |rows|
    ensures LastElsewhere(ctx, rows, orders, txns, k) <==>
            IsLegOf(ctx, txns[0], rows[k]) && Existing(ctx, rows, orders[0], txns[0]) != Some(k)
  {
    hide Existing, Process, IsLegOf, InBatch;
    assert txns[..0] == [] && orders[..0] == [];
    ProcessSize(ctx, rows, orders[0], txns[0]);
  }

  /** Two rows of one hash and one time, the first under the bare id, listed one way by the transaction's
      query and the other way by the deduplication: both are deleted, and the commit succeeds. */
  lemma {:induction false} OppositeTiesDeleteBoth(ctx: Context, rows: seq<Row>, t: Incoming, fmt: Formats, r: seq<Row>)
    requires TiedBatch(ctx, rows, [[1, 0]], [0, 1], fmt, [t], r) && |rows| == 2 && InBatch(ctx, t) && HasBase(t)
    requires rows[0].mem.externalId == Some(BaseOf(t)) && Base(rows[1].mem) == BaseOf(t)
    ensures CommitOk(r) && Committed(r) == []
  {
    FirstOfTwoIsLost(ctx, rows, t, fmt, r);
    SecondOfTwoIsSeen(rows, t, fmt);
    hide *;
    KeyAfter(ctx, rows, [[1, 0]], [0, 1], fmt, [t], r, 1);
    AllDeleted(r);
  }

  lemma {:induction false} SecondOfTwoIsSeen(rows: seq<Row>, t: Incoming, fmt: Formats)
    requires |rows| == 2 && HasBase(t) && InTable(rows, [0, 1])
    requires rows[0].mem.externalId == Some(BaseOf(t)) && Base(rows[1].mem) == BaseOf(t)
    ensures Base(rows[0].mem) == BaseOf(t) && SeenBefore(rows, [0, 1], fmt, 1)
  {
    NoColonKept(BaseOf(t));
    KeyOfBase(rows[0].mem, fmt);
    KeyOfBase(rows[1].mem, fmt);
    hide Key, Base;
    var order: seq<nat> := [0, 1];
    assert Key(rows[order[0]].mem, fmt) == Key(rows[order[1]].mem, fmt);
  }

  lemma {:induction false} FirstOfTwoIsLost(ctx: Context, rows: seq<Row>, t: Incoming, fmt: Formats, r: seq<Row>)
    requires TiedBatch(ctx, rows, [[1, 0]], [0, 1], fmt, [t], r) && |rows| == 2 && InBatch(ctx, t) && HasBase(t)
    requires rows[0].mem.externalId == Some(BaseOf(t)) && Base(rows[1].mem) == BaseOf(t)
    ensures InTable(rows, [0, 1]) && |r| == 2 && r[0].deleted
  {
    var orders: seq<seq<nat>>, last: seq<nat> := [[1, 0]], [0, 1];
    var mid := TiedTable(ctx, rows, orders, last, fmt, [t], r);
    SecondOfTwoIsSeen(rows, t, fmt);
    assert Ordering(rows, orders[0]);
    hide TiedBatch, Key, ProcessEach, Ordering, Clean, HasBases, Existing, LastElsewhere, Reached, Deduped, Base;
    SecondIsTarget(ctx, rows, t);
    OnlyTransaction(ctx, rows, orders, [t], 0);
    FirstIsLostIff(ctx, rows, orders, last, fmt, [t], r, 0);
  }

  lemma {:induction false} AllDeleted(r: seq<Row>)
    requires forall k :: 0 <= k < |r| ==> r[k].deleted
    ensures CommitOk(r) && Committed(r) == []
  {
    if r == [] {
    } else {
      AllDeleted(r[..|r| - 1]);
    }
  }
}
