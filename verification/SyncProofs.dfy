/** What a sync leaves in the account's rows. */
module SyncProofs {
  import opened Text
  import opened UnitOfWork
  import opened SyncStore

  /** The state between sessions: nothing pending. */
  ghost predicate Clean(rows: seq<Row>) {
    forall k :: 0 <= k < |rows| ==> rows[k] == Row(Some(rows[k].mem), rows[k].mem, false)
  }

  /** The unique index on the external id. */
  ghost predicate UniqueIds(rows: seq<Row>) {
    forall i, j :: 0 <= i < |rows| && 0 <= j < |rows| && i != j && rows[i].mem.externalId.Some?
      ==> rows[i].mem.externalId != rows[j].mem.externalId
  }

  // ----- Equal times listed alike -----

  /** The batch when all of its queries list rows of one time in the same order. */
  function ProcessAll(ctx: Context, rows: seq<Row>, order: seq<nat>, txns: seq<Incoming>): (r: seq<Row>)
    requires InTable(rows, order)
    ensures SameDb(rows, r) && InTable(r, order)
  {
    if txns == [] then rows
    else
      var n := |txns| - 1;
      var before := ProcessAll(ctx, rows, order, txns[..n]);
      if InBatch(ctx, txns[n]) then Process(ctx, before, order, txns[n]) else before
  }

  lemma {:induction false} AllAlike(
      ctx: Context, rows: seq<Row>, orders: seq<seq<nat>>, order: seq<nat>, txns: seq<Incoming>)
    requires |orders| == |txns| && InTable(rows, order) && forall i :: 0 <= i < |orders| ==> orders[i] == order
    ensures AllInTable(rows, orders) && ProcessEach(ctx, rows, orders, txns) == ProcessAll(ctx, rows, order, txns)
  {
    hide InBatch, Process;
    if txns == [] {
    } else {
      AllAlike(ctx, rows, orders[..|txns| - 1], order, txns[..|txns| - 1]);
    }
  }

  // ----- The batch in closed form -----

  lemma {:induction false} CandidatesStable(a: seq<Row>, b: seq<Row>, order: seq<nat>, base: string)
    requires SameDb(a, b) && InTable(a, order) && InTable(b, order)
    ensures Candidates(a, order, base) == Candidates(b, order, base)
  {
    hide MatchesBase;
    if order == [] {
    } else {
      CandidatesStable(a, b, order[1..], base);
    }
  }

  lemma {:induction false} FirstWithIdStable(a: seq<Row>, b: seq<Row>, id: Option<string>)
    requires SameDb(a, b)
    ensures FirstWithId(a, id) == FirstWithId(b, id)
  {
  }

  lemma {:induction false} ExistingStable(ctx: Context, a: seq<Row>, b: seq<Row>, order: seq<nat>, t: Incoming)
    requires SameDb(a, b) && InTable(a, order) && InTable(b, order)
    ensures Matching(ctx, a, order, t) == Matching(ctx, b, order, t)
    ensures Existing(ctx, a, order, t) == Existing(ctx, b, order, t)
  {
    hide Candidates, FirstWithId;
    FirstWithIdStable(a, b, IdOf(ctx.kind, t));
    if ctx.kind == Web3 && Truthy(t.txId) {
      CandidatesStable(a, b, order, BeforeColon(t.txId.value));
    }
  }

  /** What the batch's updates make of row k, one after the other. */
  function Writes(ctx: Context, rows: seq<Row>, order: seq<nat>, txns: seq<Incoming>, k: nat, f: Fields): Fields
    requires InTable(rows, order)
  {
    if txns == [] then f
    else
      var n := |txns| - 1;
      var before := Writes(ctx, rows, order, txns[..n], k, f);
      if InBatch(ctx, txns[n]) && Existing(ctx, rows, order, txns[n]) == Some(k)
          then Written(ctx, before, txns[n])
          else before
  }

  /** Whether row k is pending deletion after the batch: a deletion is taken back by an update of the row. */
  function Pending(ctx: Context, rows: seq<Row>, order: seq<nat>, txns: seq<Incoming>, k: nat, d: bool): bool
    requires InTable(rows, order)
  {
    if txns == [] then d
    else
      var n := |txns| - 1;
      var before := Pending(ctx, rows, order, txns[..n], k, d);
      var candidates := Matching(ctx, rows, order, txns[n]);
      if !InBatch(ctx, txns[n]) then before
      else if Existing(ctx, rows, order, txns[n]) == Some(k) then false
      else before || (candidates != [] && k in candidates[1..])
  }

  /** The rows the batch creates. */
  function Created(ctx: Context, rows: seq<Row>, order: seq<nat>, txns: seq<Incoming>): seq<Row>
    requires InTable(rows, order)
  {
    if txns == [] then []
    else
      var n := |txns| - 1;
      var before := Created(ctx, rows, order, txns[..n]);
      if InBatch(ctx, txns[n]) && Existing(ctx, rows, order, txns[n]).None?
      then before + [Row(None, NewFields(ctx, txns[n]), false)]
      else before
  }

  ghost predicate BatchForm(ctx: Context, rows: seq<Row>, order: seq<nat>, txns: seq<Incoming>, r: seq<Row>)
    requires InTable(rows, order)
  {
    && |r| == |rows| + |Created(ctx, rows, order, txns)|
    && (forall k :: 0 <= k < |rows| ==>
          r[k] == Row(rows[k].db, Writes(ctx, rows, order, txns, k, rows[k].mem),
                      Pending(ctx, rows, order, txns, k, rows[k].deleted)))
    && r[|rows|..] == Created(ctx, rows, order, txns)
  }

  /** Every query of the batch sees the same database, so the batch is the sum of its parts. */
  lemma {:induction false} BatchInClosedForm(ctx: Context, rows: seq<Row>, order: seq<nat>, txns: seq<Incoming>)
    requires InTable(rows, order)
    ensures BatchForm(ctx, rows, order, txns, ProcessAll(ctx, rows, order, txns))
  {
    hide BatchForm, Process;
    if txns == [] {
      EmptyBatch(ctx, rows, order);
    } else {
      var n := |txns| - 1;
      BatchInClosedForm(ctx, rows, order, txns[..n]);
      assert txns[..n] + [txns[n]] == txns;
      var before := ProcessAll(ctx, rows, order, txns[..n]);
      if InBatch(ctx, txns[n]) {
        ExtendBatch(ctx, rows, order, txns[..n], txns[n], before);
      } else {
        SkipOutsideBatch(ctx, rows, order, txns[..n], txns[n], before);
      }
    }
  }

  lemma {:induction false} EmptyBatch(ctx: Context, rows: seq<Row>, order: seq<nat>)
    requires InTable(rows, order)
    ensures BatchForm(ctx, rows, order, [], rows)
  {
  }

  lemma {:induction false} SkipOutsideBatch(
      ctx: Context, rows: seq<Row>, order: seq<nat>, txns: seq<Incoming>, t: Incoming, before: seq<Row>)
    requires InTable(rows, order) && BatchForm(ctx, rows, order, txns, before) && !InBatch(ctx, t)
    ensures BatchForm(ctx, rows, order, txns + [t], before)
  {
    hide Existing, Matching, Written, NewFields, InBatch;
    assert (txns + [t])[..|txns|] == txns;
  }

  lemma {:induction false} ExtendBatch(
      ctx: Context, rows: seq<Row>, order: seq<nat>, txns: seq<Incoming>, t: Incoming, before: seq<Row>)
    requires InTable(rows, order) && SameDb(rows, before) && InTable(before, order)
    requires BatchForm(ctx, rows, order, txns, before) && InBatch(ctx, t)
    ensures BatchForm(ctx, rows, order, txns + [t], Process(ctx, before, order, t))
  {
    hide Existing, Matching, Written, NewFields;
    ExistingStable(ctx, rows, before, order, t);
    assert (txns + [t])[..|txns|] == txns;
    var existing := Existing(ctx, rows, order, t);
    var r := Process(ctx, before, order, t);
    if existing.None? {
      assert r[|rows|..] == before[|rows|..] + [Row(None, NewFields(ctx, t), false)];
    } else {
      assert existing.value < |rows|;
      assert r[|rows|..] == before[|rows|..];
    }
  }

  // ----- Keys -----

  predicate IsFallback(key: string) {
    StartsWith(key, "fallback:")
  }

  lemma {:induction false} FallbackHasColon(key: string)
    requires IsFallback(key)
    ensures ':' in key
  {
    assert key[..9][8] == "fallback:"[8] == key[8];
  }

  /** A key is either a base id, without a colon, or a fallback key; never both, never empty. */
  lemma {:induction false} KeyShape(f: Fields, fmt: Formats)
    ensures Key(f, fmt) != ""
    ensures IsFallback(Key(f, fmt)) <==> ':' in Key(f, fmt)
    ensures IsFallback(Key(f, fmt)) ==> Base(f) == "" && Key(f, fmt) == FallbackKey(f, fmt)
  {
    hide ExtractTxId, BeforeColon;
    var key := Key(f, fmt);
    if key == FallbackKey(f, fmt) {
      assert key[..9] == "fallback:";
    }
    if IsFallback(key) {
      FallbackHasColon(key);
    }
  }

  /** So rows that share a key are of the same kind. */
  lemma {:induction false} FallbackNeverMeetsBase(f: Fields, g: Fields, fmt: Formats)
    requires Key(f, fmt) == Key(g, fmt)
    ensures IsFallback(Key(f, fmt)) ==> Key(g, fmt) == FallbackKey(g, fmt) && Base(g) == ""
    ensures !IsFallback(Key(f, fmt)) ==> ':' !in Key(g, fmt)
  {
    hide Key, FallbackKey, Base;
    KeyShape(f, fmt);
    KeyShape(g, fmt);
  }

  /** Normalising an id keeps the key, settles the id and changes nothing else. */
  lemma {:induction false} NormalizedKeepsKey(f: Fields, fmt: Formats)
    ensures Key(Normalized(f, fmt), fmt) == Key(f, fmt)
    ensures Normalized(Normalized(f, fmt), fmt) == Normalized(f, fmt)
    ensures Normalized(f, fmt).(externalId := f.externalId) == f
    ensures Base(f) != "" ==> Normalized(f, fmt).externalId == Some(Base(f)) && Base(Normalized(f, fmt)) == Base(f)
    ensures Truthy(f.externalId) <==> Truthy(Normalized(f, fmt).externalId)
    ensures Base(Normalized(f, fmt)) != "" ==> Normalized(f, fmt).externalId == Some(Base(Normalized(f, fmt)))
  {
    assert BeforeColon("") == "";
    hide ExtractTxId, BeforeColon, FallbackKey, StartsWith;
    KeyShape(f, fmt);
    var key := Key(f, fmt);
    if ':' !in key {
      NoColonKept(key);
    }
    if Base(f) != "" {
      NoColonKept(Base(f));
    }
  }

  // ----- Deduplication -----

  /** Among the rows a query sees, no two survivors share a key. */
  lemma {:induction false} SurvivorsDiffer(rows: seq<Row>, order: seq<nat>, fmt: Formats, r: seq<Row>, i: nat, j: nat)
    requires Ordering(rows, order) && Deduped(rows, order, fmt, r)
    requires i < j < |order| && !r[order[i]].deleted && !r[order[j]].deleted
    ensures Key(r[order[i]].mem, fmt) != Key(r[order[j]].mem, fmt)
  {
    hide Key, Normalized;
    NormalizedKeepsKey(rows[order[i]].mem, fmt);
    NormalizedKeepsKey(rows[order[j]].mem, fmt);
    assert r[order[i]] == DedupedRow(rows, order, fmt, i) && r[order[j]] == DedupedRow(rows, order, fmt, j);
    assert !SeenBefore(rows, order, fmt, j);
  }

  lemma {:induction false} FirstHolder(rows: seq<Row>, order: seq<nat>, fmt: Formats, i: nat) returns (j: nat)
    requires InTable(rows, order) && i < |order|
    ensures j <= i && Key(rows[order[j]].mem, fmt) == Key(rows[order[i]].mem, fmt) && !SeenBefore(rows, order, fmt, j)
  {
    hide Key;
    if SeenBefore(rows, order, fmt, i) {
      var m :| 0 <= m < i && Key(rows[order[m]].mem, fmt) == Key(rows[order[i]].mem, fmt);
      j := FirstHolder(rows, order, fmt, m);
    } else {
      j := i;
    }
  }

  /** Only later rows of a key may be pending deletion when the deduplication starts. */
  ghost predicate FirstsLive(rows: seq<Row>, order: seq<nat>, fmt: Formats)
    requires InTable(rows, order)
  {
    forall i :: 0 <= i < |order| && rows[order[i]].deleted ==> SeenBefore(rows, order, fmt, i)
  }

  /** The survivor of a key is the newest of its rows. */
  lemma {:induction false} KeySurvives(
      rows: seq<Row>, order: seq<nat>, fmt: Formats, r: seq<Row>, i: nat)
    returns (s: nat)
    requires Ordering(rows, order) && Deduped(rows, order, fmt, r) && FirstsLive(rows, order, fmt)
    requires i < |order|
    ensures s in order && s < |r| && !r[s].deleted && Key(r[s].mem, fmt) == Key(rows[order[i]].mem, fmt)
    ensures r[s].mem == Normalized(rows[s].mem, fmt)
    ensures rows[s].db.Some? && rows[s].db.value.ts >= rows[order[i]].db.value.ts
  {
    hide Key, Normalized, SeenBefore;
    var j := FirstHolder(rows, order, fmt, i);
    s := order[j];
    DedupedRowIs(rows, order, fmt, j);
    NormalizedKeepsKey(rows[s].mem, fmt);
  }

  // ----- Deduplicating a clean account -----

  lemma {:induction false} CleanOrder(rows: seq<Row>, order: seq<nat>, k: nat) returns (i: nat)
    requires Ordering(rows, order) && Clean(rows) && k < |rows|
    ensures i < |order| && order[i] == k
  {
    assert rows[k].db.Some?;
    i :| 0 <= i < |order| && order[i] == k;
  }

  /** No key is lost, and the row that keeps it is a newest one, unchanged but for its id. */
  lemma {:induction false} DedupeLosesNoKey(
      rows: seq<Row>, order: seq<nat>, fmt: Formats, r: seq<Row>, k: nat)
    returns (s: nat)
    requires Clean(rows) && Ordering(rows, order) && Deduped(rows, order, fmt, r) && k < |rows|
    ensures s < |r| && !r[s].deleted && Key(r[s].mem, fmt) == Key(rows[k].mem, fmt)
    ensures r[s].mem == Normalized(rows[s].mem, fmt) && rows[s].mem.ts >= rows[k].mem.ts
  {
    hide Key, Normalized, DedupedRow;
    var i := CleanOrder(rows, order, k);
    assert forall j :: 0 <= j < |order| ==> !rows[order[j]].deleted;
    s := KeySurvives(rows, order, fmt, r, i);
  }

  /** The survivors have pairwise distinct keys. */
  lemma {:induction false} DedupeLeavesDistinctKeys(
      rows: seq<Row>, order: seq<nat>, fmt: Formats, r: seq<Row>, a: nat, b: nat)
    requires Clean(rows) && Ordering(rows, order) && Deduped(rows, order, fmt, r)
    requires a < |r| && b < |r| && a != b && !r[a].deleted && !r[b].deleted
    ensures Key(r[a].mem, fmt) != Key(r[b].mem, fmt)
  {
    hide Key, Normalized, DedupedRow;
    var i := CleanOrder(rows, order, a);
    var j := CleanOrder(rows, order, b);
    if i < j {
      SurvivorsDiffer(rows, order, fmt, r, i, j);
    } else {
      SurvivorsDiffer(rows, order, fmt, r, j, i);
    }
  }

  // ----- What a commit keeps -----

  /** The positions of the rows that survive a commit. */
  function Live(rows: seq<Row>): (r: seq<nat>)
    ensures forall i :: 0 <= i < |r| ==> r[i] < |rows| && !rows[r[i]].deleted
    ensures forall i, j :: 0 <= i < j < |r| ==> r[i] < r[j]
    ensures forall k :: 0 <= k < |rows| && !rows[k].deleted ==> k in r
  {
    if rows == [] then []
    else
      var n := |rows| - 1;
      if rows[n].deleted then Live(rows[..n]) else Live(rows[..n]) + [n]
  }

  lemma {:induction false} CommittedRows(rows: seq<Row>)
    ensures |Committed(rows)| == |Live(rows)| && Clean(Committed(rows))
    ensures forall i :: 0 <= i < |Live(rows)| ==> Committed(rows)[i].mem == rows[Live(rows)[i]].mem
  {
    if rows == [] {
    } else {
      CommittedRows(rows[..|rows| - 1]);
    }
  }

  /** A second run over the committed survivors changes nothing at all. */
  lemma {:induction false} DedupeIsIdempotent(
      rows: seq<Row>, order: seq<nat>, fmt: Formats, r: seq<Row>, order': seq<nat>, r': seq<Row>)
    requires Clean(rows) && Ordering(rows, order) && Deduped(rows, order, fmt, r)
    requires Ordering(Committed(r), order') && Deduped(Committed(r), order', fmt, r')
    ensures r' == Committed(r)
  {
    hide Key, Normalized, Committed, DedupedRow, Ordering, Clean;
    var c := Committed(r);
    CommittedRows(r);
    AllInOrder(c, order');
    forall i | 0 <= i < |order'|
      ensures r'[order'[i]] == c[order'[i]]
    {
      CleanSurvivor(rows, order, fmt, r, order', i);
      DedupedRowIs(c, order', fmt, i);
    }
    assert forall k :: 0 <= k < |c| ==> r'[k] == c[k];
  }

  lemma {:induction false} AllInOrder(c: seq<Row>, order: seq<nat>)
    requires Ordering(c, order) && Clean(c)
    ensures InTable(c, order) && forall k :: 0 <= k < |c| ==> k in order
  {
  }

  lemma {:induction false} CleanSurvivor(
      rows: seq<Row>, order: seq<nat>, fmt: Formats, r: seq<Row>, order': seq<nat>, i: nat)
    requires Clean(rows) && Ordering(rows, order) && Deduped(rows, order, fmt, r)
    requires Ordering(Committed(r), order') && i < |order'|
    ensures var c := Committed(r);
            InTable(c, order') && !SeenBefore(c, order', fmt, i)
                && Normalized(c[order'[i]].mem, fmt) == c[order'[i]].mem
  {
    hide Key, Normalized, Committed, DedupedRow;
    var c := Committed(r);
    CommittedRows(r);
    forall j | 0 <= j < i
      ensures Key(c[order'[j]].mem, fmt) != Key(c[order'[i]].mem, fmt)
    {
      DedupeLeavesDistinctKeys(rows, order, fmt, r, Live(r)[order'[j]], Live(r)[order'[i]]);
    }
    var a := Live(r)[order'[i]];
    var p := CleanOrder(rows, order, a);
    DedupedRowIs(rows, order, fmt, p);
    NormalizedKeepsKey(rows[a].mem, fmt);
  }
}
