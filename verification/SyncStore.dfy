/** Syncing wallet and exchange transactions into the rows of one account.

    The database session does not flush before a query, so a query filters and sorts on what the database
    holds while the code reads and changes the rows in memory: new rows are invisible to queries, and a
    row marked deleted stays visible, until the commit.

    Queries that sort by time may order equal times as the database likes: `order` is the ordering of
    one query.
  */
module SyncStore {
  import opened Text
  import opened UnitOfWork

  /** One fetched transaction; `date` is its midnight and `raw` the cleaned record itself. */
  datatype Incoming = Incoming(
    date: int, txId: Option<string>, amount: int, currency: Option<string>, direction: Option<string>, raw: Json)

  datatype Kind = Web3 | Cex | Traditional | OtherKind

  /** What stays fixed during a batch. The labelling rules are not modelled further. */
  datatype Context = Context(kind: Kind, fallbackCurrency: string, minDate: Option<int>, labels: Incoming -> Labels)

  /** How timestamps, amounts and odd direction values print. */
  datatype Formats = Formats(ts: int -> string, amount: int -> string, json: Json -> string)

  function Truthy(s: Option<string>): bool {
    s.Some? && s.value != ""
  }

  // ----- Transaction ids inside the raw record -----

  const ID_KEYS := ["tx_id", "transaction_id", "hash", "Hash", "txid", "signature", "Signature"]

  function Field(obj: Json, key: string): Json {
    if obj.Obj? && key in obj.fields then obj.fields[key] else Null
  }

  function JsonTruthy(j: Json): bool {
    match j
    case Null => false
    case Str(s) => s != ""
    case Obj(fields) => fields != map[]
    case Other(truthy) => truthy
  }

  /** The first non-empty string under one of the keys. */
  function FirstString(obj: Json, keys: seq<string>): (r: Option<string>)
    ensures r.Some? ==> r.value != ""
  {
    if keys == [] then None
    else
      var v := Field(obj, keys[0]);
      if v.Str? && v.s != "" then Some(v.s) else FirstString(obj, keys[1..])
  }

  function FirstNested(raw: Json, keys: seq<string>): (r: Option<string>)
    ensures r.Some? ==> r.value != ""
  {
    if keys == [] then None
    else
      var v := FirstString(Field(raw, keys[0]), ID_KEYS);
      if v.Some? then v else FirstNested(raw, keys[1..])
  }

  function FirstTransfer(raw: Json, keys: seq<string>): (r: Option<string>)
    ensures r.Some? ==> r.value != ""
  {
    if keys == [] then None
    else
      var nested := Field(raw, keys[0]);
      var v := FirstString(nested, ID_KEYS);
      if v.Some? then v
      else
        var inner := if JsonTruthy(Field(nested, "Transaction"))
            then Field(nested, "Transaction")
            else Field(nested, "transaction");
        var w := FirstString(inner, ID_KEYS);
        if w.Some? then w else FirstTransfer(raw, keys[1..])
  }

  function ExtractTxId(raw: Json): (r: Option<string>)
    ensures r.Some? ==> r.value != ""
  {
    var direct := FirstString(raw, ID_KEYS);
    if direct.Some? then direct
    else
      var nested := FirstNested(raw, ["Transaction", "transaction", "tx"]);
      if nested.Some? then nested
      else FirstTransfer(raw, ["Transfer", "transfer", "Payment", "payment"])
  }

  // ----- The three-level key -----

  /** The part of the external id before its first colon; empty when there is no id. */
  function Base(f: Fields): string {
    if f.externalId.Some? then BeforeColon(f.externalId.value) else ""
  }

  function DirectionOf(raw: Json, fmt: Formats): string {
    var d := Field(raw, "direction");
    if d.Str? then d.s else if JsonTruthy(d) then fmt.json(d) else ""
  }

  function FallbackKey(f: Fields, fmt: Formats): string {
    "fallback:" + fmt.ts(f.ts) + ":" + fmt.amount(f.amount) + ":" + f.currency + ":" + DirectionOf(f.raw, fmt)
  }

  function Key(f: Fields, fmt: Formats): string {
    var found := ExtractTxId(f.raw);
    var fromRaw := if found.Some? then BeforeColon(found.value) else "";
    if Base(f) != "" then Base(f) else if fromRaw != "" then fromRaw else FallbackKey(f, fmt)
  }

  function Normalized(f: Fields, fmt: Formats): Fields {
    var key := Key(f, fmt);
    if Truthy(f.externalId) && f.externalId.value != key && !StartsWith(key, "fallback:")
    then f.(externalId := Some(key))
    else f
  }

  // ----- Queries -----

  /** The database's rows, newest first. */
  ghost predicate Ordering(rows: seq<Row>, order: seq<nat>) {
    && InTable(rows, order)
    && (forall i, j :: 0 <= i < j < |order| ==> order[i] != order[j])
    && (forall i, j :: 0 <= i < j < |order| ==> rows[order[i]].db.value.ts >= rows[order[j]].db.value.ts)
    && (forall k :: 0 <= k < |rows| && rows[k].db.Some? ==> k in order)
  }

  predicate InTable(rows: seq<Row>, order: seq<nat>) {
    forall i :: 0 <= i < |order| ==> order[i] < |rows| && rows[order[i]].db.Some?
  }

  /** The stored id is the base id itself or the base id followed by a colon. */
  predicate MatchesBase(f: Fields, base: string) {
    f.externalId.Some? && (f.externalId.value == base || StartsWith(f.externalId.value, base + ":"))
  }

  function Candidates(rows: seq<Row>, order: seq<nat>, base: string): (r: seq<nat>)
    requires InTable(rows, order)
    ensures forall i :: 0 <= i < |r| ==> r[i] in order && r[i] < |rows| && MatchesBase(rows[r[i]].db.value, base)
    ensures forall i :: 0 <= i < |order| && MatchesBase(rows[order[i]].db.value, base) ==> order[i] in r
  {
    if order == [] then []
    else
      var rest := Candidates(rows, order[1..], base);
      if MatchesBase(rows[order[0]].db.value, base) then [order[0]] + rest else rest
  }

  /** The first row, in table order, that the database holds under exactly this id; null matches null. */
  function FirstWithId(rows: seq<Row>, id: Option<string>): (r: Option<nat>)
    ensures r.Some? ==> r.value < |rows| && rows[r.value].db.Some? && rows[r.value].db.value.externalId == id
    ensures r.Some? ==> forall k :: 0 <= k < r.value && rows[k].db.Some? ==> rows[k].db.value.externalId != id
    ensures r.None? ==> forall k :: 0 <= k < |rows| && rows[k].db.Some? ==> rows[k].db.value.externalId != id
  {
    if rows == [] then None
    else
      var n := |rows| - 1;
      var earlier := FirstWithId(rows[..n], id);
      if earlier.Some? then earlier
      else if rows[n].db.Some? && rows[n].db.value.externalId == id then Some(n)
      else None
  }

  // ----- One incoming transaction -----

  function Abs(x: int): (r: int)
    ensures r >= 0 && (r == x || r == -x)
  {
    if x < 0 then -x else x
  }

  /** The sign comes from the direction and the incoming amount alone. */
  function Signed(kind: Kind, t: Incoming): (a: int)
    ensures Abs(a) == Abs(t.amount)
    ensures t.direction == Some("outflow") ==> a <= 0
    ensures t.direction == Some("inflow") ==> a >= 0
  {
    if Truthy(t.direction) then
      if t.direction.value == "outflow" then -Abs(t.amount)
      else if t.direction.value == "inflow" then Abs(t.amount)
      else t.amount
    else if kind == Traditional then -t.amount
    else t.amount
  }

  /** The id a row is stored under: wallets collapse the legs of one hash. */
  function IdOf(kind: Kind, t: Incoming): Option<string> {
    if kind == Web3 && Truthy(t.txId) then Some(BeforeColon(t.txId.value)) else t.txId
  }

  function Matching(ctx: Context, rows: seq<Row>, order: seq<nat>, t: Incoming): (r: seq<nat>)
    requires InTable(rows, order)
    ensures forall i :: 0 <= i < |r| ==> r[i] < |rows| && rows[r[i]].db.Some?
  {
    if ctx.kind == Web3 && Truthy(t.txId) then Candidates(rows, order, BeforeColon(t.txId.value)) else []
  }

  function Existing(ctx: Context, rows: seq<Row>, order: seq<nat>, t: Incoming): (r: Option<nat>)
    requires InTable(rows, order)
    ensures r.Some? ==> r.value < |rows| && rows[r.value].db.Some?
  {
    var candidates := Matching(ctx, rows, order, t);
    if candidates != [] then Some(candidates[0]) else FirstWithId(rows, IdOf(ctx.kind, t))
  }

  function Written(ctx: Context, f: Fields, t: Incoming): Fields {
    Fields(t.date, Signed(ctx.kind, t), if Truthy(t.currency) then t.currency.value else f.currency,
      ctx.labels(t), IdOf(ctx.kind, t), t.raw)
  }

  function NewFields(ctx: Context, t: Incoming): Fields {
    Fields(t.date, Signed(ctx.kind, t), if Truthy(t.currency) then t.currency.value else ctx.fallbackCurrency,
      ctx.labels(t), IdOf(ctx.kind, t), t.raw)
  }

  predicate InBatch(ctx: Context, t: Incoming) {
    ctx.minDate.None? || t.date >= ctx.minDate.value
  }

  function MarkDeleted(rows: seq<Row>, victims: seq<nat>): (r: seq<Row>)
    ensures |r| == |rows|
    ensures forall k :: 0 <= k < |rows| ==> r[k] == rows[k].(deleted := rows[k].deleted || k in victims)
  {
    seq(|rows|, k requires 0 <= k < |rows| => rows[k].(deleted := rows[k].deleted || k in victims))
  }

  /** The table after one transaction. Adding the row it writes to the session takes back a pending
      deletion of that row. */
  function Process(ctx: Context, rows: seq<Row>, order: seq<nat>, t: Incoming): seq<Row>
    requires InTable(rows, order)
  {
    var candidates := Matching(ctx, rows, order, t);
    var marked := if candidates != [] then MarkDeleted(rows, candidates[1..]) else rows;
    var existing := Existing(ctx, rows, order, t);
    if existing.Some?
    then marked[existing.value := Row(rows[existing.value].db, Written(ctx, rows[existing.value].mem, t), false)]
    else marked + [Row(None, NewFields(ctx, t), false)]
  }

  /** The database's view of two tables is the same, and `b` may hold new rows after those of `a`. */
  predicate SameDb(a: seq<Row>, b: seq<Row>) {
    && |a| <= |b|
    && (forall k :: 0 <= k < |a| ==> a[k].db == b[k].db)
    && (forall k :: |a| <= k < |b| ==> b[k].db.None?)
  }

  predicate AllInTable(rows: seq<Row>, orders: seq<seq<nat>>) {
    forall i :: 0 <= i < |orders| ==> InTable(rows, orders[i])
  }

  /** The batch: the query for each transaction comes in an ordering of its own. */
  function ProcessEach(ctx: Context, rows: seq<Row>, orders: seq<seq<nat>>, txns: seq<Incoming>): (r: seq<Row>)
    requires |orders| == |txns| && AllInTable(rows, orders)
    ensures SameDb(rows, r)
  {
    if txns == [] then rows
    else
      var n := |txns| - 1;
      var before := ProcessEach(ctx, rows, orders[..n], txns[..n]);
      if InBatch(ctx, txns[n]) then Process(ctx, before, orders[n], txns[n]) else before
  }

  function CountBatch(ctx: Context, txns: seq<Incoming>): nat {
    if txns == [] then 0
    else CountBatch(ctx, txns[..|txns| - 1]) + if InBatch(ctx, txns[|txns| - 1]) then 1 else 0
  }

  // ----- Deduplication -----

  predicate SeenBefore(rows: seq<Row>, order: seq<nat>, fmt: Formats, i: nat)
    requires InTable(rows, order) && i < |order|
  {
    exists j :: 0 <= j < i && Key(rows[order[j]].mem, fmt) == Key(rows[order[i]].mem, fmt)
  }

  function DedupedRow(rows: seq<Row>, order: seq<nat>, fmt: Formats, i: nat): Row
    requires InTable(rows, order) && i < |order|
  {
    var row := rows[order[i]];
    if SeenBefore(rows, order, fmt, i) then row.(deleted := true) else Shortened(row, fmt)
  }

  /** The id is shortened to the key; adding the row to the session then takes back a pending deletion. */
  function Shortened(row: Row, fmt: Formats): (r: Row)
    ensures r.db == row.db && r.mem == Normalized(row.mem, fmt) && (!row.deleted ==> !r.deleted)
  {
    var mem := Normalized(row.mem, fmt);
    if mem == row.mem then row else Row(row.db, mem, false)
  }

  /** The first visible row of each key stays, with its id normalised; later ones are deleted. */
  ghost predicate Deduped(rows: seq<Row>, order: seq<nat>, fmt: Formats, rows': seq<Row>)
    requires InTable(rows, order)
  {
    && |rows'| == |rows|
    && (forall i :: 0 <= i < |order| ==> rows'[order[i]] == DedupedRow(rows, order, fmt, i))
    && (forall k :: 0 <= k < |rows| && k !in order ==> rows'[k] == rows[k])
  }

  // ----- The session -----

  class SyncSession {
    var rows: seq<Row>

    constructor (rows: seq<Row>)
      ensures this.rows == rows
    {
      this.rows := rows;
    }

    /** `db.delete` on each of the rows. */
    method DeleteRows(victims: seq<nat>)
      requires forall i :: 0 <= i < |victims| ==> victims[i] < |rows|
      modifies this
      ensures rows == MarkDeleted(old(rows), victims)
    {
      for d := 0 to |victims|
        invariant |rows| == |old(rows)|
        invariant rows == MarkDeleted(old(rows), victims[..d])
      {
        var k := victims[d];
        assert victims[..d + 1] == victims[..d] + [k];
        rows := rows[k := rows[k].(deleted := true)];
      }
      assert victims[..|victims|] == victims;
    }

    /** Upserts one transaction; true when a row was created. */
    method ProcessSingleTransaction(ctx: Context, order: seq<nat>, t: Incoming) returns (created: bool)
      requires InTable(rows, order)
      modifies this
      ensures rows == Process(ctx, old(rows), order, t)
      ensures created <==> Existing(ctx, old(rows), order, t).None?
    {
      hide Candidates, FirstWithId, BeforeColon, Signed, MatchesBase;
      var txId := t.txId;
      var existing: Option<nat> := None;
      if ctx.kind == Web3 && Truthy(txId) {
        var baseTxId := BeforeColon(txId.value);
        txId := Some(baseTxId);
        var candidates := Candidates(rows, order, baseTxId);
        if |candidates| > 0 {
          existing := Some(candidates[0]);
          DeleteRows(candidates[1..]);
        }
      }
      if existing.None? {
        existing := FirstWithId(rows, txId);
      }
      if existing.Some? {
        var k := existing.value;
        rows := rows[k := Row(rows[k].db, Written(ctx, rows[k].mem, t), false)];
        created := false;
      } else {
        rows := rows + [Row(None, NewFields(ctx, t), false)];
        created := true;
      }
    }

    /** The three-level key of a row, level by level. */
    method BaseIdOf(row: Fields, fmt: Formats) returns (baseId: string)
      ensures baseId == Key(row, fmt)
    {
      hide ExtractTxId, BeforeColon, DirectionOf;
      baseId := if row.externalId.Some? then BeforeColon(row.externalId.value) else "";
      if baseId == "" {
        var found := ExtractTxId(row.raw);
        if found.Some? {
          baseId := BeforeColon(found.value);
        }
      }
      if baseId == "" {
        baseId := "fallback:" + fmt.ts(row.ts) + ":" + fmt.amount(row.amount) + ":" + row.currency + ":"
            + DirectionOf(row.raw, fmt);
      }
    }

    /** Keeps the newest row of every key. */
    method DedupeWeb3Transactions(order: seq<nat>, fmt: Formats)
      requires Ordering(rows, order)
      modifies this
      ensures Deduped(old(rows), order, fmt, rows)
    {
      hide Key, StartsWith, SeenSoFar, SeenBefore, Ordering, DedupedRow;
      OrderingInTable(rows, order);
      var seen: set<string> := {};
      NothingSeen(rows, order, fmt);
      for i := 0 to |order|
        invariant |rows| == |old(rows)|
        invariant SeenSoFar(old(rows), order, fmt, i, seen)
        invariant forall j :: 0 <= j < i ==> rows[order[j]] == DedupedRow(old(rows), order, fmt, j)
        invariant forall k :: 0 <= k < |rows| && k !in order[..i] ==> rows[k] == old(rows)[k]
      {
        var k := order[i];
        OrderedOnce(old(rows), order, i);
        var row := rows[k].mem;
        var baseId := BaseIdOf(row, fmt);
        SeenGrows(old(rows), order, fmt, i, seen);
        DedupedRowIs(old(rows), order, fmt, i);
        if baseId in seen {
          rows := rows[k := rows[k].(deleted := true)];
        } else {
          if Truthy(row.externalId) && row.externalId.value != baseId && !StartsWith(baseId, "fallback:") {
            rows := rows[k := Row(rows[k].db, row.(externalId := Some(baseId)), false)];
          }
          seen := seen + {baseId};
        }
      }
      assert order[..|order|] == order;
    }

    /** The batch: how many transactions were processed and how many rows created. */
    method SaveSyncBatch(ctx: Context, orders: seq<seq<nat>>, last: seq<nat>, fmt: Formats, txns: seq<Incoming>)
      returns (synced: nat, newCount: nat)
      requires |orders| == |txns| && AllInTable(rows, orders) && Ordering(rows, last)
      modifies this
      ensures synced == CountBatch(ctx, txns)
      ensures var after := ProcessEach(ctx, old(rows), orders, txns);
              && newCount == |after| - |old(rows)|
              && if ctx.kind == Web3 then Deduped(after, last, fmt, rows) else rows == after
    {
      hide Process, Existing, Deduped;
      synced, newCount := 0, 0;
      for i := 0 to |txns|
        invariant rows == ProcessEach(ctx, old(rows), orders[..i], txns[..i])
        invariant synced == CountBatch(ctx, txns[..i])
        invariant newCount == |rows| - |old(rows)|
      {
        assert txns[..i + 1][..i] == txns[..i] && orders[..i + 1][..i] == orders[..i];
        if InBatch(ctx, txns[i]) {
          ProcessSize(ctx, rows, orders[i], txns[i]);
          var created := ProcessSingleTransaction(ctx, orders[i], txns[i]);
          synced := synced + 1;
          if created {
            newCount := newCount + 1;
          }
        }
      }
      assert txns[..|txns|] == txns && orders[..|txns|] == orders;
      if ctx.kind == Web3 {
        OrderingStays(old(rows), rows, last);
        DedupeWeb3Transactions(last, fmt);
      }
    }

    /** Succeeds exactly when no two rows clash and no update takes an id that a later one would free;
        otherwise the stored rows are as they were. */
    method Commit(pk: seq<nat>) returns (ok: bool)
      requires UpdateOrder(rows, pk)
      modifies this
      ensures ok <==> CommitOk(old(rows)) && !HandsOver(old(rows), pk)
      ensures rows == if ok then Committed(old(rows)) else RolledBack(old(rows))
    {
      var stored := WriteChanges(rows, pk);
      ok := stored.Some?;
      rows := if ok then stored.value else RolledBack(rows);
    }
  }

  ghost predicate SeenSoFar(rows: seq<Row>, order: seq<nat>, fmt: Formats, i: nat, seen: set<string>)
    requires InTable(rows, order) && i <= |order|
  {
    forall key :: key in seen <==> exists j :: 0 <= j < i && Key(rows[order[j]].mem, fmt) == key
  }

  lemma {:induction false} OrderingInTable(rows: seq<Row>, order: seq<nat>)
    requires Ordering(rows, order)
    ensures InTable(rows, order)
  {
  }

  lemma {:induction false} NothingSeen(rows: seq<Row>, order: seq<nat>, fmt: Formats)
    requires InTable(rows, order)
    ensures SeenSoFar(rows, order, fmt, 0, {})
  {
  }

  lemma {:induction false} DedupedRowIs(rows: seq<Row>, order: seq<nat>, fmt: Formats, i: nat)
    requires InTable(rows, order) && i < |order|
    ensures var row := rows[order[i]];
            DedupedRow(rows, order, fmt, i)
            == if SeenBefore(rows, order, fmt, i) then row.(deleted := true) else Shortened(row, fmt)
  {
  }

  lemma {:induction false} SeenGrows(rows: seq<Row>, order: seq<nat>, fmt: Formats, i: nat, seen: set<string>)
    requires InTable(rows, order) && i < |order| && SeenSoFar(rows, order, fmt, i, seen)
    ensures SeenBefore(rows, order, fmt, i) <==> Key(rows[order[i]].mem, fmt) in seen
    ensures SeenBefore(rows, order, fmt, i) ==> SeenSoFar(rows, order, fmt, i + 1, seen)
    ensures SeenSoFar(rows, order, fmt, i + 1, seen + {Key(rows[order[i]].mem, fmt)})
  {
    hide Key;
  }

  lemma {:induction false} OrderedOnce(rows: seq<Row>, order: seq<nat>, i: nat)
    requires Ordering(rows, order) && i < |order|
    ensures order[i] !in order[..i]
    ensures forall j :: 0 <= j < i ==> order[j] != order[i]
    ensures forall k :: k in order[..i + 1] <==> k in order[..i] || k == order[i]
  {
    assert order[..i + 1] == order[..i] + [order[i]];
  }

  lemma {:induction false} ProcessSize(ctx: Context, rows: seq<Row>, order: seq<nat>, t: Incoming)
    requires InTable(rows, order)
    ensures |Process(ctx, rows, order, t)| == |rows| + if Existing(ctx, rows, order, t).None? then 1 else 0
  {
    hide Existing, Matching, Written, NewFields;
  }

  lemma {:induction false} OrderingStays(a: seq<Row>, b: seq<Row>, order: seq<nat>)
    requires Ordering(a, order) && SameDb(a, b)
    ensures Ordering(b, order)
  {
  }
}
