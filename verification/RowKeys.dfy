/** Which rows a deduplication takes for one transaction, told from their ids and fields. */
module RowKeys {
  import opened Text
  import opened UnitOfWork
  import opened SyncStore
  import opened SyncProofs
  import opened WalletSync

  // ----- The id inside a raw record -----

  /** The values of a record under the names an id may have, in the order in which they are tried. */
  function Under(obj: Json): seq<Json> {
    [Field(obj, "tx_id"), Field(obj, "transaction_id"), Field(obj, "hash"), Field(obj, "Hash"), Field(obj, "txid"),
     Field(obj, "signature"), Field(obj, "Signature")]
  }

  /** A transfer's own values, then those of the transaction inside it. */
  function UnderTransfer(obj: Json): seq<Json> {
    var upper := Field(obj, "Transaction");
    Under(obj) + Under(if JsonTruthy(upper) then upper else Field(obj, "transaction"))
  }

  /** Every place where the id is looked for. */
  function Places(raw: Json): seq<Json> {
    Under(raw)
    + (Under(Field(raw, "Transaction")) + (Under(Field(raw, "transaction")) + Under(Field(raw, "tx"))))
    + (UnderTransfer(Field(raw, "Transfer")) + (UnderTransfer(Field(raw, "transfer"))
       + (UnderTransfer(Field(raw, "Payment")) + UnderTransfer(Field(raw, "payment")))))
  }

  predicate IsText(j: Json) {
    j.Str? && j.s != ""
  }

  /** The first text that is not blank. */
  function FirstText(values: seq<Json>): Option<string> {
    if values == [] then None else if IsText(values[0]) then Some(values[0].s) else FirstText(values[1..])
  }

  lemma {:induction false} FirstTextIs(values: seq<Json>)
    ensures var r := FirstText(values);
            && (r.None? ==> forall k :: 0 <= k < |values| ==> !IsText(values[k]))
            && (r.Some? ==> exists k :: 0 <= k < |values| && IsText(values[k]) && values[k].s == r.value
                                        && forall m :: 0 <= m < k ==> !IsText(values[m]))
  {
    if values == [] || IsText(values[0]) {
    } else {
      FirstTextIs(values[1..]);
      assert forall k :: 1 <= k < |values| ==> values[k] == values[1..][k - 1];
      if FirstText(values).Some? {
        var k :| 0 <= k < |values| - 1 && IsText(values[1..][k]) && values[1..][k].s == FirstText(values).value
                 && forall m :: 0 <= m < k ==> !IsText(values[1..][m]);
        assert IsText(values[k + 1]);
      }
    }
  }

  lemma {:induction false} FirstTextJoined(a: seq<Json>, b: seq<Json>)
    ensures FirstText(a + b) == if FirstText(a).Some? then FirstText(a) else FirstText(b)
  {
    hide IsText;
    if a == [] {
      assert a + b == b;
    } else {
      assert (a + b)[1..] == a[1..] + b;
      FirstTextJoined(a[1..], b);
    }
  }

  function Values(obj: Json, keys: seq<string>): seq<Json> {
    if keys == [] then [] else [Field(obj, keys[0])] + Values(obj, keys[1..])
  }

  lemma {:induction false} FirstStringIs(obj: Json, keys: seq<string>)
    ensures FirstString(obj, keys) == FirstText(Values(obj, keys))
  {
    if keys == [] {
    } else {
      FirstStringIs(obj, keys[1..]);
      assert Values(obj, keys)[1..] == Values(obj, keys[1..]);
    }
  }

  lemma {:induction false} ValuesAre(obj: Json)
    ensures Values(obj, ID_KEYS) == Under(obj)
  {
    hide Field;
    var k := ID_KEYS;
    ValuesFrom(obj, k, 0);
    ValuesFrom(obj, k, 1);
    ValuesFrom(obj, k, 2);
    ValuesFrom(obj, k, 3);
    ValuesFrom(obj, k, 4);
    ValuesFrom(obj, k, 5);
    ValuesFrom(obj, k, 6);
    assert k[7..] == [];
  }

  lemma {:induction false} ValuesFrom(obj: Json, keys: seq<string>, n: nat)
    requires n < |keys|
    ensures Values(obj, keys[n..]) == [Field(obj, keys[n])] + Values(obj, keys[n + 1..])
    ensures keys[0..] == keys
  {
    assert keys[n..][1..] == keys[n + 1..];
  }

  lemma {:induction false} DirectIs(obj: Json)
    ensures FirstString(obj, ID_KEYS) == FirstText(Under(obj))
  {
    FirstStringIs(obj, ID_KEYS);
    ValuesAre(obj);
  }

  lemma {:induction false} NestedIs(raw: Json)
    ensures FirstNested(raw, ["Transaction", "transaction", "tx"])
            == FirstText(Under(Field(raw, "Transaction"))
                + (Under(Field(raw, "transaction")) + Under(Field(raw, "tx"))))
  {
    var keys := ["Transaction", "transaction", "tx"];
    assert keys[1..] == ["transaction", "tx"] && keys[1..][1..] == ["tx"] && keys[1..][1..][1..] == [];
    DirectIs(Field(raw, "Transaction"));
    DirectIs(Field(raw, "transaction"));
    DirectIs(Field(raw, "tx"));
    hide FirstString, Under, Field, FirstText;
    assert FirstNested(raw, []) == None;
    NestedOne(raw, keys);
    NestedOne(raw, keys[1..]);
    NestedOne(raw, keys[1..][1..]);
    FirstTextJoined(Under(Field(raw, "transaction")), Under(Field(raw, "tx")));
    FirstTextJoined(Under(Field(raw, "Transaction")), Under(Field(raw, "transaction")) + Under(Field(raw, "tx")));
  }

  lemma {:induction false} NestedOne(raw: Json, keys: seq<string>)
    requires keys != []
    ensures FirstNested(raw, keys)
            == if FirstString(Field(raw, keys[0]), ID_KEYS).Some? then FirstString(Field(raw, keys[0]), ID_KEYS)
               else FirstNested(raw, keys[1..])
  {
    hide FirstString, Field;
  }

  lemma {:induction false} TransferOne(raw: Json, keys: seq<string>)
    requires keys != []
    ensures FirstTransfer(raw, keys)
            == if FirstText(UnderTransfer(Field(raw, keys[0]))).Some? then FirstText(UnderTransfer(Field(raw, keys[0])))
               else FirstTransfer(raw, keys[1..])
  {
    var nested := Field(raw, keys[0]);
    var inner := if JsonTruthy(Field(nested, "Transaction")) then Field(nested, "Transaction")
                 else Field(nested, "transaction");
    DirectIs(nested);
    DirectIs(inner);
    hide FirstString, Under, Field, FirstText, JsonTruthy;
    FirstTextJoined(Under(nested), Under(inner));
  }

  lemma {:induction false} TransferIs(raw: Json)
    ensures FirstTransfer(raw, ["Transfer", "transfer", "Payment", "payment"])
            == FirstText(UnderTransfer(Field(raw, "Transfer")) + (UnderTransfer(Field(raw, "transfer"))
                         + (UnderTransfer(Field(raw, "Payment")) + UnderTransfer(Field(raw, "payment")))))
  {
    var keys := ["Transfer", "transfer", "Payment", "payment"];
    var k1, k2, k3 := keys[1..], keys[1..][1..], keys[1..][1..][1..];
    assert k1 == ["transfer", "Payment", "payment"] && k2 == ["Payment", "payment"] && k3 == ["payment"]
        && k3[1..] == [];
    hide UnderTransfer, Field, FirstText;
    assert FirstTransfer(raw, []) == None;
    TransferOne(raw, keys);
    TransferOne(raw, k1);
    TransferOne(raw, k2);
    TransferOne(raw, k3);
    var a, b := UnderTransfer(Field(raw, "Transfer")), UnderTransfer(Field(raw, "transfer"));
    var c, d := UnderTransfer(Field(raw, "Payment")), UnderTransfer(Field(raw, "payment"));
    FirstTextJoined(c, d);
    FirstTextJoined(b, c + d);
    FirstTextJoined(a, b + (c + d));
  }

  /** The id dug out of a raw record is the first text that is not blank, over all the places in order. */
  lemma {:induction false} RawIdIsFirst(raw: Json)
    ensures ExtractTxId(raw) == FirstText(Places(raw))
  {
    DirectIs(raw);
    NestedIs(raw);
    TransferIs(raw);
    hide FirstString, FirstNested, FirstTransfer, Under, UnderTransfer, Field, FirstText;
    var direct := Under(raw);
    var nested := Under(Field(raw, "Transaction")) + (Under(Field(raw, "transaction")) + Under(Field(raw, "tx")));
    var transfer := UnderTransfer(Field(raw, "Transfer")) + (UnderTransfer(Field(raw, "transfer"))
                    + (UnderTransfer(Field(raw, "Payment")) + UnderTransfer(Field(raw, "payment"))));
    assert Places(raw) == direct + nested + transfer;
    FirstTextJoined(direct + nested, transfer);
    FirstTextJoined(direct, nested);
  }

  // ----- When two rows are one transaction -----

  /** a is s up to its first colon. */
  predicate IsHead(s: string, a: string) {
    && ':' !in a && |a| <= |s| && s[..|a|] == a && (|a| < |s| ==> s[|a|] == ':')
  }

  lemma {:induction false} HeadOfBlank(s: string, a: string)
    requires s == "" || s[0] == ':'
    ensures IsHead(s, a) <==> a == ""
  {
    if a != "" && |a| <= |s| {
      assert s[..|a|][0] == s[0];
    }
  }

  lemma {:induction false} HeadIs(s: string, a: string)
    ensures IsHead(s, a) <==> a == BeforeColon(s)
  {
    if s == "" || s[0] == ':' {
      HeadOfBlank(s, a);
    } else {
      if a != "" {
        HeadIs(s[1..], a[1..]);
        assert a == [a[0]] + a[1..];
        HeadTail(s, a);
      }
      HeadIs(s[1..], BeforeColon(s[1..]));
      HeadTail(s, BeforeColon(s));
    }
  }

  lemma {:induction false} HeadTail(s: string, a: string)
    requires s != "" && a != "" && s[0] != ':'
    ensures IsHead(s, a) <==> s[0] == a[0] && IsHead(s[1..], a[1..])
  {
    assert a == [a[0]] + a[1..];
    if |a| <= |s| {
      assert s[..|a|] == [s[0]] + s[1..][..|a| - 1];
      if |a| < |s| {
        assert s[|a|] == s[1..][|a| - 1];
      }
    }
  }

  /** The row is known by this id: the one it is stored under, up to a colon, or else the one in its raw
      record. */
  ghost predicate HasId(f: Fields, id: string) {
    && id != ""
    && (|| (f.externalId.Some? && IsHead(f.externalId.value, id))
        || (&& (f.externalId.None? || f.externalId.value == "" || f.externalId.value[0] == ':')
            && FirstText(Places(f.raw)).Some? && IsHead(FirstText(Places(f.raw)).value, id)))
  }

  /** How the direction of the raw record reads. */
  function DirectionText(raw: Json, fmt: Formats): string {
    match Field(raw, "direction")
    case Null => ""
    case Str(s) => s
    case Obj(fields) => if fields == map[] then "" else fmt.json(Obj(fields))
    case Other(truthy) => if truthy then fmt.json(Other(truthy)) else ""
  }

  /** Rows are taken for one transaction by their id, or, when neither has one, by time, amount, currency
      and direction together. */
  ghost predicate SameTransaction(f: Fields, g: Fields, fmt: Formats) {
    || (exists id :: HasId(f, id) && HasId(g, id))
    || (&& (forall id :: !HasId(f, id) && !HasId(g, id))
        && f.ts == g.ts && f.amount == g.amount && f.currency == g.currency
        && DirectionText(f.raw, fmt) == DirectionText(g.raw, fmt))
  }

  /** Times and amounts print as texts that can be told apart: no time begins like another, and amounts
      hold no colon. */
  ghost predicate Readable(fmt: Formats) {
    && (forall x, y :: fmt.ts(x) <= fmt.ts(y) ==> x == y)
    && (forall x, y :: fmt.amount(x) == fmt.amount(y) ==> x == y)
    && (forall x :: ':' !in fmt.amount(x))
  }

  lemma {:induction false} BlankHead(s: string)
    ensures BeforeColon(s) == "" <==> s == "" || s[0] == ':'
  {
  }

  lemma {:induction false} IdOfRow(f: Fields, fmt: Formats, id: string)
    ensures HasId(f, id) <==> id == Key(f, fmt) && !IsFallback(id)
  {
    KeyShape(f, fmt);
    RawIdIsFirst(f.raw);
    if f.externalId.Some? {
      HeadIs(f.externalId.value, id);
      BlankHead(f.externalId.value);
    }
    if ExtractTxId(f.raw).Some? {
      HeadIs(ExtractTxId(f.raw).value, id);
    }
    FallbackIsMarked(f, fmt);
    hide ExtractTxId, FirstText, Places, BeforeColon, FallbackKey, IsHead, StartsWith;
    if IsFallback(id) {
      FallbackHasColon(id);
    }
  }

  lemma {:induction false} FallbackIsMarked(f: Fields, fmt: Formats)
    ensures IsFallback(FallbackKey(f, fmt))
  {
    hide DirectionOf;
    assert FallbackKey(f, fmt)[..9] == "fallback:";
  }

  lemma {:induction false} DirectionIs(raw: Json, fmt: Formats)
    ensures DirectionOf(raw, fmt) == DirectionText(raw, fmt)
  {
  }

  /** Texts with a colon behind them are read back one at a time. */
  lemma {:induction false} Separated(a: string, b: string, c: string, d: string)
    requires ':' !in a && ':' !in c && a + ":" + b == c + ":" + d
    ensures a == c && b == d
  {
    HeadIs(a + ":" + b, a);
    HeadIs(a + ":" + b, c);
    assert (a + ":" + b)[..|a|] == a && (a + ":" + b)[|a|] == ':';
    assert (c + ":" + d)[..|c|] == c && (c + ":" + d)[|c|] == ':';
    assert (a + ":" + b)[|a| + 1..] == b && (c + ":" + d)[|c| + 1..] == d;
  }

  lemma {:induction false} OneBegins(a: string, b: string, c: string, d: string)
    requires a + b == c + d
    ensures a <= c || c <= a
  {
    if |a| <= |c| {
      assert a == (a + b)[..|a|] == (c + d)[..|a|] == c[..|a|];
    } else {
      assert c == (c + d)[..|c|] == (a + b)[..|c|] == a[..|c|];
    }
  }

  lemma {:induction false} FallbackIff(f: Fields, g: Fields, fmt: Formats)
    requires Readable(fmt) && ':' !in f.currency && ':' !in g.currency
    ensures FallbackKey(f, fmt) == FallbackKey(g, fmt) <==>
              && f.ts == g.ts && f.amount == g.amount && f.currency == g.currency
              && DirectionText(f.raw, fmt) == DirectionText(g.raw, fmt)
  {
    DirectionIs(f.raw, fmt);
    DirectionIs(g.raw, fmt);
    hide DirectionOf, DirectionText;
    var p, q := fmt.ts(f.ts), fmt.ts(g.ts);
    var dir, dir' := DirectionOf(f.raw, fmt), DirectionOf(g.raw, fmt);
    var t := fmt.amount(f.amount) + ":" + (f.currency + ":" + dir);
    var u := fmt.amount(g.amount) + ":" + (g.currency + ":" + dir');
    assert FallbackKey(f, fmt) == "fallback:" + (p + (":" + t));
    assert FallbackKey(g, fmt) == "fallback:" + (q + (":" + u));
    if FallbackKey(f, fmt) == FallbackKey(g, fmt) {
      SameRest("fallback:", p + (":" + t), q + (":" + u));
      OneBegins(p, ":" + t, q, ":" + u);
      assert p == q;
      SameRest(p + ":", t, u);
      assert p + (":" + t) == (p + ":") + t && q + (":" + u) == (p + ":") + u;
      Separated(fmt.amount(f.amount), f.currency + ":" + dir, fmt.amount(g.amount), g.currency + ":" + dir');
      Separated(f.currency, dir, g.currency, dir');
    }
  }

  lemma {:induction false} SameRest(a: string, b: string, c: string)
    ensures a + b == a + c <==> b == c
  {
    assert (a + b)[|a|..] == b && (a + c)[|a|..] == c;
  }

  /** The key of a deduplication tells transactions apart exactly so. */
  lemma {:induction false} KeyIff(f: Fields, g: Fields, fmt: Formats)
    requires Readable(fmt) && ':' !in f.currency && ':' !in g.currency
    ensures Key(f, fmt) == Key(g, fmt) <==> SameTransaction(f, g, fmt)
  {
    var k, m := Key(f, fmt), Key(g, fmt);
    forall id
      ensures HasId(f, id) <==> id == k && !IsFallback(id)
      ensures HasId(g, id) <==> id == m && !IsFallback(id)
    {
      IdOfRow(f, fmt, id);
      IdOfRow(g, fmt, id);
    }
    KeyShape(f, fmt);
    KeyShape(g, fmt);
    FallbackIff(f, g, fmt);
    hide HasId, Key, FallbackKey, Base, Readable, DirectionText, IsFallback;
    assert k == m && !IsFallback(k) ==> HasId(f, k) && HasId(g, k);
    assert !IsFallback(k) ==> HasId(f, k);
    assert !IsFallback(m) ==> HasId(g, m);
  }

  ghost predicate PlainCurrencies(rows: seq<Row>) {
    forall k :: 0 <= k < |rows| ==> ':' !in rows[k].mem.currency
  }

  /** A deduplication deletes a row exactly when a newer one, in the order of the query, is the same
      transaction. */
  lemma {:induction false} DeletedIffRepeated(
      rows: seq<Row>, order: seq<nat>, fmt: Formats, r: seq<Row>, p: nat)
    requires Clean(rows) && Ordering(rows, order) && InTable(rows, order) && Deduped(rows, order, fmt, r)
    requires Readable(fmt) && PlainCurrencies(rows) && p < |order|
    ensures order[p] < |r|
    ensures r[order[p]].deleted <==>
              exists q :: 0 <= q < p && SameTransaction(rows[order[q]].mem, rows[order[p]].mem, fmt)
  {
    assert r[order[p]] == DedupedRow(rows, order, fmt, p);
    DedupedRowIs(rows, order, fmt, p);
    forall q | 0 <= q < p
      ensures order[q] < |rows|
      ensures Key(rows[order[q]].mem, fmt) == Key(rows[order[p]].mem, fmt)
              <==> SameTransaction(rows[order[q]].mem, rows[order[p]].mem, fmt)
    {
      KeyIff(rows[order[q]].mem, rows[order[p]].mem, fmt);
    }
    hide Key, SameTransaction, Normalized, Ordering, Readable;
  }

  /** A survivor keeps everything but its id, which is shortened to the id it is known by. */
  lemma {:induction false} SurvivorKeeps(rows: seq<Row>, order: seq<nat>, fmt: Formats, r: seq<Row>, p: nat)
    requires Clean(rows) && Ordering(rows, order) && InTable(rows, order) && Deduped(rows, order, fmt, r)
    requires p < |order| && order[p] < |r| && !r[order[p]].deleted
    ensures var f, g := rows[order[p]].mem, r[order[p]].mem;
            && g.(externalId := f.externalId) == f
            && (if f.externalId.Some? && f.externalId.value != "" && exists id :: HasId(f, id)
                then g.externalId.Some? && HasId(f, g.externalId.value)
                else g.externalId == f.externalId)
  {
    var f := rows[order[p]].mem;
    assert r[order[p]] == DedupedRow(rows, order, fmt, p);
    DedupedRowIs(rows, order, fmt, p);
    NormalizedKeepsKey(f, fmt);
    forall id ensures HasId(f, id) <==> id == Key(f, fmt) && !IsFallback(id) {
      IdOfRow(f, fmt, id);
    }
    hide Key, HasId, SeenBefore;
    assert !IsFallback(Key(f, fmt)) ==> HasId(f, Key(f, fmt));
  }
}
