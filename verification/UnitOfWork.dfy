/** The rows of one account in a database session, and what a commit makes of them.

    A row has two faces: what the database holds, and the in-memory object. A commit writes the updates
    of stored rows in the order of their keys, then the inserts in the order of their creation, then the
    deletes, and every single write has to respect the unique index on the external id.
  */
module UnitOfWork {
  import opened Text

  datatype Json = Null | Str(s: string) | Obj(fields: map<string, Json>) | Other(truthy: bool)

  datatype Labels = Labels(category: Option<string>, merchant: Option<string>, description: Option<string>)

  datatype Fields = Fields(
    ts: int, amount: int, currency: string, labels: Labels, externalId: Option<string>, raw: Json)

  datatype Row = Row(db: Option<Fields>, mem: Fields, deleted: bool)

  // ----- What a commit accepts and leaves -----

  /** Two rows that cannot both be written: the index refuses equal ids, and a deleted row still holds its
      stored id while the others are written. */
  predicate Clash(a: Row, b: Row) {
    && !a.deleted && a.mem.externalId.Some?
    && (if b.deleted
        then b.db.Some? && b.db.value.externalId == a.mem.externalId
        else b.mem.externalId == a.mem.externalId)
  }

  predicate CommitOk(rows: seq<Row>) {
    forall i, j :: 0 <= i < |rows| && 0 <= j < |rows| && i != j ==> !Clash(rows[i], rows[j])
  }

  /** The stored rows that stay, in the order in which they are updated; new rows are never deleted. */
  ghost predicate UpdateOrder(rows: seq<Row>, pk: seq<nat>) {
    && (forall i :: 0 <= i < |pk| ==> pk[i] < |rows| && rows[pk[i]].db.Some? && !rows[pk[i]].deleted)
    && (forall i, j :: 0 <= i < j < |pk| ==> pk[i] != pk[j])
    && (forall k :: 0 <= k < |rows| && rows[k].db.Some? && !rows[k].deleted ==> k in pk)
    && (forall k :: 0 <= k < |rows| && rows[k].db.None? ==> !rows[k].deleted)
  }

  /** An update takes the id of a row that is updated later, whether or not that row gives it up. */
  ghost predicate HandsOver(rows: seq<Row>, pk: seq<nat>)
    requires UpdateOrder(rows, pk)
  {
    exists i, j :: 0 <= i < j < |pk| && rows[pk[i]].mem.externalId.Some?
                   && rows[pk[j]].db.value.externalId == rows[pk[i]].mem.externalId
  }

  function Committed(rows: seq<Row>): seq<Row> {
    if rows == [] then []
    else
      var init, row := Committed(rows[..|rows| - 1]), rows[|rows| - 1];
      if row.deleted then init else init + [Row(Some(row.mem), row.mem, false)]
  }

  function RolledBack(rows: seq<Row>): seq<Row> {
    if rows == [] then []
    else
      var init, row := RolledBack(rows[..|rows| - 1]), rows[|rows| - 1];
      if row.db.None? then init else init + [Row(row.db, row.db.value, false)]
  }

  // ----- One write at a time -----

  function StoredNow(rows: seq<Row>): (db: seq<Option<Fields>>)
    ensures |db| == |rows| && forall k :: 0 <= k < |rows| ==> db[k] == rows[k].db
  {
    seq(|rows|, k requires 0 <= k < |rows| => rows[k].db)
  }

  /** The new ones among the first n rows, in the order they were added. */
  function NewRows(rows: seq<Row>, n: nat): (r: seq<nat>)
    requires n <= |rows|
    ensures forall i :: 0 <= i < |r| ==> r[i] < n && rows[r[i]].db.None?
    ensures forall i, j :: 0 <= i < j < |r| ==> r[i] != r[j]
    ensures forall k :: 0 <= k < n && rows[k].db.None? ==> k in r
  {
    if n == 0 then []
    else
      var r := NewRows(rows, n - 1);
      if rows[n - 1].db.None? then r + [n - 1] else r
  }

  /** Another stored row holds the id. */
  predicate IdTaken(db: seq<Option<Fields>>, k: nat, id: Option<string>) {
    id.Some? && exists j :: 0 <= j < |db| && j != k && db[j].Some? && db[j].value.externalId == id
  }

  /** What the database holds once the rows at `done` are written. */
  ghost predicate WrittenDb(rows: seq<Row>, done: seq<nat>, db: seq<Option<Fields>>) {
    && |db| == |rows|
    && forall k :: 0 <= k < |rows| ==> db[k] == if k in done then Some(rows[k].mem) else rows[k].db
  }

  /** When the i-th of the writes was made, no row written before had its id and no other still held it. */
  ghost predicate FreeAt(rows: seq<Row>, writes: seq<nat>, i: nat)
    requires i < |writes| && writes[i] < |rows|
  {
    var id := rows[writes[i]].mem.externalId;
    id.Some? ==>
      forall k :: 0 <= k < |rows| && k != writes[i] ==>
        if k in writes[..i] then rows[k].mem.externalId != id
        else rows[k].db.Some? ==> rows[k].db.value.externalId != id
  }

  lemma {:induction false} TakenIsNotFree(rows: seq<Row>, writes: seq<nat>, i: nat, db: seq<Option<Fields>>)
    requires i < |writes| && writes[i] < |rows| && WrittenDb(rows, writes[..i], db)
    ensures IdTaken(db, writes[i], rows[writes[i]].mem.externalId) <==> !FreeAt(rows, writes, i)
  {
  }

  lemma {:induction false} WriteOne(rows: seq<Row>, writes: seq<nat>, i: nat, db: seq<Option<Fields>>)
    requires i < |writes| && writes[i] < |rows| && WrittenDb(rows, writes[..i], db)
    ensures WrittenDb(rows, writes[..i + 1], db[writes[i] := Some(rows[writes[i]].mem)])
  {
    assert writes[..i + 1] == writes[..i] + [writes[i]];
  }

  ghost predicate AllFree(rows: seq<Row>, writes: seq<nat>, n: nat)
    requires n <= |writes| && forall i :: 0 <= i < |writes| ==> writes[i] < |rows|
  {
    forall i :: 0 <= i < n ==> FreeAt(rows, writes, i)
  }

  function WriteList(rows: seq<Row>, pk: seq<nat>): seq<nat> {
    pk + NewRows(rows, |rows|)
  }

  /** The writes are exactly the rows that stay, each once. */
  lemma {:induction false} WritesAreLive(rows: seq<Row>, pk: seq<nat>)
    requires UpdateOrder(rows, pk)
    ensures var w := WriteList(rows, pk);
            && (forall i :: 0 <= i < |w| ==> w[i] < |rows| && !rows[w[i]].deleted)
            && (forall i, j :: 0 <= i < j < |w| ==> w[i] != w[j])
            && (forall k :: 0 <= k < |rows| && !rows[k].deleted ==> k in w)
  {
    hide NewRows;
  }

  /** Where a row that stays is written. */
  lemma {:induction false} WrittenAt(rows: seq<Row>, pk: seq<nat>, k: nat) returns (i: nat)
    requires UpdateOrder(rows, pk) && k < |rows| && !rows[k].deleted
    ensures i < |WriteList(rows, pk)| && WriteList(rows, pk)[i] == k
  {
    WritesAreLive(rows, pk);
    hide WriteList;
    i :| 0 <= i < |WriteList(rows, pk)| && WriteList(rows, pk)[i] == k;
  }

  /** Of two rows that stay, the one written later met the id of the other. */
  lemma {:induction false} LaterDiffers(rows: seq<Row>, w: seq<nat>, i: nat, j: nat)
    requires i < j < |w| && w[i] < |rows| && w[j] < |rows| && w[i] != w[j] && FreeAt(rows, w, j)
    ensures rows[w[j]].mem.externalId.Some? ==> rows[w[i]].mem.externalId != rows[w[j]].mem.externalId
  {
    assert w[..j][i] == w[i];
  }

  lemma {:induction false} DeletedDiffers(rows: seq<Row>, w: seq<nat>, i: nat, b: nat)
    requires i < |w| && b < |rows| && rows[b].deleted
    requires forall j :: 0 <= j < |w| ==> w[j] < |rows| && !rows[w[j]].deleted
    requires FreeAt(rows, w, i)
    ensures !Clash(rows[w[i]], rows[b])
  {
    assert b !in w[..i];
  }

  lemma {:induction false} FreeMeansNoClash(rows: seq<Row>, pk: seq<nat>, a: nat, b: nat)
    requires UpdateOrder(rows, pk) && a < |rows| && b < |rows| && a != b
    requires forall i :: 0 <= i < |WriteList(rows, pk)| ==>
               WriteList(rows, pk)[i] < |rows| && FreeAt(rows, WriteList(rows, pk), i)
    ensures !Clash(rows[a], rows[b])
  {
    WritesAreLive(rows, pk);
    hide UpdateOrder, WriteList, FreeAt;
    var w := WriteList(rows, pk);
    if !rows[a].deleted {
      var i := WrittenAt(rows, pk, a);
      if rows[b].deleted {
        DeletedDiffers(rows, w, i, b);
      } else {
        var j := WrittenAt(rows, pk, b);
        if i < j {
          LaterDiffers(rows, w, i, j);
        } else {
          LaterDiffers(rows, w, j, i);
        }
      }
    }
  }

  lemma {:induction false} PastPrefix(w: seq<nat>, i: nat, j: nat)
    requires i < |w| && j < |w| && w[j] !in w[..i]
    ensures i <= j
  {
  }

  lemma {:induction false} FreeMeansNoHandover(rows: seq<Row>, pk: seq<nat>)
    requires UpdateOrder(rows, pk)
    requires forall i :: 0 <= i < |pk| ==> FreeAt(rows, WriteList(rows, pk), i)
    ensures !HandsOver(rows, pk)
  {
    hide NewRows;
    var w := WriteList(rows, pk);
    forall i, j | 0 <= i < j < |pk| && rows[pk[i]].mem.externalId.Some?
      ensures rows[pk[j]].db.value.externalId != rows[pk[i]].mem.externalId
    {
      assert FreeAt(rows, w, i);
      assert w[i] == pk[i] && w[..i] == pk[..i];
      assert pk[j] !in pk[..i];
    }
  }

  lemma {:induction false} OkMeansFree(rows: seq<Row>, pk: seq<nat>, i: nat)
    requires UpdateOrder(rows, pk) && CommitOk(rows) && !HandsOver(rows, pk) && i < |WriteList(rows, pk)|
    ensures WriteList(rows, pk)[i] < |rows| && FreeAt(rows, WriteList(rows, pk), i)
  {
    WritesAreLive(rows, pk);
    var w := WriteList(rows, pk);
    var a := w[i];
    forall k | 0 <= k < |rows| && k != a && rows[a].mem.externalId.Some?
      ensures if k in w[..i] then rows[k].mem.externalId != rows[a].mem.externalId
              else rows[k].db.Some? ==> rows[k].db.value.externalId != rows[a].mem.externalId
    {
      assert !Clash(rows[a], rows[k]);
      if k in w[..i] {
        assert !rows[k].deleted;
      } else if rows[k].db.Some? && !rows[k].deleted {
        LaterUpdate(rows, pk, i, k);
      }
    }
  }

  lemma {:induction false} LaterUpdate(rows: seq<Row>, pk: seq<nat>, i: nat, k: nat)
    requires UpdateOrder(rows, pk) && !HandsOver(rows, pk)
    requires i < |WriteList(rows, pk)| && WriteList(rows, pk)[i] < |rows|
    requires k < |rows| && rows[k].db.Some? && !rows[k].deleted
    requires k !in WriteList(rows, pk)[..i] && k != WriteList(rows, pk)[i]
    requires rows[WriteList(rows, pk)[i]].mem.externalId.Some?
    ensures rows[k].db.value.externalId != rows[WriteList(rows, pk)[i]].mem.externalId
  {
    hide NewRows;
    var w := WriteList(rows, pk);
    var j :| 0 <= j < |pk| && pk[j] == k;
    assert w[j] == k;
    PastPrefix(w, i, j);
    assert w[i] == pk[i];
  }

  /** The writes go through one by one exactly when no two rows clash and no id is handed over. */
  lemma {:induction false} CommitIff(rows: seq<Row>, pk: seq<nat>)
    requires UpdateOrder(rows, pk)
    ensures forall i :: 0 <= i < |WriteList(rows, pk)| ==> WriteList(rows, pk)[i] < |rows|
    ensures AllFree(rows, WriteList(rows, pk), |WriteList(rows, pk)|) <==> CommitOk(rows) && !HandsOver(rows, pk)
  {
    WritesAreLive(rows, pk);
    var w := WriteList(rows, pk);
    assert |pk| <= |w|;
    hide UpdateOrder, WriteList, FreeAt, HandsOver, Clash;
    if AllFree(rows, w, |w|) {
      FreeMeansNoHandover(rows, pk);
      forall a, b | 0 <= a < |rows| && 0 <= b < |rows| && a != b ensures !Clash(rows[a], rows[b]) {
        FreeMeansNoClash(rows, pk, a, b);
      }
    }
    if CommitOk(rows) && !HandsOver(rows, pk) {
      forall i | 0 <= i < |w| ensures FreeAt(rows, w, i) {
        OkMeansFree(rows, pk, i);
      }
    }
  }

  /** What is left of the database after the deletes. */
  function Kept(db: seq<Option<Fields>>, rows: seq<Row>): seq<Row>
    requires |db| == |rows|
  {
    if db == [] then []
    else
      var n := |db| - 1;
      var init := Kept(db[..n], rows[..n]);
      if !rows[n].deleted && db[n].Some? then init + [Row(db[n], db[n].value, false)] else init
  }

  lemma {:induction false} KeptIsCommitted(rows: seq<Row>, db: seq<Option<Fields>>)
    requires |db| == |rows| && forall k :: 0 <= k < |rows| && !rows[k].deleted ==> db[k] == Some(rows[k].mem)
    ensures Kept(db, rows) == Committed(rows)
    decreases |rows|
  {
    if rows == [] {
    } else {
      KeptIsCommitted(rows[..|rows| - 1], db[..|rows| - 1]);
    }
  }

  /** The updates and inserts, each against the index; None when one of them is refused. */
  method WriteRows(rows: seq<Row>, writes: seq<nat>) returns (db: Option<seq<Option<Fields>>>)
    requires forall i :: 0 <= i < |writes| ==> writes[i] < |rows|
    ensures db.Some? <==> AllFree(rows, writes, |writes|)
    ensures db.Some? ==> WrittenDb(rows, writes, db.value)
  {
    hide FreeAt, IdTaken;
    var now := StoredNow(rows);
    for i := 0 to |writes|
      invariant WrittenDb(rows, writes[..i], now) && AllFree(rows, writes, i)
    {
      var k := writes[i];
      TakenIsNotFree(rows, writes, i, now);
      WriteOne(rows, writes, i, now);
      if IdTaken(now, k, rows[k].mem.externalId) {
        return None;
      }
      hide WrittenDb;
      now := now[k := Some(rows[k].mem)];
    }
    assert writes[..|writes|] == writes;
    db := Some(now);
  }

  /** The deletes. */
  method DeleteMarked(rows: seq<Row>, db: seq<Option<Fields>>) returns (left: seq<Row>)
    requires |db| == |rows|
    ensures left == Kept(db, rows)
  {
    hide Kept;
    left := [];
    NothingKept();
    for k := 0 to |rows|
      invariant left == Kept(db[..k], rows[..k])
    {
      KeptOne(db, rows, k);
      if !rows[k].deleted && db[k].Some? {
        left := left + [Row(db[k], db[k].value, false)];
      }
    }
    assert db[..|rows|] == db && rows[..|rows|] == rows;
  }

  lemma {:induction false} NothingKept()
    ensures Kept([], []) == []
  {
  }

  lemma {:induction false} KeptOne(db: seq<Option<Fields>>, rows: seq<Row>, k: nat)
    requires |db| == |rows| && k < |rows|
    ensures Kept(db[..k + 1], rows[..k + 1])
            == Kept(db[..k], rows[..k]) + if !rows[k].deleted && db[k].Some?
                then [Row(db[k], db[k].value, false)]
                else []
  {
    assert db[..k + 1][..k] == db[..k] && rows[..k + 1][..k] == rows[..k];
  }

  /** The commit: the rows stored afterwards, or None when a write is refused. */
  method WriteChanges(rows: seq<Row>, pk: seq<nat>) returns (stored: Option<seq<Row>>)
    requires UpdateOrder(rows, pk)
    ensures stored.Some? <==> CommitOk(rows) && !HandsOver(rows, pk)
    ensures stored.Some? ==> stored.value == Committed(rows)
  {
    var writes := WriteList(rows, pk);
    CommitIff(rows, pk);
    WritesAreLive(rows, pk);
    hide UpdateOrder, WriteList, AllFree, HandsOver, CommitOk, Committed, Kept;
    var db := WriteRows(rows, writes);
    if db.None? {
      return None;
    }
    KeptIsCommitted(rows, db.value);
    var left := DeleteMarked(rows, db.value);
    stored := Some(left);
  }
}
