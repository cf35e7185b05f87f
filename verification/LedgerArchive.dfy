/** The job that copies old Essential ledger rows to archive blobs and then prunes them. */
module LedgerArchive {
  import opened Text
  import opened Calendar

  type LedgerTime = ts: Timestamp | ValidTimestamp(ts) && ts.date.year >= 1 witness Timestamp(Date(1, 1, 1), 0)

  datatype LedgerRow = LedgerRow(id: string, uid: string, ts: LedgerTime)

  /** One uploaded part: the rows it holds, under a prefix and a part number. */
  datatype Part = Part(prefix: string, number: nat, rows: seq<LedgerRow>)

  // ----- Names -----

  function ArchivePrefix(row: LedgerRow): string {
    "essential/" + row.uid + "/" + Digits(row.ts.date.year) + "/" + Padded(row.ts.date.month, 2)
  }

  function BlobName(prefix: string, runId: string, part: nat): string {
    prefix + "/ledger_hot_essential_" + runId + "_part" + Padded(part, 5) + ".jsonl"
  }

  /** The same day and time one year earlier; 29 February becomes the 28th. Year 0 does not exist. */
  function OneYearAgo(now: LedgerTime): Option<LedgerTime> {
    var d := now.date;
    if d.year - 1 < 1 then None
    else if d.day <= DaysInMonth(d.year - 1, d.month) then Some(now.(date := d.(year := d.year - 1)))
    else Some(now.(date := Date(d.year - 1, d.month, 28)))
  }

  function Serialized(rows: seq<LedgerRow>, serialize: LedgerRow -> string): seq<string> {
    if rows == [] then [] else Serialized(rows[..|rows| - 1], serialize) + [serialize(rows[|rows| - 1])]
  }

  function OlderThan(rows: seq<LedgerRow>, cutoff: LedgerTime): seq<LedgerRow> {
    if rows == [] then []
    else
      var init, row := OlderThan(rows[..|rows| - 1], cutoff), rows[|rows| - 1];
      if Instant(row.ts) < Instant(cutoff) then init + [row] else init
  }

  function NotOlderThan(rows: seq<LedgerRow>, cutoff: LedgerTime): seq<LedgerRow> {
    if rows == [] then []
    else
      var init, row := NotOlderThan(rows[..|rows| - 1], cutoff), rows[|rows| - 1];
      if Instant(row.ts) < Instant(cutoff) then init else init + [row]
  }

  /** Storage after the uploads; a blob written twice keeps only the later content. */
  function Stored(blobs: map<string, seq<string>>, parts: seq<Part>, runId: string, serialize: LedgerRow -> string)
    : map<string, seq<string>>
  {
    if parts == [] then blobs
    else
      var p := parts[|parts| - 1];
      Stored(blobs, parts[..|parts| - 1], runId, serialize)
        [BlobName(p.prefix, runId, p.number) := Serialized(p.rows, serialize)]
  }

  // ----- What a correct partition is -----

  function Concat(parts: seq<Part>): seq<LedgerRow> {
    if parts == [] then [] else Concat(parts[..|parts| - 1]) + parts[|parts| - 1].rows
  }

  function Capacity(batchSize: int): (n: nat)
    ensures n >= 1
  {
    if batchSize < 1 then 1 else batchSize
  }

  predicate FilledFrom(p: Part, batch: nat) {
    1 <= |p.rows| <= batch && forall i :: 0 <= i < |p.rows| ==> ArchivePrefix(p.rows[i]) == p.prefix
  }

  /** Numbering restarts when the prefix changes; within a prefix only a full part has a successor. */
  predicate Follows(p: Part, next: Part, batch: nat) {
    if p.prefix == next.prefix then next.number == p.number + 1 && |p.rows| == batch else next.number == 1
  }

  predicate WellPartitioned(parts: seq<Part>, batch: nat) {
    && (forall k :: 0 <= k < |parts| ==> FilledFrom(parts[k], batch))
    && (parts != [] ==> parts[0].number == 1)
    && (forall k :: 0 < k < |parts| ==> Follows(parts[k - 1], parts[k], batch))
  }

  // ----- The job -----

  class ArchiveJob {
    var table: seq<LedgerRow>
    var blobs: map<string, seq<string>>
    const serialize: LedgerRow -> string

    constructor (table: seq<LedgerRow>, blobs: map<string, seq<string>>, serialize: LedgerRow -> string)
      ensures this.table == table && this.blobs == blobs && this.serialize == serialize
    {
      this.table, this.blobs, this.serialize := table, blobs, serialize;
    }

    /** Writes one blob. The ghost parameters record which rows the lines stand for. */
    method UploadPartition(
        prefix: string, runId: string, partIndex: nat, lines: seq<string>,
        ghost before: map<string, seq<string>>, ghost parts: seq<Part>, ghost pending: seq<LedgerRow>, ghost batch: nat)
      returns (ghost parts': seq<Part>)
      requires partIndex >= 1 && Open(parts, pending, prefix, partIndex - 1, batch) && pending != []
      requires lines == Serialized(pending, serialize) && blobs == Stored(before, parts, runId, serialize)
      modifies this`blobs
      ensures blobs == old(blobs)[BlobName(prefix, runId, partIndex) := lines]
      ensures blobs == Stored(before, parts', runId, serialize)
      ensures parts' == parts + [Part(prefix, partIndex, pending)]
      ensures WellPartitioned(parts', batch) && Concat(parts') == Concat(parts) + pending
      ensures |pending| == batch ==> Open(parts', [], prefix, partIndex, batch)
    {
      hide *;
      parts' := parts + [Part(prefix, partIndex, pending)];
      ClosePart(parts, pending, prefix, partIndex - 1, batch);
      StoreOne(before, parts, Part(prefix, partIndex, pending), runId, serialize);
      blobs := blobs[BlobName(prefix, runId, partIndex) := lines];
    }

    /** `queried` is the database's answer: the rows before the cutoff in some order. */
    method ArchiveEssentialLedger(queried: seq<LedgerRow>, cutoff: LedgerTime, runId: string, batchSize: int)
      returns (deleted: nat, ghost parts: seq<Part>)
      requires multiset(queried) == multiset(OlderThan(table, cutoff))
      modifies this
      ensures WellPartitioned(parts, Capacity(batchSize))
      ensures Concat(parts) == queried
      ensures blobs == Stored(old(blobs), parts, runId, serialize)
      ensures table == NotOlderThan(old(table), cutoff)
      ensures deleted == |queried|
    {
      hide *;
      parts := PartitionRows(queried, runId, batchSize);
      FilterSplits(table, cutoff);
      SameSize(queried, OlderThan(table, cutoff));
      if |queried| == 0 {
        return 0, parts;
      }
      deleted := |table| - |NotOlderThan(table, cutoff)|;
      table := NotOlderThan(table, cutoff);
    }

    /** The streaming loop: a buffer, a part counter that restarts with every prefix, one pass. */
    method PartitionRows(queried: seq<LedgerRow>, runId: string, batchSize: int) returns (ghost parts: seq<Part>)
      modifies this`blobs
      ensures WellPartitioned(parts, Capacity(batchSize))
      ensures Concat(parts) == queried
      ensures blobs == Stored(old(blobs), parts, runId, serialize)
    {
      hide BlobName, ArchivePrefix, WellPartitioned, Open, Serialized, Stored, Concat;
      ghost var batch := Capacity(batchSize);
      EmptyJob(blobs, runId, serialize, batch);
      var currentPrefix: Option<string> := None;
      var partIndex: nat := 0;
      var buffer: seq<string> := [];
      ghost var pending: seq<LedgerRow> := [];
      parts := [];
      for i := 0 to |queried|
        invariant blobs == Stored(old(blobs), parts, runId, serialize)
        invariant buffer == Serialized(pending, serialize) && |buffer| == |pending| < batch
        invariant Concat(parts) + pending == queried[..i]
        invariant WellPartitioned(parts, batch)
        invariant currentPrefix.None? <==> i == 0
        invariant i == 0 ==> parts == [] && pending == [] && partIndex == 0
        invariant i > 0 ==> Open(parts, pending, currentPrefix.value, partIndex, batch)
        invariant i > 0 && pending == [] ==> parts != [] && parts[|parts| - 1].prefix == currentPrefix.value
      {
        var prefix := ArchivePrefix(queried[i]);
        if currentPrefix.Some? && prefix != currentPrefix.value {
          if |buffer| > 0 {
            partIndex := partIndex + 1;
            parts := UploadPartition(currentPrefix.value, runId, partIndex, buffer, old(blobs), parts, pending, batch);
          }
          assert Concat(parts) + [] == queried[..i];
          buffer, pending := [], [];
          ChangePrefix(parts, currentPrefix.value, prefix, batch);
          partIndex := 0;
        } else if currentPrefix.None? {
          StartGroup(prefix, batch);
        }
        currentPrefix := Some(prefix);
        OneMoreRow(Concat(parts), pending, queried, i);
        AddRow(parts, pending, prefix, partIndex, batch, queried[i]);
        SerializeOne(pending, queried[i], serialize);
        pending := pending + [queried[i]];
        buffer := buffer + [serialize(queried[i])];
        if |buffer| >= batchSize {
          partIndex := partIndex + 1;
          parts := UploadPartition(prefix, runId, partIndex, buffer, old(blobs), parts, pending, batch);
          assert Concat(parts) + [] == queried[..i + 1];
          buffer, pending := [], [];
        }
      }
      assert queried[..|queried|] == queried;
      if |buffer| > 0 && currentPrefix.Some? {
        partIndex := partIndex + 1;
        parts := UploadPartition(currentPrefix.value, runId, partIndex, buffer, old(blobs), parts, pending, batch);
      }
    }
  }

  // ----- The loop's invariant -----

  /** Either the current prefix has parts already, all of them full, or numbering starts afresh. */
  predicate Numbered(parts: seq<Part>, current: string, partIndex: nat, batch: nat) {
    if parts != [] && parts[|parts| - 1].prefix == current
    then |parts[|parts| - 1].rows| == batch && partIndex == parts[|parts| - 1].number
    else partIndex == 0
  }

  /** The closed parts are right so far, and the pending rows continue them under prefix `current`. */
  ghost predicate Open(parts: seq<Part>, pending: seq<LedgerRow>, current: string, partIndex: nat, batch: nat) {
    && WellPartitioned(parts, batch)
    && |pending| <= batch
    && (forall i :: 0 <= i < |pending| ==> ArchivePrefix(pending[i]) == current)
    && Numbered(parts, current, partIndex, batch)
  }

  lemma {:induction false} OneMoreRow(closed: seq<LedgerRow>, pending: seq<LedgerRow>, queried: seq<LedgerRow>, i: nat)
    requires i < |queried| && closed + pending == queried[..i]
    ensures closed + (pending + [queried[i]]) == queried[..i + 1]
  {
    assert queried[..i + 1] == queried[..i] + [queried[i]];
  }

  lemma {:induction false} StartGroup(prefix: string, batch: nat)
    ensures Open([], [], prefix, 0, batch)
  {
  }

  lemma {:induction false} ChangePrefix(parts: seq<Part>, current: string, next: string, batch: nat)
    requires WellPartitioned(parts, batch) && parts != [] && parts[|parts| - 1].prefix == current != next
    ensures Open(parts, [], next, 0, batch)
  {
  }

  lemma {:induction false} AddRow(
      parts: seq<Part>, pending: seq<LedgerRow>, current: string, partIndex: nat, batch: nat, row: LedgerRow)
    requires Open(parts, pending, current, partIndex, batch) && |pending| < batch
    requires ArchivePrefix(row) == current
    ensures Open(parts, pending + [row], current, partIndex, batch)
  {
    hide WellPartitioned, ArchivePrefix;
  }

  lemma {:induction false} NextFollows(last: Part, current: string, partIndex: nat, pending: seq<LedgerRow>, batch: nat)
    requires if last.prefix == current then |last.rows| == batch && partIndex == last.number else partIndex == 0
    ensures Follows(last, Part(current, partIndex + 1, pending), batch)
  {
  }

  lemma {:induction false} ClosePart(
      parts: seq<Part>, pending: seq<LedgerRow>, current: string, partIndex: nat, batch: nat)
    requires Open(parts, pending, current, partIndex, batch) && pending != []
    ensures var parts' := parts + [Part(current, partIndex + 1, pending)];
            && WellPartitioned(parts', batch)
            && (|pending| == batch ==> Open(parts', [], current, partIndex + 1, batch))
            && Concat(parts') == Concat(parts) + pending
  {
    hide ArchivePrefix, Follows;
    var parts' := parts + [Part(current, partIndex + 1, pending)];
    assert parts'[..|parts|] == parts;
    if parts != [] {
      NextFollows(parts[|parts| - 1], current, partIndex, pending, batch);
    }
    forall k | 0 < k < |parts'|
      ensures Follows(parts'[k - 1], parts'[k], batch)
    {
      if k < |parts| {
        assert Follows(parts[k - 1], parts[k], batch);
      }
    }
  }

  lemma {:induction false} EmptyJob(
      blobs: map<string, seq<string>>, runId: string, serialize: LedgerRow -> string, batch: nat)
    ensures Stored(blobs, [], runId, serialize) == blobs && Serialized([], serialize) == [] && Concat([]) == []
    ensures WellPartitioned([], batch)
  {
  }

  lemma {:induction false} StoreOne(
      blobs: map<string, seq<string>>, parts: seq<Part>, closed: Part, runId: string, serialize: LedgerRow -> string)
    ensures Stored(blobs, parts + [closed], runId, serialize)
            == Stored(blobs, parts, runId, serialize)
                 [BlobName(closed.prefix, runId, closed.number) := Serialized(closed.rows, serialize)]
  {
    hide BlobName, Serialized;
    assert (parts + [closed])[..|parts|] == parts;
  }

  lemma {:induction false} SerializeOne(rows: seq<LedgerRow>, row: LedgerRow, serialize: LedgerRow -> string)
    ensures Serialized(rows + [row], serialize) == Serialized(rows, serialize) + [serialize(row)]
  {
    assert (rows + [row])[..|rows|] == rows;
  }

  lemma {:induction false} FilterSplits(rows: seq<LedgerRow>, cutoff: LedgerTime)
    ensures |OlderThan(rows, cutoff)| + |NotOlderThan(rows, cutoff)| == |rows|
    ensures OlderThan(rows, cutoff) == [] ==> NotOlderThan(rows, cutoff) == rows
  {
    hide Instant;
    if rows == [] {
    } else {
      FilterSplits(rows[..|rows| - 1], cutoff);
    }
  }

  /** On an unchanged table the job prunes exactly the rows it archived and keeps every other one. */
  lemma {:induction false} PrunedIsArchived(rows: seq<LedgerRow>, cutoff: LedgerTime, parts: seq<Part>)
    requires multiset(Concat(parts)) == multiset(OlderThan(rows, cutoff))
    ensures multiset(rows) - multiset(NotOlderThan(rows, cutoff)) == multiset(Concat(parts))
    ensures forall row :: row in NotOlderThan(rows, cutoff) ==> Instant(row.ts) >= Instant(cutoff)
  {
    MultisetSplits(rows, cutoff);
    KeptAreRecent(rows, cutoff);
  }

  lemma {:induction false} MultisetSplits(rows: seq<LedgerRow>, cutoff: LedgerTime)
    ensures multiset(rows) == multiset(OlderThan(rows, cutoff)) + multiset(NotOlderThan(rows, cutoff))
  {
    hide Instant;
    if rows == [] {
    } else {
      var init, row := rows[..|rows| - 1], rows[|rows| - 1];
      MultisetSplits(init, cutoff);
      assert rows == init + [row];
    }
  }

  lemma {:induction false} KeptAreRecent(rows: seq<LedgerRow>, cutoff: LedgerTime)
    ensures forall row :: row in NotOlderThan(rows, cutoff) ==> Instant(row.ts) >= Instant(cutoff)
  {
    hide Instant;
    if rows == [] {
    } else {
      KeptAreRecent(rows[..|rows| - 1], cutoff);
    }
  }

  lemma {:induction false} SameSize(a: seq<LedgerRow>, b: seq<LedgerRow>)
    requires multiset(a) == multiset(b)
    ensures |a| == |b|
  {
    assert |multiset(a)| == |a| && |multiset(b)| == |b|;
  }

  // ----- Names tell parts apart -----

  /** The prefix string determines the user and the month. */
  lemma {:induction false} PrefixDetermines(a: LedgerRow, b: LedgerRow)
    requires ArchivePrefix(a) == ArchivePrefix(b)
    ensures a.uid == b.uid && MonthIndex(a.ts.date) == MonthIndex(b.ts.date)
  {
    hide Digits, Padded, Value;
    var ya, yb := Digits(a.ts.date.year), Digits(b.ts.date.year);
    var ma, mb := Padded(a.ts.date.month, 2), Padded(b.ts.date.month, 2);
    ValueOfDigits(a.ts.date.year);
    ValueOfDigits(b.ts.date.year);
    ValueOfPadded(a.ts.date.month, 2);
    ValueOfPadded(b.ts.date.month, 2);
    var ua, ub := "essential/" + a.uid, "essential/" + b.uid;
    assert ArchivePrefix(a) == (ua + ['/'] + ya) + ['/'] + ma && ArchivePrefix(b) == (ub + ['/'] + yb) + ['/'] + mb;
    CutAtLast(ua + ['/'] + ya, ma, ub + ['/'] + yb, mb, '/');
    CutAtLast(ua, ya, ub, yb, '/');
    SameTail("essential/", a.uid, b.uid);
  }

  /** Blob names of one run determine prefix and part number, however many digits the number has. */
  lemma {:induction false} NameDetermines(prefix: string, part: nat, prefix': string, part': nat, runId: string)
    requires '/' !in runId
    requires BlobName(prefix, runId, part) == BlobName(prefix', runId, part')
    ensures prefix == prefix' && part == part'
  {
    hide Padded, Value, AllDigits;
    var head := "ledger_hot_essential_" + runId + "_part";
    var n, n' := Padded(part, 5), Padded(part', 5);
    NameIsPrefixAndFile(prefix, part, runId);
    NameIsPrefixAndFile(prefix', part', runId);
    CutAtLast(prefix, head + n + ".jsonl", prefix', head + n' + ".jsonl", '/');
    SameHead(head + n, head + n', ".jsonl");
    SameTail(head, n, n');
    ValueOfPadded(part, 5);
    ValueOfPadded(part', 5);
  }

  lemma {:induction false} NameIsPrefixAndFile(prefix: string, part: nat, runId: string)
    requires '/' !in runId
    ensures var file := "ledger_hot_essential_" + runId + "_part" + Padded(part, 5) + ".jsonl";
            BlobName(prefix, runId, part) == prefix + ['/'] + file && '/' !in file
  {
    hide Padded, Value;
    ValueOfPadded(part, 5);
    DigitsLack(Padded(part, 5), '/');
    hide AllDigits;
    var a := "ledger_hot_essential_";
    assert '/' !in a && '/' !in "_part" && '/' !in ".jsonl";
    assert BlobName(prefix, runId, part) == prefix + ['/'] + (a + runId + "_part" + Padded(part, 5) + ".jsonl");
  }

  // ----- Sorted input keeps the rows of a prefix together -----

  /** Ordered by user, in any collation, and by time within a user. */
  predicate SortedForArchive(rows: seq<LedgerRow>) {
    forall i, j :: 0 <= i < j < |rows| && rows[i].uid == rows[j].uid ==>
      && Instant(rows[i].ts) <= Instant(rows[j].ts)
      && forall k :: i < k < j ==> rows[k].uid == rows[i].uid
  }

  lemma {:induction false} RowsOfPrefixAreTogether(rows: seq<LedgerRow>, i: nat, k: nat, j: nat)
    requires SortedForArchive(rows) && i < k < j < |rows|
    requires ArchivePrefix(rows[i]) == ArchivePrefix(rows[j])
    ensures ArchivePrefix(rows[k]) == ArchivePrefix(rows[i])
  {
    PrefixDetermines(rows[i], rows[j]);
    assert rows[k].uid == rows[i].uid;
    hide Instant, ArchivePrefix;
    InstantsOrderMonths(rows[i].ts, rows[k].ts);
    InstantsOrderMonths(rows[k].ts, rows[j].ts);
    SameMonthSamePrefix(rows[i], rows[k]);
  }

  lemma {:induction false} SameMonthSamePrefix(a: LedgerRow, b: LedgerRow)
    requires a.uid == b.uid && MonthIndex(a.ts.date) == MonthIndex(b.ts.date)
    ensures ArchivePrefix(a) == ArchivePrefix(b)
  {
    assert a.ts.date.year == b.ts.date.year && a.ts.date.month == b.ts.date.month;
  }

  predicate Grouped(parts: seq<Part>) {
    forall i, k, j :: 0 <= i < k < j < |parts| && parts[i].prefix == parts[j].prefix
        ==> parts[k].prefix == parts[i].prefix
  }

  /** The position in the archive of the first row of part k. */
  function Offset(parts: seq<Part>, k: nat): nat
    requires k <= |parts|
  {
    if k == 0 then 0 else Offset(parts, k - 1) + |parts[k - 1].rows|
  }

  lemma {:induction false} OffsetsGrow(parts: seq<Part>, i: nat, j: nat)
    requires i <= j <= |parts| && forall k :: 0 <= k < |parts| ==> parts[k].rows != []
    ensures Offset(parts, i) + (j - i) <= Offset(parts, j)
    decreases j - i
  {
    if i < j {
      OffsetsGrow(parts, i, j - 1);
    }
  }

  lemma {:induction false} FirstRowOf(parts: seq<Part>, k: nat)
    requires k < |parts| && parts[k].rows != []
    ensures Offset(parts, k) < |Concat(parts)| && Concat(parts)[Offset(parts, k)] == parts[k].rows[0]
    ensures Offset(parts, |parts|) == |Concat(parts)|
  {
    var init := parts[..|parts| - 1];
    ConcatLength(parts, |parts|);
    ConcatLength(parts, |parts| - 1);
    if k < |init| {
      FirstRowOf(init, k);
      SameOffsets(parts, init, k);
    }
  }

  lemma {:induction false} SameOffsets(parts: seq<Part>, other: seq<Part>, k: nat)
    requires k <= |other| <= |parts| && parts[..|other|] == other
    ensures Offset(parts, k) == Offset(other, k)
  {
    if k == 0 {
    } else {
      SameOffsets(parts, other, k - 1);
      assert parts[..|other|][k - 1] == parts[k - 1];
    }
  }

  lemma {:induction false} ConcatLength(parts: seq<Part>, k: nat)
    requires k <= |parts|
    ensures |Concat(parts[..k])| == Offset(parts, k)
    ensures parts[..|parts|] == parts
  {
    if k == 0 {
    } else {
      ConcatLength(parts, k - 1);
      assert parts[..k][..k - 1] == parts[..k - 1];
    }
  }

  lemma {:induction false} SortedGivesGrouped(parts: seq<Part>, batch: nat)
    requires WellPartitioned(parts, batch) && SortedForArchive(Concat(parts))
    ensures Grouped(parts)
  {
    hide SortedForArchive, ArchivePrefix;
    var rows := Concat(parts);
    forall i, k, j | 0 <= i < k < j < |parts| && parts[i].prefix == parts[j].prefix
      ensures parts[k].prefix == parts[i].prefix
    {
      assert FilledFrom(parts[i], batch) && FilledFrom(parts[k], batch) && FilledFrom(parts[j], batch);
      assert forall m :: 0 <= m < |parts| ==> FilledFrom(parts[m], batch) && parts[m].rows != [];
      FirstRowOf(parts, i);
      FirstRowOf(parts, k);
      FirstRowOf(parts, j);
      OffsetsGrow(parts, i, k);
      OffsetsGrow(parts, k, j);
      RowsOfPrefixAreTogether(rows, Offset(parts, i), Offset(parts, k), Offset(parts, j));
    }
  }

  // ----- Part numbers -----

  lemma {:induction false} NumbersIncrease(parts: seq<Part>, batch: nat, i: nat, j: nat)
    requires WellPartitioned(parts, batch) && Grouped(parts)
    requires i <= j < |parts| && parts[i].prefix == parts[j].prefix
    ensures parts[j].number == parts[i].number + (j - i)
    decreases j - i
  {
    hide ArchivePrefix, FilledFrom;
    if i < j {
      assert i < j - 1 ==> parts[j - 1].prefix == parts[i].prefix;
      NumbersIncrease(parts, batch, i, j - 1);
      assert Follows(parts[j - 1], parts[j], batch);
    }
  }

  /** Sorted input never makes the job write a blob twice. */
  lemma {:induction false} BlobNamesAreDistinct(parts: seq<Part>, batch: nat, runId: string, i: nat, j: nat)
    requires WellPartitioned(parts, batch) && SortedForArchive(Concat(parts)) && '/' !in runId
    requires i < j < |parts|
    ensures BlobName(parts[i].prefix, runId, parts[i].number) != BlobName(parts[j].prefix, runId, parts[j].number)
  {
    hide BlobName, SortedForArchive, WellPartitioned, Concat;
    SortedGivesGrouped(parts, batch);
    if BlobName(parts[i].prefix, runId, parts[i].number) == BlobName(parts[j].prefix, runId, parts[j].number) {
      NameDetermines(parts[i].prefix, parts[i].number, parts[j].prefix, parts[j].number, runId);
      NumbersIncrease(parts, batch, i, j);
    }
  }

  /** So every part is still in storage, with its own content, when the job ends. */
  lemma {:induction false} EveryPartIsStored(
      blobs: map<string, seq<string>>, parts: seq<Part>, batch: nat, runId: string, serialize: LedgerRow -> string,
      i: nat)
    requires WellPartitioned(parts, batch) && SortedForArchive(Concat(parts)) && '/' !in runId
    requires i < |parts|
    ensures var name := BlobName(parts[i].prefix, runId, parts[i].number);
            var stored := Stored(blobs, parts, runId, serialize);
            name in stored && stored[name] == Serialized(parts[i].rows, serialize)
  {
    hide BlobName, SortedForArchive, WellPartitioned, Serialized;
    var init := parts[..|parts| - 1];
    if i < |init| {
      PartitionPrefix(parts, batch);
      EveryPartIsStored(blobs, init, batch, runId, serialize, i);
      BlobNamesAreDistinct(parts, batch, runId, i, |parts| - 1);
    }
  }

  lemma {:induction false} PartitionPrefix(parts: seq<Part>, batch: nat)
    requires parts != [] && WellPartitioned(parts, batch) && SortedForArchive(Concat(parts))
    ensures var init := parts[..|parts| - 1];
            WellPartitioned(init, batch) && SortedForArchive(Concat(init))
  {
    hide FilledFrom, Instant;
    var init, rows := parts[..|parts| - 1], Concat(parts);
    var rows' := Concat(init);
    assert rows == rows' + parts[|parts| - 1].rows;
    forall i, j | 0 <= i < j < |rows'| && rows'[i].uid == rows'[j].uid
      ensures Instant(rows'[i].ts) <= Instant(rows'[j].ts)
      ensures forall k :: i < k < j ==> rows'[k].uid == rows'[i].uid
    {
      assert rows'[i] == rows[i] && rows'[j] == rows[j];
      forall k | i < k < j
        ensures rows'[k].uid == rows'[i].uid
      {
        assert rows[k].uid == rows[i].uid && rows'[k] == rows[k];
      }
    }
    forall k | 0 < k < |init|
      ensures Follows(init[k - 1], init[k], batch)
    {
      assert Follows(parts[k - 1], parts[k], batch);
    }
  }

  // ----- Exactly the parts a prefix needs -----

  function CountPrefix(rows: seq<LedgerRow>, prefix: string): nat {
    if rows == [] then 0
    else CountPrefix(rows[..|rows| - 1], prefix) + if ArchivePrefix(rows[|rows| - 1]) == prefix then 1 else 0
  }

  function NumbersOf(parts: seq<Part>, prefix: string): seq<nat> {
    if parts == [] then []
    else
      var init, p := NumbersOf(parts[..|parts| - 1], prefix), parts[|parts| - 1];
      if p.prefix == prefix then init + [p.number] else init
  }

  function OneTo(n: nat): seq<nat> {
    if n == 0 then [] else OneTo(n - 1) + [n]
  }

  function CeilDiv(n: nat, d: nat): nat
    requires d >= 1
  {
    (n + d - 1) / d
  }

  lemma {:induction false} CeilDivOf(full: nat, rest: nat, d: nat)
    requires d >= 1 && 1 <= rest <= d
    ensures CeilDiv(full * d + rest, d) == full + 1
  {
    var n := full * d + rest + d - 1;
    assert n == (full + 1) * d + (rest - 1);
    DivIs(n, d, full + 1, rest - 1);
  }

  lemma {:induction false} Scaled(a: int, b: int, d: int)
    requires a <= b && d > 0
    ensures a * d <= b * d
  {
  }

  lemma {:induction false} DivIs(n: int, d: int, q: int, r: int)
    requires d > 0 && n == q * d + r && 0 <= r < d
    ensures n / d == q
  {
    var q' := n / d;
    assert q' * d <= n < q' * d + d;
    assert (q' + 1) * d == q' * d + d && (q + 1) * d == q * d + d;
    if q' < q {
      Scaled(q' + 1, q, d);
    } else if q < q' {
      Scaled(q + 1, q', d);
    }
  }

  lemma {:induction false} CountAppend(rows: seq<LedgerRow>, more: seq<LedgerRow>, prefix: string, same: bool)
    requires forall i :: 0 <= i < |more| ==> (ArchivePrefix(more[i]) == prefix) == same
    ensures CountPrefix(rows + more, prefix) == CountPrefix(rows, prefix) + if same then |more| else 0
  {
    hide ArchivePrefix;
    if more == [] {
      assert rows + more == rows;
    } else {
      CountAppend(rows, more[..|more| - 1], prefix, same);
      assert (rows + more)[..|rows + more| - 1] == rows + more[..|more| - 1];
    }
  }

  /** A prefix with n rows gets exactly the parts 1, 2, ..., ceiling(n / batch), in that order. */
  lemma {:induction false} PrefixGetsItsParts(parts: seq<Part>, batch: nat, prefix: string)
    requires batch >= 1 && WellPartitioned(parts, batch) && Grouped(parts)
    ensures NumbersOf(parts, prefix) == OneTo(CeilDiv(CountPrefix(Concat(parts), prefix), batch))
    ensures parts != [] && parts[|parts| - 1].prefix == prefix ==>
              var last := parts[|parts| - 1];
              last.number >= 1 && CountPrefix(Concat(parts), prefix) == (last.number - 1) * batch + |last.rows|
    ensures (forall i :: 0 <= i < |parts| ==> parts[i].prefix != prefix) ==> CountPrefix(Concat(parts), prefix) == 0
  {
    hide ArchivePrefix, CeilDiv, Follows, CountPrefix;
    if parts == [] {
      NoParts(batch, prefix);
    } else {
      var init, last := parts[..|parts| - 1], parts[|parts| - 1];
      WellPartitionedInit(parts, batch);
      PrefixGetsItsParts(init, batch, prefix);
      assert FilledFrom(last, batch);
      CountAppend(Concat(init), last.rows, prefix, last.prefix == prefix);
      if last.prefix == prefix {
        if init != [] && init[|init| - 1].prefix == prefix {
          NextPartCounts(init[|init| - 1], last, batch, CountPrefix(Concat(init), prefix));
        } else {
          LastStartsItsGroup(parts, batch);
          NoParts(batch, prefix);
          CeilDivOf(0, |last.rows|, batch);
        }
      }
    }
  }

  lemma {:induction false} NextPartCounts(before: Part, last: Part, batch: nat, n: nat)
    requires batch >= 1 && before.prefix == last.prefix && Follows(before, last, batch) && 1 <= |last.rows| <= batch
    requires before.number >= 1 && n == (before.number - 1) * batch + |before.rows|
    ensures last.number == before.number + 1 && n == (last.number - 1) * batch
    ensures CeilDiv(n, batch) == before.number && CeilDiv(n + |last.rows|, batch) == last.number
  {
    hide CeilDiv;
    FullParts(before.number, batch);
    CeilDivOf(before.number - 1, batch, batch);
    CeilDivOf(before.number, |last.rows|, batch);
  }

  lemma {:induction false} NoParts(batch: nat, prefix: string)
    requires batch >= 1
    ensures CeilDiv(0, batch) == 0 && CountPrefix([], prefix) == 0
  {
    DivIs(batch - 1, batch, 0, batch - 1);
  }

  lemma {:induction false} FullParts(n: int, batch: nat)
    ensures (n - 1) * batch + batch == n * batch
  {
  }

  lemma {:induction false} WellPartitionedInit(parts: seq<Part>, batch: nat)
    requires parts != [] && WellPartitioned(parts, batch) && Grouped(parts)
    ensures WellPartitioned(parts[..|parts| - 1], batch) && Grouped(parts[..|parts| - 1])
  {
    hide FilledFrom;
    var init := parts[..|parts| - 1];
    forall k | 0 < k < |init|
      ensures Follows(init[k - 1], init[k], batch)
    {
      assert Follows(parts[k - 1], parts[k], batch);
    }
  }

  lemma {:induction false} LastStartsItsGroup(parts: seq<Part>, batch: nat)
    requires parts != [] && WellPartitioned(parts, batch) && Grouped(parts)
    requires |parts| > 1 ==> parts[|parts| - 2].prefix != parts[|parts| - 1].prefix
    ensures parts[|parts| - 1].number == 1
    ensures forall i :: 0 <= i < |parts| - 1 ==> parts[i].prefix != parts[|parts| - 1].prefix
  {
    hide FilledFrom;
    if |parts| > 1 {
      assert Follows(parts[|parts| - 2], parts[|parts| - 1], batch);
    }
  }

  /** The order is needed: with two users' rows interleaved, two parts of one run share a name. */
  lemma {:induction false} UnsortedInputOverwrites(t: LedgerTime, parts: seq<Part>, runId: string)
    requires WellPartitioned(parts, 1)
    requires Concat(parts) == [LedgerRow("1", "a", t), LedgerRow("2", "b", t), LedgerRow("3", "a", t)]
    ensures !SortedForArchive(Concat(parts))
    ensures |parts| == 3
    ensures BlobName(parts[0].prefix, runId, parts[0].number) == BlobName(parts[2].prefix, runId, parts[2].number)
  {
    var a, b, c := LedgerRow("1", "a", t), LedgerRow("2", "b", t), LedgerRow("3", "a", t);
    var rows := [a, b, c];
    assert rows[0].uid == rows[2].uid && rows[1].uid != rows[0].uid;
    hide ArchivePrefix, BlobName;
    SingleRowParts(parts);
    assert FilledFrom(parts[0], 1) && FilledFrom(parts[1], 1) && FilledFrom(parts[2], 1);
    FirstRowOf(parts, 0);
    FirstRowOf(parts, 1);
    FirstRowOf(parts, 2);
    SameMonthSamePrefix(a, c);
    if ArchivePrefix(a) == ArchivePrefix(b) {
      PrefixDetermines(a, b);
    }
    assert Follows(parts[0], parts[1], 1) && Follows(parts[1], parts[2], 1);
  }

  lemma {:induction false} SingleRowParts(parts: seq<Part>)
    requires forall k :: 0 <= k < |parts| ==> |parts[k].rows| == 1
    ensures |parts| == |Concat(parts)|
    ensures forall k :: 0 <= k <= |parts| ==> Offset(parts, k) == k
  {
    if parts == [] {
    } else {
      SingleRowParts(parts[..|parts| - 1]);
    }
    forall k | 0 <= k <= |parts|
      ensures Offset(parts, k) == k
    {
      SingleOffset(parts, k);
    }
  }

  lemma {:induction false} SingleOffset(parts: seq<Part>, k: nat)
    requires k <= |parts| && forall k :: 0 <= k < |parts| ==> |parts[k].rows| == 1
    ensures Offset(parts, k) == k
  {
    if k == 0 {
    } else {
      SingleOffset(parts, k - 1);
    }
  }

  lemma {:induction false} LeapShift(year: int, other: int, month: int)
    requires 1 <= month <= 12
    ensures DaysBeforeMonth(year, month) - DaysBeforeMonth(other, month)
            == if month <= 2 then 0 else (if IsLeap(year) then 1 else 0) - (if IsLeap(other) then 1 else 0)
    decreases month
  {
    if month > 1 {
      LeapShift(year, other, month - 1);
    }
  }

  /** The archive cutoff is one calendar year back, at the same time of day and 365 or 366 days earlier: in the
      same month of the year before, the last day of that month which does not come after today's. */
  lemma {:induction false} OneYearAgoIsAYear(now: LedgerTime)
    ensures OneYearAgo(now).None? <==> now.date.year == 1
    ensures OneYearAgo(now).Some? ==>
              var ago := OneYearAgo(now).value;
              && ago.micro == now.micro && ago.date.year == now.date.year - 1 && ago.date.month == now.date.month
              && ago.date.day <= now.date.day
              && (forall d: Date | ValidDate(d) && d.year == ago.date.year && d.month == ago.date.month ::
                    d.day <= now.date.day ==> d.day <= ago.date.day)
              && 365 * MICROS_PER_DAY <= Instant(now) - Instant(ago) <= 366 * MICROS_PER_DAY
  {
    if now.date.year > 1 {
      var ago := OneYearAgo(now).value;
      var d := now.date;
      YearLength(d.year - 1);
      LeapShift(d.year, d.year - 1, d.month);
      hide DaysBeforeYear, DaysBeforeMonth;
      assert 365 <= Ordinal(d) - Ordinal(ago.date) <= 366;
    }
  }

  // ----- Row by row -----

  /** A row stays exactly when it is not older than the cutoff, as often as it was there. */
  lemma {:induction false} KeptIff(rows: seq<LedgerRow>, cutoff: LedgerTime, row: LedgerRow)
    ensures multiset(NotOlderThan(rows, cutoff))[row]
            == if Instant(row.ts) >= Instant(cutoff) then multiset(rows)[row] else 0
    ensures multiset(OlderThan(rows, cutoff))[row]
            == if Instant(row.ts) >= Instant(cutoff) then 0 else multiset(rows)[row]
  {
    hide Instant;
    if rows == [] {
    } else {
      var n := |rows| - 1;
      KeptIff(rows[..n], cutoff, row);
      assert rows == rows[..n] + [rows[n]];
    }
  }

  /** A blob has one line for each row of its part, in the same order. */
  lemma {:induction false} LineOfRow(rows: seq<LedgerRow>, serialize: LedgerRow -> string)
    ensures var lines := Serialized(rows, serialize);
            |lines| == |rows| && forall i :: 0 <= i < |rows| ==> lines[i] == serialize(rows[i])
  {
    if rows == [] {
    } else {
      LineOfRow(rows[..|rows| - 1], serialize);
    }
  }

  lemma {:induction false} RowInPart(parts: seq<Part>, row: LedgerRow) returns (i: nat, k: nat)
    requires row in Concat(parts)
    ensures i < |parts| && k < |parts[i].rows| && parts[i].rows[k] == row
  {
    var n := |parts| - 1;
    if row in parts[n].rows {
      i := n;
      k :| 0 <= k < |parts[n].rows| && parts[n].rows[k] == row;
    } else {
      i, k := RowInPart(parts[..n], row);
    }
  }

  /** After the job every row older than the cutoff is a line of a blob under its own user and month. */
  lemma {:induction false} EveryOldRowIsStored(
      table: seq<LedgerRow>, cutoff: LedgerTime, blobs: map<string, seq<string>>, parts: seq<Part>, batch: nat,
      runId: string, serialize: LedgerRow -> string, row: LedgerRow)
    returns (name: string, k: nat)
    requires WellPartitioned(parts, batch) && SortedForArchive(Concat(parts)) && '/' !in runId
    requires multiset(Concat(parts)) == multiset(OlderThan(table, cutoff))
    requires row in table && Instant(row.ts) < Instant(cutoff)
    ensures var stored := Stored(blobs, parts, runId, serialize);
            && name in stored && k < |stored[name]| && stored[name][k] == serialize(row)
    ensures exists number: nat :: name == "essential/" + row.uid + "/" + Digits(row.ts.date.year) + "/"
                            + Padded(row.ts.date.month, 2) + "/ledger_hot_essential_" + runId + "_part"
                            + Padded(number, 5) + ".jsonl"
  {
    KeptIff(table, cutoff, row);
    assert row in multiset(table);
    assert row in multiset(OlderThan(table, cutoff));
    assert row in multiset(Concat(parts));
    hide SortedForArchive, Instant, OlderThan, Stored, Concat, Serialized, Padded, Digits;
    var i;
    i, k := RowInPart(parts, row);
    name := BlobName(parts[i].prefix, runId, parts[i].number);
    EveryPartIsStored(blobs, parts, batch, runId, serialize, i);
    LineOfRow(parts[i].rows, serialize);
    assert FilledFrom(parts[i], batch);
    assert ArchivePrefix(parts[i].rows[k]) == parts[i].prefix;
    NameOf(row, runId, parts[i].number);
  }

  lemma {:induction false} NameOf(row: LedgerRow, runId: string, number: nat)
    ensures BlobName(ArchivePrefix(row), runId, number)
            == "essential/" + row.uid + "/" + Digits(row.ts.date.year) + "/" + Padded(row.ts.date.month, 2)
               + "/ledger_hot_essential_" + runId + "_part" + Padded(number, 5) + ".jsonl"
  {
    hide Padded, Digits;
  }
}
