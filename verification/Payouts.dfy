/** The monthly payout job: run events become revenue per developer, and revenue becomes payout rows.
    Amounts are in cents.
  */
module Payouts {
  import opened Text

  /** A recorded widget run of the current month. */
  datatype RunEvent = RunEvent(developer: Option<string>, widget: Option<string>)

  datatype Entry = Entry(dev: string, cents: int, runs: nat)

  datatype Row = Row(month: int, dev: string, cents: int, status: string)

  const RATE_PER_RUN := 5

  function NotBlank(s: Option<string>): Option<string> {
    if s == Some("") then None else s
  }

  /** The developer named by the event, else the owner of the widget. */
  function Developer(e: RunEvent, owners: map<string, string>): Option<string> {
    if NotBlank(e.developer).Some? then e.developer
    else if NotBlank(e.widget).Some? && e.widget.value in owners then NotBlank(Some(owners[e.widget.value]))
    else None
  }

  /** The run counts for this developer: the event names him, or it names none and its widget is his. */
  predicate CountsFor(e: RunEvent, owners: map<string, string>, dev: string) {
    && dev != ""
    && (if e.developer.Some? && e.developer.value != "" then e.developer.value == dev
        else e.widget.Some? && e.widget.value != "" && e.widget.value in owners && owners[e.widget.value] == dev)
  }

  lemma {:induction false} DeveloperIs(e: RunEvent, owners: map<string, string>, dev: string)
    ensures Developer(e, owners) == Some(dev) <==> CountsFor(e, owners, dev)
  {
  }

  // ----- Aggregation -----

  function FindEntry(rev: seq<Entry>, dev: string): (i: nat)
    ensures i <= |rev| && (i < |rev| ==> rev[i].dev == dev)
    ensures forall k :: 0 <= k < i ==> rev[k].dev != dev
  {
    if rev == [] || rev[0].dev == dev then 0 else 1 + FindEntry(rev[1..], dev)
  }

  function Credited(rev: seq<Entry>, dev: string): seq<Entry> {
    var i := FindEntry(rev, dev);
    if i == |rev| then rev + [Entry(dev, RATE_PER_RUN, 1)]
    else rev[i := rev[i].(cents := rev[i].cents + RATE_PER_RUN, runs := rev[i].runs + 1)]
  }

  function Aggregated(events: seq<RunEvent>, owners: map<string, string>): seq<Entry> {
    if events == [] then []
    else
      var rev, dev := Aggregated(events[..|events| - 1], owners), Developer(events[|events| - 1], owners);
      if dev.None? then rev else Credited(rev, dev.value)
  }

  function RunsOf(events: seq<RunEvent>, owners: map<string, string>, dev: string): nat {
    if events == [] then 0
    else
      var n := RunsOf(events[..|events| - 1], owners, dev);
      if Developer(events[|events| - 1], owners) == Some(dev) then n + 1 else n
  }

  function Attributed(events: seq<RunEvent>, owners: map<string, string>): nat {
    if events == [] then 0
    else
      var n := Attributed(events[..|events| - 1], owners);
      if Developer(events[|events| - 1], owners).Some? then n + 1 else n
  }

  function Total(rev: seq<Entry>): int {
    if rev == [] then 0 else Total(rev[..|rev| - 1]) + rev[|rev| - 1].cents
  }

  ghost predicate DistinctDevs(rev: seq<Entry>) {
    forall i, j :: 0 <= i < j < |rev| ==> rev[i].dev != rev[j].dev
  }

  /** Each developer has one entry, holding the rate times the runs attributed to them, or none at all. */
  ghost predicate ExactFor(rev: seq<Entry>, dev: string, runs: nat) {
    var i := FindEntry(rev, dev);
    if runs == 0 then i == |rev| else i < |rev| && rev[i] == Entry(dev, RATE_PER_RUN * runs, runs)
  }

  lemma {:induction false} FindAt(rev: seq<Entry>, i: nat)
    requires DistinctDevs(rev) && i < |rev|
    ensures FindEntry(rev, rev[i].dev) == i
  {
    var k := FindEntry(rev, rev[i].dev);
    assert k <= i;
  }

  lemma {:induction false} CreditKeepsDistinct(rev: seq<Entry>, dev: string)
    requires DistinctDevs(rev)
    ensures DistinctDevs(Credited(rev, dev))
  {
  }

  lemma {:induction false} CreditIsExact(rev: seq<Entry>, dev: string, other: string, runs: nat)
    requires DistinctDevs(rev) && ExactFor(rev, other, runs)
    ensures DistinctDevs(Credited(rev, dev))
    ensures ExactFor(Credited(rev, dev), other, if dev == other then runs + 1 else runs)
  {
    var i, j := FindEntry(rev, dev), FindEntry(rev, other);
    var rev' := Credited(rev, dev);
    CreditKeepsDistinct(rev, dev);
    hide DistinctDevs;
    if j < |rev| {
      assert rev'[j].dev == other;
      FindAt(rev', j);
    } else if dev == other {
      assert rev'[i].dev == other;
      FindAt(rev', i);
    } else {
      assert forall k :: 0 <= k < |rev'| ==> rev'[k].dev != other;
    }
  }

  lemma {:induction false} AggregateIsExact(events: seq<RunEvent>, owners: map<string, string>, dev: string)
    ensures DistinctDevs(Aggregated(events, owners))
    ensures ExactFor(Aggregated(events, owners), dev, RunsOf(events, owners, dev))
    decreases |events|
  {
    if events == [] {
    } else {
      var init, last := events[..|events| - 1], Developer(events[|events| - 1], owners);
      AggregateIsExact(init, owners, dev);
      hide Developer, DistinctDevs, ExactFor, Credited;
      if last.Some? {
        CreditIsExact(Aggregated(init, owners), last.value, dev, RunsOf(init, owners, dev));
      }
    }
  }

  lemma {:induction false} TotalUpdated(rev: seq<Entry>, i: nat, e: Entry)
    requires i < |rev|
    ensures Total(rev[i := e]) == Total(rev) - rev[i].cents + e.cents
    decreases |rev|
  {
    var n := |rev| - 1;
    if i == n {
      assert rev[i := e][..n] == rev[..n];
    } else {
      assert rev[i := e][..n] == rev[..n][i := e];
      TotalUpdated(rev[..n], i, e);
    }
  }

  lemma {:induction false} TotalAppended(rev: seq<Entry>, e: Entry)
    ensures Total(rev + [e]) == Total(rev) + e.cents
  {
    assert (rev + [e])[..|rev|] == rev;
  }

  predicate CountsAt(events: seq<RunEvent>, owners: map<string, string>, dev: string, i: nat) {
    i < |events| && CountsFor(events[i], owners, dev)
  }

  lemma {:induction false} RunsAreCounted(events: seq<RunEvent>, owners: map<string, string>, dev: string)
    ensures RunsOf(events, owners, dev) == |set i: nat | i < |events| && CountsAt(events, owners, dev, i)|
  {
    if events == [] {
      assert (set i: nat | i < |events| && CountsAt(events, owners, dev, i)) == {};
    } else {
      var n := |events| - 1;
      RunsAreCounted(events[..n], owners, dev);
      DeveloperIs(events[n], owners, dev);
      var before := set i: nat | i < n && CountsAt(events[..n], owners, dev, i);
      var now := set i: nat | i < |events| && CountsAt(events, owners, dev, i);
      assert forall i: nat :: i < n ==>
               (CountsAt(events[..n], owners, dev, i) <==> CountsAt(events, owners, dev, i));
      assert CountsAt(events, owners, dev, n) <==> CountsFor(events[n], owners, dev);
      hide CountsAt, CountsFor;
      if CountsFor(events[n], owners, dev) {
        assert now == before + {n};
      } else {
        assert now == before;
      }
    }
  }

  /** Every developer gets five cents for each run that counts for him, and an entry only if one does. */
  lemma {:induction false} FiveCentsARun(events: seq<RunEvent>, owners: map<string, string>, dev: string)
    ensures var rev := Aggregated(events, owners);
            var runs := |set i: nat | i < |events| && CountsAt(events, owners, dev, i)|;
            && (forall i, j :: 0 <= i < j < |rev| ==> rev[i].dev != rev[j].dev)
            && (forall k :: 0 <= k < |rev| && rev[k].dev == dev ==> rev[k].cents == 5 * runs && rev[k].runs == runs > 0)
            && (runs > 0 ==> exists k :: 0 <= k < |rev| && rev[k].dev == dev)
  {
    AggregateIsExact(events, owners, dev);
    RunsAreCounted(events, owners, dev);
    hide Aggregated, CountsAt, RunsOf, FindEntry;
    var rev := Aggregated(events, owners);
    if RunsOf(events, owners, dev) > 0 {
      assert rev[FindEntry(rev, dev)].dev == dev;
    }
  }

  /** No money is lost or invented: the amounts add up to the rate times the attributed runs. */
  lemma {:induction false} RevenueIsConserved(events: seq<RunEvent>, owners: map<string, string>)
    ensures Total(Aggregated(events, owners)) == RATE_PER_RUN * Attributed(events, owners)
    decreases |events|
  {
    if events != [] {
      var init, last := events[..|events| - 1], Developer(events[|events| - 1], owners);
      RevenueIsConserved(init, owners);
      hide Developer, Credited, Total;
      if last.Some? {
        CreditAdds(Aggregated(init, owners), last.value);
      }
    } else {
      TotalOfNone();
    }
  }

  lemma {:induction false} TotalOfNone()
    ensures Total([]) == 0
  {
  }

  lemma {:induction false} CreditAdds(rev: seq<Entry>, dev: string)
    ensures Total(Credited(rev, dev)) == Total(rev) + RATE_PER_RUN
  {
    hide FindEntry, Total;
    var i := FindEntry(rev, dev);
    if i < |rev| {
      TotalUpdated(rev, i, rev[i].(cents := rev[i].cents + RATE_PER_RUN, runs := rev[i].runs + 1));
    } else {
      TotalAppended(rev, Entry(dev, RATE_PER_RUN, 1));
    }
  }

  // ----- Payout rows -----

  function FindRow(rows: seq<Row>, month: int, dev: string): (i: nat)
    ensures i <= |rows| && (i < |rows| ==> rows[i].month == month && rows[i].dev == dev)
    ensures forall k :: 0 <= k < i ==> rows[k].month != month || rows[k].dev != dev
  {
    if rows == [] || (rows[0].month == month && rows[0].dev == dev) then 0 else 1 + FindRow(rows[1..], month, dev)
  }

  function Paid(rows: seq<Row>, month: int, e: Entry): seq<Row> {
    var i := FindRow(rows, month, e.dev);
    if i < |rows| then rows[i := rows[i].(cents := e.cents)] else rows + [Row(month, e.dev, e.cents, "pending")]
  }

  function PaidAll(rows: seq<Row>, month: int, rev: seq<Entry>, verified: set<string>): seq<Row> {
    if rev == [] then rows
    else
      var init, e := PaidAll(rows, month, rev[..|rev| - 1], verified), rev[|rev| - 1];
      if e.dev in verified then Paid(init, month, e) else init
  }

  function RowOf(rows: seq<Row>, month: int, dev: string): Option<Row> {
    var i := FindRow(rows, month, dev);
    if i < |rows| then Some(rows[i]) else None
  }

  /** What a payout leaves for a month and developer: the new amount under the old status. */
  function Settled(was: Option<Row>, month: int, e: Entry): Row {
    if was.Some? then was.value.(cents := e.cents) else Row(month, e.dev, e.cents, "pending")
  }

  /** The unique constraint on month and developer. */
  ghost predicate DistinctRows(rows: seq<Row>) {
    forall i, j :: 0 <= i < j < |rows| ==> rows[i].month != rows[j].month || rows[i].dev != rows[j].dev
  }

  lemma {:induction false} RowAt(rows: seq<Row>, i: nat)
    requires DistinctRows(rows) && i < |rows|
    ensures RowOf(rows, rows[i].month, rows[i].dev) == Some(rows[i])
  {
    var k := FindRow(rows, rows[i].month, rows[i].dev);
    assert k <= i;
  }

  lemma {:induction false} PayIsExact(rows: seq<Row>, month: int, e: Entry, m: int, dev: string)
    requires DistinctRows(rows)
    ensures var rows' := Paid(rows, month, e);
            && DistinctRows(rows')
            && RowOf(rows', m, dev) == if m == month && dev == e.dev
                then Some(Settled(RowOf(rows, m, dev), month, e))
                else RowOf(rows, m, dev)
  {
    var i, j := FindRow(rows, month, e.dev), FindRow(rows, m, dev);
    var rows' := Paid(rows, month, e);
    if j < |rows| {
      RowAt(rows', j);
    } else if m == month && dev == e.dev {
      RowAt(rows', i);
    } else {
      assert forall k :: 0 <= k < |rows'| ==> rows'[k].month != m || rows'[k].dev != dev;
    }
  }

  lemma {:induction false} PayAllIsExact(
      rows: seq<Row>, month: int, rev: seq<Entry>, verified: set<string>, m: int, dev: string)
    requires DistinctRows(rows) && DistinctDevs(rev)
    ensures var rows' := PaidAll(rows, month, rev, verified);
            var i := FindEntry(rev, dev);
            && DistinctRows(rows')
            && RowOf(rows', m, dev) ==
                 if m == month && dev in verified && i < |rev| then Some(Settled(RowOf(rows, m, dev), month, rev[i]))
                 else RowOf(rows, m, dev)
    decreases |rev|
  {
    hide RowOf, DistinctRows, Paid, FindRow;
    if rev == [] {
    } else {
      var n := |rev| - 1;
      PayAllIsExact(rows, month, rev[..n], verified, m, dev);
      PayIsExact(PaidAll(rows, month, rev[..n], verified), month, rev[n], m, dev);
      FindAt(rev, n);
      FindInPrefix(rev, dev);
    }
  }

  lemma {:induction false} FindInPrefix(rev: seq<Entry>, dev: string)
    requires rev != [] && DistinctDevs(rev)
    ensures var n := |rev| - 1;
            FindEntry(rev, dev) == if rev[n].dev == dev then n
                else if FindEntry(rev[..n], dev) < n then FindEntry(rev[..n], dev) else |rev|
  {
    var n := |rev| - 1;
    var i, k := FindEntry(rev, dev), FindEntry(rev[..n], dev);
    if rev[n].dev == dev {
      FindAt(rev, n);
    } else if k < n {
      FindAt(rev, k);
    } else {
      assert forall j :: 0 <= j < n ==> rev[j].dev == rev[..n][j].dev != dev;
    }
  }

  /** After the job, a verified developer with runs has one row for the month with exactly the rate times
      their runs, under the status it had; every other row of the table is as before. */
  lemma {:induction false} PayoutsAreExact(
      rows: seq<Row>, month: int, events: seq<RunEvent>, owners: map<string, string>, verified: set<string>,
                        m: int, dev: string)
    requires DistinctRows(rows)
    ensures var rows' := PaidAll(rows, month, Aggregated(events, owners), verified);
            var runs := RunsOf(events, owners, dev);
            && DistinctRows(rows')
            && RowOf(rows', m, dev) ==
                 if m == month && dev in verified && runs > 0
                 then Some(Row(month, dev, RATE_PER_RUN * runs,
                               if RowOf(rows, m, dev).Some? then RowOf(rows, m, dev).value.status else "pending"))
                 else RowOf(rows, m, dev)
  {
    hide DistinctRows, Aggregated, PaidAll, RunsOf, FindRow, FindEntry;
    AggregateIsExact(events, owners, dev);
    PayAllIsExact(rows, month, Aggregated(events, owners), verified, m, dev);
  }

  lemma {:induction false} SettledRowsStay(rows: seq<Row>, month: int, rev: seq<Entry>, verified: set<string>)
    requires forall k :: 0 <= k < |rev| && rev[k].dev in verified ==>
               var r := RowOf(rows, month, rev[k].dev); r.Some? && r.value.cents == rev[k].cents
    ensures PaidAll(rows, month, rev, verified) == rows
    decreases |rev|
  {
    if rev == [] {
    } else {
      SettledRowsStay(rows, month, rev[..|rev| - 1], verified);
    }
  }

  /** Running the job again on the same events changes nothing. */
  lemma {:induction false} SecondRunChangesNothing(
      rows: seq<Row>, month: int, events: seq<RunEvent>, owners: map<string, string>, verified: set<string>)
    requires DistinctRows(rows)
    ensures var rev := Aggregated(events, owners);
            PaidAll(PaidAll(rows, month, rev, verified), month, rev, verified) == PaidAll(rows, month, rev, verified)
  {
    hide RowOf, Aggregated, PaidAll, DistinctRows;
    var rev := Aggregated(events, owners);
    var rows' := PaidAll(rows, month, rev, verified);
    AggregateIsExact(events, owners, "");
    forall k | 0 <= k < |rev| && rev[k].dev in verified
      ensures RowOf(rows', month, rev[k].dev).Some? && RowOf(rows', month, rev[k].dev).value.cents == rev[k].cents
    {
      PayAllIsExact(rows, month, rev, verified, month, rev[k].dev);
      FindAt(rev, k);
    }
    SettledRowsStay(rows', month, rev, verified);
  }

  // ----- The job -----

  class PayoutJob {
    var rows: seq<Row>

    constructor (existing: seq<Row>)
      ensures rows == existing
    {
      rows := existing;
    }

    method AggregateRunRevenue(events: seq<RunEvent>, owners: map<string, string>) returns (rev: seq<Entry>)
      ensures rev == Aggregated(events, owners)
    {
      rev := [];
      for i := 0 to |events|
        invariant rev == Aggregated(events[..i], owners)
      {
        assert events[..i + 1][..i] == events[..i];
        var dev := Developer(events[i], owners);
        if dev.None? {
          continue;
        }
        var k := FindEntry(rev, dev.value);
        if k == |rev| {
          rev := rev + [Entry(dev.value, 0, 0)];
        }
        rev := rev[k := rev[k].(cents := rev[k].cents + RATE_PER_RUN, runs := rev[k].runs + 1)];
      }
      assert events[..|events|] == events;
    }

    method CalculatePayouts(month: int, events: seq<RunEvent>, owners: map<string, string>, verified: set<string>)
      modifies this
      ensures rows == PaidAll(old(rows), month, Aggregated(events, owners), verified)
    {
      var rev := AggregateRunRevenue(events, owners);
      for i := 0 to |rev|
        invariant rows == PaidAll(old(rows), month, rev[..i], verified)
      {
        assert rev[..i + 1][..i] == rev[..i];
        if rev[i].dev !in verified {
          continue;
        }
        var k := FindRow(rows, month, rev[i].dev);
        if k < |rows| {
          rows := rows[k := rows[k].(cents := rev[i].cents)];
        } else {
          rows := rows + [Row(month, rev[i].dev, rev[i].cents, "pending")];
        }
      }
      assert rev[..|rev|] == rev;
    }
  }

  /** After the job the month's row of a verified developer with a run holds five cents for each run that
      counts for him, under the status it had; every other row is as it was. */
  lemma {:induction false} PaidFiveCentsARun(
      rows: seq<Row>, month: int, events: seq<RunEvent>, owners: map<string, string>, verified: set<string>,
      m: int, dev: string)
    requires DistinctRows(rows)
    ensures var rows' := PaidAll(rows, month, Aggregated(events, owners), verified);
            var runs := |set i: nat | i < |events| && CountsAt(events, owners, dev, i)|;
            && (forall k :: 0 <= k < |rows'| && rows'[k].month == m && rows'[k].dev == dev ==>
                  if m == month && dev in verified && runs > 0
                  then && rows'[k].cents == 5 * runs
                       && rows'[k].status == (if RowOf(rows, m, dev).Some? then RowOf(rows, m, dev).value.status
                                              else "pending")
                  else rows'[k] in rows)
            && (m == month && dev in verified && runs > 0 ==>
                  exists k :: 0 <= k < |rows'| && rows'[k].month == m && rows'[k].dev == dev)
            && (!(m == month && dev in verified && runs > 0) ==>
                  forall k :: 0 <= k < |rows| && rows[k].month == m && rows[k].dev == dev ==> rows[k] in rows')
  {
    var rows' := PaidAll(rows, month, Aggregated(events, owners), verified);
    PayoutsAreExact(rows, month, events, owners, verified, m, dev);
    RunsAreCounted(events, owners, dev);
    hide PaidAll, Aggregated, RunsOf, CountsAt;
    OneRow(rows, m, dev);
    OneRow(rows', m, dev);
  }

  lemma {:induction false} OneRow(rows: seq<Row>, m: int, dev: string)
    requires DistinctRows(rows)
    ensures RowOf(rows, m, dev).Some? ==> RowOf(rows, m, dev).value in rows
    ensures RowOf(rows, m, dev).Some? ==> exists k :: 0 <= k < |rows| && rows[k].month == m && rows[k].dev == dev
    ensures forall k :: 0 <= k < |rows| && rows[k].month == m && rows[k].dev == dev ==>
              RowOf(rows, m, dev) == Some(rows[k])
  {
  }
}
