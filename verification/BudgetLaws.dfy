/** What the budget history reports, told transaction by transaction and budget by budget. */
module BudgetLaws {
  import opened Text
  import opened Calendar
  import opened BudgetWindows
  import opened BudgetSpend

  // ----- What a transaction adds to the spend of a category -----

  /** Money out of a listed user, not archived, in a named category, dated in the period. */
  predicate IsExpense(t: Txn, uids: seq<string>, kind: Kind, index: int, category: string) {
    && t.cents < 0 && t.uid in uids && !t.archived
    && t.category == Some(category) && category != ""
    && PeriodIndex(kind, t.ts.date) == index
  }

  function Expense(t: Txn, uids: seq<string>, kind: Kind, index: int, category: string): nat {
    if IsExpense(t, uids, kind, index, category) then -t.cents else 0
  }

  /** The money that went out of a category in a period. */
  function Outflow(rows: seq<Txn>, uids: seq<string>, kind: Kind, index: int, category: string): nat {
    if rows == [] then 0
    else Expense(rows[0], uids, kind, index, category) + Outflow(rows[1..], uids, kind, index, category)
  }

  lemma {:induction false} OutflowSnoc(
      rows: seq<Txn>, t: Txn, uids: seq<string>, kind: Kind, index: int, category: string)
    ensures Outflow(rows + [t], uids, kind, index, category)
            == Outflow(rows, uids, kind, index, category) + Expense(t, uids, kind, index, category)
  {
    hide Expense;
    if rows == [] {
      assert [t][1..] == [];
    } else {
      assert (rows + [t])[1..] == rows[1..] + [t];
      OutflowSnoc(rows[1..], t, uids, kind, index, category);
    }
  }

  lemma {:induction false} SpentIsOutflow(
      rows: seq<Txn>, uids: seq<string>, kind: Kind, index: int, category: string)
    requires PeriodYear(kind, index) >= 0 && ValidDate(Period(kind, index).last) && category != ""
    ensures Spent(rows, uids, Period(kind, index).start, Period(kind, index).last, category)
            == Outflow(rows, uids, kind, index, category)
  {
    hide PeriodIndex, Period, PeriodYear, InWindow, Outflow, ValidDate;
    if rows == [] {
      NoOutflow(uids, kind, index, category);
    } else {
      var n := |rows| - 1;
      SpentIsOutflow(rows[..n], uids, kind, index, category);
      assert rows[..n] + [rows[n]] == rows;
      OutflowSnoc(rows[..n], rows[n], uids, kind, index, category);
      BucketHoldsTimestamp(kind, index, rows[n].ts);
    }
  }

  lemma {:induction false} NoOutflow(uids: seq<string>, kind: Kind, index: int, category: string)
    ensures Outflow([], uids, kind, index, category) == 0
  {
  }

  /** What the report shows as spent on one budget row; a budget without a category has none. */
  function SpentOn(rows: seq<Txn>, uids: seq<string>, kind: Kind, index: int, b: Budget): nat {
    if b.category == "" then 0 else Outflow(rows, uids, kind, index, b.category)
  }

  lemma {:induction false} GetIsSpentOn(
      rows: seq<Txn>, uids: seq<string>, kind: Kind, index: int, budgets: seq<Budget>, i: nat)
    requires PeriodYear(kind, index) >= 0 && ValidDate(Period(kind, index).last) && i < |budgets|
    ensures Get(SpendByCategory(rows, uids, Period(kind, index).start, Period(kind, index).last, Categories(budgets)),
              budgets[i].category)
            == SpentOn(rows, uids, kind, index, budgets[i])
  {
    hide SpendByCategory, Get, Spent, Outflow, PeriodStart, PeriodYear, ValidDate, Label;
    assert Categories(budgets)[i] in Categories(budgets);
    LookupIsSpent(rows, uids, Period(kind, index).start, Period(kind, index).last, Categories(budgets),
      budgets[i].category);
    if budgets[i].category != "" {
      SpentIsOutflow(rows, uids, kind, index, budgets[i].category);
    }
  }

  // ----- The amount of a budget -----

  /** The amount set for a category: that of its last budget row. */
  ghost predicate IsAmountFor(budgets: seq<Budget>, category: string, cents: int) {
    exists j ::
      && 0 <= j < |budgets| && budgets[j].category == category && budgets[j].cents == cents
      && forall k :: j < k < |budgets| ==> budgets[k].category != category
  }

  lemma {:induction false} AmountOf(budgets: seq<Budget>, i: nat)
    requires i < |budgets|
    ensures IsAmountFor(budgets, budgets[i].category, BudgetCents(budgets, budgets[i].category))
  {
    var n := |budgets| - 1;
    var c := budgets[i].category;
    if budgets[n].category == c {
    } else {
      AmountOf(budgets[..n], i);
      var j :| 0 <= j < n && budgets[..n][j].category == c && budgets[..n][j].cents == BudgetCents(budgets[..n], c)
               && forall k :: j < k < n ==> budgets[..n][k].category != c;
      assert budgets[j] == budgets[..n][j] && forall k :: j < k < n ==> budgets[k] == budgets[..n][k];
    }
  }

  lemma {:induction false} AmountIsOne(budgets: seq<Budget>, category: string, a: int, b: int)
    requires IsAmountFor(budgets, category, a) && IsAmountFor(budgets, category, b)
    ensures a == b
  {
  }

  // ----- The totals -----

  function Sum(xs: seq<int>): int {
    if xs == [] then 0 else xs[0] + Sum(xs[1..])
  }

  lemma {:induction false} SumSnoc(xs: seq<int>, x: int)
    ensures Sum(xs + [x]) == Sum(xs) + x
  {
    if xs == [] {
      assert [x][1..] == [];
    } else {
      assert (xs + [x])[1..] == xs[1..] + [x];
      SumSnoc(xs[1..], x);
    }
  }

  /** The money out of each budget row, the amounts, and the counts of a bucket. */
  ghost predicate ReportsSpend(
      rows: seq<Txn>, uids: seq<string>, kind: Kind, index: int, budgets: seq<Budget>, spent: seq<int>)
  {
    |spent| == |budgets| && forall i :: 0 <= i < |budgets| ==> spent[i] == SpentOn(rows, uids, kind, index, budgets[i])
  }

  ghost predicate ReportsAmounts(budgets: seq<Budget>, amounts: seq<int>) {
    |amounts| == |budgets| && forall i :: 0 <= i < |budgets| ==> IsAmountFor(budgets, budgets[i].category, amounts[i])
  }

  function PositivePart(xs: seq<int>): (r: seq<int>)
    ensures |r| == |xs| && forall i :: 0 <= i < |xs| ==> r[i] == if xs[i] > 0 then xs[i] else 0
  {
    seq(|xs|, i requires 0 <= i < |xs| => if xs[i] > 0 then xs[i] else 0)
  }

  /** The bucket as the report shows it. */
  ghost predicate Reports(h: HistoryBucket, spent: seq<int>, amounts: seq<int>)
    requires |spent| == |amounts|
  {
    && h.totalSpent == Sum(spent) && h.totalBudget == Sum(PositivePart(amounts))
    && h.under == |set i: nat | i < |spent| && spent[i] < amounts[i]|
    && h.at == |set i: nat | i < |spent| && spent[i] == amounts[i]|
    && h.over == |set i: nat | i < |spent| && spent[i] > amounts[i]|
    && h.percentUsed == (if h.totalBudget == 0 then 0.0
                         else if h.totalSpent >= h.totalBudget then 100.0
                         else (h.totalSpent as real / h.totalBudget as real) * 100.0)
  }

  lemma {:induction false} TotalSpentIs(spend: map<string, nat>, cs: seq<string>, spent: seq<int>)
    requires |spent| == |cs| && forall i :: 0 <= i < |cs| ==> spent[i] == Get(spend, cs[i])
    ensures TotalSpent(spend, cs) == Sum(spent)
  {
    hide Get;
    if cs == [] {
    } else {
      var n := |cs| - 1;
      TotalSpentIs(spend, cs[..n], spent[..n]);
      assert spent[..n] + [spent[n]] == spent;
      SumSnoc(spent[..n], spent[n]);
    }
  }

  lemma {:induction false} TotalBudgetIs(budgets: seq<Budget>, cs: seq<string>, amounts: seq<int>)
    requires |amounts| == |cs| && forall i :: 0 <= i < |cs| ==> amounts[i] == BudgetCents(budgets, cs[i])
    ensures TotalBudget(budgets, cs) == Sum(PositivePart(amounts))
  {
    hide BudgetCents;
    if cs == [] {
    } else {
      var n := |cs| - 1;
      TotalBudgetIs(budgets, cs[..n], amounts[..n]);
      var p := PositivePart(amounts);
      assert p == PositivePart(amounts[..n]) + [p[n]];
      SumSnoc(PositivePart(amounts[..n]), p[n]);
    }
  }

  predicate HasStatus(spent: seq<int>, amounts: seq<int>, i: nat, s: Status) {
    i < |spent| && i < |amounts| && StatusOf(spent[i], amounts[i]) == s
  }

  lemma {:induction false} CountIs(
      s: Status, budgets: seq<Budget>, spend: map<string, nat>, cs: seq<string>, spent: seq<int>, amounts: seq<int>)
    requires |spent| == |cs| == |amounts|
    requires forall i :: 0 <= i < |cs| ==> spent[i] == Get(spend, cs[i]) && amounts[i] == BudgetCents(budgets, cs[i])
    ensures CountStatus(s, budgets, spend, cs) == |set i: nat | i < |cs| && HasStatus(spent, amounts, i, s)|
  {
    hide BudgetCents, Get, StatusOf;
    if cs == [] {
      assert (set i: nat | i < |cs| && HasStatus(spent, amounts, i, s)) == {};
    } else {
      var n := |cs| - 1;
      CountIs(s, budgets, spend, cs[..n], spent[..n], amounts[..n]);
      OneMoreStatus(spent, amounts, s);
    }
  }

  lemma {:induction false} OneMoreStatus(spent: seq<int>, amounts: seq<int>, s: Status)
    requires |spent| == |amounts| > 0
    ensures var n := |spent| - 1;
            |set i: nat | i < |spent| && HasStatus(spent, amounts, i, s)|
            == |set i: nat | i < n && HasStatus(spent[..n], amounts[..n], i, s)|
               + if HasStatus(spent, amounts, n, s) then 1 else 0
  {
    var n := |spent| - 1;
    var before := set i: nat | i < n && HasStatus(spent[..n], amounts[..n], i, s);
    var now := set i: nat | i < |spent| && HasStatus(spent, amounts, i, s);
    assert forall i: nat :: i < n ==> (HasStatus(spent[..n], amounts[..n], i, s) <==> HasStatus(spent, amounts, i, s));
    hide HasStatus;
    if HasStatus(spent, amounts, n, s) {
      assert now == before + {n};
    } else {
      assert now == before;
    }
  }

  lemma {:induction false} CountsAre(spent: seq<int>, amounts: seq<int>)
    requires |spent| == |amounts|
    ensures |set i: nat | i < |spent| && HasStatus(spent, amounts, i, Under)|
            == |set i: nat | i < |spent| && spent[i] < amounts[i]|
    ensures |set i: nat | i < |spent| && HasStatus(spent, amounts, i, At)|
            == |set i: nat | i < |spent| && spent[i] == amounts[i]|
    ensures |set i: nat | i < |spent| && HasStatus(spent, amounts, i, Over)|
            == |set i: nat | i < |spent| && spent[i] > amounts[i]|
  {
    assert (set i: nat | i < |spent| && HasStatus(spent, amounts, i, Under))
        == (set i: nat | i < |spent| && spent[i] < amounts[i]);
    assert (set i: nat | i < |spent| && HasStatus(spent, amounts, i, At))
        == (set i: nat | i < |spent| && spent[i] == amounts[i]);
    assert (set i: nat | i < |spent| && HasStatus(spent, amounts, i, Over))
        == (set i: nat | i < |spent| && spent[i] > amounts[i]);
  }

  lemma {:induction false} PercentIs(spent: nat, budget: nat)
    ensures PercentUsed(spent, budget)
            == if budget == 0 then 0.0 else if spent >= budget then 100.0
               else (spent as real / budget as real) * 100.0
  {
  }

  function ReportSpend(kind: Kind, index: int, rows: seq<Txn>, uids: seq<string>, budgets: seq<Budget>)
    : map<string, nat>
    requires PeriodYear(kind, index) >= 0 && ValidDate(Period(kind, index).last)
  {
    SpendByCategory(rows, uids, Period(kind, index).start, Period(kind, index).last, Categories(budgets))
  }

  lemma {:induction false} SummaryIs(
      kind: Kind, index: int, rows: seq<Txn>, uids: seq<string>, budgets: seq<Budget>, h: HistoryBucket)
    requires IsSummary(kind, index, rows, uids, budgets, h)
    ensures PeriodYear(kind, index) >= 0 && ValidDate(Period(kind, index).last)
    ensures h.key == Label(kind, index) && h.start == Period(kind, index).start && h.last == Period(kind, index).last
    ensures var cs, spend := Categories(budgets), ReportSpend(kind, index, rows, uids, budgets);
            && h.totalBudget == TotalBudget(budgets, cs) && h.totalSpent == TotalSpent(spend, cs)
            && h.percentUsed == PercentUsed(h.totalSpent, h.totalBudget)
            && h.under == CountStatus(Under, budgets, spend, cs) && h.at == CountStatus(At, budgets, spend, cs)
            && h.over == CountStatus(Over, budgets, spend, cs)
  {
    hide SpendByCategory, TotalBudget, TotalSpent, PercentUsed, CountStatus, Label, PeriodStart, DayBefore, PeriodYear;
  }

  lemma {:induction false} SpendRows(
      kind: Kind, index: int, rows: seq<Txn>, uids: seq<string>, budgets: seq<Budget>)
    returns (spent: seq<int>, amounts: seq<int>)
    requires PeriodYear(kind, index) >= 0 && ValidDate(Period(kind, index).last)
    ensures ReportsSpend(rows, uids, kind, index, budgets, spent) && ReportsAmounts(budgets, amounts)
    ensures forall i :: 0 <= i < |budgets| ==>
              && spent[i] == Get(ReportSpend(kind, index, rows, uids, budgets), budgets[i].category)
              && amounts[i] == BudgetCents(budgets, budgets[i].category)
  {
    hide SpentOn, SpendByCategory, Get, BudgetCents, PeriodYear, ValidDate, PeriodStart, Label, DayBefore, IsAmountFor;
    spent := seq(|budgets|, i requires 0 <= i < |budgets| => SpentOn(rows, uids, kind, index, budgets[i]));
    amounts := seq(|budgets|, i requires 0 <= i < |budgets| => BudgetCents(budgets, budgets[i].category));
    forall i | 0 <= i < |budgets|
      ensures spent[i] == Get(ReportSpend(kind, index, rows, uids, budgets), budgets[i].category)
      ensures IsAmountFor(budgets, budgets[i].category, amounts[i])
    {
      GetIsSpentOn(rows, uids, kind, index, budgets, i);
      AmountOf(budgets, i);
    }
  }

  lemma {:induction false} ReportLength(
      kind: Kind, index: int, rows: seq<Txn>, uids: seq<string>, budgets: seq<Budget>, spent: seq<int>,
      amounts: seq<int>)
    requires ReportsSpend(rows, uids, kind, index, budgets, spent) && ReportsAmounts(budgets, amounts)
    ensures |spent| == |amounts| == |budgets|
  {
  }

  /** A bucket of the history reports, for every budget row, the money out of its category in the period,
      against the amount set for that category. */
  lemma {:induction false} BucketReports(
      kind: Kind, index: int, rows: seq<Txn>, uids: seq<string>, budgets: seq<Budget>, h: HistoryBucket)
    returns (spent: seq<int>, amounts: seq<int>)
    requires IsSummary(kind, index, rows, uids, budgets, h)
    ensures |spent| == |amounts| == |budgets|
    ensures ReportsSpend(rows, uids, kind, index, budgets, spent) && ReportsAmounts(budgets, amounts)
    ensures Reports(h, spent, amounts)
    ensures PeriodYear(kind, index) >= 0 && h.key == Label(kind, index)
    ensures h.start == Period(kind, index).start && h.last == Period(kind, index).last
  {
    hide *;
    SummaryIs(kind, index, rows, uids, budgets, h);
    var cs, spend := Categories(budgets), ReportSpend(kind, index, rows, uids, budgets);
    spent, amounts := SpendRows(kind, index, rows, uids, budgets);
    ReportLength(kind, index, rows, uids, budgets, spent, amounts);
    TotalSpentIs(spend, cs, spent);
    TotalBudgetIs(budgets, cs, amounts);
    CountIs(Under, budgets, spend, cs, spent, amounts);
    CountIs(At, budgets, spend, cs, spent, amounts);
    CountIs(Over, budgets, spend, cs, spent, amounts);
    CountsAre(spent, amounts);
    PercentIs(h.totalSpent, h.totalBudget);
    ReportsWhen(h, spent, amounts);
  }

  lemma {:induction false} ReportsWhen(h: HistoryBucket, spent: seq<int>, amounts: seq<int>)
    requires |spent| == |amounts| && h.totalSpent == Sum(spent) && h.totalBudget == Sum(PositivePart(amounts))
    requires h.under == |set i: nat | i < |spent| && spent[i] < amounts[i]|
    requires h.at == |set i: nat | i < |spent| && spent[i] == amounts[i]|
    requires h.over == |set i: nat | i < |spent| && spent[i] > amounts[i]|
    requires h.percentUsed == (if h.totalBudget == 0 then 0.0
                               else if h.totalSpent >= h.totalBudget then 100.0
                               else (h.totalSpent as real / h.totalBudget as real) * 100.0)
    ensures Reports(h, spent, amounts)
  {
    hide Sum, PositivePart;
  }

  // ----- One more transaction -----

  lemma {:induction false} OutflowInsert(
      a: seq<Txn>, t: Txn, b: seq<Txn>, uids: seq<string>, kind: Kind, index: int, category: string)
    ensures Outflow(a + [t] + b, uids, kind, index, category)
            == Outflow(a + b, uids, kind, index, category) + Expense(t, uids, kind, index, category)
  {
    hide Expense;
    if a == [] {
      assert a + b == b && a + [t] + b == [t] + b && ([t] + b)[1..] == b;
    } else {
      assert (a + [t] + b)[1..] == a[1..] + [t] + b && (a + b)[1..] == a[1..] + b;
      OutflowInsert(a[1..], t, b, uids, kind, index, category);
    }
  }

  /** How many budget rows name the category of the transaction. */
  function RowsFor(t: Txn, budgets: seq<Budget>): nat {
    if budgets == [] then 0
    else (if t.category == Some(budgets[0].category) then 1 else 0) + RowsFor(t, budgets[1..])
  }

  /** What the transaction adds to a bucket: its amount for every budget row of its category, if it is money
      out of a listed user, not archived, in a named category and dated in the period; otherwise nothing. */
  function Added(t: Txn, uids: seq<string>, kind: Kind, index: int, budgets: seq<Budget>): int {
    if && t.cents < 0 && t.uid in uids && !t.archived && t.category.Some? && t.category.value != ""
       && PeriodIndex(kind, t.ts.date) == index
    then -t.cents * RowsFor(t, budgets) else 0
  }

  lemma {:induction false} SumAdded(
      a: seq<Txn>, t: Txn, b: seq<Txn>, uids: seq<string>, kind: Kind, index: int, budgets: seq<Budget>,
      before: seq<int>, now: seq<int>)
    requires ReportsSpend(a + b, uids, kind, index, budgets, before)
    requires ReportsSpend(a + [t] + b, uids, kind, index, budgets, now)
    ensures Sum(now) == Sum(before) + Added(t, uids, kind, index, budgets)
  {
    hide PeriodIndex, Outflow;
    if budgets == [] {
    } else {
      SumAdded(a, t, b, uids, kind, index, budgets[1..], before[1..], now[1..]);
      assert now[0] == SpentOn(a + [t] + b, uids, kind, index, budgets[0]);
      assert before[0] == SpentOn(a + b, uids, kind, index, budgets[0]);
      OutflowInsert(a, t, b, uids, kind, index, budgets[0].category);
      TimesOneMore(-t.cents, RowsFor(t, budgets[1..]));
    }
  }

  lemma {:induction false} TimesOneMore(x: int, n: nat)
    ensures x * (1 + n) == x + x * n && x * (0 + n) == x * n
  {
  }

  /** One more transaction, wherever the query lists it, raises the spend of the bucket of its period by its
      amount, once for each budget row of its category, and changes nothing else in the history: and it does
      so only if it is money out of a listed user, is not archived and has a category. */
  lemma {:induction false} OneMoreTransaction(
      kind: Kind, current: int, n: nat, a: seq<Txn>, t: Txn, b: seq<Txn>, uids: seq<string>, budgets: seq<Budget>,
      before: seq<HistoryBucket>, now: seq<HistoryBucket>, i: nat)
    requires IsHistory(kind, current, n, a + b, uids, budgets, before)
    requires IsHistory(kind, current, n, a + [t] + b, uids, budgets, now) && i < n
    ensures |before| == |now| == n
    ensures now[i].totalSpent == before[i].totalSpent + Added(t, uids, kind, current - 1 - i, budgets)
    ensures now[i].totalBudget == before[i].totalBudget
    ensures now[i].key == before[i].key && now[i].start == before[i].start && now[i].last == before[i].last
  {
    hide *;
    var index := current - 1 - i;
    HistoryAt(kind, current, n, a + b, uids, budgets, before, i);
    HistoryAt(kind, current, n, a + [t] + b, uids, budgets, now, i);
    var spent0, amounts0 := BucketReports(kind, index, a + b, uids, budgets, before[i]);
    var spent1, amounts1 := BucketReports(kind, index, a + [t] + b, uids, budgets, now[i]);
    SumAdded(a, t, b, uids, kind, index, budgets, spent0, spent1);
    SameAmounts(budgets, amounts0, amounts1);
    ReportTotals(before[i], spent0, amounts0);
    ReportTotals(now[i], spent1, amounts1);
  }

  lemma {:induction false} HistoryAt(
      kind: Kind, current: int, n: nat, rows: seq<Txn>, uids: seq<string>, budgets: seq<Budget>,
      h: seq<HistoryBucket>, i: nat)
    requires IsHistory(kind, current, n, rows, uids, budgets, h) && i < n
    ensures |h| == n && IsSummary(kind, current - 1 - i, rows, uids, budgets, h[i])
  {
    hide IsSummary;
  }

  lemma {:induction false} ReportTotals(h: HistoryBucket, spent: seq<int>, amounts: seq<int>)
    requires |spent| == |amounts| && Reports(h, spent, amounts)
    ensures h.totalSpent == Sum(spent) && h.totalBudget == Sum(PositivePart(amounts))
  {
    hide Sum, PositivePart;
  }

  lemma {:induction false} SameAmounts(budgets: seq<Budget>, a: seq<int>, b: seq<int>)
    requires ReportsAmounts(budgets, a) && ReportsAmounts(budgets, b)
    ensures a == b
  {
    hide IsAmountFor;
    forall i | 0 <= i < |budgets|
      ensures a[i] == b[i]
    {
      AmountIsOne(budgets, budgets[i].category, a[i], b[i]);
    }
  }

  /** Without transactions nothing is spent. */
  lemma {:induction false} NothingSpent(
      kind: Kind, current: int, n: nat, uids: seq<string>, budgets: seq<Budget>, h: seq<HistoryBucket>, i: nat)
    requires IsHistory(kind, current, n, [], uids, budgets, h) && i < n
    ensures |h| == n && h[i].totalSpent == 0
  {
    hide *;
    var index := current - 1 - i;
    HistoryAt(kind, current, n, [], uids, budgets, h, i);
    var spent, amounts := BucketReports(kind, index, [], uids, budgets, h[i]);
    ReportTotals(h[i], spent, amounts);
    NothingOn(uids, kind, index, budgets, spent);
    AllZero(spent);
  }

  lemma {:induction false} NothingOn(
      uids: seq<string>, kind: Kind, index: int, budgets: seq<Budget>, spent: seq<int>)
    requires ReportsSpend([], uids, kind, index, budgets, spent)
    ensures forall i :: 0 <= i < |spent| ==> spent[i] == 0
  {
  }

  lemma {:induction false} AllZero(xs: seq<int>)
    requires forall i :: 0 <= i < |xs| ==> xs[i] == 0
    ensures Sum(xs) == 0
  {
    if xs == [] {
    } else {
      AllZero(xs[1..]);
    }
  }
}
