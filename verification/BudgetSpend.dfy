/** Spend per category and the budget history over completed buckets. Amounts are exact cents. */
module BudgetSpend {
  import opened Text
  import opened Calendar
  import opened BudgetWindows

  type UtcTime = ts: Timestamp | ValidTimestamp(ts) witness Timestamp(Date(1, 1, 1), 0)

  type Day = d: Date | ValidDate(d) witness Date(1, 1, 1)

  datatype Txn = Txn(uid: string, category: Option<string>, cents: int, archived: bool, ts: UtcTime)

  datatype Budget = Budget(category: string, cents: int)

  datatype HistoryBucket = HistoryBucket(
    key: string, start: Date, last: Date,
    totalBudget: nat, totalSpent: nat, percentUsed: real, under: nat, at: nat, over: nat)

  // ----- The spend query -----

  predicate Selected(t: Txn, uids: seq<string>, start: Day, last: Day, category: string) {
    t.uid in uids && !t.archived && t.category == Some(category) && InWindow(t.ts, start, last)
  }

  /** The grouped sum: money out counts, money in does not. */
  function Spent(rows: seq<Txn>, uids: seq<string>, start: Day, last: Day, category: string): nat {
    if rows == [] then 0
    else
      var t := rows[|rows| - 1];
      Spent(rows[..|rows| - 1], uids, start, last, category)
      + if Selected(t, uids, start, last, category) && t.cents < 0 then -t.cents else 0
  }

  /** One entry per category that has a row in the window; the empty category is skipped. */
  function SpendByCategory(rows: seq<Txn>, uids: seq<string>, start: Day, last: Day, categories: seq<string>)
    : map<string, nat>
  {
    map c | c in categories && c != "" && exists t :: t in rows && Selected(t, uids, start, last, c)
      :: Spent(rows, uids, start, last, c)
  }

  function Get(spend: map<string, nat>, category: string): nat {
    if category in spend then spend[category] else 0
  }

  // ----- The history totals -----

  function Categories(budgets: seq<Budget>): (cs: seq<string>)
    ensures |cs| == |budgets| && forall i :: 0 <= i < |cs| ==> cs[i] == budgets[i].category
  {
    seq(|budgets|, i requires 0 <= i < |budgets| => budgets[i].category)
  }

  /** The budget of a category; when a category is listed twice the later row wins. */
  function BudgetCents(budgets: seq<Budget>, category: string): int {
    if budgets == [] then 0
    else if budgets[|budgets| - 1].category == category then budgets[|budgets| - 1].cents
    else BudgetCents(budgets[..|budgets| - 1], category)
  }

  function Positive(x: int): nat {
    if x > 0 then x else 0
  }

  function TotalBudget(budgets: seq<Budget>, categories: seq<string>): nat {
    if categories == [] then 0
    else
      TotalBudget(budgets, categories[..|categories| - 1])
      + Positive(BudgetCents(budgets, categories[|categories| - 1]))
  }

  function TotalSpent(spend: map<string, nat>, categories: seq<string>): nat {
    if categories == [] then 0
    else TotalSpent(spend, categories[..|categories| - 1]) + Get(spend, categories[|categories| - 1])
  }

  datatype Status = Under | At | Over

  function StatusOf(spent: int, budget: int): Status {
    if spent < budget then Under else if spent == budget then At else Over
  }

  function CountStatus(s: Status, budgets: seq<Budget>, spend: map<string, nat>, categories: seq<string>): nat {
    if categories == [] then 0
    else
      var c := categories[|categories| - 1];
      CountStatus(s, budgets, spend, categories[..|categories| - 1])
      + if StatusOf(Get(spend, c), BudgetCents(budgets, c)) == s then 1 else 0
  }

  function PercentUsed(spent: nat, budget: nat): (p: real)
    ensures 0.0 <= p <= 100.0
    ensures p == 100.0 <==> 0 < budget <= spent
  {
    if budget <= 0 then 0.0
    else
      var ratio := spent as real / budget as real;
      assert spent < budget ==> ratio < 1.0;
      assert spent >= budget ==> ratio >= 1.0;
      if ratio * 100.0 < 100.0 then ratio * 100.0 else 100.0
  }

  /** What the history reports for one bucket. */
  function Summary(b: Bucket, rows: seq<Txn>, uids: seq<string>, budgets: seq<Budget>): HistoryBucket
    requires ValidDate(b.start) && ValidDate(b.last)
  {
    var cs := Categories(budgets);
    var spend := SpendByCategory(rows, uids, b.start, b.last, cs);
    HistoryBucket(b.key, b.start, b.last, TotalBudget(budgets, cs), TotalSpent(spend, cs),
      PercentUsed(TotalSpent(spend, cs), TotalBudget(budgets, cs)),
      CountStatus(Under, budgets, spend, cs), CountStatus(At, budgets, spend, cs),
      CountStatus(Over, budgets, spend, cs))
  }

  /** The history is the summaries of periods current-1, current-2, and so on. */
  ghost predicate IsHistory(
      kind: Kind, current: int, n: nat, rows: seq<Txn>, uids: seq<string>, budgets: seq<Budget>, h: seq<HistoryBucket>)
  {
    |h| == n && forall i :: 0 <= i < n ==> IsSummary(kind, current - 1 - i, rows, uids, budgets, h[i])
  }

  ghost predicate IsSummary(
      kind: Kind, index: int, rows: seq<Txn>, uids: seq<string>, budgets: seq<Budget>, h: HistoryBucket)
  {
    && PeriodYear(kind, index) >= 1
    && ValidDate(Period(kind, index).last)
    && h == Summary(Period(kind, index), rows, uids, budgets)
  }

  method CentsByCategory(budgets: seq<Budget>) returns (m: map<string, int>)
    ensures forall i :: 0 <= i < |budgets| ==> budgets[i].category in m
    ensures forall c :: c in m ==> m[c] == BudgetCents(budgets, c)
  {
    m := map[];
    for i := 0 to |budgets|
      invariant forall j :: 0 <= j < i ==> budgets[j].category in m
      invariant forall c :: c in m ==> m[c] == BudgetCents(budgets[..i], c)
    {
      assert budgets[..i + 1][..i] == budgets[..i];
      m := m[budgets[i].category := budgets[i].cents];
    }
    assert budgets[..|budgets|] == budgets;
  }

  method SummarizeBucket(b: Bucket, rows: seq<Txn>, uids: seq<string>, budgets: seq<Budget>) returns (h: HistoryBucket)
    requires ValidDate(b.start) && ValidDate(b.last)
    ensures h == Summary(b, rows, uids, budgets)
  {
    hide PercentUsed, SpendByCategory, BudgetCents;
    var cs := Categories(budgets);
    var centsByCategory := CentsByCategory(budgets);
    var spend := SpendByCategory(rows, uids, b.start, b.last, cs);
    var totalBudget, totalSpent: nat := 0, 0;
    var under, at, over := 0, 0, 0;
    for i := 0 to |cs|
      invariant totalBudget == TotalBudget(budgets, cs[..i]) && totalSpent == TotalSpent(spend, cs[..i])
      invariant under == CountStatus(Under, budgets, spend, cs[..i])
      invariant at == CountStatus(At, budgets, spend, cs[..i])
      invariant over == CountStatus(Over, budgets, spend, cs[..i])
    {
      assert cs[..i + 1][..i] == cs[..i];
      var budgetCents := centsByCategory[cs[i]];
      var spentCents := Get(spend, cs[i]);
      totalBudget := totalBudget + Positive(budgetCents);
      totalSpent := totalSpent + spentCents;
      if spentCents < budgetCents {
        under := under + 1;
      } else if spentCents == budgetCents {
        at := at + 1;
      } else {
        over := over + 1;
      }
    }
    assert cs[..|cs|] == cs;
    h := HistoryBucket(b.key, b.start, b.last, totalBudget, totalSpent, PercentUsed(totalSpent, totalBudget), under,
        at, over);
  }

  /** The history endpoint, after its scope check. Reaching before year 1 is an error. */
  method BudgetHistory(
      period: string, today: Date, lookback: int, rows: seq<Txn>, uids: seq<string>, budgets: seq<Budget>)
    returns (r: Option<seq<HistoryBucket>>)
    requires ValidDate(today) && today.year >= 1
    ensures var kind, current := KindOf(period), PeriodIndex(KindOf(period), today);
            && (r.None? <==> lookback > 0 && PeriodYear(kind, current - lookback) < 1)
            && (r.Some? && (budgets == [] || lookback <= 0) ==> r.value == [])
            && (r.Some? && budgets != [] && lookback > 0
                ==> IsHistory(kind, current, lookback, rows, uids, budgets, r.value))
  {
    hide PeriodIndex, PeriodYear, Period, Summary;
    ghost var kind, current := KindOf(period), PeriodIndex(KindOf(period), today);
    var found := ResolveCompletedBuckets(period, today, lookback);
    if found.None? {
      return None;
    }
    var buckets := found.value;
    if budgets == [] || buckets == [] {
      return Some([]);
    }
    var history := [];
    for n := 0 to |buckets|
      invariant IsHistory(kind, current, n, rows, uids, budgets, history)
    {
      assert IsPeriod(kind, current - 1 - n, buckets[n]);
      PeriodDatesValid(kind, current - 1 - n);
      var h := SummarizeBucket(buckets[n], rows, uids, budgets);
      HistoryExtends(kind, current, n, rows, uids, budgets, history, h);
      history := history + [h];
    }
    r := Some(history);
  }

  lemma {:induction false} PeriodDatesValid(kind: Kind, index: int)
    requires PeriodYear(kind, index) >= 0
    ensures ValidDate(Period(kind, index).start) && ValidDate(Period(kind, index).last)
  {
    hide Ordinal;
    PeriodsAreAdjacent(kind, index);
  }

  lemma {:induction false} HistoryExtends(
      kind: Kind, current: int, n: nat, rows: seq<Txn>, uids: seq<string>, budgets: seq<Budget>,
      history: seq<HistoryBucket>, h: HistoryBucket)
    requires IsHistory(kind, current, n, rows, uids, budgets, history)
    requires IsSummary(kind, current - 1 - n, rows, uids, budgets, h)
    ensures IsHistory(kind, current, n + 1, rows, uids, budgets, history + [h])
  {
    hide IsSummary;
  }

  // ----- Conservation over the look-back span -----

  /** Spend in a span is the spend in its oldest period plus the spend in the rest. */
  lemma {:induction false} SpentSplits(
      kind: Kind, oldest: int, newest: int, rows: seq<Txn>, uids: seq<string>, category: string)
    requires PeriodYear(kind, oldest) >= 0 && PeriodYear(kind, oldest + 1) >= 0 && PeriodYear(kind, newest) >= 0
    requires oldest < newest
    ensures ValidDate(Period(kind, oldest).last) && ValidDate(Period(kind, newest).last)
    ensures Spent(rows, uids, PeriodStart(kind, oldest), Period(kind, newest).last, category)
            == Spent(rows, uids, PeriodStart(kind, oldest), Period(kind, oldest).last, category)
               + Spent(rows, uids, PeriodStart(kind, oldest + 1), Period(kind, newest).last, category)
  {
    hide PeriodYear, PeriodStart, PeriodIndex, InWindow, ValidDate, ValidTimestamp, Label, DayBefore;
    PeriodDatesValid(kind, oldest);
    PeriodDatesValid(kind, newest);
    if rows == [] {
    } else {
      var t := rows[|rows| - 1];
      SpentSplits(kind, oldest, newest, rows[..|rows| - 1], uids, category);
      BucketHoldsTimestamp(kind, oldest, t.ts);
      SpanHoldsTimestamp(kind, oldest, newest, t.ts);
      SpanHoldsTimestamp(kind, oldest + 1, newest, t.ts);
    }
  }

  lemma {:induction false} YearsBetween(kind: Kind, oldest: int, newest: int)
    requires oldest <= newest && PeriodYear(kind, oldest) >= 0
    ensures PeriodYear(kind, newest) >= 0
  {
  }

  /** The spend of one category in each of the n periods up to `newest`, added up. */
  function SumOfPeriods(
      kind: Kind, newest: int, n: nat, rows: seq<Txn>, uids: seq<string>, category: string): nat
    requires forall i :: newest - n < i <= newest ==> PeriodYear(kind, i) >= 0 && ValidDate(Period(kind, i).last)
    decreases n
  {
    if n == 0 then 0
    else
      var oldest := newest - n + 1;
      Spent(rows, uids, PeriodStart(kind, oldest), Period(kind, oldest).last, category)
      + SumOfPeriods(kind, newest, n - 1, rows, uids, category)
  }

  lemma {:induction false} PeriodsValid(kind: Kind, newest: int, n: nat)
    requires n > 0 && PeriodYear(kind, newest - n + 1) >= 0
    ensures forall i :: newest - n < i <= newest ==> PeriodYear(kind, i) >= 0 && ValidDate(Period(kind, i).last)
  {
    hide Period, PeriodYear;
    forall i | newest - n < i <= newest
      ensures PeriodYear(kind, i) >= 0 && ValidDate(Period(kind, i).last)
    {
      YearsBetween(kind, newest - n + 1, i);
      PeriodDatesValid(kind, i);
    }
  }

  /** Category by category: what the buckets of a look-back report adds up to the spend in the whole span. */
  lemma {:induction false} CategoryIsConserved(
      kind: Kind, newest: int, n: nat, rows: seq<Txn>, uids: seq<string>, category: string)
    requires n > 0 && PeriodYear(kind, newest - n + 1) >= 0
    ensures forall i :: newest - n < i <= newest ==> PeriodYear(kind, i) >= 0 && ValidDate(Period(kind, i).last)
    ensures Spent(rows, uids, PeriodStart(kind, newest - n + 1), Period(kind, newest).last, category)
            == SumOfPeriods(kind, newest, n, rows, uids, category)
    decreases n
  {
    hide PeriodYear, Period, PeriodStart, Spent, ValidDate;
    PeriodsValid(kind, newest, n);
    var oldest := newest - n + 1;
    if n == 1 {
    } else {
      assert PeriodYear(kind, oldest + 1) >= 0 && PeriodYear(kind, newest) >= 0;
      CategoryIsConserved(kind, newest, n - 1, rows, uids, category);
      SpentSplits(kind, oldest, newest, rows, uids, category);
    }
  }

  lemma {:induction false} NothingSelected(rows: seq<Txn>, uids: seq<string>, start: Day, last: Day, category: string)
    requires forall t :: t in rows ==> !Selected(t, uids, start, last, category)
    ensures Spent(rows, uids, start, last, category) == 0
  {
    if rows == [] {
    } else {
      assert rows[|rows| - 1] in rows;
      NothingSelected(rows[..|rows| - 1], uids, start, last, category);
    }
  }

  /** Looking a category up in the query result gives its spend, with or without rows. */
  lemma {:induction false} LookupIsSpent(
      rows: seq<Txn>, uids: seq<string>, start: Day, last: Day, categories: seq<string>, category: string)
    requires category in categories
    ensures Get(SpendByCategory(rows, uids, start, last, categories), category)
            == if category == "" then 0 else Spent(rows, uids, start, last, category)
  {
    if forall t :: t in rows ==> !Selected(t, uids, start, last, category) {
      NothingSelected(rows, uids, start, last, category);
    }
  }

  lemma {:induction false} TotalsAdd(
      a: map<string, nat>, b: map<string, nat>, whole: map<string, nat>, categories: seq<string>)
    requires forall i :: 0 <= i < |categories| ==>
               Get(whole, categories[i]) == Get(a, categories[i]) + Get(b, categories[i])
    ensures TotalSpent(whole, categories) == TotalSpent(a, categories) + TotalSpent(b, categories)
  {
    if categories == [] {
    } else {
      TotalsAdd(a, b, whole, categories[..|categories| - 1]);
    }
  }

  function SumOfTotals(history: seq<HistoryBucket>): nat {
    if history == [] then 0 else SumOfTotals(history[..|history| - 1]) + history[|history| - 1].totalSpent
  }

  /** The total over the whole span from the start of period `oldest` to the end of period `newest`. */
  function SpanTotal(kind: Kind, oldest: int, newest: int, rows: seq<Txn>, uids: seq<string>, budgets: seq<Budget>): nat
    requires PeriodYear(kind, oldest) >= 0 && PeriodYear(kind, newest) >= 0
    requires ValidDate(Period(kind, newest).last)
  {
    var cs := Categories(budgets);
    TotalSpent(SpendByCategory(rows, uids, PeriodStart(kind, oldest), Period(kind, newest).last, cs), cs)
  }

  lemma {:induction false} SpanTotalSplits(
      kind: Kind, oldest: int, newest: int, rows: seq<Txn>, uids: seq<string>, budgets: seq<Budget>)
    requires PeriodYear(kind, oldest) >= 0 && PeriodYear(kind, oldest + 1) >= 0 && PeriodYear(kind, newest) >= 0
    requires oldest < newest
    ensures ValidDate(Period(kind, oldest).last) && ValidDate(Period(kind, newest).last)
    ensures SpanTotal(kind, oldest, newest, rows, uids, budgets)
            == SpanTotal(kind, oldest, oldest, rows, uids, budgets)
                + SpanTotal(kind, oldest + 1, newest, rows, uids, budgets)
  {
    PeriodDatesValid(kind, oldest);
    PeriodDatesValid(kind, newest);
    var cs := Categories(budgets);
    var first, last := Period(kind, oldest).last, Period(kind, newest).last;
    hide SpendByCategory, Spent, ValidDate, Period, PeriodYear, PeriodStart;
    var whole := SpendByCategory(rows, uids, PeriodStart(kind, oldest), last, cs);
    var a := SpendByCategory(rows, uids, PeriodStart(kind, oldest), first, cs);
    var b := SpendByCategory(rows, uids, PeriodStart(kind, oldest + 1), last, cs);
    forall i | 0 <= i < |cs|
      ensures Get(whole, cs[i]) == Get(a, cs[i]) + Get(b, cs[i])
    {
      LookupIsSpent(rows, uids, PeriodStart(kind, oldest), last, cs, cs[i]);
      LookupIsSpent(rows, uids, PeriodStart(kind, oldest), first, cs, cs[i]);
      LookupIsSpent(rows, uids, PeriodStart(kind, oldest + 1), last, cs, cs[i]);
      SpentSplits(kind, oldest, newest, rows, uids, cs[i]);
    }
    TotalsAdd(a, b, whole, cs);
  }

  /** Nothing is lost or counted twice between the buckets of a history. */
  lemma {:induction false} HistoryConservesSpend(
      kind: Kind, current: int, n: nat, rows: seq<Txn>, uids: seq<string>, budgets: seq<Budget>,
      history: seq<HistoryBucket>)
    requires n > 0 && PeriodYear(kind, current - n) >= 0 && PeriodYear(kind, current - 1) >= 0
    requires IsHistory(kind, current, n, rows, uids, budgets, history)
    ensures ValidDate(Period(kind, current - 1).last)
    ensures SumOfTotals(history) == SpanTotal(kind, current - n, current - 1, rows, uids, budgets)
    decreases n
  {
    hide PeriodYear, SpendByCategory, Period, PeriodStart;
    PeriodDatesValid(kind, current - 1);
    assert IsSummary(kind, current - 1 - (n - 1), rows, uids, budgets, history[n - 1]);
    PeriodDatesValid(kind, current - n);
    OnePeriodTotal(kind, current - n, rows, uids, budgets, history[n - 1]);
    if n == 1 {
      assert history[..0] == [];
    } else {
      YearsBetween(kind, current - n, current - n + 1);
      HistoryConservesSpend(kind, current, n - 1, rows, uids, budgets, history[..n - 1]);
      SpanTotalSplits(kind, current - n, current - 1, rows, uids, budgets);
    }
  }

  lemma {:induction false} OnePeriodTotal(
      kind: Kind, index: int, rows: seq<Txn>, uids: seq<string>, budgets: seq<Budget>, h: HistoryBucket)
    requires IsSummary(kind, index, rows, uids, budgets, h)
    ensures h.totalSpent == SpanTotal(kind, index, index, rows, uids, budgets)
  {
    hide SpendByCategory, PeriodYear, PeriodStart;
  }

  /** Every budget is counted in exactly one of the three groups. */
  lemma {:induction false} StatusesPartition(budgets: seq<Budget>, spend: map<string, nat>, categories: seq<string>)
    ensures CountStatus(Under, budgets, spend, categories) + CountStatus(At, budgets, spend, categories)
            + CountStatus(Over, budgets, spend, categories) == |categories|
  {
    if categories == [] {
    } else {
      StatusesPartition(budgets, spend, categories[..|categories| - 1]);
    }
  }
}
