/** The calendar windows of the budget endpoints: the current to-date window and the completed
    buckets before it.
  */
module BudgetWindows {
  import opened Text
  import opened Calendar

  datatype Kind = Monthly | Quarterly | Annual

  datatype Bucket = Bucket(key: string, start: Date, last: Date)

  /** The period names are already lower case; an unknown name means monthly. */
  function KindOf(period: string): Kind {
    if period == "annual" then Annual else if period == "quarterly" then Quarterly else Monthly
  }

  // ----- The specification: periods numbered consecutively -----

  /** The number of the calendar period a date lies in. */
  function PeriodIndex(kind: Kind, d: Date): int {
    match kind case Monthly => MonthIndex(d) case Quarterly => MonthIndex(d) / 3 case Annual => MonthIndex(d) / 12
  }

  /** The index of the first month of a period. */
  function FirstMonth(kind: Kind, index: int): int {
    match kind case Monthly => index case Quarterly => 3 * index case Annual => 12 * index
  }

  function PeriodStart(kind: Kind, index: int): (d: Date)
    ensures ValidDate(d)
  {
    FirstOfMonth(FirstMonth(kind, index))
  }

  function PeriodYear(kind: Kind, index: int): int {
    match kind case Monthly => index / 12 case Quarterly => index / 4 case Annual => index
  }

  function Label(kind: Kind, index: int): string
    requires PeriodYear(kind, index) >= 0
  {
    var year := Digits(PeriodYear(kind, index));
    match kind
    case Annual => year
    case Quarterly => year + "-Q" + Digits(index % 4 + 1)
    case Monthly => year + "-" + Padded(index % 12 + 1, 2)
  }

  /** The whole calendar period with the given number. */
  function Period(kind: Kind, index: int): Bucket
    requires PeriodYear(kind, index) >= 0
  {
    Bucket(Label(kind, index), PeriodStart(kind, index), DayBefore(PeriodStart(kind, index + 1)))
  }

  // ----- The code -----

  function ToDateWindow(period: string, today: Date): (Date, Date) {
    match KindOf(period)
    case Annual => (Date(today.year, 1, 1), today)
    case Quarterly => (Date(today.year, (today.month - 1) / 3 * 3 + 1, 1), today)
    case Monthly => (Date(today.year, today.month, 1), today)
  }

  function EndOfMonth(d: Date): Date
    requires ValidDate(d)
  {
    DayBefore(if d.month == 12 then Date(d.year + 1, 1, 1) else Date(d.year, d.month + 1, 1))
  }

  /** The completed periods before `today`, newest first. Dates before year 1 do not exist, so
      reaching that far back is an error. */
  method ResolveCompletedBuckets(period: string, today: Date, lookback: int) returns (r: Option<seq<Bucket>>)
    requires ValidDate(today) && today.year >= 1
    ensures var kind := KindOf(period);
            var current := PeriodIndex(kind, today);
            && (r.None? <==> lookback > 0 && PeriodYear(kind, current - lookback) < 1)
            && (r.Some? ==> Counted(kind, current, if lookback <= 0 then 0 else lookback, r.value))
  {
    hide Counted, PeriodIndex, PeriodYear;
    NoneCounted(KindOf(period), PeriodIndex(KindOf(period), today));
    if lookback <= 0 {
      return Some([]);
    }
    match KindOf(period)
    case Annual =>
      r := AnnualBuckets(today, lookback);
    case Quarterly =>
      r := QuarterlyBuckets(today, lookback);
    case Monthly =>
      r := MonthlyBuckets(today, lookback);
  }

  ghost predicate IsPeriod(kind: Kind, index: int, bucket: Bucket) {
    PeriodYear(kind, index) >= 1 && bucket == Period(kind, index)
  }

  /** What the first n buckets before period `current` have to be. */
  ghost predicate Counted(kind: Kind, current: int, n: int, buckets: seq<Bucket>) {
    && |buckets| == n
    && forall i :: 0 <= i < n ==> IsPeriod(kind, current - 1 - i, buckets[i])
  }

  lemma {:induction false} CountedExtends(kind: Kind, current: int, n: nat, buckets: seq<Bucket>, bucket: Bucket)
    requires Counted(kind, current, n, buckets) && IsPeriod(kind, current - 1 - n, bucket)
    ensures Counted(kind, current, n + 1, buckets + [bucket])
  {
    hide IsPeriod;
  }

  lemma {:induction false} OldestYear(kind: Kind, current: int, n: nat, lookback: int, buckets: seq<Bucket>)
    requires Counted(kind, current, n, buckets) && n <= lookback
    ensures n == lookback > 0 ==> PeriodYear(kind, current - lookback) >= 1
    ensures n < lookback && PeriodYear(kind, current - 1 - n) < 1 ==> PeriodYear(kind, current - lookback) < 1
  {
    assert n > 0 ==> IsPeriod(kind, current - 1 - (n - 1), buckets[n - 1]);
  }

  method AnnualBuckets(today: Date, lookback: int) returns (r: Option<seq<Bucket>>)
    requires ValidDate(today) && today.year >= 1 && lookback > 0
    ensures r.None? <==> PeriodYear(Annual, PeriodIndex(Annual, today) - lookback) < 1
    ensures r.Some? ==> Counted(Annual, PeriodIndex(Annual, today), lookback, r.value)
  {
    hide Counted, Period, Digits;
    ghost var current := PeriodIndex(Annual, today);
    var buckets := [];
    NoneCounted(Annual, current);
    var year := today.year - 1;
    for n := 0 to lookback
      invariant year == current - 1 - n
      invariant Counted(Annual, current, n, buckets)
    {
      OldestYear(Annual, current, n, lookback, buckets);
      if year < 1 {
        return None;
      }
      AnnualPeriod(year);
      CountedExtends(Annual, current, n, buckets, Period(Annual, year));
      buckets := buckets + [Bucket(Digits(year), Date(year, 1, 1), Date(year, 12, 31))];
      year := year - 1;
    }
    OldestYear(Annual, current, lookback, lookback, buckets);
    r := Some(buckets);
  }

  method QuarterlyBuckets(today: Date, lookback: int) returns (r: Option<seq<Bucket>>)
    requires ValidDate(today) && today.year >= 1 && lookback > 0
    ensures r.None? <==> PeriodYear(Quarterly, PeriodIndex(Quarterly, today) - lookback) < 1
    ensures r.Some? ==> Counted(Quarterly, PeriodIndex(Quarterly, today), lookback, r.value)
  {
    hide Counted, Period, Digits, PeriodYear, EndOfMonth;
    ghost var current := PeriodIndex(Quarterly, today);
    var q := (today.month - 1) / 3 + 1;
    QuarterOfMonth(today);
    var year := today.year;
    q := q - 1;
    if q == 0 {
      q := 4;
      year := year - 1;
    }
    var buckets := [];
    NoneCounted(Quarterly, current);
    for n := 0 to lookback
      invariant 1 <= q <= 4 && 4 * year + q - 1 == current - 1 - n
      invariant Counted(Quarterly, current, n, buckets)
    {
      OldestYear(Quarterly, current, n, lookback, buckets);
      QuarterYear(year, q);
      if year < 1 {
        return None;
      }
      var startMonth := (q - 1) * 3 + 1;
      var start := Date(year, startMonth, 1);
      var endMonth := startMonth + 2;
      var end := EndOfMonth(Date(year, endMonth, 1));
      QuarterlyPeriod(year, q);
      CountedExtends(Quarterly, current, n, buckets, Period(Quarterly, 4 * year + q - 1));
      buckets := buckets + [Bucket(Digits(year) + "-Q" + Digits(q), start, end)];
      q := q - 1;
      if q == 0 {
        q := 4;
        year := year - 1;
      }
    }
    OldestYear(Quarterly, current, lookback, lookback, buckets);
    r := Some(buckets);
  }

  method MonthlyBuckets(today: Date, lookback: int) returns (r: Option<seq<Bucket>>)
    requires ValidDate(today) && today.year >= 1 && lookback > 0
    ensures r.None? <==> PeriodYear(Monthly, PeriodIndex(Monthly, today) - lookback) < 1
    ensures r.Some? ==> Counted(Monthly, PeriodIndex(Monthly, today), lookback, r.value)
  {
    hide Counted, Period, Digits, Padded, PeriodYear, EndOfMonth;
    ghost var current := PeriodIndex(Monthly, today);
    assert current == 12 * today.year + today.month - 1;
    hide PeriodIndex, MonthIndex;
    var year := today.year;
    var month := today.month - 1;
    if month == 0 {
      month := 12;
      year := year - 1;
    }
    var buckets := [];
    NoneCounted(Monthly, current);
    for n := 0 to lookback
      invariant 1 <= month <= 12 && 12 * year + month - 1 == current - 1 - n
      invariant Counted(Monthly, current, n, buckets)
    {
      OldestYear(Monthly, current, n, lookback, buckets);
      MonthYear(year, month);
      if year < 1 {
        return None;
      }
      var start := Date(year, month, 1);
      var end := EndOfMonth(start);
      MonthlyPeriod(year, month);
      CountedExtends(Monthly, current, n, buckets, Period(Monthly, 12 * year + month - 1));
      buckets := buckets + [Bucket(Digits(year) + "-" + Padded(month, 2), start, end)];
      month := month - 1;
      if month == 0 {
        month := 12;
        year := year - 1;
      }
    }
    OldestYear(Monthly, current, lookback, lookback, buckets);
    r := Some(buckets);
  }

  lemma {:induction false} NoneCounted(kind: Kind, current: int)
    ensures Counted(kind, current, 0, [])
  {
  }

  // ----- The roll-back builds exactly the numbered periods -----

  lemma {:induction false} AnnualPeriod(year: nat)
    ensures PeriodYear(Annual, year) == year
    ensures Period(Annual, year) == Bucket(Digits(year), Date(year, 1, 1), Date(year, 12, 31))
  {
    MonthYear(year, 1);
    MonthYear(year + 1, 1);
  }

  lemma {:induction false} QuarterOfMonth(d: Date)
    requires ValidDate(d)
    ensures PeriodIndex(Quarterly, d) == 4 * d.year + (d.month - 1) / 3
  {
  }

  lemma {:induction false} QuarterYear(year: int, q: int)
    requires 1 <= q <= 4
    ensures PeriodYear(Quarterly, 4 * year + q - 1) == year && (4 * year + q - 1) % 4 + 1 == q
  {
  }

  lemma {:induction false} MonthYear(year: int, month: int)
    requires 1 <= month <= 12
    ensures PeriodYear(Monthly, 12 * year + month - 1) == year && (12 * year + month - 1) % 12 + 1 == month
    ensures FirstOfMonth(12 * year + month - 1) == Date(year, month, 1)
  {
  }

  lemma {:induction false} QuarterStart(year: int, q: int)
    requires 1 <= q <= 4
    ensures PeriodStart(Quarterly, 4 * year + q - 1) == Date(year, (q - 1) * 3 + 1, 1)
  {
    hide FirstOfMonth;
    MonthYear(year, (q - 1) * 3 + 1);
  }

  lemma {:induction false} QuarterlyPeriod(year: nat, q: int)
    requires 1 <= q <= 4
    ensures PeriodYear(Quarterly, 4 * year + q - 1) == year
    ensures Period(Quarterly, 4 * year + q - 1)
            == Bucket(Digits(year) + "-Q" + Digits(q), Date(year, (q - 1) * 3 + 1, 1), EndOfMonth(Date(year, q * 3, 1)))
  {
    hide Digits, PeriodYear, PeriodStart, DayBefore;
    QuarterYear(year, q);
    QuarterStart(year, q);
    if q == 4 {
      QuarterStart(year + 1, 1);
    } else {
      QuarterStart(year, q + 1);
    }
  }

  lemma {:induction false} MonthlyPeriod(year: nat, month: int)
    requires 1 <= month <= 12
    ensures PeriodYear(Monthly, 12 * year + month - 1) == year
    ensures Period(Monthly, 12 * year + month - 1)
            == Bucket(Digits(year) + "-" + Padded(month, 2), Date(year, month, 1), EndOfMonth(Date(year, month, 1)))
  {
    hide Digits, Padded, PeriodYear, FirstOfMonth, DayBefore;
    MonthYear(year, month);
    if month == 12 {
      MonthYear(year + 1, 1);
    } else {
      MonthYear(year, month + 1);
    }
  }

  // ----- The periods tile the calendar -----

  /** Each bucket starts on the day after the next older one ends, leap years included. */
  lemma {:induction false} PeriodsAreAdjacent(kind: Kind, index: int)
    requires PeriodYear(kind, index) >= 0
    ensures ValidDate(Period(kind, index).last)
    ensures Ordinal(Period(kind, index).last) + 1 == Ordinal(PeriodStart(kind, index + 1))
  {
    hide Ordinal;
    DayBeforeOrdinal(PeriodStart(kind, index + 1));
  }

  /** A period holds exactly the dates that carry its number. */
  lemma {:induction false} PeriodHoldsItsDates(kind: Kind, index: int, d: Date)
    requires PeriodYear(kind, index) >= 0 && ValidDate(d)
    ensures ValidDate(Period(kind, index).last)
    ensures PeriodIndex(kind, d) == index
            <==> Ordinal(PeriodStart(kind, index)) <= Ordinal(d) <= Ordinal(Period(kind, index).last)
  {
    hide Ordinal;
    PeriodsAreAdjacent(kind, index);
    InMonths(d, FirstMonth(kind, index), FirstMonth(kind, index + 1));
  }

  /** The to-date window starts where the newest completed bucket ends. */
  lemma {:induction false} CompletedMeetsToDate(period: string, today: Date)
    requires ValidDate(today)
    ensures ToDateWindow(period, today).0 == PeriodStart(KindOf(period), PeriodIndex(KindOf(period), today))
  {
    hide FirstOfMonth;
    MonthYear(today.year, today.month);
    match KindOf(period)
    case Annual =>
      MonthYear(today.year, 1);
    case Quarterly =>
      QuarterOfMonth(today);
      QuarterStart(today.year, (today.month - 1) / 3 + 1);
    case Monthly =>
  }

  lemma {:induction false} LabelYear(kind: Kind, i: int)
    requires PeriodYear(kind, i) >= 0
    ensures '-' !in Digits(PeriodYear(kind, i))
    ensures '-' !in "Q" + Digits(i % 4 + 1) && '-' !in Padded(i % 12 + 1, 2)
  {
    ValueOfDigits(PeriodYear(kind, i));
    ValueOfDigits(i % 4 + 1);
    ValueOfPadded(i % 12 + 1, 2);
  }

  /** No two periods of one kind share a label. */
  lemma {:induction false} LabelsAreDistinct(kind: Kind, i: int, j: int)
    requires PeriodYear(kind, i) >= 0 && PeriodYear(kind, j) >= 0
    requires Label(kind, i) == Label(kind, j)
    ensures i == j
  {
    hide Digits, Padded, Value;
    var yi, yj := Digits(PeriodYear(kind, i)), Digits(PeriodYear(kind, j));
    LabelYear(kind, i);
    LabelYear(kind, j);
    ValueOfDigits(PeriodYear(kind, i));
    ValueOfDigits(PeriodYear(kind, j));
    match kind
    case Annual =>
    case Quarterly =>
      var qi, qj := Digits(i % 4 + 1), Digits(j % 4 + 1);
      assert yi + "-Q" + qi == yi + ['-'] + ("Q" + qi) && yj + "-Q" + qj == yj + ['-'] + ("Q" + qj);
      CutAtLast(yi, "Q" + qi, yj, "Q" + qj, '-');
      SameTail("Q", qi, qj);
      ValueOfDigits(i % 4 + 1);
      ValueOfDigits(j % 4 + 1);
    case Monthly =>
      CutAtLast(yi, Padded(i % 12 + 1, 2), yj, Padded(j % 12 + 1, 2), '-');
      ValueOfPadded(i % 12 + 1, 2);
      ValueOfPadded(j % 12 + 1, 2);
  }

  // ----- Timestamps fall in exactly one bucket -----

  /** The filter both spend queries apply: from the first microsecond of `start` to the last of `last`. */
  predicate InWindow(ts: Timestamp, start: Date, last: Date)
    requires ValidTimestamp(ts) && ValidDate(start) && ValidDate(last)
  {
    Instant(Timestamp(start, 0)) <= Instant(ts) <= Instant(Timestamp(last, MICROS_PER_DAY - 1))
  }

  /** A timestamp is inside a bucket exactly when its date carries the bucket's number, so no
      timestamp is in two buckets of one kind. */
  lemma {:induction false} BucketHoldsTimestamp(kind: Kind, index: int, ts: Timestamp)
    requires PeriodYear(kind, index) >= 0 && ValidTimestamp(ts)
    ensures ValidDate(Period(kind, index).last)
    ensures InWindow(ts, Period(kind, index).start, Period(kind, index).last) <==> PeriodIndex(kind, ts.date) == index
  {
    hide Ordinal, Instant, PeriodStart, PeriodIndex;
    PeriodHoldsItsDates(kind, index, ts.date);
    TimestampsInDays(ts, Period(kind, index).start, Period(kind, index).last);
  }

  /** The whole look-back span holds exactly the timestamps of its buckets. */
  lemma {:induction false} SpanHoldsTimestamp(kind: Kind, oldest: int, newest: int, ts: Timestamp)
    requires PeriodYear(kind, oldest) >= 0 && PeriodYear(kind, newest) >= 0
    requires oldest <= newest && ValidTimestamp(ts)
    ensures ValidDate(Period(kind, newest).last)
    ensures InWindow(ts, Period(kind, oldest).start, Period(kind, newest).last)
            <==> oldest <= PeriodIndex(kind, ts.date) <= newest
  {
    hide Ordinal, Instant;
    PeriodsAreAdjacent(kind, newest);
    TimestampsInDays(ts, PeriodStart(kind, oldest), Period(kind, newest).last);
    InMonths(ts.date, FirstMonth(kind, oldest), FirstMonth(kind, newest + 1));
  }

  /** A bucket is named after the dates in it: by year and month, by year and quarter, or by year. */
  lemma {:induction false} LabelNamesItsDates(kind: Kind, d: Date)
    requires ValidDate(d) && d.year >= 1
    ensures PeriodYear(kind, PeriodIndex(kind, d)) >= 0
    ensures Label(kind, PeriodIndex(kind, d)) ==
              match kind
              case Monthly => Digits(d.year) + "-" + Padded(d.month, 2)
              case Quarterly => Digits(d.year) + "-Q" + Digits((d.month + 2) / 3)
              case Annual => Digits(d.year)
  {
    hide Padded, Digits;
  }
}
