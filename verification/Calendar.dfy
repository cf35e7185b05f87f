/** Gregorian dates and microsecond timestamps in UTC. */
module Calendar {
  datatype Date = Date(year: int, month: int, day: int)

  const MICROS_PER_DAY := 86_400_000_000

  /** A point in time: a date and the microseconds since its midnight. */
  datatype Timestamp = Timestamp(date: Date, micro: int)

  predicate IsLeap(year: int) {
    year % 4 == 0 && (year % 100 != 0 || year % 400 == 0)
  }

  function DaysInMonth(year: int, month: int): int
    requires 1 <= month <= 12
  {
    if month == 2 then (if IsLeap(year) then 29 else 28)
    else if month in {4, 6, 9, 11} then 30
    else 31
  }

  predicate ValidDate(d: Date) {
    1 <= d.month <= 12 && 1 <= d.day <= DaysInMonth(d.year, d.month)
  }

  predicate ValidTimestamp(ts: Timestamp) {
    ValidDate(ts.date) && 0 <= ts.micro < MICROS_PER_DAY
  }

  function DaysBeforeYear(year: int): int {
    var y := year - 1;
    365 * y + y / 4 - y / 100 + y / 400
  }

  function DaysBeforeMonth(year: int, month: int): int
    requires 1 <= month <= 12
    decreases month
  {
    if month == 1 then 0 else DaysBeforeMonth(year, month - 1) + DaysInMonth(year, month - 1)
  }

  /** The proleptic Gregorian ordinal; day 1 is 0001-01-01. */
  function Ordinal(d: Date): int
    requires ValidDate(d)
  {
    DaysBeforeYear(d.year) + DaysBeforeMonth(d.year, d.month) + d.day
  }

  function Instant(ts: Timestamp): int
    requires ValidTimestamp(ts)
  {
    Ordinal(ts.date) * MICROS_PER_DAY + ts.micro
  }

  /** What subtracting one day from a date gives. */
  function DayBefore(d: Date): Date
    requires ValidDate(d)
  {
    if d.day > 1 then d.(day := d.day - 1)
    else if d.month > 1 then Date(d.year, d.month - 1, DaysInMonth(d.year, d.month - 1))
    else Date(d.year - 1, 12, 31)
  }

  function MonthIndex(d: Date): int {
    12 * d.year + d.month - 1
  }

  function FirstOfMonth(index: int): (d: Date)
    ensures ValidDate(d) && MonthIndex(d) == index
  {
    Date(index / 12, index % 12 + 1, 1)
  }

  // ----- Ordinals count days -----

  lemma {:induction false} Quarters(year: int)
    ensures year / 4 == (year - 1) / 4 + if year % 4 == 0 then 1 else 0
  {
  }

  lemma {:induction false} Centuries(year: int)
    ensures year / 100 == (year - 1) / 100 + if year % 100 == 0 then 1 else 0
  {
  }

  lemma {:induction false} FourCenturies(year: int)
    ensures year / 400 == (year - 1) / 400 + if year % 400 == 0 then 1 else 0
  {
  }

  lemma {:induction false} CenturiesAreQuarters(year: int)
    ensures year % 400 == 0 ==> year % 100 == 0
    ensures year % 100 == 0 ==> year % 4 == 0
  {
  }

  lemma {:induction false} YearLength(year: int)
    ensures DaysBeforeYear(year + 1) == DaysBeforeYear(year) + if IsLeap(year) then 366 else 365
  {
    Quarters(year);
    Centuries(year);
    FourCenturies(year);
    CenturiesAreQuarters(year);
  }

  lemma {:induction false} MonthsMakeAYear(year: int)
    ensures DaysBeforeMonth(year, 12) + 31 == if IsLeap(year) then 366 else 365
  {
    assert DaysBeforeMonth(year, 3) == if IsLeap(year) then 60 else 59;
    assert DaysBeforeMonth(year, 6) == DaysBeforeMonth(year, 3) + 92;
    assert DaysBeforeMonth(year, 9) == DaysBeforeMonth(year, 6) + 92;
    assert DaysBeforeMonth(year, 12) == DaysBeforeMonth(year, 9) + 91;
  }

  /** The first of January follows the last of December. */
  lemma {:induction false} YearTurns(year: int)
    ensures Ordinal(Date(year + 1, 1, 1)) == Ordinal(Date(year, 12, 31)) + 1
  {
    YearLength(year);
    MonthsMakeAYear(year);
  }

  lemma {:induction false} DayBeforeOrdinal(d: Date)
    requires ValidDate(d)
    ensures ValidDate(DayBefore(d)) && Ordinal(DayBefore(d)) == Ordinal(d) - 1
  {
    hide DaysBeforeYear, IsLeap;
    YearTurns(d.year - 1);
  }

  lemma {:induction false} MonthLength(index: int)
    ensures var d := FirstOfMonth(index);
            Ordinal(FirstOfMonth(index + 1)) == Ordinal(d) + DaysInMonth(d.year, d.month)
  {
    var d := FirstOfMonth(index);
    if d.month == 12 {
      assert FirstOfMonth(index + 1) == Date(d.year + 1, 1, 1);
      YearTurns(d.year);
    } else {
      assert FirstOfMonth(index + 1) == Date(d.year, d.month + 1, 1);
    }
  }

  /** The ordinal of the first day of month `index`. */
  function MonthStart(index: int): int {
    Ordinal(FirstOfMonth(index))
  }

  lemma {:induction false} MonthsAdvance(i: int, j: int)
    requires i <= j
    ensures MonthStart(i) <= MonthStart(j)
    decreases j - i
  {
    if i < j {
      MonthsAdvance(i, j - 1);
      MonthLength(j - 1);
    }
  }

  /** A date lies between the first day of its own month and that of the next. */
  lemma {:induction false} OwnMonth(d: Date)
    requires ValidDate(d)
    ensures MonthStart(MonthIndex(d)) <= Ordinal(d) < MonthStart(MonthIndex(d) + 1)
  {
    assert FirstOfMonth(MonthIndex(d)) == Date(d.year, d.month, 1);
    MonthLength(MonthIndex(d));
  }

  /** A date falls in the months from `from` up to `to` exactly when its ordinal lies between their first days. */
  lemma {:induction false} InMonths(d: Date, from: int, to: int)
    requires ValidDate(d) && from <= to
    ensures from <= MonthIndex(d) < to <==> MonthStart(from) <= Ordinal(d) < MonthStart(to)
  {
    hide *;
    var own := MonthIndex(d);
    OwnMonth(d);
    if own < from {
      MonthsAdvance(own + 1, from);
    } else {
      MonthsAdvance(from, own);
    }
    if own < to {
      MonthsAdvance(own + 1, to);
    } else {
      MonthsAdvance(to, own);
    }
  }

  lemma {:induction false} InstantsOrderDays(a: Timestamp, b: Timestamp)
    requires ValidTimestamp(a) && ValidTimestamp(b) && Instant(a) <= Instant(b)
    ensures ValidDate(a.date) && ValidDate(b.date) && Ordinal(a.date) <= Ordinal(b.date)
  {
    hide Ordinal, ValidDate;
  }

  /** Later instants never belong to earlier months. */
  lemma {:induction false} InstantsOrderMonths(a: Timestamp, b: Timestamp)
    requires ValidTimestamp(a) && ValidTimestamp(b) && Instant(a) <= Instant(b)
    ensures MonthIndex(a.date) <= MonthIndex(b.date)
  {
    hide *;
    InstantsOrderDays(a, b);
    OwnMonth(b.date);
    InMonths(a.date, MonthIndex(a.date), MonthIndex(a.date) + 1);
    if MonthIndex(b.date) < MonthIndex(a.date) {
      MonthsAdvance(MonthIndex(b.date) + 1, MonthIndex(a.date));
    }
  }

  lemma {:induction false} TimestampsInDays(ts: Timestamp, first: Date, last: Date)
    requires ValidTimestamp(ts) && ValidDate(first) && ValidDate(last)
    ensures Instant(Timestamp(first, 0)) <= Instant(ts) <= Instant(Timestamp(last, MICROS_PER_DAY - 1))
            <==> Ordinal(first) <= Ordinal(ts.date) <= Ordinal(last)
  {
  }
}
