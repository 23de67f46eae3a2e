/** The proleptic Gregorian calendar as Python's `datetime.date` sees it.
    A date is identified with its ordinal (`date.toordinal()`), so that
    0001-01-01 is day 1 and adding a `timedelta(days=k)` adds k. */
module Calendar {

  const MinYear: int := 1
  const MaxYear: int := 9999

  predicate IsLeapYear(year: int) {
    year % 4 == 0 && (year % 100 != 0 || year % 400 == 0)
  }

  function DaysInMonth(year: int, month: int): (n: int)
    requires 1 <= month <= 12
    ensures 28 <= n <= 31
    ensures month == 2 <==> n < 30
  {
    if month == 2 then (if IsLeapYear(year) then 29 else 28)
    else if month == 4 || month == 6 || month == 9 || month == 11 then 30
    else 31
  }

  /** The dates `datetime.date(year, month, day)` accepts. */
  predicate ValidDate(year: int, month: int, day: int) {
    MinYear <= year <= MaxYear && 1 <= month <= 12 && 1 <= day <= DaysInMonth(year, month)
  }

  /** The length of `year` in days. */
  function YearDays(year: int): int {
    if IsLeapYear(year) then 366 else 365
  }

  /** Days in the years before `year`, counted year by year. */
  function DaysBeforeYear(year: int): int
    requires year >= 1
  {
    if year == 1 then 0 else DaysBeforeYear(year - 1) + YearDays(year - 1)
  }

  /** `_days_before_year` as Python computes it, in closed form. */
  function DaysBeforeYearFormula(year: int): int
    requires year >= 1
  {
    var p := year - 1;
    365 * p + p / 4 - p / 100 + p / 400
  }

  /** Days in the months of `year` that precede `month`. */
  function DaysBeforeMonth(year: int, month: int): (n: int)
    requires 1 <= month <= 12
  {
    [0, 31, 59, 90, 120, 151, 181, 212, 243, 273, 304, 334][month - 1]
      + (if month > 2 && IsLeapYear(year) then 1 else 0)
  }

  /** `datetime.date(year, month, day).toordinal()`. */
  function Ordinal(year: int, month: int, day: int): int
    requires year >= 1 && 1 <= month <= 12
  {
    DaysBeforeYear(year) + DaysBeforeMonth(year, month) + day
  }

  /** `date.weekday()` of the date with ordinal `n`: 0 is Monday, 6 is Sunday. */
  function Weekday(n: int): (w: int)
    ensures 0 <= w < 7
  {
    (n + 6) % 7
  }

  lemma {:induction false} DaysBeforeMonthMonotone(year: int, m1: int, m2: int)
    requires 1 <= m1 < m2 <= 12
    ensures DaysBeforeMonth(year, m2) >= DaysBeforeMonth(year, m1) + DaysInMonth(year, m1)
    decreases m2
  {
    if m2 > m1 + 1 {
      DaysBeforeMonthMonotone(year, m1, m2 - 1);
      DaysBeforeNextMonth(year, m2 - 1);
    }
  }

  lemma DaysBeforeNextMonth(year: int, month: int)
    requires 1 <= month < 12
    ensures DaysBeforeMonth(year, month + 1) == DaysBeforeMonth(year, month) + DaysInMonth(year, month)
  {
  }

  lemma MulBounds(k: int, d: int)
    requires k > 0
    ensures d >= 1 ==> k * d >= k
    ensures d <= -1 ==> k * d <= -k
  {
  }

  lemma DivUnique(a: int, k: int, q: int, r: int)
    requires k > 0 && 0 <= r < k && a == k * q + r
    ensures a / k == q
  {
    MulBounds(k, q - a / k);
    assert k * (q - a / k) == a % k - r;
  }

  lemma DivStep(p: int, k: int)
    requires p >= 0 && k > 0
    ensures (p + 1) / k == p / k + (if (p + 1) % k == 0 then 1 else 0)
  {
    var q, r := p / k, p % k;
    if r + 1 < k {
      DivUnique(p + 1, k, q, r + 1);
    } else {
      DivUnique(p + 1, k, q + 1, 0);
    }
  }

  /** A multiple of `k * m` is a multiple of `k`. */
  lemma MultipleOfFactor(a: int, k: int, m: int)
    requires k > 0 && m > 0 && a % (k * m) == 0
    ensures a % k == 0
  {
    var q := a / (k * m);
    assert a == k * (m * q);
    DivUnique(a, k, m * q, 0);
  }

  /** The leap-year rule as the count of the divisibility tests. */
  lemma LeapCount(y: int)
    ensures (if y % 4 == 0 then 1 else 0) - (if y % 100 == 0 then 1 else 0) + (if y % 400 == 0 then 1 else 0)
            == (if IsLeapYear(y) then 1 else 0)
  {
    if y % 400 == 0 {
      MultipleOfFactor(y, 100, 4);
    }
    if y % 100 == 0 {
      MultipleOfFactor(y, 4, 25);
    }
  }

  /** The closed form counts the same days as the year-by-year sum. */
  lemma {:induction false} DaysBeforeYearClosedForm(year: int)
    requires year >= 1
    ensures DaysBeforeYear(year) == DaysBeforeYearFormula(year)
  {
    if year > 1 {
      DaysBeforeYearClosedForm(year - 1);
      var p := year - 2;
      DivStep(p, 4);
      DivStep(p, 100);
      DivStep(p, 400);
      LeapCount(year - 1);
    }
  }

  /** December 31 is followed by January 1 of the next year. */
  lemma YearLength(year: int)
    requires year >= 1
    ensures Ordinal(year + 1, 1, 1) == Ordinal(year, 12, 31) + 1
  {
  }

  /** Stepping forward `(w - Weekday(n)) % 7` days lands on weekday `w`. */
  lemma ForwardToWeekday(n: int, w: int)
    ensures Weekday(n + (w - Weekday(n)) % 7) == w % 7
  {
    var a := n + 6;
    var b := (w - a % 7) % 7;
    assert (a + b) % 7 == (a % 7 + b) % 7;
    assert (a % 7 + (w - a % 7) % 7) % 7 == w % 7;
  }

  /** Stepping back `(Weekday(n) - w) % 7` days lands on weekday `w`. */
  lemma BackToWeekday(n: int, w: int)
    ensures Weekday(n - (Weekday(n) - w) % 7) == w % 7
  {
    var a := n + 6;
    var b := (a % 7 - w) % 7;
    assert (a - b) % 7 == (a % 7 - b) % 7;
    assert (a % 7 - (a % 7 - w) % 7) % 7 == w % 7;
  }

  /** Whole weeks do not change the weekday. */
  lemma WeeksKeepWeekday(n: int, k: int)
    ensures Weekday(n + 7 * k) == Weekday(n)
  {
  }

  /** The Monday on or before day `n`. */
  lemma MondayOnOrBefore(n: int)
    ensures Weekday(n - Weekday(n)) == 0
  {
    BackToWeekday(n, 0);
    assert (Weekday(n) - 0) % 7 == Weekday(n);
  }

  /** An ISO 8601 week-numbering (year, week) pair. */
  datatype YearWeek = YearWeek(year: nat, week: nat)

  /** The Monday of ISO week 1 of `year`: the week that contains 4 January
      (section 4.1.4 of ISO 8601:2004). */
  function IsoWeekStart(year: int): (n: int)
    requires year >= 1
    ensures Weekday(n) == 0
    ensures Ordinal(year, 1, 1) - 3 <= n <= Ordinal(year, 1, 4)
  {
    var jan4 := Ordinal(year, 1, 4);
    MondayOnOrBefore(jan4);
    jan4 - Weekday(jan4)
  }

  /** `Timestamp.isocalendar()` (year and week) of a valid date: the ISO
      year is the one whose week 1 starts on or before the date and whose
      successor's week 1 starts after it, and the week counts the Mondays
      since that start. */
  function IsoCalendar(year: int, month: int, day: int): (yw: YearWeek)
    requires ValidDate(year, month, day)
    ensures yw.year >= 1 && 1 <= yw.week <= 53
    ensures yw.year == IsoYearOf(year, month, day)
    ensures Ordinal(year, month, day) == IsoWeekStart(yw.year) + 7 * (yw.week - 1) + Weekday(Ordinal(year, month, day))
  {
    var isoYear := IsoYearOf(year, month, day);
    IsoYearBrackets(year, month, day);
    IsoWeekDistance(isoYear);
    YearWeek(isoYear, WeekNumber(IsoWeekStart(isoYear), IsoWeekStart(isoYear + 1), Ordinal(year, month, day)))
  }

  /** The ISO year of a date: the year before, the same year or the next
      one, whichever has its week 1 start last on or before the date. */
  function IsoYearOf(year: int, month: int, day: int): (r: int)
    requires ValidDate(year, month, day)
    ensures year - 1 <= r <= year + 1
  {
    var n := Ordinal(year, month, day);
    if n >= IsoWeekStart(year + 1) then year + 1
    else if n >= IsoWeekStart(year) || year == 1 then year
    else year - 1
  }

  /** The date lies in the ISO year `IsoYearOf` picks. */
  lemma IsoYearBrackets(year: int, month: int, day: int)
    requires ValidDate(year, month, day)
    ensures IsoYearOf(year, month, day) >= 1
    ensures IsoWeekStart(IsoYearOf(year, month, day)) <= Ordinal(year, month, day) < IsoWeekStart(IsoYearOf(year, month, day) + 1)
  {
    var n := Ordinal(year, month, day);
    IsoYearBounds(year, month, day);
    if n >= IsoWeekStart(year + 1) {
      assert IsoYearOf(year, month, day) == year + 1;
    } else if n >= IsoWeekStart(year) {
      assert IsoYearOf(year, month, day) == year;
    } else {
      assert IsoYearOf(year, month, day) == year - 1;
    }
  }

  /** Counting whole weeks from a Monday `start` to a day `n` before the
      next ISO year's start gives a week number from 1 to 53. */
  function WeekNumber(start: int, next: int, n: int): (w: nat)
    requires Weekday(start) == 0 && start <= n < next && next - start <= 371
    ensures 1 <= w <= 53 && n == start + 7 * (w - 1) + Weekday(n)
  {
    var offset := n - start;
    assert offset % 7 == Weekday(n);
    offset / 7 + 1
  }

  lemma SameWeekdayDistance(a: int, b: int)
    requires Weekday(a) == Weekday(b)
    ensures (b - a) % 7 == 0
  {
  }

  lemma MultipleOfSevenBounds(d: int)
    requires d % 7 == 0 && 359 <= d <= 372
    ensures 364 <= d <= 371
  {
  }

  /** Consecutive ISO years are 52 or 53 whole weeks apart. */
  lemma IsoWeekDistance(year: int)
    requires year >= 1
    ensures var d := IsoWeekStart(year + 1) - IsoWeekStart(year);
      d % 7 == 0 && 364 <= d <= 371
  {
    YearLength(year);
    var jan1 := Ordinal(year, 1, 1);
    var nextJan1 := Ordinal(year + 1, 1, 1);
    assert nextJan1 - jan1 == DaysBeforeMonth(year, 12) + 31;
    assert 365 <= nextJan1 - jan1 <= 366;
    var a, b := IsoWeekStart(year), IsoWeekStart(year + 1);
    SameWeekdayDistance(a, b);
    MultipleOfSevenBounds(b - a);
  }

  /** A day of the year is at most the year's length. */
  lemma DayOfYearBound(year: int, month: int, day: int)
    requires ValidDate(year, month, day)
    ensures 1 <= DaysBeforeMonth(year, month) + day <= 365 + (if IsLeapYear(year) then 1 else 0)
  {
    if month < 12 {
      DaysBeforeNextMonth(year, month);
      if month + 1 < 12 {
        DaysBeforeMonthMonotone(year, month + 1, 12);
      }
    }
  }

  /** Week 1 starts within three days of 1 January. */
  lemma IsoWeekStartNearYearStart(year: int)
    requires year >= 1
    ensures DaysBeforeYear(year) - 2 <= IsoWeekStart(year) <= DaysBeforeYear(year) + 4
  {
  }

  /** A day of `year` in ordinal terms: after the days of the earlier years
      and no later than the last day of the year. */
  lemma OrdinalWithinYear(year: int, month: int, day: int)
    requires ValidDate(year, month, day)
    ensures DaysBeforeYear(year) + 1 <= Ordinal(year, month, day) <= DaysBeforeYear(year + 1)
  {
    DayOfYearBound(year, month, day);
  }

  /** A date lies after the start of the previous ISO year (when there is
      one) and before the start of the ISO year after next. */
  lemma IsoYearBounds(year: int, month: int, day: int)
    requires ValidDate(year, month, day)
    ensures year > 1 ==> IsoWeekStart(year - 1) <= Ordinal(year, month, day)
    ensures year == 1 ==> IsoWeekStart(year) <= Ordinal(year, month, day)
    ensures Ordinal(year, month, day) < IsoWeekStart(year + 2)
  {
    OrdinalWithinYear(year, month, day);
    IsoWeekStartNearYearStart(year + 2);
    if year > 1 {
            IsoWeekStartNearYearStart(year - 1);
    } else {
      assert IsoWeekStart(1) == 1;
    }
  }
}
