/** `get_asin_sales` (restock_utils.py:69-196): stock-out corrected
    long-term and short-term sales averages per ASIN and their blend. */
module Velocity {
  import opened Wrappers
  import opened Tables
  import opened DateUtils
  import opened InStockRate

  /** Default window lengths of the source (`long_term_days`, `short_term_days`). */
  const DefaultLongDays: int := 180
  const DefaultShortDays: int := 14

  /** One row of the returned `total_sales` frame. */
  datatype VelocityRow = VelocityRow(
    isr: real,
    isrShort: real,
    avgDollarsShort: real,
    avgUnitsShort: real,
    avgDollarsLong: real,
    avgUnitsLong: real,
    avgUnits: real,
    avgDollars: real)

  /** `pd.date_range` refuses a missing end date: an empty sales frame with
      no `sales_max_date_input` has no max date. */
  datatype SalesError = NoSalesDate

  datatype Measure = Units | Dollars

  function Amount(r: SalesRecord, m: Measure): real {
    match m
    case Units => r.unitSales
    case Dollars => r.dollarSales
  }

  /** Division where a zero denominator yields 0: the source's
      `replace(0, np.nan)` followed by `fillna(0)`. */
  function SafeDiv(x: real, y: real): (r: real)
    ensures y != 0.0 ==> r * y == x
    ensures y == 0.0 ==> r == 0.0
  {
    if y == 0.0 then 0.0 else x / y
  }

  /** `avg` is the in-stock corrected daily average of `total` over `days`:
      times the window length and the in-stock rate it gives back the total,
      and it is 0 when the rate is 0. */
  predicate Corrected(avg: real, total: real, days: int, isr: real) {
    && (isr != 0.0 ==> avg * (days as real) * isr == total)
    && (isr == 0.0 ==> avg == 0.0)
  }

  /** A window's sum divided by the window length and then by the in-stock
      rate; 0 when the rate is 0. */
  function CorrectedAverage(total: real, days: int, isr: real): (r: real)
    requires days > 0
    ensures Corrected(r, total, days, isr)
  {
    SafeDiv(total / (days as real), isr)
  }

  /** The guard `short / long > 5` as IEEE floating point evaluates it: a
      zero `long` gives +inf (true) for a positive `short` and -inf or NaN
      (false) otherwise. */
  function RatioAboveFive(short: real, long: real): (b: bool)
    ensures b <==> (long > 0.0 && short > 5.0 * long) || (long < 0.0 && short < 5.0 * long)
                   || (long == 0.0 && short > 0.0)
  {
    if long == 0.0 then short > 0.0
    else
      var q := short / long;
      assert short == q * long;
      ScaleComparison(q, 5.0, long);
      q > 5.0
  }

  lemma ScaleComparison(a: real, b: real, c: real)
    ensures c > 0.0 ==> (a > b <==> a * c > b * c)
    ensures c < 0.0 ==> (a > b <==> a * c < b * c)
  {
    assert a * c - b * c == (a - b) * c;
  }

  /** The blend of the short and long averages: 0.6/0.4, or 0.1/0.9 when the
      guard fires. */
  function Blend(short: real, long: real, damped: bool): (r: real)
    ensures short <= long ==> short <= r <= long
    ensures long <= short ==> long <= r <= short
  {
    if damped then 0.1 * short + 0.9 * long else 0.6 * short + 0.4 * long
  }

  /** The sum of measure `m` over the rows of `asin` dated in `window`; an
      ASIN without such rows sums to 0, and the rows of other ASINs or
      other days do not count. */
  function WindowTotal(sales: seq<SalesRecord>, window: set<int>, asin: string, m: Measure): (r: real)
    ensures !SoldInWindow(sales, window, asin) ==> r == 0.0
  {
    if sales == [] then 0.0
    else
      var last := sales[|sales| - 1];
      WindowTotal(sales[..|sales| - 1], window, asin, m)
        + (if last.asin == asin && last.date in window then Amount(last, m) else 0.0)
  }

  /** Some row of `asin` is dated in `window`. */
  predicate SoldInWindow(sales: seq<SalesRecord>, window: set<int>, asin: string) {
    if sales == [] then false
    else
      var last := sales[|sales| - 1];
      (last.asin == asin && last.date in window) || SoldInWindow(sales[..|sales| - 1], window, asin)
  }

  /** The ASINs with at least one sales row dated in `window`. */
  function WindowAsins(sales: seq<SalesRecord>, window: set<int>): set<string> {
    set i | 0 <= i < |sales| && sales[i].date in window :: sales[i].asin
  }

  /** An ASIN is sold in a window exactly when it is one of the window's ASINs. */
  lemma {:induction false} SoldInWindowIff(sales: seq<SalesRecord>, window: set<int>, asin: string)
    ensures SoldInWindow(sales, window, asin) <==> asin in WindowAsins(sales, window)
  {
    if sales != [] {
      var init := sales[..|sales| - 1];
      SoldInWindowIff(init, window, asin);
      if asin in WindowAsins(init, window) {
        var i :| 0 <= i < |init| && init[i].date in window && init[i].asin == asin;
        assert sales[i] == init[i];
      }
      if asin in WindowAsins(sales, window) {
        var i :| 0 <= i < |sales| && sales[i].date in window && sales[i].asin == asin;
        if i < |init| {
          assert init[i] == sales[i];
        }
      }
    }
  }

  /** `sales_max_date`: the given date, or the day before the latest sale. */
  function SalesMaxDate(sales: seq<SalesRecord>, maxDateInput: Option<int>): (r: Option<int>)
    ensures maxDateInput.Some? ==> r == maxDateInput
    ensures r.None? <==> maxDateInput.None? && sales == []
    ensures maxDateInput.None? && sales != [] ==>
      && (exists i :: 0 <= i < |sales| && sales[i].date == r.value + 1)
      && (forall i :: 0 <= i < |sales| ==> sales[i].date <= r.value + 1)
  {
    if maxDateInput.Some? then maxDateInput
    else
      var dates := seq(|sales|, i requires 0 <= i < |sales| => sales[i].date);
      match MaxOf(dates)
      case None => None
      case Some(d) =>
        assert forall i :: 0 <= i < |sales| ==> dates[i] == sales[i].date;
        Some(d - 1)
  }

  function AsSet(s: seq<int>): set<int> {
    set d | d in s
  }

  /** The velocity row of one ASIN. `longWindow` and `shortWindow` are the
      non-event day sets; the short frame is cut from the already filtered
      long one, so `shortWindow` lies inside `longWindow`. */
  function AsinVelocity(sales: seq<SalesRecord>, isrTable: map<string, IsrRow>, asin: string,
                        longWindow: set<int>, shortWindow: set<int>, longDays: int, shortDays: int)
    : (row: VelocityRow)
    requires longDays > 0 && shortDays > 0
    ensures var isrRow := if asin in isrTable then isrTable[asin] else IsrRow(0.0, 0.0);
      var inShort := SoldInWindow(sales, shortWindow, asin);
      // long averages: window sum / window days / ISR, and 0 for a zero ISR
      && Corrected(row.avgUnitsLong, WindowTotal(sales, longWindow, asin, Units), longDays, isrRow.isr)
      && Corrected(row.avgDollarsLong, WindowTotal(sales, longWindow, asin, Dollars), longDays, isrRow.isr)
      // short averages likewise with ISR_short
      && (inShort ==>
            Corrected(row.avgUnitsShort, WindowTotal(sales, shortWindow, asin, Units), shortDays, isrRow.isrShort)
            && Corrected(row.avgDollarsShort, WindowTotal(sales, shortWindow, asin, Dollars), shortDays, isrRow.isrShort))
      // ISR and ISR_short come from the short frame only
      && (inShort ==> row.isr == isrRow.isr && row.isrShort == isrRow.isrShort)
      && (!inShort ==> row.isr == 0.0 && row.isrShort == 0.0 && row.avgUnitsShort == 0.0 && row.avgDollarsShort == 0.0)
      // both blends switch on the unit ratio
      && row.avgUnits == Blend(row.avgUnitsShort, row.avgUnitsLong, RatioAboveFive(row.avgUnitsShort, row.avgUnitsLong))
      && row.avgDollars == Blend(row.avgDollarsShort, row.avgDollarsLong, RatioAboveFive(row.avgUnitsShort, row.avgUnitsLong))
  {
    var isrRow := if asin in isrTable then isrTable[asin] else IsrRow(0.0, 0.0);
    var unitsLong := CorrectedAverage(WindowTotal(sales, longWindow, asin, Units), longDays, isrRow.isr);
    var dollarsLong := CorrectedAverage(WindowTotal(sales, longWindow, asin, Dollars), longDays, isrRow.isr);
    var inShort := SoldInWindow(sales, shortWindow, asin);
    var isr := if inShort then isrRow.isr else 0.0;
    var isrShort := if inShort then isrRow.isrShort else 0.0;
    var unitsShort :=
      if inShort then CorrectedAverage(WindowTotal(sales, shortWindow, asin, Units), shortDays, isrRow.isrShort) else 0.0;
    var dollarsShort :=
      if inShort then CorrectedAverage(WindowTotal(sales, shortWindow, asin, Dollars), shortDays, isrRow.isrShort) else 0.0;
    var damped := RatioAboveFive(unitsShort, unitsLong);
    VelocityRow(isr, isrShort, dollarsShort, unitsShort, dollarsLong, unitsLong,
                Blend(unitsShort, unitsLong, damped), Blend(dollarsShort, dollarsLong, damped))
  }

  /** `get_asin_sales(amazon_sales, asin_isr, include_events,
      sales_max_date_input, long_term_days, short_term_days)`; the event
      dates of the calendar registry are the parameter `eventDates`. */
  function GetAsinSales(sales: seq<SalesRecord>, isrTable: map<string, IsrRow>, includeEvents: bool,
                        maxDateInput: Option<int>, longDays: int, shortDays: int, eventDates: set<int>)
    : (r: Result<map<string, VelocityRow>, SalesError>)
    requires longDays > 0 && shortDays > 0
    ensures r.Failure? <==> SalesMaxDate(sales, maxDateInput).None?
    ensures r.Success? ==>
      var maxDate := SalesMaxDate(sales, maxDateInput).value;
      var longWindow := AsSet(LastNonEventDays(longDays, maxDate, includeEvents, eventDates));
      var shortWindow := longWindow * AsSet(LastNonEventDays(shortDays, maxDate, includeEvents, eventDates));
      // exactly one row per ASIN sold on a day of the long window
      && r.value.Keys == WindowAsins(sales, longWindow)
      && (forall a | a in r.value ::
            r.value[a] == AsinVelocity(sales, isrTable, a, longWindow, shortWindow, longDays, shortDays))
  {
    match SalesMaxDate(sales, maxDateInput)
    case None => Failure(NoSalesDate)
    case Some(maxDate) =>
      var longWindow := AsSet(LastNonEventDays(longDays, maxDate, includeEvents, eventDates));
      var shortWindow := longWindow * AsSet(LastNonEventDays(shortDays, maxDate, includeEvents, eventDates));
      Success(map a | a in WindowAsins(sales, longWindow) ::
                AsinVelocity(sales, isrTable, a, longWindow, shortWindow, longDays, shortDays))
  }

  /** Worked example of the guard: short 50, long 5 give 9.5 instead of the
      undamped 32. */
  lemma BlendGuardExample()
    ensures RatioAboveFive(50.0, 5.0)
    ensures Blend(50.0, 5.0, RatioAboveFive(50.0, 5.0)) == 9.5
    ensures Blend(50.0, 5.0, false) == 32.0
  {
  }

  /** A zero long average with a positive short one takes the damped blend
      (the ratio is +inf); both zero blend to 0. */
  lemma ZeroLongAverage(short: real)
    ensures RatioAboveFive(short, 0.0) <==> short > 0.0
    ensures short > 0.0 ==> Blend(short, 0.0, RatioAboveFive(short, 0.0)) == 0.1 * short
    ensures Blend(0.0, 0.0, RatioAboveFive(0.0, 0.0)) == 0.0
  {
  }

  lemma {:induction false} WindowTotalNonNegative(sales: seq<SalesRecord>, window: set<int>, asin: string, m: Measure)
    requires forall i :: 0 <= i < |sales| ==> Amount(sales[i], m) >= 0.0
    ensures WindowTotal(sales, window, asin, m) >= 0.0
  {
    if sales != [] {
      WindowTotalNonNegative(sales[..|sales| - 1], window, asin, m);
    }
  }

  /** With non-negative sales and in-stock rates every column of a row is
      non-negative (and, being a real, finite). */
  lemma {:induction false} VelocityNonNegative(sales: seq<SalesRecord>, isrTable: map<string, IsrRow>, asin: string,
                                               longWindow: set<int>, shortWindow: set<int>, longDays: int, shortDays: int)
    requires longDays > 0 && shortDays > 0
    requires forall i :: 0 <= i < |sales| ==> sales[i].unitSales >= 0.0 && sales[i].dollarSales >= 0.0
    requires forall a | a in isrTable :: isrTable[a].isr >= 0.0 && isrTable[a].isrShort >= 0.0
    ensures var row := AsinVelocity(sales, isrTable, asin, longWindow, shortWindow, longDays, shortDays);
      && row.isr >= 0.0 && row.isrShort >= 0.0
      && row.avgUnitsShort >= 0.0 && row.avgUnitsLong >= 0.0 && row.avgUnits >= 0.0
      && row.avgDollarsShort >= 0.0 && row.avgDollarsLong >= 0.0 && row.avgDollars >= 0.0
  {
    var isrRow := if asin in isrTable then isrTable[asin] else IsrRow(0.0, 0.0);
    forall window, m | window in {longWindow, shortWindow}
      ensures WindowTotal(sales, window, asin, m) >= 0.0
    {
      WindowTotalNonNegative(sales, window, asin, m);
    }
    CorrectedAverageNonNegative(WindowTotal(sales, longWindow, asin, Units), longDays, isrRow.isr);
    CorrectedAverageNonNegative(WindowTotal(sales, longWindow, asin, Dollars), longDays, isrRow.isr);
    CorrectedAverageNonNegative(WindowTotal(sales, shortWindow, asin, Units), shortDays, isrRow.isrShort);
    CorrectedAverageNonNegative(WindowTotal(sales, shortWindow, asin, Dollars), shortDays, isrRow.isrShort);
  }

  lemma CorrectedAverageNonNegative(total: real, days: int, isr: real)
    requires total >= 0.0 && days > 0 && isr >= 0.0
    ensures CorrectedAverage(total, days, isr) >= 0.0
  {
    if isr != 0.0 {
      var q := total / (days as real);
      assert q >= 0.0;
      assert CorrectedAverage(total, days, isr) == q / isr;
    }
  }
}
