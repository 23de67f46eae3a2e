/** Calendar and promotional-event arithmetic of `date_utils.py`.
    The module-level clock (`current_year`, `current_month`, `current_day`)
    and the event-date registry imported from `common` become parameters. */
module DateUtils {
  import opened Wrappers
  import opened Calendar

  /** 2020-01-01, the first day of the date range the source builds. */
  const RangeStart: int := 737425

  /** `RangeStart` is the ordinal of 2020-01-01. */
  lemma RangeStartIsJanuaryFirst2020()
    ensures RangeStart == Ordinal(2020, 1, 1)
  {
    DaysBeforeYearClosedForm(2020);
  }

  predicate Increasing(s: seq<int>) {
    forall i, j :: 0 <= i < j < |s| ==> s[i] < s[j]
  }

  /** `pd.date_range(start=lo, end=hi)`: every day from `lo` to `hi`. */
  function DateRange(lo: int, hi: int): (r: seq<int>)
    ensures Increasing(r)
    ensures forall d :: d in r <==> lo <= d <= hi
  {
    var r := seq(if hi < lo then 0 else hi - lo + 1, i => lo + i);
    assert forall d | d in r :: lo <= d <= hi;
    forall d | lo <= d <= hi ensures d in r {
      assert r[d - lo] == d;
    }
    r
  }

  /** Python's `s[-n:]`: the last `n` elements when `n > 0`, all of `s`
      when `n == 0` (because `-0 == 0`), and `s[|n|:]` when `n < 0`. */
  function PyTail<T>(s: seq<T>, n: int): (r: seq<T>)
    ensures |r| <= |s| && r == s[|s| - |r|..]
    ensures n == 0 ==> r == s
    ensures n > 0 ==> |r| == if n < |s| then n else |s|
    ensures n < 0 ==> |r| == if -n < |s| then |s| + n else 0
  {
    if n == 0 then s
    else if n > 0 then (if n < |s| then s[|s| - n..] else s)
    else (if -n < |s| then s[-n..] else [])
  }

  /** The dates of `dates`, in order, that are not event dates: the list the
      loop at date_utils.py:27-30 appends to. */
  function WithoutEvents(dates: seq<int>, eventDates: set<int>): (r: seq<int>)
    ensures forall d :: d in r <==> d in dates && d !in eventDates
  {
    if dates == [] then []
    else
      var last := dates[|dates| - 1];
      var rest := WithoutEvents(dates[..|dates| - 1], eventDates);
      if last in eventDates then rest else rest + [last]
  }

  /** Dropping event dates keeps an ascending list ascending. */
  lemma {:induction false} WithoutEventsIncreasing(dates: seq<int>, eventDates: set<int>)
    requires Increasing(dates)
    ensures Increasing(WithoutEvents(dates, eventDates))
  {
    if dates != [] {
      var last := dates[|dates| - 1];
      var init := dates[..|dates| - 1];
      var rest := WithoutEvents(init, eventDates);
      WithoutEventsIncreasing(init, eventDates);
      forall d | d in rest ensures d < last {
        var k :| 0 <= k < |init| && init[k] == d;
      }
      var t := rest + [last];
      forall i, j | 0 <= i < j < |t| ensures t[i] < t[j] {
        if j == |t| - 1 {
          assert t[i] == rest[i] && rest[i] in rest;
        } else {
          assert t[i] == rest[i] && t[j] == rest[j];
        }
      }
    }
  }

  /** The result of `get_last_non_event_days`, as a specification. */
  function LastNonEventDays(numDays: int, maxDate: int, includeEvents: bool, eventDates: set<int>): seq<int>
  {
    var fullRange := DateRange(RangeStart, maxDate);
    if includeEvents then PyTail(fullRange, numDays)
    else PyTail(WithoutEvents(fullRange, eventDates), numDays)
  }

  /** `get_last_non_event_days(num_days, max_date, include_events)`. */
  method GetLastNonEventDays(numDays: int, maxDate: int, includeEvents: bool, eventDates: set<int>)
    returns (dates: seq<int>)
    ensures dates == LastNonEventDays(numDays, maxDate, includeEvents, eventDates)
  {
    var fullRange := DateRange(RangeStart, maxDate);
    if includeEvents {
      // the list is already in ascending order, so `sorted` leaves it as it is
      return PyTail(fullRange, numDays);
    }
    var nonEventDates: seq<int> := [];
    for i := 0 to |fullRange|
      invariant nonEventDates == WithoutEvents(fullRange[..i], eventDates)
    {
      assert fullRange[..i + 1][..i] == fullRange[..i];
      assert fullRange[..i + 1][i] == fullRange[i];
      if fullRange[i] !in eventDates {
        nonEventDates := nonEventDates + [fullRange[i]];
      }
    }
    assert fullRange[..|fullRange|] == fullRange;
    dates := PyTail(nonEventDates, numDays);
  }

  /** The returned dates are ascending, lie between 2020-01-01 and
      `maxDate`, number at most `numDays` (all candidates when `numDays` is 0). */
  lemma {:induction false} LastNonEventDaysShape(numDays: int, maxDate: int, includeEvents: bool, eventDates: set<int>)
    ensures var r := LastNonEventDays(numDays, maxDate, includeEvents, eventDates);
      && Increasing(r)
      && (forall i :: 0 <= i < |r| ==> RangeStart <= r[i] <= maxDate)
      && (numDays > 0 ==> |r| <= numDays)
      && (numDays == 0 && includeEvents ==> r == DateRange(RangeStart, maxDate))
      && (numDays == 0 && !includeEvents ==> r == WithoutEvents(DateRange(RangeStart, maxDate), eventDates))
  {
    var full := DateRange(RangeStart, maxDate);
    if includeEvents {
      TailOfIncreasing(full, numDays);
    } else {
      WithoutEventsIncreasing(full, eventDates);
      TailOfIncreasing(WithoutEvents(full, eventDates), numDays);
    }
  }

  /** A Python tail of an ascending list is ascending and drawn from it. */
  lemma TailOfIncreasing(pool: seq<int>, n: int)
    requires Increasing(pool)
    ensures Increasing(PyTail(pool, n))
    ensures forall i :: 0 <= i < |PyTail(pool, n)| ==> PyTail(pool, n)[i] in pool
  {
    var r := PyTail(pool, n);
    var k := |pool| - |r|;
    forall i | 0 <= i < |r| ensures r[i] in pool {
      assert r[i] == pool[k + i];
    }
  }

  /** Without events, no event date is returned, and every non-event day from
      the earliest returned date up to `maxDate` is returned. */
  lemma {:induction false} NonEventDaysAreMostRecent(numDays: int, maxDate: int, eventDates: set<int>)
    ensures var r := LastNonEventDays(numDays, maxDate, false, eventDates);
      && (forall i :: 0 <= i < |r| ==> r[i] !in eventDates)
      && (forall d :: |r| > 0 && r[0] <= d <= maxDate && d !in eventDates ==> d in r)
  {
    var r := LastNonEventDays(numDays, maxDate, false, eventDates);
    var pool := WithoutEvents(DateRange(RangeStart, maxDate), eventDates);
    WithoutEventsIncreasing(DateRange(RangeStart, maxDate), eventDates);
    var k := |pool| - |r|;
    assert r == pool[k..];
    forall i | 0 <= i < |r| ensures r[i] !in eventDates {
      assert r[i] == pool[k + i];
      assert r[i] in pool;
    }
    forall d | |r| > 0 && r[0] <= d <= maxDate && d !in eventDates ensures d in r {
      assert r[0] == pool[k] && pool[k] in pool;
      assert d in pool;
      var j :| 0 <= j < |pool| && pool[j] == d;
      assert r[j - k] == d;
    }
  }

  /** With events included the result is a run of consecutive days ending at
      `maxDate`. */
  lemma {:induction false} IncludedDaysAreConsecutive(numDays: int, maxDate: int, eventDates: set<int>)
    ensures var r := LastNonEventDays(numDays, maxDate, true, eventDates);
      forall i :: 0 <= i < |r| ==> r[i] == maxDate - |r| + 1 + i
  {
    var r := LastNonEventDays(numDays, maxDate, true, eventDates);
    var full := DateRange(RangeStart, maxDate);
    assert r == full[|full| - |r|..];
    forall i | 0 <= i < |r| ensures r[i] == maxDate - |r| + 1 + i {
      assert r[i] == full[|full| - |r| + i];
    }
  }

  /** The `order` argument of `get_month_day`. */
  datatype WeekOrder = First | Second | Third | Fourth | Last

  function ParseWeekOrder(order: string): Option<WeekOrder> {
    if order == "first" then Some(First)
    else if order == "second" then Some(Second)
    else if order == "third" then Some(Third)
    else if order == "fourth" then Some(Fourth)
    else if order == "last" then Some(Last)
    else None
  }

  /** The `ValueError`s `get_month_day` can raise: `datetime.date` refusing
      the year or month, or an unrecognised `order`. */
  datatype DateError = InvalidDate | InvalidOrder

  /** `get_month_day(month, year, day_of_week, order)`: the day of the month
      of the first..fourth or last `day_of_week` (0 is Monday) of the month. */
  function GetMonthDay(month: int, year: int, dayOfWeek: int, order: string): (r: Result<int, DateError>)
    ensures !(MinYear <= year <= MaxYear && 1 <= month <= 12) ==> r == Failure(InvalidDate)
    ensures MinYear <= year <= MaxYear && 1 <= month <= 12 ==>
      (r.Failure? <==> ParseWeekOrder(order).None?) && (r.Failure? ==> r.error == InvalidOrder)
    ensures r.Success? ==> ValidDate(year, month, r.value)
    ensures r.Success? ==> Weekday(Ordinal(year, month, r.value)) == dayOfWeek % 7
    ensures r.Success? && order == "first" ==> 1 <= r.value <= 7
    ensures r.Success? && order == "second" ==> 8 <= r.value <= 14
    ensures r.Success? && order == "third" ==> 15 <= r.value <= 21
    ensures r.Success? && order == "fourth" ==> 22 <= r.value <= 28
    ensures r.Success? && order == "last" ==> DaysInMonth(year, month) - 7 < r.value
  {
    if !(MinYear <= year <= MaxYear && 1 <= month <= 12) then Failure(InvalidDate)
    else
      var firstDay := Ordinal(year, month, 1);
      var firstWeekday := Weekday(firstDay);
      var daysUntilTarget := (dayOfWeek - firstWeekday) % 7;
      var firstOccurrence := firstDay + daysUntilTarget;
      ForwardToWeekday(firstDay, dayOfWeek);
      match ParseWeekOrder(order)
      case None => Failure(InvalidOrder)
      case Some(o) =>
        var targetDate :=
          match o
          case First => firstOccurrence
          case Second => firstOccurrence + 7
          case Third => firstOccurrence + 7 * 2
          case Fourth => firstOccurrence + 7 * 3
          case Last =>
            var lastDay := if month < 12 then Ordinal(year, month + 1, 1) - 1 else Ordinal(year, 12, 31);
            var lastWeekday := Weekday(lastDay);
            var daysSinceTarget := (lastWeekday - dayOfWeek) % 7;
            lastDay - daysSinceTarget;
        WeeksKeepWeekday(firstOccurrence, 1);
        WeeksKeepWeekday(firstOccurrence, 2);
        WeeksKeepWeekday(firstOccurrence, 3);
        LastDayOfMonth(year, month);
        BackToWeekday(Ordinal(year, month, DaysInMonth(year, month)), dayOfWeek);
        // the target lies in the month, so its `.day` is its distance from day 1
        Success(targetDate - firstDay + 1)
  }

  /** The day before the first of the next month is the month's last day. */
  lemma LastDayOfMonth(year: int, month: int)
    requires MinYear <= year <= MaxYear && 1 <= month <= 12
    ensures (if month < 12 then Ordinal(year, month + 1, 1) - 1 else Ordinal(year, 12, 31))
      == Ordinal(year, month, DaysInMonth(year, month))
  {
    if month < 12 {
      DaysBeforeNextMonth(year, month);
    }
  }

  /** Example from the event table's comment: the last Friday of November
      2024 is the 29th. The year is a parameter pinned by `requires` rather
      than the literal 2024, so that the recursive `DaysBeforeYear` is not
      unrolled on a literal argument. */
  lemma LastFridayOfNovember2024(year: int)
    requires year == 2024
    ensures GetMonthDay(11, year, 4, "last") == Success(29)
  {
    DaysBeforeYearClosedForm(year);
    assert DaysBeforeYear(year) == 738885;
    var r := GetMonthDay(11, year, 4, "last");
    assert ParseWeekOrder("last") == Some(Last);
    var v := r.value;
    assert 23 < v <= 30;
    assert Weekday(739190 + v) == 4;
  }

  /** The promotional events, in the order of the registry at
      date_utils.py:75-84; that order breaks ties between equally near events. */
  datatype Event = BSS | PD | PBDD | BFCM

  const EventOrder: seq<Event> := [BSS, PD, PBDD, BFCM]

  function EventName(e: Event): string {
    match e
    case BSS => "BSS"
    case PD => "PD"
    case PBDD => "PBDD"
    case BFCM => "BFCM"
  }

  function EventDuration(e: Event): int {
    match e
    case BSS => 2
    case PD => 4
    case PBDD => 2
    case BFCM => 4
  }

  datatype EventDate = EventDate(month: int, day: int, duration: int)

  /** The last Friday of November of `year`, the day of BFCM. */
  function BfcmDay(year: int): (day: int)
    requires MinYear <= year <= MaxYear
    ensures 24 <= day <= 30
    ensures Weekday(Ordinal(year, 11, day)) == 4
  {
    GetMonthDay(11, year, 4, "last").value
  }

  /** The event table as built for the current year. */
  function EventDateIn(e: Event, year: int): (d: EventDate)
    requires MinYear <= year <= MaxYear
    ensures ValidDate(year, d.month, d.day) && d.duration == EventDuration(e)
  {
    match e
    case BSS => EventDate(3, 20, EventDuration(e))
    case PD => EventDate(7, 10, EventDuration(e))
    case PBDD => EventDate(10, 7, EventDuration(e))
    case BFCM => EventDate(11, BfcmDay(year), EventDuration(e))
  }

  /** The month distance computed for one event at date_utils.py:88-97. */
  function MonthDistance(currentMonth: int, currentDay: int, event: EventDate): (d: int)
    requires 1 <= currentMonth <= 12 && 1 <= event.month <= 12
    ensures 0 <= d <= 12
    ensures d == 0 <==> currentMonth == event.month && currentDay < event.day
    ensures d == 12 <==> currentMonth == event.month && currentDay >= event.day
    ensures 0 < d ==> (currentMonth - 1 + d) % 12 + 1 == event.month
  {
    if currentMonth == event.month && currentDay < event.day then 0
    else if event.month > currentMonth then event.month - currentMonth
    else (12 - currentMonth) + event.month
  }

  /** The index of the first smallest element: Python's `min` over a dict in
      insertion order keeps the first key among equal values. */
  function FirstMinIndex(ds: seq<int>): (k: nat)
    requires |ds| > 0
    ensures k < |ds|
    ensures forall j :: 0 <= j < |ds| ==> ds[k] <= ds[j]
    ensures forall j :: 0 <= j < k ==> ds[k] < ds[j]
  {
    if |ds| == 1 then 0
    else
      var k := FirstMinIndex(ds[..|ds| - 1]);
      if ds[|ds| - 1] < ds[k] then |ds| - 1 else k
  }

  /** The clock `get_event_days_delta` reads: a valid date, other than a
      December day of the last year, whose successor `datetime.date` refuses. */
  predicate ValidToday(year: int, month: int, day: int) {
    ValidDate(year, month, day) && (year < MaxYear || month < 12)
  }

  function Distances(year: int, month: int, day: int): (ds: seq<int>)
    requires ValidToday(year, month, day)
    ensures |ds| == |EventOrder|
  {
    seq(|EventOrder|, i requires 0 <= i < |EventOrder| => MonthDistance(month, day, EventDateIn(EventOrder[i], year)))
  }

  function NearestEvent(year: int, month: int, day: int): Event
    requires ValidToday(year, month, day)
  {
    EventOrder[FirstMinIndex(Distances(year, month, day))]
  }

  /** The result of `get_event_days_delta()` on the given clock:
      (nearest event, days to it, its duration). */
  function EventDaysDelta(year: int, month: int, day: int): (Event, int, int)
    requires ValidToday(year, month, day)
  {
    var e := NearestEvent(year, month, day);
    var date := EventDateIn(e, year);
    (e, Ordinal(EventYear(year, month), date.month, date.day) - Ordinal(year, month, day), date.duration)
  }

  /** The year the nearest event is placed in: the next one only in December
      (date_utils.py:102), whatever the event. */
  function EventYear(year: int, month: int): int {
    if month < 12 then year else year + 1
  }

  /** `get_event_days_delta()`: the loop fills `distances` as the source's
      dict, then `min` picks the first event of least distance. */
  method GetEventDaysDelta(currentYear: int, currentMonth: int, currentDay: int)
    returns (nearestEvent: Event, daysToEvent: int, duration: int)
    requires ValidToday(currentYear, currentMonth, currentDay)
    ensures var ds := Distances(currentYear, currentMonth, currentDay);
      exists k :: 0 <= k < |EventOrder| && EventOrder[k] == nearestEvent
        && (forall j :: 0 <= j < |EventOrder| ==> ds[k] <= ds[j])
        && (forall j :: 0 <= j < k ==> ds[k] < ds[j])
    ensures var (e, days, dur) := EventDaysDelta(currentYear, currentMonth, currentDay);
      nearestEvent == e && daysToEvent == days && duration == dur
  {
    var distances: map<Event, int> := map[];
    for i := 0 to |EventOrder|
      invariant forall j :: 0 <= j < i ==>
                  EventOrder[j] in distances && distances[EventOrder[j]] == Distances(currentYear, currentMonth, currentDay)[j]
    {
      var event := EventOrder[i];
      var date := EventDateIn(event, currentYear);
      var currentMonthEvent := currentMonth == date.month && currentDay < date.day;
      if currentMonthEvent {
        distances := distances[event := 0];
      } else if date.month > currentMonth {
        distances := distances[event := date.month - currentMonth];
      } else {
        distances := distances[event := (12 - currentMonth) + date.month];
      }
    }
    ghost var ds := Distances(currentYear, currentMonth, currentDay);
    var best := 0;
    for i := 1 to |EventOrder|
      invariant 0 <= best < i
      invariant forall j :: 0 <= j < i ==> ds[best] <= ds[j]
      invariant forall j :: 0 <= j < best ==> ds[best] < ds[j]
    {
      if distances[EventOrder[i]] < distances[EventOrder[best]] {
        best := i;
      }
    }
    assert best == FirstMinIndex(ds);
    nearestEvent := EventOrder[best];
    var date := EventDateIn(nearestEvent, currentYear);
    var eventYear := if currentMonth < 12 then currentYear else currentYear + 1;
    daysToEvent := Ordinal(eventYear, date.month, date.day) - Ordinal(currentYear, currentMonth, currentDay);
    duration := date.duration;
  }

  /** Which event `get_event_days_delta` picks, month by month. */
  lemma NearestEventByMonth(year: int, month: int, day: int)
    requires ValidToday(year, month, day)
    ensures NearestEvent(year, month, day) ==
      if month <= 2 then BSS
      else if month == 3 then (if day < 20 then BSS else PD)
      else if month <= 6 then PD
      else if month == 7 then (if day < 10 then PD else PBDD)
      else if month <= 9 then PBDD
      else if month == 10 then (if day < 7 then PBDD else BFCM)
      else if month == 11 then (if day < BfcmDay(year) then BFCM else BSS)
      else BSS
  {
    var ds := Distances(year, month, day);
    var k := FirstMinIndex(ds);
    assert ds[0] == MonthDistance(month, day, EventDate(3, 20, 2));
    assert ds[1] == MonthDistance(month, day, EventDate(7, 10, 4));
    assert ds[2] == MonthDistance(month, day, EventDate(10, 7, 2));
    assert ds[3] == MonthDistance(month, day, EventDate(11, BfcmDay(year), 4));
  }

  /** The year rolls over only in December, so from the BFCM day to the end
      of November the nearest event is the past March's BSS and the day count
      is negative; on every other day it is positive. */
  lemma {:induction false} DaysToEventSign(year: int, month: int, day: int)
    requires ValidToday(year, month, day)
    ensures var (_, days, _) := EventDaysDelta(year, month, day);
      (days < 0 <==> month == 11 && day >= BfcmDay(year))
      && (days != 0)
  {
    NearestEventByMonth(year, month, day);
    var e := NearestEvent(year, month, day);
    var date := EventDateIn(e, year);
    if month == 12 {
      YearLength(year);
      assert Ordinal(year + 1, 3, 20) > Ordinal(year + 1, 1, 1);
    } else if month == 11 && day >= BfcmDay(year) {
      DaysBeforeMonthMonotone(year, 3, 11);
    } else if date.month > month {
      DaysBeforeMonthMonotone(year, month, date.month);
    } else {
      assert date.month == month && day < date.day;
    }
  }

  /** On the BFCM day of 2024 (November 29) the nearest event is BSS of
      March 2024, 254 days earlier. The year is pinned by `requires`, as in
      `LastFridayOfNovember2024`, so that `DaysBeforeYear` is not unrolled on
      a literal argument. */
  lemma BfcmDay2024IsBeforeBss(year: int)
    requires year == 2024
    ensures EventDaysDelta(year, 11, 29) == (BSS, -254, 2)
  {
    LastFridayOfNovember2024(year);
    assert BfcmDay(year) == 29;
    NearestEventByMonth(year, 11, 29);
    assert EventDateIn(BSS, year) == EventDate(3, 20, 2);
  }
}
