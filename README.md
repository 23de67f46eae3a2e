# Replenishment forecasting core, modelled in Dafny

This project models the forecasting engine of the `restock_2025` replenishment
tool: the calendar and promotional-event arithmetic of `date_utils.py` and the
tabular heuristics of `restock_utils.py`. It also states and proves the rules
those functions promise.

Modules, one concept each:

- `Wrappers`: `Option` and `Result`.
- `Calendar`: the proleptic Gregorian calendar as Python's `datetime.date`
  sees it.
  - A date is its ordinal (0001-01-01 is day 1) and `Weekday` is
    `date.weekday()`.
  - The ISO 8601 week date follows section 4.1.4 of ISO 8601:2004: week 1 is
    the week that contains 4 January. The module also holds `isocalendar()`.
- `Text`: Python string order, `sorted(set(...))`, `", ".join`, `str(int)`,
  `str.split` and `int(str)`.
- `Tables`: the inventory and sales rows.
- `DateUtils` models `get_last_non_event_days`, `get_month_day` and
  `get_event_days_delta`, with the event table.
  - The module-level clock becomes the parameters `currentYear`,
    `currentMonth` and `currentDay`.
  - The event-date registry of the `common` module becomes a parameter
    `eventDates`.
- `InStockRate`: `calculate_inventory_isr`.
- `Velocity`: `get_asin_sales`.
- `EventForecast`: `filter_event_spreadsheet` and `calculate_event_forecast`.
- `InventorySnapshot`: `calculate_amazon_inventory`, with `_fetch_unique`.
  - `today` replaces `pd.to_datetime("today")`.
  - The `showwarning` pop-ups become a returned log of `Warning` values.
- `IncomingWeeks`: `group_incoming_by_weeks`.

Where the source works by changing state step by step, the model is a method
with a loop. Each such method is either proved equal to a specification
function, with the properties proved about that function, or proved to meet a
contract that fixes its result. These methods are:

- the append loop of `get_last_non_event_days`;
- the `distances` loop and `min` of `get_event_days_delta`;
- the bounded retry of `calculate_amazon_inventory`;
- the container loops of `group_incoming_by_weeks`.

The whole-table pandas expressions are pure functions over sequences and maps.
Quantities are exact `real`s. A guarded division (`Velocity.SafeDiv`) stands
for `replace(0, np.nan)` followed by `fillna(0)`.

Behaviour kept as the code has it:

- `get_event_days_delta` places the nearest event in next year only when the
  current month is December. So from the BFCM day to the end of November it
  picks the past March's BSS and returns a negative day count.
  - `DateUtils.DaysToEventSign` proves exactly when this happens.
  - `DateUtils.BfcmDay2024IsBeforeBss` gives the 2024 instance: -254 days.
  - A past event is not moved into next year, so the day count can be
    negative.
- The dollar blend of `get_asin_sales` switches on the unit ratio.
- A zero long average with a positive short one takes the damped blend,
  because the ratio is +inf.
- `ISR` and `ISR_short` in the velocity output come only from the short-window
  frame. An ASIN without sales in the short window reports 0 for both.
- For a short average of 50 and a long one of 5 the guard applies:
  0.1·50 + 0.9·5 = 9.5, where the undamped 0.6/0.4 blend gives 32
  (`Velocity.BlendGuardExample`).

## Model

| member | source | states |
|---|---|---|
| Calendar.Weekday | date_utils.py:43 | `weekday()`, also used at line 64, is 0 (Monday) to 6 (Sunday); that whole weeks keep it is `Calendar.WeeksKeepWeekday` |
| Calendar.DaysInMonth | date_utils.py:59-63 | a month has 28 to 31 days, and fewer than 30 exactly in February |
| Calendar.DaysBeforeYearClosedForm | date_utils.py:42-47 | the year-by-year day count before a year equals the closed form `365p + p/4 - p/100 + p/400` that `date.toordinal()` uses |
| Calendar.YearLength | date_utils.py:100-107 | 1 January of the next year is the day after 31 December, which the December roll-over relies on |
| Calendar.ForwardToWeekday | date_utils.py:45-47 | stepping forward `(w - weekday) % 7` days lands on weekday `w` |
| Calendar.BackToWeekday | date_utils.py:64-66 | stepping back `(weekday - w) % 7` days lands on weekday `w` |
| Calendar.WeeksKeepWeekday | date_utils.py:51-56 | adding whole weeks keeps the weekday |
| Calendar.IsoWeekStart | restock_utils.py:404-405 | week 1 of an ISO year starts on the Monday between 29 December and 4 January |
| Calendar.IsoCalendar | restock_utils.py:404-405 | `isocalendar()` yields an ISO year of at least 1 and a week from 1 to 53; the date lies `7 * (week - 1) + weekday` days after that year's week-1 Monday |
| Calendar.IsoYearBrackets | restock_utils.py:404-405 | the chosen ISO year's week 1 starts on or before the date, and the next ISO year's week 1 starts after it |
| Calendar.IsoWeekDistance | restock_utils.py:404-405 | consecutive ISO years are 52 or 53 whole weeks apart |
| Calendar.WeekNumber | restock_utils.py:404 | counting weeks from a week-1 Monday to a day before the next ISO year gives 1 to 53 |
| Calendar.IsoYearBounds | restock_utils.py:405 | a date lies between the previous ISO year's start and the start of the ISO year after next |
| DateUtils.RangeStartIsJanuaryFirst2020 | date_utils.py:23 | the fixed start of the date range is the ordinal of 2020-01-01 |
| DateUtils.DateRange | date_utils.py:22-24 | `pd.date_range(start, end)` is ascending and holds exactly the days from start to end |
| DateUtils.PyTail | date_utils.py:26 | `s[-n:]` is a suffix: the last `n` elements for `n > 0`, the whole list for `n == 0`, and `s[-n:]` for negative `n` |
| DateUtils.WithoutEvents | date_utils.py:27-30 | the appended list holds exactly the range's dates that are not event dates |
| DateUtils.WithoutEventsIncreasing | date_utils.py:27-32 | dropping event dates keeps the list ascending, so `sorted` changes nothing |
| DateUtils.GetLastNonEventDays | date_utils.py:14-32 | the loop computes the specification `LastNonEventDays` |
| DateUtils.LastNonEventDaysShape | date_utils.py:22-32 | the result is ascending and lies within 2020-01-01..max_date; it has at most `num_days` days, and all candidates when `num_days == 0` |
| DateUtils.TailOfIncreasing | date_utils.py:26-32 | a tail of an ascending list is ascending and drawn from the list |
| DateUtils.NonEventDaysAreMostRecent | date_utils.py:27-32 | no event date is returned; every non-event day from the earliest returned date up to max_date is returned |
| DateUtils.IncludedDaysAreConsecutive | date_utils.py:25-26 | with events included the result is a run of consecutive days ending at max_date |
| DateUtils.GetMonthDay | date_utils.py:35-70 | a bad year or month, or an unknown order, is an error; otherwise the day is valid in the month and has the requested weekday; "first" to "fourth" lie in days 1-7, 8-14, 15-21 and 22-28, and "last" in the final seven days |
| DateUtils.LastDayOfMonth | date_utils.py:59-63 | the day before the 1st of the next month, or 31 December, is the month's last day |
| DateUtils.LastFridayOfNovember2024 | date_utils.py:79-83 | the last Friday of November 2024 is the 29th |
| DateUtils.BfcmDay | date_utils.py:81 | the BFCM day is a Friday between 24 and 30 November |
| DateUtils.EventDateIn | date_utils.py:75-84 | each event of the table is a valid date of the year with the table's duration |
| DateUtils.MonthDistance | date_utils.py:86-97 | the distance is 0 to 12: 0 exactly when in the event month before its day, 12 exactly when in the event month on or after it, otherwise the forward month count that wraps to the event month |
| DateUtils.FirstMinIndex | date_utils.py:99 | `min(distances, key=...)` picks a least distance, and the first one among ties |
| DateUtils.GetEventDaysDelta | date_utils.py:73-109 | the returned event has least distance, with ties going to the order BSS, PD, PBDD, BFCM; the result equals `EventDaysDelta`, the day delta to that event in this year, or next year in December, with its duration |
| DateUtils.NearestEventByMonth | date_utils.py:86-99 | the event picked on each day of the year, month by month |
| DateUtils.DaysToEventSign | date_utils.py:100-107 | the day count is never 0, and it is negative exactly from the BFCM day to 30 November |
| DateUtils.BfcmDay2024IsBeforeBss | date_utils.py:100-109 | on 2024-11-29 the result is (BSS, -254, 2) |
| Tables.MaxOf | restock_utils.py:21 | `Series.max()` is none for no rows, and otherwise a member that bounds every row |
| InStockRate.InventoryMaxDate | restock_utils.py:20-23 | a given max date is kept; otherwise it is the latest snapshot date, which some row has and no row exceeds; it is absent only with no input and no rows |
| InStockRate.ShortGroupDates | restock_utils.py:33-36 | the 14-day window's groups are among all groups up to the max date |
| InStockRate.Rate | restock_utils.py:38-52 | the mean of the in-stock flag is in [0,1] and times the group count gives the in-stock count; it is 0 exactly when no group is in stock, and 1 exactly when all are |
| InStockRate.EntityIsr | restock_utils.py:25-52 | ISR and ISR_short are the fractions of the entity's (date, entity) groups with positive summed `amz_inventory`, taken up to the max date and over dates >= max date - 13; both lie in [0,1], and 0 means no group is in stock |
| InStockRate.CalculateInventoryIsr | restock_utils.py:11-66 | there is exactly one row per entity with a snapshot up to the max date, and each row is `EntityIsr`; no rows and no max date give an empty table |
| Velocity.SafeDiv | restock_utils.py:117 | the guarded division is the quotient for a non-zero divisor and 0 otherwise |
| Velocity.SalesMaxDate | restock_utils.py:77-80 | a given max date is kept; otherwise it is the day before the latest sales date, which some row has and no row exceeds; it is absent only with no input and no sales |
| Velocity.WindowTotal | restock_utils.py:95-106 | an ASIN not sold on the window's days totals 0 |
| Velocity.SoldInWindowIff | restock_utils.py:95-106 | an ASIN is sold in a window exactly when it is among the ASINs of that window's frame |
| Velocity.CorrectedAverage | restock_utils.py:114-133 | the average times window days times ISR equals the window sum, and is 0 for a zero ISR (`Corrected`) |
| Velocity.RatioAboveFive | restock_utils.py:162-167 | `short / long > 5` under IEEE arithmetic: for a zero `long` it holds exactly when `short > 0` |
| Velocity.Blend | restock_utils.py:157-190 | either blend lies between the short and long averages |
| Velocity.AsinVelocity | restock_utils.py:95-190 | the long and short averages are the ISR-corrected window sums, 0 for a zero or missing ISR; ISR columns come from the short frame only; both blends switch on the unit ratio |
| Velocity.GetAsinSales | restock_utils.py:69-196 | it fails exactly when there is no sales max date; otherwise there is one row per ASIN sold on a long-window day, the short window is cut from the long one, and each row is `AsinVelocity` |
| Velocity.BlendGuardExample | restock_utils.py:157-173 | short 50 and long 5 trip the guard and blend to 9.5; the undamped blend would be 32 |
| Velocity.ZeroLongAverage | restock_utils.py:162-173 | a zero long average trips the guard exactly when the short one is positive; both zero blend to 0 |
| Velocity.WindowTotalNonNegative | restock_utils.py:95-106 | window sums of non-negative sales are non-negative |
| Velocity.VelocityNonNegative | restock_utils.py:114-194 | with non-negative sales and ISRs every output column is non-negative and finite |
| EventForecast.FilterEventSpreadsheet | restock_utils.py:199-249 | it fails exactly when a needed column is missing; otherwise it keeps every row, turns "" in the two event columns into 0, and leaves every other cell unchanged |
| EventForecast.MatchingRow | restock_utils.py:271-273 | a left merge pairs an ASIN with a sheet row of that ASIN, or with none when no row has it |
| EventForecast.EventForecastValue | restock_utils.py:288-303 | at 3 units/day or more the forecast is (average + avg_units * best) / 2, and below it (average + avg_units * duration * 2) / 2 |
| EventForecast.CalculateEventForecast | restock_utils.py:252-312 | a velocity table without `asin` or `avg units` is an error; on success there is one row per velocity ASIN, missing sheet values are 0, and the forecast uses the event's duration; a failure has one of the named causes |
| EventForecast.PoorSellerExample | restock_utils.py:292-299 | avg units 2, duration 4 and an event total of 40 give 28 |
| EventForecast.AbsentAsinForecast | restock_utils.py:271-303 | an ASIN missing from the sheet is forecast at avg_units * duration when slow, and at 0 when strong |
| InventorySnapshot.RowsFrom | restock_utils.py:327 | the filter keeps exactly the rows dated on or after the check date |
| InventorySnapshot.FilterPlaceholders | restock_utils.py:355-358 | exactly the values other than "nan" and "n/a" are kept |
| InventorySnapshot.UniqueValues | restock_utils.py:354-358 | `_fetch_unique` joins a strictly sorted list of exactly the distinct values other than "nan" and "n/a" |
| InventorySnapshot.FetchUnique | restock_utils.py:354-358 | a column of placeholders only gives "", and a column with a single value besides placeholders gives that value |
| InventorySnapshot.GroupRows | restock_utils.py:376-378 | a (date, entity) group holds exactly that entity's rows of that date |
| InventorySnapshot.Aggregate | restock_utils.py:360-378 | the row keeps the group's date, and has the health columns exactly when grouping by ASIN |
| InventorySnapshot.AggregateOfOneRow | restock_utils.py:360-378 | a one-row group aggregates to that row: the inventory numbers unchanged and, by ASIN, each health number unchanged and each categorical cell kept or blanked when it is "nan" or "n/a" |
| InventorySnapshot.LatestDate | restock_utils.py:380-382 | an entity's latest date is one of its dates and bounds all of them |
| InventorySnapshot.ResolveSnapshots | restock_utils.py:354-382 | there is exactly one row per entity; it comes from the entity's latest date and aggregates that (date, entity) group |
| InventorySnapshot.ResolverMaxDate | restock_utils.py:322-325 | a given max_date is kept; otherwise it is the day before `today` |
| InventorySnapshot.NoDataLogStep | restock_utils.py:333-341 | each failed attempt appends one "no data" warning for the cutoff it tried |
| InventorySnapshot.FindCutoff | restock_utils.py:326-352 | the first cutoff is max_date - 1; it steps back one day per empty result and stops at the first non-empty one, or at max_date - 11; it never widens without `show_warning`, and logs the warnings the pop-ups show |
| InventorySnapshot.CalculateAmazonInventory | restock_utils.py:315-383 | the cutoff obeys the retry rules from max_date, or from yesterday when max_date is absent; the result is `ResolveSnapshots` of the rows from that cutoff |
| Text.LexTransitive | restock_utils.py:358 | Python's string order is transitive |
| Text.LexTotal | restock_utils.py:358 | Python's string order is total |
| Text.InsertSorted | restock_utils.py:358 | inserting into a strictly sorted list keeps it strictly sorted and adds exactly the one value |
| Text.SortedDistinct | restock_utils.py:358 | `sorted(unique())` is strictly sorted and holds exactly the input's values |
| Text.NatToString | restock_utils.py:412-414 | `str(n)` is a non-empty string of digits |
| Text.ParseNatToString | restock_utils.py:420-422 | `int(str(n)) == n` |
| Text.SplitAppend | restock_utils.py:421 | splitting `a + "-" + b`, where `b` has no "-", gives the split of `a` followed by `b` |
| Text.SplitWithoutSeparator | restock_utils.py:421 | a string without the separator splits into itself |
| IncomingWeeks.WeekOf | restock_utils.py:404-405 | an ETA's ISO year is at least 1 and its week is 1 to 53 |
| IncomingWeeks.ItemSumAbsent | restock_utils.py:394-400 | a SKU without order lines in a container sums to 0 |
| IncomingWeeks.ItemTotalsMeaning | restock_utils.py:394-400 | one container's grouped table holds exactly its SKUs, each with its summed `QtyOrdered` |
| IncomingWeeks.ContainerTable | restock_utils.py:393-400 | the item loop builds that grouped table |
| IncomingWeeks.TotalAbsent | restock_utils.py:406-410 | a (week, SKU) pair without order lines totals 0 |
| IncomingWeeks.MergeSum | restock_utils.py:406-410 | summing two quantity maps gives the union of the keys, with the values added |
| IncomingWeeks.AddTableEntry | restock_utils.py:406-410 | after adding a container's table, a (week, SKU) entry is the old entry plus the table's quantity when the week is the container's ETA week |
| IncomingWeeks.AddTableNonEmpty | restock_utils.py:406-410 | the grouping never holds a week without SKUs |
| IncomingWeeks.GroupWeeksSummarises | restock_utils.py:403-410 | the grouping holds exactly the (ISO week, SKU) pairs with order lines, each with the total over all containers arriving that week |
| IncomingWeeks.ConcatAndGroup | restock_utils.py:403-410 | concatenating the tables and grouping by (year, week, SKU) gives `GroupWeeks` |
| IncomingWeeks.GroupedWeeks | restock_utils.py:406-410 | the grouped weeks are exactly the ETA weeks that have order lines |
| IncomingWeeks.GroupedEmpty | restock_utils.py:403-410 | the grouping is empty exactly when no container has an order line |
| IncomingWeeks.GroupKeys | restock_utils.py:406-417 | the grouping's weeks and SKUs are those of the order lines |
| IncomingWeeks.Label | restock_utils.py:412-414 | the sort key reads a "year-week" label back as its (year, week) |
| IncomingWeeks.SortKey | restock_utils.py:421 | a column without "-" has no numeric key (Python would raise `IndexError`) |
| IncomingWeeks.LabelInjective | restock_utils.py:412-414 | distinct weeks get distinct labels |
| IncomingWeeks.NumericKeyOrdersWeeks | restock_utils.py:419-422 | "2025-10" precedes "2025-9" as strings, but the numeric key puts "2025-9" first |
| IncomingWeeks.InsertWeek | restock_utils.py:420-422 | inserting a week keeps the list in (year, week) order and adds exactly that week |
| IncomingWeeks.SortWeeks | restock_utils.py:420-422 | the weeks come out in (year, week) order, each exactly once |
| IncomingWeeks.SortSkus | restock_utils.py:415-417 | the pivot's SKU index is strictly sorted and holds exactly the given SKUs |
| IncomingWeeks.ColumnsOfSortedWeeks | restock_utils.py:419-423 | labels of weeks in (year, week) order are ordered by the numeric sort key |
| IncomingWeeks.LabelsDistinct | restock_utils.py:412-417 | no two grouped weeks share a column label |
| IncomingWeeks.SkuCells | restock_utils.py:415-417 | a SKU's pivot row has a cell under exactly the labels of the weeks that have that SKU |
| IncomingWeeks.SkuCellEntry | restock_utils.py:415-417 | a cell exists exactly for a grouped (week, SKU) pair and holds its quantity |
| IncomingWeeks.Cells | restock_utils.py:415-417 | the pivot has a row for exactly the grouped SKUs, and each grouped (week, SKU) pair has a cell under its label holding its quantity |
| IncomingWeeks.SkuRowsHold | restock_utils.py:415-417 | the pivot's SKUs are every SKU with an order line, in ascending order |
| IncomingWeeks.CellKeysAreSkus | restock_utils.py:415-417 | the cell rows are exactly the SKUs with order lines |
| IncomingWeeks.WeekColumnsHold | restock_utils.py:415-423 | the columns are one label per week with order lines, in numeric (year, week) order |
| IncomingWeeks.CellsPresent | restock_utils.py:415-417 | a cell exists exactly for a (week, SKU) pair with order lines |
| IncomingWeeks.CellsHoldTotals | restock_utils.py:404-417 | each cell holds the SKU's total `QtyOrdered` over the containers whose ETA falls in that ISO week |
| IncomingWeeks.CellsUnderColumns | restock_utils.py:415-423 | every cell sits under one of the columns |
| IncomingWeeks.CellTotalsFromParts | restock_utils.py:415-423 | the facts about the cells together make up the pivot's cell property |
| IncomingWeeks.PivotHolds | restock_utils.py:403-423 | pivoting the grouping with sorted SKUs and weeks gives the pivot of the containers |
| IncomingWeeks.GroupIncomingByWeeks | restock_utils.py:386-424 | no containers fail like `pd.concat([])`, and containers without order lines fail for the missing `eta` column; otherwise the result is the pivot: sorted SKU rows, numerically ordered "year-week" columns, and cells holding each (ISO week, SKU) total |

## Left out

- Decimal rounding: `.round(2)` and `.round(4)` (numpy half-to-even) are float-specific, so the model keeps exact reals. At restock_utils.py:169-173 and 186-190 the source rounds only the long-term term of the damped blend; the model does not capture that. In the source an ISR below 0.005 rounds to 0 (`.round(2)`), and `get_asin_sales` then sets that ASIN's averages to 0; the model's "ISR is 0 exactly when no group is in stock" holds only because rounding is left out.
- Velocity.GetAsinSales: restock_utils.py:88 overwrites `amazon_sales["date"]` in the caller's frame, without the copy that restock_utils.py:17 makes for inventory. A second call without `sales_max_date_input` then calls `.date()` on a `datetime.date` at line 78 and fails. The model is pure and does not capture this in-place mutation.
- Floating point: sales and quantities are exact `real`s. NaN cells in sales rows are read as 0, as the source's `fillna(0)` leaves them. Division by zero appears only through `SafeDiv` and `RatioAboveFive`.
- Velocity.CorrectedAverage and Velocity.GetAsinSales: both require window lengths greater than 0. The source's defaults are 180 and 14; a zero length would make pandas divide by zero, and that float inf/NaN behaviour is not modelled.
- Pandas dtypes are not modelled. For example, the `include_events` path returns `datetime` values rather than `date` values (date_utils.py:23-26) before the `isin` at restock_utils.py:90. All dates are day ordinals.
- `datetime` rejects years above 9999. `get_event_days_delta` is not modelled for a clock in December 9999 (`ValidToday`), where the source would build a date in year 10000 and raise.
- The `common.event_dates` registry is not part of this model. Its dates are the parameter `eventDates`.
- `date_utils.py` does not define the `events` that restock_utils.py:8 imports. The event durations come from the table at date_utils.py:75-84.
- The wall clock becomes parameters: the globals at date_utils.py:7-11 and `pd.to_datetime("today")` at restock_utils.py:325.
- The `showwarning` pop-ups (restock_utils.py:335-351) are tkinter UI. The model returns the warnings they would show as a log.
- Categorical cells: a missing categorical cell is the string "nan", as `astype(str)` renders it. The health columns keep their source names but are plain strings.
- Event sheet cells are numbers, texts or missing. Numeric strings other than "" (for example "12") count as non-numeric text. The arithmetic on them fails (`NonNumericCell`), whereas pandas might coerce or concatenate them.
- IncomingWeeks: order items are records with a SKU and a `QtyOrdered`, so a NaN SKU or quantity cannot occur. Other keys of an item's dictionary are dropped, as the source's grouping drops them.
- IncomingWeeks.GroupIncomingByWeeks: a pivot cell that pandas fills with NaN is represented as an absent key of the SKU's row.
- The replenishment calculator (units to ship, the 49-day cover, boxes) exists in the source only as a docstring (main.py:51-61). With no code to model, it is not part of this model.
- db_utils.py, utils_misc.py, sales_forecast.py, main.py and test_executor.py are not part of this model. They hold BigQuery and Google Drive I/O, thread pools, Excel formatting and export, tkinter dialogs and stubs.
