/** `filter_event_spreadsheet` and `calculate_event_forecast`
    (restock_utils.py:199-312): the forecast of units sold during the
    nearest promotional event, from the blended velocity and the historical
    event sheet. */
module EventForecast {
  import opened Wrappers
  import opened DateUtils

  /** `avg units` at or above which an entity counts as a strong seller. */
  const StrongVelocityThreshold: real := 3.0

  /** A spreadsheet cell: a number, a text (blank is `Text("")`), or NaN. */
  datatype Cell = Num(value: real) | Text(text: string) | Missing

  /** The full event sheet: its column names and one map per row. */
  datatype Sheet = Sheet(columns: set<string>, rows: seq<map<string, Cell>>)

  /** Every row of a data frame has a cell in every column. */
  predicate WellFormed(sheet: Sheet) {
    forall i :: 0 <= i < |sheet.rows| ==> sheet.rows[i].Keys == sheet.columns
  }

  const AsinColumn: string := "ASIN"

  function AverageColumn(e: Event): string {
    "Average " + EventName(e) + " sales, units (total)"
  }

  function BestColumn(e: Event): string {
    "Best " + EventName(e) + " performance"
  }

  /** A row of the filtered sheet: ASIN, average event total, best multiplier. */
  datatype EventSheetRow = EventSheetRow(asin: Cell, average: Cell, best: Cell)

  datatype ForecastError =
    | MissingSheetColumns      // `.loc[:, columns]` raised KeyError
    | MissingVelocityColumns   // `total_sales` lacks `asin` or `avg units`
    | DuplicateAsin            // `merge(..., validate="1:1")` raised MergeError
    | NonNumericCell           // arithmetic on a non-blank text cell raised TypeError

  function BlankToZero(c: Cell): Cell {
    if c == Text("") then Num(0.0) else c
  }

  /** `filter_event_spreadsheet(full_spreadsheet, event)`. */
  function FilterEventSpreadsheet(sheet: Sheet, e: Event): (r: Result<seq<EventSheetRow>, ForecastError>)
    requires WellFormed(sheet)
    ensures r.Failure? <==> !({AsinColumn, AverageColumn(e), BestColumn(e)} <= sheet.columns)
    ensures r.Failure? ==> r.error == MissingSheetColumns
    ensures r.Success? ==> |r.value| == |sheet.rows|
    ensures r.Success? ==> forall i :: 0 <= i < |sheet.rows| ==>
      var row := sheet.rows[i];
      && r.value[i].asin == row[AsinColumn]
      && (row[AverageColumn(e)] == Text("") ==> r.value[i].average == Num(0.0))
      && (row[AverageColumn(e)] != Text("") ==> r.value[i].average == row[AverageColumn(e)])
      && (row[BestColumn(e)] == Text("") ==> r.value[i].best == Num(0.0))
      && (row[BestColumn(e)] != Text("") ==> r.value[i].best == row[BestColumn(e)])
  {
    if !(AsinColumn in sheet.columns && AverageColumn(e) in sheet.columns && BestColumn(e) in sheet.columns) then
      Failure(MissingSheetColumns)
    else
      Success(seq(|sheet.rows|, i requires 0 <= i < |sheet.rows| =>
        EventSheetRow(sheet.rows[i][AsinColumn],
                      BlankToZero(sheet.rows[i][AverageColumn(e)]),
                      BlankToZero(sheet.rows[i][BestColumn(e)]))))
  }

  /** The velocity frame handed in: its column names and `avg units` by ASIN. */
  datatype VelocityTable = VelocityTable(columns: set<string>, avgUnits: map<string, real>)

  datatype ForecastRow = ForecastRow(average: real, best: real, forecast: real)

  /** The value of a merged cell after `fillna(0)`; none for text, which the
      arithmetic cannot use. */
  function CellValue(c: Cell): Option<real> {
    match c
    case Num(v) => Some(v)
    case Missing => Some(0.0)
    case Text(_) => None
  }

  predicate DistinctAsins(rows: seq<EventSheetRow>) {
    forall i, j :: 0 <= i < j < |rows| ==> rows[i].asin != rows[j].asin
  }

  /** The sheet row a left merge on `asin` pairs with `asin`, if any. */
  function MatchingRow(rows: seq<EventSheetRow>, asin: string): (m: Option<EventSheetRow>)
    ensures m.Some? ==> m.value in rows && m.value.asin == Text(asin)
    ensures m.None? ==> forall i :: 0 <= i < |rows| ==> rows[i].asin != Text(asin)
  {
    if rows == [] then None
    else if rows[0].asin == Text(asin) then Some(rows[0])
    else MatchingRow(rows[1..], asin)
  }

  /** The per-entity formula at restock_utils.py:288-303: half the sum of the
      historical event total and a velocity-based estimate, which is
      `avg_units * best multiplier` for strong sellers and
      `avg_units * duration * 2` otherwise. */
  function EventForecastValue(avgUnits: real, average: real, best: real, duration: int): (f: real)
    ensures avgUnits >= StrongVelocityThreshold ==> 2.0 * f - average == avgUnits * best
    ensures avgUnits < StrongVelocityThreshold ==> 2.0 * f - average == avgUnits * (duration as real) * 2.0
  {
    var strongPerformance := avgUnits * best;
    var poorPerformance := avgUnits * (duration as real) * 2.0;
    if avgUnits >= StrongVelocityThreshold then (average + strongPerformance) / 2.0
    else (average + poorPerformance) / 2.0
  }

  /** The merged cells of one ASIN as numbers: 0 for both when the ASIN is
      missing from the sheet. */
  function SheetValues(rows: seq<EventSheetRow>, asin: string): Option<(real, real)> {
    match MatchingRow(rows, asin)
    case None => Some((0.0, 0.0))
    case Some(row) =>
      if CellValue(row.average).Some? && CellValue(row.best).Some? then
        Some((CellValue(row.average).value, CellValue(row.best).value))
      else None
  }

  /** `calculate_event_forecast(total_sales, full_event_df, event)`. */
  function CalculateEventForecast(totalSales: VelocityTable, sheet: Sheet, e: Event)
    : (r: Result<map<string, ForecastRow>, ForecastError>)
    requires WellFormed(sheet)
    ensures !("asin" in totalSales.columns && "avg units" in totalSales.columns) ==> r == Failure(MissingVelocityColumns)
    ensures r.Success? ==>
      && "asin" in totalSales.columns && "avg units" in totalSales.columns
      && FilterEventSpreadsheet(sheet, e).Success?
      && DistinctAsins(FilterEventSpreadsheet(sheet, e).value)
      && r.value.Keys == totalSales.avgUnits.Keys
      && forall a | a in r.value ::
           var rows := FilterEventSpreadsheet(sheet, e).value;
           var u := totalSales.avgUnits[a];
           && (MatchingRow(rows, a).None? ==> r.value[a].average == 0.0 && r.value[a].best == 0.0)
           && (MatchingRow(rows, a).Some? ==>
                 Some(r.value[a].average) == CellValue(MatchingRow(rows, a).value.average)
                 && Some(r.value[a].best) == CellValue(MatchingRow(rows, a).value.best))
           && r.value[a].forecast == EventForecastValue(u, r.value[a].average, r.value[a].best, EventDuration(e))
    ensures r.Failure? && "asin" in totalSales.columns && "avg units" in totalSales.columns ==>
      || FilterEventSpreadsheet(sheet, e).Failure?
      || !DistinctAsins(FilterEventSpreadsheet(sheet, e).value)
      || exists a :: a in totalSales.avgUnits && SheetValues(FilterEventSpreadsheet(sheet, e).value, a).None?
  {
    if !("asin" in totalSales.columns && "avg units" in totalSales.columns) then Failure(MissingVelocityColumns)
    else
      var rows :- FilterEventSpreadsheet(sheet, e);
      var duration := EventDuration(e);
      if !DistinctAsins(rows) then Failure(DuplicateAsin)
      else if exists a :: a in totalSales.avgUnits && SheetValues(rows, a).None? then Failure(NonNumericCell)
      else
        Success(map a | a in totalSales.avgUnits ::
          var (average, best) := SheetValues(rows, a).value;
          ForecastRow(average, best, EventForecastValue(totalSales.avgUnits[a], average, best, duration)))
  }

  /** Worked example: 2 units/day, a 4-day event and a historical total of
      40 give (40 + 2 * 4 * 2) / 2 = 28. */
  lemma PoorSellerExample()
    ensures EventForecastValue(2.0, 40.0, 7.0, 4) == 28.0
  {
  }

  /** An ASIN missing from the sheet is forecast from velocity alone when
      slow (`avg_units * duration`) and at 0 when strong, since its best
      multiplier defaults to 0. */
  lemma AbsentAsinForecast(avgUnits: real, duration: int)
    ensures avgUnits < StrongVelocityThreshold ==> EventForecastValue(avgUnits, 0.0, 0.0, duration) == avgUnits * (duration as real)
    ensures avgUnits >= StrongVelocityThreshold ==> EventForecastValue(avgUnits, 0.0, 0.0, duration) == 0.0
  {
  }
}
