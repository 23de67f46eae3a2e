/** The rows of the data frames the forecasting core consumes. Dates are day
    ordinals (see module Calendar); money and quantities are exact reals. */
module Tables {
  import opened Wrappers

  /** The identifier column a frame is grouped by (`col_to_use`). */
  datatype KeyColumn = Asin | Sku

  /** One marketplace inventory snapshot row. A missing categorical cell is
      the string "nan", as `astype(str)` renders it. */
  datatype InventoryRecord = InventoryRecord(
    date: int,
    asin: string,
    sku: string,
    amzInventory: real,
    amzAvailable: real,
    alert: string,
    recommendedAction: string,
    healthyInventoryLevel: real,
    recommendedRemovalQuantity: real,
    estimatedExcessQuantity: real,
    fbaMinimumInventoryLevel: real,
    fbaInventoryLevelHealthStatus: string,
    storageType: string)

  function KeyOf(r: InventoryRecord, col: KeyColumn): string {
    match col
    case Asin => r.asin
    case Sku => r.sku
  }

  /** One marketplace sales row. */
  datatype SalesRecord = SalesRecord(date: int, asin: string, unitSales: real, dollarSales: real)

  /** `Series.max()` of a date column: nothing for an empty column. */
  function MaxOf(dates: seq<int>): (m: Option<int>)
    ensures m.None? <==> dates == []
    ensures m.Some? ==> m.value in dates && forall i :: 0 <= i < |dates| ==> dates[i] <= m.value
  {
    if dates == [] then None
    else
      var rest := MaxOf(dates[..|dates| - 1]);
      var last := dates[|dates| - 1];
      if rest.None? || rest.value < last then Some(last) else rest
  }
}
