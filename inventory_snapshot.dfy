/** `calculate_amazon_inventory` with `_fetch_unique`
    (restock_utils.py:315-383): the latest usable inventory snapshot per
    entity, with a bounded step back over days without data. */
module InventorySnapshot {
  import opened Wrappers
  import opened Tables
  import opened Text

  /** How many extra days the resolver may step back (`attempts <= 10`). */
  const MaxAttempts: int := 10

  /** `amazon_inventory.loc[amazon_inventory["date"] >= checkDate]`. */
  function RowsFrom(rows: seq<InventoryRecord>, checkDate: int): (r: seq<InventoryRecord>)
    ensures forall x :: x in r <==> x in rows && x.date >= checkDate
    ensures |r| > 0 <==> exists i :: 0 <= i < |rows| && rows[i].date >= checkDate
  {
    if rows == [] then []
    else
      var rest := RowsFrom(rows[..|rows| - 1], checkDate);
      var last := rows[|rows| - 1];
      assert rows == rows[..|rows| - 1] + [last];
      if last.date >= checkDate then rest + [last] else rest
  }

  /** Some row is dated on or after `checkDate`. */
  predicate HasRowsFrom(rows: seq<InventoryRecord>, checkDate: int) {
    |RowsFrom(rows, checkDate)| > 0
  }

  /** The distinct values of a categorical column, sorted, without the
      placeholders "nan" and "n/a". */
  function UniqueValues(values: seq<string>): (r: seq<string>)
    ensures StrictlySorted(r)
    ensures forall v :: v in r <==> v in values && v != "nan" && v != "n/a"
  {
    var kept := FilterPlaceholders(values);
    SortedDistinct(kept)
  }

  function FilterPlaceholders(values: seq<string>): (r: seq<string>)
    ensures forall v :: v in r <==> v in values && v != "nan" && v != "n/a"
  {
    if values == [] then []
    else
      var rest := FilterPlaceholders(values[..|values| - 1]);
      var last := values[|values| - 1];
      assert values == values[..|values| - 1] + [last];
      if last == "nan" || last == "n/a" then rest else rest + [last]
  }

  /** `_fetch_unique(x)`: those values joined by ", ". A column of
      placeholders only gives "", and a column with one distinct value
      besides the placeholders gives that value. */
  function FetchUnique(values: seq<string>): (r: string)
    ensures (forall v :: v in values ==> v == "nan" || v == "n/a") ==> r == ""
    ensures forall w | w in values && w != "nan" && w != "n/a" ::
      (forall v :: v in values && v != "nan" && v != "n/a" ==> v == w) ==> r == w
  {
    var u := UniqueValues(values);
    forall w | w in values && w != "nan" && w != "n/a" && (forall v :: v in values && v != "nan" && v != "n/a" ==> v == w)
      ensures u == [w]
    {
      assert w in u;
      assert forall i :: 0 <= i < |u| ==> u[i] == w by {
        forall i | 0 <= i < |u| ensures u[i] == w {
          assert u[i] in u;
        }
      }
      if |u| >= 2 {
        assert LexLess(u[0], u[1]);
        LexIrreflexive(w);
        assert false;
      }
      assert u == [u[0]];
    }
    assert (forall v :: v in values ==> v == "nan" || v == "n/a") ==> u == [] by {
      if |u| > 0 {
        assert u[0] in u;
      }
    }
    Join(", ", u)
  }

  /** The health columns aggregated when grouping by ASIN. */
  datatype HealthSummary = HealthSummary(
    alert: string,
    recommendedAction: string,
    healthyInventoryLevel: real,
    recommendedRemovalQuantity: real,
    estimatedExcessQuantity: real,
    fbaMinimumInventoryLevel: real,
    fbaInventoryLevelHealthStatus: string,
    storageType: string)

  /** One row of the resolver's output; `health` is present for `col_to_use="asin"`. */
  datatype InventorySummary = InventorySummary(date: int, amzInventory: real, amzAvailable: real, health: Option<HealthSummary>)

  /** The rows of the (date, entity) group. */
  function GroupRows(rows: seq<InventoryRecord>, col: KeyColumn, e: string, date: int): (g: seq<InventoryRecord>)
    ensures forall x :: x in g <==> x in rows && KeyOf(x, col) == e && x.date == date
  {
    if rows == [] then []
    else
      var rest := GroupRows(rows[..|rows| - 1], col, e, date);
      var last := rows[|rows| - 1];
      assert rows == rows[..|rows| - 1] + [last];
      if KeyOf(last, col) == e && last.date == date then rest + [last] else rest
  }

  /** The numeric columns the aggregation sums. */
  datatype Quantity =
    | AmzInventory | AmzAvailable | HealthyInventoryLevel
    | RecommendedRemovalQuantity | EstimatedExcessQuantity | FbaMinimumInventoryLevel

  function QuantityOf(x: InventoryRecord, q: Quantity): real {
    match q
    case AmzInventory => x.amzInventory
    case AmzAvailable => x.amzAvailable
    case HealthyInventoryLevel => x.healthyInventoryLevel
    case RecommendedRemovalQuantity => x.recommendedRemovalQuantity
    case EstimatedExcessQuantity => x.estimatedExcessQuantity
    case FbaMinimumInventoryLevel => x.fbaMinimumInventoryLevel
  }

  /** The categorical columns the aggregation passes to `_fetch_unique`. */
  datatype Category = Alert | RecommendedAction | FbaInventoryLevelHealthStatus | StorageType

  function CategoryOf(x: InventoryRecord, c: Category): string {
    match c
    case Alert => x.alert
    case RecommendedAction => x.recommendedAction
    case FbaInventoryLevelHealthStatus => x.fbaInventoryLevelHealthStatus
    case StorageType => x.storageType
  }

  function Sum(g: seq<InventoryRecord>, q: Quantity): real {
    if g == [] then 0.0 else Sum(g[..|g| - 1], q) + QuantityOf(g[|g| - 1], q)
  }

  /** The column `c` of the group, one value per row. */
  function Column(g: seq<InventoryRecord>, c: Category): (values: seq<string>)
    ensures forall v :: v in values <==> exists x :: x in g && CategoryOf(x, c) == v
  {
    var values := seq(|g|, i requires 0 <= i < |g| => CategoryOf(g[i], c));
    assert forall x :: x in g ==> CategoryOf(x, c) in values by {
      forall x | x in g ensures CategoryOf(x, c) in values {
        var i :| 0 <= i < |g| && g[i] == x;
        assert values[i] == CategoryOf(x, c);
      }
    }
    values
  }

  /** `groupby(["date", col_to_use]).agg(agg_dict)` for one group: the
      inventory sums, and the health columns only when grouping by ASIN. */
  function Aggregate(g: seq<InventoryRecord>, date: int, col: KeyColumn): (r: InventorySummary)
    ensures r.date == date
    ensures r.health.Some? <==> col == Asin
  {
    var health :=
      if col == Asin then
        Some(HealthSummary(
          FetchUnique(Column(g, Alert)),
          FetchUnique(Column(g, RecommendedAction)),
          Sum(g, HealthyInventoryLevel),
          Sum(g, RecommendedRemovalQuantity),
          Sum(g, EstimatedExcessQuantity),
          Sum(g, FbaMinimumInventoryLevel),
          FetchUnique(Column(g, FbaInventoryLevelHealthStatus)),
          FetchUnique(Column(g, StorageType))))
      else None;
    InventorySummary(date, Sum(g, AmzInventory), Sum(g, AmzAvailable), health)
  }

  /** A one-row group aggregates to that row: the numbers unchanged and each
      categorical cell kept, or "" for a placeholder. */
  lemma AggregateOfOneRow(x: InventoryRecord, date: int, col: KeyColumn)
    ensures var r := Aggregate([x], date, col);
      && r.amzInventory == x.amzInventory && r.amzAvailable == x.amzAvailable
      && (col == Asin ==> r.health == Some(HealthOfOneRow(x)))
  {
    SumOfOneRow(x, AmzInventory);
    SumOfOneRow(x, AmzAvailable);
    if col == Asin {
      OneRowCells(x);
    }
  }

  /** The health columns of a single row, each categorical cell kept or
      blanked when it is a placeholder. */
  function HealthOfOneRow(x: InventoryRecord): HealthSummary {
    HealthSummary(
      Blanked(x.alert), Blanked(x.recommendedAction),
      x.healthyInventoryLevel, x.recommendedRemovalQuantity,
      x.estimatedExcessQuantity, x.fbaMinimumInventoryLevel,
      Blanked(x.fbaInventoryLevelHealthStatus), Blanked(x.storageType))
  }

  lemma OneRowCells(x: InventoryRecord)
    ensures FetchUnique(Column([x], Alert)) == Blanked(x.alert)
    ensures FetchUnique(Column([x], RecommendedAction)) == Blanked(x.recommendedAction)
    ensures FetchUnique(Column([x], FbaInventoryLevelHealthStatus)) == Blanked(x.fbaInventoryLevelHealthStatus)
    ensures FetchUnique(Column([x], StorageType)) == Blanked(x.storageType)
    ensures Sum([x], HealthyInventoryLevel) == x.healthyInventoryLevel
    ensures Sum([x], RecommendedRemovalQuantity) == x.recommendedRemovalQuantity
    ensures Sum([x], EstimatedExcessQuantity) == x.estimatedExcessQuantity
    ensures Sum([x], FbaMinimumInventoryLevel) == x.fbaMinimumInventoryLevel
  {
    SumOfOneRow(x, HealthyInventoryLevel);
    SumOfOneRow(x, RecommendedRemovalQuantity);
    SumOfOneRow(x, EstimatedExcessQuantity);
    SumOfOneRow(x, FbaMinimumInventoryLevel);
    OneRowColumn(x, Alert);
    OneRowColumn(x, RecommendedAction);
    OneRowColumn(x, FbaInventoryLevelHealthStatus);
    OneRowColumn(x, StorageType);
  }

  lemma SumOfOneRow(x: InventoryRecord, q: Quantity)
    ensures Sum([x], q) == QuantityOf(x, q)
  {
    assert [x][..0] == [];
  }

  /** A placeholder becomes "", any other value stays. */
  function Blanked(v: string): string {
    if v == "nan" || v == "n/a" then "" else v
  }

  lemma OneRowColumn(x: InventoryRecord, c: Category)
    ensures FetchUnique(Column([x], c)) == Blanked(CategoryOf(x, c))
  {
    var values := Column([x], c);
    assert forall v :: v in values ==> v == CategoryOf(x, c);
    assert CategoryOf(x, c) in values;
  }

  function KeyDates(rows: seq<InventoryRecord>, col: KeyColumn, e: string): seq<int> {
    if rows == [] then []
    else
      var rest := KeyDates(rows[..|rows| - 1], col, e);
      var last := rows[|rows| - 1];
      if KeyOf(last, col) == e then rest + [last.date] else rest
  }

  lemma {:induction false} KeyDatesSpec(rows: seq<InventoryRecord>, col: KeyColumn, e: string)
    ensures forall d :: d in KeyDates(rows, col, e) <==> exists x :: x in rows && KeyOf(x, col) == e && x.date == d
  {
    if rows != [] {
      KeyDatesSpec(rows[..|rows| - 1], col, e);
      assert rows == rows[..|rows| - 1] + [rows[|rows| - 1]];
    }
  }

  /** The sort by (date, entity) descending followed by `groupby(col).agg("first")`:
      each entity's row is the aggregate of its latest date. */
  function ResolveSnapshots(rows: seq<InventoryRecord>, col: KeyColumn): (r: map<string, InventorySummary>)
    ensures forall e :: e in r <==> exists x :: x in rows && KeyOf(x, col) == e
    ensures forall e | e in r ::
      && (exists x :: x in rows && KeyOf(x, col) == e && x.date == r[e].date)
      && (forall x :: x in rows && KeyOf(x, col) == e ==> x.date <= r[e].date)
      && r[e] == Aggregate(GroupRows(rows, col, e, r[e].date), r[e].date, col)
  {
    var entities := set i | 0 <= i < |rows| :: KeyOf(rows[i], col);
    assert forall e :: e in entities <==> exists x :: x in rows && KeyOf(x, col) == e;
    map e | e in entities ::
      var latest := LatestDate(rows, col, e);
      Aggregate(GroupRows(rows, col, e, latest), latest, col)
  }

  /** The latest snapshot date of entity `e`. */
  function LatestDate(rows: seq<InventoryRecord>, col: KeyColumn, e: string): (d: int)
    requires exists x :: x in rows && KeyOf(x, col) == e
    ensures exists x :: x in rows && KeyOf(x, col) == e && x.date == d
    ensures forall x :: x in rows && KeyOf(x, col) == e ==> x.date <= d
  {
    KeyDatesSpec(rows, col, e);
    var dates := KeyDates(rows, col, e);
    var x :| x in rows && KeyOf(x, col) == e;
    assert x.date in dates;
    var m := MaxOf(dates).value;
    assert forall y :: y in rows && KeyOf(y, col) == e ==> y.date <= m by {
      forall y | y in rows && KeyOf(y, col) == e ensures y.date <= m {
        assert y.date in dates;
      }
    }
    m
  }

  /** The warnings the source shows with `showwarning`, kept as a log. */
  datatype Warning = NoInventoryData(checkDate: int) | FoundInventory(checkDate: int)

  /** One "no data" warning for each cutoff from `hi` down to `lo + 1`. */
  function NoDataLog(hi: int, lo: int): seq<Warning>
    requires lo <= hi
  {
    seq(hi - lo, k requires 0 <= k < hi - lo => NoInventoryData(hi - k))
  }

  lemma NoDataLogStep(hi: int, lo: int)
    requires lo <= hi
    ensures NoDataLog(hi, lo) + [NoInventoryData(lo)] == NoDataLog(hi, lo - 1)
  {
    var a, b := NoDataLog(hi, lo) + [NoInventoryData(lo)], NoDataLog(hi, lo - 1);
    assert |a| == |b|;
    forall k | 0 <= k < |a| ensures a[k] == b[k] {
    }
  }

  /** `max_date`, or yesterday relative to `today` (the source's wall clock). */
  function ResolverMaxDate(maxDateInput: Option<int>, today: int): (r: int)
    ensures maxDateInput.Some? ==> r == maxDateInput.value
    // without a date given, the cutoff search starts from yesterday
    ensures maxDateInput.None? ==> r + 1 == today
  {
    if maxDateInput.Some? then maxDateInput.value else today - 1
  }

  /** The retry loop of `calculate_amazon_inventory`: step the cutoff back from
      `maxDate - 1` until rows are found, for at most `MaxAttempts` extra days
      and only when `showWarning` is set. */
  method FindCutoff(rows: seq<InventoryRecord>, maxDate: int, showWarning: bool)
    returns (checkDate: int, lastInventory: seq<InventoryRecord>, warnings: seq<Warning>)
    ensures maxDate - 1 - MaxAttempts <= checkDate <= maxDate - 1 && (!showWarning ==> checkDate == maxDate - 1)
    ensures lastInventory == RowsFrom(rows, checkDate)
    ensures forall c :: checkDate < c <= maxDate - 1 ==> !HasRowsFrom(rows, c)
    ensures !HasRowsFrom(rows, checkDate) ==> checkDate == if showWarning then maxDate - 1 - MaxAttempts else maxDate - 1
    ensures warnings == NoDataLog(maxDate - 1, checkDate)
                        + (if checkDate < maxDate - 1 && HasRowsFrom(rows, checkDate) then [FoundInventory(checkDate)] else [])
  {
    checkDate := maxDate - 1;
    lastInventory := RowsFrom(rows, checkDate);
    warnings := [];
    var attempts := 1;
    while |lastInventory| == 0 && attempts <= MaxAttempts && showWarning
      invariant 1 <= attempts <= MaxAttempts + 1
      invariant checkDate == maxDate - attempts
      invariant lastInventory == RowsFrom(rows, checkDate)
      invariant attempts > 1 ==> showWarning && |lastInventory| == 0
      invariant forall c :: checkDate < c <= maxDate - 1 ==> !HasRowsFrom(rows, c)
      invariant warnings == NoDataLog(maxDate - 1, checkDate)
    {
      attempts := attempts + 1;
      NoDataLogStep(maxDate - 1, checkDate);
      warnings := warnings + [NoInventoryData(checkDate)];
      checkDate := maxDate - attempts;
      lastInventory := RowsFrom(rows, checkDate);
      if |lastInventory| > 0 {
        warnings := warnings + [FoundInventory(checkDate)];
        break;
      }
    }
  }

  /** `calculate_amazon_inventory(amazon_inventory, max_date, col_to_use,
      show_warning)`, with `today` in place of `pd.to_datetime("today")`. */
  method CalculateAmazonInventory(rows: seq<InventoryRecord>, maxDateInput: Option<int>, col: KeyColumn,
                                  showWarning: bool, today: int)
    returns (snapshots: map<string, InventorySummary>, checkDate: int, warnings: seq<Warning>)
    ensures var maxDate := ResolverMaxDate(maxDateInput, today);
      maxDate - 1 - MaxAttempts <= checkDate <= maxDate - 1 && (!showWarning ==> checkDate == maxDate - 1)
    // every cutoff tried before the final one found no rows
    ensures forall c :: checkDate < c <= ResolverMaxDate(maxDateInput, today) - 1 ==> !HasRowsFrom(rows, c)
    // it stops at the first cutoff with rows, or when the attempts run out
    ensures var maxDate := ResolverMaxDate(maxDateInput, today);
      !HasRowsFrom(rows, checkDate) ==> checkDate == if showWarning then maxDate - 1 - MaxAttempts else maxDate - 1
    ensures var maxDate := ResolverMaxDate(maxDateInput, today);
      warnings == NoDataLog(maxDate - 1, checkDate)
                  + (if checkDate < maxDate - 1 && HasRowsFrom(rows, checkDate) then [FoundInventory(checkDate)] else [])
    ensures snapshots == ResolveSnapshots(RowsFrom(rows, checkDate), col)
  {
    var maxDate := if maxDateInput.Some? then maxDateInput.value else today - 1;
    var lastInventory;
    checkDate, lastInventory, warnings := FindCutoff(rows, maxDate, showWarning);
    snapshots := ResolveSnapshots(lastInventory, col);
  }
}
