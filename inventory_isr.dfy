/** `calculate_inventory_isr` (restock_utils.py:11-66): the in-stock rate of
    every entity, over all snapshots up to the max date and over the 14 days
    ending at it. */
module InStockRate {
  import opened Wrappers
  import opened Tables

  /** Length of the trailing short window: dates >= max date - 13. */
  const ShortWindowDays: int := 14

  datatype IsrRow = IsrRow(isr: real, isrShort: real)

  /** Summed `amz_inventory` of the (date, entity) group. */
  function GroupInventory(rows: seq<InventoryRecord>, col: KeyColumn, e: string, date: int): real {
    if rows == [] then 0.0
    else
      var last := rows[|rows| - 1];
      GroupInventory(rows[..|rows| - 1], col, e, date)
        + (if KeyOf(last, col) == e && last.date == date then last.amzInventory else 0.0)
  }

  /** The dates of the entity's (date, entity) groups up to `maxDate`. */
  function GroupDates(rows: seq<InventoryRecord>, col: KeyColumn, e: string, maxDate: int): set<int> {
    set i | 0 <= i < |rows| && KeyOf(rows[i], col) == e && rows[i].date <= maxDate :: rows[i].date
  }

  /** Those of them that also lie in the trailing 14-day window. */
  function ShortGroupDates(rows: seq<InventoryRecord>, col: KeyColumn, e: string, maxDate: int): (s: set<int>)
    ensures s <= GroupDates(rows, col, e, maxDate)
  {
    set d | d in GroupDates(rows, col, e, maxDate) && d >= maxDate - (ShortWindowDays - 1)
  }

  /** The dates among `dates` whose group holds positive inventory. */
  function InStockDates(rows: seq<InventoryRecord>, col: KeyColumn, e: string, dates: set<int>): (s: set<int>)
    ensures s <= dates
  {
    set d | d in dates && GroupInventory(rows, col, e, d) > 0.0
  }

  /** `r` is the fraction `part / whole`: times `whole` it gives `part`. */
  predicate Fraction(r: real, part: nat, whole: nat) {
    r * (whole as real) == part as real
  }

  /** The mean of the boolean in-stock flag over `dates`; 0 for no dates,
      as the outer merge's `fillna(0)` gives an entity absent from a window. */
  function Rate(inStock: set<int>, dates: set<int>): (r: real)
    requires inStock <= dates
    ensures 0.0 <= r <= 1.0
    ensures Fraction(r, |inStock|, |dates|)
    ensures r == 0.0 <==> inStock == {}
    ensures r == 1.0 <==> inStock == dates && dates != {}
  {
    SubsetCardinality(inStock, dates);
    if |dates| == 0 then 0.0 else (|inStock| as real) / (|dates| as real)
  }

  lemma {:induction false} SubsetCardinality<T>(a: set<T>, b: set<T>)
    requires a <= b
    ensures |a| <= |b|
    ensures |a| == |b| ==> a == b
  {
    if a != {} {
      var x :| x in a;
      SubsetCardinality(a - {x}, b - {x});
    } else if b != {} {
      var y :| y in b;
      assert |b| >= 1;
    }
  }

  /** The date `inv_max_date_input` names, or else the latest snapshot date. */
  function InventoryMaxDate(rows: seq<InventoryRecord>, maxDateInput: Option<int>): (r: Option<int>)
    ensures maxDateInput.Some? ==> r == maxDateInput
    ensures r.None? <==> maxDateInput.None? && rows == []
    ensures maxDateInput.None? && rows != [] ==>
      && (exists i :: 0 <= i < |rows| && rows[i].date == r.value)
      && (forall i :: 0 <= i < |rows| ==> rows[i].date <= r.value)
  {
    if maxDateInput.Some? then maxDateInput
    else
      var dates := seq(|rows|, i requires 0 <= i < |rows| => rows[i].date);
      assert forall i :: 0 <= i < |rows| ==> dates[i] == rows[i].date;
      MaxOf(dates)
  }

  /** The in-stock rates of one entity: the fraction of its (date, entity)
      groups up to `maxDate`, and of those in the trailing 14 days, whose
      summed `amz_inventory` is positive. */
  function EntityIsr(rows: seq<InventoryRecord>, col: KeyColumn, e: string, maxDate: int): (row: IsrRow)
    ensures var all := GroupDates(rows, col, e, maxDate);
      var short := ShortGroupDates(rows, col, e, maxDate);
      && 0.0 <= row.isr <= 1.0 && 0.0 <= row.isrShort <= 1.0
      && Fraction(row.isr, |InStockDates(rows, col, e, all)|, |all|)
      && Fraction(row.isrShort, |InStockDates(rows, col, e, short)|, |short|)
      && (row.isr == 0.0 <==> forall d :: d in all ==> GroupInventory(rows, col, e, d) <= 0.0)
      && (row.isrShort == 0.0 <==> forall d :: d in short ==> GroupInventory(rows, col, e, d) <= 0.0)
      && (row.isr == 1.0 <==> all != {} && forall d :: d in all ==> GroupInventory(rows, col, e, d) > 0.0)
  {
    var all := GroupDates(rows, col, e, maxDate);
    var short := ShortGroupDates(rows, col, e, maxDate);
    var inStock := InStockDates(rows, col, e, all);
    var inStockShort := InStockDates(rows, col, e, short);
    var row := IsrRow(Rate(inStock, all), Rate(inStockShort, short));
    assert forall d :: d in inStock <==> d in all && GroupInventory(rows, col, e, d) > 0.0;
    assert forall d :: d in inStockShort <==> d in short && GroupInventory(rows, col, e, d) > 0.0;
    assert row.isr == 1.0 <==> all != {} && forall d :: d in all ==> GroupInventory(rows, col, e, d) > 0.0 by {
      if all != {} && forall d :: d in all ==> GroupInventory(rows, col, e, d) > 0.0 {
        assert inStock == all;
      }
    }
    row
  }

  /** `calculate_inventory_isr(amazon_inventory, inv_max_date_input, col_to_use)`:
      exactly one row per entity that has a snapshot up to the max date. */
  function CalculateInventoryIsr(rows: seq<InventoryRecord>, maxDateInput: Option<int>, col: KeyColumn)
    : (r: map<string, IsrRow>)
    ensures InventoryMaxDate(rows, maxDateInput).None? ==> r == map[]
    ensures InventoryMaxDate(rows, maxDateInput).Some? ==>
      var maxDate := InventoryMaxDate(rows, maxDateInput).value;
      && (forall e :: e in r <==> exists i :: 0 <= i < |rows| && KeyOf(rows[i], col) == e && rows[i].date <= maxDate)
      && (forall e | e in r :: r[e] == EntityIsr(rows, col, e, maxDate))
  {
    match InventoryMaxDate(rows, maxDateInput)
    case None => map[]
    case Some(maxDate) =>
      var entities := set i | 0 <= i < |rows| && rows[i].date <= maxDate :: KeyOf(rows[i], col);
      map e | e in entities :: EntityIsr(rows, col, e, maxDate)
  }
}
