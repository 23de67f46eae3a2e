/** `group_incoming_by_weeks`: the incoming containers' order lines summed
    per SKU and per ISO week of their ETA, pivoted into one column per
    "year-week" label, with the columns in chronological order. */
module IncomingWeeks {
  import opened Wrappers
  import opened Calendar
  import opened Text

  /** A calendar date (the container's `eta`). It keeps the year, month and
      day rather than the ordinal the other modules use, because
      `Calendar.IsoCalendar` is stated on those fields. */
  datatype Date = Date(year: int, month: int, day: int)

  /** One entry of a container's `items` list. */
  datatype OrderItem = OrderItem(sku: string, qtyOrdered: real)

  /** One row of the incoming-containers frame. */
  datatype Shipment = Shipment(eta: Date, items: seq<OrderItem>)

  /** The pivot: SKU rows in ascending order, "year-week" columns in
      chronological order, and the cells that hold a quantity (a cell
      missing here is NaN in the frame). */
  datatype WeekPivot = WeekPivot(skus: seq<string>, columns: seq<string>, cells: map<string, map<string, real>>)

  datatype IncomingError =
    | NothingToConcatenate  // `pd.concat([])`: there are no containers at all
    | MissingEtaColumn      // every container has an empty item list

  predicate ValidShipments(incoming: seq<Shipment>) {
    forall k :: 0 <= k < |incoming| ==> ValidDate(incoming[k].eta.year, incoming[k].eta.month, incoming[k].eta.day)
  }

  lemma ValidPrefix(incoming: seq<Shipment>, n: nat)
    requires ValidShipments(incoming) && n <= |incoming|
    ensures ValidShipments(incoming[..n])
  {
    forall k | 0 <= k < n ensures incoming[..n][k] == incoming[k] { }
  }

  /** The ISO year and week of an ETA (`dt.isocalendar()`). */
  function WeekOf(eta: Date): (yw: YearWeek)
    requires ValidDate(eta.year, eta.month, eta.day)
    ensures yw.year >= 1 && 1 <= yw.week <= 53
  {
    IsoCalendar(eta.year, eta.month, eta.day)
  }

  // ---------------------------------------------------------------------
  // Totals of one container

  function SkusOf(items: seq<OrderItem>): set<string> {
    set it | it in items :: it.sku
  }

  /** The quantity ordered of `sku` over `items`. */
  function ItemSum(items: seq<OrderItem>, sku: string): real {
    if items == [] then 0.0
    else
      var last := items[|items| - 1];
      ItemSum(items[..|items| - 1], sku) + (if last.sku == sku then last.qtyOrdered else 0.0)
  }

  /** A SKU that does not occur contributes nothing. */
  lemma {:induction false} ItemSumAbsent(items: seq<OrderItem>, sku: string)
    requires sku !in SkusOf(items)
    ensures ItemSum(items, sku) == 0.0
  {
    if items != [] {
      var init := items[..|items| - 1];
      assert SkusOf(init) <= SkusOf(items) by {
        forall it | it in init ensures it in items { }
      }
      ItemSumAbsent(init, sku);
    }
  }

  /** `temp_df` after the item loop: the grouped `QtyOrdered` sums of one
      container, item by item. */
  function ItemTotals(items: seq<OrderItem>): map<string, real> {
    if items == [] then map[]
    else
      var t := ItemTotals(items[..|items| - 1]);
      var last := items[|items| - 1];
      t[last.sku := (if last.sku in t then t[last.sku] else 0.0) + last.qtyOrdered]
  }

  /** The grouped table holds exactly the container's SKUs, each with the
      sum of its order lines. */
  lemma {:induction false} ItemTotalsMeaning(items: seq<OrderItem>)
    ensures ItemTotals(items).Keys == SkusOf(items)
    ensures forall sku | sku in ItemTotals(items) :: ItemTotals(items)[sku] == ItemSum(items, sku)
  {
    if items != [] {
      var init := items[..|items| - 1];
      var last := items[|items| - 1];
      ItemTotalsMeaning(init);
      assert items == init + [last];
      assert SkusOf(items) == SkusOf(init) + {last.sku};
      if last.sku !in SkusOf(init) {
        ItemSumAbsent(init, last.sku);
      }
    }
  }

  // ---------------------------------------------------------------------
  // The reference definitions over all containers

  /** The (week, SKU) pairs of one container. */
  function PairsOf(s: Shipment): set<(YearWeek, string)>
    requires ValidDate(s.eta.year, s.eta.month, s.eta.day)
  {
    set sku | sku in SkusOf(s.items) :: (WeekOf(s.eta), sku)
  }

  /** The (week, SKU) pairs that have at least one order line. */
  function Present(incoming: seq<Shipment>): set<(YearWeek, string)>
    requires ValidShipments(incoming)
  {
    if incoming == [] then {}
    else Present(incoming[..|incoming| - 1]) + PairsOf(incoming[|incoming| - 1])
  }

  function Weeks(incoming: seq<Shipment>): set<YearWeek>
    requires ValidShipments(incoming)
  {
    set p | p in Present(incoming) :: p.0
  }

  function Skus(incoming: seq<Shipment>): set<string>
    requires ValidShipments(incoming)
  {
    set p | p in Present(incoming) :: p.1
  }

  /** Everything ordered of `sku` in containers arriving in ISO week `yw`. */
  function Total(incoming: seq<Shipment>, yw: YearWeek, sku: string): real
    requires ValidShipments(incoming)
  {
    if incoming == [] then 0.0
    else
      var last := incoming[|incoming| - 1];
      Total(incoming[..|incoming| - 1], yw, sku) + (if WeekOf(last.eta) == yw then ItemSum(last.items, sku) else 0.0)
  }

  /** A (week, SKU) pair without order lines totals nothing. */
  lemma {:induction false} TotalAbsent(incoming: seq<Shipment>, yw: YearWeek, sku: string)
    requires ValidShipments(incoming)
    requires (yw, sku) !in Present(incoming)
    ensures Total(incoming, yw, sku) == 0.0
  {
    if incoming != [] {
      var last := incoming[|incoming| - 1];
      ValidPrefix(incoming, |incoming| - 1);
      TotalAbsent(incoming[..|incoming| - 1], yw, sku);
      if WeekOf(last.eta) == yw {
        assert sku !in SkusOf(last.items);
        ItemSumAbsent(last.items, sku);
      }
    }
  }

  // ---------------------------------------------------------------------
  // The grouping of the concatenated tables

  /** Adds two quantity maps key by key. */
  function MergeSum(a: map<string, real>, b: map<string, real>): (r: map<string, real>)
    ensures r.Keys == a.Keys + b.Keys
    ensures forall k | k in r :: r[k] == (if k in a then a[k] else 0.0) + (if k in b then b[k] else 0.0)
  {
    map k | k in a.Keys + b.Keys :: (if k in a then a[k] else 0.0) + (if k in b then b[k] else 0.0)
  }

  /** Adds one container's table to the week -> SKU -> quantity grouping;
      an empty table has no rows and adds nothing. */
  function AddTable(g: map<YearWeek, map<string, real>>, yw: YearWeek, t: map<string, real>): map<YearWeek, map<string, real>> {
    if |t| == 0 then g
    else g[yw := MergeSum(if yw in g then g[yw] else map[], t)]
  }

  /** An entry after adding a table is the old entry plus the table's. */
  lemma AddTableEntry(g0: map<YearWeek, map<string, real>>, w: YearWeek, t: map<string, real>, yw: YearWeek, sku: string)
    ensures var g := AddTable(g0, w, t);
      (yw in g && sku in g[yw]) <==> (yw in g0 && sku in g0[yw]) || (yw == w && sku in t)
    ensures var g := AddTable(g0, w, t);
      yw in g && sku in g[yw] ==>
        g[yw][sku] == (if yw in g0 && sku in g0[yw] then g0[yw][sku] else 0.0) + (if yw == w && sku in t then t[sku] else 0.0)
  {
  }

  /** Adding a table creates no week without a SKU. */
  lemma AddTableNonEmpty(g0: map<YearWeek, map<string, real>>, w: YearWeek, t: map<string, real>)
    requires forall yw | yw in g0 :: |g0[yw]| > 0
    ensures var g := AddTable(g0, w, t); forall yw | yw in g :: |g[yw]| > 0
  {
    var g := AddTable(g0, w, t);
    if |t| > 0 {
      var m := MergeSum(if w in g0 then g0[w] else map[], t);
      var k :| k in t;
      assert k in m;
    }
  }

  /** `groupby(["year", "week", "SKU"]).agg({"QtyOrdered": "sum"})` over
      the concatenation of the containers' tables. */
  function GroupWeeks(incoming: seq<Shipment>): map<YearWeek, map<string, real>>
    requires ValidShipments(incoming)
  {
    if incoming == [] then map[]
    else
      var last := incoming[|incoming| - 1];
      AddTable(GroupWeeks(incoming[..|incoming| - 1]), WeekOf(last.eta), ItemTotals(last.items))
  }

  /** `g` holds exactly the present (week, SKU) pairs, each with its total,
      and no week without a SKU. */
  ghost predicate Summarises(g: map<YearWeek, map<string, real>>, incoming: seq<Shipment>)
    requires ValidShipments(incoming)
  {
    && (forall yw, sku :: (yw, sku) in Present(incoming) <==> yw in g && sku in g[yw])
    && (forall yw, sku | yw in g && sku in g[yw] :: g[yw][sku] == Total(incoming, yw, sku))
    && (forall yw | yw in g :: |g[yw]| > 0)
  }

  /** The grouping is the reference sum, container by container. */
  lemma {:induction false} GroupWeeksSummarises(incoming: seq<Shipment>)
    requires ValidShipments(incoming)
    ensures Summarises(GroupWeeks(incoming), incoming)
  {
    if incoming != [] {
      var init := incoming[..|incoming| - 1];
      var last := incoming[|incoming| - 1];
      ValidPrefix(incoming, |incoming| - 1);
      GroupWeeksSummarises(init);
      var g0 := GroupWeeks(init);
      var w := WeekOf(last.eta);
      var t := ItemTotals(last.items);
      ItemTotalsMeaning(last.items);
      var g := GroupWeeks(incoming);
      assert g == AddTable(g0, w, t);
      assert Present(incoming) == Present(init) + PairsOf(last);
      forall yw, sku
        ensures (yw, sku) in Present(incoming) <==> yw in g && sku in g[yw]
      {
        AddTableEntry(g0, w, t, yw, sku);
        assert (yw, sku) in PairsOf(last) <==> yw == w && sku in t;
      }
      forall yw, sku | yw in g && sku in g[yw]
        ensures g[yw][sku] == Total(incoming, yw, sku)
      {
        AddTableEntry(g0, w, t, yw, sku);
        var before := if yw in g0 && sku in g0[yw] then g0[yw][sku] else 0.0;
        var added := if yw == w && sku in t then t[sku] else 0.0;
        if !(yw in g0 && sku in g0[yw]) {
          TotalAbsent(init, yw, sku);
        }
        assert before == Total(init, yw, sku);
        if yw == w && sku !in t {
          ItemSumAbsent(last.items, sku);
        }
        assert added == (if w == yw then ItemSum(last.items, sku) else 0.0);
      }
      AddTableNonEmpty(g0, w, t);
    }
  }

  // ---------------------------------------------------------------------
  // Column labels and their sort key

  /** `str(year) + "-" + str(week)`; the sort key reads it back. */
  function Label(yw: YearWeek): (r: string)
    ensures SortKey(r) == Some(yw)
  {
    var y, k := NatToString(yw.year), NatToString(yw.week);
    SplitWithoutSeparator(y, '-');
    SplitAppend(y, '-', k);
    ParseNatToString(yw.year);
    ParseNatToString(yw.week);
    y + ['-'] + k
  }

  /** `(int(x.split("-")[0]), int(x.split("-")[1]))` on the labels `Label`
      builds. On other strings it is only an approximation of Python: it
      reads an empty part as 0 and refuses the signs and spaces `int`
      accepts. A column without "-" has no key, where `split("-")[1]`
      raises `IndexError`. */
  function SortKey(column: string): (r: Option<YearWeek>)
    ensures (forall i :: 0 <= i < |column| ==> column[i] != '-') ==> r.None?
  {
    var parts := Split(column, '-');
    assert (forall i :: 0 <= i < |column| ==> column[i] != '-') ==> parts == [column] by {
      if forall i :: 0 <= i < |column| ==> column[i] != '-' {
        SplitWithoutSeparator(column, '-');
      }
    }
    if |parts| >= 2
       && (forall i :: 0 <= i < |parts[0]| ==> IsDigit(parts[0][i]))
       && (forall i :: 0 <= i < |parts[1]| ==> IsDigit(parts[1][i]))
    then Some(YearWeek(ParseNat(parts[0]), ParseNat(parts[1])))
    else None
  }

  /** Distinct weeks get distinct labels. */
  lemma LabelInjective(a: YearWeek, b: YearWeek)
    requires Label(a) == Label(b)
    ensures a == b
  {
  }

  /** Without the numeric key, "2025-10" would sort before "2025-9". The
      weeks are parameters pinned by `requires` rather than literals, which
      keeps `NatToString` from being unrolled on literal arguments. */
  lemma NumericKeyOrdersWeeks(a: YearWeek, b: YearWeek)
    requires a == YearWeek(2025, 9) && b == YearWeek(2025, 10)
    ensures LexLess(Label(b), Label(a))
    ensures KeyBefore(Label(a), Label(b))
  {
    var prefix := NatToString(2025) + ['-'];
    assert NatToString(10) == "10" && NatToString(9) == "9";
    assert Label(b) == prefix + "10" && Label(a) == prefix + "9";
    LexCommonPrefix(prefix, "10", "9");
  }

  /** The tuple order of the sort key. */
  predicate WeekBefore(a: YearWeek, b: YearWeek) {
    a.year < b.year || (a.year == b.year && a.week < b.week)
  }

  predicate WeeksSorted(ws: seq<YearWeek>) {
    forall i, j :: 0 <= i < j < |ws| ==> WeekBefore(ws[i], ws[j])
  }

  /** Inserts a week into a chronologically sorted list, once. */
  function InsertWeek(x: YearWeek, ws: seq<YearWeek>): (r: seq<YearWeek>)
    requires WeeksSorted(ws)
    ensures WeeksSorted(r)
    ensures forall y :: y in r <==> y in ws || y == x
  {
    if ws == [] then [x]
    else if x == ws[0] then ws
    else if WeekBefore(x, ws[0]) then [x] + ws
    else
      var rest := InsertWeek(x, ws[1..]);
      assert forall y :: y in rest ==> WeekBefore(ws[0], y);
      [ws[0]] + rest
  }

  /** The pivot's columns are ordered by the numeric (year, week) key. */
  predicate ColumnsSorted(columns: seq<string>) {
    forall i, j :: 0 <= i < j < |columns| ==> KeyBefore(columns[i], columns[j])
  }

  /** Both columns parse and `a`'s key comes first. */
  predicate KeyBefore(a: string, b: string) {
    SortKey(a).Some? && SortKey(b).Some? && WeekBefore(SortKey(a).value, SortKey(b).value)
  }

  /** The "year-week" labels of a list of weeks. */
  function Columns(weeks: seq<YearWeek>): (cs: seq<string>)
    ensures |cs| == |weeks|
  {
    seq(|weeks|, i requires 0 <= i < |weeks| => Label(weeks[i]))
  }

  /** Labelling chronologically sorted weeks gives columns sorted by the
      numeric key. */
  lemma ColumnsOfSortedWeeks(weeks: seq<YearWeek>)
    requires WeeksSorted(weeks)
    ensures ColumnsSorted(Columns(weeks))
  {
    var cs := Columns(weeks);
    forall i, j | 0 <= i < j < |cs| ensures KeyBefore(cs[i], cs[j]) {
      assert cs[i] == Label(weeks[i]) && cs[j] == Label(weeks[j]);
    }
  }

  /** The SKUs of a grouping. */
  function GroupSkus(g: map<YearWeek, map<string, real>>): set<string> {
    set yw, sku | yw in g && sku in g[yw] :: sku
  }

  lemma LabelsDistinct(g: map<YearWeek, map<string, real>>)
    ensures forall a, b | a in g && b in g && Label(a) == Label(b) :: a == b
  {
    forall a, b | a in g && b in g && Label(a) == Label(b) ensures a == b {
      LabelInjective(a, b);
    }
  }

  /** One SKU's row of the pivot: its quantity under each week's label. */
  function SkuCells(g: map<YearWeek, map<string, real>>, sku: string): (row: map<string, real>)
    ensures row.Keys == set yw | yw in g && sku in g[yw] :: Label(yw)
  {
    LabelsDistinct(g);
    map yw | yw in g && sku in g[yw] :: Label(yw) := g[yw][sku]
  }

  /** A cell exists exactly for a grouped (week, SKU) pair and holds its
      quantity. */
  lemma SkuCellEntry(g: map<YearWeek, map<string, real>>, sku: string, yw: YearWeek)
    ensures Label(yw) in SkuCells(g, sku) <==> yw in g && sku in g[yw]
    ensures yw in g && sku in g[yw] ==> SkuCells(g, sku)[Label(yw)] == g[yw][sku]
  {
    LabelsDistinct(g);
    var row := SkuCells(g, sku);
    if Label(yw) in row {
      var yw' :| yw' in g && sku in g[yw'] && Label(yw') == Label(yw);
      LabelInjective(yw, yw');
    }
  }

  /** `pivot_table(index="SKU", columns="year-week", values="QtyOrdered")`
      of the grouping. */
  function Cells(g: map<YearWeek, map<string, real>>): (cells: map<string, map<string, real>>)
    ensures cells.Keys == GroupSkus(g)
    ensures forall sku, yw | sku in cells && yw in g && sku in g[yw] ::
      Label(yw) in cells[sku] && cells[sku][Label(yw)] == g[yw][sku]
  {
    var cells := map sku | sku in GroupSkus(g) :: SkuCells(g, sku);
    forall sku, yw | sku in cells && yw in g && sku in g[yw]
      ensures Label(yw) in cells[sku] && cells[sku][Label(yw)] == g[yw][sku]
    {
      SkuCellEntry(g, sku, yw);
    }
    cells
  }

  /** The grouping's weeks and SKUs are the reference ones. */
  lemma GroupKeys(g: map<YearWeek, map<string, real>>, incoming: seq<Shipment>)
    requires ValidShipments(incoming) && Summarises(g, incoming)
    ensures g.Keys == Weeks(incoming)
    ensures GroupSkus(g) == Skus(incoming)
  {
    forall yw | yw in g ensures yw in Weeks(incoming) {
      var sku :| sku in g[yw];
      assert (yw, sku) in Present(incoming);
    }
    forall yw | yw in Weeks(incoming) ensures yw in g {
      var p :| p in Present(incoming) && p.0 == yw;
      assert p == (p.0, p.1);
    }
    forall sku | sku in Skus(incoming) ensures sku in GroupSkus(g) {
      var p :| p in Present(incoming) && p.1 == sku;
      assert p == (p.0, p.1);
    }
    forall sku | sku in GroupSkus(g) ensures sku in Skus(incoming) {
      var yw :| yw in g && sku in g[yw];
      assert (yw, sku) in Present(incoming);
    }
  }

  /** The SKU rows: every SKU with an order line, in ascending order. */
  ghost predicate SkuRows(p: WeekPivot, incoming: seq<Shipment>)
    requires ValidShipments(incoming)
  {
    StrictlySorted(p.skus) && forall sku :: sku in p.skus <==> sku in Skus(incoming)
  }

  /** The columns: one label per week with an order line, sorted by the
      numeric (year, week) key. */
  ghost predicate WeekColumns(p: WeekPivot, incoming: seq<Shipment>)
    requires ValidShipments(incoming)
  {
    && ColumnsSorted(p.columns)
    && forall c :: c in p.columns <==> exists yw :: yw in Weeks(incoming) && c == Label(yw)
  }

  /** The cells: exactly the present (week, SKU) pairs, each holding its
      total, each under one of the columns. */
  ghost predicate CellTotals(p: WeekPivot, incoming: seq<Shipment>)
    requires ValidShipments(incoming)
  {
    && p.cells.Keys == Skus(incoming)
    && (forall sku, yw | sku in p.cells :: Label(yw) in p.cells[sku] <==> (yw, sku) in Present(incoming))
    && (forall sku, yw | (yw, sku) in Present(incoming) ::
          sku in p.cells && Label(yw) in p.cells[sku] && p.cells[sku][Label(yw)] == Total(incoming, yw, sku))
    && (forall sku, c | sku in p.cells && c in p.cells[sku] :: c in p.columns)
  }

  /** `p` is the pivot of `incoming`. */
  ghost predicate PivotOf(p: WeekPivot, incoming: seq<Shipment>)
    requires ValidShipments(incoming)
  {
    SkuRows(p, incoming) && WeekColumns(p, incoming) && CellTotals(p, incoming)
  }

  lemma GroupedWeeks(incoming: seq<Shipment>, g: map<YearWeek, map<string, real>>)
    requires ValidShipments(incoming) && g == GroupWeeks(incoming)
    ensures g.Keys == Weeks(incoming)
  {
    GroupWeeksSummarises(incoming);
    GroupKeys(g, incoming);
  }

  /** The grouping is empty exactly when no container has an order line. */
  lemma GroupedEmpty(incoming: seq<Shipment>, g: map<YearWeek, map<string, real>>)
    requires ValidShipments(incoming) && g == GroupWeeks(incoming)
    ensures |g| == 0 <==> Present(incoming) == {}
  {
    GroupWeeksSummarises(incoming);
    if |g| > 0 {
      var yw :| yw in g;
      var sku :| sku in g[yw];
      assert (yw, sku) in Present(incoming);
    }
    if Present(incoming) != {} {
      var p :| p in Present(incoming);
      assert p == (p.0, p.1);
      assert p.0 in g;
    }
  }

  lemma SkuRowsHold(incoming: seq<Shipment>, g: map<YearWeek, map<string, real>>, p: WeekPivot)
    requires ValidShipments(incoming) && g == GroupWeeks(incoming)
    requires StrictlySorted(p.skus) && (forall sku :: sku in p.skus <==> sku in GroupSkus(g))
    ensures SkuRows(p, incoming)
  {
    GroupWeeksSummarises(incoming);
    GroupKeys(g, incoming);
  }

  lemma CellKeysAreSkus(incoming: seq<Shipment>, g: map<YearWeek, map<string, real>>, p: WeekPivot)
    requires ValidShipments(incoming) && g == GroupWeeks(incoming) && p.cells == Cells(g)
    ensures p.cells.Keys == Skus(incoming)
  {
    GroupWeeksSummarises(incoming);
    GroupKeys(g, incoming);
  }

  lemma WeekColumnsHold(incoming: seq<Shipment>, g: map<YearWeek, map<string, real>>, weeks: seq<YearWeek>, p: WeekPivot)
    requires ValidShipments(incoming) && g == GroupWeeks(incoming)
    requires WeeksSorted(weeks) && (forall yw :: yw in weeks <==> yw in g)
    requires p.columns == Columns(weeks)
    ensures WeekColumns(p, incoming)
  {
    GroupedWeeks(incoming, g);
    ColumnsOfSortedWeeks(weeks);
    forall c ensures c in p.columns <==> exists yw :: yw in Weeks(incoming) && c == Label(yw) {
      if c in p.columns {
        var i :| 0 <= i < |p.columns| && p.columns[i] == c;
        assert weeks[i] in Weeks(incoming);
      }
      if exists yw :: yw in Weeks(incoming) && c == Label(yw) {
        var yw :| yw in Weeks(incoming) && c == Label(yw);
        var i :| 0 <= i < |weeks| && weeks[i] == yw;
        assert p.columns[i] == c;
      }
    }
  }

  lemma CellsPresent(incoming: seq<Shipment>, g: map<YearWeek, map<string, real>>, p: WeekPivot)
    requires ValidShipments(incoming) && g == GroupWeeks(incoming) && p.cells == Cells(g)
    ensures forall sku, yw | sku in p.cells :: Label(yw) in p.cells[sku] <==> (yw, sku) in Present(incoming)
  {
    GroupWeeksSummarises(incoming);
    forall sku, yw | sku in p.cells
      ensures Label(yw) in p.cells[sku] <==> (yw, sku) in Present(incoming)
    {
      SkuCellEntry(g, sku, yw);
    }
  }

  lemma CellsHoldTotals(incoming: seq<Shipment>, g: map<YearWeek, map<string, real>>, p: WeekPivot)
    requires ValidShipments(incoming) && g == GroupWeeks(incoming) && p.cells == Cells(g)
    ensures forall sku, yw | (yw, sku) in Present(incoming) ::
      sku in p.cells && Label(yw) in p.cells[sku] && p.cells[sku][Label(yw)] == Total(incoming, yw, sku)
  {
    GroupWeeksSummarises(incoming);
    forall sku, yw | (yw, sku) in Present(incoming)
      ensures sku in p.cells && Label(yw) in p.cells[sku] && p.cells[sku][Label(yw)] == Total(incoming, yw, sku)
    {
      assert sku in GroupSkus(g);
      SkuCellEntry(g, sku, yw);
    }
  }

  lemma CellsUnderColumns(g: map<YearWeek, map<string, real>>, weeks: seq<YearWeek>, p: WeekPivot)
    requires forall yw :: yw in weeks <==> yw in g
    requires p.cells == Cells(g) && p.columns == Columns(weeks)
    ensures forall sku, c | sku in p.cells && c in p.cells[sku] :: c in p.columns
  {
    forall sku, c | sku in p.cells && c in p.cells[sku] ensures c in p.columns {
      assert c in SkuCells(g, sku).Keys;
      var yw :| yw in g && sku in g[yw] && c == Label(yw);
      var i :| 0 <= i < |weeks| && weeks[i] == yw;
      assert p.columns[i] == c;
    }
  }

  /** The four facts about the cells make up `CellTotals`. */
  lemma CellTotalsFromParts(incoming: seq<Shipment>, p: WeekPivot)
    requires ValidShipments(incoming)
    requires p.cells.Keys == Skus(incoming)
    requires forall sku, yw | sku in p.cells :: Label(yw) in p.cells[sku] <==> (yw, sku) in Present(incoming)
    requires forall sku, yw | (yw, sku) in Present(incoming) ::
      sku in p.cells && Label(yw) in p.cells[sku] && p.cells[sku][Label(yw)] == Total(incoming, yw, sku)
    requires forall sku, c | sku in p.cells && c in p.cells[sku] :: c in p.columns
    ensures CellTotals(p, incoming)
  {
  }

  /** Pivoting the grouping of `incoming` with sorted SKUs and weeks gives
      the pivot of `incoming`. */
  lemma PivotHolds(incoming: seq<Shipment>, g: map<YearWeek, map<string, real>>, skus: seq<string>, weeks: seq<YearWeek>)
    requires ValidShipments(incoming) && g == GroupWeeks(incoming)
    requires StrictlySorted(skus) && (forall sku :: sku in skus <==> sku in GroupSkus(g))
    requires WeeksSorted(weeks) && (forall yw :: yw in weeks <==> yw in g)
    ensures PivotOf(WeekPivot(skus, Columns(weeks), Cells(g)), incoming)
  {
    var p := WeekPivot(skus, Columns(weeks), Cells(g));
    SkuRowsHold(incoming, g, p);
    WeekColumnsHold(incoming, g, weeks, p);
    CellKeysAreSkus(incoming, g, p);
    CellsPresent(incoming, g, p);
    CellsHoldTotals(incoming, g, p);
    CellsUnderColumns(g, weeks, p);
    CellTotalsFromParts(incoming, p);
  }

  // ---------------------------------------------------------------------
  // The operation

  /** The inner loop over one container's items: `temp_df`, regrouped by
      SKU after every item. */
  method ContainerTable(items: seq<OrderItem>) returns (temp: map<string, real>)
    ensures temp.Keys == SkusOf(items)
    ensures forall sku | sku in temp :: temp[sku] == ItemSum(items, sku)
    ensures temp == ItemTotals(items)
  {
    temp := map[];
    for j := 0 to |items|
      invariant temp == ItemTotals(items[..j])
    {
      var item := items[j];
      assert items[..j + 1][..j] == items[..j];
      temp := temp[item.sku := (if item.sku in temp then temp[item.sku] else 0.0) + item.qtyOrdered];
    }
    assert items[..|items|] == items;
    ItemTotalsMeaning(items);
  }

  /** `pd.concat(tables_list)` followed by the ISO week columns and the
      `groupby(["year", "week", "SKU"])` sum, one container's table at a
      time. */
  method ConcatAndGroup(incoming: seq<Shipment>, tablesList: seq<map<string, real>>)
    returns (grouped: map<YearWeek, map<string, real>>)
    requires ValidShipments(incoming) && |tablesList| == |incoming|
    requires forall k :: 0 <= k < |incoming| ==> tablesList[k] == ItemTotals(incoming[k].items)
    ensures grouped == GroupWeeks(incoming)
  {
    grouped := map[];
    for i := 0 to |tablesList|
      invariant ValidShipments(incoming[..i])
      invariant grouped == GroupWeeks(incoming[..i])
    {
      assert incoming[..i + 1][..i] == incoming[..i];
      ValidPrefix(incoming, i + 1);
      grouped := AddTable(grouped, WeekOf(incoming[i].eta), tablesList[i]);
    }
    assert incoming[..|tablesList|] == incoming;
  }

  method GroupIncomingByWeeks(incoming: seq<Shipment>) returns (r: Result<WeekPivot, IncomingError>)
    requires ValidShipments(incoming)
    ensures incoming == [] ==> r == Failure(NothingToConcatenate)
    ensures incoming != [] && Present(incoming) == {} ==> r == Failure(MissingEtaColumn)
    ensures r.Success? <==> Present(incoming) != {}
    ensures r.Success? ==> PivotOf(r.value, incoming)
  {
    // One grouped table per container.
    var tablesList: seq<map<string, real>> := [];
    for i := 0 to |incoming|
      invariant |tablesList| == i
      invariant forall k :: 0 <= k < i ==> tablesList[k] == ItemTotals(incoming[k].items)
    {
      var temp := ContainerTable(incoming[i].items);
      tablesList := tablesList + [temp];
    }
    if |tablesList| == 0 {
      return Failure(NothingToConcatenate);
    }

    var grouped := ConcatAndGroup(incoming, tablesList);
    GroupedEmpty(incoming, grouped);
    if |grouped| == 0 {
      return Failure(MissingEtaColumn);
    }

    // Pivot: SKU rows, "year-week" columns in (year, week) order.
    var skus := SortSkus(GroupSkus(grouped));
    var weeks := SortWeeks(grouped.Keys);
    PivotHolds(incoming, grouped, skus, weeks);
    return Success(WeekPivot(skus, Columns(weeks), Cells(grouped)));
  }

  /** The pivot's sorted SKU index. The grouped SKUs form a set rather than
      a list, so they are enumerated here and inserted one at a time with
      `Text.InsertSorted`, the insertion `Text.SortedDistinct` also uses. */
  method SortSkus(s: set<string>) returns (r: seq<string>)
    ensures StrictlySorted(r)
    ensures forall sku :: sku in r <==> sku in s
  {
    r := [];
    var remaining := s;
    while remaining != {}
      invariant StrictlySorted(r)
      invariant remaining <= s
      invariant forall sku :: sku in r <==> sku in s && sku !in remaining
      decreases |remaining|
    {
      var x :| x in remaining;
      r := InsertSorted(x, r);
      remaining := remaining - {x};
    }
  }

  /** The weeks of a finite set in chronological order. */
  method SortWeeks(s: set<YearWeek>) returns (r: seq<YearWeek>)
    ensures WeeksSorted(r)
    ensures forall yw :: yw in r <==> yw in s
  {
    r := [];
    var remaining := s;
    while remaining != {}
      invariant WeeksSorted(r)
      invariant remaining <= s
      invariant forall yw :: yw in r <==> yw in s && yw !in remaining
      decreases |remaining|
    {
      var x :| x in remaining;
      r := InsertWeek(x, r);
      remaining := remaining - {x};
    }
  }
}
