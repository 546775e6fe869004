/**
 * The two dashboard charts. Each turns the first record of its response into
 * chart rows under a fixed header: the sales chart keeps only the stages with
 * a positive count, the customer chart keeps every grade. A chart with
 * nothing under its header shows the no-data message, and the data table
 * under the chart repeats the rows without the header.
 */
module Dashboard {
  import opened JsValues
  import Seqs
  import Requests

  /** A chart row: the header, or a name with its count as `Number` reads it
      (`None` for `NaN`). */
  datatype ChartRow = Header(first: string, second: string) | DataRow(name: Value, count: Option<int>)

  const SalesHeader: ChartRow := Header("영업 단계", "건수")

  const CustomerHeader: ChartRow := Header("고객 등급", "고객 수")

  /** `response.data[0]?.data || []`: only an array body has a first record;
      an object body, unlike in the list widgets, gives nothing. Indexing a
      `null` body throws, and the widget shows its error message instead
      (`None`). */
  function ChartItems(p: Requests.Payload): (items: Option<seq<Row>>)
    ensures items.None? <==> p.NullBody?
    ensures !p.List? && !p.NullBody? ==> items == Some([])
    ensures p.List? && p.items != [] && p.items[0].Record? && p.items[0].data.Some? ==> items == Some(p.items[0].data.value)
    ensures p.List? && (p.items == [] || !p.items[0].Record? || p.items[0].data.None?) ==> items == Some([])
  {
    if p.NullBody? then None
    else if p.List? && p.items != [] && p.items[0].Record? then Some(p.items[0].data.GetOr([]))
    else Some([])
  }

  /** An object body that a list widget reads rows from gives no chart rows. */
  lemma ObjectBodyHasNoItems(data: seq<Row>, total: Value)
    ensures Requests.NormalizeResponse(Requests.Record(Some(data), total)).0 == data
    ensures ChartItems(Requests.Record(Some(data), total)) == Some([])
  {
  }

  /** On an array body the charts read the same rows as the list widgets; a
      `null` body, which the list widgets read as no rows, fails the charts. */
  lemma ArrayBodySameRows(p: Requests.Payload)
    ensures p.List? ==> ChartItems(p) == Some(Requests.NormalizeResponse(p).0)
    ensures p.NullBody? ==> ChartItems(p).None? && Requests.NormalizeResponse(p).0 == []
  {
  }

  // ---------------------------------------------------------------------------
  // Sales stages
  // ---------------------------------------------------------------------------

  function SalesRow(item: Row, toNumber: Value -> Option<int>): ChartRow {
    DataRow(Get(item, "SALESTATE_NM"), toNumber(Get(item, "PRIORITY6M")))
  }

  predicate Positive(count: Option<int>) {
    count.Some? && count.value > 0
  }

  /** `Number(item.PRIORITY6M) > 0`. */
  function SalesKept(toNumber: Value -> Option<int>): Row -> bool {
    (item: Row) => Positive(toNumber(Get(item, "PRIORITY6M")))
  }

  function SalesRows(items: seq<Row>, toNumber: Value -> Option<int>): (rows: seq<ChartRow>)
    ensures |rows| == |items|
    ensures forall i :: 0 <= i < |items| ==> rows[i] == SalesRow(items[i], toNumber)
  {
    seq(|items|, i requires 0 <= i < |items| => SalesRow(items[i], toNumber))
  }

  /** The sales chart: the header, then one row per item with a positive
      count, in input order. */
  function SalesChart(items: seq<Row>, toNumber: Value -> Option<int>): seq<ChartRow> {
    [SalesHeader] + SalesRows(Seqs.Filter(SalesKept(toNumber), items), toNumber)
  }

  /** The `forEach` that pushes a row for each item with a positive count. */
  method BuildSalesChart(items: seq<Row>, toNumber: Value -> Option<int>) returns (chart: seq<ChartRow>)
    ensures chart == SalesChart(items, toNumber)
  {
    var kept := SalesKept(toNumber);
    chart := [SalesHeader];
    var i := 0;
    while i < |items|
      invariant 0 <= i <= |items|
      invariant chart == [SalesHeader] + SalesRows(Seqs.Filter(kept, items[..i]), toNumber)
    {
      Seqs.FilterSnoc(kept, items[..i], items[i]);
      assert items[..i + 1] == items[..i] + [items[i]];
      if Positive(toNumber(Get(items[i], "PRIORITY6M"))) {
        var before := Seqs.Filter(kept, items[..i]);
        assert SalesRows(before + [items[i]], toNumber) == SalesRows(before, toNumber) + [SalesRow(items[i], toNumber)];
        chart := chart + [SalesRow(items[i], toNumber)];
      }
      i := i + 1;
    }
    assert items[..|items|] == items;
  }

  /** Every row under the header has a positive count, and an item gets a row
      exactly when its count is positive. */
  lemma SalesChartContents(items: seq<Row>, toNumber: Value -> Option<int>, item: Row)
    ensures SalesChart(items, toNumber)[0] == SalesHeader
    ensures forall i :: 1 <= i < |SalesChart(items, toNumber)| ==>
      SalesChart(items, toNumber)[i].DataRow? && Positive(SalesChart(items, toNumber)[i].count)
    ensures item in items && Positive(toNumber(Get(item, "PRIORITY6M"))) ==> SalesRow(item, toNumber) in SalesChart(items, toNumber)
    ensures |SalesChart(items, toNumber)| <= |items| + 1
  {
    var kept := Seqs.Filter(SalesKept(toNumber), items);
    Seqs.FilterMembership(SalesKept(toNumber), items, item);
    if item in kept {
      var j :| 0 <= j < |kept| && kept[j] == item;
      assert SalesChart(items, toNumber)[j + 1] == SalesRow(item, toNumber);
    }
    forall i | 1 <= i < |SalesChart(items, toNumber)|
      ensures SalesChart(items, toNumber)[i].DataRow? && Positive(SalesChart(items, toNumber)[i].count)
    {
      assert SalesKept(toNumber)(kept[i - 1]);
    }
  }

  // ---------------------------------------------------------------------------
  // Customer grades
  // ---------------------------------------------------------------------------

  function CustomerRow(item: Row, toNumber: Value -> Option<int>): ChartRow {
    DataRow(Get(item, "CSTGRADE_NM"), toNumber(Get(item, "CSTGRADE_CNT")))
  }

  /** The customer chart: the header, then one row per item, in input order. */
  function CustomerChart(items: seq<Row>, toNumber: Value -> Option<int>): (chart: seq<ChartRow>)
    ensures |chart| == |items| + 1 && chart[0] == CustomerHeader
    ensures forall i :: 0 <= i < |items| ==> chart[i + 1] == CustomerRow(items[i], toNumber)
  {
    [CustomerHeader] + seq(|items|, i requires 0 <= i < |items| => CustomerRow(items[i], toNumber))
  }

  /** The `forEach` that pushes a row for every item. */
  method BuildCustomerChart(items: seq<Row>, toNumber: Value -> Option<int>) returns (chart: seq<ChartRow>)
    ensures chart == CustomerChart(items, toNumber)
  {
    chart := [CustomerHeader];
    var i := 0;
    while i < |items|
      invariant 0 <= i <= |items|
      invariant |chart| == i + 1 && chart[0] == CustomerHeader
      invariant forall j :: 0 <= j < i ==> chart[j + 1] == CustomerRow(items[j], toNumber)
    {
      chart := chart + [CustomerRow(items[i], toNumber)];
      i := i + 1;
    }
  }

  // ---------------------------------------------------------------------------
  // The widget
  // ---------------------------------------------------------------------------

  /** The chart rows and whether the data table is shown. */
  datatype ChartState = ChartState(chart: seq<ChartRow>, showTable: bool)

  datatype ChartView = NoChartData | Shown(chart: seq<ChartRow>, table: seq<ChartRow>, tableVisible: bool)

  /** The chart and its table appear only with more than the header; the
      table lists the rows without the header. */
  function View(s: ChartState): (v: ChartView)
    ensures v.NoChartData? <==> |s.chart| <= 1
    ensures v.Shown? ==> v.chart == s.chart && [s.chart[0]] + v.table == s.chart && v.tableVisible == s.showTable
  {
    if |s.chart| > 1 then Shown(s.chart, s.chart[1..], s.showTable) else NoChartData
  }

  function ToggleTable(s: ChartState): (r: ChartState)
    ensures r.chart == s.chart && r.showTable != s.showTable
  {
    s.(showTable := !s.showTable)
  }

  /** The toggle only shows or hides the table; twice, it changes nothing. */
  lemma ToggleOnlyFlipsTable(s: ChartState)
    ensures View(s).Shown? ==> View(ToggleTable(s)) == View(s).(tableVisible := !s.showTable)
    ensures View(s).NoChartData? ==> View(ToggleTable(s)).NoChartData?
    ensures ToggleTable(ToggleTable(s)) == s
  {
  }

  /** A response without a first record, or one whose record has no items,
      shows the no-data message on either chart. */
  lemma MissingDataShowsNothing(p: Requests.Payload, toNumber: Value -> Option<int>, showTable: bool)
    requires ChartItems(p) == Some([])
    ensures View(ChartState(SalesChart(ChartItems(p).value, toNumber), showTable)).NoChartData?
    ensures View(ChartState(CustomerChart(ChartItems(p).value, toNumber), showTable)).NoChartData?
  {
  }

  /** The customer chart shows exactly when there is at least one item, and
      its table has one row per item. */
  lemma CustomerShownIffItems(items: seq<Row>, toNumber: Value -> Option<int>, showTable: bool)
    ensures var v := View(ChartState(CustomerChart(items, toNumber), showTable));
      (v.Shown? <==> items != []) && (v.Shown? ==> |v.table| == |items|)
  {
  }
}
