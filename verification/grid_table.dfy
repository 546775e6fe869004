/**
 * What the grid's data area shows (`GridTable`): a skeleton while loading,
 * the no-data message for an empty page, and otherwise one card per row on
 * mobile or one table row per data row on desktop, keyed by the row's key
 * column with the row index as fallback.
 */
module GridTable {
  import opened JsValues
  import opened GridConfig
  import opened GridRender
  import opened MobileCard

  /** A React key: the key column's text, or the row index when that is nullish. */
  datatype RowKey = KeyText(text: string) | KeyIndex(index: nat)

  function KeyOf(row: Row, keyName: string, index: nat): (k: RowKey)
    ensures IsNullish(Get(row, keyName)) <==> k == KeyIndex(index)
    ensures !IsNullish(Get(row, keyName)) ==> k == KeyText(ToStr(Get(row, keyName)))
  {
    var v := Get(row, keyName);
    if IsNullish(v) then KeyIndex(index) else KeyText(ToStr(v))
  }

  datatype HeaderCell = HeaderCell(caption: string, align: Align)

  datatype BodyCell = BodyCell(view: CellView, align: Align)

  datatype TableRow = TableRow(key: RowKey, row: Row, cells: seq<BodyCell>)

  datatype KeyedCard = KeyedCard(key: RowKey, row: Row, card: Option<CardView>)

  datatype View =
    | Skeleton(mobile: bool)
    | NoData
    | Cards(cards: seq<KeyedCard>)
    | Table(header: seq<HeaderCell>, rows: seq<TableRow>)

  function Header(cols: seq<ColModel>): (h: seq<HeaderCell>)
    ensures |h| == |cols|
    ensures forall i :: 0 <= i < |cols| ==> h[i] == HeaderCell(cols[i].caption, HeaderAlign(cols[i]))
  {
    seq(|cols|, i requires 0 <= i < |cols| => HeaderCell(cols[i].caption, HeaderAlign(cols[i])))
  }

  function BodyCells(cols: seq<ColModel>, row: Row, formatDate: Value -> string): (cells: seq<BodyCell>)
    ensures |cells| == |cols|
    ensures forall i :: 0 <= i < |cols| ==> cells[i] == BodyCell(TableCellView(cols[i], row, formatDate), CellAlign(cols[i]))
  {
    seq(|cols|, i requires 0 <= i < |cols| => BodyCell(TableCellView(cols[i], row, formatDate), CellAlign(cols[i])))
  }

  /** The data area for a page of `rows`. */
  function Render(config: StructureConfig, rows: seq<Row>, loading: bool, mobile: bool,
                  formatDate: Value -> string): (v: View)
    ensures loading ==> v == Skeleton(mobile)
    ensures !loading && rows == [] ==> v == NoData
    ensures !loading && rows != [] && mobile ==> v.Cards? && |v.cards| == |rows|
    ensures !loading && rows != [] && !mobile ==> v.Table? && |v.rows| == |rows| && |v.header| == |config.colModel|
  {
    if loading then Skeleton(mobile)
    else if rows == [] then NoData
    else if mobile then
      Cards(seq(|rows|, i requires 0 <= i < |rows| =>
        KeyedCard(KeyOf(rows[i], config.keyName, i), rows[i], Card(config.colModel, rows[i]))))
    else
      Table(Header(config.colModel), seq(|rows|, i requires 0 <= i < |rows| =>
        TableRow(KeyOf(rows[i], config.keyName, i), rows[i], BodyCells(config.colModel, rows[i], formatDate))))
  }

  /** Cards and table rows follow the data order, one per row, each built from
      its own row and keyed by it. */
  lemma RowsInDataOrder(config: StructureConfig, rows: seq<Row>, mobile: bool, formatDate: Value -> string, i: nat)
    requires rows != [] && i < |rows|
    ensures var v := Render(config, rows, false, mobile, formatDate);
      && (mobile ==> v.cards[i] == KeyedCard(KeyOf(rows[i], config.keyName, i), rows[i], Card(config.colModel, rows[i])))
      && (!mobile ==> v.rows[i].row == rows[i] && v.rows[i].key == KeyOf(rows[i], config.keyName, i)
                      && |v.rows[i].cells| == |config.colModel|)
  {
  }
}
