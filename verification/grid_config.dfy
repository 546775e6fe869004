/**
 * The structure definition that drives the dynamic grid widget
 * (DynamicGridWidget/types.ts), how it is read (`parseConfig`) and the
 * post-processing `fetchStructure` applies before the widget uses it:
 * default column groups, re-chunking of a flat filter list into rows, and
 * default buttons.
 */
module GridConfig {
  import opened JsValues
  import Seqs

  datatype Align = Left | Center | Right

  datatype ColumnType = TextColumn | DateColumn | NumberColumn

  /** One grid column. `caption` is the column's `label` (a Dafny keyword);
      `mobileImp` is kept as the raw value because the card compares its
      string form with `'true'`; an absent `chip` is `false`. */
  datatype ColModel = ColModel(
    caption: string,
    field: string,
    columnType: Option<ColumnType>,
    align: Option<Align>,
    labelAlign: Option<Align>,
    mobileImp: Value,
    chip: bool)

  datatype FilterType = TextFilter | SelectFilter | DateFilter | DateBetweenFilter | PopupFilter

  /** One search filter. An absent or empty `groupName` is `""` (both are falsy);
      `colspan` is the numeric colspan, `0` when absent; `popupKey` and
      `displayField` are meaningful for popup filters only. */
  datatype FilterItem = FilterItem(
    caption: string,
    field: string,
    filterType: Option<FilterType>,
    groupName: string,
    colspan: nat,
    popupKey: string,
    displayField: string)

  /** An entry of `filterView`: a bare filter, or a row object carrying `TD`. */
  datatype ViewEntry = Cell(item: FilterItem) | Row(td: seq<FilterItem>)

  datatype ColGroup = ColGroup(index: string, width: string)

  datatype ButtonConfig = ButtonConfig(caption: string, index: string, inComm: string, mobileAllow: Value)

  /** The structure definition. Optional lists are `None` when the key is absent;
      `serviceMethod` is the `method` key. */
  datatype StructureConfig = StructureConfig(
    title: string,
    colgroup: Option<seq<ColGroup>>,
    filterView: Option<seq<ViewEntry>>,
    colModel: seq<ColModel>,
    service: string,
    serviceMethod: string,
    keyName: string,
    order: string,
    buttons: Option<seq<ButtonConfig>>)

  /** The `{}` that an evaluation which throws yields: every key absent. The model reads
      the absent `colModel` as the empty list; in the widget it stays
      `undefined`, and the first `colModel.map` on it throws. */
  const EmptyConfig := StructureConfig("", None, None, [], "", "", "", "", None)

  // ---------------------------------------------------------------------------
  // Reading the definition
  // ---------------------------------------------------------------------------

  /** What the server stores: an object already, or text to be evaluated. */
  datatype RawConfig = ConfigObject(config: StructureConfig) | ConfigText(text: string)

  /** What evaluating the definition text as JavaScript gives: an exception, a
      value that is not an object (`undefined`, `null` or a primitive, which
      `new Function` returns without throwing, e.g. for blank text), or an
      object. */
  datatype Evaluation = Threw | NotObject | Evaluated(config: StructureConfig)

  /** `parseConfig`. The evaluation of `'return ' + text` is the parameter
      `evaluate`. An object is used as it is, an exception gives the empty
      definition, and any other value is passed through as it is; `None`
      stands for such a non-object result. */
  function ParseConfig(raw: RawConfig, evaluate: string -> Evaluation): (c: Option<StructureConfig>)
    ensures raw.ConfigObject? ==> c == Some(raw.config)
    ensures raw.ConfigText? ==> (c.None? <==> evaluate("return " + raw.text).NotObject?)
    ensures raw.ConfigText? && evaluate("return " + raw.text).Threw? ==> c == Some(EmptyConfig)
    ensures raw.ConfigText? && evaluate("return " + raw.text).Evaluated? ==> c == Some(evaluate("return " + raw.text).config)
  {
    match raw
    case ConfigObject(config) => Some(config)
    case ConfigText(text) =>
      match evaluate("return " + text)
      case Threw => Some(EmptyConfig)
      case NotObject => None
      case Evaluated(config) => Some(config)
  }

  // ---------------------------------------------------------------------------
  // Post-processing
  // ---------------------------------------------------------------------------

  const DefaultColGroup: seq<ColGroup> :=
    [ColGroup("Col1", "100%"), ColGroup("Col2", "100%"), ColGroup("Col3", "100%")]

  const DefaultButtons: seq<ButtonConfig> :=
    [ButtonConfig("조회", "List", "List", Undefined), ButtonConfig("초기화", "Init", "initialize", Undefined)]

  /** A missing or empty optional list is replaced by `default`. */
  function OrDefault<T>(list: Option<seq<T>>, default: seq<T>): (r: seq<T>)
    ensures list.None? || list.value == [] ==> r == default
    ensures list.Some? && list.value != [] ==> r == list.value
  {
    if list.Some? && list.value != [] then list.value else default
  }

  /** `xs` cut into consecutive slices of `n`, as the `slice(i, i + n)` loop does. */
  function Chunk<T>(xs: seq<T>, n: nat): (rows: seq<seq<T>>)
    requires n > 0
    ensures Seqs.Concat(rows) == xs
    ensures forall i :: 0 <= i < |rows| - 1 ==> |rows[i]| == n
    ensures forall i :: 0 <= i < |rows| ==> 0 < |rows[i]| <= n
    decreases |xs|
  {
    if xs == [] then []
    else if |xs| <= n then
      assert Seqs.Concat([xs]) == xs + Seqs.Concat([]);
      [xs]
    else
      var rest := Chunk(xs[n..], n);
      assert ([xs[..n]] + rest)[1..] == rest;
      assert xs == xs[..n] + xs[n..];
      [xs[..n]] + rest
  }

  /** There are `ceil(|xs| / n)` slices: the fewest whose `n` places hold `xs`. */
  lemma {:induction false} ChunkCount<T>(xs: seq<T>, n: nat)
    requires n > 0
    ensures |xs| <= |Chunk(xs, n)| * n < |xs| + n
    decreases |xs|
  {
    if xs != [] && |xs| > n {
      var k := |Chunk(xs[n..], n)|;
      assert |Chunk(xs, n)| == k + 1;
      ChunkCount(xs[n..], n);
      OneMoreChunk(|xs|, k, n);
    }
  }

  lemma OneMoreChunk(len: int, k: int, n: int)
    requires len - n <= k * n < len
    ensures len <= (k + 1) * n < len + n
  {
    assert (k + 1) * n == k * n + n;
  }

  /** The filter an entry of a flat list stands for once it is put in a `TD`.
      A row object among flat entries has no type, label or field. */
  function ItemOf(e: ViewEntry): FilterItem {
    match e
    case Cell(item) => item
    case Row(_) => FilterItem("", "", None, "", 0, "", "")
  }

  function ItemsOf(entries: seq<ViewEntry>): (items: seq<FilterItem>)
    ensures |items| == |entries|
    ensures forall i :: 0 <= i < |entries| ==> items[i] == ItemOf(entries[i])
  {
    seq(|entries|, i requires 0 <= i < |entries| => ItemOf(entries[i]))
  }

  function RowsOf(chunks: seq<seq<FilterItem>>): (rows: seq<ViewEntry>)
    ensures |rows| == |chunks|
    ensures forall i :: 0 <= i < |chunks| ==> rows[i] == Row(chunks[i])
  {
    seq(|chunks|, i requires 0 <= i < |chunks| => Row(chunks[i]))
  }

  /** A list is flat when its first entry is not a row object. */
  predicate IsFlat(fv: seq<ViewEntry>) {
    |fv| > 0 && fv[0].Cell?
  }

  /** The filter list after post-processing, for `numCols` columns. */
  function Rechunk(fv: seq<ViewEntry>, numCols: nat): (r: seq<ViewEntry>)
    requires numCols > 0
  {
    if IsFlat(fv) then RowsOf(Chunk(ItemsOf(fv), numCols)) else fv
  }

  /** The post-processing `fetchStructure` applies to a parsed definition. */
  function Normalize(c: StructureConfig): (r: StructureConfig)
    ensures r.colgroup == Some(OrDefault(c.colgroup, DefaultColGroup))
    ensures r.buttons == Some(OrDefault(c.buttons, DefaultButtons))
    ensures c.filterView.None? ==> r.filterView.None?
    ensures c.filterView.Some? ==> r.filterView == Some(Rechunk(c.filterView.value, |r.colgroup.value|))
    ensures r.(colgroup := c.colgroup, filterView := c.filterView, buttons := c.buttons) == c
  {
    var colgroup := OrDefault(c.colgroup, DefaultColGroup);
    var filterView := if c.filterView.Some? then Some(Rechunk(c.filterView.value, |colgroup|)) else None;
    c.(colgroup := Some(colgroup), filterView := filterView, buttons := Some(OrDefault(c.buttons, DefaultButtons)))
  }

  /** Where `fetchStructure` finds the definition: missing, text or an object. */
  datatype StructureSource = NoContent | ContentText(text: string) | ContentObject(config: StructureConfig)

  /** The structure load: a missing or empty `structureCont` is an error
      (`None`), and so is a text whose evaluation yields no object: reading
      `colgroup` of `undefined` or `null` throws, and so does setting the
      default `colgroup` on a primitive in module (strict) code. Anything
      else is parsed and post-processed. */
  function LoadStructure(src: StructureSource, evaluate: string -> Evaluation): (r: Option<StructureConfig>)
    ensures r.None? <==> src.NoContent? || src == ContentText("")
                         || (src.ContentText? && evaluate("return " + src.text).NotObject?)
    ensures src.ContentObject? ==> r == Some(Normalize(src.config))
    ensures src.ContentText? && src.text != "" && r.Some? ==> r == Some(Normalize(ParseConfig(ConfigText(src.text), evaluate).value))
  {
    match src
    case NoContent => None
    case ContentText(text) =>
      if text == "" then None
      else
        (match ParseConfig(ConfigText(text), evaluate)
         case None => None
         case Some(c) => Some(Normalize(c)))
    case ContentObject(config) => Some(Normalize(config))
  }

  /** A text whose evaluation throws still loads, with the defaults of the
      empty definition; one whose evaluation returns no object, such as blank
      text, fails the load. */
  lemma ThrowLoadsDefaultsNonObjectFails(text: string, evaluate: string -> Evaluation)
    requires text != ""
    ensures evaluate("return " + text).Threw? ==> LoadStructure(ContentText(text), evaluate) == Some(Normalize(EmptyConfig))
    ensures evaluate("return " + text).NotObject? ==> LoadStructure(ContentText(text), evaluate).None?
  {
  }

  // ---------------------------------------------------------------------------
  // Properties of the post-processing
  // ---------------------------------------------------------------------------

  /** A flat list becomes rows of `numCols` filters (the last possibly shorter)
      that read back, in order, as the original filters. */
  lemma RechunkFlat(fv: seq<ViewEntry>, numCols: nat)
    requires numCols > 0 && IsFlat(fv)
    ensures var r := Rechunk(fv, numCols);
      && (forall i :: 0 <= i < |r| ==> r[i].Row? && 0 < |r[i].td| <= numCols)
      && (forall i :: 0 <= i < |r| - 1 ==> |r[i].td| == numCols)
      && Seqs.Concat(seq(|r|, i requires 0 <= i < |r| => r[i].td)) == ItemsOf(fv)
      && |fv| <= |r| * numCols < |fv| + numCols
  {
    var chunks := Chunk(ItemsOf(fv), numCols);
    var r := Rechunk(fv, numCols);
    ChunkCount(ItemsOf(fv), numCols);
    assert seq(|r|, i requires 0 <= i < |r| => r[i].td) == chunks;
  }

  /** Post-processing is idempotent: a processed definition is left as it is. */
  lemma NormalizeIdempotent(c: StructureConfig)
    ensures Normalize(Normalize(c)) == Normalize(c)
  {
    var n := Normalize(c);
    if c.filterView.Some? && IsFlat(c.filterView.value) {
      var r := n.filterView.value;
      assert r[0].Row?;
    }
  }

  /** The defaults are exactly three full-width column groups and the search and
      reset buttons. */
  lemma DefaultsOfEmptyConfig()
    ensures Normalize(EmptyConfig).colgroup == Some(DefaultColGroup)
    ensures |DefaultColGroup| == 3 && forall i :: 0 <= i < 3 ==> DefaultColGroup[i].width == "100%"
    ensures Normalize(EmptyConfig).buttons == Some(DefaultButtons)
    ensures [DefaultButtons[0].inComm, DefaultButtons[1].inComm] == ["List", "initialize"]
  {
  }
}
