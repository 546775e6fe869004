/**
 * How one cell of the grid is shown (`renderValue`): a date column with a
 * truthy value shows its formatted date, a chip column with a truthy value
 * becomes a coloured chip whose colour is a hash of the value's text, and
 * anything else shows the value's string form. Also the column alignments.
 */
module GridRender {
  import opened JsValues
  import opened GridConfig

  /** A column without a type is a text column. */
  function TypeOf(col: ColModel): (t: ColumnType)
    ensures col.columnType.None? ==> t == TextColumn
    ensures col.columnType.Some? ==> t == col.columnType.value
  {
    col.columnType.GetOr(TextColumn)
  }

  /** The text a cell shows. The conversion of a date value to `YYYY-MM-DD`
      is the parameter `formatDate`. `None` is no text (a nullish value). */
  function DisplayText(col: ColModel, row: Row, formatDate: Value -> string): (r: Option<string>)
    ensures TypeOf(col) == DateColumn && Truthy(Get(row, col.field)) ==> r == Some(formatDate(Get(row, col.field)))
    ensures !(TypeOf(col) == DateColumn && Truthy(Get(row, col.field))) ==> r == OptToString(Get(row, col.field))
  {
    var val := Get(row, col.field);
    if TypeOf(col) == DateColumn && Truthy(val) then Some(formatDate(val)) else OptToString(val)
  }

  /** A falsy value is shown as its plain string form, whatever the column
      type, and a nullish one shows nothing. */
  lemma FalsyShownPlain(col: ColModel, row: Row, formatDate: Value -> string)
    requires !Truthy(Get(row, col.field))
    ensures IsNullish(Get(row, col.field)) ==> DisplayText(col, row, formatDate).None?
    ensures !IsNullish(Get(row, col.field)) ==> DisplayText(col, row, formatDate) == Some(ToStr(Get(row, col.field)))
  {
  }

  // ---------------------------------------------------------------------------
  // Chips
  // ---------------------------------------------------------------------------

  datatype ChipColor = Primary | Secondary | Success | Info | Warning | Error

  const Palette: seq<ChipColor> := [Primary, Secondary, Success, Info, Warning, Error]

  /** The sum of a sequence of codes, accumulated left to right as `reduce` does. */
  function SumLeft(xs: seq<nat>): nat
    decreases |xs|
  {
    if xs == [] then 0 else SumLeft(xs[..|xs| - 1]) + xs[|xs| - 1]
  }

  lemma {:induction false} SumLeftAppend(xs: seq<nat>, ys: seq<nat>)
    ensures SumLeft(xs + ys) == SumLeft(xs) + SumLeft(ys)
    decreases |ys|
  {
    if ys == [] {
      assert xs + ys == xs;
    } else {
      var ys' := ys[..|ys| - 1];
      assert (xs + ys)[..|xs + ys| - 1] == xs + ys';
      assert (xs + ys)[|xs + ys| - 1] == ys[|ys| - 1];
      SumLeftAppend(xs, ys');
    }
  }

  /** The hash of a text: the sum of `charCodeAt(0)` over the pieces
      `split('')` cuts it into, which are its UTF-16 code units. */
  function CharSum(s: string): nat {
    SumLeft(Utf16(s))
  }

  /** The sum splits over concatenation, so it does not depend on the
      direction of accumulation. */
  lemma CharSumAppend(a: string, b: string)
    ensures CharSum(a + b) == CharSum(a) + CharSum(b)
  {
    Utf16Append(a, b);
    SumLeftAppend(Utf16(a), Utf16(b));
  }

  /** The chip colour of a value: the palette entry at the hash modulo the
      palette's length. */
  function ChipColorOf(val: Value): ChipColor {
    Palette[CharSum(ToStr(val)) % |Palette|]
  }

  /** A character outside the Basic Multilingual Plane counts as its two
      surrogates: U+1F600 hashes to 0xD83D + 0xDE00 = 112189, not to its own
      code 128512, and so is coloured `secondary`. */
  lemma SurrogatePairHash()
    ensures CharSum("\U{1F600}") == 0xD83D + 0xDE00
    ensures ChipColorOf(Str("\U{1F600}")) == Secondary
  {
    var s := "\U{1F600}";
    assert s[1..] == [];
    assert Utf16(s) == Utf16Units(s[0]) + Utf16([]);
    assert Utf16Units(s[0]) == [0xD83D, 0xDE00];
    assert SumLeft([0xD83D, 0xDE00]) == 0xD83D + 0xDE00 by {
      assert [0xD83D, 0xDE00][..1] == [0xD83D];
      assert [0xD83D][..0] == [];
    }
  }

  /** Values with the same text get the same colour, and prefixing a text by a
      block whose code sum is a multiple of 6 keeps the colour. */
  lemma ChipColorShift(a: string, b: string)
    requires CharSum(a) % 6 == 0
    ensures ChipColorOf(Str(a + b)) == ChipColorOf(Str(b))
  {
    SumShift(a, b);
    assert ToStr(Str(a + b)) == a + b;
    assert ToStr(Str(b)) == b;
    SameSumSameColor(Str(a + b), Str(b));
  }

  lemma SumShift(a: string, b: string)
    requires CharSum(a) % 6 == 0
    ensures CharSum(a + b) % 6 == CharSum(b) % 6
  {
    CharSumAppend(a, b);
    ModShift(CharSum(a), CharSum(b));
  }

  lemma ModShift(x: nat, y: nat)
    requires x % 6 == 0
    ensures (x + y) % 6 == y % 6
  {
    var q, p := x / 6, y / 6;
    assert x == 6 * q;
    assert y == 6 * p + y % 6;
    assert x + y == 6 * (q + p) + y % 6;
  }

  lemma SameSumSameColor(v: Value, w: Value)
    requires CharSum(ToStr(v)) % 6 == CharSum(ToStr(w)) % 6
    ensures ChipColorOf(v) == ChipColorOf(w)
  {
  }

  datatype CellView =
    | PlainCell(text: Option<string>)
    | ChipCell(caption: Option<string>, color: ChipColor, filled: bool)

  /** A chip column shows a chip only for a truthy value. */
  predicate ShowsChip(col: ColModel, row: Row) {
    col.chip && Truthy(Get(row, col.field))
  }

  /** `renderValue`: the chip is outlined and carries the display text. */
  function RenderValue(col: ColModel, row: Row, formatDate: Value -> string): (v: CellView)
    ensures ShowsChip(col, row) <==> v.ChipCell?
    ensures v.PlainCell? ==> v.text == DisplayText(col, row, formatDate)
    ensures v.ChipCell? ==> v == ChipCell(DisplayText(col, row, formatDate), ChipColorOf(Get(row, col.field)), false)
  {
    if ShowsChip(col, row) then ChipCell(DisplayText(col, row, formatDate), ChipColorOf(Get(row, col.field)), false)
    else PlainCell(DisplayText(col, row, formatDate))
  }

  /** A desktop table cell: a chip is re-rendered filled, labelled with the
      raw string form (no date formatting), in the same colour. */
  function TableCellView(col: ColModel, row: Row, formatDate: Value -> string): (v: CellView)
    ensures ShowsChip(col, row) ==> v == ChipCell(OptToString(Get(row, col.field)), ChipColorOf(Get(row, col.field)), true)
    ensures !ShowsChip(col, row) ==> v == RenderValue(col, row, formatDate)
  {
    if ShowsChip(col, row) then ChipCell(OptToString(Get(row, col.field)), ChipColorOf(Get(row, col.field)), true)
    else RenderValue(col, row, formatDate)
  }

  /** The desktop table and the card show a chip in the same colour. */
  lemma ChipColorsAgree(col: ColModel, row: Row, formatDate: Value -> string)
    requires ShowsChip(col, row)
    ensures TableCellView(col, row, formatDate).color == RenderValue(col, row, formatDate).color
    ensures TableCellView(col, row, formatDate).filled && !RenderValue(col, row, formatDate).filled
  {
  }

  // ---------------------------------------------------------------------------
  // Alignment
  // ---------------------------------------------------------------------------

  function HeaderAlign(col: ColModel): (a: Align)
    ensures col.labelAlign.None? ==> a == Center
    ensures col.labelAlign.Some? ==> a == col.labelAlign.value
  {
    col.labelAlign.GetOr(Center)
  }

  function CellAlign(col: ColModel): (a: Align)
    ensures col.align.None? ==> a == Center
    ensures col.align.Some? ==> a == col.align.value
  {
    col.align.GetOr(Center)
  }
}
