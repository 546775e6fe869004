/**
 * The mobile card of one grid row (`MobileGridCard`): the first column is
 * the title, the remaining columns are split into an always-visible preview
 * and a collapsible detail part by their `mobileImp` flag, and a click on the
 * card either toggles the detail part or reports the row.
 */
module MobileCard {
  import opened JsValues
  import Seqs
  import opened GridConfig

  /** `String(col.mobileImp) === 'true'`. */
  const IsImportant: ColModel -> bool := (col: ColModel) => IsTrueFlag(col.mobileImp)

  const IsOrdinary: ColModel -> bool := (col: ColModel) => !IsTrueFlag(col.mobileImp)

  predicate HasImportant(cols: seq<ColModel>) {
    exists i :: 0 <= i < |cols| && IsTrueFlag(cols[i].mobileImp)
  }

  datatype CardView = CardView(title: string, preview: seq<ColModel>, detail: seq<ColModel>)

  /** The card of `row`; no card at all without columns. */
  function Card(cols: seq<ColModel>, row: Row): (card: Option<CardView>)
    ensures card.None? <==> cols == []
    ensures card.Some? ==> card.value.title == OrElse(OptToString(Get(row, cols[0].field)), "-")
  {
    if cols == [] then None
    else
      var others := cols[1..];
      var title := OrElse(OptToString(Get(row, cols[0].field)), "-");
      if HasImportant(others) then Some(CardView(title, Seqs.Filter(IsImportant, others), Seqs.Filter(IsOrdinary, others)))
      else Some(CardView(title, others, []))
  }

  /** The title is the first column's text, `-` when that is missing or empty. */
  lemma TitleFallback(cols: seq<ColModel>, row: Row)
    requires cols != []
    ensures var v := Get(row, cols[0].field);
      Card(cols, row).value.title == (if IsNullish(v) || ToStr(v) == "" then "-" else ToStr(v))
  {
  }

  /** With an important column, the preview holds exactly the important
      columns and the detail part the others. */
  lemma ImportantSplit(cols: seq<ColModel>, row: Row)
    requires cols != [] && HasImportant(cols[1..])
    ensures var card := Card(cols, row).value;
      && (forall c :: c in card.preview <==> c in cols[1..] && IsTrueFlag(c.mobileImp))
      && (forall c :: c in card.detail <==> c in cols[1..] && !IsTrueFlag(c.mobileImp))
      && card.preview != []
  {
    var others := cols[1..];
    var card := Card(cols, row).value;
    ImportantMembers(others);
    OrdinaryMembers(others);
    var i :| 0 <= i < |others| && IsTrueFlag(others[i].mobileImp);
    assert others[i] in card.preview;
  }

  lemma ImportantMembers(others: seq<ColModel>)
    ensures forall c :: c in Seqs.Filter(IsImportant, others) <==> c in others && IsTrueFlag(c.mobileImp)
  {
    forall c ensures c in Seqs.Filter(IsImportant, others) <==> c in others && IsTrueFlag(c.mobileImp) {
      Seqs.FilterMembership(IsImportant, others, c);
    }
  }

  lemma OrdinaryMembers(others: seq<ColModel>)
    ensures forall c :: c in Seqs.Filter(IsOrdinary, others) <==> c in others && !IsTrueFlag(c.mobileImp)
  {
    forall c ensures c in Seqs.Filter(IsOrdinary, others) <==> c in others && !IsTrueFlag(c.mobileImp) {
      Seqs.FilterMembership(IsOrdinary, others, c);
    }
  }

  /** Preview and detail keep the column order and together are exactly the
      non-title columns. */
  lemma SplitIsPartition(cols: seq<ColModel>, row: Row)
    requires cols != []
    ensures var card := Card(cols, row).value;
      && Seqs.IsSubseq(card.preview, cols[1..]) && Seqs.IsSubseq(card.detail, cols[1..])
      && multiset(card.preview) + multiset(card.detail) == multiset(cols[1..])
  {
    var others := cols[1..];
    if HasImportant(others) {
      Seqs.FilterIsSubseq(IsImportant, others);
      Seqs.FilterIsSubseq(IsOrdinary, others);
      Seqs.FilterPartition(IsImportant, IsOrdinary, others);
    } else {
      Seqs.SubseqRefl(others);
      Seqs.SubseqEmpty(others);
    }
  }

  /** Without an important column every non-title column is previewed and
      there is no detail part. */
  lemma NoImportantPreviewsAll(cols: seq<ColModel>, row: Row)
    requires cols != [] && !HasImportant(cols[1..])
    ensures Card(cols, row).value.preview == cols[1..] && Card(cols, row).value.detail == []
  {
  }

  // ---------------------------------------------------------------------------
  // Clicks
  // ---------------------------------------------------------------------------

  /** The result of a click: the new expansion flag and the row reported to
      `onRowClick`, if any. */
  datatype ClickResult = ClickResult(expanded: bool, reported: Option<Row>)

  /** A click on the card body: toggles when there is a detail part, else
      reports the row (when a handler is attached). */
  function CardClick(card: CardView, expanded: bool, row: Row, hasHandler: bool): (r: ClickResult)
    ensures card.detail != [] ==> r == ClickResult(!expanded, None)
    ensures card.detail == [] ==> r.expanded == expanded
    ensures card.detail == [] ==> (r.reported.Some? <==> hasHandler)
    ensures r.reported.Some? ==> r.reported.value == row
  {
    if card.detail != [] then ClickResult(!expanded, None)
    else ClickResult(expanded, if hasHandler then Some(row) else None)
  }

  /** The expand button: toggles and stops the click from reaching the card,
      so the row is never reported. */
  function ExpandClick(expanded: bool): (r: ClickResult)
    ensures r.expanded != expanded && r.reported.None?
  {
    ClickResult(!expanded, None)
  }

  /** Two toggles restore the expansion. */
  lemma ToggleTwice(card: CardView, expanded: bool, row: Row, hasHandler: bool)
    requires card.detail != []
    ensures CardClick(card, CardClick(card, expanded, row, hasHandler).expanded, row, hasHandler).expanded == expanded
    ensures ExpandClick(ExpandClick(expanded).expanded).expanded == expanded
  {
  }

  /** A card reports its row on click exactly when it has no detail part. */
  lemma ReportsIffNoDetail(cols: seq<ColModel>, row: Row, expanded: bool)
    requires cols != []
    ensures var card := Card(cols, row).value;
      CardClick(card, expanded, row, true).reported.Some? <==> !HasImportant(cols[1..]) || forall i :: 1 <= i < |cols| ==> IsTrueFlag(cols[i].mobileImp)
  {
    var others := cols[1..];
    var card := Card(cols, row).value;
    if HasImportant(others) {
      if card.detail == [] {
        forall i | 1 <= i < |cols| ensures IsTrueFlag(cols[i].mobileImp) {
          Seqs.FilterMembership(IsOrdinary, others, cols[i]);
          assert cols[i] == others[i - 1];
        }
      } else {
        var c := card.detail[0];
        Seqs.FilterMembership(IsOrdinary, others, c);
        var j :| 0 <= j < |others| && others[j] == c;
        assert cols[j + 1] == c;
      }
    }
  }
}
