/**
 * The filter panel (`GridFilters` and the grid's own copy of it): which
 * control each filter gets and what it shows, what its events do to the
 * search state, the active field of a filter group, and the desktop width of
 * each unit, computed from its colspan and the number of layout columns.
 */
module GridFilters {
  import opened JsValues
  import Seqs
  import opened Arith
  import opened GridConfig
  import opened FilterGroups
  import opened FilterState

  /** A filter without a type is a text filter. */
  function FilterTypeOf(f: FilterItem): (t: FilterType)
    ensures f.filterType.None? ==> t == TextFilter
    ensures f.filterType.Some? ==> t == f.filterType.value
  {
    f.filterType.GetOr(TextFilter)
  }

  /** The control of one filter and the values it shows. */
  datatype Control =
    | RangeControl(field: string, from: string, to: string)
    | PopupControl(field: string, display: Value)
    | TextControl(field: string, isDate: bool, value: string)

  function BoundOf(st: State, field: string, bound: Bound): (s: string)
    ensures field !in st.dates ==> s == ""
  {
    if field !in st.dates then ""
    else if bound == From then st.dates[field].from.GetOr("")
    else st.dates[field].to.GetOr("")
  }

  function DisplayOf(st: State, field: string): (v: Value)
    ensures field !in st.popups ==> v == Undefined
    ensures field in st.popups ==> v == st.popups[field].display
  {
    if field in st.popups then st.popups[field].display else Undefined
  }

  /** `renderFilterControl`: a date range binds both bounds of the field, a
      popup shows the stored display text, and anything else is a text input
      showing the plain value (a date input for the `date` type). */
  function ControlOf(f: FilterItem, st: State): (c: Control)
    ensures FilterTypeOf(f) == DateBetweenFilter <==> c.RangeControl?
    ensures FilterTypeOf(f) == PopupFilter <==> c.PopupControl?
    ensures c.field == f.field
    ensures c.TextControl? ==> c.value == PlainValue(st, f.field) && (c.isDate <==> FilterTypeOf(f) == DateFilter)
    ensures c.PopupControl? ==> c.display == DisplayOf(st, f.field)
  {
    match FilterTypeOf(f)
    case DateBetweenFilter => RangeControl(f.field, BoundOf(st, f.field, From), BoundOf(st, f.field, To))
    case PopupFilter => PopupControl(f.field, DisplayOf(st, f.field))
    case _ => TextControl(f.field, FilterTypeOf(f) == DateFilter, PlainValue(st, f.field))
  }

  /** What the user can do to a single control. */
  datatype ControlEvent =
    | Typed(value: string, bound: Bound)
    | KeyPressed(key: string)
    | OpenPressed
    | ClearPressed

  /** The state after an event, the pages fetched after it and the popup
      opened (if any). */
  datatype Outcome = Outcome(state: State, fetches: seq<nat>, popup: Option<FilterItem>)

  /** A handler run that opens no popup. */
  function Settle(t: Transition): (r: Outcome)
    ensures r.state == t.state && r.fetches == t.fetches && r.popup.None?
  {
    Outcome(t.state, t.fetches, None)
  }

  /** The control's event handlers: typing goes to the bound or the plain
      value and refetches the current page, Enter in a text input searches,
      and the popup input opens the popup or clears exactly its own field,
      refetching the current page. */
  function OnControl(f: FilterItem, st: State, ev: ControlEvent): (r: Outcome)
    ensures ev.Typed? && FilterTypeOf(f) == DateBetweenFilter ==>
      r == Outcome(SetDateBound(st, f.field, ev.value, ev.bound), [st.page], None)
    ensures ev.Typed? && FilterTypeOf(f) != DateBetweenFilter && FilterTypeOf(f) != PopupFilter ==>
      r == Outcome(SetPlain(st, f.field, ev.value), [st.page], None)
    ensures ev.KeyPressed? ==> (r.fetches != [] <==> ev.key == "Enter" && ControlOf(f, st).TextControl?)
    ensures ev.KeyPressed? && r.fetches != [] ==> r == Outcome(Search(st).state, Search(st).fetches, None)
    ensures ev.OpenPressed? && FilterTypeOf(f) == PopupFilter ==> r == Outcome(st, [], Some(f))
    ensures ev.ClearPressed? && FilterTypeOf(f) == PopupFilter ==> r == Outcome(ClearPopup(st, f.field), [st.page], None)
    ensures r.popup.Some? ==> r.popup.value == f && FilterTypeOf(f) == PopupFilter
    ensures FilterTypeOf(f) == PopupFilter && (ev.Typed? || ev.KeyPressed?) ==> r == Outcome(st, [], None)
  {
    var t := FilterTypeOf(f);
    match ev
    case Typed(value, bound) =>
      if t == DateBetweenFilter then Settle(Handle(st, DateTyped(f.field, value, bound)))
      else if t == PopupFilter then Outcome(st, [], None)
      else Settle(Handle(st, PlainTyped(f.field, value)))
    case KeyPressed(key) =>
      if key == "Enter" && t != DateBetweenFilter && t != PopupFilter then Settle(Handle(st, SearchPressed))
      else Outcome(st, [], None)
    case OpenPressed => if t == PopupFilter then Outcome(st, [], Some(f)) else Outcome(st, [], None)
    case ClearPressed => if t == PopupFilter then Settle(Handle(st, PopupCleared(f.field))) else Outcome(st, [], None)
  }

  /** What is typed into a control is what it then shows. */
  lemma TypedValueShown(f: FilterItem, st: State, value: string, bound: Bound)
    requires FilterTypeOf(f) != PopupFilter
    ensures var c := ControlOf(f, OnControl(f, st, Typed(value, bound)).state);
      && (c.RangeControl? && bound == From ==> c.from == value)
      && (c.RangeControl? && bound == To ==> c.to == value)
      && (c.TextControl? ==> c.value == value)
  {
  }

  /** Typing into one date bound leaves the other bound as shown before. */
  lemma OtherBoundKept(f: FilterItem, st: State, value: string)
    requires FilterTypeOf(f) == DateBetweenFilter
    ensures ControlOf(f, OnControl(f, st, Typed(value, From)).state).to == ControlOf(f, st).to
    ensures ControlOf(f, OnControl(f, st, Typed(value, To)).state).from == ControlOf(f, st).from
  {
  }

  /** Clearing a popup input hides its display text and drops it from the
      request, and no other popup field changes. */
  lemma ClearAffectsOnlyItsField(f: FilterItem, st: State, other: string)
    requires FilterTypeOf(f) == PopupFilter && other != f.field
    ensures var after := OnControl(f, st, ClearPressed).state;
      && ControlOf(f, after) == PopupControl(f.field, Undefined)
      && f.field !in PopupEntries(after)
      && DisplayOf(after, other) == DisplayOf(st, other)
      && (other in st.popups <==> other in after.popups)
  {
    ClearedPopupNotApplied(st, f.field);
  }

  // ---------------------------------------------------------------------------
  // Filter groups
  // ---------------------------------------------------------------------------

  /** `groupSelections[groupName] || items[0]?.field`: the selection when it is
      non-empty, else the first member's field. */
  function ActiveField(st: State, g: string, items: seq<FilterItem>): (r: Option<string>)
    ensures g in st.selections && st.selections[g] != "" ==> r == Some(st.selections[g])
    ensures !(g in st.selections && st.selections[g] != "") && items != [] ==> r == Some(items[0].field)
    ensures r.None? <==> !(g in st.selections && st.selections[g] != "") && items == []
  {
    if g in st.selections && st.selections[g] != "" then Some(st.selections[g])
    else if items != [] then Some(items[0].field)
    else None
  }

  /** The value a group's text input shows: the plain value of the active
      field (a missing field reads as the key `"undefined"`). */
  function GroupValue(st: State, g: string, items: seq<FilterItem>): string {
    PlainValue(st, ActiveField(st, g, items).GetOr("undefined"))
  }

  /** Before any choice, the active field of a group is the lead field of
      the LAST row of the layout that uses it (a later row overwrites an
      earlier one's selection); only when that field is empty do the group's
      own items decide. */
  lemma InitialActiveField(es: seq<ViewEntry>, st: State, g: string, j: int, items: seq<FilterItem>)
    requires st.selections == InitialSelections(Some(es))
    requires LastRowUsing(es, j, g)
    ensures var lead := LeadField(es[j].td, g);
      ActiveField(st, g, items) == (if lead != "" then Some(lead) else if items != [] then Some(items[0].field) else None)
  {
    LastRowWins(es, g, j);
  }

  /** With a group in two rows, the initially active field comes from the
      second row, while a grouped value clears the members of the first: the
      active field is not among the fields cleared. */
  lemma ActiveFieldOutsideClearedMembers(a: FilterItem, b: FilterItem, st: State)
    requires IsGrouped(a) && IsGrouped(b) && a.groupName == b.groupName
    requires a.field != b.field && b.field != ""
    requires st.selections == InitialSelections(Some([Row([a]), Row([b])]))
    ensures var rows := ProcessFilters(Some([Row([a]), Row([b])]));
      && FirstGroupItems(rows, a.groupName) == [a]
      && ActiveField(st, a.groupName, [a]) == Some(b.field)
      && b.field !in FieldsOf(FirstGroupItems(rows, a.groupName))
  {
    var g := a.groupName;
    var es := [Row([a]), Row([b])];
    assert InGroup(g)(b);
    NamesFromMembership([b], 0, g);
    assert LastRowUsing(es, 1, g);
    assert LeadField([b], g) == b.field by {
      assert Seqs.FindFirst(InGroup(g), [b]) == 0;
    }
    InitialActiveField(es, st, g, 1, [a]);
    OneMemberUnits(a);
    var rows := ProcessFilters(Some(es));
    assert rows[0] == ProcessedRow(RowKey(0), [Group(g, [a], g)]) by {
      assert es[0].Row?;
    }
    assert GroupUnitIn(rows[0].units, g) == Some([a]) by {
      assert Seqs.FindFirst((u: Unit) => u.Group? && u.groupName == g, rows[0].units) == 0;
    }
    assert FirstRowWithGroup(rows, 0, g);
    assert FieldsOf([a]) == {a.field};
  }

  /** A row of one grouped filter is one group unit holding it. */
  lemma OneMemberUnits(a: FilterItem)
    requires IsGrouped(a)
    ensures Units([a]) == [Group(a.groupName, [a], a.groupName)]
  {
    var g := a.groupName;
    assert InGroup(g)(a);
    assert [a][1..] == [];
    assert Seqs.Filter(InGroup(g), [a]) == [a] + Seqs.Filter(InGroup(g), []);
    assert Seqs.Filter(InGroup(g), []) == [];
    assert Seqs.Filter(InGroup(g), [a]) == [a];
    assert {} + {g} == {g};
    assert UnitsFrom([a], 1, {g}) == [];
    assert Units([a]) == [Group(g, Seqs.Filter(InGroup(g), [a]), g)] + UnitsFrom([a], 1, {g});
    assert [Group(g, [a], g)] + [] == [Group(g, [a], g)];
  }

  /** Choosing a field makes it the active one; a non-empty value typed under
      the previous field stays in view under the new one. */
  lemma ChosenFieldActive(st: State, g: string, items: seq<FilterItem>, newField: string)
    requires newField != ""
    requires g in st.selections && st.selections[g] != ""
    ensures var after := SelectGroupField(st, g, newField);
      && ActiveField(after, g, items) == Some(newField)
      && (GroupValue(st, g, items) != "" ==> GroupValue(after, g, items) == GroupValue(st, g, items))
  {
  }

  /** A value typed into a group's input is what the input shows, unless it
      is empty and the selected field is not among the members cleared. */
  lemma TypedGroupValueShown(st: State, rows: seq<ProcessedRow>, g: string, items: seq<FilterItem>, value: string)
    requires g in st.selections && st.selections[g] != ""
    requires value != "" || st.selections[g] in FieldsOf(FirstGroupItems(rows, g))
    ensures GroupValue(SetGroupedValue(st, rows, g, value), g, items) == value
  {
  }

  datatype GroupEvent = Chose(field: string) | TypedValue(value: string) | GroupKey(key: string)

  /** The group's event handlers: the select switches the field, the input
      sets the grouped value, and Enter in it searches. The select refetches
      only when a value moves to the new field, and the input only when the
      group has a selected field. */
  function OnGroup(st: State, rows: seq<ProcessedRow>, g: string, ev: GroupEvent): (r: Outcome)
    ensures ev.Chose? ==> r.state == SelectGroupField(st, g, ev.field) && r.popup.None?
    ensures ev.Chose? ==> r.fetches == (if PlainValue(st, SelectedKey(st, g)) != "" then [st.page] else [])
    ensures ev.TypedValue? ==> r.state == SetGroupedValue(st, rows, g, ev.value) && r.popup.None?
    ensures ev.TypedValue? ==> r.fetches == (if g in st.selections && st.selections[g] != "" then [st.page] else [])
    ensures ev.GroupKey? ==> (r.fetches != [] <==> ev.key == "Enter")
    ensures ev.GroupKey? && ev.key == "Enter" ==> r == Outcome(Search(st).state, Search(st).fetches, None)
    ensures ev.GroupKey? && ev.key != "Enter" ==> r == Outcome(st, [], None)
  {
    match ev
    case Chose(field) => Settle(Handle(st, GroupFieldChosen(g, field)))
    case TypedValue(value) => Settle(Handle(st, GroupValueTyped(rows, g, value)))
    case GroupKey(key) => if key == "Enter" then Settle(Handle(st, SearchPressed)) else Outcome(st, [], None)
  }

  /** Enter searches from page 1 in every text input, grouped or not. */
  lemma EnterAlwaysSearches(f: FilterItem, st: State, rows: seq<ProcessedRow>, g: string)
    requires ControlOf(f, st).TextControl?
    ensures OnControl(f, st, KeyPressed("Enter")) == OnGroup(st, rows, g, GroupKey("Enter"))
    ensures OnControl(f, st, KeyPressed("Enter")).state.page == 1
  {
  }

  // ---------------------------------------------------------------------------
  // Widths
  // ---------------------------------------------------------------------------

  /** `item.colspan ? Number(item.colspan) : 1`. */
  function Colspan(f: FilterItem): (n: nat)
    ensures n >= 1
    ensures f.colspan != 0 ==> n == f.colspan
  {
    if f.colspan == 0 then 1 else f.colspan
  }

  /** `structureConfig?.colgroup?.length || 3`. */
  function TotalColumns(config: StructureConfig): (n: nat)
    ensures n >= 1
    ensures config.colgroup.Some? && config.colgroup.value != [] ==> n == |config.colgroup.value|
    ensures config.colgroup.None? || config.colgroup.value == [] ==> n == 3
  {
    if config.colgroup.Some? && config.colgroup.value != [] then |config.colgroup.value| else 3
  }

  /** `Math.max(1, Math.round(colspan / total * 12))` in integers: rounding
      half up is the floor of (24 colspan + total) / (2 total). */
  function MdSize(colspan: nat, total: nat): (r: nat)
    requires total >= 1
    ensures r >= 1
    ensures 24 * colspan >= total ==> 2 * total * r <= 24 * colspan + total < 2 * total * r + 2 * total
    ensures 24 * colspan < total ==> r == 1
  {
    var rounded := (24 * colspan + total) / (2 * total);
    if rounded < 1 then 1 else rounded
  }

  /** A unit as wide as the whole layout takes all twelve grid columns, and a
      wider one takes more: the width is not capped. */
  lemma MdSizeScale(total: nat)
    requires total >= 1
    ensures MdSize(total, total) == 12
    ensures MdSize(2 * total, total) == 24
  {
    DivUnique(24 * total + total, 2 * total, 12);
    DivUnique(24 * (2 * total) + total, 2 * total, 24);
  }

  /** Wider colspans never give narrower units. */
  lemma MdSizeMonotone(a: nat, b: nat, total: nat)
    requires total >= 1 && a <= b
    ensures MdSize(a, total) <= MdSize(b, total)
  {
    DivMonotone(24 * a + total, 24 * b + total, 2 * total);
  }

  /** The member whose colspan a group uses: the first with the active field. */
  function SelectedItem(items: seq<FilterItem>, active: Option<string>): (r: Option<FilterItem>)
    ensures r.Some? ==> r.value in items && active == Some(r.value.field)
    ensures r.None? ==> active.None? || forall i :: 0 <= i < |items| ==> items[i].field != active.value
  {
    if active.None? then None
    else
      var j := Seqs.FindFirst((f: FilterItem) => f.field == active.value, items);
      if j < |items| then Some(items[j]) else None
  }

  /** The grid width of a unit: twelve on a phone, else the `mdSize` of the
      item's colspan (the active member's for a group, 1 if it is not found). */
  function UnitWidth(st: State, unit: Unit, total: nat, mobile: bool): (w: nat)
    requires total >= 1
    ensures w >= 1
    ensures mobile ==> w == 12
    ensures !mobile && unit.Single? ==> w == MdSize(Colspan(unit.item), total)
  {
    if mobile then 12
    else match unit
      case Single(item, _) => MdSize(Colspan(item), total)
      case Group(g, items, _) =>
        var chosen := SelectedItem(items, ActiveField(st, g, items));
        MdSize(if chosen.Some? then Colspan(chosen.value) else 1, total)
  }

  /** A group is as wide as its active member would be on its own, so
      switching the field can change the group's width. */
  lemma GroupWidthFollowsActive(st: State, g: string, items: seq<FilterItem>, key: string, total: nat, k: nat)
    requires total >= 1 && k < |items|
    requires ActiveField(st, g, items) == Some(items[k].field)
    requires forall i :: 0 <= i < k ==> items[i].field != items[k].field
    ensures UnitWidth(st, Group(g, items, key), total, false) == UnitWidth(st, Single(items[k], key), total, false)
  {
    var p := (f: FilterItem) => f.field == items[k].field;
    assert p(items[k]);
  }
}
