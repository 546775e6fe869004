/**
 * The search state of the dynamic grid widget and its event handlers: plain
 * filter values, date-range bounds, popup selections and the selected field
 * of each filter group, plus the current page. Also the merge of the four
 * maps into the filters a data request carries.
 */
module FilterState {
  import opened JsValues
  import opened GridConfig
  import opened FilterGroups
  import Requests

  datatype Bound = From | To

  /** The bounds entered for one `dateBetween` filter; an untouched bound is `None`. */
  datatype DateRange = DateRange(from: Option<string>, to: Option<string>)

  /** A popup choice: the raw key value sent to the server and the text shown. */
  datatype PopupValue = PopupValue(value: Value, display: Value)

  datatype State = State(
    search: map<string, string>,
    dates: map<string, DateRange>,
    popups: map<string, PopupValue>,
    selections: map<string, string>,
    page: nat)

  // ---------------------------------------------------------------------------
  // Handlers
  // ---------------------------------------------------------------------------

  /** A handler's result: the new state and the pages requested after it, in
      order. Every request carries the filters of `state`. */
  datatype Transition = Transition(state: State, fetches: seq<nat>)

  /** `handleSearch`: back to page 1, and page 1 is requested at once. Leaving
      another page also changes `currentPage`, so the page effect requests
      page 1 a second time. */
  function Search(st: State): (r: Transition)
    ensures r.state == st.(page := 1)
    ensures forall i :: 0 <= i < |r.fetches| ==> r.fetches[i] == 1
    ensures |r.fetches| == 1 <==> st.page == 1
    ensures 1 <= |r.fetches| <= 2
  {
    Transition(st.(page := 1), if st.page == 1 then [1] else [1, 1])
  }

  /** `handleReset`: empties the plain, date and popup maps and restores the
      initial group selections; the page is left alone. */
  function Reset(st: State, initial: map<string, string>): (r: State)
    ensures r.search == map[] && r.dates == map[] && r.popups == map[]
    ensures r.selections == initial
    ensures r.page == st.page
  {
    State(map[], map[], map[], initial, st.page)
  }

  /** `handleDateFilterChange`: sets one bound of `field`, keeping the other. */
  function SetDateBound(st: State, field: string, value: string, bound: Bound): (r: State)
    ensures r.(dates := st.dates) == st
    ensures field in r.dates
    ensures bound == From ==> r.dates[field].from == Some(value)
    ensures bound == To ==> r.dates[field].to == Some(value)
    ensures field in st.dates && bound == From ==> r.dates[field].to == st.dates[field].to
    ensures field in st.dates && bound == To ==> r.dates[field].from == st.dates[field].from
    ensures field !in st.dates && bound == From ==> r.dates[field].to == None
    ensures field !in st.dates && bound == To ==> r.dates[field].from == None
    ensures forall f :: f in st.dates && f != field ==> f in r.dates && r.dates[f] == st.dates[f]
    ensures r.dates.Keys == st.dates.Keys + {field}
  {
    var prev := if field in st.dates then st.dates[field] else DateRange(None, None);
    var next := if bound == From then prev.(from := Some(value)) else prev.(to := Some(value));
    st.(dates := st.dates[field := next])
  }

  /** `handleUngroupedFilterChange`. */
  function SetPlain(st: State, field: string, value: string): (r: State)
    ensures r.(search := st.search) == st
    ensures field in r.search && r.search[field] == value
    ensures forall f :: f in st.search && f != field ==> f in r.search && r.search[f] == st.search[f]
    ensures r.search.Keys == st.search.Keys + {field}
  {
    st.(search := st.search[field := value])
  }

  /** The field a group currently selects. A group without a selection reads
      as `undefined`, which becomes the key `"undefined"` when used to index. */
  function SelectedKey(st: State, g: string): string {
    if g in st.selections then st.selections[g] else "undefined"
  }

  /** `searchFilters[key] || ''`. */
  function PlainValue(st: State, key: string): (v: string)
    ensures key !in st.search ==> v == ""
  {
    if key in st.search then st.search[key] else ""
  }

  /** `handleGroupedSelectChange`: the group now selects `newField`; a non-empty
      value typed under the previous field moves to the new one. */
  function SelectGroupField(st: State, g: string, newField: string): (r: State)
    ensures r.selections == st.selections[g := newField]
    ensures r.(search := st.search, selections := st.selections) == st
    ensures PlainValue(st, SelectedKey(st, g)) == "" ==> r.search == st.search
    ensures PlainValue(st, SelectedKey(st, g)) != "" ==>
      && newField in r.search && r.search[newField] == PlainValue(st, SelectedKey(st, g))
      && (SelectedKey(st, g) != newField ==> SelectedKey(st, g) !in r.search)
      && forall f :: f in st.search && f != SelectedKey(st, g) && f != newField ==> f in r.search && r.search[f] == st.search[f]
    ensures forall f :: f in r.search && f != newField ==> f in st.search && r.search[f] == st.search[f]
  {
    var previous := SelectedKey(st, g);
    var current := PlainValue(st, previous);
    var search := if current != "" then (st.search - {previous})[newField := current] else st.search;
    st.(search := search, selections := st.selections[g := newField])
  }

  /** The fields of a list of filters. */
  function FieldsOf(items: seq<FilterItem>): (fields: set<string>)
    ensures forall i :: 0 <= i < |items| ==> items[i].field in fields
    ensures forall f :: f in fields ==> exists i :: 0 <= i < |items| && items[i].field == f
  {
    set i | 0 <= i < |items| :: items[i].field
  }

  /** `handleGroupedValueChange`: without a selection nothing happens; otherwise
      every member field of the group is cleared and the selected field alone
      receives the value, if it is non-empty. The members are those of the
      first processed row that has a unit for the group. */
  function SetGroupedValue(st: State, rows: seq<ProcessedRow>, g: string, newValue: string): (r: State)
    ensures g !in st.selections || st.selections[g] == "" ==> r == st
    ensures r.(search := st.search) == st
    ensures g in st.selections && st.selections[g] != "" ==>
      var selected := st.selections[g];
      var members := FieldsOf(FirstGroupItems(rows, g));
      && (forall f :: f in members && f != selected ==> f !in r.search)
      && (newValue != "" ==> selected in r.search && r.search[selected] == newValue)
      && (newValue == "" && selected in members ==> selected !in r.search)
      && (forall f :: f in st.search && f !in members && f != selected ==> f in r.search && r.search[f] == st.search[f])
      && (forall f :: f in r.search && f != selected ==> f in st.search && f !in members && r.search[f] == st.search[f])
  {
    if g !in st.selections || st.selections[g] == "" then st
    else
      var selected := st.selections[g];
      var cleared := st.search - FieldsOf(FirstGroupItems(rows, g));
      st.(search := if newValue != "" then cleared[selected := newValue] else cleared)
  }

  /** `handlePopupSelect`: with a popup open, stores the chosen row's key value
      and display text under the popup filter's field. */
  function SelectPopupRow(st: State, active: Option<FilterItem>, row: Row): (r: State)
    ensures active.None? ==> r == st
    ensures r.(popups := st.popups) == st
    ensures active.Some? ==>
      r.popups == st.popups[active.value.field := PopupValue(Get(row, active.value.popupKey), Get(row, active.value.displayField))]
  {
    match active
    case None => st
    case Some(f) => st.(popups := st.popups[f.field := PopupValue(Get(row, f.popupKey), Get(row, f.displayField))])
  }

  /** The popup input's clear button: the field's entry becomes `{}`. */
  function ClearPopup(st: State, field: string): (r: State)
    ensures r.(popups := st.popups) == st
    ensures r.popups == st.popups[field := PopupValue(Undefined, Undefined)]
  {
    st.(popups := st.popups[field := PopupValue(Undefined, Undefined)])
  }

  // ---------------------------------------------------------------------------
  // The filters a request carries
  // ---------------------------------------------------------------------------

  /** A date bound takes part when it is a non-empty string. */
  predicate Entered(bound: Option<string>) {
    bound.Some? && bound.value != ""
  }

  function FromKey(field: string): string { field + "_FROM" }
  function ToKey(field: string): string { field + "_TO" }

  /** A `_FROM` key never equals a `_TO` key, so the order in which the bounds
      of different fields are merged does not matter. */
  lemma DateKeysDisjoint(f: string, g: string)
    ensures FromKey(f) != ToKey(g)
  {
    var a := FromKey(f);
    var b := ToKey(g);
    assert a[|a| - 1] == 'M';
    assert b[|b| - 1] == 'O';
  }

  lemma FromKeyInjective(f: string, g: string)
    requires FromKey(f) == FromKey(g)
    ensures f == g
  {
    assert f == FromKey(f)[..|f|];
  }

  lemma ToKeyInjective(f: string, g: string)
    requires ToKey(f) == ToKey(g)
    ensures f == g
  {
    assert f == ToKey(f)[..|f|];
  }

  function PlainEntries(st: State): (m: map<string, Value>)
    ensures m.Keys == st.search.Keys
    ensures forall k :: k in m ==> m[k] == Str(st.search[k])
  {
    map k | k in st.search :: Str(st.search[k])
  }

  function FromEntries(st: State): (m: map<string, Value>)
    ensures forall f :: f in st.dates && Entered(st.dates[f].from) ==> FromKey(f) in m && m[FromKey(f)] == Str(st.dates[f].from.value)
    ensures forall k :: k in m ==> exists f :: f in st.dates && Entered(st.dates[f].from) && k == FromKey(f)
  {
    assert forall f, g :: FromKey(f) == FromKey(g) ==> f == g by {
      forall f, g | FromKey(f) == FromKey(g) ensures f == g { FromKeyInjective(f, g); }
    }
    var m := map f | f in st.dates && Entered(st.dates[f].from) :: FromKey(f) := Str(st.dates[f].from.value);
    assert forall k :: k in m ==> exists f :: f in st.dates && Entered(st.dates[f].from) && k == FromKey(f) by {
      forall k | k in m ensures exists f :: f in st.dates && Entered(st.dates[f].from) && k == FromKey(f) {
        var f :| f in st.dates && Entered(st.dates[f].from) && FromKey(f) == k;
      }
    }
    m
  }

  function ToEntries(st: State): (m: map<string, Value>)
    ensures forall f :: f in st.dates && Entered(st.dates[f].to) ==> ToKey(f) in m && m[ToKey(f)] == Str(st.dates[f].to.value)
    ensures forall k :: k in m ==> exists f :: f in st.dates && Entered(st.dates[f].to) && k == ToKey(f)
  {
    assert forall f, g :: ToKey(f) == ToKey(g) ==> f == g by {
      forall f, g | ToKey(f) == ToKey(g) ensures f == g { ToKeyInjective(f, g); }
    }
    var m := map f | f in st.dates && Entered(st.dates[f].to) :: ToKey(f) := Str(st.dates[f].to.value);
    assert forall k :: k in m ==> exists f :: f in st.dates && Entered(st.dates[f].to) && k == ToKey(f) by {
      forall k | k in m ensures exists f :: f in st.dates && Entered(st.dates[f].to) && k == ToKey(f) {
        var f :| f in st.dates && Entered(st.dates[f].to) && ToKey(f) == k;
      }
    }
    m
  }

  function PopupEntries(st: State): (m: map<string, Value>)
    ensures m.Keys == set f | f in st.popups && Truthy(st.popups[f].value)
    ensures forall k :: k in m ==> m[k] == st.popups[k].value
  {
    map f | f in st.popups && Truthy(st.popups[f].value) :: st.popups[f].value
  }

  /** `appliedFilters`: plain values, then the entered date bounds under
      `<field>_FROM` / `<field>_TO`, then truthy popup values, each source
      overriding the ones before it on equal keys. */
  function AppliedFilters(st: State): map<string, Value> {
    PlainEntries(st) + FromEntries(st) + ToEntries(st) + PopupEntries(st)
  }

  /** Popup `k` holds a truthy value. */
  predicate PopupSet(st: State, k: string) {
    k in st.popups && Truthy(st.popups[k].value)
  }

  /** Every applied key comes from one of the four sources. */
  lemma AppliedKeys(st: State, k: string)
    requires k in AppliedFilters(st)
    ensures k in st.search || k in FromEntries(st) || k in ToEntries(st) || PopupSet(st, k)
  {
    MergedLookup(PlainEntries(st), FromEntries(st), ToEntries(st), PopupEntries(st), k);
  }

  /** A truthy popup value beats everything else. */
  lemma PopupWins(st: State, k: string)
    requires PopupSet(st, k)
    ensures k in AppliedFilters(st) && AppliedFilters(st)[k] == st.popups[k].value
  {
    MergedLookup(PlainEntries(st), FromEntries(st), ToEntries(st), PopupEntries(st), k);
  }

  /** An entered upper bound beats a plain value of the same key. */
  lemma ToBoundBeatsPlain(st: State, f: string)
    requires f in st.dates && Entered(st.dates[f].to) && !PopupSet(st, ToKey(f))
    ensures ToKey(f) in AppliedFilters(st) && AppliedFilters(st)[ToKey(f)] == Str(st.dates[f].to.value)
  {
    MergedLookup(PlainEntries(st), FromEntries(st), ToEntries(st), PopupEntries(st), ToKey(f));
  }

  /** An entered lower bound beats a plain value of the same key. */
  lemma FromBoundBeatsPlain(st: State, f: string)
    requires f in st.dates && Entered(st.dates[f].from) && !PopupSet(st, FromKey(f))
    ensures FromKey(f) in AppliedFilters(st) && AppliedFilters(st)[FromKey(f)] == Str(st.dates[f].from.value)
  {
    var k := FromKey(f);
    assert k !in ToEntries(st) by {
      if k in ToEntries(st) {
        var g :| g in st.dates && Entered(st.dates[g].to) && k == ToKey(g);
        DateKeysDisjoint(f, g);
      }
    }
    MergedLookup(PlainEntries(st), FromEntries(st), ToEntries(st), PopupEntries(st), k);
  }

  /** A plain value is sent when no date bound or popup claims its key. */
  lemma PlainWhenUnclaimed(st: State, k: string)
    requires k in st.search && k !in FromEntries(st) && k !in ToEntries(st) && !PopupSet(st, k)
    ensures k in AppliedFilters(st) && AppliedFilters(st)[k] == Str(st.search[k])
  {
    assert k !in PopupEntries(st);
    MergedLookup(PlainEntries(st), FromEntries(st), ToEntries(st), PopupEntries(st), k);
  }

  /** Looking a key up in a merge of four maps: the last map holding it wins. */
  lemma MergedLookup(a: map<string, Value>, b: map<string, Value>, c: map<string, Value>, d: map<string, Value>, k: string)
    ensures k in a + b + c + d <==> k in a || k in b || k in c || k in d
    ensures k in d ==> (a + b + c + d)[k] == d[k]
    ensures k !in d && k in c ==> (a + b + c + d)[k] == c[k]
    ensures k !in d && k !in c && k in b ==> (a + b + c + d)[k] == b[k]
    ensures k !in d && k !in c && k !in b && k in a ==> (a + b + c + d)[k] == a[k]
  {
  }

  /** Only a popup's stored value reaches the request: its display text never does. */
  lemma DisplayNeverApplied(st: State, field: string, display: Value)
    requires field in st.popups
    ensures AppliedFilters(st.(popups := st.popups[field := st.popups[field].(display := display)]))
      == AppliedFilters(st)
  {
    var st' := st.(popups := st.popups[field := st.popups[field].(display := display)]);
    assert PopupEntries(st') == PopupEntries(st);
  }

  /** After a popup selection with a truthy key value, the request carries
      that value under the filter's field. */
  lemma PopupSelectionApplied(st: State, f: FilterItem, row: Row)
    requires Truthy(Get(row, f.popupKey))
    ensures var r := SelectPopupRow(st, Some(f), row);
      f.field in AppliedFilters(r) && AppliedFilters(r)[f.field] == Get(row, f.popupKey)
  {
    PopupWins(SelectPopupRow(st, Some(f), row), f.field);
  }

  /** A cleared popup no longer contributes to the request. */
  lemma ClearedPopupNotApplied(st: State, field: string)
    ensures AppliedFilters(ClearPopup(st, field)) == AppliedFilters(st.(popups := st.popups - {field}))
  {
    var a := ClearPopup(st, field);
    var b := st.(popups := st.popups - {field});
    assert PopupEntries(a) == PopupEntries(b);
    SamePopupEntriesSameFilters(a, b);
  }

  /** Popups reach the request only through their entries. */
  lemma SamePopupEntriesSameFilters(a: State, b: State)
    requires a.search == b.search && a.dates == b.dates && PopupEntries(a) == PopupEntries(b)
    ensures AppliedFilters(a) == AppliedFilters(b)
  {
    assert PlainEntries(a) == PlainEntries(b);
    assert FromEntries(a) == FromEntries(b);
    assert ToEntries(a) == ToEntries(b);
  }

  /** Nothing reaches the request after a reset. */
  lemma ResetClearsRequest(st: State, initial: map<string, string>)
    ensures AppliedFilters(Reset(st, initial)) == map[]
  {
  }

  /** The query parameters of a grid fetch for `page`. */
  function GridRequest(config: StructureConfig, st: State, user: Row, page: nat, pageSize: nat): (p: map<string, Value>)
    ensures p.Keys == Requests.FixedKeys + AppliedFilters(st).Keys
    ensures forall k :: k in AppliedFilters(st) ==> p[k] == AppliedFilters(st)[k]
  {
    Requests.RequestParams(config.service, config.serviceMethod, Requests.SiteOf(user), Requests.UserIdOf(user),
                           page, config.order, pageSize, AppliedFilters(st))
  }

  // ---------------------------------------------------------------------------
  // Properties of the group handlers
  // ---------------------------------------------------------------------------

  /** Switching a group to another field and back restores the plain values
      and the selection, when the value typed is non-empty and the other
      field held nothing. */
  lemma SwitchBackRestores(st: State, g: string, other: string)
    requires g in st.selections
    requires var a := st.selections[g]; a != other && a in st.search && st.search[a] != ""
    requires other !in st.search
    ensures var there := SelectGroupField(st, g, other);
      var back := SelectGroupField(there, g, st.selections[g]);
      back.search == st.search && back.selections == st.selections
  {
    var a := st.selections[g];
    var there := SelectGroupField(st, g, other);
    var back := SelectGroupField(there, g, a);
    assert back.search == ((st.search - {a})[other := st.search[a]] - {other})[a := st.search[a]];
    assert back.search == st.search;
  }

  /** Entering the same grouped value twice is the same as entering it once. */
  lemma GroupedValueIdempotent(st: State, rows: seq<ProcessedRow>, g: string, v: string)
    ensures SetGroupedValue(SetGroupedValue(st, rows, g, v), rows, g, v) == SetGroupedValue(st, rows, g, v)
  {
    if g in st.selections && st.selections[g] != "" {
      ReplaceGroupTwice(st.search, FieldsOf(FirstGroupItems(rows, g)), st.selections[g], v);
    }
  }

  /** Clearing the members and storing the value under the selected field a
      second time changes nothing. */
  lemma ReplaceGroupTwice(search: map<string, string>, members: set<string>, selected: string, v: string)
    ensures var once := if v != "" then (search - members)[selected := v] else search - members;
      (if v != "" then (once - members)[selected := v] else once - members) == once
  {
  }

  // ---------------------------------------------------------------------------
  // Handlers and the requests that follow them
  // ---------------------------------------------------------------------------

  /** The widget's handlers that touch the search state, and the pagination. */
  datatype Handler =
    | DateTyped(field: string, value: string, bound: Bound)
    | PlainTyped(field: string, value: string)
    | GroupFieldChosen(group: string, newField: string)
    | GroupValueTyped(rows: seq<ProcessedRow>, group: string, value: string)
    | PopupRowChosen(active: Option<FilterItem>, row: Row)
    | PopupCleared(field: string)
    | ResetPressed(initial: map<string, string>)
    | SearchPressed
    | PageChosen(page: nat)

  /** Whether the handler stores a new object in the plain, date or popup map.
      These maps are dependencies of `fetchData`, so a new one re-creates it
      and the page effect then requests the current page again. A select
      change without a value to carry over, a grouped value without a
      selected field and a popup choice without an open popup store nothing. */
  predicate ReplacesFilters(st: State, h: Handler) {
    match h
    case DateTyped(_, _, _) => true
    case PlainTyped(_, _) => true
    case GroupFieldChosen(g, _) => PlainValue(st, SelectedKey(st, g)) != ""
    case GroupValueTyped(_, g, _) => g in st.selections && st.selections[g] != ""
    case PopupRowChosen(active, _) => active.Some?
    case PopupCleared(_) => true
    case ResetPressed(_) => true
    case SearchPressed => false
    case PageChosen(_) => false
  }

  /** The state an edit leaves: the handler that the event calls. */
  function Edited(st: State, h: Handler): (r: State)
    requires !h.SearchPressed? && !h.PageChosen?
    ensures r.page == st.page
  {
    match h
    case DateTyped(field, value, bound) => SetDateBound(st, field, value, bound)
    case PlainTyped(field, value) => SetPlain(st, field, value)
    case GroupFieldChosen(g, field) => SelectGroupField(st, g, field)
    case GroupValueTyped(rows, g, value) => SetGroupedValue(st, rows, g, value)
    case PopupRowChosen(active, row) => SelectPopupRow(st, active, row)
    case PopupCleared(field) => ClearPopup(st, field)
    case ResetPressed(initial) => Reset(st, initial)
  }

  /** One handler run: the state it leaves and the pages fetched after it.
      An edit keeps the page and refetches it when it replaced a filter map;
      choosing another page fetches that page, and choosing the current one
      changes nothing. */
  function Handle(st: State, h: Handler): (r: Transition)
    ensures h.SearchPressed? ==> r == Search(st)
    ensures !h.SearchPressed? && !h.PageChosen? ==> r.state == Edited(st, h) && r.state.page == st.page
    ensures !h.SearchPressed? && !h.PageChosen? ==>
      r.fetches == (if ReplacesFilters(st, h) then [st.page] else [])
    ensures h.PageChosen? ==> r.state == st.(page := h.page)
    ensures h.PageChosen? ==> r.fetches == (if h.page == st.page then [] else [h.page])
  {
    if h.SearchPressed? then Search(st)
    else if h.PageChosen? then Transition(st.(page := h.page), if h.page == st.page then [] else [h.page])
    else Transition(Edited(st, h), if ReplacesFilters(st, h) then [st.page] else [])
  }

  /** The grid never keeps data for stale filters: whenever a handler fetches
      nothing, the filters a request would carry are those it carried before. */
  lemma NoFetchFiltersUnchanged(st: State, h: Handler)
    ensures Handle(st, h).fetches == [] ==> AppliedFilters(Handle(st, h).state) == AppliedFilters(st)
  {
    var r := Handle(st, h);
    if r.fetches == [] && !h.SearchPressed? {
      if h.PageChosen? {
        SameSearchSameFilters(r.state, st);
      } else if h.GroupFieldChosen? {
        var after := SelectGroupField(st, h.group, h.newField);
        assert r.state == after;
        SameSearchSameFilters(after, st);
      } else if h.GroupValueTyped? {
        assert r.state == SetGroupedValue(st, h.rows, h.group, h.value) == st;
      } else if h.PopupRowChosen? {
        assert r.state == SelectPopupRow(st, h.active, h.row) == st;
      }
    }
  }

  /** The filters depend only on the plain, date and popup maps. */
  lemma SameSearchSameFilters(a: State, b: State)
    requires a.search == b.search && a.dates == b.dates && a.popups == b.popups
    ensures AppliedFilters(a) == AppliedFilters(b)
  {
    assert PopupEntries(a) == PopupEntries(b);
    SamePopupEntriesSameFilters(a, b);
  }

  /** Every fetch after an edit requests the page the user is on, with the
      edited filters. */
  lemma EditRefetchesCurrentPage(st: State, h: Handler)
    requires !h.SearchPressed? && !h.PageChosen?
    ensures forall i :: 0 <= i < |Handle(st, h).fetches| ==> Handle(st, h).fetches[i] == Handle(st, h).state.page
    ensures |Handle(st, h).fetches| <= 1
  {
  }

  /** Typing the value a field already holds still refetches: the map is a
      new object even though no filter changed. */
  lemma RetypingRefetches(st: State, field: string)
    requires field in st.search
    ensures Handle(st, PlainTyped(field, st.search[field])).state == st
    ensures Handle(st, PlainTyped(field, st.search[field])).fetches == [st.page]
  {
    assert st.search[field := st.search[field]] == st.search;
  }

  /** A search from a later page requests page 1 twice. */
  lemma SearchFromLaterPageFetchesTwice(st: State)
    requires st.page != 1
    ensures Handle(st, SearchPressed).fetches == [1, 1]
  {
  }

  /** Reset always refetches the current page, even when nothing was set. */
  lemma ResetRefetches(st: State, initial: map<string, string>)
    ensures Handle(st, ResetPressed(initial)).fetches == [st.page]
    ensures AppliedFilters(Handle(st, ResetPressed(initial)).state) == map[]
  {
    assert Handle(st, ResetPressed(initial)).state == Reset(st, initial);
    ResetClearsRequest(st, initial);
  }
}
