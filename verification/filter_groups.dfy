/**
 * The filter pre-processing of the dynamic grid widget: each row of the
 * filter layout becomes a list of render units, where text filters sharing a
 * `groupName` collapse into one group unit (a field selector plus one input)
 * placed where the group's first member stood, and every other filter is a
 * unit of its own. The same pass records, per group, the field selected
 * initially.
 */
module FilterGroups {
  import opened JsValues
  import Seqs
  import opened GridConfig

  /** A filter takes part in a group when it is a text filter with a non-empty group name. */
  predicate IsGrouped(item: FilterItem) {
    item.filterType == Some(TextFilter) && item.groupName != ""
  }

  /** Membership in the group named `g`. */
  function InGroup(g: string): FilterItem -> bool {
    item => IsGrouped(item) && item.groupName == g
  }

  const Ungrouped: FilterItem -> bool := item => !IsGrouped(item)

  datatype Unit =
    | Single(item: FilterItem, key: string)
    | Group(groupName: string, items: seq<FilterItem>, key: string)

  datatype ProcessedRow = ProcessedRow(key: string, units: seq<Unit>)

  /** The React key of a single unit: its field, or `single-<index>` when the field is empty. */
  function SingleKey(item: FilterItem, index: nat): (key: string)
    ensures item.field != "" ==> key == item.field
    ensures item.field == "" ==> key == "single-" + NatToDecimal(index)
  {
    if item.field != "" then item.field else "single-" + NatToDecimal(index)
  }

  /** The group names used in `td[i..]`. */
  function NamesFrom(td: seq<FilterItem>, i: nat): set<string>
    requires i <= |td|
    decreases |td| - i
  {
    if i == |td| then {}
    else (if IsGrouped(td[i]) then {td[i].groupName} else {}) + NamesFrom(td, i + 1)
  }

  function GroupNames(td: seq<FilterItem>): set<string> {
    NamesFrom(td, 0)
  }

  /** The units of `td[i..]` when the groups in `seen` were already placed. */
  function UnitsFrom(td: seq<FilterItem>, i: nat, seen: set<string>): (r: seq<Unit>)
    requires i <= |td|
    ensures forall k :: 0 <= k < |r| && r[k].Group? ==>
      && r[k].groupName !in seen
      && r[k].key == r[k].groupName
      && r[k].items == Seqs.Filter(InGroup(r[k].groupName), td)
    ensures forall a, b :: 0 <= a < b < |r| && r[a].Group? && r[b].Group? ==> r[a].groupName != r[b].groupName
    decreases |td| - i
  {
    if i == |td| then []
    else if IsGrouped(td[i]) then
      var g := td[i].groupName;
      if g in seen then UnitsFrom(td, i + 1, seen)
      else [Group(g, Seqs.Filter(InGroup(g), td), g)] + UnitsFrom(td, i + 1, seen + {g})
    else [Single(td[i], SingleKey(td[i], i))] + UnitsFrom(td, i + 1, seen)
  }

  /** The render units of one filter row, in layout order. */
  function Units(td: seq<FilterItem>): seq<Unit> {
    UnitsFrom(td, 0, {})
  }

  function SinglesOf(units: seq<Unit>): seq<FilterItem> {
    if units == [] then []
    else (if units[0].Single? then [units[0].item] else []) + SinglesOf(units[1..])
  }

  function GroupNamesOf(units: seq<Unit>): set<string> {
    if units == [] then {}
    else (if units[0].Group? then {units[0].groupName} else {}) + GroupNamesOf(units[1..])
  }

  /** The field shown first for group `g`: that of its first member (`""` if it has none). */
  function LeadField(td: seq<FilterItem>, g: string): string {
    var j := Seqs.FindFirst(InGroup(g), td);
    if j < |td| then td[j].field else ""
  }

  // ---------------------------------------------------------------------------
  // Properties of one row
  // ---------------------------------------------------------------------------

  lemma {:induction false} NamesFromMembership(td: seq<FilterItem>, i: nat, g: string)
    requires i <= |td|
    ensures g in NamesFrom(td, i) <==> exists j :: i <= j < |td| && InGroup(g)(td[j])
    decreases |td| - i
  {
    if i < |td| {
      NamesFromMembership(td, i + 1, g);
    }
  }

  /** The single units are exactly the ungrouped filters, in layout order. */
  lemma {:induction false} SinglesAreUngrouped(td: seq<FilterItem>, i: nat, seen: set<string>)
    requires i <= |td|
    ensures SinglesOf(UnitsFrom(td, i, seen)) == Seqs.Filter(Ungrouped, td[i..])
    decreases |td| - i
  {
    if i < |td| {
      SinglesAreUngrouped(td, i + 1, seen);
      if IsGrouped(td[i]) && td[i].groupName !in seen {
        SinglesAreUngrouped(td, i + 1, seen + {td[i].groupName});
      }
      assert td[i..][1..] == td[i + 1..];
    }
  }

  /** Every group used in the row gets exactly one group unit, and no other group does. */
  lemma {:induction false} GroupUnitsCoverNames(td: seq<FilterItem>, i: nat, seen: set<string>)
    requires i <= |td|
    ensures GroupNamesOf(UnitsFrom(td, i, seen)) == NamesFrom(td, i) - seen
    decreases |td| - i
  {
    if i < |td| {
      if IsGrouped(td[i]) && td[i].groupName !in seen {
        GroupUnitsCoverNames(td, i + 1, seen + {td[i].groupName});
      } else {
        GroupUnitsCoverNames(td, i + 1, seen);
      }
    }
  }

  /** A row has one unit per ungrouped filter and one per distinct group name. */
  lemma {:induction false} UnitCount(td: seq<FilterItem>, i: nat, seen: set<string>)
    requires i <= |td|
    ensures |UnitsFrom(td, i, seen)| == |Seqs.Filter(Ungrouped, td[i..])| + |NamesFrom(td, i) - seen|
    decreases |td| - i
  {
    if i < |td| {
      UngroupedStep(td, i);
      var g := td[i].groupName;
      if IsGrouped(td[i]) && g !in seen {
        NewNameStep(td, i, seen);
        UnitCount(td, i + 1, seen + {g});
      } else {
        KnownNameStep(td, i, seen);
        UnitCount(td, i + 1, seen);
      }
    }
  }

  lemma UngroupedStep(td: seq<FilterItem>, i: nat)
    requires i < |td|
    ensures |Seqs.Filter(Ungrouped, td[i..])|
         == (if IsGrouped(td[i]) then 0 else 1) + |Seqs.Filter(Ungrouped, td[i + 1..])|
  {
    assert td[i..][0] == td[i] && td[i..][1..] == td[i + 1..];
  }

  /** A group name met for the first time adds one unit. */
  lemma NewNameStep(td: seq<FilterItem>, i: nat, seen: set<string>)
    requires i < |td| && IsGrouped(td[i]) && td[i].groupName !in seen
    ensures |NamesFrom(td, i) - seen| == 1 + |NamesFrom(td, i + 1) - (seen + {td[i].groupName})|
  {
    var g := td[i].groupName;
    var rest := NamesFrom(td, i + 1) - (seen + {g});
    assert NamesFrom(td, i) - seen == {g} + rest;
    assert g !in rest;
  }

  /** An ungrouped filter, or a group name already seen, adds no name. */
  lemma KnownNameStep(td: seq<FilterItem>, i: nat, seen: set<string>)
    requires i < |td| && !(IsGrouped(td[i]) && td[i].groupName !in seen)
    ensures NamesFrom(td, i) - seen == NamesFrom(td, i + 1) - seen
  {
  }

  // ---------------------------------------------------------------------------
  // Where each unit stands
  // ---------------------------------------------------------------------------

  /** Position `i` opens a unit: an ungrouped filter, or the first member of its group. */
  predicate OpensUnit(td: seq<FilterItem>, i: nat)
    requires i < |td|
  {
    !IsGrouped(td[i]) || forall j :: 0 <= j < i ==> !InGroup(td[i].groupName)(td[j])
  }

  /** The unit opened at position `i`: the filter itself keyed by its field or
      index, or the whole group keyed by its name. */
  function UnitAt(td: seq<FilterItem>, i: nat): Unit
    requires i < |td|
  {
    var g := td[i].groupName;
    if IsGrouped(td[i]) then Group(g, Seqs.Filter(InGroup(g), td), g)
    else Single(td[i], SingleKey(td[i], i))
  }

  /** The positions of `td[i..]` that open a unit, in increasing order. */
  function OpeningsFrom(td: seq<FilterItem>, i: nat): (r: seq<nat>)
    requires i <= |td|
    ensures forall k :: 0 <= k < |r| ==> i <= r[k] < |td| && OpensUnit(td, r[k])
    ensures forall a, b :: 0 <= a < b < |r| ==> r[a] < r[b]
    ensures forall j :: i <= j < |td| && OpensUnit(td, j) ==> j in r
    decreases |td| - i
  {
    if i == |td| then []
    else (if OpensUnit(td, i) then [i] else []) + OpeningsFrom(td, i + 1)
  }

  /** The group names used before position `i`. */
  function NamesBefore(td: seq<FilterItem>, i: nat): set<string>
    requires i <= |td|
  {
    set j | 0 <= j < i && IsGrouped(td[j]) :: td[j].groupName
  }

  lemma NamesBeforeStep(td: seq<FilterItem>, i: nat)
    requires i < |td|
    ensures IsGrouped(td[i]) ==> (td[i].groupName in NamesBefore(td, i) <==> !OpensUnit(td, i))
    ensures NamesBefore(td, i + 1) == NamesBefore(td, i) + (if IsGrouped(td[i]) then {td[i].groupName} else {})
  {
    var g := td[i].groupName;
    if IsGrouped(td[i]) && g in NamesBefore(td, i) {
      var j :| 0 <= j < i && IsGrouped(td[j]) && td[j].groupName == g;
      assert InGroup(g)(td[j]);
    }
  }

  /** `u` lists the units opened at the positions `r`, one for one. */
  predicate AtOpenings(td: seq<FilterItem>, u: seq<Unit>, r: seq<nat>) {
    |u| == |r| && forall k :: 0 <= k < |r| ==> r[k] < |td| && u[k] == UnitAt(td, r[k])
  }

  /** With the names of the earlier positions as `seen`, the units of
      `td[i..]` are the units opened at the opening positions, in order. */
  lemma {:induction false} UnitsFromAtOpenings(td: seq<FilterItem>, i: nat)
    requires i <= |td|
    ensures AtOpenings(td, UnitsFrom(td, i, NamesBefore(td, i)), OpeningsFrom(td, i))
    decreases |td| - i
  {
    if i < |td| {
      var u, r := UnitsFrom(td, i + 1, NamesBefore(td, i + 1)), OpeningsFrom(td, i + 1);
      UnitsFromAtOpenings(td, i + 1);
      UnitsFromStep(td, i);
      if OpensUnit(td, i) {
        PrependOpening(td, i, u, r);
      }
    }
  }

  /** One position further: an opening position contributes its unit, any
      other position nothing. */
  lemma UnitsFromStep(td: seq<FilterItem>, i: nat)
    requires i < |td|
    ensures OpensUnit(td, i) ==> OpeningsFrom(td, i) == [i] + OpeningsFrom(td, i + 1)
    ensures OpensUnit(td, i) ==>
      UnitsFrom(td, i, NamesBefore(td, i)) == [UnitAt(td, i)] + UnitsFrom(td, i + 1, NamesBefore(td, i + 1))
    ensures !OpensUnit(td, i) ==> OpeningsFrom(td, i) == OpeningsFrom(td, i + 1)
    ensures !OpensUnit(td, i) ==> UnitsFrom(td, i, NamesBefore(td, i)) == UnitsFrom(td, i + 1, NamesBefore(td, i + 1))
  {
    var seen, next := NamesBefore(td, i), NamesBefore(td, i + 1);
    NamesBeforeStep(td, i);
    if OpensUnit(td, i) {
      if IsGrouped(td[i]) {
        assert td[i].groupName !in seen && next == seen + {td[i].groupName};
      } else {
        assert next == seen;
      }
    } else {
      assert seen == next;
    }
  }

  lemma PrependOpening(td: seq<FilterItem>, i: nat, u: seq<Unit>, r: seq<nat>)
    requires i < |td| && AtOpenings(td, u, r)
    ensures AtOpenings(td, [UnitAt(td, i)] + u, [i] + r)
  {
  }

  /** A row's units stand in layout order: one per opening position (an
      ungrouped filter, or a group's first member), each the unit that
      position opens. A group unit therefore sits where its first member
      stood, between the single units around it. */
  lemma UnitsInLayoutOrder(td: seq<FilterItem>)
    ensures AtOpenings(td, Units(td), OpeningsFrom(td, 0))
  {
    assert NamesBefore(td, 0) == {};
    UnitsFromAtOpenings(td, 0);
  }

  /** A group whose members are split by a single filter stands before it,
      at its first member's place. */
  lemma GroupBeforeLaterSingle(a: FilterItem, b: FilterItem, c: FilterItem)
    requires IsGrouped(a) && IsGrouped(c) && a.groupName == c.groupName && !IsGrouped(b)
    ensures Units([a, b, c]) == [Group(a.groupName, [a, c], a.groupName), Single(b, SingleKey(b, 1))]
  {
    var td, g := [a, b, c], a.groupName;
    assert Seqs.Filter(InGroup(g), td) == [a, c] by {
      var p := InGroup(g);
      assert p(a) && !p(b) && p(c);
      assert td[1..] == [b, c] && [b, c][1..] == [c] && [c][1..] == [];
      assert Seqs.Filter(p, [c]) == [c] + Seqs.Filter(p, []);
      assert Seqs.Filter(p, [b, c]) == Seqs.Filter(p, [c]);
      assert Seqs.Filter(p, td) == [a] + Seqs.Filter(p, [b, c]);
    }
    assert td[0] == a && td[1] == b && td[2] == c;
    assert {} + {g} == {g};
    assert UnitsFrom(td, 2, {g}) == UnitsFrom(td, 3, {g}) == [];
    assert UnitsFrom(td, 1, {g}) == [Single(b, SingleKey(b, 1))] + [];
    assert UnitsFrom(td, 0, {}) == [Group(g, [a, c], g)] + UnitsFrom(td, 1, {g});
  }

  /** The row summary: singles in order, one group unit per name, and the count. */
  lemma RowUnits(td: seq<FilterItem>)
    ensures SinglesOf(Units(td)) == Seqs.Filter(Ungrouped, td)
    ensures GroupNamesOf(Units(td)) == GroupNames(td)
    ensures |Units(td)| == |Seqs.Filter(Ungrouped, td)| + |GroupNames(td)|
  {
    SinglesAreUngrouped(td, 0, {});
    assert td[0..] == td;
    GroupUnitsCoverNames(td, 0, {});
    UnitCount(td, 0, {});
  }

  /** The lead field of a used group is that of its first member, which is
      also the first item of its group unit. */
  lemma LeadFieldIsFirstMember(td: seq<FilterItem>, g: string)
    requires g in GroupNames(td)
    ensures Seqs.Filter(InGroup(g), td) != []
    ensures LeadField(td, g) == Seqs.Filter(InGroup(g), td)[0].field
  {
    NamesFromMembership(td, 0, g);
    Seqs.FilterHeadIsFindFirst(InGroup(g), td);
  }

  // ---------------------------------------------------------------------------
  // Initial group selections
  // ---------------------------------------------------------------------------

  /** The selections one row contributes: each of its groups starts on its first member. */
  function RowSelections(td: seq<FilterItem>): (m: map<string, string>)
    ensures m.Keys == GroupNames(td)
  {
    map g | g in GroupNames(td) :: LeadField(td, g)
  }

  /** `initialGroupSelections` for the entries `es`: rows are visited in order
      and a later row overwrites an earlier row's choice for the same group. */
  function SelectionsOf(es: seq<ViewEntry>): map<string, string>
    decreases |es|
  {
    if es == [] then map[]
    else
      var last := es[|es| - 1];
      SelectionsOf(es[..|es| - 1]) + (if last.Row? then RowSelections(last.td) else map[])
  }

  function InitialSelections(fv: Option<seq<ViewEntry>>): (m: map<string, string>)
    ensures fv.None? ==> m == map[]
  {
    if fv.None? then map[] else SelectionsOf(fv.value)
  }

  /** Entry `j` is the last row of `es` that uses group `g`. */
  predicate LastRowUsing(es: seq<ViewEntry>, j: int, g: string) {
    && 0 <= j < |es| && es[j].Row? && g in GroupNames(es[j].td)
    && forall k :: j < k < |es| && es[k].Row? ==> g !in GroupNames(es[k].td)
  }

  /** A group has an initial selection exactly when some row uses it. */
  lemma {:induction false} SelectedGroups(es: seq<ViewEntry>, g: string)
    ensures g in SelectionsOf(es) <==> exists j :: 0 <= j < |es| && es[j].Row? && g in GroupNames(es[j].td)
    decreases |es|
  {
    if es != [] {
      var n := |es| - 1;
      var init := es[..n];
      SelectedGroups(init, g);
      assert forall j :: 0 <= j < n ==> init[j] == es[j];
    }
  }

  /** The initial selection of a group is the lead field of the last row using it. */
  lemma {:induction false} LastRowWins(es: seq<ViewEntry>, g: string, j: int)
    requires LastRowUsing(es, j, g)
    ensures g in SelectionsOf(es) && SelectionsOf(es)[g] == LeadField(es[j].td, g)
    decreases |es|
  {
    var n := |es| - 1;
    var init := es[..n];
    var add := if es[n].Row? then RowSelections(es[n].td) else map[];
    assert SelectionsOf(es) == SelectionsOf(init) + add;
    if j < n {
      assert es[n].Row? ==> g !in GroupNames(es[n].td);
      assert g !in add;
      assert forall k :: 0 <= k < n ==> init[k] == es[k];
      assert LastRowUsing(init, j, g);
      LastRowWins(init, g, j);
    }
  }

  // ---------------------------------------------------------------------------
  // The whole filter layout
  // ---------------------------------------------------------------------------

  function RowKey(index: nat): string {
    "row-" + NatToDecimal(index)
  }

  /** The index a row key was made from. */
  function RowKeyIndex(key: string): nat {
    if |key| > 4 && forall i :: 4 <= i < |key| ==> IsDigit(key[i]) then DecimalValue(key[4..]) else 0
  }

  lemma RowKeyRoundTrip(index: nat)
    ensures RowKeyIndex(RowKey(index)) == index
  {
    var key := RowKey(index);
    assert key[4..] == NatToDecimal(index);
    DecimalRoundTrip(index);
  }

  /** `row` is the processed form of the row entry at the position its key names. */
  predicate ComesFrom(row: ProcessedRow, es: seq<ViewEntry>, offset: nat) {
    var j := RowKeyIndex(row.key);
    && row.key == RowKey(j)
    && offset <= j < offset + |es|
    && es[j - offset].Row?
    && row.units == Units(es[j - offset].td)
  }

  lemma ComesFromShift(row: ProcessedRow, es: seq<ViewEntry>, offset: nat)
    requires es != [] && ComesFrom(row, es[1..], offset + 1)
    ensures ComesFrom(row, es, offset)
  {
    var j := RowKeyIndex(row.key);
    assert es[1..][j - offset - 1] == es[j - offset];
  }

  /** Row entries starting at position `offset` of the layout become processed
      rows keyed by position, in layout order; bare filters are dropped. */
  function ProcessFrom(es: seq<ViewEntry>, offset: nat): (r: seq<ProcessedRow>)
    ensures forall k :: 0 <= k < |r| ==> ComesFrom(r[k], es, offset)
    ensures forall a, b :: 0 <= a < b < |r| ==> RowKeyIndex(r[a].key) < RowKeyIndex(r[b].key)
    decreases |es|
  {
    if es == [] then []
    else
      var rest := ProcessFrom(es[1..], offset + 1);
      if es[0].Row? then
        RowComesFirst(es, offset, rest);
        [ProcessedRow(RowKey(offset), Units(es[0].td))] + rest
      else
        ShiftAll(es, offset, rest);
        rest
  }

  lemma ShiftAll(es: seq<ViewEntry>, offset: nat, rest: seq<ProcessedRow>)
    requires es != [] && forall k :: 0 <= k < |rest| ==> ComesFrom(rest[k], es[1..], offset + 1)
    ensures forall k :: 0 <= k < |rest| ==> ComesFrom(rest[k], es, offset)
  {
    forall k | 0 <= k < |rest| ensures ComesFrom(rest[k], es, offset) {
      ComesFromShift(rest[k], es, offset);
    }
  }

  /** The row made from the entry at `offset` comes before the rows made from
      later entries. */
  lemma RowComesFirst(es: seq<ViewEntry>, offset: nat, rest: seq<ProcessedRow>)
    requires es != [] && es[0].Row?
    requires forall k :: 0 <= k < |rest| ==> ComesFrom(rest[k], es[1..], offset + 1)
    requires forall a, b :: 0 <= a < b < |rest| ==> RowKeyIndex(rest[a].key) < RowKeyIndex(rest[b].key)
    ensures var r := [ProcessedRow(RowKey(offset), Units(es[0].td))] + rest;
      && (forall k :: 0 <= k < |r| ==> ComesFrom(r[k], es, offset))
      && (forall a, b :: 0 <= a < b < |r| ==> RowKeyIndex(r[a].key) < RowKeyIndex(r[b].key))
  {
    var head := ProcessedRow(RowKey(offset), Units(es[0].td));
    var r := [head] + rest;
    assert r[0] == head && r[1..] == rest;
    ShiftAll(es, offset, rest);
    RestAfter(es, offset, rest);
    HeadComesFrom(es, offset);
  }

  lemma RestAfter(es: seq<ViewEntry>, offset: nat, rest: seq<ProcessedRow>)
    requires es != [] && forall k :: 0 <= k < |rest| ==> ComesFrom(rest[k], es[1..], offset + 1)
    ensures forall k :: 0 <= k < |rest| ==> RowKeyIndex(rest[k].key) > offset
  {
  }

  lemma HeadComesFrom(es: seq<ViewEntry>, offset: nat)
    requires es != [] && es[0].Row?
    ensures ComesFrom(ProcessedRow(RowKey(offset), Units(es[0].td)), es, offset)
    ensures RowKeyIndex(RowKey(offset)) == offset
  {
    RowKeyRoundTrip(offset);
  }

  /** `processedFilters`: empty without a layout. */
  function ProcessFilters(fv: Option<seq<ViewEntry>>): (r: seq<ProcessedRow>)
    ensures fv.None? ==> r == []
  {
    if fv.None? then [] else ProcessFrom(fv.value, 0)
  }

  /** Row keys are unique, so React can tell the rows apart. */
  lemma RowKeysDistinct(fv: Option<seq<ViewEntry>>)
    ensures var r := ProcessFilters(fv);
      forall a, b :: 0 <= a < b < |r| ==> r[a].key != r[b].key
  {
  }

  /** Exactly the row entries of the layout are processed. */
  lemma {:induction false} ProcessedRowCount(es: seq<ViewEntry>, offset: nat)
    ensures |ProcessFrom(es, offset)| == |Seqs.Filter((e: ViewEntry) => e.Row?, es)|
    decreases |es|
  {
    if es != [] {
      ProcessedRowCount(es[1..], offset + 1);
    }
  }

  /** The items of the group unit for `g` among `units`, if there is one. */
  function GroupUnitIn(units: seq<Unit>, g: string): (r: Option<seq<FilterItem>>)
    ensures r.None? <==> forall i :: 0 <= i < |units| ==> !(units[i].Group? && units[i].groupName == g)
    ensures r.Some? ==> exists i :: 0 <= i < |units| && units[i] == Group(g, r.value, units[i].key)
  {
    var j := Seqs.FindFirst((u: Unit) => u.Group? && u.groupName == g, units);
    if j < |units| then Some(units[j].items) else None
  }

  /** Row `k` is the first of `rows` with a unit for group `g`. */
  predicate FirstRowWithGroup(rows: seq<ProcessedRow>, k: int, g: string) {
    && 0 <= k < |rows| && GroupUnitIn(rows[k].units, g).Some?
    && forall m :: 0 <= m < k ==> GroupUnitIn(rows[m].units, g).None?
  }

  /** The members a grouped value change clears: those of the first processed
      row that has a unit for group `g`, none when no row has one. */
  function FirstGroupItems(rows: seq<ProcessedRow>, g: string): (items: seq<FilterItem>)
    ensures (forall k :: 0 <= k < |rows| ==> GroupUnitIn(rows[k].units, g).None?) ==> items == []
    ensures forall k :: FirstRowWithGroup(rows, k, g) ==> items == GroupUnitIn(rows[k].units, g).value
    ensures items != [] ==> exists k :: 0 <= k < |rows| && GroupUnitIn(rows[k].units, g) == Some(items)
  {
    if rows == [] then []
    else
      var found := GroupUnitIn(rows[0].units, g);
      if found.Some? then found.value
      else
        var rest := FirstGroupItems(rows[1..], g);
        assert forall k :: 1 <= k < |rows| ==> rows[1..][k - 1] == rows[k];
        rest
  }

  /** The members found for a group of the processed layout all belong to it. */
  lemma FirstGroupItemsBelong(fv: Option<seq<ViewEntry>>, g: string)
    ensures var items := FirstGroupItems(ProcessFilters(fv), g);
      forall i :: 0 <= i < |items| ==> InGroup(g)(items[i])
  {
    var rows := ProcessFilters(fv);
    var items := FirstGroupItems(rows, g);
    if items != [] {
      var k :| 0 <= k < |rows| && GroupUnitIn(rows[k].units, g) == Some(items);
      assert ComesFrom(rows[k], fv.value, 0);
      GroupUnitItemsBelong(fv.value[RowKeyIndex(rows[k].key)].td, g, items);
    }
  }

  /** A group unit of a filter row holds exactly the row's members of that group. */
  lemma GroupUnitItemsBelong(td: seq<FilterItem>, g: string, items: seq<FilterItem>)
    requires GroupUnitIn(Units(td), g) == Some(items)
    ensures forall i :: 0 <= i < |items| ==> InGroup(g)(items[i])
  {
    var units := Units(td);
    var i :| 0 <= i < |units| && units[i] == Group(g, items, units[i].key);
    assert items == Seqs.Filter(InGroup(g), td);
  }
}
