# monarch grid client — a Dafny model

monarch is a schema-driven business application. Its React client draws
most screens from a *structure*: a configuration object that lists a
grid's columns (`colModel`), its filter layout (`filterView`), its column
grid (`colgroup`) and its buttons. This project models the client's
deterministic core and proves properties of it:

- `stripJsonComments`, the relaxed-JSON cleaner. Pass 1 removes `//` and
  `/* */` comments outside string literals. Pass 2 removes trailing commas
  before `]` and `}`. Both are modelled as scanners that, at each position,
  either copy or delete a regular-expression match, the way a global
  `String.prototype.replace` does.
- The dynamic grid widget:
  - structure normalisation (default `colgroup` and buttons, re-chunking a
    flat filter list into rows);
  - grouping same-named text filters into one control, and the default
    field of each group;
  - the filter state machine: plain, date-range, grouped and popup filters,
    reset and search;
  - the request parameters the filters produce, and the CSV export;
  - the filter controls and their widths, the table and the mobile cards,
    and the filter buttons.
- The common-code cache, a per-group cache with an in-flight registry,
  modelled as a state machine over request, success and failure events.
- The two pagers, the application shell's menu routes and sidebar state,
  the four list widgets' search and response rules, and the two dashboard
  charts.

Modules follow the source components:

| module | file | source |
|---|---|---|
| `JsValues` | js_values.dfy | JavaScript values, `String()`, truthiness, `\s` whitespace, `trim` |
| `Seqs` | seqs.dfy | filter, find, subsequence, join |
| `Arith` | arith.dfy | ceiling division and small product facts |
| `StripComments` | strip_comments.dfy | `stripJsonComments` |
| `StripSamples` | strip_samples.dfy | the sample inputs of the stripper's own test script |
| `GridConfig` | grid_config.dfy | `parseConfig`, structure post-processing in `fetchStructure` |
| `Requests` | requests.dfy | the `/api/data/execute` parameters and response unwrapping |
| `FilterGroups` | filter_groups.dfy | the `processedFilters` memo and the initial group selections |
| `FilterState` | filter_state.dfy | the filter handlers and the `appliedFilters` merge |
| `GridFilters` | grid_filters.dfy | `GridFilters` (control dispatch, active field, widths) |
| `GridRender` | grid_render.dfy | `renderValue` and the chip colour |
| `MobileCard` | mobile_card.dfy | `MobileGridCard` |
| `GridTable` | grid_table.dfy | `GridTable` |
| `CsvExport` | csv_export.dfy | `handleExcelDownload`, with a reader proving the text decodes back |
| `FilterButtons` | filter_buttons.dfy | `FilterButtons` and the grid's button click |
| `CommCodes` | comm_code.dfy | `getCommCodes` |
| `Pagination` | pagination.dfy | `Pagination` and `GridPagination` |
| `Layout` | layout.dfy | `Layout` |
| `ListWidgets` | list_widgets.dfy | the contact, sales, user and customer list widgets |
| `Dashboard` | dashboard.dfy | the sales and customer status charts |

Several things the source takes from the outside become function
parameters:

- evaluating a configuration text (`new Function`);
- date formatting;
- `Number()`.

The stripper's sample script writes its inputs as template literals. The
script file has CRLF line endings, but a template literal reads each CRLF as
LF, so the samples are modelled with `"\n"`.

## Model

| member | source | states |
|---|---|---|
| StripComments.StripJsonComments | monarch-app/debug_strip_comments.js:2-24 | a non-string is returned unchanged; a string comes back as a string that is a subsequence of the input, so the cleaner only deletes |
| StripComments.StringLiteralLengthIff | monarch-app/debug_strip_comments.js:10 | the literal matcher accepts exactly the prefixes that are complete `"…"` literals with backslash escapes |
| StripComments.CommentPass | monarch-app/debug_strip_comments.js:10-15 | no contract of its own; `CommentPassKeepsLiteral`, `CommentPassDropsLineComment`, `CommentPassDropsBlockComment`, `CommentPassDeletesOnly` and `CommentPassOnPieces` state that string literals are copied, comments removed, and nothing else changed |
| StripComments.CommentPassKeepsLiteral | monarch-app/debug_strip_comments.js:10-15 | a complete string literal is copied verbatim by the comment pass |
| StripComments.CommentPassDropsLineComment | monarch-app/debug_strip_comments.js:10-15 | a `//` comment is deleted up to, but not including, the line terminator |
| StripComments.CommentPassDropsBlockComment | monarch-app/debug_strip_comments.js:10-15 | a block comment closed by its first `*/` is deleted, across lines |
| StripComments.CommentPassCopiesPlain | monarch-app/debug_strip_comments.js:10-15 | a character other than `"` and `/` is copied |
| StripComments.CommentPassCopiesUnterminatedQuote | monarch-app/debug_strip_comments.js:10-15 | a `"` that starts no complete literal is copied as an ordinary character |
| StripComments.CommentPassCopiesUnclosedBlock | monarch-app/debug_strip_comments.js:10-15 | a `/*` with no closing `*/` is copied as an ordinary character |
| StripComments.CommentPassCopiesLoneSlash | monarch-app/debug_strip_comments.js:10-15 | a `/` not followed by `/` or `*` is copied |
| StripComments.CommentPassDeletesOnly | monarch-app/debug_strip_comments.js:10-15 | the comment pass's output is a subsequence of its input |
| StripComments.CommentPassOnPieces | monarch-app/debug_strip_comments.js:10-15 | on a well-formed sequence of literals, comments and plain text, the comment pass keeps exactly the non-comment pieces |
| StripComments.CommaPass | monarch-app/debug_strip_comments.js:21-23 | no contract of its own; `CommaPassKeepsLiteral`, `CommaPassDropsTrailingComma`, `CommaPassKeepsOtherComma`, `CommaPassDeletesOnly` and `CommaPassOnPieces` state that only a comma followed by whitespace and a closer is removed |
| StripComments.CommaPassKeepsLiteral | monarch-app/debug_strip_comments.js:21-23 | a complete string literal, commas included, is copied verbatim by the comma pass |
| StripComments.CommaPassDropsTrailingComma | monarch-app/debug_strip_comments.js:21-23 | a comma, the whitespace after it and nothing else are deleted before `]` or `}`; the bracket is kept |
| StripComments.CommaPassKeepsOtherComma | monarch-app/debug_strip_comments.js:21-23 | a comma that no whitespace run leads to a closer is kept |
| StripComments.CommaPassDeletesOnly | monarch-app/debug_strip_comments.js:21-23 | the comma pass's output is a subsequence of its input |
| StripComments.CommaPassOnPieces | monarch-app/debug_strip_comments.js:21-23 | on a well-formed sequence of literals, commas and text, the comma pass keeps everything but the trailing commas |
| StripComments.StripDropsCommaBeforeCommentedCloser | monarch-app/debug_strip_comments.js:52-60 | a comma separated from its closer only by whitespace and comments is removed, because comments go first |
| StripComments.LiteralContentsSurvive | monarch-app/debug_strip_comments.js:69 | a literal holding comment markers or commas passes both passes intact |
| StripComments.EmptyLiteralSurvives | monarch-app/debug_strip_comments.js:73 | the empty literal `""` passes both passes intact |
| StripComments.StripLeavesCleanInput | monarch-app/debug_strip_comments.js:69-74 | input without comments and trailing commas comes back unchanged |
| StripSamples.CommentedOutButtons | monarch-app/debug_strip_comments.js:52-60 | the tail of the user case, a comma, three commented-out button lines and then `],` and `}`, becomes `}]}` for any whitespace between the tokens |
| StripSamples.TrailingCommaInArray | monarch-app/debug_strip_comments.js:65 | `[ a, b, ]` becomes `[ a, b]`: the comma before the element stays, the one before `]` goes with its whitespace, for any whitespace |
| StripSamples.CommentMarkersInLiteralsKept | monarch-app/debug_strip_comments.js:69 | a two-entry object whose literals hold comment markers is unchanged, for any whitespace between the tokens |
| StripSamples.OneEntryObjectUnchanged | monarch-app/debug_strip_comments.js:73 | a one-entry object `{ "k": "v" }` is unchanged, for any whitespace inside the braces |
| StripSamples.BlockCommentBeforeTrailingComma | monarch-app/debug_strip_comments.js:77-79 | an entry followed by a block comment and a trailing comma loses both, and the whitespace after the comma, for any whitespace |
| StripSamples.NestedStructure | monarch-app/debug_strip_comments.js:83-88 | the nested array with line comments after each comma loses the comments and both trailing commas while the comma before the object stays, for any whitespace where each comment is followed by a line break |
| GridConfig.ParseConfig | monarch-app/src/components/widgets/DynamicGridWidget/utils.tsx:8-18 | an object is returned unchanged; a text is evaluated as `return <text>`: an exception gives the empty configuration, an object is used as it is, and a non-object result (`undefined`, `null`, a primitive) is passed through as no configuration |
| GridConfig.OrDefault | monarch-app/src/components/widgets/DynamicGridWidget.tsx:408-414 | a missing or empty list is replaced by the default, and a non-empty one is kept as it is |
| GridConfig.Chunk | monarch-app/src/components/widgets/DynamicGridWidget.tsx:419-427 | the rows concatenate back to the list; every row but the last holds exactly `n` items, and none is empty |
| GridConfig.ChunkCount | monarch-app/src/components/widgets/DynamicGridWidget.tsx:419-427 | the number of rows is the ceiling of the list length over `n` |
| GridConfig.Rechunk | monarch-app/src/components/widgets/DynamicGridWidget.tsx:416-430 | no contract of its own; `RechunkFlat` states that a flat list becomes full rows of `numCols` (the last possibly shorter) that read back as the original filters, and `Normalize` that a list of rows is left alone |
| GridConfig.Normalize | monarch-app/src/components/widgets/DynamicGridWidget.tsx:405-437 | a missing or empty `colgroup` and buttons get their defaults, a flat filter list is re-chunked by the column count, and nothing else changes |
| GridConfig.LoadStructure | monarch-app/src/components/widgets/DynamicGridWidget.tsx:405-418 | there is no structure exactly when the content is missing, an empty text, or a text whose evaluation yields no object; otherwise it is the parsed and normalised configuration |
| GridConfig.ThrowLoadsDefaultsNonObjectFails | monarch-app/src/components/widgets/DynamicGridWidget.tsx:405-446 | a text whose evaluation throws still loads with the empty configuration's defaults; one whose evaluation returns no object, such as blank text, fails the load |
| GridConfig.RechunkFlat | monarch-app/src/components/widgets/DynamicGridWidget.tsx:416-430 | re-chunking a flat filter list gives rows of `colgroup.length` items, all full but the last, that concatenate back to the list |
| GridConfig.NormalizeIdempotent | monarch-app/src/components/widgets/DynamicGridWidget.tsx:405-437 | normalising twice is normalising once |
| GridConfig.DefaultsOfEmptyConfig | monarch-app/src/components/widgets/DynamicGridWidget.tsx:408-437 | the defaults are three `100%` columns and the `List` and `initialize` buttons |
| Requests.RequestParams | monarch-app/src/components/widgets/DynamicGridWidget.tsx:485-494 | the keys are the fixed keys plus the filters; a filter overrides a fixed key of the same name, and each fixed key otherwise holds its value |
| Requests.SiteOf | monarch-app/src/components/widgets/DynamicGridWidget.tsx:460 | the user's site number when truthy, else 1; never falsy |
| Requests.UserIdOf | monarch-app/src/components/widgets/DynamicGridWidget.tsx:461 | the user's number when truthy, else `null` |
| Requests.Unwrap | monarch-app/src/components/widgets/DynamicGridWidget.tsx:497 | an array response stands for its first element; any other response for itself |
| Requests.NormalizeResponse | monarch-app/src/components/widgets/DynamicGridWidget.tsx:497-499 | the total is truthy or 0 |
| Requests.ArrayWrappingIsTransparent | monarch-app/src/components/widgets/ContactWidget.tsx:55-57 | a record wrapped in an array reads as the record; its rows default to `[]`, a truthy total is kept and a falsy one becomes 0 |
| Requests.NoRecordGivesDefaults | monarch-app/src/components/widgets/ContactWidget.tsx:55-57 | a response without a record reads as no rows and total 0 |
| FilterGroups.SingleKey | monarch-app/src/components/widgets/DynamicGridWidget.tsx:585 | a single unit's key is its field, or `single-<index>` without one |
| FilterGroups.UnitsFrom | monarch-app/src/components/widgets/DynamicGridWidget.tsx:570-588 | each group unit is keyed by its name and holds exactly the row's members of that group, in order; no group appears twice |
| FilterGroups.Units | monarch-app/src/components/widgets/DynamicGridWidget.tsx:569-588 | no contract of its own; `UnitsInLayoutOrder`, `GroupBeforeLaterSingle` and `RowUnits` state that each unit stands at its first position, a group holding every member of the row |
| FilterGroups.NamesFromMembership | monarch-app/src/components/widgets/DynamicGridWidget.tsx:550-557 | a name is a group name of the row exactly when some grouped text item carries it |
| FilterGroups.SinglesAreUngrouped | monarch-app/src/components/widgets/DynamicGridWidget.tsx:570-588 | the single units are exactly the ungrouped items, in order |
| FilterGroups.GroupUnitsCoverNames | monarch-app/src/components/widgets/DynamicGridWidget.tsx:570-588 | the group units are exactly the row's group names |
| FilterGroups.OpeningsFrom | monarch-app/src/components/widgets/DynamicGridWidget.tsx:569-588 | the positions that open a unit, increasing, and every one of them |
| FilterGroups.UnitsFromAtOpenings | monarch-app/src/components/widgets/DynamicGridWidget.tsx:569-588 | the units built from a position are the units at the opening positions from there on |
| FilterGroups.UnitsInLayoutOrder | monarch-app/src/components/widgets/DynamicGridWidget.tsx:569-588 | the units appear in the order of the positions that open them: an ungrouped item at its own position, a group at its first member's |
| FilterGroups.GroupBeforeLaterSingle | monarch-app/src/components/widgets/DynamicGridWidget.tsx:569-588 | a group whose first member precedes an ungrouped item is listed before it, with its later member pulled forward |
| FilterGroups.UnitCount | monarch-app/src/components/widgets/DynamicGridWidget.tsx:570-588 | the unit count is the number of ungrouped items plus the number of distinct group names |
| FilterGroups.RowUnits | monarch-app/src/components/widgets/DynamicGridWidget.tsx:542-593 | a row's units are its ungrouped items in order plus one unit per group name |
| FilterGroups.LeadFieldIsFirstMember | monarch-app/src/components/widgets/DynamicGridWidget.tsx:560-564 | a group's default field is the field of its first member |
| FilterGroups.RowSelections | monarch-app/src/components/widgets/DynamicGridWidget.tsx:560-564 | one default selection per group name of the row |
| FilterGroups.InitialSelections | monarch-app/src/components/widgets/DynamicGridWidget.tsx:540-564 | no filter layout gives no selections; a group has a selection exactly when some row holds it |
| FilterGroups.LastRowWins | monarch-app/src/components/widgets/DynamicGridWidget.tsx:560-564 | when several rows hold a group, the last such row's first member decides the default |
| FilterGroups.RowKeyRoundTrip | monarch-app/src/components/widgets/DynamicGridWidget.tsx:591 | a row key `row-<i>` gives back its index |
| FilterGroups.ProcessFrom | monarch-app/src/components/widgets/DynamicGridWidget.tsx:542-593 | every processed row comes from a layout row with units, and row keys increase |
| FilterGroups.ProcessFilters | monarch-app/src/components/widgets/DynamicGridWidget.tsx:521-598 | no filter layout gives no rows |
| FilterGroups.RowKeysDistinct | monarch-app/src/components/widgets/DynamicGridWidget.tsx:591 | processed rows have distinct keys |
| FilterGroups.ProcessedRowCount | monarch-app/src/components/widgets/DynamicGridWidget.tsx:544-593 | entries that are not rows are dropped; every row is kept |
| FilterGroups.GroupUnitIn | monarch-app/src/components/widgets/DynamicGridWidget.tsx:654-660 | finds a group unit by name exactly when one exists |
| FilterGroups.FirstGroupItems | monarch-app/src/components/widgets/DynamicGridWidget.tsx:654-660 | the members of the first row holding the group; none when no row holds it |
| FilterGroups.FirstGroupItemsBelong | monarch-app/src/components/widgets/DynamicGridWidget.tsx:654-660 | the members found all belong to the group |
| FilterState.Search | monarch-app/src/components/widgets/DynamicGridWidget.tsx:610-613 | a search goes back to page 1 and requests page 1 at once; from another page the page effect requests page 1 a second time; the filters stay |
| FilterState.Reset | monarch-app/src/components/widgets/DynamicGridWidget.tsx:615-620 | reset empties the plain, date and popup filters and restores the initial selections; the page stays |
| FilterState.SetDateBound | monarch-app/src/components/widgets/DynamicGridWidget.tsx:622-624 | sets one bound of one field, keeps the other bound and every other field |
| FilterState.SetPlain | monarch-app/src/components/widgets/DynamicGridWidget.tsx:626-628 | sets one plain filter and keeps every other |
| FilterState.SelectGroupField | monarch-app/src/components/widgets/DynamicGridWidget.tsx:630-644 | the selection always changes; a non-empty value moves from the old field to the new one, and an empty one leaves the filters alone |
| FilterState.FieldsOf | monarch-app/src/components/widgets/DynamicGridWidget.tsx:663-665 | exactly the fields of the items |
| FilterState.SetGroupedValue | monarch-app/src/components/widgets/DynamicGridWidget.tsx:646-674 | nothing happens without a selection; otherwise every member field is cleared and only the selected one is set, to a non-empty value |
| FilterState.SelectPopupRow | monarch-app/src/components/widgets/DynamicGridWidget.tsx:679-688 | without an open popup nothing changes; otherwise the row's key and display values are stored under the filter's field |
| FilterState.ClearPopup | monarch-app/src/components/widgets/DynamicGridWidget/GridFilters.tsx:95 | clears that popup's value and display and nothing else |
| FilterState.DateKeysDisjoint | monarch-app/src/components/widgets/DynamicGridWidget.tsx:473-482 | a `_FROM` key is never a `_TO` key |
| FilterState.FromKeyInjective | monarch-app/src/components/widgets/DynamicGridWidget.tsx:473-482 | distinct fields give distinct `_FROM` keys |
| FilterState.ToKeyInjective | monarch-app/src/components/widgets/DynamicGridWidget.tsx:473-482 | distinct fields give distinct `_TO` keys |
| FilterState.PlainEntries | monarch-app/src/components/widgets/DynamicGridWidget.tsx:473-474 | exactly the plain filters |
| FilterState.FromEntries | monarch-app/src/components/widgets/DynamicGridWidget.tsx:475-478 | one `_FROM` entry for each entered lower bound, and no others |
| FilterState.ToEntries | monarch-app/src/components/widgets/DynamicGridWidget.tsx:475-478 | one `_TO` entry for each entered upper bound, and no others |
| FilterState.PopupEntries | monarch-app/src/components/widgets/DynamicGridWidget.tsx:479-481 | one entry for each popup with a truthy value, holding that value |
| FilterState.AppliedFilters | monarch-app/src/components/widgets/DynamicGridWidget.tsx:473-482 | no contract of its own; `AppliedKeys`, `PopupWins`, `FromBoundBeatsPlain`, `ToBoundBeatsPlain` and `PlainWhenUnclaimed` state the merge order of plain, date and popup values |
| FilterState.AppliedKeys | monarch-app/src/components/widgets/DynamicGridWidget.tsx:473-482 | every applied key comes from a plain filter, a date bound or a popup |
| FilterState.PopupWins | monarch-app/src/components/widgets/DynamicGridWidget.tsx:473-482 | a set popup overrides every other source of the same key |
| FilterState.ToBoundBeatsPlain | monarch-app/src/components/widgets/DynamicGridWidget.tsx:473-482 | an entered upper bound overrides a plain filter of the same key |
| FilterState.FromBoundBeatsPlain | monarch-app/src/components/widgets/DynamicGridWidget.tsx:473-482 | an entered lower bound overrides a plain filter of the same key |
| FilterState.PlainWhenUnclaimed | monarch-app/src/components/widgets/DynamicGridWidget.tsx:473-482 | a plain filter no other source claims is applied as typed |
| FilterState.DisplayNeverApplied | monarch-app/src/components/widgets/DynamicGridWidget.tsx:479-481 | a popup's display text never reaches the request |
| FilterState.PopupSelectionApplied | monarch-app/src/components/widgets/DynamicGridWidget.tsx:679-688 | after a selection, a truthy key value is applied under the filter's field |
| FilterState.ClearedPopupNotApplied | monarch-app/src/components/widgets/DynamicGridWidget/GridFilters.tsx:95 | a cleared popup contributes nothing to the request |
| FilterState.ResetClearsRequest | monarch-app/src/components/widgets/DynamicGridWidget.tsx:615-620 | after reset the request carries no filters |
| FilterState.GridRequest | monarch-app/src/components/widgets/DynamicGridWidget.tsx:473-494 | the keys are the fixed keys plus the applied filters, which override |
| FilterState.SwitchBackRestores | monarch-app/src/components/widgets/DynamicGridWidget.tsx:630-644 | switching a group to another field and back returns the filters |
| FilterState.GroupedValueIdempotent | monarch-app/src/components/widgets/DynamicGridWidget.tsx:646-674 | entering the same grouped value twice is entering it once |
| FilterState.Edited | monarch-app/src/components/widgets/DynamicGridWidget.tsx:615-688 | each edit runs the handler its event calls, and none of them moves the page |
| FilterState.Handle | monarch-app/src/components/widgets/DynamicGridWidget.tsx:507-517 | an edit keeps the page and refetches it exactly when it stores a new plain, date or popup map; choosing another page fetches that page and choosing the current one nothing; search as above |
| FilterState.NoFetchFiltersUnchanged | monarch-app/src/components/widgets/DynamicGridWidget.tsx:507-517 | whenever a handler fetches nothing, the request's filters are those it had before, so the grid never keeps rows for stale filters |
| FilterState.SameSearchSameFilters | monarch-app/src/components/widgets/DynamicGridWidget.tsx:473-482 | the request's filters depend on the plain, date and popup maps only |
| FilterState.EditRefetchesCurrentPage | monarch-app/src/components/widgets/DynamicGridWidget.tsx:513-517 | an edit fetches at most once, and only the page the user is on |
| FilterState.RetypingRefetches | monarch-app/src/components/widgets/DynamicGridWidget.tsx:626-628 | typing the value a field already holds changes no filter and still refetches the current page |
| FilterState.SearchFromLaterPageFetchesTwice | monarch-app/src/components/widgets/DynamicGridWidget.tsx:610-613 | a search from a page other than 1 requests page 1 twice |
| FilterState.ResetRefetches | monarch-app/src/components/widgets/DynamicGridWidget.tsx:615-620 | reset refetches the current page, with no filters |
| GridFilters.FilterTypeOf | monarch-app/src/components/widgets/DynamicGridWidget/GridFilters.tsx:60 | a filter without a type is a text filter |
| GridFilters.BoundOf | monarch-app/src/components/widgets/DynamicGridWidget/GridFilters.tsx:70-80 | a field without a range shows empty bounds |
| GridFilters.DisplayOf | monarch-app/src/components/widgets/DynamicGridWidget/GridFilters.tsx:93 | the stored display of the popup, or nothing |
| GridFilters.ControlOf | monarch-app/src/components/widgets/DynamicGridWidget/GridFilters.tsx:59-114 | date ranges get a range control, popups a popup control showing the stored display, anything else a text input showing the plain filter |
| GridFilters.OnControl | monarch-app/src/components/widgets/DynamicGridWidget/GridFilters.tsx:63-112 | typing updates the field's filter and refetches the current page; Enter in a text input searches; the popup input opens the popup, or clears only its own field and refetches |
| GridFilters.TypedValueShown | monarch-app/src/components/widgets/DynamicGridWidget/GridFilters.tsx:70-107 | what is typed is what the control then shows |
| GridFilters.OtherBoundKept | monarch-app/src/components/widgets/DynamicGridWidget/GridFilters.tsx:71-81 | typing one bound keeps the other |
| GridFilters.ClearAffectsOnlyItsField | monarch-app/src/components/widgets/DynamicGridWidget/GridFilters.tsx:95 | clearing a popup leaves every other field's control alone |
| GridFilters.ActiveField | monarch-app/src/components/widgets/DynamicGridWidget/GridFilters.tsx:127-194 | the selected field of the group, else its first member's field, else none |
| GridFilters.InitialActiveField | monarch-app/src/components/widgets/DynamicGridWidget.tsx:560-564 | before any choice the active field of a group is the lead field of the last row that uses the group; only when that is empty do the group's own items decide |
| GridFilters.ActiveFieldOutsideClearedMembers | monarch-app/src/components/widgets/DynamicGridWidget.tsx:654-660 | with a group in two rows, the active field comes from the second row, and is not among the first row's members, which are the fields a grouped value clears |
| GridFilters.ChosenFieldActive | monarch-app/src/components/widgets/DynamicGridWidget/GridFilters.tsx:138-208 | a chosen field becomes the active field |
| GridFilters.TypedGroupValueShown | monarch-app/src/components/widgets/DynamicGridWidget/GridFilters.tsx:152-222 | a typed grouped value is shown by the group's input |
| GridFilters.OnGroup | monarch-app/src/components/widgets/DynamicGridWidget/GridFilters.tsx:138-223 | choosing switches the field and refetches only when a value moves with it; typing sets the grouped value and refetches only when the group has a selected field; only Enter searches |
| GridFilters.EnterAlwaysSearches | monarch-app/src/components/widgets/DynamicGridWidget/GridFilters.tsx:108-223 | Enter in a plain or grouped input does the same search of page 1 |
| GridFilters.Colspan | monarch-app/src/components/widgets/DynamicGridWidget/GridFilters.tsx:229 | at least 1; the configured colspan when set |
| GridFilters.TotalColumns | monarch-app/src/components/widgets/DynamicGridWidget.tsx:836 | the `colgroup` length, or 3 without one |
| GridFilters.MdSize | monarch-app/src/components/widgets/DynamicGridWidget/GridFilters.tsx:197-230 | at least 1 and otherwise `12·colspan/total` rounded half up, with no cap at 12 |
| GridFilters.MdSizeScale | monarch-app/src/components/widgets/DynamicGridWidget/GridFilters.tsx:230 | a full-row filter is 12 wide and a double one 24, so the width is not capped |
| GridFilters.MdSizeMonotone | monarch-app/src/components/widgets/DynamicGridWidget/GridFilters.tsx:230 | a wider colspan never gives a narrower control |
| GridFilters.SelectedItem | monarch-app/src/components/widgets/DynamicGridWidget/GridFilters.tsx:195 | the member whose field is active, or none when no member has it |
| GridFilters.UnitWidth | monarch-app/src/components/widgets/DynamicGridWidget/GridFilters.tsx:160-230 | full width on a phone; on a desktop a single filter's `MdSize` |
| GridFilters.GroupWidthFollowsActive | monarch-app/src/components/widgets/DynamicGridWidget/GridFilters.tsx:195-197 | a group is as wide as its active member would be alone |
| GridRender.TypeOf | monarch-app/src/components/widgets/DynamicGridWidget/utils.tsx:27 | a column without a type is a text column |
| GridRender.DisplayText | monarch-app/src/components/widgets/DynamicGridWidget/utils.tsx:26-44 | a date column with a truthy value shows the formatted date; anything else its string form, or nothing for null and undefined |
| GridRender.FalsyShownPlain | monarch-app/src/components/widgets/DynamicGridWidget/utils.tsx:27-44 | a falsy value skips date formatting: no text for null and undefined, its string form otherwise |
| GridRender.CharSumAppend | monarch-app/src/components/widgets/DynamicGridWidget/utils.tsx:38 | the UTF-16 code-unit sum of a concatenation is the sum of the parts' sums |
| GridRender.SurrogatePairHash | monarch-app/src/components/widgets/DynamicGridWidget/utils.tsx:38-39 | a character outside the basic plane adds both of its UTF-16 surrogates: U+1F600 sums to 0xD83D + 0xDE00 and gets the secondary colour |
| GridRender.ChipColorShift | monarch-app/src/components/widgets/DynamicGridWidget/utils.tsx:38-39 | a prefix whose sum is a multiple of 6 does not change the colour |
| GridRender.ChipColorOf | monarch-app/src/components/widgets/DynamicGridWidget/utils.tsx:34-41 | no contract of its own; `ChipColorShift`, `SurrogatePairHash` and `ChipColorsAgree` state the colour from the UTF-16 code-unit sum modulo 6 |
| GridRender.RenderValue | monarch-app/src/components/widgets/DynamicGridWidget/utils.tsx:26-45 | a chip exactly for a chip column with a truthy value, outlined and carrying the display text; otherwise the plain display text |
| GridRender.TableCellView | monarch-app/src/components/widgets/DynamicGridWidget/GridTable.tsx:79-86 | the table re-draws a chip filled and with the raw text; other cells as `renderValue` |
| GridRender.ChipColorsAgree | monarch-app/src/components/widgets/DynamicGridWidget/GridTable.tsx:79-86 | the table and `renderValue` give a value the same colour and differ only in the fill |
| GridRender.HeaderAlign | monarch-app/src/components/widgets/DynamicGridWidget/GridTable.tsx:59 | the header is centred unless the column says otherwise |
| GridRender.CellAlign | monarch-app/src/components/widgets/DynamicGridWidget/GridTable.tsx:90 | a cell is centred unless the column says otherwise |
| GridTable.KeyOf | monarch-app/src/components/widgets/DynamicGridWidget/GridTable.tsx:70-107 | the key value as text, and the index exactly when the key value is null or undefined |
| GridTable.Header | monarch-app/src/components/widgets/DynamicGridWidget/GridTable.tsx:56-63 | one header cell per column, with its caption and alignment |
| GridTable.BodyCells | monarch-app/src/components/widgets/DynamicGridWidget/GridTable.tsx:76-93 | one cell per column, as `TableCellView` draws it |
| GridTable.Render | monarch-app/src/components/widgets/DynamicGridWidget/GridTable.tsx:117-129 | loading shows the skeleton whatever the data; no rows shows the no-data message; otherwise one card or one table row per data row |
| GridTable.RowsInDataOrder | monarch-app/src/components/widgets/DynamicGridWidget/GridTable.tsx:68-113 | the i-th card or table row shows the i-th data row under its key |
| MobileCard.Card | monarch-app/src/components/widgets/DynamicGridWidget/MobileGridCard.tsx:23-28 | no card without columns; the title is the first column's text, or `-` |
| MobileCard.TitleFallback | monarch-app/src/components/widgets/DynamicGridWidget/MobileGridCard.tsx:27-28 | the title is `-` exactly for a missing or empty value |
| MobileCard.ImportantSplit | monarch-app/src/components/widgets/DynamicGridWidget/MobileGridCard.tsx:34-43 | with an important column, the preview holds exactly the important non-title columns and the detail the others |
| MobileCard.SplitIsPartition | monarch-app/src/components/widgets/DynamicGridWidget/MobileGridCard.tsx:34-47 | preview and detail keep the column order and together partition the non-title columns |
| MobileCard.NoImportantPreviewsAll | monarch-app/src/components/widgets/DynamicGridWidget/MobileGridCard.tsx:44-47 | without an important column every non-title column is previewed and there is no detail |
| MobileCard.CardClick | monarch-app/src/components/widgets/DynamicGridWidget/MobileGridCard.tsx:54-60 | a card with detail toggles; one without reports its row, when there is a handler |
| MobileCard.ExpandClick | monarch-app/src/components/widgets/DynamicGridWidget/MobileGridCard.tsx:49-52 | the expand button toggles and reports nothing |
| MobileCard.ToggleTwice | monarch-app/src/components/widgets/DynamicGridWidget/MobileGridCard.tsx:49-60 | two toggles restore the card |
| MobileCard.ReportsIffNoDetail | monarch-app/src/components/widgets/DynamicGridWidget/MobileGridCard.tsx:34-60 | a click reports the row exactly when no column is important or every one is |
| CsvExport.EscapeChar | monarch-app/src/components/widgets/DynamicGridWidget.tsx:711-713 | a quote is doubled; any other character is kept |
| CsvExport.QuoteAll | monarch-app/src/components/widgets/DynamicGridWidget.tsx:711-714 | every cell quoted, in order |
| CsvExport.RowCells | monarch-app/src/components/widgets/DynamicGridWidget.tsx:699-715 | one cell per column, in column order |
| CsvExport.Captions | monarch-app/src/components/widgets/DynamicGridWidget.tsx:696 | the column captions, in order |
| CsvExport.RowLines | monarch-app/src/components/widgets/DynamicGridWidget.tsx:699-715 | one line per data row, in order |
| CsvExport.BuildCsv | monarch-app/src/components/widgets/DynamicGridWidget.tsx:690-717 | nothing for an empty page, else a text |
| CsvExport.FieldRoundTrip | monarch-app/src/components/widgets/DynamicGridWidget.tsx:711-713 | a quoted field reads back as its text |
| CsvExport.RowRoundTrip | monarch-app/src/components/widgets/DynamicGridWidget.tsx:711-714 | a line reads back as its cells |
| CsvExport.RowsRoundTrip | monarch-app/src/components/widgets/DynamicGridWidget.tsx:699-717 | lines joined by newlines read back as the rows |
| CsvExport.CsvRoundTrip | monarch-app/src/components/widgets/DynamicGridWidget.tsx:690-717 | the export is a BOM, the captions joined by commas, a newline and a body that reads back as the cells of every row |
| CsvExport.RepeatedFieldExportedAlike | monarch-app/src/components/widgets/DynamicGridWidget.tsx:697-708 | two columns on the same field export the same cell |
| FilterButtons.HandlerOf | monarch-app/src/components/widgets/FilterButtons.tsx:39-45 | `List` searches, `initialize` resets, anything else is a custom button click |
| FilterButtons.MobileCandidates | monarch-app/src/components/widgets/FilterButtons.tsx:48-58 | a missing or empty configuration becomes exactly the two default buttons |
| FilterButtons.MobileButtons | monarch-app/src/components/widgets/FilterButtons.tsx:63-70 | the search button is a `List` button and no secondary button is |
| FilterButtons.MobileKeepsAllowed | monarch-app/src/components/widgets/FilterButtons.tsx:63-67 | a button is kept exactly when mobile-allowed or a search or reset button, in order |
| FilterButtons.MobileSecondaryRow | monarch-app/src/components/widgets/FilterButtons.tsx:69-70 | the secondary row is exactly the kept non-`List` buttons, in order, and with the `List` buttons it partitions the kept ones |
| FilterButtons.MobileSearchIsFirstListButton | monarch-app/src/components/widgets/FilterButtons.tsx:69 | the search button is the first kept `List` button |
| FilterButtons.MobileDefaults | monarch-app/src/components/widgets/FilterButtons.tsx:52-58 | with no configuration the phone shows search above reset |
| FilterButtons.DesktopView | monarch-app/src/components/widgets/FilterButtons.tsx:111-128 | a button keeps its caption and handler and is primary exactly for `List` |
| FilterButtons.DesktopButtons | monarch-app/src/components/widgets/FilterButtons.tsx:111-142 | every configured button in order, without mobile filtering; search then reset without a configuration |
| FilterButtons.DefaultsRenderAlike | monarch-app/src/components/widgets/DynamicGridWidget.tsx:432-437 | the grid's default buttons render as the component's own defaults |
| FilterButtons.Press | monarch-app/src/components/widgets/DynamicGridWidget.tsx:728-737 | a press searches, resets, or downloads exactly for a confirmed `excelDown` custom button |
| CommCodes.Step | monarch-app/src/api/commCode.ts:19-50 | a cached group is served from the cache, an in-flight one shares the request, and only otherwise one is sent with the site number; success caches defined data, and failure hands out `[]`; either clears the in-flight entry |
| CommCodes.StepKeepsValid | monarch-app/src/api/commCode.ts:11-49 | no group is both cached and in flight after any event |
| CommCodes.StepFrame | monarch-app/src/api/commCode.ts:11-49 | an event leaves every other group's entries alone |
| CommCodes.StepKeepsCache | monarch-app/src/api/commCode.ts:11-39 | a cached list is never dropped, replaced or fetched again |
| CommCodes.SecondRequestShares | monarch-app/src/api/commCode.ts:26-49 | a second request while the first is in flight shares it |
| CommCodes.FailureAllowsRetry | monarch-app/src/api/commCode.ts:42-46 | after a failure the next request is sent again |
| CommCodes.SuccessServesFromCache | monarch-app/src/api/commCode.ts:21-41 | after a success the group is served from the cache |
| CommCodes.RunKeepsValid | monarch-app/src/api/commCode.ts:11-49 | the invariant holds over any run of events |
| CommCodes.RunKeepsCache | monarch-app/src/api/commCode.ts:11-39 | a cached list survives any run unchanged |
| CommCodes.FetchesBounded | monarch-app/src/api/commCode.ts:19-50 | a run requests a group at most once more than it has failed or empty answers for it |
| CommCodes.AtMostOneFetchPerGroup | monarch-app/src/api/commCode.ts:19-50 | without failures a run requests each group at most once |
| CommCodes.Run | monarch-app/src/api/commCode.ts:11-50 | no contract of its own; `RunKeepsValid`, `RunKeepsCache`, `FetchesBounded` and `AtMostOneFetchPerGroup` state what a run of events keeps and how many requests it sends |
| Pagination.TotalPages | monarch-app/src/components/Pagination.tsx:31 | the least page count whose pages hold every row |
| Pagination.BlockSize | monarch-app/src/components/Pagination.tsx:30-36 | 5 exactly on a narrow viewport, else 10 |
| Pagination.PageButtons | monarch-app/src/components/Pagination.tsx:54-71 | the consecutive numbers from start to end, the current one active |
| Pagination.Paginate | monarch-app/src/components/Pagination.tsx:44-73 | hidden exactly when there is at most one page |
| Pagination.CurrentPageInBlock | monarch-app/src/components/Pagination.tsx:44-71 | for a page in range the block shown holds it, has at most one block of pages, and marks exactly it active |
| Pagination.BlockSharedWithinBlock | monarch-app/src/components/Pagination.tsx:44-46 | all pages of a block show the same block |
| Pagination.NavigationCrossesOneBlock | monarch-app/src/components/Pagination.tsx:63-72 | previous goes to the block before, and an enabled next to the block after, within range |
| Pagination.EndsOfRange | monarch-app/src/components/Pagination.tsx:62-73 | first and last go to the ends of the range and are disabled exactly there; previous is disabled exactly when it would go to page 0 |
| Pagination.GridPagination | monarch-app/src/components/widgets/DynamicGridWidget/GridPagination.tsx:23-34 | nothing when at most one page; otherwise the page count, the current page and the phone size |
| Pagination.PagersAgree | monarch-app/src/components/widgets/DynamicGridWidget/GridPagination.tsx:23-31 | both pagers appear for the same data and agree on the page count |
| Pagination.ShownIffMoreThanOnePage | monarch-app/src/components/Pagination.tsx:31-52 | a pager appears exactly when there are more rows than one page holds |
| Layout.OwnRoute | monarch-app/src/components/Layout.tsx:48-50 | the path wins, else the structure's grid page, else none |
| Layout.SubLink | monarch-app/src/components/Layout.tsx:164 | a sub-entry's link is never empty, and `#` only without a route |
| Layout.LinkPath | monarch-app/src/components/Layout.tsx:46-58 | the entry's own route, else its first sub-entry's route, else `#` |
| Layout.SubLinkIsLinkPath | monarch-app/src/components/Layout.tsx:52-57 | a sub-entry links where it would as an entry of its own |
| Layout.ParentLinksToFirstChild | monarch-app/src/components/Layout.tsx:52-57 | a parent without a route links where its first child does |
| Layout.MenuRoutes | monarch-app/src/components/Layout.tsx:28-58 | every entry and sub-entry of the fixed menu has a concrete route |
| Layout.OnShell | monarch-app/src/components/Layout.tsx:94-222 | a parent click toggles its accordion without navigating; a leaf click navigates and closes the phone menu; a route change closes both; only the pin toggles the pin |
| Layout.ParentClickTwice | monarch-app/src/components/Layout.tsx:94-100 | two clicks on a parent restore the shell, or close another expanded entry |
| Layout.LeafNavigationClosesAll | monarch-app/src/components/Layout.tsx:101-119 | following a leaf link to another route closes the phone menu and, through the route change, the accordion |
| Layout.LeafToCurrentRouteKeepsAccordion | monarch-app/src/components/Layout.tsx:100-118 | a leaf click that does not change the pathname closes only the phone menu; the accordion stays as it was |
| ListWidgets.HandleSearch | monarch-app/src/components/widgets/ContactWidget.tsx:66-77 | a keyword without a column is refused; otherwise page 1 and the filters replaced by at most the keyword under the column |
| ListWidgets.SearchFiltersIffKeyword | monarch-app/src/components/widgets/SalesWidget.tsx:72-75 | a search filters exactly when the keyword is not blank and a column is chosen, on the untrimmed keyword |
| ListWidgets.SearchIdempotent | monarch-app/src/components/widgets/UserWidget.tsx:66-77 | searching again changes nothing |
| ListWidgets.Resize | monarch-app/src/components/widgets/ContactWidget.tsx:24-33 | 5 rows exactly on a narrow viewport, else 10, back to page 1, filters kept |
| ListWidgets.ListRequest | monarch-app/src/components/widgets/ContactWidget.tsx:43-54 | no contract of its own; `SearchRequest` states the keys, page, size, service, sort and keyword of the request after a search |
| ListWidgets.SearchRequest | monarch-app/src/components/widgets/CustomerWidget.tsx:43-54 | after a search the request asks page 1 of the widget's service in its sort order and carries the keyword under the column |
| ListWidgets.ColumnsAreNotFixed | monarch-app/src/components/widgets/SalesWidget.tsx:94-98 | no searchable column is a fixed request key |
| ListWidgets.ShowResponse | monarch-app/src/components/widgets/ContactWidget.tsx:55-160 | no data exactly when the response has no rows; otherwise its rows and total |
| ListWidgets.ArrayResponseShowsFirst | monarch-app/src/components/widgets/CustomerWidget.tsx:55-57 | an array response shows what its first element shows |
| ListWidgets.TotalOf | monarch-app/src/components/widgets/ContactWidget.tsx:150-155 | a non-negative numeric total reaches the pager unchanged |
| ListWidgets.UseFlagLabel | monarch-app/src/components/widgets/UserWidget.tsx:141 | `사용` exactly for the string `'1'`, else `미사용` |
| ListWidgets.NumericFlagIsUnused | monarch-app/src/components/widgets/UserWidget.tsx:141 | the number 1 reads as unused |
| ListWidgets.DateCell | monarch-app/src/components/widgets/UserWidget.tsx:142-143 | blank for a falsy date, else the formatted date |
| Dashboard.ChartItems | monarch-app/src/components/widgets/dashboard/SalesStatusWidget.tsx:56-57 | only an array body's first record gives items; a missing `data` gives none; a `null` body fails the load |
| Dashboard.ObjectBodyHasNoItems | monarch-app/src/components/widgets/dashboard/CustomerStatusWidget.tsx:55-56 | an object body gives no chart items, unlike the list widgets |
| Dashboard.ArrayBodySameRows | monarch-app/src/components/widgets/dashboard/CustomerStatusWidget.tsx:55-56 | on an array body the charts read the rows the list widgets read; a `null` body fails the charts but not the lists |
| Dashboard.SalesRows | monarch-app/src/components/widgets/dashboard/SalesStatusWidget.tsx:58-63 | one row per item, in order |
| Dashboard.SalesChart | monarch-app/src/components/widgets/dashboard/SalesStatusWidget.tsx:54-63 | no contract of its own; `BuildSalesChart` and `SalesChartContents` state the header, then rows for exactly the items with a positive count, each row below the header positive |
| Dashboard.BuildSalesChart | monarch-app/src/components/widgets/dashboard/SalesStatusWidget.tsx:54-63 | the loop gives the header and a row for each positive item |
| Dashboard.SalesChartContents | monarch-app/src/components/widgets/dashboard/SalesStatusWidget.tsx:54-63 | the header first, then only positive rows, every positive item present |
| Dashboard.CustomerChart | monarch-app/src/components/widgets/dashboard/CustomerStatusWidget.tsx:53-60 | the header then one row per item, in order |
| Dashboard.BuildCustomerChart | monarch-app/src/components/widgets/dashboard/CustomerStatusWidget.tsx:53-60 | the loop gives the header and one row per item |
| Dashboard.View | monarch-app/src/components/widgets/dashboard/SalesStatusWidget.tsx:86-111 | no chart exactly when only the header is there; the table is the chart without the header |
| Dashboard.ToggleTable | monarch-app/src/components/widgets/dashboard/CustomerStatusWidget.tsx:88 | flips the table and keeps the chart |
| Dashboard.ToggleOnlyFlipsTable | monarch-app/src/components/widgets/dashboard/CustomerStatusWidget.tsx:88-109 | a toggle changes only the table's visibility |
| Dashboard.CustomerShownIffItems | monarch-app/src/components/widgets/dashboard/CustomerStatusWidget.tsx:84 | the customer chart shows exactly when there are items |
| Dashboard.MissingDataShowsNothing | monarch-app/src/components/widgets/dashboard/SalesStatusWidget.tsx:56-86 | missing data leaves only the header, which shows no chart |
| JsValues.Utf16Units | monarch-app/src/components/widgets/DynamicGridWidget/utils.tsx:38 | a basic-plane character is one code unit; any other is a high and a low surrogate that encode it |
| JsValues.Utf16Append | monarch-app/src/components/widgets/DynamicGridWidget/utils.tsx:38 | the UTF-16 form of a concatenation is the concatenation of the forms |
| JsValues.OptToString | monarch-app/src/components/widgets/DynamicGridWidget/utils.tsx:28 | no text exactly for null and undefined, else `String(value)` |
| JsValues.OrElse | monarch-app/src/components/widgets/DynamicGridWidget/MobileGridCard.tsx:28 | the text when non-empty, else the fallback |
| JsValues.TrueFlagCases | monarch-app/src/components/widgets/DynamicGridWidget/MobileGridCard.tsx:34 | `String(flag) === 'true'` exactly for `true` and `'true'` |
| JsValues.Trim | monarch-app/src/components/widgets/ContactWidget.tsx:73 | the result is the input without its leading and trailing whitespace: a whitespace run, the result, a whitespace run, with the result neither starting nor ending in whitespace |
| JsValues.TrimEmptyIffBlank | monarch-app/src/components/widgets/ContactWidget.tsx:73 | `trim()` is empty exactly for all-whitespace text |
| JsValues.DecimalRoundTrip | monarch-app/src/components/widgets/DynamicGridWidget.tsx:585 | a number's decimal form reads back as the number |

## Left out

- The configuration text's evaluation (`new Function('return ' + text)`) runs arbitrary JavaScript. It is a parameter of `ParseConfig` with three outcomes: an exception, a value that is not an object, or an object. `ParseConfig` models the object pass-through, the `return` prefix, the default after an exception and the pass-through of a non-object, which fails the load.
- Date formatting (`toISOString().slice(0, 10)`), `Number()` and `toLocaleString` depend on the JavaScript runtime and time zone. They are function parameters.
- GridConfig.ParseConfig: an evaluation that throws yields an empty `colModel`. In the widget the key stays `undefined` and the first `colModel.map` throws; that failure is not modelled.
- GridRender.DisplayText: `formatDate` is a total parameter. For a truthy value that is not a valid date, `toISOString` throws a `RangeError` and the render fails; that failure is not modelled.
- CsvExport.BuildCsv: the same `formatDate` throw aborts the export with no file; that failure is not modelled.
- ListWidgets.DateCell: `formatDate` is a total parameter. In `ContactWidget.tsx`, `SalesWidget.tsx` and `UserWidget.tsx` a truthy value that is not a valid date makes `toISOString` throw a `RangeError` and the list fails to render; that failure is not modelled.
- FilterState.Handle: the viewport effect, which sets the page size and page 1 and so refetches as well, is not modelled as a handler; nor are the first fetches after the structure loads.
- GridFilters.MdSize: computed with integers as `max(1, (24·colspan + total) div (2·total))`, which is `Math.round` for positive integers. A non-numeric colspan, where `Number` gives NaN, is not modelled.
- Numbers are integers throughout; floating-point values and NaN are not modelled.
- Transport and storage are not modelled: axios, the parameter injection in the axios instance, `sessionStorage` and `localStorage`.
- The browser is not modelled: media-query and scroll listeners, `alert` and `confirm`, the Blob download, and logout. The viewport and the confirmation are boolean inputs.
- Rendering is not modelled: React scheduling, MUI components, Google Charts and styling.
- CommCodes.Step: the promise sharing becomes a sequence of events. Real concurrency and interleaving inside one request are not modelled.
- The grid has no debounce, deduplication or stale-response guard, so none is modelled.
- Pagination.GridPagination: forwarding the chosen page to `onPageChange` is event wiring and not modelled.
- `GridTable.Render`, `Pagination.GridPagination`, `PagersAgree` and `ShownIffMoreThanOnePage` describe the component files `GridTable.tsx`, `GridPagination.tsx` and `Pagination.tsx`. `DynamicGridWidget.tsx` imports none of them: it renders its own filter area, table and an inline MUI pager, and that inline pager has no rule that hides it at one page or less. Its page choice is modelled by `FilterState.Handle`; its rendering is not modelled.
- Dashboard: the charts' request parameters are not modelled, only how the response becomes rows.
- The pagers require `pageSize >= 1`. The source divides by it and every caller passes 5, 10 or the grid's size.
- ListWidgets.TotalOf: a total that is not a non-negative number counts as 0 rows for the pager.
- The test script's `runTest` driver only prints. Its sample inputs are lemmas in `StripSamples`, with the literal bodies, the comment texts and the whitespace between tokens as parameters instead of the exact strings; each sample is the instance with the texts it shows.
- StripSamples.CommentedOutButtons: covers the commented-out tail of the user case. The live button lines before it are literals, which `LiteralContentsSurvive` covers.
- The inline copies of `MobileGridCard` and `renderValue` in `DynamicGridWidget.tsx` share one definition with the component files.
- The login, admin, main, dashboard and grid pages, `App.tsx`, `PopupFilterInput.tsx` and the build configuration are not modelled: they hold I/O, routing or presentation only.
- The superseded chart widgets outside `dashboard/` only fill a fixed table from a payload and are not modelled.
- The Java backend is not part of this model: its entities, SQL, controllers and authentication.
