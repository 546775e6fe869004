/**
 * The four static list widgets (contacts, sales, users, customers). They
 * share one search rule, one request shape and one response normalisation,
 * and differ only in the service, the sort order and the searchable columns.
 * The user list also maps the use flag to a label and shows empty dates as
 * blanks.
 */
module ListWidgets {
  import opened JsValues
  import Requests
  import Pagination

  datatype ListKind = Contacts | Sales | Users | Customers

  function ServiceOf(k: ListKind): string {
    match k
    case Contacts => "M_CONTACT"
    case Sales => "M_SALES"
    case Users => "M_USER"
    case Customers => "M_CUST"
  }

  function SortOf(k: ListKind): string {
    match k
    case Contacts => "CONTID DESC"
    case Sales => "SALESID DESC"
    case Users => "M_USER_NO DESC"
    case Customers => "CSTID DESC"
  }

  /** The columns the search select offers (its placeholder option is
      disabled, so the chosen column is `""` or one of these). */
  function ColumnsOf(k: ListKind): seq<string> {
    match k
    case Contacts => ["CTTUSER_NM", "CSTNAME", "COMPANY", "CTTDESC"]
    case Sales => ["SALENAME", "CLINAME", "OWNER_NM"]
    case Users => ["USER_CODE", "USER_NAME"]
    case Customers => ["CSTNAME", "COMPANY", "PHONE"]
  }

  /** The widget's state: the page, the page size, the chosen column, the
      typed keyword and the filters of the last accepted search. */
  datatype ListState = ListState(page: int, pageSize: nat, column: string, keyword: string,
                                 applied: map<string, string>)

  const Initial: ListState := ListState(1, 10, "", "", map[])

  datatype SearchOutcome = Rejected | Accepted(state: ListState)

  /** `handleSearch`: a keyword without a column is refused with an alert;
      otherwise the page goes back to 1 and the filters are replaced by the
      untrimmed keyword under the column, or by nothing when the keyword is
      blank. */
  function HandleSearch(st: ListState): (r: SearchOutcome)
    ensures r.Rejected? <==> st.keyword != "" && st.column == ""
    ensures r.Accepted? ==> r.state == st.(page := 1, applied := r.state.applied)
    ensures r.Accepted? ==> r.state.applied.Keys <= {st.column}
    ensures r.Accepted? ==> forall c :: c in r.state.applied ==> r.state.applied[c] == st.keyword
  {
    if st.keyword != "" && st.column == "" then Rejected
    else
      var filters := if Trim(st.keyword) != "" && st.column != "" then map[st.column := st.keyword] else map[];
      Accepted(st.(page := 1, applied := filters))
  }

  /** An accepted search filters on the chosen column exactly when the keyword
      holds something other than whitespace; a blank keyword clears the
      filters. */
  lemma SearchFiltersIffKeyword(st: ListState)
    requires HandleSearch(st).Accepted?
    ensures HandleSearch(st).state.applied != map[] <==> !AllWhitespace(st.keyword) && st.column != ""
    ensures HandleSearch(st).state.applied != map[] ==> HandleSearch(st).state.applied == map[st.column := st.keyword]
  {
    TrimEmptyIffBlank(st.keyword);
    var filters := HandleSearch(st).state.applied;
    if Trim(st.keyword) != "" && st.column != "" {
      assert st.column in filters;
    }
  }

  /** Searching again without typing anything gives the same state. */
  lemma SearchIdempotent(st: ListState)
    requires HandleSearch(st).Accepted?
    ensures HandleSearch(HandleSearch(st).state) == HandleSearch(st)
  {
  }

  /** The viewport rule: five rows on a narrow screen, else ten, and back to
      page 1 on every change. */
  function Resize(st: ListState, narrow: bool): (r: ListState)
    ensures r.page == 1
    ensures r.pageSize == 5 <==> narrow
    ensures r.pageSize == Pagination.BlockSize(narrow)
    ensures r.column == st.column && r.keyword == st.keyword && r.applied == st.applied
  {
    st.(pageSize := if narrow then 5 else 10, page := 1)
  }

  function AsValues(applied: map<string, string>): (m: map<string, Value>)
    ensures m.Keys == applied.Keys
    ensures forall k :: k in applied ==> m[k] == Str(applied[k])
  {
    map k | k in applied :: Str(applied[k])
  }

  /** The `/api/data/execute` parameters for the current page. */
  function ListRequest(k: ListKind, st: ListState, user: Row): (p: map<string, Value>)
    requires st.page >= 1
  {
    Requests.RequestParams(ServiceOf(k), "MLIST", Requests.SiteOf(user), Requests.UserIdOf(user),
                           st.page, SortOf(k), st.pageSize, AsValues(st.applied))
  }

  /** No searchable column is one of the fixed request parameters, so a
      filter never overrides them. */
  lemma ColumnsAreNotFixed(k: ListKind, c: string)
    requires c in ColumnsOf(k)
    ensures c !in Requests.FixedKeys
  {
  }

  /** After an accepted search the request asks for page 1 of the widget's
      service in its sort order, and carries the keyword under the chosen
      column whenever it filters. */
  lemma SearchRequest(k: ListKind, st: ListState, user: Row)
    requires HandleSearch(st).Accepted?
    requires st.column == "" || st.column in ColumnsOf(k)
    ensures var s := HandleSearch(st).state;
      var p := ListRequest(k, s, user);
      && p.Keys == Requests.FixedKeys + s.applied.Keys
      && p["_page"] == Num(1) && p["_size"] == Num(st.pageSize)
      && p["serviceName"] == Str(ServiceOf(k)) && p["_sort"] == Str(SortOf(k))
      && (!AllWhitespace(st.keyword) && st.column != "" ==> st.column in p && p[st.column] == Str(st.keyword))
  {
    var s := HandleSearch(st).state;
    SearchFiltersIffKeyword(st);
    if st.column != "" {
      ColumnsAreNotFixed(k, st.column);
    }
    assert s.applied.Keys !! Requests.FixedKeys by {
      assert s.applied.Keys <= {st.column};
    }
  }

  // ---------------------------------------------------------------------------
  // What the widget shows
  // ---------------------------------------------------------------------------

  /** The page count the pager works from: a non-negative numeric total, else 0. */
  function TotalOf(v: Value): (n: nat)
    ensures v.Num? && v.n >= 0 ==> n == v.n
  {
    if v.Num? && v.n >= 0 then v.n else 0
  }

  datatype ListView =
    | Loading
    | Failed(message: string)
    | NoData
    | Table(rows: seq<Row>, total: Value, pager: Pagination.Pager)

  /** The widget body after a response: a table with its pager when the
      normalised response has rows, the no-data message otherwise. */
  function ShowResponse(st: ListState, response: Requests.Payload, narrow: bool): (v: ListView)
    requires st.pageSize >= 1
    ensures v.NoData? <==> Requests.NormalizeResponse(response).0 == []
    ensures v.Table? ==> v.rows == Requests.NormalizeResponse(response).0 && v.total == Requests.NormalizeResponse(response).1
  {
    var (rows, total) := Requests.NormalizeResponse(response);
    if rows == [] then NoData
    else Table(rows, total, Pagination.Paginate(st.page, TotalOf(total), st.pageSize, narrow))
  }

  /** A response wrapped in an array shows what its first element shows. */
  lemma ArrayResponseShowsFirst(st: ListState, data: Option<seq<Row>>, total: Value,
                                rest: seq<Requests.Payload>, narrow: bool)
    requires st.pageSize >= 1
    ensures ShowResponse(st, Requests.List([Requests.Record(data, total)] + rest), narrow)
         == ShowResponse(st, Requests.Record(data, total), narrow)
  {
    Requests.ArrayWrappingIsTransparent(data, total, rest);
  }

  /** The user list's use column: `'1'` (the string) is in use, anything
      else, the number 1 included, is not. */
  function UseFlagLabel(flag: Value): (text: string)
    ensures text == "사용" <==> flag == Str("1")
    ensures text != "사용" ==> text == "미사용"
  {
    if flag == Str("1") then "사용" else "미사용"
  }

  /** Only the string `'1'` reads as in use. */
  lemma NumericFlagIsUnused()
    ensures UseFlagLabel(Num(1)) == "미사용"
    ensures UseFlagLabel(Str("1")) != UseFlagLabel(Str("0"))
  {
  }

  /** A date cell: the formatted date when the value is truthy, else blank. */
  function DateCell(v: Value, formatDate: Value -> string): (s: string)
    ensures !Truthy(v) ==> s == ""
    ensures Truthy(v) ==> s == formatDate(v)
  {
    if Truthy(v) then formatDate(v) else ""
  }
}
