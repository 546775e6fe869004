/**
 * The data-request shape shared by the dynamic grid and the four list
 * widgets: the fixed query parameters with the applied filters spread after
 * them, the session identifiers with their fallbacks, and the normalisation
 * of the `/api/data/execute` response to a row list and a total.
 */
module Requests {
  import opened JsValues

  /** The query parameters of `/api/data/execute`: the fixed ones, then the
      applied filters, which win on a clash because the spread comes last. */
  function RequestParams(service: string, serviceMethod: string, usite: Value, uid: Value,
                         page: nat, sort: string, size: nat, applied: map<string, Value>): (p: map<string, Value>)
    ensures p.Keys == FixedKeys + applied.Keys
    ensures forall k :: k in applied ==> p[k] == applied[k]
    ensures "serviceName" !in applied ==> p["serviceName"] == Str(service)
    ensures "methodName" !in applied ==> p["methodName"] == Str(serviceMethod)
    ensures "_page" !in applied ==> p["_page"] == Num(page)
    ensures "_sort" !in applied ==> p["_sort"] == Str(sort)
    ensures "_size" !in applied ==> p["_size"] == Num(size)
    ensures "USITE" !in applied ==> p["USITE"] == usite
    ensures "UID" !in applied ==> p["UID"] == uid
  {
    map[
      "serviceName" := Str(service), "methodName" := Str(serviceMethod),
      "USITE" := usite, "UID" := uid,
      "_page" := Num(page), "_sort" := Str(sort), "_size" := Num(size)
    ] + applied
  }

  const FixedKeys: set<string> := {"serviceName", "methodName", "USITE", "UID", "_page", "_sort", "_size"}

  /** The site number from the stored user, `1` when absent or falsy. */
  function SiteOf(user: Row): (usite: Value)
    ensures Truthy(usite)
    ensures Truthy(Get(user, "M_USITE_NO")) ==> usite == user["M_USITE_NO"]
    ensures !Truthy(Get(user, "M_USITE_NO")) ==> usite == Num(1)
  {
    var v := Get(user, "M_USITE_NO");
    if Truthy(v) then v else Num(1)
  }

  /** The user number from the stored user, `null` when absent or falsy. */
  function UserIdOf(user: Row): (uid: Value)
    ensures Truthy(Get(user, "M_USER_NO")) ==> uid == user["M_USER_NO"]
    ensures !Truthy(Get(user, "M_USER_NO")) ==> uid == Null
  {
    var v := Get(user, "M_USER_NO");
    if Truthy(v) then v else Null
  }

  /** The response body as the client sees it: `null` (or no body at all),
      anything else without rows, an object with optional `data` rows and a
      `totalCount`, or an array of bodies. */
  datatype Payload =
    | NullBody
    | Opaque
    | Record(data: Option<seq<Row>>, totalCount: Value)
    | List(items: seq<Payload>)

  /** `Array.isArray(d) ? d[0] : d`; the first element of an empty array is `undefined`. */
  function Unwrap(p: Payload): (q: Payload)
    ensures !p.List? ==> q == p
    ensures p.List? && p.items != [] ==> q == p.items[0]
    ensures p.List? && p.items == [] ==> q == Opaque
  {
    match p
    case List(items) => if items == [] then Opaque else items[0]
    case _ => p
  }

  /** The rows and total a list keeps: `data || []` and `totalCount || 0`. */
  function NormalizeResponse(p: Payload): (r: (seq<Row>, Value))
    ensures Truthy(r.1) || r.1 == Num(0)
  {
    var q := Unwrap(p);
    if q.Record? then
      (q.data.GetOr([]), if Truthy(q.totalCount) then q.totalCount else Num(0))
    else ([], Num(0))
  }

  /** An object body gives its rows and total, a falsy total (missing, 0,
      "", null) becoming 0, and wrapping it as the first element of an array
      changes nothing. */
  lemma ArrayWrappingIsTransparent(data: Option<seq<Row>>, total: Value, rest: seq<Payload>)
    ensures NormalizeResponse(List([Record(data, total)] + rest)) == NormalizeResponse(Record(data, total))
    ensures NormalizeResponse(Record(data, total)).0 == (if data.Some? then data.value else [])
    ensures Truthy(total) ==> NormalizeResponse(Record(data, total)).1 == total
    ensures !Truthy(total) ==> NormalizeResponse(Record(data, total)).1 == Num(0)
  {
  }

  /** Anything without an object in first place gives no rows and a zero total. */
  lemma NoRecordGivesDefaults(p: Payload)
    requires !Unwrap(p).Record?
    ensures NormalizeResponse(p) == ([], Num(0))
  {
  }
}
