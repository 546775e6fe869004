/**
 * The common-code cache (`getCommCodes`): one list of codes per code group,
 * fetched at most once while it is in flight and kept for good once it
 * arrives. The promise sharing of the source becomes a sequence of events:
 * a request, and the success or failure of the request in flight.
 */
module CommCodes {
  import opened JsValues
  import Requests

  datatype CommCode = CommCode(codeVal: string, codeName: string, codeGrp: string, codeNo: int)

  /** `codeCache` and `pendingRequests`: the groups whose codes arrived and the
      groups with a request in flight. */
  datatype Cache = Cache(cached: map<string, seq<CommCode>>, pending: set<string>)

  const Empty: Cache := Cache(map[], {})

  /** No group is both cached and in flight. */
  predicate Valid(c: Cache) {
    c.cached.Keys !! c.pending
  }

  datatype Event =
    | Request(group: string, user: Row)
    | Succeed(group: string, data: Option<seq<CommCode>>)
    | Fail(group: string)

  /** What the caller gets: the cached list, the request already in flight, a
      new request with its query parameters, or the settled result handed to
      everyone awaiting the request (`undefined` when the body had no data). */
  datatype Answer =
    | FromCache(codes: seq<CommCode>)
    | Shared(group: string)
    | Fetch(codeGrp: string, usite: Value)
    | Settled(group: string, result: Option<seq<CommCode>>)
    | NoRequest

  datatype StepResult = StepResult(cache: Cache, answer: Answer)

  /** The group an event is about. */
  function GroupOf(ev: Event): string {
    match ev
    case Request(g, _) => g
    case Succeed(g, _) => g
    case Fail(g) => g
  }

  /** One event. A request is served from the cache, then from the request in
      flight, and only otherwise sent, with the stored user's site number or 1.
      A success caches the data unless it is `undefined`; either outcome clears
      the in-flight entry, and a failure hands `[]` to the caller. A completion
      exists only for a request in flight: for any other group it is ignored. */
  function Step(c: Cache, ev: Event): (r: StepResult)
    ensures ev.Request? && ev.group in c.cached ==> r == StepResult(c, FromCache(c.cached[ev.group]))
    ensures ev.Request? && ev.group !in c.cached && ev.group in c.pending ==> r == StepResult(c, Shared(ev.group))
    ensures ev.Request? ==> (r.answer.Fetch? <==> ev.group !in c.cached && ev.group !in c.pending)
    ensures r.answer.Fetch? ==> ev.Request? && r.answer == Fetch(ev.group, Requests.SiteOf(ev.user))
                                && r.cache.pending == c.pending + {ev.group} && r.cache.cached == c.cached
    ensures !ev.Request? && GroupOf(ev) !in c.pending ==> r == StepResult(c, NoRequest)
    ensures !ev.Request? && GroupOf(ev) in c.pending ==> r.cache.pending == c.pending - {GroupOf(ev)}
    ensures ev.Fail? && ev.group in c.pending ==> r == StepResult(Cache(c.cached, c.pending - {ev.group}), Settled(ev.group, Some([])))
    ensures ev.Succeed? && ev.group in c.pending ==> r.answer == Settled(ev.group, ev.data)
    ensures ev.Succeed? && ev.group in c.pending && ev.data.Some? ==> r.cache.cached == c.cached[ev.group := ev.data.value]
    ensures ev.Succeed? && ev.data.None? ==> r.cache.cached == c.cached
  {
    match ev
    case Request(g, user) =>
      if g in c.cached then StepResult(c, FromCache(c.cached[g]))
      else if g in c.pending then StepResult(c, Shared(g))
      else StepResult(Cache(c.cached, c.pending + {g}), Fetch(g, Requests.SiteOf(user)))
    case Succeed(g, data) =>
      if g !in c.pending then StepResult(c, NoRequest)
      else
        var cached := if data.Some? then c.cached[g := data.value] else c.cached;
        StepResult(Cache(cached, c.pending - {g}), Settled(g, data))
    case Fail(g) =>
      if g !in c.pending then StepResult(c, NoRequest)
      else StepResult(Cache(c.cached, c.pending - {g}), Settled(g, Some([])))
  }

  /** Between events no group is both cached and in flight. */
  lemma StepKeepsValid(c: Cache, ev: Event)
    requires Valid(c)
    ensures Valid(Step(c, ev).cache)
  {
  }

  /** An event on one group leaves every other group's entries alone. */
  lemma StepFrame(c: Cache, ev: Event, h: string)
    requires h != GroupOf(ev)
    ensures var d := Step(c, ev).cache;
      && (h in d.cached <==> h in c.cached)
      && (h in c.cached ==> d.cached[h] == c.cached[h])
      && (h in d.pending <==> h in c.pending)
  {
  }

  /** A cached list is never dropped, replaced or fetched again. */
  lemma StepKeepsCache(c: Cache, ev: Event, h: string)
    requires Valid(c) && h in c.cached
    ensures h in Step(c, ev).cache.cached && Step(c, ev).cache.cached[h] == c.cached[h]
    ensures !(Step(c, ev).answer.Fetch? && GroupOf(ev) == h)
  {
  }

  /** A request issued for a group makes the next request for it wait on the
      same one instead of sending another. */
  lemma SecondRequestShares(c: Cache, g: string, u1: Row, u2: Row)
    requires g !in c.cached && g !in c.pending
    ensures Step(c, Request(g, u1)).answer.Fetch?
    ensures Step(Step(c, Request(g, u1)).cache, Request(g, u2)).answer == Shared(g)
  {
  }

  /** After a failure the group is neither cached nor in flight, so the next
      request for it is sent again. */
  lemma FailureAllowsRetry(c: Cache, g: string, user: Row)
    requires Valid(c) && g in c.pending
    ensures var d := Step(c, Fail(g)).cache;
      g !in d.cached && g !in d.pending && Step(d, Request(g, user)).answer.Fetch?
  {
  }

  /** After a success with data the group is served from the cache. */
  lemma SuccessServesFromCache(c: Cache, g: string, codes: seq<CommCode>, user: Row)
    requires g in c.pending
    ensures var d := Step(c, Succeed(g, Some(codes))).cache;
      Step(d, Request(g, user)) == StepResult(d, FromCache(codes))
  {
  }

  // ---------------------------------------------------------------------------
  // Runs of events
  // ---------------------------------------------------------------------------

  function Run(c: Cache, evs: seq<Event>): (d: Cache)
    decreases |evs|
  {
    if evs == [] then c else Run(Step(c, evs[0]).cache, evs[1..])
  }

  /** The number of requests a run sends for group `g`. */
  function Fetches(c: Cache, evs: seq<Event>, g: string): nat
    decreases |evs|
  {
    if evs == [] then 0
    else
      var r := Step(c, evs[0]);
      (if r.answer.Fetch? && r.answer.codeGrp == g then 1 else 0) + Fetches(r.cache, evs[1..], g)
  }

  /** The events of a run that can end a request for `g` without caching it. */
  function Misses(evs: seq<Event>, g: string): nat
    decreases |evs|
  {
    if evs == [] then 0
    else (if evs[0] == Fail(g) || evs[0] == Succeed(g, None) then 1 else 0) + Misses(evs[1..], g)
  }

  function Busy(c: Cache, g: string): nat {
    if g in c.cached || g in c.pending then 1 else 0
  }

  /** The cache stays valid over any run of events. */
  lemma {:induction false} RunKeepsValid(c: Cache, evs: seq<Event>)
    requires Valid(c)
    ensures Valid(Run(c, evs))
    decreases |evs|
  {
    if evs != [] {
      StepKeepsValid(c, evs[0]);
      RunKeepsValid(Step(c, evs[0]).cache, evs[1..]);
    }
  }

  /** A group that is cached stays cached with the same list over any run. */
  lemma {:induction false} RunKeepsCache(c: Cache, evs: seq<Event>, h: string)
    requires Valid(c) && h in c.cached
    ensures h in Run(c, evs).cached && Run(c, evs).cached[h] == c.cached[h]
    decreases |evs|
  {
    if evs != [] {
      StepKeepsValid(c, evs[0]);
      StepKeepsCache(c, evs[0], h);
      RunKeepsCache(Step(c, evs[0]).cache, evs[1..], h);
    }
  }

  /** No duplicate requests: over any run, a group is requested from the
      server at most once more than the number of failed or empty answers for
      it, and not at all while its first request is in flight or cached. */
  lemma {:induction false} FetchesBounded(c: Cache, evs: seq<Event>, g: string)
    ensures Fetches(c, evs, g) + Busy(c, g) <= 1 + Misses(evs, g)
    decreases |evs|
  {
    if evs != [] {
      var r := Step(c, evs[0]);
      FetchesBounded(r.cache, evs[1..], g);
    }
  }

  /** From an empty cache, a run without failures or empty answers sends at
      most one request per group. */
  lemma AtMostOneFetchPerGroup(evs: seq<Event>, g: string)
    requires Misses(evs, g) == 0
    ensures Fetches(Empty, evs, g) <= 1
  {
    FetchesBounded(Empty, evs, g);
  }
}
