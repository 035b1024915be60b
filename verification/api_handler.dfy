/** The HTTP helper of public/system/template/src/api_handler.py: GET with
    retries and back-off, JSON and text fetching, cursor pagination and a
    cached client session.

    The network is an input: for each request, the sequence of what each
    attempt meets (a response, a network error, a timeout). Sleeps are not
    time here: the helper returns the list of durations it waits, in
    seconds. */
module ApiHandler {
  import opened Options
  import opened Text
  import opened Json

  /** `RATE_LIMIT_SLEEP` of public/system/template/src/constants.py. */
  const RateLimitSleep: nat := 1

  /** The default of `max_retries` and `retries`. */
  const DefaultRetries: int := 5

  const UserAgent := "Mozilla/5.0 (compatible; RobloxDownloader/1.0)"

  function Pow(b: nat, e: nat): (r: nat)
    ensures b >= 1 ==> r >= 1
  {
    if e == 0 then 1 else b * Pow(b, e - 1)
  }

  /** What one attempt of `_get` meets. `contentType` is the response's
      Content-Type ("" when it has none) and `parsed` what `response.json()`
      yields (nothing when parsing fails). */
  datatype Attempt =
    | Response(status: int, headers: seq<(string, string)>, contentType: string,
               text: string, parsed: Option<Json>, url: string)
    | NetworkError   // ClientConnectionError, ServerDisconnectedError, ClientPayloadError
    | TimedOut       // asyncio.TimeoutError
    | OtherError     // any other exception, which `_get` does not catch

  /** The dict `_get` returns for a 200 response. */
  datatype Fetched = Fetched(status: int, headers: seq<(string, string)>, text: string, json: Json, url: string)

  /** `_get`'s result: the response dict, `None` once the retries are used
      up, or an exception passing through. */
  datatype GetOutcome = Got(fetched: Fetched) | GaveUp | GetRaised

  /** The body as JSON: parsed only when the Content-Type mentions
      application/json, and `None` when parsing fails. */
  function BodyJson(a: Attempt): (r: Json)
    requires a.Response?
    ensures !Contains(a.contentType, "application/json") ==> r == JNull
    ensures Contains(a.contentType, "application/json") && a.parsed.Some? ==> r == a.parsed.value
    ensures a.parsed.None? ==> r == JNull
  {
    if Contains(a.contentType, "application/json") then a.parsed.GetOr(JNull) else JNull
  }

  /** An attempt that ends `_get`: a 200 response, or an uncaught error. */
  predicate Settles(a: Attempt) {
    (a.Response? && a.status == 200) || a.OtherError?
  }

  /** The waits of an attempt that does not end `_get`: a 429 first waits
      `RATE_LIMIT_SLEEP ** attempt` while its status is handled; every
      non-200 response and every network error then backs off
      `RATE_LIMIT_SLEEP * 2 ** attempt`; a timeout retries at once. */
  function Waits(a: Attempt, attempt: nat): seq<nat> {
    match a
    case Response(status, _, _, _, _, _) =>
      (if status == 429 then [Pow(RateLimitSleep, attempt)] else [])
      + (if status != 200 then [RateLimitSleep * Pow(2, attempt)] else [])
    case NetworkError => [RateLimitSleep * Pow(2, attempt)]
    case TimedOut => []
    case OtherError => []
  }

  /** `_get` from attempt number `attempt` on: its result and the waits on
      the way. */
  function Retry(outcomes: seq<Attempt>, maxRetries: int, attempt: nat): (GetOutcome, seq<nat>)
    requires maxRetries <= |outcomes|
    decreases maxRetries - attempt
  {
    if attempt >= maxRetries then (GaveUp, [])
    else
      var a := outcomes[attempt];
      if a.OtherError? then (GetRaised, [])
      else if a.Response? && a.status == 200 then
        (Got(Fetched(a.status, a.headers, a.text, BodyJson(a), a.url)), [])
      else
        var rest := Retry(outcomes, maxRetries, attempt + 1);
        (rest.0, Waits(a, attempt) + rest.1)
  }

  /** When no attempt within the first `maxRetries` settles, `_get` gives
      up after all of them, and only then. */
  lemma {:induction false} RetryGivesUp(outcomes: seq<Attempt>, maxRetries: int, attempt: nat)
    requires maxRetries <= |outcomes|
    ensures Retry(outcomes, maxRetries, attempt).0 == GaveUp <==>
      forall i :: attempt <= i < maxRetries ==> !Settles(outcomes[i])
    decreases maxRetries - attempt
  {
    if attempt < maxRetries && !Settles(outcomes[attempt]) {
      RetryGivesUp(outcomes, maxRetries, attempt + 1);
    }
  }

  /** The first settling attempt decides: a 200 response is returned with
      its body, an uncaught error passes through. */
  lemma {:induction false} RetryFirstSettling(outcomes: seq<Attempt>, maxRetries: int, attempt: nat, i: nat)
    requires maxRetries <= |outcomes|
    requires attempt <= i < maxRetries && Settles(outcomes[i])
    requires forall j :: attempt <= j < i ==> !Settles(outcomes[j])
    ensures Retry(outcomes, maxRetries, attempt).0 ==
      if outcomes[i].OtherError? then GetRaised
      else Got(Fetched(200, outcomes[i].headers, outcomes[i].text, BodyJson(outcomes[i]), outcomes[i].url))
    decreases i - attempt
  {
    if attempt < i {
      RetryFirstSettling(outcomes, maxRetries, attempt + 1, i);
    }
  }

  /** The back-off doubles: every attempt that fails by status or network
      error waits `RATE_LIMIT_SLEEP * 2 ** attempt`, and a 429 waits
      `RATE_LIMIT_SLEEP ** attempt` before that. */
  lemma WaitsDouble(a: Attempt, attempt: nat)
    ensures (a.NetworkError? || (a.Response? && a.status != 200 && a.status != 429)) ==>
      Waits(a, attempt) == [RateLimitSleep * Pow(2, attempt)]
    ensures a.Response? && a.status == 429 ==>
      Waits(a, attempt) == [Pow(RateLimitSleep, attempt), RateLimitSleep * Pow(2, attempt)]
    ensures a.TimedOut? || Settles(a) ==> Waits(a, attempt) == []
    ensures Pow(2, attempt + 1) == 2 * Pow(2, attempt)
  {
  }

  lemma WaitsAppend(a: seq<nat>, b: seq<nat>, c: seq<nat>)
    ensures (a + b) + c == a + (b + c)
  {
  }

  /** A request whose every attempt meets a network error waits 1, 2, 4, ...
      seconds (times `RATE_LIMIT_SLEEP`) and gives up. */
  lemma {:induction false} NetworkDownWaits(outcomes: seq<Attempt>, maxRetries: int, attempt: nat)
    requires maxRetries <= |outcomes|
    requires forall i :: 0 <= i < |outcomes| ==> outcomes[i] == NetworkError
    ensures Retry(outcomes, maxRetries, attempt).0 == GaveUp
    ensures |Retry(outcomes, maxRetries, attempt).1| == if attempt < maxRetries then maxRetries - attempt else 0
    ensures forall k :: 0 <= k < |Retry(outcomes, maxRetries, attempt).1| ==>
      Retry(outcomes, maxRetries, attempt).1[k] == RateLimitSleep * Pow(2, attempt + k)
    decreases maxRetries - attempt
  {
    if attempt < maxRetries {
      NetworkDownWaits(outcomes, maxRetries, attempt + 1);
      var rest := Retry(outcomes, maxRetries, attempt + 1).1;
      var all := Retry(outcomes, maxRetries, attempt).1;
      assert all == [RateLimitSleep * Pow(2, attempt)] + rest;
      forall k | 0 <= k < |all|
        ensures all[k] == RateLimitSleep * Pow(2, attempt + k)
      {
        if k > 0 {
          assert all[k] == rest[k - 1];
        }
      }
    }
  }

  /** Something a fetch helper returns: an exception passing through,
      `None`, or a value. */
  datatype Answer<T> = Raised | Nothing | Value(value: T)

  /** `fetch_json`'s answer from `_get`'s: `None` when there is no response
      or its json is falsy. */
  function JsonAnswer(r: GetOutcome): (a: Answer<Json>)
    ensures a.Value? <==> r.Got? && Truthy(r.fetched.json)
    ensures a.Value? ==> a.value == r.fetched.json
    ensures a.Raised? <==> r.GetRaised?
  {
    match r
    case GetRaised => Raised
    case GaveUp => Nothing
    case Got(f) => if Truthy(f.json) then Value(f.json) else Nothing
  }

  /** `fetch_text`'s answer: `None` when there is no response or its text is
      empty. */
  function TextAnswer(r: GetOutcome): (a: Answer<string>)
    ensures a.Value? <==> r.Got? && r.fetched.text != ""
    ensures a.Value? ==> a.value == r.fetched.text
    ensures a.Raised? <==> r.GetRaised?
  {
    match r
    case GetRaised => Raised
    case GaveUp => Nothing
    case Got(f) => if f.text != "" then Value(f.text) else Nothing
  }

  /** What one page answer contributes to `fetch_paginated_data`: the end of
      the loop, an exception, or the page's items and its next cursor. */
  datatype PageStep = StopPaging | PageRaised | NextPage(items: seq<Json>, cursor: Json)

  /** What `all_data.extend(value)` appends: a list's items, a string's
      characters, a dict's keys; other values raise `TypeError`. */
  function Iterated(j: Json): Option<seq<Json>> {
    match j
    case JArr(items) => Some(items)
    case JStr(s) => Some(seq(|s|, i requires 0 <= i < |s| => JStr([s[i]])))
    case JObj(fields) => Some(seq(|fields|, i requires 0 <= i < |fields| => JStr(fields[i].0)))
    case _ => None
  }

  /** One pass of the `while True` loop after the request: a missing or
      falsy answer, or one without "data", ends the loop. `"data" in x` and
      `x["data"]` on a list or string that mentions "data" raise, as does
      `in` on a number or `True`. */
  function Step(answer: Answer<Json>): PageStep {
    match answer
    case Raised => PageRaised
    case Nothing => StopPaging
    case Value(j) =>
      if !Truthy(j) then StopPaging
      else
        match j
        case JObj(fields) =>
          if !HasKey(fields, "data") then StopPaging
          else (
            match Iterated(Get(fields, "data").value)
            case None => PageRaised
            case Some(items) => NextPage(items, GetOrNull(fields, "nextPageCursor")))
        case JArr(a) => if JStr("data") in a then PageRaised else StopPaging
        case JStr(s) => if Contains(s, "data") then PageRaised else StopPaging
        case _ => PageRaised
  }

  /** The result of `fetch_paginated_data`: the collected items, an
      exception, or (when the given answers run out while the loop would ask
      for another page) the items so far. */
  datatype Paged = Done(data: seq<Json>) | PagingRaised | Unfinished(data: seq<Json>)

  function Prepend(items: seq<Json>, p: Paged): (r: Paged) {
    match p
    case Done(d) => Done(items + d)
    case PagingRaised => PagingRaised
    case Unfinished(d) => Unfinished(items + d)
  }

  lemma PrependTwice(a: seq<Json>, b: seq<Json>, p: Paged)
    ensures Prepend(a, Prepend(b, p)) == Prepend(a + b, p)
  {
  }

  /** The pages from number `k` on, each page's items in order, up to the
      page that ends the loop: one with no usable answer, or one whose
      next cursor is falsy. */
  function Gather(answers: seq<Answer<Json>>, k: nat): Paged
    requires k <= |answers|
    decreases |answers| - k
  {
    if k == |answers| then Unfinished([])
    else
      match Step(answers[k])
      case StopPaging => Done([])
      case PageRaised => PagingRaised
      case NextPage(items, cursor) =>
        if !Truthy(cursor) then Done(items) else Prepend(items, Gather(answers, k + 1))
  }

  /** How many pages the loop requests from number `k` on. */
  function Requested(answers: seq<Answer<Json>>, k: nat): (n: nat)
    requires k <= |answers|
    ensures k + n <= |answers|
    decreases |answers| - k
  {
    if k == |answers| then 0
    else
      match Step(answers[k])
      case NextPage(_, cursor) => if Truthy(cursor) then 1 + Requested(answers, k + 1) else 1
      case _ => 1
  }

  /** The answers past the last requested page are never looked at: two
      runs that agree on the requested pages collect the same result. */
  lemma {:induction false} OnlyRequestedPagesMatter(a: seq<Answer<Json>>, b: seq<Answer<Json>>, k: nat)
    requires k <= |a| && k <= |b|
    requires !Gather(a, k).Unfinished?
    requires k + Requested(a, k) <= |b| && a[k..k + Requested(a, k)] == b[k..k + Requested(a, k)]
    ensures Gather(b, k) == Gather(a, k)
    decreases |a| - k
  {
    assert a[k] == a[k..k + Requested(a, k)][0];
    assert b[k] == b[k..k + Requested(a, k)][0];
    if Step(a[k]).NextPage? && Truthy(Step(a[k]).cursor) {
      var n := Requested(a, k);
      assert a[k + 1..k + n] == a[k..k + n][1..];
      assert b[k + 1..k + n] == b[k..k + n][1..];
      OnlyRequestedPagesMatter(a, b, k + 1);
    }
  }

  /** A page with no items and a falsy cursor, or a falsy answer, ends
      pagination at once with what was collected before. */
  lemma StopsAtOnce(answers: seq<Answer<Json>>, k: nat)
    requires k < |answers|
    requires Step(answers[k]).StopPaging? || (Step(answers[k]).NextPage? && !Truthy(Step(answers[k]).cursor))
    ensures Gather(answers, k).Done? && Requested(answers, k) == 1
  {
  }

  /** The query parameters of request number `k`: the caller's, with
      "limit" set to `str(limit)`, and from the second request on the cursor
      the previous page returned. */
  function RequestParams(params: map<string, Json>, limit: int, answers: seq<Answer<Json>>, k: nat): map<string, Json> {
    var base := params["limit" := JStr(IntToString(limit))];
    if 0 < k <= |answers| && Step(answers[k - 1]).NextPage? then base["cursor" := Step(answers[k - 1]).cursor]
    else base
  }

  /** The limit sent is the decimal text of `limit`, and reads back as it. */
  lemma LimitParam(params: map<string, Json>, limit: nat, answers: seq<Answer<Json>>)
    ensures RequestParams(params, limit, answers, 0)["limit"] == JStr(NatToString(limit))
    ensures ParseNat(RequestParams(params, limit, answers, 0)["limit"].s) == limit
    ensures forall key :: key in params && key != "limit" ==> RequestParams(params, limit, answers, 0)[key] == params[key]
  {
    ParseNatToString(limit);
  }

  /** Setting the cursor of page `k` over the parameters of request `k`
      gives the parameters of request `k + 1`. */
  lemma NextQuery(params: map<string, Json>, limit: int, answers: seq<Answer<Json>>, k: nat, query: map<string, Json>)
    requires k < |answers| && Step(answers[k]).NextPage?
    requires query == RequestParams(params, limit, answers, k)
    ensures query["cursor" := Step(answers[k]).cursor] == RequestParams(params, limit, answers, k + 1)
  {
  }

  /** The parameters of the first `n` requests, in order. */
  function Sent(params: map<string, Json>, limit: int, answers: seq<Answer<Json>>, n: nat): (r: seq<map<string, Json>>)
    ensures |r| == n
  {
    if n == 0 then [] else Sent(params, limit, answers, n - 1) + [RequestParams(params, limit, answers, n - 1)]
  }

  /** Request number `k` carries the parameters `RequestParams` gives it. */
  lemma {:induction false} SentSpec(params: map<string, Json>, limit: int, answers: seq<Answer<Json>>, n: nat, k: nat)
    requires k < n
    ensures Sent(params, limit, answers, n)[k] == RequestParams(params, limit, answers, k)
  {
    if k < n - 1 {
      SentSpec(params, limit, answers, n - 1, k);
    }
  }

  /** A cached client session; `closed` as aiohttp reports it. */
  class Session {
    var closed: bool

    constructor ()
      ensures !closed
    {
      closed := false;
    }
  }

  /** The handler: its cached session and the default headers it sends. */
  class Handler {
    var session: Session?
    const defaultHeaders: seq<(string, string)>

    /** `__init__`: no session yet; a browser-like User-Agent, and the
        `ROBLOX_COOKIE` environment value as a .ROBLOSECURITY cookie when it
        is set and non-empty. */
    constructor (robloxCookie: Option<string>)
      ensures session == null
      ensures defaultHeaders ==
        [("User-Agent", UserAgent)]
        + (if robloxCookie.Some? && robloxCookie.value != "" then [("Cookie", ".ROBLOSECURITY=" + robloxCookie.value)] else [])
    {
      session := null;
      if robloxCookie.Some? && robloxCookie.value != "" {
        defaultHeaders := [("User-Agent", UserAgent), ("Cookie", ".ROBLOSECURITY=" + robloxCookie.value)];
      } else {
        defaultHeaders := [("User-Agent", UserAgent)];
      }
    }

    /** `get_session`: the cached session while it is open, otherwise a new
        one, which is cached. */
    method GetSession() returns (s: Session)
      modifies this
      ensures session == s && !s.closed
      ensures old(session) != null && !old(session.closed) ==> s == old(session)
      ensures old(session) == null || old(session.closed) ==> fresh(s)
    {
      if session == null || session.closed {
        session := new Session();
      }
      s := session;
    }

    /** `close`: closes the session if there is an open one. */
    method Close()
      modifies session
      ensures session != null ==> session.closed
    {
      if session != null && !session.closed {
        session.closed := true;
      }
    }

    /** `_get`: at most `maxRetries` attempts, returning at the first 200
        and giving up after the last attempt. */
    method Get(outcomes: seq<Attempt>, maxRetries: int) returns (r: GetOutcome, waits: seq<nat>)
      requires maxRetries <= |outcomes|
      ensures r == Retry(outcomes, maxRetries, 0).0 && waits == Retry(outcomes, maxRetries, 0).1
    {
      waits := [];
      var attempt: nat := 0;
      assert waits + Retry(outcomes, maxRetries, 0).1 == Retry(outcomes, maxRetries, 0).1;
      while attempt < maxRetries
        invariant attempt <= maxRetries || attempt == 0
        invariant Retry(outcomes, maxRetries, 0).0 == Retry(outcomes, maxRetries, attempt).0
        invariant Retry(outcomes, maxRetries, 0).1 == waits + Retry(outcomes, maxRetries, attempt).1
        decreases maxRetries - attempt
      {
        var a := outcomes[attempt];
        ghost var before := waits;
        if a.OtherError? {
          assert waits + [] == waits;
          return GetRaised, waits;
        }
        if a.Response? {
          if a.status == 429 {
            waits := waits + [Pow(RateLimitSleep, attempt)];
          }
          var json := JNull;
          if Contains(a.contentType, "application/json") {
            json := a.parsed.GetOr(JNull);
          }
          if a.status == 200 {
            assert waits + [] == waits;
            return Got(Fetched(a.status, a.headers, a.text, json, a.url)), waits;
          }
          waits := waits + [RateLimitSleep * Pow(2, attempt)];
        } else if a.NetworkError? {
          waits := waits + [RateLimitSleep * Pow(2, attempt)];
        }
        assert waits == before + Waits(a, attempt);
        assert Retry(outcomes, maxRetries, attempt).1 == Waits(a, attempt) + Retry(outcomes, maxRetries, attempt + 1).1;
        WaitsAppend(before, Waits(a, attempt), Retry(outcomes, maxRetries, attempt + 1).1);
        attempt := attempt + 1;
      }
      assert waits + [] == waits;
      return GaveUp, waits;
    }

    /** `fetch_json`. */
    method FetchJson(outcomes: seq<Attempt>, retries: int) returns (a: Answer<Json>, waits: seq<nat>)
      requires retries <= |outcomes|
      modifies this
      ensures a == JsonAnswer(Retry(outcomes, retries, 0).0) && waits == Retry(outcomes, retries, 0).1
      ensures session != null && !session.closed
    {
      var _ := GetSession();
      var r;
      r, waits := Get(outcomes, retries);
      if r.GaveUp? || (r.Got? && !Truthy(r.fetched.json)) {
        return Nothing, waits;
      }
      if r.GetRaised? {
        return Raised, waits;
      }
      a := Value(r.fetched.json);
    }

    /** `fetch_text`. */
    method FetchText(outcomes: seq<Attempt>, retries: int) returns (a: Answer<string>, waits: seq<nat>)
      requires retries <= |outcomes|
      modifies this
      ensures a == TextAnswer(Retry(outcomes, retries, 0).0) && waits == Retry(outcomes, retries, 0).1
      ensures session != null && !session.closed
    {
      var _ := GetSession();
      var r;
      r, waits := Get(outcomes, retries);
      if r.GaveUp? || (r.Got? && r.fetched.text == "") {
        return Nothing, waits;
      }
      if r.GetRaised? {
        return Raised, waits;
      }
      a := Value(r.fetched.text);
    }

    /** `fetch_paginated_data`: one `fetch_json` per page, the items of each
        page appended in order, the limit and then each page's cursor sent
        with the next request. `answers[k]` is what `fetch_json` returns for
        request number `k`. */
    method FetchPaginatedData(params: map<string, Json>, limit: int, answers: seq<Answer<Json>>)
      returns (r: Paged, requests: seq<map<string, Json>>)
      ensures r == Gather(answers, 0)
      ensures |requests| == if r.Unfinished? then |answers| + 1 else Requested(answers, 0)
      ensures requests == Sent(params, limit, answers, |requests|)
    {
      var allData: seq<Json> := [];
      var query := params["limit" := JStr(IntToString(limit))];
      var pageCursor := JNull;
      var k: nat := 0;
      requests := [];
      while true
        invariant k <= |answers|
        invariant Gather(answers, 0) == Prepend(allData, Gather(answers, k))
        invariant k == 0 ==> pageCursor == JNull && query == RequestParams(params, limit, answers, 0)
        invariant k > 0 ==>
          Step(answers[k - 1]).NextPage? && Truthy(Step(answers[k - 1]).cursor)
          && pageCursor == Step(answers[k - 1]).cursor
          && query == RequestParams(params, limit, answers, k - 1)
        invariant Requested(answers, 0) == k + Requested(answers, k)
        invariant |requests| == k
        invariant requests == Sent(params, limit, answers, k)
        decreases |answers| - k
      {
        if Truthy(pageCursor) {
          NextQuery(params, limit, answers, k - 1, query);
          query := query["cursor" := pageCursor];
        }
        assert query == RequestParams(params, limit, answers, k);
        requests := requests + [query];
        if k == |answers| {
          return Unfinished(allData), requests;
        }
        var step := Step(answers[k]);
        if step.PageRaised? {
          return PagingRaised, requests;
        }
        if step.StopPaging? {
          return Done(allData), requests;
        }
        PrependTwice(allData, step.items, Gather(answers, k + 1));
        allData := allData + step.items;
        pageCursor := step.cursor;
        if !Truthy(pageCursor) {
          return Done(allData), requests;
        }
        k := k + 1;
      }
    }
  }
}
