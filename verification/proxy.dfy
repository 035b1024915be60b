/** The serverless relay of api/download.js: it checks the request, forwards
    it to the converter named by CONVERTER_URL, and copies the converter's
    status, headers and body back.

    The network is an input: what `fetch` did (rejected, or answered with a
    status, headers and a body read as a sequence of chunks) is a parameter.
    The target is the converter's base and the path relative to it; whether
    `new URL` can resolve the one against the other is a parameter too, as
    URL resolution is not modelled. */
module Proxy {
  import opened Options
  import opened Text
  import opened Uri

  type Header = (string, string)

  /** The request fields the handler looks at: the method, the values of
      every `videoId` key of the query string in order, and the two forwarded
      headers, where "" stands for an absent one. */
  datatype Request = Request(verb: string, videoIds: seq<string>, userAgent: string, accept: string)

  /** What the upstream `fetch` produced. `Rejected` carries whether it was the
      30-second abort; `Responded` carries the chunks the reader returned and,
      when a read failed after them, the error's message. */
  datatype Fetched =
    | Rejected(aborted: bool, message: string)
    | Responded(status: nat, headers: seq<Header>, body: Option<seq<seq<bv8>>>, readError: Option<string>)

  /** The request sent upstream: its method, the converter's base URL, the
      path resolved against it, and the headers. */
  datatype Outbound = Outbound(verb: string, base: string, path: string, headers: seq<Header>)

  /** Everything the handler does: the upstream request it made, if any, and
      the response's final `statusCode`, the headers it set in order, the
      bytes it wrote and the text it ended with. */
  datatype Reply = Reply(upstream: Option<Outbound>, status: nat, headers: seq<Header>, written: seq<bv8>, endText: string)

  const Excluded: seq<string> := ["transfer-encoding", "content-encoding", "content-length"]

  /** The values joined by ',', as an array turns into a string. */
  function JoinComma(vs: seq<string>): (r: string)
    requires vs != []
    ensures |vs| > 1 ==> ',' in r
  {
    if |vs| == 1 then vs[0] else JoinComma(vs[..|vs| - 1]) + "," + vs[|vs| - 1]
  }

  /** `parsed.query.videoId` as the handler uses it: None when it is falsy
      (no key, or one key with an empty value); one key gives its value; a
      repeated key gives an array, which is truthy and which
      `encodeURIComponent` turns into its values joined by ','. */
  function VideoParam(ids: seq<string>): (r: Option<string>)
    ensures r.None? <==> ids == [] || ids == [""]
    ensures |ids| == 1 && r.Some? ==> r.value == ids[0]
    ensures |ids| > 1 ==> r.Some? && ',' in r.value
  {
    if ids == [] || ids == [""] then None else Some(JoinComma(ids))
  }

  /** The path the converter is asked for. */
  function TargetPath(videoId: string): string {
    "/download?videoId=" + EncodeURIComponent(videoId)
  }

  /** The query of a target path holds the one `videoId` parameter: its value
      has no `&`, `=`, `#` or `+`, and the path determines the video id. */
  lemma TargetCarriesVideo(v: string, w: string)
    ensures var p := TargetPath(v);
      forall i :: 18 <= i < |p| ==> p[i] != '&' && p[i] != '=' && p[i] != '#' && p[i] != '+'
    ensures TargetPath(v) == TargetPath(w) ==> v == w
  {
    var p := TargetPath(v);
    var e := EncodeURIComponent(v);
    assert forall i :: 18 <= i < |p| ==> p[i] == e[i - 18];
    if TargetPath(v) == TargetPath(w) {
      assert EncodeURIComponent(w) == TargetPath(w)[18..];
      assert e == p[18..];
      EncodeInjective(v, w);
    }
  }

  /** `req.method || 'GET'`. */
  function FetchMethod(m: string): (r: string)
    ensures r != ""
    ensures m != "" ==> r == m
  {
    if m == "" then "GET" else m
  }

  /** Only the user-agent and accept headers are forwarded, each when set. */
  function RequestHeaders(req: Request): (r: seq<Header>)
    ensures forall h :: h in r ==> h.0 == "user-agent" || h.0 == "accept"
    ensures ("user-agent", req.userAgent) in r <==> req.userAgent != ""
    ensures ("accept", req.accept) in r <==> req.accept != ""
    ensures |r| <= 2
  {
    (if req.userAgent != "" then [("user-agent", req.userAgent)] else [])
    + (if req.accept != "" then [("accept", req.accept)] else [])
  }

  /** `upstream.status || 502`. */
  function StatusOf(status: nat): (r: nat)
    ensures r != 0
    ensures status != 0 ==> r == status
  {
    if status == 0 then 502 else status
  }

  /** A header the relay copies: its lower-cased name is none of the three
      excluded ones. */
  predicate Copied(name: string) {
    Lower(name) !in Excluded
  }

  /** The upstream headers the relay sets, in upstream order. */
  function FilterHeaders(hs: seq<Header>): (r: seq<Header>)
    ensures |r| <= |hs|
    ensures forall h :: h in r <==> h in hs && Copied(h.0)
  {
    if hs == [] then []
    else
      var n := |hs| - 1;
      FilterHeaders(hs[..n]) + (if Copied(hs[n].0) then [hs[n]] else [])
  }

  /** The bytes of the chunks, one after another. */
  function Concat(chunks: seq<seq<bv8>>): seq<bv8> {
    if chunks == [] then [] else Concat(chunks[..|chunks| - 1]) + chunks[|chunks| - 1]
  }

  /** The whole handler, given whether the target URL was built. */
  function Plan(req: Request, converterBase: string, targetBuilt: bool, fetched: Fetched): Reply {
    var videoId := VideoParam(req.videoIds);
    if videoId.None? then Reply(None, 400, [], [], "Missing videoId")
    else if converterBase == "" then
      Reply(None, 502, [], [], "Converter not configured. Set CONVERTER_URL in Vercel environment variables.")
    else if !targetBuilt then Reply(None, 500, [], [], "Invalid CONVERTER_URL configuration")
    else
      var out := Some(Outbound(FetchMethod(req.verb), converterBase, TargetPath(videoId.value), RequestHeaders(req)));
      match fetched
      case Rejected(aborted, message) =>
        if aborted then Reply(out, 504, [], [], "Gateway timeout contacting converter")
        else Reply(out, 502, [], [], "Bad Gateway: " + message)
      case Responded(_, _, _, _) =>
        var (status, headers, written, endText) := ReplyTo(fetched);
        Reply(out, status, headers, written, endText)
  }

  /** The status, headers, bytes and end text once `fetch` answered. */
  function ReplyTo(fetched: Fetched): (nat, seq<Header>, seq<bv8>, string)
    requires fetched.Responded?
  {
    var hs := FilterHeaders(fetched.headers);
    match fetched.body
    case None => (StatusOf(fetched.status), hs, [], "")
    case Some(chunks) =>
      match fetched.readError
      case None => (StatusOf(fetched.status), hs, Concat(chunks), "")
      case Some(message) => (502, hs, Concat(chunks), "Bad Gateway: " + message)
  }

  /** The handler as written: `URL` is bound to the `url` module, which is not
      a constructor, so building the target always throws. */
  function PlanAsWritten(req: Request, converterBase: string, fetched: Fetched): Reply {
    Plan(req, converterBase, false, fetched)
  }

  /** As written, no request with a video id and a configured converter is
      ever relayed: each gets 500 and nothing is sent upstream. */
  lemma AsWrittenNeverRelays(req: Request, converterBase: string, fetched: Fetched)
    requires VideoParam(req.videoIds).Some? && converterBase != ""
    ensures PlanAsWritten(req, converterBase, fetched) == Reply(None, 500, [], [], "Invalid CONVERTER_URL configuration")
  {
  }

  /** Requests turned away before any upstream call: no video id gives 400,
      an unset converter 502. */
  lemma RejectedLocally(req: Request, converterBase: string, targetBuilt: bool, fetched: Fetched)
    ensures Plan(req, converterBase, targetBuilt, fetched).upstream.None? <==>
      VideoParam(req.videoIds).None? || converterBase == "" || !targetBuilt
    ensures VideoParam(req.videoIds).None? ==> Plan(req, converterBase, targetBuilt, fetched).status == 400
    ensures VideoParam(req.videoIds).Some? && converterBase == "" ==> Plan(req, converterBase, targetBuilt, fetched).status == 502
  {
  }

  /** With the target built, the converter is asked with the request's
      method and headers for `/download?videoId=` and the encoded video id,
      resolved against its base; a relayed answer keeps the upstream status
      (502 for none), sets exactly the upstream headers that are not
      excluded, and writes exactly the bytes read; a failed fetch gives 504
      when aborted and 502 otherwise. */
  lemma RelaysUpstream(req: Request, converterBase: string, fetched: Fetched)
    requires VideoParam(req.videoIds).Some? && converterBase != ""
    ensures var r := Plan(req, converterBase, true, fetched);
      r.upstream.Some?
      && r.upstream.value.verb == FetchMethod(req.verb)
      && r.upstream.value.base == converterBase
      && r.upstream.value.path == "/download?videoId=" + EncodeURIComponent(VideoParam(req.videoIds).value)
      && r.upstream.value.headers == RequestHeaders(req)
      && (fetched.Rejected? ==> r.status == (if fetched.aborted then 504 else 502) && r.written == [])
      && (fetched.Responded? ==> forall h :: h in r.headers <==> h in fetched.headers && Copied(h.0))
      && (fetched.Responded? && fetched.readError.None? ==> r.status == StatusOf(fetched.status))
      && (fetched.Responded? && fetched.body.Some? ==> r.written == Concat(fetched.body.value))
      && (fetched.Responded? && fetched.body.None? ==> r.written == [])
  {
  }

  lemma ConcatSnoc(chunks: seq<seq<bv8>>, k: nat)
    requires k < |chunks|
    ensures Concat(chunks[..k + 1]) == Concat(chunks[..k]) + chunks[k]
  {
    assert chunks[..k + 1][..k] == chunks[..k];
  }

  lemma FilterStep(hs: seq<Header>, k: nat)
    requires k < |hs|
    ensures FilterHeaders(hs[..k + 1]) == FilterHeaders(hs[..k]) + (if Copied(hs[k].0) then [hs[k]] else [])
  {
    assert hs[..k + 1][..k] == hs[..k];
  }

  /** The Node response object, as far as the relay touches it. */
  class ServerResponse {
    var statusCode: nat
    var headers: seq<Header>
    var written: seq<bv8>
    var ended: bool
    var endText: string

    constructor ()
      ensures statusCode == 200 && headers == [] && written == [] && !ended && endText == ""
    {
      statusCode, headers, written, ended, endText := 200, [], [], false, "";
    }

    method SetHeader(name: string, value: string)
      modifies this
      ensures headers == old(headers) + [(name, value)]
      ensures statusCode == old(statusCode) && written == old(written) && ended == old(ended) && endText == old(endText)
    {
      headers := headers + [(name, value)];
    }

    method Write(chunk: seq<bv8>)
      modifies this
      ensures written == old(written) + chunk
      ensures statusCode == old(statusCode) && headers == old(headers) && ended == old(ended) && endText == old(endText)
    {
      written := written + chunk;
    }

    method End(text: string)
      modifies this
      ensures ended && endText == text
      ensures statusCode == old(statusCode) && headers == old(headers) && written == old(written)
    {
      ended, endText := true, text;
    }
  }

  /** The header loop: set every upstream header that is not excluded. */
  method CopyHeaders(res: ServerResponse, hs: seq<Header>)
    modifies res
    ensures res.headers == old(res.headers) + FilterHeaders(hs)
    ensures res.statusCode == old(res.statusCode) && res.written == old(res.written)
    ensures res.ended == old(res.ended) && res.endText == old(res.endText)
  {
    for k := 0 to |hs|
      invariant res.headers == old(res.headers) + FilterHeaders(hs[..k])
      invariant res.statusCode == old(res.statusCode) && res.written == old(res.written)
      invariant res.ended == old(res.ended) && res.endText == old(res.endText)
    {
      FilterStep(hs, k);
      var name := hs[k].0;
      if Lower(name) in Excluded {
        continue;
      }
      res.SetHeader(name, hs[k].1);
    }
    assert hs[..|hs|] == hs;
  }

  /** The read loop: write each chunk as it is read. */
  method Relay(res: ServerResponse, chunks: seq<seq<bv8>>)
    modifies res
    ensures res.written == old(res.written) + Concat(chunks)
    ensures res.statusCode == old(res.statusCode) && res.headers == old(res.headers)
    ensures res.ended == old(res.ended) && res.endText == old(res.endText)
  {
    var k := 0;
    while k < |chunks|
      invariant k <= |chunks|
      invariant res.written == old(res.written) + Concat(chunks[..k])
      invariant res.statusCode == old(res.statusCode) && res.headers == old(res.headers)
      invariant res.ended == old(res.ended) && res.endText == old(res.endText)
    {
      ConcatSnoc(chunks, k);
      res.Write(chunks[k]);
      k := k + 1;
    }
    assert chunks[..k] == chunks;
  }

  /** The handler on a fresh response, given whether the target URL was built
      from the base. */
  method Serve(res: ServerResponse, req: Request, converterBase: string, targetBuilt: bool, fetched: Fetched)
    returns (upstream: Option<Outbound>)
    requires res.statusCode == 200 && res.headers == [] && res.written == [] && !res.ended
    modifies res
    ensures res.ended
    ensures Reply(upstream, res.statusCode, res.headers, res.written, res.endText)
      == Plan(req, converterBase, targetBuilt, fetched)
  {
    upstream := None;
    var videoId := VideoParam(req.videoIds);
    if videoId.None? {
      res.statusCode := 400;
      res.End("Missing videoId");
      return;
    }
    if converterBase == "" {
      res.statusCode := 502;
      res.End("Converter not configured. Set CONVERTER_URL in Vercel environment variables.");
      return;
    }
    if !targetBuilt {
      res.statusCode := 500;
      res.End("Invalid CONVERTER_URL configuration");
      return;
    }
    upstream := Some(Outbound(FetchMethod(req.verb), converterBase, TargetPath(videoId.value), RequestHeaders(req)));
    match fetched {
      case Rejected(aborted, message) =>
        if aborted {
          res.statusCode := 504;
          res.End("Gateway timeout contacting converter");
        } else {
          res.statusCode := 502;
          res.End("Bad Gateway: " + message);
        }
      case Responded(_, _, _, _) =>
        RelayResponse(res, fetched);
    }
  }

  /** The part of the handler after `fetch` answered. */
  method RelayResponse(res: ServerResponse, fetched: Fetched)
    requires fetched.Responded?
    requires res.headers == [] && res.written == []
    modifies res
    ensures res.ended
    ensures (res.statusCode, res.headers, res.written, res.endText) == ReplyTo(fetched)
  {
    res.statusCode := StatusOf(fetched.status);
    CopyHeaders(res, fetched.headers);
    assert res.headers == FilterHeaders(fetched.headers);
    if fetched.body.None? {
      res.End("");
      return;
    }
    Relay(res, fetched.body.value);
    assert res.written == Concat(fetched.body.value);
    if fetched.readError.Some? {
      res.statusCode := 502;
      res.End("Bad Gateway: " + fetched.readError.value);
    } else {
      res.End("");
    }
  }

  /** The handler as written, where building the target URL always throws. */
  method ServeAsWritten(res: ServerResponse, req: Request, converterBase: string, fetched: Fetched)
    returns (upstream: Option<Outbound>)
    requires res.statusCode == 200 && res.headers == [] && res.written == [] && !res.ended
    modifies res
    ensures res.ended
    ensures Reply(upstream, res.statusCode, res.headers, res.written, res.endText)
      == PlanAsWritten(req, converterBase, fetched)
  {
    upstream := Serve(res, req, converterBase, false, fetched);
  }
}
