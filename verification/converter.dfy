/** The MP3 converter server of converter-server/index.js: the CORS
    middleware, the `/download` route's checks, and the conversion of one
    request as a state machine driven by the events of the yt-dlp process,
    the transcoder and the client.

    Processes and streams are not modelled: spawning yt-dlp, ytdl-core and
    ffmpeg are steps of the machine, and what those programs do reaches it
    only as events. */
module Converter {
  import opened Options

  const DefaultOrigin: string := "https://www.snookie.online"
  const WatchPrefix: string := "https://www.youtube.com/watch?v="

  /** `process.env.ALLOWED_ORIGIN || default` (an unset variable is ""). */
  function AllowedOrigin(env: string): (r: string)
    ensures r != ""
    ensures env != "" ==> r == env
  {
    if env != "" then env else DefaultOrigin
  }

  datatype Method = GET | HEAD | OPTIONS | OtherMethod
  datatype Path = Root | Download | OtherPath

  /** A character of `[A-Za-z0-9_-]`. */
  predicate IdChar(c: char) {
    ('A' <= c <= 'Z') || ('a' <= c <= 'z') || ('0' <= c <= '9') || c == '_' || c == '-'
  }

  /** `/^[A-Za-z0-9_-]{11}$/.test(videoId)`. */
  predicate IsVideoId(s: string) {
    |s| == 11 && forall i :: 0 <= i < |s| ==> IdChar(s[i])
  }

  type Headers = map<string, string>

  /** The headers the middleware sets on every response. */
  function CorsHeaders(origin: string): (h: Headers)
    ensures h.Keys == {"Access-Control-Allow-Origin", "Access-Control-Allow-Methods",
                       "Access-Control-Allow-Headers", "Access-Control-Allow-Credentials"}
    ensures h["Access-Control-Allow-Origin"] == origin
  {
    map["Access-Control-Allow-Origin" := origin,
        "Access-Control-Allow-Methods" := "GET,HEAD,OPTIONS",
        "Access-Control-Allow-Headers" := "Content-Type",
        "Access-Control-Allow-Credentials" := "false"]
  }

  /** The download headers the route adds for a valid id (the origin is
      replaced by '*'). */
  function DownloadHeaders(origin: string, videoId: string): Headers {
    CorsHeaders(origin)["Access-Control-Allow-Origin" := "*"]
                       ["Content-Type" := "audio/mpeg"]
                       ["Content-Disposition" := "attachment; filename=\"" + videoId + ".mp3\""]
  }

  /** How a request is answered before any process runs: a complete response,
      a conversion that goes on with the given headers, or no route (Express
      answers 404 itself). */
  datatype Answer =
    | Respond(status: nat, headers: Headers, body: string)
    | Convert(headers: Headers, url: string)
    | Unrouted

  /** The middleware and the routes. `videoId` is the query parameter as a
      string ("" when absent); Express routes HEAD to the GET handlers. */
  function Handle(m: Method, p: Path, videoId: string, origin: string): Answer {
    if m == OPTIONS then Respond(204, CorsHeaders(origin), "")
    else if m == OtherMethod || p == OtherPath then Unrouted
    else if p == Root then Respond(200, CorsHeaders(origin), "Converter server running. Use /download?videoId=<id>")
    else if !IsVideoId(videoId) then Respond(400, CorsHeaders(origin), "Invalid or missing videoId")
    else if m == HEAD then Respond(200, DownloadHeaders(origin, videoId), "")
    else Convert(DownloadHeaders(origin, videoId), WatchPrefix + videoId)
  }

  /** A preflight is answered 204 with the CORS headers whatever the path. */
  lemma PreflightFirst(p: Path, videoId: string, origin: string)
    ensures Handle(OPTIONS, p, videoId, origin) == Respond(204, CorsHeaders(origin), "")
  {
  }

  /** Only a GET of `/download` with an id of exactly 11 characters from
      `[A-Za-z0-9_-]` starts a conversion; any other id on that route gets 400
      and nothing is spawned. */
  lemma ConvertOnlyValid(m: Method, p: Path, videoId: string, origin: string)
    ensures Handle(m, p, videoId, origin).Convert? <==> m == GET && p == Download && IsVideoId(videoId)
    ensures m != OPTIONS && m != OtherMethod && p == Download && !IsVideoId(videoId) ==>
      Handle(m, p, videoId, origin) == Respond(400, CorsHeaders(origin), "Invalid or missing videoId")
  {
  }

  /** For a valid id the download headers are in place before the method is
      looked at: a HEAD gets them with 200 and no conversion, a GET carries
      them into the conversion. */
  lemma DownloadHeadersSet(m: Method, videoId: string, origin: string)
    requires IsVideoId(videoId) && (m == GET || m == HEAD)
    ensures var h := Handle(m, Download, videoId, origin).headers;
      h["Content-Type"] == "audio/mpeg"
      && h["Content-Disposition"] == "attachment; filename=\"" + videoId + ".mp3\""
      && h["Access-Control-Allow-Origin"] == "*"
    ensures m == HEAD ==> Handle(m, Download, videoId, origin) == Respond(200, DownloadHeaders(origin, videoId), "")
  {
  }

  // The conversion.

  /** The audio source: none yet, yt-dlp's output, or a ytdl-core stream. */
  datatype Source = NoSource | YtDlp | YtdlCore

  /** What closing the client connection does. */
  datatype Kill = KillYtdlp | DestroyYtdl | KillTranscoder

  /** A response sent with `res.status(status).send(body)`. */
  datatype Sent = Sent(status: nat, body: string)

  /** The close handlers registered for the transcoders started on `sources`,
      run in registration order. `procHasKill` says whether the value
      `startFfmpeg` returned has a `kill` method. */
  function CloseActions(sources: seq<Source>, procHasKill: bool): (r: seq<Kill>)
    ensures KillYtdlp in r <==> YtDlp in sources
    ensures DestroyYtdl in r <==> YtdlCore in sources
    ensures KillTranscoder in r <==> procHasKill && (YtDlp in sources || YtdlCore in sources)
  {
    if sources == [] then []
    else
      var first := match sources[0]
        case YtDlp => [KillYtdlp]
        case YtdlCore => [DestroyYtdl]
        case NoSource => [];
      var proc := if procHasKill && sources[0] != NoSource then [KillTranscoder] else [];
      first + proc + CloseActions(sources[1..], procHasKill)
  }

  class Conversion {
    /** `usedSource` of the handler. */
    var usedSource: Source
    /** `started`: yt-dlp's output became readable. */
    var started: bool
    /** `res.headersSent`. */
    var headersSent: bool
    /** The sources a transcoder was started on, in order; each start also
        registers a close handler for its source. */
    var transcoders: seq<Source>
    /** The response sent with a status, if one was. */
    var response: Option<Sent>
    /** Whether the response was ended. */
    var ended: bool
    /** What the close handlers did. */
    var kills: seq<Kill>

    /** The states the events can reach: ytdl-core is started at most once
        and never after yt-dlp's output was taken; `usedSource` names the last
        source started; a status is only sent with the headers. */
    predicate Valid()
      reads this
    {
      (transcoders == [] || transcoders == [YtDlp] || transcoders == [YtdlCore] || transcoders == [YtdlCore, YtDlp])
      && (started <==> YtDlp in transcoders)
      && usedSource == (if transcoders == [] then NoSource else transcoders[|transcoders| - 1])
      && (response.Some? ==> headersSent)
    }

    /** The state once yt-dlp is spawned, before any event. */
    constructor ()
      ensures Valid()
      ensures usedSource == NoSource && !started && !headersSent && transcoders == []
      ensures response == None && !ended && kills == []
    {
      usedSource, started, headersSent := NoSource, false, false;
      transcoders, response, ended, kills := [], None, false, [];
    }

    /** `tryFallbackToYtdl()`: only while no source was chosen; `ytdlOk` says
        whether `ytdl(url, ...)` returned a stream or threw. */
    method TryFallback(ytdlOk: bool)
      requires Valid()
      modifies this
      ensures Valid()
      ensures old(usedSource) != NoSource ==>
        usedSource == old(usedSource) && transcoders == old(transcoders) && headersSent == old(headersSent) && response == old(response)
      ensures old(usedSource) == NoSource && ytdlOk ==>
        usedSource == YtdlCore && transcoders == old(transcoders) + [YtdlCore] && response == old(response)
      ensures old(usedSource) == NoSource && !ytdlOk && !old(headersSent) ==>
        response == Some(Sent(502, "Could not fetch audio stream")) && headersSent && ended
      ensures old(usedSource) == NoSource && !ytdlOk && old(headersSent) ==>
        response == old(response) && transcoders == old(transcoders)
      ensures started == old(started) && kills == old(kills)
    {
      if usedSource != NoSource {
        return;
      }
      if ytdlOk {
        usedSource := YtdlCore;
        transcoders := transcoders + [YtdlCore];
      } else if !headersSent {
        response, headersSent, ended := Some(Sent(502, "Could not fetch audio stream")), true, true;
      }
    }

    /** `spawn` threw synchronously: the catch falls back. */
    method OnSpawnThrew(ytdlOk: bool)
      requires Valid()
      modifies this
      ensures Valid()
      ensures old(usedSource) == NoSource && ytdlOk ==> usedSource == YtdlCore && transcoders == old(transcoders) + [YtdlCore]
      ensures old(usedSource) != NoSource ==> transcoders == old(transcoders) && response == old(response)
    {
      TryFallback(ytdlOk);
    }

    /** yt-dlp's stdout became readable (`once`: only the first time counts):
        yt-dlp is selected and a transcoder started on it. */
    method OnReadable()
      requires Valid()
      modifies this
      ensures Valid()
      ensures old(started) ==> usedSource == old(usedSource) && transcoders == old(transcoders)
      ensures !old(started) ==> started && usedSource == YtDlp && transcoders == old(transcoders) + [YtDlp]
      ensures headersSent == old(headersSent) && response == old(response) && kills == old(kills)
    {
      if started {
        return;
      }
      started := true;
      usedSource := YtDlp;
      transcoders := transcoders + [YtDlp];
    }

    /** yt-dlp exited: without output, fall back. */
    method OnYtdlpClose(ytdlOk: bool)
      requires Valid()
      modifies this
      ensures Valid()
      ensures old(started) ==> usedSource == old(usedSource) && transcoders == old(transcoders) && response == old(response)
      ensures !old(started) && old(usedSource) == NoSource && ytdlOk ==>
        usedSource == YtdlCore && transcoders == old(transcoders) + [YtdlCore]
    {
      if !started {
        TryFallback(ytdlOk);
      }
    }

    /** The transcoder wrote to the response: the headers are out. */
    method OnTranscoderData()
      requires Valid()
      modifies this
      ensures Valid()
      ensures headersSent
      ensures usedSource == old(usedSource) && transcoders == old(transcoders) && response == old(response)
    {
      headersSent := true;
    }

    /** The transcoder failed: 500 'Conversion failed' while the headers are
        unsent, otherwise the response is only ended. */
    method OnTranscoderError()
      requires Valid()
      modifies this
      ensures Valid()
      ensures !old(headersSent) ==> response == Some(Sent(500, "Conversion failed"))
      ensures old(headersSent) ==> response == old(response)
      ensures headersSent && ended
      ensures usedSource == old(usedSource) && transcoders == old(transcoders)
    {
      if !headersSent {
        response := Some(Sent(500, "Conversion failed"));
        headersSent := true;
      }
      ended := true;
    }

    /** The client closed the connection: every registered close handler
        runs. */
    method OnClientClose(procHasKill: bool)
      requires Valid()
      modifies this
      ensures Valid()
      ensures kills == old(kills) + CloseActions(transcoders, procHasKill)
      ensures usedSource == old(usedSource) && transcoders == old(transcoders) && response == old(response)
    {
      kills := kills + CloseActions(transcoders, procHasKill);
    }
  }

  /** Closing the client stops the source in use: yt-dlp is killed when its
      output was taken, the ytdl-core stream destroyed when the fallback ran,
      and nothing is killed before a source was chosen. */
  lemma CloseStopsSource(transcoders: seq<Source>, procHasKill: bool)
    requires transcoders == [] || transcoders == [YtDlp] || transcoders == [YtdlCore] || transcoders == [YtdlCore, YtDlp]
    ensures transcoders == [] ==> CloseActions(transcoders, procHasKill) == []
    ensures transcoders == [YtDlp] ==>
      CloseActions(transcoders, procHasKill) == [KillYtdlp] + (if procHasKill then [KillTranscoder] else [])
    ensures transcoders == [YtdlCore] ==>
      CloseActions(transcoders, procHasKill) == [DestroyYtdl] + (if procHasKill then [KillTranscoder] else [])
  {
    if transcoders != [] {
      assert transcoders[1..] == [] || transcoders[1..] == [YtDlp];
    }
  }
}
