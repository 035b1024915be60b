/** `downloadMultipleTemplates` of extension/background.js: fetch one template
    per item id, keep the ones that arrived, pack them into a stored ZIP, name
    the archive after the community and page, and hand it to the browser's
    download manager, reporting progress to the page that asked.

    Fetching a template (`downloadTemplateToBlob`), the download manager and
    `Date.now()` are outside the model: their results are inputs. */
module Batch {
  import opened Options
  import opened Text
  import opened Bytes
  import opened ZipFormat
  import ZipWriter

  /** Where a message goes: the originating tab when its id is known
      (`chrome.tabs.sendMessage`), otherwise every extension page
      (`chrome.runtime.sendMessage`). */
  datatype Target = Tab(id: nat) | Runtime

  datatype Message =
    | DownloadProgress(to: Target, current: nat, total: nat)
    | DownloadComplete(to: Target, filename: string)
    | DownloadError(to: Target, error: string)

  /** An archive member as the loop collects it: `{ name, blob }`. */
  datatype File = File(name: string, blob: seq<nat>)

  /** How the call ends: the archive handed over under `filename`, or an
      error thrown with `error` as its message. */
  datatype Outcome = Saved(filename: string) | Threw(error: string)

  /** The community id and page number an archive is named after. The script
      reads both with `|| null`, so the empty string and 0 stand for "not
      given" (they are falsy, exactly like a missing value). */
  datatype Naming = Naming(communityId: string, pageNumber: nat)

  function Destination(tabId: Option<nat>): Target {
    if tabId.Some? then Tab(tabId.value) else Runtime
  }

  function MemberName(id: string): string {
    id + "_threadline.png"
  }

  function FetchError(id: string): string {
    "Failed to fetch template for " + id
  }

  /** The files the loop keeps: one per successful fetch, in input order. */
  function Fetched(ids: seq<string>, fetched: seq<Option<seq<nat>>>): (r: seq<File>)
    requires |fetched| == |ids|
    ensures |r| <= |ids|
  {
    if ids == [] then []
    else
      var n := |ids| - 1;
      Fetched(ids[..n], fetched[..n])
        + (if fetched[n].Some? then [File(MemberName(ids[n]), fetched[n].value)] else [])
  }

  /** The messages one turn of the loop sends: an error for a failed fetch,
      then the progress count. */
  function StepMessages(id: string, fetched: Option<seq<nat>>, current: nat, total: nat, to: Target): seq<Message> {
    (if fetched.None? then [DownloadError(Runtime, FetchError(id))] else [])
      + [DownloadProgress(to, current, total)]
  }

  /** The messages the whole loop sends. */
  function LoopMessages(ids: seq<string>, fetched: seq<Option<seq<nat>>>, to: Target, total: nat): seq<Message>
    requires |fetched| == |ids|
  {
    if ids == [] then []
    else
      var n := |ids| - 1;
      LoopMessages(ids[..n], fetched[..n], to, total) + StepMessages(ids[n], fetched[n], n + 1, total, to)
  }

  /** The progress messages among `ms`, in order. */
  function Progress(ms: seq<Message>): seq<Message> {
    if ms == [] then []
    else (if ms[0].DownloadProgress? then [ms[0]] else []) + Progress(ms[1..])
  }

  /** The ids whose fetch failed, in order. */
  function FailedIds(ids: seq<string>, fetched: seq<Option<seq<nat>>>): seq<string>
    requires |fetched| == |ids|
  {
    if ids == [] then []
    else
      var n := |ids| - 1;
      FailedIds(ids[..n], fetched[..n]) + (if fetched[n].None? then [ids[n]] else [])
  }

  /** The error messages among `ms`, in order. */
  function Errors(ms: seq<Message>): seq<Message> {
    if ms == [] then []
    else (if ms[0].DownloadError? then [ms[0]] else []) + Errors(ms[1..])
  }

  /** Member names as the archive stores them: each character as its code,
      which is what `TextEncoder` produces for ASCII. */
  function Encoded(s: string): (r: seq<nat>)
    ensures |r| == |s|
  {
    seq(|s|, i requires 0 <= i < |s| => s[i] as nat)
  }

  function ZipFiles(files: seq<File>): (r: seq<ZipFile>)
    ensures |r| == |files|
  {
    seq(|files|, i requires 0 <= i < |files| => ZipFile(Encoded(files[i].name), files[i].blob))
  }

  /** Options first; only when they name no community are the values the
      content script last stored consulted, each one replacing the option's
      value only when it is set. */
  function Chosen(options: Naming, stored: Naming): Naming {
    if options.communityId != "" then options
    else Naming(stored.communityId, if stored.pageNumber != 0 then stored.pageNumber else options.pageNumber)
  }

  /** The archive's file name: by community and page when a community id is
      known, by the current time otherwise. */
  function BatchFileName(now: nat, naming: Naming): (r: string)
    ensures |r| > 4 && r[|r| - 4..] == ".zip"
  {
    if naming.communityId == "" then "threadline_templates_" + NatToString(now) + ".zip"
    else
      var page := if naming.pageNumber == 0 then 1 else naming.pageNumber;
      "threadline_" + PadStart(naming.communityId, 8, '0') + "_page" + NatToString(page) + ".zip"
  }

  /** How the call ends once the archive is built. */
  function Finish(filename: string, downloadFailure: Option<string>): Outcome {
    if downloadFailure.None? then Saved(filename) else Threw(downloadFailure.value)
  }

  /** The message sent once the archive is built. */
  function FinalMessage(to: Target, filename: string, downloadFailure: Option<string>): Message {
    match downloadFailure
    case None => DownloadComplete(to, filename)
    case Some(m) => DownloadError(to, if m == "" then "Download failed" else m)
  }

  /** `downloadMultipleTemplates(itemIds, options, tabId)`. `fetched[i]` is the
      template blob for `itemIds[i]`, or None when fetching it threw;
      `stored` holds the values the content script last stored (empty when
      absent or when reading them failed); `downloadFailure` is the message of
      the error `chrome.downloads.download` threw, if it did. */
  method DownloadMultipleTemplates(itemIds: seq<string>, fetched: seq<Option<seq<nat>>>, options: Naming,
                                   stored: Naming, now: nat, tabId: Option<nat>, downloadFailure: Option<string>)
    returns (outcome: Outcome, files: seq<File>, processed: nat, messages: seq<Message>, zip: Option<seq<nat>>)
    requires |fetched| == |itemIds|
    ensures files == Fetched(itemIds, fetched)
    ensures processed == |itemIds|
    ensures itemIds == [] ==> outcome == Threw("No item IDs provided") && messages == [] && zip == None
    ensures itemIds != [] && files == [] ==>
      outcome == Threw("No templates could be fetched") && zip == None
      && messages == LoopMessages(itemIds, fetched, Destination(tabId), |itemIds|)
    ensures files != [] ==>
      var filename := BatchFileName(now, Chosen(options, stored));
      zip == Some(Archive(Entries(ZipFiles(files))))
      && outcome == Finish(filename, downloadFailure)
      && messages == LoopMessages(itemIds, fetched, Destination(tabId), |itemIds|)
                     + [FinalMessage(Destination(tabId), filename, downloadFailure)]
    ensures zip.Some? && Fits(Entries(ZipFiles(files))) ==> ReadZip(zip.value) == Some(ZipFiles(files))
  {
    files, processed, messages, zip := [], 0, [], None;
    if |itemIds| == 0 {
      outcome := Threw("No item IDs provided");
      return;
    }
    var to := Destination(tabId);
    files, processed, messages := FetchAll(itemIds, fetched, to);
    if |files| == 0 {
      outcome := Threw("No templates could be fetched");
      return;
    }
    var archive := ZipWriter.BuildZipFromFiles(ZipFiles(files));
    zip := Some(archive);
    var filename := BatchFileName(now, Chosen(options, stored));
    match downloadFailure
    case None =>
      messages := messages + [DownloadComplete(to, filename)];
      outcome := Saved(filename);
    case Some(m) =>
      messages := messages + [DownloadError(to, if m == "" then "Download failed" else m)];
      outcome := Threw(m);
  }

  /** The `for (let id of itemIds)` loop: fetch each template, keep the
      successes, count every id and report progress after each. */
  method FetchAll(itemIds: seq<string>, fetched: seq<Option<seq<nat>>>, to: Target)
    returns (files: seq<File>, processed: nat, messages: seq<Message>)
    requires |fetched| == |itemIds|
    ensures files == Fetched(itemIds, fetched)
    ensures processed == |itemIds|
    ensures messages == LoopMessages(itemIds, fetched, to, |itemIds|)
  {
    files, processed, messages := [], 0, [];
    for i := 0 to |itemIds|
      invariant files == Fetched(itemIds[..i], fetched[..i])
      invariant processed == i
      invariant messages == LoopMessages(itemIds[..i], fetched[..i], to, |itemIds|)
    {
      LoopStep(itemIds, fetched, i, to);
      match fetched[i] {
        case Some(blob) =>
          files := files + [File(MemberName(itemIds[i]), blob)];
        case None =>
          messages := messages + [DownloadError(Runtime, FetchError(itemIds[i]))];
      }
      processed := processed + 1;
      messages := messages + [DownloadProgress(to, processed, |itemIds|)];
    }
    assert itemIds[..|itemIds|] == itemIds && fetched[..|fetched|] == fetched;
  }

  /** One more turn of the loop keeps one more file or none, and sends that
      turn's messages. */
  lemma LoopStep(ids: seq<string>, fetched: seq<Option<seq<nat>>>, i: nat, to: Target)
    requires |fetched| == |ids| && i < |ids|
    ensures Fetched(ids[..i + 1], fetched[..i + 1])
      == Fetched(ids[..i], fetched[..i])
         + (if fetched[i].Some? then [File(MemberName(ids[i]), fetched[i].value)] else [])
    ensures LoopMessages(ids[..i + 1], fetched[..i + 1], to, |ids|)
      == LoopMessages(ids[..i], fetched[..i], to, |ids|) + StepMessages(ids[i], fetched[i], i + 1, |ids|, to)
  {
    assert ids[..i + 1][..i] == ids[..i] && fetched[..i + 1][..i] == fetched[..i];
  }

  /** The kept files split like the ids: keeping is a filter, so it keeps the
      input order. */
  lemma {:induction false} FetchedAppend(a: seq<string>, fa: seq<Option<seq<nat>>>,
                                         b: seq<string>, fb: seq<Option<seq<nat>>>)
    requires |fa| == |a| && |fb| == |b|
    ensures Fetched(a + b, fa + fb) == Fetched(a, fa) + Fetched(b, fb)
  {
    if b != [] {
      var n := |b| - 1;
      assert (a + b)[..|a| + n] == a + b[..n] && (fa + fb)[..|a| + n] == fa + fb[..n];
      FetchedAppend(a, fa, b[..n], fb[..n]);
    } else {
      assert a + b == a && fa + fb == fa;
    }
  }

  /** One id keeps its file, named `<id>_threadline.png`, exactly when its
      fetch succeeded. */
  lemma FetchedOne(id: string, f: Option<seq<nat>>)
    ensures Fetched([id], [f]) == if f.Some? then [File(id + "_threadline.png", f.value)] else []
  {
    assert [id][..0] == [] && [f][..0] == [];
  }

  /** No file is kept exactly when every fetch failed, which is when the
      script throws "No templates could be fetched". */
  lemma {:induction false} FetchedEmptyIff(ids: seq<string>, fetched: seq<Option<seq<nat>>>)
    requires |fetched| == |ids|
    ensures Fetched(ids, fetched) == [] <==> forall i :: 0 <= i < |ids| ==> fetched[i].None?
  {
    if ids != [] {
      var n := |ids| - 1;
      FetchedEmptyIff(ids[..n], fetched[..n]);
      assert forall i :: 0 <= i < n ==> fetched[..n][i] == fetched[i];
    }
  }

  /** `DownloadProgress(to, 1, total)`, ..., `DownloadProgress(to, n, total)`. */
  function Counts(n: nat, to: Target, total: nat): (r: seq<Message>)
    ensures |r| == n
    ensures forall i :: 0 <= i < n ==> r[i] == DownloadProgress(to, i + 1, total)
  {
    if n == 0 then [] else Counts(n - 1, to, total) + [DownloadProgress(to, n, total)]
  }

  /** The fetch-error message for each of `ids`. */
  function FetchErrors(ids: seq<string>): (r: seq<Message>)
    ensures |r| == |ids|
    ensures forall i :: 0 <= i < |ids| ==> r[i] == DownloadError(Runtime, FetchError(ids[i]))
  {
    if ids == [] then [] else FetchErrors(ids[..|ids| - 1]) + [DownloadError(Runtime, FetchError(ids[|ids| - 1]))]
  }

  /** Every id is counted whether its fetch failed or not: the progress
      messages count 1, 2, ..., n out of n, in order. */
  lemma {:induction false} ProgressCounts(ids: seq<string>, fetched: seq<Option<seq<nat>>>, to: Target, total: nat)
    requires |fetched| == |ids|
    ensures Progress(LoopMessages(ids, fetched, to, total)) == Counts(|ids|, to, total)
  {
    if ids != [] {
      var n := |ids| - 1;
      ProgressCounts(ids[..n], fetched[..n], to, total);
      var failed := if fetched[n].None? then [DownloadError(Runtime, FetchError(ids[n]))] else [];
      var progress := DownloadProgress(to, n + 1, total);
      ProgressAppend(LoopMessages(ids[..n], fetched[..n], to, total), failed + [progress]);
      ProgressAppend(failed, [progress]);
      OneMessage(progress);
      if fetched[n].None? {
        OneMessage(failed[0]);
      }
    }
  }

  /** The error messages of the loop name the failed ids, in order. */
  lemma {:induction false} ErrorsNameFailures(ids: seq<string>, fetched: seq<Option<seq<nat>>>, to: Target, total: nat)
    requires |fetched| == |ids|
    ensures Errors(LoopMessages(ids, fetched, to, total)) == FetchErrors(FailedIds(ids, fetched))
  {
    if ids != [] {
      var n := |ids| - 1;
      ErrorsNameFailures(ids[..n], fetched[..n], to, total);
      var failed := if fetched[n].None? then [DownloadError(Runtime, FetchError(ids[n]))] else [];
      var progress := DownloadProgress(to, n + 1, total);
      ErrorsAppend(LoopMessages(ids[..n], fetched[..n], to, total), failed + [progress]);
      ErrorsAppend(failed, [progress]);
      OneMessage(progress);
      var failedIds := FailedIds(ids[..n], fetched[..n]);
      if fetched[n].None? {
        OneMessage(failed[0]);
        assert (failedIds + [ids[n]])[..|failedIds|] == failedIds;
      } else {
        assert failedIds + [] == failedIds;
      }
    }
  }

  lemma OneMessage(m: Message)
    ensures Progress([m]) == if m.DownloadProgress? then [m] else []
    ensures Errors([m]) == if m.DownloadError? then [m] else []
  {
    assert [m][1..] == [];
  }

  lemma {:induction false} ProgressAppend(a: seq<Message>, b: seq<Message>)
    ensures Progress(a + b) == Progress(a) + Progress(b)
  {
    if a != [] {
      assert (a + b)[1..] == a[1..] + b;
      ProgressAppend(a[1..], b);
    } else {
      assert a + b == b;
    }
  }

  lemma {:induction false} ErrorsAppend(a: seq<Message>, b: seq<Message>)
    ensures Errors(a + b) == Errors(a) + Errors(b)
  {
    if a != [] {
      assert (a + b)[1..] == a[1..] + b;
      ErrorsAppend(a[1..], b);
    } else {
      assert a + b == b;
    }
  }

  /** With a community id, the name reads back as `threadline_`, the id
      left-padded with '0' to eight characters, `_page`, the page number (1
      when none is given) and `.zip`. */
  lemma CommunityFileName(now: nat, naming: Naming)
    requires naming.communityId != ""
    ensures var r := BatchFileName(now, naming);
      var c := naming.communityId;
      var w := if |c| < 8 then 8 else |c|;
      |r| > w + 20 && r[..11] == "threadline_"
      && r[11 + w - |c|..11 + w] == c && (forall i :: 11 <= i < 11 + w - |c| ==> r[i] == '0')
      && r[11 + w..16 + w] == "_page"
      && AllDigits(r[16 + w..|r| - 4])
      && ParseNat(r[16 + w..|r| - 4]) == (if naming.pageNumber == 0 then 1 else naming.pageNumber)
  {
    var c := naming.communityId;
    var page := if naming.pageNumber == 0 then 1 else naming.pageNumber;
    var r := BatchFileName(now, naming);
    CommunityPieces(r, c, PadStart(c, 8, '0'), NatToString(page));
    ParseNatToString(page);
  }

  /** Where the pieces of a community archive name sit. */
  lemma CommunityPieces(r: string, c: string, padded: string, digits: string)
    requires r == "threadline_" + padded + "_page" + digits + ".zip" && digits != []
    requires |padded| == (if |c| < 8 then 8 else |c|) && padded[|padded| - |c|..] == c
    requires forall i :: 0 <= i < |padded| - |c| ==> padded[i] == '0'
    ensures var w := |padded|;
      |r| > w + 20 && r[..11] == "threadline_"
      && r[11 + w - |c|..11 + w] == c && (forall i :: 11 <= i < 11 + w - |c| ==> r[i] == '0')
      && r[11 + w..16 + w] == "_page" && r[16 + w..|r| - 4] == digits
  {
    var w := |padded|;
    var tail := "_page" + digits + ".zip";
    assert r == "threadline_" + padded + tail;
    SplitAt("threadline_", padded, tail);
    SliceWithin(r, 11, padded, w - |c|, w);
    SliceWithin(r, 11 + w, tail, 0, 5);
    SliceWithin(r, 11 + w, tail, 5, |tail| - 4);
    assert tail[5..|tail| - 4] == digits;
  }

  /** Without a community id the name reads back as `threadline_templates_`,
      the timestamp and `.zip`. */
  lemma TimeFileName(now: nat, naming: Naming)
    requires naming.communityId == ""
    ensures var r := BatchFileName(now, naming);
      |r| > 25 && r[..21] == "threadline_templates_"
      && AllDigits(r[21..|r| - 4]) && ParseNat(r[21..|r| - 4]) == now
  {
    var digits := NatToString(now);
    var r := BatchFileName(now, naming);
    assert r == "threadline_templates_" + digits + ".zip";
    assert r[21..|r| - 4] == digits;
    ParseNatToString(now);
  }

  /** The pieces of `a + b + c` sit where they were put. */
  lemma SplitAt(a: string, b: string, c: string)
    ensures (a + b + c)[..|a|] == a && (a + b + c)[|a|..|a| + |b|] == b && (a + b + c)[|a| + |b|..] == c
  {
  }
}
