/** The "Download with Threadline" button of extension/content.js on a
    community store page: its click handler, the callback that receives the
    background script's answer, and the page-wide listener for progress,
    completion and error messages; and `initPagerRateLimit`'s guard against
    initialising a pager twice.

    The button's look is reduced to what the handlers change: whether it is
    disabled, the caption (idle, or "Downloading... current/total"), and the
    alerts the page has shown. */
module PageControls {
  import opened Options
  import opened Text
  import opened CatalogIds
  import Batch

  const NoItemsAlert: string := "No items found to download"

  /** What the button shows: its idle text, or the spinner with a count. */
  datatype Label = Idle | Downloading(current: nat, total: nat)

  /** The state the handlers read and change. `hasButton` says whether
      `document.getElementById('roblox-template-downloader-btn')` finds the
      button. */
  datatype View = View(hasButton: bool, disabled: bool, caption: Label, alerts: seq<string>)

  /** The `action` of a message: absent (or empty), one of the three the
      listener handles, or any other. */
  datatype Action = NoAction | Progress | Complete | Error | OtherAction

  /** A message as the listener receives it. An absent `error` is the empty
      string, an absent `current` or `total` is 0 (the script reads them with
      `|| 0`). */
  datatype Incoming = Incoming(action: Action, current: nat, total: nat, error: string)

  /** The answer to `downloadMultipleTemplates`: none, `{ success: true,
      filename }`, or `{ success: false, error }`. */
  datatype Response = NoReply | Succeeded(filename: string) | Failed(error: string)

  /** The request the click handler sends to the background script. */
  datatype Request = Request(itemIds: seq<string>, naming: Batch.Naming)

  /** `showProgress(current, total)`. */
  function ShowProgress(v: View, current: nat, total: nat): View {
    v.(disabled := true, caption := Downloading(current, total))
  }

  /** `hideProgress()`. */
  function HideProgress(v: View): View {
    v.(disabled := false, caption := Idle)
  }

  function Alert(v: View, text: string): View {
    v.(alerts := v.alerts + [text])
  }

  /** The listener: nothing without an action or without the button; progress
      disables the button and shows the count; completion and error enable
      it again, and an error is also alerted. */
  function AfterMessage(v: View, m: Incoming): View {
    if m.action == NoAction || !v.hasButton then v
    else if m.action == Progress then ShowProgress(v, m.current, m.total)
    else if m.action == Complete then HideProgress(v)
    else if m.action == Error then
      Alert(HideProgress(v), "Download error: " + (if m.error != "" then m.error else "Unknown"))
    else v
  }

  /** The messages `ms` received in order. */
  function AfterMessages(v: View, ms: seq<Incoming>): View {
    if ms == [] then v else AfterMessage(AfterMessages(v, ms[..|ms| - 1]), ms[|ms| - 1])
  }

  /** The `sendMessage` callback: a runtime error hides the progress; a
      success leaves the button to the completion message; anything else
      hides the progress and alerts. */
  function AfterResponse(v: View, lastError: bool, r: Response): View {
    if lastError then HideProgress(v)
    else if r.Succeeded? then v
    else
      var error := if r.Failed? && r.error != "" then r.error else "Unknown error";
      Alert(HideProgress(v), "Failed to download templates: " + error)
  }

  class Page {
    var hasButton: bool
    var disabled: bool
    var caption: Label
    var alerts: seq<string>
    /** The values last written to `chrome.storage.local`. */
    var stored: Option<Batch.Naming>
    /** The requests sent to the background script, in order. */
    var requests: seq<Request>

    constructor (hasButton: bool)
      ensures Current() == View(hasButton, false, Idle, []) && stored == None && requests == []
    {
      this.hasButton, disabled, caption, alerts := hasButton, false, Idle, [];
      stored, requests := None, [];
    }

    /** The page as the handlers see it. */
    function Current(): View
      reads this
    {
      View(hasButton, disabled, caption, alerts)
    }

    /** The click handler, with the storage write and the request that
        follows it. `hrefs` are the anchors of the item list, `pathname` the
        location's path, `spans` the text of the page's spans. */
    method OnClick(hrefs: seq<string>, pathname: string, spans: seq<string>)
      modifies this
      ensures Take(MatchedIds(hrefs), MaxIds) == [] ==>
        Current() == Alert(old(Current()), NoItemsAlert) && stored == old(stored) && requests == old(requests)
      ensures var ids := Take(MatchedIds(hrefs), MaxIds);
        var naming := Batch.Naming(CommunityId(pathname), PageNumber(spans));
        ids != [] ==>
          (Current() == ShowProgress(old(Current()), 0, |ids|)
           && stored == Some(naming) && requests == old(requests) + [Request(ids, naming)])
    {
      var ids := CollectIds(hrefs);
      if |ids| == 0 {
        alerts := alerts + [NoItemsAlert];
        return;
      }
      var naming := Batch.Naming(CommunityId(pathname), PageNumber(spans));
      disabled, caption := true, Downloading(0, |ids|);
      stored := Some(naming);
      requests := requests + [Request(ids, naming)];
    }

    /** The callback of the `downloadMultipleTemplates` request. */
    method OnResponse(lastError: bool, r: Response)
      modifies this
      ensures Current() == AfterResponse(old(Current()), lastError, r)
      ensures stored == old(stored) && requests == old(requests)
    {
      if lastError {
        disabled, caption := false, Idle;
        return;
      }
      if r.Succeeded? {
        return;
      }
      disabled, caption := false, Idle;
      var error := if r.Failed? && r.error != "" then r.error else "Unknown error";
      alerts := alerts + ["Failed to download templates: " + error];
    }

    /** The page-wide `chrome.runtime.onMessage` listener. */
    method OnMessage(m: Incoming)
      modifies this
      ensures Current() == AfterMessage(old(Current()), m)
      ensures stored == old(stored) && requests == old(requests)
    {
      if m.action == NoAction || !hasButton {
        return;
      }
      if m.action == Progress {
        disabled, caption := true, Downloading(m.current, m.total);
      } else if m.action == Complete {
        disabled, caption := false, Idle;
      } else if m.action == Error {
        disabled, caption := false, Idle;
        alerts := alerts + ["Download error: " + (if m.error != "" then m.error else "Unknown")];
      }
    }
  }

  // From the background script to the page.

  /** A message of the background script as the listener sees it. */
  function Received(m: Batch.Message): Incoming {
    match m
    case DownloadProgress(_, current, total) => Incoming(Progress, current, total, "")
    case DownloadComplete(_, _) => Incoming(Complete, 0, 0, "")
    case DownloadError(_, error) => Incoming(Error, 0, 0, error)
  }

  /** The messages that reach the content script of tab `tab`: those sent
      with `chrome.tabs.sendMessage` to that tab. Messages sent with
      `chrome.runtime.sendMessage` reach extension pages, not content
      scripts. */
  function Delivered(ms: seq<Batch.Message>, tab: nat): (r: seq<Incoming>)
    ensures |r| <= |ms|
  {
    if ms == [] then []
    else
      var n := |ms| - 1;
      Delivered(ms[..n], tab) + (if ms[n].to == Batch.Tab(tab) then [Received(ms[n])] else [])
  }

  /** The answer the background script sends for a batch outcome. */
  function Reply(outcome: Batch.Outcome): Response {
    match outcome
    case Saved(filename) => Succeeded(filename)
    case Threw(error) => Failed(error)
  }

  /** The listener never creates or removes the button. */
  lemma {:induction false} AfterMessagesButton(v: View, ms: seq<Incoming>)
    ensures AfterMessages(v, ms).hasButton == v.hasButton
  {
    if ms != [] {
      AfterMessagesButton(v, ms[..|ms| - 1]);
    }
  }

  /** The progress messages 1/total, 2/total, ..., k/total. */
  function ProgressRun(k: nat, total: nat): (r: seq<Incoming>)
    ensures |r| == k
  {
    seq(k, j requires 0 <= j < k => Incoming(Progress, j + 1, total, ""))
  }

  /** Of the fetch loop's messages, the tab receives exactly the progress
      messages 1/total, ..., n/total: the per-id errors go to
      `chrome.runtime.sendMessage`. */
  lemma {:induction false} LoopDelivered(ids: seq<string>, fetched: seq<Option<seq<nat>>>, tab: nat, total: nat)
    requires |fetched| == |ids|
    ensures Delivered(Batch.LoopMessages(ids, fetched, Batch.Tab(tab), total), tab) == ProgressRun(|ids|, total)
  {
    if ids != [] {
      var n := |ids| - 1;
      LoopDelivered(ids[..n], fetched[..n], tab, total);
      var front := Batch.LoopMessages(ids[..n], fetched[..n], Batch.Tab(tab), total);
      var step := Batch.StepMessages(ids[n], fetched[n], n + 1, total, Batch.Tab(tab));
      assert Batch.LoopMessages(ids, fetched, Batch.Tab(tab), total) == front + step;
      DeliveredAppend(front, step, tab);
      StepDelivered(ids[n], fetched[n], n + 1, total, tab);
      ProgressRunSnoc(n, total);
    }
  }

  lemma ProgressRunSnoc(n: nat, total: nat)
    ensures ProgressRun(n, total) + [Incoming(Progress, n + 1, total, "")] == ProgressRun(n + 1, total)
  {
  }

  lemma {:induction false} DeliveredAppend(a: seq<Batch.Message>, b: seq<Batch.Message>, tab: nat)
    ensures Delivered(a + b, tab) == Delivered(a, tab) + Delivered(b, tab)
    decreases |b|
  {
    if b == [] {
      assert a + b == a;
    } else {
      var n := |b| - 1;
      assert (a + b)[..|a + b| - 1] == a + b[..n];
      DeliveredAppend(a, b[..n], tab);
    }
  }

  lemma StepDelivered(id: string, fetched: Option<seq<nat>>, current: nat, total: nat, tab: nat)
    ensures Delivered(Batch.StepMessages(id, fetched, current, total, Batch.Tab(tab)), tab)
      == [Incoming(Progress, current, total, "")]
  {
    var ms := Batch.StepMessages(id, fetched, current, total, Batch.Tab(tab));
    if fetched.None? {
      assert ms[..1] == [Batch.DownloadError(Batch.Runtime, Batch.FetchError(id))];
      assert ms[..1][..0] == [];
    } else {
      assert ms[..0] == [];
    }
  }

  /** Once the fetch loop is done the button is disabled and shows
      `total/total`, and nothing was alerted. */
  lemma LoopShowsCount(v: View, ids: seq<string>, fetched: seq<Option<seq<nat>>>, tab: nat)
    requires v.hasButton && |fetched| == |ids| && ids != []
    ensures var end := AfterMessages(v, Delivered(Batch.LoopMessages(ids, fetched, Batch.Tab(tab), |ids|), tab));
      end.disabled && end.caption == Downloading(|ids|, |ids|) && end.alerts == v.alerts
  {
    LoopDelivered(ids, fetched, tab, |ids|);
    ProgressEnd(v, |ids|, |ids|);
  }

  /** After the progress messages 1/total ... k/total (k > 0) the button is
      disabled and shows k/total, and nothing was alerted. */
  lemma {:induction false} ProgressEnd(v: View, k: nat, total: nat)
    requires v.hasButton && k > 0
    ensures var end := AfterMessages(v, ProgressRun(k, total));
      end.hasButton && end.disabled && end.caption == Downloading(k, total) && end.alerts == v.alerts
  {
    var run := ProgressRun(k, total);
    assert run[..k - 1] == ProgressRun(k - 1, total);
    if k > 1 {
      ProgressEnd(v, k - 1, total);
    }
  }

  /** However a batch the page asked for ends, the button ends enabled and
      idle: a saved archive is announced by `downloadComplete`; a failed
      download by `downloadError` and a failure answer; a batch where no
      template arrived by the failure answer alone. */
  lemma BatchLeavesButtonEnabled(v: View, ids: seq<string>, fetched: seq<Option<seq<nat>>>,
                                 filename: string, downloadFailure: Option<string>, tab: nat)
    requires v.hasButton && ids != [] && |fetched| == |ids|
    ensures var loop := Batch.LoopMessages(ids, fetched, Batch.Tab(tab), |ids|);
      var none := Batch.Fetched(ids, fetched) == [];
      var ms := if none then loop else loop + [Batch.FinalMessage(Batch.Tab(tab), filename, downloadFailure)];
      var outcome := if none then Batch.Threw("No templates could be fetched") else Batch.Finish(filename, downloadFailure);
      var end := AfterResponse(AfterMessages(v, Delivered(ms, tab)), false, Reply(outcome));
      !end.disabled && end.caption == Idle
  {
    if Batch.Fetched(ids, fetched) != [] && downloadFailure.None? {
      var loop := Batch.LoopMessages(ids, fetched, Batch.Tab(tab), |ids|);
      CompleteLast(v, loop, tab, filename);
    }
  }

  /** A `downloadComplete` sent to the tab last leaves the button enabled and
      idle. */
  lemma CompleteLast(v: View, ms: seq<Batch.Message>, tab: nat, filename: string)
    requires v.hasButton
    ensures var end := AfterMessages(v, Delivered(ms + [Batch.DownloadComplete(Batch.Tab(tab), filename)], tab));
      !end.disabled && end.caption == Idle
  {
    var last := Batch.DownloadComplete(Batch.Tab(tab), filename);
    DeliveredAppend(ms, [last], tab);
    assert Delivered([last], tab) == [Received(last)] by {
      assert [last][..0] == [];
    }
    AfterMessagesButton(v, Delivered(ms, tab));
    assert Delivered(ms, tab) + [Received(last)] != [];
    assert (Delivered(ms, tab) + [Received(last)])[..|Delivered(ms, tab)|] == Delivered(ms, tab);
  }

  /** With no `/communities/<digits>` in the path the content script stores
      and sends 'unknown', so the archive is named after community
      "0unknown" and never after the time. */
  lemma UnknownCommunityName(now: nat, pathname: string, page: nat, stored: Batch.Naming)
    requires forall j: nat :: !DigitsFollowAt(pathname, CommunitiesPrefix, j)
    ensures Batch.BatchFileName(now, Batch.Chosen(Batch.Naming(CommunityId(pathname), page), stored))
      == "threadline_0unknown_page" + NatToString(if page == 0 then 1 else page) + ".zip"
  {
    var naming := Batch.Naming(CommunityId(pathname), page);
    assert naming.communityId == "unknown";
    assert Batch.Chosen(naming, stored) == naming;
    PadUnknown();
  }

  lemma PadUnknown()
    ensures PadStart("unknown", 8, '0') == "0unknown"
  {
    var pad := PadStart("unknown", 8, '0');
    assert |pad| == 8 && pad[1..] == "unknown" && pad[0] == '0';
    assert pad == [pad[0]] + pad[1..];
  }

  // initPagerRateLimit.

  /** The pager's state: whether it has a `dataset`, whether
      `dataset.tlRateInit` is '1', and how many times the click handlers and
      the observer were attached. */
  datatype PagerState = PagerState(hasDataset: bool, tlRateInit: bool, attached: nat)

  /** One call of `initPagerRateLimit` on a pager. */
  function Init(p: PagerState): PagerState {
    if p.hasDataset && p.tlRateInit then p
    else p.(tlRateInit := p.tlRateInit || p.hasDataset, attached := p.attached + 1)
  }

  class Pager {
    var hasDataset: bool
    var tlRateInit: bool
    var attached: nat

    function State(): PagerState
      reads this
    {
      PagerState(hasDataset, tlRateInit, attached)
    }
  }

  /** `initPagerRateLimit(pager)`: nothing for a missing pager or one already
      marked; otherwise mark it (when it has a dataset) and attach the
      handlers. */
  method InitPagerRateLimit(pager: Pager?)
    modifies pager
    ensures pager != null ==> pager.State() == Init(old(pager.State()))
  {
    if pager == null {
      return;
    }
    if pager.hasDataset && pager.tlRateInit {
      return;
    }
    if pager.hasDataset {
      pager.tlRateInit := true;
    }
    pager.attached := pager.attached + 1;
  }

  /** The guard makes the call idempotent on a pager with a dataset: however
      often it runs, the handlers are attached once. */
  lemma {:induction false} InitIdempotent(p: PagerState, k: nat)
    requires p.hasDataset && k > 0
    ensures Repeated(p, k) == Init(p)
    ensures Repeated(p, k).attached == p.attached + (if p.tlRateInit then 0 else 1)
  {
    if k > 1 {
      InitIdempotent(p, k - 1);
    }
  }

  /** `k` calls in a row. */
  function Repeated(p: PagerState, k: nat): PagerState {
    if k == 0 then p else Init(Repeated(p, k - 1))
  }

  /** Without a dataset the guard cannot hold: every call attaches the
      handlers again. */
  lemma {:induction false} InitWithoutDataset(p: PagerState, k: nat)
    requires !p.hasDataset
    ensures Repeated(p, k).attached == p.attached + k
    ensures Repeated(p, k).hasDataset == p.hasDataset
  {
    if k > 0 {
      InitWithoutDataset(p, k - 1);
    }
  }
}
