/** What the content script of extension/content.js reads off a Roblox page:
    the item id in a catalog URL (`extractItemId`), the ids behind the item
    cards of a community store (at most 24, from the click handler of the
    "Download with Threadline" button), and the community id and page number
    the archive is named after.

    The page is given as plain data: the `href` of each anchor in the item
    list, the location's path, and the text of each `span`, in document
    order. */
module CatalogIds {
  import opened Options
  import opened Text

  const CatalogPrefix: string := "/catalog/"
  const CommunitiesPrefix: string := "/communities/"

  /** The click handler stops collecting at this many ids. */
  const MaxIds: nat := 24

  /** `extractItemId(url)`: the digits of the first `/catalog/<digits>` in
      the URL, or null. */
  function ExtractItemId(url: string): Option<string> {
    SearchDigitsAfter(url, CatalogPrefix)
  }

  /** An id is found exactly when some `/catalog/` is followed by a digit, and
      it is the whole digit run after the first such `/catalog/`. */
  lemma ExtractItemIdSpec(url: string)
    ensures ExtractItemId(url).None? <==> forall j: nat :: !DigitsFollowAt(url, CatalogPrefix, j)
    ensures ExtractItemId(url).Some? ==> ExtractItemId(url).value != [] && AllDigits(ExtractItemId(url).value)
    ensures ExtractItemId(url).Some? ==> exists i: nat ::
      FirstDigitsAt(url, CatalogPrefix, i) && ExtractItemId(url).value == DigitRun(url[i + |CatalogPrefix|..])
  {
    SearchDigitsAfterSpec(url, CatalogPrefix);
  }

  /** The anchors the handler looks at: an `href` that is set and contains
      `/catalog/`. */
  function CatalogAnchors(hrefs: seq<string>): seq<string> {
    if hrefs == [] then []
    else
      var n := |hrefs| - 1;
      CatalogAnchors(hrefs[..n]) + (if hrefs[n] != "" && Contains(hrefs[n], CatalogPrefix) then [hrefs[n]] else [])
  }

  /** The id of every anchor whose `href` matches `/catalog/(\d+)`, in
      anchor order. */
  function MatchedIds(hrefs: seq<string>): seq<string> {
    if hrefs == [] then []
    else
      var n := |hrefs| - 1;
      var m := ExtractItemId(hrefs[n]);
      MatchedIds(hrefs[..n]) + (if m.Some? then [m.value] else [])
  }

  /** The first `n` elements of `s`, or all of them when there are fewer. */
  function Take<T>(s: seq<T>, n: nat): (r: seq<T>)
    ensures |r| == if |s| < n then |s| else n
    ensures r == s[..|r|]
  {
    if |s| <= n then s else s[..n]
  }

  /** The collection loop of the click handler: walk the catalog anchors,
      push the id of each one that matches, stop once 24 ids are held. */
  method CollectIds(hrefs: seq<string>) returns (ids: seq<string>)
    ensures ids == Take(MatchedIds(hrefs), MaxIds)
  {
    var anchors := CatalogAnchors(hrefs);
    ids := [];
    var k := 0;
    while k < |anchors|
      invariant k <= |anchors|
      invariant ids == MatchedIds(anchors[..k]) && |ids| < MaxIds
    {
      var m := ExtractItemId(anchors[k]);
      MatchedStep(anchors, k);
      if m.Some? {
        ids := ids + [m.value];
      }
      if |ids| >= MaxIds {
        assert ids == Take(MatchedIds(hrefs), MaxIds) by {
          MatchedIdsPrefix(anchors, k + 1);
          FilterKeepsIds(hrefs);
        }
        return;
      }
      k := k + 1;
    }
    assert ids == Take(MatchedIds(hrefs), MaxIds) by {
      assert anchors[..k] == anchors;
      FilterKeepsIds(hrefs);
    }
  }

  lemma MatchedStep(hrefs: seq<string>, k: nat)
    requires k < |hrefs|
    ensures MatchedIds(hrefs[..k + 1]) == MatchedIds(hrefs[..k])
      + (if ExtractItemId(hrefs[k]).Some? then [ExtractItemId(hrefs[k]).value] else [])
  {
    assert hrefs[..k + 1][..k] == hrefs[..k];
  }

  /** The ids of the first `k` anchors are the first ids of all anchors. */
  lemma {:induction false} MatchedIdsPrefix(hrefs: seq<string>, k: nat)
    requires k <= |hrefs|
    ensures |MatchedIds(hrefs[..k])| <= |MatchedIds(hrefs)|
    ensures MatchedIds(hrefs[..k]) == MatchedIds(hrefs)[..|MatchedIds(hrefs[..k])|]
    decreases |hrefs|
  {
    if k < |hrefs| {
      var n := |hrefs| - 1;
      assert hrefs[..n][..k] == hrefs[..k];
      MatchedIdsPrefix(hrefs[..n], k);
    } else {
      assert hrefs[..k] == hrefs;
    }
  }

  /** An id is found only in an `href` that contains `/catalog/`. */
  lemma ExtractedContains(url: string)
    requires ExtractItemId(url).Some?
    ensures url != "" && Contains(url, CatalogPrefix)
  {
    ExtractItemIdSpec(url);
    var i: nat :| FirstDigitsAt(url, CatalogPrefix, i);
    assert OccursAt(url, CatalogPrefix, i);
  }

  /** The `includes('/catalog/')` filter drops no anchor that would yield an
      id: collecting from all anchors gives the same ids. */
  lemma {:induction false} FilterKeepsIds(hrefs: seq<string>)
    ensures MatchedIds(CatalogAnchors(hrefs)) == MatchedIds(hrefs)
  {
    if hrefs != [] {
      var n := |hrefs| - 1;
      FilterKeepsIds(hrefs[..n]);
      var front := CatalogAnchors(hrefs[..n]);
      if hrefs[n] != "" && Contains(hrefs[n], CatalogPrefix) {
        assert (front + [hrefs[n]])[..|front|] == front;
      } else {
        assert front + [] == front;
        if ExtractItemId(hrefs[n]).Some? {
          ExtractedContains(hrefs[n]);
        }
      }
    }
  }

  /** Every collected id is a non-empty run of digits. */
  lemma {:induction false} MatchedIdsDigits(hrefs: seq<string>)
    ensures |MatchedIds(hrefs)| <= |hrefs|
    ensures forall i :: 0 <= i < |MatchedIds(hrefs)| ==> MatchedIds(hrefs)[i] != [] && AllDigits(MatchedIds(hrefs)[i])
  {
    if hrefs != [] {
      var n := |hrefs| - 1;
      MatchedIdsDigits(hrefs[..n]);
      ExtractItemIdSpec(hrefs[n]);
    }
  }

  /** The community id from the location's path: the digits after the first
      `/communities/<digits>`, or 'unknown'. */
  function CommunityId(pathname: string): (r: string)
    ensures r == "unknown" || (r != [] && AllDigits(r))
    ensures r == "unknown" <==> forall j: nat :: !DigitsFollowAt(pathname, CommunitiesPrefix, j)
  {
    SearchDigitsAfterSpec(pathname, CommunitiesPrefix);
    match SearchDigitsAfter(pathname, CommunitiesPrefix)
    case None => "unknown"
    case Some(d) => assert d[0] != 'u'; d
  }

  /** A span the page-number lookup accepts: its trimmed text starts with "Page". */
  predicate IsPageSpan(text: string) {
    StartsWith(Trim(text), "Page")
  }

  /** The first accepted span at or after `from` (`find`). */
  function FirstPageSpan(spans: seq<string>, from: nat): (r: Option<nat>)
    requires from <= |spans|
    ensures r.Some? ==> from <= r.value < |spans| && IsPageSpan(spans[r.value])
    ensures r.Some? ==> forall j :: from <= j < r.value ==> !IsPageSpan(spans[j])
    ensures r.None? ==> forall j :: from <= j < |spans| ==> !IsPageSpan(spans[j])
    decreases |spans| - from
  {
    if from == |spans| then None
    else if IsPageSpan(spans[from]) then Some(from)
    else FirstPageSpan(spans, from + 1)
  }

  /** The first position at or after `j` that is not whitespace. */
  function SkipSpaces(t: string, j: nat): (r: nat)
    requires j <= |t|
    ensures j <= r <= |t|
    ensures forall k :: j <= k < r ==> IsJsSpace(t[k])
    ensures r < |t| ==> !IsJsSpace(t[r])
    decreases |t| - j
  {
    if j < |t| && IsJsSpace(t[j]) then SkipSpaces(t, j + 1) else j
  }

  /** `/Page\s*(\d+)/i` can match at `i`: "page" in any case, optional
      whitespace, then a digit. */
  predicate PageAt(t: string, i: nat) {
    i + 4 <= |t| && Lower(t[i..i + 4]) == "page"
    && var j := SkipSpaces(t, i + 4); j < |t| && IsDigit(t[j])
  }

  /** The leftmost match position at or after `from`. */
  function FindPage(t: string, from: nat): (r: Option<nat>)
    ensures r.Some? ==> from <= r.value && PageAt(t, r.value)
    ensures r.Some? ==> forall j :: from <= j < r.value ==> !PageAt(t, j)
    ensures r.None? ==> forall j :: from <= j ==> !PageAt(t, j)
    decreases |t| - from
  {
    if |t| < from + 4 then None
    else if PageAt(t, from) then Some(from)
    else FindPage(t, from + 1)
  }

  lemma FindLeftmost(t: string, i: nat)
    requires PageAt(t, i) && forall j :: 0 <= j < i ==> !PageAt(t, j)
    ensures FindPage(t, 0) == Some(i)
  {
  }

  /** The page number of the store page: `parseInt` of the first capture of
      `/Page\s*(\d+)/i` in the first span starting with "Page", or 1. */
  function PageNumber(spans: seq<string>): nat {
    match FirstPageSpan(spans, 0)
    case None => 1
    case Some(s) =>
      var t := Trim(spans[s]);
      match FindPage(t, 0)
      case None => 1
      case Some(i) => ParseNat(DigitRun(t[SkipSpaces(t, i + 4)..]))
  }

  /** When the first "Page" span holds a match, the page number is the value of
      the digits after the leftmost "page" and its whitespace. */
  lemma PageNumberMatch(spans: seq<string>, s: nat, i: nat)
    requires s < |spans| && IsPageSpan(spans[s]) && forall j :: 0 <= j < s ==> !IsPageSpan(spans[j])
    requires PageAt(Trim(spans[s]), i) && forall j :: 0 <= j < i ==> !PageAt(Trim(spans[s]), j)
    ensures var t := Trim(spans[s]); var d := DigitRun(t[SkipSpaces(t, i + 4)..]);
      d != [] && AllDigits(d) && PageNumber(spans) == ParseNat(d)
  {
    var t := Trim(spans[s]);
    assert FirstPageSpan(spans, 0) == Some(s);
    FindLeftmost(t, i);
    var j := SkipSpaces(t, i + 4);
    assert t[j..][0] == t[j];
  }
}
