/** `injectThreadlineAdTiles` of extension/content.js: on the Roblox home
    page, unless the user is premium, every fourth tile of the second
    "Recommended For You" game grid is replaced by a Threadline ad tile.

    A grid is modelled by its list of tiles. A tile is a DOM node: a game tile
    or an ad tile (class `threadline-ad-tile`), each with the node identity
    that `replaceChild` looks it up by. The ads the call creates get the
    identities `next + i`, above every node already in the grid, as
    `document.createElement` returns a new node. */
module AdTiles {

  datatype Tile = Game(node: nat) | Ad(node: nat)

  /** No node sits in the grid twice. */
  predicate Distinct(s: seq<Tile>) {
    forall i, j :: 0 <= i < j < |s| ==> s[i] != s[j]
  }

  /** Every node in `s` is older than `next`. */
  predicate Below(s: seq<Tile>, next: nat) {
    forall i :: 0 <= i < |s| ==> s[i].node < next
  }

  /** The position of a child, as the DOM finds it. */
  function IndexOf(s: seq<Tile>, t: Tile): (i: nat)
    requires t in s
    ensures i < |s| && s[i] == t
    ensures forall j :: 0 <= j < i ==> s[j] != t
  {
    if s[0] == t then 0 else 1 + IndexOf(s[1..], t)
  }

  /** `s` with every copy of `t` taken out. */
  function Without(s: seq<Tile>, t: Tile): seq<Tile> {
    if s == [] then [] else (if s[0] == t then [] else [s[0]]) + Without(s[1..], t)
  }

  /** `s` with every tile listed in `gone` taken out. */
  function WithoutAll(s: seq<Tile>, gone: seq<Tile>): seq<Tile> {
    if s == [] then [] else (if s[0] in gone then [] else [s[0]]) + WithoutAll(s[1..], gone)
  }

  /** The ad tiles of `s`, in order (`querySelectorAll('li.threadline-ad-tile')`). */
  function AdsOf(s: seq<Tile>): (r: seq<Tile>)
    ensures forall i :: 0 <= i < |r| ==> r[i].Ad? && r[i] in s
    ensures forall i :: 0 <= i < |s| && s[i].Ad? ==> s[i] in r
  {
    if s == [] then [] else (if s[0].Ad? then [s[0]] else []) + AdsOf(s[1..])
  }

  /** `s` with its ad tiles taken out: the game tiles, in order. */
  function WithoutAds(s: seq<Tile>): seq<Tile> {
    if s == [] then [] else (if s[0].Game? then [s[0]] else []) + WithoutAds(s[1..])
  }

  /** The replacement loop over the snapshot `tiles`, from index `i` on,
      applied to the grid's current children `cur`: the new children, and
      whether `replaceChild` threw because `tiles[i]` was no longer a child. */
  function ReplaceFrom(cur: seq<Tile>, tiles: seq<Tile>, i: nat, next: nat): (seq<Tile>, bool)
    decreases |tiles| - i
  {
    if i >= |tiles| then (cur, false)
    else if tiles[i] !in cur then (cur, true)
    else ReplaceFrom(cur[IndexOf(cur, tiles[i]) := Ad(next + i)], tiles, i + 4, next)
  }

  /** One run over a grid that holds `tiles`, as written: the snapshot of the
      tiles is taken before the earlier ads are removed. */
  function Injected(tiles: seq<Tile>, next: nat): (seq<Tile>, bool) {
    ReplaceFrom(WithoutAds(tiles), tiles, 3, next)
  }

  /** One run with the snapshot taken after the earlier ads are removed. */
  function InjectedCorrected(tiles: seq<Tile>, next: nat): (seq<Tile>, bool) {
    var games := WithoutAds(tiles);
    ReplaceFrom(games, games, 3, next)
  }

  /** The grid with the tiles at indices 3, 7, 11, ... below `upto` replaced by
      new ads. */
  function Spread(tiles: seq<Tile>, next: nat, upto: nat): (r: seq<Tile>)
    ensures |r| == |tiles|
    ensures forall j :: 0 <= j < |r| ==> r[j] == if j % 4 == 3 && j < upto then Ad(next + j) else tiles[j]
  {
    seq(|tiles|, j requires 0 <= j < |tiles| => if j % 4 == 3 && j < upto then Ad(next + j) else tiles[j])
  }

  class Grid {
    var children: seq<Tile>

    constructor (children: seq<Tile>)
      ensures this.children == children
    {
      this.children := children;
    }

    /** `el.remove()` for a child `el`. */
    method Remove(t: Tile)
      modifies this
      ensures children == Without(old(children), t)
    {
      children := Without(children, t);
    }

    /** `grid.replaceChild(newChild, oldChild)`: `found` is false when
        `oldChild` is not a child, where the DOM throws `NotFoundError` and
        nothing changes. */
    method ReplaceChild(newChild: Tile, oldChild: Tile) returns (found: bool)
      modifies this
      ensures found == (oldChild in old(children))
      ensures found ==> children == old(children)[IndexOf(old(children), oldChild) := newChild]
      ensures !found ==> children == old(children)
    {
      found := oldChild in children;
      if found {
        children := children[IndexOf(children, oldChild) := newChild];
      }
    }

    /** The removal of earlier ads: each ad tile is removed in turn. */
    method RemoveAds()
      modifies this
      ensures children == WithoutAds(old(children))
    {
      var ads := AdsOf(children);
      ghost var start := children;
      WithoutNone(start);
      for k := 0 to |ads|
        invariant children == WithoutAll(start, ads[..k])
      {
        Remove(ads[k]);
        RemoveNext(start, ads, k);
      }
      assert children == WithoutAds(start) by {
        assert ads[..|ads|] == ads;
        WithoutAllAds(start, ads);
      }
    }

    /** The loop `for (let i = 3; i < tiles.length; i += 4)` replacing
        `tiles[i]` with a new ad tile; it stops at the first `replaceChild`
        that throws. */
    method ReplaceEveryFourth(tiles: seq<Tile>, next: nat) returns (threw: bool)
      modifies this
      ensures (children, threw) == ReplaceFrom(old(children), tiles, 3, next)
    {
      var i := 3;
      while i < |tiles|
        invariant ReplaceFrom(children, tiles, i, next) == ReplaceFrom(old(children), tiles, 3, next)
        decreases |tiles| - i
      {
        var found := ReplaceChild(Ad(next + i), tiles[i]);
        if !found {
          return true;
        }
        i := i + 4;
      }
      return false;
    }
  }

  /** `injectThreadlineAdTiles` once the premium reply is in (`premium` is
      `response.premium === true`; when `sendMessage` itself throws the same
      steps run, so that case is `premium == false`). `grids` are the grids
      the page query finds; `threw` says a `replaceChild` threw. */
  method InjectThreadlineAdTiles(premium: bool, grids: seq<Grid>, next: nat) returns (threw: bool)
    modifies if |grids| >= 2 then {grids[1]} else {}
    ensures |grids| < 2 ==> !threw
    ensures |grids| >= 2 && (premium || old(grids[1].children) == []) ==>
      grids[1].children == old(grids[1].children) && !threw
    ensures |grids| >= 2 && !premium && old(grids[1].children) != [] ==>
      (grids[1].children, threw) == Injected(old(grids[1].children), next)
  {
    if premium || |grids| < 2 {
      return false;
    }
    var grid := grids[1];
    var tiles := grid.children;
    if tiles == [] {
      return false;
    }
    grid.RemoveAds();
    threw := grid.ReplaceEveryFourth(tiles, next);
  }

  /** The same steps with the snapshot of the tiles taken after the earlier
      ads are removed. */
  method InjectAdTilesCorrected(premium: bool, grids: seq<Grid>, next: nat) returns (threw: bool)
    modifies if |grids| >= 2 then {grids[1]} else {}
    ensures |grids| < 2 ==> !threw
    ensures |grids| >= 2 && premium ==> grids[1].children == old(grids[1].children) && !threw
    ensures |grids| >= 2 && !premium ==>
      (grids[1].children, threw) == InjectedCorrected(old(grids[1].children), next)
  {
    if premium || |grids| < 2 {
      return false;
    }
    var grid := grids[1];
    grid.RemoveAds();
    var tiles := grid.children;
    if tiles == [] {
      return false;
    }
    threw := grid.ReplaceEveryFourth(tiles, next);
  }

  // Removal of the earlier ads.

  lemma {:induction false} WithoutStep(s: seq<Tile>, gone: seq<Tile>, t: Tile)
    ensures Without(WithoutAll(s, gone), t) == WithoutAll(s, gone + [t])
  {
    if s != [] {
      WithoutStep(s[1..], gone, t);
      var head := if s[0] in gone then [] else [s[0]];
      var rest := WithoutAll(s[1..], gone);
      WithoutAppend(head, rest, t);
      if s[0] !in gone {
        assert Without(head, t) == if s[0] == t then [] else [s[0]] by {
          assert head[1..] == [];
        }
      }
    }
  }

  lemma RemoveNext(s: seq<Tile>, gone: seq<Tile>, k: nat)
    requires k < |gone|
    ensures Without(WithoutAll(s, gone[..k]), gone[k]) == WithoutAll(s, gone[..k + 1])
  {
    assert gone[..k + 1] == gone[..k] + [gone[k]];
    WithoutStep(s, gone[..k], gone[k]);
  }

  lemma {:induction false} WithoutNone(s: seq<Tile>)
    ensures WithoutAll(s, []) == s
  {
    if s != [] {
      WithoutNone(s[1..]);
    }
  }

  lemma {:induction false} WithoutAppend(a: seq<Tile>, b: seq<Tile>, t: Tile)
    ensures Without(a + b, t) == Without(a, t) + Without(b, t)
  {
    if a != [] {
      assert (a + b)[1..] == a[1..] + b;
      WithoutAppend(a[1..], b, t);
    } else {
      assert a + b == b;
    }
  }

  /** Taking out every listed tile, when the list holds exactly the ads of
      `s`, leaves the game tiles. */
  lemma {:induction false} WithoutAllAds(s: seq<Tile>, gone: seq<Tile>)
    requires forall i :: 0 <= i < |s| && s[i].Ad? ==> s[i] in gone
    requires forall i :: 0 <= i < |gone| ==> gone[i].Ad?
    ensures WithoutAll(s, gone) == WithoutAds(s)
  {
    if s != [] {
      assert forall i :: 0 <= i < |s[1..]| ==> s[1..][i] == s[i + 1];
      WithoutAllAds(s[1..], gone);
    }
  }

  // The grid the first run sees: game tiles only.

  /** On a grid of distinct game tiles, every tile at index 3, 7, 11, ... is
      replaced by a new ad in place and every other tile stays where it was. */
  lemma ReplacesEveryFourth(tiles: seq<Tile>, next: nat)
    requires Distinct(tiles) && forall j :: 0 <= j < |tiles| ==> tiles[j].Game?
    ensures Injected(tiles, next) == (Spread(tiles, next, |tiles|), false)
  {
    AllGames(tiles);
    assert Spread(tiles, next, 3) == tiles;
    ReplaceGames(tiles, next, 3);
  }

  lemma {:induction false} AllGames(s: seq<Tile>)
    requires forall j :: 0 <= j < |s| ==> s[j].Game?
    ensures WithoutAds(s) == s
  {
    if s != [] {
      AllGames(s[1..]);
    }
  }

  /** The loop from index `i` on, over a grid where the earlier slots already
      hold their ads. */
  lemma {:induction false} ReplaceGames(tiles: seq<Tile>, next: nat, i: nat)
    requires Distinct(tiles) && forall j :: 0 <= j < |tiles| ==> tiles[j].Game?
    requires i % 4 == 3
    ensures ReplaceFrom(Spread(tiles, next, i), tiles, i, next) == (Spread(tiles, next, |tiles|), false)
    decreases |tiles| - i
  {
    var cur := Spread(tiles, next, i);
    if i >= |tiles| {
      assert cur == Spread(tiles, next, |tiles|);
    } else {
      assert cur[i] == tiles[i];
      assert IndexOf(cur, tiles[i]) == i;
      assert cur[i := Ad(next + i)] == Spread(tiles, next, i + 4);
      ReplaceGames(tiles, next, i + 4);
    }
  }

  // A grid that already holds ads.

  /** No tile of `cur` is an ad older than `next`. */
  predicate NoOldAds(cur: seq<Tile>, next: nat) {
    forall j :: 0 <= j < |cur| && cur[j].Ad? ==> cur[j].node >= next
  }

  /** When the snapshot holds an earlier ad at a slot the loop visits, the run
      throws: that ad was removed before the loop looks it up. */
  lemma ThrowsOnEarlierAd(tiles: seq<Tile>, next: nat, k: nat)
    requires Below(tiles, next) && k < |tiles| && k % 4 == 3 && tiles[k].Ad?
    ensures Injected(tiles, next).1
  {
    WithoutAdsGames(tiles);
    ThrowsFrom(WithoutAds(tiles), tiles, next, 3, k);
  }

  lemma {:induction false} WithoutAdsGames(s: seq<Tile>)
    ensures forall j :: 0 <= j < |WithoutAds(s)| ==> WithoutAds(s)[j].Game?
  {
    if s != [] {
      WithoutAdsGames(s[1..]);
    }
  }

  lemma {:induction false} ThrowsFrom(cur: seq<Tile>, tiles: seq<Tile>, next: nat, i: nat, k: nat)
    requires Below(tiles, next) && k < |tiles| && tiles[k].Ad? && NoOldAds(cur, next)
    requires i <= k && (k - i) % 4 == 0
    ensures ReplaceFrom(cur, tiles, i, next).1
    decreases k - i
  {
    if tiles[i] in cur {
      assert i != k by {
        var j := IndexOf(cur, tiles[i]);
        assert cur[j] == tiles[i];
      }
      var after := cur[IndexOf(cur, tiles[i]) := Ad(next + i)];
      assert NoOldAds(after, next);
      ThrowsFrom(after, tiles, next, i + 4, k);
    }
  }

  /** A second run over the grid a first run leaves from four game tiles
      (`ReplacesEveryFourth`: the fourth became an ad): the run removes that
      ad, throws at `tiles[3]`, and leaves three tiles and no ad. */
  lemma SecondRunThrows()
    ensures Injected([Game(0), Game(1), Game(2), Ad(13)], 20) == ([Game(0), Game(1), Game(2)], true)
  {
    var first := [Game(0), Game(1), Game(2), Ad(13)];
    assert WithoutAds(first) == [Game(0), Game(1), Game(2)] by {
      assert first[1..][1..][1..] == [Ad(13)];
    }
  }

  // The corrected run.

  /** With the snapshot taken after the removal, a run never throws: the
      earlier ads are gone and the remaining game tiles get the ads at indices
      3, 7, 11, ... */
  lemma CorrectedReplacesEveryFourth(tiles: seq<Tile>, next: nat)
    requires Distinct(tiles)
    ensures InjectedCorrected(tiles, next) == (Spread(WithoutAds(tiles), next, |WithoutAds(tiles)|), false)
  {
    var games := WithoutAds(tiles);
    WithoutAdsGames(tiles);
    DistinctWithoutAds(tiles);
    assert Spread(games, next, 3) == games;
    ReplaceGames(games, next, 3);
  }

  lemma {:induction false} DistinctWithoutAds(s: seq<Tile>)
    requires Distinct(s)
    ensures Distinct(WithoutAds(s))
    ensures forall t :: t in WithoutAds(s) ==> t in s
  {
    if s != [] {
      assert Distinct(s[1..]) by {
        forall i, j | 0 <= i < j < |s[1..]|
          ensures s[1..][i] != s[1..][j]
        {
          assert s[1..][i] == s[i + 1] && s[1..][j] == s[j + 1];
        }
      }
      DistinctWithoutAds(s[1..]);
      var rest := WithoutAds(s[1..]);
      if s[0].Game? {
        assert s[0] !in s[1..] by {
          forall k | 0 <= k < |s[1..]|
            ensures s[1..][k] != s[0]
          {
            assert s[1..][k] == s[k + 1];
          }
        }
        var r := [s[0]] + rest;
        forall i, j | 0 <= i < j < |r|
          ensures r[i] != r[j]
        {
          assert r[j] == rest[j - 1];
          if i > 0 {
            assert r[i] == rest[i - 1];
          }
        }
      }
    }
  }
}
