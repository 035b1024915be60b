/** The clothing pipeline of public/system/template/src/roblox_asset_downloader.py:
    find an asset's content name and template id in its asset-delivery page,
    look up the template image's location, download it, overlay it on the
    clothing template and save it.

    What the network and the HTML parser return is given as input: the text
    of the asset page, what the parser finds in it, the JSON answer of the
    image-location request and the downloaded image. */
module AssetDownloader {
  import opened Options
  import opened Text
  import opened Json
  import opened Images
  import SystemAssetTypes

  /** The first `<content>` tag of the asset page, with its `name` attribute
      if it has one. */
  datatype ContentTag = ContentTag(name: Option<string>)

  /** What the parser finds: the first `<content>` tag and the text of the
      first `<url>` tag, each absent when the page has no such tag. */
  datatype AssetPage = AssetPage(content: Option<ContentTag>, url: Option<string>)

  /** The result of `fetch_asset`: `None`, an exception (a missing tag makes
      `.get` or `.text` raise `AttributeError`), or the discovered dict. */
  datatype Discovery = NotFound | Raised | Found(asset: map<string, string>)

  const AssetIdKey := "asset id"
  const ContentNameKey := "content name"
  const TemplateIdKey := "template id"

  /** The content-name mapping at the end of `fetch_asset`. */
  function NormaliseName(name: string): string {
    if Contains(name, "PantsTemplate") then "pants"
    else if Contains(name, "ShirtTemplate") then "shirt"
    else name
  }

  /** `fetch_asset`, given the fetched page text and what the parser finds
      in it. */
  function Discover(assetUrl: string, text: Option<string>, page: AssetPage): (r: Discovery)
    ensures r.Found? ==> r.asset.Keys == {AssetIdKey, ContentNameKey, TemplateIdKey}
  {
    var assetId := Digits(assetUrl);
    if assetId == "" then NotFound
    else if text.None? || text.value == "" then NotFound
    else if page.content.None? || page.url.None? then Raised
    else if page.content.value.name.None? || page.content.value.name.value == "" || page.url.value == "" then NotFound
    else
      Found(map[AssetIdKey := assetId,
                ContentNameKey := NormaliseName(page.content.value.name.value),
                TemplateIdKey := Digits(page.url.value)])
  }

  /** `fetch_asset`, building the dict and then rewriting its content name
      in place. */
  method FetchAsset(assetUrl: string, text: Option<string>, page: AssetPage) returns (r: Discovery)
    ensures r == Discover(assetUrl, text, page)
  {
    var assetId := Digits(assetUrl);
    if assetId == "" {
      return NotFound;
    }
    if text.None? || text.value == "" {
      return NotFound;
    }
    if page.content.None? || page.url.None? {
      return Raised;
    }
    var contentName := page.content.value.name;
    var templateId := page.url.value;
    if contentName.None? || contentName.value == "" || templateId == "" {
      return NotFound;
    }
    templateId := Digits(templateId);
    var discovered := map[AssetIdKey := assetId, ContentNameKey := contentName.value, TemplateIdKey := templateId];
    if Contains(discovered[ContentNameKey], "PantsTemplate") {
      discovered := discovered[ContentNameKey := "pants"];
    } else if Contains(discovered[ContentNameKey], "ShirtTemplate") {
      discovered := discovered[ContentNameKey := "shirt"];
    }
    return Found(discovered);
  }

  /** A URL without digits is never looked up. Otherwise the dict holds the
      URL's digits as the asset id, the template id reduced to its digits and
      the normalised content name; it is produced exactly when the page text,
      both tags, the content name and the url text are all non-empty, and a
      missing tag raises. */
  lemma DiscoverSpec(assetUrl: string, text: Option<string>, page: AssetPage)
    ensures Digits(assetUrl) == "" ==> Discover(assetUrl, text, page) == NotFound
    ensures Discover(assetUrl, text, page).Found? <==>
      Digits(assetUrl) != "" && text.Some? && text.value != ""
      && page.content.Some? && page.content.value.name.Some? && page.content.value.name.value != ""
      && page.url.Some? && page.url.value != ""
    ensures Discover(assetUrl, text, page).Raised? <==>
      Digits(assetUrl) != "" && text.Some? && text.value != "" && (page.content.None? || page.url.None?)
    ensures Discover(assetUrl, text, page).Found? ==>
      var d := Discover(assetUrl, text, page).asset;
      d[AssetIdKey] == Digits(assetUrl) && d[AssetIdKey] != "" && AllDigits(d[AssetIdKey])
      && d[TemplateIdKey] == Digits(page.url.value) && AllDigits(d[TemplateIdKey])
      && d[ContentNameKey] == NormaliseName(page.content.value.name.value)
  {
  }

  /** The mapping checks "PantsTemplate" first, yields one of "pants",
      "shirt" or the name itself, and leaves a mapped name alone. */
  lemma NormaliseNameSpec(name: string)
    ensures Contains(name, "PantsTemplate") ==> NormaliseName(name) == "pants"
    ensures !Contains(name, "PantsTemplate") && Contains(name, "ShirtTemplate") ==> NormaliseName(name) == "shirt"
    ensures !Contains(name, "PantsTemplate") && !Contains(name, "ShirtTemplate") ==> NormaliseName(name) == name
    ensures NormaliseName(NormaliseName(name)) == NormaliseName(name)
  {
    NotContainedInShorter("pants", "PantsTemplate");
    NotContainedInShorter("pants", "ShirtTemplate");
    NotContainedInShorter("shirt", "PantsTemplate");
    NotContainedInShorter("shirt", "ShirtTemplate");
  }

  lemma NotContainedInShorter(s: string, sub: string)
    requires |s| < |sub|
    ensures !Contains(s, sub)
  {
  }

  /** A content name recognised as a shirt or pants template is one the
      asset factory accepts. */
  lemma TemplateNamesCreateAssets(name: string)
    requires Contains(name, "PantsTemplate") || Contains(name, "ShirtTemplate")
    ensures SystemAssetTypes.CreateKind(NormaliseName(name)).Some?
  {
    SystemAssetTypes.CreateKindSpec(NormaliseName(name));
    assert Lower("pants") == "pants";
    assert Lower("shirt") == "shirt";
  }

  /** What `fetch_image_location` gives back: the location value (`None` is
      `JNull`), or an exception when the answer is not a JSON object. */
  datatype Located = LocationRaised | Location(value: Json)

  /** `extract_image_location_from_json`: `json_dict["location"]`, `None` on
      a `KeyError`; indexing a non-object by a string raises `TypeError`. */
  function ExtractImageLocation(response: Json): Located {
    match response
    case JObj(fields) => Location(GetOrNull(fields, "location"))
    case _ => LocationRaised
  }

  /** `fetch_image_location` given what `fetch_json` returned (`JNull` for
      `None`): a falsy answer gives `None`. */
  function FetchImageLocation(response: Json): Located {
    if !Truthy(response) then Location(JNull) else ExtractImageLocation(response)
  }

  /** A usable location is found exactly when the answer is an object whose
      "location" is set and truthy, and it is that value; a truthy answer of
      any other kind raises. */
  lemma ImageLocationSpec(response: Json)
    ensures FetchImageLocation(response).LocationRaised? <==> Truthy(response) && !response.JObj?
    ensures FetchImageLocation(response).Location? && Truthy(FetchImageLocation(response).value) <==>
      response.JObj? && HasKey(response.fields, "location") && Truthy(Get(response.fields, "location").value)
    ensures FetchImageLocation(response).Location? && Truthy(FetchImageLocation(response).value) ==>
      FetchImageLocation(response).value == Get(response.fields, "location").value
  {
  }

  /** Everything the outside world answers during one `process_asset` call. */
  datatype Remote = Remote(
    pageText: Option<string>,      // fetch_text of the asset-delivery URL
    page: AssetPage,               // what the HTML parser finds in it
    locationResponse: Json,        // fetch_json of the image-location URL
    image: Option<Image>)          // download_asset of the location

  /** The `return` statements of `process_asset` that stop early. */
  datatype Step = NoLocation | NoImage | NoAssetInstance | NoOverlay

  /** How far `process_asset` gets before saving: no asset data (it raises
      `ValueError`), an exception from a step, an early return, or an asset
      instance with its downloaded image and the computed overlay. */
  datatype Progress =
    | NoAssetData
    | Failed
    | Stopped(step: Step)
    | Ready(assetId: string, raw: Image, overlay: Image)

  /** The template image of the asset class a content name selects: none
      when the factory has no such class or its template file is missing. */
  function KindTemplate(name: string, assets: Assets): Option<Image> {
    match SystemAssetTypes.CreateKind(name)
    case None => None
    case Some(k) => OverlayTemplate(Some(SystemAssetTypes.OverlayType(k)), assets)
  }

  /** The step chain of `process_asset` up to the save. A composite over
      images of different sizes raises out of `overlay_image`. */
  function Pipeline(clothingId: string, remote: Remote, assets: Assets): Progress {
    match Discover(clothingId, remote.pageText, remote.page)
    case NotFound => NoAssetData
    case Raised => Failed
    case Found(d) =>
      match FetchImageLocation(remote.locationResponse)
      case LocationRaised => Failed
      case Location(loc) =>
        if !Truthy(loc) then Stopped(NoLocation)
        else if remote.image.None? then Stopped(NoImage)
        else
          match SystemAssetTypes.CreateKind(d[ContentNameKey])
          case None => Stopped(NoAssetInstance)
          case Some(k) =>
            var template := OverlayTemplate(Some(SystemAssetTypes.OverlayType(k)), assets);
            match SystemAssetTypes.Overlay(k, remote.image, template)
            case NotOverlaid => Stopped(NoOverlay)
            case CompositeRaised => Failed
            case Overlaid(overlay) => Ready(Digits(clothingId), remote.image.value, overlay)
  }

  /** Whether `process_asset` ends by raising (`ValueError` when no asset
      data is found, or an exception from a step) or returns normally. */
  datatype Outcome = ValueErrorRaised | ErrorRaised | Returned

  function OutcomeOf(p: Progress): Outcome {
    match p
    case NoAssetData => ValueErrorRaised
    case Failed => ErrorRaised
    case _ => Returned
  }

  /** The file `save_asset_image` writes as the code stands: the asset's own
      image, which `overlay_image` did not replace. */
  function SavedAsWritten(p: Progress): seq<(string, Image)> {
    if p.Ready? then [(p.assetId + ".png", p.raw)] else []
  }

  /** The file the comment "Save the overlayed image" intends. */
  function SavedCorrected(p: Progress): seq<(string, Image)> {
    if p.Ready? then [(p.assetId + ".png", p.overlay)] else []
  }

  /** A URL without digits makes `process_asset` raise `ValueError` before
      anything is fetched; it gets to the save exactly when every step
      succeeds and the downloaded image has the template's size, and the
      overlay is then the asset image with the template of its type on top.
      When every step succeeds but the sizes differ, the composite raises. */
  lemma PipelineSpec(clothingId: string, remote: Remote, assets: Assets)
    ensures Digits(clothingId) == "" ==> OutcomeOf(Pipeline(clothingId, remote, assets)) == ValueErrorRaised
    ensures Pipeline(clothingId, remote, assets).Ready? <==>
      var found := Discover(clothingId, remote.pageText, remote.page);
      var loc := FetchImageLocation(remote.locationResponse);
      found.Found? && loc.Location? && Truthy(loc.value) && remote.image.Some?
      && KindTemplate(found.asset[ContentNameKey], assets).Some?
      && SameSize(remote.image.value, KindTemplate(found.asset[ContentNameKey], assets).value)
    ensures
      var found := Discover(clothingId, remote.pageText, remote.page);
      var loc := FetchImageLocation(remote.locationResponse);
      found.Found? && loc.Location? && Truthy(loc.value) && remote.image.Some?
      && KindTemplate(found.asset[ContentNameKey], assets).Some?
      && !SameSize(remote.image.value, KindTemplate(found.asset[ContentNameKey], assets).value)
      ==> Pipeline(clothingId, remote, assets) == Failed
    ensures Pipeline(clothingId, remote, assets).Ready? ==>
      var p := Pipeline(clothingId, remote, assets);
      var k := SystemAssetTypes.CreateKind(Discover(clothingId, remote.pageText, remote.page).asset[ContentNameKey]).value;
      p.assetId == Digits(clothingId) && p.assetId != "" && p.raw == remote.image.value
      && p.overlay == Composite(p.raw, SystemAssetTypes.TemplateFile(k))
  {
    DiscoverSpec(clothingId, remote.pageText, remote.page);
  }

  /** Finding: as written, the saved file is the downloaded image without the
      template layer, although the overlay was computed. */
  lemma AsWrittenSavesWithoutOverlay(clothingId: string, remote: Remote, assets: Assets)
    requires Pipeline(clothingId, remote, assets).Ready?
    ensures var p := Pipeline(clothingId, remote, assets);
      SavedAsWritten(p) == [(Digits(clothingId) + ".png", remote.image.value)]
      && SavedAsWritten(p)[0].1 != p.overlay
  {
    PipelineSpec(clothingId, remote, assets);
    var p := Pipeline(clothingId, remote, assets);
    assert |p.overlay.layers| == |p.raw.layers| + 1;
  }

  /** A shirt asset: its page names a ShirtTemplate, the location and the
      image are found and the shirt template file exists. */
  const ShirtPage := AssetPage(Some(ContentTag(Some("ShirtTemplate"))), Some("?id=42"))
  const ShirtRemote := Remote(Some("<roblox/>"), ShirtPage,
                              JObj([("location", JStr("https://c0.rbxcdn.com/x"))]), Some(Image(585, 559, [])))
  const ShirtAssets: Assets := map["shirt_template.png" := Image(585, 559, [])]

  /** For that shirt the overlay carries the template, yet the saved image
      has no layer. */
  lemma ShirtSavedWithoutTemplate()
    ensures Pipeline("123", ShirtRemote, ShirtAssets) == Ready("123", Image(585, 559, []), Image(585, 559, ["shirt_template.png"]))
    ensures SavedAsWritten(Pipeline("123", ShirtRemote, ShirtAssets)) == [("123.png", Image(585, 559, []))]
    ensures SavedCorrected(Pipeline("123", ShirtRemote, ShirtAssets)) == [("123.png", Image(585, 559, ["shirt_template.png"]))]
  {
    var d := map[AssetIdKey := "123", ContentNameKey := "shirt", TemplateIdKey := "42"];
    ShirtDiscovered();
    assert Truthy(JStr("https://c0.rbxcdn.com/x"));
    ShirtCreatesShirt();
    assert OverlayTemplate(Some("shirt"), ShirtAssets) == Some(Image(585, 559, [])) by {
      ClothingTypesHaveTemplates(ShirtAssets);
    }
    assert Digits("123") == "123";
    ReadyWhenEveryStepSucceeds("123", ShirtRemote, ShirtAssets, d, JStr("https://c0.rbxcdn.com/x"),
                               SystemAssetTypes.ShirtAsset, Image(585, 559, []));
    assert Composite(Image(585, 559, []), "shirt_template.png") == Image(585, 559, ["shirt_template.png"]);
    ShirtFileName();
  }

  lemma ShirtCreatesShirt()
    ensures SystemAssetTypes.CreateKind("shirt") == Some(SystemAssetTypes.ShirtAsset)
  {
    SystemAssetTypes.CreateKindSpec("shirt");
    assert Lower("shirt") == "shirt";
  }

  lemma ShirtFileName()
    ensures "123" + ".png" == "123.png"
  {
  }

  /** The pipeline reaches the save once each step has produced its value. */
  lemma ReadyWhenEveryStepSucceeds(clothingId: string, remote: Remote, assets: Assets, d: map<string, string>,
                                   loc: Json, k: SystemAssetTypes.Kind, template: Image)
    requires Discover(clothingId, remote.pageText, remote.page) == Found(d)
    requires FetchImageLocation(remote.locationResponse) == Location(loc) && Truthy(loc)
    requires remote.image.Some?
    requires ContentNameKey in d && SystemAssetTypes.CreateKind(d[ContentNameKey]) == Some(k)
    requires OverlayTemplate(Some(SystemAssetTypes.OverlayType(k)), assets) == Some(template)
    requires SameSize(remote.image.value, template)
    ensures Pipeline(clothingId, remote, assets) ==
      Ready(Digits(clothingId), remote.image.value, Composite(remote.image.value, SystemAssetTypes.TemplateFile(k)))
  {
  }

  /** The same steps with an image whose size differs from the template's:
      the composite raises, `process_asset` re-raises after the close, and
      nothing is saved. */
  lemma MismatchRaises(clothingId: string, remote: Remote, assets: Assets, d: map<string, string>,
                       loc: Json, k: SystemAssetTypes.Kind, template: Image)
    requires Discover(clothingId, remote.pageText, remote.page) == Found(d)
    requires FetchImageLocation(remote.locationResponse) == Location(loc) && Truthy(loc)
    requires remote.image.Some?
    requires ContentNameKey in d && SystemAssetTypes.CreateKind(d[ContentNameKey]) == Some(k)
    requires OverlayTemplate(Some(SystemAssetTypes.OverlayType(k)), assets) == Some(template)
    requires !SameSize(remote.image.value, template)
    ensures Pipeline(clothingId, remote, assets) == Failed
    ensures OutcomeOf(Pipeline(clothingId, remote, assets)) == ErrorRaised
    ensures SavedAsWritten(Pipeline(clothingId, remote, assets)) == []
    ensures SavedCorrected(Pipeline(clothingId, remote, assets)) == []
  {
  }

  /** A 100×100 shirt image against the 585×559 shirt template raises. */
  lemma SmallShirtRaises()
    ensures Pipeline("123", ShirtRemote.(image := Some(Image(100, 100, []))), ShirtAssets) == Failed
  {
    var d := map[AssetIdKey := "123", ContentNameKey := "shirt", TemplateIdKey := "42"];
    ShirtDiscovered();
    assert Truthy(JStr("https://c0.rbxcdn.com/x"));
    ShirtCreatesShirt();
    assert OverlayTemplate(Some("shirt"), ShirtAssets) == Some(Image(585, 559, [])) by {
      ClothingTypesHaveTemplates(ShirtAssets);
    }
    MismatchRaises("123", ShirtRemote.(image := Some(Image(100, 100, []))), ShirtAssets, d,
                   JStr("https://c0.rbxcdn.com/x"), SystemAssetTypes.ShirtAsset, Image(585, 559, []));
  }

  lemma ShirtDiscovered()
    ensures Discover("123", ShirtRemote.pageText, ShirtPage) ==
      Found(map[AssetIdKey := "123", ContentNameKey := "shirt", TemplateIdKey := "42"])
  {
    assert NormaliseName("ShirtTemplate") == "shirt" by {
      assert OccursAt("ShirtTemplate", "ShirtTemplate", 0);
      assert !OccursAt("ShirtTemplate", "PantsTemplate", 0);
    }
    assert Digits("123") == "123";
    assert Digits("?id=42") == "42";
  }

  /** With the correction, the saved file is the overlay: the downloaded
      image's size with the template of its type as the top layer. */
  lemma CorrectedSavesOverlay(clothingId: string, remote: Remote, assets: Assets)
    requires Pipeline(clothingId, remote, assets).Ready?
    ensures var p := Pipeline(clothingId, remote, assets);
      var saved := SavedCorrected(p);
      |saved| == 1 && saved[0].0 == Digits(clothingId) + ".png"
      && saved[0].1.width == remote.image.value.width && saved[0].1.height == remote.image.value.height
      && saved[0].1.layers[..|remote.image.value.layers|] == remote.image.value.layers
      && saved[0].1.layers[|remote.image.value.layers|] in {"shirt_template.png", "pants_template.png"}
  {
    PipelineSpec(clothingId, remote, assets);
    var p := Pipeline(clothingId, remote, assets);
    assert p.overlay.layers == remote.image.value.layers + [p.overlay.layers[|remote.image.value.layers|]];
  }

  /** The downloader: the files its file handler has written, in order, and
      how often it has tried to close its API session. */
  class Downloader {
    var saved: seq<(string, Image)>
    var closeAttempts: nat

    constructor ()
      ensures saved == [] && closeAttempts == 0
    {
      saved := [];
      closeAttempts := 0;
    }

    /** The steps of `process_asset` inside its `try`, up to the save. */
    method Prepare(clothingId: string, remote: Remote, assets: Assets) returns (p: Progress)
      ensures p == Pipeline(clothingId, remote, assets)
    {
      var found := FetchAsset(clothingId, remote.pageText, remote.page);
      if found.NotFound? {
        return NoAssetData;
      }
      if found.Raised? {
        return Failed;
      }
      var location := FetchImageLocation(remote.locationResponse);
      if location.LocationRaised? {
        return Failed;
      }
      if !Truthy(location.value) {
        return Stopped(NoLocation);
      }
      var img := remote.image;
      if img.None? {
        return Stopped(NoImage);
      }
      var asset := SystemAssetTypes.CreateAsset(found.asset[ContentNameKey], clothingId, img, assets);
      if asset == null {
        return Stopped(NoAssetInstance);
      }
      DiscoverSpec(clothingId, remote.pageText, remote.page);
      var overlay := asset.OverlayImage();
      if overlay.NotOverlaid? {
        return Stopped(NoOverlay);
      }
      if overlay.CompositeRaised? {
        return Failed;
      }
      return Ready(asset.assetId, asset.assetImage.value, overlay.image);
    }

    /** `process_asset` as written: the asset's own image is saved, and the
        close is attempted whatever happened before (its own exception is
        swallowed, so it cannot change the outcome). */
    method ProcessAsset(clothingId: string, remote: Remote, assets: Assets) returns (outcome: Outcome)
      modifies this
      ensures outcome == OutcomeOf(Pipeline(clothingId, remote, assets))
      ensures saved == old(saved) + SavedAsWritten(Pipeline(clothingId, remote, assets))
      ensures closeAttempts == old(closeAttempts) + 1
    {
      var p := Prepare(clothingId, remote, assets);
      if p.Ready? {
        saved := saved + [(p.assetId + ".png", p.raw)];
      }
      closeAttempts := closeAttempts + 1;
      outcome := OutcomeOf(p);
    }

    /** `process_asset` saving the overlay, as its comment says. */
    method ProcessAssetCorrected(clothingId: string, remote: Remote, assets: Assets) returns (outcome: Outcome)
      modifies this
      ensures outcome == OutcomeOf(Pipeline(clothingId, remote, assets))
      ensures saved == old(saved) + SavedCorrected(Pipeline(clothingId, remote, assets))
      ensures closeAttempts == old(closeAttempts) + 1
    {
      var p := Prepare(clothingId, remote, assets);
      if p.Ready? {
        saved := saved + [(p.assetId + ".png", p.overlay)];
      }
      closeAttempts := closeAttempts + 1;
      outcome := OutcomeOf(p);
    }
  }
}
