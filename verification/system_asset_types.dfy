/** The asset classes of public/system/template/src/asset_type.py: a factory
    for shirts and pants only, the same constructor id check, and an
    `overlay_image` that composites the template over the asset without
    storing the result. */
module SystemAssetTypes {
  import opened Options
  import opened Text
  import opened Images
  import Json

  datatype Kind = ShirtAsset | PantsAsset

  /** `_asset_type_registry`, in insertion order. */
  const Registry: seq<(string, Kind)> := [("shirt", ShirtAsset), ("pants", PantsAsset)]

  function OverlayType(k: Kind): string {
    if k == ShirtAsset then "shirt" else "pants"
  }

  function TemplateFile(k: Kind): string {
    if k == ShirtAsset then "shirt_template.png" else "pants_template.png"
  }

  /** `create_asset`'s choice of class: the lower-cased type looked up in the
      registry. */
  function CreateKind(assetType: string): Option<Kind> {
    Lookup(Registry, Lower(assetType))
  }

  /** Only "shirt" and "pants", in any case, create an asset; t-shirts and
      graphics are not supported here. */
  lemma CreateKindSpec(assetType: string)
    ensures CreateKind(assetType) == Some(ShirtAsset) <==> Lower(assetType) == "shirt"
    ensures CreateKind(assetType) == Some(PantsAsset) <==> Lower(assetType) == "pants"
    ensures CreateKind(assetType).None? <==> Lower(assetType) != "shirt" && Lower(assetType) != "pants"
    ensures CreateKind("tshirt").None? && CreateKind("graphic").None?
  {
    assert Lower("tshirt") == "tshirt";
    assert Lower("graphic") == "graphic";
  }

  /** `get_supported_asset_types`: the registry's names in order, each of
      which creates an asset. */
  function SupportedAssetTypes(): (r: seq<string>)
    ensures forall i :: 0 <= i < |r| ==> CreateKind(r[i]).Some?
  {
    var r := Json.KeysOf(Registry);
    assert r == ["shirt", "pants"];
    assert Lower("shirt") == "shirt" && Lower("pants") == "pants";
    r
  }

  lemma SupportedInOrder()
    ensures SupportedAssetTypes() == ["shirt", "pants"]
  {
  }

  /** `overlay_image`: nothing without an asset image or a template,
      otherwise the template composited over the asset, which raises when
      their sizes differ. */
  function Overlay(k: Kind, img: Option<Image>, template: Option<Image>): OverlayResult {
    if img.None? || template.None? then NotOverlaid
    else
      match AlphaComposite(img.value, template.value, TemplateFile(k))
      case None => CompositeRaised
      case Some(r) => Overlaid(r)
  }

  /** The overlay raises exactly when both images are there with different
      sizes, and exists exactly when both are there with the same size; it
      then keeps that size and adds the template layer. */
  lemma OverlayRules(k: Kind, img: Option<Image>, template: Option<Image>)
    ensures Overlay(k, img, template).CompositeRaised? <==>
      img.Some? && template.Some? && !SameSize(img.value, template.value)
    ensures Overlay(k, img, template).Overlaid? <==>
      img.Some? && template.Some? && SameSize(img.value, template.value)
    ensures Overlay(k, img, template).Overlaid? ==>
      var r := Overlay(k, img, template).image;
      r.width == img.value.width && r.height == img.value.height && r.layers == img.value.layers + [TemplateFile(k)]
  {
  }

  /** An asset instance; `initialised` records whether the constructor got
      past the id check. */
  class Asset {
    const kind: Kind
    var assetId: string
    var initialised: bool
    var assetUrl: string
    var template: Option<Image>
    var assetImage: Option<Image>

    /** `AssetType.__init__`. */
    constructor (kind: Kind, assetUrl: string, assetImage: Option<Image>, assets: Assets)
      ensures this.kind == kind && assetId == Digits(assetUrl)
      ensures initialised <==> assetId != ""
      ensures initialised ==>
        this.assetUrl == assetUrl && template == OverlayTemplate(Some(OverlayType(kind)), assets) && this.assetImage == assetImage
    {
      this.kind := kind;
      assetId := Digits(assetUrl);
      if Digits(assetUrl) == "" {
        initialised := false;
        this.assetUrl, template, this.assetImage := "", None, None;
      } else {
        initialised := true;
        this.assetUrl := assetUrl;
        template := OverlayTemplate(Some(OverlayType(kind)), assets);
        this.assetImage := assetImage;
      }
    }

    /** `overlay_image`; the instance is not changed. */
    method OverlayImage() returns (r: OverlayResult)
      requires initialised
      ensures r == Overlay(kind, assetImage, template)
    {
      if assetImage.None? {
        return NotOverlaid;
      }
      if template.None? {
        return NotOverlaid;
      }
      var composed := AlphaComposite(assetImage.value, template.value, TemplateFile(kind));
      if composed.None? {
        return CompositeRaised;
      }
      r := Overlaid(composed.value);
    }
  }

  /** `create_asset`: an instance of the registered class, or nothing. */
  method CreateAsset(assetType: string, assetUrl: string, img: Option<Image>, assets: Assets) returns (a: Asset?)
    ensures a == null <==> CreateKind(assetType).None?
    ensures a != null ==> fresh(a) && a.kind == CreateKind(assetType).value && a.assetId == Digits(assetUrl)
    ensures a != null ==> (a.initialised <==> a.assetId != "")
    ensures a != null && a.initialised ==>
      a.template == OverlayTemplate(Some(OverlayType(a.kind)), assets) && a.assetImage == img
  {
    var kind := CreateKind(assetType);
    if kind.None? {
      return null;
    }
    a := new Asset(kind.value, assetUrl, img, assets);
  }
}
