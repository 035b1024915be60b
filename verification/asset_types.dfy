/** The asset classes of api/template/src/asset_type.py: the factory that
    maps a type name to a class (shirts, pants, and t-shirts under both
    "tshirt" and "graphic"), the constructor's id check, and the size rules
    of each class's `overlay_image`. */
module AssetTypes {
  import opened Options
  import opened Text
  import opened Images
  import Json

  datatype Kind = ShirtAsset | PantsAsset | TShirtAsset

  /** `_asset_type_registry`, in insertion order. */
  const Registry: seq<(string, Kind)> :=
    [("shirt", ShirtAsset), ("pants", PantsAsset), ("tshirt", TShirtAsset), ("graphic", TShirtAsset)]

  /** The class attribute `overlay_type`. */
  function OverlayType(k: Kind): Option<string> {
    match k
    case ShirtAsset => Some("shirt")
    case PantsAsset => Some("pants")
    case TShirtAsset => None
  }

  /** `create_asset`'s choice of class: the lower-cased type, "graphic" read
      as "tshirt", looked up in the registry. */
  function CreateKind(assetType: string): Option<Kind> {
    var t := Lower(assetType);
    var key := if t == "graphic" then "tshirt" else t;
    Lookup(Registry, key)
  }

  /** Shirts and pants by name, t-shirts by "tshirt" or "graphic", in any
      case; any other type creates nothing. */
  lemma CreateKindSpec(assetType: string)
    ensures CreateKind(assetType) == Some(ShirtAsset) <==> Lower(assetType) == "shirt"
    ensures CreateKind(assetType) == Some(PantsAsset) <==> Lower(assetType) == "pants"
    ensures CreateKind(assetType) == Some(TShirtAsset) <==> Lower(assetType) == "tshirt" || Lower(assetType) == "graphic"
    ensures CreateKind(assetType).None? <==> Lower(assetType) !in {"shirt", "pants", "tshirt", "graphic"}
  {
  }

  /** `get_supported_asset_types`: the registry's names in order, each of
      which creates an asset. */
  function SupportedAssetTypes(): (r: seq<string>)
    ensures forall i :: 0 <= i < |r| ==> CreateKind(r[i]).Some?
  {
    var r := Json.KeysOf(Registry);
    assert r == ["shirt", "pants", "tshirt", "graphic"];
    assert Lower("shirt") == "shirt" && Lower("pants") == "pants";
    assert Lower("tshirt") == "tshirt" && Lower("graphic") == "graphic";
    r
  }

  lemma SupportedInOrder()
    ensures SupportedAssetTypes() == ["shirt", "pants", "tshirt", "graphic"]
  {
  }

  /** The template file a clothing kind composites. */
  function TemplateFile(k: Kind): string
    requires k != TShirtAsset
  {
    if k == ShirtAsset then "shirt_template.png" else "pants_template.png"
  }

  const TShirtTemplate: string := "tshirt_template.png"
  const WhitespaceFile: string := "whitespace.png"

  /** The t-shirt `overlay_image`: the asset scaled to 512×512, with the
      t-shirt template, scaled to 512×512, composited on top when that file
      exists. The composite cannot raise, since both images are 512×512. */
  function TShirtOverlay(img: Option<Image>, assets: Assets): OverlayResult {
    if img.None? then NotOverlaid
    else
      var scaled := Resize(img.value, 512, 512);
      if TShirtTemplate in assets then
        Overlaid(AlphaComposite(scaled, Resize(assets[TShirtTemplate], 512, 512), TShirtTemplate).value)
      else Overlaid(scaled)
  }

  /** The shirt and pants `overlay_image`: the template over the asset, which
      raises when their sizes differ; then the whitespace layer, resized to
      the result's size, on top only when the result is exactly 585×559 and
      the whitespace file exists. */
  function ClothingOverlay(k: Kind, img: Option<Image>, template: Option<Image>, assets: Assets): OverlayResult
    requires k != TShirtAsset
  {
    if img.None? || template.None? then NotOverlaid
    else
      match AlphaComposite(img.value, template.value, TemplateFile(k))
      case None => CompositeRaised
      case Some(base) =>
        if base.width == 585 && base.height == 559 && WhitespaceFile in assets then
          Overlaid(AlphaComposite(base, Resize(assets[WhitespaceFile], base.width, base.height), WhitespaceFile).value)
        else Overlaid(base)
  }

  function Overlay(k: Kind, img: Option<Image>, template: Option<Image>, assets: Assets): OverlayResult {
    if k == TShirtAsset then TShirtOverlay(img, assets) else ClothingOverlay(k, img, template, assets)
  }

  /** A t-shirt overlay never raises, exists exactly when there is an asset
      image, and is always 512×512 with the template layer on top exactly
      when the template file exists. */
  lemma TShirtOverlaySize(img: Option<Image>, assets: Assets)
    ensures !TShirtOverlay(img, assets).CompositeRaised?
    ensures TShirtOverlay(img, assets).Overlaid? <==> img.Some?
    ensures TShirtOverlay(img, assets).Overlaid? ==>
      var r := TShirtOverlay(img, assets).image;
      r.width == 512 && r.height == 512
      && r.layers == img.value.layers + (if TShirtTemplate in assets then [TShirtTemplate] else [])
  {
  }

  /** A shirt or pants overlay raises exactly when the asset image and the
      template differ in size, and exists exactly when both are there with
      the same size; it then keeps that size, adds the template layer, and
      adds the whitespace layer exactly when the size is 585×559 and the file
      exists. */
  lemma ClothingOverlayRules(k: Kind, img: Option<Image>, template: Option<Image>, assets: Assets)
    requires k != TShirtAsset
    ensures ClothingOverlay(k, img, template, assets).CompositeRaised? <==>
      img.Some? && template.Some? && !SameSize(img.value, template.value)
    ensures ClothingOverlay(k, img, template, assets).Overlaid? <==>
      img.Some? && template.Some? && SameSize(img.value, template.value)
    ensures ClothingOverlay(k, img, template, assets).Overlaid? ==>
      var r := ClothingOverlay(k, img, template, assets).image;
      var ws := img.value.width == 585 && img.value.height == 559 && WhitespaceFile in assets;
      r.width == img.value.width && r.height == img.value.height
      && r.layers == img.value.layers + [TemplateFile(k)] + (if ws then [WhitespaceFile] else [])
  {
  }

  /** An asset instance. When the URL holds no digit the constructor returns
      right after setting `asset_id`; `initialised` records whether the other
      attributes were set. */
  class Asset {
    const kind: Kind
    var assetId: string
    var initialised: bool
    var assetUrl: string
    var template: Option<Image>
    var assetImage: Option<Image>

    /** `AssetType.__init__`. */
    constructor (kind: Kind, assetUrl: string, assetImage: Option<Image>, assets: Assets)
      ensures this.kind == kind && assetId == Digits(assetUrl)
      ensures initialised <==> assetId != ""
      ensures initialised ==>
        this.assetUrl == assetUrl && template == OverlayTemplate(OverlayType(kind), assets) && this.assetImage == assetImage
    {
      this.kind := kind;
      assetId := Digits(assetUrl);
      if Digits(assetUrl) == "" {
        initialised := false;
        this.assetUrl, template, this.assetImage := "", None, None;
      } else {
        initialised := true;
        this.assetUrl := assetUrl;
        template := OverlayTemplate(OverlayType(kind), assets);
        this.assetImage := assetImage;
      }
    }

    /** `overlay_image` of the asset's class. Shirts and pants store the
        result back into `asset_image`; t-shirts do not, and a raising
        composite stores nothing. */
    method OverlayImage(assets: Assets) returns (r: OverlayResult)
      requires initialised
      modifies this
      ensures r == Overlay(kind, old(assetImage), template, assets)
      ensures kind != TShirtAsset && r.Overlaid? ==> assetImage == Some(r.image)
      ensures kind == TShirtAsset || !r.Overlaid? ==> assetImage == old(assetImage)
      ensures assetId == old(assetId) && template == old(template) && initialised
    {
      if assetImage.None? {
        return NotOverlaid;
      }
      if kind == TShirtAsset {
        var img := Resize(assetImage.value, 512, 512);
        if TShirtTemplate in assets {
          var top := Resize(assets[TShirtTemplate], 512, 512);
          img := AlphaComposite(img, top, TShirtTemplate).value;
        }
        return Overlaid(img);
      }
      if template.None? {
        return NotOverlaid;
      }
      var composed := AlphaComposite(assetImage.value, template.value, TemplateFile(kind));
      if composed.None? {
        return CompositeRaised;
      }
      var base := composed.value;
      if base.width == 585 && base.height == 559 {
        if WhitespaceFile in assets {
          var top := Resize(assets[WhitespaceFile], base.width, base.height);
          base := AlphaComposite(base, top, WhitespaceFile).value;
        }
      }
      assetImage := Some(base);
      r := Overlaid(base);
    }
  }

  /** `create_asset`: an instance of the registered class, or nothing. */
  method CreateAsset(assetType: string, assetUrl: string, img: Option<Image>, assets: Assets) returns (a: Asset?)
    ensures a == null <==> CreateKind(assetType).None?
    ensures a != null ==> fresh(a) && a.kind == CreateKind(assetType).value && a.assetId == Digits(assetUrl)
    ensures a != null ==> (a.initialised <==> a.assetId != "")
    ensures a != null && a.initialised ==>
      a.template == OverlayTemplate(OverlayType(a.kind), assets) && a.assetImage == img
  {
    var kind := CreateKind(assetType);
    if kind.None? {
      return null;
    }
    a := new Asset(kind.value, assetUrl, img, assets);
  }
}
