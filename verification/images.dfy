/** What the clothing-asset code needs to know about images: their size and
    which overlays were composited onto them. Pixels are not modelled. The
    template files the code opens are given as a map from file name to the
    image in it; a name missing from the map is a file that does not exist. */
module Images {
  import opened Options
  import opened Text

  /** An image: its size, and the names of the overlay files composited onto
      it, bottom to top. */
  datatype Image = Image(width: nat, height: nat, layers: seq<string>)

  type Assets = map<string, Image>

  /** `CLOTHING_TEMPLATES`: template file per capitalised overlay type. */
  const ClothingTemplates: map<string, string> :=
    map["Shirt" := "shirt_template.png", "Pants" := "pants_template.png"]

  /** One more layer, from the file `name`, over an image: what compositing
      leaves when the two images have the same size. */
  function Composite(base: Image, name: string): (r: Image)
    ensures r.width == base.width && r.height == base.height
    ensures r.layers == base.layers + [name]
  {
    base.(layers := base.layers + [name])
  }

  predicate SameSize(a: Image, b: Image) {
    a.width == b.width && a.height == b.height
  }

  /** `Image.alpha_composite(base, top)` where `top` was loaded from the file
      `name`: PIL raises `ValueError` (nothing here) when the two images
      differ in size; otherwise the base's size with `name` as the new top
      layer. */
  function AlphaComposite(base: Image, top: Image, name: string): (r: Option<Image>)
    ensures r.Some? <==> SameSize(base, top)
    ensures r.Some? ==> SameSize(r.value, base) && r.value.layers == base.layers + [name]
  {
    if SameSize(base, top) then Some(Composite(base, name)) else None
  }

  /** What an `overlay_image` ends with: `None`, an image, or the
      `ValueError` of a composite over images of different sizes. */
  datatype OverlayResult = NotOverlaid | Overlaid(image: Image) | CompositeRaised

  /** `image.resize((width, height))`. */
  function Resize(img: Image, width: nat, height: nat): (r: Image)
    ensures r.width == width && r.height == height && r.layers == img.layers
  {
    img.(width := width, height := height)
  }

  /** A top layer first resized to the base's size never makes the composite
      raise. */
  lemma CompositeResized(base: Image, top: Image, name: string)
    ensures AlphaComposite(base, Resize(top, base.width, base.height), name) == Some(Composite(base, name))
  {
  }

  /** A factory registry: type names and what they create, in insertion
      order (a Python dict). */
  function Lookup<K>(registry: seq<(string, K)>, key: string): (r: Option<K>)
    ensures r.Some? <==> exists i :: 0 <= i < |registry| && registry[i].0 == key
    ensures r.Some? ==> exists i :: 0 <= i < |registry| && registry[i] == (key, r.value)
  {
    if registry == [] then None
    else if registry[0].0 == key then Some(registry[0].1)
    else
      var r := Lookup(registry[1..], key);
      assert r.Some? ==> exists i :: 0 <= i < |registry[1..]| && registry[1..][i] == (key, r.value);
      r
  }


  function UpperChar(c: char): char {
    if 'a' <= c <= 'z' then (c as int - 32) as char else c
  }

  /** Python `str.capitalize()` on ASCII: first character upper case, the
      rest lower case. */
  function Capitalize(s: string): (r: string)
    ensures |r| == |s|
    ensures s != [] ==> r[0] == UpperChar(s[0]) && r[1..] == Lower(s[1..])
  {
    if s == [] then [] else [UpperChar(s[0])] + Lower(s[1..])
  }

  /** `get_overlay_template`, shared by both asset modules: no template for an
      unset overlay type, for a type whose capitalised form has no template
      file name, or when that file does not exist; otherwise the file's image. */
  function OverlayTemplate(overlayType: Option<string>, assets: Assets): Option<Image> {
    if overlayType.None? || overlayType.value == "" then None
    else
      var key := Capitalize(overlayType.value);
      if key !in ClothingTemplates || ClothingTemplates[key] == "" then None
      else if ClothingTemplates[key] !in assets then None
      else Some(assets[ClothingTemplates[key]])
  }

  /** A template is found exactly when the overlay type is set, its
      capitalised form names a template file, and that file exists; it is
      then that file's image. */
  lemma OverlayTemplateSpec(overlayType: Option<string>, assets: Assets)
    ensures OverlayTemplate(overlayType, assets).Some? <==>
      overlayType.Some? && Capitalize(overlayType.value) in ClothingTemplates
      && ClothingTemplates[Capitalize(overlayType.value)] in assets
    ensures OverlayTemplate(overlayType, assets).Some? ==>
      OverlayTemplate(overlayType, assets).value == assets[ClothingTemplates[Capitalize(overlayType.value)]]
  {
    if overlayType.Some? && overlayType.value == "" {
      assert Capitalize("") == "";
    }
  }

  /** The two clothing overlay types find their template files. */
  lemma ClothingTypesHaveTemplates(assets: Assets)
    ensures OverlayTemplate(Some("shirt"), assets) ==
      (if "shirt_template.png" in assets then Some(assets["shirt_template.png"]) else None)
    ensures OverlayTemplate(Some("pants"), assets) ==
      (if "pants_template.png" in assets then Some(assets["pants_template.png"]) else None)
  {
    assert Capitalize("shirt") == "Shirt" by {
      assert Lower("hirt") == "hirt";
    }
    assert Capitalize("pants") == "Pants" by {
      assert Lower("ants") == "ants";
    }
  }
}
