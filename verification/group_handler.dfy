/** The group lookups of api/template/src/group_handler.py: the clothing ids
    of a group's catalog and the summary of a group's information.

    The fetches themselves belong to that directory's api_handler.py, which is
    not part of this model: the paginated catalog items and the group
    information JSON (`JNull` for `None`) are inputs. */
module GroupHandler {
  import opened Options
  import opened Text
  import opened Json

  /** The query parameters the catalog is requested with. */
  const CatalogParams: map<string, Json> := map["sortOrder" := JStr("Ascend")]

  /** What the comprehension does with one catalog item: skip it, take
      `str(asset["id"])`, or raise. `"id" in x` on a list or string that
      holds "id" is followed by `x["id"]`, which raises `TypeError`; `in` on
      `None`, a boolean or a number raises at once. */
  datatype Pick = Skip | Take(id: string) | Fail

  function PickId(asset: Json): Pick {
    match asset
    case JObj(fields) => if HasKey(fields, "id") then Take(PyStr(Get(fields, "id").value)) else Skip
    case JArr(items) => if JStr("id") in items then Fail else Skip
    case JStr(s) => if Contains(s, "id") then Fail else Skip
    case _ => Fail
  }

  /** `[str(asset["id"]) for asset in all_assets if "id" in asset]`, or
      nothing when an item makes it raise. */
  function CollectIds(assets: seq<Json>): Option<seq<string>> {
    if assets == [] then Some([])
    else
      match PickId(assets[0])
      case Fail => None
      case Skip => CollectIds(assets[1..])
      case Take(id) =>
        match CollectIds(assets[1..])
        case None => None
        case Some(rest) => Some([id] + rest)
  }

  /** The result of `fetch_all_clothing_ids`. */
  datatype Ids = NoIds | IdsRaised | Ids(ids: seq<string>)

  /** `fetch_all_clothing_ids` given what the paginated fetch returned: `None`
      for an empty catalog, otherwise the ids in catalog order. */
  function FetchAllClothingIds(allAssets: seq<Json>): (r: Ids)
    ensures r == NoIds <==> allAssets == []
  {
    if allAssets == [] then NoIds
    else
      match CollectIds(allAssets)
      case None => IdsRaised
      case Some(ids) => Ids(ids)
  }

  /** The ids of two runs of items are the ids of each, in order: an item is
      kept or dropped on its own, and the order is the catalog's. */
  lemma {:induction false} CollectAppend(a: seq<Json>, b: seq<Json>)
    ensures CollectIds(a + b) ==
      if CollectIds(a).None? || CollectIds(b).None? then None
      else Some(CollectIds(a).value + CollectIds(b).value)
  {
    if a == [] {
      assert a + b == b;
      if CollectIds(b).Some? {
        assert [] + CollectIds(b).value == CollectIds(b).value;
      }
    } else {
      assert (a + b)[0] == a[0];
      assert (a + b)[1..] == a[1..] + b;
      CollectAppend(a[1..], b);
      if PickId(a[0]).Take? && CollectIds(a[1..]).Some? && CollectIds(b).Some? {
        assert [PickId(a[0]).id] + (CollectIds(a[1..]).value + CollectIds(b).value)
          == ([PickId(a[0]).id] + CollectIds(a[1..]).value) + CollectIds(b).value;
      }
    }
  }

  /** One item contributes its id when it is an object with an "id" key, and
      nothing when it is an object without one. */
  lemma CollectOne(asset: Json)
    ensures asset.JObj? && HasKey(asset.fields, "id") ==>
      CollectIds([asset]) == Some([PyStr(Get(asset.fields, "id").value)])
    ensures asset.JObj? && !HasKey(asset.fields, "id") ==> CollectIds([asset]) == Some([])
  {
    assert [asset][1..] == [];
    if asset.JObj? && HasKey(asset.fields, "id") {
      var id := PyStr(Get(asset.fields, "id").value);
      assert [id] + [] == [id];
    }
  }

  /** A catalog item that is an object whose "id" is a non-negative number. */
  predicate HasNumericId(asset: Json) {
    asset.JObj? && HasKey(asset.fields, "id")
    && Get(asset.fields, "id").value.JNum? && Get(asset.fields, "id").value.n >= 0
  }

  function NumericId(asset: Json): nat
    requires HasNumericId(asset)
  {
    Get(asset.fields, "id").value.n
  }

  /** Catalog items whose ids are non-negative numbers give one decimal id
      per item, in order, each reading back as the item's number. */
  lemma {:induction false} NumericIds(assets: seq<Json>)
    requires forall i :: 0 <= i < |assets| ==> HasNumericId(assets[i])
    ensures CollectIds(assets).Some?
    ensures |CollectIds(assets).value| == |assets|
    ensures forall i :: 0 <= i < |assets| ==>
      AllDigits(CollectIds(assets).value[i]) && ParseNat(CollectIds(assets).value[i]) == NumericId(assets[i])
  {
    if assets != [] {
      var rest := assets[1..];
      assert forall i :: 0 <= i < |rest| ==> HasNumericId(rest[i]) by {
        forall i | 0 <= i < |rest| ensures HasNumericId(rest[i]) {
          assert rest[i] == assets[i + 1];
        }
      }
      NumericIds(rest);
      var n := NumericId(assets[0]);
      PyStrNumber(n);
      assert PickId(assets[0]) == Take(PyStr(JNum(n)));
      var tail := CollectIds(rest).value;
      assert CollectIds(assets).value == [PyStr(JNum(n))] + tail;
      forall i | 0 <= i < |assets|
        ensures AllDigits(([PyStr(JNum(n))] + tail)[i])
          && ParseNat(([PyStr(JNum(n))] + tail)[i]) == NumericId(assets[i])
      {
        if i > 0 {
          ConsIndex(PyStr(JNum(n)), tail, i);
          assert assets[i] == rest[i - 1];
        }
      }
    }
  }

  lemma ConsIndex<T>(x: T, tail: seq<T>, i: int)
    requires 0 < i <= |tail|
    ensures ([x] + tail)[i] == tail[i - 1]
  {
  }

  /** The result of `fetch_group_info`. */
  datatype Info = NoInfo | InfoRaised | Info(info: Json)

  /** The dict `fetch_group_info` builds from the group's fields and the
      owner's fields, `None` (`JNull`) for each missing key. */
  function Extracted(group: seq<(string, Json)>, owner: seq<(string, Json)>): Json {
    JObj([
      ("id", GetOrNull(group, "id")),
      ("name", GetOrNull(group, "name")),
      ("owner", JObj([
        ("userId", GetOrNull(owner, "userId")),
        ("username", GetOrNull(owner, "username")),
        ("displayName", GetOrNull(owner, "displayName"))])),
      ("memberCount", GetOrNull(group, "memberCount"))])
  }

  /** `fetch_group_info` as written: `None` for a falsy answer; `.get` on
      anything but an object raises `AttributeError`, and so does
      `group_info.get("owner", {}).get(...)` when "owner" is present but
      not an object (the `except KeyError` catches neither). */
  function FetchGroupInfoAsWritten(groupInfo: Json): Info {
    if !Truthy(groupInfo) then NoInfo
    else if !groupInfo.JObj? then InfoRaised
    else
      var owner := if HasKey(groupInfo.fields, "owner") then Get(groupInfo.fields, "owner").value else JObj([]);
      if !owner.JObj? then InfoRaised
      else Info(Extracted(groupInfo.fields, owner.fields))
  }

  /** `fetch_group_info` with the owner read as `group_info.get("owner") or
      {}`, so that a null owner gives `None` owner fields. */
  function FetchGroupInfo(groupInfo: Json): Info {
    if !Truthy(groupInfo) then NoInfo
    else if !groupInfo.JObj? then InfoRaised
    else
      var owner := GetOrNull(groupInfo.fields, "owner");
      if !Truthy(owner) then Info(Extracted(groupInfo.fields, []))
      else if !owner.JObj? then InfoRaised
      else Info(Extracted(groupInfo.fields, owner.fields))
  }

  /** The summary's keys are id, name, owner and member count, in that
      order, each holding what the group (or, under "owner", the owner) holds
      under the key, or `None`. */
  lemma ExtractedSpec(group: seq<(string, Json)>, owner: seq<(string, Json)>)
    ensures Extracted(group, owner).JObj?
    ensures KeysOf(Extracted(group, owner).fields) == ["id", "name", "owner", "memberCount"]
    ensures GetOrNull(Extracted(group, owner).fields, "id") == GetOrNull(group, "id")
    ensures GetOrNull(Extracted(group, owner).fields, "name") == GetOrNull(group, "name")
    ensures GetOrNull(Extracted(group, owner).fields, "memberCount") == GetOrNull(group, "memberCount")
    ensures GetOrNull(Extracted(group, owner).fields, "owner") == JObj([
      ("userId", GetOrNull(owner, "userId")),
      ("username", GetOrNull(owner, "username")),
      ("displayName", GetOrNull(owner, "displayName"))])
  {
    var f := Extracted(group, owner).fields;
    assert f[0].0 == "id" && f[1].0 == "name" && f[2].0 == "owner" && f[3].0 == "memberCount";
    var keys := KeysOf(f);
    assert |keys| == 4 && keys[0] == "id" && keys[1] == "name" && keys[2] == "owner" && keys[3] == "memberCount";
    assert keys == ["id", "name", "owner", "memberCount"];
    GetStep(f, "id");
    GetStep(f, "name");
    GetStep(f[1..], "name");
    GetStep(f, "owner");
    GetStep(f[1..], "owner");
    GetStep(f[2..], "owner");
    assert f[1..][1..] == f[2..] && f[2..][1..] == f[3..];
    GetStep(f, "memberCount");
    GetStep(f[1..], "memberCount");
    GetStep(f[2..], "memberCount");
    GetStep(f[3..], "memberCount");
  }

  /** Nothing comes back for a falsy answer. A summary comes back for an
      object whose owner is missing, null or an object: `None` for every
      owner key in the first two cases, the owner's values in the last. */
  lemma GroupInfoSpec(groupInfo: Json)
    ensures FetchGroupInfo(groupInfo) == NoInfo <==> !Truthy(groupInfo)
    ensures FetchGroupInfo(groupInfo).Info? <==>
      Truthy(groupInfo) && groupInfo.JObj?
      && (!Truthy(GetOrNull(groupInfo.fields, "owner")) || GetOrNull(groupInfo.fields, "owner").JObj?)
    ensures FetchGroupInfo(groupInfo).Info? && !Truthy(GetOrNull(groupInfo.fields, "owner")) ==>
      FetchGroupInfo(groupInfo).info == Extracted(groupInfo.fields, [])
    ensures FetchGroupInfo(groupInfo).Info? && GetOrNull(groupInfo.fields, "owner").JObj? ==>
      FetchGroupInfo(groupInfo).info == Extracted(groupInfo.fields, GetOrNull(groupInfo.fields, "owner").fields)
  {
  }

  /** With no owner the summary's owner keys are all `None`. */
  lemma OwnerlessSummary(group: seq<(string, Json)>)
    ensures GetOrNull(Extracted(group, []).fields, "owner") ==
      JObj([("userId", JNull), ("username", JNull), ("displayName", JNull)])
  {
    ExtractedSpec(group, []);
  }

  /** The correction changes only the case of a null owner (or another falsy
      value under "owner"): otherwise both agree. */
  lemma CorrectionOnlyForFalsyOwner(groupInfo: Json)
    requires !(groupInfo.JObj? && HasKey(groupInfo.fields, "owner") && !Truthy(Get(groupInfo.fields, "owner").value))
    ensures FetchGroupInfo(groupInfo) == FetchGroupInfoAsWritten(groupInfo)
  {
  }

  /** Finding: a group whose owner is null makes the code as written raise,
      instead of reporting an ownerless group. */
  lemma NullOwnerRaises()
    ensures FetchGroupInfoAsWritten(JObj([("id", JNum(7)), ("owner", JNull)])) == InfoRaised
    ensures FetchGroupInfo(JObj([("id", JNum(7)), ("owner", JNull)])) ==
      Info(JObj([("id", JNum(7)), ("name", JNull),
                 ("owner", JObj([("userId", JNull), ("username", JNull), ("displayName", JNull)])),
                 ("memberCount", JNull)]))
  {
    var g := [("id", JNum(7)), ("owner", JNull)];
    assert g[1] == ("owner", JNull);
    assert !HasKey(g, "name") && !HasKey(g, "memberCount");
  }
}
