/** The input helpers of public/api/template/src/utils.py: keeping the digits
    of a clothing id, and recognising a Roblox community or catalog URL. */
module UrlUtils {
  import opened Options
  import opened Text

  const GroupPrefix: string := "https://www.roblox.com/communities/"
  const CatalogPrefix: string := "https://www.roblox.com/catalog/"

  /** `validate_clothing_id`: every non-digit removed. */
  function ValidateClothingId(s: string): (r: string)
    ensures AllDigits(r) && |r| <= |s|
  {
    Digits(s)
  }

  /** A validated id is already valid, and the result is empty exactly when
      the input has no digit. */
  lemma ValidateIdempotent(s: string)
    ensures ValidateClothingId(ValidateClothingId(s)) == ValidateClothingId(s)
    ensures ValidateClothingId(s) == "" <==> forall i :: 0 <= i < |s| ==> !IsDigit(s[i])
  {
    DigitsOfAllDigits(Digits(s));
    DigitsEmptyIff(s);
  }

  /** Validating the parts of an input one after another gives the same id. */
  lemma ValidateAppend(a: string, b: string)
    ensures ValidateClothingId(a + b) == ValidateClothingId(a) + ValidateClothingId(b)
  {
    DigitsAppend(a, b);
  }

  /** `re.match(prefix + r"(\d+)", s)` succeeds: `s` starts with the prefix and
      a digit follows. */
  predicate MatchesAt(s: string, prefix: string) {
    StartsWith(s, prefix) && |prefix| < |s| && IsDigit(s[|prefix|])
  }

  /** `extract_id_and_type_from_url`: the id and "group" for a community URL,
      otherwise the id and "catalog" for a catalog URL, otherwise None. */
  function ExtractIdAndType(s: string): Option<(string, string)> {
    if MatchesAt(s, GroupPrefix) then Some((DigitRun(s[|GroupPrefix|..]), "group"))
    else if MatchesAt(s, CatalogPrefix) then Some((DigitRun(s[|CatalogPrefix|..]), "catalog"))
    else None
  }

  /** A result exactly when the input starts with one of the two URL forms
      followed by a digit; the id is then the whole digit run after the
      prefix, and the community form is tried first. */
  lemma ExtractIdAndTypeSpec(s: string)
    ensures ExtractIdAndType(s).Some? <==> MatchesAt(s, GroupPrefix) || MatchesAt(s, CatalogPrefix)
    ensures ExtractIdAndType(s).Some? ==>
      var (id, kind) := ExtractIdAndType(s).value;
      var prefix := if kind == "group" then GroupPrefix else CatalogPrefix;
      (kind == "group" || kind == "catalog") && id != "" && AllDigits(id)
      && StartsWith(s, prefix + id)
      && (|prefix + id| == |s| || !IsDigit(s[|prefix + id|]))
    ensures MatchesAt(s, GroupPrefix) ==> ExtractIdAndType(s).value.1 == "group"
  {
    if MatchesAt(s, GroupPrefix) {
      MatchShape(s, GroupPrefix);
    } else if MatchesAt(s, CatalogPrefix) {
      MatchShape(s, CatalogPrefix);
    }
  }

  lemma MatchShape(s: string, prefix: string)
    requires MatchesAt(s, prefix)
    ensures var id := DigitRun(s[|prefix|..]);
      id != "" && StartsWith(s, prefix + id) && (|prefix + id| == |s| || !IsDigit(s[|prefix + id|]))
  {
    var rest := s[|prefix|..];
    var id := DigitRun(rest);
    assert rest[0] == s[|prefix|];
    assert s == prefix + rest;
    assert rest == id + rest[|id|..];
    assert s[..|prefix + id|] == prefix + id;
  }

  /** Both URL forms cannot match the same input. */
  lemma PrefixesExclusive(s: string)
    ensures !(MatchesAt(s, GroupPrefix) && MatchesAt(s, CatalogPrefix))
  {
  }

  /** A community URL built from an id gives that id back, whatever follows a
      non-digit. */
  lemma GroupRoundTrip(id: string, rest: string)
    requires id != "" && AllDigits(id)
    requires rest == [] || !IsDigit(rest[0])
    ensures ExtractIdAndType(GroupPrefix + id + rest) == Some((id, "group"))
  {
    var s := GroupPrefix + id + rest;
    assert s[..|GroupPrefix|] == GroupPrefix;
    assert s[|GroupPrefix|..] == id + rest;
    assert s[|GroupPrefix|] == id[0];
    DigitRunExtend(id, rest);
  }

  /** A catalog URL built from an id gives that id back. */
  lemma CatalogRoundTrip(id: string, rest: string)
    requires id != "" && AllDigits(id)
    requires rest == [] || !IsDigit(rest[0])
    ensures ExtractIdAndType(CatalogPrefix + id + rest) == Some((id, "catalog"))
  {
    var s := CatalogPrefix + id + rest;
    assert s[..|CatalogPrefix|] == CatalogPrefix;
    assert s[|CatalogPrefix|..] == id + rest;
    assert s[|CatalogPrefix|] == id[0];
    PrefixesExclusive(s);
    DigitRunExtend(id, rest);
  }

  /** An extracted id passes `validate_clothing_id` unchanged. */
  lemma ExtractedIdValid(s: string)
    requires ExtractIdAndType(s).Some?
    ensures ValidateClothingId(ExtractIdAndType(s).value.0) == ExtractIdAndType(s).value.0
  {
    DigitsOfAllDigits(ExtractIdAndType(s).value.0);
  }
}
