/** Parsed JSON values as the Python helpers see them after `response.json()`:
    objects keep their keys in document order, as a Python `dict` does.
    Numbers are integers; floating point is not modelled. */
module Json {
  import opened Options
  import opened Text

  datatype Json =
    | JNull
    | JBool(b: bool)
    | JNum(n: int)
    | JStr(s: string)
    | JArr(items: seq<Json>)
    | JObj(fields: seq<(string, Json)>)

  /** Python truthiness: `None`, `False`, `0`, `""`, `[]` and `{}` are false. */
  predicate Truthy(j: Json) {
    match j
    case JNull => false
    case JBool(b) => b
    case JNum(n) => n != 0
    case JStr(s) => s != []
    case JArr(a) => a != []
    case JObj(f) => f != []
  }

  /** `key in d` for a dict. */
  predicate HasKey(fields: seq<(string, Json)>, key: string) {
    exists i :: 0 <= i < |fields| && fields[i].0 == key
  }

  /** `d[key]`: the value stored under the key, or nothing (a `KeyError`). */
  function Get(fields: seq<(string, Json)>, key: string): (r: Option<Json>)
    ensures r.Some? <==> HasKey(fields, key)
    ensures r.Some? ==> exists i :: 0 <= i < |fields| && fields[i] == (key, r.value)
  {
    if fields == [] then None
    else if fields[0].0 == key then Some(fields[0].1)
    else
      var r := Get(fields[1..], key);
      assert r.Some? ==> exists i :: 0 <= i < |fields[1..]| && fields[1..][i] == (key, r.value);
      assert HasKey(fields[1..], key) ==> HasKey(fields, key) by {
        if HasKey(fields[1..], key) {
          var i :| 0 <= i < |fields[1..]| && fields[1..][i].0 == key;
          assert fields[i + 1].0 == key;
        }
      }
      r
  }

  /** Looking a key up in a non-empty dict: the first entry if it has the
      key, otherwise the lookup in the rest. */
  lemma GetStep(fields: seq<(string, Json)>, key: string)
    requires fields != []
    ensures fields[0].0 == key ==> Get(fields, key) == Some(fields[0].1)
    ensures fields[0].0 != key ==> Get(fields, key) == Get(fields[1..], key)
  {
  }

  /** Each key at most once, as in a Python `dict`. */
  predicate UniqueKeys<V>(fields: seq<(string, V)>) {
    forall i, j :: 0 <= i < j < |fields| ==> fields[i].0 != fields[j].0
  }

  /** In an object whose keys are unique, as every dict `json.loads` builds,
      the lookup finds the one value stored under the key, so reading the
      first entry is reading the dict. */
  lemma {:induction false} GetUnique(fields: seq<(string, Json)>, key: string, v: Json)
    requires UniqueKeys(fields)
    ensures Get(fields, key) == Some(v) <==> (key, v) in fields
  {
    if fields != [] {
      GetUnique(fields[1..], key, v);
    }
  }

  /** `d.get(key)`: the stored value, or `None` when the key is absent. */
  function GetOrNull(fields: seq<(string, Json)>, key: string): Json {
    Get(fields, key).GetOr(JNull)
  }

  /** The keys of a dict (or of a registry), in order: what iterating over it yields. */
  function KeysOf<V>(fields: seq<(string, V)>): (r: seq<string>)
    ensures |r| == |fields|
    ensures forall i :: 0 <= i < |r| ==> r[i] == fields[i].0
  {
    if fields == [] then [] else [fields[0].0] + KeysOf(fields[1..])
  }

  /** `", ".join(parts)`. */
  function Join(parts: seq<string>, sep: string): string {
    if parts == [] then ""
    else if |parts| == 1 then parts[0]
    else parts[0] + sep + Join(parts[1..], sep)
  }

  const HexDigits := "0123456789abcdef"

  /** How `repr` writes one character of a string quoted by `quote`:
      backslash, the quote, tab, newline and carriage return are escaped,
      other control characters below 256 (and the non-printing no-break
      space and soft hyphen) become `\xNN`. */
  function EscapeChar(c: char, quote: char): string {
    if c == '\\' then "\\\\"
    else if c == quote then ['\\', c]
    else if c == '\t' then "\\t"
    else if c == '\n' then "\\n"
    else if c == '\r' then "\\r"
    else if c as int < 0x20 || 0x7f <= c as int <= 0xa0 || c as int == 0xad then
      "\\x" + [HexDigits[c as int / 16], HexDigits[c as int % 16]]
    else [c]
  }

  function Escape(s: string, quote: char): string {
    if s == [] then "" else EscapeChar(s[0], quote) + Escape(s[1..], quote)
  }

  /** `repr` of a string: single quotes, unless the text has a single quote
      and no double quote. */
  function ReprStr(s: string): (r: string)
    ensures |r| >= 2
  {
    var quote := if '\'' in s && '"' !in s then '"' else '\'';
    [quote] + Escape(s, quote) + [quote]
  }

  /** Python `repr` of a parsed value. */
  function Repr(j: Json): string
    decreases j
  {
    match j
    case JNull => "None"
    case JBool(b) => if b then "True" else "False"
    case JNum(n) => IntToString(n)
    case JStr(s) => ReprStr(s)
    case JArr(items) =>
      "[" + Join(seq(|items|, i requires 0 <= i < |items| => Repr(items[i])), ", ") + "]"
    case JObj(fields) =>
      "{" + Join(seq(|fields|, i requires 0 <= i < |fields| => ReprStr(fields[i].0) + ": " + ReprField(j, fields[i])), ", ") + "}"
  }

  function ReprField(j: Json, field: (string, Json)): string
    requires j.JObj? && field in j.fields
    decreases j, 0
  {
    assert field.1 < field;
    Repr(field.1)
  }

  /** Python `str` of a parsed value: a string is itself, anything else is
      written as `repr` writes it. */
  function PyStr(j: Json): string {
    if j.JStr? then j.s else Repr(j)
  }

  /** `str` of a non-negative number is its decimal text, which reads back
      as the number. */
  lemma PyStrNumber(n: nat)
    ensures PyStr(JNum(n)) == NatToString(n) && AllDigits(PyStr(JNum(n)))
    ensures ParseNat(PyStr(JNum(n))) == n
  {
    ParseNatToString(n);
  }
}
