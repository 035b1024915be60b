/** Character and string helpers shared by the models. Everything is restricted
    to ASCII: digits are '0'..'9', case folding maps 'A'..'Z' only, and the
    whitespace sets are the ASCII members of the JavaScript and Python ones. */
module Text {
  import opened Options

  predicate IsDigit(c: char) { '0' <= c <= '9' }

  predicate IsUpper(c: char) { 'A' <= c <= 'Z' }

  predicate AllDigits(s: string) {
    forall i :: 0 <= i < |s| ==> IsDigit(s[i])
  }

  /** The digit characters of `s`, in order (`re.sub(r"[^0-9]", "", s)`). */
  function Digits(s: string): (r: string)
    ensures AllDigits(r)
    ensures |r| <= |s|
  {
    if s == [] then []
    else if IsDigit(s[0]) then [s[0]] + Digits(s[1..])
    else Digits(s[1..])
  }

  /** Filtering distributes over concatenation. */
  lemma {:induction false} DigitsAppend(a: string, b: string)
    ensures Digits(a + b) == Digits(a) + Digits(b)
  {
    if a == [] {
      assert a + b == b;
    } else {
      assert (a + b)[0] == a[0];
      assert (a + b)[1..] == a[1..] + b;
      DigitsAppend(a[1..], b);
    }
  }

  /** A string of digits is its own digit string. */
  lemma {:induction false} DigitsOfAllDigits(s: string)
    requires AllDigits(s)
    ensures Digits(s) == s
  {
    if s != [] {
      DigitsOfAllDigits(s[1..]);
    }
  }

  /** The digit string is empty exactly when `s` has no digit. */
  lemma {:induction false} DigitsEmptyIff(s: string)
    ensures Digits(s) == [] <==> forall i :: 0 <= i < |s| ==> !IsDigit(s[i])
  {
    if s != [] {
      DigitsEmptyIff(s[1..]);
      assert forall i :: 1 <= i < |s| ==> s[i] == s[1..][i - 1];
    }
  }

  /** The maximal run of digits at the start of `s`: the group of a greedy `(\d+)`
      (empty when `s` does not start with a digit). */
  function DigitRun(s: string): (r: string)
    ensures |r| <= |s| && r == s[..|r|]
    ensures AllDigits(r)
    ensures |r| < |s| ==> !IsDigit(s[|r|])
  {
    if s != [] && IsDigit(s[0]) then [s[0]] + DigitRun(s[1..]) else []
  }

  /** Characters after a complete digit run do not change it. */
  lemma {:induction false} DigitRunExtend(d: string, rest: string)
    requires AllDigits(d)
    requires rest == [] || !IsDigit(rest[0])
    ensures DigitRun(d + rest) == d
  {
    if d == [] {
      assert d + rest == rest;
    } else {
      assert (d + rest)[1..] == d[1..] + rest;
      DigitRunExtend(d[1..], rest);
    }
  }

  predicate StartsWith(s: string, prefix: string) {
    |prefix| <= |s| && s[..|prefix|] == prefix
  }

  /** `lit` occurs at `i` in `s` and a digit follows it: where `lit(\d+)` can match. */
  predicate DigitsFollowAt(s: string, lit: string, i: nat) {
    i + |lit| < |s| && s[i..i + |lit|] == lit && IsDigit(s[i + |lit|])
  }

  /** The leftmost position at or after `from` where `lit(\d+)` matches. */
  function FindDigitsAfter(s: string, lit: string, from: nat): (r: Option<nat>)
    ensures r.Some? ==> from <= r.value && DigitsFollowAt(s, lit, r.value)
    ensures r.Some? ==> forall j :: from <= j < r.value ==> !DigitsFollowAt(s, lit, j)
    ensures r.None? ==> forall j :: from <= j ==> !DigitsFollowAt(s, lit, j)
    decreases |s| - from
  {
    if |s| <= from + |lit| then None
    else if DigitsFollowAt(s, lit, from) then Some(from)
    else FindDigitsAfter(s, lit, from + 1)
  }

  /** The first capture group of an unanchored `lit(\d+)` search, like
      JavaScript's `s.match(/lit(\d+)/)[1]`; None when there is no match. */
  function SearchDigitsAfter(s: string, lit: string): Option<string> {
    match FindDigitsAfter(s, lit, 0)
    case None => None
    case Some(i) => Some(DigitRun(s[i + |lit|..]))
  }

  /** A successful search yields a non-empty run of digits that follows the first
      occurrence of `lit` with a digit after it; a failed one means there is none. */
  lemma SearchDigitsAfterSpec(s: string, lit: string)
    ensures SearchDigitsAfter(s, lit).None? <==> forall j: nat :: !DigitsFollowAt(s, lit, j)
    ensures SearchDigitsAfter(s, lit).Some? ==>
      exists i: nat :: FirstDigitsAt(s, lit, i)
        && SearchDigitsAfter(s, lit).value == DigitRun(s[i + |lit|..])
    ensures SearchDigitsAfter(s, lit).Some? ==> SearchDigitsAfter(s, lit).value != []
  {
    match FindDigitsAfter(s, lit, 0)
    case None =>
    case Some(i) =>
      assert s[i + |lit|..][0] == s[i + |lit|];
      assert FirstDigitsAt(s, lit, i);
  }

  /** `i` is the leftmost position where `lit(\d+)` matches. */
  predicate FirstDigitsAt(s: string, lit: string, i: nat) {
    DigitsFollowAt(s, lit, i) && forall j: nat :: j < i ==> !DigitsFollowAt(s, lit, j)
  }

  /** `sub` occurs somewhere in `s` (JavaScript `includes`, Python `in`). */
  predicate Contains(s: string, sub: string) {
    exists i :: 0 <= i <= |s| - |sub| && OccursAt(s, sub, i)
  }

  predicate OccursAt(s: string, sub: string, i: nat) {
    i + |sub| <= |s| && s[i..i + |sub|] == sub
  }

  function LowerChar(c: char): char {
    if IsUpper(c) then (c as int + 32) as char else c
  }

  /** ASCII lower-casing (`toLowerCase`, `str.lower`). */
  function Lower(s: string): (r: string)
    ensures |r| == |s|
    ensures forall i :: 0 <= i < |s| ==> r[i] == LowerChar(s[i])
  {
    seq(|s|, i requires 0 <= i < |s| => LowerChar(s[i]))
  }

  /** ASCII members of JavaScript's WhiteSpace and LineTerminator sets (also `\s`). */
  predicate IsJsSpace(c: char) {
    c == ' ' || 9 <= c as int <= 13
  }

  /** ASCII characters for which Python's `str.isspace` holds. */
  predicate IsPySpace(c: char) {
    c == ' ' || 9 <= c as int <= 13 || 28 <= c as int <= 31
  }

  function TrimStart(s: string): (r: string)
    ensures |r| <= |s| && r == s[|s| - |r|..]
    ensures r == [] || !IsJsSpace(r[0])
  {
    if s != [] && IsJsSpace(s[0]) then TrimStart(s[1..]) else s
  }

  function TrimEnd(s: string): (r: string)
    ensures |r| <= |s| && r == s[..|r|]
    ensures r == [] || !IsJsSpace(r[|r| - 1])
  {
    if s != [] && IsJsSpace(s[|s| - 1]) then TrimEnd(s[..|s| - 1]) else s
  }

  /** JavaScript `String.prototype.trim`. */
  function Trim(s: string): (r: string)
    ensures r == [] || (!IsJsSpace(r[0]) && !IsJsSpace(r[|r| - 1]))
  {
    TrimEnd(TrimStart(s))
  }

  function Repeat(c: char, n: nat): (r: string)
    ensures |r| == n
    ensures forall i :: 0 <= i < n ==> r[i] == c
  {
    if n == 0 then [] else [c] + Repeat(c, n - 1)
  }

  /** JavaScript `String.prototype.padStart(width, c)` with a one-character pad. */
  function PadStart(s: string, width: nat, c: char): (r: string)
    ensures |r| == if |s| < width then width else |s|
    ensures r[|r| - |s|..] == s
    ensures forall i :: 0 <= i < |r| - |s| ==> r[i] == c
  {
    if |s| < width then Repeat(c, width - |s|) + s else s
  }

  function DigitChar(d: nat): (c: char)
    requires d < 10
    ensures IsDigit(c)
  {
    ('0' as int + d) as char
  }

  function DigitValue(c: char): nat
    requires IsDigit(c)
  {
    c as int - '0' as int
  }

  /** Decimal rendering of a natural number, without leading zeros. */
  function NatToString(n: nat): (r: string)
    ensures r != [] && AllDigits(r)
    ensures r[0] == '0' ==> n == 0
  {
    if n < 10 then [DigitChar(n)] else NatToString(n / 10) + [DigitChar(n % 10)]
  }

  /** The value of a string of decimal digits (`parseInt(s, 10)` on digits). */
  function ParseNat(s: string): nat
    requires AllDigits(s)
  {
    if s == [] then 0 else 10 * ParseNat(s[..|s| - 1]) + DigitValue(s[|s| - 1])
  }

  /** Reading back a rendered number gives the number. */
  lemma {:induction false} ParseNatToString(n: nat)
    ensures ParseNat(NatToString(n)) == n
  {
    if n >= 10 {
      var r := NatToString(n);
      assert r[..|r| - 1] == NatToString(n / 10);
      ParseNatToString(n / 10);
    }
  }

  /** Python `str(i)` / JavaScript `String(i)` for an integer. */
  function IntToString(i: int): (r: string)
    ensures r != []
  {
    if i < 0 then "-" + NatToString(-i) else NatToString(i)
  }
}
