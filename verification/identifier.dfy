/** `generateIdentifier` of extension/background.js: the user code stored at
    install time, of the form `X0-0X-X0-X0-0X-000000` (X a letter A-Z, 0 a
    digit 0-9).

    `Math.random()` is not modelled. Each of the sixteen draws is given as its
    result, the index `Math.floor(Math.random() * n)` into the alphabet it picks
    from (26 letters or 10 digits), in the order the script draws them. */
module Identifier {
  import opened Text

  const Letters: string := "ABCDEFGHIJKLMNOPQRSTUVWXYZ"

  /** The draws the script makes, in call order: `randChar() + randNum()`,
      `randNum() + randChar()`, `randChar() + randNum()`, `randChar() + randNum()`,
      `randNum() + randChar()`, then six `randNum()`. */
  const DrawCount: nat := 16

  /** Which draws pick a letter (the others pick a digit). */
  predicate LetterDraw(k: nat) {
    k == 0 || k == 3 || k == 4 || k == 6 || k == 9
  }

  /** Every draw lies inside its alphabet, as `Math.floor(Math.random() * n)` does. */
  predicate ValidDraws(draws: seq<nat>) {
    |draws| == DrawCount
    && forall k :: 0 <= k < |draws| ==> draws[k] < (if LetterDraw(k) then 26 else 10)
  }

  /** The character draw `k` contributes. */
  function DrawChar(draws: seq<nat>, k: nat): (c: char)
    requires ValidDraws(draws) && k < DrawCount
    ensures LetterDraw(k) ==> IsUpper(c)
    ensures !LetterDraw(k) ==> IsDigit(c)
  {
    if LetterDraw(k) then Letters[draws[k]] else DigitChar(draws[k])
  }

  /** `Array.prototype.join(sep)`. */
  function Join(parts: seq<string>, sep: char): string {
    if parts == [] then ""
    else if |parts| == 1 then parts[0]
    else parts[0] + [sep] + Join(parts[1..], sep)
  }

  /** The six groups the script joins: two characters each, then six digits. */
  function Groups(cs: seq<char>): seq<string>
    requires |cs| == DrawCount
  {
    [cs[0..2], cs[2..4], cs[4..6], cs[6..8], cs[8..10], cs[10..16]]
  }

  /** The characters the draws contribute, in draw order. */
  function Chars(draws: seq<nat>): (cs: seq<char>)
    requires ValidDraws(draws)
    ensures |cs| == DrawCount
    ensures forall k :: 0 <= k < DrawCount ==> cs[k] == DrawChar(draws, k)
  {
    seq(DrawCount, k requires 0 <= k < DrawCount => DrawChar(draws, k))
  }

  /** `generateIdentifier()` for the given draws. */
  function GenerateIdentifier(draws: seq<nat>): (r: string)
    requires ValidDraws(draws)
    ensures IsIdentifier(r)
  {
    var r := Join(Groups(Chars(draws)), '-');
    GroupsLayout(Chars(draws));
    r
  }

  /** Where draw `k` lands in the identifier. */
  function Position(k: nat): nat
    requires k < DrawCount
  {
    if k < 10 then k + k / 2 else k + 5
  }

  /** The identifier format: 21 characters, '-' after each of the first five
      two-character groups, letters and digits where the draws put them. */
  predicate IsIdentifier(s: string) {
    |s| == 21
    && s[2] == '-' && s[5] == '-' && s[8] == '-' && s[11] == '-' && s[14] == '-'
    && forall k :: 0 <= k < DrawCount ==>
         if LetterDraw(k) then IsUpper(s[Position(k)]) else IsDigit(s[Position(k)])
  }

  /** The draw that put the character at `Position(k)`. */
  function ReadDraw(s: string, k: nat): (d: nat)
    requires IsIdentifier(s) && k < DrawCount
  {
    if LetterDraw(k) then s[Position(k)] as int - 'A' as int else DigitValue(s[Position(k)])
  }

  /** The draws an identifier was generated from. */
  function ReadDraws(s: string): (r: seq<nat>)
    requires IsIdentifier(s)
    ensures |r| == DrawCount
  {
    seq(DrawCount, k requires 0 <= k < DrawCount => ReadDraw(s, k))
  }

  lemma JoinSix(a: string, b: string, c: string, d: string, e: string, f: string, sep: char)
    ensures Join([a, b, c, d, e, f], sep) == a + [sep] + b + [sep] + c + [sep] + d + [sep] + e + [sep] + f
  {
    var parts := [a, b, c, d, e, f];
    assert parts[1..][1..] == parts[2..] && parts[2..][1..] == parts[3..];
    assert parts[3..][1..] == parts[4..] && parts[4..][1..] == parts[5..];
    assert Join(parts[4..], sep) == e + [sep] + f;
    assert Join(parts[3..], sep) == d + [sep] + (e + [sep] + f);
    assert Join(parts[2..], sep) == c + [sep] + (d + [sep] + (e + [sep] + f));
    assert Join(parts[1..], sep) == b + [sep] + (c + [sep] + (d + [sep] + (e + [sep] + f)));
  }

  /** The groups joined with '-': the characters with a '-' after the second,
      fourth, sixth, eighth and tenth. */
  function Spelled(cs: seq<char>): string
    requires |cs| == DrawCount
  {
    [cs[0], cs[1], '-', cs[2], cs[3], '-', cs[4], cs[5], '-', cs[6], cs[7], '-', cs[8], cs[9], '-',
     cs[10], cs[11], cs[12], cs[13], cs[14], cs[15]]
  }

  lemma JoinGroups(cs: seq<char>)
    requires |cs| == DrawCount
    ensures Join(Groups(cs), '-') == Spelled(cs)
  {
    JoinSix(cs[0..2], cs[2..4], cs[4..6], cs[6..8], cs[8..10], cs[10..16], '-');
  }

  /** The joined groups put character `k` at `Position(k)` and '-' between groups. */
  lemma GroupsLayout(cs: seq<char>)
    requires |cs| == DrawCount
    ensures |Join(Groups(cs), '-')| == 21
    ensures var r := Join(Groups(cs), '-');
      r[2] == '-' && r[5] == '-' && r[8] == '-' && r[11] == '-' && r[14] == '-'
    ensures forall k :: 0 <= k < DrawCount ==> Join(Groups(cs), '-')[Position(k)] == cs[k]
  {
    JoinGroups(cs);
    var r := Spelled(cs);
    forall k | 0 <= k < DrawCount
      ensures r[Position(k)] == cs[k]
    {
    }
  }

  /** The draws can be read back from the identifier: distinct draws give
      distinct identifiers. */
  lemma ReadGenerated(draws: seq<nat>)
    requires ValidDraws(draws)
    ensures ReadDraws(GenerateIdentifier(draws)) == draws
  {
    var r := GenerateIdentifier(draws);
    GroupsLayout(Chars(draws));
    forall k | 0 <= k < DrawCount
      ensures ReadDraws(r)[k] == draws[k]
    {
      if LetterDraw(k) {
        LetterIndex(draws[k]);
      }
    }
  }

  lemma LetterIndex(d: nat)
    requires d < 26
    ensures Letters[d] as int - 'A' as int == d
  {
  }

  /** Every string of the identifier format is generated by the draws read
      from it. */
  lemma GeneratedRead(s: string)
    requires IsIdentifier(s)
    ensures ValidDraws(ReadDraws(s)) && GenerateIdentifier(ReadDraws(s)) == s
  {
    var draws := ReadDraws(s);
    forall k | 0 <= k < DrawCount
      ensures draws[k] < (if LetterDraw(k) then 26 else 10)
      ensures DrawChar(draws, k) == s[Position(k)]
    {
      if LetterDraw(k) {
        LetterAt(s[Position(k)]);
      }
    }
    var r := GenerateIdentifier(draws);
    GroupsLayout(Chars(draws));
    assert forall j :: 0 <= j < 21 ==> r[j] == s[j] by {
      forall j | 0 <= j < 21
        ensures r[j] == s[j]
      {
        if j != 2 && j != 5 && j != 8 && j != 11 && j != 14 {
          var k := if j < 15 then j - (j + 1) / 3 else j - 5;
          assert Position(k) == j;
        }
      }
    }
  }

  lemma LetterAt(c: char)
    requires IsUpper(c)
    ensures 0 <= c as int - 'A' as int < 26 && Letters[c as int - 'A' as int] == c
  {
  }
}
