/** The bordered output of the command-line interface in
    api/template/src/console_interface.py: long messages are wrapped into
    lines of exactly 80 characters ("* ", 76 characters of text padded with
    spaces, " *"), and an information list is printed between two borders.

    Printing is modelled by returning the printed lines. */
module Console {
  import opened Text

  const MaxLineLength: nat := 80
  /** The text width inside the borders, `MAX_LINE_LENGTH - 4`. */
  const Width: nat := 76
  const BorderChar: char := '*'

  /** `_draw_border`: the border line. */
  const Border: string := Repeat(BorderChar, MaxLineLength)

  /** `s.ljust(w)`: `s` padded on the right with spaces to at least `w`. */
  function LJust(s: string, w: nat): (r: string)
    ensures |r| == if |s| < w then w else |s|
    ensures r[..|s|] == s
    ensures forall i :: |s| <= i < |r| ==> r[i] == ' '
  {
    if |s| < w then s + Repeat(' ', w - |s|) else s
  }

  /** One bordered line of text. */
  function Frame(text: string): string {
    [BorderChar, ' '] + LJust(text, Width) + [' ', BorderChar]
  }

  /** `m.rfind(" ", 0, end)`: the last space starting before `end`, or -1. */
  function RFindSpace(m: string, end: nat): (r: int)
    ensures -1 <= r < end && r < |m|
    ensures r >= 0 ==> m[r] == ' '
  {
    if end == 0 then -1
    else if end - 1 < |m| && m[end - 1] == ' ' then end - 1
    else RFindSpace(m, end - 1)
  }

  /** -1 exactly when no space starts before `end`; otherwise no later space
      starts before `end`. */
  lemma {:induction false} RFindSpaceSpec(m: string, end: nat)
    ensures RFindSpace(m, end) == -1 <==> forall j :: 0 <= j < end && j < |m| ==> m[j] != ' '
    ensures forall j :: RFindSpace(m, end) < j < end && j < |m| ==> m[j] != ' '
  {
    if end > 0 && !(end - 1 < |m| && m[end - 1] == ' ') {
      RFindSpaceSpec(m, end - 1);
    }
  }

  /** Where a line too long for the frame is cut. */
  function Cut(m: string): (i: nat)
    requires |m| > Width
    ensures i <= Width
    ensures i < Width ==> m[i] == ' '
  {
    var j := RFindSpace(m, Width);
    if j == -1 then Width else j
  }

  /** The cut is at the last space before column 76, or at column 76 when
      there is none. */
  lemma CutRule(m: string)
    requires |m| > Width
    ensures var i := Cut(m);
      (i < Width && m[i] == ' ' && forall j :: i < j < Width ==> m[j] != ' ')
      || (i == Width && forall j :: 0 <= j < Width ==> m[j] != ' ')
  {
    RFindSpaceSpec(m, Width);
  }

  /** The first position at or after `k` that is not whitespace: `m[k:].lstrip()`
      is `m[StripFrom(m, k)..]`. */
  function StripFrom(m: string, k: nat): (r: nat)
    requires k <= |m|
    ensures k <= r <= |m|
    ensures r < |m| ==> !IsPySpace(m[r])
    decreases |m| - k
  {
    if k < |m| && IsPySpace(m[k]) then StripFrom(m, k + 1) else k
  }

  predicate Whitespace(s: string) {
    forall j :: 0 <= j < |s| ==> IsPySpace(s[j])
  }

  /** Only whitespace is stripped. */
  lemma {:induction false} StripFromSpec(m: string, k: nat)
    requires k <= |m|
    ensures Whitespace(m[k..StripFrom(m, k)])
    decreases |m| - k
  {
    if k < |m| && IsPySpace(m[k]) {
      StripFromSpec(m, k + 1);
      assert forall j :: k < j < StripFrom(m, k) ==> m[j] == m[k + 1..StripFrom(m, k)][j - k - 1];
    }
  }

  /** Where the rest of the message starts after the cut at `i`; always past
      the start, so the loop makes progress. */
  function Resume(m: string, i: nat): (j: nat)
    requires |m| > Width && i == Cut(m)
    ensures i <= j <= |m| && 0 < j
  {
    StripFrom(m, i)
  }

  /** A piece of a wrapped message: the text of one line, and the whitespace
      stripped after it. */
  datatype Piece = Piece(text: string, gap: string)

  /** The pieces the wrap loop cuts a message into. */
  function Chunks(m: string): (r: seq<Piece>)
    ensures |r| >= 1
    decreases |m|
  {
    if |m| <= Width then [Piece(m, "")]
    else
      var i := Cut(m);
      var j := Resume(m, i);
      [Piece(m[..i], m[i..j])] + Chunks(m[j..])
  }

  function Frames(ps: seq<Piece>): (r: seq<string>)
    ensures |r| == |ps|
  {
    if ps == [] then [] else [Frame(ps[0].text)] + Frames(ps[1..])
  }

  /** The lines `format_long_message` builds. */
  function Wrap(m: string): seq<string> {
    Frames(Chunks(m))
  }

  /** `"\n".join(lines)`. */
  function Join(lines: seq<string>): string {
    if lines == [] then ""
    else if |lines| == 1 then lines[0]
    else lines[0] + "\n" + Join(lines[1..])
  }

  /** The pieces put back together, text then stripped whitespace. */
  function Flatten(ps: seq<Piece>): string {
    if ps == [] then "" else ps[0].text + ps[0].gap + Flatten(ps[1..])
  }

  /** One round of the wrap loop. */
  lemma WrapStep(m: string)
    requires |m| > Width
    ensures Wrap(m) == [Frame(m[..Cut(m)])] + Wrap(m[Resume(m, Cut(m))..])
  {
    ChunksStep(m, Cut(m), Resume(m, Cut(m)));
  }

  lemma WrapFits(m: string)
    requires |m| <= Width
    ensures Wrap(m) == [Frame(m)]
  {
  }

  lemma ChunksStep(m: string, i: nat, j: nat)
    requires |m| > Width && i == Cut(m) && j == Resume(m, i)
    ensures Chunks(m) == [Piece(m[..i], m[i..j])] + Chunks(m[j..])
  {
  }

  /** Wrapping loses nothing: the line texts with the whitespace stripped at
      each cut are the message again. */
  lemma {:induction false} ChunksReassemble(m: string)
    ensures Flatten(Chunks(m)) == m
    decreases |m|
  {
    if |m| > Width {
      var i := Cut(m);
      var j := Resume(m, i);
      ChunksReassemble(m[j..]);
      ChunksStep(m, i, j);
      var ps := Chunks(m);
      assert ps[1..] == Chunks(m[j..]);
      SplitThree(m, i, j);
    }
  }

  lemma SplitThree(m: string, i: nat, j: nat)
    requires i <= j <= |m|
    ensures m[..i] + m[i..j] + m[j..] == m
  {
    assert m[..i] + m[i..j] == m[..j];
  }

  /** Every stripped gap is whitespace. */
  lemma {:induction false} ChunksGaps(m: string)
    ensures forall k :: 0 <= k < |Chunks(m)| ==> Whitespace(Chunks(m)[k].gap)
    decreases |m|
  {
    if |m| > Width {
      var i := Cut(m);
      var j := Resume(m, i);
      ChunksGaps(m[j..]);
      ChunksStep(m, i, j);
      StripFromSpec(m, i);
      var ps := Chunks(m);
      forall k | 1 <= k < |ps|
        ensures Whitespace(ps[k].gap)
      {
        assert ps[k] == Chunks(m[j..])[k - 1];
      }
    }
  }

  /** Every line text fits the frame. */
  lemma {:induction false} ChunksFit(m: string)
    ensures forall k :: 0 <= k < |Chunks(m)| ==> |Chunks(m)[k].text| <= Width
    decreases |m|
  {
    if |m| > Width {
      var i := Cut(m);
      var j := Resume(m, i);
      ChunksFit(m[j..]);
      ChunksStep(m, i, j);
      var ps := Chunks(m);
      forall k | 1 <= k < |ps|
        ensures |ps[k].text| <= Width
      {
        assert ps[k] == Chunks(m[j..])[k - 1];
      }
    }
  }

  lemma {:induction false} FramesShape(ps: seq<Piece>)
    requires forall k :: 0 <= k < |ps| ==> |ps[k].text| <= Width
    ensures forall k :: 0 <= k < |ps| ==> Frames(ps)[k] == Frame(ps[k].text)
  {
    if ps != [] {
      FramesShape(ps[1..]);
      assert forall k :: 1 <= k < |ps| ==> ps[k] == ps[1..][k - 1];
    }
  }

  /** A frame around text that fits is exactly 80 characters: "* ", the text,
      spaces up to 76 characters, " *". */
  lemma FrameShape(text: string)
    requires |text| <= Width
    ensures var line := Frame(text);
      |line| == MaxLineLength && line[..2] == "* " && line[2..2 + |text|] == text
      && (forall i :: 2 + |text| <= i < 78 ==> line[i] == ' ') && line[78..] == " *"
  {
    var line := Frame(text);
    var pad := LJust(text, Width);
    assert line[2..78] == pad;
    assert line[2..2 + |text|] == pad[..|text|];
  }

  /** Every line `format_long_message` produces is 80 characters long and
      framed; there is at least one, and a message that fits gives exactly
      one. */
  lemma WrapLines(m: string)
    ensures |Wrap(m)| >= 1
    ensures forall k :: 0 <= k < |Wrap(m)| ==>
      |Wrap(m)[k]| == MaxLineLength && Wrap(m)[k][..2] == "* " && Wrap(m)[k][78..] == " *"
    ensures |m| <= Width ==> Wrap(m) == [Frame(m)]
  {
    ChunksFit(m);
    FramesShape(Chunks(m));
    forall k | 0 <= k < |Wrap(m)|
      ensures |Wrap(m)[k]| == MaxLineLength && Wrap(m)[k][..2] == "* " && Wrap(m)[k][78..] == " *"
    {
      FrameShape(Chunks(m)[k].text);
    }
  }

  /** The joined text of lines of 80 characters has one newline between
      consecutive lines. */
  lemma {:induction false} JoinLength(lines: seq<string>)
    requires forall k :: 0 <= k < |lines| ==> |lines[k]| == MaxLineLength
    ensures |Join(lines)| == if lines == [] then 0 else 81 * |lines| - 1
  {
    if |lines| > 1 {
      JoinLength(lines[1..]);
    }
  }

  /** The wrap loop of `format_long_message` and `display_information_list`:
      cut a framed line off while the text is longer than 76 characters,
      then frame the rest. */
  method WrapLoop(message: string) returns (lines: seq<string>)
    ensures lines == Wrap(message)
  {
    lines := [];
    var m := message;
    while |m| > Width
      invariant Wrap(message) == lines + Wrap(m)
      decreases |m|
    {
      var index := RFindSpace(m, Width);
      if index == -1 {
        index := Width;
      }
      WrapStep(m);
      lines := lines + [Frame(m[..index])];
      m := m[StripFrom(m, index)..];
    }
    WrapFits(m);
    lines := lines + [Frame(m)];
  }

  /** `format_long_message`. */
  method FormatLongMessage(message: string) returns (r: string)
    ensures r == Join(Wrap(message))
  {
    var lines := WrapLoop(message);
    r := Join(lines);
  }

  /** The lines of all items, each wrapped by the same rule. */
  function WrapAll(items: seq<string>): seq<string> {
    if items == [] then [] else WrapAll(items[..|items| - 1]) + Wrap(items[|items| - 1])
  }

  /** What `display_information_list` prints: nothing for no items, otherwise
      the wrapped items between two borders. */
  function InfoList(items: seq<string>): seq<string> {
    if items == [] then [] else [Border] + WrapAll(items) + [Border]
  }

  /** `display_information_list`, returning the printed lines. */
  method DisplayInformationList(items: seq<string>) returns (printed: seq<string>)
    ensures printed == InfoList(items)
  {
    if items == [] {
      return [];
    }
    var formatted: seq<string> := [];
    for k := 0 to |items|
      invariant formatted == WrapAll(items[..k])
    {
      assert items[..k + 1][..k] == items[..k];
      var lines := WrapLoop(items[k]);
      formatted := formatted + lines;
    }
    assert items[..|items|] == items;
    printed := [Border] + formatted + [Border];
  }

  /** Every printed line of a non-empty list is 80 characters: the borders are
      80 '*', and each item contributes at least one framed line. */
  lemma {:induction false} InfoListLines(items: seq<string>)
    ensures items == [] <==> InfoList(items) == []
    ensures items != [] ==>
      |InfoList(items)| >= |items| + 2 && InfoList(items)[0] == Border && InfoList(items)[|InfoList(items)| - 1] == Border
    ensures forall k :: 0 <= k < |InfoList(items)| ==> |InfoList(items)[k]| == MaxLineLength
    ensures forall i :: 0 <= i < |Border| ==> Border[i] == BorderChar
  {
    if items != [] {
      WrapAllLines(items);
    }
  }

  lemma {:induction false} WrapAllLines(items: seq<string>)
    ensures |WrapAll(items)| >= |items|
    ensures forall k :: 0 <= k < |WrapAll(items)| ==> |WrapAll(items)[k]| == MaxLineLength
  {
    if items != [] {
      var n := |items| - 1;
      WrapAllLines(items[..n]);
      WrapLines(items[n]);
      var front := WrapAll(items[..n]);
      assert forall k :: |front| <= k < |WrapAll(items)| ==> WrapAll(items)[k] == Wrap(items[n])[k - |front|];
    }
  }
}
