/** Byte strings as the ZIP writer of extension/background.js handles them:
    little-endian fields written with `DataView.setUint16/setUint32(_, v, true)`,
    and buffers joined one after the other (`new Blob(parts)`).

    A byte is a natural below 256; the writers below only ever produce such
    values (`LE` ensures it), the readers accept any naturals. */
module Bytes {

  predicate IsBytes(s: seq<nat>) {
    forall i :: 0 <= i < |s| ==> s[i] < 256
  }

  /** 256 to the power `w`: one more than the largest value `w` bytes hold. */
  function Pow256(w: nat): (r: nat)
    ensures r > 0
  {
    if w == 0 then 1 else 256 * Pow256(w - 1)
  }

  lemma Pow256Values()
    ensures Pow256(2) == 0x1_0000 && Pow256(4) == 0x1_0000_0000
  {
  }

  /** `setUint16(_, v, true)` (w = 2) and `setUint32(_, v, true)` (w = 4): the
      low `w` bytes of `v`, low byte first, so `v` is stored modulo 256^w. */
  function LE(v: nat, w: nat): (r: seq<nat>)
    ensures |r| == w && IsBytes(r)
  {
    if w == 0 then [] else [v % 256] + LE(v / 256, w - 1)
  }

  /** `n` zero bytes: a freshly allocated `Uint8Array(n)`. */
  function Zeros(n: nat): (r: seq<nat>)
    ensures |r| == n && IsBytes(r)
    ensures forall i :: 0 <= i < n ==> r[i] == 0
  {
    seq(n, i => 0)
  }

  lemma ZerosAppend(a: nat, b: nat)
    ensures Zeros(a) + Zeros(b) == Zeros(a + b)
  {
    assert forall i :: 0 <= i < a + b ==> (Zeros(a) + Zeros(b))[i] == 0;
  }

  /** Writing zero into a field leaves it all zero bytes. */
  lemma {:induction false} LEZero(w: nat)
    ensures LE(0, w) == Zeros(w)
  {
    if w > 0 {
      LEZero(w - 1);
      assert Zeros(w) == [0] + Zeros(w - 1);
    }
  }

  /** The number a little-endian byte string denotes. */
  function Value(s: seq<nat>): nat {
    if s == [] then 0 else s[0] + 256 * Value(s[1..])
  }

  /** The `w`-byte little-endian field at `i` (`getUint16/getUint32(i, true)`). */
  function Field(s: seq<nat>, i: nat, w: nat): nat
    requires i + w <= |s|
  {
    Value(s[i..i + w])
  }

  /** Reading back a written field gives the value modulo the field's range. */
  lemma {:induction false} ValueLE(v: nat, w: nat)
    ensures Value(LE(v, w)) == v % Pow256(w)
  {
    if w > 0 {
      var r := LE(v, w);
      assert r[1..] == LE(v / 256, w - 1);
      ValueLE(v / 256, w - 1);
      ModSplit(v, Pow256(w - 1));
    }
  }

  /** Splitting off the low byte of a remainder. */
  lemma ModSplit(v: nat, m: nat)
    requires m > 0
    ensures v % (256 * m) == v % 256 + 256 * ((v / 256) % m)
  {
    var q := v / 256;
    var a := q / m;
    var b := q % m;
    assert q == m * a + b;
    assert v == 256 * q + v % 256;
    assert v == (256 * m) * a + (256 * b + v % 256);
    ModUnique(v, 256 * m, a, 256 * b + v % 256);
  }

  /** The remainder is the only `r` below `d` with `v == d * a + r`. */
  lemma ModUnique(v: nat, d: nat, a: nat, r: nat)
    requires d > 0 && v == d * a + r && r < d
    ensures v % d == r
  {
    var q, r0 := v / d, v % d;
    assert v == d * q + r0;
    if q > a {
      assert d * (a + 1) == d * a + d;
      MulMono(d, a + 1, q);
    } else if q < a {
      assert d * (q + 1) == d * q + d;
      MulMono(d, q + 1, a);
    }
  }

  lemma MulMono(d: nat, x: nat, y: nat)
    requires x <= y
    ensures d * x <= d * y
  {
    assert d * y == d * x + d * (y - x);
  }

  /** A slice of a slice that sits in `z` is a slice of `z`. */
  lemma SliceWithin<T>(z: seq<T>, a: nat, t: seq<T>, i: nat, j: nat)
    requires a + |t| <= |z| && z[a..a + |t|] == t && i <= j <= |t|
    ensures z[a + i..a + j] == t[i..j]
  {
    forall k | 0 <= k < j - i
      ensures z[a + i..a + j][k] == t[i..j][k]
    {
      assert z[a + i..a + j][k] == z[a..a + |t|][i + k];
    }
  }

  /** A field is read from whatever bytes sit at its position. */
  lemma FieldAt(s: seq<nat>, a: nat, t: seq<nat>, i: nat, w: nat)
    requires a + |t| <= |s| && s[a..a + |t|] == t && i + w <= |t|
    ensures Field(s, a + i, w) == Field(t, i, w)
  {
    SliceWithin(s, a, t, i, i + w);
  }

  /** A field of the front part of a sequence is a field of the whole. */
  lemma FieldFront(a: seq<nat>, b: seq<nat>, i: nat, w: nat)
    requires i + w <= |a|
    ensures Field(a + b, i, w) == Field(a, i, w)
  {
    assert (a + b)[i..i + w] == a[i..i + w];
  }

  /** A field of the back part of a sequence is a field of the whole. */
  lemma FieldBack(a: seq<nat>, b: seq<nat>, i: nat, w: nat)
    requires i + w <= |b|
    ensures Field(a + b, |a| + i, w) == Field(b, i, w)
  {
    assert (a + b)[|a| + i..|a| + i + w] == b[i..i + w];
  }

  /** Buffers joined in order, as `new Blob(parts)` joins them. */
  function Concat(parts: seq<seq<nat>>): seq<nat> {
    if parts == [] then [] else parts[0] + Concat(parts[1..])
  }

  /** Where part `i` starts in the joined buffer. */
  function Start(parts: seq<seq<nat>>, i: nat): nat
    requires i <= |parts|
  {
    |Concat(parts[..i])|
  }

  /** Joining is compatible with splitting the list of parts. */
  lemma {:induction false} ConcatAppend(a: seq<seq<nat>>, b: seq<seq<nat>>)
    ensures Concat(a + b) == Concat(a) + Concat(b)
  {
    if a == [] {
      assert a + b == b;
    } else {
      assert (a + b)[0] == a[0];
      assert (a + b)[1..] == a[1..] + b;
      ConcatAppend(a[1..], b);
    }
  }

  /** One more part at the back adds its bytes at the back. */
  lemma ConcatSnoc(parts: seq<seq<nat>>, p: seq<nat>)
    ensures Concat(parts + [p]) == Concat(parts) + p
  {
    ConcatAppend(parts, [p]);
    ConcatOne(p);
  }

  /** Joining the pieces of part `i` after the first `i` parts joins the
      first `i + 1` parts. */
  lemma ConcatGrow(blob: seq<seq<nat>>, base: seq<nat>, parts: seq<seq<nat>>, i: nat, pieces: seq<seq<nat>>)
    requires i < |parts|
    requires Concat(blob) == base + Concat(parts[..i]) && Concat(pieces) == parts[i]
    ensures Concat(blob + pieces) == base + Concat(parts[..i + 1])
  {
    ConcatAppend(blob, pieces);
    assert parts[..i + 1] == parts[..i] + [parts[i]];
    ConcatSnoc(parts[..i], parts[i]);
  }

  lemma ConcatOne(p: seq<nat>)
    ensures Concat([p]) == p
  {
    assert [p][1..] == [];
  }

  /** The next part starts where this one ends. */
  lemma StartNext(parts: seq<seq<nat>>, i: nat)
    requires i < |parts|
    ensures Start(parts, i + 1) == Start(parts, i) + |parts[i]|
  {
    assert parts[..i + 1] == parts[..i] + [parts[i]];
    ConcatAppend(parts[..i], [parts[i]]);
    ConcatOne(parts[i]);
  }

  /** Part `i` sits in the joined buffer at its start. */
  lemma ConcatAt(parts: seq<seq<nat>>, i: nat)
    requires i < |parts|
    ensures Start(parts, i) + |parts[i]| <= |Concat(parts)|
    ensures Concat(parts)[Start(parts, i)..Start(parts, i) + |parts[i]|] == parts[i]
  {
    assert parts == parts[..i] + parts[i..];
    ConcatAppend(parts[..i], parts[i..]);
    assert Concat(parts[i..]) == parts[i] + Concat(parts[i + 1..]) by {
      assert parts[i..][1..] == parts[i + 1..];
    }
    var pre, p := Concat(parts[..i]), parts[i];
    assert Concat(parts) == pre + (p + Concat(parts[i + 1..]));
    assert Concat(parts)[|pre|..|pre| + |p|] == p;
  }
}
