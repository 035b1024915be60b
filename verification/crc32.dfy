/** CRC-32 as computed by the ZIP writer of the extension's background script
    (extension/background.js, `makeCrcTable` and `crc32`): the reflected
    polynomial 0xEDB88320, register preset to all ones, final complement. This is
    the checksum required by section 4.4.7 of PKWARE's APPNOTE.TXT.

    The script computes on JavaScript numbers and normalises with `>>> 0`, so
    register values are modelled as naturals below 2^32, with bitwise xor and
    unsigned right shift written out on them. */
module Crc32 {

  const Word: nat := 0x1_0000_0000
  const Polynomial: nat := 0xEDB8_8320

  function Pow2(k: nat): (r: nat)
    ensures r >= 1
  {
    if k == 0 then 1 else 2 * Pow2(k - 1)
  }

  lemma {:induction false} Pow2Add(a: nat, b: nat)
    ensures Pow2(a + b) == Pow2(a) * Pow2(b)
  {
    if a > 0 {
      Pow2Add(a - 1, b);
    }
  }

  lemma Pow2Word()
    ensures Pow2(32) == Word
  {
    assert Pow2(8) == 256;
    Pow2Add(8, 8);
    Pow2Add(16, 16);
  }

  /** Bitwise exclusive or of two naturals, bit by bit from the lowest. */
  function Xor(a: nat, b: nat): nat {
    if a == 0 && b == 0 then 0
    else 2 * Xor(a / 2, b / 2) + (a % 2 + b % 2) % 2
  }

  /** Xor never sets a bit above the highest bit of its operands. */
  lemma {:induction false} XorBound(a: nat, b: nat, k: nat)
    requires a < Pow2(k) && b < Pow2(k)
    ensures Xor(a, b) < Pow2(k)
  {
    if !(a == 0 && b == 0) {
      XorBound(a / 2, b / 2, k - 1);
    }
  }

  lemma XorBelowWord(a: nat, b: nat)
    ensures a < Word && b < Word ==> Xor(a, b) < Word
  {
    Pow2Word();
    if a < Word && b < Word {
      XorBound(a, b, 32);
    }
  }

  /** One round of the table construction:
      low bit set ? Polynomial xor (c >>> 1) : c >>> 1. */
  function Shift(c: nat): (r: nat)
    ensures c < Word ==> r < Word
  {
    if c % 2 == 1 then
      XorBelowWord(Polynomial, c / 2);
      Xor(Polynomial, c / 2)
    else c / 2
  }

  /** `k` rounds of Shift applied to `c`. */
  function Shifts(c: nat, k: nat): (r: nat)
    ensures c < Word ==> r < Word
  {
    if k == 0 then c else Shift(Shifts(c, k - 1))
  }

  /** Entry `n` of the lookup table: `n` after eight rounds. */
  function TableEntry(n: nat): (r: nat)
    ensures n < Word ==> r < Word
  {
    Shifts(n, 8)
  }

  /** The 256-entry lookup table, filled as `makeCrcTable` fills its Uint32Array. */
  method MakeCrcTable() returns (table: array<nat>)
    ensures fresh(table) && table.Length == 256
    ensures forall n :: 0 <= n < 256 ==> table[n] == TableEntry(n)
  {
    table := new nat[256];
    for n := 0 to 256
      invariant forall m :: 0 <= m < n ==> table[m] == TableEntry(m)
    {
      var c := n;
      for k := 0 to 8
        invariant c == Shifts(n, k)
      {
        c := if c % 2 == 1 then Xor(Polynomial, c / 2) else c / 2;
      }
      table[n] := c;
    }
  }

  predicate IsCrcTable(table: seq<nat>) {
    |table| == 256 && forall n :: 0 <= n < 256 ==> table[n] == TableEntry(n)
  }

  /** The table-driven register update for one byte:
      table[(crc ^ b) & 0xff] ^ (crc >>> 8). */
  function Update(crc: nat, b: nat): (r: nat)
    ensures crc < Word ==> r < Word
  {
    XorBelowWord(TableEntry(Xor(crc, b) % 256), crc / 256);
    Xor(TableEntry(Xor(crc, b) % 256), crc / 256)
  }

  /** The register after feeding `data`, starting from all ones (`0 ^ (-1)`). */
  function Register(data: seq<nat>): (r: nat)
    ensures r < Word
  {
    if data == [] then 0xFFFF_FFFF
    else Update(Register(data[..|data| - 1]), data[|data| - 1])
  }

  /** The register after feeding `data` to a register holding `start`. */
  function RegisterFrom(start: nat, data: seq<nat>): nat {
    if data == [] then start
    else Update(RegisterFrom(start, data[..|data| - 1]), data[|data| - 1])
  }

  /** The checksum can be computed in pieces: feeding `a` and then `b` is feeding
      `b` to the register left by `a`. */
  lemma {:induction false} RegisterConcat(a: seq<nat>, b: seq<nat>)
    ensures Register(a + b) == RegisterFrom(Register(a), b)
  {
    if b == [] {
      assert a + b == a;
    } else {
      var b' := b[..|b| - 1];
      assert (a + b)[..|a + b| - 1] == a + b';
      RegisterConcat(a, b');
    }
  }

  /** CRC-32 of `data`: the complemented register, `(crc ^ (-1)) >>> 0`. */
  function Checksum(data: seq<nat>): (r: nat)
    ensures r < Word
    ensures Xor(r, 0xFFFF_FFFF) == Register(data)
  {
    ComplementIsXor(Register(data));
    0xFFFF_FFFF - Register(data)
  }

  /** Below 2^k, subtracting from all ones is xor with all ones. */
  lemma {:induction false} ComplementBits(x: nat, k: nat)
    requires x < Pow2(k)
    ensures Xor(Pow2(k) - 1 - x, Pow2(k) - 1) == x
  {
    if k > 0 {
      var h, q, b := Pow2(k - 1) - 1, x / 2, x % 2;
      ComplementBits(q, k - 1);
      var m, y := Pow2(k) - 1, Pow2(k) - 1 - x;
      assert m == 2 * h + 1 && x == 2 * q + b;
      assert y == 2 * (h - q) + (1 - b);
      assert m / 2 == h && m % 2 == 1;
      assert y / 2 == h - q && y % 2 == 1 - b;
    }
  }

  lemma ComplementIsXor(x: nat)
    requires x < Word
    ensures Xor(0xFFFF_FFFF - x, 0xFFFF_FFFF) == x
  {
    Pow2Word();
    ComplementBits(x, 32);
  }

  /** `crc32(buf)`: the byte loop over the lookup table. */
  method ComputeCrc32(table: array<nat>, buf: seq<nat>) returns (crc: nat)
    requires IsCrcTable(table[..])
    ensures crc == Checksum(buf)
  {
    crc := 0xFFFF_FFFF;
    for i := 0 to |buf|
      invariant crc == Register(buf[..i])
    {
      var index := Xor(crc, buf[i]) % 256;
      assert table[index] == table[..][index];
      RegisterPrefix(buf, i);
      crc := Xor(table[index], crc / 256);
    }
    assert buf[..|buf|] == buf;
    crc := 0xFFFF_FFFF - crc;
  }

  lemma RegisterPrefix(buf: seq<nat>, i: nat)
    requires i < |buf|
    ensures Register(buf[..i + 1]) == Update(Register(buf[..i]), buf[i])
  {
    assert buf[..i + 1][..i] == buf[..i];
  }
}
