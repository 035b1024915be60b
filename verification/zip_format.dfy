/** The bytes of an uncompressed ("stored", method 0) ZIP archive as the
    extension's `buildZipFromFiles` lays them out (extension/background.js), in
    the terms of PKWARE's APPNOTE.TXT: one local file header followed by the
    file data per file (section 4.3.7), then one central directory header per
    file (section 4.3.12), then the end of central directory record (section
    4.3.16). All fields are little-endian.

    Each fixed-size header is a layout (the widths of its fields) and the values
    written into them. Besides the layout, this module holds an independent
    reader, `ReadZip`, which finds the end record, walks the central directory,
    loads each file from its local header and checks its CRC-32;
    `ReadWrittenZip` proves that reading an archive laid out here gives back
    the files that went in. */
module ZipFormat {
  import opened Options
  import opened Crc32
  import opened Bytes

  const LocalSignature: nat := 0x0403_4b50
  const CentralSignature: nat := 0x0201_4b50
  const EndSignature: nat := 0x0605_4b50
  const Short: nat := 0x1_0000

  /** One file to store: its name (already encoded as UTF-8) and its contents. */
  datatype ZipFile = ZipFile(name: seq<nat>, data: seq<nat>)

  /** What the writer keeps per file (`fileEntries`): name, data and CRC-32. */
  datatype Entry = Entry(name: seq<nat>, data: seq<nat>, crc: nat)

  /** The entries of `files`, each with the CRC-32 of its data. */
  function Entries(files: seq<ZipFile>): (r: seq<Entry>)
    ensures |r| == |files|
    ensures forall i :: 0 <= i < |files| ==>
      r[i] == Entry(files[i].name, files[i].data, Checksum(files[i].data))
  {
    seq(|files|, i requires 0 <= i < |files| =>
      Entry(files[i].name, files[i].data, Checksum(files[i].data)))
  }

  /** Where field `k` of a layout starts. */
  function Offset(layout: seq<nat>, k: nat): nat
    requires k <= |layout|
  {
    if k == 0 then 0 else layout[k - 1] + Offset(layout, k - 1)
  }

  /** A layout's fields filled with `values`, one after the other. */
  function Encode(layout: seq<nat>, values: seq<nat>): seq<nat>
    requires |layout| == |values|
  {
    if layout == [] then []
    else
      var n := |layout| - 1;
      Encode(layout[..n], values[..n]) + LE(values[n], layout[n])
  }

  /** Offsets only depend on the fields before them. */
  lemma {:induction false} OffsetPrefix(layout: seq<nat>, m: nat, k: nat)
    requires k <= m <= |layout|
    ensures Offset(layout[..m], k) == Offset(layout, k)
  {
    if k > 0 {
      OffsetPrefix(layout, m, k - 1);
    }
  }

  lemma {:induction false} OffsetGrows(layout: seq<nat>, k: nat, m: nat)
    requires k <= m <= |layout|
    ensures Offset(layout, k) <= Offset(layout, m)
  {
    if k < m {
      OffsetGrows(layout, k, m - 1);
    }
  }

  /** An encoded layout is as long as its fields together, and all bytes. */
  lemma {:induction false} EncodeLength(layout: seq<nat>, values: seq<nat>)
    requires |layout| == |values|
    ensures |Encode(layout, values)| == Offset(layout, |layout|)
    ensures IsBytes(Encode(layout, values))
  {
    if layout != [] {
      var n := |layout| - 1;
      EncodeLength(layout[..n], values[..n]);
      OffsetPrefix(layout, n, n);
    }
  }

  /** Every field of an encoded layout reads back as the value written into it,
      modulo the field's range. */
  lemma {:induction false} EncodeRead(layout: seq<nat>, values: seq<nat>, k: nat)
    requires |layout| == |values| && k < |layout|
    ensures Offset(layout, k) + layout[k] <= |Encode(layout, values)|
    ensures Field(Encode(layout, values), Offset(layout, k), layout[k]) == values[k] % Pow256(layout[k])
  {
    var n := |layout| - 1;
    EncodeLength(layout, values);
    EncodeLength(layout[..n], values[..n]);
    OffsetGrows(layout, k + 1, |layout|);
    var front := Encode(layout[..n], values[..n]);
    var field := LE(values[n], layout[n]);
    assert Encode(layout, values) == front + field;
    OffsetPrefix(layout, n, n);
    if k == n {
      FieldBack(front, field, 0, layout[n]);
      assert field[0..layout[n]] == field;
      ValueLE(values[n], layout[n]);
    } else {
      EncodeRead(layout[..n], values[..n], k);
      OffsetPrefix(layout, n, k);
      FieldFront(front, field, Offset(layout, k), layout[k]);
    }
  }

  /** A field of a header followed by more bytes is the field of the header. */
  lemma HeaderField(layout: seq<nat>, values: seq<nat>, rest: seq<nat>, k: nat)
    requires |layout| == |values| && k < |layout|
    ensures Offset(layout, k) + layout[k] <= |Encode(layout, values) + rest|
    ensures Field(Encode(layout, values) + rest, Offset(layout, k), layout[k])
      == values[k] % Pow256(layout[k])
  {
    EncodeRead(layout, values, k);
    FieldFront(Encode(layout, values), rest, Offset(layout, k), layout[k]);
  }

  /** The local file header: signature, version needed, flags, method, time and
      date, CRC-32, compressed and uncompressed size, name length, extra length. */
  const LocalLayout: seq<nat> := [4, 2, 2, 2, 4, 4, 4, 4, 2, 2]

  function LocalValues(e: Entry): (r: seq<nat>)
    ensures |r| == |LocalLayout|
  {
    [LocalSignature, 20, 0, 0, 0, e.crc, |e.data|, |e.data|, |e.name|, 0]
  }

  /** The field positions APPNOTE.TXT gives for the local header. */
  lemma LocalOffsets()
    ensures Offset(LocalLayout, 5) == 14 && Offset(LocalLayout, 6) == 18
    ensures Offset(LocalLayout, 7) == 22 && Offset(LocalLayout, 8) == 26
    ensures Offset(LocalLayout, 9) == 28 && Offset(LocalLayout, 10) == 30
  {
  }

  /** The 30 fixed bytes of a local header followed by the name. */
  function LocalHeader(e: Entry): (r: seq<nat>)
    ensures |r| == 30 + |e.name|
  {
    LocalOffsets();
    EncodeLength(LocalLayout, LocalValues(e));
    Encode(LocalLayout, LocalValues(e)) + e.name
  }

  /** A local header followed by the stored data. */
  function LocalPart(e: Entry): (r: seq<nat>)
    ensures |r| == 30 + |e.name| + |e.data|
  {
    LocalHeader(e) + e.data
  }

  /** The central directory header: signature, version made by, version
      needed, flags, method, time and date, CRC-32, both sizes, name length,
      extra length, comment length, disk number, internal and external
      attributes, offset of the local header. */
  const CentralLayout: seq<nat> := [4, 2, 2, 2, 2, 4, 4, 4, 4, 2, 2, 2, 2, 2, 4, 4]

  function CentralValues(e: Entry, offset: nat): (r: seq<nat>)
    ensures |r| == |CentralLayout|
  {
    [CentralSignature, 0x14, 20, 0, 0, 0, e.crc, |e.data|, |e.data|, |e.name|, 0, 0, 0, 0, 0, offset]
  }

  /** The field positions APPNOTE.TXT gives for the central directory header. */
  lemma CentralOffsets()
    ensures Offset(CentralLayout, 4) == 10 && Offset(CentralLayout, 6) == 16
    ensures Offset(CentralLayout, 7) == 20 && Offset(CentralLayout, 9) == 28
    ensures Offset(CentralLayout, 10) == 30 && Offset(CentralLayout, 11) == 32
    ensures Offset(CentralLayout, 15) == 42 && Offset(CentralLayout, 16) == 46
  {
    assert Offset(CentralLayout, 8) == 24;
  }

  /** The 46 fixed bytes of a central directory header followed by the name. */
  function CentralHeader(e: Entry, offset: nat): (r: seq<nat>)
    ensures |r| == 46 + |e.name|
  {
    CentralOffsets();
    EncodeLength(CentralLayout, CentralValues(e, offset));
    Encode(CentralLayout, CentralValues(e, offset)) + e.name
  }

  /** The end of central directory record: signature, two disk numbers, the
      entry count on this disk and in total, the directory's size and offset,
      comment length. */
  const EndLayout: seq<nat> := [4, 2, 2, 2, 2, 4, 4, 2]

  function EndValues(count: nat, size: nat, offset: nat): (r: seq<nat>)
    ensures |r| == |EndLayout|
  {
    [EndSignature, 0, 0, count, count, size, offset, 0]
  }

  /** The field positions APPNOTE.TXT gives for the end record. */
  lemma EndOffsets()
    ensures Offset(EndLayout, 4) == 10 && Offset(EndLayout, 5) == 12
    ensures Offset(EndLayout, 6) == 16 && Offset(EndLayout, 8) == 22
  {
  }

  function EndRecord(count: nat, size: nat, offset: nat): (r: seq<nat>)
    ensures |r| == 22
  {
    EndOffsets();
    EncodeLength(EndLayout, EndValues(count, size, offset));
    Encode(EndLayout, EndValues(count, size, offset))
  }

  /** The local parts of the entries, in order. */
  function LocalParts(entries: seq<Entry>): (r: seq<seq<nat>>)
    ensures |r| == |entries|
    ensures forall i :: 0 <= i < |entries| ==> r[i] == LocalPart(entries[i])
  {
    seq(|entries|, i requires 0 <= i < |entries| => LocalPart(entries[i]))
  }

  /** Where the local header of entry `i` starts: after all earlier local parts. */
  function LocalOffset(entries: seq<Entry>, i: nat): nat
    requires i <= |entries|
  {
    Start(LocalParts(entries), i)
  }

  /** The central directory headers, each pointing at its local header. */
  function CentralParts(entries: seq<Entry>): (r: seq<seq<nat>>)
    ensures |r| == |entries|
    ensures forall i :: 0 <= i < |entries| ==>
      r[i] == CentralHeader(entries[i], LocalOffset(entries, i))
  {
    seq(|entries|, i requires 0 <= i < |entries| =>
      CentralHeader(entries[i], LocalOffset(entries, i)))
  }

  /** The whole archive: local parts, central directory, end record. */
  function Archive(entries: seq<Entry>): seq<nat> {
    var locals := Concat(LocalParts(entries));
    var central := Concat(CentralParts(entries));
    locals + central + EndRecord(|entries|, |central|, |locals|)
  }

  /** Every value the format stores fits its field: the entry count and names in
      16 bits, checksums, sizes and offsets in 32 bits. Outside these bounds the
      written fields are truncated and the archive does not describe its
      contents. */
  predicate Fits(entries: seq<Entry>) {
    |entries| < Short
    && (forall i :: 0 <= i < |entries| ==> |entries[i].name| < Short && entries[i].crc < Word)
    && |Concat(LocalParts(entries))| < Word
    && |Concat(CentralParts(entries))| < Word
  }

  /** What a central directory header says about one file. */
  datatype CentralRecord = CentralRecord(name: seq<nat>, crc: nat, size: nat, offset: nat)

  /** The length of the central directory header at the start of `s`:
      fixed part, name, extra field and comment. */
  function EntrySize(s: seq<nat>): nat
    requires |s| >= 46
  {
    46 + Field(s, 28, 2) + Field(s, 30, 2) + Field(s, 32, 2)
  }

  /** Reads the central directory header at the start of `s`, if there is a
      complete one for a stored file. */
  function ParseEntry(s: seq<nat>): (r: Option<CentralRecord>)
    ensures r.Some? ==> |s| >= 46 && EntrySize(s) <= |s|
  {
    if |s| < 46 || Field(s, 0, 4) != CentralSignature || Field(s, 10, 2) != 0 then None
    else if |s| < EntrySize(s) then None
    else Some(CentralRecord(s[46..46 + Field(s, 28, 2)], Field(s, 16, 4), Field(s, 20, 4), Field(s, 42, 4)))
  }

  /** `x` in front of a successful result; a failure stays a failure. */
  function Prepend<T>(x: T, o: Option<seq<T>>): (r: Option<seq<T>>)
    ensures r.Some? <==> o.Some?
    ensures r.Some? ==> r.value == [x] + o.value
  {
    match o
    case None => None
    case Some(rest) => Some([x] + rest)
  }

  /** Reads `count` central directory headers that make up all of `s`. */
  function ParseCentral(s: seq<nat>, count: nat): Option<seq<CentralRecord>>
    decreases count
  {
    if count == 0 then (if s == [] then Some([]) else None)
    else
      match ParseEntry(s)
      case None => None
      case Some(r) => Prepend(r, ParseCentral(s[EntrySize(s)..], count - 1))
  }

  /** Loads the entry a record points at from its local header, checking the
      signature and the name. */
  function LoadEntry(z: seq<nat>, r: CentralRecord): Option<Entry> {
    if |z| < r.offset + 30 || Field(z, r.offset, 4) != LocalSignature then None
    else
      var nameEnd := r.offset + 30 + Field(z, r.offset + 26, 2);
      var start := nameEnd + Field(z, r.offset + 28, 2);
      if |z| < start + r.size || z[r.offset + 30..nameEnd] != r.name then None
      else Some(Entry(r.name, z[start..start + r.size], r.crc))
  }

  /** Loads the entry of every record, in order; fails if any one fails. */
  function LoadEntries(z: seq<nat>, records: seq<CentralRecord>): Option<seq<Entry>> {
    if records == [] then Some([])
    else
      match LoadEntry(z, records[0])
      case None => None
      case Some(e) => Prepend(e, LoadEntries(z, records[1..]))
  }

  /** Reads the entries of an archive without a comment: the end record
      occupies the last 22 bytes and the central directory ends where it
      begins. */
  function ReadEntries(z: seq<nat>): Option<seq<Entry>> {
    if |z| < 22 then None
    else
      var e := |z| - 22;
      if Field(z, e, 4) != EndSignature then None
      else
        var size := Field(z, e + 12, 4);
        var offset := Field(z, e + 16, 4);
        if offset + size != e then None
        else
          match ParseCentral(z[offset..e], Field(z, e + 10, 2))
          case None => None
          case Some(records) => LoadEntries(z, records)
  }

  /** Reads an archive: its entries, provided each one's data has the CRC-32
      its headers record. */
  function ReadZip(z: seq<nat>): Option<seq<ZipFile>> {
    match ReadEntries(z)
    case None => None
    case Some(es) =>
      if forall i :: 0 <= i < |es| ==> Checksum(es[i].data) == es[i].crc
      then Some(seq(|es|, i requires 0 <= i < |es| => ZipFile(es[i].name, es[i].data)))
      else None
  }

  /** The record the central directory holds for an entry at `offset`. */
  function Record(e: Entry, offset: nat): CentralRecord {
    CentralRecord(e.name, e.crc, |e.data|, offset)
  }

  function Records(entries: seq<Entry>): (r: seq<CentralRecord>)
    ensures |r| == |entries|
    ensures forall i :: 0 <= i < |entries| ==> r[i] == Record(entries[i], LocalOffset(entries, i))
  {
    seq(|entries|, i requires 0 <= i < |entries| => Record(entries[i], LocalOffset(entries, i)))
  }

  /** `h` is a complete central directory header for `r`. */
  predicate EntryIs(h: seq<nat>, r: CentralRecord) {
    |h| >= 46 && EntrySize(h) == |h| && ParseEntry(h) == Some(r)
  }

  /** The signature, versions, flags, method, time and date, CRC and sizes
      of a central directory header read back as written: made by 0x14,
      needed 20, stored, both sizes the data length. */
  lemma CentralHeaderFront(e: Entry, offset: nat)
    requires |e.data| < Word && e.crc < Word
    ensures Field(CentralHeader(e, offset), 0, 4) == CentralSignature
    ensures Field(CentralHeader(e, offset), 4, 2) == 0x14
    ensures Field(CentralHeader(e, offset), 6, 2) == 20
    ensures Field(CentralHeader(e, offset), 8, 2) == 0
    ensures Field(CentralHeader(e, offset), 10, 2) == 0
    ensures Field(CentralHeader(e, offset), 12, 4) == 0
    ensures Field(CentralHeader(e, offset), 16, 4) == e.crc
    ensures Field(CentralHeader(e, offset), 20, 4) == |e.data|
    ensures Field(CentralHeader(e, offset), 24, 4) == |e.data|
  {
    var values := CentralValues(e, offset);
    CentralOffsets();
    Pow256Values();
    assert Offset(CentralLayout, 1) == 4 && Offset(CentralLayout, 2) == 6 && Offset(CentralLayout, 3) == 8;
    HeaderField(CentralLayout, values, e.name, 0);
    HeaderField(CentralLayout, values, e.name, 1);
    HeaderField(CentralLayout, values, e.name, 2);
    HeaderField(CentralLayout, values, e.name, 3);
    HeaderField(CentralLayout, values, e.name, 4);
    HeaderField(CentralLayout, values, e.name, 5);
    HeaderField(CentralLayout, values, e.name, 6);
    HeaderField(CentralLayout, values, e.name, 7);
    HeaderField(CentralLayout, values, e.name, 8);
  }

  /** The lengths and the local header offset of a central directory header
      read back as written. */
  lemma CentralHeaderBack(e: Entry, offset: nat)
    requires |e.name| < Short && offset < Word
    ensures Field(CentralHeader(e, offset), 28, 2) == |e.name|
    ensures Field(CentralHeader(e, offset), 30, 2) == 0
    ensures Field(CentralHeader(e, offset), 32, 2) == 0
    ensures Field(CentralHeader(e, offset), 34, 2) == 0
    ensures Field(CentralHeader(e, offset), 36, 2) == 0
    ensures Field(CentralHeader(e, offset), 38, 4) == 0
    ensures Field(CentralHeader(e, offset), 42, 4) == offset
    ensures CentralHeader(e, offset)[46..] == e.name
  {
    var values := CentralValues(e, offset);
    CentralOffsets();
    Pow256Values();
    assert Offset(CentralLayout, 12) == 34 && Offset(CentralLayout, 13) == 36 && Offset(CentralLayout, 14) == 38;
    HeaderField(CentralLayout, values, e.name, 9);
    HeaderField(CentralLayout, values, e.name, 10);
    HeaderField(CentralLayout, values, e.name, 11);
    HeaderField(CentralLayout, values, e.name, 12);
    HeaderField(CentralLayout, values, e.name, 13);
    HeaderField(CentralLayout, values, e.name, 14);
    HeaderField(CentralLayout, values, e.name, 15);
  }

  /** A written central directory header parses as the entry's record. */
  lemma CentralEntry(e: Entry, offset: nat)
    requires |e.name| < Short && |e.data| < Word && e.crc < Word && offset < Word
    ensures EntryIs(CentralHeader(e, offset), Record(e, offset))
  {
    var h := CentralHeader(e, offset);
    CentralHeaderFront(e, offset);
    CentralHeaderBack(e, offset);
    assert EntrySize(h) == |h|;
    assert h[46..46 + Field(h, 28, 2)] == e.name;
  }

  /** The fields of a local header read back as written: version 20, no
      flags, stored, time and date zero, the CRC and both sizes (truncated to
      32 bits, as the setter does), the name length, no extra field, then the
      name. */
  lemma LocalHeaderFields(e: Entry)
    requires |e.name| < Short
    ensures Field(LocalHeader(e), 0, 4) == LocalSignature
    ensures Field(LocalHeader(e), 4, 2) == 20
    ensures Field(LocalHeader(e), 6, 2) == 0 && Field(LocalHeader(e), 8, 2) == 0
    ensures Field(LocalHeader(e), 10, 4) == 0
    ensures Field(LocalHeader(e), 14, 4) == e.crc % Word
    ensures Field(LocalHeader(e), 18, 4) == |e.data| % Word
    ensures Field(LocalHeader(e), 22, 4) == |e.data| % Word
    ensures Field(LocalHeader(e), 26, 2) == |e.name|
    ensures Field(LocalHeader(e), 28, 2) == 0
    ensures LocalHeader(e)[30..] == e.name
  {
    var values := LocalValues(e);
    LocalOffsets();
    Pow256Values();
    assert Offset(LocalLayout, 1) == 4 && Offset(LocalLayout, 2) == 6
      && Offset(LocalLayout, 3) == 8 && Offset(LocalLayout, 4) == 10;
    HeaderField(LocalLayout, values, e.name, 0);
    HeaderField(LocalLayout, values, e.name, 1);
    HeaderField(LocalLayout, values, e.name, 2);
    HeaderField(LocalLayout, values, e.name, 3);
    HeaderField(LocalLayout, values, e.name, 4);
    HeaderField(LocalLayout, values, e.name, 5);
    HeaderField(LocalLayout, values, e.name, 6);
    HeaderField(LocalLayout, values, e.name, 7);
    HeaderField(LocalLayout, values, e.name, 8);
    HeaderField(LocalLayout, values, e.name, 9);
  }

  /** The fields of the end record read back as written. */
  lemma EndRecordFields(count: nat, size: nat, offset: nat)
    requires count < Short && size < Word && offset < Word
    ensures Field(EndRecord(count, size, offset), 0, 4) == EndSignature
    ensures Field(EndRecord(count, size, offset), 4, 2) == 0
    ensures Field(EndRecord(count, size, offset), 6, 2) == 0
    ensures Field(EndRecord(count, size, offset), 8, 2) == count
    ensures Field(EndRecord(count, size, offset), 10, 2) == count
    ensures Field(EndRecord(count, size, offset), 12, 4) == size
    ensures Field(EndRecord(count, size, offset), 16, 4) == offset
    ensures Field(EndRecord(count, size, offset), 20, 2) == 0
  {
    var values := EndValues(count, size, offset);
    EndOffsets();
    Pow256Values();
    assert Offset(EndLayout, 1) == 4 && Offset(EndLayout, 2) == 6
      && Offset(EndLayout, 3) == 8 && Offset(EndLayout, 7) == 20;
    EncodeRead(EndLayout, values, 0);
    EncodeRead(EndLayout, values, 1);
    EncodeRead(EndLayout, values, 2);
    EncodeRead(EndLayout, values, 3);
    EncodeRead(EndLayout, values, 4);
    EncodeRead(EndLayout, values, 5);
    EncodeRead(EndLayout, values, 6);
    EncodeRead(EndLayout, values, 7);
  }

  /** A complete header in front of more bytes is read the same way. */
  lemma EntryExtend(h: seq<nat>, r: CentralRecord, rest: seq<nat>)
    requires EntryIs(h, r)
    ensures ParseEntry(h + rest) == Some(r) && EntrySize(h + rest) == |h|
  {
    FieldFront(h, rest, 0, 4);
    FieldFront(h, rest, 10, 2);
    FieldFront(h, rest, 16, 4);
    FieldFront(h, rest, 20, 4);
    FieldFront(h, rest, 28, 2);
    FieldFront(h, rest, 30, 2);
    FieldFront(h, rest, 32, 2);
    FieldFront(h, rest, 42, 4);
    assert (h + rest)[46..46 + Field(h, 28, 2)] == h[46..46 + Field(h, 28, 2)];
  }

  /** Complete headers one after the other parse as their records. */
  lemma {:induction false} ParseConcat(parts: seq<seq<nat>>, records: seq<CentralRecord>)
    requires |parts| == |records|
    requires forall i :: 0 <= i < |parts| ==> EntryIs(parts[i], records[i])
    ensures ParseCentral(Concat(parts), |parts|) == Some(records)
  {
    if parts != [] {
      var h, rest := parts[0], Concat(parts[1..]);
      assert EntryIs(h, records[0]);
      EntryExtend(h, records[0], rest);
      assert (h + rest)[|h|..] == rest;
      forall i | 0 <= i < |parts[1..]|
        ensures EntryIs(parts[1..][i], records[1..][i])
      {
        assert parts[1..][i] == parts[i + 1] && records[1..][i] == records[i + 1];
      }
      ParseConcat(parts[1..], records[1..]);
      assert [records[0]] + records[1..] == records;
    }
  }

  /** Records that each load load together, in order. */
  lemma {:induction false} LoadAll(z: seq<nat>, records: seq<CentralRecord>, entries: seq<Entry>)
    requires |records| == |entries|
    requires forall i :: 0 <= i < |records| ==> LoadEntry(z, records[i]) == Some(entries[i])
    ensures LoadEntries(z, records) == Some(entries)
  {
    if records != [] {
      assert LoadEntry(z, records[0]) == Some(entries[0]);
      forall i | 0 <= i < |records[1..]|
        ensures LoadEntry(z, records[1..][i]) == Some(entries[1..][i])
      {
        assert records[1..][i] == records[i + 1] && entries[1..][i] == entries[i + 1];
      }
      LoadAll(z, records[1..], entries[1..]);
      assert [entries[0]] + entries[1..] == entries;
    }
  }

  /** A local part in place in `z` loads back as its entry. */
  lemma LoadLocal(z: seq<nat>, e: Entry, offset: nat)
    requires |e.name| < Short
    requires offset + |LocalPart(e)| <= |z| && z[offset..offset + |LocalPart(e)|] == LocalPart(e)
    ensures LoadEntry(z, Record(e, offset)) == Some(e)
  {
    var h := LocalHeader(e);
    var part := LocalPart(e);
    LocalHeaderFields(e);
    FieldFront(h, e.data, 0, 4);
    FieldFront(h, e.data, 26, 2);
    FieldFront(h, e.data, 28, 2);
    FieldAt(z, offset, part, 0, 4);
    FieldAt(z, offset, part, 26, 2);
    FieldAt(z, offset, part, 28, 2);
    SliceWithin(z, offset, part, 30, 30 + |e.name|);
    assert part[30..30 + |e.name|] == e.name;
    SliceWithin(z, offset, part, 30 + |e.name|, |part|);
    assert part[30 + |e.name|..|part|] == e.data;
  }

  /** The central directory of an archive parses as the records of its entries. */
  lemma ParseWrittenCentral(entries: seq<Entry>)
    requires Fits(entries)
    ensures ParseCentral(Concat(CentralParts(entries)), |entries|) == Some(Records(entries))
  {
    var parts, records := CentralParts(entries), Records(entries);
    forall i | 0 <= i < |entries|
      ensures EntryIs(parts[i], records[i])
    {
      ConcatAt(LocalParts(entries), i);
      CentralEntry(entries[i], LocalOffset(entries, i));
    }
    ParseConcat(parts, records);
  }

  /** The record of entry `i` loads back as the entry from any bytes that
      begin with the local parts. */
  lemma LoadWrittenLocal(entries: seq<Entry>, z: seq<nat>, i: nat)
    requires i < |entries| && |entries[i].name| < Short
    requires |Concat(LocalParts(entries))| <= |z|
    requires z[..|Concat(LocalParts(entries))|] == Concat(LocalParts(entries))
    ensures LoadEntry(z, Record(entries[i], LocalOffset(entries, i))) == Some(entries[i])
  {
    var parts := LocalParts(entries);
    var locals := Concat(parts);
    var offset := LocalOffset(entries, i);
    ConcatAt(parts, i);
    SliceWithin(z, 0, locals, offset, offset + |parts[i]|);
    LoadLocal(z, entries[i], offset);
  }

  /** Every record of an archive loads back as its entry. */
  lemma LoadWrittenLocals(entries: seq<Entry>, z: seq<nat>)
    requires forall i :: 0 <= i < |entries| ==> |entries[i].name| < Short
    requires |Concat(LocalParts(entries))| <= |z|
    requires z[..|Concat(LocalParts(entries))|] == Concat(LocalParts(entries))
    ensures LoadEntries(z, Records(entries)) == Some(entries)
  {
    var records := Records(entries);
    forall i | 0 <= i < |entries|
      ensures LoadEntry(z, records[i]) == Some(entries[i])
    {
      LoadWrittenLocal(entries, z, i);
    }
    LoadAll(z, records, entries);
  }

  /** An end record after a central directory that parses, over local parts
      that load, gives a readable archive. */
  lemma ReadLaidOut(z: seq<nat>, l: seq<nat>, c: seq<nat>, count: nat,
                    records: seq<CentralRecord>, entries: seq<Entry>)
    requires count < Short && |c| < Word && |l| < Word
    requires z == l + c + EndRecord(count, |c|, |l|)
    requires ParseCentral(c, count) == Some(records)
    requires LoadEntries(z, records) == Some(entries)
    ensures ReadEntries(z) == Some(entries)
  {
    var end := EndRecord(count, |c|, |l|);
    EndRecordFields(count, |c|, |l|);
    ReadEnd(z, l + c, end, |l|, c, count);
  }

  /** The end record at the back of `z` locates the central directory `c`
      that ends where the record begins. */
  lemma ReadEnd(z: seq<nat>, front: seq<nat>, end: seq<nat>, offset: nat, c: seq<nat>, count: nat)
    requires z == front + end && |end| == 22
    requires offset + |c| == |front| && front[offset..] == c
    requires Field(end, 0, 4) == EndSignature && Field(end, 10, 2) == count
    requires Field(end, 12, 4) == |c| && Field(end, 16, 4) == offset
    ensures ReadEntries(z) == match ParseCentral(c, count)
      case None => None
      case Some(records) => LoadEntries(z, records)
  {
    FieldBack(front, end, 0, 4);
    FieldBack(front, end, 10, 2);
    FieldBack(front, end, 12, 4);
    FieldBack(front, end, 16, 4);
    var e := |z| - 22;
    assert e == |front|;
    assert Field(z, e, 4) == EndSignature;
    assert Field(z, e + 10, 2) == count;
    assert Field(z, e + 12, 4) == |c|;
    assert Field(z, e + 16, 4) == offset;
    assert z[offset..e] == c;
  }

  /** Reading an archive laid out by `Archive` gives back its entries, names,
      contents, checksums and order, whenever every stored value fits its
      field. */
  lemma ReadWrittenArchive(entries: seq<Entry>)
    requires Fits(entries)
    ensures ReadEntries(Archive(entries)) == Some(entries)
  {
    var z := Archive(entries);
    var l := Concat(LocalParts(entries));
    var c := Concat(CentralParts(entries));
    ParseWrittenCentral(entries);
    assert z[..|l|] == l;
    LoadWrittenLocals(entries, z);
    ReadLaidOut(z, l, c, |entries|, Records(entries), entries);
  }

  /** Reading the archive of some files gives back the files. */
  lemma ReadWrittenZip(files: seq<ZipFile>)
    requires Fits(Entries(files))
    ensures ReadZip(Archive(Entries(files))) == Some(files)
  {
    var es := Entries(files);
    ReadWrittenArchive(es);
    assert seq(|es|, i requires 0 <= i < |es| => ZipFile(es[i].name, es[i].data)) == files;
  }

  /** The sum of `fixed` plus the name length, plus the data length when
      `withData`, over all entries. */
  function Sizes(entries: seq<Entry>, fixed: nat, withData: bool): nat {
    if entries == [] then 0
    else fixed + |entries[0].name| + (if withData then |entries[0].data| else 0) + Sizes(entries[1..], fixed, withData)
  }

  /** Parts each as long as its entry's share of `Sizes` join to `Sizes` bytes. */
  lemma {:induction false} PartsLength(parts: seq<seq<nat>>, entries: seq<Entry>, fixed: nat, withData: bool)
    requires |parts| == |entries|
    requires forall i :: 0 <= i < |parts| ==>
      |parts[i]| == fixed + |entries[i].name| + (if withData then |entries[i].data| else 0)
    ensures |Concat(parts)| == Sizes(entries, fixed, withData)
  {
    if parts != [] {
      PartsLength(parts[1..], entries[1..], fixed, withData);
    }
  }

  /** The local header of entry `i` starts after the 30 + name + data bytes of
      every earlier entry. */
  lemma LocalOffsetSum(entries: seq<Entry>, i: nat)
    requires i <= |entries|
    ensures LocalOffset(entries, i) == Sizes(entries[..i], 30, true)
  {
    PartsLength(LocalParts(entries)[..i], entries[..i], 30, true);
  }

  /** The archive is 30 + name + data bytes per file, 46 + name bytes per
      file, and 22 bytes of end record. */
  lemma ArchiveLength(entries: seq<Entry>)
    ensures |Archive(entries)| == Sizes(entries, 30, true) + Sizes(entries, 46, false) + 22
  {
    PartsLength(LocalParts(entries), entries, 30, true);
    PartsLength(CentralParts(entries), entries, 46, false);
  }
}
