/** `buildZipFromFiles` of extension/background.js: the extension packs the
    templates of a batch download into one stored ZIP archive. Each header is a
    zero-filled byte buffer whose fields are set one by one through a
    little-endian `DataView`, in the order the script sets them; the buffers
    are then joined in the order locals, central directory, end record.

    `BuildZipFromFiles` is proved to produce exactly `ZipFormat.Archive` of the
    files' entries, and therefore an archive that reads back as the files
    (`ZipFormat.ReadWrittenZip`) whenever every value fits its field. */
module ZipWriter {
  import opened Options
  import opened Crc32
  import opened Bytes
  import opened ZipFormat

  /** `s` with the bytes `b` written from position `at` on. */
  function Put(s: seq<nat>, at: nat, b: seq<nat>): (r: seq<nat>)
    requires at + |b| <= |s|
    ensures |r| == |s|
  {
    s[..at] + b + s[at + |b|..]
  }

  /** Each position of a written buffer holds the new byte inside the window
      and the old one outside it. */
  lemma PutAt(s: seq<nat>, at: nat, b: seq<nat>)
    requires at + |b| <= |s|
    ensures forall j :: 0 <= j < |s| ==> Put(s, at, b)[j] == if at <= j < at + |b| then b[j - at] else s[j]
  {
  }

  /** Writing over the whole back part of `a + b` replaces it. */
  lemma PutBack(a: seq<nat>, b: seq<nat>, c: seq<nat>)
    requires |b| == |c|
    ensures Put(a + b, |a|, c) == a + c
  {
    assert (a + b)[..|a|] == a;
    assert (a + b)[|a| + |c|..] == [];
  }

  /** Writing over the whole middle part of `a + b + c` replaces it. */
  lemma PutMiddle(a: seq<nat>, b: seq<nat>, c: seq<nat>, d: seq<nat>)
    requires |b| == |d|
    ensures Put(a + b + c, |a|, d) == a + d + c
  {
    assert (a + b + c)[..|a|] == a;
    assert (a + b + c)[|a| + |d|..] == c;
  }

  /** A layout filled with zeros is all zero bytes. */
  lemma {:induction false} EncodeZeros(layout: seq<nat>)
    ensures Encode(layout, Zeros(|layout|)) == Zeros(Offset(layout, |layout|))
  {
    if layout != [] {
      var n := |layout| - 1;
      assert Zeros(|layout|)[..n] == Zeros(n);
      EncodeZeros(layout[..n]);
      OffsetPrefix(layout, n, n);
      LEZero(layout[n]);
      ZerosAppend(Offset(layout, n), layout[n]);
    }
  }

  /** Setting field `k` of an encoded layout is encoding the layout with the
      new value in place of the old one; the bytes after the layout stay. */
  lemma {:induction false} EncodeOverwrite(layout: seq<nat>, values: seq<nat>, rest: seq<nat>, k: nat, v: nat)
    requires |layout| == |values| && k < |layout|
    ensures Offset(layout, k) + layout[k] <= |Encode(layout, values) + rest|
    ensures Put(Encode(layout, values) + rest, Offset(layout, k), LE(v, layout[k]))
      == Encode(layout, values[k := v]) + rest
  {
    var n := |layout| - 1;
    if k == n {
      EncodeOverwriteLast(layout, values, rest, v);
    } else {
      var pre, last := layout[..n], LE(values[n], layout[n]);
      assert Encode(layout, values) + rest == Encode(pre, values[..n]) + (last + rest);
      EncodeOverwrite(pre, values[..n], last + rest, k, v);
      OffsetPrefix(layout, n, k);
      assert Encode(layout, values[k := v]) == Encode(pre, values[..n][k := v]) + last by {
        var w := values[k := v];
        assert w[..n] == values[..n][k := v] && w[n] == values[n];
      }
    }
  }

  /** The case of the last field. */
  lemma EncodeOverwriteLast(layout: seq<nat>, values: seq<nat>, rest: seq<nat>, v: nat)
    requires |layout| == |values| && |layout| > 0
    ensures Offset(layout, |layout| - 1) + layout[|layout| - 1] <= |Encode(layout, values) + rest|
    ensures Put(Encode(layout, values) + rest, Offset(layout, |layout| - 1), LE(v, layout[|layout| - 1]))
      == Encode(layout, values[|layout| - 1 := v]) + rest
  {
    var n := |layout| - 1;
    var front := Encode(layout[..n], values[..n]);
    var last := LE(values[n], layout[n]);
    EncodeLength(layout[..n], values[..n]);
    OffsetPrefix(layout, n, n);
    assert values[n := v][..n] == values[..n];
    PutMiddle(front, last, rest, LE(v, layout[n]));
  }

  /** `DataView.setUint16(at, v, true)` (w = 2) and `setUint32(at, v, true)`
      (w = 4): the low `w` bytes of `v`, low byte first. */
  method SetUint(buf: array<nat>, at: nat, v: nat, w: nat)
    requires at + w <= buf.Length
    modifies buf
    ensures buf[..] == Put(old(buf[..]), at, LE(v, w))
  {
    var x := v;
    for k := 0 to w
      invariant forall j :: 0 <= j < buf.Length && !(at <= j < at + k) ==> buf[j] == old(buf[j])
      invariant LE(v, w) == buf[at..at + k] + LE(x, w - k)
    {
      ghost var written := buf[at..at + k];
      assert LE(x, w - k) == [x % 256] + LE(x / 256, w - k - 1);
      buf[at + k] := x % 256;
      assert buf[at..at + k + 1] == written + [x % 256];
      x := x / 256;
    }
    assert buf[at..at + w] == LE(v, w);
    PutAt(old(buf[..]), at, LE(v, w));
  }

  /** `Uint8Array.prototype.set(b, at)`: copies `b` in from position `at`. */
  method SetBytes(buf: array<nat>, at: nat, b: seq<nat>)
    requires at + |b| <= buf.Length
    modifies buf
    ensures buf[..] == Put(old(buf[..]), at, b)
  {
    for k := 0 to |b|
      invariant forall j :: 0 <= j < buf.Length && !(at <= j < at + k) ==> buf[j] == old(buf[j])
      invariant forall j :: at <= j < at + k ==> buf[j] == b[j - at]
    {
      buf[at + k] := b[k];
    }
    PutAt(old(buf[..]), at, b);
  }

  /** A `SetUint` of field `k` of the layout a buffer holds: the buffer then
      holds the layout with the new value in that field. */
  method SetField(buf: array<nat>, ghost layout: seq<nat>, ghost values: seq<nat>, ghost rest: seq<nat>,
                  ghost k: nat, at: nat, v: nat, w: nat)
    requires |layout| == |values| && k < |layout| && at == Offset(layout, k) && w == layout[k]
    requires buf[..] == Encode(layout, values) + rest
    modifies buf
    ensures buf[..] == Encode(layout, values[k := v]) + rest
  {
    EncodeOverwrite(layout, values, rest, k, v);
    SetUint(buf, at, v, w);
  }

  /** The first `k` fields of `values`, the rest still zero. */
  function Written(values: seq<nat>, k: nat): (r: seq<nat>)
    requires k <= |values|
    ensures |r| == |values|
  {
    values[..k] + Zeros(|values| - k)
  }

  /** `s` holds `layout` with its first `k` fields set from `values` and the
      others still zero, followed by `rest`. The encoding sits below `depth`
      levels of recursion: the verifier unfolds a recursive predicate only a
      level or two by itself, so at depth 3 a writer method sees the encoding
      only where `FilledIs` is called, not at every field it sets. */
  predicate Filled(s: seq<nat>, layout: seq<nat>, values: seq<nat>, k: nat, rest: seq<nat>, depth: nat)
    requires |layout| == |values| && k <= |values|
  {
    if depth == 0 then s == Encode(layout, Written(values, k)) + rest
    else Filled(s, layout, values, k, rest, depth - 1)
  }

  lemma FilledIs(s: seq<nat>, layout: seq<nat>, values: seq<nat>, k: nat, rest: seq<nat>)
    requires |layout| == |values| && k <= |values|
    ensures Filled(s, layout, values, k, rest, 3) <==> s == Encode(layout, Written(values, k)) + rest
  {
    assert Filled(s, layout, values, k, rest, 3) == Filled(s, layout, values, k, rest, 2);
    assert Filled(s, layout, values, k, rest, 2) == Filled(s, layout, values, k, rest, 1);
  }

  /** A layout with no field set yet is all zero bytes. */
  lemma ZeroEncoded(layout: seq<nat>, values: seq<nat>)
    requires |layout| == |values|
    ensures Encode(layout, Written(values, 0)) == Zeros(Offset(layout, |layout|))
  {
    assert Written(values, 0) == Zeros(|layout|);
    EncodeZeros(layout);
  }

  /** A zero-filled buffer holds the layout with no field set yet. */
  lemma ZeroFilled(layout: seq<nat>, values: seq<nat>, m: nat, n: nat)
    requires |layout| == |values| && m == Offset(layout, |layout|)
    ensures Filled(Zeros(m + n), layout, values, 0, Zeros(n), 3)
  {
    ZeroEncoded(layout, values);
    ZerosAppend(m, n);
    FilledParts(Zeros(m + n), layout, values, Zeros(m), Zeros(n));
  }

  lemma FilledParts(s: seq<nat>, layout: seq<nat>, values: seq<nat>, front: seq<nat>, rest: seq<nat>)
    requires |layout| == |values|
    requires front == Encode(layout, Written(values, 0)) && s == front + rest
    ensures Filled(s, layout, values, 0, rest, 3)
  {
    FilledIs(s, layout, values, 0, rest);
  }

  /** A `SetUint` of the next field, in layout order, of a zero-filled buffer:
      the buffer then holds one more field of `values`. */
  method SetNext(buf: array<nat>, ghost layout: seq<nat>, ghost values: seq<nat>, ghost rest: seq<nat>,
                 ghost k: nat, at: nat, v: nat, w: nat)
    requires |layout| == |values| && k < |layout| && at == Offset(layout, k) && w == layout[k]
    requires v == values[k]
    requires Filled(buf[..], layout, values, k, rest, 3)
    modifies buf
    ensures Filled(buf[..], layout, values, k + 1, rest, 3)
  {
    FilledIs(buf[..], layout, values, k, rest);
    assert Written(values, k)[k := v] == Written(values, k + 1);
    SetField(buf, layout, Written(values, k), rest, k, at, v, w);
    FilledIs(buf[..], layout, values, k + 1, rest);
  }

  /** Nothing written is all zeros; everything written is the values. */
  lemma WrittenEnds(values: seq<nat>)
    ensures Written(values, 0) == Zeros(|values|)
    ensures Written(values, |values|) == values
  {
    assert values[..|values|] == values;
  }

  /** The body of the first loop for one file: the local header with a
      placeholder CRC, the name after it, then the CRC of the data. */
  method WriteLocalHeader(table: array<nat>, name: seq<nat>, data: seq<nat>)
    returns (localHeader: seq<nat>, crc: nat)
    requires IsCrcTable(table[..])
    ensures crc == Checksum(data)
    ensures localHeader == LocalHeader(Entry(name, data, crc))
  {
    var header := new nat[30 + |name|](_ => 0);
    ghost var values := LocalValues(Entry(name, data, 0));
    ghost var tail := Zeros(|name|);
    LocalOffsets();
    WrittenEnds(values);
    assert header[..] == Zeros(30 + |name|);
    ZeroFilled(LocalLayout, values, 30, |name|);
    SetNext(header, LocalLayout, values, tail, 0, 0, LocalSignature, 4);
    SetNext(header, LocalLayout, values, tail, 1, 4, 20, 2);
    SetNext(header, LocalLayout, values, tail, 2, 6, 0, 2);
    SetNext(header, LocalLayout, values, tail, 3, 8, 0, 2);
    SetNext(header, LocalLayout, values, tail, 4, 10, 0, 4);
    SetNext(header, LocalLayout, values, tail, 5, 14, 0, 4);
    SetNext(header, LocalLayout, values, tail, 6, 18, |data|, 4);
    SetNext(header, LocalLayout, values, tail, 7, 22, |data|, 4);
    SetNext(header, LocalLayout, values, tail, 8, 26, |name|, 2);
    SetNext(header, LocalLayout, values, tail, 9, 28, 0, 2);
    FilledIs(header[..], LocalLayout, values, 10, tail);

    EncodeLength(LocalLayout, values);
    PutBack(Encode(LocalLayout, values), tail, name);
    SetBytes(header, 30, name);

    crc := ComputeCrc32(table, data);
    SetField(header, LocalLayout, values, name, 5, 14, crc, 4);
    assert values[5 := crc] == LocalValues(Entry(name, data, crc));
    localHeader := header[..];
  }

  /** The body of the second loop for one file: its central directory header,
      pointing at the local header at `offset`. */
  method WriteCentralHeader(name: seq<nat>, data: seq<nat>, crc: nat, offset: nat)
    returns (cent: seq<nat>)
    ensures cent == CentralHeader(Entry(name, data, crc), offset)
  {
    var buf := new nat[46 + |name|](_ => 0);
    ghost var values := CentralValues(Entry(name, data, crc), offset);
    ghost var tail := Zeros(|name|);
    CentralOffsets();
    assert Offset(CentralLayout, 8) == 24;
    WrittenEnds(values);
    assert buf[..] == Zeros(46 + |name|);
    ZeroFilled(CentralLayout, values, 46, |name|);
    SetNext(buf, CentralLayout, values, tail, 0, 0, CentralSignature, 4);
    SetNext(buf, CentralLayout, values, tail, 1, 4, 0x14, 2);
    SetNext(buf, CentralLayout, values, tail, 2, 6, 20, 2);
    SetNext(buf, CentralLayout, values, tail, 3, 8, 0, 2);
    SetNext(buf, CentralLayout, values, tail, 4, 10, 0, 2);
    SetNext(buf, CentralLayout, values, tail, 5, 12, 0, 4);
    SetNext(buf, CentralLayout, values, tail, 6, 16, crc, 4);
    SetNext(buf, CentralLayout, values, tail, 7, 20, |data|, 4);
    SetNext(buf, CentralLayout, values, tail, 8, 24, |data|, 4);
    SetNext(buf, CentralLayout, values, tail, 9, 28, |name|, 2);
    SetNext(buf, CentralLayout, values, tail, 10, 30, 0, 2);
    SetNext(buf, CentralLayout, values, tail, 11, 32, 0, 2);
    SetNext(buf, CentralLayout, values, tail, 12, 34, 0, 2);
    SetNext(buf, CentralLayout, values, tail, 13, 36, 0, 2);
    SetNext(buf, CentralLayout, values, tail, 14, 38, 0, 4);
    SetNext(buf, CentralLayout, values, tail, 15, 42, offset, 4);
    FilledIs(buf[..], CentralLayout, values, 16, tail);

    EncodeLength(CentralLayout, values);
    PutBack(Encode(CentralLayout, values), tail, name);
    SetBytes(buf, 46, name);
    cent := buf[..];
  }

  /** The end of central directory record for `count` entries whose directory
      takes `size` bytes from `offset` on. */
  method WriteEndRecord(count: nat, size: nat, offset: nat) returns (eocd: seq<nat>)
    ensures eocd == EndRecord(count, size, offset)
  {
    var buf := new nat[22](_ => 0);
    ghost var values := EndValues(count, size, offset);
    EndOffsets();
    WrittenEnds(values);
    assert buf[..] == Zeros(22);
    ZeroFilled(EndLayout, values, 22, 0);
    SetNext(buf, EndLayout, values, [], 0, 0, EndSignature, 4);
    SetNext(buf, EndLayout, values, [], 1, 4, 0, 2);
    SetNext(buf, EndLayout, values, [], 2, 6, 0, 2);
    SetNext(buf, EndLayout, values, [], 3, 8, count, 2);
    SetNext(buf, EndLayout, values, [], 4, 10, count, 2);
    SetNext(buf, EndLayout, values, [], 5, 12, size, 4);
    SetNext(buf, EndLayout, values, [], 6, 16, offset, 4);
    SetNext(buf, EndLayout, values, [], 7, 20, 0, 2);
    FilledIs(buf[..], EndLayout, values, 8, []);
    eocd := buf[..];
  }

  /** What the first loop keeps per file: `{localHeader, data, name, crc}`. */
  datatype FileEntry = FileEntry(localHeader: seq<nat>, data: seq<nat>, name: seq<nat>, crc: nat)

  /** The entry a kept record describes. */
  function EntryOf(f: FileEntry): Entry {
    Entry(f.name, f.data, f.crc)
  }

  function EntriesOf(kept: seq<FileEntry>): (r: seq<Entry>)
    ensures |r| == |kept|
    ensures forall j :: 0 <= j < |kept| ==> r[j] == EntryOf(kept[j])
  {
    seq(|kept|, j requires 0 <= j < |kept| => EntryOf(kept[j]))
  }

  /** Every kept local header is the local header of its entry. */
  predicate HeadersKept(kept: seq<FileEntry>) {
    forall j :: 0 <= j < |kept| ==> kept[j].localHeader == LocalHeader(EntryOf(kept[j]))
  }

  /** `parts.reduce((sum, p) => sum + p.length, 0)`. */
  function TotalLength(parts: seq<seq<nat>>): nat {
    if parts == [] then 0 else TotalLength(parts[..|parts| - 1]) + |parts[|parts| - 1]|
  }

  /** `fileEntries.reduce((s, f) => s + f.localHeader.length + f.data.length, 0)`. */
  function LocalTotalSize(kept: seq<FileEntry>): nat {
    if kept == [] then 0
    else
      var f := kept[|kept| - 1];
      LocalTotalSize(kept[..|kept| - 1]) + |f.localHeader| + |f.data|
  }

  /** Summing the lengths of parts is measuring their concatenation. */
  lemma {:induction false} TotalLengthConcat(parts: seq<seq<nat>>)
    ensures TotalLength(parts) == |Concat(parts)|
  {
    if parts != [] {
      var n := |parts| - 1;
      TotalLengthConcat(parts[..n]);
      assert parts == parts[..n] + [parts[n]];
      ConcatSnoc(parts[..n], parts[n]);
    }
  }

  /** The summed local sizes of the first `i` kept entries is where the local
      header of entry `i` starts. */
  lemma {:induction false} LocalTotalSizeStart(kept: seq<FileEntry>, i: nat)
    requires HeadersKept(kept) && i <= |kept|
    ensures LocalTotalSize(kept[..i]) == LocalOffset(EntriesOf(kept), i)
  {
    if i > 0 {
      LocalTotalSizeStart(kept, i - 1);
      assert kept[..i][..i - 1] == kept[..i - 1];
      StartNext(LocalParts(EntriesOf(kept)), i - 1);
    }
  }

  /** The first loop: each file's local header, its CRC-32, and the running
      size of the local section. */
  method WriteLocals(table: array<nat>, files: seq<ZipFile>)
    returns (fileEntries: seq<FileEntry>, localFilesSize: nat)
    requires IsCrcTable(table[..])
    ensures |fileEntries| == |files|
    ensures forall j :: 0 <= j < |files| ==>
      (fileEntries[j].name == files[j].name && fileEntries[j].data == files[j].data
       && fileEntries[j].crc == Checksum(files[j].data))
    ensures HeadersKept(fileEntries)
    ensures localFilesSize == LocalTotalSize(fileEntries)
  {
    fileEntries := [];
    localFilesSize := 0;
    for i := 0 to |files|
      invariant |fileEntries| == i
      invariant forall j :: 0 <= j < i ==>
        (fileEntries[j].name == files[j].name && fileEntries[j].data == files[j].data
         && fileEntries[j].crc == Checksum(files[j].data))
      invariant HeadersKept(fileEntries)
      invariant localFilesSize == LocalTotalSize(fileEntries)
    {
      var f := files[i];
      var localHeader, crc := WriteLocalHeader(table, f.name, f.data);
      var kept := FileEntry(localHeader, f.data, f.name, crc);
      assert (fileEntries + [kept])[..i] == fileEntries;
      fileEntries := fileEntries + [kept];
      localFilesSize := localFilesSize + |localHeader| + |f.data|;
    }
  }

  /** The second loop: one central directory header per kept entry, with
      `offset` running over the starts of the local headers. */
  method WriteCentralDirectory(fileEntries: seq<FileEntry>) returns (centralParts: seq<seq<nat>>)
    requires HeadersKept(fileEntries)
    ensures centralParts == CentralParts(EntriesOf(fileEntries))
  {
    ghost var entries := EntriesOf(fileEntries);
    centralParts := [];
    var offset := 0;
    for i := 0 to |fileEntries|
      invariant centralParts == CentralParts(entries)[..i]
      invariant offset == LocalOffset(entries, i)
    {
      var e := fileEntries[i];
      var cent := WriteCentralHeader(e.name, e.data, e.crc, offset);
      assert CentralParts(entries)[..i + 1] == CentralParts(entries)[..i] + [cent];
      centralParts := centralParts + [cent];
      StartNext(LocalParts(entries), i);
      offset := offset + |e.localHeader| + |e.data|;
    }
    assert CentralParts(entries)[..|fileEntries|] == CentralParts(entries);
  }

  /** The closing loops: `blobParts` holds each local header and its data, then
      the central directory headers, then the end record. */
  method JoinParts(fileEntries: seq<FileEntry>, centralParts: seq<seq<nat>>, eocd: seq<nat>)
    returns (zip: seq<nat>)
    requires HeadersKept(fileEntries)
    ensures zip == Concat(LocalParts(EntriesOf(fileEntries))) + Concat(centralParts) + eocd
  {
    ghost var locals := LocalParts(EntriesOf(fileEntries));
    var blobParts: seq<seq<nat>> := [];
    for i := 0 to |fileEntries|
      invariant Concat(blobParts) == Concat(locals[..i])
    {
      var e := fileEntries[i];
      assert Concat([e.localHeader, e.data]) == e.localHeader + e.data by {
        assert [e.localHeader, e.data][1..] == [e.data];
        ConcatOne(e.data);
      }
      ConcatGrow(blobParts, [], locals, i, [e.localHeader, e.data]);
      blobParts := blobParts + [e.localHeader, e.data];
    }
    assert locals[..|fileEntries|] == locals;
    for i := 0 to |centralParts|
      invariant Concat(blobParts) == Concat(locals) + Concat(centralParts[..i])
    {
      ConcatOne(centralParts[i]);
      ConcatGrow(blobParts, Concat(locals), centralParts, i, [centralParts[i]]);
      blobParts := blobParts + [centralParts[i]];
    }
    assert centralParts[..|centralParts|] == centralParts;
    ConcatSnoc(blobParts, eocd);
    blobParts := blobParts + [eocd];
    zip := Concat(blobParts);
  }

  /** `buildZipFromFiles(files)`: the bytes of the blob it returns. */
  method BuildZipFromFiles(files: seq<ZipFile>) returns (zip: seq<nat>)
    ensures zip == Archive(Entries(files))
    ensures Fits(Entries(files)) ==> ReadZip(zip) == Some(files)
  {
    var table := MakeCrcTable();
    var fileEntries, localFilesSize := WriteLocals(table, files);
    ghost var entries := EntriesOf(fileEntries);
    assert entries == Entries(files);
    var centralParts := WriteCentralDirectory(fileEntries);
    var centralSize := TotalLength(centralParts);
    var localTotalSize := LocalTotalSize(fileEntries);
    TotalLengthConcat(centralParts);
    LocalTotalSizeStart(fileEntries, |fileEntries|);
    assert fileEntries[..|fileEntries|] == fileEntries;
    assert LocalParts(entries)[..|entries|] == LocalParts(entries);
    var eocd := WriteEndRecord(|centralParts|, centralSize, localTotalSize);
    zip := JoinParts(fileEntries, centralParts, eocd);
    if Fits(entries) {
      ReadWrittenZip(files);
    }
  }
}
