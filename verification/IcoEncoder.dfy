/** The ICO encoder (scripts/lib/icon-export.ts: `encodePngIco`). */
module IcoEncoder {
  import opened Collections
  import opened Outcomes

  type Byte = b: int | 0 <= b < 256

  /** A rendition; `size` is a JavaScript number, here any real. */
  datatype Image = Image(size: real, contents: seq<Byte>)

  datatype Error = NoImages | BadSize(size: real) | DuplicateSize(size: real) | EmptyImage(size: real) | OutOfRange

  const HEADER_SIZE: nat := 6
  const ENTRY_SIZE: nat := 16
  const UINT32_LIMIT: int := 0x1_0000_0000

  // ---------------------------------------------------------------- numbers in bytes

  function Write16(v: int): (r: seq<Byte>)
    requires 0 <= v < 65536
    ensures |r| == 2
  {
    [v % 256, v / 256]
  }

  function Write32(v: int): (r: seq<Byte>)
    requires 0 <= v < UINT32_LIMIT
    ensures |r| == 4
  {
    [v % 256, v / 256 % 256, v / 65536 % 256, v / 16777216]
  }

  function Read16(s: seq<Byte>): int
    requires |s| == 2
  {
    var low: int, high: int := s[0], s[1];
    low + 256 * high
  }

  function Read32(s: seq<Byte>): int
    requires |s| == 4
  {
    var a: int, b: int, c: int, d: int := s[0], s[1], s[2], s[3];
    a + 256 * b + 65536 * c + 16777216 * d
  }

  lemma Reads16Back(v: int)
    requires 0 <= v < 65536
    ensures Read16(Write16(v)) == v
  {
  }

  lemma Reads32Back(v: int)
    requires 0 <= v < UINT32_LIMIT
    ensures Read32(Write32(v)) == v
  {
    assert v == v % 256 + 256 * (v / 256);
    assert v / 256 == v / 256 % 256 + 256 * (v / 65536);
    assert v / 65536 == v / 65536 % 256 + 256 * (v / 16777216);
  }

  // ---------------------------------------------------------------- what is accepted

  predicate IsInteger(x: real) {
    x.Floor as real == x
  }

  predicate GoodSize(x: real) {
    IsInteger(x) && 1.0 <= x <= 256.0
  }

  function SizeAt(images: seq<Image>, i: nat): int
    requires i < |images|
  {
    images[i].size.Floor
  }

  /** The first objection to the renditions, in the order they are looked at. */
  function Validate(images: seq<Image>): Option<Error> {
    if images == [] then None
    else
      var n := |images| - 1;
      var before := Validate(images[..n]);
      var image := images[n];
      if before.Some? then before
      else if !GoodSize(image.size) then Some(BadSize(image.size))
      else if exists i | 0 <= i < n :: images[i].size == image.size then Some(DuplicateSize(image.size))
      else if image.contents == [] then Some(EmptyImage(image.size))
      else None
  }

  /** What the three checks mean together. */
  ghost predicate Acceptable(images: seq<Image>) {
    && (forall i | 0 <= i < |images| :: GoodSize(images[i].size) && images[i].contents != [])
    && (forall i, j | 0 <= i < j < |images| :: images[i].size != images[j].size)
  }

  lemma {:induction false} ValidateMeans(images: seq<Image>)
    ensures Validate(images).None? <==> Acceptable(images)
  {
    if images != [] {
      var n := |images| - 1;
      ValidateMeans(images[..n]);
      assert forall i | 0 <= i < n :: images[..n][i] == images[i];
    }
  }

  /** What is wrong with rendition `n`: its size is no integer from 1 to 256; or it is, but
      an earlier one has it; or neither, but the rendition is empty. */
  ghost predicate ObjectionAt(images: seq<Image>, n: nat, e: Error) {
    && n < |images|
    && match e
       case BadSize(size) => size == images[n].size && (size.Floor as real != size || size < 1.0 || size > 256.0)
       case DuplicateSize(size) =>
         size == images[n].size && GoodSize(size) && exists i :: 0 <= i < n && images[i].size == size
       case EmptyImage(size) =>
         && size == images[n].size && GoodSize(size) && images[n].contents == []
         && forall i | 0 <= i < n :: images[i].size != size
       case _ => false
  }

  /** The objection reported is that to the first rendition to which there is one. */
  lemma {:induction false} FirstObjection(images: seq<Image>, e: Error)
    ensures Validate(images) == Some(e)
       <==> exists n :: 0 <= n < |images| && Acceptable(images[..n]) && ObjectionAt(images, n, e)
  {
    if images != [] {
      var n := |images| - 1;
      ValidateMeans(images[..n]);
      FirstObjection(images[..n], e);
      assert forall i | 0 <= i < n :: images[..n][i] == images[i];
      forall k | 0 <= k < n
        ensures Acceptable(images[..k]) && ObjectionAt(images, k, e)
           <==> Acceptable(images[..n][..k]) && ObjectionAt(images[..n], k, e)
      {
        assert images[..n][..k] == images[..k];
      }
      if k :| 0 <= k < n && Acceptable(images[..k]) && ObjectionAt(images, k, e) {
        assert Acceptable(images[..n][..k]) && ObjectionAt(images[..n], k, e);
      }
      if Validate(images[..n]) == Some(e) {
        var k :| 0 <= k < n && Acceptable(images[..n][..k]) && ObjectionAt(images[..n], k, e);
        assert Acceptable(images[..k]) && ObjectionAt(images, k, e);
      }
    }
  }

  /** Distinct integers between 1 and 256: there are at most 256 renditions. */
  lemma CountFits(images: seq<Image>)
    requires Acceptable(images)
    ensures |images| <= 256
  {
    CountBound(images, 256);
  }

  lemma CountBound(images: seq<Image>, n: nat)
    requires Acceptable(images) && forall i | 0 <= i < |images| :: images[i].size.Floor <= n
    ensures |images| <= n
  {
    SizesCount(images);
    UpToCount(n);
    forall s | s in Sizes(images) ensures s in UpTo(n) {
      var i :| 0 <= i < |images| && images[i].size == s as real;
    }
    SubsetCount(Sizes(images), UpTo(n));
  }

  function Sizes(images: seq<Image>): set<int> {
    if images == [] then {} else Sizes(images[..|images| - 1]) + {images[|images| - 1].size.Floor}
  }

  lemma {:induction false} SizesCount(images: seq<Image>)
    requires Acceptable(images)
    ensures |Sizes(images)| == |images|
    ensures forall s :: s in Sizes(images) <==> exists i :: 0 <= i < |images| && images[i].size == s as real
    ensures forall s | s in Sizes(images) :: 1 <= s <= 256
  {
    if images != [] {
      var n := |images| - 1;
      SizesCount(images[..n]);
      assert forall i | 0 <= i < n :: images[..n][i] == images[i];
      assert images[n].size.Floor !in Sizes(images[..n]);
    }
  }

  function UpTo(n: nat): set<int> {
    if n == 0 then {} else UpTo(n - 1) + {n}
  }

  lemma {:induction false} UpToCount(n: nat)
    ensures |UpTo(n)| == n
    ensures forall s: int :: s in UpTo(n) <==> 1 <= s <= n
  {
    if n > 0 {
      UpToCount(n - 1);
    }
  }

  // ---------------------------------------------------------------- the layout

  /** The bytes of the first `n` renditions. */
  function Concat(images: seq<Image>): seq<Byte> {
    if images == [] then [] else Concat(images[..|images| - 1]) + images[|images| - 1].contents
  }

  function DirectoryEnd(images: seq<Image>): nat {
    HEADER_SIZE + ENTRY_SIZE * |images|
  }

  function Offset(images: seq<Image>, i: nat): nat
    requires i <= |images|
  {
    DirectoryEnd(images) + |Concat(images[..i])|
  }

  predicate FitsAt(images: seq<Image>, i: nat)
    requires i < |images|
  {
    |images[i].contents| < 0x1_0000_0000 && Offset(images, i) < 0x1_0000_0000
  }

  predicate FitsUpTo(images: seq<Image>, n: nat)
    requires n <= |images|
  {
    forall i | 0 <= i < n :: FitsAt(images, i)
  }

  /** Every length and every offset fits the 32-bit fields; otherwise a write throws. */
  predicate FitsFields(images: seq<Image>) {
    FitsUpTo(images, |images|)
  }

  function EncodedSize(size: int): Byte
    requires 1 <= size <= 256
  {
    if size == 256 then 0 else size
  }

  function EntryBytes(size: int, length: nat, offset: nat): (r: seq<Byte>)
    requires 1 <= size <= 256 && length < UINT32_LIMIT && offset < UINT32_LIMIT
    ensures |r| == ENTRY_SIZE
  {
    [EncodedSize(size), EncodedSize(size), 0, 0] + Write16(1) + Write16(32) + Write32(length) + Write32(offset)
  }

  function Entries(images: seq<Image>, n: nat): (r: seq<Byte>)
    requires n <= |images| && FitsUpTo(images, n) && forall i | 0 <= i < |images| :: GoodSize(images[i].size)
    ensures |r| == ENTRY_SIZE * n
  {
    if n == 0 then []
    else
      assert FitsAt(images, n - 1);
      Entries(images, n - 1) + EntryBytes(SizeAt(images, n - 1), |images[n - 1].contents|, Offset(images, n - 1))
  }

  function Head(count: nat): (r: seq<Byte>)
    requires count < 65536
    ensures |r| == HEADER_SIZE
  {
    Write16(0) + Write16(1) + Write16(count)
  }

  /** The file of acceptable renditions that fit. */
  function File(images: seq<Image>): seq<Byte>
    requires |images| < 65536 && FitsFields(images) && forall i | 0 <= i < |images| :: GoodSize(images[i].size)
  {
    Head(|images|) + Entries(images, |images|) + Concat(images)
  }

  // ---------------------------------------------------------------- reading the directory back

  function Slice(s: seq<Byte>, start: nat, length: nat): seq<Byte> {
    if start + length <= |s| then s[start..start + length] else []
  }

  /** The directory entry at index `i` of a file, as a reader sees it. */
  datatype Entry = Entry(width: int, height: int, colors: int, reserved: int, planes: int, bitCount: int,
                         length: int, offset: int)

  function DecodeEntry(e: seq<Byte>): Entry
    requires |e| == ENTRY_SIZE
  {
    Entry(if e[0] == 0 then 256 else e[0], if e[1] == 0 then 256 else e[1], e[2], e[3],
          Read16(e[4..6]), Read16(e[6..8]), Read32(e[8..12]), Read32(e[12..16]))
  }

  function ReadEntry(file: seq<Byte>, i: nat): Entry
    requires HEADER_SIZE + ENTRY_SIZE * (i + 1) <= |file|
  {
    DecodeEntry(file[HEADER_SIZE + ENTRY_SIZE * i..HEADER_SIZE + ENTRY_SIZE * (i + 1)])
  }

  lemma EntryReadsBack(size: int, length: nat, offset: nat)
    requires 1 <= size <= 256 && length < UINT32_LIMIT && offset < UINT32_LIMIT
    ensures DecodeEntry(EntryBytes(size, length, offset)) == Entry(size, size, 0, 0, 1, 32, length, offset)
  {
    var e := EntryBytes(size, length, offset);
    assert e[4..6] == Write16(1) && e[6..8] == Write16(32);
    Reads16Back(1);
    Reads16Back(32);
    assert e[8..12] == Write32(length) && e[12..16] == Write32(offset);
    Reads32Back(length);
    Reads32Back(offset);
  }

  lemma {:induction false} EntryAt(images: seq<Image>, n: nat, i: nat)
    requires i < n <= |images| && FitsUpTo(images, n) && forall k | 0 <= k < |images| :: GoodSize(images[k].size)
    ensures FitsAt(images, i)
    ensures Entries(images, n)[ENTRY_SIZE * i..ENTRY_SIZE * (i + 1)]
         == EntryBytes(SizeAt(images, i), |images[i].contents|, Offset(images, i))
  {
    var all := Entries(images, n);
    var before := Entries(images, n - 1);
    if i == n - 1 {
      assert all[ENTRY_SIZE * i..ENTRY_SIZE * (i + 1)] == all[|before|..];
    } else {
      EntryAt(images, n - 1, i);
      assert all[..|before|] == before;
      assert all[ENTRY_SIZE * i..ENTRY_SIZE * (i + 1)] == before[ENTRY_SIZE * i..ENTRY_SIZE * (i + 1)];
    }
  }

  lemma {:induction false} ContentsAt(images: seq<Image>, i: nat)
    requires i < |images|
    ensures |Concat(images[..i + 1])| == |Concat(images[..i])| + |images[i].contents|
    ensures |Concat(images[..i + 1])| <= |Concat(images)|
    ensures Concat(images)[|Concat(images[..i])|..|Concat(images[..i + 1])|] == images[i].contents
    decreases |images|
  {
    var n := |images| - 1;
    assert images[..i + 1][..i] == images[..i];
    if i == n {
      assert images[..i + 1] == images;
    } else {
      ContentsAt(images[..n], i);
      assert images[..n][..i] == images[..i] && images[..n][..i + 1] == images[..i + 1];
      assert Concat(images)[..|Concat(images[..n])|] == Concat(images[..n]);
    }
  }

  lemma MiddleSlice(a: seq<Byte>, b: seq<Byte>, c: seq<Byte>, i: nat, j: nat)
    requires i <= j <= |b|
    ensures (a + b + c)[|a| + i..|a| + j] == b[i..j]
  {
  }

  function EntryFor(images: seq<Image>, i: nat): Entry
    requires i < |images|
  {
    Entry(SizeAt(images, i), SizeAt(images, i), 0, 0, 1, 32, |images[i].contents|, Offset(images, i))
  }

  lemma EntryDecodes(images: seq<Image>, i: nat)
    requires Acceptable(images) && FitsFields(images) && i < |images|
    ensures DecodeEntry(Entries(images, |images|)[ENTRY_SIZE * i..ENTRY_SIZE * (i + 1)]) == EntryFor(images, i)
  {
    EntryAt(images, |images|, i);
    EntryReadsBack(SizeAt(images, i), |images[i].contents|, Offset(images, i));
  }

  lemma EntryInFile(images: seq<Image>, head: seq<Byte>, entries: seq<Byte>, rest: seq<Byte>, i: nat)
    requires |head| == HEADER_SIZE && i < |images| && |entries| == ENTRY_SIZE * |images|
    requires DecodeEntry(entries[ENTRY_SIZE * i..ENTRY_SIZE * (i + 1)]) == EntryFor(images, i)
    ensures ReadEntry(head + entries + rest, i) == EntryFor(images, i)
  {
    MiddleSlice(head, entries, rest, ENTRY_SIZE * i, ENTRY_SIZE * (i + 1));
  }

  lemma ContentsInFile(images: seq<Image>, before: seq<Byte>, i: nat)
    requires i < |images| && |before| == DirectoryEnd(images)
    ensures Slice(before + Concat(images), Offset(images, i), |images[i].contents|) == images[i].contents
    ensures Offset(images, i + 1) == Offset(images, i) + |images[i].contents|
  {
    ContentsAt(images, i);
    var a, b := |Concat(images[..i])|, |Concat(images[..i + 1])|;
    MiddleSlice(before, Concat(images), [], a, b);
    assert before + Concat(images) + [] == before + Concat(images);
  }

  lemma HeadReadsBack(count: nat, rest: seq<Byte>)
    requires count < 65536
    ensures var file := Head(count) + rest;
            Read16(file[0..2]) == 0 && Read16(file[2..4]) == 1 && Read16(file[4..6]) == count
  {
    var file := Head(count) + rest;
    Reads16Back(0);
    Reads16Back(1);
    Reads16Back(count);
    assert file[0..2] == Write16(0) && file[2..4] == Write16(1) && file[4..6] == Write16(count);
  }

  /** The header counts the renditions, and the file is as long as its parts. */
  lemma HeaderReadsBack(images: seq<Image>)
    requires Acceptable(images) && FitsFields(images)
    ensures |images| < 65536
    ensures var file := File(images);
            && |file| == DirectoryEnd(images) + |Concat(images)|
            && Read16(file[0..2]) == 0 && Read16(file[2..4]) == 1 && Read16(file[4..6]) == |images|
  {
    CountFits(images);
    var entries := Entries(images, |images|);
    assert File(images) == Head(|images|) + (entries + Concat(images));
    HeadReadsBack(|images|, entries + Concat(images));
  }

  /** Reading a directory entry back gives its rendition's size, 0 meaning 256, no palette, one
      plane of 32 bits, and the place in the file of exactly its bytes. */
  lemma RenditionReadsBack(images: seq<Image>, i: nat)
    requires Acceptable(images) && FitsFields(images) && |images| < 65536 && i < |images|
    ensures ReadEntry(File(images), i)
         == Entry(SizeAt(images, i), SizeAt(images, i), 0, 0, 1, 32, |images[i].contents|, Offset(images, i))
    ensures Slice(File(images), Offset(images, i), |images[i].contents|) == images[i].contents
  {
    var head, entries := Head(|images|), Entries(images, |images|);
    EntryDecodes(images, i);
    EntryInFile(images, head, entries, Concat(images), i);
    ContentsInFile(images, head + entries, i);
  }

  /** Each rendition begins where the one before it ends, the first at the end of the
      directory, and the last ends at the end of the file. */
  lemma RenditionsTile(images: seq<Image>)
    requires Acceptable(images) && FitsFields(images) && |images| < 65536
    ensures Offset(images, 0) == DirectoryEnd(images) && Offset(images, |images|) == |File(images)|
    ensures forall i | 0 <= i < |images| :: Offset(images, i + 1) == Offset(images, i) + |images[i].contents|
  {
    assert images[..|images|] == images && images[..0] == [];
    forall i | 0 <= i < |images| ensures Offset(images, i + 1) == Offset(images, i) + |images[i].contents| {
      ContentsAt(images, i);
    }
  }

  lemma {:induction false} ConcatGrows(images: seq<Image>, i: nat)
    requires i < |images|
    ensures |Concat(images[..i])| + |images[i].contents| <= |Concat(images)|
  {
    ContentsAt(images, i);
  }

  /** A file shorter than 2^32 bytes always fits the fields. */
  lemma SmallFits(images: seq<Image>)
    requires DirectoryEnd(images) + |Concat(images)| < 0x1_0000_0000
    ensures FitsFields(images)
  {
    forall i | 0 <= i < |images| ensures FitsAt(images, i) {
      ConcatGrows(images, i);
    }
  }

  // ---------------------------------------------------------------- the encoder

  method CheckRenditions(images: seq<Image>) returns (r: Result<(), Error>)
    ensures r == match Validate(images) case None => Ok(()) case Some(e) => Err(e)
  {
    var seenSizes: set<real> := {};
    var i := 0;
    while i < |images|
      invariant i <= |images|
      invariant Validate(images[..i]).None?
      invariant forall s :: s in seenSizes <==> exists k :: 0 <= k < i && images[k].size == s
    {
      var image := images[i];
      assert images[..i + 1][..i] == images[..i];
      ValidateStops(images, i);
      if !IsInteger(image.size) || image.size < 1.0 || image.size > 256.0 {
        return Err(BadSize(image.size));
      }
      if image.size in seenSizes {
        return Err(DuplicateSize(image.size));
      }
      if image.contents == [] {
        return Err(EmptyImage(image.size));
      }
      seenSizes := seenSizes + {image.size};
      i := i + 1;
    }
    assert images[..i] == images;
    r := Ok(());
  }

  /** The first objection stays the objection. */
  lemma {:induction false} ValidateStops(images: seq<Image>, i: nat)
    requires i < |images|
    ensures Validate(images[..i + 1]).Some? ==> Validate(images) == Validate(images[..i + 1])
    decreases |images|
  {
    var n := |images| - 1;
    if i < n {
      ValidateStops(images[..n], i);
      assert images[..n][..i + 1] == images[..i + 1];
    } else {
      assert images[..i + 1] == images;
    }
  }

  /** `bytes` written over `s` at `at`. */
  function Splice(s: seq<Byte>, at: nat, bytes: seq<Byte>): seq<Byte>
    requires at + |bytes| <= |s|
  {
    s[..at] + bytes + s[at + |bytes|..]
  }

  lemma SpliceTwice(s: seq<Byte>, at: nat, a: seq<Byte>, b: seq<Byte>)
    requires at + |a| + |b| <= |s|
    ensures Splice(Splice(s, at, a), at + |a|, b) == Splice(s, at, a + b)
  {
  }

  method WriteUInt8(buffer: array<Byte>, v: Byte, at: nat)
    requires at < buffer.Length
    modifies buffer
    ensures buffer[..] == Splice(old(buffer[..]), at, [v])
  {
    buffer[at] := v;
  }

  method WriteUInt16LE(buffer: array<Byte>, v: int, at: nat)
    requires at + 2 <= buffer.Length && 0 <= v < 65536
    modifies buffer
    ensures buffer[..] == Splice(old(buffer[..]), at, Write16(v))
  {
    buffer[at] := v % 256;
    buffer[at + 1] := v / 256;
  }

  /** Refuses a value the field cannot hold. */
  method WriteUInt32LE(buffer: array<Byte>, v: nat, at: nat) returns (ok: bool)
    requires at + 4 <= buffer.Length
    modifies buffer
    ensures ok <==> v < UINT32_LIMIT
    ensures ok ==> buffer[..] == Splice(old(buffer[..]), at, Write32(v))
  {
    ok := v < UINT32_LIMIT;
    if ok {
      buffer[at] := v % 256;
      buffer[at + 1] := v / 256 % 256;
      buffer[at + 2] := v / 65536 % 256;
      buffer[at + 3] := v / 16777216;
    }
  }

  /** One directory entry, field by field. */
  method WriteEntry(header: array<Byte>, entryOffset: nat, size: int, length: nat, imageOffset: nat) returns (ok: bool)
    requires entryOffset + ENTRY_SIZE <= header.Length && 1 <= size <= 256
    modifies header
    ensures ok <==> length < 0x1_0000_0000 && imageOffset < 0x1_0000_0000
    ensures ok ==> header[..] == Splice(old(header[..]), entryOffset, EntryBytes(size, length, imageOffset))
  {
    ghost var was := header[..];
    var encodedSize := if size == 256 then 0 else size;
    WriteEntryStart(header, encodedSize, entryOffset);
    ok := WriteUInt32LE(header, length, entryOffset + 8);
    if !ok {
      return;
    }
    ghost var start := [encodedSize, encodedSize, 0, 0] + Write16(1) + Write16(32);
    SpliceTwice(was, entryOffset, start, Write32(length));
    ok := WriteUInt32LE(header, imageOffset, entryOffset + 12);
    if ok {
      SpliceTwice(was, entryOffset, start + Write32(length), Write32(imageOffset));
    }
  }

  method WritePair(header: array<Byte>, a: Byte, b: Byte, at: nat)
    requires at + 2 <= header.Length
    modifies header
    ensures header[..] == Splice(old(header[..]), at, [a, b])
  {
    ghost var was := header[..];
    WriteUInt8(header, a, at);
    WriteUInt8(header, b, at + 1);
    SpliceTwice(was, at, [a], [b]);
  }

  method WriteDimensions(header: array<Byte>, encodedSize: Byte, entryOffset: nat)
    requires entryOffset + 4 <= header.Length
    modifies header
    ensures header[..] == Splice(old(header[..]), entryOffset, [encodedSize, encodedSize, 0, 0])
  {
    ghost var was := header[..];
    WritePair(header, encodedSize, encodedSize, entryOffset);
    WritePair(header, 0, 0, entryOffset + 2);
    SpliceTwice(was, entryOffset, [encodedSize, encodedSize], [0, 0]);
  }

  method WriteEntryStart(header: array<Byte>, encodedSize: Byte, entryOffset: nat)
    requires entryOffset + ENTRY_SIZE <= header.Length
    modifies header
    ensures header[..] == Splice(old(header[..]), entryOffset, [encodedSize, encodedSize, 0, 0] + Write16(1) + Write16(32))
  {
    ghost var was := header[..];
    ghost var dimensions: seq<Byte> := [encodedSize, encodedSize, 0, 0];
    WriteDimensions(header, encodedSize, entryOffset);
    WriteUInt16LE(header, 1, entryOffset + 4);
    SpliceTwice(was, entryOffset, dimensions, Write16(1));
    WriteUInt16LE(header, 32, entryOffset + 6);
    SpliceTwice(was, entryOffset, dimensions + Write16(1), Write16(32));
  }

  method WriteHead(header: array<Byte>, count: nat)
    requires header.Length >= HEADER_SIZE && count < 65536
    modifies header
    ensures header[..HEADER_SIZE] == Head(count)
  {
    WriteUInt16LE(header, 0, 0);
    WriteUInt16LE(header, 1, 2);
    WriteUInt16LE(header, count, 4);
  }

  /** The body of the loop over the renditions. */
  method WriteRendition(header: array<Byte>, images: seq<Image>, index: nat, imageOffset: nat) returns (ok: bool)
    requires index < |images| < 65536 && header.Length == DirectoryEnd(images)
    requires forall i | 0 <= i < |images| :: GoodSize(images[i].size)
    requires FitsUpTo(images, index) && imageOffset == Offset(images, index)
    requires header[..HEADER_SIZE + ENTRY_SIZE * index] == Head(|images|) + Entries(images, index)
    modifies header
    ensures ok <==> FitsAt(images, index)
    ensures ok ==> FitsUpTo(images, index + 1)
    ensures ok ==> header[..HEADER_SIZE + ENTRY_SIZE * (index + 1)] == Head(|images|) + Entries(images, index + 1)
  {
    var image := images[index];
    var entryOffset := HEADER_SIZE + index * ENTRY_SIZE;
    ghost var was := header[..];
    ok := WriteEntry(header, entryOffset, image.size.Floor, |image.contents|, imageOffset);
    if ok {
      DirectoryGrows(images, index, was, header[..]);
    }
  }

  /** The directory: one entry a rendition, each pointing past the contents before it. */
  method WriteDirectory(header: array<Byte>, images: seq<Image>) returns (ok: bool)
    requires |images| < 65536 && header.Length == DirectoryEnd(images) && header[..HEADER_SIZE] == Head(|images|)
    requires forall i | 0 <= i < |images| :: GoodSize(images[i].size)
    modifies header
    ensures ok <==> FitsFields(images)
    ensures ok ==> header[..] == Head(|images|) + Entries(images, |images|)
  {
    var imageOffset := header.Length;
    var index := 0;
    while index < |images|
      invariant index <= |images| && FitsUpTo(images, index)
      invariant imageOffset == Offset(images, index)
      invariant header[..HEADER_SIZE + ENTRY_SIZE * index] == Head(|images|) + Entries(images, index)
    {
      ok := WriteRendition(header, images, index, imageOffset);
      if !ok {
        return;
      }
      ContentsAt(images, index);
      imageOffset := imageOffset + |images[index].contents|;
      index := index + 1;
    }
    assert header[..HEADER_SIZE + ENTRY_SIZE * index] == header[..];
    ok := true;
  }

  lemma DirectoryGrows(images: seq<Image>, index: nat, was: seq<Byte>, now: seq<Byte>)
    requires index < |images| < 65536 && forall i | 0 <= i < |images| :: GoodSize(images[i].size)
    requires FitsUpTo(images, index) && FitsAt(images, index)
    requires |was| == DirectoryEnd(images)
    requires was[..HEADER_SIZE + ENTRY_SIZE * index] == Head(|images|) + Entries(images, index)
    requires now == Splice(was, HEADER_SIZE + ENTRY_SIZE * index,
                           EntryBytes(SizeAt(images, index), |images[index].contents|, Offset(images, index)))
    ensures FitsUpTo(images, index + 1)
    ensures now[..HEADER_SIZE + ENTRY_SIZE * (index + 1)] == Head(|images|) + Entries(images, index + 1)
  {
    var e := EntryBytes(SizeAt(images, index), |images[index].contents|, Offset(images, index));
    SplicePrefix(was, HEADER_SIZE + ENTRY_SIZE * index, e);
    assert Entries(images, index + 1) == Entries(images, index) + e;
    assert Head(|images|) + Entries(images, index) + e == Head(|images|) + (Entries(images, index) + e);
  }

  lemma SplicePrefix(s: seq<Byte>, at: nat, bytes: seq<Byte>)
    requires at + |bytes| <= |s|
    ensures Splice(s, at, bytes)[..at + |bytes|] == s[..at] + bytes
  {
  }

  /** The file of the renditions, or the first objection; an image list whose lengths or
      offsets do not fit their fields makes a write throw. */
  method EncodePngIco(images: seq<Image>) returns (r: Result<seq<Byte>, Error>)
    ensures r.Ok? <==> images != [] && Acceptable(images) && FitsFields(images)
    ensures r.Ok? ==> |images| < 65536 && r.value == File(images)
    ensures images == [] ==> r == Err(NoImages)
    ensures images != [] && Validate(images).Some? ==> r == Err(Validate(images).value)
    ensures Acceptable(images) && !FitsFields(images) ==> r == Err(OutOfRange)
  {
    ValidateMeans(images);
    if |images| == 0 {
      return Err(NoImages);
    }
    var checked := CheckRenditions(images);
    if checked.Err? {
      return Err(checked.error);
    }
    CountFits(images);
    var header := new Byte[HEADER_SIZE + ENTRY_SIZE * |images|](_ => 0);
    WriteHead(header, |images|);
    var written := WriteDirectory(header, images);
    if !written {
      return Err(OutOfRange);
    }
    var contents := ConcatContents(images);
    r := Ok(header[..] + contents);
  }

  method ConcatContents(images: seq<Image>) returns (contents: seq<Byte>)
    ensures contents == Concat(images)
  {
    contents := [];
    var i := 0;
    while i < |images|
      invariant i <= |images|
      invariant contents == Concat(images[..i])
    {
      assert images[..i + 1][..i] == images[..i];
      contents := contents + images[i].contents;
      i := i + 1;
    }
    assert images[..i] == images;
  }
}
