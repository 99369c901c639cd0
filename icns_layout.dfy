/**
 * Facts about `IcnsFile`: the header, where each chunk sits, a chunk
 * parser that recovers every (tag, payload) pair, and the size-to-type
 * table `imageToICNS` builds its chunks from.
 */
module IcnsLayout {
  import opened Wrappers
  import opened Bytes
  import opened IcnsFormat

  // ---------------------------------------------------------------------
  // Header and chunk positions.

  /** Bytes 0-3 are ASCII `icns`; bytes 4-7 read back as the file length (modulo 2^32). */
  lemma IcnsFileHeader(images: seq<IcnsImage>)
    ensures |IcnsFile(images)| == IcnsTotalSize(images) >= IcnsHeaderSize
    ensures IcnsFile(images)[..4] == Magic == TagBytes("icns")
    ensures ReadBE32(IcnsFile(images), 4) == |IcnsFile(images)| % Two32
  {
    var f := IcnsFile(images);
    assert f[4..8] == BE32(IcnsTotalSize(images));
    BE32RoundTrip(f, 4, IcnsTotalSize(images));
  }

  /** File offset of chunk `i`: after the header and the chunks before it. */
  function ChunkOffset(images: seq<IcnsImage>, i: nat): nat
    requires i <= |images|
  {
    IcnsHeaderSize + ChunksSize(images, i)
  }

  /** Chunk `i` of the first `k` chunks sits at `ChunksSize(images, i)`. */
  lemma {:induction false} ChunkAt(images: seq<IcnsImage>, k: nat, i: nat)
    requires i < k <= |images|
    ensures ChunksSize(images, i + 1) <= |Chunks(images, k)|
    ensures Chunks(images, k)[ChunksSize(images, i)..ChunksSize(images, i + 1)] == Chunk(images[i])
  {
    var prev := Chunks(images, k - 1);
    var last := Chunk(images[k - 1]);
    var lo, hi := ChunksSize(images, i), ChunksSize(images, i + 1);
    assert Chunks(images, k) == prev + last;
    if i == k - 1 {
      SliceRight(prev, last, lo, hi);
    } else {
      ChunkAt(images, k - 1, i);
      ChunksSizeMono(images, i + 1, k - 1);
      SliceLeft(prev, last, lo, hi);
    }
  }

  /**
   * Chunk `i` of the file occupies `ChunkOffset(i) .. ChunkOffset(i + 1)`:
   * the chunks follow one another in input order with nothing between them.
   */
  lemma IcnsFileChunk(images: seq<IcnsImage>, i: nat)
    requires i < |images|
    ensures ChunkOffset(images, i + 1) == ChunkOffset(images, i) + 8 + |images[i].data|
    ensures ChunkOffset(images, i + 1) <= |IcnsFile(images)|
    ensures IcnsFile(images)[ChunkOffset(images, i)..ChunkOffset(images, i + 1)] == Chunk(images[i])
  {
    var hd := Magic + BE32(IcnsTotalSize(images));
    var c := Chunks(images, |images|);
    ChunkAt(images, |images|, i);
    assert IcnsFile(images) == hd + c;
    SliceRight(hd, c, ChunkOffset(images, i), ChunkOffset(images, i + 1));
  }

  // ---------------------------------------------------------------------
  // Reading the chunks back.

  /** A decoded chunk: its four type bytes and its payload. */
  datatype IcnsEntry = IcnsEntry(tag: seq<byte>, data: seq<byte>)

  /**
   * Splits a byte sequence into chunks by their length fields; `None` when
   * a length is below 8 or runs past the end.
   */
  function ParseChunks(s: seq<byte>): (r: Option<seq<IcnsEntry>>)
    decreases |s|
  {
    if |s| == 0 then Some([])
    else if |s| < ChunkHeaderSize then None
    else
      var len := ReadBE32(s, 4);
      if len < ChunkHeaderSize || len > |s| then None
      else match ParseChunks(s[len..])
        case None => None
        case Some(rest) => Some([IcnsEntry(s[..4], s[ChunkHeaderSize..len])] + rest)
  }

  /** Reads an ICNS file: magic, a length field equal to the file length, then chunks. */
  function ParseIcns(file: seq<byte>): Option<seq<IcnsEntry>>
  {
    if |file| < IcnsHeaderSize || file[..4] != Magic || ReadBE32(file, 4) != |file| then None
    else ParseChunks(file[IcnsHeaderSize..])
  }

  /** What the first `k` images should decode to. */
  function Entries(images: seq<IcnsImage>, k: nat): (r: seq<IcnsEntry>)
    requires k <= |images|
    ensures |r| == k
  {
    if k == 0 then [] else Entries(images, k - 1) + [IcnsEntry(TagBytes(images[k - 1].tag), images[k - 1].data)]
  }

  /** A chunk whose length fits its 32-bit field parses back to its tag and payload. */
  lemma ParseOneChunk(img: IcnsImage)
    requires ChunkSize(img) < Two32
    ensures ParseChunks(Chunk(img)) == Some([IcnsEntry(TagBytes(img.tag), img.data)])
  {
    var c := Chunk(img);
    assert c[4..8] == BE32(ChunkSize(img));
    BE32RoundTrip(c, 4, ChunkSize(img));
    Below32(ChunkSize(img));
    var len := ChunkSize(img);
    assert ReadBE32(c, 4) == len;
    assert c[len..] == [];
    assert ParseChunks(c[len..]) == Some([]);
    assert c[..4] == TagBytes(img.tag);
    assert c[ChunkHeaderSize..len] == img.data;
    assert [IcnsEntry(c[..4], c[ChunkHeaderSize..len])] + [] == [IcnsEntry(TagBytes(img.tag), img.data)];
  }

  /** One step of `ParseChunks` on a non-empty input that parses. */
  lemma ParseStep(s: seq<byte>, xs: seq<IcnsEntry>)
    requires |s| > 0 && ParseChunks(s) == Some(xs)
    ensures ChunkHeaderSize <= ReadBE32(s, 4) <= |s|
    ensures ParseChunks(s[ReadBE32(s, 4)..]).Some?
    ensures xs == [IcnsEntry(s[..4], s[ChunkHeaderSize..ReadBE32(s, 4)])] + ParseChunks(s[ReadBE32(s, 4)..]).value
  {
  }

  /** One step of `ParseChunks`, backwards: a valid chunk header in front of a run that parses. */
  lemma ParseStepBack(s: seq<byte>, rest: seq<IcnsEntry>)
    requires ChunkHeaderSize <= |s| && ChunkHeaderSize <= ReadBE32(s, 4) <= |s|
    requires ParseChunks(s[ReadBE32(s, 4)..]) == Some(rest)
    ensures ParseChunks(s) == Some([IcnsEntry(s[..4], s[ChunkHeaderSize..ReadBE32(s, 4)])] + rest)
  {
  }

  /** Bytes before the end of `a` read the same in `a + b`. */
  lemma ReadBE32Prefix(a: seq<byte>, b: seq<byte>, i: nat)
    requires i + 4 <= |a|
    ensures ReadBE32(a + b, i) == ReadBE32(a, i)
  {
  }

  /** Parsing is compositional: two well-formed chunk runs side by side parse to both lists. */
  lemma {:induction false} ParseAppend(a: seq<byte>, b: seq<byte>, xs: seq<IcnsEntry>, ys: seq<IcnsEntry>)
    requires ParseChunks(a) == Some(xs) && ParseChunks(b) == Some(ys)
    ensures ParseChunks(a + b) == Some(xs + ys)
    decreases |a|
  {
    if |a| == 0 {
      assert xs == [];
      assert a + b == b && xs + ys == ys;
    } else {
      ParseStep(a, xs);
      var len := ReadBE32(a, 4);
      var rest := ParseChunks(a[len..]).value;
      var e := IcnsEntry(a[..4], a[ChunkHeaderSize..len]);
      ParseAppend(a[len..], b, rest, ys);
      var ab := a + b;
      ReadBE32Prefix(a, b, 4);
      assert ab[len..] == a[len..] + b;
      ParseStepBack(ab, rest + ys);
      assert ab[..4] == a[..4] && ab[ChunkHeaderSize..len] == a[ChunkHeaderSize..len];
      AppendAssoc([e], rest, ys);
    }
  }

  /** The chunks of the first `k` images parse back to their tags and payloads, in order. */
  lemma {:induction false} ChunksRoundTrip(images: seq<IcnsImage>, k: nat)
    requires k <= |images| && ChunksSize(images, k) < Two32
    ensures ParseChunks(Chunks(images, k)) == Some(Entries(images, k))
  {
    if k > 0 {
      ChunksRoundTrip(images, k - 1);
      ParseOneChunk(images[k - 1]);
      ParseAppend(Chunks(images, k - 1), Chunk(images[k - 1]), Entries(images, k - 1),
                  [IcnsEntry(TagBytes(images[k - 1].tag), images[k - 1].data)]);
    }
  }

  /** A file below 4 GiB parses back to the tag bytes and payload of every image, in input order. */
  lemma IcnsRoundTrip(images: seq<IcnsImage>)
    requires IcnsTotalSize(images) < Two32
    ensures ParseIcns(IcnsFile(images)) == Some(Entries(images, |images|))
  {
    var f := IcnsFile(images);
    IcnsFileHeader(images);
    Below32(|f|);
    ChunksRoundTrip(images, |images|);
    assert f[IcnsHeaderSize..] == Chunks(images, |images|);
    ParseIcnsOf(f, Entries(images, |images|));
  }

  /** A file with the magic and a matching length field parses to its chunks. */
  lemma ParseIcnsOf(file: seq<byte>, entries: seq<IcnsEntry>)
    requires |file| >= IcnsHeaderSize && file[..4] == Magic && ReadBE32(file, 4) == |file|
    requires ParseChunks(file[IcnsHeaderSize..]) == Some(entries)
    ensures ParseIcns(file) == Some(entries)
  {
  }

  /** Entry `i` of `Entries` is image `i`'s tag bytes and payload. */
  lemma {:induction false} EntriesAt(images: seq<IcnsImage>, k: nat, i: nat)
    requires i < k <= |images|
    ensures Entries(images, k)[i] == IcnsEntry(TagBytes(images[i].tag), images[i].data)
  {
    if i < k - 1 {
      EntriesAt(images, k - 1, i);
    }
  }

  // ---------------------------------------------------------------------
  // The size/type table of `imageToICNS`.

  datatype SizeTag = SizeTag(size: nat, tag: string)

  /** The rendered sizes and their chunk types, in the order the chunks are written. */
  const IcnsTable: seq<SizeTag> := [
    SizeTag(16, "icp4"), SizeTag(32, "icp5"), SizeTag(64, "icp6"), SizeTag(128, "ic07"),
    SizeTag(256, "ic08"), SizeTag(512, "ic09"), SizeTag(1024, "ic10")]

  /** `sizes.find(s => s.size === size)`: the first entry of that size. */
  function FindTag(table: seq<SizeTag>, size: nat): (r: Option<string>)
    ensures r.None? <==> forall i :: 0 <= i < |table| ==> table[i].size != size
    ensures r.Some? ==> exists i :: 0 <= i < |table| && table[i].size == size && table[i].tag == r.value
                                    && forall j :: 0 <= j < i ==> table[j].size != size
  {
    if |table| == 0 then None
    else if table[0].size == size then Some(table[0].tag)
    else
      var r := FindTag(table[1..], size);
      assert forall i :: 1 <= i < |table| ==> table[i] == table[1..][i - 1];
      r
  }

  /** The table's sizes strictly increase and its tags are four ASCII characters, all different. */
  lemma IcnsTableWellFormed()
    ensures forall i, j :: 0 <= i < j < |IcnsTable| ==> IcnsTable[i].size < IcnsTable[j].size
    ensures forall i, j :: 0 <= i < j < |IcnsTable| ==> IcnsTable[i].tag != IcnsTable[j].tag
    ensures forall i :: 0 <= i < |IcnsTable| ==> |IcnsTable[i].tag| == 4
    ensures forall i, k :: 0 <= i < |IcnsTable| && 0 <= k < 4 ==> (IcnsTable[i].tag[k] as int) < 128
  {
  }

  /** Looking up a table size finds that size's own tag. */
  lemma FindTableTag(i: nat)
    requires i < |IcnsTable|
    ensures FindTag(IcnsTable, IcnsTable[i].size) == Some(IcnsTable[i].tag)
  {
    IcnsTableWellFormed();
  }

  /**
   * The images `imageToICNS` passes to `createICNSFile`: for each table
   * entry, in table order, the tag found for its size and `encode(size)`,
   * the PNG the canvas produced at that size.
   */
  function TableImages(encode: nat -> seq<byte>, k: nat): (r: seq<IcnsImage>)
    requires k <= |IcnsTable|
    ensures |r| == k
    ensures forall i :: 0 <= i < k ==> r[i] == IcnsImage(IcnsTable[i].tag, encode(IcnsTable[i].size))
  {
    if k == 0 then []
    else
      var size := IcnsTable[k - 1].size;
      FindTableTag(k - 1);
      TableImages(encode, k - 1) + [IcnsImage(FindTag(IcnsTable, size).value, encode(size))]
  }

  /**
   * The ICNS file of `imageToICNS` holds one chunk per table row, in table
   * order (16 icp4, 32 icp5, … 1024 ic10), each with the PNG of that size.
   */
  lemma IcnsTableOrder(encode: nat -> seq<byte>)
    requires IcnsTotalSize(TableImages(encode, |IcnsTable|)) < Two32
    ensures var entries := ParseIcns(IcnsFile(TableImages(encode, |IcnsTable|)));
      entries.Some? && |entries.value| == |IcnsTable|
      && forall i :: 0 <= i < |IcnsTable| ==>
           entries.value[i] == IcnsEntry(TagBytes(IcnsTable[i].tag), encode(IcnsTable[i].size))
  {
    var images := TableImages(encode, |IcnsTable|);
    IcnsRoundTrip(images);
    forall i | 0 <= i < |IcnsTable|
      ensures Entries(images, |images|)[i] == IcnsEntry(TagBytes(IcnsTable[i].tag), encode(IcnsTable[i].size))
    {
      EntriesAt(images, |images|, i);
    }
  }
}
