/**
 * The Windows icon (ICO) container that `createICOFile` builds: a 6-byte
 * ICONDIR header, one 16-byte ICONDIRENTRY per image, then per image a
 * 40-byte BITMAPINFOHEADER followed by the pixels as bottom-up BGRA rows.
 *
 * `IcoFile` is the byte layout as a function of the bitmaps; the method
 * `CreateIcoFile` fills an array through a moving cursor the way the source
 * does and is proved to produce exactly `IcoFile`. The lemmas state the
 * layout facts about `IcoFile` and connect it to a directory reader and a
 * pixel decoder.
 */
module IcoFormat {
  import opened Bytes

  /** A canvas read back with `getImageData`: row-major, top-down RGBA samples. */
  datatype Bitmap = Bitmap(width: nat, height: nat, rgba: seq<byte>)

  /** What `getImageData` always delivers: four bytes for each pixel. */
  predicate WellFormed(img: Bitmap)
  {
    |img.rgba| == img.width * img.height * 4
  }

  /** The square sizes `imageToICO` renders, in this order. */
  const IcoSizes: seq<nat> := [16, 32, 48, 256]

  const HeaderSize: nat := 6
  const DirEntrySize: nat := 16
  const InfoHeaderSize: nat := 40

  /**
   * `img.data[i]`: an index past the end reads `undefined`, which a
   * `Uint8Array` store turns into 0.
   */
  function At(s: seq<byte>, i: nat): byte
  {
    if i < |s| then s[i] else 0
  }

  /** Bytes of colour data of one image, `width * height * 4`. */
  function PixelDataSize(img: Bitmap): nat
  {
    img.width * img.height * 4
  }

  /** `imageSizes[i]`: info header plus colour data; no AND mask is counted. */
  function ImageSize(img: Bitmap): nat
  {
    InfoHeaderSize + PixelDataSize(img)
  }

  /** Bytes taken by the payloads of the first `k` images. */
  function SumSizes(images: seq<Bitmap>, k: nat): nat
    requires k <= |images|
  {
    if k == 0 then 0 else SumSizes(images, k - 1) + ImageSize(images[k - 1])
  }

  /** `totalDirSize`: header plus directory, where the first payload starts. */
  function DirSize(n: nat): nat
  {
    HeaderSize + n * DirEntrySize
  }

  /** `totalSize`, the length `createICOFile` allocates. */
  function IcoTotalSize(images: seq<Bitmap>): nat
  {
    DirSize(|images|) + SumSizes(images, |images|)
  }

  /** File offset of payload `i` as `imageOffset` holds it when entry `i` is written. */
  function DataOffset(images: seq<Bitmap>, i: nat): nat
    requires i <= |images|
  {
    DirSize(|images|) + SumSizes(images, i)
  }

  /** The width or height byte of a directory entry: 256 is written as 0, and `setUint8` keeps the low byte. */
  function DimByte(d: nat): (b: byte)
    ensures d < 256 ==> b as int == d
    ensures d == 256 ==> b == 0
  {
    ((if d == 256 then 0 else d) % 256) as byte
  }

  /** ICONDIR: reserved 0, type 1 (icon), image count; each a little-endian u16. */
  function IcoHeader(n: nat): (r: seq<byte>)
    ensures |r| == HeaderSize
  {
    LE16(0) + LE16(1) + LE16(n)
  }

  /** ICONDIRENTRY for an image whose payload starts at `offset`. */
  function DirEntry(img: Bitmap, offset: nat): (r: seq<byte>)
    ensures |r| == DirEntrySize
  {
    [DimByte(img.width), DimByte(img.height), 0, 0] + LE16(1) + LE16(32)
    + LE32(ImageSize(img)) + LE32(offset)
  }

  /**
   * The first `k` directory entries: the first payload right after the
   * directory, each next one right after the previous.
   */
  function Directory(images: seq<Bitmap>, k: nat): (r: seq<byte>)
    requires k <= |images|
    ensures |r| == k * DirEntrySize
  {
    if k == 0 then [] else Directory(images, k - 1) + DirEntry(images[k - 1], DataOffset(images, k - 1))
  }

  /**
   * BITMAPINFOHEADER: size 40, width, height doubled, 1 plane, 32 bits per
   * pixel, no compression, the colour data size, then four zero words.
   */
  function InfoHeader(img: Bitmap): (r: seq<byte>)
    ensures |r| == InfoHeaderSize
  {
    LE32(40) + LE32(img.width) + LE32(img.height * 2) + LE16(1) + LE16(32) + LE32(0)
    + LE32(img.width * img.height * 4) + LE32(0) + LE32(0) + LE32(0) + LE32(0)
  }

  /** Source channel that output channel `k` of a pixel takes: BGRA from RGBA. */
  function Channel(k: nat): (c: nat)
    requires k < 4
    ensures c < 4 && (k == 1 || k == 3 <==> c == k)
  {
    [2, 1, 0, 3][k]
  }

  /** The four bytes written for pixel (x, y): blue, green, red, alpha. */
  function Pixel(img: Bitmap, x: nat, y: nat): (r: seq<byte>)
    ensures |r| == 4
  {
    var i := (y * img.width + x) * 4;
    [At(img.rgba, i + 2), At(img.rgba, i + 1), At(img.rgba, i), At(img.rgba, i + 3)]
  }

  /** The first `n` pixels of row `y`, left to right. */
  function Row(img: Bitmap, y: nat, n: nat): (r: seq<byte>)
    ensures |r| == 4 * n
  {
    if n == 0 then [] else Row(img, y, n - 1) + Pixel(img, n - 1, y)
  }

  /** The `count` bottom rows, last image row first. */
  function BottomUp(img: Bitmap, count: nat): (r: seq<byte>)
    requires count <= img.height
    ensures |r| == count * (4 * img.width)
  {
    if count == 0 then [] else BottomUp(img, count - 1) + Row(img, img.height - count, img.width)
  }

  function PixelData(img: Bitmap): (r: seq<byte>)
    ensures |r| == PixelDataSize(img)
  {
    BottomUp(img, img.height)
  }

  /** One image payload: info header, then colour data, and nothing after it. */
  function Payload(img: Bitmap): (r: seq<byte>)
    ensures |r| == ImageSize(img)
  {
    InfoHeader(img) + PixelData(img)
  }

  /** The payloads of the first `k` images, back to back. */
  function Payloads(images: seq<Bitmap>, k: nat): (r: seq<byte>)
    requires k <= |images|
    ensures |r| == SumSizes(images, k)
  {
    if k == 0 then [] else Payloads(images, k - 1) + Payload(images[k - 1])
  }

  /** The whole file `createICOFile` returns. */
  function IcoFile(images: seq<Bitmap>): (r: seq<byte>)
    ensures |r| == IcoTotalSize(images)
  {
    IcoHeader(|images|) + Directory(images, |images|) + Payloads(images, |images|)
  }

  // ---------------------------------------------------------------------
  // Facts the builder's loops use.

  /** A prefix of the images never needs more payload bytes than all of them. */
  lemma {:induction false} SumSizesMono(images: seq<Bitmap>, i: nat, j: nat)
    requires i <= j <= |images|
    ensures SumSizes(images, i) <= SumSizes(images, j)
  {
    if i < j {
      SumSizesMono(images, i, j - 1);
    }
  }

  /** `p + InfoHeader(img)`, as the cursor accumulates it one store at a time. */
  lemma InfoHeaderAfter(p: seq<byte>, img: Bitmap)
    ensures p + InfoHeader(img)
         == p + LE32(40) + LE32(img.width) + LE32(img.height * 2) + LE16(1) + LE16(32) + LE32(0)
            + LE32(img.width * img.height * 4) + LE32(0) + LE32(0) + LE32(0) + LE32(0)
  {
    var a := LE32(40) + LE32(img.width) + LE32(img.height * 2) + LE16(1) + LE16(32) + LE32(0);
    assert InfoHeader(img) == a + LE32(img.width * img.height * 4) + LE32(0) + LE32(0) + LE32(0) + LE32(0);
  }

  /** `p + DirEntry(img, offset)`, as the cursor accumulates it one store at a time. */
  lemma DirEntryAfter(p: seq<byte>, img: Bitmap, offset: nat)
    ensures p + DirEntry(img, offset)
         == p + [DimByte(img.width)] + [DimByte(img.height)] + [0] + [0] + LE16(1) + LE16(32)
            + LE32(ImageSize(img)) + LE32(offset)
  {
  }

  lemma RowsBound(r: nat, w: nat, h: nat)
    requires r < h
    ensures r * (4 * w) + 4 * w == (r + 1) * (4 * w) <= w * h * 4
  {
    assert (r + 1) * (4 * w) <= h * (4 * w);
  }

  // ---------------------------------------------------------------------
  // The builder.

  /** The four stores for pixel (x, y) of `createICOFile`'s inner loop: B, G, R, A. */
  method WritePixel(buf: array<byte>, off: nat, img: Bitmap, x: nat, y: nat) returns (next: nat)
    requires off + 4 <= buf.Length
    modifies buf
    ensures next == off + 4
    ensures buf[..next] == old(buf[..off]) + Pixel(img, x, y)
    ensures forall j :: next <= j < buf.Length ==> buf[j] == old(buf[j])
  {
    var i := (y * img.width + x) * 4;
    next := PutU8(buf, off, At(img.rgba, i + 2) as int);
    next := PutU8(buf, next, At(img.rgba, i + 1) as int);
    next := PutU8(buf, next, At(img.rgba, i + 0) as int);
    next := PutU8(buf, next, At(img.rgba, i + 3) as int);
  }

  /** The inner loop of `createICOFile`: row `y`, left to right. */
  method WriteRow(buf: array<byte>, off: nat, img: Bitmap, y: nat) returns (next: nat)
    requires off + 4 * img.width <= buf.Length
    modifies buf
    ensures next == off + 4 * img.width
    ensures buf[..next] == old(buf[..off]) + Row(img, y, img.width)
    ensures forall j :: next <= j < buf.Length ==> buf[j] == old(buf[j])
  {
    next := off;
    var x := 0;
    while x < img.width
      invariant 0 <= x <= img.width
      invariant next == off + 4 * x
      invariant buf[..next] == old(buf[..off]) + Row(img, y, x)
      invariant forall j :: next <= j < buf.Length ==> buf[j] == old(buf[j])
    {
      next := WritePixel(buf, next, img, x, y);
      x := x + 1;
    }
  }

  /** After `done` rows the cursor sits `done` rows past `start`, behind the `done` bottom rows. */
  ghost predicate RowsWritten(buf: array<byte>, start: nat, next: nat, img: Bitmap, done: nat, prefix: seq<byte>)
    reads buf
  {
    done <= img.height && start + PixelDataSize(img) <= buf.Length
    && next == start + done * (4 * img.width) && buf[..next] == prefix + BottomUp(img, done)
  }

  /** Row `height - 1 - done` of the outer pixel loop, written after the `done` rows below it. */
  method WriteRowAt(buf: array<byte>, start: nat, off: nat, img: Bitmap, y: nat, ghost done: nat,
                    ghost prefix: seq<byte>)
    returns (next: nat)
    requires y == img.height - 1 - done && RowsWritten(buf, start, off, img, done, prefix)
    modifies buf
    ensures RowsWritten(buf, start, next, img, done + 1, prefix)
    ensures forall j :: next <= j < buf.Length ==> buf[j] == old(buf[j])
  {
    RowsBound(done, img.width, img.height);
    next := WriteRow(buf, off, img, y);
    AppendAssoc(prefix, BottomUp(img, done), Row(img, img.height - (done + 1), img.width));
  }

  /** The outer pixel loop of `createICOFile`: rows from `height - 1` down to 0. */
  method WritePixels(buf: array<byte>, off: nat, img: Bitmap) returns (next: nat)
    requires off + PixelDataSize(img) <= buf.Length
    modifies buf
    ensures next == off + PixelDataSize(img)
    ensures buf[..next] == old(buf[..off]) + PixelData(img)
    ensures forall j :: next <= j < buf.Length ==> buf[j] == old(buf[j])
  {
    ghost var prefix := buf[..off];
    next := off;
    var y: int := img.height - 1;
    ghost var done: nat := 0;
    while y >= 0
      invariant -1 <= y <= img.height - 1 && done == img.height - 1 - y
      invariant RowsWritten(buf, off, next, img, done, prefix)
      invariant forall j :: next <= j < buf.Length ==> buf[j] == old(buf[j])
    {
      next := WriteRowAt(buf, off, next, img, y, done, prefix);
      done := done + 1;
      y := y - 1;
    }
    assert img.height * (4 * img.width) == PixelDataSize(img);
  }

  /** The BITMAPINFOHEADER stores of `createICOFile`, field by field. */
  method WriteInfoHeader(buf: array<byte>, off: nat, img: Bitmap) returns (next: nat)
    requires off + InfoHeaderSize <= buf.Length
    modifies buf
    ensures next == off + InfoHeaderSize
    ensures buf[..next] == old(buf[..off]) + InfoHeader(img)
    ensures forall j :: next <= j < buf.Length ==> buf[j] == old(buf[j])
  {
    InfoHeaderAfter(buf[..off], img);
    next := PutLE32(buf, off, 40);
    next := PutLE32(buf, next, img.width);
    next := PutLE32(buf, next, img.height * 2);
    next := PutLE16(buf, next, 1);
    next := PutLE16(buf, next, 32);
    next := PutLE32(buf, next, 0);
    next := PutLE32(buf, next, img.width * img.height * 4);
    next := PutLE32(buf, next, 0);
    next := PutLE32(buf, next, 0);
    next := PutLE32(buf, next, 0);
    next := PutLE32(buf, next, 0);
  }

  /** The ICONDIRENTRY stores of `createICOFile`, field by field. */
  method WriteDirEntry(buf: array<byte>, off: nat, img: Bitmap, size: nat, imageOffset: nat)
    returns (next: nat)
    requires off + DirEntrySize <= buf.Length
    requires size == ImageSize(img)
    modifies buf
    ensures next == off + DirEntrySize
    ensures buf[..next] == old(buf[..off]) + DirEntry(img, imageOffset)
    ensures forall j :: next <= j < buf.Length ==> buf[j] == old(buf[j])
  {
    DirEntryAfter(buf[..off], img, imageOffset);
    next := PutU8(buf, off, if img.width == 256 then 0 else img.width);
    next := PutU8(buf, next, if img.height == 256 then 0 else img.height);
    next := PutU8(buf, next, 0);
    next := PutU8(buf, next, 0);
    next := PutLE16(buf, next, 1);
    next := PutLE16(buf, next, 32);
    next := PutLE32(buf, next, size);
    next := PutLE32(buf, next, imageOffset);
  }

  /** The three ICONDIR stores at the start of `createICOFile`. */
  method WriteIcoHeader(buf: array<byte>, n: nat) returns (next: nat)
    requires HeaderSize <= buf.Length
    modifies buf
    ensures next == HeaderSize
    ensures buf[..next] == IcoHeader(n)
    ensures forall j :: next <= j < buf.Length ==> buf[j] == old(buf[j])
  {
    next := PutLE16(buf, 0, 0);
    next := PutLE16(buf, next, 1);
    next := PutLE16(buf, next, n);
  }

  /** The `imageSizes` / `totalSize` loop of `createICOFile`. */
  method ComputeSizes(images: seq<Bitmap>) returns (imageSizes: seq<nat>, totalSize: nat)
    ensures |imageSizes| == |images|
    ensures forall j :: 0 <= j < |images| ==> imageSizes[j] == ImageSize(images[j])
    ensures totalSize == IcoTotalSize(images)
  {
    var totalDirSize := HeaderSize + |images| * DirEntrySize;
    totalSize := totalDirSize;
    imageSizes := [];
    var i := 0;
    while i < |images|
      invariant 0 <= i <= |images|
      invariant |imageSizes| == i
      invariant forall j :: 0 <= j < i ==> imageSizes[j] == ImageSize(images[j])
      invariant totalSize == totalDirSize + SumSizes(images, i)
    {
      var size := InfoHeaderSize + images[i].width * images[i].height * 4;
      imageSizes := imageSizes + [size];
      totalSize := totalSize + size;
      i := i + 1;
    }
  }

  /** The directory loop of `createICOFile`, with the running `imageOffset`. */
  method WriteDirectory(buf: array<byte>, off: nat, images: seq<Bitmap>, imageSizes: seq<nat>)
    returns (next: nat)
    requires |imageSizes| == |images|
    requires forall j :: 0 <= j < |images| ==> imageSizes[j] == ImageSize(images[j])
    requires off + |images| * DirEntrySize <= buf.Length
    modifies buf
    ensures next == off + |images| * DirEntrySize
    ensures buf[..next] == old(buf[..off]) + Directory(images, |images|)
    ensures forall j :: next <= j < buf.Length ==> buf[j] == old(buf[j])
  {
    var totalDirSize := HeaderSize + |images| * DirEntrySize;
    var imageOffset := totalDirSize;
    next := off;
    var i := 0;
    while i < |images|
      invariant 0 <= i <= |images|
      invariant next == off + i * DirEntrySize
      invariant imageOffset == DataOffset(images, i)
      invariant buf[..next] == old(buf[..off]) + Directory(images, i)
      invariant forall j :: next <= j < buf.Length ==> buf[j] == old(buf[j])
    {
      next := WriteDirEntry(buf, next, images[i], imageSizes[i], imageOffset);
      imageOffset := imageOffset + imageSizes[i];
      i := i + 1;
    }
  }

  /** One image of the payload loop: its info header, then its pixels. */
  method WritePayload(buf: array<byte>, off: nat, img: Bitmap) returns (next: nat)
    requires off + ImageSize(img) <= buf.Length
    modifies buf
    ensures next == off + ImageSize(img)
    ensures buf[..next] == old(buf[..off]) + Payload(img)
    ensures forall j :: next <= j < buf.Length ==> buf[j] == old(buf[j])
  {
    next := WriteInfoHeader(buf, off, img);
    ghost var withHeader := buf[..next];
    next := WritePixels(buf, next, img);
    assert buf[..next] == withHeader + PixelData(img);
  }

  /** After `i` images the cursor sits `SumSizes(images, i)` past `start`, behind their payloads. */
  ghost predicate PayloadsWritten(buf: array<byte>, start: nat, next: nat, images: seq<Bitmap>, i: nat,
                                  prefix: seq<byte>)
    reads buf
  {
    i <= |images| && next == start + SumSizes(images, i) && start + SumSizes(images, |images|) <= buf.Length
    && SumSizes(images, i) <= SumSizes(images, |images|) && buf[..next] == prefix + Payloads(images, i)
  }

  /** Image `i` of the payload loop, written right after the payloads of images `0..i-1`. */
  method WritePayloadAt(buf: array<byte>, start: nat, off: nat, images: seq<Bitmap>, i: nat, ghost prefix: seq<byte>)
    returns (next: nat)
    requires i < |images| && PayloadsWritten(buf, start, off, images, i, prefix)
    modifies buf
    ensures PayloadsWritten(buf, start, next, images, i + 1, prefix)
    ensures forall j :: next <= j < buf.Length ==> buf[j] == old(buf[j])
  {
    SumSizesMono(images, i + 1, |images|);
    next := WritePayload(buf, off, images[i]);
    AppendAssoc(prefix, Payloads(images, i), Payload(images[i]));
  }

  /** The payload loop of `createICOFile`: info header, then pixels, per image. */
  method WritePayloads(buf: array<byte>, off: nat, images: seq<Bitmap>) returns (next: nat)
    requires off + SumSizes(images, |images|) <= buf.Length
    modifies buf
    ensures next == off + SumSizes(images, |images|)
    ensures buf[..next] == old(buf[..off]) + Payloads(images, |images|)
    ensures forall j :: next <= j < buf.Length ==> buf[j] == old(buf[j])
  {
    ghost var prefix := buf[..off];
    next := off;
    var i := 0;
    SumSizesMono(images, 0, |images|);
    while i < |images|
      invariant PayloadsWritten(buf, off, next, images, i, prefix)
      invariant forall j :: next <= j < buf.Length ==> buf[j] == old(buf[j])
    {
      next := WritePayloadAt(buf, off, next, images, i, prefix);
      i := i + 1;
    }
  }

  /**
   * `createICOFile`: computes the total size, allocates exactly that many
   * bytes and fills them through a cursor; the cursor ends at the end of the
   * buffer and the contents are `IcoFile(images)`.
   */
  method CreateIcoFile(images: seq<Bitmap>) returns (buffer: array<byte>)
    ensures fresh(buffer)
    ensures buffer.Length == IcoTotalSize(images)
    ensures buffer[..] == IcoFile(images)
  {
    var imageSizes, totalSize := ComputeSizes(images);
    buffer := new byte[totalSize];
    var offset := WriteIcoHeader(buffer, |images|);
    offset := WriteDirectory(buffer, offset, images, imageSizes);
    ghost var withDirectory := buffer[..offset];
    offset := WritePayloads(buffer, offset, images);
    assert buffer[..offset] == withDirectory + Payloads(images, |images|);
    assert buffer[..] == buffer[..offset];
  }
}
