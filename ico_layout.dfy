/**
 * Layout facts about `IcoFile`: where the header, each directory entry and
 * each payload sit, what a reader of the directory and of the info header
 * gets back, where every source sample lands in the colour data, and a
 * decoder that recovers the RGBA samples from it.
 */
module IcoLayout {
  import opened Wrappers
  import opened Bytes
  import opened IcoFormat

  // ---------------------------------------------------------------------
  // Sizes.

  /** The four square bitmaps `imageToICO` hands to `createICOFile`. */
  predicate StandardImages(images: seq<Bitmap>)
  {
    |images| == |IcoSizes|
    && forall i :: 0 <= i < |images| ==> images[i].width == IcoSizes[i] && images[i].height == IcoSizes[i]
  }

  /** The standard 16/32/48/256 icon is 6 + 4·16 + Σ(40 + s·s·4) = 276710 bytes long. */
  lemma StandardIcoSize(images: seq<Bitmap>)
    requires StandardImages(images)
    ensures IcoTotalSize(images) == 276710
    ensures |IcoFile(images)| == 276710
  {
    assert SumSizes(images, 1) == 1064;
    assert SumSizes(images, 2) == 1064 + 4136;
    assert SumSizes(images, 3) == 1064 + 4136 + 9256;
    assert SumSizes(images, 4) == 1064 + 4136 + 9256 + 262184;
  }

  /**
   * The payload offsets: the first one right after the directory, each next
   * one `ImageSize` after the previous, the last one ending the file.
   */
  lemma {:induction false} DataOffsetsContiguous(images: seq<Bitmap>, i: nat)
    requires i < |images|
    ensures DataOffset(images, 0) == HeaderSize + |images| * DirEntrySize
    ensures DataOffset(images, i + 1) == DataOffset(images, i) + ImageSize(images[i])
    ensures DataOffset(images, i) < DataOffset(images, i + 1) <= DataOffset(images, |images|)
    ensures DataOffset(images, |images|) == IcoTotalSize(images) == |IcoFile(images)|
  {
    SumSizesMono(images, i + 1, |images|);
  }

  // ---------------------------------------------------------------------
  // Where things are.

  /** ICONDIR: bytes 0-5 read back as 0, 1 and the image count (as a u16). */
  lemma IcoFileHeader(images: seq<Bitmap>)
    ensures |IcoFile(images)| >= HeaderSize
    ensures IcoFile(images)[..HeaderSize] == IcoHeader(|images|)
    ensures ReadLE16(IcoFile(images), 0) == 0
    ensures ReadLE16(IcoFile(images), 2) == 1
    ensures ReadLE16(IcoFile(images), 4) == |images| % Two16
  {
    var f := IcoFile(images);
    var h := IcoHeader(|images|);
    assert f[..HeaderSize] == h;
    assert f[0..2] == LE16(0) && f[2..4] == LE16(1) && f[4..6] == LE16(|images|);
    LE16RoundTrip(f, 0, 0);
    LE16RoundTrip(f, 2, 1);
    LE16RoundTrip(f, 4, |images|);
  }

  /** Entry `i` of the first `k` directory entries sits at `16 · i`. */
  lemma {:induction false} DirectoryEntryAt(images: seq<Bitmap>, k: nat, i: nat)
    requires i < k <= |images|
    ensures i * DirEntrySize + DirEntrySize <= |Directory(images, k)|
    ensures Directory(images, k)[i * DirEntrySize..i * DirEntrySize + DirEntrySize]
         == DirEntry(images[i], DataOffset(images, i))
  {
    var prev := Directory(images, k - 1);
    var last := DirEntry(images[k - 1], DataOffset(images, k - 1));
    assert Directory(images, k) == prev + last;
    if i == k - 1 {
      SliceRight(prev, last, i * DirEntrySize, i * DirEntrySize + DirEntrySize);
    } else {
      DirectoryEntryAt(images, k - 1, i);
      assert i * DirEntrySize + DirEntrySize <= (k - 1) * DirEntrySize;
      SliceLeft(prev, last, i * DirEntrySize, i * DirEntrySize + DirEntrySize);
    }
  }

  /** The payload of image `i` in the first `k` payloads sits at `SumSizes(images, i)`. */
  lemma {:induction false} PayloadAt(images: seq<Bitmap>, k: nat, i: nat)
    requires i < k <= |images|
    ensures SumSizes(images, i + 1) <= |Payloads(images, k)|
    ensures Payloads(images, k)[SumSizes(images, i)..SumSizes(images, i + 1)] == Payload(images[i])
  {
    var prev := Payloads(images, k - 1);
    var last := Payload(images[k - 1]);
    var lo, hi := SumSizes(images, i), SumSizes(images, i + 1);
    assert Payloads(images, k) == prev + last;
    if i == k - 1 {
      SliceRight(prev, last, lo, hi);
      assert (prev + last)[lo..hi] == last;
    } else {
      PayloadAt(images, k - 1, i);
      SumSizesMono(images, i + 1, k - 1);
      SliceLeft(prev, last, lo, hi);
      assert (prev + last)[lo..hi] == prev[lo..hi] == Payload(images[i]);
    }
  }

  /** Directory entry `i` of the file sits at `6 + 16 · i`. */
  lemma IcoFileEntry(images: seq<Bitmap>, i: nat)
    requires i < |images|
    ensures EntryOffset(i) + DirEntrySize <= |IcoFile(images)|
    ensures IcoFile(images)[EntryOffset(i)..EntryOffset(i) + DirEntrySize]
         == DirEntry(images[i], DataOffset(images, i))
  {
    var h := IcoHeader(|images|);
    var d := Directory(images, |images|);
    var p := Payloads(images, |images|);
    DirectoryEntryAt(images, |images|, i);
    assert IcoFile(images) == h + (d + p);
    SliceLeft(d, p, i * DirEntrySize, i * DirEntrySize + DirEntrySize);
    SliceRight(h, d + p, EntryOffset(i), EntryOffset(i) + DirEntrySize);
  }

  /** Payload `i` of the file occupies `DataOffset(i) .. DataOffset(i + 1)`. */
  lemma IcoFilePayload(images: seq<Bitmap>, i: nat)
    requires i < |images|
    ensures DataOffset(images, i + 1) <= |IcoFile(images)|
    ensures IcoFile(images)[DataOffset(images, i)..DataOffset(images, i + 1)] == Payload(images[i])
  {
    var hd := IcoHeader(|images|) + Directory(images, |images|);
    var p := Payloads(images, |images|);
    PayloadAt(images, |images|, i);
    assert IcoFile(images) == hd + p;
    assert |hd| == DirSize(|images|);
    SliceRight(hd, p, DataOffset(images, i), DataOffset(images, i + 1));
  }

  // ---------------------------------------------------------------------
  // Reading the directory back.

  /** File offset of directory entry `i`. */
  function EntryOffset(i: nat): nat
  {
    HeaderSize + i * DirEntrySize
  }

  /** The eight ICONDIRENTRY fields as an icon reader decodes them. */
  datatype IconDirEntry = IconDirEntry(
    width: nat, height: nat, colorCount: nat, reserved: nat,
    planes: nat, bitCount: nat, bytesInRes: nat, imageOffset: nat)

  /** Decodes the sixteen bytes of one directory entry. */
  function DecodeDirEntry(e: seq<byte>): (r: IconDirEntry)
    requires |e| == DirEntrySize
    ensures r.width < 256 && r.height < 256 && r.bytesInRes < Two32 && r.imageOffset < Two32
  {
    IconDirEntry(e[0] as nat, e[1] as nat, e[2] as nat, e[3] as nat,
                 ReadLE16(e, 4), ReadLE16(e, 6), ReadLE32(e, 8), ReadLE32(e, 12))
  }

  /** Decodes directory entry `i` of an ICO file, or `None` if the file is too short for it. */
  function ReadDirEntry(file: seq<byte>, i: nat): (r: Option<IconDirEntry>)
    ensures r.Some? <==> EntryOffset(i) + DirEntrySize <= |file|
  {
    var o := EntryOffset(i);
    if o + DirEntrySize <= |file| then Some(DecodeDirEntry(file[o..o + DirEntrySize])) else None
  }

  /**
   * A written entry decodes to: the width and height (256 as 0), no
   * palette, reserved 0, one plane, 32 bits per pixel, the payload size
   * and the payload offset, both reduced modulo 2^32 as `setUint32` does.
   */
  lemma DirEntryRoundTrip(img: Bitmap, offset: nat)
    ensures DecodeDirEntry(DirEntry(img, offset))
         == IconDirEntry(DimByte(img.width) as nat, DimByte(img.height) as nat, 0, 0, 1, 32,
                         ImageSize(img) % Two32, offset % Two32)
  {
    EntryFieldsRoundTrip(DimByte(img.width), DimByte(img.height), ImageSize(img), offset);
  }

  lemma EntryFieldsRoundTrip(w: byte, h: byte, size: nat, offset: nat)
    ensures DecodeDirEntry([w, h, 0, 0] + LE16(1) + LE16(32) + LE32(size) + LE32(offset))
         == IconDirEntry(w as nat, h as nat, 0, 0, 1, 32, size % Two32, offset % Two32)
  {
    var e := [w, h, 0, 0] + LE16(1) + LE16(32) + LE32(size) + LE32(offset);
    assert e[4..6] == LE16(1);
    assert e[6..8] == LE16(32);
    assert e[8..12] == LE32(size);
    assert e[12..16] == LE32(offset);
    LE16RoundTrip(e, 4, 1);
    LE16RoundTrip(e, 6, 32);
    LE32RoundTrip(e, 8, size);
    LE32RoundTrip(e, 12, offset);
  }

  /** Entry `i` of the file reads back as the entry `createICOFile` wrote for image `i`. */
  lemma ReadIcoEntry(images: seq<Bitmap>, i: nat)
    requires i < |images|
    ensures ReadDirEntry(IcoFile(images), i)
         == Some(IconDirEntry(DimByte(images[i].width) as nat, DimByte(images[i].height) as nat, 0, 0, 1, 32,
                              ImageSize(images[i]) % Two32, DataOffset(images, i) % Two32))
  {
    IcoFileEntry(images, i);
    DirEntryRoundTrip(images[i], DataOffset(images, i));
  }

  /**
   * When the file is shorter than 4 GiB, the offset and size an entry
   * states locate exactly that image's payload: info header plus pixels.
   */
  lemma EntryLocatesPayload(images: seq<Bitmap>, i: nat)
    requires i < |images| && IcoTotalSize(images) < Two32
    ensures var e := ReadDirEntry(IcoFile(images), i).value;
      e.imageOffset + e.bytesInRes <= |IcoFile(images)|
      && IcoFile(images)[e.imageOffset..e.imageOffset + e.bytesInRes] == Payload(images[i])
  {
    var start, size := DataOffset(images, i), ImageSize(images[i]);
    DataOffsetsContiguous(images, i);
    assert start + size <= IcoTotalSize(images) < Two32;
    Below32(start);
    Below32(size);
    ReadIcoEntry(images, i);
    var e := ReadDirEntry(IcoFile(images), i).value;
    assert e.imageOffset == start && e.bytesInRes == size;
    IcoFilePayload(images, i);
  }

  // ---------------------------------------------------------------------
  // The info header.

  /** The BITMAPINFOHEADER fields as an icon reader decodes them. */
  datatype InfoFields = InfoFields(
    headerSize: nat, width: nat, height: nat, planes: nat, bitCount: nat,
    compression: nat, imageSize: nat, tail: seq<byte>)

  /** Decodes the 40 bytes of a BITMAPINFOHEADER. */
  function DecodeInfoHeader(h: seq<byte>): (r: InfoFields)
    requires |h| == InfoHeaderSize
    ensures |r.tail| == 16
  {
    InfoFields(ReadLE32(h, 0), ReadLE32(h, 4), ReadLE32(h, 8), ReadLE16(h, 12), ReadLE16(h, 14),
               ReadLE32(h, 16), ReadLE32(h, 20), h[24..40])
  }

  /** Decodes the BITMAPINFOHEADER at the start of a payload, or `None` if it is shorter than one. */
  function ReadInfoHeader(p: seq<byte>): (r: Option<InfoFields>)
    ensures r.Some? <==> InfoHeaderSize <= |p|
  {
    if InfoHeaderSize <= |p| then Some(DecodeInfoHeader(p[..InfoHeaderSize])) else None
  }

  /**
   * A written info header decodes to: header size 40, the width, twice the
   * height (no AND mask follows), one plane, 32 bits, no compression,
   * `w·h·4`, and sixteen zero bytes; values reduced modulo 2^32 as the
   * stores do.
   */
  lemma InfoHeaderRoundTrip(img: Bitmap)
    ensures DecodeInfoHeader(InfoHeader(img))
         == InfoFields(40, img.width % Two32, (img.height * 2) % Two32, 1, 32, 0,
                       PixelDataSize(img) % Two32, seq(16, _ => 0))
  {
    var h := InfoHeader(img);
    assert h[0..4] == LE32(40) && h[4..8] == LE32(img.width) && h[8..12] == LE32(img.height * 2);
    assert h[12..14] == LE16(1) && h[14..16] == LE16(32) && h[16..20] == LE32(0);
    assert h[20..24] == LE32(img.width * img.height * 4);
    assert h[24..40] == seq(16, _ => 0);
    LE32RoundTrip(h, 0, 40);
    LE32RoundTrip(h, 4, img.width);
    LE32RoundTrip(h, 8, img.height * 2);
    LE16RoundTrip(h, 12, 1);
    LE16RoundTrip(h, 14, 32);
    LE32RoundTrip(h, 16, 0);
    LE32RoundTrip(h, 20, img.width * img.height * 4);
  }

  /** Every payload of the file starts with the info header of its image. */
  lemma ReadPayloadInfo(img: Bitmap)
    ensures ReadInfoHeader(Payload(img))
         == Some(InfoFields(40, img.width % Two32, (img.height * 2) % Two32, 1, 32, 0,
                            PixelDataSize(img) % Two32, seq(16, _ => 0)))
  {
    assert Payload(img)[..InfoHeaderSize] == InfoHeader(img);
    InfoHeaderRoundTrip(img);
  }

  // ---------------------------------------------------------------------
  // The colour data.

  /** Swapping red and blue twice is the identity. */
  lemma ChannelInvolution(k: nat)
    requires k < 4
    ensures Channel(Channel(k)) == k
  {
  }

  /** `r · m + j` with `r < c` and `j < m` stays below `c · m`. */
  lemma RowOffsetBound(r: nat, c: nat, m: nat, j: nat)
    requires r < c && j < m
    ensures r * m + j < c * m
  {
    assert r * m + j < (r + 1) * m <= c * m;
  }

  /** Byte `4 · x + k` of the first `n` pixels of row `y` is byte `k` of pixel `(x, y)`. */
  lemma {:induction false} RowAt(img: Bitmap, y: nat, n: nat, x: nat, k: nat)
    requires x < n && k < 4
    ensures 4 * x + k < |Row(img, y, n)|
    ensures Row(img, y, n)[4 * x + k] == Pixel(img, x, y)[k]
  {
    if x < n - 1 {
      RowAt(img, y, n - 1, x, k);
    }
  }

  /** Byte `j` of the output row `r` (counted from the bottom) is byte `j` of image row `h - 1 - r`. */
  lemma {:induction false} BottomUpAt(img: Bitmap, c: nat, r: nat, j: nat)
    requires r < c <= img.height && j < 4 * img.width
    ensures r * (4 * img.width) + j < |BottomUp(img, c)|
    ensures BottomUp(img, c)[r * (4 * img.width) + j] == Row(img, img.height - 1 - r, img.width)[j]
  {
    var m := 4 * img.width;
    var prev := BottomUp(img, c - 1);
    assert BottomUp(img, c) == prev + Row(img, img.height - c, img.width);
    RowOffsetBound(r, c, m, j);
    if r < c - 1 {
      BottomUpAt(img, c - 1, r, j);
      RowOffsetBound(r, c - 1, m, j);
    }
  }

  /** Index in the colour data of output channel `k` of source pixel `(x, y)`. */
  function OutIndex(w: nat, h: nat, x: nat, y: nat, k: nat): nat
    requires y < h
  {
    ((h - 1 - y) * w + x) * 4 + k
  }

  /**
   * Bottom-up BGRA: output byte `((h-1-y)·w + x)·4 + k` of the colour data
   * is source sample `(y·w + x)·4 + [2,1,0,3][k]`.
   */
  lemma PixelDataAt(img: Bitmap, x: nat, y: nat, k: nat)
    requires x < img.width && y < img.height && k < 4
    ensures OutIndex(img.width, img.height, x, y, k) < |PixelData(img)|
    ensures PixelData(img)[OutIndex(img.width, img.height, x, y, k)]
         == At(img.rgba, (y * img.width + x) * 4 + Channel(k))
  {
    var w, h := img.width, img.height;
    var r := h - 1 - y;
    BottomUpAt(img, h, r, 4 * x + k);
    RowAt(img, y, w, x, k);
    OutIndexSplit(w, h, x, y, k);
    PixelChannel(img, x, y, k);
  }

  lemma OutIndexSplit(w: nat, h: nat, x: nat, y: nat, k: nat)
    requires y < h
    ensures OutIndex(w, h, x, y, k) == (h - 1 - y) * (4 * w) + (4 * x + k)
  {
  }

  /** Byte `k` of pixel `(x, y)` is sample `Channel(k)` of that pixel. */
  lemma PixelChannel(img: Bitmap, x: nat, y: nat, k: nat)
    requires k < 4
    ensures Pixel(img, x, y)[k] == At(img.rgba, (y * img.width + x) * 4 + Channel(k))
  {
  }

  /** The same inside the payload, 40 bytes further on. */
  lemma PayloadPixel(img: Bitmap, x: nat, y: nat, k: nat)
    requires x < img.width && y < img.height && k < 4
    ensures InfoHeaderSize + OutIndex(img.width, img.height, x, y, k) < |Payload(img)|
    ensures Payload(img)[InfoHeaderSize + OutIndex(img.width, img.height, x, y, k)]
         == At(img.rgba, (y * img.width + x) * 4 + Channel(k))
  {
    PixelDataAt(img, x, y, k);
  }

  /** Where sample `j` of a `w × h` RGBA bitmap lands in the colour data. */
  function EncodedIndex(w: nat, h: nat, j: nat): (e: nat)
    requires j < w * h * 4
    ensures e < w * h * 4
  {
    var x, y, c := (j / 4) % w, (j / 4) / w, j % 4;
    SampleCoordinates(w, h, j);
    OutIndexBound(w, h, x, y, Channel(c));
    OutIndex(w, h, x, y, Channel(c))
  }

  /** Sample `j` is channel `j % 4` of pixel `((j / 4) % w, (j / 4) / w)`. */
  lemma SampleCoordinates(w: nat, h: nat, j: nat)
    requires j < w * h * 4
    ensures w > 0
    ensures (j / 4) % w < w && (j / 4) / w < h
    ensures j == (((j / 4) / w) * w + (j / 4) % w) * 4 + j % 4
  {
    var p := j / 4;
    assert p < w * h;
    if w == 0 {
      assert false;
    }
    QuotientBound(p, w, h);
  }

  lemma MulLe(a: nat, b: nat, m: nat)
    requires a <= b
    ensures a * m <= b * m
  {
  }

  lemma QuotientBound(p: nat, w: nat, h: nat)
    requires w > 0 && p < w * h
    ensures p / w < h
  {
    var q := p / w;
    assert q * w <= p;
    if q >= h {
      MulLe(h, q, w);
      assert false;
    }
  }

  lemma OutIndexBound(w: nat, h: nat, x: nat, y: nat, k: nat)
    requires x < w && y < h && k < 4
    ensures OutIndex(w, h, x, y, k) < w * h * 4
  {
    assert (h - 1 - y) * w + x < (h - 1 - y + 1) * w <= h * w;
  }

  /** Reads the RGBA samples back out of bottom-up BGRA colour data. */
  function DecodePixels(data: seq<byte>, w: nat, h: nat): (r: seq<byte>)
    requires |data| == w * h * 4
    ensures |r| == w * h * 4
  {
    seq(w * h * 4, j requires 0 <= j < w * h * 4 => data[EncodedIndex(w, h, j)])
  }

  /** Decoding the colour data of a bitmap `getImageData` returned gives back its samples. */
  lemma DecodePixelData(img: Bitmap)
    requires WellFormed(img)
    ensures DecodePixels(PixelData(img), img.width, img.height) == img.rgba
  {
    var d := DecodePixels(PixelData(img), img.width, img.height);
    forall j | 0 <= j < |img.rgba|
      ensures d[j] == img.rgba[j]
    {
      DecodeSample(img, j);
    }
  }

  lemma DecodeSample(img: Bitmap, j: nat)
    requires WellFormed(img) && j < |img.rgba|
    ensures DecodePixels(PixelData(img), img.width, img.height)[j] == img.rgba[j]
  {
    var w, h := img.width, img.height;
    var x, y, c := (j / 4) % w, (j / 4) / w, j % 4;
    SampleCoordinates(w, h, j);
    assert EncodedIndex(w, h, j) == OutIndex(w, h, x, y, Channel(c));
    PixelDataAt(img, x, y, Channel(c));
    ChannelInvolution(c);
  }
}
