/**
 * The pure parts of `iconConverter.ts` around the two container builders:
 * the remote-URL test, the rule that turns the `href` of a page's icon link
 * into an absolute URL, and `convertIcon`, which picks the builder for the
 * requested format.
 *
 * Rendering is a browser canvas call that is not modelled: `pixels(size)`
 * stands for the RGBA samples `getImageData` returns for a `size`×`size`
 * canvas, and `png(size)` for the bytes `canvas.toBlob(…, 'image/png')`
 * encodes at that size. The conversion result keeps the blob's bytes and
 * MIME type; the object URL made for it is left out.
 */
module IconConverter {
  import opened Wrappers
  import opened Bytes
  import opened Strings
  import opened IcoFormat
  import opened IcoLayout
  import opened IcnsFormat
  import opened IcnsLayout

  // ---------------------------------------------------------------------
  // URLs.

  /** `isRemoteUrl`: the URL names an `http:` or `https:` resource. */
  predicate IsRemoteUrl(url: string)
  {
    StartsWith(url, "http://") || StartsWith(url, "https://")
  }

  /**
   * The icon `href` found in a page, made absolute against the page's
   * `origin` (`new URL(url).origin`): protocol-relative links get `https:`,
   * root-relative ones the origin, other relative ones the origin and a `/`;
   * anything starting with `http` is kept.
   */
  function ResolveIconHref(href: string, origin: string): string
  {
    if StartsWith(href, "//") then "https:" + href
    else if StartsWith(href, "/") then origin + href
    else if !StartsWith(href, "http") then origin + "/" + href
    else href
  }

  /** A remote URL starts with `http`, so the resolution rule leaves it alone. */
  lemma RemoteHrefUnchanged(href: string, origin: string)
    requires IsRemoteUrl(href)
    ensures StartsWith(href, "http")
    ensures ResolveIconHref(href, origin) == href
  {
    assert href[0] == 'h';
  }

  /** Whatever the case, the link itself is the tail of the resolved URL. */
  lemma ResolvedEndsWithHref(href: string, origin: string)
    ensures EndsWith(ResolveIconHref(href, origin), href)
  {
    if StartsWith(href, "//") {
      EndsWithAppend("https:", href);
    } else if StartsWith(href, "/") {
      EndsWithAppend(origin, href);
    } else if !StartsWith(href, "http") {
      EndsWithAppend(origin + "/", href);
    } else {
      EndsWithAppend("", href);
    }
  }

  /**
   * The only links the rule adds nothing to are those already starting with
   * `http`; every other one gains a non-empty prefix when the origin is
   * non-empty.
   */
  lemma ResolvedUnchangedIff(href: string, origin: string)
    requires |origin| > 0
    ensures ResolveIconHref(href, origin) == href <==> StartsWith(href, "http")
  {
    if StartsWith(href, "//") {
      assert |"https:" + href| > |href|;
      assert href[0] == '/';
    } else if StartsWith(href, "/") {
      assert |origin + href| > |href|;
      assert href[0] == '/';
    } else if !StartsWith(href, "http") {
      assert |origin + "/" + href| > |href|;
    }
  }

  /**
   * With the origin of an `http(s)` page, the resolved URL starts with
   * `http` again, so resolving a second time changes nothing.
   */
  lemma ResolvedIsHttp(href: string, origin: string)
    requires StartsWith(origin, "http")
    ensures StartsWith(ResolveIconHref(href, origin), "http")
    ensures ResolveIconHref(ResolveIconHref(href, origin), origin) == ResolveIconHref(href, origin)
  {
    var r := ResolveIconHref(href, origin);
    if StartsWith(href, "//") {
      assert r[..4] == "http";
    } else if StartsWith(href, "/") {
      StartsWithAppend("http", origin, href);
    } else if !StartsWith(href, "http") {
      StartsWithAppend("http", origin, "/" + href);
      assert r == origin + ("/" + href);
    }
    assert r[0] == 'h';
  }

  // ---------------------------------------------------------------------
  // The builders behind `convertIcon`.

  /** What a conversion hands back: the blob's bytes, its MIME type and the format. */
  datatype ConversionResult = ConversionResult(format: string, mime: string, data: seq<byte>)

  /** `imageToPNG`'s default size. */
  const PngSize: nat := 512

  /** The canvases `imageToICO` draws, one square bitmap per entry of `IcoSizes`, in that order. */
  function IcoImages(pixels: nat -> seq<byte>): (r: seq<Bitmap>)
    ensures StandardImages(r)
  {
    seq(|IcoSizes|, i requires 0 <= i < |IcoSizes| => Bitmap(IcoSizes[i], IcoSizes[i], pixels(IcoSizes[i])))
  }

  /** `imageToPNG(url)`: the canvas's PNG at 512×512. */
  function ImageToPng(png: nat -> seq<byte>): ConversionResult
  {
    ConversionResult("png", "image/png", png(PngSize))
  }

  /** `imageToICO(url)`: `createICOFile` over the four rendered bitmaps. */
  function ImageToIco(pixels: nat -> seq<byte>): ConversionResult
  {
    ConversionResult("ico", "image/x-icon", IcoFile(IcoImages(pixels)))
  }

  /** `imageToICNS(url)`: `createICNSFile` over the PNGs of the seven table sizes. */
  function ImageToIcns(png: nat -> seq<byte>): ConversionResult
  {
    ConversionResult("icns", "image/icns", IcnsFile(TableImages(png, |IcnsTable|)))
  }

  /**
   * `convertIcon(url, targetFormat)`: succeeds exactly for `png`, `ico` and
   * `icns`, with a result of the requested format (for `png`, the canvas's
   * 512-pixel PNG as it is); any other name fails with the message naming it.
   */
  function ConvertIcon(targetFormat: string, pixels: nat -> seq<byte>, png: nat -> seq<byte>)
    : (r: Result<ConversionResult, string>)
    ensures r.Ok? <==> targetFormat == "png" || targetFormat == "ico" || targetFormat == "icns"
    ensures r.Ok? ==> r.value.format == targetFormat
    ensures targetFormat == "png" ==> r.value.data == png(512)
    ensures r.Err? ==> r.error == "Unsupported format: " + targetFormat
  {
    match targetFormat
    case "png" => Ok(ImageToPng(png))
    case "ico" => Ok(ImageToIco(pixels))
    case "icns" => Ok(ImageToIcns(png))
    case _ => Err("Unsupported format: " + targetFormat)
  }

  /**
   * An ICO conversion is 276710 bytes long, declares four images, and its
   * directory entry `i` reads back as a `IcoSizes[i]`-square, 32-bit image
   * whose payload is the one built from the canvas at that size.
   */
  lemma ConvertIco(pixels: nat -> seq<byte>, png: nat -> seq<byte>, i: nat)
    requires i < |IcoSizes|
    ensures ConvertIcon("ico", pixels, png).Ok?
    ensures |ConvertIcon("ico", pixels, png).value.data| == 276710
    ensures ReadLE16(ConvertIcon("ico", pixels, png).value.data, 4) == 4
    ensures var e := ReadDirEntry(ConvertIcon("ico", pixels, png).value.data, i).value;
      e.width == IcoSizes[i] % 256 && e.height == IcoSizes[i] % 256 && e.bitCount == 32
      && e.imageOffset + e.bytesInRes <= 276710
      && ConvertIcon("ico", pixels, png).value.data[e.imageOffset..e.imageOffset + e.bytesInRes]
         == Payload(Bitmap(IcoSizes[i], IcoSizes[i], pixels(IcoSizes[i])))
  {
    var images := IcoImages(pixels);
    assert ConvertIcon("ico", pixels, png) == Ok(ImageToIco(pixels));
    StandardIcoSize(images);
    IcoFileHeader(images);
    ReadIcoEntry(images, i);
    EntryLocatesPayload(images, i);
  }

  /**
   * An ICNS conversion parses back into the seven table chunks in table
   * order, each tagged with its type and holding the PNG of its size.
   */
  lemma ConvertIcns(pixels: nat -> seq<byte>, png: nat -> seq<byte>)
    requires IcnsTotalSize(TableImages(png, |IcnsTable|)) < Two32
    ensures ConvertIcon("icns", pixels, png).Ok?
    ensures var entries := ParseIcns(ConvertIcon("icns", pixels, png).value.data);
      entries.Some? && |entries.value| == |IcnsTable|
      && forall i :: 0 <= i < |IcnsTable| ==>
           entries.value[i] == IcnsEntry(TagBytes(IcnsTable[i].tag), png(IcnsTable[i].size))
  {
    assert ConvertIcon("icns", pixels, png) == Ok(ImageToIcns(png));
    IcnsTableOrder(png);
  }
}
