/**
 * `workspaceAnalyzer.ts`: what a dropped link or file becomes in the
 * workspace (its type, URL, display name and image format), and which
 * conversion the workspace then chooses for it.
 *
 * The `HEAD` request made for a remote link is not modelled; its outcome
 * is a parameter (`HeadResult`), as are the host name `new URL(file)`
 * parses and the data URL a `FileReader` produces.
 */
module WorkspaceAnalyzer {
  import opened Wrappers
  import opened Bytes
  import opened Strings
  import opened IconConverter

  datatype ItemType = Image | Url | Unknown

  /** The fields of a workspace item the analysis fills in and the strategy reads. */
  datatype AnalyzedItem = AnalyzedItem(itemType: ItemType, url: string, name: string, format: Option<string>)

  /** How the `HEAD` request for a remote link ended: it threw, or it answered with an optional content type. */
  datatype HeadResult = HeadFailed | HeadAnswered(contentType: Option<string>)

  /** A dropped `File`: its name and its MIME type. */
  datatype DroppedFile = DroppedFile(name: string, mimeType: string)

  // ---------------------------------------------------------------------
  // Name helpers.

  /** `s.split('/')[0]`: the text before the first `/`. */
  function FirstSegment(s: string): (r: string)
    ensures |r| <= |s| && r == s[..|r|]
    ensures forall i :: 0 <= i < |r| ==> r[i] != '/'
    ensures |r| < |s| ==> s[|r|] == '/'
  {
    if |s| == 0 || s[0] == '/' then ""
    else [s[0]] + FirstSegment(s[1..])
  }

  /** `s.split('/').pop()`: the text after the last `/`. */
  function LastSegment(s: string): (r: string)
    ensures |r| <= |s| && r == s[|s| - |r|..]
    ensures forall i :: 0 <= i < |r| ==> r[i] != '/'
    ensures |r| < |s| ==> s[|s| - |r| - 1] == '/'
  {
    if |s| == 0 || s[|s| - 1] == '/' then ""
    else LastSegment(s[..|s| - 1]) + [s[|s| - 1]]
  }

  /** `type.split('/')[1]` for a MIME type known to start with `image/`: the subtype. */
  function ImageSubtype(mimeType: string): string
    requires StartsWith(mimeType, "image/")
  {
    FirstSegment(mimeType[6..])
  }

  /**
   * The regular expression `\.[^/.]+$` matches at `k`: a `.` there, at
   * least one character after it, and neither `.` nor `/` among those.
   */
  predicate ExtensionAt(s: string, k: nat)
  {
    k + 1 < |s| && s[k] == '.' && forall m :: k < m < |s| ==> s[m] != '.' && s[m] != '/'
  }

  /**
   * Scans `s[..j]` backwards for the start of the match, knowing that
   * `s[j..]` holds neither `.` nor `/`: the result is the one position
   * below `j` where the expression matches, if there is one.
   */
  function ExtensionStart(s: string, j: nat): (r: Option<nat>)
    requires j <= |s|
    requires forall m :: j <= m < |s| ==> s[m] != '.' && s[m] != '/'
    ensures forall k: nat :: k < j ==> (ExtensionAt(s, k) <==> r == Some(k))
    ensures r.Some? ==> r.value < j
  {
    if j == 0 then None
    else if s[j - 1] == '.' then (if j < |s| then Some(j - 1) else None)
    else if s[j - 1] == '/' then None
    else ExtensionStart(s, j - 1)
  }

  /** `name.replace(/\.[^/.]+$/, '')`: drops a final `.ext` whose `ext` holds no `.` or `/`. */
  function StripExtension(name: string): (r: string)
    ensures |r| <= |name| && r == name[..|r|]
    ensures r == name <==> forall k: nat :: k < |name| ==> !ExtensionAt(name, k)
    ensures r != name ==> ExtensionAt(name, |r|)
  {
    match ExtensionStart(name, |name|)
    case Some(k) => name[..k]
    case None => name
  }

  /** Stripping `base + "." + ext` gives back `base`, for any extension without `.` or `/`. */
  lemma StripAddedExtension(base: string, ext: string)
    requires |ext| > 0 && forall i :: 0 <= i < |ext| ==> ext[i] != '.' && ext[i] != '/'
    ensures StripExtension(base + "." + ext) == base
  {
    var s := base + "." + ext;
    assert ExtensionAt(s, |base|) by {
      forall m | |base| < m < |s| ensures s[m] != '.' && s[m] != '/' {
        assert s[m] == ext[m - |base| - 1];
      }
    }
    assert s[..|base|] == base;
  }

  /** A name with no `.` at all is kept whole. */
  lemma StripWithoutDot(name: string)
    requires forall i :: 0 <= i < |name| ==> name[i] != '.'
    ensures StripExtension(name) == name
  {
    assert forall k: nat :: k < |name| ==> !ExtensionAt(name, k);
  }

  /** The subtype of `image/<sub>`, or of `image/<sub>/<more>`, is `sub` when `sub` holds no `/`. */
  lemma SubtypeOf(sub: string, more: string)
    requires forall i :: 0 <= i < |sub| ==> sub[i] != '/'
    ensures StartsWith("image/" + sub, "image/") && ImageSubtype("image/" + sub) == sub
    ensures StartsWith("image/" + sub + "/" + more, "image/") && ImageSubtype("image/" + sub + "/" + more) == sub
  {
    assert ("image/" + sub)[6..] == sub;
    var t := "image/" + sub + "/" + more;
    assert t[6..] == sub + "/" + more;
    assert (sub + "/" + more)[..|sub|] == sub;
    PrefixBeforeSlash(sub, "/" + more);
    assert sub + "/" + more == sub + ("/" + more);
  }

  /** A text with no `/` is its own first segment, and so is a prefix of one that stops at a `/`. */
  lemma {:induction false} PrefixBeforeSlash(sub: string, rest: string)
    requires forall i :: 0 <= i < |sub| ==> sub[i] != '/'
    requires |rest| == 0 || rest[0] == '/'
    ensures FirstSegment(sub + rest) == sub
    decreases |sub|
  {
    if |sub| > 0 {
      assert (sub + rest)[1..] == sub[1..] + rest;
      PrefixBeforeSlash(sub[1..], rest);
    } else {
      assert sub + rest == rest;
    }
  }

  // ---------------------------------------------------------------------
  // `analyzeDroppedItem`.

  /**
   * A dropped string. A remote link whose `HEAD` answer is an image becomes
   * an image named after its last path segment (or `url-image`) without the
   * extension, with the MIME subtype as format; any other remote link a URL
   * item named after its host; anything else an unknown item.
   */
  function AnalyzeDroppedString(file: string, head: HeadResult, hostname: string): (r: AnalyzedItem)
    ensures r.url == file
    ensures r.itemType == Unknown <==> !IsRemoteUrl(file)
    ensures !IsRemoteUrl(file) ==> r.name == "unknown" && r.format == None
    ensures r.itemType == Url ==> r.name == hostname && r.format == None
    ensures r.itemType == Image <==>
      IsRemoteUrl(file) && head.HeadAnswered? && head.contentType.Some? && StartsWith(head.contentType.value, "image/")
    ensures r.itemType == Image ==>
      r.name == StripExtension(if LastSegment(file) == "" then "url-image" else LastSegment(file))
      && r.format == Some(ImageSubtype(head.contentType.value))
  {
    if IsRemoteUrl(file) then
      match head
      case HeadAnswered(Some(contentType)) =>
        if StartsWith(contentType, "image/") then
          var name := if LastSegment(file) == "" then "url-image" else LastSegment(file);
          AnalyzedItem(Image, file, StripExtension(name), Some(ImageSubtype(contentType)))
        else AnalyzedItem(Url, file, hostname, None)
      case _ => AnalyzedItem(Url, file, hostname, None)
    else AnalyzedItem(Unknown, file, "unknown", None)
  }

  /**
   * A dropped file. A file of an `image/` type becomes an image with the reader's
   * data URL, its name without the extension and its MIME subtype as format;
   * any other file an unknown item with no URL and its own name.
   */
  function AnalyzeDroppedFile(file: DroppedFile, dataUrl: string): (r: AnalyzedItem)
    ensures r.itemType != Url
    ensures r.itemType == Image <==> StartsWith(file.mimeType, "image/")
    ensures r.itemType == Image ==>
      r.url == dataUrl && r.name == StripExtension(file.name) && r.format == Some(ImageSubtype(file.mimeType))
    ensures r.itemType == Unknown ==> r.url == "" && r.name == file.name && r.format == None
  {
    if StartsWith(file.mimeType, "image/") then
      AnalyzedItem(Image, dataUrl, StripExtension(file.name), Some(ImageSubtype(file.mimeType)))
    else AnalyzedItem(Unknown, "", file.name, None)
  }

  /** An image link's name is its last path segment, minus its extension. */
  lemma ImageLinkName(file: string, contentType: string, hostname: string, base: string, ext: string)
    requires IsRemoteUrl(file) && StartsWith(contentType, "image/")
    requires |base| > 0 && |ext| > 0
    requires forall i :: 0 <= i < |base| ==> base[i] != '/'
    requires forall i :: 0 <= i < |ext| ==> ext[i] != '.' && ext[i] != '/'
    requires EndsWith(file, "/" + base + "." + ext)
    ensures AnalyzeDroppedString(file, HeadAnswered(Some(contentType)), hostname).name == base
  {
    var seg := base + "." + ext;
    var tail := "/" + base + "." + ext;
    assert tail == "/" + seg;
    assert file == file[..|file| - |tail|] + tail;
    SegmentAfterSlash(file[..|file| - |tail|], seg);
    StripAddedExtension(base, ext);
  }

  /** The last segment of `pre + "/" + seg` is `seg`, when `seg` holds no `/`. */
  lemma {:induction false} SegmentAfterSlash(pre: string, seg: string)
    requires forall i :: 0 <= i < |seg| ==> seg[i] != '/'
    ensures LastSegment(pre + ("/" + seg)) == seg
    decreases |seg|
  {
    var s := pre + ("/" + seg);
    if |seg| == 0 {
      assert s[|s| - 1] == '/';
    } else {
      var init := seg[..|seg| - 1];
      assert s[..|s| - 1] == pre + ("/" + init);
      SegmentAfterSlash(pre, init);
      assert seg == init + [seg[|seg| - 1]];
    }
  }

  // ---------------------------------------------------------------------
  // `determineConversionStrategy`.

  /**
   * The conversion the workspace starts for an item: a page link becomes a
   * PNG, a PNG image (any letter case) an ICO, every other image a PNG; an
   * unknown item gets none. ICNS is never chosen.
   */
  function DetermineConversionStrategy(item: AnalyzedItem): (r: Option<string>)
    ensures r.None? <==> item.itemType == Unknown
    ensures r == Some("ico") <==> item.itemType == Image && item.format.Some? && ToLower(item.format.value) == "png"
    ensures r.Some? ==> r.value == "png" || r.value == "ico"
  {
    match item.itemType
    case Url => Some("png")
    case Image =>
      var format := if item.format.Some? then Some(ToLower(item.format.value)) else None;
      if format == Some("png") then Some("ico")
      else if format == Some("ico") || format == Some("x-icon") then Some("png")
      else if format == Some("icns") then Some("png")
      else Some("png")
    case Unknown => None
  }

  /** Whatever the strategy picks, `convertIcon` accepts. */
  lemma StrategyIsConvertible(item: AnalyzedItem, pixels: nat -> seq<byte>, png: nat -> seq<byte>)
    requires DetermineConversionStrategy(item).Some?
    ensures ConvertIcon(DetermineConversionStrategy(item).value, pixels, png).Ok?
  {
  }

  /**
   * An image whose MIME subtype is `png` in any letter case, from a link or
   * from a file, is converted to ICO; any other image subtype to PNG.
   */
  lemma PngImagesBecomeIco(file: string, hostname: string, dropped: DroppedFile, dataUrl: string, sub: string)
    requires IsRemoteUrl(file) && dropped.mimeType == "image/" + sub
    requires forall i :: 0 <= i < |sub| ==> sub[i] != '/'
    ensures DetermineConversionStrategy(AnalyzeDroppedString(file, HeadAnswered(Some("image/" + sub)), hostname))
         == if ToLower(sub) == "png" then Some("ico") else Some("png")
    ensures DetermineConversionStrategy(AnalyzeDroppedFile(dropped, dataUrl))
         == if ToLower(sub) == "png" then Some("ico") else Some("png")
  {
    SubtypeOf(sub, "");
  }

  /** A dropped string that is not an `http(s)` link is never converted; a remote link always is. */
  lemma DroppedStringStrategy(file: string, head: HeadResult, hostname: string)
    ensures DetermineConversionStrategy(AnalyzeDroppedString(file, head, hostname)).None? <==> !IsRemoteUrl(file)
  {
  }
}
