# Icon Hero core, modelled in Dafny

Icon Hero is a browser tool that turns dropped images, links and files into
application icons. It then packages each icon with a script that applies it
as the icon of chosen folders on Windows, macOS or Linux. This project models
the core of that pipeline and proves properties of the model:

- **Icon containers** (`iconConverter.ts`):
  - the ICO builder, with its 6-byte header, its 16-byte directory entries
    (where 256 is stored as 0) and its `BITMAPINFOHEADER` payloads of bottom-up
    BGRA rows;
  - the ICNS builder, with its `icns` magic, its big-endian total length and one
    `tag, length, PNG` chunk per size;
  - the remote-URL test, the icon-link resolution rule and the `convertIcon`
    dispatch.

  Both builders are written as imperative methods over an `array<byte>` with a
  write cursor, as the source writes through a `DataView`. Each is proved to
  produce exactly a byte-sequence function. Readers for both formats are proved
  to recover every field, every chunk and every pixel from those bytes.
- **Workspace analysis** (`workspaceAnalyzer.ts`). This covers:
  - what a dropped string or file becomes: its item type, URL, display name
    (with the `\.[^/.]+$` extension stripped) and format;
  - the conversion strategy chosen for each item.
- **Script generation** (`scriptGenerator.ts`). This covers the PowerShell,
  AppleScript and Bash folder-icon scripts: path escaping, the quoted folder
  list, the icon line, the pause line of the inline mode, and the
  type/extension/instructions switches.
- **Apply packages** (`iconApplyPackager.ts`). This covers the per-platform
  scripts that find the icon next to themselves, the README that names the
  icon, and the three-file package with its folder and zip names.
- **Folder list input** (`FolderPathInput.tsx`). This covers adding a path
  (trimmed; refused when empty, a duplicate or the list is full) and removing
  a path at an index, together with the list invariant both keep.

The fixed template text of the scripts is a datatype parameter
(`ScriptTexts`, `ApplyTexts`). The texts the program ships are in
`ScriptTemplates.SourceTexts` and `ApplyTemplates.SourceTexts`. Every proof
holds for any template text, so it rests only on where the variable parts are
spliced in.

## Model

| member | source | states |
|---|---|---|
| Bytes.LE16RoundTrip | src/lib/iconConverter.ts:175-177 | Reading back a little-endian `setUint16` gives the value modulo 2^16. |
| Bytes.LE32RoundTrip | src/lib/iconConverter.ts:187-188 | Reading back a little-endian `setUint32`/`setInt32` gives the value modulo 2^32. |
| Bytes.BE32RoundTrip | src/lib/iconConverter.ts:281 | Reading back a big-endian `setUint32` gives the value modulo 2^32. |
| Bytes.PutLE16 | src/lib/iconConverter.ts:175 | Writes the two little-endian bytes at the cursor, advances it by 2, and leaves every other byte as it was. |
| Bytes.PutLE32 | src/lib/iconConverter.ts:187 | Writes the four little-endian bytes at the cursor, advances it by 4, and leaves every other byte as it was. |
| Bytes.PutBE32 | src/lib/iconConverter.ts:281 | Writes the four big-endian bytes at the cursor, advances it by 4, and leaves every other byte as it was. |
| Bytes.PutBytes | src/lib/iconConverter.ts:288 | Copies a byte block at the cursor (`Uint8Array.set`), leaving the rest unchanged. |
| IcoFormat.DimByte | src/lib/iconConverter.ts:181-182 | A width or height below 256 is stored as itself; 256 is stored as 0. |
| IcoFormat.Channel | src/lib/iconConverter.ts:207-210 | The RGBA-to-BGRA channel map keeps green and alpha in place and swaps the other two. |
| IcoFormat.IcoFile | src/lib/iconConverter.ts:143-217 | The ICO bytes are header, directory and payloads, exactly `IcoTotalSize` long. |
| IcoFormat.ComputeSizes | src/lib/iconConverter.ts:154-167 | Per-image sizes are 40 + w·h·4, and the total is header + 16 per entry + all payloads. |
| IcoFormat.WriteIcoHeader | src/lib/iconConverter.ts:175-177 | Writes reserved 0, type 1 and the image count, as the ICO header function says. Every byte past the cursor is left as it was. |
| IcoFormat.WriteDirEntry | src/lib/iconConverter.ts:179-190 | Writes exactly one 16-byte directory entry for the image at the given data offset. Every byte past the cursor is left as it was. |
| IcoFormat.WriteDirectory | src/lib/iconConverter.ts:179-190 | Writes all entries in order, each pointing at the running data offset. Every byte past the cursor is left as it was. |
| IcoFormat.WriteInfoHeader | src/lib/iconConverter.ts:193-203 | Writes the 40-byte info header, with the height doubled and the pixel data size. Every byte past the cursor is left as it was. |
| IcoFormat.WritePixel | src/lib/iconConverter.ts:206-210 | Writes one pixel's four bytes in BGRA order. Every byte past the cursor is left as it was. |
| IcoFormat.WriteRow | src/lib/iconConverter.ts:205-211 | Writes one row's pixels left to right (its loop invariant holds the written prefix). Every byte past the cursor is left as it was. |
| IcoFormat.WritePixels | src/lib/iconConverter.ts:204-212 | Writes the rows bottom-up, from the last row to the first. Every byte past the cursor is left as it was. |
| IcoFormat.WritePayload | src/lib/iconConverter.ts:192-213 | Writes one image's info header followed by its pixel data. Every byte past the cursor is left as it was. |
| IcoFormat.WritePayloads | src/lib/iconConverter.ts:192-213 | Writes every image's payload in order, after the directory. Every byte past the cursor is left as it was. |
| IcoFormat.CreateIcoFile | src/lib/iconConverter.ts:143-217 | Allocates a fresh buffer of the total size and fills it with exactly the ICO byte function's output. |
| IcoLayout.StandardIcoSize | src/lib/iconConverter.ts:119 | Four square images of 16, 32, 48 and 256 make a 276710-byte file. |
| IcoLayout.IcoFileHeader | src/lib/iconConverter.ts:175-177 | Reading the file's first three 16-bit words gives 0, 1 and the image count modulo 2^16. |
| IcoLayout.DataOffsetsContiguous | src/lib/iconConverter.ts:178-190 | Payload offsets start right after the directory, grow by each image's size, and end at the file size. |
| IcoLayout.IcoFileEntry | src/lib/iconConverter.ts:179-190 | Directory entry `i` sits at 6 + 16·i and is the entry for image `i` at its data offset. |
| IcoLayout.IcoFilePayload | src/lib/iconConverter.ts:192-213 | Image `i`'s payload occupies exactly the bytes between its data offset and the next one. |
| IcoLayout.DirEntryRoundTrip | src/lib/iconConverter.ts:179-190 | Decoding an entry gives the encoded width and height, 0, 0, planes 1, 32 bits, the size and the offset (modulo 2^32). |
| IcoLayout.ReadIcoEntry | src/lib/iconConverter.ts:179-190 | Reading entry `i` of a built file gives image `i`'s fields. |
| IcoLayout.EntryLocatesPayload | src/lib/iconConverter.ts:178-213 | The offset and size read from entry `i` select exactly image `i`'s payload, when the file is below 4 GiB. |
| IcoLayout.InfoHeaderRoundTrip | src/lib/iconConverter.ts:193-203 | Decoding the info header gives 40, the width, twice the height, 1, 32, no compression, the data size and 16 zero bytes. |
| IcoLayout.ReadPayloadInfo | src/lib/iconConverter.ts:192-203 | Every payload starts with that info header. |
| IcoLayout.ChannelInvolution | src/lib/iconConverter.ts:207-210 | Applying the channel map twice gives back the original channel. |
| IcoLayout.PixelDataAt | src/lib/iconConverter.ts:204-212 | The output byte for pixel (x, y), channel k holds the source sample at row y, column x, channel `Channel(k)`, with the rows stored bottom-up. |
| IcoLayout.PayloadPixel | src/lib/iconConverter.ts:192-213 | The same mapping, shifted past the 40-byte info header inside the payload. |
| IcoLayout.DecodePixelData | src/lib/iconConverter.ts:204-212 | Decoding the bottom-up BGRA data of a well-formed bitmap gives back its RGBA samples. |
| IcoLayout.DecodeSample | src/lib/iconConverter.ts:204-212 | Every RGBA sample is recovered at its own index. |
| IcnsFormat.TagBytes | src/lib/iconConverter.ts:284-286 | A type tag is written as four bytes: a character's code where it fits, and 0 past the tag's end. |
| IcnsFormat.IcnsFile | src/lib/iconConverter.ts:263-293 | The ICNS bytes are the magic, the big-endian total size and the chunks, exactly `IcnsTotalSize` long. |
| IcnsFormat.ComputeIcnsSize | src/lib/iconConverter.ts:264-269 | The total is 8 plus 8 + data length for each image. |
| IcnsFormat.WriteIcnsHeader | src/lib/iconConverter.ts:275-281 | Writes `icns` and the big-endian total size. Every byte past the cursor is left as it was. |
| IcnsFormat.WriteTag | src/lib/iconConverter.ts:284-286 | Writes the four tag bytes at the cursor. Every byte past the cursor is left as it was. |
| IcnsFormat.WriteChunk | src/lib/iconConverter.ts:283-290 | Writes one chunk: tag, big-endian 8 + length, then the data. Every byte past the cursor is left as it was. |
| IcnsFormat.WriteChunks | src/lib/iconConverter.ts:283-290 | Writes every chunk in order. Every byte past the cursor is left as it was. |
| IcnsFormat.CreateIcnsFile | src/lib/iconConverter.ts:263-293 | Allocates a fresh buffer of the total size and fills it with exactly the ICNS byte function's output. |
| IcnsLayout.IcnsFileHeader | src/lib/iconConverter.ts:275-281 | The file starts with `icns`, and its big-endian length field reads back as the file's own length (modulo 2^32). |
| IcnsLayout.IcnsFileChunk | src/lib/iconConverter.ts:283-290 | Chunk `i` occupies the bytes from its offset to its offset plus 8 plus its data length. |
| IcnsLayout.ParseOneChunk | src/lib/iconConverter.ts:283-290 | Parsing one written chunk gives its tag bytes and data. |
| IcnsLayout.ParseAppend | src/lib/iconConverter.ts:283-290 | Parsing two chunk runs laid end to end gives their entries in sequence. |
| IcnsLayout.ChunksRoundTrip | src/lib/iconConverter.ts:283-290 | Parsing the written chunks gives every image's tag and data in order. |
| IcnsLayout.IcnsRoundTrip | src/lib/iconConverter.ts:263-293 | Parsing a built ICNS file gives back every image's tag and data in order, when the file is below 4 GiB. |
| IcnsLayout.FindTag | src/lib/iconConverter.ts:246-248 | `sizes.find` gives the tag of the first entry with that size, or nothing exactly when no entry has it. |
| IcnsLayout.IcnsTableWellFormed | src/lib/iconConverter.ts:220-228 | The table's sizes strictly increase, its tags are distinct, and each is four ASCII characters. |
| IcnsLayout.FindTableTag | src/lib/iconConverter.ts:246-248 | Looking up any table size finds its own tag. |
| IcnsLayout.TableImages | src/lib/iconConverter.ts:230-252 | The rendered images follow the table order, each tagged with its type and holding the PNG at its size. |
| IcnsLayout.IcnsTableOrder | src/lib/iconConverter.ts:219-261 | Parsing the built ICNS gives the seven table entries in table order with their PNGs. |
| IconConverter.RemoteHrefUnchanged | src/lib/iconConverter.ts:9-11 | An `http://`/`https://` URL starts with `http`, so icon-link resolution leaves it unchanged. |
| IconConverter.ResolvedEndsWithHref | src/lib/iconConverter.ts:45-53 | The resolved URL always ends with the link found in the page. |
| IconConverter.ResolvedUnchangedIff | src/lib/iconConverter.ts:45-53 | With a non-empty origin, resolution leaves exactly the links that start with `http` unchanged. |
| IconConverter.ResolvedIsHttp | src/lib/iconConverter.ts:45-53 | Against an `http` origin, the resolved URL starts with `http`, so resolving it again changes nothing. |
| IconConverter.IcoImages | src/lib/iconConverter.ts:118-131 | `imageToICO` renders four square bitmaps of sizes 16, 32, 48 and 256, in that order. |
| IconConverter.ConvertIcon | src/lib/iconConverter.ts:295-306 | Succeeds exactly for `png`, `ico` and `icns`, with that format (the 512-pixel PNG for `png`); otherwise fails with `Unsupported format: <name>`. |
| IconConverter.ConvertIco | src/lib/iconConverter.ts:118-141 | The ICO result is 276710 bytes with four images, and directory entry `i` describes a 32-bit, `IcoSizes[i]`-square image whose offset and size locate that canvas's payload. |
| IconConverter.ConvertIcns | src/lib/iconConverter.ts:219-261 | The ICNS result parses back into the seven table tags with the PNG of each size, in table order. |
| WorkspaceAnalyzer.FirstSegment | src/lib/workspaceAnalyzer.ts:11 | `split('/')[0]`: the longest prefix without `/`. |
| WorkspaceAnalyzer.LastSegment | src/lib/workspaceAnalyzer.ts:12 | `split('/').pop()`: the longest suffix without `/`. |
| WorkspaceAnalyzer.ExtensionStart | src/lib/workspaceAnalyzer.ts:16 | The backward scan finds exactly the one position where `\.[^/.]+$` matches, if any. |
| WorkspaceAnalyzer.StripExtension | src/lib/workspaceAnalyzer.ts:16 | Gives a prefix of the name, which is the whole name exactly when the expression matches nowhere, and otherwise ends right before the match. |
| WorkspaceAnalyzer.StripAddedExtension | src/lib/workspaceAnalyzer.ts:16 | Stripping `base.ext` gives `base`, for every extension without `.` or `/`. |
| WorkspaceAnalyzer.StripWithoutDot | src/lib/workspaceAnalyzer.ts:51 | A name without `.` is kept whole. |
| WorkspaceAnalyzer.AnalyzeDroppedString | src/lib/workspaceAnalyzer.ts:4-38 | A string is unknown exactly when it is not an `http(s)` URL. It is an image exactly when the HEAD request answered with an `image/` content type. Otherwise it is a URL item named after its host. Its URL is the string itself. An image is named after its last path segment (or `url-image` when that is empty) with the extension stripped, and its format is the content type's subtype. |
| WorkspaceAnalyzer.AnalyzeDroppedFile | src/lib/workspaceAnalyzer.ts:40-60 | A file is an image, with the data URL, the stripped name and the MIME subtype as format, exactly when its type starts with `image/`. Otherwise it is unknown, with no URL and its own name. It is never a URL item. |
| WorkspaceAnalyzer.SubtypeOf | src/lib/workspaceAnalyzer.ts:11 | The format of `image/<sub>` or `image/<sub>/<more>` is `sub`, when `sub` holds no `/`. |
| WorkspaceAnalyzer.ImageLinkName | src/lib/workspaceAnalyzer.ts:10-18 | An image link ending in `/base.ext` is named `base`. |
| WorkspaceAnalyzer.DetermineConversionStrategy | src/lib/workspaceAnalyzer.ts:64-86 | No conversion exactly for unknown items. ICO exactly for images whose format is `png` in any case. Every other choice is PNG. |
| WorkspaceAnalyzer.PngImagesBecomeIco | src/lib/workspaceAnalyzer.ts:64-86 | A dropped image link or file of type `image/<sub>` is converted to ICO exactly when `sub` lower-cases to `png`, and to PNG otherwise. |
| WorkspaceAnalyzer.StrategyIsConvertible | src/lib/workspaceAnalyzer.ts:64-86 | Whatever strategy is chosen, `convertIcon` accepts it. |
| WorkspaceAnalyzer.DroppedStringStrategy | src/lib/workspaceAnalyzer.ts:4-38 | A dropped string gets a conversion exactly when it is an `http(s)` URL. |
| Strings.UnescapeEscapeBackslashes | src/lib/scriptGenerator.ts:11-12 | The model's unescaping undoes backslash doubling and gives the original path. |
| Strings.EscapeUnescapeBackslashes | src/lib/scriptGenerator.ts:11-12 | Whatever reads back as a path is that path's escaped form, so the escaping is one-to-one. |
| Strings.EscapeBackslashesCount | src/lib/scriptGenerator.ts:11-12 | Each backslash appears twice in the output, and every other character keeps its count. |
| Strings.EscapeBackslashesKeepsOthers | src/lib/scriptGenerator.ts:11-12 | Removing backslashes from the input and from the output leaves the same text. |
| Strings.EscapeBackslashesNone | src/lib/scriptGenerator.ts:11-12 | A path without backslashes is unchanged. |
| Strings.UnescapeEscapeQuotes | src/lib/scriptGenerator.ts:128-129 | The model's unescaping undoes quote escaping and gives the original path. |
| Strings.EscapeUnescapeQuotes | src/lib/scriptGenerator.ts:128-129 | Whatever reads back as a path is that path's escaped form. |
| Strings.EscapeQuotesGuarded | src/lib/scriptGenerator.ts:128-129 | Every quote in the output has a backslash right before it. |
| Strings.EscapeQuotesCount | src/lib/scriptGenerator.ts:128-129 | One backslash is added per quote, and every other character keeps its count. |
| Strings.EscapeQuotesKeepsOthers | src/lib/scriptGenerator.ts:128-129 | Removing backslashes from the input and from the output leaves the same text. |
| Strings.EscapeQuotesNone | src/lib/scriptGenerator.ts:207-208 | A path without quotes is unchanged, backslashes included. |
| Strings.JoinLength | src/lib/scriptGenerator.ts:51 | A joined list is the items plus one separator per gap. |
| Strings.JoinHas | src/lib/scriptGenerator.ts:51 | Item `i` occurs at its offset in the joined list, followed by a separator unless it is last. |
| Strings.JoinSnoc | src/lib/scriptGenerator.ts:51 | Joining one more item appends a separator and that item. |
| Strings.TrimStart | src/components/FolderPathInput.tsx:38 | Drops the longest leading run of ECMAScript white space. |
| Strings.TrimEnd | src/components/FolderPathInput.tsx:38 | Drops the longest trailing run of ECMAScript white space. |
| Strings.TrimSlice | src/components/FolderPathInput.tsx:38 | The trimmed text is a slice with only white space outside it. |
| Strings.TrimEnds | src/components/FolderPathInput.tsx:38 | The trimmed text neither starts nor ends with white space. |
| Strings.TrimIdempotent | src/components/FolderPathInput.tsx:38 | Trimming twice is trimming once. |
| Strings.TrimEmpty | src/components/FolderPathInput.tsx:39 | The trimmed text is empty exactly when the input is all white space. |
| Strings.ToLowerSpec | src/lib/workspaceAnalyzer.ts:70 | The result has no upper-case ASCII letter: upper-case letters move down by 32 and every other character is kept. |
| Strings.ToLowerIdempotent | src/lib/workspaceAnalyzer.ts:70 | Lower-casing twice is lower-casing once. |
| FolderLists.PathListedAt | src/lib/scriptGenerator.ts:51 | In any script built around a folder list, path `i`, escaped, sits quoted at its own offset, followed by a separator unless it is last. |
| FolderLists.LineInScript | src/lib/scriptGenerator.ts:49 | A line spliced between a preamble and the rest of a script is found at the end of the preamble. |
| ScriptGenerator.GenerateScript | src/lib/scriptGenerator.ts:277-288 | Succeeds exactly for `powershell`, `applescript` and `bash`; otherwise fails with `Unsupported script type: <name>`. |
| ScriptGenerator.SwitchesAgree | src/lib/scriptGenerator.ts:277-314 | A type has a script exactly when it has a real extension, and exactly when it has its own instructions. |
| ScriptGenerator.ExtensionsDistinct | src/lib/scriptGenerator.ts:290-301 | The three script types have distinct extensions. |
| ScriptGenerator.PowerShellEmbedsPath | src/lib/scriptGenerator.ts:10-125 | Each target path appears in the PowerShell list with backslashes doubled. The escaping is injective: the model's unescaping recovers the path. |
| ScriptGenerator.AppleScriptEmbedsPath | src/lib/scriptGenerator.ts:127-204 | Each target path appears in the macOS list with quotes escaped. The escaping is injective: the model's unescaping recovers the path. |
| ScriptGenerator.BashEmbedsPath | src/lib/scriptGenerator.ts:206-275 | Each target path appears in the Bash list with quotes escaped. The escaping is injective: the model's unescaping recovers the path. |
| ScriptGenerator.PowerShellEmbedsIcon | src/lib/scriptGenerator.ts:49 | The `$iconPath` line holds the escaped icon path. The escaping is injective: the model's unescaping recovers the path. |
| ScriptGenerator.AppleScriptEmbedsIcon | src/lib/scriptGenerator.ts:168 | The `ICON_PATH` line holds the escaped icon path. The escaping is injective: the model's unescaping recovers the path. |
| ScriptGenerator.BashEmbedsIcon | src/lib/scriptGenerator.ts:233 | The `ICON_PATH` line holds the escaped icon path. The escaping is injective: the model's unescaping recovers the path. |
| ScriptGenerator.PowerShellVariants | src/lib/scriptGenerator.ts:123 | The inline and file versions differ only in the `Read-Host` pause line, which is added unless inline mode is `true`. |
| ScriptGenerator.PowerShellPauseLine | src/lib/scriptGenerator.ts:123 | The PowerShell script ends with the pause line exactly when it is not in inline mode. |
| ScriptGenerator.ShellScriptsEndWithPause | src/lib/scriptGenerator.ts:202-273 | The macOS and Bash scripts always end with the `read -p` pause. |
| IconApplyPackager.RecommendedFormatConvertible | src/lib/iconApplyPackager.ts:15-21 | Each platform's recommended format is one `convertIcon` accepts. |
| IconApplyPackager.IconFilenameEnd | src/lib/iconApplyPackager.ts:37-40 | The icon file name ends in `.ico`, `.icns` or `.png` for Windows, macOS and Linux. |
| IconApplyPackager.IconFilenameInjective | src/lib/iconApplyPackager.ts:37-40 | Two icon file names are equal exactly when the name and the platform are. |
| IconApplyPackager.WindowsEmbedsPath | src/lib/iconApplyPackager.ts:46-213 | Each target path appears in the Windows list with backslashes doubled. The escaping is injective: the model's unescaping recovers the path. |
| IconApplyPackager.MacOSEmbedsPath | src/lib/iconApplyPackager.ts:219-367 | Each target path appears in the macOS list with quotes escaped. The escaping is injective: the model's unescaping recovers the path. |
| IconApplyPackager.LinuxEmbedsPath | src/lib/iconApplyPackager.ts:373-497 | Each target path appears in the Linux list with quotes escaped. The escaping is injective: the model's unescaping recovers the path. |
| IconApplyPackager.WindowsEmbedsIcon | src/lib/iconApplyPackager.ts:94 | The script finds the icon as the file name joined to its own folder. |
| IconApplyPackager.MacOSEmbedsIcon | src/lib/iconApplyPackager.ts:291 | The script finds the icon as the file name under `$SCRIPT_DIR`. |
| IconApplyPackager.LinuxEmbedsIcon | src/lib/iconApplyPackager.ts:413 | The script finds the icon as the file name under `$SCRIPT_DIR`. |
| IconApplyPackager.ApplyScriptsEndWithPause | src/lib/iconApplyPackager.ts:211-495 | Every apply script ends with its platform's pause line. |
| IconApplyPackager.ReadmeNamesIcon | src/lib/iconApplyPackager.ts:502-553 | The README names the icon file after the banner and steps, and ends with the generation time. |
| IconApplyPackager.CreateApplyPackage | src/lib/iconApplyPackager.ts:558-604 | The folder is `<icon>-icon-apply` and the download is that folder with `.zip`. It holds three files with distinct names, the first being the icon blob under its platform name. |
| IconApplyPackager.EntryNamesDistinct | src/lib/iconApplyPackager.ts:570-591 | The icon, script and README names never clash. |
| IconApplyPackager.PackageScriptFindsIcon | src/lib/iconApplyPackager.ts:570-591 | The packaged script and README refer to the very file name the icon is stored under. |
| FolderPathInput.AddPath | src/components/FolderPathInput.tsx:37-50 | An all-white-space path is refused as empty. A listed trimmed path is refused as a duplicate. A path that would pass `maxPaths` is refused as full. Otherwise the trimmed path is appended. These are tested in that order and the conditions are exact in both directions. |
| FolderPathInput.RemovePath | src/components/FolderPathInput.tsx:60-62 | An index in range removes just that element; any other index changes nothing. |
| FolderPathInput.AddPreservesValid | src/components/FolderPathInput.tsx:37-50 | Adding keeps the list free of duplicates, trimmed, non-empty and within `maxPaths`. |
| FolderPathInput.AddKeepsOthers | src/components/FolderPathInput.tsx:48 | A successful add changes nothing but the new last element. |
| FolderPathInput.AddIgnoresSurroundingSpace | src/components/FolderPathInput.tsx:38 | White space around the typed text makes no difference. |
| FolderPathInput.AddTwiceIsDuplicate | src/components/FolderPathInput.tsx:40-43 | Adding the same text again is refused as a duplicate. |
| FolderPathInput.RemoveUndoesAdd | src/components/FolderPathInput.tsx:48-62 | Removing the path just added restores the list. |
| FolderPathInput.RemovedAt | src/components/FolderPathInput.tsx:60-62 | Element `i` after removal is the old element `i`, or `i + 1` from the removed index on. |
| FolderPathInput.RemovePreservesValid | src/components/FolderPathInput.tsx:60-62 | Removing keeps the list valid. |
| FolderPathInput.RemoveTakesOne | src/components/FolderPathInput.tsx:60-62 | Removing takes exactly one occurrence of that path away (as multisets). |
| FolderPathInput.RemoveDropsPath | src/components/FolderPathInput.tsx:60-62 | In a valid list, the removed path no longer occurs. |

## Left out

- Canvas rendering and PNG encoding are browser calls. `pixels(size)` stands for `getImageData` and `png(size)` for `toBlob`. `loadImage`, `createCanvas`, object URLs and `downloadConvertedIcon` are not modelled.
- `parseImageFromUrl` is not modelled: it fetches a page, parses it with `DOMParser`, loops over icon selectors and falls back to `/favicon.ico`. Only its link-resolution rule is (`ResolveIconHref`, lines 45-53).
- `new URL(...)` is not modelled. The origin and host name are parameters, and the exception it throws on a malformed URL is left out.
- The `HEAD` request in `analyzeDroppedItem` is a parameter (`HeadResult`). The `FileReader` data URL is a parameter too.
- `Promise.all` over the sizes is modelled as an in-order map. Input order is kept, as `Promise.all` keeps it; concurrency is not modelled.
- JSZip archive generation, the download, and the error thrown when `zip.folder` fails (`iconApplyPackager.ts:564-566`) are left out. The package is modelled as its folder name, three entries and download name.
- Timestamps (`new Date().toLocaleString`) are parameters.
- The fixed template text is a parameter (`ScriptTexts`, `ApplyTexts`). The program's texts are kept as constants, and no proof depends on their content.
- Toast messages and the React components around the folder list are left out: rendering, the folder picker and the drag-and-drop handlers. So are the runtime behaviour of the generated scripts and the workspace's other item fields (id, status, preview).
- How the shells read the escaped paths is not modelled; the embedding lemmas prove only that the escaping is injective and that the model's own unescaping recovers each path. PowerShell does not treat `\` as an escape inside `"..."`, so it reads a doubled backslash as two. A double-quoted word in a POSIX shell also consumes `\\`, so a path ending in `\`, or holding `\"`, is not read back as written there.
- `downloadScript` (`scriptGenerator.ts:316`) is a browser download, and `batchDownload.ts` is not part of this model.
- Strings are `seq<char>`, that is, sequences of Unicode scalar values, while JavaScript strings are UTF-16 code units. For text outside the Basic Multilingual Plane the lengths and indices differ. `charCodeAt` in the ICNS tag store (`iconConverter.ts:285`) gives a surrogate half where the model has the whole character. Lone surrogates cannot be represented.
- Strings.ToLower: only ASCII `A`-`Z` are lowered. `toLowerCase` also maps non-ASCII letters, which none of the compared format names contain.
- IcnsFormat.TagBytes: a tag character whose code exceeds 255 is written modulo 256, as the `Uint8Array` element store (`uint8[offset++] = ...charCodeAt(i)`, `iconConverter.ts:285`) converts it; the table's tags are ASCII.
- IcoLayout.EntryLocatesPayload, IcnsLayout.IcnsRoundTrip and IconConverter.ConvertIcns require the file to be smaller than 2^32 bytes. Above that, the 32-bit offset and length fields wrap around, which the encoders model but the readers cannot undo.
- The apply scripts splice `iconFilename` in without escaping, as the source does (`iconApplyPackager.ts:94, 291, 413`). The model keeps that, so the embedding lemmas state the raw name.
