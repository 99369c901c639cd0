/**
 * The apply package: a folder `<icon name>-icon-apply`, downloaded as a
 * ZIP, that holds the icon in the platform's format, a script that applies
 * it to the target folders and a README.txt. The scripts and the README are
 * their fixed text (ApplyTemplates) with the timestamp, the icon file name
 * and, in the scripts, the folder list spliced in. Windows doubles every
 * backslash of a target path; macOS and Linux put a backslash before every
 * double quote. The icon file name is spliced in as it is.
 */
module IconApplyPackager {
  import opened Wrappers
  import opened Bytes
  import opened Strings
  import opened FolderLists
  import opened ApplyTemplates
  import opened ScriptGenerator
  import opened IconConverter

  datatype Platform = Windows | MacOS | Linux

  // ---------------------------------------------------------------- lookups

  /** `getRecommendedFormat`. */
  function GetRecommendedFormat(platform: Platform): string
  {
    match platform
    case Windows => "ico"
    case MacOS => "icns"
    case Linux => "png"
  }

  /** `getScriptFilename`. */
  function GetScriptFilename(platform: Platform): string
  {
    match platform
    case Windows => "apply-icon.ps1"
    case MacOS => "apply-icon.command"
    case Linux => "apply-icon.sh"
  }

  /** `getIconFilename`: the icon's name with the platform's format as extension. */
  function GetIconFilename(iconName: string, platform: Platform): string
  {
    iconName + "." + GetRecommendedFormat(platform)
  }

  /** Every platform's recommended format is one `convertIcon` produces. */
  lemma RecommendedFormatConvertible(platform: Platform, pixels: nat -> seq<byte>, png: nat -> seq<byte>)
    ensures ConvertIcon(GetRecommendedFormat(platform), pixels, png).Ok?
    ensures ConvertIcon(GetRecommendedFormat(platform), pixels, png).value.format == GetRecommendedFormat(platform)
  {
  }

  /** The last four characters of an icon file name. */
  lemma IconFilenameEnd(iconName: string, platform: Platform)
    ensures |GetIconFilename(iconName, platform)| >= 4
    ensures GetIconFilename(iconName, platform)[|GetIconFilename(iconName, platform)| - 4..]
         == match platform case Windows => ".ico" case MacOS => "icns" case Linux => ".png"
  {
    var f := GetIconFilename(iconName, platform);
    match platform
    case Windows => assert f == iconName + ".ico";
    case MacOS => assert f == (iconName + ".") + "icns";
    case Linux => assert f == iconName + ".png";
  }

  /** The icon file name determines both the icon's name and the platform. */
  lemma IconFilenameInjective(a: string, p: Platform, b: string, q: Platform)
    ensures GetIconFilename(a, p) == GetIconFilename(b, q) <==> a == b && p == q
  {
    if GetIconFilename(a, p) == GetIconFilename(b, q) {
      IconFilenameEnd(a, p);
      IconFilenameEnd(b, q);
      assert p == q;
      var n := |GetIconFilename(a, p)| - |GetRecommendedFormat(p)| - 1;
      assert a == GetIconFilename(a, p)[..n];
      assert b == GetIconFilename(b, q)[..n];
    }
  }

  // ---------------------------------------------------------------- the Windows script

  /** The Windows header, the timestamp and the helper functions. */
  function WindowsPreamble(texts: ApplyTexts, timestamp: string): string
  {
    texts.windowsHeader + timestamp + texts.windowsHelpers
  }

  /** The icon check between the icon line and the folder list, and the opening of the array. */
  function WindowsListOpening(texts: ApplyTexts): string
  {
    texts.windowsIconCheck + "$rawFolders = @(\n"
  }

  /** Everything of the Windows script before the folder list. */
  function WindowsBeforeList(texts: ApplyTexts, iconFilename: string, timestamp: string): string
  {
    WindowsPreamble(texts, timestamp) + "$iconPath = Join-Path $scriptDir \"" + iconFilename + "\"\n"
    + WindowsListOpening(texts)
  }

  /** Everything of the Windows script after the folder list; it always ends with the pause. */
  function WindowsAfterList(texts: ApplyTexts): string
  {
    "\n)\n" + texts.windowsMain + ReadHostPause + "\n"
  }

  /** `generateWindowsScript`: backslashes doubled, list elements separated by a comma and a newline. */
  function WindowsScript(texts: ApplyTexts, iconFilename: string, targetPaths: seq<string>, timestamp: string): string
  {
    WindowsBeforeList(texts, iconFilename, timestamp) + FolderList(DoubleBackslashes, targetPaths, ",\n")
    + WindowsAfterList(texts)
  }

  // ---------------------------------------------------------------- the macOS script

  function MacOSPreamble(texts: ApplyTexts, timestamp: string): string
  {
    texts.macOSHeader + timestamp + texts.macOSHelpers
  }

  function MacOSListOpening(texts: ApplyTexts): string
  {
    texts.macOSIconCheck + "RAW_FOLDERS=(\n"
  }

  function MacOSBeforeList(texts: ApplyTexts, iconFilename: string, timestamp: string): string
  {
    MacOSPreamble(texts, timestamp) + "ICON_PATH=\"$SCRIPT_DIR/" + iconFilename + "\"\n" + MacOSListOpening(texts)
  }

  function MacOSAfterList(texts: ApplyTexts): string
  {
    "\n)\n" + texts.macOSMain + ReadPause + "\n"
  }

  /** `generateMacScript`: quotes escaped, list elements one per line. */
  function MacOSScript(texts: ApplyTexts, iconFilename: string, targetPaths: seq<string>, timestamp: string): string
  {
    MacOSBeforeList(texts, iconFilename, timestamp) + FolderList(EscapeQuoteMarks, targetPaths, "\n")
    + MacOSAfterList(texts)
  }

  // ---------------------------------------------------------------- the Linux script

  function LinuxPreamble(texts: ApplyTexts, timestamp: string): string
  {
    texts.linuxHeader + timestamp + texts.linuxHelpers
  }

  function LinuxListOpening(texts: ApplyTexts): string
  {
    texts.linuxIconCheck + "RAW_FOLDERS=(\n"
  }

  function LinuxBeforeList(texts: ApplyTexts, iconFilename: string, timestamp: string): string
  {
    LinuxPreamble(texts, timestamp) + "ICON_PATH=\"$SCRIPT_DIR/" + iconFilename + "\"\n" + LinuxListOpening(texts)
  }

  function LinuxAfterList(texts: ApplyTexts): string
  {
    "\n)\n" + texts.linuxMain + ReadPause + "\n"
  }

  /** `generateLinuxScript`: quotes escaped, list elements one per line. */
  function LinuxScript(texts: ApplyTexts, iconFilename: string, targetPaths: seq<string>, timestamp: string): string
  {
    LinuxBeforeList(texts, iconFilename, timestamp) + FolderList(EscapeQuoteMarks, targetPaths, "\n")
    + LinuxAfterList(texts)
  }

  /** The platform's script, as `createApplyPackage` picks it. */
  function PlatformScript(texts: ApplyTexts, platform: Platform, iconFilename: string, targetPaths: seq<string>, timestamp: string): string
  {
    match platform
    case Windows => WindowsScript(texts, iconFilename, targetPaths, timestamp)
    case MacOS => MacOSScript(texts, iconFilename, targetPaths, timestamp)
    case Linux => LinuxScript(texts, iconFilename, targetPaths, timestamp)
  }

  // ---------------------------------------------------------------- what the scripts hold

  /**
   * The Windows script holds target path `i` with every backslash doubled,
   * in its own quoted line of the list, after the paths before it; reading
   * the backslashes back gives the path itself.
   */
  lemma WindowsEmbedsPath(texts: ApplyTexts, iconFilename: string, targetPaths: seq<string>, timestamp: string, i: nat)
    requires i < |targetPaths|
    ensures ElementAt(WindowsScript(texts, iconFilename, targetPaths, timestamp),
                      |WindowsBeforeList(texts, iconFilename, timestamp)| + JoinOffset(QuotedLines(DoubleBackslashes, targetPaths), ",\n", i) + 5,
                      EscapeBackslashes(targetPaths[i]), ",\n", i + 1 == |targetPaths|)
    ensures UnescapeBackslashes(EscapeBackslashes(targetPaths[i])) == Some(targetPaths[i])
  {
    PathListedAt(WindowsScript(texts, iconFilename, targetPaths, timestamp), WindowsBeforeList(texts, iconFilename, timestamp),
                 DoubleBackslashes, targetPaths, ",\n", WindowsAfterList(texts), i, EscapeBackslashes(targetPaths[i]));
    UnescapeEscapeBackslashes(targetPaths[i]);
  }

  /** The macOS script holds target path `i` with every quote escaped, one path per line, in input order. */
  lemma MacOSEmbedsPath(texts: ApplyTexts, iconFilename: string, targetPaths: seq<string>, timestamp: string, i: nat)
    requires i < |targetPaths|
    ensures ElementAt(MacOSScript(texts, iconFilename, targetPaths, timestamp),
                      |MacOSBeforeList(texts, iconFilename, timestamp)| + JoinOffset(QuotedLines(EscapeQuoteMarks, targetPaths), "\n", i) + 5,
                      EscapeQuotes(targetPaths[i]), "\n", i + 1 == |targetPaths|)
    ensures UnescapeQuotes(EscapeQuotes(targetPaths[i])) == Some(targetPaths[i])
  {
    PathListedAt(MacOSScript(texts, iconFilename, targetPaths, timestamp), MacOSBeforeList(texts, iconFilename, timestamp),
                 EscapeQuoteMarks, targetPaths, "\n", MacOSAfterList(texts), i, EscapeQuotes(targetPaths[i]));
    UnescapeEscapeQuotes(targetPaths[i]);
  }

  /** The Linux script holds target path `i` with every quote escaped, one path per line, in input order. */
  lemma LinuxEmbedsPath(texts: ApplyTexts, iconFilename: string, targetPaths: seq<string>, timestamp: string, i: nat)
    requires i < |targetPaths|
    ensures ElementAt(LinuxScript(texts, iconFilename, targetPaths, timestamp),
                      |LinuxBeforeList(texts, iconFilename, timestamp)| + JoinOffset(QuotedLines(EscapeQuoteMarks, targetPaths), "\n", i) + 5,
                      EscapeQuotes(targetPaths[i]), "\n", i + 1 == |targetPaths|)
    ensures UnescapeQuotes(EscapeQuotes(targetPaths[i])) == Some(targetPaths[i])
  {
    PathListedAt(LinuxScript(texts, iconFilename, targetPaths, timestamp), LinuxBeforeList(texts, iconFilename, timestamp),
                 EscapeQuoteMarks, targetPaths, "\n", LinuxAfterList(texts), i, EscapeQuotes(targetPaths[i]));
    UnescapeEscapeQuotes(targetPaths[i]);
  }

  /** The Windows script looks for the icon next to itself, under the icon file name as given. */
  lemma WindowsEmbedsIcon(texts: ApplyTexts, iconFilename: string, targetPaths: seq<string>, timestamp: string)
    ensures LineAt(WindowsScript(texts, iconFilename, targetPaths, timestamp), |WindowsPreamble(texts, timestamp)|,
                   "$iconPath = Join-Path $scriptDir \"", iconFilename, "\"\n")
  {
    LineInScript(WindowsPreamble(texts, timestamp), "$iconPath = Join-Path $scriptDir \"", iconFilename, "\"\n",
                 WindowsListOpening(texts), FolderList(DoubleBackslashes, targetPaths, ",\n"), WindowsAfterList(texts));
  }

  /** The macOS script looks for the icon in its own directory, under the icon file name as given. */
  lemma MacOSEmbedsIcon(texts: ApplyTexts, iconFilename: string, targetPaths: seq<string>, timestamp: string)
    ensures LineAt(MacOSScript(texts, iconFilename, targetPaths, timestamp), |MacOSPreamble(texts, timestamp)|,
                   "ICON_PATH=\"$SCRIPT_DIR/", iconFilename, "\"\n")
  {
    LineInScript(MacOSPreamble(texts, timestamp), "ICON_PATH=\"$SCRIPT_DIR/", iconFilename, "\"\n",
                 MacOSListOpening(texts), FolderList(EscapeQuoteMarks, targetPaths, "\n"), MacOSAfterList(texts));
  }

  /** The Linux script looks for the icon in its own directory, under the icon file name as given. */
  lemma LinuxEmbedsIcon(texts: ApplyTexts, iconFilename: string, targetPaths: seq<string>, timestamp: string)
    ensures LineAt(LinuxScript(texts, iconFilename, targetPaths, timestamp), |LinuxPreamble(texts, timestamp)|,
                   "ICON_PATH=\"$SCRIPT_DIR/", iconFilename, "\"\n")
  {
    LineInScript(LinuxPreamble(texts, timestamp), "ICON_PATH=\"$SCRIPT_DIR/", iconFilename, "\"\n",
                 LinuxListOpening(texts), FolderList(EscapeQuoteMarks, targetPaths, "\n"), LinuxAfterList(texts));
  }

  /** Every apply script ends with its pause line, so the window stays open. */
  lemma ApplyScriptsEndWithPause(texts: ApplyTexts, iconFilename: string, targetPaths: seq<string>, timestamp: string)
    ensures EndsWith(WindowsScript(texts, iconFilename, targetPaths, timestamp), ReadHostPause + "\n")
    ensures EndsWith(MacOSScript(texts, iconFilename, targetPaths, timestamp), ReadPause + "\n")
    ensures EndsWith(LinuxScript(texts, iconFilename, targetPaths, timestamp), ReadPause + "\n")
  {
    var w := WindowsBeforeList(texts, iconFilename, timestamp) + FolderList(DoubleBackslashes, targetPaths, ",\n") + "\n)\n" + texts.windowsMain;
    assert WindowsScript(texts, iconFilename, targetPaths, timestamp) == w + (ReadHostPause + "\n");
    EndsWithAppend(w, ReadHostPause + "\n");
    var m := MacOSBeforeList(texts, iconFilename, timestamp) + FolderList(EscapeQuoteMarks, targetPaths, "\n") + "\n)\n" + texts.macOSMain;
    assert MacOSScript(texts, iconFilename, targetPaths, timestamp) == m + (ReadPause + "\n");
    EndsWithAppend(m, ReadPause + "\n");
    var l := LinuxBeforeList(texts, iconFilename, timestamp) + FolderList(EscapeQuoteMarks, targetPaths, "\n") + "\n)\n" + texts.linuxMain;
    assert LinuxScript(texts, iconFilename, targetPaths, timestamp) == l + (ReadPause + "\n");
    EndsWithAppend(l, ReadPause + "\n");
  }

  // ---------------------------------------------------------------- README.txt

  /** The platform's instructions up to the icon file name, and after it. */
  function ReadmeSteps(texts: ApplyTexts, platform: Platform): string
  {
    match platform
    case Windows => texts.readmeWindowsSteps
    case MacOS => texts.readmeMacOSSteps
    case Linux => texts.readmeLinuxSteps
  }

  function ReadmeRest(texts: ApplyTexts, platform: Platform): string
  {
    match platform
    case Windows => texts.readmeWindowsRest
    case MacOS => texts.readmeMacOSRest
    case Linux => texts.readmeLinuxRest
  }

  const ReadmeFooter: string := "\n\n---\n由 Icon Changer 自動生成\n"

  /** `generateReadme`: the banner, the platform's instructions naming the icon file, and the generation note. */
  function Readme(texts: ApplyTexts, platform: Platform, iconFilename: string, timestamp: string): string
  {
    texts.readmeBanner + ReadmeSteps(texts, platform) + iconFilename + ReadmeRest(texts, platform)
    + ReadmeFooter + timestamp + "\n"
  }

  /** The README names the icon file right after the platform's opening steps, and ends with the timestamp line. */
  lemma ReadmeNamesIcon(texts: ApplyTexts, platform: Platform, iconFilename: string, timestamp: string)
    ensures TextAt(Readme(texts, platform, iconFilename, timestamp), |texts.readmeBanner + ReadmeSteps(texts, platform)|, iconFilename)
    ensures EndsWith(Readme(texts, platform, iconFilename, timestamp), timestamp + "\n")
  {
    var a := texts.readmeBanner + ReadmeSteps(texts, platform);
    var b := ReadmeRest(texts, platform) + ReadmeFooter + timestamp + "\n";
    assert Readme(texts, platform, iconFilename, timestamp) == a + iconFilename + b;
    TextInMiddle(a, iconFilename, b, 0, iconFilename);
    var c := texts.readmeBanner + ReadmeSteps(texts, platform) + iconFilename + ReadmeRest(texts, platform) + ReadmeFooter;
    assert Readme(texts, platform, iconFilename, timestamp) == c + (timestamp + "\n");
    EndsWithAppend(c, timestamp + "\n");
  }

  // ---------------------------------------------------------------- the package

  datatype FileContent = Binary(bytes: seq<byte>) | Text(text: string)

  datatype PackageFile = PackageFile(name: string, content: FileContent)

  /** The ZIP `createApplyPackage` builds: one folder with its files, and the name it is downloaded under. */
  datatype ApplyPackage = ApplyPackage(folderName: string, files: seq<PackageFile>, downloadName: string)

  predicate NamesDistinct(files: seq<PackageFile>)
  {
    forall i, j :: 0 <= i < j < |files| ==> files[i].name != files[j].name
  }

  /**
   * `createApplyPackage`: the folder `<icon name>-icon-apply` holding the
   * icon blob under its platform file name, the platform's script and the
   * README; the ZIP is saved as the folder's name plus `.zip`. The script
   * and the README each read the clock, so each gets a timestamp of its own.
   */
  function CreateApplyPackage(texts: ApplyTexts, iconBlob: seq<byte>, iconName: string, targetPaths: seq<string>,
                              platform: Platform, scriptTime: string, readmeTime: string): (r: ApplyPackage)
    ensures r.folderName == iconName + "-icon-apply"
    ensures r.downloadName == r.folderName + ".zip"
    ensures |r.files| == 3 && NamesDistinct(r.files)
    ensures r.files[0] == PackageFile(GetIconFilename(iconName, platform), Binary(iconBlob))
  {
    var iconFilename := GetIconFilename(iconName, platform);
    var files := [PackageFile(iconFilename, Binary(iconBlob)),
                  PackageFile(GetScriptFilename(platform), Text(PlatformScript(texts, platform, iconFilename, targetPaths, scriptTime))),
                  PackageFile("README.txt", Text(Readme(texts, platform, iconFilename, readmeTime)))];
    EntryNamesDistinct(iconName, platform);
    ApplyPackage(iconName + "-icon-apply", files, iconName + "-icon-apply" + ".zip")
  }

  /**
   * The three entry names never collide, whatever the icon is called: they
   * end in different characters (the icon format's last letter, the
   * script's, and the `t` of README.txt).
   */
  lemma EntryNamesDistinct(iconName: string, platform: Platform)
    ensures GetIconFilename(iconName, platform) != GetScriptFilename(platform)
    ensures GetIconFilename(iconName, platform) != "README.txt"
    ensures GetScriptFilename(platform) != "README.txt"
  {
    var f := GetIconFilename(iconName, platform);
    IconFilenameEnd(iconName, platform);
    assert f[|f| - 1] != 't';
    var s := GetScriptFilename(platform);
    assert s[|s| - 1] != f[|f| - 1];
  }

  /** The script in the package is the platform's script, and it looks for the icon file the package holds. */
  lemma PackageScriptFindsIcon(texts: ApplyTexts, iconBlob: seq<byte>, iconName: string, targetPaths: seq<string>,
                               platform: Platform, scriptTime: string, readmeTime: string)
    ensures var pkg := CreateApplyPackage(texts, iconBlob, iconName, targetPaths, platform, scriptTime, readmeTime);
      pkg.files[1] == PackageFile(GetScriptFilename(platform),
                                  Text(PlatformScript(texts, platform, pkg.files[0].name, targetPaths, scriptTime)))
      && pkg.files[2] == PackageFile("README.txt", Text(Readme(texts, platform, pkg.files[0].name, readmeTime)))
  {
  }
}
