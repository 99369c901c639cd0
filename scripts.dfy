/**
 * The automation-script generator: one script per platform that applies an
 * icon to a list of folders. A script is its fixed text (ScriptTemplates)
 * with the configuration spliced in at four points: the timestamp, the icon
 * path, the folder list and, for PowerShell, the closing pause. Paths are
 * sanitised before splicing: PowerShell doubles every backslash, the two
 * shell scripts put a backslash before every double quote.
 */
module ScriptGenerator {
  import opened Wrappers
  import opened Strings
  import opened ScriptTemplates
  import opened FolderLists
  import opened Bytes

  /** `ScriptConfig`: `format` is carried but not read by the generators; `isInlineMode` is optional. */
  datatype ScriptConfig = ScriptConfig(format: string, iconPath: string, targetPaths: seq<string>, isInlineMode: Option<bool>)

  /** The copy-and-paste variant: `isInlineMode` present and true. Absent or false means the file variant. */
  predicate IsInline(config: ScriptConfig)
  {
    config.isInlineMode == Some(true)
  }

  // ---------------------------------------------------------------- the three scripts

  const PowerShellSummary: string := "Write-Host \"完成！成功: $successCount / 跳過: $skipCount / 失敗: $failCount\"\n"

  /** The PowerShell pause that keeps the console window open. */
  const ReadHostPause: string := "Read-Host \"按 Enter 鍵關閉\""

  /** The shell pause that keeps the terminal open. */
  const ReadPause: string := "read -p \"按 Enter 鍵關閉\""

  /** The PowerShell closing pause: left out in the copy-and-paste variant. */
  function PowerShellPause(config: ScriptConfig): string
  {
    if IsInline(config) then "" else ReadHostPause
  }

  /** The PowerShell header, the timestamp and the helper functions. */
  function PowerShellPreamble(texts: ScriptTexts, timestamp: string): string
  {
    texts.powerShellHeader + timestamp + texts.powerShellHelpers
  }

  /** Everything of the PowerShell script before the folder list. */
  function PowerShellBeforeList(texts: ScriptTexts, config: ScriptConfig, timestamp: string): string
  {
    PowerShellPreamble(texts, timestamp) + "$iconPath = \"" + EscapeBackslashes(config.iconPath) + "\"\n"
    + "$rawFolders = @(\n"
  }

  /** The end of the array, the per-folder loop and the summary line. */
  function PowerShellTail(texts: ScriptTexts): string
  {
    "\n)\n" + texts.powerShellMain + PowerShellSummary
  }

  /** Everything of the PowerShell script after the folder list. */
  function PowerShellAfterList(texts: ScriptTexts, config: ScriptConfig): string
  {
    PowerShellTail(texts) + PowerShellPause(config) + "\n"
  }

  /** `generateWindowsPowerShell`: backslashes doubled, list elements separated by a comma and a newline. */
  function PowerShellScript(texts: ScriptTexts, config: ScriptConfig, timestamp: string): string
  {
    PowerShellBeforeList(texts, config, timestamp) + FolderList(DoubleBackslashes, config.targetPaths, ",\n")
    + PowerShellAfterList(texts, config)
  }

  /** The macOS header, the timestamp and the helper functions. */
  function AppleScriptPreamble(texts: ScriptTexts, timestamp: string): string
  {
    texts.appleScriptHeader + timestamp + texts.appleScriptHelpers
  }

  /** Everything of the macOS script before the folder list. */
  function AppleScriptBeforeList(texts: ScriptTexts, config: ScriptConfig, timestamp: string): string
  {
    AppleScriptPreamble(texts, timestamp) + "ICON_PATH=\"" + EscapeQuotes(config.iconPath) + "\"\n" + "RAW_FOLDERS=(\n"
  }

  /** Everything of the macOS script after the folder list. */
  function AppleScriptAfterList(texts: ScriptTexts): string
  {
    "\n)\n" + texts.appleScriptMain + ReadPause + "\n"
  }

  /** `generateMacAppleScript`: quotes escaped, list elements one per line. */
  function AppleScriptScript(texts: ScriptTexts, config: ScriptConfig, timestamp: string): string
  {
    AppleScriptBeforeList(texts, config, timestamp) + FolderList(EscapeQuoteMarks, config.targetPaths, "\n")
    + AppleScriptAfterList(texts)
  }

  /** The Linux header, the timestamp and the helper functions. */
  function BashPreamble(texts: ScriptTexts, timestamp: string): string
  {
    texts.bashHeader + timestamp + texts.bashHelpers
  }

  /** Everything of the Linux script before the folder list. */
  function BashBeforeList(texts: ScriptTexts, config: ScriptConfig, timestamp: string): string
  {
    BashPreamble(texts, timestamp) + "ICON_PATH=\"" + EscapeQuotes(config.iconPath) + "\"\n" + "RAW_FOLDERS=(\n"
  }

  /** Everything of the Linux script after the folder list. */
  function BashAfterList(texts: ScriptTexts): string
  {
    "\n)\n" + texts.bashMain + ReadPause + "\n"
  }

  /** `generateLinuxBash`: quotes escaped, list elements one per line. */
  function BashScript(texts: ScriptTexts, config: ScriptConfig, timestamp: string): string
  {
    BashBeforeList(texts, config, timestamp) + FolderList(EscapeQuoteMarks, config.targetPaths, "\n")
    + BashAfterList(texts)
  }

  // ---------------------------------------------------------------- dispatch and lookups

  /**
   * `generateScript(config, type)`: exactly the three script type names
   * select a generator; any other value is rejected with the message the
   * source throws.
   */
  function GenerateScript(texts: ScriptTexts, config: ScriptConfig, scriptType: string, timestamp: string): (r: Result<string, string>)
    ensures r.Ok? <==> scriptType in {"powershell", "applescript", "bash"}
    ensures r.Err? ==> r.error == "Unsupported script type: " + scriptType
  {
    if scriptType == "powershell" then Ok(PowerShellScript(texts, config, timestamp))
    else if scriptType == "applescript" then Ok(AppleScriptScript(texts, config, timestamp))
    else if scriptType == "bash" then Ok(BashScript(texts, config, timestamp))
    else Err("Unsupported script type: " + scriptType)
  }

  /** `getScriptExtension`: ps1, scpt, sh, and txt for anything else. */
  function GetScriptExtension(scriptType: string): string
  {
    if scriptType == "powershell" then "ps1"
    else if scriptType == "applescript" then "scpt"
    else if scriptType == "bash" then "sh"
    else "txt"
  }

  const PowerShellInstructions: string :=
    "1. 右鍵點擊腳本檔案\n2. 選擇「以 PowerShell 執行」\n3. 如遇執行政策限制，請以管理員身分執行 PowerShell 並執行：Set-ExecutionPolicy RemoteSigned"
  const AppleScriptInstructions: string :=
    "1. 雙擊腳本檔案執行\n2. 或使用「腳本編輯器」開啟並執行\n3. 首次執行可能需要授予「Finder」存取權限"
  const BashInstructions: string :=
    "1. 開啟終端機\n2. 執行：chmod +x script.sh\n3. 執行：./script.sh\n4. 需要安裝 gvfs 套件（Ubuntu/Debian：sudo apt install gvfs）"
  const DefaultInstructions: string := "請參考對應作業系統的執行說明"

  /** `getScriptInstructions`: one text per script type, and a general hint for anything else. */
  function GetScriptInstructions(scriptType: string): string
  {
    if scriptType == "powershell" then PowerShellInstructions
    else if scriptType == "applescript" then AppleScriptInstructions
    else if scriptType == "bash" then BashInstructions
    else DefaultInstructions
  }

  /**
   * The three switches agree on what a script type is: a type is accepted by
   * `generateScript` exactly when it has an extension other than txt, and
   * exactly when it has instructions of its own.
   */
  lemma SwitchesAgree(texts: ScriptTexts, config: ScriptConfig, scriptType: string, timestamp: string)
    ensures GenerateScript(texts, config, scriptType, timestamp).Ok? <==> GetScriptExtension(scriptType) != "txt"
    ensures GenerateScript(texts, config, scriptType, timestamp).Ok? <==> GetScriptInstructions(scriptType) != DefaultInstructions
  {
    assert |DefaultInstructions| == 14;
    assert |PowerShellInstructions| > 14 && |AppleScriptInstructions| > 14 && |BashInstructions| > 14;
  }

  /** Distinct script types get distinct extensions, so the saved files never collide. */
  lemma ExtensionsDistinct(a: string, b: string)
    requires a in {"powershell", "applescript", "bash"} && b in {"powershell", "applescript", "bash"}
    ensures GetScriptExtension(a) == GetScriptExtension(b) <==> a == b
  {
  }

  // ---------------------------------------------------------------- embedding of paths

  /**
   * The PowerShell script holds target path `i` with every backslash
   * doubled, in its own quoted line of the list, after the lines of the
   * paths before it; reading the backslashes back gives the path itself.
   */
  lemma PowerShellEmbedsPath(texts: ScriptTexts, config: ScriptConfig, timestamp: string, i: nat)
    requires i < |config.targetPaths|
    ensures ElementAt(PowerShellScript(texts, config, timestamp),
                      |PowerShellBeforeList(texts, config, timestamp)| + JoinOffset(QuotedLines(DoubleBackslashes, config.targetPaths), ",\n", i) + 5,
                      EscapeBackslashes(config.targetPaths[i]), ",\n", i + 1 == |config.targetPaths|)
    ensures UnescapeBackslashes(EscapeBackslashes(config.targetPaths[i])) == Some(config.targetPaths[i])
  {
    PathListedAt(PowerShellScript(texts, config, timestamp), PowerShellBeforeList(texts, config, timestamp), DoubleBackslashes, config.targetPaths, ",\n",
                 PowerShellAfterList(texts, config), i, EscapeBackslashes(config.targetPaths[i]));
    UnescapeEscapeBackslashes(config.targetPaths[i]);
  }

  /** The macOS script holds target path `i` with every quote escaped, one path per line, in input order. */
  lemma AppleScriptEmbedsPath(texts: ScriptTexts, config: ScriptConfig, timestamp: string, i: nat)
    requires i < |config.targetPaths|
    ensures ElementAt(AppleScriptScript(texts, config, timestamp),
                      |AppleScriptBeforeList(texts, config, timestamp)| + JoinOffset(QuotedLines(EscapeQuoteMarks, config.targetPaths), "\n", i) + 5,
                      EscapeQuotes(config.targetPaths[i]), "\n", i + 1 == |config.targetPaths|)
    ensures UnescapeQuotes(EscapeQuotes(config.targetPaths[i])) == Some(config.targetPaths[i])
  {
    PathListedAt(AppleScriptScript(texts, config, timestamp), AppleScriptBeforeList(texts, config, timestamp), EscapeQuoteMarks, config.targetPaths, "\n",
                 AppleScriptAfterList(texts), i, EscapeQuotes(config.targetPaths[i]));
    UnescapeEscapeQuotes(config.targetPaths[i]);
  }

  /** The Linux script holds target path `i` with every quote escaped, one path per line, in input order. */
  lemma BashEmbedsPath(texts: ScriptTexts, config: ScriptConfig, timestamp: string, i: nat)
    requires i < |config.targetPaths|
    ensures ElementAt(BashScript(texts, config, timestamp),
                      |BashBeforeList(texts, config, timestamp)| + JoinOffset(QuotedLines(EscapeQuoteMarks, config.targetPaths), "\n", i) + 5,
                      EscapeQuotes(config.targetPaths[i]), "\n", i + 1 == |config.targetPaths|)
    ensures UnescapeQuotes(EscapeQuotes(config.targetPaths[i])) == Some(config.targetPaths[i])
  {
    PathListedAt(BashScript(texts, config, timestamp), BashBeforeList(texts, config, timestamp), EscapeQuoteMarks, config.targetPaths, "\n",
                 BashAfterList(texts), i, EscapeQuotes(config.targetPaths[i]));
    UnescapeEscapeQuotes(config.targetPaths[i]);
  }

  /** The icon path line of the PowerShell script, with backslashes doubled; it reads back as the icon path. */
  lemma PowerShellEmbedsIcon(texts: ScriptTexts, config: ScriptConfig, timestamp: string)
    ensures LineAt(PowerShellScript(texts, config, timestamp), |PowerShellPreamble(texts, timestamp)|, "$iconPath = \"", EscapeBackslashes(config.iconPath), "\"\n")
    ensures UnescapeBackslashes(EscapeBackslashes(config.iconPath)) == Some(config.iconPath)
  {
    LineInScript(PowerShellPreamble(texts, timestamp), "$iconPath = \"", EscapeBackslashes(config.iconPath), "\"\n",
                 "$rawFolders = @(\n", FolderList(DoubleBackslashes, config.targetPaths, ",\n"), PowerShellAfterList(texts, config));
    UnescapeEscapeBackslashes(config.iconPath);
  }

  /** The icon path line of the macOS script, with quotes escaped; it reads back as the icon path. */
  lemma AppleScriptEmbedsIcon(texts: ScriptTexts, config: ScriptConfig, timestamp: string)
    ensures LineAt(AppleScriptScript(texts, config, timestamp), |AppleScriptPreamble(texts, timestamp)|, "ICON_PATH=\"", EscapeQuotes(config.iconPath), "\"\n")
    ensures UnescapeQuotes(EscapeQuotes(config.iconPath)) == Some(config.iconPath)
  {
    LineInScript(AppleScriptPreamble(texts, timestamp), "ICON_PATH=\"", EscapeQuotes(config.iconPath), "\"\n",
                 "RAW_FOLDERS=(\n", FolderList(EscapeQuoteMarks, config.targetPaths, "\n"), AppleScriptAfterList(texts));
    UnescapeEscapeQuotes(config.iconPath);
  }

  /** The icon path line of the Linux script, with quotes escaped; it reads back as the icon path. */
  lemma BashEmbedsIcon(texts: ScriptTexts, config: ScriptConfig, timestamp: string)
    ensures LineAt(BashScript(texts, config, timestamp), |BashPreamble(texts, timestamp)|, "ICON_PATH=\"", EscapeQuotes(config.iconPath), "\"\n")
    ensures UnescapeQuotes(EscapeQuotes(config.iconPath)) == Some(config.iconPath)
  {
    LineInScript(BashPreamble(texts, timestamp), "ICON_PATH=\"", EscapeQuotes(config.iconPath), "\"\n",
                 "RAW_FOLDERS=(\n", FolderList(EscapeQuoteMarks, config.targetPaths, "\n"), BashAfterList(texts));
    UnescapeEscapeQuotes(config.iconPath);
  }

  // ---------------------------------------------------------------- the closing pause

  /** The PowerShell script up to its closing pause: the same text in every variant. */
  function PowerShellBody(texts: ScriptTexts, config: ScriptConfig, timestamp: string): string
  {
    PowerShellBeforeList(texts, config, timestamp) + FolderList(DoubleBackslashes, config.targetPaths, ",\n")
    + PowerShellTail(texts)
  }

  /** A script is its body, its closing pause and a final newline. */
  lemma PowerShellSplit(texts: ScriptTexts, config: ScriptConfig, timestamp: string)
    ensures PowerShellScript(texts, config, timestamp) == PowerShellBody(texts, config, timestamp) + PowerShellPause(config) + "\n"
  {
    var x := PowerShellBeforeList(texts, config, timestamp) + FolderList(DoubleBackslashes, config.targetPaths, ",\n");
    assert x + (PowerShellTail(texts) + PowerShellPause(config) + "\n")
        == x + PowerShellTail(texts) + PowerShellPause(config) + "\n";
  }

  /**
   * `isInlineMode` changes nothing but the closing pause: the
   * copy-and-paste variant ends right after the summary line, and both
   * other settings add the `Read-Host` line.
   */
  lemma PowerShellVariants(texts: ScriptTexts, config: ScriptConfig, timestamp: string)
    ensures PowerShellScript(texts, config.(isInlineMode := Some(true)), timestamp) == PowerShellBody(texts, config, timestamp) + "\n"
    ensures PowerShellScript(texts, config.(isInlineMode := None), timestamp) == PowerShellBody(texts, config, timestamp) + ReadHostPause + "\n"
    ensures PowerShellScript(texts, config.(isInlineMode := Some(false)), timestamp) == PowerShellBody(texts, config, timestamp) + ReadHostPause + "\n"
  {
    PowerShellSplit(texts, config.(isInlineMode := Some(true)), timestamp);
    PowerShellSplit(texts, config.(isInlineMode := None), timestamp);
    PowerShellSplit(texts, config.(isInlineMode := Some(false)), timestamp);
  }

  /** The PowerShell script ends with the `Read-Host` pause exactly when it is not the copy-and-paste variant. */
  lemma PowerShellPauseLine(texts: ScriptTexts, config: ScriptConfig, timestamp: string)
    ensures EndsWith(PowerShellScript(texts, config, timestamp), ReadHostPause + "\n") <==> !IsInline(config)
  {
    PowerShellSplit(texts, config, timestamp);
    var body := PowerShellBody(texts, config, timestamp);
    if IsInline(config) {
      BodyEndsWithNewline(texts, config, timestamp);
      NotEndsWith(body + "" + "\n", ReadHostPause + "\n", |ReadHostPause|  - 1);
    } else {
      assert "" + (body + ReadHostPause + "\n") == "" + body + ReadHostPause + "\n";
      EndsWithAppend(body, ReadHostPause + "\n");
    }
  }

  /** The summary line ends the body with a newline. */
  lemma BodyEndsWithNewline(texts: ScriptTexts, config: ScriptConfig, timestamp: string)
    ensures |PowerShellBody(texts, config, timestamp)| > 0
    ensures PowerShellBody(texts, config, timestamp)[|PowerShellBody(texts, config, timestamp)| - 1] == '\n'
  {
    var front := PowerShellBeforeList(texts, config, timestamp) + FolderList(DoubleBackslashes, config.targetPaths, ",\n");
    var tail := PowerShellTail(texts);
    assert (front + tail)[|front + tail| - 1] == tail[|tail| - 1];
    var main := "\n)\n" + texts.powerShellMain;
    assert (main + PowerShellSummary)[|main + PowerShellSummary| - 1] == PowerShellSummary[|PowerShellSummary| - 1];
  }

  /** The macOS and Linux scripts always end with the `read -p` pause, whatever the configuration. */
  lemma ShellScriptsEndWithPause(texts: ScriptTexts, config: ScriptConfig, timestamp: string)
    ensures EndsWith(AppleScriptScript(texts, config, timestamp), ReadPause + "\n")
    ensures EndsWith(BashScript(texts, config, timestamp), ReadPause + "\n")
  {
    var a := AppleScriptBeforeList(texts, config, timestamp) + FolderList(EscapeQuoteMarks, config.targetPaths, "\n") + "\n)\n" + texts.appleScriptMain;
    assert AppleScriptScript(texts, config, timestamp) == a + (ReadPause + "\n");
    EndsWithAppend(a, ReadPause + "\n");
    var b := BashBeforeList(texts, config, timestamp) + FolderList(EscapeQuoteMarks, config.targetPaths, "\n") + "\n)\n" + texts.bashMain;
    assert BashScript(texts, config, timestamp) == b + (ReadPause + "\n");
    EndsWithAppend(b, ReadPause + "\n");
  }
}
