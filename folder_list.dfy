/**
 * The folder list both script generators splice into their scripts: one
 * quoted, sanitised path per line, joined with a separator, and where each
 * path then sits in the finished text.
 */
module FolderLists {
  import opened Strings

  /** One array element of the folder list: four spaces, then the sanitised path in double quotes. */
  function QuotedLine(p: string): string
  {
    "    \"" + p + "\""
  }

  /** How a generator sanitises a path before quoting it. */
  datatype Escaping = DoubleBackslashes | EscapeQuoteMarks

  /** PowerShell doubles every backslash; the shell scripts put a backslash before every double quote. */
  function Sanitise(how: Escaping, p: string): string
  {
    match how
    case DoubleBackslashes => EscapeBackslashes(p)
    case EscapeQuoteMarks => EscapeQuotes(p)
  }

  /** `paths.map(p => `    "${sanitise(p)}"`)`: every path sanitised and quoted, in input order. */
  function QuotedLines(how: Escaping, paths: seq<string>): (r: seq<string>)
    ensures |r| == |paths|
  {
    seq(|paths|, i requires 0 <= i < |paths| => QuotedLine(Sanitise(how, paths[i])))
  }

  /** The folder list: the quoted lines joined with `sep`. */
  function FolderList(how: Escaping, paths: seq<string>, sep: string): string
  {
    Join(QuotedLines(how, paths), sep)
  }

  /** Sanitised text `e` sits at `o` in `s` as a quoted element: four spaces and a quote before it, a quote after it. */
  predicate QuotedAt(s: string, o: nat, e: string)
  {
    5 <= o && TextAt(s, o - 5, "    \"") && TextAt(s, o, e) && TextAt(s, o + |e|, "\"")
  }

  /**
   * Element `e` of a list sits at `o`, quoted, and unless it is the last
   * one the separator follows its closing quote.
   */
  predicate ElementAt(s: string, o: nat, e: string, sep: string, last: bool)
  {
    QuotedAt(s, o, e) && (!last ==> TextAt(s, o + |e| + 1, sep))
  }

  /**
   * In a text `s` made of `pre`, the joined `lines` and `post`, line `i`
   * (the quoted text `e`) puts `e` at `|pre| + JoinOffset(lines, sep, i) + 5`,
   * and a separator follows every line but the last.
   */
  lemma ListedAt(s: string, pre: string, lines: seq<string>, sep: string, post: string, i: nat, e: string, last: bool)
    requires i < |lines| && lines[i] == QuotedLine(e) && s == pre + Join(lines, sep) + post
    requires last <==> i + 1 == |lines|
    ensures ElementAt(s, |pre| + JoinOffset(lines, sep, i) + 5, e, sep, last)
  {
    var list := Join(lines, sep);
    var k0 := JoinOffset(lines, sep, i);
    assert |QuotedLine(e)| == |e| + 6;
    JoinHas(lines, sep, i);
    QuotedIn(pre, list, post, k0, e);
    if i + 1 < |lines| {
      TextInMiddle(pre, list, post, k0 + |e| + 6, sep);
      assert |pre| + (k0 + |e| + 6) == |pre| + k0 + 5 + |e| + 1;
    }
  }

  /**
   * `ListedAt` for a folder list: in a text `s` made of `pre`, the list of
   * `paths` and `post`, path `i` sanitised (`e`) sits in its quoted line.
   */
  lemma PathListedAt(s: string, pre: string, how: Escaping, paths: seq<string>, sep: string, post: string, i: nat, e: string)
    requires i < |paths| && s == pre + FolderList(how, paths, sep) + post && e == Sanitise(how, paths[i])
    ensures ElementAt(s, |pre| + JoinOffset(QuotedLines(how, paths), sep, i) + 5, e, sep, i + 1 == |paths|)
  {
    ListedAt(s, pre, QuotedLines(how, paths), sep, post, i, e, i + 1 == |paths|);
  }

  /** A quoted line found in `list` at `k` puts its text at `|pre| + k + 5` of `pre + list + post`. */
  lemma QuotedIn(pre: string, list: string, post: string, k: nat, e: string)
    requires TextAt(list, k, QuotedLine(e))
    ensures QuotedAt(pre + list + post, |pre| + k + 5, e)
  {
    var s := pre + list + post;
    var line := QuotedLine(e);
    TextInMiddle(pre, list, post, k, line);
    var o := |pre| + k;
    forall m | 0 <= m < |line| ensures s[o + m] == line[m] {
      assert s[o..o + |line|][m] == s[o + m];
    }
    PiecesAt(s, o, "    \"", e, "\"");
  }

  /**
   * Text `open + mid + close` found at `o` in `s`, index by index, puts each
   * of the three pieces at its own offset.
   */
  lemma PiecesAt(s: string, o: nat, open: string, mid: string, close: string)
    requires o + |open + mid + close| <= |s|
    requires forall m :: 0 <= m < |open + mid + close| ==> s[o + m] == (open + mid + close)[m]
    ensures LineAt(s, o, open, mid, close)
  {
    var t := open + mid + close;
    forall m | 0 <= m < |open| ensures s[o + m] == open[m] {
      assert t[m] == open[m];
    }
    SliceFromIndices(s, o, open);
    forall m | 0 <= m < |mid| ensures s[o + |open| + m] == mid[m] {
      assert s[o + (|open| + m)] == t[|open| + m] == mid[m];
    }
    SliceFromIndices(s, o + |open|, mid);
    forall m | 0 <= m < |close| ensures s[o + |open| + |mid| + m] == close[m] {
      assert s[o + (|open| + |mid| + m)] == t[|open| + |mid| + m] == close[m];
    }
    SliceFromIndices(s, o + |open|, mid);
    SliceFromIndices(s, o + |open| + |mid|, close);
  }

  /** A line `open + value + close` sits at `k` of `s`. */
  predicate LineAt(s: string, k: nat, open: string, value: string, close: string)
  {
    TextAt(s, k, open) && TextAt(s, k + |open|, value) && TextAt(s, k + |open| + |value|, close)
  }

  /** The pieces of a line spliced between `a` and `rest` sit right after `a`. */
  lemma LinePieces(a: string, open: string, mid: string, close: string, rest: string)
    ensures LineAt(a + open + mid + close + rest, |a|, open, mid, close)
  {
    var s := a + open + mid + close + rest;
    var t := open + mid + close;
    assert s == a + t + rest;
    forall m | 0 <= m < |t| ensures s[|a| + m] == t[m] {
      assert s[|a| + m] == (a + t)[|a| + m];
    }
    PiecesAt(s, |a|, open, mid, close);
  }

  /**
   * A line `open + mid + close + next` at the end of the part before the
   * list keeps its pieces at the same offsets in the whole script.
   */
  lemma LineInScript(a: string, open: string, mid: string, close: string, next: string, list: string, after: string)
    ensures LineAt(a + open + mid + close + next + list + after, |a|, open, mid, close)
  {
    var before := a + open + mid + close + next;
    LinePieces(a, open, mid, close, next);
    TextInPrefix(before, list, |a|, open);
    TextInPrefix(before, list, |a| + |open|, mid);
    TextInPrefix(before, list, |a| + |open| + |mid|, close);
    TextInPrefix(before + list, after, |a|, open);
    TextInPrefix(before + list, after, |a| + |open|, mid);
    TextInPrefix(before + list, after, |a| + |open| + |mid|, close);
  }
}
