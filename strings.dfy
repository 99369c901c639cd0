/**
 * The JavaScript string operations the workspace, the script builders and the
 * folder list rely on: `startsWith`, `Array.prototype.join`, the global
 * single-character `replace` calls that escape paths, `trim` with the
 * ECMAScript white-space set, and `toLowerCase` on the ASCII letters.
 */
module Strings {
  import opened Wrappers
  import opened Bytes

  /** `s.startsWith(p)`. */
  predicate StartsWith(s: string, p: string)
  {
    |p| <= |s| && s[..|p|] == p
  }

  /** `s.endsWith(p)`. */
  predicate EndsWith(s: string, p: string)
  {
    |p| <= |s| && s[|s| - |p|..] == p
  }

  /** A prefix of a prefix is a prefix. */
  lemma StartsWithAppend(p: string, q: string, rest: string)
    requires StartsWith(q, p)
    ensures StartsWith(q + rest, p)
  {
    assert (q + rest)[..|p|] == q[..|p|];
  }

  /** Whatever is appended to a string, the result ends with it. */
  lemma EndsWithAppend(s: string, p: string)
    ensures EndsWith(s + p, p)
  {
    assert (s + p)[|s + p| - |p|..] == p;
  }

  // ---------------------------------------------------------------- join

  /** `items.join(sep)`: the items in order, with `sep` between neighbours and nowhere else. */
  function Join(items: seq<string>, sep: string): string
  {
    if |items| == 0 then ""
    else if |items| == 1 then items[0]
    else items[0] + sep + Join(items[1..], sep)
  }

  /** Where item `i` starts in `Join(items, sep)`: every earlier item and its separator come first. */
  function JoinOffset(items: seq<string>, sep: string, i: nat): nat
    requires i <= |items|
  {
    if i == 0 then 0 else |items[0]| + |sep| + JoinOffset(items[1..], sep, i - 1)
  }

  /** Total length of the items. */
  function TotalLength(items: seq<string>): nat
  {
    if |items| == 0 then 0 else |items[0]| + TotalLength(items[1..])
  }

  /** The joined text is the items plus one separator per gap. */
  lemma {:induction false} JoinLength(items: seq<string>, sep: string)
    requires |items| > 0
    ensures |Join(items, sep)| == TotalLength(items) + (|items| - 1) * |sep|
  {
    if |items| > 1 {
      JoinLength(items[1..], sep);
    }
  }

  /**
   * Item `i` occupies `Join(items, sep)` from `JoinOffset(items, sep, i)` on,
   * and unless it is the last item a separator follows it: the items appear
   * in input order, each intact.
   */
  lemma {:induction false} JoinAt(items: seq<string>, sep: string, i: nat)
    requires i < |items|
    ensures JoinOffset(items, sep, i) + |items[i]| <= |Join(items, sep)|
    ensures forall k :: 0 <= k < |items[i]| ==> Join(items, sep)[JoinOffset(items, sep, i) + k] == items[i][k]
    ensures i + 1 < |items| ==>
      JoinOffset(items, sep, i) + |items[i]| + |sep| <= |Join(items, sep)| &&
      forall k :: 0 <= k < |sep| ==> Join(items, sep)[JoinOffset(items, sep, i) + |items[i]| + k] == sep[k]
  {
    if |items| > 1 {
      var j := Join(items, sep);
      var head := items[0] + sep;
      var rest := Join(items[1..], sep);
      assert j == head + rest;
      if i > 0 {
        assert items[1..][i - 1] == items[i];
        JoinAt(items[1..], sep, i - 1);
      }
    }
  }

  /** A stretch of `s` that agrees with `e` index by index is `e`. */
  lemma SliceFromIndices(s: string, o: nat, e: string)
    requires o + |e| <= |s|
    requires forall k :: 0 <= k < |e| ==> s[o + k] == e[k]
    ensures s[o..o + |e|] == e
  {
    forall k | 0 <= k < |e| ensures s[o..o + |e|][k] == e[k] {
      assert s[o..o + |e|][k] == s[o + k];
    }
  }

  /** `t` occurs in `s` starting at index `k`. */
  predicate TextAt(s: string, k: nat, t: string)
  {
    k + |t| <= |s| && s[k..k + |t|] == t
  }

  /** An occurrence inside the middle part of `pre + mid + post` is shifted by `|pre|`. */
  lemma TextInMiddle(pre: string, mid: string, post: string, k: nat, t: string)
    requires TextAt(mid, k, t)
    ensures TextAt(pre + mid + post, |pre| + k, t)
  {
    var s := pre + mid + post;
    forall m | 0 <= m < |t| ensures s[|pre| + k + m] == t[m] {
      assert s[|pre| + k + m] == (pre + mid)[|pre| + k + m] == mid[k + m] == mid[k..k + |t|][m];
    }
    SliceFromIndices(s, |pre| + k, t);
  }

  /** `JoinAt` as occurrences: item `i` is found at its offset, and a separator right after it unless it is the last. */
  lemma JoinHas(items: seq<string>, sep: string, i: nat)
    requires i < |items|
    ensures TextAt(Join(items, sep), JoinOffset(items, sep, i), items[i])
    ensures i + 1 < |items| ==> TextAt(Join(items, sep), JoinOffset(items, sep, i) + |items[i]|, sep)
  {
    var j := Join(items, sep);
    var k := JoinOffset(items, sep, i);
    JoinAt(items, sep, i);
    SliceFromIndices(j, k, items[i]);
    if i + 1 < |items| {
      SliceFromIndices(j, k + |items[i]|, sep);
    }
  }

  /** An occurrence in the front part of a concatenation stays where it is. */
  lemma TextInPrefix(a: string, b: string, k: nat, t: string)
    requires TextAt(a, k, t)
    ensures TextAt(a + b, k, t)
  {
    assert (a + b)[k..k + |t|] == a[k..k + |t|];
  }

  /** One character that differs from the suffix's rules the suffix out. */
  lemma NotEndsWith(s: string, p: string, k: nat)
    requires k < |p| <= |s| && s[|s| - |p| + k] != p[k]
    ensures !EndsWith(s, p)
  {
    assert s[|s| - |p|..][k] == s[|s| - |p| + k];
  }

  /** Joining one more item appends a separator and that item, as the reference `reduce` definition of `join` does. */
  lemma {:induction false} JoinSnoc(items: seq<string>, x: string, sep: string)
    requires |items| > 0
    ensures Join(items + [x], sep) == Join(items, sep) + sep + x
  {
    if |items| == 1 {
      assert items + [x] == [items[0], x];
      assert [items[0], x][1..] == [x];
    } else {
      assert (items + [x])[1..] == items[1..] + [x];
      JoinSnoc(items[1..], x, sep);
    }
  }

  // ---------------------------------------------------------------- counting

  /** Occurrences of `c` in `s`. */
  function Count(s: string, c: char): nat
  {
    if |s| == 0 then 0 else (if s[0] == c then 1 else 0) + Count(s[1..], c)
  }

  /** `s` with every `c` removed. */
  function Without(s: string, c: char): string
  {
    if |s| == 0 then "" else (if s[0] == c then "" else [s[0]]) + Without(s[1..], c)
  }

  // ---------------------------------------------------------------- backslash doubling

  /** `s.replace(/\\/g, '\\\\')`: every backslash becomes two. */
  function EscapeBackslashes(s: string): string
  {
    if |s| == 0 then ""
    else (if s[0] == '\\' then "\\\\" else [s[0]]) + EscapeBackslashes(s[1..])
  }

  /** The inverse reading: a doubled backslash stands for one; a lone backslash is malformed. */
  function UnescapeBackslashes(t: string): Option<string>
  {
    if |t| == 0 then Some("")
    else if t[0] != '\\' then
      match UnescapeBackslashes(t[1..])
      case Some(rest) => Some([t[0]] + rest)
      case None => None
    else if |t| >= 2 && t[1] == '\\' then
      match UnescapeBackslashes(t[2..])
      case Some(rest) => Some("\\" + rest)
      case None => None
    else None
  }

  /** Doubling, then reading back, gives the original path. */
  lemma {:induction false} UnescapeEscapeBackslashes(s: string)
    ensures UnescapeBackslashes(EscapeBackslashes(s)) == Some(s)
  {
    if |s| > 0 {
      UnescapeEscapeBackslashes(s[1..]);
      var t := EscapeBackslashes(s);
      if s[0] == '\\' {
        assert t[2..] == EscapeBackslashes(s[1..]);
      } else {
        assert t[1..] == EscapeBackslashes(s[1..]);
      }
      assert [s[0]] + s[1..] == s;
    }
  }

  /** Whatever reads back as `s` is exactly the doubled form of `s`: the escaping is one-to-one. */
  lemma {:induction false} EscapeUnescapeBackslashes(t: string, s: string)
    requires UnescapeBackslashes(t) == Some(s)
    ensures EscapeBackslashes(s) == t
    decreases |t|
  {
    if |t| > 0 {
      if t[0] != '\\' {
        var rest := UnescapeBackslashes(t[1..]).value;
        EscapeUnescapeBackslashes(t[1..], rest);
        assert s == [t[0]] + rest;
        assert s[1..] == rest;
        assert t == [t[0]] + t[1..];
      } else {
        var rest := UnescapeBackslashes(t[2..]).value;
        EscapeUnescapeBackslashes(t[2..], rest);
        assert s == "\\" + rest;
        assert s[1..] == rest;
        assert t == "\\\\" + t[2..];
      }
    }
  }

  /** Only backslashes are added: removing them from input and output leaves the same text. */
  lemma {:induction false} EscapeBackslashesKeepsOthers(s: string)
    ensures Without(EscapeBackslashes(s), '\\') == Without(s, '\\')
  {
    if |s| > 0 {
      EscapeBackslashesKeepsOthers(s[1..]);
      WithoutAppend((if s[0] == '\\' then "\\\\" else [s[0]]), EscapeBackslashes(s[1..]), '\\');
    }
  }

  /** Every backslash of the input appears twice in the output; other characters keep their counts. */
  lemma {:induction false} EscapeBackslashesCount(s: string, c: char)
    ensures Count(EscapeBackslashes(s), c) == if c == '\\' then 2 * Count(s, c) else Count(s, c)
  {
    if |s| > 0 {
      EscapeBackslashesCount(s[1..], c);
      CountAppend((if s[0] == '\\' then "\\\\" else [s[0]]), EscapeBackslashes(s[1..]), c);
    }
  }

  /** A path without backslashes is spliced in unchanged. */
  lemma {:induction false} EscapeBackslashesNone(s: string)
    requires '\\' !in s
    ensures EscapeBackslashes(s) == s
  {
    if |s| > 0 {
      assert s[1..] == s[1..] && forall k :: 0 <= k < |s[1..]| ==> s[1..][k] == s[k + 1];
      assert '\\' !in s[1..];
      EscapeBackslashesNone(s[1..]);
      assert s == [s[0]] + s[1..];
    }
  }

  // ---------------------------------------------------------------- quote escaping

  /** `s.replace(/"/g, '\\"')`: every double quote gets a backslash in front; backslashes stay as they are. */
  function EscapeQuotes(s: string): string
  {
    if |s| == 0 then ""
    else (if s[0] == '"' then "\\\"" else [s[0]]) + EscapeQuotes(s[1..])
  }

  /** The inverse reading: `\"` stands for a quote, any other character for itself; a bare quote is malformed. */
  function UnescapeQuotes(t: string): Option<string>
  {
    if |t| == 0 then Some("")
    else if t[0] == '"' then None
    else if t[0] == '\\' && |t| >= 2 && t[1] == '"' then
      match UnescapeQuotes(t[2..])
      case Some(rest) => Some("\"" + rest)
      case None => None
    else
      match UnescapeQuotes(t[1..])
      case Some(rest) => Some([t[0]] + rest)
      case None => None
  }

  /** An escaped text never starts with a bare quote. */
  lemma EscapeQuotesHead(s: string)
    ensures |EscapeQuotes(s)| > 0 ==> EscapeQuotes(s)[0] != '"'
  {
  }

  /** Escaping, then reading back, gives the original path, even where a backslash precedes a quote. */
  lemma {:induction false} UnescapeEscapeQuotes(s: string)
    ensures UnescapeQuotes(EscapeQuotes(s)) == Some(s)
  {
    if |s| > 0 {
      UnescapeEscapeQuotes(s[1..]);
      var t := EscapeQuotes(s);
      var rest := EscapeQuotes(s[1..]);
      if s[0] == '"' {
        assert t == "\\\"" + rest;
        assert t[2..] == rest;
      } else {
        assert t == [s[0]] + rest;
        assert t[1..] == rest;
        EscapeQuotesHead(s[1..]);
      }
      assert [s[0]] + s[1..] == s;
    }
  }

  /** Whatever reads back as `s` is exactly the escaped form of `s`: the escaping is one-to-one. */
  lemma {:induction false} EscapeUnescapeQuotes(t: string, s: string)
    requires UnescapeQuotes(t) == Some(s)
    ensures EscapeQuotes(s) == t
    decreases |t|
  {
    if |t| > 0 {
      if t[0] == '\\' && |t| >= 2 && t[1] == '"' {
        var rest := UnescapeQuotes(t[2..]).value;
        EscapeUnescapeQuotes(t[2..], rest);
        assert s == "\"" + rest;
        assert s[1..] == rest;
        assert t == "\\\"" + t[2..];
      } else {
        var rest := UnescapeQuotes(t[1..]).value;
        EscapeUnescapeQuotes(t[1..], rest);
        assert s == [t[0]] + rest;
        assert s[1..] == rest;
        assert t == [t[0]] + t[1..];
      }
    }
  }

  /** In the escaped text every double quote has a backslash right before it. */
  lemma {:induction false} EscapeQuotesGuarded(s: string)
    ensures forall i :: 0 <= i < |EscapeQuotes(s)| && EscapeQuotes(s)[i] == '"' ==>
      i > 0 && EscapeQuotes(s)[i - 1] == '\\'
  {
    if |s| > 0 {
      EscapeQuotesGuarded(s[1..]);
      var head := if s[0] == '"' then "\\\"" else [s[0]];
      var rest := EscapeQuotes(s[1..]);
      var t := EscapeQuotes(s);
      assert t == head + rest;
      forall i | 0 <= i < |t| && t[i] == '"'
        ensures i > 0 && t[i - 1] == '\\'
      {
        if i >= |head| {
          assert t[i] == rest[i - |head|];
          if i - |head| > 0 {
            assert t[i - 1] == rest[i - |head| - 1];
          }
        }
      }
    }
  }

  /** Only backslashes are added: removing them from input and output leaves the same text. */
  lemma {:induction false} EscapeQuotesKeepsOthers(s: string)
    ensures Without(EscapeQuotes(s), '\\') == Without(s, '\\')
  {
    if |s| > 0 {
      EscapeQuotesKeepsOthers(s[1..]);
      WithoutAppend((if s[0] == '"' then "\\\"" else [s[0]]), EscapeQuotes(s[1..]), '\\');
      if s[0] == '"' {
        assert "\\\""[1..] == "\"";
      }
    }
  }

  /** One backslash is added per quote; every other character keeps its count. */
  lemma {:induction false} EscapeQuotesCount(s: string, c: char)
    ensures Count(EscapeQuotes(s), c) == if c == '\\' then Count(s, c) + Count(s, '"') else Count(s, c)
  {
    if |s| > 0 {
      EscapeQuotesCount(s[1..], c);
      CountAppend((if s[0] == '"' then "\\\"" else [s[0]]), EscapeQuotes(s[1..]), c);
      if s[0] == '"' {
        assert "\\\""[1..] == "\"";
      }
    }
  }

  /** A path without quotes is spliced in unchanged; backslashes in it are left alone. */
  lemma {:induction false} EscapeQuotesNone(s: string)
    requires '"' !in s
    ensures EscapeQuotes(s) == s
  {
    if |s| > 0 {
      assert forall k :: 0 <= k < |s[1..]| ==> s[1..][k] == s[k + 1];
      assert '"' !in s[1..];
      EscapeQuotesNone(s[1..]);
      assert s == [s[0]] + s[1..];
    }
  }

  lemma {:induction false} CountAppend(a: string, b: string, c: char)
    ensures Count(a + b, c) == Count(a, c) + Count(b, c)
  {
    if |a| > 0 {
      assert (a + b)[1..] == a[1..] + b;
      CountAppend(a[1..], b, c);
    } else {
      assert a + b == b;
    }
  }

  lemma {:induction false} WithoutAppend(a: string, b: string, c: char)
    ensures Without(a + b, c) == Without(a, c) + Without(b, c)
  {
    if |a| > 0 {
      assert (a + b)[1..] == a[1..] + b;
      WithoutAppend(a[1..], b, c);
    } else {
      assert a + b == b;
    }
  }

  // ---------------------------------------------------------------- trim

  /**
   * ECMAScript white space and line terminators, which `trim` removes: tab,
   * line feed, vertical tab, form feed, carriage return, space, no-break
   * space, the Unicode space separators, line and paragraph separators, and
   * the byte order mark.
   */
  predicate IsWhiteSpace(c: char)
  {
    var n := c as int;
    (0x09 <= n <= 0x0D) || n == 0x20 || n == 0xA0 || n == 0x1680 || (0x2000 <= n <= 0x200A)
    || n == 0x2028 || n == 0x2029 || n == 0x202F || n == 0x205F || n == 0x3000 || n == 0xFEFF
  }

  predicate AllWhiteSpace(s: string)
  {
    forall i :: 0 <= i < |s| ==> IsWhiteSpace(s[i])
  }

  /** `trimStart`: drops the leading white space and nothing else. */
  function TrimStart(s: string): (r: string)
    ensures |r| <= |s| && r == s[|s| - |r|..]
    ensures AllWhiteSpace(s[..|s| - |r|])
    ensures |r| == 0 || !IsWhiteSpace(r[0])
  {
    if |s| > 0 && IsWhiteSpace(s[0]) then
      var r := TrimStart(s[1..]);
      assert s[..|s| - |r|] == [s[0]] + s[1..][..|s[1..]| - |r|];
      r
    else s
  }

  /** `trimEnd`: drops the trailing white space and nothing else. */
  function TrimEnd(s: string): (r: string)
    ensures |r| <= |s| && r == s[..|r|]
    ensures AllWhiteSpace(s[|r|..])
    ensures |r| == 0 || !IsWhiteSpace(r[|r| - 1])
  {
    if |s| > 0 && IsWhiteSpace(s[|s| - 1]) then
      var r := TrimEnd(s[..|s| - 1]);
      assert s[|r|..] == s[..|s| - 1][|r|..] + [s[|s| - 1]];
      r
    else s
  }

  /** `trim`. */
  function Trim(s: string): string
  {
    TrimEnd(TrimStart(s))
  }

  /** The trimmed text is a slice of the input, and all that was cut off on either side is white space. */
  lemma TrimSlice(s: string)
    ensures exists i, j :: 0 <= i <= j <= |s| && Trim(s) == s[i..j] && AllWhiteSpace(s[..i]) && AllWhiteSpace(s[j..])
  {
    var a := TrimStart(s);
    var i := |s| - |a|;
    var b := TrimEnd(a);
    var j := i + |b|;
    assert b == s[i..j];
    assert s[j..] == a[|b|..];
  }

  /** A trimmed text neither starts nor ends with white space. */
  lemma TrimEnds(s: string)
    ensures |Trim(s)| == 0 || (!IsWhiteSpace(Trim(s)[0]) && !IsWhiteSpace(Trim(s)[|Trim(s)| - 1]))
  {
    var a := TrimStart(s);
    var b := TrimEnd(a);
    if |b| > 0 {
      assert b[0] == a[0];
    }
  }

  /** Trimming is idempotent. */
  lemma TrimIdempotent(s: string)
    ensures Trim(Trim(s)) == Trim(s)
  {
    var t := Trim(s);
    TrimEnds(s);
    NoLeadingTrimStart(t);
    assert TrimStart(t) == t;
    NoTrailingTrimEnd(t);
  }

  lemma NoLeadingTrimStart(s: string)
    requires |s| == 0 || !IsWhiteSpace(s[0])
    ensures TrimStart(s) == s
  {
  }

  lemma NoTrailingTrimEnd(s: string)
    requires |s| == 0 || !IsWhiteSpace(s[|s| - 1])
    ensures TrimEnd(s) == s
  {
  }

  /** Trimming gives the empty string exactly when the input is all white space. */
  lemma TrimEmpty(s: string)
    ensures Trim(s) == "" <==> AllWhiteSpace(s)
  {
    var a := TrimStart(s);
    if AllWhiteSpace(s) {
      AllWhiteSpaceTrimStart(s);
    }
    if Trim(s) == "" {
      assert AllWhiteSpace(a[0..]);
      assert s == s[..|s| - |a|] + a;
    }
  }

  lemma {:induction false} AllWhiteSpaceTrimStart(s: string)
    requires AllWhiteSpace(s)
    ensures TrimStart(s) == ""
  {
    if |s| > 0 {
      assert AllWhiteSpace(s[1..]) by {
        forall i | 0 <= i < |s[1..]| ensures IsWhiteSpace(s[1..][i]) {
          assert s[1..][i] == s[i + 1];
        }
      }
      AllWhiteSpaceTrimStart(s[1..]);
    }
  }

  // ---------------------------------------------------------------- lower case

  /** `toLowerCase` on one character, for the ASCII letters. */
  function LowerChar(c: char): (d: char)
  {
    if 'A' <= c <= 'Z' then (c as int + 32) as char else c
  }

  predicate IsUpper(c: char)
  {
    'A' <= c <= 'Z'
  }

  /** `toLowerCase`, for the ASCII letters. */
  function ToLower(s: string): (r: string)
    ensures |r| == |s|
  {
    seq(|s|, i requires 0 <= i < |s| => LowerChar(s[i]))
  }

  /** Lower-casing leaves no upper-case ASCII letter and changes nothing but those letters. */
  lemma ToLowerSpec(s: string)
    ensures forall i :: 0 <= i < |s| ==> !IsUpper(ToLower(s)[i])
    ensures forall i :: 0 <= i < |s| && !IsUpper(s[i]) ==> ToLower(s)[i] == s[i]
    ensures forall i :: 0 <= i < |s| && IsUpper(s[i]) ==> ToLower(s)[i] as int == s[i] as int + 32
  {
  }

  /** Lower-casing twice is lower-casing once. */
  lemma ToLowerIdempotent(s: string)
    ensures ToLower(ToLower(s)) == ToLower(s)
  {
  }
}
