/** The built-in Python string operations that blog_agent.py relies on
    (str.isspace, str.strip, str.lower, str.replace, str.join, str.split,
    and the newline translation of a file read in text mode), over Dafny
    strings (sequences of Unicode code points). */
module PyStr {

  /** The 29 code points for which str.isspace() holds, one by one. */
  predicate ListedWhitespace(c: char) {
    c == '\t' || c == '\n' || c == '\U{0B}' || c == '\U{0C}' || c == '\r'
    || c == '\U{1C}' || c == '\U{1D}' || c == '\U{1E}' || c == '\U{1F}' || c == ' '
    || c == '\U{85}' || c == '\U{A0}' || c == '\U{1680}'
    || c == '\U{2000}' || c == '\U{2001}' || c == '\U{2002}' || c == '\U{2003}' || c == '\U{2004}'
    || c == '\U{2005}' || c == '\U{2006}' || c == '\U{2007}' || c == '\U{2008}' || c == '\U{2009}'
    || c == '\U{200A}' || c == '\U{2028}' || c == '\U{2029}' || c == '\U{202F}' || c == '\U{205F}'
    || c == '\U{3000}'
  }

  /** str.isspace() of a one-character string, by code point ranges (tab to
      carriage return, the four information separators, space, NEL,
      no-break space and the Unicode spaces and line/paragraph
      separators): exactly the listed whitespace. */
  function IsSpace(c: char): (b: bool)
    ensures b <==> ListedWhitespace(c)
  {
    ('\t' <= c <= '\r') || ('\U{1C}' <= c <= ' ') || c == '\U{85}' || c == '\U{A0}'
    || c == '\U{1680}' || ('\U{2000}' <= c <= '\U{200A}') || c == '\U{2028}' || c == '\U{2029}'
    || c == '\U{202F}' || c == '\U{205F}' || c == '\U{3000}'
  }

  /** s.lstrip(): drops the leading whitespace. */
  function TrimStart(s: string): (r: string)
    ensures |r| <= |s| && r == s[|s| - |r|..]
    ensures r == [] || !IsSpace(r[0])
    ensures forall i :: 0 <= i < |s| - |r| ==> IsSpace(s[i])
    decreases |s|
  {
    if s != [] && IsSpace(s[0]) then TrimStart(s[1..]) else s
  }

  /** s.rstrip(): drops the trailing whitespace. */
  function TrimEnd(s: string): (r: string)
    ensures |r| <= |s| && r == s[..|r|]
    ensures r == [] || !IsSpace(r[|r| - 1])
    ensures forall i :: |r| <= i < |s| ==> IsSpace(s[i])
    decreases |s|
  {
    if s != [] && IsSpace(s[|s| - 1]) then TrimEnd(s[..|s| - 1]) else s
  }

  /** r is s[lo..lo + |r|] and every character of s outside it is whitespace. */
  predicate InfixAmidSpace(s: string, r: string, lo: int) {
    0 <= lo <= |s| - |r| && r == s[lo..lo + |r|]
    && (forall i :: 0 <= i < lo ==> IsSpace(s[i]))
    && (forall i :: lo + |r| <= i < |s| ==> IsSpace(s[i]))
  }

  /** s.strip(): the longest infix of s that neither starts nor ends with
      whitespace; everything around it is whitespace. */
  function Strip(s: string): (r: string)
    ensures exists lo :: InfixAmidSpace(s, r, lo)
    ensures r == [] || (!IsSpace(r[0]) && !IsSpace(r[|r| - 1]))
  {
    TrimBothEnds(s);
    TrimEnd(TrimStart(s))
  }

  /** Trimming the start and then the end leaves an infix amid whitespace. */
  lemma TrimBothEnds(s: string)
    ensures InfixAmidSpace(s, TrimEnd(TrimStart(s)), |s| - |TrimStart(s)|)
  {
    var t := TrimStart(s);
    InfixOfTrimmedSuffix(s, t, TrimEnd(t));
  }

  /** If t is s less some leading whitespace and r is t less some trailing
      whitespace, then r is an infix of s amid whitespace. */
  lemma InfixOfTrimmedSuffix(s: string, t: string, r: string)
    requires |t| <= |s| && t == s[|s| - |t|..]
    requires forall i :: 0 <= i < |s| - |t| ==> IsSpace(s[i])
    requires |r| <= |t| && r == t[..|r|]
    requires forall i :: |r| <= i < |t| ==> IsSpace(t[i])
    ensures InfixAmidSpace(s, r, |s| - |t|)
  {
    var lo := |s| - |t|;
    forall i | lo + |r| <= i < |s| ensures IsSpace(s[i]) {
      assert s[i] == t[i - lo];
    }
  }

  /** A string strips to nothing exactly when every character of it is
      whitespace (the empty string included). */
  lemma {:induction false} StripEmptyIffAllSpace(s: string)
    ensures Strip(s) == [] <==> forall i :: 0 <= i < |s| ==> IsSpace(s[i])
  {
    var t := TrimStart(s);
    if Strip(s) == [] {
      assert TrimEnd(t) == [];
    }
  }

  /** The one-character case of str.lower() for ASCII: A-Z become a-z. */
  function LowerChar(c: char): char {
    if 'A' <= c <= 'Z' then (c as int + 32) as char else c
  }

  /** s.lower(), character by character. */
  function Lower(s: string): (r: string)
    ensures |r| == |s|
    ensures forall i :: 0 <= i < |s| ==> r[i] == LowerChar(s[i])
  {
    if s == [] then [] else [LowerChar(s[0])] + Lower(s[1..])
  }

  /** Lower-casing leaves no A-Z, and lower-casing twice changes nothing. */
  lemma LowerIsLower(s: string)
    ensures forall i :: 0 <= i < |s| ==> !('A' <= Lower(s)[i] <= 'Z')
    ensures Lower(Lower(s)) == Lower(s)
  {
  }

  /** s.replace(from, to) where from and to are one character each: every
      from becomes to, nothing else moves. */
  function ReplaceChar(s: string, from: char, to: char): (r: string)
    ensures |r| == |s|
    ensures forall i :: 0 <= i < |s| ==> r[i] == (if s[i] == from then to else s[i])
  {
    if s == [] then [] else [if s[0] == from then to else s[0]] + ReplaceChar(s[1..], from, to)
  }

  /** Sum of the lengths of the parts. */
  function TotalLength(parts: seq<string>): nat {
    if parts == [] then 0 else |parts[0]| + TotalLength(parts[1..])
  }

  /** sep.join(parts): the parts in order with sep between neighbours;
      nothing for no parts, the part itself for one. */
  function Join(sep: string, parts: seq<string>): (r: string)
    ensures |parts| == 0 ==> r == ""
    ensures |parts| == 1 ==> r == parts[0]
    ensures |parts| >= 1 ==> |r| == TotalLength(parts) + |sep| * (|parts| - 1)
    ensures |parts| >= 1 ==> r[..|parts[0]|] == parts[0]
    decreases |parts|
  {
    if |parts| == 0 then ""
    else if |parts| == 1 then parts[0]
    else parts[0] + sep + Join(sep, parts[1..])
  }

  /** Appending a part adds one separator and the part at the end. */
  lemma {:induction false} JoinSnoc(sep: string, parts: seq<string>, last: string)
    requires |parts| >= 1
    ensures Join(sep, parts + [last]) == Join(sep, parts) + sep + last
    decreases |parts|
  {
    if |parts| > 1 {
      assert (parts + [last])[1..] == parts[1..] + [last];
      JoinSnoc(sep, parts[1..], last);
    }
  }

  /** s.split(sep) for a non-empty sep: the pieces between the
      non-overlapping occurrences of sep, found left to right. */
  function Split(s: string, sep: string): (r: seq<string>)
    requires sep != []
    ensures |r| >= 1
    decreases |s|
  {
    if |s| < |sep| then [s]
    else if s[..|sep|] == sep then [""] + Split(s[|sep|..], sep)
    else
      var rest := Split(s[1..], sep);
      [[s[0]] + rest[0]] + rest[1..]
  }

  /** A word without the separator's first character is not split. */
  lemma {:induction false} SplitWord(w: string, sep: string)
    requires sep != [] && sep[0] !in w
    ensures Split(w, sep) == [w]
    decreases |w|
  {
    if |w| >= |sep| {
      assert w[..|sep|][0] == w[0];
      SplitWord(w[1..], sep);
      assert [w[0]] + w[1..] == w;
    }
  }

  /** Splitting stops at the first separator after such a word. */
  lemma {:induction false} SplitWordThenSep(w: string, rest: string, sep: string)
    requires sep != [] && sep[0] !in w
    ensures Split(w + sep + rest, sep) == [w] + Split(rest, sep)
    decreases |w|
  {
    var s := w + sep + rest;
    if w == [] {
      assert s == sep + rest;
      assert s[..|sep|] == sep && s[|sep|..] == rest;
    } else {
      assert s[..|sep|][0] == w[0];
      assert s[1..] == w[1..] + sep + rest;
      SplitWordThenSep(w[1..], rest, sep);
      assert [w[0]] + w[1..] == w;
    }
  }

  /** Split undoes Join when no part contains the separator's first
      character and there is at least one part. */
  lemma {:induction false} SplitJoin(sep: string, parts: seq<string>)
    requires sep != [] && |parts| >= 1
    requires forall k :: 0 <= k < |parts| ==> sep[0] !in parts[k]
    ensures Split(Join(sep, parts), sep) == parts
    decreases |parts|
  {
    if |parts| == 1 {
      SplitWord(parts[0], sep);
    } else {
      SplitJoin(sep, parts[1..]);
      SplitWordThenSep(parts[0], Join(sep, parts[1..]), sep);
    }
  }

  /** With a separator that lacks c, c is in the joined text exactly when
      it is in one of the parts. */
  lemma {:induction false} CharInJoin(sep: string, parts: seq<string>, c: char)
    requires c !in sep
    ensures c in Join(sep, parts) <==> exists k :: 0 <= k < |parts| && c in parts[k]
    decreases |parts|
  {
    if |parts| > 1 {
      CharInJoin(sep, parts[1..], c);
      if c in Join(sep, parts[1..]) {
        var k :| 0 <= k < |parts[1..]| && c in parts[1..][k];
        assert c in parts[k + 1];
      }
      if exists k :: 0 <= k < |parts| && c in parts[k] {
        var k :| 0 <= k < |parts| && c in parts[k];
        if k > 0 {
          assert c in parts[1..][k - 1];
        }
      }
    }
  }

  /** What f.read() returns for a file opened in text mode with the default
      newline=None (universal newlines): "\r\n" and a lone "\r" both come
      back as "\n", every other character as it was. */
  function UniversalNewlines(s: string): (r: string)
    ensures '\r' !in r
    ensures |r| <= |s|
    decreases |s|
  {
    if s == [] then []
    else if s[0] == '\r' then
      "\n" + UniversalNewlines(if |s| > 1 && s[1] == '\n' then s[2..] else s[1..])
    else [s[0]] + UniversalNewlines(s[1..])
  }

  /** A text without carriage returns reads back as it is. */
  lemma {:induction false} UniversalNewlinesKeepsPlainText(s: string)
    requires '\r' !in s
    ensures UniversalNewlines(s) == s
    decreases |s|
  {
    if s != [] {
      assert '\r' !in s[1..] by {
        forall i | 0 <= i < |s[1..]| ensures s[1..][i] != '\r' {
          assert s[1..][i] == s[i + 1];
        }
      }
      UniversalNewlinesKeepsPlainText(s[1..]);
      assert [s[0]] + s[1..] == s;
    }
  }

  /** Reading back changes a text exactly when it holds a carriage return,
      so reading back what was read back changes nothing. */
  lemma UniversalNewlinesFixed(s: string)
    ensures UniversalNewlines(s) == s <==> '\r' !in s
    ensures UniversalNewlines(UniversalNewlines(s)) == UniversalNewlines(s)
  {
    if '\r' !in s {
      UniversalNewlinesKeepsPlainText(s);
    }
    UniversalNewlinesKeepsPlainText(UniversalNewlines(s));
  }

  /** needle occurs in s starting at index at. */
  predicate OccursAt(s: string, needle: string, at: int) {
    0 <= at && at + |needle| <= |s| && s[at..at + |needle|] == needle
  }
}
