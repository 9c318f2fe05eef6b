/**
 * The string primitives the backend relies on, as Python defines them:
 * `str.strip()` with no argument, `str.split('\n\n')` and `sep.join(parts)`.
 */
module Text {

  /** Python's `str.isspace()` for one character: the characters `str.strip()` removes. */
  predicate IsSpace(c: char) {
    || c == ' '
    || '\t' <= c <= '\r'
    || '\U{1C}' <= c <= '\U{1F}'
    || c == '\U{85}' || c == '\U{A0}' || c == '\U{1680}'
    || '\U{2000}' <= c <= '\U{200A}'
    || c == '\U{2028}' || c == '\U{2029}' || c == '\U{202F}' || c == '\U{205F}' || c == '\U{3000}'
  }

  /** Non-empty, and neither starts nor ends with whitespace: what a stripped non-blank text looks like. */
  predicate Trimmed(s: string) {
    s != [] && !IsSpace(s[0]) && !IsSpace(s[|s| - 1])
  }

  predicate AllSpace(s: string) {
    forall i :: 0 <= i < |s| ==> IsSpace(s[i])
  }

  /** Drops leading whitespace: the result is the longest suffix that does not start with whitespace. */
  function TrimStart(s: string): (r: string)
    ensures |r| <= |s|
    ensures r == [] || !IsSpace(r[0])
    ensures AllSpace(s[..|s| - |r|])
  {
    if s != [] && IsSpace(s[0]) then TrimStart(s[1..]) else s
  }

  /** Drops trailing whitespace: the result is the longest prefix that does not end with whitespace. */
  function TrimEnd(s: string): (r: string)
    ensures |r| <= |s|
    ensures r == [] || !IsSpace(r[|r| - 1])
    ensures AllSpace(s[|r|..])
  {
    if s != [] && IsSpace(s[|s| - 1]) then TrimEnd(s[..|s| - 1]) else s
  }

  /** What remains after dropping leading whitespace is a suffix of the text. */
  lemma {:induction false} TrimStartSuffix(s: string)
    ensures TrimStart(s) == s[|s| - |TrimStart(s)|..]
  {
    if s != [] && IsSpace(s[0]) {
      TrimStartSuffix(s[1..]);
    }
  }

  /** What remains after dropping trailing whitespace is a prefix of the text. */
  lemma {:induction false} TrimEndPrefix(s: string)
    ensures TrimEnd(s) == s[..|TrimEnd(s)|]
  {
    if s != [] && IsSpace(s[|s| - 1]) {
      TrimEndPrefix(s[..|s| - 1]);
    }
  }

  /** Python's `s.strip()`; Text.StripSlice states which slice of the text it keeps. */
  function Strip(s: string): (r: string)
    ensures |r| <= |s|
    ensures r == [] <==> AllSpace(s)
    ensures r != [] ==> Trimmed(r)
  {
    var t := TrimStart(s);
    var r := TrimEnd(t);
    TrimStartSuffix(s);
    TrimEndPrefix(t);
    assert r == [] ==> AllSpace(s) by {
      if r == [] {
        assert s == s[..|s| - |t|] + t;
        assert t == t[|r|..];
      }
    }
    assert r != [] ==> r[0] == t[0];
    r
  }

  /**
   * The stripped text is the text with its leading and its trailing whitespace removed: the
   * slice that starts after the leading whitespace, with only whitespace after it.
   */
  lemma StripSlice(s: string)
    ensures var r := Strip(s); var a := |s| - |TrimStart(s)|;
      && a + |r| <= |s| && r == s[a..a + |r|]
      && AllSpace(s[..a]) && AllSpace(s[a + |r|..])
  {
    var t := TrimStart(s);
    var r := TrimEnd(t);
    var a := |s| - |t|;
    assert r == s[a..a + |r|] by {
      TrimStartSuffix(s);
      TrimEndPrefix(t);
    }
    assert AllSpace(s[a + |r|..]) by {
      TrimStartSuffix(s);
      assert s[a + |r|..] == t[|r|..];
    }
  }

  /** Stripping is idempotent: a text stored stripped is its own strip. */
  lemma {:induction false} StripTrimmed(s: string)
    requires Trimmed(s)
    ensures Strip(s) == s
  {
    assert TrimStart(s) == s;
    assert TrimEnd(s) == s;
  }

  lemma StripIdempotent(s: string)
    ensures Strip(Strip(s)) == Strip(s)
  {
    if Strip(s) != [] {
      StripTrimmed(Strip(s));
    }
  }

  // ----- blank lines: the separator "\n\n" -----------------------------------------------

  const BLANK_LINE: string := "\n\n"

  /** A "\n\n" separator starts at index `i` of `s`. */
  predicate BlankLineAt(s: string, i: int) {
    0 <= i && i + 1 < |s| && s[i] == '\n' && s[i + 1] == '\n'
  }

  predicate NoBlankLine(s: string) {
    forall i :: 0 <= i < |s| ==> !BlankLineAt(s, i)
  }

  predicate EndsWithNewline(s: string) {
    s != [] && s[|s| - 1] == '\n'
  }

  /** Index of the leftmost "\n\n" at or after `from`, or `|s|` when there is none. */
  function FindBlankLine(s: string, from: nat): (i: nat)
    requires from <= |s|
    ensures from <= i <= |s|
    ensures i < |s| ==> BlankLineAt(s, i)
    ensures forall j :: from <= j < i ==> !BlankLineAt(s, j)
    ensures i == |s| ==> forall j :: from <= j ==> !BlankLineAt(s, j)
    decreases |s| - from
  {
    if from + 1 >= |s| then |s|
    else if s[from] == '\n' && s[from + 1] == '\n' then from
    else FindBlankLine(s, from + 1)
  }

  /** A slice of a text without "\n\n" has none either. */
  lemma SliceNoBlankLine(s: string, lo: nat, hi: nat)
    requires lo <= hi <= |s| && NoBlankLine(s)
    ensures NoBlankLine(s[lo..hi])
  {
    forall i ensures !BlankLineAt(s[lo..hi], i) {
      if 0 <= i && i + 1 < hi - lo {
        assert !BlankLineAt(s, lo + i);
      }
    }
  }

  /** Stripping a text without "\n\n" leaves none. */
  lemma StripNoBlankLine(s: string)
    requires NoBlankLine(s)
    ensures NoBlankLine(Strip(s))
  {
    var t := TrimStart(s);
    TrimStartSuffix(s);
    TrimEndPrefix(t);
    SliceNoBlankLine(s, |s| - |t|, |s|);
    assert s[|s| - |t|..|s|] == t;
    SliceNoBlankLine(t, 0, |TrimEnd(t)|);
  }

  /** Two texts without "\n\n" only form one at their seam if the first ends with '\n'. */
  lemma ConcatNoBlankLine(a: string, b: string)
    requires NoBlankLine(a) && NoBlankLine(b)
    requires !EndsWithNewline(a)
    ensures NoBlankLine(a + b)
  {
    forall i ensures !BlankLineAt(a + b, i) {
      if 0 <= i && i + 1 < |a + b| {
        if i + 1 < |a| {
          assert !BlankLineAt(a, i);
        } else if i >= |a| {
          assert !BlankLineAt(b, i - |a|);
        }
      }
    }
  }

  // ----- join and split ------------------------------------------------------------------

  function Last<T>(xs: seq<T>): T
    requires xs != []
  {
    xs[|xs| - 1]
  }

  /** Python's `sep.join(parts)`. */
  function Join(parts: seq<string>, sep: string): string {
    if |parts| == 0 then []
    else if |parts| == 1 then parts[0]
    else parts[0] + sep + Join(parts[1..], sep)
  }

  /** A join starts with its first part and ends with its last part. */
  lemma {:induction false} JoinEnds(parts: seq<string>, sep: string)
    requires parts != []
    ensures parts[0] <= Join(parts, sep)
    ensures var r := Join(parts, sep); |Last(parts)| <= |r| && r[|r| - |Last(parts)|..] == Last(parts)
    decreases |parts|
  {
    if |parts| > 1 {
      JoinEnds(parts[1..], sep);
      assert Last(parts[1..]) == Last(parts);
    }
  }

  /** Joining a concatenation puts exactly one separator at the seam. */
  lemma {:induction false} JoinAppend(a: seq<string>, b: seq<string>, sep: string)
    requires a != [] && b != []
    ensures Join(a + b, sep) == Join(a, sep) + sep + Join(b, sep)
    decreases |a|
  {
    if |a| == 1 {
      assert (a + b)[1..] == b;
    } else {
      assert (a + b)[1..] == a[1..] + b;
      JoinAppend(a[1..], b, sep);
    }
  }

  lemma JoinCons(head: string, rest: seq<string>, sep: string)
    requires rest != []
    ensures Join([head] + rest, sep) == head + sep + Join(rest, sep)
  {
    assert ([head] + rest)[1..] == rest;
  }

  /**
   * Python's `s.split('\n\n')`: cut at every leftmost non-overlapping "\n\n". Every piece but
   * the last stops short of a '\n', since otherwise a "\n\n" would have started one earlier.
   */
  function SplitBlankLines(s: string): (parts: seq<string>)
    ensures parts != []
    ensures forall p :: p in parts ==> NoBlankLine(p)
    ensures forall k :: 0 <= k < |parts| - 1 ==> !EndsWithNewline(parts[k])
    ensures Join(parts, BLANK_LINE) == s
    decreases |s|
  {
    var i := FindBlankLine(s, 0);
    if i == |s| then [s]
    else
      var rest := SplitBlankLines(s[i + 2..]);
      assert i > 0 ==> !BlankLineAt(s, i - 1);
      HeadNoBlankLine(s, i);
      JoinCons(s[..i], rest, BLANK_LINE);
      CutAtBlankLine(s, i);
      [s[..i]] + rest
  }

  lemma CutAtBlankLine(s: string, i: nat)
    requires BlankLineAt(s, i)
    ensures s == s[..i] + BLANK_LINE + s[i + 2..]
  {
    assert s[i..i + 2] == BLANK_LINE;
    assert s == s[..i] + s[i..i + 2] + s[i + 2..];
  }

  /** The text before the leftmost "\n\n" holds none. */
  lemma HeadNoBlankLine(s: string, i: nat)
    requires i <= |s| && forall j :: 0 <= j < i ==> !BlankLineAt(s, j)
    ensures NoBlankLine(s[..i])
  {
    forall j | 0 <= j < i ensures !BlankLineAt(s[..i], j) {
      assert !BlankLineAt(s, j);
    }
  }

  /** A text without "\n\n" splits into itself alone. */
  lemma SplitWhole(s: string)
    requires NoBlankLine(s)
    ensures SplitBlankLines(s) == [s]
  {
    var i := FindBlankLine(s, 0);
    assert i < |s| ==> !BlankLineAt(s, i);
  }

  /** A leading part without "\n\n" and without a trailing '\n' is cut off whole by the split. */
  lemma SplitCons(head: string, tail: string)
    requires NoBlankLine(head) && !EndsWithNewline(head)
    ensures SplitBlankLines(head + BLANK_LINE + tail) == [head] + SplitBlankLines(tail)
  {
    var s := head + BLANK_LINE + tail;
    assert BlankLineAt(s, |head|);
    forall j | 0 <= j < |head| ensures !BlankLineAt(s, j) {
      if j + 1 < |head| {
        assert !BlankLineAt(head, j);
      }
    }
    assert FindBlankLine(s, 0) == |head|;
    assert s[..|head|] == head;
    assert s[|head| + 2..] == tail;
  }

  /**
   * Splitting undoes joining on "\n\n" when no part holds a "\n\n" and no part but the last
   * ends with '\n' (such a '\n' would be read as the start of the separator).
   */
  lemma {:induction false} SplitJoin(parts: seq<string>)
    requires parts != []
    requires forall p :: p in parts ==> NoBlankLine(p)
    requires forall k :: 0 <= k < |parts| - 1 ==> !EndsWithNewline(parts[k])
    ensures SplitBlankLines(Join(parts, BLANK_LINE)) == parts
    decreases |parts|
  {
    var p := parts[0];
    assert p in parts;
    if |parts| == 1 {
      assert parts == [p];
      SplitWhole(p);
    } else {
      var tail := parts[1..];
      assert parts == [p] + tail;
      assert forall k :: 0 <= k < |tail| - 1 ==> tail[k] == parts[k + 1];
      SplitJoin(tail);
      JoinCons(p, tail, BLANK_LINE);
      SplitCons(p, Join(tail, BLANK_LINE));
    }
  }
}
