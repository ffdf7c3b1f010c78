/** The JavaScript string operations the catalog normaliser relies on:
    `includes`, `replace` with a string pattern, `split` on a one-character
    separator, `trim` and `toLowerCase`. Strings are sequences of Unicode
    scalar values. */
module JsStrings {
  import opened Wrappers

  // ---------------------------------------------------------------------------
  // Searching: indexOf / includes
  // ---------------------------------------------------------------------------

  /** `pat` occurs in `s` starting at index `i`. */
  predicate OccursAt(s: string, pat: string, i: nat) {
    i + |pat| <= |s| && s[i..i + |pat|] == pat
  }

  /** `pat` is a substring of `s`. */
  ghost predicate Contains(s: string, pat: string) {
    exists i: nat :: OccursAt(s, pat, i)
  }

  /** `i` is the leftmost index at which `pat` occurs in `s`. */
  ghost predicate IsFirstOccurrence(s: string, pat: string, i: nat) {
    OccursAt(s, pat, i) && forall j: nat :: j < i ==> !OccursAt(s, pat, j)
  }

  /** Leftmost occurrence of `pat` in `s` at or after index `from`. */
  function IndexOfFrom(s: string, pat: string, from: nat): (r: Option<nat>)
    ensures r.Some? ==> from <= r.value && OccursAt(s, pat, r.value)
    ensures r.Some? ==> forall j: nat :: from <= j < r.value ==> !OccursAt(s, pat, j)
    ensures r.None? ==> forall j: nat :: from <= j ==> !OccursAt(s, pat, j)
    decreases |s| - from
  {
    if from + |pat| > |s| then None
    else if OccursAt(s, pat, from) then Some(from)
    else IndexOfFrom(s, pat, from + 1)
  }

  /** `s.indexOf(pat)`, with `None` for JavaScript's -1. */
  function IndexOf(s: string, pat: string): (r: Option<nat>)
    ensures r.Some? <==> Contains(s, pat)
    ensures r.Some? ==> IsFirstOccurrence(s, pat, r.value)
  {
    IndexOfFrom(s, pat, 0)
  }

  /** `s.includes(pat)`. */
  predicate Includes(s: string, pat: string)
    ensures Includes(s, pat) <==> Contains(s, pat)
  {
    IndexOf(s, pat).Some?
  }

  /** A pattern holding a character the string lacks does not occur in it. */
  lemma AbsentCharNotContained(s: string, pat: string, c: char)
    requires c in pat && c !in s
    ensures !Contains(s, pat)
  {
    var k :| 0 <= k < |pat| && pat[k] == c;
    forall i: nat ensures !OccursAt(s, pat, i) {
      if i + |pat| <= |s| {
        assert s[i..i + |pat|][k] == s[i + k] != pat[k];
      }
    }
  }

  // ---------------------------------------------------------------------------
  // String.prototype.replace with a string pattern
  // ---------------------------------------------------------------------------

  /** `s.replace(pat, rep)` where `pat` is a string (not a regular expression):
      only the leftmost occurrence is replaced, and `s` is returned unchanged
      when `pat` does not occur. */
  function ReplaceFirst(s: string, pat: string, rep: string): (r: string)
    ensures !Contains(s, pat) ==> r == s
    ensures forall i: nat :: IsFirstOccurrence(s, pat, i) ==> r == s[..i] + rep + s[i + |pat|..]
  {
    match IndexOf(s, pat)
    case None => s
    case Some(i) =>
      assert forall j: nat :: IsFirstOccurrence(s, pat, j) ==> j == i;
      s[..i] + rep + s[i + |pat|..]
  }

  /** Replacing a leading occurrence leaves everything after it alone, even
      further occurrences of the pattern. */
  lemma ReplaceLeading(pat: string, rep: string, rest: string)
    ensures ReplaceFirst(pat + rest, pat, rep) == rep + rest
  {
    var s := pat + rest;
    assert OccursAt(s, pat, 0) by { assert s[0..|pat|] == pat; }
    assert IsFirstOccurrence(s, pat, 0);
    assert s[|pat|..] == rest;
  }

  // ---------------------------------------------------------------------------
  // String.prototype.split on a one-character separator
  // ---------------------------------------------------------------------------

  /** The inverse of splitting: `pieces.join(sep)`. */
  function Join(pieces: seq<string>, sep: char): string
    decreases |pieces|
  {
    if |pieces| == 0 then ""
    else if |pieces| == 1 then pieces[0]
    else pieces[0] + [sep] + Join(pieces[1..], sep)
  }

  /** The index of the first `c` in `s`, or `|s|` when there is none. */
  function FindChar(s: string, c: char): (i: nat)
    ensures i <= |s|
    ensures c !in s[..i]
    ensures i < |s| ==> s[i] == c
    decreases |s|
  {
    if s == "" || s[0] == c then 0
    else
      var j := FindChar(s[1..], c);
      assert s[..j + 1] == [s[0]] + s[1..][..j];
      j + 1
  }

  /** The first `c` is the one `FindChar` finds. */
  lemma {:induction false} FindCharAt(s: string, c: char, i: nat)
    requires i <= |s| && c !in s[..i] && (i < |s| ==> s[i] == c)
    ensures FindChar(s, c) == i
    decreases i
  {
    if i > 0 {
      assert s[0] == s[..i][0];
      assert s[1..][..i - 1] == s[1..i];
      FindCharAt(s[1..], c, i - 1);
    }
  }

  /** `s.split(sep)`: the maximal pieces of `s` free of `sep`, in order. Like
      JavaScript, the empty string splits into one empty piece. */
  function Split(s: string, sep: char): (r: seq<string>)
    ensures |r| >= 1
    ensures forall k :: 0 <= k < |r| ==> sep !in r[k]
    ensures Join(r, sep) == s
    decreases |s|
  {
    var i := FindChar(s, sep);
    if i == |s| then
      assert s[..i] == s;
      [s]
    else
      var head, tail := s[..i], s[i + 1..];
      var rest := Split(tail, sep);
      var r := [head] + rest;
      assert r[1..] == rest;
      assert s == head + [sep] + tail;
      r
  }

  /** A string without the separator is a single piece. */
  lemma SplitWithoutSeparator(s: string, sep: char)
    requires sep !in s
    ensures Split(s, sep) == [s]
  {
    assert s[..|s|] == s;
    FindCharAt(s, sep, |s|);
  }

  /** A piece followed by the separator heads the split. */
  lemma SplitAtFirst(x: string, y: string, sep: char)
    requires sep !in x
    ensures Split(x + [sep] + y, sep) == [x] + Split(y, sep)
  {
    var s := x + [sep] + y;
    assert s[..|x|] == x;
    assert s[|x| + 1..] == y;
    FindCharAt(s, sep, |x|);
  }

  /** Splitting at a separator splits each side on its own. */
  lemma {:induction false} SplitAppend(a: string, b: string, sep: char)
    ensures Split(a + [sep] + b, sep) == Split(a, sep) + Split(b, sep)
    decreases |a|
  {
    var i := FindChar(a, sep);
    if i < |a| {
      var head, tail := a[..i], a[i + 1..];
      assert a == head + [sep] + tail;
      assert a + [sep] + b == head + [sep] + (tail + [sep] + b);
      SplitAtFirst(head, tail, sep);
      SplitAtFirst(head, tail + [sep] + b, sep);
      SplitAppend(tail, b, sep);
    } else {
      assert a[..|a|] == a;
      SplitWithoutSeparator(a, sep);
      SplitAtFirst(a, b, sep);
    }
  }

  // ---------------------------------------------------------------------------
  // String.prototype.trim
  // ---------------------------------------------------------------------------

  /** ECMAScript's WhiteSpace and LineTerminator code points: tab, vertical tab,
      form feed, space, no-break space, byte order mark, every other space
      separator (category Zs), line feed, carriage return, and the line and
      paragraph separators. (U+0009 to U+000D are tab, line feed, vertical
      tab, form feed and carriage return.) */
  predicate IsWhiteSpace(c: char) {
    || '\t' <= c <= '\r'
    || c == ' ' || c == '\U{00A0}' || c == '\U{1680}'
    || '\U{2000}' <= c <= '\U{200A}'
    || c == '\U{2028}' || c == '\U{2029}' || c == '\U{202F}' || c == '\U{205F}'
    || c == '\U{3000}' || c == '\U{FEFF}'
  }

  ghost predicate AllWhiteSpace(s: string) {
    forall k :: 0 <= k < |s| ==> IsWhiteSpace(s[k])
  }

  /** The first index at or after `i` that is not white space, or `|s|`. */
  function TextStart(s: string, i: nat): (n: nat)
    requires i <= |s|
    ensures i <= n <= |s|
    ensures forall k :: i <= k < n ==> IsWhiteSpace(s[k])
    ensures n < |s| ==> !IsWhiteSpace(s[n])
    decreases |s| - i
  {
    if i < |s| && IsWhiteSpace(s[i]) then TextStart(s, i + 1) else i
  }

  /** One past the last index below `j` and at or above `lo` that is not white
      space, or `lo`. */
  function TextEnd(s: string, lo: nat, j: nat): (m: nat)
    requires lo <= j <= |s|
    ensures lo <= m <= j
    ensures forall k :: m <= k < j ==> IsWhiteSpace(s[k])
    ensures m > lo ==> !IsWhiteSpace(s[m - 1])
    decreases j
  {
    if j > lo && IsWhiteSpace(s[j - 1]) then TextEnd(s, lo, j - 1) else j
  }

  /** `s.trim()`: the slice of `s` left once the white space at both ends is
      removed. */
  function Trim(s: string): (r: string)
    ensures r == "" || (!IsWhiteSpace(r[0]) && !IsWhiteSpace(r[|r| - 1]))
    ensures exists i: nat :: i + |r| <= |s| && s[i..i + |r|] == r
                             && AllWhiteSpace(s[..i]) && AllWhiteSpace(s[i + |r|..])
  {
    var a := TextStart(s, 0);
    var b := TextEnd(s, a, |s|);
    assert AllWhiteSpace(s[..a]) by {
      forall k | 0 <= k < a ensures IsWhiteSpace(s[..a][k]) {
        assert s[..a][k] == s[k];
      }
    }
    assert AllWhiteSpace(s[b..]) by {
      forall k | 0 <= k < |s| - b ensures IsWhiteSpace(s[b..][k]) {
        assert s[b..][k] == s[b + k];
      }
    }
    s[a..b]
  }

  /** A trimmed string holds no character that the original lacks. */
  lemma TrimSlice(s: string)
    ensures forall c :: c in Trim(s) ==> c in s
  {
    var a := TextStart(s, 0);
    var r := s[a..TextEnd(s, a, |s|)];
    forall c | c in r ensures c in s {
      var k :| 0 <= k < |r| && r[k] == c;
      assert s[a + k] == c;
    }
  }

  /** Trimming removes only white space: every other character stays. */
  lemma TrimKeeps(s: string, k: nat)
    requires k < |s| && !IsWhiteSpace(s[k])
    ensures s[k] in Trim(s)
  {
    var a := TextStart(s, 0);
    var b := TextEnd(s, a, |s|);
    assert a <= k < b;
    assert s[a..b][k - a] == s[k];
  }

  /** A string with no white space at either end is its own trim. */
  lemma TrimUnchanged(s: string)
    requires s == "" || (!IsWhiteSpace(s[0]) && !IsWhiteSpace(s[|s| - 1]))
    ensures Trim(s) == s
  {
    assert TextStart(s, 0) == 0;
    assert s[0..|s|] == s;
  }

  /** Trimming twice is trimming once. */
  lemma TrimIdempotent(s: string)
    ensures Trim(Trim(s)) == Trim(s)
  {
    TrimUnchanged(Trim(s));
  }

  /** The scan from `i` stops at the first index `n` past a run of white space. */
  lemma {:induction false} TextStartAt(s: string, i: nat, n: nat)
    requires i <= n <= |s|
    requires forall k :: i <= k < n ==> IsWhiteSpace(s[k])
    requires n < |s| ==> !IsWhiteSpace(s[n])
    ensures TextStart(s, i) == n
    decreases n - i
  {
    if i < n {
      TextStartAt(s, i + 1, n);
    }
  }

  /** The scan down from `j` stops just after the last index `m - 1` before a
      run of white space. */
  lemma {:induction false} TextEndAt(s: string, lo: nat, m: nat, j: nat)
    requires lo <= m <= j <= |s|
    requires forall k :: m <= k < j ==> IsWhiteSpace(s[k])
    requires m > lo ==> !IsWhiteSpace(s[m - 1])
    ensures TextEnd(s, lo, j) == m
    decreases j - m
  {
    if m < j {
      TextEndAt(s, lo, m, j - 1);
    }
  }

  /** Trimming white space from around a string that has no white space at its
      ends gives that string back. */
  lemma TrimAround(pre: string, t: string, post: string)
    requires AllWhiteSpace(pre) && AllWhiteSpace(post)
    requires t != "" && !IsWhiteSpace(t[0]) && !IsWhiteSpace(t[|t| - 1])
    ensures Trim(pre + t + post) == t
  {
    var s := pre + t + post;
    var a, b := |pre|, |pre| + |t|;
    forall k | 0 <= k < a ensures IsWhiteSpace(s[k]) {
      assert s[k] == pre[k];
    }
    forall k | b <= k < |s| ensures IsWhiteSpace(s[k]) {
      assert s[k] == post[k - b];
    }
    assert s[a] == t[0] && s[b - 1] == t[|t| - 1];
    TextStartAt(s, 0, a);
    TextEndAt(s, a, b, |s|);
    assert s[a..b] == t;
  }

  // ---------------------------------------------------------------------------
  // String.prototype.toLowerCase
  // ---------------------------------------------------------------------------

  predicate IsAsciiUpper(c: char) {
    'A' <= c <= 'Z'
  }

  /** The lower-case mapping of one character. ASCII capitals map to ASCII
      small letters; the two non-ASCII characters whose lower case contains ASCII
      map as in Unicode (U+0130 to "i" with a combining dot above, U+212A KELVIN
      SIGN to "k"); every other character is kept as it is. */
  function LowerChar(c: char): string {
    if IsAsciiUpper(c) then [(c as int + 32) as char]
    else if c == '\U{0130}' then ['i', '\U{0307}']
    else if c == '\U{212A}' then ['k']
    else [c]
  }

  /** A character that the lower-case mapping leaves alone. */
  predicate IsLowerFixed(c: char) {
    !IsAsciiUpper(c) && c != '\U{0130}' && c != '\U{212A}'
  }

  /** `s.toLowerCase()`. */
  function ToLower(s: string): (r: string)
    ensures |r| >= |s|
    ensures forall k :: 0 <= k < |r| ==> IsLowerFixed(r[k])
    decreases |s|
  {
    if s == "" then "" else LowerChar(s[0]) + ToLower(s[1..])
  }

  lemma {:induction false} ToLowerAppend(a: string, b: string)
    ensures ToLower(a + b) == ToLower(a) + ToLower(b)
    decreases |a|
  {
    if a != "" {
      assert (a + b)[1..] == a[1..] + b;
      ToLowerAppend(a[1..], b);
    } else {
      assert a + b == b;
    }
  }

  /** A string whose characters are all fixed by the mapping is already lower case. */
  lemma {:induction false} ToLowerFixed(s: string)
    requires forall k :: 0 <= k < |s| ==> IsLowerFixed(s[k])
    ensures ToLower(s) == s
    decreases |s|
  {
    if s != "" {
      ToLowerFixed(s[1..]);
      assert s == [s[0]] + s[1..];
    }
  }

  /** Lower-casing twice is lower-casing once. */
  lemma ToLowerIdempotent(s: string)
    ensures ToLower(ToLower(s)) == ToLower(s)
  {
    ToLowerFixed(ToLower(s));
  }

  /** On ASCII text the mapping is length-preserving and character-wise. */
  lemma {:induction false} ToLowerAscii(s: string)
    requires forall k :: 0 <= k < |s| ==> s[k] < '\U{0080}'
    ensures |ToLower(s)| == |s|
    ensures forall k :: 0 <= k < |s| ==> ToLower(s)[k] == LowerChar(s[k])[0]
    decreases |s|
  {
    if s != "" {
      ToLowerAscii(s[1..]);
    }
  }
}
