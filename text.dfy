/** The handful of Python `str` operations the core relies on: `isspace`, `strip`,
    `splitlines`, `split(sep)`, `join`, `lower`, `replace`, `startswith` and the
    `in` substring test. Case mapping is ASCII-only. */
module Text {
  import opened Wrappers

  /** The characters Python's `str.isspace()` accepts; `strip()` and the regex class
      `\s` use the same set. */
  predicate IsSpace(c: char) {
    ('\t' <= c <= '\r') || ('\U{1C}' <= c <= '\U{1F}') || c == ' ' || c == '\U{85}'
    || c == '\U{A0}' || c == '\U{1680}' || ('\U{2000}' <= c <= '\U{200A}')
    || c == '\U{2028}' || c == '\U{2029}' || c == '\U{202F}' || c == '\U{205F}'
    || c == '\U{3000}'
  }

  /** The line boundaries of Python's `str.splitlines()`. */
  predicate IsLineBreak(c: char) {
    ('\n' <= c <= '\r') || ('\U{1C}' <= c <= '\U{1E}') || c == '\U{85}'
    || c == '\U{2028}' || c == '\U{2029}'
  }

  lemma {:induction false} LineBreakIsSpace(c: char)
    requires IsLineBreak(c)
    ensures IsSpace(c)
  {
  }

  predicate AllSpace(s: string) {
    forall i :: 0 <= i < |s| ==> IsSpace(s[i])
  }

  lemma {:induction false} AllSpaceConcat(a: string, b: string)
    requires AllSpace(a) && AllSpace(b)
    ensures AllSpace(a + b)
  {
  }

  // ---------------------------------------------------------------- strip

  function TrimLeft(s: string): (r: string)
    ensures |r| <= |s| && r == s[|s| - |r|..]
    ensures AllSpace(s[..|s| - |r|])
    ensures r == [] || !IsSpace(r[0])
  {
    if s != [] && IsSpace(s[0]) then
      var r := TrimLeft(s[1..]);
      assert s[1..][..|s[1..]| - |r|] == s[1..|s| - |r|];
      r
    else s
  }

  function TrimRight(s: string): (r: string)
    ensures |r| <= |s| && r == s[..|r|]
    ensures AllSpace(s[|r|..])
    ensures r == [] || !IsSpace(r[|r| - 1])
  {
    if s != [] && IsSpace(s[|s| - 1]) then
      var r := TrimRight(s[..|s| - 1]);
      assert s[..|s| - 1][|r|..] + [s[|s| - 1]] == s[|r|..];
      r
    else s
  }

  /** The number of white-space characters `s` starts with. */
  function LeadingSpace(s: string): (n: nat)
    ensures n <= |s|
  {
    |s| - |TrimLeft(s)|
  }

  /** Python's `s.strip()`: `s` without its leading and trailing white space. */
  function Strip(s: string): (r: string)
    ensures |r| <= |s|
    ensures r == [] || (!IsSpace(r[0]) && !IsSpace(r[|r| - 1]))
  {
    TrimRight(TrimLeft(s))
  }

  /** The stripped text is the slice of `s` after its leading white space, and only white
      space lies around it. */
  lemma {:induction false} StripSlice(s: string)
    ensures SpaceAround(s, LeadingSpace(s), Strip(s))
  {
    SliceOfSuffix(s, TrimLeft(s), Strip(s));
  }

  /** `r` is the slice of `s` that starts at `lo`, and only white space lies before and
      after it in `s`. */
  predicate SpaceAround(s: string, lo: nat, r: string) {
    lo + |r| <= |s| && r == s[lo..lo + |r|] && AllSpace(s[..lo]) && AllSpace(s[lo + |r|..])
  }

  /** A prefix `r` of a suffix `t` of `s`, with only white space before `t` and after `r`
      in `t`, is a slice of `s` with only white space around it. */
  lemma {:induction false} SliceOfSuffix(s: string, t: string, r: string)
    requires |t| <= |s| && t == s[|s| - |t|..] && AllSpace(s[..|s| - |t|])
    requires |r| <= |t| && r == t[..|r|] && AllSpace(t[|r|..])
    ensures SpaceAround(s, |s| - |t|, r)
  {
    var lo := |s| - |t|;
    assert s[lo + |r|..] == t[|r|..];
  }


  /** A stripped string is empty exactly when the original was all white space. */
  lemma {:induction false} StripEmptyIff(s: string)
    ensures Strip(s) == [] <==> AllSpace(s)
  {
    var r, lo := Strip(s), LeadingSpace(s);
    StripSlice(s);
    if r == [] {
      assert s == s[..lo] + s[lo..];
      AllSpaceConcat(s[..lo], s[lo..]);
    } else {
      assert s[lo] == r[0];
    }
  }

  /** Every character of a stripped string comes from the original. */
  lemma {:induction false} StripChars(s: string, c: char)
    requires c in Strip(s)
    ensures c in s
  {
    var t := TrimLeft(s);
    var r := TrimRight(t);
    var i :| 0 <= i < |r| && r[i] == c;
    assert t[i] == c;
    assert s[|s| - |t| + i] == c;
  }

  /** Stripping twice changes nothing. */
  lemma {:induction false} StripIdempotent(s: string)
    ensures Strip(Strip(s)) == Strip(s)
  {
    var r := Strip(s);
    if r != [] {
      assert TrimLeft(r) == r;
      assert TrimRight(r) == r;
    }
  }

  // ---------------------------------------------------------------- visible characters

  /** The characters of `s` that are not white space, in order. */
  function Visible(s: string): string {
    if s == [] then [] else (if IsSpace(s[0]) then [] else [s[0]]) + Visible(s[1..])
  }

  lemma {:induction false} VisibleConcat(a: string, b: string)
    ensures Visible(a + b) == Visible(a) + Visible(b)
  {
    if a == [] {
      assert a + b == b;
    } else {
      var h := if IsSpace(a[0]) then [] else [a[0]];
      assert (a + b)[0] == a[0] && (a + b)[1..] == a[1..] + b;
      assert Visible(a + b) == h + Visible(a[1..] + b);
      VisibleConcat(a[1..], b);
      assert Visible(a) == h + Visible(a[1..]);
      assert h + (Visible(a[1..]) + Visible(b)) == (h + Visible(a[1..])) + Visible(b);
    }
  }

  lemma {:induction false} VisibleOfSpaces(s: string)
    requires AllSpace(s)
    ensures Visible(s) == []
  {
    if s != [] { VisibleOfSpaces(s[1..]); }
  }

  /** Stripping removes white space only. */
  lemma {:induction false} StripVisible(s: string)
    ensures Visible(Strip(s)) == Visible(s)
  {
    var r, lo := Strip(s), LeadingSpace(s);
    StripSlice(s);
    assert s == s[..lo] + r + s[lo + |r|..];
    VisibleConcat(s[..lo] + r, s[lo + |r|..]);
    VisibleConcat(s[..lo], r);
    VisibleOfSpaces(s[..lo]);
    VisibleOfSpaces(s[lo + |r|..]);
  }

  // ---------------------------------------------------------------- ASCII classes

  /** The regex class `[A-Za-z]`. */
  predicate IsAsciiLetter(c: char) {
    ('a' <= c <= 'z') || ('A' <= c <= 'Z')
  }

  predicate IsAsciiDigit(c: char) {
    '0' <= c <= '9'
  }

  /** `s` holds no character of `[A-Za-z]`. */
  predicate NoAsciiLetter(s: string) {
    forall c :: c in s ==> !IsAsciiLetter(c)
  }

  lemma {:induction false} NoAsciiLetterConcat(a: string, b: string)
    requires NoAsciiLetter(a) && NoAsciiLetter(b)
    ensures NoAsciiLetter(a + b)
  {
  }

  lemma {:induction false} NoAsciiLetterAt(s: string)
    requires NoAsciiLetter(s)
    ensures forall j :: 0 <= j < |s| ==> !IsAsciiLetter(s[j])
  {
    forall j | 0 <= j < |s| ensures !IsAsciiLetter(s[j]) { assert s[j] in s; }
  }

  lemma {:induction false} NoAsciiLetterSlice(s: string, lo: nat, hi: nat)
    requires NoAsciiLetter(s) && lo <= hi <= |s|
    ensures NoAsciiLetter(s[lo..hi])
  {
    forall c | c in s[lo..hi] ensures c in s {
      var j :| 0 <= j < hi - lo && s[lo..hi][j] == c;
      assert s[lo + j] == c;
    }
  }

  // ---------------------------------------------------------------- case

  /** ASCII `lower()` of one character. */
  function LowerChar(c: char): (d: char)
    ensures ('A' <= c <= 'Z') ==> d as int == c as int + 32
    ensures !('A' <= c <= 'Z') ==> d == c
  {
    if 'A' <= c <= 'Z' then (c as int + 32) as char else c
  }

  function Lower(s: string): (r: string)
    ensures |r| == |s| && forall i :: 0 <= i < |s| ==> r[i] == LowerChar(s[i])
  {
    if s == [] then [] else [LowerChar(s[0])] + Lower(s[1..])
  }

  /** Lowercasing twice changes nothing. */
  lemma {:induction false} LowerIdempotent(s: string)
    ensures Lower(Lower(s)) == Lower(s)
  {
    assert forall i :: 0 <= i < |s| ==> Lower(Lower(s))[i] == Lower(s)[i];
  }

  /** No uppercase ASCII letter is left. */
  lemma {:induction false} LowerHasNoUpper(s: string)
    ensures forall j :: 0 <= j < |Lower(s)| ==> !('A' <= Lower(s)[j] <= 'Z')
  {
  }

  /** A string without ASCII letters is its own lowercase. */
  lemma {:induction false} LowerNonLetters(s: string)
    requires forall j :: 0 <= j < |s| ==> !('A' <= s[j] <= 'Z')
    ensures Lower(s) == s
  {
  }

  lemma {:induction false} LowerConcat(a: string, b: string)
    ensures Lower(a + b) == Lower(a) + Lower(b)
  {
  }

  // ---------------------------------------------------------------- substrings

  predicate StartsWith(s: string, p: string) {
    |p| <= |s| && s[..|p|] == p
  }

  predicate EndsWith(s: string, p: string) {
    |p| <= |s| && s[|s| - |p|..] == p
  }

  /** `needle` occurs in `s` at index `i`. */
  predicate OccursAt(s: string, needle: string, i: nat) {
    i + |needle| <= |s| && s[i..i + |needle|] == needle
  }

  /** Python's `needle in s`. */
  ghost predicate Contains(s: string, needle: string) {
    exists i: nat :: OccursAt(s, needle, i)
  }

  /** Python's `any(k in s for k in keys)`. */
  ghost predicate ContainsAny(s: string, keys: seq<string>) {
    exists k :: k in keys && Contains(s, k)
  }

  /** The leftmost index at or after `i` where `needle` occurs, as `str.find` computes it. */
  function FindFrom(s: string, needle: string, i: nat): (r: Option<nat>)
    requires i <= |s|
    ensures r.Some? ==> i <= r.value && OccursAt(s, needle, r.value)
    ensures r.Some? ==> forall j: nat :: i <= j < r.value ==> !OccursAt(s, needle, j)
    ensures r.None? ==> forall j: nat :: i <= j ==> !OccursAt(s, needle, j)
    decreases |s| - i
  {
    if OccursAt(s, needle, i) then Some(i)
    else if i == |s| then None
    else FindFrom(s, needle, i + 1)
  }

  /** A decision procedure for `Contains`. */
  function ContainsText(s: string, needle: string): (b: bool)
    ensures b <==> Contains(s, needle)
  {
    FindFrom(s, needle, 0).Some?
  }

  function ContainsAnyText(s: string, keys: seq<string>): (b: bool)
    ensures b <==> ContainsAny(s, keys)
  {
    if keys == [] then false
    else ContainsText(s, keys[0]) || ContainsAnyText(s, keys[1..])
  }

  // ---------------------------------------------------------------- split and join

  /** Python's `s.split(sep)` for a non-empty separator. */
  function Split(s: string, sep: string): (parts: seq<string>)
    requires |sep| > 0
    ensures |parts| >= 1
    decreases |s|
  {
    match FindFrom(s, sep, 0)
    case None => [s]
    case Some(k) => [s[..k]] + Split(s[k + |sep|..], sep)
  }

  /** Python's `sep.join(parts)`. */
  function Join(parts: seq<string>, sep: string): string {
    if parts == [] then []
    else if |parts| == 1 then parts[0]
    else parts[0] + sep + Join(parts[1..], sep)
  }

  /** Splitting and joining again gives back the original string. */
  lemma {:induction false} JoinSplit(s: string, sep: string)
    requires |sep| > 0
    ensures Join(Split(s, sep), sep) == s
    decreases |s|
  {
    var f := FindFrom(s, sep, 0);
    if f.Some? {
      var k := f.value;
      var rest := s[k + |sep|..];
      JoinSplit(rest, sep);
      SplitFound(s, sep, k);
      JoinCons(s[..k], Split(rest, sep), sep);
      assert s[k..k + |sep|] == sep;
      assert s == s[..k] + s[k..k + |sep|] + rest;
    }
  }

  lemma {:induction false} SplitFound(s: string, sep: string, k: nat)
    requires |sep| > 0 && FindFrom(s, sep, 0) == Some(k)
    ensures Split(s, sep) == [s[..k]] + Split(s[k + |sep|..], sep)
  {
  }

  lemma {:induction false} JoinCons(p: string, tail: seq<string>, sep: string)
    requires |tail| >= 1
    ensures Join([p] + tail, sep) == p + sep + Join(tail, sep)
  {
    assert ([p] + tail)[0] == p;
    assert ([p] + tail)[1..] == tail;
  }

  /** Python's `"".join(parts)`. */
  function Concat(parts: seq<string>): string {
    if parts == [] then [] else parts[0] + Concat(parts[1..])
  }

  lemma {:induction false} ConcatAppend(parts: seq<string>, p: string)
    ensures Concat(parts + [p]) == Concat(parts) + p
  {
    if parts != [] {
      assert (parts + [p])[1..] == parts[1..] + [p];
      ConcatAppend(parts[1..], p);
    }
  }

  /** The index of the first line boundary at or after `i` (or `|s|`). */
  function FirstBreak(s: string, i: nat): (k: nat)
    requires i <= |s|
    ensures i <= k <= |s|
    ensures forall j :: i <= j < k ==> !IsLineBreak(s[j])
    ensures k < |s| ==> IsLineBreak(s[k])
    decreases |s| - i
  {
    if i == |s| || IsLineBreak(s[i]) then i else FirstBreak(s, i + 1)
  }

  /** No character of `s` is a line boundary. */
  predicate NoLineBreak(s: string) {
    forall j :: 0 <= j < |s| ==> !IsLineBreak(s[j])
  }

  /** Python's `s.splitlines()`: `\r\n` is one boundary, and a final boundary does not
      start an empty last line. */
  function SplitLines(s: string): (lines: seq<string>)
    ensures forall k :: 0 <= k < |lines| ==> NoLineBreak(lines[k])
    ensures s == [] <==> lines == []
    decreases |s|
  {
    if s == [] then []
    else
      var k := FirstBreak(s, 0);
      if k == |s| then [s]
      else
        var next := if s[k] == '\r' && k + 1 < |s| && s[k + 1] == '\n' then k + 2 else k + 1;
        [s[..k]] + SplitLines(s[next..])
  }

  /** Python's `s.replace(a, b)` for single characters. */
  function ReplaceChar(s: string, a: char, b: char): (r: string)
    ensures |r| == |s|
    ensures forall i :: 0 <= i < |s| ==> r[i] == (if s[i] == a then b else s[i])
  {
    if s == [] then [] else [if s[0] == a then b else s[0]] + ReplaceChar(s[1..], a, b)
  }
}
