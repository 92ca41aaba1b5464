/**
  The .NET string primitives the core relies on, as functions on `seq<char>`:
  char.IsWhiteSpace, Trim/TrimStart/TrimEnd, StartsWith, ordinal Contains/IndexOf,
  String.Replace, String.Split with RemoveEmptyEntries, and simple case folding.
 */
module Strings {

  /** char.IsWhiteSpace: the Unicode space separators, line and paragraph separators,
      U+0009..U+000D, U+0085 and U+00A0. */
  predicate IsWhiteSpace(c: char) {
    c == ' ' || ('\t' <= c <= '\r') || c == '\U{0085}' || c == '\U{00A0}' || c == '\U{1680}'
    || ('\U{2000}' <= c <= '\U{200A}') || c == '\U{2028}' || c == '\U{2029}' || c == '\U{202F}'
    || c == '\U{205F}' || c == '\U{3000}'
  }

  /** string.IsNullOrWhiteSpace: every character is white space. */
  predicate IsNullOrWhiteSpace(s: string) {
    forall i :: 0 <= i < |s| ==> IsWhiteSpace(s[i])
  }

  /** Removes the longest prefix of characters satisfying `drop`. */
  function TrimStartBy(s: string, drop: char -> bool): (r: string)
    ensures |r| <= |s| && r == s[|s| - |r|..]
    ensures forall i :: 0 <= i < |s| - |r| ==> drop(s[i])
    ensures r == [] || !drop(r[0])
    decreases |s|
  {
    if s != [] && drop(s[0]) then TrimStartBy(s[1..], drop) else s
  }

  /** Removes the longest suffix of characters satisfying `drop`. */
  function TrimEndBy(s: string, drop: char -> bool): (r: string)
    ensures |r| <= |s| && r == s[..|r|]
    ensures forall i :: |r| <= i < |s| ==> drop(s[i])
    ensures r == [] || !drop(r[|r| - 1])
    decreases |s|
  {
    if s != [] && drop(s[|s| - 1]) then TrimEndBy(s[..|s| - 1], drop) else s
  }

  /** String.Trim(chars): both ends. */
  function TrimBy(s: string, drop: char -> bool): string {
    TrimEndBy(TrimStartBy(s, drop), drop)
  }

  function TrimStart(s: string): string { TrimStartBy(s, IsWhiteSpace) }
  function TrimEnd(s: string): string { TrimEndBy(s, IsWhiteSpace) }
  function Trim(s: string): string { TrimBy(s, IsWhiteSpace) }

  /** Trimming leaves a string alone whose two ends are kept characters. */
  lemma TrimByKeeps(s: string, drop: char -> bool)
    requires s != [] && !drop(s[0]) && !drop(s[|s| - 1])
    ensures TrimBy(s, drop) == s
  {
    assert TrimStartBy(s, drop) == s;
  }

  /** Trimming removes exactly the dropped characters padded around a string with kept ends. */
  lemma TrimByAround(a: string, s: string, b: string, drop: char -> bool)
    requires forall i :: 0 <= i < |a| ==> drop(a[i])
    requires forall i :: 0 <= i < |b| ==> drop(b[i])
    requires s != [] && !drop(s[0]) && !drop(s[|s| - 1])
    ensures TrimBy(a + s + b, drop) == s
  {
    var t := s + b;
    assert a + s + b == a + t;
    TrimStartAround(a, t, drop);
    TrimEndAround(s, b, drop);
  }

  lemma TrimStartAround(a: string, t: string, drop: char -> bool)
    requires forall i :: 0 <= i < |a| ==> drop(a[i])
    requires t != [] && !drop(t[0])
    ensures TrimStartBy(a + t, drop) == t
  {
    var x := a + t;
    var r := TrimStartBy(x, drop);
    assert x[|a|] == t[0];
    assert |r| == |t|;
    assert r == x[|a|..];
  }

  lemma TrimEndAround(t: string, b: string, drop: char -> bool)
    requires forall i :: 0 <= i < |b| ==> drop(b[i])
    requires t != [] && !drop(t[|t| - 1])
    ensures TrimEndBy(t + b, drop) == t
  {
    var x := t + b;
    var r := TrimEndBy(x, drop);
    assert x[|t| - 1] == t[|t| - 1];
    assert |r| == |t|;
    assert r == x[..|t|];
  }

  /** A trimmed string is a contiguous part of the original. */
  lemma TrimIsSlice(s: string)
    ensures exists i, j :: 0 <= i <= j <= |s| && Trim(s) == s[i..j]
  {
    var a := TrimStart(s);
    var i := |s| - |a|;
    var b := TrimEnd(a);
    assert b == s[i..i + |b|];
  }

  /** The upper-case letters that simple case folding maps: A-Z and the Latin-1 capitals. */
  predicate IsUpper(c: char) {
    'A' <= c <= 'Z' || ('\U{00C0}' <= c <= '\U{00DE}' && c != '\U{00D7}')
  }

  function ToLowerChar(c: char): (l: char)
    ensures IsUpper(c) ==> l as int == c as int + 32 && !IsUpper(l)
    ensures !IsUpper(c) ==> l == c
  {
    if IsUpper(c) then (c as int + 32) as char else c
  }

  /** Simple case folding (String.ToLowerInvariant on ASCII and Latin-1): the result has no
      upper-case letter left, every upper-case letter becomes its small letter, and every
      other character is kept. */
  function ToLower(s: string): (r: string)
    ensures |r| == |s|
    ensures forall i :: 0 <= i < |r| ==> !IsUpper(r[i])
    ensures forall i :: 0 <= i < |s| && IsUpper(s[i]) ==> r[i] as int == s[i] as int + 32
    ensures forall i :: 0 <= i < |s| && !IsUpper(s[i]) ==> r[i] == s[i]
  {
    seq(|s|, i requires 0 <= i < |s| => ToLowerChar(s[i]))
  }

  /** Folding twice is folding once. */
  lemma ToLowerIdempotent(s: string)
    ensures ToLower(ToLower(s)) == ToLower(s)
  {
  }

  /** A text without upper-case letters is its own folded form. */
  lemma ToLowerWithoutUpper(s: string)
    requires forall i :: 0 <= i < |s| ==> !IsUpper(s[i])
    ensures ToLower(s) == s
  {
  }

  /** Equality ignoring case (InvariantCultureIgnoreCase, OrdinalIgnoreCase). */
  predicate EqualsIgnoreCase(a: string, b: string) {
    ToLower(a) == ToLower(b)
  }

  /** String.StartsWith, compared character by character (the .NET overload taking a string
      compares under the current culture, which this model does not capture). */
  predicate StartsWith(s: string, prefix: string) {
    |prefix| <= |s| && s[..|prefix|] == prefix
  }

  /** Ordinal String.Contains. */
  predicate Contains(s: string, pattern: string)
    decreases |s|
  {
    StartsWith(s, pattern) || (s != [] && Contains(s[1..], pattern))
  }

  /** String.IndexOf(char): the first position of `c`, or -1. */
  function IndexOf(s: string, c: char): (r: int)
    ensures -1 <= r < |s|
    ensures r == -1 ==> c !in s
    ensures 0 <= r ==> s[r] == c && c !in s[..r]
    decreases |s|
  {
    if s == [] then -1
    else if s[0] == c then 0
    else
      var k := IndexOf(s[1..], c);
      if k == -1 then -1
      else assert s[..k + 1] == [s[0]] + s[1..][..k]; k + 1
  }

  /** Ordinal String.Replace: every non-overlapping occurrence of `pattern`, scanning from the left. */
  function Replace(s: string, pattern: string, replacement: string): (r: string)
    requires pattern != []
    ensures !Contains(s, pattern) ==> r == s
    decreases |s|
  {
    if |s| < |pattern| then s
    else if s[..|pattern|] == pattern then replacement + Replace(s[|pattern|..], pattern, replacement)
    else [s[0]] + Replace(s[1..], pattern, replacement)
  }

  /** Replacing inside `a + c` passes over a prefix `a` in which no occurrence can start. */
  lemma {:induction false} ReplaceSkip(a: string, c: string, pattern: string, replacement: string)
    requires pattern != [] && pattern[0] !in a
    ensures Replace(a + c, pattern, replacement) == a + Replace(c, pattern, replacement)
    decreases |a|
  {
    if a != [] {
      var s := a + c;
      assert a[0] in a;
      if |s| >= |pattern| {
        assert s[..|pattern|][0] == a[0] != pattern[0];
        assert s[..|pattern|] != pattern;
        assert s[1..] == a[1..] + c;
        calc {
          Replace(s, pattern, replacement);
          [s[0]] + Replace(s[1..], pattern, replacement);
          { ReplaceSkip(a[1..], c, pattern, replacement); }
          [a[0]] + (a[1..] + Replace(c, pattern, replacement));
          { assert a == [a[0]] + a[1..]; }
          a + Replace(c, pattern, replacement);
        }
      } else {
        assert Replace(c, pattern, replacement) == c;
      }
    } else {
      assert a + c == c;
    }
  }

  /** An occurrence at the front is replaced. */
  lemma ReplaceHit(c: string, pattern: string, replacement: string)
    requires pattern != []
    ensures Replace(pattern + c, pattern, replacement) == replacement + Replace(c, pattern, replacement)
  {
    var s := pattern + c;
    assert s[..|pattern|] == pattern;
    assert s[|pattern|..] == c;
  }

  /** Replacing passes over a first character where the pattern does not start. */
  lemma ReplaceMissAtFront(s: string, pattern: string, replacement: string)
    requires pattern != [] && s != [] && |pattern| >= 2 && (|s| >= 2 ==> s[1] != pattern[1])
    ensures Replace(s, pattern, replacement) == [s[0]] + Replace(s[1..], pattern, replacement)
  {
    if |s| >= |pattern| {
      assert s[..|pattern|][1] != pattern[1];
    } else {
      assert Replace(s[1..], pattern, replacement) == s[1..];
    }
  }

  /** The parts of `s` between the occurrences of `sep` (String.Split without options). */
  function SplitParts(s: string, sep: char): (r: seq<string>)
    ensures |r| >= 1
    decreases |s|
  {
    if s == [] then [[]]
    else
      var rest := SplitParts(s[1..], sep);
      if s[0] == sep then [[]] + rest else [[s[0]] + rest[0]] + rest[1..]
  }

  /** The non-empty parts, in order (StringSplitOptions.RemoveEmptyEntries). */
  function RemoveEmpty(parts: seq<string>): (r: seq<string>)
    ensures |r| <= |parts|
    ensures forall k :: 0 <= k < |r| ==> r[k] != [] && r[k] in parts
  {
    if parts == [] then []
    else if parts[0] == [] then RemoveEmpty(parts[1..])
    else [parts[0]] + RemoveEmpty(parts[1..])
  }

  lemma {:induction false} RemoveEmptyAppend(a: seq<string>, b: seq<string>)
    ensures RemoveEmpty(a + b) == RemoveEmpty(a) + RemoveEmpty(b)
    decreases |a|
  {
    if a == [] {
      assert a + b == b;
    } else {
      var t := a + b;
      assert t[0] == a[0] && t[1..] == a[1..] + b;
      RemoveEmptyAppend(a[1..], b);
      var tail, rb := RemoveEmpty(a[1..]), RemoveEmpty(b);
      if a[0] == [] {
        assert RemoveEmpty(t) == RemoveEmpty(t[1..]);
        assert RemoveEmpty(a) == tail;
      } else {
        assert RemoveEmpty(t) == [a[0]] + RemoveEmpty(t[1..]);
        assert RemoveEmpty(a) == [a[0]] + tail;
        assert [a[0]] + (tail + rb) == ([a[0]] + tail) + rb;
      }
    }
  }

  /** String.Split(sep, RemoveEmptyEntries). */
  function Split(s: string, sep: char): (r: seq<string>)
    ensures forall k :: 0 <= k < |r| ==> r[k] != [] && sep !in r[k]
  {
    SplitPartsAvoid(s, sep);
    RemoveEmpty(SplitParts(s, sep))
  }

  /** No part contains the separator. */
  lemma {:induction false} SplitPartsAvoid(s: string, sep: char)
    ensures forall k :: 0 <= k < |SplitParts(s, sep)| ==> sep !in SplitParts(s, sep)[k]
    decreases |s|
  {
    if s != [] { SplitPartsAvoid(s[1..], sep); }
  }

  /** A string without the separator is a single part. */
  lemma {:induction false} SplitPartsSingle(a: string, sep: char)
    requires sep !in a
    ensures SplitParts(a, sep) == [a]
    decreases |a|
  {
    if a != [] {
      assert a[0] in a;
      SplitPartsSingle(a[1..], sep);
      assert [a[0]] + a[1..] == a;
    }
  }

  /** A separator after a separator-free prefix ends the first part. */
  lemma {:induction false} SplitPartsCons(a: string, b: string, sep: char)
    requires sep !in a
    ensures SplitParts(a + [sep] + b, sep) == [a] + SplitParts(b, sep)
    decreases |a|
  {
    var s := a + [sep] + b;
    if a == [] {
      assert s[1..] == b;
    } else {
      assert a[0] in a;
      assert s[0] == a[0] && s[1..] == a[1..] + [sep] + b;
      SplitPartsCons(a[1..], b, sep);
      assert [a[0]] + a[1..] == a;
    }
  }
}
