/** Python string primitives the scripts rely on: `str.upper`, `str.strip`,
    the `in` substring test and prefix/suffix tests. */
module Text {

  /** `str.isspace()` for one character: the characters Python's `str.strip()`
      removes when called without arguments. */
  predicate IsSpace(c: char) {
    c == ' ' || c == '\t' || c == '\n' || c == '\r' || c == '\U{B}' || c == '\U{C}'
    || ('\U{1C}' <= c <= '\U{1F}') || c == '\U{85}' || c == '\U{A0}' || c == '\U{1680}'
    || ('\U{2000}' <= c <= '\U{200A}') || c == '\U{2028}' || c == '\U{2029}' || c == '\U{202F}'
    || c == '\U{205F}' || c == '\U{3000}'
  }

  /** Upper-cases one ASCII letter; every other character is kept. */
  function UpperChar(c: char): (u: char)
    ensures 'a' <= c <= 'z' ==> u as int == c as int - 32
    ensures !('a' <= c <= 'z') ==> u == c
    ensures !('a' <= u <= 'z')
  {
    if 'a' <= c <= 'z' then (c as int - 32) as char else c
  }

  /** `s.upper()`, restricted to the ASCII letters. */
  function Upper(s: string): (u: string)
    ensures |u| == |s|
    ensures forall i :: 0 <= i < |s| ==> u[i] == UpperChar(s[i])
  {
    seq(|s|, i requires 0 <= i < |s| => UpperChar(s[i]))
  }

  predicate IsUpper(s: string) {
    forall i :: 0 <= i < |s| ==> !('a' <= s[i] <= 'z')
  }

  lemma UpperIsUpper(s: string)
    ensures IsUpper(Upper(s)) && Upper(Upper(s)) == Upper(s)
  {
  }

  lemma UpperOfUpper(s: string)
    requires IsUpper(s)
    ensures Upper(s) == s
  {
  }

  lemma UpperAppend(a: string, b: string)
    ensures Upper(a + b) == Upper(a) + Upper(b)
  {
  }

  /** Drops leading whitespace (`str.lstrip()`). */
  function TrimStart(s: string): (r: string)
    ensures |r| <= |s| && r == s[|s| - |r|..]
    ensures forall i :: 0 <= i < |s| - |r| ==> IsSpace(s[i])
    ensures r == [] || !IsSpace(r[0])
  {
    if |s| > 0 && IsSpace(s[0]) then TrimStart(s[1..]) else s
  }

  /** Drops trailing whitespace (`str.rstrip()`). */
  function TrimEnd(s: string): (r: string)
    ensures |r| <= |s| && r == s[..|r|]
    ensures forall i :: |r| <= i < |s| ==> IsSpace(s[i])
    ensures r == [] || !IsSpace(r[|r| - 1])
  {
    if |s| > 0 && IsSpace(s[|s| - 1]) then TrimEnd(s[..|s| - 1]) else s
  }

  /** `s.strip()`: the infix of `s` left after removing whitespace at both ends. */
  function Strip(s: string): (r: string)
  {
    TrimEnd(TrimStart(s))
  }

  /** What `Strip` returns, stated without the two trimming passes: an infix
      `s[i..j]` that neither starts nor ends with whitespace, and only
      whitespace was cut away around it. */
  predicate IsStripOf(r: string, s: string) {
    (r == [] || (!IsSpace(r[0]) && !IsSpace(r[|r| - 1])))
    && exists i, j :: 0 <= i <= j <= |s| && r == s[i..j]
         && (forall k :: 0 <= k < i ==> IsSpace(s[k]))
         && (forall k :: j <= k < |s| ==> IsSpace(s[k]))
  }

  lemma StripSpec(s: string)
    ensures IsStripOf(Strip(s), s)
  {
    var t := TrimStart(s);
    var r := TrimEnd(t);
    var i := |s| - |t|;
    var j := i + |r|;
    assert r == s[i..j] by {
      assert t == s[i..];
      assert r == t[..|r|];
    }
    forall k | j <= k < |s|
      ensures IsSpace(s[k])
    {
      assert s[k] == t[k - i];
    }
    assert r == [] || (!IsSpace(r[0]) && !IsSpace(r[|r| - 1])) by {
      if r != [] {
        assert r[0] == t[0];
      }
    }
    StripWitness(r, s, i, j);
  }

  lemma StripWitness(r: string, s: string, i: int, j: int)
    requires r == [] || (!IsSpace(r[0]) && !IsSpace(r[|r| - 1]))
    requires 0 <= i <= j <= |s| && r == s[i..j]
    requires forall k :: 0 <= k < i ==> IsSpace(s[k])
    requires forall k :: j <= k < |s| ==> IsSpace(s[k])
    ensures IsStripOf(r, s)
  {
  }

  lemma StripIdempotent(s: string)
    ensures Strip(Strip(s)) == Strip(s)
  {
    var r := Strip(s);
    StripOfTrimmed(r);
  }

  lemma StripOfTrimmed(r: string)
    requires r == [] || (!IsSpace(r[0]) && !IsSpace(r[|r| - 1]))
    ensures Strip(r) == r
  {
  }

  /** Stripping commutes with ASCII upper-casing: whitespace is never a
      letter, so `s.upper().strip()` and `s.strip().upper()` agree. */
  lemma StripUpper(s: string)
    ensures Strip(Upper(s)) == Upper(Strip(s))
  {
    var u := Upper(s);
    assert TrimStart(u) == Upper(TrimStart(s)) by { TrimStartUpper(s); }
    TrimEndUpper(TrimStart(s));
  }

  lemma {:induction false} TrimStartUpper(s: string)
    ensures TrimStart(Upper(s)) == Upper(TrimStart(s))
  {
    if |s| > 0 {
      UpperKeepsSpace(s[0]);
      assert Upper(s)[0] == UpperChar(s[0]);
      if IsSpace(s[0]) {
        assert Upper(s)[1..] == Upper(s[1..]);
        TrimStartUpper(s[1..]);
      }
    }
  }

  /** Upper-casing neither creates nor removes whitespace. */
  lemma UpperKeepsSpace(c: char)
    ensures IsSpace(UpperChar(c)) == IsSpace(c)
  {
    if 'a' <= c <= 'z' {
      assert 'A' <= UpperChar(c) <= 'Z';
    }
  }

  lemma {:induction false} TrimEndUpper(s: string)
    ensures TrimEnd(Upper(s)) == Upper(TrimEnd(s))
  {
    if |s| > 0 {
      UpperKeepsSpace(s[|s| - 1]);
      assert Upper(s)[|s| - 1] == UpperChar(s[|s| - 1]);
      if IsSpace(s[|s| - 1]) {
        assert Upper(s)[..|s| - 1] == Upper(s[..|s| - 1]);
        TrimEndUpper(s[..|s| - 1]);
      }
    }
  }

  /** Index of the first `c` in `s`, or `|s|` when there is none (what
      `str.split(c, 1)` and `str.splitlines` cut at). */
  function IndexOf(s: string, c: char): (k: nat)
    ensures k <= |s| && (k < |s| ==> s[k] == c)
    ensures forall j :: 0 <= j < k ==> s[j] != c
  {
    if s == [] || s[0] == c then 0 else 1 + IndexOf(s[1..], c)
  }

  /** `needle` occurs in `hay` starting at index `i`. */
  predicate OccursAt(needle: string, hay: string, i: int) {
    0 <= i <= |hay| - |needle| && hay[i..i + |needle|] == needle
  }

  /** Python's `needle in hay` on strings. */
  predicate IsSubstring(needle: string, hay: string) {
    exists i | 0 <= i <= |hay| - |needle| :: OccursAt(needle, hay, i)
  }

  /** `s.startswith(p)`. */
  predicate IsPrefix(p: string, s: string) {
    |p| <= |s| && s[..|p|] == p
  }

  predicate IsSuffix(p: string, s: string) {
    |p| <= |s| && s[|s| - |p|..] == p
  }

  lemma PrefixOfConcat(a: string, b: string)
    ensures IsPrefix(a, a + b)
  {
    assert (a + b)[..|a|] == a;
  }

  lemma SuffixOfConcat(a: string, b: string)
    ensures IsSuffix(b, a + b)
  {
    assert (a + b)[|a + b| - |b|..] == b;
  }

  /** The prefixes and the suffix of a string made of four pieces. */
  lemma PiecesOfConcat(a: string, b: string, c: string, d: string)
    ensures IsPrefix(a, a + b + c + d) && IsPrefix(a + b, a + b + c + d)
    ensures IsPrefix(a + b + c, a + b + c + d) && IsSuffix(d, a + b + c + d)
  {
    PrefixOfConcat(a, b + c + d);
    assert a + b + c + d == a + (b + c + d);
    PrefixOfConcat(a + b, c + d);
    assert a + b + c + d == (a + b) + (c + d);
    PrefixOfConcat(a + b + c, d);
    SuffixOfConcat(a + b + c, d);
  }

  /** The empty string occurs in every string. */
  lemma EmptyIsSubstring(hay: string)
    ensures IsSubstring("", hay)
  {
    assert OccursAt("", hay, 0);
  }

  /** If `word` occurs in `hay`, so does every suffix of `word`. */
  lemma SuffixOfOccurrence(pre: string, needle: string, hay: string)
    requires IsSubstring(pre + needle, hay)
    ensures IsSubstring(needle, hay)
  {
    var w := pre + needle;
    var i :| 0 <= i <= |hay| - |w| && OccursAt(w, hay, i);
    assert |w| == |pre| + |needle| && hay[i..i + |w|] == w;
    var j := i + |pre|;
    assert hay[j..j + |needle|] == w[|pre|..];
    assert OccursAt(needle, hay, j);
  }

  /** `s.startswith(c) and s.endswith(c)` for a one-character `c`. */
  predicate Enclosed(s: string, c: char) {
    |s| > 0 && s[0] == c && s[|s| - 1] == c
  }
}
