/**
 * Character classes and string helpers with JavaScript's semantics:
 * the `\s` class of regular expressions, `String.prototype.trim`,
 * `toLowerCase` on ASCII letters, `includes`, `startsWith` and UTF-16 `length`.
 */
module Text {
  import opened Seqs

  /** `\s` in a JavaScript regular expression, which is also the set `trim` removes. */
  predicate IsJsSpace(c: char) {
    || c == '\t' || c == '\n' || c == '\U{000B}' || c == '\U{000C}' || c == '\r' || c == ' '
    || c == '\U{00A0}' || c == '\U{1680}' || ('\U{2000}' <= c <= '\U{200A}')
    || c == '\U{2028}' || c == '\U{2029}' || c == '\U{202F}' || c == '\U{205F}'
    || c == '\U{3000}' || c == '\U{FEFF}'
  }

  predicate IsDigit(c: char) {
    '0' <= c <= '9'
  }

  predicate IsAsciiLetter(c: char) {
    ('a' <= c <= 'z') || ('A' <= c <= 'Z')
  }

  predicate IsAsciiAlnum(c: char) {
    IsAsciiLetter(c) || IsDigit(c)
  }

  ghost predicate AllSpace(s: string) {
    forall i :: 0 <= i < |s| ==> IsJsSpace(s[i])
  }

  /** Number of whitespace characters at the start of `s`. */
  function LeadingSpace(s: string): (n: nat)
    ensures n <= |s|
    ensures n == |s| || !IsJsSpace(s[n])
  {
    if s == [] || !IsJsSpace(s[0]) then 0 else 1 + LeadingSpace(s[1..])
  }

  /** Number of whitespace characters at the end of `s`. */
  function TrailingSpace(s: string): (n: nat)
    ensures n <= |s|
    ensures n == |s| || !IsJsSpace(s[|s| - n - 1])
  {
    if s == [] || !IsJsSpace(s[|s| - 1]) then 0 else 1 + TrailingSpace(s[..|s| - 1])
  }

  /** What `LeadingSpace` counts is whitespace. */
  lemma {:induction false} LeadingSpaceAll(s: string)
    ensures forall i :: 0 <= i < LeadingSpace(s) ==> IsJsSpace(s[i])
    decreases |s|
  {
    if s != [] && IsJsSpace(s[0]) {
      LeadingSpaceAll(s[1..]);
      forall i | 0 < i < LeadingSpace(s) ensures IsJsSpace(s[i]) {
        assert s[i] == s[1..][i - 1];
      }
    }
  }

  /** What `TrailingSpace` counts is whitespace. */
  lemma {:induction false} TrailingSpaceAll(s: string)
    ensures forall i :: |s| - TrailingSpace(s) <= i < |s| ==> IsJsSpace(s[i])
    decreases |s|
  {
    if s != [] && IsJsSpace(s[|s| - 1]) {
      var u := s[..|s| - 1];
      TrailingSpaceAll(u);
      forall i | |s| - TrailingSpace(s) <= i < |s| - 1 ensures IsJsSpace(s[i]) {
        assert s[i] == u[i];
      }
    }
  }

  /**
   * `String.prototype.trim`: the middle slice of `s` left after removing
   * whitespace from both ends; what remains starts and ends with a non-space.
   */
  function Trim(s: string): (r: string)
    ensures r == [] || (!IsJsSpace(r[0]) && !IsJsSpace(r[|r| - 1]))
    ensures |r| <= |s|
  {
    var t := s[LeadingSpace(s)..];
    var r := t[..|t| - TrailingSpace(t)];
    assert r != [] ==> r[0] == t[0] && r[|r| - 1] == t[|t| - TrailingSpace(t) - 1];
    r
  }

  /** The trim is the slice `s[a..b]` with only whitespace before `a` and after `b`. */
  lemma TrimSlice(s: string) returns (a: nat, b: nat)
    ensures a <= b <= |s| && Trim(s) == s[a..b]
    ensures AllSpace(s[..a]) && AllSpace(s[b..])
  {
    a := LeadingSpace(s);
    var t := s[a..];
    var n := TrailingSpace(t);
    b := a + |t| - n;
    LeadingSpaceAll(s);
    TrailingSpaceAll(t);
    assert Trim(s) == t[..|t| - n] == s[a..b];
    assert s[b..] == t[|t| - n..];
  }

  /** A string that neither starts nor ends with whitespace is its own trim. */
  lemma TrimOfTrimmed(s: string)
    requires s == [] || (!IsJsSpace(s[0]) && !IsJsSpace(s[|s| - 1]))
    ensures Trim(s) == s
  {
  }

  /** A string without any whitespace is its own trim. */
  lemma TrimNoSpace(s: string)
    requires forall i :: 0 <= i < |s| ==> !IsJsSpace(s[i])
    ensures Trim(s) == s
  {
    TrimOfTrimmed(s);
  }

  /** Length as JavaScript counts it: code points above U+FFFF take two UTF-16 units. */
  function Utf16Length(s: string): (n: nat)
    ensures |s| <= n <= 2 * |s|
  {
    if s == [] then 0 else (if s[0] as int > 0xFFFF then 2 else 1) + Utf16Length(s[1..])
  }

  /** Each UTF-16 length of a string with only BMP characters equals its length. */
  lemma Utf16LengthBmp(s: string)
    requires forall i :: 0 <= i < |s| ==> s[i] as int <= 0xFFFF
    ensures Utf16Length(s) == |s|
  {
  }

  /** U+FE0E and U+FE0F, the text and emoji presentation selectors. */
  predicate IsPresentationSelector(c: char) {
    c == '\U{FE0E}' || c == '\U{FE0F}'
  }

  /** Code points above U+FFFF: each is a surrogate pair in UTF-16. */
  function SurrogatePairs(s: string): (n: nat)
    ensures n <= |s|
  {
    if s == [] then 0 else (if s[0] as int > 0xFFFF then 1 else 0) + SurrogatePairs(s[1..])
  }

  function PresentationSelectors(s: string): (n: nat)
    ensures n <= |s|
  {
    if s == [] then 0 else (if IsPresentationSelector(s[0]) then 1 else 0) + PresentationSelectors(s[1..])
  }

  /** Length as `isLength` of validator.js counts it: every code point but a presentation selector. */
  function ValidatorLength(s: string): (n: nat)
    ensures n <= |s|
  {
    if s == [] then 0 else (if IsPresentationSelector(s[0]) then 0 else 1) + ValidatorLength(s[1..])
  }

  /**
   * `isLength`'s own formula: the UTF-16 length less one per surrogate pair
   * and one per presentation selector.
   */
  lemma {:induction false} ValidatorLengthFormula(s: string)
    ensures ValidatorLength(s) == Utf16Length(s) - SurrogatePairs(s) - PresentationSelectors(s)
    decreases |s|
  {
    if s != [] {
      ValidatorLengthFormula(s[1..]);
    }
  }

  /** Without presentation selectors, `isLength` counts code points. */
  lemma {:induction false} ValidatorLengthPlain(s: string)
    requires forall i :: 0 <= i < |s| ==> !IsPresentationSelector(s[i])
    ensures ValidatorLength(s) == |s|
    decreases |s|
  {
    if s != [] {
      ValidatorLengthPlain(s[1..]);
    }
  }

  /** A letter followed by the emoji selector counts as one. */
  lemma ValidatorLengthSelectorExample()
    ensures ValidatorLength("a\U{FE0F}") == 1
  {
    assert "a\U{FE0F}"[1..] == "\U{FE0F}";
    assert "\U{FE0F}"[1..] == "";
  }

  function LowerChar(c: char): char {
    if 'A' <= c <= 'Z' then (c as int + 32) as char else c
  }

  /** `toLowerCase`, on the ASCII letters only. */
  function Lower(s: string): (r: string)
    ensures |r| == |s|
    ensures forall i :: 0 <= i < |s| ==> r[i] == LowerChar(s[i])
  {
    if s == [] then [] else [LowerChar(s[0])] + Lower(s[1..])
  }

  predicate StartsWith(s: string, prefix: string) {
    |prefix| <= |s| && s[..|prefix|] == prefix
  }

  /** `s.includes(needle)`: `needle` occurs in `s` at some offset. */
  predicate Includes(s: string, needle: string)
    decreases |s|
  {
    StartsWith(s, needle) || (s != [] && Includes(s[1..], needle))
  }

  /** `needle` occurs in `s` starting at offset `k`. */
  ghost predicate OccursAt(s: string, needle: string, k: int) {
    0 <= k <= |s| - |needle| && s[k..k + |needle|] == needle
  }

  /** `Includes` is the search for an offset at which `needle` occurs. */
  lemma {:induction false} IncludesAtOffset(s: string, needle: string)
    ensures Includes(s, needle) <==> exists k :: OccursAt(s, needle, k)
    decreases |s|
  {
    if StartsWith(s, needle) {
      assert OccursAt(s, needle, 0);
    } else if s == [] {
      assert forall k :: !OccursAt(s, needle, k);
    } else {
      IncludesAtOffset(s[1..], needle);
      if Includes(s[1..], needle) {
        var k :| OccursAt(s[1..], needle, k);
        assert s[k + 1..k + 1 + |needle|] == s[1..][k..k + |needle|];
        assert OccursAt(s, needle, k + 1);
      }
      if exists k :: OccursAt(s, needle, k) {
        var k :| OccursAt(s, needle, k);
        assert k != 0;
        assert s[1..][k - 1..k - 1 + |needle|] == s[k..k + |needle|];
        assert OccursAt(s[1..], needle, k - 1);
      }
    }
  }

  /** Index of the first occurrence of `c` in `s`. */
  function IndexOf(s: string, c: char): (k: nat)
    requires c in s
    ensures k < |s| && s[k] == c
    ensures c !in s[..k]
  {
    if s[0] == c then 0 else
      assert s == [s[0]] + s[1..];
      1 + IndexOf(s[1..], c)
  }

  lemma {:induction false} LeadingSpaceFrame(p: string, t: string)
    requires AllSpace(p)
    requires t == [] || !IsJsSpace(t[0])
    ensures LeadingSpace(p + t) == |p|
    decreases |p|
  {
    if p != [] {
      assert (p + t)[1..] == p[1..] + t;
      LeadingSpaceFrame(p[1..], t);
    } else {
      assert p + t == t;
    }
  }

  lemma {:induction false} TrailingSpaceFrame(t: string, q: string)
    requires AllSpace(q)
    requires t == [] || !IsJsSpace(t[|t| - 1])
    ensures TrailingSpace(t + q) == |q|
    decreases |q|
  {
    if q != [] {
      assert (t + q)[..|t + q| - 1] == t + q[..|q| - 1];
      TrailingSpaceFrame(t, q[..|q| - 1]);
    } else {
      assert t + q == t;
    }
  }

  /** Trimming a string whose middle part `m` starts and ends with a non-space, framed by whitespace, leaves `m`. */
  lemma TrimFrame(p: string, m: string, q: string)
    requires AllSpace(p) && AllSpace(q)
    requires m == [] || (!IsJsSpace(m[0]) && !IsJsSpace(m[|m| - 1]))
    ensures Trim(p + m + q) == m
  {
    var s := p + m + q;
    if m == [] {
      assert AllSpace(s);
    } else {
      LeadingSpaceFrame(p, m + q);
      Assoc(p, m, q);
      assert s[|p|..] == m + q;
      TrailingSpaceFrame(m, q);
      assert (m + q)[..|m|] == m;
    }
  }

  /** `s` is its leading whitespace, its trim and its trailing whitespace, in that order. */
  lemma TrimSplit(s: string) returns (p: string, q: string)
    ensures AllSpace(p) && AllSpace(q)
    ensures s == p + Trim(s) + q
  {
    var a, b := TrimSlice(s);
    p, q := s[..a], s[b..];
    Slices(s, a, b);
  }
}
