/** Character and string helpers standing in for the Kotlin standard-library
    calls the application relies on: `Char.isDigit`, `Char.isWhitespace`,
    `isBlank`, `take`, `drop`, `filter { it.isDigit() }` and
    `contains(…, ignoreCase = true)`. */
module Text {

  function Min(a: int, b: int): int { if a <= b then a else b }

  /** `s.take(k)`: the first `k` elements, or all of `s` when it is shorter. */
  function Take<T>(s: seq<T>, k: nat): (r: seq<T>)
    ensures |r| == Min(k, |s|)
    ensures r == s[..|r|]
  {
    if |s| <= k then s else s[..k]
  }

  /** `s.drop(k)`: everything after the first `k` elements. */
  function Drop<T>(s: seq<T>, k: nat): (r: seq<T>)
    ensures |r| == |s| - Min(k, |s|)
    ensures r == s[|s| - |r|..]
  {
    if |s| <= k then [] else s[k..]
  }

  /** `a` is `b` with some elements deleted, order kept. */
  predicate IsSubsequence<T(==)>(a: seq<T>, b: seq<T>)
    decreases |b|
  {
    if |a| == 0 then true
    else if |b| == 0 then false
    else (a[0] == b[0] && IsSubsequence(a[1..], b[1..])) || IsSubsequence(a, b[1..])
  }

  lemma {:induction false} SubsequenceReflexive<T>(a: seq<T>)
    ensures IsSubsequence(a, a)
    decreases |a|
  {
    if |a| > 0 {
      SubsequenceReflexive(a[1..]);
    }
  }

  /** Every prefix of a subsequence is again a subsequence. */
  lemma {:induction false} SubsequencePrefix<T>(a: seq<T>, b: seq<T>, k: nat)
    requires IsSubsequence(a, b)
    requires k <= |a|
    ensures IsSubsequence(a[..k], b)
    decreases |b|
  {
    if k == 0 || |a| == 0 {
    } else if a[0] == b[0] && IsSubsequence(a[1..], b[1..]) {
      SubsequencePrefix(a[1..], b[1..], k - 1);
      assert a[..k][1..] == a[1..][..k - 1];
    } else {
      SubsequencePrefix(a, b[1..], k);
    }
  }

  // ---------------------------------------------------------------- digits

  /** `Char.isDigit()`, restricted to the ASCII digits. */
  predicate IsDigit(c: char) { '0' <= c <= '9' }

  predicate AllDigits(s: string) { forall i :: 0 <= i < |s| ==> IsDigit(s[i]) }

  /** `s.filter { it.isDigit() }`. */
  function KeepDigits(s: string): (r: string)
    ensures AllDigits(r)
    ensures |r| <= |s|
    ensures AllDigits(s) ==> r == s
  {
    if |s| == 0 then ""
    else (if IsDigit(s[0]) then [s[0]] else "") + KeepDigits(s[1..])
  }

  /** Every digit occurrence is kept and every other character dropped: the
      filter keeps each digit as often as the input holds it. */
  lemma {:induction false} KeepDigitsCounts(s: string)
    ensures forall c :: multiset(KeepDigits(s))[c] == if IsDigit(c) then multiset(s)[c] else 0
    decreases |s|
  {
    if |s| > 0 {
      KeepDigitsCounts(s[1..]);
      assert s == [s[0]] + s[1..];
    }
  }

  lemma {:induction false} KeepDigitsAppend(a: string, b: string)
    ensures KeepDigits(a + b) == KeepDigits(a) + KeepDigits(b)
    decreases |a|
  {
    if |a| == 0 {
      assert a + b == b;
    } else {
      assert (a + b)[1..] == a[1..] + b;
      KeepDigitsAppend(a[1..], b);
    }
  }

  lemma {:induction false} KeepDigitsSubsequence(s: string)
    ensures IsSubsequence(KeepDigits(s), s)
    decreases |s|
  {
    if |s| > 0 {
      KeepDigitsSubsequence(s[1..]);
      if IsDigit(s[0]) {
        assert KeepDigits(s)[1..] == KeepDigits(s[1..]);
      } else {
        assert KeepDigits(s) == KeepDigits(s[1..]);
      }
    }
  }

  lemma KeepDigitsOfSingle(c: char)
    ensures KeepDigits([c]) == if IsDigit(c) then [c] else ""
  {
    assert [c][1..] == "";
  }

  /** A non-digit between two strings contributes nothing. */
  lemma KeepDigitsSkips(a: string, c: char, b: string)
    requires !IsDigit(c)
    ensures KeepDigits(a + [c] + b) == KeepDigits(a) + KeepDigits(b)
  {
    KeepDigitsAppend(a + [c], b);
    KeepDigitsAppend(a, [c]);
    KeepDigitsOfSingle(c);
  }

  // ---------------------------------------------------------------- blank

  /** `Char.isWhitespace()` on the JVM: `Character.isWhitespace(c) ||
      Character.isSpaceChar(c)`, written out by code point (the Unicode
      space, line and paragraph separators, plus the ASCII controls
      U+0009–U+000D and U+001C–U+001F). */
  predicate IsWhitespace(c: char)
  {
    var k := c as int;
    (0x09 <= k <= 0x0D) || (0x1C <= k <= 0x20) || k == 0xA0 || k == 0x1680
    || (0x2000 <= k <= 0x200A) || k == 0x2028 || k == 0x2029 || k == 0x202F
    || k == 0x205F || k == 0x3000
  }

  /** `s.isBlank()`: empty or whitespace only. */
  predicate IsBlank(s: string) { forall i :: 0 <= i < |s| ==> IsWhitespace(s[i]) }

  // ---------------------------------------------------------------- case

  /** Lower-case mapping of the ASCII letters; every other character is kept. */
  function LowerAscii(c: char): (d: char)
    ensures 'A' <= c <= 'Z' ==> 'a' <= d <= 'z' && d as int == c as int + 32
    ensures !('A' <= c <= 'Z') ==> d == c
  {
    if 'A' <= c <= 'Z' then (c as int + 32) as char else c
  }

  /** `Char.equals(other, ignoreCase = true)` over the ASCII case fold. */
  predicate SameIgnoringCase(a: char, b: char) { LowerAscii(a) == LowerAscii(b) }

  /** `needle` occurs in `hay` starting at index `i`, ignoring case. */
  predicate MatchesAt(hay: string, needle: string, i: nat)
  {
    i + |needle| <= |hay| &&
    forall j :: 0 <= j < |needle| ==> SameIgnoringCase(hay[i + j], needle[j])
  }

  /** The `regionMatches` scan behind `indexOf(needle, start, ignoreCase = true) >= 0`. */
  function SearchFrom(hay: string, needle: string, start: nat): (found: bool)
    ensures found <==> exists i :: start <= i && MatchesAt(hay, needle, i)
    decreases |hay| - start
  {
    if start + |needle| > |hay| then false
    else MatchesAt(hay, needle, start) || SearchFrom(hay, needle, start + 1)
  }

  /** `hay.contains(needle, ignoreCase = true)`. */
  function ContainsIgnoringCase(hay: string, needle: string): (found: bool)
    ensures found <==> exists i :: 0 <= i && MatchesAt(hay, needle, i)
  {
    SearchFrom(hay, needle, 0)
  }
}
