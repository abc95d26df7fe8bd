/** The CPF input mask (`CpfVisualTransformation`): the raw value is cut to
    11 characters and shown as `DDD.DDD.DDD-DD`; two offset maps move the
    caret between raw and display positions. */
module CpfVisualTransformation {
  import opened Text
  import opened Punctuation

  /** Raw characters kept before formatting (`text.take(11)`). */
  const Width: nat := 11

  /** What the loop appends after raw index `i`: `.` after 2 and 5, `-` after 8. */
  function Separator(i: nat): string
  {
    if i == 2 || i == 5 then "." else if i == 8 then "-" else ""
  }

  /** The display text `filter` builds. Its length is the display offset of
      the end of the raw text, and filtering the digits back out gives the
      digits of the kept raw text. */
  function Format(s: string): (r: string)
    ensures |r| == OriginalToTransformed(|Take(s, Width)|)
    ensures KeepDigits(r) == KeepDigits(Take(s, Width))
  {
    var t := Take(s, Width);
    OffsetSteps();
    PunctuatePrefixLength(t, Separator, OriginalToTransformed, |t|);
    assert t[..|t|] == t;
    SeparatorsHaveNoDigits();
    PunctuateKeepDigits(t, Separator);
    Punctuate(t, Separator)
  }

  /** `filter`: appends each kept raw character and then its separator. */
  method Filter(text: string) returns (formatted: string)
    ensures formatted == Format(text)
  {
    var trimmed := Take(text, Width);
    formatted := "";
    for i := 0 to |trimmed|
      invariant formatted == Punctuate(trimmed[..i], Separator)
    {
      PunctuateStep(trimmed, Separator, i);
      formatted := formatted + [trimmed[i]];
      if i == 2 {
        formatted := formatted + ".";
      } else if i == 5 {
        formatted := formatted + ".";
      } else if i == 8 {
        formatted := formatted + "-";
      }
    }
    assert trimmed[..|trimmed|] == trimmed;
  }

  /** `originalToTransformed`: raw caret offset to display caret offset. */
  function OriginalToTransformed(offset: int): int
  {
    if offset <= 2 then offset
    else if offset <= 5 then offset + 1
    else if offset <= 8 then offset + 2
    else offset + 3
  }

  /** `transformedToOriginal`: display caret offset to raw caret offset. */
  function TransformedToOriginal(offset: int): int
  {
    if offset <= 2 then offset
    else if offset <= 6 then offset - 1
    else if offset <= 10 then offset - 2
    else offset - 3
  }

  lemma OffsetSteps()
    ensures OriginalToTransformed(0) == 0
    ensures forall j: nat {:trigger Separator(j)} :: OriginalToTransformed(j + 1) == OriginalToTransformed(j) + 1 + |Separator(j)|
  {
  }

  lemma SeparatorsHaveNoDigits()
    ensures forall j: nat :: KeepDigits(Separator(j)) == ""
  {
    forall j: nat ensures KeepDigits(Separator(j)) == "" {
      if Separator(j) != "" {
        KeepDigitsOfSingle(Separator(j)[0]);
        assert Separator(j) == [Separator(j)[0]];
      }
    }
  }

  /** Only the first 11 characters of the input matter. */
  lemma FormatTruncates(s: string)
    ensures Format(s) == Format(Take(s, Width))
  {
  }

  /** The display length is the raw length plus one per separator index
      (2, 5, 8) the raw text reaches. */
  lemma FormatLength(s: string)
    ensures var n := |Take(s, Width)|;
            |Format(s)| == n + (if n > 2 then 1 else 0) + (if n > 5 then 1 else 0) + (if n > 8 then 1 else 0)
  {
  }

  /** The display of the first `o` raw characters is a prefix of the whole
      display and ends at display offset `OriginalToTransformed(o)`. */
  lemma FormatCaret(s: string, o: nat)
    requires o <= |Take(s, Width)|
    ensures Format(s[..o]) <= Format(s)
    ensures |Format(s[..o])| == OriginalToTransformed(o)
  {
    var t := Take(s, Width);
    assert Take(s[..o], Width) == t[..o];
    PunctuatePrefix(t, Separator, o);
  }

  /** Raw character `i` is shown at display index `OriginalToTransformed(i)`. */
  lemma FormatPlacesRaw(s: string, i: nat)
    requires i < |Take(s, Width)|
    ensures OriginalToTransformed(i) < |Format(s)|
    ensures Format(s)[OriginalToTransformed(i)] == s[i]
  {
    var t := Take(s, Width);
    OffsetSteps();
    PunctuateAt(t, Separator, i);
    PunctuatePrefixLength(t, Separator, OriginalToTransformed, i);
  }

  /** The separator of raw index `k` directly follows raw character `k`. */
  lemma FormatPlacesSeparator(s: string, k: nat)
    requires k < |Take(s, Width)| && Separator(k) != ""
    ensures OriginalToTransformed(k) + 1 < |Format(s)|
    ensures Format(s)[OriginalToTransformed(k) + 1] == Separator(k)[0]
  {
    var t := Take(s, Width);
    OffsetSteps();
    PunctuateAt(t, Separator, k);
    PunctuatePrefixLength(t, Separator, OriginalToTransformed, k);
  }

  /** The separators sit at display indices 3, 7 and 11, each present as
      soon as the raw index before it (2, 5, 8) is. */
  lemma FormatPlacesSeparators(s: string)
    ensures var n := |Take(s, Width)|;
            (n > 2 ==> Format(s)[3] == '.') && (n > 5 ==> Format(s)[7] == '.') && (n > 8 ==> Format(s)[11] == '-')
  {
    var n := |Take(s, Width)|;
    if n > 2 { FormatPlacesSeparator(s, 2); }
    if n > 5 { FormatPlacesSeparator(s, 5); }
    if n > 8 { FormatPlacesSeparator(s, 8); }
  }

  /** Filtering the digits out of the display gives back a digits-only raw value. */
  lemma FormatStripsSeparators(s: string)
    requires |s| <= Width && AllDigits(s)
    ensures KeepDigits(Format(s)) == s
  {
  }

  /** A full-width value is shown as `DDD.DDD.DDD-DD`. */
  lemma FormatFullWidth(s: string)
    requires |s| >= Width
    ensures Format(s) == s[..3] + "." + s[3..6] + "." + s[6..9] + "-" + s[9..11]
  {
    var f := Format(s);
    FormatPlacesSeparators(s);
    forall i: nat | i < Width ensures f[OriginalToTransformed(i)] == s[i] {
      FormatPlacesRaw(s, i);
    }
    var g := s[..3] + "." + s[3..6] + "." + s[6..9] + "-" + s[9..11];
    assert |f| == |g| == 14;
    forall j | 0 <= j < 14 ensures f[j] == g[j] {
      if j < 3 { assert f[OriginalToTransformed(j)] == s[j]; }
      else if 3 < j < 7 { assert f[OriginalToTransformed(j - 1)] == s[j - 1]; }
      else if 7 < j < 11 { assert f[OriginalToTransformed(j - 2)] == s[j - 2]; }
      else if 11 < j { assert f[OriginalToTransformed(j - 3)] == s[j - 3]; }
    }
  }

  lemma FormatExampleFull(s: string)
    requires s == "12345678901"
    ensures Format(s) == "123.456.789-01"
  {
    FormatFullWidth(s);
    assert s[..3] == "123" && s[3..6] == "456" && s[6..9] == "789" && s[9..11] == "01";
  }

  /** A trailing separator is shown as soon as its raw index is typed. */
  lemma FormatExampleTrailingSeparator()
    ensures Format("123") == "123."
  {
    assert Take("123", Width) == "123";
    FormatPlacesSeparators("123");
    forall i: nat | i < 3 ensures Format("123")[i] == "123"[i] {
      FormatPlacesRaw("123", i);
    }
  }

  lemma OriginalToTransformedIncreasing(a: int, b: int)
    requires a < b
    ensures OriginalToTransformed(a) < OriginalToTransformed(b)
  {
  }

  lemma OriginalToTransformedMonotone(a: int, b: int)
    requires a <= b
    ensures OriginalToTransformed(a) <= OriginalToTransformed(b)
  {
  }

  lemma RoundTrip(o: int)
    ensures TransformedToOriginal(OriginalToTransformed(o)) == o
  {
  }

  lemma TransformedToOriginalMonotone(a: int, b: int)
    requires a <= b
    ensures TransformedToOriginal(a) <= TransformedToOriginal(b)
  {
  }

  /** Every display caret of the shown text maps to a raw caret of the kept text. */
  lemma TransformedToOriginalRange(s: string, d: int)
    requires 0 <= d <= |Format(s)|
    ensures 0 <= TransformedToOriginal(d) <= |Take(s, Width)|
  {
    RoundTrip(|Take(s, Width)|);
    TransformedToOriginalMonotone(d, |Format(s)|);
  }

  /** For any digits-only value of three or more digits (`123.456.789-01`,
      say), display caret 3 stands after three raw digits and before the
      first dot, yet it is mapped to raw offset 2. */
  lemma CaretBeforeSeparatorMisread(s: string)
    requires AllDigits(Take(s, Width)) && |s| >= 3
    ensures 3 <= |Format(s)|
    ensures |KeepDigits(Format(s)[..3])| == 3
    ensures TransformedToOriginal(3) == 2
  {
    FormatPlacesRaw(s, 0);
    FormatPlacesRaw(s, 1);
    FormatPlacesRaw(s, 2);
    assert Format(s)[..3] == s[..3];
    assert AllDigits(s[..3]) by {
      assert s[..3] == Take(s, Width)[..3];
    }
  }

  /** `transformedToOriginal` with its breakpoints on the separators of this
      mask (display indices 3, 7 and 11). */
  function AlignedTransformedToOriginal(offset: int): int
  {
    if offset <= 3 then offset
    else if offset <= 7 then offset - 1
    else if offset <= 11 then offset - 2
    else offset - 3
  }

  /** A positive display caret lies after the raw character just before the
      one the aligned map names, and no later than the end of its separator. */
  lemma AlignedBrackets(d: int)
    requires d > 0
    ensures AlignedTransformedToOriginal(d) >= 1
    ensures OriginalToTransformed(AlignedTransformedToOriginal(d) - 1) < d <= OriginalToTransformed(AlignedTransformedToOriginal(d))
  {
  }

  /** For digits-only input the aligned map gives, for every display caret,
      the number of raw characters shown before it. */
  lemma AlignedCountsRawBefore(s: string, d: int)
    requires AllDigits(Take(s, Width))
    requires 0 <= d <= |Format(s)|
    ensures AlignedTransformedToOriginal(d) == |KeepDigits(Format(s)[..d])|
  {
    if d > 0 {
      var t := Take(s, Width);
      var k := AlignedTransformedToOriginal(d) - 1;
      assert 0 <= k < |t| && OriginalToTransformed(k) < d <= OriginalToTransformed(k + 1) by {
        AlignedBrackets(d);
        if k >= |t| {
          OriginalToTransformedMonotone(|t|, k);
        }
      }
      CaretCount(t, k, d);
    }
  }

  /** A display caret after raw character `k` of digits-only kept text, and
      no later than the end of its separator, has `k + 1` digits before it. */
  lemma CaretCount(t: string, k: nat, d: int)
    requires AllDigits(t) && k < |t|
    requires OriginalToTransformed(k) < d <= OriginalToTransformed(k + 1)
    ensures d <= |Punctuate(t, Separator)|
    ensures |KeepDigits(Punctuate(t, Separator)[..d])| == k + 1
  {
    assert |Punctuate(t[..k], Separator)| < d <= |Punctuate(t[..k + 1], Separator)| by {
      OffsetSteps();
      PunctuatePrefixLength(t, Separator, OriginalToTransformed, k);
      PunctuatePrefixLength(t, Separator, OriginalToTransformed, k + 1);
    }
    PunctuatePrefix(t, Separator, k + 1);
    SeparatorsHaveNoDigits();
    DigitsBeforeCaret(t, Separator, k, d);
  }

  /** The aligned map still undoes `originalToTransformed`. */
  lemma AlignedRoundTrip(o: int)
    ensures AlignedTransformedToOriginal(OriginalToTransformed(o)) == o
  {
  }

  /** The map as written agrees with the raw count everywhere except at the
      three carets just before a separator. */
  lemma MisreadCaretsAreBeforeSeparators(s: string, d: int)
    requires AllDigits(Take(s, Width))
    requires 0 <= d <= |Format(s)|
    ensures TransformedToOriginal(d) == |KeepDigits(Format(s)[..d])| <==> d != 3 && d != 7 && d != 11
  {
    AlignedCountsRawBefore(s, d);
  }
}
