/** The CNPJ input mask (`CnpjVisualTransformation`): the raw value is cut to
    14 characters and shown as `DD.DDD.DDD/DDDD-DD`; two offset maps move the
    caret between raw and display positions. */
module CnpjVisualTransformation {
  import opened Text
  import opened Punctuation

  /** Raw characters kept before formatting (`text.take(14)`). */
  const Width: nat := 14

  /** What the loop appends after raw index `i`: `.` after 1 and 4, `/` after 7, `-` after 11. */
  function Separator(i: nat): string
  {
    if i == 1 || i == 4 then "." else if i == 7 then "/" else if i == 11 then "-" else ""
  }

  /** The display text `filter` builds. Its length is the display offset of
      the end of the raw text, and filtering the digits back out gives the
      digits of the kept raw text. */
  function Format(s: string): (r: string)
    ensures |r| == OriginalToTransformed(|Take(s, Width)|)
    ensures KeepDigits(r) == KeepDigits(Take(s, Width))
  {
    var t := Take(s, Width);
    OffsetSteps();
    PunctuatePrefixLength(t, Separator, OriginalToTransformed, |t|);
    assert t[..|t|] == t;
    SeparatorsHaveNoDigits();
    PunctuateKeepDigits(t, Separator);
    Punctuate(t, Separator)
  }

  /** `filter`: appends each kept raw character and then its separator. */
  method Filter(text: string) returns (formatted: string)
    ensures formatted == Format(text)
  {
    var trimmed := Take(text, Width);
    formatted := "";
    for i := 0 to |trimmed|
      invariant formatted == Punctuate(trimmed[..i], Separator)
    {
      PunctuateStep(trimmed, Separator, i);
      formatted := formatted + [trimmed[i]];
      if i == 1 {
        formatted := formatted + ".";
      } else if i == 4 {
        formatted := formatted + ".";
      } else if i == 7 {
        formatted := formatted + "/";
      } else if i == 11 {
        formatted := formatted + "-";
      }
    }
    assert trimmed[..|trimmed|] == trimmed;
  }

  /** `originalToTransformed`: raw caret offset to display caret offset. */
  function OriginalToTransformed(offset: int): int
  {
    if offset <= 1 then offset
    else if offset <= 4 then offset + 1
    else if offset <= 7 then offset + 2
    else if offset <= 11 then offset + 3
    else offset + 4
  }

  /** `transformedToOriginal`: display caret offset to raw caret offset. */
  function TransformedToOriginal(offset: int): int
  {
    if offset <= 2 then offset
    else if offset <= 6 then offset - 1
    else if offset <= 10 then offset - 2
    else if offset <= 14 then offset - 3
    else offset - 4
  }

  lemma OffsetSteps()
    ensures OriginalToTransformed(0) == 0
    ensures forall j: nat {:trigger Separator(j)} :: OriginalToTransformed(j + 1) == OriginalToTransformed(j) + 1 + |Separator(j)|
  {
  }

  lemma SeparatorsHaveNoDigits()
    ensures forall j: nat :: KeepDigits(Separator(j)) == ""
  {
    forall j: nat ensures KeepDigits(Separator(j)) == "" {
      if Separator(j) != "" {
        KeepDigitsOfSingle(Separator(j)[0]);
        assert Separator(j) == [Separator(j)[0]];
      }
    }
  }

  /** Only the first 14 characters of the input matter. */
  lemma FormatTruncates(s: string)
    ensures Format(s) == Format(Take(s, Width))
  {
  }

  /** The display length is the raw length plus one per separator index
      (1, 4, 7, 11) the raw text reaches. */
  lemma FormatLength(s: string)
    ensures var n := |Take(s, Width)|;
            |Format(s)| == n + (if n > 1 then 1 else 0) + (if n > 4 then 1 else 0) + (if n > 7 then 1 else 0)
                             + (if n > 11 then 1 else 0)
  {
  }

  /** The display of the first `o` raw characters is a prefix of the whole
      display and ends at display offset `OriginalToTransformed(o)`. */
  lemma FormatCaret(s: string, o: nat)
    requires o <= |Take(s, Width)|
    ensures Format(s[..o]) <= Format(s)
    ensures |Format(s[..o])| == OriginalToTransformed(o)
  {
    var t := Take(s, Width);
    assert Take(s[..o], Width) == t[..o];
    PunctuatePrefix(t, Separator, o);
  }

  /** Raw character `i` is shown at display index `OriginalToTransformed(i)`. */
  lemma FormatPlacesRaw(s: string, i: nat)
    requires i < |Take(s, Width)|
    ensures OriginalToTransformed(i) < |Format(s)|
    ensures Format(s)[OriginalToTransformed(i)] == s[i]
  {
    var t := Take(s, Width);
    OffsetSteps();
    PunctuateAt(t, Separator, i);
    PunctuatePrefixLength(t, Separator, OriginalToTransformed, i);
  }

  /** The separator of raw index `k` directly follows raw character `k`. */
  lemma FormatPlacesSeparator(s: string, k: nat)
    requires k < |Take(s, Width)| && Separator(k) != ""
    ensures OriginalToTransformed(k) + 1 < |Format(s)|
    ensures Format(s)[OriginalToTransformed(k) + 1] == Separator(k)[0]
  {
    var t := Take(s, Width);
    OffsetSteps();
    PunctuateAt(t, Separator, k);
    PunctuatePrefixLength(t, Separator, OriginalToTransformed, k);
  }

  /** The separators sit at display indices 2, 6, 10 and 15, each present as
      soon as the raw index before it (1, 4, 7, 11) is. */
  lemma FormatPlacesSeparators(s: string)
    ensures var n := |Take(s, Width)|;
            (n > 1 ==> Format(s)[2] == '.') && (n > 4 ==> Format(s)[6] == '.') &&
            (n > 7 ==> Format(s)[10] == '/') && (n > 11 ==> Format(s)[15] == '-')
  {
    var n := |Take(s, Width)|;
    if n > 1 { FormatPlacesSeparator(s, 1); }
    if n > 4 { FormatPlacesSeparator(s, 4); }
    if n > 7 { FormatPlacesSeparator(s, 7); }
    if n > 11 { FormatPlacesSeparator(s, 11); }
  }

  /** Filtering the digits out of the display gives back a digits-only raw value. */
  lemma FormatStripsSeparators(s: string)
    requires |s| <= Width && AllDigits(s)
    ensures KeepDigits(Format(s)) == s
  {
  }

  /** A full-width value is shown as `DD.DDD.DDD/DDDD-DD`. */
  lemma FormatFullWidth(s: string)
    requires |s| >= Width
    ensures Format(s) == s[..2] + "." + s[2..5] + "." + s[5..8] + "/" + s[8..12] + "-" + s[12..14]
  {
    var f := Format(s);
    assert |f| == 18;
    FormatPlacesSeparators(s);
    assert f[..2] == s[..2] by {
      forall i | 0 <= i < 2 ensures f[..2][i] == s[..2][i] { FormatPlacesRaw(s, 0 + i); }
    }
    assert f[3..6] == s[2..5] by {
      forall i | 0 <= i < 3 ensures f[3..6][i] == s[2..5][i] { FormatPlacesRaw(s, 2 + i); }
    }
    assert f[7..10] == s[5..8] by {
      forall i | 0 <= i < 3 ensures f[7..10][i] == s[5..8][i] { FormatPlacesRaw(s, 5 + i); }
    }
    assert f[11..15] == s[8..12] by {
      forall i | 0 <= i < 4 ensures f[11..15][i] == s[8..12][i] { FormatPlacesRaw(s, 8 + i); }
    }
    assert f[16..18] == s[12..14] by {
      forall i | 0 <= i < 2 ensures f[16..18][i] == s[12..14][i] { FormatPlacesRaw(s, 12 + i); }
    }
    assert f == f[..2] + [f[2]] + f[3..6] + [f[6]] + f[7..10] + [f[10]] + f[11..15] + [f[15]] + f[16..18];
  }

  lemma FormatExampleFull(s: string)
    requires s == "12345678000199"
    ensures Format(s) == "12.345.678/0001-99"
  {
    assert s[..2] == "12";
    assert s[2..5] == "345";
    assert s[5..8] == "678";
    assert s[8..12] == "0001";
    assert s[12..14] == "99";
    FormatFullWidth(s);
  }

  /** A trailing separator is shown as soon as its raw index is typed. */
  lemma FormatExampleTrailingSeparator()
    ensures Format("12") == "12."
  {
    assert Take("12", Width) == "12";
    FormatPlacesSeparators("12");
    forall i: nat | i < 2 ensures Format("12")[i] == "12"[i] {
      FormatPlacesRaw("12", i);
    }
  }

  lemma OriginalToTransformedIncreasing(a: int, b: int)
    requires a < b
    ensures OriginalToTransformed(a) < OriginalToTransformed(b)
  {
  }

  lemma OriginalToTransformedMonotone(a: int, b: int)
    requires a <= b
    ensures OriginalToTransformed(a) <= OriginalToTransformed(b)
  {
  }

  lemma RoundTrip(o: int)
    ensures TransformedToOriginal(OriginalToTransformed(o)) == o
  {
  }

  lemma TransformedToOriginalMonotone(a: int, b: int)
    requires a <= b
    ensures TransformedToOriginal(a) <= TransformedToOriginal(b)
  {
  }

  /** Every display caret of the shown text maps to a raw caret of the kept text. */
  lemma TransformedToOriginalRange(s: string, d: int)
    requires 0 <= d <= |Format(s)|
    ensures 0 <= TransformedToOriginal(d) <= |Take(s, Width)|
  {
    RoundTrip(|Take(s, Width)|);
    TransformedToOriginalMonotone(d, |Format(s)|);
  }

  /** As written, display carets 14 and 15 both map to raw offset 11: the
      last breakpoint is at 14 while the dash is at display index 15. For any
      digits-only value of twelve or more digits (`12.345.678/0001-99`, say),
      caret 15 stands after twelve raw digits, yet it is mapped to 11. */
  lemma CaretBeforeDashMisread(s: string)
    requires AllDigits(Take(s, Width)) && |s| >= 12
    ensures 15 <= |Format(s)|
    ensures |KeepDigits(Format(s)[..15])| == 12
    ensures TransformedToOriginal(14) == 11 && TransformedToOriginal(15) == 11
  {
    AlignedCountsRawBefore(s, 15);
  }

  /** `transformedToOriginal` with its last breakpoint on the dash of this
      mask (display index 15). */
  function AlignedTransformedToOriginal(offset: int): int
  {
    if offset <= 2 then offset
    else if offset <= 6 then offset - 1
    else if offset <= 10 then offset - 2
    else if offset <= 15 then offset - 3
    else offset - 4
  }
  /** A positive display caret lies after the raw character just before the
      one the aligned map names, and no later than the end of its separator. */
  lemma AlignedBrackets(d: int)
    requires d > 0
    ensures AlignedTransformedToOriginal(d) >= 1
    ensures OriginalToTransformed(AlignedTransformedToOriginal(d) - 1) < d <= OriginalToTransformed(AlignedTransformedToOriginal(d))
  {
  }

  /** For digits-only input the aligned map gives, for every display caret,
      the number of raw characters shown before it. */
  lemma AlignedCountsRawBefore(s: string, d: int)
    requires AllDigits(Take(s, Width))
    requires 0 <= d <= |Format(s)|
    ensures AlignedTransformedToOriginal(d) == |KeepDigits(Format(s)[..d])|
  {
    if d > 0 {
      var t := Take(s, Width);
      var k := AlignedTransformedToOriginal(d) - 1;
      assert 0 <= k < |t| && OriginalToTransformed(k) < d <= OriginalToTransformed(k + 1) by {
        AlignedBrackets(d);
        if k >= |t| {
          OriginalToTransformedMonotone(|t|, k);
        }
      }
      CaretCount(t, k, d);
    }
  }

  /** A display caret after raw character `k` of digits-only kept text, and
      no later than the end of its separator, has `k + 1` digits before it. */
  lemma CaretCount(t: string, k: nat, d: int)
    requires AllDigits(t) && k < |t|
    requires OriginalToTransformed(k) < d <= OriginalToTransformed(k + 1)
    ensures d <= |Punctuate(t, Separator)|
    ensures |KeepDigits(Punctuate(t, Separator)[..d])| == k + 1
  {
    assert |Punctuate(t[..k], Separator)| < d <= |Punctuate(t[..k + 1], Separator)| by {
      OffsetSteps();
      PunctuatePrefixLength(t, Separator, OriginalToTransformed, k);
      PunctuatePrefixLength(t, Separator, OriginalToTransformed, k + 1);
    }
    PunctuatePrefix(t, Separator, k + 1);
    SeparatorsHaveNoDigits();
    DigitsBeforeCaret(t, Separator, k, d);
  }

  /** The aligned map still undoes `originalToTransformed`. */
  lemma AlignedRoundTrip(o: int)
    ensures AlignedTransformedToOriginal(OriginalToTransformed(o)) == o
  {
  }

  /** The map as written agrees with the raw count everywhere except at the
      caret just before the dash. */
  lemma MisreadCaretsAreBeforeSeparators(s: string, d: int)
    requires AllDigits(Take(s, Width))
    requires 0 <= d <= |Format(s)|
    ensures TransformedToOriginal(d) == |KeepDigits(Format(s)[..d])| <==> d != 15
  {
    AlignedCountsRawBefore(s, d);
  }
}
