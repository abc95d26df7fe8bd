/** The date input mask (`DateVisualTransformation`): the raw value is cut to
    8 characters and shown as `DD/MM/YYYY`, a slash appearing only once a
    character follows it; two offset maps move the caret between raw and
    display positions. */
module DateVisualTransformation {
  import opened Text

  /** Raw characters kept before formatting (`text.take(8)`). */
  const Width: nat := 8

  /** The display text `buildString` assembles from the day, month and year slices. */
  function Format(s: string): (r: string)
    ensures |r| == OriginalToTransformed(|Take(s, Width)|)
  {
    var t := Take(s, Width);
    Take(t, 2) + (if |t| > 2 then "/" else "") + Take(Drop(t, 2), 2)
    + (if |t| > 4 then "/" else "") + Take(Drop(t, 4), 4)
  }

  /** `originalToTransformed`: raw caret offset to display caret offset. */
  function OriginalToTransformed(offset: int): int
  {
    if offset <= 2 then offset
    else if offset <= 4 then offset + 1
    else offset + 2
  }

  /** `transformedToOriginal`: display caret offset to raw caret offset. */
  function TransformedToOriginal(offset: int): int
  {
    if offset <= 2 then offset
    else if offset <= 5 then offset - 1
    else offset - 2
  }

  /** Only the first 8 characters of the input matter. */
  lemma FormatTruncates(s: string)
    ensures Format(s) == Format(Take(s, Width))
  {
  }

  /** The slash layout of kept raw text `t`, spelled out case by case: an
      independent statement of what `buildString` assembles. */
  function Slashed(t: string): string
  {
    if |t| <= 2 then t
    else if |t| <= 4 then t[..2] + "/" + t[2..]
    else t[..2] + "/" + t[2..4] + "/" + t[4..]
  }

  /** Where the slashes go: none up to two raw characters, one after the day
      up to four, and a second one after the month beyond that. */
  lemma FormatSlashes(s: string)
    ensures Format(s) == Slashed(Take(s, Width))
    ensures var t := Take(s, Width);
            (|t| <= 2 ==> Format(s) == t) &&
            (2 < |t| <= 4 ==> Format(s) == t[..2] + "/" + t[2..]) &&
            (4 < |t| ==> Format(s) == t[..2] + "/" + t[2..4] + "/" + t[4..])
  {
    var t := Take(s, Width);
    if |t| <= 2 {
      assert Drop(t, 2) == [] && Drop(t, 4) == [];
    } else if |t| <= 4 {
      assert Take(Drop(t, 2), 2) == t[2..] && Drop(t, 4) == [];
    } else {
      assert Take(Drop(t, 2), 2) == t[2..4] && Take(Drop(t, 4), 4) == t[4..];
    }
  }

  /** The display length is the raw length plus one slash past two raw
      characters and another past four. */
  lemma FormatLength(s: string)
    ensures var n := |Take(s, Width)|;
            |Format(s)| == n + (if n > 2 then 1 else 0) + (if n > 4 then 1 else 0)
  {
  }

  /** The display always ends with the last raw character: unlike the CPF and
      CNPJ masks, no separator is shown before the character that follows it. */
  lemma FormatEndsWithRaw(s: string)
    requires |s| > 0
    ensures |Format(s)| > 0 && Format(s)[|Format(s)| - 1] == Take(s, Width)[|Take(s, Width)| - 1]
  {
    FormatSlashes(s);
  }

  lemma SlashedKeepDigits(t: string)
    ensures KeepDigits(Slashed(t)) == KeepDigits(t)
  {
    if 2 < |t| <= 4 {
      var a, b := t[..2], t[2..];
      assert t == a + b;
      KeepDigitsAppend(a, b);
      KeepDigitsSkips(a, '/', b);
    } else if 4 < |t| {
      var a, b, c := t[..2], t[2..4], t[4..];
      assert t == a + b + c;
      KeepDigitsAppend(a + b, c);
      KeepDigitsAppend(a, b);
      KeepDigitsSkips(a + "/" + b, '/', c);
      KeepDigitsSkips(a, '/', b);
    }
  }

  /** Filtering the digits out of the display gives back the digits of the kept raw text. */
  lemma FormatStripsSeparators(s: string)
    ensures KeepDigits(Format(s)) == KeepDigits(Take(s, Width))
  {
    FormatSlashes(s);
    SlashedKeepDigits(Take(s, Width));
  }

  lemma SlashedCaret(t: string, o: nat)
    requires o <= |t|
    ensures Slashed(t[..o]) <= Slashed(t)
    ensures |Slashed(t[..o])| == OriginalToTransformed(o)
  {
    var u := t[..o];
    if o <= 2 {
      assert Slashed(u) == u;
      assert Slashed(t)[..o] == t[..o];
    } else if o <= 4 {
      assert u[..2] == t[..2] && u[2..] == t[2..o];
      if |t| <= 4 {
        assert Slashed(t)[..o + 1] == t[..2] + "/" + t[2..o];
      } else {
        assert Slashed(t)[..o + 1] == t[..2] + "/" + t[2..o];
      }
    } else {
      assert u[..2] == t[..2] && u[2..4] == t[2..4] && u[4..] == t[4..o];
      assert Slashed(t)[..o + 2] == t[..2] + "/" + t[2..4] + "/" + t[4..o];
    }
  }

  /** The display of the first `o` raw characters is a prefix of the whole
      display and ends at display offset `OriginalToTransformed(o)`. */
  lemma FormatCaret(s: string, o: nat)
    requires o <= |Take(s, Width)|
    ensures Format(s[..o]) <= Format(s)
    ensures |Format(s[..o])| == OriginalToTransformed(o)
  {
    var t := Take(s, Width);
    assert Take(s[..o], Width) == t[..o];
    FormatSlashes(s);
    FormatSlashes(s[..o]);
    SlashedCaret(t, o);
  }

  /** Raw character `i` is shown just before display caret `OriginalToTransformed(i + 1)`. */
  lemma FormatPlacesRaw(s: string, i: nat)
    requires i < |Take(s, Width)|
    ensures 0 <= OriginalToTransformed(i + 1) - 1 < |Format(s)|
    ensures Format(s)[OriginalToTransformed(i + 1) - 1] == s[i]
  {
    FormatSlashes(s);
  }

  lemma FormatExample(s: string)
    requires s == "01012020"
    ensures Format(s) == "01/01/2020"
  {
    FormatSlashes(s);
    assert Take(s, Width) == s;
    assert s[..2] == "01" && s[2..4] == "01" && s[4..] == "2020";
  }

  lemma OriginalToTransformedIncreasing(a: int, b: int)
    requires a < b
    ensures OriginalToTransformed(a) < OriginalToTransformed(b)
  {
  }

  lemma RoundTrip(o: int)
    ensures TransformedToOriginal(OriginalToTransformed(o)) == o
  {
  }

  lemma TransformedToOriginalMonotone(a: int, b: int)
    requires a <= b
    ensures TransformedToOriginal(a) <= TransformedToOriginal(b)
  {
  }

  /** Every display caret of the shown text maps to a raw caret of the kept text. */
  lemma TransformedToOriginalRange(s: string, d: int)
    requires 0 <= d <= |Format(s)|
    ensures 0 <= TransformedToOriginal(d) <= |Take(s, Width)|
  {
    RoundTrip(|Take(s, Width)|);
    TransformedToOriginalMonotone(d, |Format(s)|);
  }

  /** Here the map as written is exact: for digits-only input it gives, for
      every display caret, the number of raw characters shown before it. */
  lemma TransformedToOriginalCountsRawBefore(s: string, d: int)
    requires AllDigits(Take(s, Width))
    requires 0 <= d <= |Format(s)|
    ensures TransformedToOriginal(d) == |KeepDigits(Format(s)[..d])|
  {
    FormatSlashes(s);
    SlashedCountsRawBefore(Take(s, Width), d);
  }

  lemma SlashedCountsRawBefore(t: string, d: int)
    requires AllDigits(t)
    requires 0 <= d <= |Slashed(t)|
    ensures TransformedToOriginal(d) == |KeepDigits(Slashed(t)[..d])|
  {
    var f := Slashed(t);
    if d <= 2 {
      assert f[..d] == t[..d];
      assert AllDigits(t[..d]);
    } else if d <= 5 {
      var a, b := t[..2], t[2..d - 1];
      assert f[..d] == a + "/" + b;
      assert AllDigits(a) && AllDigits(b);
      KeepDigitsSkips(a, '/', b);
    } else {
      var a, b, c := t[..2], t[2..4], t[4..d - 2];
      assert f[..d] == a + "/" + b + "/" + c;
      assert AllDigits(a) && AllDigits(b) && AllDigits(c);
      KeepDigitsSkips(a + "/" + b, '/', c);
      KeepDigitsSkips(a, '/', b);
    }
  }
}
