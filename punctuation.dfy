/** The text built by the CPF and CNPJ formatting loops: each raw character
    is appended, followed by the separator the mask puts after that raw
    index (the empty string where it puts none). Both masks are this one
    construction with a different separator table. */
module Punctuation {
  import opened Text

  /** The display text for the raw characters `t`, as the loop builds it after
      `|t|` rounds. */
  function Punctuate(t: string, sep: nat -> string): string
    decreases |t|
  {
    if |t| == 0 then "" else Punctuate(t[..|t| - 1], sep) + [t[|t| - 1]] + sep(|t| - 1)
  }

  /** One more round of the loop appends the next raw character and its separator. */
  lemma PunctuateStep(t: string, sep: nat -> string, i: nat)
    requires i < |t|
    ensures Punctuate(t[..i + 1], sep) == Punctuate(t[..i], sep) + [t[i]] + sep(i)
  {
    assert t[..i + 1][..i] == t[..i];
  }

  /** The display text of the first `k` raw characters is a prefix of the
      whole display text: appending raw characters never rewrites what is shown. */
  lemma {:induction false} PunctuatePrefix(t: string, sep: nat -> string, k: nat)
    requires k <= |t|
    ensures Punctuate(t[..k], sep) <= Punctuate(t, sep)
    decreases |t| - k
  {
    if k < |t| {
      var u := t[..|t| - 1];
      assert u[..k] == t[..k];
      PunctuatePrefix(u, sep, k);
    } else {
      assert t[..k] == t;
    }
  }

  /** Raw character `i` sits at display index `|Punctuate(t[..i])|`, followed by
      its separator. */
  lemma PunctuateAt(t: string, sep: nat -> string, i: nat)
    requires i < |t|
    ensures Punctuate(t[..i], sep) + [t[i]] + sep(i) <= Punctuate(t, sep)
  {
    PunctuateStep(t, sep, i);
    PunctuatePrefix(t, sep, i + 1);
  }

  /** An offset map that advances by one plus the separator length at every raw
      index gives the display length of every raw prefix. */
  lemma {:induction false} PunctuatePrefixLength(t: string, sep: nat -> string, offset: int -> int, k: nat)
    requires offset(0) == 0
    requires forall j: nat {:trigger sep(j)} :: offset(j + 1) == offset(j) + 1 + |sep(j)|
    requires k <= |t|
    ensures |Punctuate(t[..k], sep)| == offset(k)
  {
    if k > 0 {
      PunctuatePrefixLength(t, sep, offset, k - 1);
      PunctuateStep(t, sep, k - 1);
      assert offset(k) == offset(k - 1) + 1 + |sep(k - 1)|;
    }
  }

  /** Separators without digits vanish when the digits are filtered back out. */
  lemma {:induction false} PunctuateKeepDigits(t: string, sep: nat -> string)
    requires forall j: nat :: KeepDigits(sep(j)) == ""
    ensures KeepDigits(Punctuate(t, sep)) == KeepDigits(t)
    decreases |t|
  {
    if |t| > 0 {
      var n := |t| - 1;
      PunctuateKeepDigits(t[..n], sep);
      KeepDigitsAppend(Punctuate(t[..n], sep) + [t[n]], sep(n));
      KeepDigitsAppend(Punctuate(t[..n], sep), [t[n]]);
      assert t == t[..n] + [t[n]];
      KeepDigitsAppend(t[..n], [t[n]]);
      assert KeepDigits(sep(n)) == "";
    }
  }

  /** For digits-only raw text and digit-free separators: the digits shown
      before display caret `d`, when `d` lies after raw character `k` and no
      later than the end of its separator, are exactly `k + 1`. */
  lemma DigitsBeforeCaret(t: string, sep: nat -> string, k: nat, d: nat)
    requires AllDigits(t)
    requires forall j: nat :: KeepDigits(sep(j)) == ""
    requires k < |t|
    requires |Punctuate(t[..k], sep)| < d <= |Punctuate(t[..k + 1], sep)|
    requires d <= |Punctuate(t, sep)|
    ensures |KeepDigits(Punctuate(t, sep)[..d])| == k + 1
  {
    var before := Punctuate(t[..k], sep);
    PunctuateStep(t, sep, k);
    var m := d - |before| - 1;
    var tail := sep(k)[..m];
    assert Punctuate(t, sep)[..d] == before + [t[k]] + tail by {
      PunctuatePrefix(t, sep, k + 1);
      assert Punctuate(t, sep)[..d] == Punctuate(t[..k + 1], sep)[..d];
    }
    assert KeepDigits(tail) == "" by {
      assert sep(k) == tail + sep(k)[m..];
      KeepDigitsAppend(tail, sep(k)[m..]);
    }
    assert |KeepDigits(before)| == k by {
      PunctuateKeepDigits(t[..k], sep);
      assert AllDigits(t[..k]);
    }
    KeepDigitsAppend(before + [t[k]], tail);
    KeepDigitsAppend(before, [t[k]]);
    KeepDigitsOfSingle(t[k]);
  }
}
