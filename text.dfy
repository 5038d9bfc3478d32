/** Small value helpers shared by the modules of the analysis pipeline:
    an optional value, Python's substring test `needle in s`, the decimal
    rendering an f-string gives a non-negative integer, and the
    concatenation of a sequence of strings. */
module Text {

  /** A value that may be absent (Python's `None`). */
  datatype Option<+T> = None | Some(value: T)

  /** Python's `needle in s` on strings: `needle` occurs contiguously in `s`
      (case-sensitive, no normalisation). */
  function Contains(s: string, needle: string): (b: bool)
    decreases |s|
  {
    if |s| < |needle| then false
    else s[..|needle|] == needle || Contains(s[1..], needle)
  }

  /** `needle` occurs in `s` starting at position `i`. */
  predicate OccursAt(s: string, needle: string, i: int) {
    0 <= i <= |s| - |needle| && s[i..i + |needle|] == needle
  }

  /** `Contains` agrees with the positional definition of a substring. */
  lemma {:induction false} ContainsIff(s: string, needle: string)
    ensures Contains(s, needle) <==> exists i :: OccursAt(s, needle, i)
    decreases |s|
  {
    if |s| < |needle| {
    } else if s[..|needle|] == needle {
      assert OccursAt(s, needle, 0);
    } else {
      ContainsIff(s[1..], needle);
      if Contains(s[1..], needle) {
        var i :| OccursAt(s[1..], needle, i);
        OccursInside(s, 1, |s|, s[1..], i, needle);
      } else {
        forall i | 0 < i <= |s| - |needle|
          ensures !OccursAt(s, needle, i)
        {
          SubSlice(s, 1, |s|, i - 1, |needle|);
          assert !OccursAt(s[1..], needle, i - 1);
        }
        assert !OccursAt(s, needle, 0);
      }
    }
  }

  /** A slice of a slice is a slice of the whole. */
  lemma SubSlice(s: string, a: nat, b: nat, off: nat, n: nat)
    requires a <= b <= |s| && off + n <= b - a
    ensures s[a..b][off..off + n] == s[a + off..a + off + n]
  {
    var u, w := s[a..b][off..off + n], s[a + off..a + off + n];
    forall k | 0 <= k < n
      ensures u[k] == w[k]
    {
      assert u[k] == s[a..b][off + k] == s[a + off + k];
    }
  }

  /** A needle inside a piece of `s` occurs in `s` itself. */
  lemma OccursInside(s: string, a: nat, b: nat, piece: string, off: nat, needle: string)
    requires a <= b <= |s| && s[a..b] == piece
    requires off + |needle| <= |piece| && piece[off..off + |needle|] == needle
    ensures OccursAt(s, needle, a + off)
  {
    SubSlice(s, a, b, off, |needle|);
  }

  /** The character of a decimal digit. */
  function DigitChar(d: nat): (c: char)
    requires d < 10
    ensures '0' <= c <= '9' && c as int - '0' as int == d
  {
    ('0' as int + d) as char
  }

  /** The decimal rendering of `n` (what `f"{n}"` prints for a non-negative int). */
  function NatToDecimal(n: nat): (r: string)
    ensures |r| >= 1
    ensures forall k :: 0 <= k < |r| ==> '0' <= r[k] <= '9'
    ensures 1 < |r| ==> r[0] != '0'
  {
    if n < 10 then [DigitChar(n)] else NatToDecimal(n / 10) + [DigitChar(n % 10)]
  }

  /** The value of a string of decimal digits. */
  function DecimalValue(s: string): nat
    requires forall k :: 0 <= k < |s| ==> '0' <= s[k] <= '9'
  {
    if s == [] then 0
    else DecimalValue(s[..|s| - 1]) * 10 + (s[|s| - 1] as int - '0' as int)
  }

  /** Reading back the rendering gives the number: the rendering loses nothing. */
  lemma {:induction false} DecimalRoundTrip(n: nat)
    ensures DecimalValue(NatToDecimal(n)) == n
  {
    if n >= 10 {
      var r := NatToDecimal(n);
      assert r[..|r| - 1] == NatToDecimal(n / 10);
      DecimalRoundTrip(n / 10);
    }
  }

  /** The concatenation of a sequence of strings, in order. */
  function Concat(parts: seq<string>): (r: string)
  {
    if parts == [] then "" else parts[0] + Concat(parts[1..])
  }

  /** Concatenating the first `k` parts and the rest gives the whole. */
  lemma {:induction false} ConcatSplit(parts: seq<string>, k: nat)
    requires k <= |parts|
    ensures Concat(parts) == Concat(parts[..k]) + Concat(parts[k..])
  {
    if k == 0 {
      assert parts[..0] == [] && parts[0..] == parts;
    } else {
      ConcatSplit(parts[1..], k - 1);
      assert parts[1..][..k - 1] == parts[..k][1..];
      assert parts[1..][k - 1..] == parts[k..];
    }
  }

  /** Where part `k` starts in `Concat(parts)`. */
  function Offset(parts: seq<string>, k: nat): (o: nat)
    requires k <= |parts|
  {
    |Concat(parts[..k])|
  }

  /** Each part sits, unchanged, at its offset, and the next part starts where
      it ends. */
  lemma ConcatAt(parts: seq<string>, k: nat)
    requires k < |parts|
    ensures Offset(parts, k + 1) == Offset(parts, k) + |parts[k]| <= |Concat(parts)|
    ensures Concat(parts)[Offset(parts, k)..Offset(parts, k + 1)] == parts[k]
  {
    ConcatSplit(parts, k);
    assert parts[k..][1..] == parts[k + 1..];
    ConcatStep(parts, k);
    var doc, before := Concat(parts), Concat(parts[..k]);
    assert doc == before + (parts[k] + Concat(parts[k + 1..]));
    assert doc[|before|..|before| + |parts[k]|] == parts[k];
  }

  /** Adding part `k` to the first `k` parts appends it. */
  lemma ConcatStep(parts: seq<string>, k: nat)
    requires k < |parts|
    ensures Concat(parts[..k + 1]) == Concat(parts[..k]) + parts[k]
  {
    var upTo := parts[..k + 1];
    ConcatSplit(upTo, k);
    assert upTo[..k] == parts[..k];
    assert upTo[k..] == [parts[k]];
    assert Concat([parts[k]]) == parts[k] + Concat([]);
  }

  /** The concatenation of the first `j` parts is a prefix of the whole. */
  lemma ConcatPrefix(parts: seq<string>, j: nat)
    requires j <= |parts|
    ensures Concat(parts[..j]) <= Concat(parts)
  {
    ConcatSplit(parts, j);
  }
}
