/**
 * Decimal rendering and parsing of natural numbers, and the exposure file
 * name built from a base name and a zero-padded frame number
 * (`f'{basename}{frameno:04d}.fits'`).
 */
module Decimal {
  import opened Options

  predicate IsDigit(c: char) { '0' <= c <= '9' }

  predicate AllDigits(s: string) { forall i :: 0 <= i < |s| ==> IsDigit(s[i]) }

  function DigitValue(c: char): (d: nat)
    requires IsDigit(c)
    ensures d < 10
  {
    c as int - '0' as int
  }

  function DigitChar(d: nat): (c: char)
    requires d < 10
    ensures IsDigit(c) && DigitValue(c) == d
  {
    (d + '0' as int) as char
  }

  function Pow10(k: nat): (p: nat)
    ensures p >= 1
  {
    if k == 0 then 1 else 10 * Pow10(k - 1)
  }

  /** Python's `f"{n:d}"` for a non-negative `n`: digits, no leading zero. */
  function NatStr(n: nat): (s: string)
    ensures 1 <= |s| && AllDigits(s)
    ensures (s[0] == '0') == (n == 0)
    decreases n
  {
    if n < 10 then [DigitChar(n)] else NatStr(n / 10) + [DigitChar(n % 10)]
  }

  /**
   * Python's `f"{n:d}"` for any integer: a minus sign before negative
   * values, then digits that `int()` reads back as the magnitude
   * (`IntStrReadsBack`).
   */
  function IntStr(n: int): (s: string)
    ensures 1 <= |s|
    ensures (s[0] == '-') == (n < 0)
    ensures n >= 0 ==> AllDigits(s)
  {
    if n < 0 then "-" + NatStr(-n) else NatStr(n)
  }

  /**
   * The digits of `{n:d}` are written without a superfluous leading zero,
   * and `int()` reads them back as the magnitude of `n`.
   */
  lemma IntStrReadsBack(n: int)
    ensures n >= 0 ==> ParseNat(IntStr(n)) == Some(n)
    ensures n < 0 ==> ParseNat(IntStr(n)[1..]) == Some(-n)
    ensures var d := if n < 0 then IntStr(n)[1..] else IntStr(n);
      |d| >= 1 && (d[0] == '0' ==> |d| == 1)
  {
    ParseNatStr(if n < 0 then -n else n);
    NatStrWidth(if n < 0 then -n else n, 1);
    if n < 0 {
      assert ("-" + NatStr(-n))[1..] == NatStr(-n);
    }
  }

  /** The value of a string of decimal digits (leading zeros allowed). */
  function DigitsValue(s: string): nat
    requires AllDigits(s)
    decreases |s|
  {
    if s == [] then 0 else DigitsValue(s[..|s| - 1]) * 10 + DigitValue(s[|s| - 1])
  }

  /**
   * Python's `int(s)` restricted to plain digit strings: a non-empty run of
   * ASCII digits parses, anything else is an error.
   */
  function ParseNat(s: string): (r: Option<nat>)
    ensures r.Some? <==> |s| > 0 && AllDigits(s)
    ensures r.Some? ==> r.value < Pow10(|s|)
  {
    if |s| > 0 && AllDigits(s) then
      DigitsValueBound(s);
      Some(DigitsValue(s))
    else
      None
  }

  /** A string of `k` digits denotes less than `10^k`. */
  lemma {:induction false} DigitsValueBound(s: string)
    requires AllDigits(s)
    ensures DigitsValue(s) < Pow10(|s|)
    decreases |s|
  {
    if s != [] {
      var t := s[..|s| - 1];
      DigitsValueBound(t);
      var v, p := DigitsValue(t), Pow10(|t|);
      assert v <= p - 1;
      assert v * 10 <= (p - 1) * 10;
    }
  }

  function Zeros(k: nat): (z: string)
    ensures |z| == k && AllDigits(z)
    ensures forall i :: 0 <= i < k ==> z[i] == '0'
  {
    seq(k, _ => '0')
  }

  lemma {:induction false} NatStrValue(n: nat)
    ensures DigitsValue(NatStr(n)) == n
    decreases n
  {
    if n >= 10 {
      var s := NatStr(n);
      NatStrValue(n / 10);
      assert s[..|s| - 1] == NatStr(n / 10);
    }
  }

  /** Rendering then parsing gives the number back. */
  lemma ParseNatStr(n: nat)
    ensures ParseNat(NatStr(n)) == Some(n)
  {
    NatStrValue(n);
  }

  /** `int()` ignores leading zeros: it reads `"0…0" + NatStr(n)` as `n`. */
  lemma ParseNatPadded(k: nat, n: nat)
    ensures ParseNat(Zeros(k) + NatStr(n)) == Some(n)
  {
    ZerosPrefixValue(k, NatStr(n));
    NatStrValue(n);
  }

  /**
   * Every non-empty digit string is some leading zeros followed by the
   * rendering of its value, so with `ParseNatPadded` it fixes what `int()`
   * returns for every string it accepts.
   */
  lemma {:induction false} DigitsPadded(s: string)
    requires |s| >= 1 && AllDigits(s)
    ensures exists k: nat :: s == Zeros(k) + NatStr(DigitsValue(s))
    decreases |s|
  {
    if s[0] == '0' && |s| > 1 {
      var t := s[1..];
      DigitsPadded(t);
      var k: nat :| t == Zeros(k) + NatStr(DigitsValue(t));
      LeadingZeroValue(s);
      PadOne(t, k, DigitsValue(t));
      assert s == ['0'] + t;
    } else {
      NatStrOfCanonical(s);
      assert s == Zeros(0) + NatStr(DigitsValue(s));
    }
  }

  /** A leading '0' does not change the value of a digit string. */
  lemma LeadingZeroValue(s: string)
    requires |s| >= 1 && AllDigits(s) && s[0] == '0'
    ensures DigitsValue(s) == DigitsValue(s[1..])
  {
    ZerosPrefixValue(1, s[1..]);
    assert s == Zeros(1) + s[1..];
  }

  /** One more leading zero in front of a padded rendering. */
  lemma PadOne(t: string, k: nat, v: nat)
    requires t == Zeros(k) + NatStr(v)
    ensures ['0'] + t == Zeros(k + 1) + NatStr(v)
  {
    var z, r := Zeros(k), NatStr(v);
    assert ['0'] + (z + r) == (['0'] + z) + r;
    assert ['0'] + z == Zeros(k + 1);
  }

  /** A parsed digit string without a superfluous leading zero is the rendering of its value. */
  lemma {:induction false} NatStrOfCanonical(s: string)
    requires |s| >= 1 && AllDigits(s)
    requires s[0] == '0' ==> |s| == 1
    ensures NatStr(DigitsValue(s)) == s
    decreases |s|
  {
    if |s| > 1 {
      var t, c := s[..|s| - 1], s[|s| - 1];
      NatStrOfCanonical(t);
      LeadingDigitBound(t);
      var v, d := DigitsValue(t), DigitValue(c);
      assert v >= 1 by { assert t[0] == s[0]; }
      assert DigitsValue(s) == v * 10 + d;
      LastDigit(v, d);
      assert DigitChar(d) == c;
      assert s == t + [c];
    } else {
      assert DigitChar(DigitValue(s[0])) == s[0];
    }
  }

  /** Appending a digit `d` to the rendering of a positive `v` renders `10 * v + d`. */
  lemma LastDigit(v: nat, d: nat)
    requires v >= 1 && d < 10
    ensures NatStr(v * 10 + d) == NatStr(v) + [DigitChar(d)]
  {
    assert (v * 10 + d) / 10 == v && (v * 10 + d) % 10 == d;
  }

  /** A digit string is worth at least its leading digit. */
  lemma {:induction false} LeadingDigitBound(s: string)
    requires |s| >= 1 && AllDigits(s)
    ensures DigitsValue(s) >= DigitValue(s[0])
    decreases |s|
  {
    if |s| > 1 {
      LeadingDigitBound(s[..|s| - 1]);
    }
  }

  /** Leading zeros do not change the value of a digit string. */
  lemma {:induction false} ZerosPrefixValue(k: nat, s: string)
    requires AllDigits(s)
    ensures AllDigits(Zeros(k) + s)
    ensures DigitsValue(Zeros(k) + s) == DigitsValue(s)
    decreases |s|
  {
    var z := Zeros(k);
    if s == [] {
      assert z + s == z;
      ZerosValue(k);
    } else {
      var t := s[..|s| - 1];
      ZerosPrefixValue(k, t);
      assert (z + s)[..|z + s| - 1] == z + t;
    }
  }

  lemma {:induction false} ZerosValue(k: nat)
    ensures DigitsValue(Zeros(k)) == 0
    decreases k
  {
    if k > 0 {
      ZerosValue(k - 1);
      assert Zeros(k)[..k - 1] == Zeros(k - 1);
    }
  }

  /** `NatStr(n)` fits in `k` characters exactly when `n < 10^k`. */
  lemma {:induction false} NatStrWidth(n: nat, k: nat)
    requires k >= 1
    ensures |NatStr(n)| <= k <==> n < Pow10(k)
    decreases n
  {
    if n >= 10 {
      if k == 1 {
        assert |NatStr(n / 10)| >= 1;
      } else {
        NatStrWidth(n / 10, k - 1);
        assert n / 10 < Pow10(k - 1) <==> n < 10 * Pow10(k - 1);
      }
    } else {
      if k > 1 {
        assert Pow10(k) == 10 * Pow10(k - 1);
      }
    }
  }

  /**
   * `{n:04d}`: the decimal digits of `n`, left-filled with '0' to four
   * characters. The result denotes `n` and is exactly four characters long
   * until `n` reaches 10000, after which it is the unpadded rendering.
   */
  function FrameDigits(n: nat): (r: string)
    ensures AllDigits(r) && DigitsValue(r) == n
    ensures |r| >= 4
    ensures (|r| == 4) == (n < 10000)
    ensures n >= 10000 ==> r == NatStr(n)
  {
    var s := NatStr(n);
    NatStrValue(n);
    NatStrWidth(n, 4);
    assert Pow10(4) == 10000;
    if |s| < 4 then
      ZerosPrefixValue(4 - |s|, s);
      Zeros(4 - |s|) + s
    else
      s
  }

  /**
   * `get_filename`: the base name, then the padded frame number, then
   * ".fits". The middle part is exactly `{frameno:04d}`, so it reads back
   * as the frame number, and the name is 4 + 5 characters longer than the
   * base name exactly while the frame number is below 10000.
   */
  function FrameFileName(basename: string, frameno: nat): (f: string)
    ensures |f| >= |basename| + 4 + 5
    ensures f[..|basename|] == basename
    ensures f[|f| - 5..] == ".fits"
    ensures f[|basename|..|f| - 5] == FrameDigits(frameno)
    ensures AllDigits(f[|basename|..|f| - 5])
    ensures DigitsValue(f[|basename|..|f| - 5]) == frameno
    ensures |f| == |basename| + 4 + 5 <==> frameno < 10000
  {
    var d := FrameDigits(frameno);
    var f := basename + d + ".fits";
    assert f[|basename|..|f| - 5] == d;
    assert f[..|basename|] == basename;
    assert f[|f| - 5..] == ".fits";
    f
  }

  /** Different frame numbers never share a file name. */
  lemma FileNameInjective(basename: string, n: nat, m: nat)
    requires FrameFileName(basename, n) == FrameFileName(basename, m)
    ensures n == m
  {
    var f := FrameFileName(basename, n);
    assert DigitsValue(f[|basename|..|f| - 5]) == n;
  }
}
