/**
 * Rank labels: the digit test and integer parse the parsers apply to a select
 * option's name (`str.isdigit`, `int`), and the zero-padded rendering the
 * normaliser writes back (`'{:0<width>}'.format(n)`).
 */
module Labels {
  import opened Wrappers
  import opened Pages
  import opened Text

  predicate IsDigitChar(c: char) { '0' <= c <= '9' }

  predicate AllDigits(s: string) { forall i :: 0 <= i < |s| ==> IsDigitChar(s[i]) }

  /** `s.isdigit()`, restricted to the ASCII digits: non-empty and nothing but digits. */
  predicate IsDigits(s: string) { |s| > 0 && AllDigits(s) }

  function DigitValue(c: char): nat
    requires IsDigitChar(c)
  {
    c as int - '0' as int
  }

  function Digit(d: nat): (c: char)
    requires d < 10
    ensures IsDigitChar(c) && DigitValue(c) == d
  {
    ('0' as int + d) as char
  }

  /** `int(s)` for a string of decimal digits; leading zeros are allowed. */
  function DigitsValue(s: string): nat
    requires AllDigits(s)
  {
    if s == [] then 0 else 10 * DigitsValue(s[..|s| - 1]) + DigitValue(s[|s| - 1])
  }

  function Pow10(k: nat): (p: nat)
    ensures p >= 1
  {
    if k == 0 then 1 else 10 * Pow10(k - 1)
  }

  /** `str(n)`: the decimal digits of `n`, without leading zeros. */
  function Decimal(n: nat): (s: string)
    ensures IsDigits(s)
  {
    if n < 10 then [Digit(n)] else Decimal(n / 10) + [Digit(n % 10)]
  }

  function Zeros(k: nat): string
  {
    seq(k, _ => '0')
  }

  /** `'{:0<width>}'.format(n)`: the decimal digits of `n`, left-padded with '0' to at least `width` characters. */
  function Pad(n: nat, width: nat): (s: string)
    ensures IsDigits(s) && |s| >= width
  {
    var d := Decimal(n);
    if |d| < width then Zeros(width - |d|) + d else d
  }

  lemma {:induction false} DecimalValue(n: nat)
    ensures DigitsValue(Decimal(n)) == n
  {
    if n >= 10 {
      DecimalValue(n / 10);
      var s := Decimal(n / 10) + [Digit(n % 10)];
      assert s[..|s| - 1] == Decimal(n / 10);
    }
  }

  lemma {:induction false} LeadingZerosValue(k: nat, s: string)
    requires AllDigits(s)
    ensures AllDigits(Zeros(k) + s) && DigitsValue(Zeros(k) + s) == DigitsValue(s)
    decreases |s|, k
  {
    var z := Zeros(k) + s;
    if s == [] {
      assert z == Zeros(k);
      if k > 0 {
        assert z[..|z| - 1] == Zeros(k - 1) + [];
        LeadingZerosValue(k - 1, []);
      }
    } else {
      var t := s[..|s| - 1];
      assert z[..|z| - 1] == Zeros(k) + t;
      LeadingZerosValue(k, t);
    }
  }

  /** A label written by the normaliser parses back (`isdigit`, then `int`) to the rank it was made from. */
  lemma PadRoundTrip(n: nat, width: nat)
    ensures IsDigits(Pad(n, width)) && DigitsValue(Pad(n, width)) == n
  {
    DecimalValue(n);
    var d := Decimal(n);
    if |d| < width {
      LeadingZerosValue(width - |d|, d);
    }
  }

  lemma {:induction false} DecimalLength(n: nat, k: nat)
    requires k >= 1
    ensures |Decimal(n)| <= k <==> n < Pow10(k)
  {
    if n >= 10 {
      if k == 1 {
        assert |Decimal(n)| >= 2 by { assert |Decimal(n)| == |Decimal(n / 10)| + 1; }
      } else {
        DecimalLength(n / 10, k - 1);
        assert n / 10 < Pow10(k - 1) <==> n < Pow10(k);
      }
    }
  }

  /** A rank below 10^width renders to exactly `width` characters; a larger one renders longer. */
  lemma PadLength(n: nat, width: nat)
    requires width >= 1
    ensures n < Pow10(width) ==> |Pad(n, width)| == width
    ensures n >= Pow10(width) ==> |Pad(n, width)| > width
  {
    DecimalLength(n, width);
  }

  lemma {:induction false} DigitsValueFront(c: char, s: string)
    requires IsDigitChar(c) && AllDigits(s)
    ensures AllDigits([c] + s)
    ensures DigitsValue([c] + s) == DigitValue(c) * Pow10(|s|) + DigitsValue(s)
    decreases |s|
  {
    if s != [] {
      var t := s[..|s| - 1];
      var cs := [c] + s;
      assert cs[..|cs| - 1] == [c] + t;
      DigitsValueFront(c, t);
      var x, p, v, d := DigitValue(c), Pow10(|t|), DigitsValue(t), DigitValue(s[|s| - 1]);
      assert DigitsValue(cs) == 10 * (x * p + v) + d;
      assert DigitsValue(s) == 10 * v + d;
      assert Pow10(|s|) == 10 * p;
      Regroup(x, p, v, d);
    }
  }

  lemma Regroup(x: int, p: int, v: int, d: int)
    ensures 10 * (x * p + v) + d == x * (10 * p) + (10 * v + d)
  {
  }

  lemma {:induction false} DigitsValueBound(s: string)
    requires AllDigits(s)
    ensures DigitsValue(s) < Pow10(|s|)
  {
    if s != [] {
      DigitsValueBound(s[..|s| - 1]);
    }
  }

  /** On digit strings of one length, Python's string order is numeric order. */
  lemma {:induction false} LexIsNumeric(a: string, b: string)
    requires |a| == |b| && AllDigits(a) && AllDigits(b)
    ensures LexLess(a, b) <==> DigitsValue(a) < DigitsValue(b)
  {
    if a != [] {
      var a', b' := a[1..], b[1..];
      assert a == [a[0]] + a' && b == [b[0]] + b';
      DigitsValueFront(a[0], a');
      DigitsValueFront(b[0], b');
      DigitsValueBound(a');
      DigitsValueBound(b');
      var x, y := DigitValue(a[0]), DigitValue(b[0]);
      if x == y {
        LexIsNumeric(a', b');
      } else if x < y {
        LeadingDigitDecides(x, y, Pow10(|a'|), DigitsValue(a'), DigitsValue(b'));
      } else {
        LeadingDigitDecides(y, x, Pow10(|a'|), DigitsValue(b'), DigitsValue(a'));
      }
    }
  }

  lemma LeadingDigitDecides(x: nat, y: nat, p: nat, u: nat, v: nat)
    requires x < y && u < p && v < p
    ensures x * p + u < y * p + v
  {
    var d := y - x;
    MulAtLeast(d, p);
    assert y * p == x * p + d * p by { assert y == x + d; }
  }

  lemma {:induction false} MulAtLeast(d: nat, p: nat)
    requires d >= 1
    ensures d * p >= p
  {
    if d > 1 {
      MulAtLeast(d - 1, p);
      assert d * p == (d - 1) * p + p;
    }
  }

  /**
   * Labels of one width sort as strings in the order of the ranks they
   * render, as long as every rank fits in that width.
   */
  lemma PadOrder(n: nat, m: nat, width: nat)
    requires width >= 1 && n < Pow10(width) && m < Pow10(width)
    ensures LexLess(Pad(n, width), Pad(m, width)) <==> n < m
  {
    PadLength(n, width);
    PadLength(m, width);
    PadRoundTrip(n, width);
    PadRoundTrip(m, width);
    LexIsNumeric(Pad(n, width), Pad(m, width));
  }

  /** Two digit strings of one length that read as the same number are the same string. */
  lemma SameValueSameDigits(a: string, b: string)
    requires |a| == |b| && AllDigits(a) && AllDigits(b)
    requires DigitsValue(a) == DigitsValue(b)
    ensures a == b
  {
    if a != b {
      LexTotal(a, b);
      LexIsNumeric(a, b);
      LexIsNumeric(b, a);
      assert false;
    }
  }

  /**
   * Reading a label inverts writing it: a digit string is the zero-padded
   * label, at its own length, of the number it reads as.
   */
  lemma ParsePadRoundTrip(s: string)
    requires IsDigits(s)
    ensures Pad(DigitsValue(s), |s|) == s
  {
    var n := DigitsValue(s);
    DigitsValueBound(s);
    PadLength(n, |s|);
    PadRoundTrip(n, |s|);
    SameValueSameDigits(Pad(n, |s|), s);
  }

  /**
   * The rank an `Alex Top` select carries: the option's name read with `int`
   * when it is a digit string, and none when the select is missing, null or
   * holds any other name.  A rank read is the one whose label at the name's
   * length is that name.
   */
  function RankLabel(s: Select): (r: Option<nat>)
    ensures r.Some? <==> s.Choice? && IsDigits(s.name)
    ensures r.Some? ==> r.value == DigitsValue(s.name) && Pad(r.value, |s.name|) == s.name
  {
    if s.Choice? && IsDigits(s.name) then
      ParsePadRoundTrip(s.name);
      Some(DigitsValue(s.name))
    else None
  }
}
