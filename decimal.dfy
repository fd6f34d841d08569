/**
 * Decimal rendering of non-negative integers, as JavaScript's Number-to-String
 * conversion and Number.prototype.toFixed(2) produce it (section 21.1.3.3 of
 * ECMA-262), together with the parsers that read those renderings back.
 */
module Decimal {
  import opened Wrappers

  predicate IsDigit(c: char) { '0' <= c <= '9' }

  predicate AllDigits(s: string) { forall i :: 0 <= i < |s| ==> IsDigit(s[i]) }

  function DigitChar(d: nat): (c: char)
    requires d < 10
    ensures IsDigit(c)
  {
    (48 + d) as char
  }

  function DigitValue(c: char): (d: nat)
    requires IsDigit(c)
    ensures d < 10 && DigitChar(d) == c
  {
    c as int - 48
  }

  function Pow10(k: nat): (p: nat)
    ensures p >= 1
  {
    if k == 0 then 1 else 10 * Pow10(k - 1)
  }

  /** The shortest decimal numeral of `n`: digits only, no leading zero. */
  function NatToDecimal(n: nat): (s: string)
    ensures 1 <= |s| && AllDigits(s)
    ensures |s| > 1 ==> s[0] != '0'
    ensures n < Pow10(|s|)
  {
    if n < 10 then [DigitChar(n)] else NatToDecimal(n / 10) + [DigitChar(n % 10)]
  }

  /** The value of a string of decimal digits (the empty string reads as 0). */
  function ParseDecimal(s: string): nat
    requires AllDigits(s)
  {
    if s == [] then 0 else 10 * ParseDecimal(s[..|s| - 1]) + DigitValue(s[|s| - 1])
  }

  lemma {:induction false} ParseNatToDecimal(n: nat)
    ensures ParseDecimal(NatToDecimal(n)) == n
  {
    if n >= 10 {
      var s := NatToDecimal(n);
      assert s[..|s| - 1] == NatToDecimal(n / 10);
      ParseNatToDecimal(n / 10);
    }
  }

  /** Two numerals denote the same number only if they are the same numeral. */
  lemma NatToDecimalInjective(m: nat, n: nat)
    requires NatToDecimal(m) == NatToDecimal(n)
    ensures m == n
  {
    ParseNatToDecimal(m);
    ParseNatToDecimal(n);
  }

  /** Reading a concatenation: the digits of `a` are shifted left by |b| places. */
  lemma {:induction false} ParseAppend(a: string, b: string)
    requires AllDigits(a) && AllDigits(b)
    ensures AllDigits(a + b)
    ensures ParseDecimal(a + b) == ParseDecimal(a) * Pow10(|b|) + ParseDecimal(b)
  {
    assert AllDigits(a + b);
    if b == [] {
      assert a + b == a;
    } else {
      var b' := b[..|b| - 1];
      assert (a + b)[..|a + b| - 1] == a + b';
      ParseAppend(a, b');
      var pa, pb, p, d := ParseDecimal(a), ParseDecimal(b'), Pow10(|b'|), DigitValue(b[|b| - 1]);
      assert ParseDecimal(a + b) == 10 * (pa * p + pb) + d;
      assert ParseDecimal(b) == 10 * pb + d;
      assert Pow10(|b|) == 10 * p;
      ShiftDigit(pa, pb, p, d);
    }
  }

  lemma ShiftDigit(pa: nat, pb: nat, p: nat, d: nat)
    ensures 10 * (pa * p + pb) + d == pa * (10 * p) + (10 * pb + d)
  {
    assert 10 * (pa * p) == pa * (10 * p);
  }

  function Zeros(k: nat): (z: string)
    ensures |z| == k && AllDigits(z)
  {
    seq(k, _ => '0')
  }

  lemma {:induction false} ParseZeros(k: nat)
    ensures ParseDecimal(Zeros(k)) == 0
  {
    if k > 0 {
      assert Zeros(k)[..k - 1] == Zeros(k - 1);
      ParseZeros(k - 1);
    }
  }

  /**
   * n / 100 written with exactly two decimals: the numeral of n, left-padded
   * with zeros to at least three digits, with a point before its last two.
   */
  function Fixed2(n: nat): (s: string)
    ensures |s| >= 4 && s[|s| - 3] == '.'
    ensures AllDigits(s[..|s| - 3]) && AllDigits(s[|s| - 2..])
    ensures |s| > 4 ==> s[0] != '0'
  {
    var m := NatToDecimal(n);
    var padded := if |m| <= 2 then Zeros(3 - |m|) + m else m;
    padded[..|padded| - 2] + "." + padded[|padded| - 2..]
  }

  /** Reads "<digits>.<two digits>" as a count of hundredths. */
  function ParseFixed2(s: string): (r: Option<nat>)
    ensures r.Some? <==> |s| >= 4 && s[|s| - 3] == '.' && AllDigits(s[..|s| - 3]) && AllDigits(s[|s| - 2..])
  {
    if |s| >= 4 && s[|s| - 3] == '.' && AllDigits(s[..|s| - 3]) && AllDigits(s[|s| - 2..]) then
      Some(ParseDecimal(s[..|s| - 3]) * 100 + ParseDecimal(s[|s| - 2..]))
    else
      None
  }

  /** The two-decimal rendering denotes exactly n hundredths. */
  lemma Fixed2RoundTrip(n: nat)
    ensures ParseFixed2(Fixed2(n)) == Some(n)
  {
    var m := NatToDecimal(n);
    var padded := if |m| <= 2 then Zeros(3 - |m|) + m else m;
    ParseNatToDecimal(n);
    if |m| <= 2 {
      ParseAppend(Zeros(3 - |m|), m);
      ParseZeros(3 - |m|);
    }
    assert AllDigits(padded) && ParseDecimal(padded) == n;
    var k := |padded|;
    var s := Fixed2(n);
    assert s[..|s| - 3] == padded[..k - 2];
    assert s[|s| - 2..] == padded[k - 2..];
    assert padded == padded[..k - 2] + padded[k - 2..];
    ParseAppend(padded[..k - 2], padded[k - 2..]);
    assert Pow10(2) == 100;
  }
}
