/**
  The small part of JavaScript's string behaviour the editor relies on:
  integer-to-decimal conversion (`n + 'px'`, template literals),
  `String.prototype.padStart` with a one-character filler, and
  `String.prototype.startsWith`. Decimal formatting comes with a parser
  proved to invert it; zero padding is proved to keep the number's value.
 */
module Strings {
  import opened Opt
  import opened Seqs

  predicate IsDigit(c: char) {
    '0' <= c <= '9'
  }

  predicate AllDigits(s: string) {
    forall i :: 0 <= i < |s| ==> IsDigit(s[i])
  }

  function DigitChar(d: nat): (c: char)
    requires d < 10
    ensures IsDigit(c)
  {
    "0123456789"[d]
  }

  function DigitValue(c: char): (d: nat)
    requires IsDigit(c)
    ensures d < 10
  {
    c as int - '0' as int
  }

  /** Decimal digits of `n` without leading zeros, as `String(n)` renders a non-negative integer. */
  function NatToString(n: nat): (s: string)
    ensures |s| >= 1 && AllDigits(s)
    ensures |s| > 1 ==> s[0] != '0'
    decreases n
  {
    if n < 10 then [DigitChar(n)] else NatToString(n / 10) + [DigitChar(n % 10)]
  }

  /** Value of a string of decimal digits; leading zeros are allowed. */
  function ParseNat(s: string): nat
    requires AllDigits(s)
    decreases |s|
  {
    if s == [] then 0 else ParseNat(s[..|s| - 1]) * 10 + DigitValue(s[|s| - 1])
  }

  lemma {:induction false} ParseNatOfNatToString(n: nat)
    ensures ParseNat(NatToString(n)) == n
    decreases n
  {
    if n >= 10 {
      var s := NatToString(n);
      assert s[..|s| - 1] == NatToString(n / 10);
      ParseNatOfNatToString(n / 10);
    }
  }

  /** `String(i)` for an integer `i`: a minus sign for negatives, then the digits. */
  function IntToString(i: int): (s: string)
    ensures |s| >= 1
    ensures i >= 0 ==> AllDigits(s)
    ensures i < 0 ==> s[0] == '-' && |s| >= 2 && AllDigits(s[1..]) && s[1..] != "0"
  {
    if i < 0 then "-" + NatToString(-i) else NatToString(i)
  }

  /** A run of decimal digits read as a number; anything else is no number. */
  function ParseDigits(s: string): Option<nat> {
    if AllDigits(s) then Some(ParseNat(s)) else None
  }

  /** The digits of a natural number read back as that number. */
  lemma ParseDigitsOfNatToString(n: nat)
    ensures ParseDigits(NatToString(n)) == Some(n)
  {
    ParseNatOfNatToString(n);
  }

  /** Inverse of IntToString: an optional minus sign followed by at least one digit. */
  function ParseInt(s: string): Option<int> {
    if |s| >= 2 && s[0] == '-' then
      match ParseDigits(s[1..])
      case Some(n) => Some(-(n as int))
      case None => None
    else if |s| >= 1 then
      match ParseDigits(s)
      case Some(n) => Some(n as int)
      case None => None
    else None
  }

  /** A minus sign followed by digits reads back as the negated number. */
  lemma ParseIntOfMinusDigits(d: string, n: nat)
    requires |d| >= 1 && ParseDigits(d) == Some(n)
    ensures ParseInt("-" + d) == Some(-(n as int))
  {
    assert ("-" + d)[1..] == d;
  }

  /** A negative number's rendering reads back as that number. */
  lemma ParseIntOfNegative(i: int)
    requires i < 0
    ensures ParseInt(IntToString(i)) == Some(i)
  {
    var n: nat := -i;
    var d := NatToString(n);
    assert IntToString(i) == "-" + d;
    ParseDigitsOfNatToString(n);
    ParseIntOfMinusDigits(d, n);
  }

  /** A non-negative number's digits read back as that number. */
  lemma ParseIntOfNatural(i: int)
    requires i >= 0
    ensures ParseInt(IntToString(i)) == Some(i)
  {
    var d := NatToString(i);
    assert IntToString(i) == d;
    assert d[0] != '-' by { assert IsDigit(d[0]); }
    ParseDigitsOfNatToString(i);
  }

  lemma ParseIntOfIntToString(i: int)
    ensures ParseInt(IntToString(i)) == Some(i)
  {
    if i < 0 {
      ParseIntOfNegative(i);
    } else {
      ParseIntOfNatural(i);
    }
  }

  /** `s.padStart(width, fill)` for a one-character `fill`: never truncates. */
  function PadStart(s: string, width: nat, fill: char): (r: string)
    ensures |r| == if |s| >= width then |s| else width
    ensures r[|r| - |s|..] == s
    ensures forall i :: 0 <= i < |r| - |s| ==> r[i] == fill
  {
    if |s| >= width then s else Repeat(fill, width - |s|) + s
  }

  /** Zero-padded decimal, as date formatters render `YYYY`, `MM`, `ss`. */
  function ZeroPad(n: nat, width: nat): (s: string)
    ensures AllDigits(s)
    ensures |s| >= width
  {
    PadStart(NatToString(n), width, '0')
  }

  lemma {:induction false} ParseNatLeadingZeros(k: nat, s: string)
    requires AllDigits(s)
    ensures AllDigits(Repeat('0', k) + s)
    ensures ParseNat(Repeat('0', k) + s) == ParseNat(s)
    decreases |s|
  {
    var t := Repeat('0', k) + s;
    assert AllDigits(t) by {
      forall i | 0 <= i < |t| ensures IsDigit(t[i]) {
        if i >= k { assert t[i] == s[i - k]; }
      }
    }
    if s == [] {
      assert t == Repeat('0', k);
      ParseNatZeros(k);
    } else {
      var u := s[..|s| - 1];
      assert t[..|t| - 1] == Repeat('0', k) + u;
      assert t[|t| - 1] == s[|s| - 1];
      ParseNatLeadingZeros(k, u);
    }
  }

  lemma {:induction false} ParseNatZeros(k: nat)
    ensures AllDigits(Repeat('0', k))
    ensures ParseNat(Repeat('0', k)) == 0
  {
    if k > 0 {
      var z := Repeat('0', k);
      var y := z[..k - 1];
      assert y == Repeat('0', k - 1) by {
        forall i | 0 <= i < k - 1 ensures y[i] == '0' {
          assert y[i] == z[i];
        }
      }
      ParseNatZeros(k - 1);
    }
  }

  /** Zero padding never changes the value a decimal string denotes. */
  lemma ParseNatOfZeroPad(n: nat, width: nat)
    ensures ParseNat(ZeroPad(n, width)) == n
    ensures |ZeroPad(n, width)| == if |NatToString(n)| >= width then |NatToString(n)| else width
  {
    var d := NatToString(n);
    ParseNatOfNatToString(n);
    if |d| < width {
      ParseNatLeadingZeros(width - |d|, d);
    }
  }

  /** Numbers below 10^k need at most k digits. */
  lemma {:induction false} NatToStringLength(n: nat, k: nat)
    requires n < Pow10(k)
    ensures |NatToString(n)| <= if k == 0 then 1 else k
    decreases k
  {
    if n >= 10 {
      NatToStringLength(n / 10, k - 1);
    }
  }

  function Pow10(k: nat): (p: nat)
    ensures p >= 1
  {
    if k == 0 then 1 else 10 * Pow10(k - 1)
  }

  /** `s.startsWith(prefix)`. */
  predicate StartsWith(s: string, prefix: string) {
    |prefix| <= |s| && s[..|prefix|] == prefix
  }

  lemma StartsWithConcat(prefix: string, rest: string)
    ensures StartsWith(prefix + rest, prefix)
  {
    assert (prefix + rest)[..|prefix|] == prefix;
  }

  lemma StartsWithSplit(s: string, prefix: string)
    requires StartsWith(s, prefix)
    ensures s == prefix + s[|prefix|..]
  {
  }
}
