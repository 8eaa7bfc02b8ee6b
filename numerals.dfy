/**
 * Rendering of integers the way Python's `str(int)` and the format
 * specifications `02d` and `04X` do, together with the readers that parse the
 * text back; the round-trip lemmas say that nothing is lost in rendering.
 */
module Numerals {
  import opened Wrappers

  /** `c` is a digit of `base` (2 to 16), upper-case letters for digits above 9. */
  predicate IsDigitOf(c: char, base: nat) {
    || ('0' <= c <= '9' && (c as int - '0' as int) < base)
    || ('A' <= c <= 'F' && (c as int - 'A' as int) + 10 < base)
  }

  predicate AllDigitsOf(s: string, base: nat) {
    forall i :: 0 <= i < |s| ==> IsDigitOf(s[i], base)
  }

  function DigitChar(d: nat): (c: char)
    requires d < 16
  {
    if d < 10 then ('0' as int + d) as char else ('A' as int + d - 10) as char
  }

  function DigitValue(c: char): nat {
    if '0' <= c <= '9' then c as int - '0' as int
    else if 'A' <= c <= 'F' then c as int - 'A' as int + 10
    else 0
  }

  lemma DigitCharOf(d: nat, base: nat)
    requires d < base <= 16
    ensures IsDigitOf(DigitChar(d), base) && DigitValue(DigitChar(d)) == d
    ensures DigitChar(d) == '0' <==> d == 0
  {
  }

  /** Multiplying by at least two at least doubles. */
  lemma {:induction false} MulAtLeastTwice(q: nat, b: nat)
    requires b >= 2
    ensures q * b >= 2 * q
    ensures q == 0 ==> q * b == 0
    decreases q
  {
    if q > 0 {
      MulAtLeastTwice(q - 1, b);
      assert q * b == (q - 1) * b + b;
    }
  }

  /** One step of digit extraction: the quotient is a smaller positive number. */
  lemma DivStep(n: nat, base: nat)
    requires 2 <= base <= n
    ensures 1 <= n / base < n && n % base < base
    ensures n == (n / base) * base + n % base
  {
    var q, r := n / base, n % base;
    assert n == q * base + r && 0 <= r < base;
    MulAtLeastTwice(q, base);
  }

  /** The digits of `n` in `base`, most significant first, without leading zeros. */
  function ToBase(n: nat, base: nat): (s: string)
    requires 2 <= base <= 16
    ensures |s| >= 1 && AllDigitsOf(s, base)
    ensures |s| > 1 ==> s[0] != '0'
    decreases n
  {
    if n < base then
      DigitCharOf(n, base);
      [DigitChar(n)]
    else
      var q, r := n / base, n % base;
      DivStep(n, base);
      DigitCharOf(r, base);
      assert q < base ==> DigitChar(q) != '0' by {
        if q < base { DigitCharOf(q, base); }
      }
      var front := ToBase(q, base);
      var s := front + [DigitChar(r)];
      assert s[0] == front[0];
      assert forall i :: 0 <= i < |s| ==> IsDigitOf(s[i], base) by {
        forall i | 0 <= i < |s| ensures IsDigitOf(s[i], base) {
          if i < |front| { assert s[i] == front[i]; }
        }
      }
      s
  }

  /** Reads the digits `s` in `base` after the already-read value `acc`, most significant first. */
  function ValueFrom(acc: nat, s: string, base: nat): nat
    requires AllDigitsOf(s, base)
    decreases |s|
  {
    if s == [] then acc else ValueFrom(acc * base + DigitValue(s[0]), s[1..], base)
  }

  /** The number that the digit string `s` denotes in `base`; empty denotes 0. */
  function ValueInBase(s: string, base: nat): nat
    requires AllDigitsOf(s, base)
  {
    ValueFrom(0, s, base)
  }

  /** Appending a digit multiplies the value by the base and adds the digit. */
  lemma {:induction false} AppendDigitFrom(acc: nat, s: string, c: char, base: nat)
    requires AllDigitsOf(s, base) && IsDigitOf(c, base)
    ensures AllDigitsOf(s + [c], base)
    ensures ValueFrom(acc, s + [c], base) == ValueFrom(acc, s, base) * base + DigitValue(c)
    decreases |s|
  {
    var t := s + [c];
    assert forall i :: 0 <= i < |t| ==> t[i] == if i < |s| then s[i] else c;
    if s == [] {
      assert t[1..] == [];
    } else {
      assert t[1..] == s[1..] + [c];
      AppendDigitFrom(acc * base + DigitValue(s[0]), s[1..], c, base);
    }
  }

  lemma AppendDigit(s: string, c: char, base: nat)
    requires AllDigitsOf(s, base) && IsDigitOf(c, base)
    ensures AllDigitsOf(s + [c], base)
    ensures ValueInBase(s + [c], base) == ValueInBase(s, base) * base + DigitValue(c)
  {
    AppendDigitFrom(0, s, c, base);
  }

  lemma {:induction false} ToBaseRoundTrip(n: nat, base: nat)
    requires 2 <= base <= 16
    ensures ValueInBase(ToBase(n, base), base) == n
    decreases n
  {
    if n >= base {
      var q, r := n / base, n % base;
      DivStep(n, base);
      DigitCharOf(r, base);
      var front := ToBase(q, base);
      ToBaseRoundTrip(q, base);
      AppendDigit(front, DigitChar(r), base);
      assert ToBase(n, base) == front + [DigitChar(r)];
      assert ValueInBase(ToBase(n, base), base) == q * base + r;
    } else {
      DigitCharOf(n, base);
      AppendDigit([], DigitChar(n), base);
      assert ToBase(n, base) == [] + [DigitChar(n)];
      assert ValueInBase(ToBase(n, base), base) == n;
    }
  }

  /** `s` left-padded with zeros to at least `width` characters. */
  function ZeroPad(s: string, width: nat): (r: string)
    ensures |r| == if |s| < width then width else |s|
    ensures r[|r| - |s|..] == s
    ensures forall i :: 0 <= i < |r| - |s| ==> r[i] == '0'
  {
    if |s| < width then ['0'] + ZeroPad(s, width - 1) else s
  }

  /** A zero in front of a digit string does not change its value. */
  lemma LeadingZero(s: string, base: nat)
    requires 2 <= base <= 16 && AllDigitsOf(s, base)
    ensures AllDigitsOf(['0'] + s, base)
    ensures ValueInBase(['0'] + s, base) == ValueInBase(s, base)
  {
    assert (['0'] + s)[1..] == s;
  }

  /** Zero padding does not change the value of a digit string. */
  lemma {:induction false} ZeroPadValue(s: string, width: nat, base: nat)
    requires 2 <= base <= 16 && AllDigitsOf(s, base)
    ensures AllDigitsOf(ZeroPad(s, width), base)
    ensures ValueInBase(ZeroPad(s, width), base) == ValueInBase(s, base)
    decreases width
  {
    if |s| < width {
      var r := ZeroPad(s, width - 1);
      ZeroPadValue(s, width - 1, base);
      LeadingZero(r, base);
      assert ZeroPad(s, width) == ['0'] + r;
    } else {
      assert ZeroPad(s, width) == s;
    }
  }

  /** `str(n)` for a natural number. */
  function NatToDecimal(n: nat): string {
    ToBase(n, 10)
  }

  /** `str(i)` for any integer: a minus sign before the digits of a negative one. */
  function IntToDecimal(i: int): (s: string)
    ensures |s| >= 1
    ensures '\n' !in s && '"' !in s && '\\' !in s
  {
    var d := NatToDecimal(if i < 0 then -i else i);
    assert forall k :: 0 <= k < |d| ==> IsDigitOf(d[k], 10);
    if i < 0 then "-" + d else d
  }

  /** Reads an optionally negative decimal integer, the inverse of `IntToDecimal`. */
  function ParseInt(s: string): Option<int> {
    if |s| >= 2 && s[0] == '-' && AllDigitsOf(s[1..], 10) then Some(0 - ValueInBase(s[1..], 10))
    else if |s| >= 1 && AllDigitsOf(s, 10) then Some(ValueInBase(s, 10))
    else None
  }

  lemma ParseIntRoundTrip(i: int)
    ensures ParseInt(IntToDecimal(i)) == Some(i)
  {
    var n: nat := if i < 0 then -i else i;
    ToBaseRoundTrip(n, 10);
    var s := IntToDecimal(i);
    if i < 0 {
      assert s[1..] == NatToDecimal(n);
    } else {
      assert s[0] != '-';
    }
  }

  /** Distinct integers render differently. */
  lemma IntToDecimalInjective(i: int, j: int)
    requires IntToDecimal(i) == IntToDecimal(j)
    ensures i == j
  {
    ParseIntRoundTrip(i);
    ParseIntRoundTrip(j);
  }

  /** `f"{n:02d}"`: the decimal digits of `n`, at least two of them. */
  function TwoDigits(n: nat): (s: string)
    ensures |s| >= 2 && AllDigitsOf(s, 10)
    ensures ValueInBase(s, 10) == n
  {
    ToBaseRoundTrip(n, 10);
    ZeroPadValue(ToBase(n, 10), 2, 10);
    ZeroPad(ToBase(n, 10), 2)
  }

  /** `f"{n:04X}"`: the upper-case hexadecimal digits of `n`, at least four of them. */
  function FourHexDigits(n: nat): (s: string)
    ensures |s| >= 4 && AllDigitsOf(s, 16)
    ensures ValueInBase(s, 16) == n
  {
    ToBaseRoundTrip(n, 16);
    ZeroPadValue(ToBase(n, 16), 4, 16);
    ZeroPad(ToBase(n, 16), 4)
  }
}
