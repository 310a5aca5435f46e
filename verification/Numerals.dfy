/**
 Positional numerals as text: what `${n}` and `toString(16)` print and what the
 patterns `[0-9]+` and `[0-9a-f]+` match.
 */
module Numerals {

  ghost predicate ValidBase(base: nat) {
    base == 10 || base == 16
  }

  function DigitChar(d: nat): char
    requires d < 16
  {
    if d < 10 then ('0' as int + d) as char else ('a' as int + (d - 10)) as char
  }

  /** Value of a lower-case digit, 16 for any other character. */
  function DigitValue(c: char): nat {
    if '0' <= c <= '9' then c as int - '0' as int
    else if 'a' <= c <= 'f' then c as int - 'a' as int + 10
    else 16
  }

  predicate IsDigit(c: char, base: nat) {
    DigitValue(c) < base
  }

  predicate IsNumeral(s: string, base: nat) {
    forall i :: 0 <= i < |s| ==> IsDigit(s[i], base)
  }

  function Quotient(n: nat, base: nat): (q: nat)
    requires ValidBase(base)
    ensures n >= base ==> 1 <= q < n
  {
    if base == 10 then n / 10 else n / 16
  }

  function Remainder(n: nat, base: nat): (d: nat)
    requires ValidBase(base)
    ensures d < base
  {
    if base == 10 then n % 10 else n % 16
  }

  lemma QuotientRemainder(n: nat, base: nat)
    requires ValidBase(base)
    ensures Quotient(n, base) * base + Remainder(n, base) == n
  {
    if base == 10 {
      assert n / 10 * 10 + n % 10 == n;
    } else {
      assert n / 16 * 16 + n % 16 == n;
    }
  }

  function Numeral(n: nat, base: nat): string
    requires ValidBase(base)
  {
    if n < base then [DigitChar(n)] else Numeral(Quotient(n, base), base) + [DigitChar(Remainder(n, base))]
  }

  function NumeralValue(s: string, base: nat): nat
    requires IsNumeral(s, base)
  {
    if s == "" then 0 else NumeralValue(s[..|s| - 1], base) * base + DigitValue(s[|s| - 1])
  }

  function Power(base: nat, e: nat): nat {
    if e == 0 then 1 else Power(base, e - 1) * base
  }

  lemma DigitReadsBack(d: nat)
    requires d < 16
    ensures DigitValue(DigitChar(d)) == d
  {
  }

  lemma NumeralAppend(front: string, d: nat, base: nat)
    requires ValidBase(base) && IsNumeral(front, base) && d < base
    ensures IsNumeral(front + [DigitChar(d)], base)
    ensures NumeralValue(front + [DigitChar(d)], base) == NumeralValue(front, base) * base + d
  {
    var s := front + [DigitChar(d)];
    DigitReadsBack(d);
    assert s[..|s| - 1] == front;
  }

  /** The printed numeral is non-empty, made of digits only, and reads back as the number. */
  lemma {:induction false} NumeralReadsBack(n: nat, base: nat)
    requires ValidBase(base)
    ensures |Numeral(n, base)| > 0
    ensures IsNumeral(Numeral(n, base), base)
    ensures NumeralValue(Numeral(n, base), base) == n
  {
    if n < base {
      NumeralAppend("", n, base);
      assert "" + [DigitChar(n)] == Numeral(n, base);
    } else {
      var q, d := Quotient(n, base), Remainder(n, base);
      QuotientRemainder(n, base);
      NumeralReadsBack(q, base);
      NumeralAppend(Numeral(q, base), d, base);
      assert Numeral(n, base) == Numeral(q, base) + [DigitChar(d)];
    }
  }

  lemma NumeralInjective(m: nat, n: nat, base: nat)
    requires ValidBase(base)
    requires Numeral(m, base) == Numeral(n, base)
    ensures m == n
  {
    NumeralReadsBack(m, base);
    NumeralReadsBack(n, base);
  }

  // Leading zeros and lengths

  function Zeros(k: nat): string {
    seq(k, i => '0')
  }

  /** `s.replace(/^0+/, '')` */
  function StripZeros(s: string): string {
    if s != "" && s[0] == '0' then StripZeros(s[1..]) else s
  }

  lemma {:induction false} StripPadding(k: nat, s: string)
    ensures StripZeros(Zeros(k) + s) == StripZeros(s)
  {
    if k == 0 {
      assert Zeros(0) + s == s;
    } else {
      StripPadding(k - 1, s);
      assert (Zeros(k) + s)[1..] == Zeros(k - 1) + s;
    }
  }

  lemma {:induction false} ValueOfConcat(a: string, b: string, base: nat)
    requires IsNumeral(a, base) && IsNumeral(b, base)
    ensures IsNumeral(a + b, base)
    ensures NumeralValue(a + b, base) == NumeralValue(a, base) * Power(base, |b|) + NumeralValue(b, base)
  {
    if b == "" {
      assert a + b == a;
    } else {
      var front, d := b[..|b| - 1], DigitValue(b[|b| - 1]);
      ValueOfConcat(a, front, base);
      assert (a + b)[..|a + b| - 1] == a + front;
      Horner(NumeralValue(a, base), Power(base, |front|), NumeralValue(front, base), base, d);
    }
  }

  lemma Horner(x: int, p: int, y: int, base: int, d: int)
    ensures (x * p + y) * base + d == x * (p * base) + (y * base + d)
  {
  }

  lemma DivideBelow(n: nat, base: nat, p: nat)
    requires ValidBase(base)
    ensures Quotient(n, base) < p <==> n < p * base
  {
    QuotientRemainder(n, base);
  }

  /** Stripping zeros keeps the value. */
  lemma {:induction false} StripKeepsValue(s: string, base: nat)
    requires ValidBase(base) && IsNumeral(s, base)
    ensures IsNumeral(StripZeros(s), base) && NumeralValue(StripZeros(s), base) == NumeralValue(s, base)
  {
    if s != "" && s[0] == '0' {
      StripKeepsValue(s[1..], base);
      assert NumeralValue("0", base) == 0 by {
        assert "0"[..0] == "";
      }
      assert "0" + s[1..] == s;
      ValueOfConcat("0", s[1..], base);
    }
  }

  /** A numeral fits in `k` digits exactly when the number is below the k-th power. */
  lemma {:induction false} NumeralLength(n: nat, base: nat, k: nat)
    requires ValidBase(base) && k > 0
    ensures |Numeral(n, base)| <= k <==> n < Power(base, k)
    decreases k
  {
    if k == 1 {
      assert Power(base, 1) == Power(base, 0) * base == base;
      if n >= base {
        NumeralReadsBack(Quotient(n, base), base);
      }
    } else if n < base {
      PowerGrows(base, k);
    } else {
      NumeralLength(Quotient(n, base), base, k - 1);
      DivideBelow(n, base, Power(base, k - 1));
    }
  }

  lemma {:induction false} PowerGrows(base: nat, k: nat)
    requires ValidBase(base) && k > 0
    ensures Power(base, k) >= base
  {
    if k > 1 {
      PowerGrows(base, k - 1);
    }
  }

  lemma {:induction false} PowerPositive(base: nat, e: nat)
    requires base > 0
    ensures Power(base, e) > 0
  {
    if e > 0 {
      PowerPositive(base, e - 1);
    }
  }

  lemma {:induction false} PowerAdd(base: nat, a: nat, b: nat)
    ensures Power(base, a + b) == Power(base, a) * Power(base, b)
  {
    if b > 0 {
      PowerAdd(base, a, b - 1);
      Horner(Power(base, a), Power(base, b - 1), 0, base, 0);
    }
  }
}
