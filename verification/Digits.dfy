/** Numerals without sign or prefix, in base 10 or 16; hexadecimal ones in lower case. */
module Digits {
  type Base = b: int | b == 10 || b == 16 witness 10

  predicate IsDigit(c: char, base: Base) {
    '0' <= c <= '9' || (base == 16 && 'a' <= c <= 'f')
  }

  predicate AllDigits(s: string, base: Base) {
    forall k | 0 <= k < |s| :: IsDigit(s[k], base)
  }

  function DigitValue(c: char): nat {
    if '0' <= c <= '9' then c as int - '0' as int
    else if 'a' <= c <= 'f' then c as int - 'a' as int + 10
    else 0
  }

  function ValueOf(s: string, base: Base): nat {
    if s == "" then 0 else ValueOf(s[..|s| - 1], base) * base + DigitValue(s[|s| - 1])
  }

  function DigitChar(d: nat): char
    requires d < 16
  {
    if d < 10 then ('0' as int + d) as char else ('a' as int + (d - 10)) as char
  }

  function Numeral(n: nat, base: Base): string {
    if n < base then [DigitChar(n)] else Numeral(n / base, base) + [DigitChar(n % base)]
  }

  lemma {:induction false} NumeralReads(n: nat, base: Base)
    ensures Numeral(n, base) != "" && AllDigits(Numeral(n, base), base) && ValueOf(Numeral(n, base), base) == n
  {
    if n >= base {
      NumeralReads(n / base, base);
      assert Numeral(n, base)[..|Numeral(n, base)| - 1] == Numeral(n / base, base);
      assert base == 10 || base == 16;
    } else {
      assert ValueOf([DigitChar(n)][..0], base) == 0;
      assert [DigitChar(n)][..0] == "";
    }
  }

  function Power(base: Base, n: nat): nat {
    if n == 0 then 1 else Power(base, n - 1) * base
  }

  lemma ValueOfDigit(c: char, base: Base)
    requires IsDigit(c, base)
    ensures ValueOf([c], base) == if c <= '9' then c as int - 48 else c as int - 87
  {
    assert [c][..0] == "";
  }

  /** Digits weigh by their place: with that of a single digit this is the value of every numeral. */
  lemma {:induction false} ValueOfBoth(x: string, y: string, base: Base)
    ensures ValueOf(x + y, base) == ValueOf(x, base) * Power(base, |y|) + ValueOf(y, base)
    decreases |y|
  {
    if y == "" {
      assert x + y == x;
    } else {
      var front, last := y[..|y| - 1], y[|y| - 1];
      ValueOfBoth(x, front, base);
      assert (x + y)[..|x + y| - 1] == x + front && (x + y)[|x + y| - 1] == last;
      Weighed(ValueOf(x, base), Power(base, |front|), ValueOf(front, base), base, DigitValue(last));
    }
  }

  lemma Weighed(x: nat, power: nat, front: nat, base: int, digit: nat)
    ensures (x * power + front) * base + digit == x * (power * base) + (front * base + digit)
  {
  }

  lemma {:induction false} NumeralFits(n: nat, base: Base, width: nat)
    requires n < Power(base, width) && width > 0
    ensures |Numeral(n, base)| <= width
    decreases width
  {
    if n >= base {
      assert base == 10 || base == 16;
      assert Power(base, 1) == Power(base, 0) * base == base;
      NumeralFits(n / base, base, width - 1);
    }
  }

  lemma {:induction false} ValueFits(s: string, base: Base)
    requires AllDigits(s, base)
    ensures ValueOf(s, base) < Power(base, |s|)
  {
    if s != "" {
      ValueFits(s[..|s| - 1], base);
      assert base == 10 || base == 16;
    }
  }
}
