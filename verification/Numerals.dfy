/** Printing and parsing of natural numbers in a base up to sixteen. */
module Numerals {
  import opened Wrappers
  import opened Arithmetic

  type Base = b: nat | 2 <= b <= 16 witness 10

  function DigitValue(c: char): Option<nat> {
    if '0' <= c <= '9' then Some(c as int - '0' as int)
    else if 'a' <= c <= 'f' then Some(c as int - 'a' as int + 10)
    else if 'A' <= c <= 'F' then Some(c as int - 'A' as int + 10)
    else None
  }

  /** The lower-case digit of value `d`. */
  function Digit(d: nat): (c: char)
    requires d < 16
    ensures DigitValue(c) == Some(d)
    ensures c == '0' <==> d == 0
  {
    if d < 10 then ('0' as int + d) as char else ('a' as int + d - 10) as char
  }

  /** `c` is a digit of the base. */
  predicate IsDigit(c: char, base: Base) {
    DigitValue(c).Some? && DigitValue(c).value < base
  }

  predicate AllDigits(s: string, base: Base) {
    forall i :: 0 <= i < |s| ==> IsDigit(s[i], base)
  }

  /** The number a digit string denotes; the empty string denotes zero. */
  function Denoted(s: string, base: Base): nat
    requires AllDigits(s, base)
  {
    if s == "" then 0 else Denoted(s[..|s| - 1], base) * base + DigitValue(s[|s| - 1]).value
  }

  /** The shortest lower-case numeral for `n`: `n.toString(base)`. */
  function Numeral(n: nat, base: Base): (s: string)
    ensures |s| >= 1 && AllDigits(s, base)
    ensures Denoted(s, base) == n
    ensures n > 0 ==> s[0] != '0'
    decreases n
  {
    if n < base then
      [Digit(n)]
    else
      QuotientIsSmaller(n, base);
      var front := Numeral(n / base, base);
      DenotedSnoc(front, Digit(n % base), base);
      front + [Digit(n % base)]
  }

  lemma QuotientIsSmaller(n: nat, base: Base)
    requires n >= base
    ensures 0 < n / base < n
    ensures n / base * base + n % base == n && n % base < base
  {
    var q := n / base;
    assert n == q * base + n % base;
    assert q >= n ==> q * base >= n * base >= n * 2;
    assert q <= 0 ==> q * base <= 0;
  }

  lemma DenotedSnoc(front: string, c: char, base: Base)
    requires AllDigits(front, base) && IsDigit(c, base)
    ensures AllDigits(front + [c], base)
    ensures Denoted(front + [c], base) == Denoted(front, base) * base + DigitValue(c).value
  {
    var s := front + [c];
    assert s[..|s| - 1] == front;
    assert forall i :: 0 <= i < |s| ==> IsDigit(s[i], base) by {
      assert forall i :: 0 <= i < |front| ==> s[i] == front[i];
    }
  }

  lemma NumeralInjective(m: nat, n: nat, base: Base)
    requires Numeral(m, base) == Numeral(n, base)
    ensures m == n
  {
    assert m == Denoted(Numeral(m, base), base) == Denoted(Numeral(n, base), base) == n;
  }

  lemma Shift(d: nat, p: nat, f: nat, base: nat)
    ensures (d * p + f) * base == d * (base * p) + f * base
  {
    assert (d * p + f) * base == d * p * base + f * base;
    assert d * p * base == d * (base * p);
  }

  /** Digits read left to right shift what came before them. */
  lemma {:induction false} DenotedConcat(s: string, t: string, base: Base)
    requires AllDigits(s, base) && AllDigits(t, base)
    ensures AllDigits(s + t, base)
    ensures Denoted(s + t, base) == Denoted(s, base) * Pow(base, |t|) + Denoted(t, base)
  {
    if t == "" {
      assert s + t == s;
    } else {
      var front := t[..|t| - 1];
      DenotedConcat(s, front, base);
      assert t == front + [t[|t| - 1]] && s + t == s + front + [t[|t| - 1]];
      DenotedSnoc(front, t[|t| - 1], base);
      DenotedSnoc(s + front, t[|t| - 1], base);
      Shift(Denoted(s, base), Pow(base, |front|), Denoted(front, base), base);
    }
  }

  lemma StaysBelow(d: nat, p: nat, base: nat)
    requires d < p
    ensures d * base + base <= base * p
  {
    var k: nat := p - d - 1;
    assert base * p == base * (d + 1 + k) == base * d + base + base * k;
    assert base * k >= 0;
  }

  lemma {:induction false} DenotedBound(s: string, base: Base)
    requires AllDigits(s, base)
    ensures Denoted(s, base) < Pow(base, |s|)
  {
    if s != "" {
      DenotedBound(s[..|s| - 1], base);
      StaysBelow(Denoted(s[..|s| - 1], base), Pow(base, |s| - 1), base);
    }
  }

  /** Zero digits, on either side of a numeral. */
  function Zeros(n: nat): (s: string)
    ensures |s| == n && forall i :: 0 <= i < n ==> s[i] == '0'
  {
    seq(n, _ => '0')
  }

  lemma {:induction false} DenotedZeros(n: nat, base: Base)
    ensures AllDigits(Zeros(n), base) && Denoted(Zeros(n), base) == 0
  {
    if n > 0 {
      DenotedZeros(n - 1, base);
      assert Zeros(n)[..n - 1] == Zeros(n - 1);
    }
  }

  // ---- the `0x` notation ----

  /** `num.toHex`. */
  function ToHex(n: nat): string {
    "0x" + Numeral(n, 16)
  }

  /** `num.toBigInt` of a `0x` string. */
  function ParseHex(s: string): Option<nat> {
    if |s| > 2 && s[0] == '0' && (s[1] == 'x' || s[1] == 'X') && AllDigits(s[2..], 16)
    then Some(Denoted(s[2..], 16))
    else None
  }

  lemma ParsesBack(n: nat)
    ensures ParseHex(ToHex(n)) == Some(n)
  {
    assert ToHex(n)[2..] == Numeral(n, 16);
  }
}
