/**
 * Which amounts print alike. Printing keeps apart any two amounts one of which round trips; two that
 * do not are told apart too, unless the fraction of one is ten times the other's and one digit longer.
 */
module AmountCollisions {
  import opened Wrappers
  import opened Arithmetic
  import opened Numerals
  import opened Amounts

  // ---- the printed fraction of a negative amount ----

  function Minus(digits: string): string {
    "-" + digits
  }

  function Padded(digits: string, decimals: nat): string {
    PadStart(Minus(digits), decimals)
  }

  /** The fraction printed for a negative remainder with these digits. */
  function Signed(digits: string, decimals: nat): string {
    WithoutTrailingZeros(Padded(digits, decimals))
  }

  lemma {:induction false} OnlyZerosTrimmed(s: string)
    ensures var t := WithoutTrailingZeros(s);
            |t| <= |s| && s == t + Zeros(|s| - |t|)
  {
    if s != "" && s[|s| - 1] == '0' {
      var front := s[..|s| - 1];
      OnlyZerosTrimmed(front);
      var t := WithoutTrailingZeros(front);
      assert Zeros(|s| - |t|) == Zeros(|front| - |t|) + "0";
      assert s == front + "0";
    } else {
      assert s == s + Zeros(0);
    }
  }

  lemma {:induction false} LeadingDigit(s: string)
    requires AllDecimal(s) && s != "" && s[0] != '0'
    ensures Denoted(s, 10) >= Pow(10, |s| - 1)
  {
    if |s| > 1 {
      LeadingDigit(s[..|s| - 1]);
      assert Pow(10, |s| - 1) == 10 * Pow(10, |s| - 2);
    } else {
      assert Denoted(s[..0], 10) == 0;
    }
  }

  lemma NumeralLength(n: nat, length: nat)
    requires n > 0 && length >= 1
    ensures |Numeral(n, 10)| == length <==> Pow(10, length - 1) <= n < Pow(10, length)
  {
    var s := Numeral(n, 10);
    LeadingDigit(s);
    DenotedBound(s, 10);
    hide Numeral, Denoted, Pow;
    if |s| > length {
      PowMonotone(10, length, |s| - 1);
    }
    if |s| < length {
      PowMonotone(10, |s|, length - 1);
    }
  }

  /** A numeral and a zero is the numeral of ten times the number. */
  lemma TenTimes(n: nat, s: nat)
    requires n > 0
    ensures Numeral(s, 10) == Numeral(n, 10) + "0" <==> s == 10 * n
  {
    assert Numeral(10 * n, 10) == Numeral(n, 10) + [Digit(0)];
    hide Numeral;
    if Numeral(s, 10) == Numeral(n, 10) + "0" {
      NumeralInjective(s, 10 * n, 10);
    }
  }

  /** `s` is `r` with a zero appended, and just fills the decimals. */
  predicate Shifted(r: nat, s: nat, decimals: nat) {
    decimals >= 2 && Pow(10, decimals - 2) <= r < Pow(10, decimals - 1) && s == 10 * r
  }

  /** Digits that just fill the decimals print as they do with a zero appended. */
  lemma FullPrintsAlike(m: string, decimals: nat)
    requires |m| + 1 == decimals
    ensures Signed(m, decimals) == Signed(m + "0", decimals)
  {
    var minus := Minus(m);
    assert Minus(m + "0") == minus + "0";
    assert (minus + "0")[..|minus + "0"| - 1] == minus;
  }

  lemma ShiftedPrintAlike(r: nat, s: nat, decimals: nat)
    requires r > 0 && Shifted(r, s, decimals)
    ensures Signed(Numeral(r, 10), decimals) == Signed(Numeral(s, 10), decimals)
  {
    NumeralLength(r, decimals - 1);
    TenTimes(r, s);
    hide Numeral, Signed;
    FullPrintsAlike(Numeral(r, 10), decimals);
  }

  /** Where the sign stands. */
  function SignPlace(digits: string, decimals: nat): int {
    |Padded(digits, decimals)| - |digits| - 1
  }

  lemma PaddedShape(m: string, decimals: nat)
    requires m != "" && m[0] != '0'
    ensures var p, i := Padded(m, decimals), SignPlace(m, decimals);
            && i >= 0 && p == Zeros(i) + Minus(m) && |p| == (if |m| + 1 >= decimals then |m| + 1 else decimals)
            && p[i] == '-' && p[i + 1] != '0'
  {
  }

  lemma SignAt(m: string, decimals: nat)
    requires m != "" && m[0] != '0'
    ensures var f, i := Signed(m, decimals), SignPlace(m, decimals);
            0 <= i < |f| && f[i] == '-' && forall k :: 0 <= k < i ==> f[k] == '0'
  {
    PaddedShape(m, decimals);
    hide Padded, Minus, WithoutTrailingZeros;
    var p, i := Padded(m, decimals), SignPlace(m, decimals);
    MinusSurvives(p, i);
    var f := Signed(m, decimals);
    forall k | 0 <= k <= i ensures f[k] == p[k] {
      assert f[..i + 2][k] == p[..i + 2][k];
    }
  }

  /** Equal printed fractions have their signs in one place. */
  lemma SameSignPlace(m: string, n: string, decimals: nat)
    requires m != "" && m[0] != '0' && n != "" && n[0] != '0' && Signed(m, decimals) == Signed(n, decimals)
    ensures SignPlace(m, decimals) == SignPlace(n, decimals)
  {
    SignAt(m, decimals);
    SignAt(n, decimals);
    hide Signed, SignPlace;
  }

  lemma LongerByZeros(f: string, p: string, q: string)
    requires |f| <= |p| <= |q| && p == f + Zeros(|p| - |f|) && q == f + Zeros(|q| - |f|)
    ensures q == p + Zeros(|q| - |p|)
  {
  }

  /** Digits printed alike are the same, or those that fill the decimals are the others with a zero appended. */
  lemma AlikeDigits(m: string, n: string, decimals: nat)
    requires m != "" && m[0] != '0' && n != "" && n[0] != '0' && |m| <= |n| <= decimals
    requires Signed(m, decimals) == Signed(n, decimals)
    ensures m == n || (|m| + 1 == decimals && n == m + "0")
  {
    SameSignPlace(m, n, decimals);
    PaddedShape(m, decimals);
    PaddedShape(n, decimals);
    hide WithoutTrailingZeros;
    var p, q := Padded(m, decimals), Padded(n, decimals);
    OnlyZerosTrimmed(p);
    OnlyZerosTrimmed(q);
    hide Padded;
    LongerByZeros(Signed(m, decimals), p, q);
    AlikeTails(m, n, decimals, p, q, SignPlace(m, decimals));
  }

  lemma AlikeTails(m: string, n: string, decimals: nat, p: string, q: string, i: nat)
    requires 1 <= |m| <= |n| <= decimals && p == Zeros(i) + Minus(m) && q == Zeros(i) + Minus(n)
    requires |p| == (if |m| + 1 >= decimals then |m| + 1 else decimals)
    requires |q| == (if |n| + 1 >= decimals then |n| + 1 else decimals)
    requires |p| <= |q| && q == p + Zeros(|q| - |p|)
    ensures m == n || (|m| + 1 == decimals && n == m + "0")
  {
    assert p[i + 1..] == m && q[i + 1..] == n;
    if |p| == |q| {
      assert q == p;
    } else {
      assert |q| == |p| + 1 && Zeros(1) == "0";
      assert q[i + 1..] == p[i + 1..] + "0";
    }
  }

  /** Remainders printed alike are equal, or one is the other with a zero appended. */
  lemma AlikeMeansShifted(r: nat, s: nat, decimals: nat)
    requires 0 < r < Pow(10, decimals) && 0 < s < Pow(10, decimals) && decimals >= 1
    requires Signed(Numeral(r, 10), decimals) == Signed(Numeral(s, 10), decimals)
             && |Numeral(r, 10)| <= |Numeral(s, 10)|
    ensures r == s || Shifted(r, s, decimals)
  {
    NumeralFits(r, decimals);
    NumeralFits(s, decimals);
    hide Numeral, Pow, Signed;
    AlikeDigits(Numeral(r, 10), Numeral(s, 10), decimals);
    if Numeral(r, 10) == Numeral(s, 10) {
      NumeralInjective(r, s, 10);
    } else {
      NumeralLength(r, decimals - 1);
      TenTimes(r, s);
    }
  }

  // ---- whole amounts ----

  /** The same whole part, and the fraction of one shifted to the other's. */
  predicate SameButShifted(m: nat, n: nat, decimals: nat) {
    var p := Pow(10, decimals);
    m / p == n / p && m % p > 0 && Shifted(m % p, n % p, decimals)
  }

  predicate PrintAlike(u: int, v: int, decimals: nat) {
    u < 0 && v < 0 && SameButShifted(-u, -v, decimals)
  }

  /** How a negative amount that is not whole prints. */
  function NegativeText(q: nat, r: nat, decimals: nat): string {
    Printed(0 - q) + "." + Signed(Numeral(r, 10), decimals)
  }

  lemma NegativePrints(n: nat, decimals: nat)
    requires decimals >= 1 && n % Pow(10, decimals) > 0
    ensures n / Pow(10, decimals) >= 0
    ensures FormatAmount(0 - n, Some(decimals)) == NegativeText(n / Pow(10, decimals), n % Pow(10, decimals), decimals)
  {
    var p := Pow(10, decimals);
    hide Pow, PadStart, WithoutTrailingZeros, Numeral, MinusIn, Quotient, Remainder;
    RemainderFits(n, p);
    QuotientNonNegative(n, p);
    TruncatesNegative(n, p);
    NegativeFraction(n % p, decimals);
    FractionShown(0 - n, decimals);
  }

  lemma TextsAgree(q: nat, r: nat, q': nat, r': nat, decimals: nat)
    requires NegativeText(q, r, decimals) == NegativeText(q', r', decimals)
    ensures q == q' && Signed(Numeral(r, 10), decimals) == Signed(Numeral(r', 10), decimals)
  {
    hide Printed, Signed, Numeral;
    WholePartsAgree(q, q', Signed(Numeral(r, 10), decimals), Signed(Numeral(r', 10), decimals));
  }

  lemma WholePartsAgree(q: nat, q': nat, f: string, f': string)
    requires Printed(0 - q) + "." + f == Printed(0 - q') + "." + f'
    ensures q == q' && f == f'
  {
    PrintedHasNoDot(q);
    PrintedHasNoDot(q');
    DigitsHaveNoDot(Printed(0 - q), f);
    DigitsHaveNoDot(Printed(0 - q'), f');
    PrintedInjective(q, q');
  }

  lemma PrintedHasNoDot(q: nat)
    ensures '.' !in Printed(0 - q)
  {
    PrintedWhole(q);
  }

  lemma PrintedInjective(q: nat, q': nat)
    ensures Printed(0 - q) == Printed(0 - q') <==> q == q'
  {
    PrintedMinus(q);
    PrintedMinus(q');
    if Printed(0 - q) == Printed(0 - q') && q > 0 && q' > 0 {
      assert ("-" + Numeral(q, 10))[1..] == Numeral(q, 10) && ("-" + Numeral(q', 10))[1..] == Numeral(q', 10);
      NumeralInjective(q, q', 10);
    }
  }

  lemma PrintedMinus(q: nat)
    ensures Printed(0 - q) == if q == 0 then "0" else "-" + Numeral(q, 10)
  {
    if q == 0 {
      assert Numeral(0, 10) == [Digit(0)] == "0";
    }
  }

  lemma SameParts(m: nat, n: nat, p: nat)
    requires p > 0 && m / p == n / p && m % p == n % p
    ensures m == n
  {
    Recompose(m, p);
    Recompose(n, p);
  }

  lemma AlikeParts(q: nat, r: nat, q': nat, r': nat, decimals: nat)
    requires 0 < r < Pow(10, decimals) && 0 < r' < Pow(10, decimals) && decimals >= 1
    requires NegativeText(q, r, decimals) == NegativeText(q', r', decimals)
    ensures q == q' && (r == r' || Shifted(r, r', decimals) || Shifted(r', r, decimals))
  {
    TextsAgree(q, r, q', r', decimals);
    hide NegativeText, Signed, Numeral, Pow, Shifted;
    if |Numeral(r, 10)| <= |Numeral(r', 10)| {
      AlikeMeansShifted(r, r', decimals);
    } else {
      AlikeMeansShifted(r', r, decimals);
    }
  }

  lemma NegativesAlike(m: nat, n: nat, decimals: nat)
    requires decimals >= 1 && m % Pow(10, decimals) > 0 && n % Pow(10, decimals) > 0
    requires FormatAmount(0 - m, Some(decimals)) == FormatAmount(0 - n, Some(decimals))
    ensures m == n || SameButShifted(m, n, decimals) || SameButShifted(n, m, decimals)
  {
    NegativePrints(m, decimals);
    NegativePrints(n, decimals);
    var p := Pow(10, decimals);
    hide Pow, FormatAmount, NegativeText, Shifted;
    RemainderFits(m, p);
    RemainderFits(n, p);
    AlikeParts(m / p, m % p, n / p, n % p, decimals);
    if m % p == n % p {
      SameParts(m, n, p);
    }
  }

  lemma AlikePrint(m: nat, n: nat, decimals: nat)
    requires SameButShifted(m, n, decimals)
    ensures FormatAmount(0 - m, Some(decimals)) == FormatAmount(0 - n, Some(decimals))
  {
    var p := Pow(10, decimals);
    assert n % p == 10 * (m % p) && decimals >= 2;
    ShiftedPrintAlike(m % p, n % p, decimals);
    hide Pow, FormatAmount, Signed, Printed, Numeral, Shifted;
    NegativePrints(m, decimals);
    NegativePrints(n, decimals);
  }

  /** Two amounts print alike exactly when they are equal or so related. */
  lemma PrintsAlikeExactly(u: int, v: int, decimals: nat)
    ensures FormatAmount(u, Some(decimals)) == FormatAmount(v, Some(decimals))
            <==> u == v || PrintAlike(u, v, decimals) || PrintAlike(v, u, decimals)
  {
    hide FormatAmount, SameButShifted, Pow;
    if FormatAmount(u, Some(decimals)) == FormatAmount(v, Some(decimals)) {
      if RoundTrips(u, decimals) || RoundTrips(v, decimals) {
        FormatInjective(u, v, decimals);
      } else {
        RemainderFits(-u, Pow(10, decimals));
        RemainderFits(-v, Pow(10, decimals));
        NegativesAlike(-u, -v, decimals);
      }
    }
    if PrintAlike(u, v, decimals) {
      AlikePrint(-u, -v, decimals);
    }
    if PrintAlike(v, u, decimals) {
      AlikePrint(-v, -u, decimals);
    }
  }

  /** Amounts that are not negative all print differently; these two negative ones do not. */
  lemma NegativesCollide()
    ensures FormatAmount(-105, Some(2)) == FormatAmount(-150, Some(2))
  {
    assert Pow(10, 0) == 1 && Pow(10, 1) == 10 * Pow(10, 0) && Pow(10, 2) == 10 * Pow(10, 1);
    assert PrintAlike(-105, -150, 2);
    PrintsAlikeExactly(-105, -150, 2);
  }
}
