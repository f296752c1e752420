/** Decimal token amounts: printing a raw amount, and parsing it back. */
module Amounts {
  import opened Wrappers
  import opened Arithmetic
  import opened Numerals

  // ---- the string operations ----

  /** White space, as `trim` and `BigInt` see it, among ASCII characters. */
  predicate IsSpace(c: char) {
    c == ' ' || '\t' <= c <= '\r'
  }

  function TrimStart(s: string): string {
    if s != "" && IsSpace(s[0]) then TrimStart(s[1..]) else s
  }

  function TrimEnd(s: string): string {
    if s != "" && IsSpace(s[|s| - 1]) then TrimEnd(s[..|s| - 1]) else s
  }

  function Trim(s: string): string {
    TrimEnd(TrimStart(s))
  }

  /** What `split(".")` puts first, and second if there is a dot. */
  function BeforeDot(s: string): string {
    if s == "" || s[0] == '.' then "" else [s[0]] + BeforeDot(s[1..])
  }

  function AfterDot(s: string): Option<string> {
    if s == "" then None else if s[0] == '.' then Some(s[1..]) else AfterDot(s[1..])
  }

  function PadStart(s: string, n: nat): string {
    if |s| >= n then s else Zeros(n - |s|) + s
  }

  function PadEnd(s: string, n: nat): string {
    if |s| >= n then s else s + Zeros(n - |s|)
  }

  function WithoutTrailingZeros(s: string): string {
    if s != "" && s[|s| - 1] == '0' then WithoutTrailingZeros(s[..|s| - 1]) else s
  }

  // ---- bigints as strings ----

  function Abs(v: int): nat {
    if v < 0 then -v else v
  }

  /** `toString` of a bigint. */
  function Printed(v: int): string {
    (if v < 0 then "-" else "") + Numeral(Abs(v), 10)
  }

  function Digits(s: string, base: Base): Result<int> {
    if s != "" && AllDigits(s, base) then Ok(Denoted(s, base)) else Err("SyntaxError")
  }

  /** `BigInt` of a string: white space around, an optional sign before decimal digits, or a prefixed base. */
  function ToBigInt(s: string): Result<int> {
    var t := Trim(s);
    if t == "" then Ok(0)
    else if t[0] == '-' then
      var r := Digits(t[1..], 10);
      if r.Ok? then Ok(-r.value) else r
    else if t[0] == '+' then Digits(t[1..], 10)
    else if |t| > 2 && t[0] == '0' && t[1] in "xX" then Digits(t[2..], 16)
    else if |t| > 2 && t[0] == '0' && t[1] in "oO" then Digits(t[2..], 8)
    else if |t| > 2 && t[0] == '0' && t[1] in "bB" then Digits(t[2..], 2)
    else Digits(t, 10)
  }

  // ---- JavaScript's division: truncated towards zero ----

  function Quotient(v: int, d: nat): int
    requires d > 0
  {
    if v < 0 then -(-v / d) else v / d
  }

  function Remainder(v: int, d: nat): int
    requires d > 0
  {
    if v < 0 then -(-v % d) else v % d
  }

  // ---- formatAmount and toRawAmount ----

  function Fraction(v: int, decimals: nat): string {
    WithoutTrailingZeros(PadStart(Printed(Remainder(v, Pow(10, decimals))), decimals))
  }

  /** `formatAmount`; no decimals given is as good as zero. */
  function FormatAmount(v: int, decimals: Option<nat>): string {
    if decimals.None? || decimals.value == 0 then Printed(v)
    else
      var whole, fraction := Quotient(v, Pow(10, decimals.value)), Fraction(v, decimals.value);
      if fraction != "" then Printed(whole) + "." + fraction else Printed(whole)
  }

  function ToRawAmount(humanAmount: string, decimals: nat): Result<int> {
    var trimmed := Trim(humanAmount);
    var whole := BeforeDot(trimmed);
    var rest := AfterDot(trimmed);
    var fraction := if rest.None? then "" else BeforeDot(rest.value);
    if |fraction| > decimals then Err("Too many decimal places")
    else ToBigInt((if whole == "" then "0" else whole) + PadEnd(fraction, decimals))
  }

  // ---- digits ----

  predicate AllDecimal(s: string) {
    AllDigits(s, 10)
  }

  lemma DigitIsPlain(c: char)
    requires IsDigit(c, 10)
    ensures !IsSpace(c) && c !in ".+-xXoObB"
  {
  }

  lemma DigitsTrimNothing(s: string)
    requires s != "" && !IsSpace(s[0]) && !IsSpace(s[|s| - 1])
    ensures Trim(s) == s
  {
  }

  lemma {:induction false} DigitsHaveNoDot(s: string, t: string)
    requires '.' !in s
    ensures BeforeDot(s) == s && AfterDot(s) == None
    ensures BeforeDot(s + "." + t) == s && AfterDot(s + "." + t) == Some(t)
  {
    if s == "" {
      assert s + "." + t == "." + t;
    } else {
      DigitsHaveNoDot(s[1..], t);
      assert (s + "." + t)[1..] == s[1..] + "." + t;
    }
  }

  lemma DecimalParses(s: string)
    requires s != "" && AllDecimal(s)
    ensures ToBigInt(s) == Ok(Denoted(s, 10))
  {
    DigitIsPlain(s[0]);
    DigitIsPlain(s[|s| - 1]);
    DigitsTrimNothing(s);
    if |s| > 1 {
      DigitIsPlain(s[1]);
    }
  }

  lemma DecimalHasNoDot(s: string)
    requires AllDecimal(s)
    ensures '.' !in s
  {
    forall i | 0 <= i < |s| ensures s[i] != '.' {
      DigitIsPlain(s[i]);
    }
  }

  /** The digits of a whole part and a padded fraction, read as one number. */
  lemma JoinedParses(whole: string, fraction: string, decimals: nat)
    requires AllDecimal(whole) && AllDecimal(fraction) && |fraction| <= decimals && whole != ""
    ensures ToBigInt(whole + PadEnd(fraction, decimals))
            == Ok(Denoted(whole, 10) * Pow(10, decimals) + Denoted(fraction, 10) * Pow(10, decimals - |fraction|))
  {
    DenotedPadded(fraction, decimals);
    hide PadEnd, ToBigInt, Denoted, Pow;
    DenotedConcat(whole, PadEnd(fraction, decimals), 10);
    DecimalParses(whole + PadEnd(fraction, decimals));
  }

  predicate Dotted(whole: string, fraction: string, s: string) {
    s == whole + "." + fraction || (s == whole && fraction == "")
  }

  lemma SplitsAtDot(whole: string, fraction: string, s: string)
    requires AllDecimal(whole) && AllDecimal(fraction) && Dotted(whole, fraction, s)
    ensures BeforeDot(s) == whole
    ensures AfterDot(s) == Some(fraction) || (AfterDot(s) == None && fraction == "")
    ensures BeforeDot(fraction) == fraction
  {
    DecimalHasNoDot(whole);
    DecimalHasNoDot(fraction);
    DigitsHaveNoDot(whole, fraction);
    DigitsHaveNoDot(fraction, "");
  }

  /** Parsing a whole part and a fraction of digits. */
  lemma ParsesDigits(whole: string, fraction: string, decimals: nat, s: string)
    requires AllDecimal(whole) && AllDecimal(fraction) && |fraction| <= decimals && whole + fraction != ""
    requires Dotted(whole, fraction, s)
    ensures ToRawAmount(s, decimals)
            == Ok(Denoted(whole, 10) * Pow(10, decimals) + Denoted(fraction, 10) * Pow(10, decimals - |fraction|))
  {
    hide ToRawAmount, ToBigInt, Denoted, Pow, PadEnd, Dotted;
    RawIs(whole, fraction, decimals, s);
    if whole == "" {
      WholeIsZero(fraction, decimals);
    } else {
      JoinedParses(whole, fraction, decimals);
    }
  }

  lemma RawIs(whole: string, fraction: string, decimals: nat, s: string)
    requires AllDecimal(whole) && AllDecimal(fraction) && |fraction| <= decimals && whole + fraction != ""
    requires Dotted(whole, fraction, s)
    ensures ToRawAmount(s, decimals) == ToBigInt((if whole == "" then "0" else whole) + PadEnd(fraction, decimals))
  {
    DotsTrimNothing(whole, fraction, s);
    SplitsAtDot(whole, fraction, s);
    hide Trim, ToBigInt, PadEnd, AllDecimal, Dotted;
  }

  lemma WholeIsZero(fraction: string, decimals: nat)
    requires AllDecimal(fraction) && |fraction| <= decimals
    ensures ToBigInt("0" + PadEnd(fraction, decimals))
            == Ok(Denoted("", 10) * Pow(10, decimals) + Denoted(fraction, 10) * Pow(10, decimals - |fraction|))
  {
    ZeroDigit();
    NoDigits();
    hide ToBigInt, Denoted, Pow, PadEnd;
    JoinedParses("0", fraction, decimals);
  }

  lemma ZeroDigit()
    ensures AllDecimal("0") && Denoted("0", 10) == 0
  {
    DenotedZeros(1, 10);
    assert Zeros(1) == "0";
  }

  lemma NoDigits()
    ensures AllDecimal("") && Denoted("", 10) == 0
  {
  }

  lemma DotsTrimNothing(whole: string, fraction: string, dotted: string)
    requires AllDecimal(whole) && AllDecimal(fraction) && whole + fraction != ""
    requires Dotted(whole, fraction, dotted)
    ensures Trim(dotted) == dotted
  {
    if whole != "" { DigitIsPlain(whole[0]); DigitIsPlain(whole[|whole| - 1]); }
    if fraction != "" { DigitIsPlain(fraction[|fraction| - 1]); }
    DigitsTrimNothing(dotted);
  }

  lemma DenotedPadded(s: string, n: nat)
    requires AllDecimal(s) && |s| <= n
    ensures AllDecimal(PadEnd(s, n)) && |PadEnd(s, n)| == n
    ensures Denoted(PadEnd(s, n), 10) == Denoted(s, 10) * Pow(10, n - |s|)
  {
    DenotedZeros(n - |s|, 10);
    DenotedConcat(s, Zeros(n - |s|), 10);
    if |s| == n {
      assert s + Zeros(0) == s;
    }
  }

  // ---- what is printed ----

  lemma {:induction false} NumeralFits(n: nat, digits: nat)
    requires digits >= 1 && n < Pow(10, digits)
    ensures |Numeral(n, 10)| <= digits
  {
    if n >= 10 {
      QuotientBound(n, Pow(10, digits - 1));
      NumeralFits(n / 10, digits - 1);
    }
  }

  lemma QuotientBound(n: nat, p: nat)
    requires n < 10 * p
    ensures n / 10 < p
  {
  }

  /** Trimming trailing zeros only drops zeros. */
  lemma {:induction false} TrailingZeros(s: string)
    requires AllDecimal(s)
    ensures var t := WithoutTrailingZeros(s);
            |t| <= |s| && s == t + Zeros(|s| - |t|) && AllDecimal(t)
  {
    if s != "" && s[|s| - 1] == '0' {
      var front := s[..|s| - 1];
      TrailingZeros(front);
      var t := WithoutTrailingZeros(front);
      assert Zeros(|s| - |t|) == Zeros(|front| - |t|) + "0";
      assert s == front + "0";
    } else {
      assert s == s + Zeros(0);
    }
  }

  lemma PaddedDenotes(s: string, n: nat)
    requires AllDecimal(s) && |s| <= n
    ensures AllDecimal(PadStart(s, n)) && |PadStart(s, n)| == n && Denoted(PadStart(s, n), 10) == Denoted(s, 10)
  {
    DenotedZeros(n - |s|, 10);
    DenotedConcat(Zeros(n - |s|), s, 10);
    ZeroTimes(Pow(10, |s|));
    if |s| == n {
      assert Zeros(0) + s == s;
    }
  }

  lemma TrimmedDenotes(s: string)
    requires AllDecimal(s)
    ensures var t := WithoutTrailingZeros(s);
            AllDecimal(t) && |t| <= |s| && Denoted(t, 10) * Pow(10, |s| - |t|) == Denoted(s, 10)
  {
    TrailingZeros(s);
    hide Denoted, Pow;
    var t := WithoutTrailingZeros(s);
    DenotedZeros(|s| - |t|, 10);
    DenotedConcat(t, Zeros(|s| - |t|), 10);
  }

  /** The printed fraction denotes the remainder. */
  lemma FractionDenotes(v: nat, decimals: nat)
    requires decimals >= 1
    ensures var f := Fraction(v, decimals);
            && AllDecimal(f) && |f| <= decimals
            && Denoted(f, 10) * Pow(10, decimals - |f|) == v % Pow(10, decimals)
  {
    hide Pow, Remainder, Denoted, Numeral, WithoutTrailingZeros, PadStart;
    var p := Pow(10, decimals);
    Truncates(v, p);
    RemainderFits(v, p);
    var r := v % p;
    NumeralFits(r, decimals);
    PrintsNumeral(r);
    PaddedDenotes(Numeral(r, 10), decimals);
    TrimmedDenotes(PadStart(Numeral(r, 10), decimals));
  }

  lemma RemainderFits(v: nat, p: nat)
    requires p > 0
    ensures 0 <= v % p < p
  {
  }

  lemma PrintsNumeral(n: nat)
    ensures Printed(n) == Numeral(n, 10)
  {
    assert "" + Numeral(n, 10) == Numeral(n, 10);
  }

  lemma Truncates(v: nat, p: nat)
    requires p > 0
    ensures Quotient(v, p) == v / p && Remainder(v, p) == v % p
  {
  }

  lemma QuotientNonNegative(v: nat, p: nat)
    requires p > 0
    ensures v / p >= 0
  {
    Recompose(v, p);
    RemainderFits(v, p);
    if v / p <= -1 {
      TimesNegative(v / p, p);
    }
  }

  lemma TimesNegative(q: int, p: nat)
    requires q <= -1
    ensures q * p <= 0 - p
  {
    assert (q + 1) * p <= 0;
  }

  lemma ZeroTimes(p: nat)
    ensures 0 * p == 0
  {
  }

  lemma Recompose(v: nat, p: nat)
    requires p > 0
    ensures v / p * p + v % p == v
  {
  }

  lemma FormatsDotted(v: nat, decimals: nat)
    requires decimals >= 1
    ensures v / Pow(10, decimals) >= 0
    ensures Dotted(Numeral(v / Pow(10, decimals), 10), Fraction(v, decimals), FormatAmount(v, Some(decimals)))
  {
    hide Pow, Quotient, Remainder, Fraction, Numeral, Printed;
    Truncates(v, Pow(10, decimals));
    QuotientNonNegative(v, Pow(10, decimals));
    PrintsNumeral(Quotient(v, Pow(10, decimals)));
  }

  lemma RoundTripNonNegative(v: nat, decimals: nat)
    ensures ToRawAmount(FormatAmount(v, Some(decimals)), decimals) == Ok(v)
  {
    if decimals == 0 {
      var n := Numeral(v, 10);
      assert Printed(v) == n;
      NoDigits();
      ParsesDigits(n, "", 0, n);
      OneTimes(v);
    } else {
      FormatsDotted(v, decimals);
      FractionDenotes(v, decimals);
      hide Denoted, Pow, ToRawAmount, FormatAmount, Dotted, Fraction;
      var p := Pow(10, decimals);
      ParsesDigits(Numeral(v / p, 10), Fraction(v, decimals), decimals, FormatAmount(v, Some(decimals)));
      Recompose(v, p);
    }
  }

  lemma OneTimes(v: nat)
    ensures v * Pow(10, 0) + Denoted("", 10) * Pow(10, 0) == v
  {
  }

  // ---- negative amounts ----

  /** A numeral after a minus sign, with zeros appended. */
  lemma MinusParses(n: nat, zeros: nat)
    ensures ToBigInt("-" + Numeral(n, 10) + Zeros(zeros)) == Ok(-(n * Pow(10, zeros)))
  {
    DenotedZeros(zeros, 10);
    DenotedConcat(Numeral(n, 10), Zeros(zeros), 10);
    hide Numeral, Denoted, Pow, ToBigInt;
    MinusReads(Numeral(n, 10) + Zeros(zeros));
    assert "-" + Numeral(n, 10) + Zeros(zeros) == "-" + (Numeral(n, 10) + Zeros(zeros));
  }

  lemma MinusReads(digits: string)
    requires digits != "" && AllDecimal(digits)
    ensures ToBigInt("-" + digits) == Ok(0 - Denoted(digits, 10))
  {
    hide Denoted;
    var t := "-" + digits;
    assert t[1..] == digits;
    DigitIsPlain(digits[|digits| - 1]);
    DigitsTrimNothing(t);
  }

  lemma MinusHasNoDot(n: nat)
    ensures '.' !in "-" + Numeral(n, 10)
  {
    DecimalHasNoDot(Numeral(n, 10));
  }

  lemma RawOfMinus(n: nat, decimals: nat)
    ensures ToRawAmount("-" + Numeral(n, 10), decimals) == ToBigInt("-" + Numeral(n, 10) + Zeros(decimals))
  {
    var t := "-" + Numeral(n, 10);
    MinusHasNoDot(n);
    DigitsHaveNoDot(t, "");
    DigitIsPlain(t[|t| - 1]);
    DigitsTrimNothing(t);
    hide ToBigInt, Numeral, Trim;
    assert PadEnd("", decimals) == Zeros(decimals);
  }

  lemma PrintsMinus(n: nat)
    requires n > 0
    ensures FormatAmount(0 - n, Some(0)) == "-" + Numeral(n, 10)
  {
  }

  lemma RoundTripUnits(n: nat)
    requires n > 0
    ensures ToRawAmount(FormatAmount(0 - n, Some(0)), 0) == Ok(0 - n)
  {
    PrintsMinus(n);
    hide FormatAmount, ToRawAmount, ToBigInt, Numeral, Pow;
    RawOfMinus(n, 0);
    MinusParses(n, 0);
    UnitPower(n);
  }

  lemma RoundTripWhole(n: nat, decimals: nat)
    requires n > 0 && decimals >= 1 && n % Pow(10, decimals) == 0
    ensures ToRawAmount(FormatAmount(0 - n, Some(decimals)), decimals) == Ok(0 - n)
  {
    hide ToRawAmount, FormatAmount, Numeral, Pow;
    WholeFormat(n, decimals);
    var p := Pow(10, decimals);
    Exactly(n, p);
    QuotientNonNegative(n, p);
    WholeParses(n / p, decimals);
  }

  lemma WholeParses(q: nat, decimals: nat)
    ensures ToRawAmount("-" + Numeral(q, 10), decimals) == Ok(0 - q * Pow(10, decimals))
  {
    RawOfMinus(q, decimals);
    MinusParses(q, decimals);
  }

  lemma Exactly(n: nat, p: nat)
    requires p > 0 && n % p == 0
    ensures n / p * p == n
  {
    Recompose(n, p);
  }

  lemma UnitPower(n: nat)
    ensures n * Pow(10, 0) == n
  {
  }

  lemma {:induction false} ZerosTrimAway(n: nat)
    ensures WithoutTrailingZeros(Zeros(n)) == ""
  {
    if n > 0 {
      assert Zeros(n)[..n - 1] == Zeros(n - 1);
      ZerosTrimAway(n - 1);
    }
  }

  lemma ZeroPrints()
    ensures Printed(0) == Zeros(1)
  {
    assert Numeral(0, 10) == [Digit(0)] == Zeros(1);
    assert "" + Numeral(0, 10) == Numeral(0, 10);
  }

  lemma PrintedZero(decimals: nat)
    requires decimals >= 1
    ensures PadStart(Printed(0), decimals) == Zeros(decimals)
  {
    ZeroPrints();
    hide Numeral, Printed;
    assert Zeros(decimals - 1) + Zeros(1) == Zeros(decimals);
  }

  lemma WholeFormat(n: nat, decimals: nat)
    requires n > 0 && decimals >= 1 && n % Pow(10, decimals) == 0
    ensures FormatAmount(0 - n, Some(decimals)) == "-" + Numeral(n / Pow(10, decimals), 10)
  {
    hide Pow, PadStart, WithoutTrailingZeros, Numeral, Quotient, Remainder;
    var p := Pow(10, decimals);
    PrintedZero(decimals);
    ZerosTrimAway(decimals);
    TruncatesNegative(n, p);
    assert Fraction(0 - n, decimals) == "";
    WholeQuotient(n, p);
  }

  lemma TruncatesNegative(n: nat, p: nat)
    requires p > 0 && n > 0
    ensures Quotient(0 - n, p) == 0 - n / p && Remainder(0 - n, p) == 0 - n % p
  {
    var m := 0 - n;
    assert -m == n;
  }

  lemma WholeQuotient(n: nat, p: nat)
    requires p > 0 && n > 0 && n % p == 0
    ensures n / p >= 1
  {
    Recompose(n, p);
    QuotientNonNegative(n, p);
    if n / p == 0 {
      ZeroTimes(p);
    }
  }

  /** A minus sign past the first character is no number. */
  lemma MinusInside(t: string, i: nat)
    requires 1 <= i < |t| && t[i] == '-' && !IsSpace(t[0]) && !IsSpace(t[|t| - 1])
    requires t[0] == '-' || (t[0] == '0' && t[1] !in "xXoObB")
    ensures ToBigInt(t).Err?
  {
    DigitsTrimNothing(t);
    assert t[1..][i - 1] == '-';
    assert !IsDigit('-', 10);
  }

  lemma {:induction false} MinusSurvives(s: string, i: nat)
    requires i + 1 < |s| && s[i] == '-' && s[i + 1] != '0'
    ensures |WithoutTrailingZeros(s)| > i + 1 && WithoutTrailingZeros(s)[..i + 2] == s[..i + 2]
    ensures WithoutTrailingZeros(s)[|WithoutTrailingZeros(s)| - 1] in s
  {
    if s[|s| - 1] == '0' {
      var front := s[..|s| - 1];
      assert i + 1 < |front|;
      assert front[..i + 2] == s[..i + 2];
      MinusSurvives(front, i);
    }
  }

  predicate MinusIn(f: string) {
    && f != "" && (f[0] == '0' || f[0] == '-') && !IsSpace(f[|f| - 1]) && '.' !in f
    && exists i :: 0 <= i < |f| && f[i] == '-'
  }

  lemma {:induction false} TrimmedIsPrefix(s: string)
    ensures WithoutTrailingZeros(s) <= s
  {
    if s != "" && s[|s| - 1] == '0' { TrimmedIsPrefix(s[..|s| - 1]); }
  }

  /** The printed fraction of a negative amount keeps its sign inside. */
  lemma NegativeFraction(n: nat, decimals: nat)
    requires n > 0
    ensures MinusIn(WithoutTrailingZeros(PadStart(Printed(0 - n), decimals)))
  {
    var digits, minus := Numeral(n, 10), Printed(0 - n);
    assert minus == "-" + digits;
    hide Numeral, WithoutTrailingZeros, Printed;
    PaddedMinus(digits, decimals, PadStart(minus, decimals));
  }

  lemma PaddedMinus(digits: string, decimals: nat, s: string)
    requires AllDecimal(digits) && digits != "" && digits[0] != '0' && s == PadStart("-" + digits, decimals)
    ensures MinusIn(WithoutTrailingZeros(s))
  {
    var i := |s| - |digits| - 1;
    assert s == Zeros(i) + ("-" + digits);
    hide WithoutTrailingZeros, PadStart;
    assert s[i] == '-' && s[i + 1] == digits[0];
    MinusSurvives(s, i);
    TrimmedIsPrefix(s);
    PlainChars(digits, i, s);
    KeepsMinus(s, WithoutTrailingZeros(s), i);
  }

  lemma KeepsMinus(s: string, f: string, i: nat)
    requires i < |f| && f <= s && f[i] == '-' && (s[0] == '0' || s[0] == '-')
    requires forall c :: c in s ==> !IsSpace(c) && c != '.'
    ensures MinusIn(f)
  {
    assert f[|f| - 1] == s[|f| - 1];
    forall k | 0 <= k < |f| ensures f[k] != '.' {
      assert f[k] == s[k] && s[k] in s;
    }
  }

  lemma PlainChars(digits: string, i: nat, s: string)
    requires AllDecimal(digits) && s == Zeros(i) + ("-" + digits)
    ensures forall c :: c in s ==> !IsSpace(c) && c != '.'
  {
    forall k | 0 <= k < |s| ensures !IsSpace(s[k]) && s[k] != '.' {
      if k > i { DigitIsPlain(digits[k - i - 1]); }
    }
  }

  lemma RawOfNegative(whole: string, f: string, decimals: nat)
    requires MinusIn(f) && whole != "" && (whole == "0" || (whole[0] == '-' && '.' !in whole))
    ensures ToRawAmount(whole + "." + f, decimals).Err?
  {
    var s := whole + "." + f;
    DigitsTrimNothing(s);
    DigitsHaveNoDot(whole, f);
    DigitsHaveNoDot(f, "");
    hide ToBigInt, Trim, BeforeDot, AfterDot;
    NegativeJoined(whole, f, decimals);
  }

  lemma NegativeJoined(whole: string, f: string, decimals: nat)
    requires MinusIn(f) && whole != "" && (whole == "0" || whole[0] == '-')
    ensures |f| <= decimals ==> ToBigInt(whole + PadEnd(f, decimals)).Err?
  {
    hide ToBigInt;
    var t := whole + PadEnd(f, decimals);
    if |f| <= decimals {
      var i :| 0 <= i < |f| && f[i] == '-';
      assert t[|whole| + i] == '-';
      if decimals > |f| {
        assert t[|t| - 1] == '0';
      } else {
        assert t[|t| - 1] == f[|f| - 1];
      }
      MinusInside(t, |whole| + i);
    }
  }

  lemma NegativeFails(v: int, decimals: nat)
    requires v < 0 && decimals >= 1 && -v % Pow(10, decimals) != 0
    ensures ToRawAmount(FormatAmount(v, Some(decimals)), decimals).Err?
  {
    hide Pow, PadStart, WithoutTrailingZeros, ToRawAmount, Numeral, MinusIn;
    var p := Pow(10, decimals);
    RemainderFits(-v, p);
    NegativeFraction(-v % p, decimals);
    assert Remainder(v, p) == -(-v % p);
    QuotientNonNegative(-v, p);
    var q := -v / p;
    assert Quotient(v, p) == -q;
    PrintedWhole(q);
    FractionShown(v, decimals);
    RawOfNegative(Printed(0 - q), Fraction(v, decimals), decimals);
  }

  lemma FractionShown(v: int, decimals: nat)
    requires decimals >= 1 && MinusIn(Fraction(v, decimals))
    ensures FormatAmount(v, Some(decimals)) == Printed(Quotient(v, Pow(10, decimals))) + "." + Fraction(v, decimals)
  {
  }

  lemma PrintedWhole(q: nat)
    ensures Printed(0 - q) != "" && (Printed(0 - q) == "0" || (Printed(0 - q)[0] == '-' && '.' !in Printed(0 - q)))
  {
    MinusHasNoDot(q);
    if q == 0 {
      assert Printed(0) == [Digit(0)] == "0";
    }
  }

  // ---- the theorems ----

  /** Not negative, without decimals, or a whole number of units. */
  predicate RoundTrips(v: int, decimals: nat) {
    v >= 0 || decimals == 0 || -v % Pow(10, decimals) == 0
  }

  /**
   * Printing and parsing give an amount back exactly when it is not negative, has no decimals, or is
   * a whole number of units; any other negative amount prints as something that does not parse.
   */
  lemma RoundTrip(v: int, decimals: nat)
    ensures ToRawAmount(FormatAmount(v, Some(decimals)), decimals) == Ok(v)
            <==> RoundTrips(v, decimals)
    ensures ToRawAmount(FormatAmount(v, Some(decimals)), decimals).Err? <==> !RoundTrips(v, decimals)
  {
    hide ToRawAmount, FormatAmount, Pow;
    if v >= 0 {
      RoundTripNonNegative(v, decimals);
    } else if decimals == 0 {
      RoundTripUnits(-v);
    } else if -v % Pow(10, decimals) == 0 {
      RoundTripWhole(-v, decimals);
    } else {
      NegativeFails(v, decimals);
    }
  }

  /** An amount that round trips prints like no other. */
  lemma FormatInjective(u: int, v: int, decimals: nat)
    requires FormatAmount(u, Some(decimals)) == FormatAmount(v, Some(decimals))
    requires RoundTrips(u, decimals) || RoundTrips(v, decimals)
    ensures u == v
  {
    hide FormatAmount, ToRawAmount, RoundTrips;
    RoundTrip(u, decimals);
    RoundTrip(v, decimals);
  }

  /** Printing what was parsed and parsing it again changes nothing, exactly when the amount round trips. */
  lemma ParseFormatParse(s: string, decimals: nat)
    requires ToRawAmount(s, decimals).Ok?
    ensures var v := ToRawAmount(s, decimals).value;
            (ToRawAmount(FormatAmount(v, Some(decimals)), decimals) == ToRawAmount(s, decimals))
            <==> RoundTrips(v, decimals)
  {
    RoundTrip(ToRawAmount(s, decimals).value, decimals);
  }
}
