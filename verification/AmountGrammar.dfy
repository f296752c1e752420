/** Which texts parse as amounts, and as which: the grammar of `BigInt`, and what `toRawAmount` cuts out of a text. */
module AmountGrammar {
  import opened Wrappers
  import opened Numerals
  import opened Amounts

  /** White space among ASCII characters. */
  predicate Blank(c: char) {
    c == ' ' || 9 <= c as int <= 13
  }

  predicate AllBlank(s: string) {
    forall i :: 0 <= i < |s| ==> Blank(s[i])
  }

  /** Nothing to trim. */
  predicate Bare(t: string) {
    t != "" ==> !Blank(t[0]) && !Blank(t[|t| - 1])
  }

  lemma {:induction false} TrimsStart(blanks: string, s: string)
    requires AllBlank(blanks) && (s != "" ==> !Blank(s[0]))
    ensures TrimStart(blanks + s) == s
  {
    if blanks == "" {
      assert blanks + s == s;
    } else {
      assert (blanks + s)[1..] == blanks[1..] + s;
      TrimsStart(blanks[1..], s);
    }
  }

  lemma {:induction false} TrimsEnd(s: string, blanks: string)
    requires AllBlank(blanks) && (s != "" ==> !Blank(s[|s| - 1]))
    ensures TrimEnd(s + blanks) == s
  {
    if blanks == "" {
      assert s + blanks == s;
    } else {
      var n := |blanks| - 1;
      assert (s + blanks)[..|s + blanks| - 1] == s + blanks[..n];
      TrimsEnd(s, blanks[..n]);
    }
  }

  /** Blanks around a text are dropped. */
  lemma Trims(before: string, t: string, rear: string)
    requires AllBlank(before) && AllBlank(rear) && Bare(t)
    ensures Trim(before + t + rear) == t
  {
    if t == "" {
      assert before + t + rear == (before + rear) + "";
      TrimsStart(before + rear, "");
    } else {
      assert before + t + rear == before + (t + rear);
      TrimsStart(before, t + rear);
      TrimsEnd(t, rear);
    }
  }

  /** A signed or unsigned decimal. */
  predicate IsDecimal(t: string, n: int) {
    || (t != "" && AllDigits(t, 10) && n == Denoted(t, 10))
    || (|t| > 1 && t[0] == '+' && AllDigits(t[1..], 10) && n == Denoted(t[1..], 10))
    || (|t| > 1 && t[0] == '-' && AllDigits(t[1..], 10) && n == -(Denoted(t[1..], 10) as int))
  }

  /** An unsigned number in base sixteen, eight or two. */
  predicate IsPrefixed(t: string, n: int) {
    |t| > 2 && t[0] == '0' &&
    (|| ((t[1] == 'x' || t[1] == 'X') && AllDigits(t[2..], 16) && n == Denoted(t[2..], 16))
     || ((t[1] == 'o' || t[1] == 'O') && AllDigits(t[2..], 8) && n == Denoted(t[2..], 8))
     || ((t[1] == 'b' || t[1] == 'B') && AllDigits(t[2..], 2) && n == Denoted(t[2..], 2)))
  }

  /** `BigInt` reads blanks around nothing as zero, a decimal, or a prefixed number; it rejects anything else. */
  lemma BigIntReads(before: string, t: string, rear: string, n: int)
    requires AllBlank(before) && AllBlank(rear) && Bare(t)
    ensures ToBigInt(before + t + rear) == Ok(n)
            <==> (t == "" && n == 0) || IsDecimal(t, n) || IsPrefixed(t, n)
  {
    Trims(before, t, rear);
    hide Trim, AllBlank, Bare, Denoted;
    SignsAreNoDigits(t);
  }

  lemma SignsAreNoDigits(t: string)
    ensures t != "" && AllDigits(t, 10) ==> t[0] != '-' && t[0] != '+'
    ensures |t| > 1 && AllDigits(t, 10) ==> t[1] !in "xXoObB"
  {
    if AllDigits(t, 10) {
      assert t != "" ==> IsDigit(t[0], 10);
      assert |t| > 1 ==> IsDigit(t[1], 10);
    }
  }

  lemma {:induction false} BeforeDotAfterDot(s: string, t: string)
    requires '.' !in s
    ensures BeforeDot(s + "." + t) == s && AfterDot(s + "." + t) == Some(t)
  {
    DigitsHaveNoDot(s, t);
  }

  /**
   * `toRawAmount` keeps what is before the first dot and between the first two, drops the rest, and
   * rejects a fraction of more than `decimals` characters.
   */
  lemma RawAmountCuts(whole: string, fraction: string, more: string, decimals: nat)
    requires '.' !in whole && '.' !in fraction && Bare(whole + "." + fraction + more)
    requires more == "" || more[0] == '.'
    ensures var r := ToRawAmount(whole + "." + fraction + more, decimals);
            if |fraction| > decimals then r.Err?
            else r == ToBigInt((if whole == "" then "0" else whole) + PadEnd(fraction, decimals))
  {
    var s := whole + "." + fraction + more;
    Trims("", s, "");
    assert "" + s + "" == s;
    assert s == whole + "." + (fraction + more);
    BeforeDotAfterDot(whole, fraction + more);
    CutsFraction(fraction, more);
    hide Trim, ToBigInt, PadEnd, BeforeDot, AfterDot, Bare;
  }

  /** Without a dot the text is all whole part. */
  lemma RawAmountWhole(whole: string, decimals: nat)
    requires '.' !in whole && Bare(whole)
    ensures ToRawAmount(whole, decimals) == ToBigInt((if whole == "" then "0" else whole) + PadEnd("", decimals))
  {
    Trims("", whole, "");
    assert "" + whole + "" == whole;
    DigitsHaveNoDot(whole, "");
    hide Trim, ToBigInt, PadEnd, BeforeDot, AfterDot, Bare;
  }

  lemma CutsFraction(fraction: string, more: string)
    requires '.' !in fraction && (more == "" || more[0] == '.')
    ensures BeforeDot(fraction + more) == fraction
  {
    if more == "" {
      assert fraction + more == fraction;
      DigitsHaveNoDot(fraction, "");
    } else {
      assert fraction + more == fraction + "." + more[1..];
      DigitsHaveNoDot(fraction, more[1..]);
    }
  }

  /** Padding appends zeros up to the width. */
  lemma PadsWithZeros(s: string, n: nat)
    ensures |s| <= n ==> |PadEnd(s, n)| == n && s <= PadEnd(s, n)
    ensures forall i :: |s| <= i < |PadEnd(s, n)| ==> PadEnd(s, n)[i] == '0'
    ensures |s| >= n ==> PadEnd(s, n) == s
  {
    if |s| == n { assert s + Zeros(0) == s; }
  }
}
