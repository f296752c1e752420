/** Recognising and decoding a single call to the pool, and the canonical spelling of a felt. */
module PoolTransaction {
  import opened Wrappers
  import opened Numerals

  // ---- normalizeFelt ----

  function LowerChar(c: char): (l: char)
    ensures IsDigit(c, 16) ==> IsDigit(l, 16) && DigitValue(l) == DigitValue(c)
  {
    if 'A' <= c <= 'Z' then ('a' as int + (c as int - 'A' as int)) as char else c
  }

  /** `toLowerCase`, on ASCII. */
  function Lower(s: string): (l: string)
    ensures |l| == |s| && forall i :: 0 <= i < |s| ==> l[i] == LowerChar(s[i])
  {
    seq(|s|, i requires 0 <= i < |s| => LowerChar(s[i]))
  }

  /** Without the leading `0x`, if there is one. */
  function Unprefixed(s: string): string {
    if |s| >= 2 && s[..2] == "0x" then s[2..] else s
  }

  function WithoutLeadingZeros(s: string): string {
    if s != "" && s[0] == '0' then WithoutLeadingZeros(s[1..]) else s
  }

  function NormalizeFelt(value: string): string {
    var digits := WithoutLeadingZeros(Unprefixed(Lower(value)));
    "0x" + (if digits == "" then "0" else digits)
  }

  /** A hexadecimal felt: digits of either case, with or without a prefix of either case. */
  predicate IsHexFelt(value: string) {
    AllDigits(Unprefixed(Lower(value)), 16)
  }

  function HexFeltValue(value: string): nat
    requires IsHexFelt(value)
  {
    Denoted(Unprefixed(Lower(value)), 16)
  }

  predicate IsLowerHex(c: char) {
    '0' <= c <= '9' || 'a' <= c <= 'f'
  }

  predicate AllLowerHex(s: string) {
    forall i :: 0 <= i < |s| ==> IsLowerHex(s[i])
  }

  lemma {:induction false} LeadingZeros(s: string)
    requires AllDigits(s, 16)
    ensures AllDigits(WithoutLeadingZeros(s), 16)
    ensures Denoted(WithoutLeadingZeros(s), 16) == Denoted(s, 16)
    ensures WithoutLeadingZeros(s) == "" || WithoutLeadingZeros(s)[0] != '0'
    ensures AllLowerHex(s) ==> AllLowerHex(WithoutLeadingZeros(s))
  {
    if s != "" && s[0] == '0' {
      LeadingZeros(s[1..]);
      assert s == Zeros(1) + s[1..];
      DenotedZeros(1, 16);
      DenotedConcat(Zeros(1), s[1..], 16);
    }
  }

  /** Lower-case digits without a leading zero are the numeral of the number they denote. */
  lemma {:induction false} ShortestIsNumeral(s: string)
    requires AllLowerHex(s) && AllDigits(s, 16) && s != "" && s[0] != '0'
    ensures s == Numeral(Denoted(s, 16), 16) && Denoted(s, 16) > 0
  {
    var front, last := s[..|s| - 1], s[|s| - 1];
    var d := DigitValue(last).value;
    assert s == front + [last] && Digit(d) == last;
    if front == "" {
      assert Denoted(front, 16) == 0;
    } else {
      ShortestIsNumeral(front);
      DenotedSnoc(front, last, 16);
      Quotient16(Denoted(front, 16), d);
    }
  }

  lemma Quotient16(q: nat, d: nat)
    requires q > 0 && d < 16
    ensures q * 16 + d >= 16 && (q * 16 + d) / 16 == q && (q * 16 + d) % 16 == d
  {
  }

  /** `normalizeFelt` writes the felt's value the one way `num.toHex` would. */
  lemma NormalizeIsCanonical(value: string)
    requires IsHexFelt(value)
    ensures NormalizeFelt(value) == ToHex(HexFeltValue(value))
  {
    var lower := Lower(value);
    var hex := Unprefixed(lower);
    assert AllLowerHex(hex) by {
      forall i | 0 <= i < |hex| ensures IsLowerHex(hex[i]) {
        var j := if hex == lower then i else i + 2;
        assert hex[i] == lower[j] == LowerChar(value[j]) && IsDigit(hex[i], 16);
      }
    }
    LeadingZeros(hex);
    var digits := WithoutLeadingZeros(hex);
    if digits == "" {
      assert Numeral(0, 16) == [Digit(0)] == "0";
    } else {
      ShortestIsNumeral(digits);
    }
  }

  /** A prefix of either case or none, and hexadecimal digits of either case: the number they denote. */
  lemma NormalizeReads(prefix: string, digits: string)
    requires prefix in {"", "0x", "0X"} && AllDigits(digits, 16)
    ensures NormalizeFelt(prefix + digits) == ToHex(Denoted(digits, 16))
  {
    var value := prefix + digits;
    var lower := Lower(value);
    assert |prefix| == 2 ==> lower[..2] == "0x";
    assert prefix == "" && |digits| >= 2 ==> IsDigit(digits[1], 16) && IsDigit(lower[1], 16) && lower[..2] != "0x";
    var hex := Unprefixed(lower);
    forall i | 0 <= i < |hex| ensures IsDigit(hex[i], 16) && DigitValue(hex[i]) == DigitValue(digits[i]) {
      assert hex[i] == LowerChar(digits[i]);
    }
    SameDigitsSameNumber(hex, digits);
    NormalizeIsCanonical(value);
  }

  lemma {:induction false} SameDigitsSameNumber(s: string, t: string)
    requires |s| == |t| && AllDigits(s, 16) && AllDigits(t, 16)
    requires forall i :: 0 <= i < |s| ==> DigitValue(s[i]) == DigitValue(t[i])
    ensures Denoted(s, 16) == Denoted(t, 16)
  {
    if s != "" { SameDigitsSameNumber(s[..|s| - 1], t[..|t| - 1]); }
  }

  /** Two spellings normalise alike exactly when they are the same number. */
  lemma NormalizeDecidesEquality(a: string, b: string)
    requires IsHexFelt(a) && IsHexFelt(b)
    ensures NormalizeFelt(a) == NormalizeFelt(b) <==> HexFeltValue(a) == HexFeltValue(b)
  {
    NormalizeIsCanonical(a);
    NormalizeIsCanonical(b);
    if NormalizeFelt(a) == NormalizeFelt(b) {
      var m, n := HexFeltValue(a), HexFeltValue(b);
      assert ToHex(m)[2..] == Numeral(m, 16) && ToHex(n)[2..] == Numeral(n, 16);
      NumeralInjective(m, n, 16);
    }
  }

  /** What `num.toHex` writes is canonical already. */
  lemma HexIsCanonical(n: nat)
    ensures IsHexFelt(ToHex(n)) && HexFeltValue(ToHex(n)) == n && NormalizeFelt(ToHex(n)) == ToHex(n)
  {
    var digits := Numeral(n, 16);
    NumeralIsLower(n);
    var lower := Lower(ToHex(n));
    assert lower == ToHex(n) by {
      forall i | 0 <= i < |lower| ensures lower[i] == ToHex(n)[i] {
        if i >= 2 { assert ToHex(n)[i] == digits[i - 2]; }
      }
    }
    assert ToHex(n)[..2] == "0x" && ToHex(n)[2..] == digits;
    NormalizeIsCanonical(ToHex(n));
  }

  lemma {:induction false} NumeralIsLower(n: nat)
    ensures AllLowerHex(Numeral(n, 16))
    decreases n
  {
    if n >= 16 {
      QuotientIsSmaller(n, 16);
      NumeralIsLower(n / 16);
    }
  }

  // ---- recognising the call ----

  /** A single direct call to the pool: one call, to the pool's address, in any spelling of either felt. */
  predicate IsSinglePoolCall(calldata: seq<string>, poolAddress: string) {
    |calldata| >= 7 && NormalizeFelt(calldata[0]) == "0x1" && NormalizeFelt(calldata[1]) == NormalizeFelt(poolAddress)
  }

  /** Spelling does not matter: what counts is the call count one and the pool's address, as numbers. */
  lemma SinglePoolCallIsByValue(calldata: seq<string>, poolAddress: string)
    requires |calldata| >= 7 && IsHexFelt(calldata[0]) && IsHexFelt(calldata[1]) && IsHexFelt(poolAddress)
    ensures IsSinglePoolCall(calldata, poolAddress)
            <==> HexFeltValue(calldata[0]) == 1 && HexFeltValue(calldata[1]) == HexFeltValue(poolAddress)
  {
    assert ToHex(1) == "0x1" by { assert Numeral(1, 16) == [Digit(1)] == "1"; }
    HexIsCanonical(1);
    NormalizeDecidesEquality(calldata[0], ToHex(1));
    NormalizeDecidesEquality(calldata[1], poolAddress);
  }

  // ---- decoding it ----

  datatype ClientAction =
    | Deposit
    | CreateOpenNote
    | InvokeExternal(contract: nat)
    | ComputeAndInvoke(contract: nat, computeData: seq<nat>, invokeData: seq<nat>)
    | Other(variant: string)

  datatype PoolCallActions = PoolCallActions(userAddress: string, viewingKey: Option<nat>, actions: seq<ClientAction>)

  /** The decoders of the SDK: calldata that does not decode gives nothing. */
  datatype Decoders = Decoders(
    clientActions: seq<string> -> Option<seq<ClientAction>>,
    toBigInt: string -> Option<nat>,
    computeArity: nat,
    computeArguments: seq<nat> -> Option<(nat, nat)>,
    openNotes: seq<nat> -> Option<nat>,
    shadowAccount: (nat, nat, nat, nat, nat) -> string)

  predicate IsBlank(c: char) {
    c == ' ' || '\t' <= c <= '\r'
  }

  function WithoutLeadingBlanks(s: string): string {
    if s != "" && IsBlank(s[0]) then WithoutLeadingBlanks(s[1..]) else s
  }

  /** The longest prefix of hexadecimal digits. */
  function LeadingHex(s: string): (digits: string)
    ensures AllDigits(digits, 16)
  {
    if s != "" && IsDigit(s[0], 16) then [s[0]] + LeadingHex(s[1..]) else ""
  }

  /** `parseInt(s, 16)`; nothing for NaN. */
  function ParseIntHex(s: string): Option<int> {
    var t := WithoutLeadingBlanks(s);
    var negative := t != "" && t[0] == '-';
    var u := if t != "" && t[0] in "+-" then t[1..] else t;
    var digits := LeadingHex(if |u| >= 2 && u[0] == '0' && u[1] in "xX" then u[2..] else u);
    if digits == "" then None else Some(if negative then -(Denoted(digits, 16) as int) else Denoted(digits, 16))
  }

  function DecodeClientActions(calldata: seq<string>, poolAddress: string, d: Decoders): Option<PoolCallActions> {
    if !IsSinglePoolCall(calldata, poolAddress) then None
    else
      match ParseIntHex(calldata[3])
      case None => None
      case Some(n) =>
        if n < 3 then None
        else
          var inner := calldata[4..if 4 + n < |calldata| then 4 + n else |calldata|];
          match d.clientActions(inner[2..])
          case None => None
          case Some(actions) => Some(PoolCallActions(NormalizeFelt(inner[0]), d.toBigInt(inner[1]), actions))
  }

  // ---- what the decoding reads ----

  /** Spaces, tabs, line breaks and feeds. */
  predicate AllBlank(s: string) {
    forall i :: 0 <= i < |s| ==> s[i] == ' ' || 9 <= s[i] as int <= 13
  }

  lemma {:induction false} BlanksDropped(blanks: string, s: string)
    requires AllBlank(blanks) && (s != "" ==> !IsBlank(s[0]))
    ensures WithoutLeadingBlanks(blanks + s) == s
  {
    if blanks == "" {
      assert blanks + s == s;
    } else {
      assert (blanks + s)[1..] == blanks[1..] + s;
      BlanksDropped(blanks[1..], s);
    }
  }

  lemma {:induction false} DigitsTaken(digits: string, rest: string)
    requires AllDigits(digits, 16) && (rest != "" ==> !IsDigit(rest[0], 16))
    ensures LeadingHex(digits + rest) == digits
  {
    if digits == "" {
      assert digits + rest == rest;
    } else {
      assert (digits + rest)[1..] == digits[1..] + rest;
      DigitsTaken(digits[1..], rest);
    }
  }

  /**
   * `parseInt` in base sixteen: leading blanks, a sign or none, `0x` or none, and then digits up to the
   * first character that is none. Without a digit there is no number.
   */
  lemma ParseIntReads(blanks: string, sign: string, prefix: string, digits: string, rest: string)
    requires AllBlank(blanks) && sign in {"", "+", "-"} && prefix in {"0x", "0X"}
    requires AllDigits(digits, 16) && (rest != "" ==> !IsDigit(rest[0], 16))
    ensures ParseIntHex(blanks + (sign + (prefix + (digits + rest))))
            == if digits == "" then None
               else Some(if sign == "-" then -(Denoted(digits, 16) as int) else Denoted(digits, 16))
  {
    var u := prefix + (digits + rest);
    var t := sign + u;
    PrefixedText(prefix, digits + rest);
    SignedText(sign, u);
    BlanksDropped(blanks, t);
    DigitsTaken(digits, rest);
    hide *;
    ParseIntOf(blanks + t, t, u, digits);
  }

  lemma PrefixedText(prefix: string, s: string)
    requires prefix in {"0x", "0X"}
    ensures var u := prefix + s;
            |u| >= 2 && u[0] == '0' && u[1] in "xX" && u[2..] == s && IsDigit(u[0], 16)
  {
  }

  /** The parts of a text that parse. */
  lemma ParseIntOf(s: string, t: string, u: string, digits: string)
    requires WithoutLeadingBlanks(s) == t && t != "" && (if t[0] in "+-" then t[1..] else t) == u
    requires LeadingHex(if |u| >= 2 && u[0] == '0' && u[1] in "xX" then u[2..] else u) == digits
    ensures ParseIntHex(s) == if digits == "" then None
                              else Some(if t[0] == '-' then -(Denoted(digits, 16) as int) else Denoted(digits, 16))
  {
    hide WithoutLeadingBlanks, LeadingHex, Denoted;
  }

  /** A sign or none before a text that starts with a digit. */
  lemma SignedText(sign: string, u: string)
    requires sign in {"", "+", "-"} && u != "" && IsDigit(u[0], 16)
    ensures var t := sign + u;
            && t != "" && !IsBlank(t[0]) && (t[0] == '-' <==> sign == "-")
            && (if t[0] in "+-" then t[1..] else t) == u
  {
    assert u[0] !in "+-";
    if sign == "" {
      assert sign + u == u;
    } else {
      assert (sign + u)[0] == sign[0] && (sign + u)[1..] == u;
    }
  }

  /** The same without the prefix, for digits that do not read as one. */
  lemma ParseIntReadsBare(blanks: string, sign: string, digits: string, rest: string)
    requires AllBlank(blanks) && sign in {"", "+", "-"}
    requires AllDigits(digits, 16) && digits != "" && (rest != "" ==> !IsDigit(rest[0], 16))
    requires digits == "0" ==> rest == "" || rest[0] !in "xX"
    ensures ParseIntHex(blanks + (sign + (digits + rest)))
            == Some(if sign == "-" then -(Denoted(digits, 16) as int) else Denoted(digits, 16))
  {
    var u := digits + rest;
    var t := sign + u;
    assert IsDigit(digits[0], 16) && u[0] == digits[0];
    assert |u| >= 2 && u[0] == '0' ==> u[1] !in "xX" by {
      if |digits| >= 2 { assert u[1] == digits[1] && IsDigit(digits[1], 16); }
    }
    SignedText(sign, u);
    BlanksDropped(blanks, t);
    DigitsTaken(digits, rest);
    hide *;
    ParseIntOf(blanks + t, t, u, digits);
  }

  /** Whatever starts with neither a sign nor a digit is no number. */
  lemma ParseIntFails(blanks: string, s: string)
    requires AllBlank(blanks)
    requires s != "" ==> !AllBlank(s[..1]) && s[0] != '+' && s[0] != '-' && !IsDigit(s[0], 16)
    ensures ParseIntHex(blanks + s) == None
  {
    BlanksDropped(blanks, s);
  }

  /**
   * A call decodes exactly when it is a single pool call, its length is a number of at least three, and
   * the felts from the seventh on, as many as the length leaves, are client actions; the user is the
   * fifth felt, normalised, and the viewing key the sixth.
   */
  lemma DecodesExactly(calldata: seq<string>, poolAddress: string, d: Decoders, call: PoolCallActions)
    ensures DecodeClientActions(calldata, poolAddress, d) == Some(call)
            <==> && IsSinglePoolCall(calldata, poolAddress)
                 && ParseIntHex(calldata[3]).Some? && ParseIntHex(calldata[3]).value >= 3
                 && var n := ParseIntHex(calldata[3]).value;
                    && d.clientActions(if 4 + n < |calldata| then calldata[6..4 + n] else calldata[6..])
                       == Some(call.actions)
                    && call.userAddress == NormalizeFelt(calldata[4]) && call.viewingKey == d.toBigInt(calldata[5])
  {
    if IsSinglePoolCall(calldata, poolAddress) && ParseIntHex(calldata[3]).Some? {
      var n := ParseIntHex(calldata[3]).value;
      if n >= 3 {
        var end := if 4 + n < |calldata| then 4 + n else |calldata|;
        var inner := calldata[4..end];
        assert inner[2..] == if 4 + n < |calldata| then calldata[6..4 + n] else calldata[6..];
        assert inner[0] == calldata[4] && inner[1] == calldata[5];
      }
    }
    hide ParseIntHex, NormalizeFelt;
  }
}
