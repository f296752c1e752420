/** Byte strings, their big-endian readings, and the UTF-8 encoding of text. */
module Bytes {
  import opened Arithmetic

  type Byte = n: nat | n < 256

  /** `256^n`, the number of distinct `n`-byte strings. */
  function Pow256(n: nat): nat {
    Pow(256, n)
  }

  /** The low `n` bytes of `v`, most significant first; higher bytes are dropped. */
  function BigEndian(v: nat, n: nat): (b: seq<Byte>)
    ensures |b| == n
  {
    if n == 0 then [] else BigEndian(v / 256, n - 1) + [v % 256]
  }

  /** The number a byte string denotes, most significant byte first. */
  function Value(b: seq<Byte>): nat {
    if b == [] then 0 else Value(b[..|b| - 1]) * 256 + b[|b| - 1]
  }

  /** Fixed-width concatenation: every number as a 32-byte word. */
  function Words(vs: seq<nat>): (b: seq<Byte>)
    ensures |b| == 32 * |vs|
  {
    if vs == [] then [] else BigEndian(vs[0], 32) + Words(vs[1..])
  }

  /** The numbers as a 256-bit word carries them. */
  function Wrapped(vs: seq<nat>): (ws: seq<nat>)
    ensures |ws| == |vs|
  {
    if vs == [] then [] else [vs[0] % Pow256(32)] + Wrapped(vs[1..])
  }

  lemma SplitRemainder(v: nat, p: nat)
    requires p > 0
    ensures v % (256 * p) == v / 256 % p * 256 + v % 256
  {
    var q, r := v / 256 / p, v / 256 % p;
    assert v / 256 == q * p + r;
    assert q * (256 * p) == 256 * (q * p);
    RemainderIsUnique(v, 256 * p, q, 256 * r + v % 256);
  }

  /** Writing `v` on `n` bytes and reading it back keeps exactly `v` modulo `256^n`. */
  lemma {:induction false} ReadBack(v: nat, n: nat)
    ensures Value(BigEndian(v, n)) == v % Pow256(n)
  {
    if n > 0 {
      ReadBack(v / 256, n - 1);
      assert BigEndian(v, n)[..n - 1] == BigEndian(v / 256, n - 1);
      SplitRemainder(v, Pow256(n - 1));
    }
  }

  lemma {:induction false} ValueInRange(b: seq<Byte>)
    ensures Value(b) < Pow256(|b|)
  {
    if b != [] { ValueInRange(b[..|b| - 1]); }
  }

  /** Reading a byte string and writing it back at its own width gives it back. */
  lemma {:induction false} WriteBack(b: seq<Byte>)
    ensures BigEndian(Value(b), |b|) == b
  {
    if b != [] {
      WriteBack(b[..|b| - 1]);
      assert Value(b) / 256 == Value(b[..|b| - 1]);
      assert Value(b) % 256 == b[|b| - 1];
    }
  }

  /** A width-`n` encoding determines its number modulo `256^n`, and is determined by it. */
  lemma BigEndianEqual(u: nat, v: nat, n: nat)
    ensures BigEndian(u, n) == BigEndian(v, n) <==> u % Pow256(n) == v % Pow256(n)
  {
    ReadBack(u, n);
    ReadBack(v, n);
    WriteBack(BigEndian(u, n));
    WriteBack(BigEndian(v, n));
  }

  /** Concatenated words decode uniquely: same bytes exactly when the same wrapped numbers. */
  lemma {:induction false} WordsEqual(us: seq<nat>, vs: seq<nat>)
    ensures Words(us) == Words(vs) <==> Wrapped(us) == Wrapped(vs)
  {
    if us == [] || vs == [] {
      assert |Words(us)| == 32 * |us| && |Words(vs)| == 32 * |vs|;
    } else {
      WordsEqual(us[1..], vs[1..]);
      BigEndianEqual(us[0], vs[0], 32);
      assert Words(us)[..32] == BigEndian(us[0], 32) && Words(us)[32..] == Words(us[1..]);
      assert Words(vs)[..32] == BigEndian(vs[0], 32) && Words(vs)[32..] == Words(vs[1..]);
      assert Wrapped(us)[1..] == Wrapped(us[1..]) && Wrapped(vs)[1..] == Wrapped(vs[1..]);
    }
  }

  /** Fills a 32-byte buffer from its last byte to its first. */
  method To32(v: nat) returns (out: array<Byte>)
    ensures fresh(out) && out.Length == 32
    ensures out[..] == BigEndian(v, 32)
  {
    out := new Byte[32];
    var x := v;
    var i := 31;
    while i >= 0
      invariant -1 <= i < 32
      invariant BigEndian(v, 32) == BigEndian(x, i + 1) + out[i + 1..]
      decreases i
    {
      out[i] := x % 256;
      assert out[i..] == [x % 256] + out[i + 1..];
      x := x / 256;
      i := i - 1;
    }
    assert out[0..] == out[..];
  }

  /** Reads a byte string most significant byte first. */
  method BytesToBigInt(b: seq<Byte>) returns (x: nat)
    ensures x == Value(b)
    ensures BigEndian(x, |b|) == b
  {
    x := 0;
    for i := 0 to |b|
      invariant x == Value(b[..i])
    {
      assert b[..i + 1][..i] == b[..i];
      x := x * 256 + b[i];
    }
    assert b[..|b|] == b;
    WriteBack(b);
  }

  // ---- UTF-8 ----

  /** The UTF-8 bytes of one Unicode scalar value. */
  function Utf8Char(c: char): (b: seq<Byte>)
    ensures 1 <= |b| <= 4
  {
    var n := c as int;
    if n < 0x80 then [n]
    else if n < 0x800 then [0xC0 + n / 64, 0x80 + n % 64]
    else if n < 0x10000 then [0xE0 + n / 4096, 0x80 + n / 64 % 64, 0x80 + n % 64]
    else [0xF0 + n / 262144, 0x80 + n / 4096 % 64, 0x80 + n / 64 % 64, 0x80 + n % 64]
  }

  function Utf8(s: string): seq<Byte> {
    if s == "" then [] else Utf8Char(s[0]) + Utf8(s[1..])
  }

  lemma ReadUtf8Char(c: char)
    ensures var b: seq<int> := Utf8Char(c);
            var n := c as int;
            match |b|
            case 1 => n == b[0]
            case 2 => n + 12416 == 64 * b[0] + b[1]
            case 3 => n + 925824 == 4096 * b[0] + 64 * b[1] + b[2]
            case _ => n + 63447168 == 262144 * b[0] + 4096 * b[1] + 64 * b[2] + b[3]
  {
    var n := c as int;
    SixBits(n);
    SixBits(n / 64);
    SixBits(n / 4096);
    assert n / 64 / 64 == n / 4096 && n / 4096 / 64 == n / 262144;
  }

  /** The low six bits and the rest. */
  lemma SixBits(n: nat)
    ensures n == 64 * (n / 64) + n % 64
  {
  }

  /** UTF-8 is prefix-free, character by character. */
  lemma Utf8CharPrefixFree(c: char, d: char, x: seq<Byte>, y: seq<Byte>)
    requires Utf8Char(c) + x == Utf8Char(d) + y
    ensures c == d && x == y
  {
    var l, r := Utf8Char(c) + x, Utf8Char(d) + y;
    assert Utf8Char(c)[0] == l[0] == r[0] == Utf8Char(d)[0];
    assert |Utf8Char(c)| == |Utf8Char(d)|;
    assert forall i :: 0 <= i < |Utf8Char(c)| ==> Utf8Char(c)[i] == l[i] == r[i] == Utf8Char(d)[i];
    ReadUtf8Char(c);
    ReadUtf8Char(d);
    assert c as int == d as int;
    assert l[|Utf8Char(c)|..] == x && r[|Utf8Char(d)|..] == y;
  }

  lemma {:induction false} Utf8Injective(s: string, t: string)
    requires Utf8(s) == Utf8(t)
    ensures s == t
  {
    if s != "" && t != "" {
      Utf8CharPrefixFree(s[0], t[0], Utf8(s[1..]), Utf8(t[1..]));
      Utf8Injective(s[1..], t[1..]);
    }
  }
}
