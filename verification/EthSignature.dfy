/** A wallet's 65-byte signature, split into the six felts an account verifies. */
module EthSignature {
  import opened Wrappers
  import opened Arithmetic
  import opened Bytes

  datatype Parts = Parts(r: nat, s: nat, v: nat)

  /** `parseEthSignature`, after the hex string has been read into bytes. */
  function ParseEthSignature(bytes: seq<Byte>): Result<Parts> {
    if |bytes| < 65 || bytes[64] !in {0, 1, 27, 28} then
      Err("unexpected signature recovery byte")
    else
      var v := bytes[64];
      Ok(Parts(Value(bytes[..32]), Value(bytes[32..64]), if v < 27 then v + 27 else v))
  }

  /** `v >> 128n` and `v & MASK_128`. */
  function High(v: nat): nat {
    v / Pow256(16)
  }

  function Low(v: nat): nat {
    v % Pow256(16)
  }

  predicate IsLimb(x: nat) {
    x < Pow256(16)
  }

  /** `toSixFelt`. */
  function ToSixFelt(sig: Parts, evmChainId: nat): (felts: seq<nat>)
    ensures |felts| == 6
  {
    [High(sig.r), Low(sig.r), High(sig.s), Low(sig.s), sig.v, evmChainId]
  }

  function Join(high: nat, low: nat): nat {
    high * Pow256(16) + low
  }

  /** The six felts put back together into the 64 bytes of `r` and `s`. */
  function Reassembled(felts: seq<nat>): seq<Byte>
    requires |felts| == 6
  {
    BigEndian(Join(felts[0], felts[1]), 32) + BigEndian(Join(felts[2], felts[3]), 32)
  }

  /** Accepted are 65 bytes or more whose 65th is one of four recovery bytes, and nothing else. */
  lemma AcceptedExactly(bytes: seq<Byte>)
    ensures ParseEthSignature(bytes).Ok?
            <==> |bytes| >= 65 && (bytes[64] == 0 || bytes[64] == 1 || bytes[64] == 27 || bytes[64] == 28)
  {
  }

  /** Nothing of an accepted signature is lost: its bytes come back, each limb fits 128 bits, and `v` is
   *  27 or 28 according to the recovery parity. */
  lemma SixFeltsCarrySignature(bytes: seq<Byte>, evmChainId: nat)
    requires ParseEthSignature(bytes).Ok?
    ensures var felts := ToSixFelt(ParseEthSignature(bytes).value, evmChainId);
            && Reassembled(felts) == bytes[..64]
            && IsLimb(felts[0]) && IsLimb(felts[1]) && IsLimb(felts[2]) && IsLimb(felts[3])
            && felts[4] == (if bytes[64] in {0, 27} then 27 else 28)
            && felts[5] == evmChainId
  {
    var sig := ParseEthSignature(bytes).value;
    LimbsCarry(bytes[..32]);
    LimbsCarry(bytes[32..64]);
    var felts := ToSixFelt(sig, evmChainId);
    assert Reassembled(felts) == bytes[..32] + bytes[32..64];
    assert bytes[..32] + bytes[32..64] == bytes[..64];
  }

  lemma LimbsFit(v: nat)
    requires v < Pow256(32)
    ensures IsLimb(High(v)) && IsLimb(Low(v)) && Join(High(v), Low(v)) == v
  {
    PowAdd(256, 16, 16);
    QuotientFits(v, Pow256(16));
  }

  lemma LimbsCarry(b: seq<Byte>)
    requires |b| == 32
    ensures IsLimb(High(Value(b))) && IsLimb(Low(Value(b)))
    ensures BigEndian(Join(High(Value(b)), Low(Value(b))), 32) == b
  {
    ValueInRange(b);
    LimbsFit(Value(b));
    WriteBack(b);
  }

  lemma QuotientFits(v: nat, p: nat)
    requires p > 0 && v < p * p
    ensures v / p < p && v % p < p && v / p * p + v % p == v
  {
    var q := v / p;
    assert v == q * p + v % p;
    assert q >= p ==> q * p >= p * p;
  }
}
