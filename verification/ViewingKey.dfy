/** Deriving a viewing key from a passphrase: packing, key stretching, and the fold into a canonical scalar. */
module ViewingKey {
  import opened Wrappers
  import opened Arithmetic
  import opened Bytes

  const KDF_ROUNDS: nat := 1000
  const BYTES_PER_FELT: nat := 31
  const CURVE_ORDER: nat := 3618502788666131213697322783095070105526743751716087489154079457884512865583

  type Poseidon = seq<nat> -> nat

  // ---- passphraseToFelts ----

  function FirstLimb(bytes: seq<Byte>): nat {
    Value(bytes[..Min(BYTES_PER_FELT, |bytes|)])
  }

  function OtherBytes(bytes: seq<Byte>): seq<Byte> {
    bytes[Min(BYTES_PER_FELT, |bytes|)..]
  }

  function Limbs(bytes: seq<Byte>): seq<nat>
    decreases |bytes|
  {
    if bytes == [] then [] else [FirstLimb(bytes)] + Limbs(OtherBytes(bytes))
  }

  function Packed(bytes: seq<Byte>): seq<nat> {
    [|bytes|] + Limbs(bytes)
  }

  method PassphraseToFelts(passphrase: string) returns (felts: seq<nat>)
    ensures felts == Packed(Utf8(passphrase))
  {
    var bytes := Utf8(passphrase);
    felts := [|bytes|];
    var offset := 0;
    assert bytes[0..] == bytes;
    while offset < |bytes|
      invariant 0 <= offset
      invariant felts + Limbs(if offset < |bytes| then bytes[offset..] else []) == Packed(bytes)
    {
      var chunk := bytes[offset..if offset + BYTES_PER_FELT < |bytes| then offset + BYTES_PER_FELT else |bytes|];
      var limb := BytesToBigInt(chunk);
      LimbsStep(bytes, offset, chunk);
      felts := felts + [limb];
      offset := offset + BYTES_PER_FELT;
    }
  }

  lemma LimbsStep(bytes: seq<Byte>, offset: nat, chunk: seq<Byte>)
    requires offset < |bytes|
    requires chunk == bytes[offset..if offset + BYTES_PER_FELT < |bytes| then offset + BYTES_PER_FELT else |bytes|]
    ensures Limbs(bytes[offset..])
            == [Value(chunk)]
               + Limbs(if offset + BYTES_PER_FELT < |bytes| then bytes[offset + BYTES_PER_FELT..] else [])
  {
    var rest := bytes[offset..];
    assert rest[..Min(BYTES_PER_FELT, |rest|)] == chunk;
    assert OtherBytes(rest) == if offset + BYTES_PER_FELT < |bytes| then bytes[offset + BYTES_PER_FELT..] else [];
  }

  lemma SameLimb(a: seq<Byte>, b: seq<Byte>)
    requires |a| == |b| && Value(a) == Value(b)
    ensures a == b
  {
    WriteBack(a);
    WriteBack(b);
  }

  lemma {:induction false} LimbsInjective(a: seq<Byte>, b: seq<Byte>)
    requires |a| == |b| && Limbs(a) == Limbs(b)
    ensures a == b
    decreases |a|
  {
    if a != [] {
      var k := Min(BYTES_PER_FELT, |a|);
      assert Limbs(a)[0] == Limbs(b)[0] && Limbs(a)[1..] == Limbs(b)[1..];
      SameLimb(a[..k], b[..k]);
      LimbsInjective(a[k..], b[k..]);
      assert a == a[..k] + a[k..] && b == b[..k] + b[k..];
    }
  }

  /** The passphrase and the salt are read back from the first hash's input: no two pairs share it. */
  lemma KdfInputInjective(p: string, q: string, salt: nat, salt': nat)
    ensures Packed(Utf8(p)) + [salt] == Packed(Utf8(q)) + [salt'] <==> p == q && salt == salt'
  {
    var a, b := Packed(Utf8(p)), Packed(Utf8(q));
    if a + [salt] == b + [salt'] {
      assert |a + [salt]| == |a| + 1 && |b + [salt']| == |b| + 1;
      assert (a + [salt])[|a|] == salt && (b + [salt'])[|a|] == salt';
      assert (a + [salt])[..|a|] == a && (b + [salt'])[..|a|] == b;
      assert a[0] == b[0] && a[1..] == Limbs(Utf8(p)) && b[1..] == Limbs(Utf8(q));
      LimbsInjective(Utf8(p), Utf8(q));
      Utf8Injective(p, q);
    }
  }

  /** The length prefix is what makes it so: without it a leading zero byte is lost. */
  lemma PrefixIsNeeded(b: Byte)
    ensures Limbs([0, b]) == Limbs([b]) == [b as nat]
  {
    assert [0, b][..2] == [0, b] && [0, b][2..] == [] && [b][..1] == [b] && [b][1..] == [];
    assert [0, b][..1] == [0] && [0][..0] == [] && [b][..0] == [];
    assert Value([0]) == 0 && Value([b]) == b && Value([0, b]) == Value([0]) * 256 + b;
  }

  /** Every limb fits a felt: 31 bytes. */
  lemma {:induction false} LimbsFit(bytes: seq<Byte>)
    ensures forall limb :: limb in Limbs(bytes) ==> limb < Pow256(31)
    decreases |bytes|
  {
    if bytes != [] {
      var first := bytes[..Min(BYTES_PER_FELT, |bytes|)];
      ValueInRange(first);
      PowMonotone(256, |first|, BYTES_PER_FELT);
      LimbsFit(OtherBytes(bytes));
    }
  }

  // ---- the stretched key ----

  function Rounds(h: Poseidon, key: nat, salt: nat, n: nat): nat {
    if n == 0 then key else h([Rounds(h, key, salt, n - 1), salt])
  }

  function Kdf(h: Poseidon, passphrase: string, salt: nat): nat {
    Rounds(h, h(Packed(Utf8(passphrase)) + [salt]), salt, KDF_ROUNDS - 1)
  }

  /** The inputs the rounds hash. */
  function RoundInputs(h: Poseidon, key: nat, salt: nat, n: nat): set<seq<nat>> {
    if n == 0 then {} else {[Rounds(h, key, salt, n - 1), salt]} + RoundInputs(h, key, salt, n - 1)
  }

  function KdfInputs(h: Poseidon, passphrase: string, salt: nat): set<seq<nat>> {
    {Packed(Utf8(passphrase)) + [salt]} + RoundInputs(h, h(Packed(Utf8(passphrase)) + [salt]), salt, KDF_ROUNDS - 1)
  }

  ghost predicate Collide(h: Poseidon, a: set<seq<nat>>, b: set<seq<nat>>) {
    exists x, y :: x in a && y in b && x != y && h(x) == h(y)
  }

  lemma {:induction false} RoundsBind(h: Poseidon, key: nat, salt: nat, key': nat, salt': nat, n: nat)
    requires Rounds(h, key, salt, n) == Rounds(h, key', salt', n)
    ensures Collide(h, RoundInputs(h, key, salt, n), RoundInputs(h, key', salt', n))
            || (key == key' && (n > 0 ==> salt == salt'))
  {
    if n > 0 {
      var x, y := [Rounds(h, key, salt, n - 1), salt], [Rounds(h, key', salt', n - 1), salt'];
      assert x in RoundInputs(h, key, salt, n) && y in RoundInputs(h, key', salt', n);
      if x == y {
        assert x[0] == y[0] && x[1] == y[1];
        RoundsBind(h, key, salt, key', salt', n - 1);
        if Collide(h, RoundInputs(h, key, salt, n - 1), RoundInputs(h, key', salt', n - 1)) {
          var u, v :| u in RoundInputs(h, key, salt, n - 1) && v in RoundInputs(h, key', salt', n - 1)
                      && u != v && h(u) == h(v);
          assert u in RoundInputs(h, key, salt, n) && v in RoundInputs(h, key', salt', n);
        }
      }
    }
  }

  /** One stretched key for two pairs of passphrase and salt means a collision among the inputs hashed. */
  lemma KdfBinds(h: Poseidon, p: string, salt: nat, q: string, salt': nat)
    requires Kdf(h, p, salt) == Kdf(h, q, salt')
    ensures (p == q && salt == salt') || Collide(h, KdfInputs(h, p, salt), KdfInputs(h, q, salt'))
  {
    hide Packed, Rounds, RoundInputs;
    var x, y := Packed(Utf8(p)) + [salt], Packed(Utf8(q)) + [salt'];
    var n := KDF_ROUNDS - 1;
    RoundsBind(h, h(x), salt, h(y), salt', n);
    if Collide(h, RoundInputs(h, h(x), salt, n), RoundInputs(h, h(y), salt', n)) {
      var u, v :| u in RoundInputs(h, h(x), salt, n) && v in RoundInputs(h, h(y), salt', n) && u != v && h(u) == h(v);
      assert u in KdfInputs(h, p, salt) && v in KdfInputs(h, q, salt');
    } else {
      assert x in KdfInputs(h, p, salt) && y in KdfInputs(h, q, salt');
      KdfInputInjective(p, q, salt, salt');
    }
  }

  // ---- the canonical fold ----

  /** The fold for a curve of the given order. */
  function Folded(key: nat, order: nat): nat
    requires order > 0
  {
    var r := key % order;
    var scalar := if r >= order / 2 then order - r else r;
    if scalar == 0 || scalar >= order / 2 then 1 else scalar
  }

  function CanonicalViewingKey(key: nat): nat {
    Folded(key, CURVE_ORDER)
  }

  function DeriveViewingKey(h: Poseidon, passphrase: string, salt: nat): nat {
    CanonicalViewingKey(Kdf(h, passphrase, salt))
  }

  /** The residues the fold cannot keep: zero and the two next to the half-order. */
  predicate FallsBack(r: nat, order: nat) {
    r == 0 || r == order / 2 || r == order / 2 + 1
  }

  /**
   * The fold lands strictly between zero and the half-order, and is the key or its negation modulo an
   * odd order exactly when the key's residue is none of the three that fall back to one.
   */
  lemma FoldIsCanonical(key: nat, order: nat)
    requires order % 2 == 1 && order >= 5
    ensures 1 <= Folded(key, order) < order / 2
    ensures (Folded(key, order) == key % order || Folded(key, order) + key % order == order)
            <==> !FallsBack(key % order, order)
    ensures FallsBack(key % order, order) ==> Folded(key, order) == 1
  {
    ResidueFits(key, order);
  }

  lemma ResidueFits(key: nat, order: nat)
    requires order > 0
    ensures 0 <= key % order < order
  {
  }

  predicate FoldsToOne(r: nat, order: nat) {
    r == 1 || r == order - 1 || FallsBack(r, order)
  }

  /** Two keys fold alike exactly when they are equal or opposite modulo the order, or both fold to one. */
  lemma FoldMerges(k: nat, l: nat, order: nat)
    requires order % 2 == 1 && order >= 5
    ensures Folded(k, order) == Folded(l, order) <==>
            k % order == l % order || k % order + l % order == order
            || (FoldsToOne(k % order, order) && FoldsToOne(l % order, order))
  {
    ResidueFits(k, order);
    ResidueFits(l, order);
  }

  /** The curve order is odd, so the two lemmas above speak of the fold the client uses. */
  lemma CurveOrderIsOdd()
    ensures CURVE_ORDER % 2 == 1 && CURVE_ORDER >= 5
  {
  }

  // ---- deriveViewingKey and its provider ----

  method Derive(h: Poseidon, passphrase: string, salt: nat) returns (key: nat)
    ensures key == DeriveViewingKey(h, passphrase, salt)
    ensures var order := 0x800000000000010ffffffffffffffffb781126dcae7b2321e66a241adc64d2f;
            && key == Folded(Rounds(h, h(Packed(Utf8(passphrase)) + [salt]), salt, 999), order)
            && 1 <= key < order / 2
  {
    var felts := PassphraseToFelts(passphrase);
    var stretched := h(felts + [salt]);
    for round := 1 to KDF_ROUNDS
      invariant stretched == Rounds(h, h(Packed(Utf8(passphrase)) + [salt]), salt, round - 1)
    {
      stretched := h([stretched, salt]);
    }
    key := CanonicalViewingKey(stretched);
    CurveOrderIsOdd();
    FoldIsCanonical(stretched, CURVE_ORDER);
  }

  class PassphraseViewingKeyProvider {
    const poseidon: Poseidon
    const passphrase: string
    const salt: nat
    var cached: Option<nat>

    ghost predicate Valid()
      reads this
    {
      cached.Some? ==> cached.value == DeriveViewingKey(poseidon, passphrase, salt)
    }

    constructor (poseidon: Poseidon, passphrase: string, salt: nat)
      ensures this.poseidon == poseidon && this.passphrase == passphrase && this.salt == salt && cached == None
              && Valid()
    {
      this.poseidon, this.passphrase, this.salt, cached := poseidon, passphrase, salt, None;
    }

    /** Derived once, then remembered: every call gives the same key. */
    method GetViewingKey() returns (key: nat)
      requires Valid()
      modifies this
      ensures Valid() && key == DeriveViewingKey(poseidon, passphrase, salt) && cached == Some(key)
    {
      if cached == None {
        var derived := Derive(poseidon, passphrase, salt);
        cached := Some(derived);
      }
      key := cached.value;
    }
  }
}
