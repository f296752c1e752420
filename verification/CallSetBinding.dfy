/**
 * What the EIP-712 digests commit to. Keccak is not injective, so binding is stated by extraction:
 * two equal digests come from the same content, or the two computations hashed a pair of distinct
 * preimages with one hash. Numbers count as the 256-bit words they are written on, the account as
 * its low 128 bits.
 */
module CallSetBinding {
  import opened Arithmetic
  import opened Bytes
  import opened Eip712
  import opened CallSet712

  type Preimages = set<seq<Byte>>

  /** One preimage from each computation, different, with the same hash. */
  ghost predicate Collides(k: Keccak, ps: Preimages, qs: Preimages) {
    exists x, y :: x in ps && y in qs && x != y && k(x) == k(y)
  }

  datatype CallSet = CallSet(account: nat, calls: seq<CallFelts>, chainName: string, evmChainId: nat,
                             additionalData: seq<nat>)

  function Hash(k: Keccak, s: CallSet): nat {
    CallSetHash(k, s.account, s.calls, s.chainName, s.evmChainId, s.additionalData)
  }

  // ---- everything one digest computation hashes ----

  function CallsPreimages(k: Keccak, calls: seq<CallFelts>): Preimages {
    if calls == [] then {} else {CallPreimage(k, calls[0]), Words(calls[0].data)} + CallsPreimages(k, calls[1..])
  }

  function DomainPreimages(k: Keccak, d: Domain): Preimages {
    {DomainPreimage(k, d), Utf8(d.name), Utf8(d.version)}
  }

  function MessagePreimages(k: Keccak, d: Domain, structPreimage: seq<Byte>): Preimages {
    var message := MessagePreimage(KeccakInt(k, DomainPreimage(k, d)), KeccakInt(k, structPreimage));
    DomainPreimages(k, d) + {structPreimage, message}
  }

  function CallSetPreimages(k: Keccak, s: CallSet): Preimages {
    MessagePreimages(k, AccountDomain(s.account, s.chainName, s.evmChainId),
                     CallSetPreimage(k, s.calls, s.additionalData))
    + {Words(CallHashes(k, s.calls)), Words(s.additionalData)} + CallsPreimages(k, s.calls)
  }

  function OutsidePreimages(k: Keccak, d: Domain, o: OutsideExecution): Preimages {
    MessagePreimages(k, d, OutsidePreimage(k, o)) + {Words(CallHashes(k, o.calls))} + CallsPreimages(k, o.calls)
  }

  /** What a caller asks to have signed. */
  datatype Request = Request(account: nat, calls: seq<Call>, chainName: string, evmChainId: nat,
                             additionalData: seq<nat>)

  function DigestOf(k: Keccak, sel: SelectorHash, r: Request): nat {
    ComputeCallSet712Hash(k, sel, r.account, r.calls, r.chainName, r.evmChainId, r.additionalData)
  }

  function InFelts(sel: SelectorHash, r: Request): CallSet {
    CallSet(r.account, AllFelts(sel, r.calls), r.chainName, r.evmChainId, r.additionalData)
  }

  // ---- the content a digest can be bound to ----

  /** The same contract, entry point and calldata; absent calldata is empty calldata. */
  predicate SameAsked(sel: SelectorHash, c: Call, d: Call) {
    && SameWord(c.contractAddress, d.contractAddress) && SameWord(sel(c.entrypoint), sel(d.entrypoint))
    && Wrapped(if c.calldata.Some? then c.calldata.value else [])
       == Wrapped(if d.calldata.Some? then d.calldata.value else [])
  }

  predicate SameRequest(sel: SelectorHash, r: Request, q: Request) {
    && Low128(r.account) == Low128(q.account)
    && |r.calls| == |q.calls| && (forall i :: 0 <= i < |r.calls| ==> SameAsked(sel, r.calls[i], q.calls[i]))
    && r.chainName == q.chainName
    && SameWord(r.evmChainId, q.evmChainId)
    && Wrapped(r.additionalData) == Wrapped(q.additionalData)
  }

  predicate SameWord(u: nat, v: nat) {
    u % Pow256(32) == v % Pow256(32)
  }

  predicate SameCall(c: CallFelts, d: CallFelts) {
    SameWord(c.address, d.address) && SameWord(c.selector, d.selector) && Wrapped(c.data) == Wrapped(d.data)
  }

  predicate SameCalls(cs: seq<CallFelts>, ds: seq<CallFelts>) {
    |cs| == |ds| && forall i :: 0 <= i < |cs| ==> SameCall(cs[i], ds[i])
  }

  predicate SameDomain(c: Domain, d: Domain) {
    && c.name == d.name && c.version == d.version
    && SameWord(c.chainId, d.chainId) && SameWord(c.verifyingContract, d.verifyingContract)
  }

  predicate SameCallSet(s: CallSet, t: CallSet) {
    && Low128(s.account) == Low128(t.account)
    && SameCalls(s.calls, t.calls)
    && s.chainName == t.chainName
    && SameWord(s.evmChainId, t.evmChainId)
    && Wrapped(s.additionalData) == Wrapped(t.additionalData)
  }

  predicate SameOutsideExecution(o: OutsideExecution, p: OutsideExecution) {
    && SameCalls(o.calls, p.calls) && SameWord(o.caller, p.caller) && SameWord(o.nonce, p.nonce)
    && SameWord(o.executeAfter, p.executeAfter) && SameWord(o.executeBefore, p.executeBefore)
  }

  // ---- extraction ----

  lemma HashIsWord(k: Keccak, b: seq<Byte>)
    ensures KeccakInt(k, b) % Pow256(32) == KeccakInt(k, b)
  {
    ValueInRange(k(b));
    RemainderIsUnique(KeccakInt(k, b), Pow256(32), 0, KeccakInt(k, b));
  }

  /** Without a collision, the same hash means the same preimage. */
  lemma Extract(k: Keccak, ps: Preimages, qs: Preimages, x: seq<Byte>, y: seq<Byte>)
    requires x in ps && y in qs && SameWord(KeccakInt(k, x), KeccakInt(k, y)) && !Collides(k, ps, qs)
    ensures x == y
  {
    HashIsWord(k, x);
    HashIsWord(k, y);
    DigestWord(k, x);
    DigestWord(k, y);
  }

  lemma WordAt(us: seq<nat>, vs: seq<nat>, i: nat)
    requires Words(us) == Words(vs) && i < |us|
    ensures |us| == |vs| && SameWord(us[i], vs[i])
  {
    WordsEqual(us, vs);
    WrappedAt(us, i);
    WrappedAt(vs, i);
  }

  lemma {:induction false} WrappedAt(us: seq<nat>, i: nat)
    requires i < |us|
    ensures Wrapped(us)[i] == us[i] % Pow256(32)
  {
    if i > 0 { WrappedAt(us[1..], i - 1); }
  }

  lemma CallBinds(k: Keccak, ps: Preimages, qs: Preimages, c: CallFelts, d: CallFelts)
    requires {CallPreimage(k, c), Words(c.data)} <= ps && {CallPreimage(k, d), Words(d.data)} <= qs
    requires SameWord(HashCallStruct(k, c), HashCallStruct(k, d)) && !Collides(k, ps, qs)
    ensures SameCall(c, d)
  {
    Extract(k, ps, qs, CallPreimage(k, c), CallPreimage(k, d));
    var us := [KeccakType(k, CALL_TYPE), c.address, c.selector, KeccakFelts(k, c.data)];
    var vs := [KeccakType(k, CALL_TYPE), d.address, d.selector, KeccakFelts(k, d.data)];
    WordAt(us, vs, 1);
    WordAt(us, vs, 2);
    WordAt(us, vs, 3);
    Extract(k, ps, qs, Words(c.data), Words(d.data));
    WordsEqual(c.data, d.data);
  }

  lemma {:induction false} CallListBinds(k: Keccak, ps: Preimages, qs: Preimages, cs: seq<CallFelts>,
                                         ds: seq<CallFelts>)
    requires CallsPreimages(k, cs) <= ps && CallsPreimages(k, ds) <= qs && !Collides(k, ps, qs)
    requires Wrapped(CallHashes(k, cs)) == Wrapped(CallHashes(k, ds))
    ensures SameCalls(cs, ds)
  {
    assert |cs| == |ds|;
    if cs != [] {
      var us, vs := CallHashes(k, cs), CallHashes(k, ds);
      assert Wrapped(us)[0] == us[0] % Pow256(32) && Wrapped(vs)[0] == vs[0] % Pow256(32);
      assert Wrapped(us)[1..] == Wrapped(us[1..]) && Wrapped(vs)[1..] == Wrapped(vs[1..]);
      assert us[1..] == CallHashes(k, cs[1..]) && vs[1..] == CallHashes(k, ds[1..]);
      CallBinds(k, ps, qs, cs[0], ds[0]);
      CallListBinds(k, ps, qs, cs[1..], ds[1..]);
      assert forall i :: 0 < i < |cs| ==> cs[i] == cs[1..][i - 1] && ds[i] == ds[1..][i - 1];
    }
  }

  lemma CallArrayBinds(k: Keccak, ps: Preimages, qs: Preimages, cs: seq<CallFelts>, ds: seq<CallFelts>)
    requires CallsPreimages(k, cs) + {Words(CallHashes(k, cs))} <= ps
             && CallsPreimages(k, ds) + {Words(CallHashes(k, ds))} <= qs
    requires SameWord(HashCallArray(k, cs), HashCallArray(k, ds)) && !Collides(k, ps, qs)
    ensures SameCalls(cs, ds)
  {
    Extract(k, ps, qs, Words(CallHashes(k, cs)), Words(CallHashes(k, ds)));
    WordsEqual(CallHashes(k, cs), CallHashes(k, ds));
    CallListBinds(k, ps, qs, cs, ds);
  }

  lemma DomainBinds(k: Keccak, ps: Preimages, qs: Preimages, c: Domain, d: Domain)
    requires DomainPreimages(k, c) <= ps && DomainPreimages(k, d) <= qs && !Collides(k, ps, qs)
    requires DomainPreimage(k, c) == DomainPreimage(k, d)
    ensures SameDomain(c, d)
  {
    var us := [KeccakType(k, DOMAIN_TYPE), KeccakInt(k, Utf8(c.name)), KeccakInt(k, Utf8(c.version)), c.chainId,
               c.verifyingContract];
    var vs := [KeccakType(k, DOMAIN_TYPE), KeccakInt(k, Utf8(d.name)), KeccakInt(k, Utf8(d.version)), d.chainId,
               d.verifyingContract];
    WordAt(us, vs, 1);
    WordAt(us, vs, 2);
    WordAt(us, vs, 3);
    WordAt(us, vs, 4);
    Extract(k, ps, qs, Utf8(c.name), Utf8(d.name));
    Extract(k, ps, qs, Utf8(c.version), Utf8(d.version));
    Utf8Injective(c.name, d.name);
    Utf8Injective(c.version, d.version);
  }

  /** Two equal message digests over the same kind of struct share both struct preimages. */
  lemma MessageBinds(k: Keccak, ps: Preimages, qs: Preimages, c: Domain, x: seq<Byte>, d: Domain, y: seq<Byte>)
    requires MessagePreimages(k, c, x) <= ps && MessagePreimages(k, d, y) <= qs && !Collides(k, ps, qs)
    requires WrapEip712(k, KeccakInt(k, DomainPreimage(k, c)), KeccakInt(k, x))
          == WrapEip712(k, KeccakInt(k, DomainPreimage(k, d)), KeccakInt(k, y))
    ensures x == y && DomainPreimage(k, c) == DomainPreimage(k, d)
  {
    var cs, ds := KeccakInt(k, DomainPreimage(k, c)), KeccakInt(k, DomainPreimage(k, d));
    var xs, ys := KeccakInt(k, x), KeccakInt(k, y);
    var l, r := MessagePreimage(cs, xs), MessagePreimage(ds, ys);
    Extract(k, ps, qs, l, r);
    assert l[2..34] == BigEndian(cs, 32) && r[2..34] == BigEndian(ds, 32);
    assert l[34..] == BigEndian(xs, 32) && r[34..] == BigEndian(ys, 32);
    BigEndianEqual(cs, ds, 32);
    BigEndianEqual(xs, ys, 32);
    Extract(k, ps, qs, x, y);
    Extract(k, ps, qs, DomainPreimage(k, c), DomainPreimage(k, d));
  }

  /** An account's low 128 bits survive the 256-bit word they are written on. */
  lemma Low128IsWord(a: nat, b: nat)
    requires SameWord(Low128(a), Low128(b))
    ensures Low128(a) == Low128(b)
  {
    PowMonotone(256, 16, 32);
    RemainderIsUnique(Low128(a), Pow256(32), 0, Low128(a));
    RemainderIsUnique(Low128(b), Pow256(32), 0, Low128(b));
  }

  /** On felts. */
  lemma FeltsHashBinds(k: Keccak, s: CallSet, t: CallSet)
    requires Hash(k, s) == Hash(k, t)
    ensures SameCallSet(s, t) || Collides(k, CallSetPreimages(k, s), CallSetPreimages(k, t))
  {
    var ps, qs := CallSetPreimages(k, s), CallSetPreimages(k, t);
    if !Collides(k, ps, qs) {
      var c := AccountDomain(s.account, s.chainName, s.evmChainId);
      var d := AccountDomain(t.account, t.chainName, t.evmChainId);
      MessageBinds(k, ps, qs, c, CallSetPreimage(k, s.calls, s.additionalData), d,
                   CallSetPreimage(k, t.calls, t.additionalData));
      DomainBinds(k, ps, qs, c, d);
      Low128IsWord(s.account, t.account);
      var us := [KeccakType(k, CALL_SET_TYPE), HashCallArray(k, s.calls), KeccakFelts(k, s.additionalData)];
      var vs := [KeccakType(k, CALL_SET_TYPE), HashCallArray(k, t.calls), KeccakFelts(k, t.additionalData)];
      WordAt(us, vs, 1);
      WordAt(us, vs, 2);
      CallArrayBinds(k, ps, qs, s.calls, t.calls);
      Extract(k, ps, qs, Words(s.additionalData), Words(t.additionalData));
      WordsEqual(s.additionalData, t.additionalData);
    }
  }

  lemma SameRequestInFelts(sel: SelectorHash, r: Request, q: Request)
    ensures SameRequest(sel, r, q) <==> SameCallSet(InFelts(sel, r), InFelts(sel, q))
  {
    hide Wrapped, SameWord, Low128;
    if |r.calls| == |q.calls| {
      forall i | 0 <= i < |r.calls|
        ensures SameAsked(sel, r.calls[i], q.calls[i])
                <==> SameCall(AllFelts(sel, r.calls)[i], AllFelts(sel, q.calls)[i])
      {
        FeltsAre(sel, r.calls, i);
        FeltsAre(sel, q.calls, i);
      }
    }
  }

  /**
   * A `CallSet` digest binds the chain, the account's low 128 bits, every call in order with its
   * contract, entry point and calldata, and the additional data, up to an explicit collision between
   * the two computations.
   */
  lemma CallSetHashBinds(k: Keccak, sel: SelectorHash, r: Request, q: Request)
    requires DigestOf(k, sel, r) == DigestOf(k, sel, q)
    ensures SameRequest(sel, r, q)
            || Collides(k, CallSetPreimages(k, InFelts(sel, r)), CallSetPreimages(k, InFelts(sel, q)))
  {
    SameRequestInFelts(sel, r, q);
    FeltsHashBinds(k, InFelts(sel, r), InFelts(sel, q));
  }

  lemma OutsideExecutionHashBinds(k: Keccak, c: Domain, o: OutsideExecution, d: Domain, p: OutsideExecution)
    requires OutsideExecutionHash(k, c, o) == OutsideExecutionHash(k, d, p)
    ensures (SameDomain(c, d) && SameOutsideExecution(o, p))
            || Collides(k, OutsidePreimages(k, c, o), OutsidePreimages(k, d, p))
  {
    var ps, qs := OutsidePreimages(k, c, o), OutsidePreimages(k, d, p);
    if !Collides(k, ps, qs) {
      MessageBinds(k, ps, qs, c, OutsidePreimage(k, o), d, OutsidePreimage(k, p));
      DomainBinds(k, ps, qs, c, d);
      var us := [KeccakType(k, OUTSIDE_EXECUTION_TYPE), HashCallArray(k, o.calls), o.caller, o.nonce, o.executeAfter,
                 o.executeBefore];
      var vs := [KeccakType(k, OUTSIDE_EXECUTION_TYPE), HashCallArray(k, p.calls), p.caller, p.nonce, p.executeAfter,
                 p.executeBefore];
      WordAt(us, vs, 1);
      WordAt(us, vs, 2);
      WordAt(us, vs, 3);
      WordAt(us, vs, 4);
      WordAt(us, vs, 5);
      CallArrayBinds(k, ps, qs, o.calls, p.calls);
    }
  }

  /** A digest of one kind never equals a digest of the other without a collision. */
  lemma KindsDoNotCross(k: Keccak, s: CallSet, d: Domain, o: OutsideExecution)
    requires Hash(k, s) == OutsideExecutionHash(k, d, o)
    ensures Collides(k, CallSetPreimages(k, s), OutsidePreimages(k, d, o))
  {
    var ps, qs := CallSetPreimages(k, s), OutsidePreimages(k, d, o);
    if !Collides(k, ps, qs) {
      var c := AccountDomain(s.account, s.chainName, s.evmChainId);
      assert |CallSetPreimage(k, s.calls, s.additionalData)| == 96 && |OutsidePreimage(k, o)| == 192;
      MessageBinds(k, ps, qs, c, CallSetPreimage(k, s.calls, s.additionalData), d, OutsidePreimage(k, o));
    }
  }

  // ---- and nothing finer ----

  lemma {:induction false} SameCallsSameHashes(k: Keccak, cs: seq<CallFelts>, ds: seq<CallFelts>)
    requires SameCalls(cs, ds)
    ensures CallHashes(k, cs) == CallHashes(k, ds)
  {
    if cs != [] {
      var c, d := cs[0], ds[0];
      assert SameCall(c, d);
      WordsEqual(c.data, d.data);
      BigEndianEqual(c.address, d.address, 32);
      BigEndianEqual(c.selector, d.selector, 32);
      WordsOf4(KeccakType(k, CALL_TYPE), c.address, c.selector, KeccakFelts(k, c.data));
      WordsOf4(KeccakType(k, CALL_TYPE), d.address, d.selector, KeccakFelts(k, d.data));
      assert forall i :: 0 <= i < |cs[1..]| ==> SameCall(cs[1..][i], ds[1..][i]);
      SameCallsSameHashes(k, cs[1..], ds[1..]);
    }
  }

  lemma FeltsHashDependsOnly(k: Keccak, s: CallSet, t: CallSet)
    requires SameCallSet(s, t)
    ensures Hash(k, s) == Hash(k, t)
  {
    SameCallsSameHashes(k, s.calls, t.calls);
    WordsEqual(s.additionalData, t.additionalData);
    BigEndianEqual(s.evmChainId, t.evmChainId, 32);
    var c := AccountDomain(s.account, s.chainName, s.evmChainId);
    var d := AccountDomain(t.account, t.chainName, t.evmChainId);
    WordsOf5(KeccakType(k, DOMAIN_TYPE), KeccakInt(k, Utf8(c.name)), KeccakInt(k, Utf8(c.version)), c.chainId,
             c.verifyingContract);
    WordsOf5(KeccakType(k, DOMAIN_TYPE), KeccakInt(k, Utf8(d.name)), KeccakInt(k, Utf8(d.version)), d.chainId,
             d.verifyingContract);
    assert DomainPreimage(k, c) == DomainPreimage(k, d);
  }

  /** The digest depends on nothing but that content: the low 128 bits of the account, words for numbers. */
  lemma CallSetHashDependsOnly(k: Keccak, sel: SelectorHash, r: Request, q: Request)
    requires SameRequest(sel, r, q)
    ensures DigestOf(k, sel, r) == DigestOf(k, sel, q)
  {
    SameRequestInFelts(sel, r, q);
    FeltsHashDependsOnly(k, InFelts(sel, r), InFelts(sel, q));
  }
}
