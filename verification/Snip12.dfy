/**
 * The SNIP-12 `CallSet` hash, built from direct Poseidon calls: it is what a generic encoder computes
 * for the typed data, and what it commits to. Poseidon is uninterpreted; as for keccak, binding is
 * stated by extracting a pair of colliding preimages.
 */
module Snip12 {
  import opened Wrappers
  import opened Bytes
  import opened Eip712
  import opened CallSet712
  import opened Snip12Encoder

  type Inputs = set<seq<nat>>

  const STARKNET_DOMAIN_TYPE_HASH: nat := 0x1ff2f602e42168014d405a94f75e8a93d640751d71d16311266e140d8b0a210
  const CALL_TYPE_HASH: nat := 0x3635c7f2a7ba93844c0d064e18e487f35ab90f7c39d00f186a781fc3f0c2ca9
  const CALL_SET_TYPE_HASH: nat := 0x308b7462f924efba15fc992e6827eb3a748fcc79f091914156756437fa22909
  const CALL_SET_DOMAIN_VERSION: nat := 1
  const DOMAIN_REVISION: nat := 1

  /** `shortString.encodeShortString`: the ASCII bytes read as one number. */
  function ShortString(s: string): nat {
    Value(Utf8(s))
  }

  function CallInput(h: Poseidon, c: CallFelts): seq<nat> {
    [CALL_TYPE_HASH, c.address, c.selector, h(c.data)]
  }

  function CallHashes(h: Poseidon, calls: seq<CallFelts>): (hashes: seq<nat>)
    ensures |hashes| == |calls|
  {
    if calls == [] then [] else [h(CallInput(h, calls[0]))] + CallHashes(h, calls[1..])
  }

  function CallSetInput(h: Poseidon, calls: seq<CallFelts>, additionalData: seq<nat>): seq<nat> {
    [CALL_SET_TYPE_HASH, h(CallHashes(h, calls)), h(additionalData)]
  }

  function DomainInput(chainId: nat): seq<nat> {
    [STARKNET_DOMAIN_TYPE_HASH, ShortString("CallSet"), CALL_SET_DOMAIN_VERSION, chainId, DOMAIN_REVISION]
  }

  function MessageInput(h: Poseidon, account: nat, calls: seq<CallFelts>, chainId: nat,
                        additionalData: seq<nat>): seq<nat> {
    [ShortString("StarkNet Message"), h(DomainInput(chainId)), account, h(CallSetInput(h, calls, additionalData))]
  }

  /** `computeCallSetHash`. */
  function ComputeCallSetHash(
    h: Poseidon, sel: SelectorHash, account: nat, calls: seq<Call>, chainId: nat, additionalData: seq<nat>): nat
  {
    h(MessageInput(h, account, AllFelts(sel, calls), chainId, additionalData))
  }

  function CallsInputs(h: Poseidon, calls: seq<CallFelts>): Inputs {
    if calls == [] then {} else {CallInput(h, calls[0]), calls[0].data} + CallsInputs(h, calls[1..])
  }

  /** Everything one hash computation passes to Poseidon. */
  function AllInputs(h: Poseidon, account: nat, calls: seq<CallFelts>, chainId: nat, additionalData: seq<nat>): Inputs {
    {MessageInput(h, account, calls, chainId, additionalData), DomainInput(chainId),
     CallSetInput(h, calls, additionalData),
     CallHashes(h, calls), additionalData} + CallsInputs(h, calls)
  }

  ghost predicate Collides(h: Poseidon, ps: Inputs, qs: Inputs) {
    exists x, y :: x in ps && y in qs && x != y && h(x) == h(y)
  }

  lemma Extract(h: Poseidon, ps: Inputs, qs: Inputs, x: seq<nat>, y: seq<nat>)
    requires x in ps && y in qs && h(x) == h(y) && !Collides(h, ps, qs)
    ensures x == y
  {
  }

  lemma {:induction false} CallListBinds(h: Poseidon, ps: Inputs, qs: Inputs, cs: seq<CallFelts>, ds: seq<CallFelts>)
    requires CallsInputs(h, cs) <= ps && CallsInputs(h, ds) <= qs && !Collides(h, ps, qs)
    requires CallHashes(h, cs) == CallHashes(h, ds)
    ensures cs == ds
  {
    assert |cs| == |ds|;
    if cs != [] {
      var x, y := CallInput(h, cs[0]), CallInput(h, ds[0]);
      assert CallHashes(h, cs)[0] == h(x) && CallHashes(h, ds)[0] == h(y);
      Extract(h, ps, qs, x, y);
      assert x[1] == y[1] && x[2] == y[2] && x[3] == y[3];
      Extract(h, ps, qs, cs[0].data, ds[0].data);
      assert CallHashes(h, cs)[1..] == CallHashes(h, cs[1..]) && CallHashes(h, ds)[1..] == CallHashes(h, ds[1..]);
      CallListBinds(h, ps, qs, cs[1..], ds[1..]);
      assert cs == [cs[0]] + cs[1..] && ds == [ds[0]] + ds[1..];
    }
  }

  /** Two calls ask for the same: contract, entry point and calldata, absent calldata being empty. */
  predicate SameAsked(sel: SelectorHash, c: Call, d: Call) {
    && c.contractAddress == d.contractAddress && sel(c.entrypoint) == sel(d.entrypoint)
    && (if c.calldata.Some? then c.calldata.value else []) == (if d.calldata.Some? then d.calldata.value else [])
  }

  lemma SameFeltsSameAsked(sel: SelectorHash, calls: seq<Call>, calls': seq<Call>)
    requires AllFelts(sel, calls) == AllFelts(sel, calls')
    ensures |calls| == |calls'| && forall i :: 0 <= i < |calls| ==> SameAsked(sel, calls[i], calls'[i])
  {
    forall i | 0 <= i < |calls| ensures SameAsked(sel, calls[i], calls'[i]) {
      FeltsAre(sel, calls, i);
      FeltsAre(sel, calls', i);
    }
  }

  /** The hash binds account, chain, every call in order and the additional data, all exactly. */
  lemma CallSetHashBinds(
    h: Poseidon, sel: SelectorHash, account: nat, calls: seq<Call>, chainId: nat, additionalData: seq<nat>,
    account': nat, calls': seq<Call>, chainId': nat, additionalData': seq<nat>)
    requires ComputeCallSetHash(h, sel, account, calls, chainId, additionalData)
          == ComputeCallSetHash(h, sel, account', calls', chainId', additionalData')
    ensures (account == account' && chainId == chainId' && additionalData == additionalData'
             && |calls| == |calls'| && forall i :: 0 <= i < |calls| ==> SameAsked(sel, calls[i], calls'[i]))
         || Collides(h, AllInputs(h, account, AllFelts(sel, calls), chainId, additionalData),
                     AllInputs(h, account', AllFelts(sel, calls'), chainId', additionalData'))
  {
    var cs, ds := AllFelts(sel, calls), AllFelts(sel, calls');
    var ps, qs := AllInputs(h, account, cs, chainId, additionalData),
      AllInputs(h, account', ds, chainId', additionalData');
    if !Collides(h, ps, qs) {
      var x, y := MessageInput(h, account, cs, chainId, additionalData),
        MessageInput(h, account', ds, chainId', additionalData');
      Extract(h, ps, qs, x, y);
      assert x[1] == y[1] && x[2] == y[2] && x[3] == y[3];
      Extract(h, ps, qs, DomainInput(chainId), DomainInput(chainId'));
      assert DomainInput(chainId)[3] == DomainInput(chainId')[3];
      var s, t := CallSetInput(h, cs, additionalData), CallSetInput(h, ds, additionalData');
      Extract(h, ps, qs, s, t);
      assert s[1] == t[1] && s[2] == t[2];
      Extract(h, ps, qs, CallHashes(h, cs), CallHashes(h, ds));
      Extract(h, ps, qs, additionalData, additionalData');
      CallListBinds(h, ps, qs, cs, ds);
      SameFeltsSameAsked(sel, calls, calls');
    }
  }

  // ---- the typed data of a call set ----

  const DOMAIN_FIELDS := [Member("name", "shortstring"), Member("version", "shortstring"),
                          Member("chainId", "shortstring"), Member("revision", "shortstring")]

  const CALL_SET_TABLE: TypeTable := map[
    "StarknetDomain" := DOMAIN_FIELDS,
    "CallSet" := [Member("Calls", "Call*"), Member("AdditionalData", "felt*")],
    "Call" := [Member("To", "ContractAddress"), Member("Selector", "selector"), Member("Calldata", "felt*")]]

  /** The pinned type hashes, by name. */
  function TypeHash(name: string): nat {
    if name == "StarknetDomain" then 0x1ff2f602e42168014d405a94f75e8a93d640751d71d16311266e140d8b0a210
    else if name == "Call" then 0x3635c7f2a7ba93844c0d064e18e487f35ab90f7c39d00f186a781fc3f0c2ca9
    else if name == "CallSet" then 0x308b7462f924efba15fc992e6827eb3a748fcc79f091914156756437fa22909
    else 0
  }

  function Terms(felts: seq<nat>): seq<Term> {
    if felts == [] then [] else [Felt(felts[0])] + Terms(felts[1..])
  }

  /** A call by the name of its entry point, absent calldata as none. */
  function CallTerm(call: Call): Term {
    Object(map["To" := Felt(call.contractAddress), "Selector" := Text(call.entrypoint),
               "Calldata" := List(Terms(if call.calldata.Some? then call.calldata.value else []))])
  }

  function CallTerms(calls: seq<Call>): seq<Term> {
    if calls == [] then [] else [CallTerm(calls[0])] + CallTerms(calls[1..])
  }

  /** The domain carries its version as a number, not as the text '1', which is what the pool verifies. */
  function DomainTerm(chainId: nat): Term {
    Object(map["name" := Text("CallSet"), "version" := Felt(1), "chainId" := Felt(chainId), "revision" := Felt(1)])
  }

  function CallSetTerm(calls: seq<Call>, additionalData: seq<nat>): Term {
    Object(map["Calls" := List(CallTerms(calls)), "AdditionalData" := List(Terms(additionalData))])
  }

  function CallSetMessage(calls: seq<Call>, chainId: nat, additionalData: seq<nat>): Message {
    Message(CALL_SET_TABLE, TypeHash, "CallSet", DomainTerm(chainId), CallSetTerm(calls, additionalData))
  }

  // ---- the generic encoder computes the hand-written hash ----

  /** ASCII text is the same number read byte by byte. */
  lemma {:induction false} ShortTextIsValue(s: string)
    requires IsAscii(s)
    ensures ShortText(s) == Some(ShortString(s)) && |Utf8(s)| == |s|
  {
    if s != "" {
      var front := s[..|s| - 1];
      ShortTextIsValue(front);
      Utf8Snoc(front, s[|s| - 1]);
      assert s == front + [s[|s| - 1]];
      assert Utf8(s)[..|s| - 1] == Utf8(front);
    }
  }

  lemma {:induction false} Utf8Snoc(s: string, c: char)
    ensures Utf8(s + [c]) == Utf8(s) + Utf8Char(c)
  {
    if s == "" {
      assert s + [c] == [c] && [c][1..] == "";
    } else {
      assert (s + [c])[1..] == s[1..] + [c];
      Utf8Snoc(s[1..], c);
    }
  }

  predicate IsAtomKind(kind: string) {
    kind !in CALL_SET_TABLE && !IsListKind(kind)
  }

  lemma {:induction false} TermsEncode(h: Poseidon, sel: EntryPoint, m: Message, kind: string, felts: seq<nat>)
    requires m.types == CALL_SET_TABLE && IsAtomKind(kind)
    ensures EncodeTerms(h, sel, m, kind, Terms(felts)) == Some(felts)
  {
    if felts != [] {
      TermsEncode(h, sel, m, kind, felts[1..]);
      assert Terms(felts)[1..] == Terms(felts[1..]);
      assert [felts[0]] + felts[1..] == felts;
    }
  }

  /** A struct whose members encode to `felts`, one after the other. */
  lemma {:induction false} FieldsEncode(h: Poseidon, sel: EntryPoint, m: Message, members: seq<Member>, v: Term,
                                        felts: seq<nat>)
    requires v.Object? && |members| == |felts|
    requires forall i :: 0 <= i < |felts| ==> FieldIs(h, sel, m, members[i], v, felts[i])
    ensures EncodeFields(h, sel, m, members, v) == Some(felts)
  {
    if members != [] {
      assert FieldIs(h, sel, m, members[0], v, felts[0]);
      FieldsEncode(h, sel, m, members[1..], v, felts[1..]);
      assert felts == [felts[0]] + felts[1..];
    }
  }

  predicate FieldIs(h: Poseidon, sel: EntryPoint, m: Message, member: Member, v: Term, felt: nat) {
    v.Object? && member.name in v.fields && EncodeTerm(h, sel, m, member.kind, v.fields[member.name]) == Some(felt)
  }

  lemma ObjectEncodes(h: Poseidon, sel: EntryPoint, m: Message, name: string, members: seq<Member>, v: Term,
                      felts: seq<nat>)
    requires name in m.types && m.types[name] == members && v.Object? && |members| == |felts|
    requires forall i :: 0 <= i < |felts| ==> FieldIs(h, sel, m, members[i], v, felts[i])
    ensures HashObject(h, sel, m, name, v) == Some(h([m.typeHash(name)] + felts))
  {
    FieldsEncode(h, sel, m, members, v, felts);
  }

  lemma FeltListEncodes(h: Poseidon, sel: EntryPoint, m: Message, felts: seq<nat>)
    requires m.types == CALL_SET_TABLE
    ensures EncodeTerm(h, sel, m, "felt*", List(Terms(felts))) == Some(h(felts))
  {
    assert "felt*"[..|"felt*"| - 1] == "felt";
    TermsEncode(h, sel, m, "felt", felts);
  }

  lemma CallTermEncodes(h: Poseidon, sel: SelectorHash, m: Message, call: Call)
    requires m.types == CALL_SET_TABLE && m.typeHash == TypeHash
    ensures EncodeTerm(h, sel, m, "Call", CallTerm(call)) == Some(h(CallInput(h, Felts(sel, call))))
  {
    var v, data := CallTerm(call), if call.calldata.Some? then call.calldata.value else [];
    FeltListEncodes(h, sel, m, data);
    var felts := [call.contractAddress, sel(call.entrypoint), h(data)];
    assert FieldIs(h, sel, m, Member("To", "ContractAddress"), v, felts[0]);
    assert FieldIs(h, sel, m, Member("Selector", "selector"), v, felts[1]);
    assert FieldIs(h, sel, m, Member("Calldata", "felt*"), v, felts[2]);
    hide FieldIs, CallTerm;
    ObjectEncodes(h, sel, m, "Call", CALL_SET_TABLE["Call"], v, felts);
    assert [TypeHash("Call")] + felts == CallInput(h, Felts(sel, call));
  }

  lemma {:induction false} CallTermsEncode(h: Poseidon, sel: SelectorHash, m: Message, calls: seq<Call>)
    requires m.types == CALL_SET_TABLE && m.typeHash == TypeHash
    ensures EncodeTerms(h, sel, m, "Call", CallTerms(calls)) == Some(CallHashes(h, AllFelts(sel, calls)))
  {
    if calls != [] {
      CallTermEncodes(h, sel, m, calls[0]);
      CallTermsEncode(h, sel, m, calls[1..]);
      assert CallTerms(calls)[1..] == CallTerms(calls[1..]);
      assert AllFelts(sel, calls)[1..] == AllFelts(sel, calls[1..]);
    }
  }

  /** A short text kind takes a text, or a number as it is. */
  lemma TextFieldIs(h: Poseidon, sel: EntryPoint, m: Message, name: string, v: Term, text: string, felt: nat)
    requires m.types == CALL_SET_TABLE && v.Object? && name in v.fields && v.fields[name] == Text(text)
    requires ShortText(text) == Some(felt)
    ensures FieldIs(h, sel, m, Member(name, "shortstring"), v, felt)
  {
    hide ShortText;
  }

  lemma NumberFieldIs(h: Poseidon, sel: EntryPoint, m: Message, name: string, v: Term, felt: nat)
    requires m.types == CALL_SET_TABLE && v.Object? && name in v.fields && v.fields[name] == Felt(felt)
    ensures FieldIs(h, sel, m, Member(name, "shortstring"), v, felt)
  {
  }

  predicate IsAscii(s: string) {
    forall i :: 0 <= i < |s| ==> s[i] as int < 128
  }

  lemma NameIsAscii()
    ensures ShortText("CallSet") == Some(ShortString("CallSet"))
  {
    hide ShortText, ShortString;
    assert IsAscii("CallSet");
    ShortTextIsValue("CallSet");
  }

  lemma DomainTermEncodes(h: Poseidon, sel: SelectorHash, m: Message, chainId: nat)
    requires m.types == CALL_SET_TABLE && m.typeHash == TypeHash
    ensures HashObject(h, sel, m, "StarknetDomain", DomainTerm(chainId)) == Some(h(DomainInput(chainId)))
  {
    var v := DomainTerm(chainId);
    var felts := [ShortString("CallSet"), 1, chainId, 1];
    DomainFields(h, sel, m, chainId);
    hide ShortString, ShortText, FieldIs, EncodeTerm, DomainTerm;
    FourFieldsEncode(h, sel, m, v, felts);
    assert [TypeHash("StarknetDomain")] + felts == DomainInput(chainId);
  }

  lemma DomainFields(h: Poseidon, sel: SelectorHash, m: Message, chainId: nat)
    requires m.types == CALL_SET_TABLE
    ensures var v := DomainTerm(chainId);
            && FieldIs(h, sel, m, Member("name", "shortstring"), v, ShortString("CallSet"))
            && FieldIs(h, sel, m, Member("version", "shortstring"), v, 1)
            && FieldIs(h, sel, m, Member("chainId", "shortstring"), v, chainId)
            && FieldIs(h, sel, m, Member("revision", "shortstring"), v, 1)
  {
    var v := DomainTerm(chainId);
    NameIsAscii();
    hide ShortString, ShortText, FieldIs, EncodeTerm;
    TextFieldIs(h, sel, m, "name", v, "CallSet", ShortString("CallSet"));
    NumberFieldIs(h, sel, m, "version", v, 1);
    NumberFieldIs(h, sel, m, "chainId", v, chainId);
    NumberFieldIs(h, sel, m, "revision", v, 1);
  }

  lemma FourFieldsEncode(h: Poseidon, sel: EntryPoint, m: Message, v: Term, felts: seq<nat>)
    requires m.types == CALL_SET_TABLE && v.Object? && |felts| == 4
    requires FieldIs(h, sel, m, Member("name", "shortstring"), v, felts[0])
    requires FieldIs(h, sel, m, Member("version", "shortstring"), v, felts[1])
    requires FieldIs(h, sel, m, Member("chainId", "shortstring"), v, felts[2])
    requires FieldIs(h, sel, m, Member("revision", "shortstring"), v, felts[3])
    ensures HashObject(h, sel, m, "StarknetDomain", v) == Some(h([m.typeHash("StarknetDomain")] + felts))
  {
    hide FieldIs, EncodeTerm;
    ObjectEncodes(h, sel, m, "StarknetDomain", DOMAIN_FIELDS, v, felts);
  }

  lemma CallSetTermEncodes(h: Poseidon, sel: SelectorHash, m: Message, calls: seq<Call>, additionalData: seq<nat>)
    requires m.types == CALL_SET_TABLE && m.typeHash == TypeHash
    ensures HashObject(h, sel, m, "CallSet", CallSetTerm(calls, additionalData))
            == Some(h(CallSetInput(h, AllFelts(sel, calls), additionalData)))
  {
    var v, hashes := CallSetTerm(calls, additionalData), CallHashes(h, AllFelts(sel, calls));
    FeltListEncodes(h, sel, m, additionalData);
    CallTermsEncode(h, sel, m, calls);
    assert "Call*"[..|"Call*"| - 1] == "Call";
    var felts := [h(hashes), h(additionalData)];
    hide CallTerms, Terms, CallHashes, AllFelts;
    assert FieldIs(h, sel, m, Member("Calls", "Call*"), v, felts[0]);
    assert FieldIs(h, sel, m, Member("AdditionalData", "felt*"), v, felts[1]);
    hide FieldIs, CallSetTerm;
    ObjectEncodes(h, sel, m, "CallSet", CALL_SET_TABLE["CallSet"], v, felts);
    assert [TypeHash("CallSet")] + felts == CallSetInput(h, AllFelts(sel, calls), additionalData);
  }

  lemma PrefixIsAscii()
    ensures ShortText("StarkNet Message") == Some(ShortString("StarkNet Message"))
  {
    hide ShortText, ShortString;
    assert IsAscii("StarkNet Message");
    ShortTextIsValue("StarkNet Message");
  }

  /** For all calls, data, chains and accounts, the encoder's hash is the hand-written one. */
  lemma EncoderAgrees(h: Poseidon, sel: SelectorHash, account: nat, calls: seq<Call>, chainId: nat,
                      additionalData: seq<nat>)
    ensures MessageHash(h, sel, account, CallSetMessage(calls, chainId, additionalData))
            == Some(ComputeCallSetHash(h, sel, account, calls, chainId, additionalData))
  {
    var m := CallSetMessage(calls, chainId, additionalData);
    var domain, body := DomainInput(chainId), CallSetInput(h, AllFelts(sel, calls), additionalData);
    DomainTermEncodes(h, sel, m, chainId);
    CallSetTermEncodes(h, sel, m, calls, additionalData);
    PrefixIsAscii();
    hide ShortText, ShortString, HashObject, DomainTerm, CallSetTerm, DomainInput, CallSetInput, AllFelts, MessageHash;
    MessageJoins(h, sel, account, m, ShortString("StarkNet Message"), h(domain), h(body));
  }

  lemma MessageJoins(h: Poseidon, sel: EntryPoint, account: nat, m: Message, prefix: nat, domain: nat, body: nat)
    requires ShortText("StarkNet Message") == Some(prefix)
    requires HashObject(h, sel, m, "StarknetDomain", m.domain) == Some(domain)
    requires HashObject(h, sel, m, m.primaryType, m.body) == Some(body)
    ensures MessageHash(h, sel, account, m) == Some(h([prefix, domain, account, body]))
  {
    hide ShortText, HashObject;
  }
}
