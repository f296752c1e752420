/**
 * The hand-written EIP-712 hashers for `CallSet` and `OutsideExecution`, the typed data the same
 * file hands to a wallet, and the proof that a generic wallet encoder run on that typed data
 * computes the hand-written digest.
 */
module CallSet712 {
  import opened Wrappers
  import opened Arithmetic
  import opened Bytes
  import opened Numerals
  import opened Eip712

  /** Starknet's entry-point hash, uninterpreted like keccak. */
  type SelectorHash = string -> nat

  datatype Call = Call(contractAddress: nat, entrypoint: string, calldata: Option<seq<nat>>)

  /** A call with its selector already hashed, as an `OutsideExecution` carries it. */
  datatype CallFelts = CallFelts(address: nat, selector: nat, data: seq<nat>)

  function Felts(sel: SelectorHash, call: Call): CallFelts {
    CallFelts(call.contractAddress, sel(call.entrypoint), if call.calldata.Some? then call.calldata.value else [])
  }

  function AllFelts(sel: SelectorHash, calls: seq<Call>): (felts: seq<CallFelts>)
    ensures |felts| == |calls|
  {
    if calls == [] then [] else [Felts(sel, calls[0])] + AllFelts(sel, calls[1..])
  }

  /** `account & MASK_128`. */
  function Low128(account: nat): nat {
    account % Pow256(16)
  }

  // The encodeType strings, split at their commas.
  const DOMAIN_LIST := "string name," + ("string version," + ("uint256 chainId," + "address verifyingContract"))
  const CALL_LIST := "uint256 address," + ("uint256 selector," + "uint256[] data")
  const CALL_SET_LIST := "Call[] calls," + "uint256[] additional_data"
  const OUTSIDE_EXECUTION_LIST :=
    "Call[] calls," + ("uint256 caller," + ("uint256 nonce," + ("uint256 execute_after," + "uint256 execute_before")))
  const DOMAIN_TYPE := "EIP712Domain" + "(" + DOMAIN_LIST + ")"
  const CALL_TYPE := "Call" + "(" + CALL_LIST + ")"
  const CALL_SET_TYPE := "CallSet" + "(" + CALL_SET_LIST + ")" + CALL_TYPE
  const OUTSIDE_EXECUTION_TYPE := "OutsideExecution" + "(" + OUTSIDE_EXECUTION_LIST + ")" + CALL_TYPE
  const DOMAIN_VERSION := "2"

  // ---- the hand-written hashers ----

  function KeccakInt(k: Keccak, b: seq<Byte>): nat {
    Value(k(b))
  }

  function KeccakFelts(k: Keccak, vals: seq<nat>): nat {
    KeccakInt(k, Words(vals))
  }

  function KeccakType(k: Keccak, encodeType: string): nat {
    KeccakInt(k, Utf8(encodeType))
  }

  /** The bytes hashed for one call. */
  function CallPreimage(k: Keccak, c: CallFelts): seq<Byte> {
    Words([KeccakType(k, CALL_TYPE), c.address, c.selector, KeccakFelts(k, c.data)])
  }

  function HashCallStruct(k: Keccak, c: CallFelts): nat {
    KeccakInt(k, CallPreimage(k, c))
  }

  function CallHashes(k: Keccak, calls: seq<CallFelts>): (hashes: seq<nat>)
    ensures |hashes| == |calls|
  {
    if calls == [] then [] else [HashCallStruct(k, calls[0])] + CallHashes(k, calls[1..])
  }

  function HashCallArray(k: Keccak, calls: seq<CallFelts>): nat {
    KeccakFelts(k, CallHashes(k, calls))
  }

  function CallSetPreimage(k: Keccak, calls: seq<CallFelts>, additionalData: seq<nat>): seq<Byte> {
    Words([KeccakType(k, CALL_SET_TYPE), HashCallArray(k, calls), KeccakFelts(k, additionalData)])
  }

  datatype Domain = Domain(name: string, version: string, chainId: nat, verifyingContract: nat)

  function DomainPreimage(k: Keccak, d: Domain): seq<Byte> {
    Words([KeccakType(k, DOMAIN_TYPE), KeccakInt(k, Utf8(d.name)), KeccakInt(k, Utf8(d.version)), d.chainId,
           d.verifyingContract])
  }

  function MessagePreimage(domainSeparator: nat, structHash: nat): seq<Byte> {
    [0x19, 0x01] + BigEndian(domainSeparator, 32) + BigEndian(structHash, 32)
  }

  function WrapEip712(k: Keccak, domainSeparator: nat, structHash: nat): nat {
    KeccakInt(k, MessagePreimage(domainSeparator, structHash))
  }

  function AccountDomain(account: nat, chainName: string, evmChainId: nat): Domain {
    Domain(chainName, DOMAIN_VERSION, evmChainId, Low128(account))
  }

  /** The digest of a call set whose calls are already felts. */
  function CallSetHash(
    k: Keccak, account: nat, calls: seq<CallFelts>, chainName: string, evmChainId: nat, additionalData: seq<nat>): nat
  {
    WrapEip712(k, KeccakInt(k, DomainPreimage(k, AccountDomain(account, chainName, evmChainId))),
      KeccakInt(k, CallSetPreimage(k, calls, additionalData)))
  }

  /** `computeCallSet712Hash`. */
  function ComputeCallSet712Hash(
    k: Keccak, sel: SelectorHash, account: nat, calls: seq<Call>, chainName: string, evmChainId: nat,
    additionalData: seq<nat>): nat
  {
    CallSetHash(k, account, AllFelts(sel, calls), chainName, evmChainId, additionalData)
  }

  datatype OutsideExecution =
    OutsideExecution(calls: seq<CallFelts>, caller: nat, nonce: nat, executeAfter: nat, executeBefore: nat)

  function OutsidePreimage(k: Keccak, o: OutsideExecution): seq<Byte> {
    Words([KeccakType(k, OUTSIDE_EXECUTION_TYPE), HashCallArray(k, o.calls), o.caller, o.nonce, o.executeAfter,
           o.executeBefore])
  }

  /** `computeOutsideExecution712Hash`. */
  function OutsideExecutionHash(k: Keccak, domain: Domain, o: OutsideExecution): nat {
    WrapEip712(k, KeccakInt(k, DomainPreimage(k, domain)), KeccakInt(k, OutsidePreimage(k, o)))
  }

  // ---- the typed data handed to a wallet ----

  const DOMAIN_MEMBERS := [
    Member("name", "string"), Member("version", "string"), Member("chainId", "uint256"),
      Member("verifyingContract", "address")]
  const CALL_MEMBERS := [Member("address", "uint256"), Member("selector", "uint256"), Member("data", "uint256[]")]
  const CALL_SET_MEMBERS := [Member("calls", "Call[]"), Member("additional_data", "uint256[]")]
  const OUTSIDE_EXECUTION_MEMBERS := [
    Member("calls", "Call[]"), Member("caller", "uint256"), Member("nonce", "uint256"),
    Member("execute_after", "uint256"), Member("execute_before", "uint256")]

  const CALL_SET_TYPES: TypeTable :=
    map["EIP712Domain" := DOMAIN_MEMBERS, "CallSet" := CALL_SET_MEMBERS, "Call" := CALL_MEMBERS]
  const OUTSIDE_EXECUTION_TYPES: TypeTable :=
    map["EIP712Domain" := DOMAIN_MEMBERS, "OutsideExecution" := OUTSIDE_EXECUTION_MEMBERS, "Call" := CALL_MEMBERS]

  function HexFelt(v: nat): Json {
    Str(ToHex(v))
  }

  function HexFelts(vs: seq<nat>): (items: seq<Json>)
    ensures |items| == |vs|
  {
    if vs == [] then [] else [HexFelt(vs[0])] + HexFelts(vs[1..])
  }

  function CallJson(c: CallFelts): Json {
    Obj(map["address" := HexFelt(c.address), "selector" := HexFelt(c.selector), "data" := Arr(HexFelts(c.data))])
  }

  function CallItems(calls: seq<CallFelts>): (items: seq<Json>)
    ensures |items| == |calls|
  {
    if calls == [] then [] else [CallJson(calls[0])] + CallItems(calls[1..])
  }

  function DomainJson(d: Domain): Json {
    Obj(map["name" := Str(d.name), "version" := Str(d.version),
            "chainId" := HexFelt(d.chainId), "verifyingContract" := HexFelt(d.verifyingContract)])
  }

  /** `callSetTypedData`. */
  function CallSetTypedData(
    sel: SelectorHash, account: nat, calls: seq<Call>, chainName: string, evmChainId: nat,
    additionalData: seq<nat>): TypedData
  {
    TypedData(CALL_SET_TYPES, "CallSet", DomainJson(AccountDomain(account, chainName, evmChainId)),
      Obj(map["calls" := Arr(CallItems(AllFelts(sel, calls))), "additional_data" := Arr(HexFelts(additionalData))]))
  }

  /** The typed data of an `OutsideExecution` under any domain, as a paymaster may hand it over. */
  function OutsideExecutionData(d: Domain, o: OutsideExecution): TypedData {
    TypedData(OUTSIDE_EXECUTION_TYPES, "OutsideExecution", DomainJson(d),
      Obj(map["calls" := Arr(CallItems(o.calls)), "caller" := HexFelt(o.caller), "nonce" := HexFelt(o.nonce),
              "execute_after" := HexFelt(o.executeAfter), "execute_before" := HexFelt(o.executeBefore)]))
  }

  /** `outsideExecutionTypedData`. */
  function OutsideExecutionTypedData(account: nat, chainName: string, evmChainId: nat, o: OutsideExecution): TypedData {
    OutsideExecutionData(AccountDomain(account, chainName, evmChainId), o)
  }

  // ---- what a wallet accepts ----

  predicate Fits(v: nat) {
    v < Pow256(32)
  }

  /** An address kind holds 160 bits. */
  predicate FitsAddress(v: nat) {
    v < Pow256(20)
  }

  predicate DomainFits(d: Domain) {
    Fits(d.chainId) && FitsAddress(d.verifyingContract)
  }

  predicate AllFit(vs: seq<nat>) {
    forall i :: 0 <= i < |vs| ==> Fits(vs[i])
  }

  predicate CallFits(c: CallFelts) {
    Fits(c.address) && Fits(c.selector) && AllFit(c.data)
  }

  predicate CallsFit(calls: seq<CallFelts>) {
    forall i :: 0 <= i < |calls| ==> CallFits(calls[i])
  }

  // ---- the type strings ----

  lemma {:induction false} BareName(s: string)
    requires '[' !in s
    ensures BaseName(s) == s && BaseName(s + "[]") == s
  {
    if s != "" {
      BareName(s[1..]);
      assert (s + "[]")[1..] == s[1..] + "[]";
    }
  }

  /** No member refers to a struct of the table. */
  predicate Atomic(types: TypeTable, members: seq<Member>) {
    forall i :: 0 <= i < |members| ==> BaseName(members[i].kind) !in types
  }

  lemma {:induction false} AtomicReachesNothing(types: TypeTable, members: seq<Member>, seen: seq<string>)
    requires Atomic(types, members)
    ensures Reachable(types, Kinds(members), seen) == seen
  {
    if members != [] {
      assert Kinds(members)[1..] == Kinds(members[1..]);
      AtomicReachesNothing(types, members[1..], seen);
    }
  }

  lemma LeafStructType(types: TypeTable, name: string)
    requires name in types && BaseName(name) == name && Atomic(types, types[name])
    ensures EncodeType(types, name) == name + "(" + MemberList(types[name]) + ")"
  {
    AtomicReachesNothing(types, types[name], [name]);
    assert Kinds(types[name]) + [name][1..] == Kinds(types[name]) && [] + [name] == [name];
    assert Reachable(types, [name], []) == [name];
    assert Signatures(types, [name]) == name + "(" + MemberList(types[name]) + ")";
  }

  /** A struct whose first member refers to one leaf struct and whose others are atomic. */
  lemma ReferringStructType(types: TypeTable, name: string, leaf: string)
    requires name in types && BaseName(name) == name && leaf in types && leaf != name && Atomic(types, types[leaf])
    requires types[name] != [] && BaseName(types[name][0].kind) == leaf && Atomic(types, types[name][1..])
    ensures EncodeType(types, name) == name + "(" + MemberList(types[name]) + ")"
            + (leaf + "(" + MemberList(types[leaf]) + ")")
  {
    var others := Kinds(types[name][1..]);
    AtomicReachesNothing(types, types[name][1..], [name, leaf]);
    assert Kinds(types[name]) + [name][1..] == [types[name][0].kind] + others;
    assert [] + [name] == [name] && [name] + [leaf] == [name, leaf];
    LeafThenRest(types, types[leaf], others, [name, leaf]);
    assert Reachable(types, [types[name][0].kind] + others, [name]) == [name, leaf];
    assert Reachable(types, [name], []) == [name, leaf];
    assert Sorted([leaf]) == [leaf];
    assert Signatures(types, [leaf]) == leaf + "(" + MemberList(types[leaf]) + ")";
    assert [name] + [leaf] == [name, leaf] && [name, leaf][1..] == [leaf];
  }

  lemma {:induction false} LeafThenRest(types: TypeTable, members: seq<Member>, rest: seq<string>, seen: seq<string>)
    requires Atomic(types, members)
    ensures Reachable(types, Kinds(members) + rest, seen) == Reachable(types, rest, seen)
  {
    if members == [] {
      assert Kinds(members) + rest == rest;
    } else {
      assert (Kinds(members) + rest)[1..] == Kinds(members[1..]) + rest;
      LeafThenRest(types, members[1..], rest, seen);
    }
  }

  predicate HoldsSharedTypes(types: TypeTable) {
    && "EIP712Domain" in types && types["EIP712Domain"] == DOMAIN_MEMBERS
    && "Call" in types && types["Call"] == CALL_MEMBERS
    && Capitalised(types)
  }

  /** The structs of the table start with a capital letter, the atomic kinds with a small one. */
  predicate Capitalised(types: TypeTable) {
    forall t :: t in types ==> t != "" && t[0] < 'a'
  }

  predicate SmallKinds(members: seq<Member>) {
    forall i :: 0 <= i < |members| ==> members[i].kind != "" && members[i].kind[0] >= 'a'
  }

  lemma SmallKindsAreAtomic(types: TypeTable, members: seq<Member>)
    requires Capitalised(types) && SmallKinds(members)
    ensures Atomic(types, members)
  {
    forall i | 0 <= i < |members| ensures BaseName(members[i].kind) !in types {
      var kind := members[i].kind;
      assert BaseName(kind) == [kind[0]] + BaseName(kind[1..]);
    }
  }

  lemma CallNames()
    ensures BaseName("Call") == "Call" && BaseName("CallSet") == "CallSet"
  {
    BareName("Call");
    BareName("CallSet");
  }

  lemma DomainName()
    ensures BaseName("EIP712Domain") == "EIP712Domain"
  {
    BareName("EIP712Domain");
  }

  lemma OutsideExecutionName()
    ensures BaseName("OutsideExecution") == "OutsideExecution"
  {
    BareName("OutsideExecution");
  }

  lemma CallArrayName()
    ensures BaseName("Call[]") == "Call"
  {
    BareName("Call");
    assert "Call" + "[]" == "Call[]";
  }

  function Entry(m: Member): string {
    m.kind + " " + m.name
  }

  /** The entries from the i-th on, separated by commas. */
  function ListFrom(m: seq<Member>, i: nat): string
    requires i < |m|
    decreases |m| - i
  {
    if i + 1 == |m| then Entry(m[i]) else (Entry(m[i]) + ",") + ListFrom(m, i + 1)
  }

  lemma {:induction false} ListsInTurn(m: seq<Member>, i: nat)
    requires i < |m|
    ensures MemberList(m[i..]) == ListFrom(m, i)
    decreases |m| - i
  {
    if i + 1 < |m| {
      ListsInTurn(m, i + 1);
      assert m[i..][1..] == m[i + 1..];
    }
  }

  lemma Listed(m: seq<Member>)
    requires m != []
    ensures MemberList(m) == ListFrom(m, 0)
  {
    ListsInTurn(m, 0);
    assert m[0..] == m;
  }

  lemma DomainEntries()
    ensures Entry(DOMAIN_MEMBERS[0]) + "," == "string name,"
    ensures Entry(DOMAIN_MEMBERS[1]) + "," == "string version,"
    ensures Entry(DOMAIN_MEMBERS[2]) + "," == "uint256 chainId,"
    ensures Entry(DOMAIN_MEMBERS[3]) == "address verifyingContract"
  {
  }

  lemma CallEntries()
    ensures Entry(CALL_MEMBERS[0]) + "," == "uint256 address,"
    ensures Entry(CALL_MEMBERS[1]) + "," == "uint256 selector,"
    ensures Entry(CALL_MEMBERS[2]) == "uint256[] data"
  {
  }

  lemma CallSetEntries()
    ensures Entry(CALL_SET_MEMBERS[0]) + "," == "Call[] calls,"
    ensures Entry(CALL_SET_MEMBERS[1]) == "uint256[] additional_data"
  {
  }

  lemma OutsideExecutionEntries()
    ensures Entry(OUTSIDE_EXECUTION_MEMBERS[0]) + "," == "Call[] calls,"
    ensures Entry(OUTSIDE_EXECUTION_MEMBERS[1]) + "," == "uint256 caller,"
    ensures Entry(OUTSIDE_EXECUTION_MEMBERS[2]) + "," == "uint256 nonce,"
  {
  }

  lemma OutsideExecutionTimeEntries()
    ensures Entry(OUTSIDE_EXECUTION_MEMBERS[3]) + "," == "uint256 execute_after,"
    ensures Entry(OUTSIDE_EXECUTION_MEMBERS[4]) == "uint256 execute_before"
  {
  }

  lemma MembersListed()
    ensures MemberList(DOMAIN_MEMBERS) == DOMAIN_LIST
    ensures MemberList(CALL_MEMBERS) == CALL_LIST
    ensures MemberList(CALL_SET_MEMBERS) == CALL_SET_LIST
    ensures MemberList(OUTSIDE_EXECUTION_MEMBERS) == OUTSIDE_EXECUTION_LIST
  {
    DomainEntries();
    CallEntries();
    CallSetEntries();
    OutsideExecutionEntries();
    OutsideExecutionTimeEntries();
    Listed(DOMAIN_MEMBERS);
    Listed(CALL_MEMBERS);
    Listed(CALL_SET_MEMBERS);
    Listed(OUTSIDE_EXECUTION_MEMBERS);
  }

  lemma CallIsAtomic(types: TypeTable)
    requires HoldsSharedTypes(types)
    ensures Atomic(types, types["Call"]) && Atomic(types, types["EIP712Domain"])
  {
    assert SmallKinds(CALL_MEMBERS);
    assert SmallKinds(DOMAIN_MEMBERS);
    SmallKindsAreAtomic(types, CALL_MEMBERS);
    SmallKindsAreAtomic(types, DOMAIN_MEMBERS);
  }

  lemma LeafTypeStrings(types: TypeTable)
    requires HoldsSharedTypes(types)
    ensures EncodeType(types, "Call") == CALL_TYPE
    ensures EncodeType(types, "EIP712Domain") == DOMAIN_TYPE
  {
    CallNames();
    DomainName();
    CallIsAtomic(types);
    LeafStructType(types, "Call");
    LeafStructType(types, "EIP712Domain");
    MembersListed();
  }

  lemma TablesShareTypes()
    ensures HoldsSharedTypes(CALL_SET_TYPES)
    ensures HoldsSharedTypes(OUTSIDE_EXECUTION_TYPES)
  {
  }

  lemma OthersAreAtomic()
    ensures Atomic(CALL_SET_TYPES, CALL_SET_MEMBERS[1..])
    ensures Atomic(OUTSIDE_EXECUTION_TYPES, OUTSIDE_EXECUTION_MEMBERS[1..])
  {
    TablesShareTypes();
    assert SmallKinds(CALL_SET_MEMBERS[1..]);
    assert SmallKinds(OUTSIDE_EXECUTION_MEMBERS[1..]);
    SmallKindsAreAtomic(CALL_SET_TYPES, CALL_SET_MEMBERS[1..]);
    SmallKindsAreAtomic(OUTSIDE_EXECUTION_TYPES, OUTSIDE_EXECUTION_MEMBERS[1..]);
  }

  lemma CallSetTypeString()
    ensures EncodeType(CALL_SET_TYPES, "CallSet") == CALL_SET_TYPE
  {
    CallNames();
    CallArrayName();
    TablesShareTypes();
    CallIsAtomic(CALL_SET_TYPES);
    OthersAreAtomic();
    ReferringStructType(CALL_SET_TYPES, "CallSet", "Call");
    MembersListed();
  }

  lemma OutsideExecutionTypeString()
    ensures EncodeType(OUTSIDE_EXECUTION_TYPES, "OutsideExecution") == OUTSIDE_EXECUTION_TYPE
  {
    OutsideExecutionName();
    CallArrayName();
    TablesShareTypes();
    CallIsAtomic(OUTSIDE_EXECUTION_TYPES);
    OthersAreAtomic();
    ReferringStructType(OUTSIDE_EXECUTION_TYPES, "OutsideExecution", "Call");
    MembersListed();
  }

  // ---- the encoder's answer, member by member ----

  lemma AtomKinds(types: TypeTable)
    requires Capitalised(types)
    ensures !IsArrayKind("uint256") && !IsArrayKind("string") && !IsArrayKind("address")
    ensures "uint256" !in types && "string" !in types && "address" !in types
  {
  }

  lemma ArrayKinds()
    ensures IsArrayKind("uint256[]") && "uint256[]"[..7] == "uint256" && |"uint256[]"| == 9
    ensures IsArrayKind("Call[]") && "Call[]"[..4] == "Call" && |"Call[]"| == 6
    ensures !IsArrayKind("Call")
  {
  }

  /** A felt handed over in hex comes back as its word, unless it does not fit one. */
  lemma FeltEncodes(k: Keccak, types: TypeTable, v: nat)
    requires Capitalised(types)
    ensures EncodeValue(k, types, "uint256", HexFelt(v)) == if Fits(v) then Some(BigEndian(v, 32)) else None
  {
    AtomKinds(types);
    ParsesBack(v);
  }

  lemma TextEncodes(k: Keccak, types: TypeTable, text: string)
    requires Capitalised(types)
    ensures EncodeValue(k, types, "string", Str(text)) == Some(k(Utf8(text)))
  {
    AtomKinds(types);
  }

  lemma Low128Fits(account: nat)
    ensures FitsAddress(Low128(account))
  {
    PowMonotone(256, 16, 20);
  }

  lemma AddressEncodes(k: Keccak, types: TypeTable, address: nat)
    requires Capitalised(types)
    ensures EncodeValue(k, types, "address", HexFelt(address)) ==
            if FitsAddress(address) then Some(BigEndian(address, 32)) else None
  {
    AtomKinds(types);
    ParsesBack(address);
  }

  lemma {:induction false} FeltItemsEncode(k: Keccak, types: TypeTable, vs: seq<nat>)
    requires Capitalised(types)
    ensures EncodeItems(k, types, "uint256", HexFelts(vs)) == if AllFit(vs) then Some(Words(vs)) else None
  {
    hide EncodeValue, HexFelt, Fits, Capitalised;
    if vs != [] {
      FeltEncodes(k, types, vs[0]);
      FeltItemsEncode(k, types, vs[1..]);
      assert HexFelts(vs)[1..] == HexFelts(vs[1..]);
      assert AllFit(vs) <==> Fits(vs[0]) && AllFit(vs[1..]);
    }
  }

  lemma FeltArrayEncodes(k: Keccak, types: TypeTable, vs: seq<nat>)
    requires Capitalised(types)
    ensures EncodeValue(k, types, "uint256[]", Arr(HexFelts(vs))) == if AllFit(vs) then Some(k(Words(vs))) else None
  {
    ArrayKinds();
    FeltItemsEncode(k, types, vs);
  }

  /** Hashing a struct's number and writing the number as a word gives the digest back. */
  lemma DigestWord(k: Keccak, b: seq<Byte>)
    ensures BigEndian(KeccakInt(k, b), 32) == k(b)
  {
    WriteBack(k(b));
  }

  /** What one encoded member contributes. */
  function Joined(word: Option<Digest>, rest: Option<seq<Byte>>): Option<seq<Byte>> {
    if word.Some? && rest.Some? then Some(word.value + rest.value) else None
  }

  lemma WordsOf3(a: nat, b: nat, c: nat)
    ensures Words([a, b, c]) == BigEndian(a, 32) + (BigEndian(b, 32) + (BigEndian(c, 32) + []))
  {
    assert [a, b, c][1..] == [b, c] && [b, c][1..] == [c] && [c][1..] == [];
    assert Words([c]) == BigEndian(c, 32) + [];
    assert Words([b, c]) == BigEndian(b, 32) + Words([c]);
  }

  lemma WordsOf4(a: nat, b: nat, c: nat, d: nat)
    ensures Words([a, b, c, d]) == BigEndian(a, 32) + (BigEndian(b, 32) + (BigEndian(c, 32) + (BigEndian(d, 32) + [])))
  {
    assert [a, b, c, d][1..] == [b, c, d];
    WordsOf3(b, c, d);
  }

  lemma WordsOf5(a: nat, b: nat, c: nat, d: nat, e: nat)
    ensures Words([a, b, c, d, e]) ==
      BigEndian(a, 32) + (BigEndian(b, 32) + (BigEndian(c, 32) + (BigEndian(d, 32) + (BigEndian(e, 32) + []))))
  {
    assert [a, b, c, d, e][1..] == [b, c, d, e];
    WordsOf4(b, c, d, e);
  }

  lemma WordsOf6(a: nat, b: nat, c: nat, d: nat, e: nat, f: nat)
    ensures Words([a, b, c, d, e, f]) ==
      BigEndian(a, 32) + (BigEndian(b, 32) + (BigEndian(c, 32) +
      (BigEndian(d, 32) + (BigEndian(e, 32) + (BigEndian(f, 32) + [])))))
  {
    assert [a, b, c, d, e, f][1..] == [b, c, d, e, f];
    WordsOf5(b, c, d, e, f);
  }

  /** The word member `i` of the list contributes. */
  function MemberWord(k: Keccak, types: TypeTable, members: seq<Member>, i: nat, v: Json): Option<Digest>
    requires i < |members| && v.Obj?
  {
    if members[i].name in v.fields then EncodeValue(k, types, members[i].kind, v.fields[members[i].name]) else None
  }

  /** The words of the members from the i-th on, joined. */
  function WordsFrom(k: Keccak, types: TypeTable, m: seq<Member>, i: nat, v: Json): Option<seq<Byte>>
    requires i <= |m| && v.Obj?
    decreases |m| - i
  {
    if i == |m| then Some([]) else Joined(MemberWord(k, types, m, i, v), WordsFrom(k, types, m, i + 1, v))
  }

  lemma {:induction false} MembersEncodeInTurn(k: Keccak, types: TypeTable, m: seq<Member>, i: nat, v: Json)
    requires i <= |m| && v.Obj?
    ensures EncodeMembers(k, types, m[i..], v) == WordsFrom(k, types, m, i, v)
    decreases |m| - i
  {
    if i < |m| {
      MembersEncodeInTurn(k, types, m, i + 1, v);
      assert m[i..][1..] == m[i + 1..];
    }
  }

  lemma CallFieldWords(k: Keccak, types: TypeTable, c: CallFelts)
    requires HoldsSharedTypes(types)
    ensures MemberWord(k, types, CALL_MEMBERS, 0, CallJson(c)) ==
            if Fits(c.address) then Some(BigEndian(c.address, 32)) else None
    ensures MemberWord(k, types, CALL_MEMBERS, 1, CallJson(c)) ==
            if Fits(c.selector) then Some(BigEndian(c.selector, 32)) else None
    ensures MemberWord(k, types, CALL_MEMBERS, 2, CallJson(c)) ==
            if AllFit(c.data) then Some(k(Words(c.data))) else None
  {
    FeltEncodes(k, types, c.address);
    FeltEncodes(k, types, c.selector);
    FeltArrayEncodes(k, types, c.data);
  }

  lemma CallMembersEncode(k: Keccak, types: TypeTable, c: CallFelts)
    requires HoldsSharedTypes(types)
    ensures EncodeMembers(k, types, CALL_MEMBERS, CallJson(c)) ==
            if CallFits(c)
            then Some(BigEndian(c.address, 32) + (BigEndian(c.selector, 32) + (k(Words(c.data)) + [])))
            else None
  {
    CallFieldWords(k, types, c);
    MembersEncodeInTurn(k, types, CALL_MEMBERS, 0, CallJson(c));
    assert CALL_MEMBERS[0..] == CALL_MEMBERS;
  }

  lemma CallEncodes(k: Keccak, types: TypeTable, c: CallFelts)
    requires HoldsSharedTypes(types)
    ensures EncodeValue(k, types, "Call", CallJson(c)) == if CallFits(c) then Some(k(CallPreimage(k, c))) else None
  {
    ArrayKinds();
    LeafTypeStrings(types);
    CallMembersEncode(k, types, c);
    WordsOf4(KeccakType(k, CALL_TYPE), c.address, c.selector, KeccakFelts(k, c.data));
    DigestWord(k, Utf8(CALL_TYPE));
    DigestWord(k, Words(c.data));
  }

  lemma {:induction false} CallItemsEncode(k: Keccak, types: TypeTable, kind: string, calls: seq<CallFelts>,
                                           items: seq<Json>)
    requires |items| == |calls|
    requires forall i :: 0 <= i < |calls| ==>
               EncodeValue(k, types, kind, items[i]) ==
               if CallFits(calls[i]) then Some(k(CallPreimage(k, calls[i]))) else None
    ensures EncodeItems(k, types, kind, items) == if CallsFit(calls) then Some(Words(CallHashes(k, calls))) else None
  {
    if calls != [] {
      CallItemsEncode(k, types, kind, calls[1..], items[1..]);
      DigestWord(k, CallPreimage(k, calls[0]));
      assert CallHashes(k, calls)[1..] == CallHashes(k, calls[1..]);
      assert CallsFit(calls) <==> CallFits(calls[0]) && CallsFit(calls[1..]);
    }
  }

  lemma {:induction false} CallItemAt(calls: seq<CallFelts>, i: nat)
    requires i < |calls|
    ensures CallItems(calls)[i] == CallJson(calls[i])
  {
    if i > 0 { CallItemAt(calls[1..], i - 1); }
  }

  lemma CallArrayEncodes(k: Keccak, types: TypeTable, calls: seq<CallFelts>)
    requires HoldsSharedTypes(types)
    ensures EncodeValue(k, types, "Call[]", Arr(CallItems(calls))) ==
            if CallsFit(calls) then Some(k(Words(CallHashes(k, calls)))) else None
  {
    ArrayKinds();
    forall i | 0 <= i < |calls|
      ensures EncodeValue(k, types, "Call", CallItems(calls)[i]) ==
              if CallFits(calls[i]) then Some(k(CallPreimage(k, calls[i]))) else None
    {
      CallItemAt(calls, i);
      CallEncodes(k, types, calls[i]);
    }
    CallItemsEncode(k, types, "Call", calls, CallItems(calls));
  }

  lemma DomainTextWords(k: Keccak, types: TypeTable, d: Domain)
    requires HoldsSharedTypes(types)
    ensures MemberWord(k, types, DOMAIN_MEMBERS, 0, DomainJson(d)) == Some(k(Utf8(d.name)))
    ensures MemberWord(k, types, DOMAIN_MEMBERS, 1, DomainJson(d)) == Some(k(Utf8(d.version)))
  {
    TextEncodes(k, types, d.name);
    TextEncodes(k, types, d.version);
  }

  lemma DomainChainWord(k: Keccak, types: TypeTable, d: Domain)
    requires HoldsSharedTypes(types)
    ensures MemberWord(k, types, DOMAIN_MEMBERS, 2, DomainJson(d)) ==
            if Fits(d.chainId) then Some(BigEndian(d.chainId, 32)) else None
  {
    FeltEncodes(k, types, d.chainId);
  }

  lemma DomainContractWord(k: Keccak, types: TypeTable, d: Domain)
    requires HoldsSharedTypes(types)
    ensures MemberWord(k, types, DOMAIN_MEMBERS, 3, DomainJson(d)) ==
            if FitsAddress(d.verifyingContract) then Some(BigEndian(d.verifyingContract, 32)) else None
  {
    AddressEncodes(k, types, d.verifyingContract);
  }

  lemma DomainMembersEncode(k: Keccak, types: TypeTable, d: Domain)
    requires HoldsSharedTypes(types)
    ensures EncodeMembers(k, types, DOMAIN_MEMBERS, DomainJson(d)) ==
            if DomainFits(d)
            then Some(k(Utf8(d.name)) +
                      (k(Utf8(d.version)) + (BigEndian(d.chainId, 32) + (BigEndian(d.verifyingContract, 32) + []))))
            else None
  {
    DomainTextWords(k, types, d);
    DomainChainWord(k, types, d);
    DomainContractWord(k, types, d);
    MembersEncodeInTurn(k, types, DOMAIN_MEMBERS, 0, DomainJson(d));
    assert DOMAIN_MEMBERS[0..] == DOMAIN_MEMBERS;
  }

  lemma DomainEncodes(k: Keccak, types: TypeTable, d: Domain)
    requires HoldsSharedTypes(types)
    ensures HashStruct(k, types, "EIP712Domain", DomainJson(d)) ==
            if DomainFits(d) then Some(k(DomainPreimage(k, d))) else None
  {
    LeafTypeStrings(types);
    DomainMembersEncode(k, types, d);
    WordsOf5(KeccakType(k, DOMAIN_TYPE), KeccakInt(k, Utf8(d.name)), KeccakInt(k, Utf8(d.version)), d.chainId,
             d.verifyingContract);
    DigestWord(k, Utf8(DOMAIN_TYPE));
    DigestWord(k, Utf8(d.name));
    DigestWord(k, Utf8(d.version));
  }

  // ---- the wallet computes the hand-written digest ----

  predicate CallSetFits(calls: seq<CallFelts>, evmChainId: nat, additionalData: seq<nat>) {
    Fits(evmChainId) && CallsFit(calls) && AllFit(additionalData)
  }

  predicate OutsideExecutionFits(o: OutsideExecution) {
    CallsFit(o.calls) && Fits(o.caller) && Fits(o.nonce) && Fits(o.executeAfter) && Fits(o.executeBefore)
  }

  /** An account's own domain fits as soon as its chain id does. */
  lemma AccountDomainFits(account: nat, chainName: string, evmChainId: nat)
    ensures DomainFits(AccountDomain(account, chainName, evmChainId)) <==> Fits(evmChainId)
  {
    Low128Fits(account);
  }

  lemma CallSetWords(k: Keccak, calls: seq<CallFelts>, additionalData: seq<nat>, v: Json)
    requires v == Obj(map["calls" := Arr(CallItems(calls)), "additional_data" := Arr(HexFelts(additionalData))])
    ensures MemberWord(k, CALL_SET_TYPES, CALL_SET_MEMBERS, 0, v) ==
            if CallsFit(calls) then Some(k(Words(CallHashes(k, calls)))) else None
    ensures MemberWord(k, CALL_SET_TYPES, CALL_SET_MEMBERS, 1, v) ==
            if AllFit(additionalData) then Some(k(Words(additionalData))) else None
  {
    TablesShareTypes();
    CallArrayEncodes(k, CALL_SET_TYPES, calls);
    FeltArrayEncodes(k, CALL_SET_TYPES, additionalData);
  }

  lemma CallSetStructEncodes(k: Keccak, calls: seq<CallFelts>, additionalData: seq<nat>, v: Json)
    requires v == Obj(map["calls" := Arr(CallItems(calls)), "additional_data" := Arr(HexFelts(additionalData))])
    ensures HashStruct(k, CALL_SET_TYPES, "CallSet", v) ==
            if CallsFit(calls) && AllFit(additionalData)
            then Some(k(CallSetPreimage(k, calls, additionalData)))
            else None
  {
    CallSetWords(k, calls, additionalData, v);
    MembersEncodeInTurn(k, CALL_SET_TYPES, CALL_SET_MEMBERS, 0, v);
    assert CALL_SET_MEMBERS[0..] == CALL_SET_MEMBERS;
    CallSetTypeString();
    WordsOf3(KeccakType(k, CALL_SET_TYPE), HashCallArray(k, calls), KeccakFelts(k, additionalData));
    DigestWord(k, Utf8(CALL_SET_TYPE));
    DigestWord(k, Words(CallHashes(k, calls)));
    DigestWord(k, Words(additionalData));
  }

  /** The message digest, from the preimages of the two struct hashes. */
  lemma DigestJoins(k: Keccak, td: TypedData, domainFits: bool, x: seq<Byte>, messageFits: bool, y: seq<Byte>)
    requires HashStruct(k, td.types, "EIP712Domain", td.domain) == if domainFits then Some(k(x)) else None
    requires HashStruct(k, td.types, td.primaryType, td.message) == if messageFits then Some(k(y)) else None
    ensures var signed := WalletDigest(k, td);
            if domainFits && messageFits
            then signed.Some? && Value(signed.value) == WrapEip712(k, KeccakInt(k, x), KeccakInt(k, y))
            else signed.None?
  {
    DigestWord(k, x);
    DigestWord(k, y);
  }

  /** The felts of a call: its contract, the hash of its entry point, and its calldata, none when absent. */
  lemma {:induction false} FeltsAre(sel: SelectorHash, calls: seq<Call>, i: nat)
    requires i < |calls|
    ensures var felts, call := AllFelts(sel, calls)[i], calls[i];
            && felts.address == call.contractAddress && felts.selector == sel(call.entrypoint)
            && felts.data == if call.calldata.Some? then call.calldata.value else []
  {
    if i > 0 { FeltsAre(sel, calls[1..], i - 1); }
  }

  /** Everything a caller asks to have signed fits: the words of the calls, the data and the chain id. */
  predicate RequestFits(sel: SelectorHash, calls: seq<Call>, evmChainId: nat, additionalData: seq<nat>) {
    && Fits(evmChainId) && AllFit(additionalData)
    && forall i :: 0 <= i < |calls| ==>
         && Fits(calls[i].contractAddress) && Fits(sel(calls[i].entrypoint))
         && (calls[i].calldata.Some? ==> AllFit(calls[i].calldata.value))
  }

  lemma RequestFitsAsFelts(sel: SelectorHash, calls: seq<Call>, evmChainId: nat, additionalData: seq<nat>)
    ensures RequestFits(sel, calls, evmChainId, additionalData)
            <==> CallSetFits(AllFelts(sel, calls), evmChainId, additionalData)
  {
    hide Fits;
    forall i | 0 <= i < |calls| ensures CallFits(AllFelts(sel, calls)[i]) <==>
        && Fits(calls[i].contractAddress) && Fits(sel(calls[i].entrypoint))
        && (calls[i].calldata.Some? ==> AllFit(calls[i].calldata.value))
    {
      FeltsAre(sel, calls, i);
    }
  }

  /** An object of a wallet message spells out a call, each number in hex. */
  predicate SpellsCall(item: Json, sel: SelectorHash, call: Call) {
    && item.Obj? && item.fields.Keys == {"address", "selector", "data"}
    && item.fields["address"] == Str(ToHex(call.contractAddress))
    && item.fields["selector"] == Str(ToHex(sel(call.entrypoint)))
    && SpellsFelts(item.fields["data"], if call.calldata.Some? then call.calldata.value else [])
  }

  predicate SpellsFelts(v: Json, felts: seq<nat>) {
    v.Arr? && |v.items| == |felts| && forall i :: 0 <= i < |felts| ==> v.items[i] == Str(ToHex(felts[i]))
  }

  lemma {:induction false} FeltsSpelled(felts: seq<nat>)
    ensures SpellsFelts(Arr(HexFelts(felts)), felts)
  {
    if felts != [] { FeltsSpelled(felts[1..]); }
  }

  /** The typed data shows the wallet what was asked: every call in order, the data, the chain and the account. */
  lemma TypedDataShows(
    sel: SelectorHash, account: nat, calls: seq<Call>, chainName: string, evmChainId: nat, additionalData: seq<nat>)
    ensures var td := CallSetTypedData(sel, account, calls, chainName, evmChainId, additionalData);
            && td.primaryType == "CallSet"
            && td.message.Obj? && td.message.fields.Keys == {"calls", "additional_data"}
            && SpellsFelts(td.message.fields["additional_data"], additionalData)
            && var shown := td.message.fields["calls"];
               && shown.Arr? && |shown.items| == |calls|
               && forall i :: 0 <= i < |calls| ==> SpellsCall(shown.items[i], sel, calls[i])
    ensures CallSetTypedData(sel, account, calls, chainName, evmChainId, additionalData).domain
            == Obj(map["name" := Str(chainName), "version" := Str("2"), "chainId" := Str(ToHex(evmChainId)),
                       "verifyingContract" := Str(ToHex(account % 0x1_0000_0000_0000_0000_0000_0000_0000_0000))])
  {
    CallsShown(sel, calls);
    FeltsSpelled(additionalData);
    TwoToThe128();
    hide ToHex, SpellsCall, SpellsFelts, CallItems, HexFelts, AllFelts, Pow256;
  }

  lemma CallsShown(sel: SelectorHash, calls: seq<Call>)
    ensures forall i :: 0 <= i < |calls| ==> SpellsCall(CallItems(AllFelts(sel, calls))[i], sel, calls[i])
  {
    hide ToHex;
    forall i | 0 <= i < |calls| ensures SpellsCall(CallItems(AllFelts(sel, calls))[i], sel, calls[i]) {
      CallItemAt(AllFelts(sel, calls), i);
      FeltsAre(sel, calls, i);
      FeltsSpelled(AllFelts(sel, calls)[i].data);
    }
  }

  lemma TwoToThe128()
    ensures Pow256(16) == 0x1_0000_0000_0000_0000_0000_0000_0000_0000
  {
    PowAdd(256, 1, 1);
    PowAdd(256, 2, 2);
    PowAdd(256, 4, 4);
    PowAdd(256, 8, 8);
    assert Pow(256, 1) == 256 * Pow(256, 0);
  }

  /**
   * For every call set, a generic wallet encoder run on `callSetTypedData` signs exactly
   * `computeCallSet712Hash` when every number fits a 256-bit word, and refuses it otherwise.
   */
  lemma WalletSignsCallSetHash(
    k: Keccak, sel: SelectorHash, account: nat, calls: seq<Call>, chainName: string, evmChainId: nat,
    additionalData: seq<nat>)
    ensures var signed := WalletDigest(k, CallSetTypedData(sel, account, calls, chainName, evmChainId, additionalData));
            if RequestFits(sel, calls, evmChainId, additionalData)
            then signed.Some?
                 && Value(signed.value) == ComputeCallSet712Hash(k, sel, account, calls, chainName, evmChainId,
                                                                 additionalData)
            else signed.None?
  {
    var td := CallSetTypedData(sel, account, calls, chainName, evmChainId, additionalData);
    var felts, domain := AllFelts(sel, calls), AccountDomain(account, chainName, evmChainId);
    RequestFitsAsFelts(sel, calls, evmChainId, additionalData);
    hide RequestFits;
    AccountDomainFits(account, chainName, evmChainId);
    TablesShareTypes();
    DomainEncodes(k, CALL_SET_TYPES, domain);
    CallSetStructEncodes(k, felts, additionalData, td.message);
    DigestJoins(k, td, Fits(evmChainId), DomainPreimage(k, domain),
      CallsFit(felts) && AllFit(additionalData), CallSetPreimage(k, felts, additionalData));
  }

  lemma OutsideExecutionFields(o: OutsideExecution, v: Json)
    requires v == Obj(map["calls" := Arr(CallItems(o.calls)), "caller" := HexFelt(o.caller),
                          "nonce" := HexFelt(o.nonce), "execute_after" := HexFelt(o.executeAfter),
                          "execute_before" := HexFelt(o.executeBefore)])
    ensures var m := OUTSIDE_EXECUTION_MEMBERS;
            && m[0].name in v.fields && v.fields[m[0].name] == Arr(CallItems(o.calls))
            && m[1].name in v.fields && v.fields[m[1].name] == HexFelt(o.caller)
            && m[2].name in v.fields && v.fields[m[2].name] == HexFelt(o.nonce)
            && m[3].name in v.fields && v.fields[m[3].name] == HexFelt(o.executeAfter)
            && m[4].name in v.fields && v.fields[m[4].name] == HexFelt(o.executeBefore)
  {
    hide HexFelt, CallItems;
  }

  lemma OutsideExecutionWords(k: Keccak, o: OutsideExecution, v: Json)
    requires v == Obj(map["calls" := Arr(CallItems(o.calls)), "caller" := HexFelt(o.caller),
                          "nonce" := HexFelt(o.nonce), "execute_after" := HexFelt(o.executeAfter),
                          "execute_before" := HexFelt(o.executeBefore)])
    ensures var t, m := OUTSIDE_EXECUTION_TYPES, OUTSIDE_EXECUTION_MEMBERS;
            && MemberWord(k, t, m, 0, v) == (if CallsFit(o.calls) then Some(k(Words(CallHashes(k, o.calls)))) else None)
            && MemberWord(k, t, m, 1, v) == (if Fits(o.caller) then Some(BigEndian(o.caller, 32)) else None)
            && MemberWord(k, t, m, 2, v) == (if Fits(o.nonce) then Some(BigEndian(o.nonce, 32)) else None)
            && MemberWord(k, t, m, 3, v) == (if Fits(o.executeAfter) then Some(BigEndian(o.executeAfter, 32)) else None)
            && MemberWord(k, t, m, 4, v) ==
               (if Fits(o.executeBefore) then Some(BigEndian(o.executeBefore, 32)) else None)
  {
    TablesShareTypes();
    OutsideExecutionFields(o, v);
    CallArrayEncodes(k, OUTSIDE_EXECUTION_TYPES, o.calls);
    FeltEncodes(k, OUTSIDE_EXECUTION_TYPES, o.caller);
    FeltEncodes(k, OUTSIDE_EXECUTION_TYPES, o.nonce);
    FeltEncodes(k, OUTSIDE_EXECUTION_TYPES, o.executeAfter);
    FeltEncodes(k, OUTSIDE_EXECUTION_TYPES, o.executeBefore);
  }

  lemma OutsideExecutionMembersEncode(k: Keccak, o: OutsideExecution, v: Json)
    requires v == Obj(map["calls" := Arr(CallItems(o.calls)), "caller" := HexFelt(o.caller),
                          "nonce" := HexFelt(o.nonce), "execute_after" := HexFelt(o.executeAfter),
                          "execute_before" := HexFelt(o.executeBefore)])
    ensures EncodeMembers(k, OUTSIDE_EXECUTION_TYPES, OUTSIDE_EXECUTION_MEMBERS, v) ==
            if OutsideExecutionFits(o)
            then Some(k(Words(CallHashes(k, o.calls))) + (BigEndian(o.caller, 32) + (BigEndian(o.nonce, 32)
                      + (BigEndian(o.executeAfter, 32) + (BigEndian(o.executeBefore, 32) + [])))))
            else None
  {
    OutsideExecutionWords(k, o, v);
    MembersEncodeInTurn(k, OUTSIDE_EXECUTION_TYPES, OUTSIDE_EXECUTION_MEMBERS, 0, v);
    assert OUTSIDE_EXECUTION_MEMBERS[0..] == OUTSIDE_EXECUTION_MEMBERS;
    hide EncodeMembers, MemberWord, BigEndian, Words, CallHashes, Fits, CallsFit, CallItems, HexFelt;
  }

  lemma OutsideExecutionStructEncodes(k: Keccak, o: OutsideExecution, v: Json)
    requires v == Obj(map["calls" := Arr(CallItems(o.calls)), "caller" := HexFelt(o.caller),
                          "nonce" := HexFelt(o.nonce), "execute_after" := HexFelt(o.executeAfter),
                          "execute_before" := HexFelt(o.executeBefore)])
    ensures HashStruct(k, OUTSIDE_EXECUTION_TYPES, "OutsideExecution", v) ==
            if OutsideExecutionFits(o) then Some(k(OutsidePreimage(k, o))) else None
  {
    OutsideExecutionMembersEncode(k, o, v);
    OutsideExecutionTypeString();
    WordsOf6(KeccakType(k, OUTSIDE_EXECUTION_TYPE), HashCallArray(k, o.calls), o.caller, o.nonce, o.executeAfter,
             o.executeBefore);
    DigestWord(k, Utf8(OUTSIDE_EXECUTION_TYPE));
    DigestWord(k, Words(CallHashes(k, o.calls)));
  }

  /**
   * The same for an `OutsideExecution` under any domain, as its typed data carries it: the wallet signs
   * exactly `computeOutsideExecution712Hash`, or refuses when a number or the contract address is too big.
   */
  lemma WalletSignsOutsideExecutionHash(k: Keccak, d: Domain, o: OutsideExecution)
    ensures var signed := WalletDigest(k, OutsideExecutionData(d, o));
            if DomainFits(d) && OutsideExecutionFits(o)
            then signed.Some? && Value(signed.value) == OutsideExecutionHash(k, d, o)
            else signed.None?
  {
    var td := OutsideExecutionData(d, o);
    TablesShareTypes();
    DomainEncodes(k, OUTSIDE_EXECUTION_TYPES, d);
    OutsideExecutionStructEncodes(k, o, td.message);
    DigestJoins(k, td, DomainFits(d), DomainPreimage(k, d), OutsideExecutionFits(o), OutsidePreimage(k, o));
  }

  /** In particular for `outsideExecutionTypedData`, whose domain is the account's. */
  lemma WalletSignsAccountsOutsideExecution(k: Keccak, account: nat, chainName: string, evmChainId: nat,
                                            o: OutsideExecution)
    ensures var signed := WalletDigest(k, OutsideExecutionTypedData(account, chainName, evmChainId, o));
            if Fits(evmChainId) && OutsideExecutionFits(o)
            then signed.Some?
                 && Value(signed.value) == OutsideExecutionHash(k, AccountDomain(account, chainName, evmChainId), o)
            else signed.None?
  {
    AccountDomainFits(account, chainName, evmChainId);
    WalletSignsOutsideExecutionHash(k, AccountDomain(account, chainName, evmChainId), o);
  }
}
