/**
 * A generic EIP-712 encoder, driven only by a type table: what a wallet computes for
 * `eth_signTypedData_v4`. It follows the sections "Definition of encodeType", "Definition of
 * encodeData", "Definition of hashStruct" and "Definition of domainSeparator" of EIP-712, for the
 * atomic kinds `uint256` and `address`, the dynamic kind `string`, open arrays and structs.
 */
module Eip712 {
  import opened Wrappers
  import opened Bytes
  import opened Numerals

  type Digest = b: seq<Byte> | |b| == 32 witness seq(32, _ => 0)

  /** Keccak-256 stays uninterpreted: every statement holds of any function of this type. */
  type Keccak = seq<Byte> -> Digest

  datatype Member = Member(name: string, kind: string)

  type TypeTable = map<string, seq<Member>>

  /** The JSON a wallet is handed; numbers travel as `0x` strings. */
  datatype Json =
    | Str(text: string)
    | Arr(items: seq<Json>)
    | Obj(fields: map<string, Json>)

  datatype TypedData = TypedData(types: TypeTable, primaryType: string, domain: Json, message: Json)

  // ---- encodeType ----

  /** The struct name a kind mentions: the kind up to its first bracket. */
  function BaseName(kind: string): string {
    if kind == "" || kind[0] == '[' then "" else [kind[0]] + BaseName(kind[1..])
  }

  function Kinds(members: seq<Member>): (kinds: seq<string>)
    ensures |kinds| == |members|
  {
    if members == [] then [] else [members[0].kind] + Kinds(members[1..])
  }

  /** The structs reachable from `todo`, after those already `seen`, in discovery order. */
  function Reachable(types: TypeTable, todo: seq<string>, seen: seq<string>): seq<string>
    decreases types.Keys - (set s | s in seen), |todo|
  {
    if todo == [] then seen
    else
      var name := BaseName(todo[0]);
      if name !in types || name in seen then Reachable(types, todo[1..], seen)
      else
        assert name in types.Keys - (set s | s in seen);
        Reachable(types, Kinds(types[name]) + todo[1..], seen + [name])
  }

  predicate Precedes(a: string, b: string) {
    b != "" && (a == "" || a[0] < b[0] || (a[0] == b[0] && Precedes(a[1..], b[1..])))
  }

  function Insert(name: string, sorted: seq<string>): seq<string> {
    if sorted == [] || Precedes(name, sorted[0]) then [name] + sorted
    else [sorted[0]] + Insert(name, sorted[1..])
  }

  function Sorted(names: seq<string>): seq<string> {
    if names == [] then [] else Insert(names[0], Sorted(names[1..]))
  }

  function MemberList(members: seq<Member>): string {
    if members == [] then ""
    else
      var first := members[0].kind + " " + members[0].name;
      if |members| == 1 then first else first + "," + MemberList(members[1..])
  }

  function Signatures(types: TypeTable, names: seq<string>): string {
    if names == [] then ""
    else
      var members := if names[0] in types then types[names[0]] else [];
      names[0] + "(" + MemberList(members) + ")" + Signatures(types, names[1..])
  }

  /** The primary struct first, then every struct it refers to, sorted by name. */
  function EncodeType(types: TypeTable, name: string): string {
    var found := Reachable(types, [name], []);
    Signatures(types, [name] + Sorted(if found == [] then [] else found[1..]))
  }

  // ---- encodeData and hashStruct ----

  predicate IsArrayKind(kind: string) {
    |kind| >= 2 && kind[|kind| - 2..] == "[]"
  }

  /** An atomic value as its 32-byte word, or nothing when it does not fit its kind. */
  function EncodeAtom(k: Keccak, kind: string, text: string): Option<Digest> {
    if kind == "string" then Some(k(Utf8(text)))
    else
      var width := if kind == "uint256" then 32 else if kind == "address" then 20 else 0;
      match ParseHex(text)
      case Some(n) => if n < Pow256(width) && width > 0 then Some(BigEndian(n, 32)) else None
      case None => None
  }

  function EncodeValue(k: Keccak, types: TypeTable, kind: string, v: Json): Option<Digest>
    decreases v, 3, 0
  {
    if IsArrayKind(kind) then
      if !v.Arr? then None
      else
        match EncodeItems(k, types, kind[..|kind| - 2], v.items)
        case Some(data) => Some(k(data))
        case None => None
    else if kind in types then
      HashStruct(k, types, kind, v)
    else if v.Str? then
      EncodeAtom(k, kind, v.text)
    else
      None
  }

  function EncodeItems(k: Keccak, types: TypeTable, kind: string, items: seq<Json>): Option<seq<Byte>>
    decreases items, 0, 0
  {
    if items == [] then Some([])
    else
      match (EncodeValue(k, types, kind, items[0]), EncodeItems(k, types, kind, items[1..]))
      case (Some(word), Some(rest)) => Some(word + rest)
      case _ => None
  }

  function EncodeMembers(k: Keccak, types: TypeTable, members: seq<Member>, v: Json): Option<seq<Byte>>
    requires v.Obj?
    decreases v, 1, |members|
  {
    if members == [] then Some([])
    else if members[0].name !in v.fields then None
    else
      match (EncodeValue(k, types, members[0].kind, v.fields[members[0].name]),
             EncodeMembers(k, types, members[1..], v))
      case (Some(word), Some(rest)) => Some(word + rest)
      case _ => None
  }

  function HashStruct(k: Keccak, types: TypeTable, name: string, v: Json): Option<Digest>
    decreases v, 2, 0
  {
    if name !in types || !v.Obj? then None
    else
      match EncodeMembers(k, types, types[name], v)
      case Some(data) => Some(k(k(Utf8(EncodeType(types, name))) + data))
      case None => None
  }

  /** The digest a wallet signs, or nothing when it refuses the typed data. */
  function WalletDigest(k: Keccak, td: TypedData): Option<Digest> {
    match (HashStruct(k, td.types, "EIP712Domain", td.domain), HashStruct(k, td.types, td.primaryType, td.message))
    case (Some(domain), Some(message)) => Some(k([0x19, 0x01] + domain + message))
    case _ => None
  }
}
