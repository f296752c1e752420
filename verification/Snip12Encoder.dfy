/**
 * A generic SNIP-12 encoder, revision 1, driven only by a type table: what a Starknet wallet hashes
 * for typed data. A struct hashes to the Poseidon of its type hash and its members, an array to the
 * Poseidon of its items, and the message to that of the prefix, the domain, the account and the
 * struct. Type hashes are given by name, as the pinned constants they are.
 */
module Snip12Encoder {
  import opened Wrappers
  import opened Eip712

  type Poseidon = seq<nat> -> nat

  /** A wallet's entry-point hash. */
  type EntryPoint = string -> nat

  /** What typed data holds: numbers, short texts, lists and objects. */
  datatype Term =
    | Felt(n: nat)
    | Text(s: string)
    | List(items: seq<Term>)
    | Object(fields: map<string, Term>)

  datatype Message = Message(types: TypeTable, typeHash: string -> nat, primaryType: string, domain: Term, body: Term)

  predicate IsListKind(kind: string) {
    kind != "" && kind[|kind| - 1] == '*'
  }

  /** A short text as one felt, one byte a character. */
  function ShortText(s: string): Option<nat> {
    if s == "" then Some(0)
    else
      match ShortText(s[..|s| - 1])
      case None => None
      case Some(front) =>
        var c := s[|s| - 1];
        if c as int < 128 then Some(front * 256 + c as int) else None
  }

  function EncodeTerm(h: Poseidon, sel: EntryPoint, m: Message, kind: string, v: Term): Option<nat>
    decreases v, 3, 0
  {
    if IsListKind(kind) then
      if !v.List? then None
      else
        match EncodeTerms(h, sel, m, kind[..|kind| - 1], v.items)
        case Some(felts) => Some(h(felts))
        case None => None
    else if kind in m.types then HashObject(h, sel, m, kind, v)
    else if v.Felt? then Some(v.n)
    else if v.Text? && kind == "shortstring" then ShortText(v.s)
    else if v.Text? && kind == "selector" then Some(sel(v.s))
    else None
  }

  function EncodeTerms(h: Poseidon, sel: EntryPoint, m: Message, kind: string, items: seq<Term>): Option<seq<nat>>
    decreases items, 0, 0
  {
    if items == [] then Some([])
    else
      match (EncodeTerm(h, sel, m, kind, items[0]), EncodeTerms(h, sel, m, kind, items[1..]))
      case (Some(felt), Some(rest)) => Some([felt] + rest)
      case _ => None
  }

  function EncodeFields(h: Poseidon, sel: EntryPoint, m: Message, members: seq<Member>, v: Term): Option<seq<nat>>
    requires v.Object?
    decreases v, 1, |members|
  {
    if members == [] then Some([])
    else if members[0].name !in v.fields then None
    else
      match (EncodeTerm(h, sel, m, members[0].kind, v.fields[members[0].name]),
             EncodeFields(h, sel, m, members[1..], v))
      case (Some(felt), Some(rest)) => Some([felt] + rest)
      case _ => None
  }

  function HashObject(h: Poseidon, sel: EntryPoint, m: Message, name: string, v: Term): Option<nat>
    decreases v, 2, 0
  {
    if name !in m.types || !v.Object? then None
    else
      match EncodeFields(h, sel, m, m.types[name], v)
      case Some(felts) => Some(h([m.typeHash(name)] + felts))
      case None => None
  }

  /** The hash a wallet signs for an account, or nothing when it refuses the typed data. */
  function MessageHash(h: Poseidon, sel: EntryPoint, account: nat, m: Message): Option<nat> {
    match (ShortText("StarkNet Message"), HashObject(h, sel, m, "StarknetDomain", m.domain),
           HashObject(h, sel, m, m.primaryType, m.body))
    case (Some(prefix), Some(domain), Some(body)) => Some(h([prefix, domain, account, body]))
    case _ => None
  }
}
