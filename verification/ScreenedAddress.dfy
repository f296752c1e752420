/**
 * The address a prove request is screened for: whoever deposits, and whoever funds the open notes
 * the pool screens, under the policy it holds for them.
 */
module ScreenedAddress {
  import opened Wrappers
  import opened Numerals
  import opened PoolTransaction
  import opened PolicyClient

  /** The contract whose invoke funds the open notes, and the action it is driven through. */
  datatype Depositor = Depositor(address: string, action: ClientAction)

  datatype Screened = NoSubject | One(address: string) | Conflict | UnreadablePolicy | UndeterminedShadowAccount

  predicate IsInvoke(a: ClientAction) {
    a.InvokeExternal? || a.ComputeAndInvoke?
  }

  function ContractAddress(a: ClientAction): string
    requires IsInvoke(a)
  {
    NormalizeFelt(ToHex(a.contract))
  }

  // ---- the scans ----

  predicate Has(actions: seq<ClientAction>, a: ClientAction) {
    exists i :: 0 <= i < |actions| && actions[i] == a
  }

  /** The first action of the invoke phase. */
  function FirstInvoke(actions: seq<ClientAction>): (a: Option<ClientAction>)
    ensures a.Some? ==> IsInvoke(a.value)
  {
    if actions == [] then None
    else if IsInvoke(actions[0]) then Some(actions[0])
    else FirstInvoke(actions[1..])
  }

  method SomeAction(actions: seq<ClientAction>, a: ClientAction) returns (found: bool)
    ensures found <==> Has(actions, a)
  {
    for i := 0 to |actions|
      invariant forall j :: 0 <= j < i ==> actions[j] != a
    {
      if actions[i] == a {
        return true;
      }
    }
    return false;
  }

  /** Who funds the open notes the actions create: the first invoke's contract, if any note is created. */
  function Funder(actions: seq<ClientAction>): (a: Option<ClientAction>)
    ensures a.Some? ==> IsInvoke(a.value)
  {
    if Has(actions, CreateOpenNote) then FirstInvoke(actions) else None
  }

  method GetOpenNoteDepositor(actions: seq<ClientAction>) returns (depositor: Option<Depositor>)
    ensures depositor == match Funder(actions)
                         case None => None
                         case Some(a) => Some(Depositor(ContractAddress(a), a))
  {
    var creates := SomeAction(actions, CreateOpenNote);
    if !creates {
      return None;
    }
    for i := 0 to |actions|
      invariant FirstInvoke(actions) == FirstInvoke(actions[i..])
    {
      if IsInvoke(actions[i]) {
        return Some(Depositor(ContractAddress(actions[i]), actions[i]));
      }
      assert actions[i..][1..] == actions[i + 1..];
    }
    return None;
  }

  // ---- the shadow account ----

  /** The compute arguments `[dappName, nonce]` of a compute-invoke, if they decode. */
  function Interaction(a: ClientAction, d: Decoders): Option<(nat, nat)>
    requires a.ComputeAndInvoke?
  {
    if |a.computeData| != d.computeArity then None else d.computeArguments(a.computeData)
  }

  /** The first compute-invoke that targets the anonymizer. */
  function GetShadowAccountInteraction(actions: seq<ClientAction>, anonymizer: string, d: Decoders)
    : Option<(nat, nat)>
  {
    if actions == [] then None
    else if actions[0].ComputeAndInvoke? && NormalizeFelt(ToHex(actions[0].contract)) == NormalizeFelt(anonymizer)
    then Interaction(actions[0], d)
    else GetShadowAccountInteraction(actions[1..], anonymizer, d)
  }

  function GetShadowAccountAddress(call: PoolCallActions, anonymizer: string, d: Decoders): Option<string> {
    if call.viewingKey.None? then None
    else
      match GetShadowAccountInteraction(call.actions, anonymizer, d)
      case None => None
      case Some((dappName, nonce)) =>
        match (d.toBigInt(call.userAddress), ParseHex(NormalizeFelt(anonymizer)))
        case (Some(user), Some(contract)) =>
          Some(d.shadowAccount(user, call.viewingKey.value, contract, dappName, nonce))
        case _ => None
  }

  predicate CreatesOpenNotes(a: ClientAction, d: Decoders)
    requires a.ComputeAndInvoke?
  {
    d.openNotes(a.invokeData).Some? && d.openNotes(a.invokeData).value > 0
  }

  /** Searching by address finds the first invoke itself: the interaction is the depositor's own. */
  lemma {:induction false} InteractionIsTheDepositors(actions: seq<ClientAction>, d: Decoders)
    requires FirstInvoke(actions).Some? && FirstInvoke(actions).value.ComputeAndInvoke?
    ensures GetShadowAccountInteraction(actions, ContractAddress(FirstInvoke(actions).value), d)
            == Interaction(FirstInvoke(actions).value, d)
  {
    HexIsCanonical(FirstInvoke(actions).value.contract);
    if !IsInvoke(actions[0]) {
      InteractionIsTheDepositors(actions[1..], d);
    }
  }

  // ---- what the pool asks for ----

  /** The addresses owed a screening, or the reason they cannot be told. */
  datatype Owed = Addresses(all: set<string>) | Unreadable | Undetermined

  function ShadowAccountOf(call: PoolCallActions, a: ClientAction, d: Decoders): Option<string>
    requires a.ComputeAndInvoke?
  {
    match (call.viewingKey, Interaction(a, d), d.toBigInt(call.userAddress))
    case (Some(key), Some((dappName, nonce)), Some(user)) =>
      Some(d.shadowAccount(user, key, a.contract, dappName, nonce))
    case _ => None
  }

  /** What the open notes funded through `a` owe, under the policy for its contract. */
  function OwedByPolicy(call: PoolCallActions, a: ClientAction, policy: Option<Policy>, d: Decoders): Owed {
    match policy
    case None => Unreadable
    case Some(Exempt) => Addresses({})
    case Some(Required) => if IsInvoke(a) then Addresses({ContractAddress(a)}) else Addresses({})
    case Some(Delegated) =>
      if !a.ComputeAndInvoke? || !CreatesOpenNotes(a, d) then Addresses({})
      else match ShadowAccountOf(call, a, d) case None => Undetermined case Some(account) => Addresses({account})
  }

  /** The depositor, if anything is deposited, and whoever the open notes' funder puts up. */
  function OwedBy(call: PoolCallActions, d: Decoders, policyOf: string -> Option<Policy>): Owed {
    var own: set<string> := if Has(call.actions, Deposit) then {call.userAddress} else {};
    match Funder(call.actions)
    case None => Addresses(own)
    case Some(a) =>
      var notes := OwedByPolicy(call, a, policyOf(ContractAddress(a)), d);
      if notes.Addresses? then Addresses(own + notes.all) else notes
  }

  /** One attestation per transaction: none, one, or a conflict. */
  predicate Resolves(owed: Owed, s: Screened) {
    match owed
    case Unreadable => s == UnreadablePolicy
    case Undetermined => s == UndeterminedShadowAccount
    case Addresses(all) =>
      (all == {} <==> s == NoSubject) && ((exists a :: a in all && all == {a}) <==> s.One?)
      && (s.One? ==> all == {s.address}) && (|all| > 1 <==> s == Conflict)
  }

  // ---- the same, said of the call alone ----

  /** Action `i` drives the funding of open notes: the first of the invoke phase, in a call that creates one. */
  ghost predicate FundsAt(actions: seq<ClientAction>, i: nat) {
    && CreateOpenNote in actions
    && i < |actions| && (actions[i].InvokeExternal? || actions[i].ComputeAndInvoke?)
    && forall j :: 0 <= j < i ==> !actions[j].InvokeExternal? && !actions[j].ComputeAndInvoke?
  }

  /** The pool asks a delegated depositor for an address only when its compute-invoke settles a note. */
  predicate SettlesNotes(a: ClientAction, d: Decoders) {
    a.ComputeAndInvoke? && d.openNotes(a.invokeData) != None && d.openNotes(a.invokeData) != Some(0)
  }

  /** The account a compute-invoke runs through, from the user, the viewing key and its compute arguments. */
  predicate RunsThrough(call: PoolCallActions, a: ClientAction, d: Decoders, account: string) {
    && a.ComputeAndInvoke? && |a.computeData| == d.computeArity
    && call.viewingKey.Some? && d.toBigInt(call.userAddress).Some? && d.computeArguments(a.computeData).Some?
    && var (dappName, nonce) := d.computeArguments(a.computeData).value;
       var user := d.toBigInt(call.userAddress).value;
       account == d.shadowAccount(user, call.viewingKey.value, a.contract, dappName, nonce)
  }

  /** What is owed for the notes an action funds, by the policy of its contract. */
  predicate OwesForNotes(call: PoolCallActions, a: ClientAction, policy: Option<Policy>, d: Decoders, address: string)
    requires a.InvokeExternal? || a.ComputeAndInvoke?
  {
    || (policy == Some(Required) && address == ToHex(a.contract))
    || (policy == Some(Delegated) && SettlesNotes(a, d) && RunsThrough(call, a, d, address))
  }

  /** The call owes a screening of `address`: of its depositor, or for the notes it funds. */
  ghost predicate Owes(call: PoolCallActions, d: Decoders, policyOf: string -> Option<Policy>, address: string) {
    || (Deposit in call.actions && address == call.userAddress)
    || exists i: nat :: FundsAt(call.actions, i)
                        && OwesForNotes(call, call.actions[i], policyOf(ToHex(call.actions[i].contract)), d, address)
  }

  ghost predicate PolicyUnknown(call: PoolCallActions, policyOf: string -> Option<Policy>) {
    exists i: nat :: FundsAt(call.actions, i) && policyOf(ToHex(call.actions[i].contract)) == None
  }

  ghost predicate AccountUnknown(call: PoolCallActions, d: Decoders, policyOf: string -> Option<Policy>) {
    exists i: nat ::
      && FundsAt(call.actions, i) && policyOf(ToHex(call.actions[i].contract)) == Some(Delegated)
      && SettlesNotes(call.actions[i], d)
      && forall account :: !RunsThrough(call, call.actions[i], d, account)
  }

  /** The subject follows from what is owed: unknown, nobody, one address, or more than one. */
  ghost predicate Decides(call: PoolCallActions, d: Decoders, policyOf: string -> Option<Policy>, s: Screened) {
    match s
    case UnreadablePolicy => PolicyUnknown(call, policyOf)
    case UndeterminedShadowAccount => AccountUnknown(call, d, policyOf)
    case NoSubject => Told(call, d, policyOf) && forall x :: !Owes(call, d, policyOf, x)
    case One(address) => Told(call, d, policyOf) && forall x :: Owes(call, d, policyOf, x) <==> x == address
    case Conflict =>
      Told(call, d, policyOf) && exists x, y :: x != y && Owes(call, d, policyOf, x) && Owes(call, d, policyOf, y)
  }

  ghost predicate Told(call: PoolCallActions, d: Decoders, policyOf: string -> Option<Policy>) {
    !PolicyUnknown(call, policyOf) && !AccountUnknown(call, d, policyOf)
  }

  /** No two subjects fit one call. */
  lemma DecidesOnce(call: PoolCallActions, d: Decoders, policyOf: string -> Option<Policy>, s: Screened, t: Screened)
    requires Decides(call, d, policyOf, s) && Decides(call, d, policyOf, t)
    ensures s == t
  {
    if PolicyUnknown(call, policyOf) && AccountUnknown(call, d, policyOf) {
      var i: nat :| FundsAt(call.actions, i) && policyOf(ToHex(call.actions[i].contract)) == None;
      var j: nat :| FundsAt(call.actions, j) && policyOf(ToHex(call.actions[j].contract)) == Some(Delegated);
      FundsOnce(call.actions, i, j);
    }
    hide Owes, PolicyUnknown, AccountUnknown;
    if s.One? { assert Owes(call, d, policyOf, s.address); }
    if t.One? { assert Owes(call, d, policyOf, t.address); }
  }

  lemma FundsOnce(actions: seq<ClientAction>, i: nat, j: nat)
    requires FundsAt(actions, i) && FundsAt(actions, j)
    ensures i == j
  {
  }

  lemma {:induction false} FirstInvokeAt(actions: seq<ClientAction>) returns (i: nat)
    requires CreateOpenNote in actions
    ensures FirstInvoke(actions).Some? ==> FundsAt(actions, i) && actions[i] == FirstInvoke(actions).value
    ensures FirstInvoke(actions).None? ==> forall j: nat :: !FundsAt(actions, j)
  {
    i := LeastInvoke(actions);
  }

  lemma {:induction false} LeastInvoke(actions: seq<ClientAction>) returns (i: nat)
    ensures FirstInvoke(actions).Some? ==>
              && i < |actions| && actions[i] == FirstInvoke(actions).value
              && (actions[i].InvokeExternal? || actions[i].ComputeAndInvoke?)
              && forall j :: 0 <= j < i ==> !actions[j].InvokeExternal? && !actions[j].ComputeAndInvoke?
    ensures FirstInvoke(actions).None? ==>
              forall j :: 0 <= j < |actions| ==> !actions[j].InvokeExternal? && !actions[j].ComputeAndInvoke?
  {
    i := 0;
    if actions != [] && !(actions[0].InvokeExternal? || actions[0].ComputeAndInvoke?) {
      i := LeastInvoke(actions[1..]);
      i := i + 1;
    }
  }

  /** What is owed by the policy of the funder is what the call says is owed. */
  lemma OwedByPolicyIs(call: PoolCallActions, a: ClientAction, policy: Option<Policy>, d: Decoders)
    requires a.InvokeExternal? || a.ComputeAndInvoke?
    ensures var owed := OwedByPolicy(call, a, policy, d);
            && (owed == Unreadable <==> policy == None)
            && (owed == Undetermined <==>
                  policy == Some(Delegated) && SettlesNotes(a, d) && forall x :: !RunsThrough(call, a, d, x))
            && (owed.Addresses? ==> forall x :: x in owed.all <==> OwesForNotes(call, a, policy, d, x))
  {
    HexIsCanonical(a.contract);
    if a.ComputeAndInvoke? {
      AccountIs(call, a, d);
    }
    hide ToHex, ShadowAccountOf, RunsThrough, NormalizeFelt;
  }

  lemma AccountIs(call: PoolCallActions, a: ClientAction, d: Decoders)
    requires a.ComputeAndInvoke?
    ensures forall x :: RunsThrough(call, a, d, x) <==> ShadowAccountOf(call, a, d) == Some(x)
    ensures ShadowAccountOf(call, a, d) == None <==> forall x :: !RunsThrough(call, a, d, x)
  {
    forall x ensures RunsThrough(call, a, d, x) <==> ShadowAccountOf(call, a, d) == Some(x) {
    }
    hide RunsThrough, ShadowAccountOf;
    if ShadowAccountOf(call, a, d).Some? {
      assert RunsThrough(call, a, d, ShadowAccountOf(call, a, d).value);
    }
  }

  /** The subject resolved from the owed addresses is the one the call decides. */
  lemma OwedDecides(call: PoolCallActions, d: Decoders, policyOf: string -> Option<Policy>, s: Screened)
    requires Resolves(OwedBy(call, d, policyOf), s)
    ensures Decides(call, d, policyOf, s)
  {
    assert Has(call.actions, Deposit) <==> Deposit in call.actions;
    assert Has(call.actions, CreateOpenNote) <==> CreateOpenNote in call.actions;
    var own: set<string> := if Deposit in call.actions then {call.userAddress} else {};
    if Funder(call.actions).None? {
      assert forall i: nat :: !FundsAt(call.actions, i) by {
        if CreateOpenNote in call.actions { var j := FirstInvokeAt(call.actions); }
      }
      assert OwedBy(call, d, policyOf) == Addresses(own);
      assert forall x :: x in own <==> Owes(call, d, policyOf, x);
      hide FundsAt, Owes, OwedBy, Has;
      SubjectOf(call, d, policyOf, own, s);
    } else {
      var i := FirstInvokeAt(call.actions);
      FundedDecides(call, d, policyOf, i, own, s);
    }
  }

  lemma FundedDecides(call: PoolCallActions, d: Decoders, policyOf: string -> Option<Policy>, i: nat, own: set<string>,
                      s: Screened)
    requires FundsAt(call.actions, i) && Funder(call.actions) == Some(call.actions[i])
    requires own == if Deposit in call.actions then {call.userAddress} else {}
    requires Has(call.actions, Deposit) <==> Deposit in call.actions
    requires Resolves(OwedBy(call, d, policyOf), s)
    ensures Decides(call, d, policyOf, s)
  {
    var a := call.actions[i];
    var policy := policyOf(ToHex(a.contract));
    var notes := OwedByPolicy(call, a, policy, d);
    HexIsCanonical(a.contract);
    OwedByPolicyIs(call, a, policy, d);
    OnlyFunder(call.actions, i);
    assert OwedBy(call, d, policyOf) == if notes.Addresses? then Addresses(own + notes.all) else notes;
    assert PolicyUnknown(call, policyOf) <==> notes == Unreadable;
    assert AccountUnknown(call, d, policyOf) <==> notes == Undetermined;
    assert notes.Addresses? ==> forall x :: x in own + notes.all <==> Owes(call, d, policyOf, x);
    hide OwedBy, OwedByPolicy, OwesForNotes, FundsAt, Owes, PolicyUnknown, AccountUnknown, ToHex, Has, Funder;
    if notes.Addresses? {
      SubjectOf(call, d, policyOf, own + notes.all, s);
    }
  }

  lemma OnlyFunder(actions: seq<ClientAction>, i: nat)
    requires FundsAt(actions, i)
    ensures forall j: nat :: FundsAt(actions, j) ==> j == i
  {
    forall j: nat | FundsAt(actions, j) ensures j == i {
      FundsOnce(actions, i, j);
    }
  }

  lemma SubjectOf(call: PoolCallActions, d: Decoders, policyOf: string -> Option<Policy>, all: set<string>, s: Screened)
    requires Told(call, d, policyOf) && forall x :: x in all <==> Owes(call, d, policyOf, x)
    requires Resolves(Addresses(all), s)
    ensures Decides(call, d, policyOf, s)
  {
    hide Owes, Told;
    if |all| == 1 {
      OnlyElement(all);
      var x :| x in all;
      assert all == {x};
    }
    if s.One? {
      forall x ensures Owes(call, d, policyOf, x) <==> x == s.address {
        assert x in all <==> x == s.address;
      }
    } else if s.NoSubject? {
      assert forall x :: Owes(call, d, policyOf, x) ==> x in all;
    } else if s.Conflict? {
      TwoOf(all);
      var x, y :| x in all && y in all && x != y;
      assert Owes(call, d, policyOf, x) && Owes(call, d, policyOf, y);
    }
  }

  lemma TwoOf(all: set<string>)
    requires |all| > 1
    ensures exists x, y :: x in all && y in all && x != y
  {
    var x :| x in all;
    assert |all - {x}| > 0;
    var y :| y in all - {x};
  }

  // ---- getScreenedAddress ----

  method GetDelegatedAddress(call: PoolCallActions, depositor: Depositor, d: Decoders) returns (s: Screened)
    ensures s == NoSubject <==>
            || !depositor.action.ComputeAndInvoke?
            || d.openNotes(depositor.action.invokeData) == None || d.openNotes(depositor.action.invokeData) == Some(0)
    ensures s != NoSubject ==>
              s == match GetShadowAccountAddress(call, depositor.address, d)
                   case None => UndeterminedShadowAccount
                   case Some(account) => One(account)
  {
    if !depositor.action.ComputeAndInvoke? {
      return NoSubject;
    }
    if !CreatesOpenNotes(depositor.action, d) {
      return NoSubject;
    }
    var account := GetShadowAccountAddress(call, depositor.address, d);
    return match account case None => UndeterminedShadowAccount case Some(a) => One(a);
  }

  lemma DelegatedIsOwed(call: PoolCallActions, a: ClientAction, d: Decoders)
    requires FirstInvoke(call.actions) == Some(a) && a.ComputeAndInvoke?
    ensures GetShadowAccountAddress(call, ContractAddress(a), d) == ShadowAccountOf(call, a, d)
  {
    InteractionIsTheDepositors(call.actions, d);
    HexIsCanonical(a.contract);
    ParsesBack(a.contract);
  }

  /** The switch on the policy of the open notes' funder, as what it adds or the failure it returns. */
  method FundedSubjects(call: PoolCallActions, depositor: Depositor, d: Decoders, policyOf: string -> Option<Policy>)
    returns (owed: Owed)
    requires FirstInvoke(call.actions) == Some(depositor.action)
             && depositor.address == ContractAddress(depositor.action)
    ensures owed == OwedByPolicy(call, depositor.action, policyOf(depositor.address), d)
  {
    var policy := policyOf(depositor.address);
    match policy {
      case Some(Exempt) => return Addresses({});
      case Some(Required) => return Addresses({depositor.address});
      case Some(Delegated) =>
        if depositor.action.ComputeAndInvoke? {
          DelegatedIsOwed(call, depositor.action, d);
        }
        var delegated := GetDelegatedAddress(call, depositor, d);
        if delegated.One? {
          return Addresses({delegated.address});
        } else if delegated != NoSubject {
          return Undetermined;
        }
        return Addresses({});
      case None => return Unreadable;
    }
  }

  /**
   * The subject of a decoded call: the addresses owed a screening, when they can be told, taken
   * together as none, one or a conflict. Undecodable calldata has none.
   */
  method GetScreenedAddress(calldata: seq<string>, poolAddress: string, d: Decoders, policyOf: string -> Option<Policy>)
    returns (s: Screened)
    ensures match DecodeClientActions(calldata, poolAddress, d)
            case None => s == NoSubject
            case Some(call) => Decides(call, d, policyOf, s)
  {
    var decoded := DecodeClientActions(calldata, poolAddress, d);
    if decoded == None {
      return NoSubject;
    }
    var call := decoded.value;
    hide DecodeClientActions, OwedByPolicy, Resolves, Has, Decides;
    var addresses: set<string> := {};
    var deposits := SomeAction(call.actions, Deposit);
    if deposits {
      addresses := addresses + {call.userAddress};
    }
    var depositor := GetOpenNoteDepositor(call.actions);
    if depositor.Some? {
      var funded := FundedSubjects(call, depositor.value, d, policyOf);
      match funded {
        case Addresses(more) => addresses := addresses + more;
        case Unreadable =>
          UntoldResolves();
          OwedDecides(call, d, policyOf, UnreadablePolicy);
          return UnreadablePolicy;
        case Undetermined =>
          UntoldResolves();
          OwedDecides(call, d, policyOf, UndeterminedShadowAccount);
          return UndeterminedShadowAccount;
      }
    }
    s := Resolved(addresses);
    OwedDecides(call, d, policyOf, s);
  }

  lemma UntoldResolves()
    ensures Resolves(Unreadable, UnreadablePolicy) && Resolves(Undetermined, UndeterminedShadowAccount)
  {
  }

  function TheOnly(all: set<string>): string
    requires |all| == 1
  {
    OnlyElement(all);
    var a :| a in all; a
  }

  lemma OnlyElement(all: set<string>)
    requires |all| == 1
    ensures exists a :: a in all
    ensures forall a, b :: a in all && b in all ==> a == b
  {
    assert all != {};
    forall a, b | a in all && b in all ensures a == b {
      assert |all - {a}| == 0;
      assert b !in all - {a};
    }
  }

  function Resolved(addresses: set<string>): (s: Screened)
    ensures Resolves(Addresses(addresses), s)
  {
    if |addresses| > 1 then
      assert forall a :: a in addresses ==> addresses != {a};
      Conflict
    else if addresses == {} then NoSubject
    else
      OnlyElement(addresses);
      assert addresses == {TheOnly(addresses)};
      One(TheOnly(addresses))
  }

  /** A deposit always owes its own depositor: its subject is never none, and if one, it is the depositor. */
  lemma DepositOwesItsDepositor(call: PoolCallActions, d: Decoders, policyOf: string -> Option<Policy>, s: Screened)
    requires Decides(call, d, policyOf, s) && Deposit in call.actions
    ensures s != NoSubject && (s.One? ==> s.address == call.userAddress)
  {
    assert Owes(call, d, policyOf, call.userAddress);
    hide Owes;
  }
}
