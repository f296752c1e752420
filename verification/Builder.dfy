/**
 * The fluent operation builder, the placeholders it hands to invoke callbacks, and the prover that
 * replays the built actions and fills the placeholders in.
 */
module Builder {
  import opened Wrappers
  import opened Numerals

  // ---- placeholders ----

  function OpenPart(): string {
    "${openNoteIds["
  }

  function ClosePart(): string {
    "]}"
  }

  function PoolPlaceholder(): string {
    "${poolAddress}"
  }

  /** The placeholder of the k-th open note. */
  function NotePlaceholder(k: nat): string {
    OpenPart() + (Numeral(k, 10) + ClosePart())
  }

  /** The index in a note placeholder: at least one decimal digit between the fixed parts, leading zeros allowed. */
  function PlaceholderIndex(item: string): Option<nat> {
    var o, c := |OpenPart()|, |ClosePart()|;
    if |item| > o + c && item[..o] == OpenPart() && item[|item| - c..] == ClosePart()
      && AllDigits(item[o..|item| - c], 10)
    then Some(Denoted(item[o..|item| - c], 10)) else None
  }

  lemma PlaceholderReadsBack(k: nat)
    ensures PlaceholderIndex(NotePlaceholder(k)) == Some(k)
  {
    var o, c := |OpenPart()|, |ClosePart()|;
    var item := NotePlaceholder(k);
    assert item[..o] == OpenPart();
    assert item[|item| - c..] == ClosePart();
    assert item[o..|item| - c] == Numeral(k, 10);
  }

  /** What the callback is handed, letter for letter. */
  lemma PlaceholdersAre(k: nat)
    ensures NotePlaceholder(k) == "${openNoteIds[" + Numeral(k, 10) + "]}" && PoolPlaceholder() == "${poolAddress}"
  {
  }

  /** Exactly the texts `${openNoteIds[N]}` with `N` one or more decimal digits stand for a note, the N-th. */
  lemma PlaceholderIndexIs(item: string, k: nat)
    ensures PlaceholderIndex(item) == Some(k)
            <==> exists digits :: digits != "" && AllDigits(digits, 10) && Denoted(digits, 10) == k
                                  && item == "${openNoteIds[" + digits + "]}"
  {
    var o, c := |OpenPart()|, |ClosePart()|;
    if PlaceholderIndex(item) == Some(k) {
      var digits := item[o..|item| - c];
      assert item == item[..o] + digits + item[|item| - c..];
    }
    if digits :| digits != "" && AllDigits(digits, 10) && Denoted(digits, 10) == k
                 && item == "${openNoteIds[" + digits + "]}" {
      assert item[..o] == OpenPart() && item[|item| - c..] == ClosePart() && item[o..|item| - c] == digits;
    }
  }

  /** A felt, as `num.toHex` writes it, is neither kind of placeholder. */
  lemma HexIsNoPlaceholder(n: nat)
    ensures PlaceholderIndex(ToHex(n)) == None && ToHex(n) != PoolPlaceholder() && ToHex(n) != "OPEN"
  {
    var item := ToHex(n);
    assert item[0] == '0';
    if |item| >= |OpenPart()| {
      assert item[..|OpenPart()|][0] == '0';
    }
  }

  // ---- the builder ----

  datatype Action =
    | Deposit(token: string, amount: string)
    | Withdraw(token: string, amount: string, recipient: string)
    | Transfer(token: string, amount: string, recipient: string)
    | Invoke(contract: string, calldata: seq<string>)
    | ComputeAndInvoke(contract: string, computeCalldata: seq<string>, invokeCalldata: seq<string>)
    | ShadowAccountInvoke(dappName: string, nonce: string, calls: seq<string>)

  datatype InvokeArgs = InvokeArgs(openNoteIds: seq<string>, poolAddress: string)
  datatype InvokeDetails = InvokeDetails(contract: string, calldata: seq<string>)
  datatype ComputeDetails = ComputeDetails(contract: string, computeCalldata: seq<string>, invokeCalldata: seq<string>)

  /** A caller's callback; it may throw. */
  type InvokeCallback = InvokeArgs -> Option<InvokeDetails>
  type ComputeCallback = InvokeArgs -> Option<ComputeDetails>

  /** A number given by a caller, or something `num.toBigInt` rejects. */
  type Number = Option<nat>

  predicate IsOpen(a: Action) {
    a.Transfer? && a.amount == "OPEN"
  }

  predicate IsInvokePhase(a: Action) {
    a.Invoke? || a.ComputeAndInvoke? || a.ShadowAccountInvoke?
  }

  /** The builder's three fields. */
  datatype Draft = Draft(actions: seq<Action>, openNoteCount: nat, invoked: bool)

  /** Every call a client can make on the builder and its sub-builders. */
  datatype Call =
    | CallDeposit(token: Number, amount: Number)
    | CallWithdraw(token: Number, amount: Number, recipient: Number)
    | CallTransfer(token: Number, amount: Number, recipient: Number)
    | CallCreateOpenNote(token: Number)
    | CallInvoke(callback: InvokeCallback)
    | CallInvokeWithComputation(compute: ComputeCallback)
    | CallShadowInvoke(dappName: string, nonce: Number, calls: seq<string>)

  function Placeholders(n: nat): (ids: seq<string>)
    ensures |ids| == n && forall k :: 0 <= k < n ==> ids[k] == NotePlaceholder(k)
  {
    seq(n, (k: int) requires 0 <= k => NotePlaceholder(k))
  }

  function Args(d: Draft): InvokeArgs {
    InvokeArgs(Placeholders(d.openNoteCount), PoolPlaceholder())
  }

  function Appended(d: Draft, action: Action): Draft {
    d.(actions := d.actions + [action])
  }

  /** `appendOpenNote` counts the note first and then converts the user's address, which may throw. */
  function Opened(d: Draft, token: string, user: Number): (Draft, bool) {
    var counted := d.(openNoteCount := d.openNoteCount + 1);
    if user.None? then (counted, true) else (Appended(counted, Transfer(token, "OPEN", ToHex(user.value))), false)
  }

  /** The draft after a call, and whether the call threw. */
  function After(d: Draft, user: Number, call: Call): (Draft, bool) {
    match call
    case CallDeposit(token, amount) =>
      if token.None? || amount.None? then (d, true)
      else (Appended(d, Deposit(ToHex(token.value), ToHex(amount.value))), false)
    case CallWithdraw(token, amount, recipient) =>
      if token.None? || amount.None? || recipient.None? then (d, true)
      else (Appended(d, Withdraw(ToHex(token.value), ToHex(amount.value), ToHex(recipient.value))), false)
    case CallTransfer(token, amount, recipient) =>
      if token.None? || amount.None? || recipient.None? then (d, true)
      else (Appended(d, Transfer(ToHex(token.value), ToHex(amount.value), ToHex(recipient.value))), false)
    case CallCreateOpenNote(token) =>
      if token.None? || d.invoked then (d, true)
      else Opened(d, ToHex(token.value), user)
    case CallInvoke(callback) =>
      var details := callback(Args(d));
      if details.None? then (d.(invoked := true), true)
      else (Appended(d.(invoked := true), Invoke(details.value.contract, details.value.calldata)), false)
    case CallInvokeWithComputation(compute) =>
      var details := compute(Args(d));
      if details.None? then (d.(invoked := true), true)
      else (Appended(d.(invoked := true),
                     ComputeAndInvoke(details.value.contract, details.value.computeCalldata,
                                      details.value.invokeCalldata)), false)
    case CallShadowInvoke(dappName, nonce, calls) =>
      if nonce.None? then (d, true)
      else (Appended(d.(invoked := true), ShadowAccountInvoke(dappName, ToHex(nonce.value), calls)), false)
  }

  class PrivacyBuilder {
    const userAddress: Number
    var actions: seq<Action>
    var openNoteCount: nat
    var invoked: bool

    ghost function State(): Draft
      reads this
    {
      Draft(actions, openNoteCount, invoked)
    }

    constructor (userAddress: Number)
      ensures this.userAddress == userAddress && State() == Draft([], 0, false)
    {
      this.userAddress := userAddress;
      actions, openNoteCount, invoked := [], 0, false;
    }

    method Append(action: Action)
      modifies this`actions
      ensures actions == old(actions) + [action]
    {
      actions := actions + [action];
    }

    method MakeInvokeArgs() returns (args: InvokeArgs)
      ensures args == Args(State())
    {
      var ids: seq<string> := [];
      for index := 0 to openNoteCount
        invariant ids == Placeholders(index)
      {
        ids := ids + [NotePlaceholder(index)];
      }
      return InvokeArgs(ids, PoolPlaceholder());
    }

    method AppendOpenNote(token: string) returns (threw: bool)
      modifies this
      ensures (State(), threw) == if old(invoked) then (old(State()), true)
              else Opened(old(State()), token, userAddress)
    {
      if invoked {
        return true;
      }
      openNoteCount := openNoteCount + 1;
      if userAddress.None? {
        return true;
      }
      Append(Transfer(token, "OPEN", ToHex(userAddress.value)));
      return false;
    }

    /** The flag is set before the callback runs, so it stays set when the callback throws. */
    method Invoked(callback: InvokeCallback) returns (threw: bool)
      modifies this
      ensures (State(), threw) == After(old(State()), userAddress, CallInvoke(callback))
    {
      invoked := true;
      var args := MakeInvokeArgs();
      var details := callback(args);
      if details.None? {
        return true;
      }
      Append(Invoke(details.value.contract, details.value.calldata));
      return false;
    }

    method InvokedWithComputation(compute: ComputeCallback) returns (threw: bool)
      modifies this
      ensures (State(), threw) == After(old(State()), userAddress, CallInvokeWithComputation(compute))
    {
      invoked := true;
      var args := MakeInvokeArgs();
      var details := compute(args);
      if details.None? {
        return true;
      }
      Append(ComputeAndInvoke(details.value.contract, details.value.computeCalldata, details.value.invokeCalldata));
      return false;
    }

    /** Any one call, through the sub-builders or directly. */
    method Perform(call: Call) returns (threw: bool)
      modifies this
      ensures (State(), threw) == After(old(State()), userAddress, call)
    {
      match call {
      case CallDeposit(token, amount) =>
        if token.None? || amount.None? { return true; }
        Append(Deposit(ToHex(token.value), ToHex(amount.value)));
      case CallWithdraw(token, amount, recipient) =>
        if token.None? || amount.None? || recipient.None? { return true; }
        Append(Withdraw(ToHex(token.value), ToHex(amount.value), ToHex(recipient.value)));
      case CallTransfer(token, amount, recipient) =>
        if token.None? || amount.None? || recipient.None? { return true; }
        Append(Transfer(ToHex(token.value), ToHex(amount.value), ToHex(recipient.value)));
      case CallCreateOpenNote(token) =>
        if token.None? { return true; }
        threw := AppendOpenNote(ToHex(token.value));
        return threw;
      case CallInvoke(callback) =>
        threw := Invoked(callback);
        return threw;
      case CallInvokeWithComputation(compute) =>
        threw := InvokedWithComputation(compute);
        return threw;
      case CallShadowInvoke(dappName, nonce, calls) =>
        if nonce.None? { return true; }
        invoked := true;
        Append(ShadowAccountInvoke(dappName, ToHex(nonce.value), calls));
      }
      return false;
    }
  }

  // ---- any sequence of calls ----

  function Built(user: Number, calls: seq<Call>): Draft {
    if calls == [] then Draft([], 0, false)
    else After(Built(user, calls[..|calls| - 1]), user, calls[|calls| - 1]).0
  }

  /** The tokens of the open notes, in the order their transfers are queued. */
  function OpenNotes(actions: seq<Action>): seq<string> {
    if actions == [] then []
    else
      var last := actions[|actions| - 1];
      OpenNotes(actions[..|actions| - 1]) + (if IsOpen(last) then [last.token] else [])
  }

  predicate OpenBeforeInvoke(actions: seq<Action>) {
    forall i, j :: 0 <= i < j < |actions| && IsInvokePhase(actions[i]) ==> !IsOpen(actions[j])
  }

  predicate SomeInvoked(actions: seq<Action>) {
    exists i :: 0 <= i < |actions| && IsInvokePhase(actions[i])
  }

  predicate WellBuilt(d: Draft) {
    d.openNoteCount == |OpenNotes(d.actions)| && OpenBeforeInvoke(d.actions) && (SomeInvoked(d.actions) ==> d.invoked)
  }

  lemma AppendedOpens(actions: seq<Action>, action: Action)
    ensures OpenNotes(actions + [action]) == OpenNotes(actions) + (if IsOpen(action) then [action.token] else [])
  {
    assert (actions + [action])[..|actions|] == actions;
  }

  /** A call that puts the builder past its invoke, whether or not its callback throws. */
  predicate Invokes(call: Call) {
    call.CallInvoke? || call.CallInvokeWithComputation? || (call.CallShadowInvoke? && call.nonce.Some?)
  }

  predicate SomeInvokes(calls: seq<Call>) {
    exists i :: 0 <= i < |calls| && Invokes(calls[i])
  }

  predicate AsksNote(call: Call) {
    call.CallCreateOpenNote? && call.token.Some?
  }

  /** Somebody asks for an open note, with a token that converts, before anything is invoked. */
  predicate AsksNoteInTime(calls: seq<Call>) {
    exists i :: 0 <= i < |calls| && AsksNote(calls[i]) && !SomeInvokes(calls[..i])
  }

  /** How many such requests there are. */
  function NotesAsked(calls: seq<Call>): nat {
    if calls == [] then 0
    else
      var front, last := calls[..|calls| - 1], calls[|calls| - 1];
      NotesAsked(front) + (if AsksNote(last) && !SomeInvokes(front) then 1 else 0)
  }

  lemma {:induction false} AskedIffSome(calls: seq<Call>)
    ensures NotesAsked(calls) > 0 <==> AsksNoteInTime(calls)
  {
    if calls != [] {
      var n := |calls| - 1;
      var front := calls[..n];
      AskedIffSome(front);
      hide SomeInvokes, AsksNote;
      assert calls[..n] == front;
      forall i | 0 <= i < n ensures front[i] == calls[i] && front[..i] == calls[..i] {}
      if AsksNoteInTime(front) {
        var i :| 0 <= i < n && AsksNote(front[i]) && !SomeInvokes(front[..i]);
        assert AsksNote(calls[i]) && !SomeInvokes(calls[..i]);
      }
      if AsksNoteInTime(calls) {
        var i :| 0 <= i < |calls| && AsksNote(calls[i]) && !SomeInvokes(calls[..i]);
        if i < n {
          assert AsksNote(front[i]) && !SomeInvokes(front[..i]);
        }
      }
    }
  }

  /** What always holds: the count is the notes asked for in time, queued or not, and no note follows an invoke. */
  predicate Tracks(d: Draft, user: Number, calls: seq<Call>) {
    && d.openNoteCount == NotesAsked(calls)
    && |OpenNotes(d.actions)| == (if user.Some? then NotesAsked(calls) else 0)
    && d.invoked == SomeInvokes(calls)
    && OpenBeforeInvoke(d.actions) && (SomeInvoked(d.actions) ==> d.invoked)
  }

  lemma InvokedSoFar(calls: seq<Call>)
    requires calls != []
    ensures SomeInvokes(calls) <==> SomeInvokes(calls[..|calls| - 1]) || Invokes(calls[|calls| - 1])
  {
    hide Invokes;
    var n := |calls| - 1;
    if SomeInvokes(calls[..n]) {
      var i :| 0 <= i < n && Invokes(calls[..n][i]);
      assert Invokes(calls[i]);
    }
    if SomeInvokes(calls) {
      var i :| 0 <= i < |calls| && Invokes(calls[i]);
      assert i < n ==> Invokes(calls[..n][i]);
    }
  }

  /** An action that is queued keeps open notes before invokes. */
  lemma AppendKeepsOrder(d: Draft, action: Action, invoked: bool)
    requires OpenBeforeInvoke(d.actions) && (SomeInvoked(d.actions) ==> d.invoked)
    requires (d.invoked ==> invoked) && (IsInvokePhase(action) ==> invoked) && (IsOpen(action) ==> !d.invoked)
    ensures OpenBeforeInvoke(d.actions + [action]) && (SomeInvoked(d.actions + [action]) ==> invoked)
  {
    var all := d.actions + [action];
    forall i, j | 0 <= i < j < |all| && IsInvokePhase(all[i]) ensures !IsOpen(all[j]) {
      assert all[i] == d.actions[i];
      if j < |d.actions| {
        assert all[j] == d.actions[j];
      }
    }
    if i: nat :| i < |all| && IsInvokePhase(all[i]) && i < |d.actions| {
      assert IsInvokePhase(d.actions[i]);
    }
  }

  /** What one call does to the count, the flag and the open notes. */
  lemma CallTracks(d: Draft, user: Number, call: Call)
    ensures var after, asked := After(d, user, call).0, AsksNote(call) && !d.invoked;
            && after.openNoteCount == d.openNoteCount + (if asked then 1 else 0)
            && after.invoked == (d.invoked || Invokes(call))
            && (after.actions == d.actions
                || exists action :: after.actions == d.actions + [action]
                                    && (IsOpen(action) <==> asked) && (IsInvokePhase(action) ==> Invokes(call)))
            && (asked ==> (after.actions == d.actions <==> user.None?))
  {
    hide ToHex, Placeholders;
    var after := After(d, user, call).0;
    if after.actions != d.actions {
      match call {
        case CallTransfer(_, amount, _) => HexIsNoPlaceholder(amount.value);
        case _ =>
      }
      assert after.actions == d.actions + [after.actions[|d.actions|]];
    }
  }

  lemma {:induction false} AlwaysTracks(user: Number, calls: seq<Call>)
    ensures Tracks(Built(user, calls), user, calls)
  {
    if calls != [] {
      var front, last := calls[..|calls| - 1], calls[|calls| - 1];
      var d, after := Built(user, front), Built(user, calls);
      AlwaysTracks(user, front);
      CallTracks(d, user, last);
      InvokedSoFar(calls);
      hide After, OpenBeforeInvoke, SomeInvoked, SomeInvokes, AsksNote, Invokes;
      if after.actions != d.actions {
        var action :| after.actions == d.actions + [action]
                      && (IsOpen(action) <==> AsksNote(last) && !d.invoked)
                      && (IsInvokePhase(action) ==> Invokes(last));
        AppendedOpens(d.actions, action);
        AppendKeepsOrder(d, action, after.invoked);
      }
    }
  }

  /**
   * Whatever is called, thrown calls included, no open note follows an invoke; and the count is the
   * open notes queued exactly when the user's address converts or no open note is asked for in time.
   */
  lemma WellBuiltExactly(user: Number, calls: seq<Call>)
    ensures OpenBeforeInvoke(Built(user, calls).actions)
    ensures WellBuilt(Built(user, calls)) <==> user.Some? || !AsksNoteInTime(calls)
  {
    AlwaysTracks(user, calls);
    AskedIffSome(calls);
  }

  /** The failing run: with an address that is no number, one thrown call leaves a note counted and none queued. */
  lemma UnqueuedNote(token: nat)
    ensures var d := Built(None, [CallCreateOpenNote(Some(token))]);
            && After(Draft([], 0, false), None, CallCreateOpenNote(Some(token))).1
            && d == Draft([], 1, false) && !WellBuilt(d) && Args(d).openNoteIds == [NotePlaceholder(0)]
  {
    var calls := [CallCreateOpenNote(Some(token))];
    assert calls[..0] == [];
    assert Built(None, calls) == After(Draft([], 0, false), None, calls[0]).0;
    assert Placeholders(1) == [NotePlaceholder(0)];
  }

  // ---- when a call throws ----

  /** What an invoke's callback is handed after some calls. */
  predicate IsHanded(args: InvokeArgs, before: seq<Call>) {
    && |args.openNoteIds| == NotesAsked(before) && args.poolAddress == "${poolAddress}"
    && forall k :: 0 <= k < |args.openNoteIds| ==> args.openNoteIds[k] == "${openNoteIds[" + Numeral(k, 10) + "]}"
  }

  predicate NoNumber(call: Call) {
    match call
    case CallDeposit(token, amount) => token == None || amount == None
    case CallWithdraw(token, amount, recipient) => token == None || amount == None || recipient == None
    case CallTransfer(token, amount, recipient) => token == None || amount == None || recipient == None
    case CallCreateOpenNote(token) => token == None
    case CallShadowInvoke(_, nonce, _) => nonce == None
    case _ => false
  }

  /**
   * After any calls, a call throws exactly when it is given no number where it needs one, when it asks for
   * an open note after an invoke or for a user without an address, or when its own callback throws on the
   * placeholders it is handed: one per open note asked for in time, and the pool's.
   */
  lemma ThrowsExactly(user: Number, before: seq<Call>, call: Call, args: InvokeArgs)
    requires IsHanded(args, before)
    ensures After(Built(user, before), user, call).1
            <==> || NoNumber(call)
                 || (call.CallCreateOpenNote? && (SomeInvokes(before) || user == None))
                 || (call.CallInvoke? && call.callback(args) == None)
                 || (call.CallInvokeWithComputation? && call.compute(args) == None)
  {
    AlwaysTracks(user, before);
    var d := Built(user, before);
    forall k | 0 <= k < |args.openNoteIds| ensures args.openNoteIds[k] == Args(d).openNoteIds[k] {
      PlaceholdersAre(k);
    }
    PlaceholdersAre(0);
    assert args.openNoteIds == Args(d).openNoteIds;
    assert args == Args(d);
    hide Args, Numeral, NotePlaceholder, Tracks, SomeInvokes, Built, ToHex;
  }

  // ---- the prover ----

  datatype CoreAmount = Open | Of(n: nat)

  /** The core builder's operations; an invoke's calldata is resolved once the transaction is compiled. */
  datatype CoreOp =
    | CoreDeposit(token: string, amount: nat)
    | CoreWithdraw(token: string, amount: nat, recipient: string)
    | CoreTransfer(token: string, sent: CoreAmount, recipient: string)
    | CoreInvoke(contract: string, calldata: seq<string>)
    | CoreComputeAndInvoke(contract: string, computeData: seq<string>, invokeData: seq<string>)
    | CoreShadowInvoke(dappName: string, nonce: string, calls: seq<string>)

  /** `num.toBigInt`: nothing for a string that is no number. */
  type Parser = string -> Option<nat>

  /** What `BigInt` throws on such a string. */
  function NotABigInt(): Result<CoreOp> {
    Err("cannot convert to a BigInt")
  }

  function Replayed(a: Action, toBigInt: Parser): Result<CoreOp> {
    match a
    case Deposit(token, amount) =>
      var n := toBigInt(amount);
      if n.None? then NotABigInt() else Ok(CoreDeposit(token, n.value))
    case Withdraw(token, amount, recipient) =>
      var n := toBigInt(amount);
      if n.None? then NotABigInt() else Ok(CoreWithdraw(token, n.value, recipient))
    case Transfer(token, amount, recipient) =>
      var n := toBigInt(amount);
      if amount == "OPEN" then Ok(CoreTransfer(token, Open, recipient))
      else if n.None? then NotABigInt() else Ok(CoreTransfer(token, Of(n.value), recipient))
    case Invoke(contract, calldata) => Ok(CoreInvoke(contract, calldata))
    case ComputeAndInvoke(contract, compute, invoke) => Ok(CoreComputeAndInvoke(contract, compute, invoke))
    case ShadowAccountInvoke(dappName, nonce, calls) => Ok(CoreShadowInvoke(dappName, nonce, calls))
  }

  /** Core operation `op` is what an action says: the same kind and parts, its amount the number spelt or `OPEN`. */
  predicate Says(a: Action, toBigInt: Parser, op: CoreOp) {
    match op
    case CoreDeposit(token, n) => a.Deposit? && a.token == token && toBigInt(a.amount) == Some(n)
    case CoreWithdraw(token, n, recipient) =>
      a.Withdraw? && a.token == token && a.recipient == recipient && toBigInt(a.amount) == Some(n)
    case CoreTransfer(token, sent, recipient) =>
      && a.Transfer? && a.token == token && a.recipient == recipient && (sent.Open? <==> a.amount == "OPEN")
      && (sent.Of? ==> toBigInt(a.amount) == Some(sent.n))
    case CoreInvoke(contract, calldata) => a == Invoke(contract, calldata)
    case CoreComputeAndInvoke(contract, compute, invoke) => a == ComputeAndInvoke(contract, compute, invoke)
    case CoreShadowInvoke(dappName, nonce, calls) => a == ShadowAccountInvoke(dappName, nonce, calls)
  }

  /** An action has an amount to convert, and it does not. */
  predicate Unsayable(a: Action, toBigInt: Parser) {
    || ((a.Deposit? || a.Withdraw?) && toBigInt(a.amount) == None)
    || (a.Transfer? && a.amount != "OPEN" && toBigInt(a.amount) == None)
  }

  lemma ReplayedSays(a: Action, toBigInt: Parser)
    ensures Replayed(a, toBigInt).Err? <==> Unsayable(a, toBigInt)
    ensures Replayed(a, toBigInt).Ok? ==> Says(a, toBigInt, Replayed(a, toBigInt).value)
  {
  }

  /** `translate`: the actions replayed in order, unless some amount does not convert. */
  method Translate(actions: seq<Action>, toBigInt: Parser) returns (r: Result<seq<CoreOp>>)
    ensures r.Ok? <==> forall i :: 0 <= i < |actions| ==> !Unsayable(actions[i], toBigInt)
    ensures r.Ok? ==> |r.value| == |actions|
    ensures r.Ok? ==> forall i :: 0 <= i < |actions| ==> Says(actions[i], toBigInt, r.value[i])
  {
    hide Says, Unsayable, Replayed;
    var ops: seq<CoreOp> := [];
    for i := 0 to |actions|
      invariant |ops| == i && forall j :: 0 <= j < i ==> !Unsayable(actions[j], toBigInt)
      invariant forall j :: 0 <= j < i ==> Says(actions[j], toBigInt, ops[j])
    {
      ReplayedSays(actions[i], toBigInt);
      var op := Replayed(actions[i], toBigInt);
      if op.Err? {
        return Err(op.error);
      }
      ops := ops + [op.value];
    }
    return Ok(ops);
  }

  datatype Item = Note(k: nat) | Pool | Felt(n: nat)

  /** What a calldata item says before it is resolved. */
  function Spelt(item: Item): string {
    match item
    case Note(k) => NotePlaceholder(k)
    case Pool => PoolPlaceholder()
    case Felt(n) => ToHex(n)
  }

  /** `substitute`; a literal the felt parser rejects is an error. */
  function Substitute(item: string, openNotes: seq<nat>, pool: nat, toBigInt: Parser): Result<string> {
    match PlaceholderIndex(item)
    case Some(k) => if k < |openNotes| then Ok(ToHex(openNotes[k])) else Err("out of range")
    case None =>
      if item == PoolPlaceholder() then Ok(ToHex(pool))
      else
        match toBigInt(item)
        case None => Err("cannot convert to a BigInt")
        case Some(n) => Ok(ToHex(n))
  }

  /** What a calldata item means in a transaction with these open notes. */
  function Meaning(item: Item, openNotes: seq<nat>, pool: nat): Result<string> {
    match item
    case Note(k) => if k < |openNotes| then Ok(ToHex(openNotes[k])) else Err("out of range")
    case Pool => Ok(ToHex(pool))
    case Felt(n) => Ok(ToHex(n))
  }

  /** A felt parser reads back what `num.toHex` writes. */
  ghost predicate ReadsHex(toBigInt: Parser) {
    forall n: nat :: toBigInt(ToHex(n)) == Some(n)
  }

  lemma PoolIsNoNote()
    ensures PlaceholderIndex(PoolPlaceholder()) == None
  {
    var o := |OpenPart()|;
    if |PoolPlaceholder()| >= o {
      assert PoolPlaceholder()[..o][2] == 'p' && OpenPart()[2] == 'o';
    }
  }

  /** Anything that is no placeholder is a literal: the number it parses to, or a failure. */
  lemma LiteralsSubstitute(item: string, openNotes: seq<nat>, pool: nat, toBigInt: Parser)
    requires item != "${poolAddress}"
    requires forall digits :: AllDigits(digits, 10) && digits != "" ==> item != "${openNoteIds[" + digits + "]}"
    ensures Substitute(item, openNotes, pool, toBigInt)
            == if toBigInt(item).Some? then Ok(ToHex(toBigInt(item).value)) else Err("cannot convert to a BigInt")
  {
    if PlaceholderIndex(item).Some? {
      PlaceholderIndexIs(item, PlaceholderIndex(item).value);
    }
  }

  /** Substitution gives every spelt item its meaning, and fails exactly on a note the transaction does not create. */
  lemma SubstituteMeans(item: Item, openNotes: seq<nat>, pool: nat, toBigInt: Parser)
    requires ReadsHex(toBigInt)
    ensures Substitute(Spelt(item), openNotes, pool, toBigInt) == Meaning(item, openNotes, pool)
    ensures Substitute(Spelt(item), openNotes, pool, toBigInt).Err? <==> item.Note? && item.k >= |openNotes|
  {
    match item
    case Note(k) => PlaceholderReadsBack(k);
    case Pool => PoolIsNoNote();
    case Felt(n) => HexIsNoPlaceholder(n);
  }

  // ---- build, then prove ----

  /** Once invoked, no call adds an open note. */
  lemma {:induction false} NotesAreFixed(user: Number, before: seq<Call>, rest: seq<Call>)
    requires Built(user, before).invoked
    ensures Built(user, before + rest).invoked
    ensures OpenNotes(Built(user, before + rest).actions) == OpenNotes(Built(user, before).actions)
  {
    if rest == [] {
      assert before + rest == before;
    } else {
      var front, last := before + rest[..|rest| - 1], rest[|rest| - 1];
      NotesAreFixed(user, before, rest[..|rest| - 1]);
      assert (before + rest)[..|before + rest| - 1] == front;
      CallAddsNoNote(Built(user, front), user, last);
    }
  }

  lemma CallAddsNoNote(d: Draft, user: Number, call: Call)
    requires d.invoked
    ensures After(d, user, call).0.invoked && OpenNotes(After(d, user, call).0.actions) == OpenNotes(d.actions)
  {
    var after := After(d, user, call).0;
    if after.actions != d.actions {
      match call {
        case CallTransfer(_, amount, _) => HexIsNoPlaceholder(amount.value);
        case _ =>
      }
      AppendedOpens(d.actions, after.actions[|d.actions|]);
    }
  }

  predicate GetsArgs(call: Call) {
    call.CallInvoke? || call.CallInvokeWithComputation?
  }

  /**
   * The placeholder round trip. Whatever is called before and after it, an invoke's callback is given
   * one placeholder per open note asked for in time. With the notes listed in the order they were
   * created, each resolves to the note it stood for when it was handed out if the user's address
   * converts, and is out of range if it does not.
   */
  lemma PlaceholdersResolve(user: Number, before: seq<Call>, call: Call, rest: seq<Call>, notes: seq<nat>, pool: nat,
                            toBigInt: Parser, k: nat)
    requires GetsArgs(call)
    requires |notes| == |OpenNotes(Built(user, before + [call] + rest).actions)|
    requires k < |Args(Built(user, before)).openNoteIds|
    ensures |Args(Built(user, before)).openNoteIds| == NotesAsked(before)
    ensures OpenNotes(Built(user, before + [call] + rest).actions) == OpenNotes(Built(user, before).actions)
    ensures user.Some? ==>
              NotesAsked(before) == |notes|
              && Substitute(Args(Built(user, before)).openNoteIds[k], notes, pool, toBigInt) == Ok(ToHex(notes[k]))
    ensures user.None? ==> Substitute(Args(Built(user, before)).openNoteIds[k], notes, pool, toBigInt).Err?
    ensures Substitute(Args(Built(user, before)).poolAddress, notes, pool, toBigInt) == Ok(ToHex(pool))
  {
    PoolIsNoNote();
    AlwaysTracks(user, before);
    InvokeFixesNotes(user, before, call);
    NotesAreFixed(user, before + [call], rest);
    PlaceholderReadsBack(k);
  }

  lemma InvokeFixesNotes(user: Number, before: seq<Call>, call: Call)
    requires GetsArgs(call)
    ensures Built(user, before + [call]).invoked
    ensures OpenNotes(Built(user, before + [call]).actions) == OpenNotes(Built(user, before).actions)
  {
    var d := Built(user, before);
    assert (before + [call])[..|before|] == before;
    var after := After(d, user, call).0;
    if after.actions != d.actions {
      AppendedOpens(d.actions, after.actions[|d.actions|]);
    }
  }

  /** What a call asks of the core builder, in numbers. */
  function Asked(d: Draft, user: Number, call: Call): CoreOp
    requires !After(d, user, call).1
  {
    match call
    case CallDeposit(token, amount) => CoreDeposit(ToHex(token.value), amount.value)
    case CallWithdraw(token, amount, recipient) =>
      CoreWithdraw(ToHex(token.value), amount.value, ToHex(recipient.value))
    case CallTransfer(token, amount, recipient) =>
      CoreTransfer(ToHex(token.value), Of(amount.value), ToHex(recipient.value))
    case CallCreateOpenNote(token) => CoreTransfer(ToHex(token.value), Open, ToHex(user.value))
    case CallInvoke(callback) => CoreInvoke(callback(Args(d)).value.contract, callback(Args(d)).value.calldata)
    case CallInvokeWithComputation(compute) =>
      var details := compute(Args(d)).value;
      CoreComputeAndInvoke(details.contract, details.computeCalldata, details.invokeCalldata)
    case CallShadowInvoke(dappName, nonce, calls) => CoreShadowInvoke(dappName, ToHex(nonce.value), calls)
  }

  /** What the calls that did not throw ask, in order. */
  function AllAsked(user: Number, calls: seq<Call>): seq<CoreOp> {
    if calls == [] then []
    else
      var d, last := Built(user, calls[..|calls| - 1]), calls[|calls| - 1];
      AllAsked(user, calls[..|calls| - 1]) + (if After(d, user, last).1 then [] else [Asked(d, user, last)])
  }

  lemma CallReplays(d: Draft, user: Number, call: Call, toBigInt: Parser)
    requires ReadsHex(toBigInt)
    ensures var (after, threw) := After(d, user, call);
            if threw then after.actions == d.actions
            else |after.actions| == |d.actions| + 1 && after.actions[..|d.actions|] == d.actions
                 && Replayed(after.actions[|d.actions|], toBigInt) == Ok(Asked(d, user, call))
  {
    hide ToHex, Numeral;
    if call.CallTransfer? && call.amount.Some? {
      HexIsNoPlaceholder(call.amount.value);
    }
  }

  lemma ReplaysOn(actions: seq<Action>, asked: seq<CoreOp>, actions': seq<Action>, op: CoreOp, toBigInt: Parser)
    requires |actions| == |asked| && forall i :: 0 <= i < |actions| ==> Replayed(actions[i], toBigInt) == Ok(asked[i])
    requires |actions'| == |actions| + 1 && actions'[..|actions|] == actions
    requires Replayed(actions'[|actions|], toBigInt) == Ok(op)
    ensures forall i :: 0 <= i < |actions'| ==> Replayed(actions'[i], toBigInt) == Ok((asked + [op])[i])
  {
    hide Replayed;
    forall i | 0 <= i < |actions'| ensures Replayed(actions'[i], toBigInt) == Ok((asked + [op])[i]) {
      if i < |actions| {
        assert actions'[i] == actions'[..|actions|][i] == actions[i];
      }
    }
  }

  /**
   * Replaying the built actions asks the core builder for exactly what the calls asked, amounts and open
   * notes included.
   */
  lemma {:induction false} BuildReplays(user: Number, calls: seq<Call>, toBigInt: Parser)
    requires ReadsHex(toBigInt)
    ensures var actions, asked := Built(user, calls).actions, AllAsked(user, calls);
            |actions| == |asked| && forall i :: 0 <= i < |actions| ==> Replayed(actions[i], toBigInt) == Ok(asked[i])
  {
    if calls != [] {
      hide After, Replayed, Asked;
      var d, last := Built(user, calls[..|calls| - 1]), calls[|calls| - 1];
      BuildReplays(user, calls[..|calls| - 1], toBigInt);
      CallReplays(d, user, last, toBigInt);
      var (after, threw) := After(d, user, last);
      assert Built(user, calls) == after;
      if !threw {
        ReplaysOn(d.actions, AllAsked(user, calls[..|calls| - 1]), after.actions, Asked(d, user, last), toBigInt);
      }
    }
  }
}
