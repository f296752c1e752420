/**
 * `classifyTransaction`: one transaction's raw events become user-facing actions. The group-by
 * specification comes first, then the method with the source's loops, maps and index set.
 */
module Classifier {
  import opened Wrappers
  import opened Numerals

  datatype ChannelKind = Incoming | Outgoing | SelfChannel

  datatype Note = Note(channelKind: ChannelKind, counterparty: nat, token: nat, amount: int)
  datatype Deposit = Deposit(fromAddress: nat, token: nat, amount: int)
  datatype Withdrawal = Withdrawal(toAddress: nat, token: nat, amount: int)
  datatype OpenNoteDeposit = OpenNoteDeposit(depositor: nat, token: nat, amount: int)

  datatype Transaction = Transaction(
    notes: seq<Note>,
    deposits: seq<Deposit>,
    withdrawals: seq<Withdrawal>,
    openNoteDeposits: seq<OpenNoteDeposit>,
    registeredPubkey: Option<nat>)

  datatype SwapLeg = SwapLeg(token: nat, amount: int)

  datatype Action =
    | Deposited(fromAddress: nat, token: nat, amount: int)
    | Withdrawn(toAddress: nat, token: nat, amount: int)
    | Fee(toAddress: nat, token: nat, amount: int)
    | TransferSent(toAddress: nat, token: nat, amount: int, noteCount: nat)
    | TransferReceived(fromAddress: nat, token: nat, amount: int, noteCount: nat)
    | Swap(executor: nat, sent: seq<SwapLeg>, received: seq<SwapLeg>)
    | TransferSelf(token: nat, amount: int, noteCount: nat)
    | Register(pubkey: nat)

  // ---- swaps ----

  /** The depositors, each at its first occurrence. */
  function Executors(ds: seq<OpenNoteDeposit>): (es: seq<nat>)
    ensures forall i, j :: 0 <= i < j < |es| ==> es[i] != es[j]
    ensures forall e :: e in es <==> exists i :: 0 <= i < |ds| && ds[i].depositor == e
  {
    if ds == [] then []
    else
      var front, d := Executors(ds[..|ds| - 1]), ds[|ds| - 1].depositor;
      if d in front then front else front + [d]
  }

  function ReceivedLegs(ds: seq<OpenNoteDeposit>, executor: nat): seq<SwapLeg> {
    if ds == [] then []
    else
      var last := ds[|ds| - 1];
      ReceivedLegs(ds[..|ds| - 1], executor)
      + (if last.depositor == executor then [SwapLeg(last.token, last.amount)] else [])
  }

  function SentLegs(ws: seq<Withdrawal>, executor: nat): seq<SwapLeg> {
    if ws == [] then []
    else
      var last := ws[|ws| - 1];
      SentLegs(ws[..|ws| - 1], executor)
      + (if last.toAddress == executor then [SwapLeg(last.token, last.amount)] else [])
  }

  function Swaps(es: seq<nat>, ws: seq<Withdrawal>, ds: seq<OpenNoteDeposit>): seq<Action> {
    if es == [] then []
    else
      var e := es[|es| - 1];
      Swaps(es[..|es| - 1], ws, ds) + [Swap(e, SentLegs(ws, e), ReceivedLegs(ds, e))]
  }

  // ---- deposits and the other withdrawals ----

  function Deposits(ds: seq<Deposit>): seq<Action> {
    if ds == [] then []
    else
      var last := ds[|ds| - 1];
      Deposits(ds[..|ds| - 1]) + [Deposited(last.fromAddress, last.token, last.amount)]
  }

  function PlainWithdrawal(w: Withdrawal, fees: set<nat>): Action {
    if w.toAddress in fees then Fee(w.toAddress, w.token, w.amount) else Withdrawn(w.toAddress, w.token, w.amount)
  }

  function Plain(ws: seq<Withdrawal>, es: seq<nat>, fees: set<nat>): seq<Action> {
    if ws == [] then []
    else
      var last := ws[|ws| - 1];
      Plain(ws[..|ws| - 1], es, fees) + (if last.toAddress in es then [] else [PlainWithdrawal(last, fees)])
  }

  // ---- notes ----

  datatype Group = Group(channelKind: ChannelKind, counterparty: nat, token: nat)

  function GroupOf(n: Note): Group {
    Group(n.channelKind, n.counterparty, n.token)
  }

  /** The groups of the notes to or from others, each at its first occurrence. */
  function Groups(notes: seq<Note>): (gs: seq<Group>)
    ensures forall i, j :: 0 <= i < j < |gs| ==> gs[i] != gs[j]
    ensures forall g ::
              g in gs <==>
              exists i :: 0 <= i < |notes| && !notes[i].channelKind.SelfChannel? && GroupOf(notes[i]) == g
  {
    if notes == [] then []
    else
      var front, last := Groups(notes[..|notes| - 1]), notes[|notes| - 1];
      if last.channelKind.SelfChannel? || GroupOf(last) in front then front else front + [GroupOf(last)]
  }

  function GroupTotal(notes: seq<Note>, g: Group): int {
    if notes == [] then 0
    else
      var last := notes[|notes| - 1];
      GroupTotal(notes[..|notes| - 1], g) + (if GroupOf(last) == g then last.amount else 0)
  }

  function GroupCount(notes: seq<Note>, g: Group): nat {
    if notes == [] then 0
    else GroupCount(notes[..|notes| - 1], g) + (if GroupOf(notes[|notes| - 1]) == g then 1 else 0)
  }

  function Transfer(notes: seq<Note>, g: Group): Action {
    if g.channelKind.Outgoing? then TransferSent(g.counterparty, g.token, GroupTotal(notes, g), GroupCount(notes, g))
    else TransferReceived(g.counterparty, g.token, GroupTotal(notes, g), GroupCount(notes, g))
  }

  function Transfers(gs: seq<Group>, notes: seq<Note>): seq<Action> {
    if gs == [] then [] else Transfers(gs[..|gs| - 1], notes) + [Transfer(notes, gs[|gs| - 1])]
  }

  /** The tokens of the viewer's own notes, each at its first occurrence. */
  function SelfTokens(notes: seq<Note>): (ts: seq<nat>)
    ensures forall i, j :: 0 <= i < j < |ts| ==> ts[i] != ts[j]
    ensures forall t ::
              t in ts <==>
              exists i :: 0 <= i < |notes| && notes[i].channelKind.SelfChannel? && notes[i].token == t
  {
    if notes == [] then []
    else
      var front, last := SelfTokens(notes[..|notes| - 1]), notes[|notes| - 1];
      if !last.channelKind.SelfChannel? || last.token in front then front else front + [last.token]
  }

  function SelfTotal(notes: seq<Note>, token: nat): int {
    if notes == [] then 0
    else
      var last := notes[|notes| - 1];
      SelfTotal(notes[..|notes| - 1], token)
      + (if last.channelKind.SelfChannel? && last.token == token then last.amount else 0)
  }

  function SelfCount(notes: seq<Note>, token: nat): nat {
    if notes == [] then 0
    else
      var last := notes[|notes| - 1];
      SelfCount(notes[..|notes| - 1], token) + (if last.channelKind.SelfChannel? && last.token == token then 1 else 0)
  }

  function SelfTransfers(ts: seq<nat>, notes: seq<Note>): seq<Action> {
    if ts == [] then []
    else
      var t := ts[|ts| - 1];
      SelfTransfers(ts[..|ts| - 1], notes) + [TransferSelf(t, SelfTotal(notes, t), SelfCount(notes, t))]
  }

  // ---- the classification ----

  /** The actions that are not fees, in order. */
  function NotFees(actions: seq<Action>): seq<Action> {
    if actions == [] then []
    else
      var last := actions[|actions| - 1];
      NotFees(actions[..|actions| - 1]) + (if last.Fee? then [] else [last])
  }

  /** Everything but the viewer's own notes. */
  function Meaningful(tx: Transaction, fees: set<nat>): seq<Action> {
    var es := Executors(tx.openNoteDeposits);
    Swaps(es, tx.withdrawals, tx.openNoteDeposits) + (Deposits(tx.deposits) + Plain(tx.withdrawals, es, fees))
    + Transfers(Groups(tx.notes), tx.notes)
  }

  /** The actions before fees are stripped from incoming transfers. */
  function Unstripped(tx: Transaction, fees: set<nat>): seq<Action> {
    var actions := Meaningful(tx, fees);
    if NotFees(actions) == [] then actions + SelfTransfers(SelfTokens(tx.notes), tx.notes) else actions
  }

  predicate SomeReceived(actions: seq<Action>) {
    exists i :: 0 <= i < |actions| && actions[i].TransferReceived?
  }

  predicate SomeSent(actions: seq<Action>) {
    exists i :: 0 <= i < |actions| && actions[i].TransferSent?
  }

  function Classify(tx: Transaction, fees: set<nat>): seq<Action> {
    if tx.registeredPubkey.Some? then [Register(tx.registeredPubkey.value)]
    else
      var actions := Unstripped(tx, fees);
      if SomeReceived(actions) && !SomeSent(actions) then NotFees(actions) else actions
  }

  // ---- the aggregation key ----

  function KindName(kind: ChannelKind): string {
    match kind
    case Incoming => "incoming"
    case Outgoing => "outgoing"
    case SelfChannel => "self_channel"
  }

  /** `${channelKind}:${counterparty}:${token}`. */
  function Key(g: Group): string {
    KindName(g.channelKind) + ":" + (Numeral(g.counterparty, 10) + ":" + Numeral(g.token, 10))
  }

  lemma {:induction false} SplitAtColon(a: string, b: string, x: string, y: string)
    requires a + ":" + x == b + ":" + y && ':' !in a && ':' !in b
    ensures a == b && x == y
  {
    var l, r := a + ":" + x, b + ":" + y;
    if a == "" || b == "" {
      assert l[0] == r[0];
      assert l[1..] == x && r[1..] == y;
    } else {
      assert l[0] == a[0] && r[0] == b[0];
      assert l[1..] == a[1..] + ":" + x && r[1..] == b[1..] + ":" + y;
      SplitAtColon(a[1..], b[1..], x, y);
    }
  }

  lemma NoColon(n: nat)
    ensures ':' !in Numeral(n, 10)
  {
    assert !IsDigit(':', 10);
  }

  /** Two groups share a key only if they are the same group. */
  lemma KeyInjective(g: Group, h: Group)
    requires Key(g) == Key(h)
    ensures g == h
  {
    NoColon(g.counterparty);
    NoColon(h.counterparty);
    SplitAtColon(KindName(g.channelKind), KindName(h.channelKind),
                 Numeral(g.counterparty, 10) + ":" + Numeral(g.token, 10),
                 Numeral(h.counterparty, 10) + ":" + Numeral(h.token, 10));
    assert KindName(g.channelKind)[0] == KindName(h.channelKind)[0];
    SplitAtColon(Numeral(g.counterparty, 10), Numeral(h.counterparty, 10), Numeral(g.token, 10), Numeral(h.token, 10));
    NumeralInjective(g.counterparty, h.counterparty, 10);
    NumeralInjective(g.token, h.token, 10);
  }
}
