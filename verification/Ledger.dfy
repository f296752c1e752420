/**
 * What a classified transaction does to balances. The history view nets the classified actions per
 * token; the result is shown to equal a direct sum over the transaction's raw events.
 */
module Ledger {
  import opened Sums
  import opened Classifier
  import opened ClassifierPartition
  import ClassifierLoops

  function LegNet(token: nat): SwapLeg -> int {
    (leg: SwapLeg) => if leg.token == token then leg.amount else 0
  }

  /** What one action adds to the viewer's balance in `token`. */
  function ActionNet(viewer: nat, token: nat): Action -> int {
    (a: Action) =>
      match a
      case Withdrawn(to, t, amount) => if to != viewer && t == token then -amount else 0
      case Fee(_, t, amount) => if t == token then -amount else 0
      case TransferSent(_, t, amount, _) => if t == token then -amount else 0
      case TransferReceived(_, t, amount, _) => if t == token then amount else 0
      case Swap(_, sent, received) => Sum(received, LegNet(token)) - Sum(sent, LegNet(token))
      case _ => 0
  }

  function Net(actions: seq<Action>, viewer: nat, token: nat): int {
    Sum(actions, ActionNet(viewer, token))
  }

  // ---- computeBalanceUpdates ----

  /** The tokens an action touches, whatever the amount. */
  predicate TouchesToken(a: Action, viewer: nat, token: nat) {
    match a
    case Withdrawn(to, t, _) => to != viewer && t == token
    case Fee(_, t, _) => t == token
    case TransferSent(_, t, _, _) => t == token
    case TransferReceived(_, t, _, _) => t == token
    case Swap(_, sent, received) =>
      (exists i :: 0 <= i < |sent| && sent[i].token == token)
        || (exists i :: 0 <= i < |received| && received[i].token == token)
    case _ => false
  }

  function Bumped(net: map<nat, int>, token: nat, amount: int): map<nat, int> {
    net[token := (if token in net then net[token] else 0) + amount]
  }

  function Signed(plus: bool, amount: int): int {
    if plus then amount else -amount
  }

  method AddLegs(net: map<nat, int>, legs: seq<SwapLeg>, plus: bool) returns (net': map<nat, int>)
    ensures forall t: nat :: t in net' <==> t in net || exists i :: 0 <= i < |legs| && legs[i].token == t
    ensures forall t: nat ::
              (if t in net' then net'[t] else 0) == (if t in net then net[t] else 0)
                + Signed(plus, Sum(legs, LegNet(t)))
  {
    net' := net;
    for i := 0 to |legs|
      invariant forall t: nat :: t in net' <==> t in net || exists j :: 0 <= j < i && legs[j].token == t
      invariant forall t: nat ::
                  (if t in net' then net'[t] else 0) == (if t in net then net[t] else 0)
                    + Signed(plus, Sum(legs[..i], LegNet(t)))
    {
      assert legs[..i + 1][..i] == legs[..i];
      net' := Bumped(net', legs[i].token, Signed(plus, legs[i].amount));
    }
    assert legs[..|legs|] == legs;
  }

  method AddAction(net: map<nat, int>, a: Action, viewer: nat) returns (net': map<nat, int>)
    ensures forall t: nat :: t in net' <==> t in net || TouchesToken(a, viewer, t)
    ensures forall t: nat ::
              (if t in net' then net'[t] else 0) == (if t in net then net[t] else 0) + ActionNet(viewer, t)(a)
  {
    net' := net;
    match a
    case Deposited(_, _, _) =>
    case Withdrawn(to, token, amount) =>
      if to != viewer {
        net' := Bumped(net, token, -amount);
      }
    case Fee(_, token, amount) => net' := Bumped(net, token, -amount);
    case TransferSent(_, token, amount, _) => net' := Bumped(net, token, -amount);
    case TransferReceived(_, token, amount, _) => net' := Bumped(net, token, amount);
    case Swap(_, sent, received) =>
      net' := AddLegs(net, sent, false);
      net' := AddLegs(net', received, true);
    case TransferSelf(_, _, _) =>
    case Register(_) =>
  }

  /** `computeBalanceUpdates`, as the map it lists: one entry per token some action touches, its net amount. */
  method ComputeBalanceUpdates(actions: seq<Action>, viewer: nat) returns (net: map<nat, int>)
    ensures forall t: nat :: t in net <==> exists i :: 0 <= i < |actions| && TouchesToken(actions[i], viewer, t)
    ensures forall t: nat :: (if t in net then net[t] else 0) == Net(actions, viewer, t)
  {
    net := map[];
    for i := 0 to |actions|
      invariant forall t: nat :: t in net <==> exists j :: 0 <= j < i && TouchesToken(actions[j], viewer, t)
      invariant forall t: nat :: (if t in net then net[t] else 0) == Net(actions[..i], viewer, t)
    {
      assert actions[..i + 1][..i] == actions[..i];
      net := AddAction(net, actions[i], viewer);
    }
    assert actions[..|actions|] == actions;
  }

  // ---- the direct sum ----

  function DepositIn(es: seq<nat>, token: nat): OpenNoteDeposit -> int {
    (d: OpenNoteDeposit) => if d.depositor in es && d.token == token then d.amount else 0
  }

  function WithdrawnTo(es: seq<nat>, token: nat): Withdrawal -> int {
    (w: Withdrawal) => if w.toAddress in es && w.token == token then w.amount else 0
  }

  /** A withdrawal no executor took: fees charge unless stripped, the viewer's own address never. */
  function PlainCharge(es: seq<nat>, fees: set<nat>, stripped: bool, viewer: nat, token: nat): Withdrawal -> int {
    (w: Withdrawal) =>
      if w.toAddress in es || w.token != token then 0
      else if w.toAddress in fees then (if stripped then 0 else w.amount)
      else if w.toAddress != viewer then w.amount else 0
  }

  function Charge(es: seq<nat>, fees: set<nat>, stripped: bool, viewer: nat, token: nat): Withdrawal -> int {
    (w: Withdrawal) =>
      if w.token != token then 0
      else if w.toAddress in es then w.amount
      else if w.toAddress in fees then (if stripped then 0 else w.amount)
      else if w.toAddress != viewer then w.amount else 0
  }

  function NoteNet(token: nat): Note -> int {
    (n: Note) =>
      if n.token != token then 0
      else match n.channelKind case Incoming => n.amount case Outgoing => -n.amount case SelfChannel => 0
  }

  function DepositNet(token: nat): OpenNoteDeposit -> int {
    (d: OpenNoteDeposit) => if d.token == token then d.amount else 0
  }

  predicate SomeOf(notes: seq<Note>, kind: ChannelKind) {
    exists i :: 0 <= i < |notes| && notes[i].channelKind == kind
  }

  predicate IncomingOnly(notes: seq<Note>) {
    SomeOf(notes, Incoming) && !SomeOf(notes, Outgoing)
  }

  /** The balance change read straight off the raw events. */
  function Direct(tx: Transaction, fees: set<nat>, viewer: nat, token: nat): int {
    if tx.registeredPubkey.Some? then 0
    else
      Sum(tx.openNoteDeposits, DepositNet(token)) + Sum(tx.notes, NoteNet(token))
      - Sum(tx.withdrawals, Charge(Executors(tx.openNoteDeposits), fees, IncomingOnly(tx.notes), viewer, token))
  }

  // ---- each part of the classification ----

  lemma {:induction false} ReceivedNet(ds: seq<OpenNoteDeposit>, e: nat, token: nat)
    ensures Sum(ReceivedLegs(ds, e), LegNet(token)) == Sum(ds, DepositIn([e], token))
  {
    if ds != [] {
      var last := ds[|ds| - 1];
      ReceivedNet(ds[..|ds| - 1], e, token);
      var added: seq<SwapLeg> := if last.depositor == e then [SwapLeg(last.token, last.amount)] else [];
      SumConcat(ReceivedLegs(ds[..|ds| - 1], e), added, LegNet(token));
      if added != [] { assert added[..0] == []; }
    }
  }

  lemma {:induction false} SentNet(ws: seq<Withdrawal>, e: nat, token: nat)
    ensures Sum(SentLegs(ws, e), LegNet(token)) == Sum(ws, WithdrawnTo([e], token))
  {
    if ws != [] {
      var last := ws[|ws| - 1];
      SentNet(ws[..|ws| - 1], e, token);
      var added: seq<SwapLeg> := if last.toAddress == e then [SwapLeg(last.token, last.amount)] else [];
      SumConcat(SentLegs(ws[..|ws| - 1], e), added, LegNet(token));
      if added != [] { assert added[..0] == []; }
    }
  }

  predicate Distinct<T(==)>(s: seq<T>) {
    forall i, j :: 0 <= i < j < |s| ==> s[i] != s[j]
  }

  lemma LastSwapNet(es: seq<nat>, ws: seq<Withdrawal>, ds: seq<OpenNoteDeposit>, viewer: nat, token: nat)
    requires es != []
    ensures Net(Swaps(es, ws, ds), viewer, token)
            == Net(Swaps(es[..|es| - 1], ws, ds), viewer, token)
               + Sum(ds, DepositIn([es[|es| - 1]], token)) - Sum(ws, WithdrawnTo([es[|es| - 1]], token))
  {
    var e, swaps := es[|es| - 1], Swaps(es[..|es| - 1], ws, ds);
    assert Swaps(es, ws, ds)[..|swaps|] == swaps;
    ReceivedNet(ds, e, token);
    SentNet(ws, e, token);
  }

  lemma {:induction false} SwapsNet(es: seq<nat>, ws: seq<Withdrawal>, ds: seq<OpenNoteDeposit>, viewer: nat,
                                    token: nat)
    requires Distinct(es)
    ensures Net(Swaps(es, ws, ds), viewer, token) == Sum(ds, DepositIn(es, token)) - Sum(ws, WithdrawnTo(es, token))
  {
    if es == [] {
      SumVanishes(ds, DepositIn(es, token));
      SumVanishes(ws, WithdrawnTo(es, token));
    } else {
      var front, e := es[..|es| - 1], es[|es| - 1];
      SwapsNet(front, ws, ds, viewer, token);
      LastSwapNet(es, ws, ds, viewer, token);
      assert es == front + [e] && e !in front;
      SumSplits(ds, DepositIn(front, token), DepositIn([e], token), DepositIn(es, token));
      SumSplits(ws, WithdrawnTo(front, token), WithdrawnTo([e], token), WithdrawnTo(es, token));
    }
  }

  lemma {:induction false} DepositsNet(ds: seq<Deposit>, viewer: nat, token: nat)
    ensures Net(Deposits(ds), viewer, token) == 0 && NotFees(Deposits(ds)) == Deposits(ds)
  {
    if ds != [] {
      DepositsNet(ds[..|ds| - 1], viewer, token);
      assert Deposits(ds)[..|Deposits(ds)| - 1] == Deposits(ds[..|ds| - 1]);
    }
  }

  function Stripped(actions: seq<Action>, stripped: bool): seq<Action> {
    if stripped then NotFees(actions) else actions
  }

  lemma {:induction false} StripConcat(a: seq<Action>, b: seq<Action>)
    ensures NotFees(a + b) == NotFees(a) + NotFees(b)
  {
    if b == [] {
      assert a + b == a;
    } else {
      assert (a + b)[..|a + b| - 1] == a + b[..|b| - 1];
      StripConcat(a, b[..|b| - 1]);
    }
  }

  lemma OnePlainNet(w: Withdrawal, es: seq<nat>, fees: set<nat>, stripped: bool, viewer: nat, token: nat)
    requires w.toAddress !in es
    ensures Net(Stripped([PlainWithdrawal(w, fees)], stripped), viewer, token)
            == -PlainCharge(es, fees, stripped, viewer, token)(w)
  {
    var a := PlainWithdrawal(w, fees);
    assert [a][..0] == [];
    assert NotFees([a]) == if a.Fee? then [] else [a];
    assert Net([a], viewer, token) == Net([], viewer, token) + ActionNet(viewer, token)(a);
  }

  lemma {:induction false} PlainNet(ws: seq<Withdrawal>, es: seq<nat>, fees: set<nat>, stripped: bool, viewer: nat,
                                    token: nat)
    ensures Net(Stripped(Plain(ws, es, fees), stripped), viewer, token)
            == -Sum(ws, PlainCharge(es, fees, stripped, viewer, token))
  {
    if ws != [] {
      var last, front := ws[|ws| - 1], Plain(ws[..|ws| - 1], es, fees);
      PlainNet(ws[..|ws| - 1], es, fees, stripped, viewer, token);
      if last.toAddress in es {
        assert Plain(ws, es, fees) == front;
      } else {
        var added := [PlainWithdrawal(last, fees)];
        assert Plain(ws, es, fees) == front + added;
        StripConcat(front, added);
        SumConcat(Stripped(front, stripped), Stripped(added, stripped), ActionNet(viewer, token));
        OnePlainNet(last, es, fees, stripped, viewer, token);
      }
    }
  }

  function NoteIn(gs: seq<Group>, token: nat): Note -> int {
    (n: Note) => if GroupOf(n) in gs then NoteNet(token)(n) else 0
  }

  lemma {:induction false} GroupNet(notes: seq<Note>, g: Group, token: nat)
    ensures Sum(notes, NoteIn([g], token)) ==
            if g.token != token || g.channelKind.SelfChannel? then 0
            else if g.channelKind.Outgoing? then -GroupTotal(notes, g) else GroupTotal(notes, g)
  {
    if notes != [] {
      GroupNet(notes[..|notes| - 1], g, token);
      var last := notes[|notes| - 1];
      assert GroupOf(last) in [g] <==> GroupOf(last) == g;
      assert NoteIn([g], token)(last) == if GroupOf(last) == g then NoteNet(token)(last) else 0;
    }
  }

  lemma TransferNet(notes: seq<Note>, g: Group, viewer: nat, token: nat)
    requires !g.channelKind.SelfChannel?
    ensures ActionNet(viewer, token)(Transfer(notes, g)) == Sum(notes, NoteIn([g], token))
  {
    GroupNet(notes, g, token);
  }

  lemma {:induction false} TransfersKeep(gs: seq<Group>, notes: seq<Note>)
    ensures NotFees(Transfers(gs, notes)) == Transfers(gs, notes)
  {
    if gs != [] {
      TransfersKeep(gs[..|gs| - 1], notes);
      var all := Transfers(gs, notes);
      assert all[..|all| - 1] == Transfers(gs[..|gs| - 1], notes);
    }
  }

  lemma {:induction false} TransfersNet(gs: seq<Group>, notes: seq<Note>, viewer: nat, token: nat)
    requires Distinct(gs) && forall g :: g in gs ==> !g.channelKind.SelfChannel?
    ensures Net(Transfers(gs, notes), viewer, token) == Sum(notes, NoteIn(gs, token))
  {
    if gs == [] {
      SumVanishes(notes, NoteIn(gs, token));
    } else {
      var front, g := gs[..|gs| - 1], gs[|gs| - 1];
      TransfersNet(front, notes, viewer, token);
      assert Transfers(gs, notes)[..|Transfers(gs, notes)| - 1] == Transfers(front, notes);
      TransferNet(notes, g, viewer, token);
      assert forall h :: h in gs <==> h in front || h == g;
      SumSplits(notes, NoteIn(front, token), NoteIn([g], token), NoteIn(gs, token));
    }
  }

  lemma {:induction false} SelfTransfersNet(ts: seq<nat>, notes: seq<Note>, viewer: nat, token: nat)
    ensures Net(SelfTransfers(ts, notes), viewer, token) == 0
            && NotFees(SelfTransfers(ts, notes)) == SelfTransfers(ts, notes)
  {
    if ts != [] {
      SelfTransfersNet(ts[..|ts| - 1], notes, viewer, token);
      var all := SelfTransfers(ts, notes);
      assert all[..|all| - 1] == SelfTransfers(ts[..|ts| - 1], notes);
    }
  }

  lemma {:induction false} SwapsKeep(es: seq<nat>, ws: seq<Withdrawal>, ds: seq<OpenNoteDeposit>)
    ensures NotFees(Swaps(es, ws, ds)) == Swaps(es, ws, ds)
  {
    if es != [] {
      SwapsKeep(es[..|es| - 1], ws, ds);
      var all := Swaps(es, ws, ds);
      assert all[..|all| - 1] == Swaps(es[..|es| - 1], ws, ds);
    }
  }

  // ---- who received and who sent ----

  predicate NoTransfers(actions: seq<Action>) {
    forall i :: 0 <= i < |actions| ==> !actions[i].TransferReceived? && !actions[i].TransferSent?
  }

  lemma NoTransfersAround(before: seq<Action>, middle: seq<Action>, after: seq<Action>)
    requires NoTransfers(before) && NoTransfers(after)
    ensures SomeReceived(before + middle + after) <==> SomeReceived(middle)
    ensures SomeSent(before + middle + after) <==> SomeSent(middle)
  {
    var all, k := before + middle + after, |before|;
    forall i | 0 <= i < |middle| ensures all[k + i] == middle[i] {}
    if i: nat :| i < |all| && all[i].TransferReceived? {
      assert middle[i - k].TransferReceived?;
    }
    if i: nat :| i < |all| && all[i].TransferSent? {
      assert middle[i - k].TransferSent?;
    }
    if i: nat :| i < |middle| && middle[i].TransferReceived? {
      assert all[k + i].TransferReceived?;
    }
    if i: nat :| i < |middle| && middle[i].TransferSent? {
      assert all[k + i].TransferSent?;
    }
  }

  predicate SomeGroupOf(gs: seq<Group>, kind: ChannelKind) {
    exists j :: 0 <= j < |gs| && gs[j].channelKind == kind
  }

  lemma GroupKinds(notes: seq<Note>, kind: ChannelKind)
    requires !kind.SelfChannel?
    ensures SomeGroupOf(Groups(notes), kind) <==> SomeOf(notes, kind)
  {
    var gs := Groups(notes);
    if j: nat :| j < |gs| && gs[j].channelKind == kind {
      assert gs[j] in gs;
    }
    if i: nat :| i < |notes| && notes[i].channelKind == kind {
      assert GroupOf(notes[i]) in gs;
    }
  }

  lemma TransferKinds(gs: seq<Group>, notes: seq<Note>)
    requires forall g :: g in gs ==> !g.channelKind.SelfChannel?
    ensures SomeReceived(Transfers(gs, notes)) <==> SomeGroupOf(gs, Incoming)
    ensures SomeSent(Transfers(gs, notes)) <==> SomeGroupOf(gs, Outgoing)
  {
    TransfersAre(gs, notes);
    var ts := Transfers(gs, notes);
    forall j | 0 <= j < |gs|
      ensures ts[j].TransferReceived? <==> gs[j].channelKind == Incoming
      ensures ts[j].TransferSent? <==> gs[j].channelKind == Outgoing
    {
      assert gs[j] in gs && ts[j] == Transfer(notes, gs[j]);
    }
  }

  /** Fees are stripped exactly from transactions with incoming notes and no outgoing ones. */
  lemma StripsIncomingOnly(tx: Transaction, fees: set<nat>)
    ensures SomeReceived(Unstripped(tx, fees)) && !SomeSent(Unstripped(tx, fees)) <==> IncomingOnly(tx.notes)
  {
    var es, gs := Executors(tx.openNoteDeposits), Groups(tx.notes);
    SwapsAre(es, tx.withdrawals, tx.openNoteDeposits);
    DepositsAre(tx.deposits);
    PlainAre(tx.withdrawals, es, fees);
    SelfTransfersAre(SelfTokens(tx.notes), tx.notes);
    var before := Swaps(es, tx.withdrawals, tx.openNoteDeposits)
      + (Deposits(tx.deposits) + Plain(tx.withdrawals, es, fees));
    var after := if NotFees(Meaningful(tx, fees)) == [] then SelfTransfers(SelfTokens(tx.notes), tx.notes) else [];
    assert Unstripped(tx, fees) == before + Transfers(gs, tx.notes) + after;
    NoTransfersAround(before, Transfers(gs, tx.notes), after);
    TransferKinds(gs, tx.notes);
    GroupKinds(tx.notes, Incoming);
    GroupKinds(tx.notes, Outgoing);
  }

  // ---- fusion ----

  lemma NetOfParts(swaps: seq<Action>, deposits: seq<Action>, plain: seq<Action>, transfers: seq<Action>,
                   own: seq<Action>, viewer: nat, token: nat)
    ensures Net(swaps + (deposits + plain) + transfers + own, viewer, token)
            == Net(swaps, viewer, token) + Net(deposits, viewer, token) + Net(plain, viewer, token)
               + Net(transfers, viewer, token) + Net(own, viewer, token)
  {
    var f := ActionNet(viewer, token);
    SumConcat(deposits, plain, f);
    SumConcat(swaps, deposits + plain, f);
    SumConcat(swaps + (deposits + plain), transfers, f);
    SumConcat(swaps + (deposits + plain) + transfers, own, f);
  }

  lemma StripOfParts(swaps: seq<Action>, deposits: seq<Action>, plain: seq<Action>, transfers: seq<Action>,
                     own: seq<Action>, stripped: bool)
    requires NotFees(swaps) == swaps && NotFees(deposits) == deposits && NotFees(transfers) == transfers
             && NotFees(own) == own
    ensures Stripped(swaps + (deposits + plain) + transfers + own, stripped)
            == swaps + (deposits + Stripped(plain, stripped)) + transfers + own
  {
    StripConcat(deposits, plain);
    StripConcat(swaps, deposits + plain);
    StripConcat(swaps + (deposits + plain), transfers);
    StripConcat(swaps + (deposits + plain) + transfers, own);
  }

  /** The charges split between the withdrawals executors took and the rest. */
  lemma ChargesSplit(ws: seq<Withdrawal>, es: seq<nat>, fees: set<nat>, stripped: bool, viewer: nat, token: nat)
    ensures Sum(ws, WithdrawnTo(es, token)) + Sum(ws, PlainCharge(es, fees, stripped, viewer, token))
            == Sum(ws, Charge(es, fees, stripped, viewer, token))
  {
    SumSplits(ws, WithdrawnTo(es, token), PlainCharge(es, fees, stripped, viewer, token),
              Charge(es, fees, stripped, viewer, token));
  }

  lemma GroupsCoverNotes(notes: seq<Note>, token: nat)
    ensures Sum(notes, NoteIn(Groups(notes), token)) == Sum(notes, NoteNet(token))
  {
    SumAgrees(notes, NoteIn(Groups(notes), token), NoteNet(token));
  }

  lemma ExecutorsCoverDeposits(ods: seq<OpenNoteDeposit>, token: nat)
    ensures Sum(ods, DepositIn(Executors(ods), token)) == Sum(ods, DepositNet(token))
  {
    SumAgrees(ods, DepositIn(Executors(ods), token), DepositNet(token));
  }

  /** The two passes over the same transaction, stripped or not, as one direct sum. */
  lemma StrippedNet(tx: Transaction, fees: set<nat>, stripped: bool, viewer: nat, token: nat)
    ensures Net(Stripped(Unstripped(tx, fees), stripped), viewer, token) ==
            Sum(tx.openNoteDeposits, DepositNet(token)) + Sum(tx.notes, NoteNet(token))
            - Sum(tx.withdrawals, Charge(Executors(tx.openNoteDeposits), fees, stripped, viewer, token))
  {
    var es, gs := Executors(tx.openNoteDeposits), Groups(tx.notes);
    var ods, ws, ds := tx.openNoteDeposits, tx.withdrawals, tx.deposits;
    var own := if NotFees(Meaningful(tx, fees)) == [] then SelfTransfers(SelfTokens(tx.notes), tx.notes) else [];
    var swaps, deposits, plain, transfers := Swaps(es, ws, ods), Deposits(ds), Plain(ws, es, fees),
      Transfers(gs, tx.notes);
    assert Unstripped(tx, fees) == swaps + (deposits + plain) + transfers + own;
    SwapsKeep(es, ws, ods);
    DepositsNet(ds, viewer, token);
    TransfersKeep(gs, tx.notes);
    SelfTransfersNet(SelfTokens(tx.notes), tx.notes, viewer, token);
    StripOfParts(swaps, deposits, plain, transfers, own, stripped);
    NetOfParts(swaps, deposits, Stripped(plain, stripped), transfers, own, viewer, token);
    SwapsNet(es, ws, ods, viewer, token);
    PlainNet(ws, es, fees, stripped, viewer, token);
    TransfersNet(gs, tx.notes, viewer, token);
    ExecutorsCoverDeposits(ods, token);
    GroupsCoverNotes(tx.notes, token);
    ChargesSplit(ws, es, fees, stripped, viewer, token);
  }

  lemma NetOfOne(a: Action, viewer: nat, token: nat)
    ensures Net([a], viewer, token) == ActionNet(viewer, token)(a)
  {
    assert [a][..0] == [];
    assert Net([], viewer, token) == 0;
  }

  /**
   * Fusion: classifying a transaction and netting its actions gives, per token, the open-note
   * deposits plus incoming minus outgoing notes minus the charged withdrawals.
   */
  lemma ClassifiedNetIsDirect(tx: Transaction, fees: set<nat>, viewer: nat, token: nat)
    ensures Net(Classify(tx, fees), viewer, token) == Direct(tx, fees, viewer, token)
  {
    if tx.registeredPubkey.Some? {
      NetOfOne(Register(tx.registeredPubkey.value), viewer, token);
    } else {
      StripsIncomingOnly(tx, fees);
      StrippedNet(tx, fees, IncomingOnly(tx.notes), viewer, token);
    }
  }

  /** The history entry end to end: the classifier's loops, then the netting loop. */
  method TransactionBalances(tx: Transaction, fees: set<nat>, viewer: nat) returns (net: map<nat, int>)
    ensures forall t: nat :: (if t in net then net[t] else 0) == Direct(tx, fees, viewer, t)
  {
    var actions := ClassifierLoops.ClassifyTransaction(tx, fees);
    net := ComputeBalanceUpdates(actions, viewer);
    forall t: nat ensures Net(actions, viewer, t) == Direct(tx, fees, viewer, t) {
      ClassifiedNetIsDirect(tx, fees, viewer, t);
    }
  }
}
