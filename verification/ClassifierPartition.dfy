/**
 * The classifier loses nothing and repeats nothing: each withdrawal and each open-note deposit lands
 * in exactly one action, each group of notes in exactly one transfer.
 */
module ClassifierPartition {
  import opened Classifier

  // ---- filtering ----

  function Keep<T>(s: seq<T>, p: T -> bool): seq<T> {
    if s == [] then []
    else Keep(s[..|s| - 1], p) + (if p(s[|s| - 1]) then [s[|s| - 1]] else [])
  }

  lemma {:induction false} KeepSplits<T>(s: seq<T>, p: T -> bool, q: T -> bool, r: T -> bool)
    requires forall i :: 0 <= i < |s| ==> (r(s[i]) <==> p(s[i]) || q(s[i])) && !(p(s[i]) && q(s[i]))
    ensures multiset(Keep(s, r)) == multiset(Keep(s, p)) + multiset(Keep(s, q))
  {
    if s != [] { KeepSplits(s[..|s| - 1], p, q, r); }
  }

  lemma {:induction false} KeepNone<T>(s: seq<T>, p: T -> bool)
    requires forall i :: 0 <= i < |s| ==> !p(s[i])
    ensures Keep(s, p) == []
  {
    if s != [] { KeepNone(s[..|s| - 1], p); }
  }

  lemma {:induction false} KeepAll<T>(s: seq<T>, p: T -> bool)
    requires forall i :: 0 <= i < |s| ==> p(s[i])
    ensures Keep(s, p) == s
  {
    if s != [] {
      KeepAll(s[..|s| - 1], p);
      assert s == s[..|s| - 1] + [s[|s| - 1]];
    }
  }

  lemma {:induction false} KeepConcat<T>(s: seq<T>, t: seq<T>, p: T -> bool)
    ensures Keep(s + t, p) == Keep(s, p) + Keep(t, p)
  {
    if t == [] {
      assert s + t == s;
    } else {
      assert (s + t)[..|s + t| - 1] == s + t[..|t| - 1];
      KeepConcat(s, t[..|t| - 1], p);
    }
  }

  lemma {:induction false} NotFeesKeeps(actions: seq<Action>)
    ensures NotFees(actions) == Keep(actions, (a: Action) => !a.Fee?)
  {
    if actions != [] { NotFeesKeeps(actions[..|actions| - 1]); }
  }

  // ---- the raw events an action accounts for ----

  function SentBy(executor: nat, legs: seq<SwapLeg>): seq<Withdrawal> {
    if legs == [] then []
    else SentBy(executor, legs[..|legs| - 1]) + [Withdrawal(executor, legs[|legs| - 1].token, legs[|legs| - 1].amount)]
  }

  function ReceivedBy(executor: nat, legs: seq<SwapLeg>): seq<OpenNoteDeposit> {
    if legs == [] then []
    else
      var last := legs[|legs| - 1];
      ReceivedBy(executor, legs[..|legs| - 1]) + [OpenNoteDeposit(executor, last.token, last.amount)]
  }

  function TakenBy(a: Action): seq<Withdrawal> {
    match a
    case Swap(executor, sent, _) => SentBy(executor, sent)
    case Withdrawn(to, token, amount) => [Withdrawal(to, token, amount)]
    case Fee(to, token, amount) => [Withdrawal(to, token, amount)]
    case _ => []
  }

  /** The withdrawals the actions account for. */
  function Taken(actions: seq<Action>): seq<Withdrawal> {
    if actions == [] then [] else Taken(actions[..|actions| - 1]) + TakenBy(actions[|actions| - 1])
  }

  function GivenBy(a: Action): seq<OpenNoteDeposit> {
    if a.Swap? then ReceivedBy(a.executor, a.received) else []
  }

  /** The open-note deposits the actions account for. */
  function Given(actions: seq<Action>): seq<OpenNoteDeposit> {
    if actions == [] then [] else Given(actions[..|actions| - 1]) + GivenBy(actions[|actions| - 1])
  }

  lemma Regroup<T>(a: seq<T>, b: seq<T>, c: seq<T>)
    ensures a + (b + c) == a + b + c
  {
  }

  lemma {:induction false} TakenConcat(a: seq<Action>, b: seq<Action>)
    ensures Taken(a + b) == Taken(a) + Taken(b)
  {
    if b == [] {
      assert a + b == a;
    } else {
      assert (a + b)[..|a + b| - 1] == a + b[..|b| - 1];
      TakenConcat(a, b[..|b| - 1]);
      Regroup(Taken(a), Taken(b[..|b| - 1]), TakenBy(b[|b| - 1]));
    }
  }

  lemma TakenSnoc(actions: seq<Action>, a: Action)
    ensures Taken(actions + [a]) == Taken(actions) + TakenBy(a)
  {
    assert (actions + [a])[..|actions|] == actions;
  }

  lemma {:induction false} GivenConcat(a: seq<Action>, b: seq<Action>)
    ensures Given(a + b) == Given(a) + Given(b)
  {
    if b == [] {
      assert a + b == a;
    } else {
      assert (a + b)[..|a + b| - 1] == a + b[..|b| - 1];
      GivenConcat(a, b[..|b| - 1]);
      Regroup(Given(a), Given(b[..|b| - 1]), GivenBy(b[|b| - 1]));
    }
  }

  predicate TakesNothing(actions: seq<Action>) {
    forall i :: 0 <= i < |actions| ==> !actions[i].Swap? && !actions[i].Withdrawn? && !actions[i].Fee?
  }

  lemma {:induction false} NothingTaken(actions: seq<Action>)
    requires TakesNothing(actions)
    ensures Taken(actions) == [] && Given(actions) == []
  {
    if actions != [] { NothingTaken(actions[..|actions| - 1]); }
  }

  lemma TakenOfParts(swaps: seq<Action>, deposits: seq<Action>, plain: seq<Action>, transfers: seq<Action>,
                     own: seq<Action>)
    requires TakesNothing(deposits) && TakesNothing(transfers) && TakesNothing(own)
    ensures Taken(swaps + (deposits + plain) + transfers + own) == Taken(swaps) + Taken(plain)
  {
    NothingTaken(deposits);
    NothingTaken(transfers);
    NothingTaken(own);
    TakenConcat(deposits, plain);
    assert Taken(deposits + plain) == Taken(plain);
    TakenConcat(swaps, deposits + plain);
    TakenConcat(swaps + (deposits + plain), transfers);
    assert Taken(swaps + (deposits + plain) + transfers) == Taken(swaps) + Taken(plain);
    TakenConcat(swaps + (deposits + plain) + transfers, own);
  }

  lemma GivenOfParts(swaps: seq<Action>, deposits: seq<Action>, plain: seq<Action>, transfers: seq<Action>,
                     own: seq<Action>)
    requires TakesNothing(deposits) && TakesNothing(transfers) && TakesNothing(own) && Given(plain) == []
    ensures Given(swaps + (deposits + plain) + transfers + own) == Given(swaps)
  {
    NothingTaken(deposits);
    NothingTaken(transfers);
    NothingTaken(own);
    GivenConcat(deposits, plain);
    GivenConcat(swaps, deposits + plain);
    GivenConcat(swaps + (deposits + plain), transfers);
    GivenConcat(swaps + (deposits + plain) + transfers, own);
  }

  lemma KeepOfParts(swaps: seq<Action>, deposits: seq<Action>, plain: seq<Action>, transfers: seq<Action>,
                    own: seq<Action>, p: Action -> bool)
    requires forall a :: (a in swaps || a in deposits || a in plain || a in own) ==> !p(a)
    ensures Keep(swaps + (deposits + plain) + transfers + own, p) == Keep(transfers, p)
  {
    KeepConcat(swaps + (deposits + plain) + transfers, own, p);
    KeepConcat(swaps + (deposits + plain), transfers, p);
    KeepNone(swaps + (deposits + plain), p);
    KeepNone(own, p);
  }

  // ---- which actions each part holds ----

  lemma {:induction false} DepositsAre(ds: seq<Deposit>)
    ensures |Deposits(ds)| == |ds|
    ensures forall i :: 0 <= i < |ds| ==> Deposits(ds)[i] == Deposited(ds[i].fromAddress, ds[i].token, ds[i].amount)
  {
    if ds != [] { DepositsAre(ds[..|ds| - 1]); }
  }

  lemma {:induction false} TransfersAre(gs: seq<Group>, notes: seq<Note>)
    ensures |Transfers(gs, notes)| == |gs|
    ensures forall i :: 0 <= i < |gs| ==> Transfers(gs, notes)[i] == Transfer(notes, gs[i])
  {
    if gs != [] { TransfersAre(gs[..|gs| - 1], notes); }
  }

  lemma {:induction false} SelfTransfersAre(ts: seq<nat>, notes: seq<Note>)
    ensures |SelfTransfers(ts, notes)| == |ts|
    ensures forall i :: 0 <= i < |ts| ==> SelfTransfers(ts, notes)[i].TransferSelf?
  {
    if ts != [] { SelfTransfersAre(ts[..|ts| - 1], notes); }
  }

  lemma {:induction false} SwapsAre(es: seq<nat>, ws: seq<Withdrawal>, ds: seq<OpenNoteDeposit>)
    ensures |Swaps(es, ws, ds)| == |es| && forall i :: 0 <= i < |es| ==> Swaps(es, ws, ds)[i].Swap?
  {
    if es != [] { SwapsAre(es[..|es| - 1], ws, ds); }
  }

  lemma {:induction false} PlainAre(ws: seq<Withdrawal>, es: seq<nat>, fees: set<nat>)
    ensures forall i :: 0 <= i < |Plain(ws, es, fees)| ==>
              Plain(ws, es, fees)[i].Withdrawn? || Plain(ws, es, fees)[i].Fee?
  {
    if ws != [] { PlainAre(ws[..|ws| - 1], es, fees); }
  }

  // ---- withdrawals and open-note deposits ----

  function To(es: seq<nat>): Withdrawal -> bool {
    (w: Withdrawal) => w.toAddress in es
  }

  function NotTo(es: seq<nat>): Withdrawal -> bool {
    (w: Withdrawal) => w.toAddress !in es
  }

  function Any(): Withdrawal -> bool {
    (w: Withdrawal) => true
  }

  function From(es: seq<nat>): OpenNoteDeposit -> bool {
    (d: OpenNoteDeposit) => d.depositor in es
  }

  lemma {:induction false} SentBack(ws: seq<Withdrawal>, e: nat)
    ensures SentBy(e, SentLegs(ws, e)) == Keep(ws, To([e]))
  {
    if ws != [] {
      SentBack(ws[..|ws| - 1], e);
      var legs := SentLegs(ws, e);
      if ws[|ws| - 1].toAddress == e {
        assert legs[..|legs| - 1] == SentLegs(ws[..|ws| - 1], e);
      } else {
        assert legs == SentLegs(ws[..|ws| - 1], e);
      }
    }
  }

  lemma {:induction false} ReceivedBack(ds: seq<OpenNoteDeposit>, e: nat)
    ensures ReceivedBy(e, ReceivedLegs(ds, e)) == Keep(ds, From([e]))
  {
    if ds != [] {
      ReceivedBack(ds[..|ds| - 1], e);
      var legs := ReceivedLegs(ds, e);
      if ds[|ds| - 1].depositor == e {
        assert legs[..|legs| - 1] == ReceivedLegs(ds[..|ds| - 1], e);
      } else {
        assert legs == ReceivedLegs(ds[..|ds| - 1], e);
      }
    }
  }

  lemma LastSwapTakes(es: seq<nat>, ws: seq<Withdrawal>, ds: seq<OpenNoteDeposit>)
    requires es != []
    ensures Taken(Swaps(es, ws, ds)) == Taken(Swaps(es[..|es| - 1], ws, ds)) + Keep(ws, To([es[|es| - 1]]))
  {
    var e := es[|es| - 1];
    TakenSnoc(Swaps(es[..|es| - 1], ws, ds), Swap(e, SentLegs(ws, e), ReceivedLegs(ds, e)));
    SentBack(ws, e);
  }

  function SentInTurn(es: seq<nat>, ws: seq<Withdrawal>): seq<Withdrawal> {
    if es == [] then [] else SentInTurn(es[..|es| - 1], ws) + Keep(ws, To([es[|es| - 1]]))
  }

  lemma {:induction false} SwapsTakeInTurn(es: seq<nat>, ws: seq<Withdrawal>, ds: seq<OpenNoteDeposit>)
    ensures Taken(Swaps(es, ws, ds)) == SentInTurn(es, ws)
  {
    if es != [] {
      SwapsTakeInTurn(es[..|es| - 1], ws, ds);
      LastSwapTakes(es, ws, ds);
    }
  }

  lemma {:induction false} InTurnIsAll(es: seq<nat>, ws: seq<Withdrawal>)
    requires forall i, j :: 0 <= i < j < |es| ==> es[i] != es[j]
    ensures multiset(SentInTurn(es, ws)) == multiset(Keep(ws, To(es)))
  {
    if es == [] {
      KeepNone(ws, To(es));
    } else {
      var front, e := es[..|es| - 1], es[|es| - 1];
      InTurnIsAll(front, ws);
      assert es == front + [e] && e !in front;
      KeepSplits(ws, To(front), To([e]), To(es));
    }
  }

  function GivenInTurn(es: seq<nat>, ds: seq<OpenNoteDeposit>): seq<OpenNoteDeposit> {
    if es == [] then [] else GivenInTurn(es[..|es| - 1], ds) + Keep(ds, From([es[|es| - 1]]))
  }

  lemma LastSwapGives(es: seq<nat>, ws: seq<Withdrawal>, ds: seq<OpenNoteDeposit>)
    requires es != []
    ensures Given(Swaps(es, ws, ds)) == Given(Swaps(es[..|es| - 1], ws, ds)) + Keep(ds, From([es[|es| - 1]]))
  {
    var all, front := Swaps(es, ws, ds), Swaps(es[..|es| - 1], ws, ds);
    assert all[..|all| - 1] == front;
    ReceivedBack(ds, es[|es| - 1]);
  }

  lemma {:induction false} SwapsGiveInTurn(es: seq<nat>, ws: seq<Withdrawal>, ds: seq<OpenNoteDeposit>)
    ensures Given(Swaps(es, ws, ds)) == GivenInTurn(es, ds)
  {
    if es != [] {
      SwapsGiveInTurn(es[..|es| - 1], ws, ds);
      LastSwapGives(es, ws, ds);
    }
  }

  lemma {:induction false} GivenInTurnIsAll(es: seq<nat>, ds: seq<OpenNoteDeposit>)
    requires forall i, j :: 0 <= i < j < |es| ==> es[i] != es[j]
    ensures multiset(GivenInTurn(es, ds)) == multiset(Keep(ds, From(es)))
  {
    if es == [] {
      KeepNone(ds, From(es));
    } else {
      var front, e := es[..|es| - 1], es[|es| - 1];
      GivenInTurnIsAll(front, ds);
      assert es == front + [e] && e !in front;
      KeepSplits(ds, From(front), From([e]), From(es));
    }
  }

  lemma {:induction false} PlainTakes(ws: seq<Withdrawal>, es: seq<nat>, fees: set<nat>)
    ensures Taken(Plain(ws, es, fees)) == Keep(ws, NotTo(es))
  {
    if ws != [] {
      var front, last := ws[..|ws| - 1], ws[|ws| - 1];
      PlainTakes(front, es, fees);
      if last.toAddress !in es {
        TakenSnoc(Plain(front, es, fees), PlainWithdrawal(last, fees));
      } else {
        assert Plain(ws, es, fees) == Plain(front, es, fees);
      }
    }
  }

  lemma {:induction false} PlainGives(ws: seq<Withdrawal>, es: seq<nat>, fees: set<nat>)
    ensures Given(Plain(ws, es, fees)) == []
  {
    if ws != [] {
      var front, last := ws[..|ws| - 1], ws[|ws| - 1];
      PlainGives(front, es, fees);
      if last.toAddress !in es {
        var all := Plain(front, es, fees) + [PlainWithdrawal(last, fees)];
        assert all[..|all| - 1] == Plain(front, es, fees);
      } else {
        assert Plain(ws, es, fees) == Plain(front, es, fees);
      }
    }
  }

  /**
   * Before fees are stripped, the sent legs, withdrawals and fees together are the transaction's
   * withdrawals, each once; the received legs are its open-note deposits, each once.
   */
  lemma WithdrawalsPartition(tx: Transaction, fees: set<nat>)
    ensures multiset(Taken(Unstripped(tx, fees))) == multiset(tx.withdrawals)
    ensures multiset(Given(Unstripped(tx, fees))) == multiset(tx.openNoteDeposits)
  {
    var ods, ws := tx.openNoteDeposits, tx.withdrawals;
    var es, gs := Executors(ods), Groups(tx.notes);
    var own := if NotFees(Meaningful(tx, fees)) == [] then SelfTransfers(SelfTokens(tx.notes), tx.notes) else [];
    var swaps, deposits, plain, transfers := Swaps(es, ws, ods), Deposits(tx.deposits), Plain(ws, es, fees),
      Transfers(gs, tx.notes);
    assert Unstripped(tx, fees) == swaps + (deposits + plain) + transfers + own;
    DepositsAre(tx.deposits);
    TransfersAre(gs, tx.notes);
    SelfTransfersAre(SelfTokens(tx.notes), tx.notes);
    TakenOfParts(swaps, deposits, plain, transfers, own);
    SwapsTakeInTurn(es, ws, ods);
    InTurnIsAll(es, ws);
    SwapsGiveInTurn(es, ws, ods);
    GivenInTurnIsAll(es, ods);
    PlainTakes(ws, es, fees);
    PlainGives(ws, es, fees);
    GivenOfParts(swaps, deposits, plain, transfers, own);
    KeepSplits(ws, To(es), NotTo(es), Any());
    KeepAll(ws, Any());
    KeepAll(ods, From(es));
  }

  /** A sent leg only ever belongs to the swap whose executor received the withdrawal, a fee only to a fee recipient. */
  lemma WithdrawalsAreNamed(tx: Transaction, fees: set<nat>, a: Action)
    requires a in Unstripped(tx, fees)
    ensures a.Swap? ==> a.executor in Executors(tx.openNoteDeposits)
                        && a.sent == SentLegs(tx.withdrawals, a.executor)
                        && a.received == ReceivedLegs(tx.openNoteDeposits, a.executor)
    ensures a.Fee? ==> a.toAddress in fees && a.toAddress !in Executors(tx.openNoteDeposits)
    ensures a.Withdrawn? ==> a.toAddress !in fees && a.toAddress !in Executors(tx.openNoteDeposits)
  {
    var es, gs := Executors(tx.openNoteDeposits), Groups(tx.notes);
    SwapsNamed(es, tx.withdrawals, tx.openNoteDeposits);
    PlainNamed(tx.withdrawals, es, fees);
    DepositsAre(tx.deposits);
    TransfersAre(gs, tx.notes);
    SelfTransfersAre(SelfTokens(tx.notes), tx.notes);
    var own := if NotFees(Meaningful(tx, fees)) == [] then SelfTransfers(SelfTokens(tx.notes), tx.notes) else [];
    var swaps, deposits := Swaps(es, tx.withdrawals, tx.openNoteDeposits), Deposits(tx.deposits);
    var plain, transfers := Plain(tx.withdrawals, es, fees), Transfers(gs, tx.notes);
    assert Unstripped(tx, fees) == swaps + (deposits + plain) + transfers + own;
    InSomePart(a, swaps, deposits, plain, transfers, own);
  }

  lemma InSomePart(a: Action, swaps: seq<Action>, deposits: seq<Action>, plain: seq<Action>, transfers: seq<Action>,
                   own: seq<Action>)
    requires a in swaps + (deposits + plain) + transfers + own
    ensures a in swaps || a in deposits || a in plain || a in transfers || a in own
  {
  }

  predicate SwapNamed(a: Action, es: seq<nat>, ws: seq<Withdrawal>, ds: seq<OpenNoteDeposit>) {
    a.Swap? && a.executor in es && a.sent == SentLegs(ws, a.executor) && a.received == ReceivedLegs(ds, a.executor)
  }

  lemma {:induction false} SwapsNamed(es: seq<nat>, ws: seq<Withdrawal>, ds: seq<OpenNoteDeposit>)
    ensures forall a :: a in Swaps(es, ws, ds) ==> SwapNamed(a, es, ws, ds)
  {
    if es != [] {
      SwapsNamed(es[..|es| - 1], ws, ds);
      forall a | a in Swaps(es, ws, ds) ensures SwapNamed(a, es, ws, ds) {
        var e := es[|es| - 1];
        assert a in Swaps(es[..|es| - 1], ws, ds) || a == Swap(e, SentLegs(ws, e), ReceivedLegs(ds, e));
      }
    }
  }

  predicate PlainIsNamed(a: Action, es: seq<nat>, fees: set<nat>) {
    || (a.Fee? && a.toAddress in fees && a.toAddress !in es)
    || (a.Withdrawn? && a.toAddress !in fees && a.toAddress !in es)
  }

  lemma {:induction false} PlainNamed(ws: seq<Withdrawal>, es: seq<nat>, fees: set<nat>)
    ensures forall a :: a in Plain(ws, es, fees) ==> PlainIsNamed(a, es, fees)
  {
    if ws != [] { PlainNamed(ws[..|ws| - 1], es, fees); }
  }

  // ---- transfers ----

  predicate TransferFor(a: Action, g: Group) {
    || (a.TransferSent? && g == Group(Outgoing, a.toAddress, a.token))
    || (a.TransferReceived? && g == Group(Incoming, a.fromAddress, a.token))
  }

  function For(g: Group): Action -> bool {
    (a: Action) => TransferFor(a, g)
  }

  lemma {:induction false} TransfersFor(gs: seq<Group>, notes: seq<Note>, g: Group)
    requires forall i, j :: 0 <= i < j < |gs| ==> gs[i] != gs[j]
    requires forall h :: h in gs ==> !h.channelKind.SelfChannel?
    ensures Keep(Transfers(gs, notes), For(g)) == if g in gs then [Transfer(notes, g)] else []
  {
    if gs != [] {
      var front, last := gs[..|gs| - 1], gs[|gs| - 1];
      TransfersFor(front, notes, g);
      assert gs == front + [last] && last !in front;
      assert TransferFor(Transfer(notes, last), g) <==> g == last;
      hide Transfer;
      var all := Transfers(gs, notes);
      assert all[..|all| - 1] == Transfers(front, notes);
    }
  }

  /**
   * For every direction, counterparty and token: one transfer carrying the summed amount and the
   * number of notes when there are such notes, and none otherwise.
   */
  lemma OneTransferPerGroup(tx: Transaction, fees: set<nat>, g: Group)
    ensures Keep(Unstripped(tx, fees), For(g)) ==
            if g in Groups(tx.notes) then [Transfer(tx.notes, g)] else []
  {
    var es, gs := Executors(tx.openNoteDeposits), Groups(tx.notes);
    var own := if NotFees(Meaningful(tx, fees)) == [] then SelfTransfers(SelfTokens(tx.notes), tx.notes) else [];
    var swaps, deposits := Swaps(es, tx.withdrawals, tx.openNoteDeposits), Deposits(tx.deposits);
    var plain, transfers := Plain(tx.withdrawals, es, fees), Transfers(gs, tx.notes);
    assert Unstripped(tx, fees) == swaps + (deposits + plain) + transfers + own;
    SwapsAre(es, tx.withdrawals, tx.openNoteDeposits);
    DepositsAre(tx.deposits);
    PlainAre(tx.withdrawals, es, fees);
    SelfTransfersAre(SelfTokens(tx.notes), tx.notes);
    KeepOfParts(swaps, deposits, plain, transfers, own, For(g));
    TransfersFor(gs, tx.notes, g);
  }

  // ---- transferSelf ----

  /** Nothing but the viewer's own notes and fee payments. */
  predicate OnlyOwn(tx: Transaction, fees: set<nat>) {
    && tx.openNoteDeposits == [] && tx.deposits == []
    && (forall i :: 0 <= i < |tx.notes| ==> tx.notes[i].channelKind.SelfChannel?)
    && AllTo(tx.withdrawals, fees)
  }

  predicate AllTo(ws: seq<Withdrawal>, fees: set<nat>) {
    forall i :: 0 <= i < |ws| ==> ws[i].toAddress in fees
  }

  predicate OnlyFees(actions: seq<Action>) {
    forall i :: 0 <= i < |actions| ==> actions[i].Fee?
  }

  lemma {:induction false} NotFeesEmpty(actions: seq<Action>)
    ensures NotFees(actions) == [] <==> OnlyFees(actions)
  {
    if actions != [] {
      NotFeesEmpty(actions[..|actions| - 1]);
      assert OnlyFees(actions) <==> OnlyFees(actions[..|actions| - 1]) && actions[|actions| - 1].Fee?;
    }
  }

  lemma {:induction false} PlainOnlyFees(ws: seq<Withdrawal>, fees: set<nat>)
    ensures OnlyFees(Plain(ws, [], fees)) <==> AllTo(ws, fees)
  {
    if ws != [] {
      var front, last := ws[..|ws| - 1], ws[|ws| - 1];
      PlainOnlyFees(front, fees);
      var all := Plain(ws, [], fees);
      assert all == Plain(front, [], fees) + [PlainWithdrawal(last, fees)];
      FeesConcat(Plain(front, [], fees), [PlainWithdrawal(last, fees)]);
      assert [PlainWithdrawal(last, fees)][0].Fee? <==> last.toAddress in fees;
      assert AllTo(ws, fees) <==> AllTo(front, fees) && last.toAddress in fees;
    }
  }

  lemma FeesConcat(a: seq<Action>, b: seq<Action>)
    ensures OnlyFees(a + b) <==> OnlyFees(a) && OnlyFees(b)
  {
    forall i | 0 <= i < |a| ensures (a + b)[i] == a[i] {}
    forall i | 0 <= i < |b| ensures (a + b)[|a| + i] == b[i] {}
  }

  lemma NoExecutors(ods: seq<OpenNoteDeposit>)
    ensures Executors(ods) == [] <==> ods == []
  {
    if ods != [] {
      assert ods[0].depositor in Executors(ods);
    }
  }

  lemma NoGroups(notes: seq<Note>)
    ensures Groups(notes) == [] <==> forall i :: 0 <= i < |notes| ==> notes[i].channelKind.SelfChannel?
  {
    if i: nat :| i < |notes| && !notes[i].channelKind.SelfChannel? {
      assert GroupOf(notes[i]) in Groups(notes);
    }
    if Groups(notes) != [] {
      assert Groups(notes)[0] in Groups(notes);
    }
  }

  lemma SwapsOnlyFees(es: seq<nat>, ws: seq<Withdrawal>, ods: seq<OpenNoteDeposit>)
    ensures OnlyFees(Swaps(es, ws, ods)) <==> es == []
  {
    SwapsAre(es, ws, ods);
    if es != [] { assert Swaps(es, ws, ods)[0].Swap?; }
  }

  lemma TransfersOnlyFees(gs: seq<Group>, notes: seq<Note>)
    ensures OnlyFees(Transfers(gs, notes)) <==> gs == []
  {
    TransfersAre(gs, notes);
    if gs != [] { assert !Transfers(gs, notes)[0].Fee?; }
  }

  lemma DepositsOnlyFees(ds: seq<Deposit>)
    ensures OnlyFees(Deposits(ds)) <==> ds == []
  {
    DepositsAre(ds);
    if ds != [] { assert !Deposits(ds)[0].Fee?; }
  }

  lemma MeaningfulOnlyFees(tx: Transaction, fees: set<nat>)
    ensures OnlyFees(Meaningful(tx, fees)) <==> OnlyOwn(tx, fees)
  {
    var es, gs := Executors(tx.openNoteDeposits), Groups(tx.notes);
    var swaps, deposits := Swaps(es, tx.withdrawals, tx.openNoteDeposits), Deposits(tx.deposits);
    var plain, transfers := Plain(tx.withdrawals, es, fees), Transfers(gs, tx.notes);
    FeesConcat(swaps + (deposits + plain), transfers);
    FeesConcat(swaps, deposits + plain);
    FeesConcat(deposits, plain);
    NoExecutors(tx.openNoteDeposits);
    NoGroups(tx.notes);
    SwapsOnlyFees(es, tx.withdrawals, tx.openNoteDeposits);
    DepositsOnlyFees(tx.deposits);
    TransfersOnlyFees(gs, tx.notes);
    PlainOnlyFees(tx.withdrawals, fees);
  }

  predicate ShowsSelf(actions: seq<Action>) {
    exists i :: 0 <= i < |actions| && actions[i].TransferSelf?
  }

  lemma {:induction false} StripKeepsSelf(actions: seq<Action>)
    ensures ShowsSelf(NotFees(actions)) <==> ShowsSelf(actions)
  {
    if actions != [] {
      var front, last := actions[..|actions| - 1], actions[|actions| - 1];
      StripKeepsSelf(front);
      assert ShowsSelf(actions) <==> ShowsSelf(front) || last.TransferSelf?;
      assert !last.Fee? ==> NotFees(actions)[|NotFees(front)|] == last;
      assert forall i :: 0 <= i < |NotFees(front)| ==> NotFees(actions)[i] == NotFees(front)[i];
    }
  }

  lemma MeaningfulShowsNoSelf(tx: Transaction, fees: set<nat>)
    ensures !ShowsSelf(Meaningful(tx, fees))
  {
    var es, gs := Executors(tx.openNoteDeposits), Groups(tx.notes);
    SwapsAre(es, tx.withdrawals, tx.openNoteDeposits);
    DepositsAre(tx.deposits);
    PlainAre(tx.withdrawals, es, fees);
    TransfersAre(gs, tx.notes);
  }

  lemma SelfAppears(tx: Transaction)
    ensures ShowsSelf(SelfTransfers(SelfTokens(tx.notes), tx.notes))
            <==> exists i :: 0 <= i < |tx.notes| && tx.notes[i].channelKind.SelfChannel?
  {
    var ts := SelfTokens(tx.notes);
    SelfTransfersAre(ts, tx.notes);
    if ts != [] {
      assert ts[0] in ts;
      assert SelfTransfers(ts, tx.notes)[0].TransferSelf?;
    }
    if i: nat :| i < |tx.notes| && tx.notes[i].channelKind.SelfChannel? {
      assert tx.notes[i].token in ts;
    }
  }

  lemma ShowsSelfConcat(a: seq<Action>, b: seq<Action>)
    ensures ShowsSelf(a + b) <==> ShowsSelf(a) || ShowsSelf(b)
  {
    forall i | 0 <= i < |a| ensures (a + b)[i] == a[i] {}
    forall i | 0 <= i < |b| ensures (a + b)[|a| + i] == b[i] {}
  }

  /** `transferSelf` is shown exactly when the viewer's own notes and fees are all there is. */
  lemma SelfShownAlone(tx: Transaction, fees: set<nat>)
    ensures ShowsSelf(Classify(tx, fees)) <==>
            tx.registeredPubkey.None? && OnlyOwn(tx, fees) && tx.notes != []
  {
    if tx.registeredPubkey.None? {
      var actions, own := Meaningful(tx, fees), SelfTransfers(SelfTokens(tx.notes), tx.notes);
      StripKeepsSelf(Unstripped(tx, fees));
      NotFeesEmpty(actions);
      MeaningfulOnlyFees(tx, fees);
      MeaningfulShowsNoSelf(tx, fees);
      ShowsSelfConcat(actions, own);
      SelfAppears(tx);
      if OnlyOwn(tx, fees) && tx.notes != [] {
        assert tx.notes[0].channelKind.SelfChannel?;
      }
    }
  }
}
