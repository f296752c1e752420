/**
 * What the classified actions amount to, said of the raw notes alone: each transfer carries the sum and
 * the number of its notes, and so does each of the viewer's own; a registration stands alone.
 */
module ClassifierTotals {
  import opened Wrappers
  import opened Classifier
  import opened ClassifierPartition
  import opened Sums

  function Amount(): Note -> int {
    (n: Note) => n.amount
  }

  /** The notes of one direction, counterparty and token. */
  function OfGroup(kind: ChannelKind, counterparty: nat, token: nat): Note -> bool {
    (n: Note) => n.channelKind == kind && n.counterparty == counterparty && n.token == token
  }

  /** The viewer's own notes of one token. */
  function OwnOf(token: nat): Note -> bool {
    (n: Note) => n.channelKind == SelfChannel && n.token == token
  }

  function IsSent(to: nat, token: nat): Action -> bool {
    (a: Action) => a.TransferSent? && a.toAddress == to && a.token == token
  }

  function IsReceived(from: nat, token: nat): Action -> bool {
    (a: Action) => a.TransferReceived? && a.fromAddress == from && a.token == token
  }

  function IsSelf(token: nat): Action -> bool {
    (a: Action) => a.TransferSelf? && a.token == token
  }

  lemma {:induction false} GroupTotals(notes: seq<Note>, g: Group)
    ensures var kept := Keep(notes, OfGroup(g.channelKind, g.counterparty, g.token));
            && GroupTotal(notes, g) == Sum(kept, Amount()) && GroupCount(notes, g) == |kept|
            && (g in Groups(notes) <==> kept != [] && !g.channelKind.SelfChannel?)
  {
    if notes != [] {
      var p := OfGroup(g.channelKind, g.counterparty, g.token);
      var front, last := notes[..|notes| - 1], notes[|notes| - 1];
      GroupTotals(front, g);
      KeepOn(notes, p);
      assert p(last) <==> GroupOf(last) == g;
      hide Groups;
      GroupsOn(notes, g);
    }
  }

  lemma GroupsOn(notes: seq<Note>, g: Group)
    requires notes != []
    ensures var last := notes[|notes| - 1];
            g in Groups(notes)
            <==> g in Groups(notes[..|notes| - 1]) || (GroupOf(last) == g && !last.channelKind.SelfChannel?)
  {
  }

  /** The last element, kept or not. */
  lemma KeepOn<T>(s: seq<T>, p: T -> bool)
    requires s != []
    ensures var front, last := Keep(s[..|s| - 1], p), s[|s| - 1];
            Keep(s, p) == if p(last) then front + [last] else front
    ensures p(s[|s| - 1]) ==> Keep(s, p)[..|Keep(s, p)| - 1] == Keep(s[..|s| - 1], p)
  {
  }

  lemma {:induction false} SelfTotals(notes: seq<Note>, token: nat)
    ensures var kept := Keep(notes, OwnOf(token));
            && SelfTotal(notes, token) == Sum(kept, Amount()) && SelfCount(notes, token) == |kept|
            && (token in SelfTokens(notes) <==> kept != [])
  {
    if notes != [] {
      SelfTotals(notes[..|notes| - 1], token);
      KeepOn(notes, OwnOf(token));
    }
  }

  lemma {:induction false} KeepAgrees<T>(s: seq<T>, p: T -> bool, q: T -> bool)
    requires forall x :: p(x) <==> q(x)
    ensures Keep(s, p) == Keep(s, q)
  {
    if s != [] { KeepAgrees(s[..|s| - 1], p, q); }
  }

  /** Stripping fees keeps what is no fee. */
  lemma {:induction false} StripKeeps(actions: seq<Action>, p: Action -> bool)
    requires forall a :: p(a) ==> !a.Fee?
    ensures Keep(NotFees(actions), p) == Keep(actions, p)
  {
    if actions != [] {
      var front, last := actions[..|actions| - 1], actions[|actions| - 1];
      StripKeeps(front, p);
      KeepOn(actions, p);
      if !last.Fee? {
        assert NotFees(actions)[..|NotFees(actions)| - 1] == NotFees(front);
        KeepOn(NotFees(actions), p);
      } else {
        assert NotFees(actions) == NotFees(front);
      }
    }
  }

  lemma ClassifyKeeps(tx: Transaction, fees: set<nat>, p: Action -> bool)
    requires tx.registeredPubkey.None? && forall a :: p(a) ==> !a.Fee?
    ensures Keep(Classify(tx, fees), p) == Keep(Unstripped(tx, fees), p)
  {
    StripKeeps(Unstripped(tx, fees), p);
  }

  /**
   * For every counterparty and token, one transfer in each direction: it carries the sum and the number
   * of the notes of that direction, counterparty and token, and is absent when there are none.
   */
  lemma TransfersCarryTheNotes(tx: Transaction, fees: set<nat>, other: nat, token: nat)
    requires tx.registeredPubkey.None?
    ensures var sent := Keep(tx.notes, OfGroup(Outgoing, other, token));
            Keep(Classify(tx, fees), IsSent(other, token))
            == if sent == [] then [] else [TransferSent(other, token, Sum(sent, Amount()), |sent|)]
    ensures var received := Keep(tx.notes, OfGroup(Incoming, other, token));
            Keep(Classify(tx, fees), IsReceived(other, token))
            == if received == [] then [] else [TransferReceived(other, token, Sum(received, Amount()), |received|)]
  {
    var out, inn := Group(Outgoing, other, token), Group(Incoming, other, token);
    ClassifyKeeps(tx, fees, IsSent(other, token));
    ClassifyKeeps(tx, fees, IsReceived(other, token));
    KeepAgrees(Unstripped(tx, fees), IsSent(other, token), For(out));
    KeepAgrees(Unstripped(tx, fees), IsReceived(other, token), For(inn));
    OneTransferPerGroup(tx, fees, out);
    OneTransferPerGroup(tx, fees, inn);
    GroupTotals(tx.notes, out);
    GroupTotals(tx.notes, inn);
    hide Classify, Unstripped, Keep, Groups, GroupTotal, GroupCount;
  }

  lemma {:induction false} SelfTransfersFor(ts: seq<nat>, notes: seq<Note>, token: nat)
    requires forall i, j :: 0 <= i < j < |ts| ==> ts[i] != ts[j]
    ensures Keep(SelfTransfers(ts, notes), IsSelf(token))
            == if token in ts then [TransferSelf(token, SelfTotal(notes, token), SelfCount(notes, token))] else []
  {
    if ts != [] {
      var front, last := ts[..|ts| - 1], ts[|ts| - 1];
      SelfTransfersFor(front, notes, token);
      assert ts == front + [last] && last !in front;
      var all := SelfTransfers(ts, notes);
      assert all[..|all| - 1] == SelfTransfers(front, notes);
      assert all[|all| - 1] == TransferSelf(last, SelfTotal(notes, last), SelfCount(notes, last));
      hide SelfTotal, SelfCount, SelfTransfers;
      KeepOn(all, IsSelf(token));
      hide Keep;
    }
  }

  lemma MeaningfulKeepsNoSelf(tx: Transaction, fees: set<nat>, token: nat)
    ensures Keep(Meaningful(tx, fees), IsSelf(token)) == []
  {
    MeaningfulShowsNoSelf(tx, fees);
    hide Meaningful;
    KeepNone(Meaningful(tx, fees), IsSelf(token));
  }

  /**
   * For every token, one transfer to oneself, carrying the sum and the number of the viewer's own notes
   * of it, when such notes and fees are all there is; none otherwise.
   */
  lemma SelfTransfersCarryTheNotes(tx: Transaction, fees: set<nat>, token: nat)
    requires tx.registeredPubkey.None?
    ensures var own := Keep(tx.notes, OwnOf(token));
            Keep(Classify(tx, fees), IsSelf(token))
            == if own == [] || !OnlyOwn(tx, fees) then [] else [TransferSelf(token, Sum(own, Amount()), |own|)]
  {
    var actions, ts := Meaningful(tx, fees), SelfTokens(tx.notes);
    ClassifyKeeps(tx, fees, IsSelf(token));
    NotFeesEmpty(actions);
    MeaningfulOnlyFees(tx, fees);
    MeaningfulKeepsNoSelf(tx, fees, token);
    SelfTotals(tx.notes, token);
    KeepConcat(actions, SelfTransfers(ts, tx.notes), IsSelf(token));
    SelfTransfersFor(ts, tx.notes, token);
    hide Classify, Keep, Meaningful, SelfTransfers, SelfTokens, SelfTotal, SelfCount, NotFees, OnlyOwn;
  }

  /** A registration is shown with its key, alone; anything else shows none. */
  lemma RegistrationStandsAlone(tx: Transaction, fees: set<nat>)
    ensures forall key :: tx.registeredPubkey == Some(key) ==> Classify(tx, fees) == [Register(key)]
    ensures tx.registeredPubkey == None ==> forall a :: a in Classify(tx, fees) ==> !a.Register?
  {
    if tx.registeredPubkey == None {
      NoneRegisters(tx, fees);
      StripAdds(Unstripped(tx, fees));
      hide Unstripped;
    }
  }

  lemma NoneRegisters(tx: Transaction, fees: set<nat>)
    ensures forall a :: a in Unstripped(tx, fees) ==> !a.Register?
  {
    var es, gs := Executors(tx.openNoteDeposits), Groups(tx.notes);
    var own := if NotFees(Meaningful(tx, fees)) == [] then SelfTransfers(SelfTokens(tx.notes), tx.notes) else [];
    var swaps, deposits := Swaps(es, tx.withdrawals, tx.openNoteDeposits), Deposits(tx.deposits);
    var plain, transfers := Plain(tx.withdrawals, es, fees), Transfers(gs, tx.notes);
    assert Unstripped(tx, fees) == swaps + (deposits + plain) + transfers + own;
    SwapsAre(es, tx.withdrawals, tx.openNoteDeposits);
    DepositsAre(tx.deposits);
    PlainAre(tx.withdrawals, es, fees);
    TransfersAre(gs, tx.notes);
    SelfTransfersAre(SelfTokens(tx.notes), tx.notes);
    hide Unstripped, Swaps, Deposits, Plain, Transfers, SelfTransfers, NotFees, Meaningful, Executors, Groups;
    forall a | a in Unstripped(tx, fees) ensures !a.Register? {
      InSomePart(a, swaps, deposits, plain, transfers, own);
    }
  }

  lemma {:induction false} StripAdds(actions: seq<Action>)
    ensures forall a :: a in NotFees(actions) ==> a in actions
  {
    if actions != [] { StripAdds(actions[..|actions| - 1]); }
  }
}
