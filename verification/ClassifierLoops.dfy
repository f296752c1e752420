/** `classifyTransaction` with the source's loops over insertion-ordered maps and an index set. */
module ClassifierLoops {
  import opened Classifier

  /** What the note loop keeps per key: the first note of the group, a running total, a count. */
  datatype Aggregate = Aggregate(note: Note, totalAmount: int, noteCount: nat)

  datatype SelfAggregate = SelfAggregate(totalAmount: int, noteCount: nat)

  /** The received legs by executor; `order` is the map's insertion order. */
  method GroupReceived(ds: seq<OpenNoteDeposit>) returns (order: seq<nat>, received: map<nat, seq<SwapLeg>>)
    ensures order == Executors(ds)
    ensures forall e :: e in order <==> e in received
    ensures forall e :: e in order ==> received[e] == ReceivedLegs(ds, e)
  {
    order, received := [], map[];
    for i := 0 to |ds|
      invariant order == Executors(ds[..i])
      invariant forall e :: e in order <==> e in received
      invariant forall e :: e in order ==> received[e] == ReceivedLegs(ds[..i], e)
    {
      assert ds[..i + 1][..i] == ds[..i];
      var d := ds[i];
      if d.depositor !in received {
        NoLegsYet(ds[..i], d.depositor);
        order := order + [d.depositor];
        received := received[d.depositor := []];
      }
      received := received[d.depositor := received[d.depositor] + [SwapLeg(d.token, d.amount)]];
    }
    assert ds[..|ds|] == ds;
  }

  lemma {:induction false} NoLegsYet(ds: seq<OpenNoteDeposit>, executor: nat)
    requires executor !in Executors(ds)
    ensures ReceivedLegs(ds, executor) == []
  {
    if ds != [] { NoLegsYet(ds[..|ds| - 1], executor); }
  }

  /** Withdrawals to an executor become its sent legs; their indexes are taken. */
  method MatchSwaps(order: seq<nat>, received: map<nat, seq<SwapLeg>>, ws: seq<Withdrawal>,
                    ghost ds: seq<OpenNoteDeposit>)
    returns (actions: seq<Action>, matched: set<nat>)
    requires forall i, j :: 0 <= i < j < |order| ==> order[i] != order[j]
    requires forall e :: e in order ==> e in received && received[e] == ReceivedLegs(ds, e)
    ensures actions == Swaps(order, ws, ds)
    ensures forall i :: i in matched <==> 0 <= i < |ws| && ws[i].toAddress in order
  {
    actions, matched := [], {};
    for k := 0 to |order|
      invariant actions == Swaps(order[..k], ws, ds)
      invariant forall i :: i in matched <==> 0 <= i < |ws| && ws[i].toAddress in order[..k]
    {
      var executor, sent := order[k], [];
      for index := 0 to |ws|
        invariant sent == SentLegs(ws[..index], executor)
        invariant forall i :: i in matched <==>
                    0 <= i < |ws| && (ws[i].toAddress in order[..k] || (i < index && ws[i].toAddress == executor))
      {
        assert ws[..index + 1][..index] == ws[..index];
        if index !in matched {
          if ws[index].toAddress == executor {
            sent := sent + [SwapLeg(ws[index].token, ws[index].amount)];
            matched := matched + {index};
          }
        }
      }
      assert ws[..|ws|] == ws;
      assert order[..k + 1][..k] == order[..k];
      actions := actions + [Swap(executor, sent, received[executor])];
    }
    assert order[..|order|] == order;
  }

  /** Deposits, then the withdrawals no swap has taken. */
  method PushPlain(tx: Transaction, es: seq<nat>, matched: set<nat>, fees: set<nat>) returns (actions: seq<Action>)
    requires forall i :: i in matched <==> 0 <= i < |tx.withdrawals| && tx.withdrawals[i].toAddress in es
    ensures actions == Deposits(tx.deposits) + Plain(tx.withdrawals, es, fees)
  {
    var ds, ws := tx.deposits, tx.withdrawals;
    actions := [];
    for i := 0 to |ds|
      invariant actions == Deposits(ds[..i])
    {
      assert ds[..i + 1][..i] == ds[..i];
      actions := actions + [Deposited(ds[i].fromAddress, ds[i].token, ds[i].amount)];
    }
    assert ds[..|ds|] == ds;
    for index := 0 to |ws|
      invariant actions == Deposits(ds) + Plain(ws[..index], es, fees)
    {
      assert ws[..index + 1][..index] == ws[..index];
      if index !in matched {
        actions := actions + [PlainWithdrawal(ws[index], fees)];
      }
    }
    assert ws[..|ws|] == ws;
  }

  // ---- aggregation ----

  /** The string-keyed map holds one aggregate per group, in the groups' order. */
  ghost predicate Aggregated(notes: seq<Note>, keys: seq<string>, aggs: map<string, Aggregate>) {
    var gs := Groups(notes);
    && |keys| == |gs|
    && (forall j :: 0 <= j < |gs| ==> keys[j] == Key(gs[j]) && keys[j] in aggs && Holds(notes, gs[j], aggs[keys[j]]))
    && (forall key :: key in aggs ==> key in keys)
  }

  ghost predicate Holds(notes: seq<Note>, g: Group, agg: Aggregate) {
    GroupOf(agg.note) == g && agg.totalAmount == GroupTotal(notes, g) && agg.noteCount == GroupCount(notes, g)
  }

  ghost predicate SelfAggregated(notes: seq<Note>, tokens: seq<nat>, aggs: map<nat, SelfAggregate>) {
    && tokens == SelfTokens(notes)
    && (forall t :: t in tokens <==> t in aggs)
    && (forall t :: t in tokens ==> aggs[t] == SelfAggregate(SelfTotal(notes, t), SelfCount(notes, t)))
  }

  lemma {:induction false} EmptyGroup(notes: seq<Note>, g: Group)
    requires g !in Groups(notes) && !g.channelKind.SelfChannel?
    ensures GroupTotal(notes, g) == 0 && GroupCount(notes, g) == 0
  {
    if notes != [] { EmptyGroup(notes[..|notes| - 1], g); }
  }

  lemma {:induction false} EmptySelf(notes: seq<Note>, t: nat)
    requires t !in SelfTokens(notes)
    ensures SelfTotal(notes, t) == 0 && SelfCount(notes, t) == 0
  {
    if notes != [] { EmptySelf(notes[..|notes| - 1], t); }
  }

  lemma GroupsNeverSelf(notes: seq<Note>, g: Group)
    requires g in Groups(notes)
    ensures !g.channelKind.SelfChannel?
  {
  }

  lemma SelfOn(notes: seq<Note>, n: Note, tokens: seq<nat>, aggs: map<nat, SelfAggregate>)
    requires SelfAggregated(notes, tokens, aggs) && n.channelKind.SelfChannel?
    ensures n.token in aggs ==>
              SelfAggregated(notes + [n], tokens,
                aggs[n.token := SelfAggregate(aggs[n.token].totalAmount + n.amount, aggs[n.token].noteCount + 1)])
    ensures n.token !in aggs ==> SelfAggregated(notes + [n], tokens + [n.token],
                                                aggs[n.token := SelfAggregate(n.amount, 1)])
  {
    assert (notes + [n])[..|notes|] == notes;
    if n.token !in aggs { EmptySelf(notes, n.token); }
  }

  lemma OthersOn(notes: seq<Note>, n: Note, tokens: seq<nat>, aggs: map<nat, SelfAggregate>)
    requires SelfAggregated(notes, tokens, aggs) && !n.channelKind.SelfChannel?
    ensures SelfAggregated(notes + [n], tokens, aggs)
  {
    assert (notes + [n])[..|notes|] == notes;
  }

  lemma KeyKnown(notes: seq<Note>, keys: seq<string>, aggs: map<string, Aggregate>, g: Group)
    requires Aggregated(notes, keys, aggs)
    ensures Key(g) in aggs <==> g in Groups(notes)
  {
    var gs := Groups(notes);
    if Key(g) in aggs {
      var j :| 0 <= j < |keys| && keys[j] == Key(g);
      KeyInjective(gs[j], g);
    }
    if g in gs {
      var j :| 0 <= j < |gs| && gs[j] == g;
      assert keys[j] in aggs;
    }
  }

  /** A note leaves every other group's aggregate as it was. */
  lemma OthersHold(notes: seq<Note>, n: Note, g: Group, agg: Aggregate)
    requires Holds(notes, g, agg) && g != GroupOf(n)
    ensures Holds(notes + [n], g, agg)
  {
    assert (notes + [n])[..|notes|] == notes;
  }

  lemma NewGroupOn(notes: seq<Note>, n: Note, keys: seq<string>, aggs: map<string, Aggregate>)
    requires Aggregated(notes, keys, aggs) && !n.channelKind.SelfChannel? && Key(GroupOf(n)) !in aggs
    ensures Aggregated(notes + [n], keys + [Key(GroupOf(n))], aggs[Key(GroupOf(n)) := Aggregate(n, n.amount, 1)])
  {
    var g, gs, all := GroupOf(n), Groups(notes), notes + [n];
    var keys', aggs' := keys + [Key(g)], aggs[Key(g) := Aggregate(n, n.amount, 1)];
    KeyKnown(notes, keys, aggs, g);
    EmptyGroup(notes, g);
    assert all[..|notes|] == notes;
    assert Groups(all) == gs + [g];
    forall j | 0 <= j < |gs| ensures keys'[j] in aggs' && Holds(all, gs[j], aggs'[keys'[j]]) {
      assert keys'[j] == keys[j] && keys[j] in aggs;
      OthersHold(notes, n, gs[j], aggs[keys[j]]);
    }
    assert Holds(all, g, aggs'[Key(g)]);
  }

  lemma SameGroupHolds(notes: seq<Note>, n: Note, agg: Aggregate)
    requires Holds(notes, GroupOf(n), agg)
    ensures Holds(notes + [n], GroupOf(n),
                  agg.(totalAmount := agg.totalAmount + n.amount, noteCount := agg.noteCount + 1))
  {
    assert (notes + [n])[..|notes|] == notes;
  }

  lemma OldGroupOn(notes: seq<Note>, n: Note, keys: seq<string>, aggs: map<string, Aggregate>, key: string)
    requires Aggregated(notes, keys, aggs) && !n.channelKind.SelfChannel? && key == Key(GroupOf(n)) && key in aggs
    ensures Aggregated(notes + [n], keys,
              aggs[key := aggs[key].(totalAmount := aggs[key].totalAmount + n.amount,
                                     noteCount := aggs[key].noteCount + 1)])
  {
    var g, gs := GroupOf(n), Groups(notes);
    var aggs' := aggs[key := aggs[key].(totalAmount := aggs[key].totalAmount + n.amount,
                                        noteCount := aggs[key].noteCount + 1)];
    KeyKnown(notes, keys, aggs, g);
    assert (notes + [n])[..|notes|] == notes;
    assert Groups(notes + [n]) == gs;
    forall j | 0 <= j < |gs| ensures Holds(notes + [n], gs[j], aggs'[keys[j]]) {
      assert keys[j] == Key(gs[j]) && Holds(notes, gs[j], aggs[keys[j]]);
      if keys[j] == key {
        KeyInjective(gs[j], g);
        SameGroupHolds(notes, n, aggs[key]);
      } else {
        OthersHold(notes, n, gs[j], aggs[keys[j]]);
      }
    }
  }

  lemma SkipsSelf(notes: seq<Note>, n: Note, keys: seq<string>, aggs: map<string, Aggregate>)
    requires Aggregated(notes, keys, aggs) && n.channelKind.SelfChannel?
    ensures Aggregated(notes + [n], keys, aggs)
  {
    assert (notes + [n])[..|notes|] == notes;
    forall j | 0 <= j < |keys| ensures Holds(notes + [n], Groups(notes)[j], aggs[keys[j]]) {
      GroupsNeverSelf(notes, Groups(notes)[j]);
    }
  }

  method AddToGroup(ghost notes: seq<Note>, note: Note, keys: seq<string>, aggs: map<string, Aggregate>)
    returns (keys': seq<string>, aggs': map<string, Aggregate>)
    requires Aggregated(notes, keys, aggs) && !note.channelKind.SelfChannel?
    ensures Aggregated(notes + [note], keys', aggs')
  {
    var key := Key(GroupOf(note));
    if key in aggs {
      OldGroupOn(notes, note, keys, aggs, key);
      var existing := aggs[key];
      keys' := keys;
      aggs' := aggs[key := existing.(totalAmount := existing.totalAmount + note.amount,
                                     noteCount := existing.noteCount + 1)];
    } else {
      NewGroupOn(notes, note, keys, aggs);
      keys' := keys + [key];
      aggs' := aggs[key := Aggregate(note, note.amount, 1)];
    }
  }

  method AddToSelf(ghost notes: seq<Note>, note: Note, tokens: seq<nat>, selfs: map<nat, SelfAggregate>)
    returns (tokens': seq<nat>, selfs': map<nat, SelfAggregate>)
    requires SelfAggregated(notes, tokens, selfs) && note.channelKind.SelfChannel?
    ensures SelfAggregated(notes + [note], tokens', selfs')
  {
    SelfOn(notes, note, tokens, selfs);
    if note.token in selfs {
      var existing := selfs[note.token];
      tokens' := tokens;
      selfs' := selfs[note.token := SelfAggregate(existing.totalAmount + note.amount, existing.noteCount + 1)];
    } else {
      tokens' := tokens + [note.token];
      selfs' := selfs[note.token := SelfAggregate(note.amount, 1)];
    }
  }

  method AggregateNotes(notes: seq<Note>)
    returns (keys: seq<string>, aggs: map<string, Aggregate>, tokens: seq<nat>, selfs: map<nat, SelfAggregate>)
    ensures Aggregated(notes, keys, aggs) && SelfAggregated(notes, tokens, selfs)
  {
    keys, aggs, tokens, selfs := [], map[], [], map[];
    for i := 0 to |notes|
      invariant Aggregated(notes[..i], keys, aggs)
      invariant SelfAggregated(notes[..i], tokens, selfs)
    {
      assert notes[..i + 1] == notes[..i] + [notes[i]];
      if notes[i].channelKind.SelfChannel? {
        SkipsSelf(notes[..i], notes[i], keys, aggs);
        tokens, selfs := AddToSelf(notes[..i], notes[i], tokens, selfs);
      } else {
        OthersOn(notes[..i], notes[i], tokens, selfs);
        keys, aggs := AddToGroup(notes[..i], notes[i], keys, aggs);
      }
    }
    assert notes[..|notes|] == notes;
  }

  /** An aggregate determines its group's transfer action. */
  lemma HeldTransfer(notes: seq<Note>, g: Group, agg: Aggregate)
    requires Holds(notes, g, agg)
    ensures Transfer(notes, g) ==
            if agg.note.channelKind.Outgoing?
            then TransferSent(agg.note.counterparty, agg.note.token, agg.totalAmount, agg.noteCount)
            else TransferReceived(agg.note.counterparty, agg.note.token, agg.totalAmount, agg.noteCount)
  {
  }

  method PushTransfers(ghost notes: seq<Note>, keys: seq<string>, aggs: map<string, Aggregate>)
    returns (actions: seq<Action>)
    requires Aggregated(notes, keys, aggs)
    ensures actions == Transfers(Groups(notes), notes)
  {
    actions := [];
    hide Groups, Key, Holds;
    for j := 0 to |keys|
      invariant actions == Transfers(Groups(notes)[..j], notes)
    {
      assert Groups(notes)[..j + 1][..j] == Groups(notes)[..j];
      var agg := aggs[keys[j]];
      HeldTransfer(notes, Groups(notes)[j], agg);
      if agg.note.channelKind.Outgoing? {
        actions := actions + [TransferSent(agg.note.counterparty, agg.note.token, agg.totalAmount, agg.noteCount)];
      } else {
        actions := actions + [TransferReceived(agg.note.counterparty, agg.note.token, agg.totalAmount, agg.noteCount)];
      }
    }
    assert Groups(notes)[..|keys|] == Groups(notes);
  }

  method PushSelfTransfers(ghost notes: seq<Note>, tokens: seq<nat>, selfs: map<nat, SelfAggregate>)
    returns (actions: seq<Action>)
    requires SelfAggregated(notes, tokens, selfs)
    ensures actions == SelfTransfers(tokens, notes)
  {
    actions := [];
    for j := 0 to |tokens|
      invariant actions == SelfTransfers(tokens[..j], notes)
    {
      assert tokens[..j + 1][..j] == tokens[..j];
      var t := tokens[j];
      actions := actions + [TransferSelf(t, selfs[t].totalAmount, selfs[t].noteCount)];
    }
    assert tokens[..|tokens|] == tokens;
  }

  /** `classifyTransaction`. */
  method ClassifyTransaction(tx: Transaction, fees: set<nat>) returns (actions: seq<Action>)
    ensures actions == Classify(tx, fees)
  {
    if tx.registeredPubkey.Some? {
      return [Register(tx.registeredPubkey.value)];
    }
    var order, received := GroupReceived(tx.openNoteDeposits);
    var swaps, matched := MatchSwaps(order, received, tx.withdrawals, tx.openNoteDeposits);
    var plain := PushPlain(tx, order, matched, fees);
    var keys, aggs, tokens, selfs := AggregateNotes(tx.notes);
    var transfers := PushTransfers(tx.notes, keys, aggs);
    actions := swaps + plain + transfers;
    assert actions == Meaningful(tx, fees);
    if |NotFees(actions)| == 0 && |tokens| > 0 {
      var own := PushSelfTransfers(tx.notes, tokens, selfs);
      actions := actions + own;
    } else {
      assert tokens == [] ==> actions + SelfTransfers(tokens, tx.notes) == actions;
    }
    assert actions == Unstripped(tx, fees);
    if SomeReceived(actions) && !SomeSent(actions) {
      actions := NotFees(actions);
    }
  }
}
