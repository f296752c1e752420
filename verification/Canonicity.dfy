/**
 * Deciding whether a block is on the canonical chain, by two round trips to a node whose chain may
 * grow, reorganise above its final prefix, or finalise between them.
 */
module Canonicity {
  import opened Wrappers

  // ---- the chain ----

  /** A block's hash determines the block, so also its number. */
  type Numbering = nat -> nat

  /** The canonical hashes by height, and how many of them are accepted on L1. */
  datatype Chain = Chain(canonical: seq<nat>, final: nat)

  datatype Event =
    | Append(hash: nat)
    | Reorg(keep: nat)
    | Finalise(upTo: nat)

  predicate Happens(c: Chain, e: Event, number: Numbering) {
    match e
    case Append(hash) => number(hash) == |c.canonical|
    case Reorg(keep) => c.final <= keep <= |c.canonical|
    case Finalise(upTo) => c.final <= upTo <= |c.canonical|
  }

  function Next(c: Chain, e: Event): Chain
    requires e.Reorg? ==> e.keep <= |c.canonical|
  {
    match e
    case Append(hash) => c.(canonical := c.canonical + [hash])
    case Reorg(keep) => c.(canonical := c.canonical[..keep])
    case Finalise(upTo) => c.(final := upTo)
  }

  predicate IsChain(c: Chain, number: Numbering) {
    c.final <= |c.canonical| && forall i :: 0 <= i < |c.canonical| ==> number(c.canonical[i]) == i
  }

  /** The states a chain goes through, one event apart. */
  ghost predicate IsHistory(states: seq<Chain>, number: Numbering) {
    && (states != [] ==> IsChain(states[0], number))
    && (forall i :: 0 <= i < |states| - 1 ==> Precedes(states[i], states[i + 1], number))
  }

  /** One event leads from `c` to `d`. */
  ghost predicate Precedes(c: Chain, d: Chain, number: Numbering) {
    exists e :: Happens(c, e, number) && d == Next(c, e)
  }

  predicate Canonical(c: Chain, hash: nat, number: Numbering) {
    number(hash) < |c.canonical| && c.canonical[number(hash)] == hash
  }

  predicate Final(c: Chain, hash: nat, number: Numbering) {
    Canonical(c, hash, number) && number(hash) < c.final
  }

  // ---- the node ----

  datatype BlockStatus = AcceptedOnL2 | AcceptedOnL1

  datatype Block = Block(blockNumber: nat, blockHash: nat, status: BlockStatus)

  /** What `get_block_with_tx_hashes` answers. */
  datatype Reply = Accepted(block: Block) | PreConfirmed | BlockNotFound | Failed(error: string)

  /**
   * A truthful answer by hash: a canonical block is found; one that is not may still be known to the
   * node, but never as accepted on L1.
   */
  predicate AnswersHash(c: Chain, number: Numbering, hash: nat, r: Reply) {
    match r
    case Accepted(b) =>
      b.blockHash == hash && b.blockNumber == number(hash)
      && (b.status == AcceptedOnL1 ==> Final(c, hash, number))
    case PreConfirmed => !Canonical(c, hash, number)
    case BlockNotFound => !Canonical(c, hash, number)
    case Failed(_) => true
  }

  /** A truthful answer by number: the one block at that height, if the chain reaches it. */
  predicate AnswersNumber(c: Chain, n: nat, r: Reply) {
    match r
    case Accepted(b) => n < |c.canonical| && b.blockHash == c.canonical[n]
    case PreConfirmed => n >= |c.canonical|
    case BlockNotFound => n >= |c.canonical|
    case Failed(_) => true
  }

  // ---- the backend ----

  function BlockById(r: Reply): Result<Option<Block>> {
    match r
    case Accepted(b) => Ok(Some(b))
    case PreConfirmed => Ok(None)
    case BlockNotFound => Ok(None)
    case Failed(error) => Err(error)
  }

  /** `is_canonical`, on the node's answers to the two round trips. */
  function IsCanonical(hash: nat, byHash: Reply, byNumber: nat -> Reply): Result<bool> {
    match BlockById(byHash)
    case Err(error) => Err(error)
    case Ok(None) => Ok(false)
    case Ok(Some(block)) =>
      if block.status == AcceptedOnL1 then Ok(true)
      else SecondTrip(hash, byNumber(block.blockNumber))
  }

  function SecondTrip(hash: nat, r: Reply): Result<bool> {
    match BlockById(r)
    case Err(error) => Err(error)
    case Ok(candidate) => Ok(candidate.Some? && candidate.value.blockHash == hash)
  }

  // ---- finality ----

  lemma FinalStays(c: Chain, e: Event, number: Numbering, hash: nat)
    requires IsChain(c, number) && Happens(c, e, number) && Final(c, hash, number)
    ensures Final(Next(c, e), hash, number)
  {
  }

  lemma FinalPrecedes(c: Chain, d: Chain, number: Numbering, hash: nat)
    requires IsChain(c, number) && Precedes(c, d, number) && Final(c, hash, number)
    ensures Final(d, hash, number)
  {
    var e :| Happens(c, e, number) && d == Next(c, e);
    FinalStays(c, e, number, hash);
  }

  /** Every event leads from a chain to a chain. */
  lemma EventKeepsChain(c: Chain, d: Chain, number: Numbering)
    requires IsChain(c, number) && Precedes(c, d, number)
    ensures IsChain(d, number)
  {
    var e :| Happens(c, e, number) && d == Next(c, e);
  }

  lemma {:induction false} HistoryIsOfChains(states: seq<Chain>, number: Numbering, i: nat)
    requires IsHistory(states, number) && i < |states|
    ensures IsChain(states[i], number)
  {
    if i > 0 {
      var k := i - 1;
      HistoryIsOfChains(states, number, k);
      hide IsChain;
      assert Precedes(states[k], states[k + 1], number);
      EventKeepsChain(states[k], states[k + 1], number);
    }
  }

  /** A final block is canonical in every later state. */
  lemma {:induction false} FinalForever(states: seq<Chain>, number: Numbering, hash: nat, i: nat, j: nat)
    requires IsHistory(states, number) && i <= j < |states| && Final(states[i], hash, number)
    ensures Final(states[j], hash, number)
    decreases j
  {
    if i < j {
      FinalForever(states, number, hash, i, j - 1);
      HistoryIsOfChains(states, number, j - 1);
      hide Precedes, Final, IsChain;
      var k := j - 1;
      assert Precedes(states[k], states[k + 1], number);
      FinalPrecedes(states[k], states[k + 1], number, hash);
    }
  }

  // ---- the theorems ----

  /**
   * Linearizable: the round trips meet the chain at instants `i` and `j`, whatever happens between
   * them, and an answer is true of the chain at one of the instants from `i` to `j`.
   */
  lemma AnswerWasTrue(states: seq<Chain>, number: Numbering, hash: nat, i: nat, j: nat, byHash: Reply,
                      byNumber: nat -> Reply)
    requires IsHistory(states, number) && i <= j < |states|
    requires AnswersHash(states[i], number, hash, byHash)
    requires AnswersNumber(states[j], number(hash), byNumber(number(hash)))
    requires IsCanonical(hash, byHash, byNumber).Ok?
    ensures exists t :: i <= t <= j && Canonical(states[t], hash, number) == IsCanonical(hash, byHash, byNumber).value
  {
    var answer := IsCanonical(hash, byHash, byNumber).value;
    if byHash.Accepted? && byHash.block.status == AcceptedOnL2 {
      assert Canonical(states[j], hash, number) == answer;
    } else {
      assert Canonical(states[i], hash, number) == answer;
    }
  }

  /** The L1 shortcut answers what the second round trip would, now or at any later instant. */
  lemma ShortcutChangesNothing(states: seq<Chain>, number: Numbering, hash: nat, i: nat, j: nat, byHash: Reply,
                               byNumber: nat -> Reply)
    requires IsHistory(states, number) && i <= j < |states|
    requires AnswersHash(states[i], number, hash, byHash)
    requires AnswersNumber(states[j], number(hash), byNumber(number(hash)))
    requires byHash.Accepted? && byHash.block.status == AcceptedOnL1 && !byNumber(number(hash)).Failed?
    ensures IsCanonical(hash, byHash, byNumber) == SecondTrip(hash, byNumber(byHash.block.blockNumber)) == Ok(true)
    ensures Canonical(states[j], hash, number)
  {
    FinalForever(states, number, hash, i, j);
  }

  /** Knowing the hash is not enough: a block the node still knows may have been reorganised away. */
  lemma HashAloneCannotTell(number: Numbering, parent: nat, orphan: nat, winner: nat)
    requires number(parent) == 0 && number(orphan) == 1 && number(winner) == 1 && orphan != winner
    ensures var known := Accepted(Block(1, orphan, AcceptedOnL2));
            var states := [Chain([parent, orphan], 0), Chain([parent], 0), Chain([parent, winner], 0)];
            && IsHistory(states, number)
            && AnswersHash(states[0], number, orphan, known) && AnswersHash(states[2], number, orphan, known)
            && Canonical(states[0], orphan, number) && !Canonical(states[2], orphan, number)
            && IsCanonical(orphan, known, _ => Accepted(Block(1, orphan, AcceptedOnL2))) == Ok(true)
            && IsCanonical(orphan, known, _ => Accepted(Block(1, winner, AcceptedOnL2))) == Ok(false)
  {
    var states := [Chain([parent, orphan], 0), Chain([parent], 0), Chain([parent, winner], 0)];
    assert Happens(states[0], Reorg(1), number) && states[1] == Next(states[0], Reorg(1));
    assert Precedes(states[0], states[1], number);
    assert Happens(states[1], Append(winner), number) && states[2] == Next(states[1], Append(winner));
    assert Precedes(states[1], states[2], number);
  }
}
