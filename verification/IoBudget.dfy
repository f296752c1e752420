/**
 * The shared I/O budget counter. Threads race on one atomic word with load/compare-exchange loops;
 * every run is shown to be equivalent to a sequential log of atomic operations, to conserve the
 * budget, and to finish.
 */
module IoBudget {
  import opened Wrappers
  import opened Arithmetic

  /** The range of a 64-bit `usize`. */
  const WORD: nat := 0x1_0000_0000_0000_0000

  type Usize = n: nat | n < WORD

  type Cost = n: nat | 0 < n < WORD witness 1

  datatype Op =
    | Consume(count: Usize)
    | Reclaim(units: Usize)
    | ConsumeUpTo(maxItems: Usize, costPerItem: Cost)

  datatype Outcome =
    | Consumed(ok: bool)
    | Reclaimed
    | Items(num: nat, exhausted: bool)

  // ---- one operation at a time ----

  /** The counter after an uninterrupted operation, and what the operation returns. */
  function Apply(op: Op, cur: Usize): (r: (Usize, Outcome)) {
    match op
    case Consume(count) => if count <= cur then (cur - count, Consumed(true)) else (cur, Consumed(false))
    case Reclaim(units) => ((cur + units) % WORD, Reclaimed)
    case ConsumeUpTo(maxItems, cost) =>
      AffordableFits(cur, cost, maxItems);
      var num := Min(cur / cost, maxItems);
      (cur - num * cost, Items(num, num < maxItems))
  }

  lemma AffordableFits(cur: nat, cost: nat, maxItems: nat)
    requires cost > 0
    ensures 0 <= Min(cur / cost, maxItems) * cost <= cur
  {
    var q := cur / cost;
    assert cur == q * cost + cur % cost;
    var n: nat := Min(q, maxItems);
    assert n * cost <= q * cost;
  }

  lemma AffordableIff(cur: nat, cost: nat, n: nat)
    requires cost > 0
    ensures n <= cur / cost <==> n * cost <= cur
  {
    var q := cur / cost;
    assert cur == q * cost + cur % cost;
    if n <= q {
      assert (q - n) * cost >= 0;
    } else {
      assert (n - q - 1) * cost >= 0;
      assert n * cost == (n - q - 1) * cost + q * cost + cost;
    }
  }

  /** The grant is the largest number of whole items that is both asked for and affordable. */
  lemma GrantIsLargest(cur: Usize, maxItems: Usize, cost: Cost, n: nat)
    ensures var num := Apply(ConsumeUpTo(maxItems, cost), cur).1.num;
            n <= num <==> n <= maxItems && n * cost <= cur
  {
    AffordableIff(cur, cost, n);
  }

  /** The counter as an object, for a single thread of control. */
  class IoBudget {
    var remaining: Usize

    constructor (limit: Usize)
      ensures remaining == limit
    {
      remaining := limit;
    }

    method Consume(count: Usize) returns (ok: bool)
      modifies this
      ensures ok <==> count <= old(remaining)
      ensures remaining == old(remaining) - (if ok then count else 0)
      ensures (remaining, Consumed(ok)) == Apply(Op.Consume(count), old(remaining))
    {
      ok := count <= remaining;
      if ok {
        remaining := remaining - count;
      }
    }

    method Reclaim(units: Usize)
      modifies this
      ensures remaining == (old(remaining) + units) % 0x1_0000_0000_0000_0000
      ensures (remaining, Reclaimed) == Apply(Op.Reclaim(units), old(remaining))
    {
      if units > 0 {
        remaining := (remaining + units) % WORD;
      }
    }

    method TryConsume(count: Usize) returns (shortfall: Option<(Usize, Usize)>)
      modifies this
      ensures shortfall.None? <==> count <= old(remaining)
      ensures remaining == old(remaining) - (if shortfall.None? then count else 0)
      ensures shortfall.Some? ==> shortfall.value == (count, remaining) && remaining < count
    {
      var ok := Consume(count);
      shortfall := if ok then None else Some((count, remaining));
    }

    method ConsumeUpTo(maxItems: Usize, costPerItem: Cost) returns (num: nat, exhausted: bool)
      modifies this
      ensures num <= maxItems && (exhausted <==> num < maxItems)
      ensures remaining + num * costPerItem == old(remaining)
      ensures exhausted ==> remaining < costPerItem
      ensures (remaining, Items(num, exhausted)) == Apply(Op.ConsumeUpTo(maxItems, costPerItem), old(remaining))
    {
      if maxItems == 0 {
        return 0, false;
      }
      AffordableFits(remaining, costPerItem, maxItems);
      GrantIsLargest(remaining, maxItems, costPerItem, Min(remaining / costPerItem, maxItems) + 1);
      num := Min(remaining / costPerItem, maxItems);
      exhausted := num < maxItems;
      remaining := remaining - num * costPerItem;
    }
  }

  // ---- sequential logs ----

  datatype Entry = Entry(thread: nat, op: Op, outcome: Outcome)

  /** The counter after the logged operations ran one after the other. */
  function Replay(limit: Usize, log: seq<Entry>): Usize {
    if log == [] then limit else Apply(log[|log| - 1].op, Replay(limit, log[..|log| - 1])).0
  }

  /** Every logged outcome is the one its operation has when run at its place in the log. */
  predicate Sequential(limit: Usize, log: seq<Entry>) {
    log == [] ||
    (Sequential(limit, log[..|log| - 1])
     && log[|log| - 1].outcome == Apply(log[|log| - 1].op, Replay(limit, log[..|log| - 1])).1)
  }

  /** The units one logged operation took, as its outcome reports them. */
  function UnitsTaken(e: Entry): nat {
    match (e.op, e.outcome)
    case (Consume(count), Consumed(ok)) => if ok then count else 0
    case (ConsumeUpTo(_, cost), Items(num, _)) => num * cost
    case _ => 0
  }

  function TotalTaken(log: seq<Entry>): nat {
    if log == [] then 0 else TotalTaken(log[..|log| - 1]) + UnitsTaken(log[|log| - 1])
  }

  function TotalReclaimed(log: seq<Entry>): nat {
    if log == [] then 0
    else TotalReclaimed(log[..|log| - 1]) + UnitsReclaimed(log[|log| - 1].op)
  }

  /** How many reclaims ran past the end of the counter word. */
  function Wraps(limit: Usize, log: seq<Entry>): nat {
    if log == [] then 0
    else
      var front := log[..|log| - 1];
      Wraps(limit, front) + (if WrapsAt(log[|log| - 1].op, Replay(limit, front)) then 1 else 0)
  }

  /** The same for one operation: whether its reclaim wraps, and the units it gives back. */
  predicate WrapsAt(op: Op, cur: Usize) {
    op.Reclaim? && cur + op.units >= WORD
  }

  function UnitsReclaimed(op: Op): nat {
    if op.Reclaim? then op.units else 0
  }

  lemma StepConserves(e: Entry, cur: Usize)
    requires e.outcome == Apply(e.op, cur).1
    ensures Apply(e.op, cur).0 + UnitsTaken(e) + (if WrapsAt(e.op, cur) then WORD else 0) == cur + UnitsReclaimed(e.op)
  {
    if e.op.Reclaim? {
      var sum := cur + e.op.units;
      RemainderIsUnique(sum, WORD, if sum >= WORD then 1 else 0, if sum >= WORD then sum - WORD else sum);
    }
  }

  /** Nothing is lost or invented, up to the word size; exactly nothing when no reclaim wrapped. */
  lemma {:induction false} Conservation(limit: Usize, log: seq<Entry>)
    requires Sequential(limit, log)
    ensures Replay(limit, log) + TotalTaken(log) + WORD * Wraps(limit, log) == limit + TotalReclaimed(log)
    ensures Replay(limit, log) + TotalTaken(log) == limit + TotalReclaimed(log) <==> Wraps(limit, log) == 0
    ensures limit + TotalReclaimed(log) < WORD ==> Wraps(limit, log) == 0
  {
    if log != [] {
      Conservation(limit, log[..|log| - 1]);
      StepConserves(log[|log| - 1], Replay(limit, log[..|log| - 1]));
    }
  }

  /** Items granted and asked for, over a log. */
  function TotalItems(log: seq<Entry>): nat {
    if log == [] then 0
    else TotalItems(log[..|log| - 1]) + (if log[|log| - 1].outcome.Items? then log[|log| - 1].outcome.num else 0)
  }

  function OpDemand(op: Op): nat {
    if op.ConsumeUpTo? then op.maxItems else 0
  }

  function LogDemand(log: seq<Entry>): nat {
    if log == [] then 0 else LogDemand(log[..|log| - 1]) + OpDemand(log[|log| - 1].op)
  }

  predicate CommonCost(log: seq<Entry>, cost: Cost) {
    forall i :: 0 <= i < |log| ==> log[i].op.ConsumeUpTo? && log[i].op.costPerItem == cost
  }

  /** `granted` items were paid for out of `limit`, as many as `demand` and the limit allow. */
  ghost predicate PaidInFull(limit: nat, cur: nat, granted: nat, demand: nat, cost: Cost) {
    granted == Min(demand, limit / cost) && cur + granted * cost == limit
  }

  /** With one cost and no reclaims the order does not matter: all the budget can pay for is granted. */
  lemma {:induction false} GrantedInTotal(limit: Usize, log: seq<Entry>, cost: Cost)
    requires Sequential(limit, log) && CommonCost(log, cost)
    ensures PaidInFull(limit, Replay(limit, log), TotalItems(log), LogDemand(log), cost)
  {
    if log == [] {
      AffordableIff(limit, cost, 0);
    } else {
      var front, last := log[..|log| - 1], log[|log| - 1];
      GrantedInTotal(limit, front, cost);
      GrantStep(limit, Replay(limit, front), TotalItems(front), LogDemand(front), last.op, cost);
    }
  }

  lemma GrantStep(limit: nat, cur: Usize, granted: nat, demand: nat, op: Op, cost: Cost)
    requires PaidInFull(limit, cur, granted, demand, cost) && op.ConsumeUpTo? && op.costPerItem == cost
    ensures var r := Apply(op, cur);
            r.1.Items? && PaidInFull(limit, r.0, granted + r.1.num, demand + OpDemand(op), cost)
  {
    QuotientLess(limit, cur, granted, cost);
    AffordableFits(cur, cost, op.maxItems);
    Distribute(granted, Apply(op, cur).1.num, cost);
  }

  lemma Distribute(a: nat, b: nat, c: nat)
    ensures (a + b) * c == a * c + b * c
  {
  }

  lemma Distributes(a: nat, b: nat, c: nat)
    ensures (a + b) * c == a * c + b * c
  {
  }

  lemma QuotientLess(limit: nat, cur: nat, taken: nat, cost: nat)
    requires cost > 0 && cur + taken * cost == limit
    ensures limit / cost == cur / cost + taken
  {
    var q, r := cur / cost, cur % cost;
    assert cur == q * cost + r && r < cost;
    Distributes(q, taken, cost);
    RemainderIsUnique(limit, cost, q + taken, r);
  }

  /**
   * `try_consume` reads the counter again to report what was available. The report falls short of
   * the need unless somebody reclaimed in between.
   */
  lemma {:induction false} AvailableFallsShort(limit: Usize, log: seq<Entry>, p: nat, count: Usize)
    requires p <= |log| && Replay(limit, log[..p]) < count
    requires forall i :: p <= i < |log| ==> !log[i].op.Reclaim?
    ensures Replay(limit, log) < count
    decreases |log|
  {
    if p == |log| {
      assert log[..p] == log;
    } else {
      assert log[..|log| - 1][..p] == log[..p];
      AvailableFallsShort(limit, log[..|log| - 1], p, count);
      var op, cur := log[|log| - 1].op, Replay(limit, log[..|log| - 1]);
      if op.ConsumeUpTo? { AffordableFits(cur, op.costPerItem, op.maxItems); }
    }
  }

  lemma {:induction false} PrefixIsSequential(limit: Usize, log: seq<Entry>, p: nat)
    requires Sequential(limit, log) && p <= |log|
    ensures Sequential(limit, log[..p])
    decreases |log|
  {
    if p == |log| {
      assert log[..p] == log;
    } else {
      assert log[..|log| - 1][..p] == log[..p];
      PrefixIsSequential(limit, log[..|log| - 1], p);
    }
  }

  /**
   * Exactly when the report falls short of the need: what remained at the failure and was reclaimed
   * since is less than the need and what was taken, or lost to wrapping, since.
   */
  lemma AvailableExactly(limit: Usize, log: seq<Entry>, p: nat, count: Usize)
    requires Sequential(limit, log) && p <= |log|
    ensures var reclaimed := TotalReclaimed(log) - TotalReclaimed(log[..p]);
            var taken := TotalTaken(log) - TotalTaken(log[..p]);
            var wraps := Wraps(limit, log) - Wraps(limit, log[..p]);
            Replay(limit, log) < count <==> Replay(limit, log[..p]) + reclaimed < count + taken + WORD * wraps
  {
    PrefixIsSequential(limit, log, p);
    Conservation(limit, log);
    Conservation(limit, log[..p]);
  }

  /** With a reclaim in between, a failed `try_consume(5)` can report five units available. */
  lemma AvailableCanReachNeed()
    ensures var log := [Entry(0, Op.Consume(5), Consumed(false)), Entry(1, Op.Reclaim(2), Reclaimed)];
            Sequential(3, log) && Replay(3, log) == 5
  {
    var log := [Entry(0, Op.Consume(5), Consumed(false)), Entry(1, Op.Reclaim(2), Reclaimed)];
    assert log[..1] == [log[0]] && log[..1][..0] == [];
    assert Replay(3, log[..1]) == 3;
  }
}
