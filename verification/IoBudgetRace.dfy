/**
 * Threads racing on the budget counter, one atomic access at a time: `fetch_update` loads the word
 * and retries a weak compare-exchange, `fetch_add` is one access. Each thread runs a program of
 * operations; a run is any interleaving.
 */
module IoBudgetRace {
  import opened Wrappers
  import opened Arithmetic
  import opened IoBudget

  /** `Holding` is the inside of `fetch_update`: the value last read, and how long the log then was. */
  datatype Pc = Idle | Holding(prev: Usize, seen: nat)

  datatype Thread = Thread(todo: seq<Op>, pc: Pc, failures: nat)

  datatype State = State(remaining: Usize, threads: seq<Thread>, log: seq<Entry>, spurious: nat)

  /** Which thread moves, and whether a weak compare-exchange of its fails for no reason. */
  datatype Choice = Choice(thread: nat, spurious: bool)

  type Program = seq<Op>

  // ---- the code of one operation ----

  /** Operations that return without touching the counter. */
  predicate NoAccess(op: Op) {
    match op
    case Consume(_) => false
    case Reclaim(units) => units == 0
    case ConsumeUpTo(maxItems, _) => maxItems == 0
  }

  function CheckedSub(cur: Usize, n: nat): Option<Usize> {
    if n <= cur then Some(cur - n) else None
  }

  /** The closure handed to `fetch_update`. */
  function Next(op: Op, cur: Usize): Option<Usize> {
    match op
    case Consume(count) => CheckedSub(cur, count)
    case ConsumeUpTo(maxItems, cost) =>
      AffordableFits(cur, cost, maxItems);
      CheckedSub(cur, Min(cur / cost, maxItems) * cost)
    case Reclaim(_) => None
  }

  /** What the operation makes of the result of `fetch_update`. */
  function Returned(op: Op, found: Option<Usize>): Outcome {
    match op
    case Consume(_) => Consumed(found.Some?)
    case ConsumeUpTo(maxItems, cost) =>
      var num := if found.Some? then (AffordableIff(found.value, cost, 0); Min(found.value / cost, maxItems)) else 0;
      Items(num, num < maxItems)
    case Reclaim(_) => Reclaimed
  }

  // ---- one step ----

  predicate Enabled(s: State, c: Choice) {
    c.thread < |s.threads| && s.threads[c.thread].todo != []
  }

  function Finish(s: State, i: nat, t: Thread, outcome: Outcome, value: Usize): State
    requires i < |s.threads| && t.todo != []
  {
    s.(remaining := value,
       threads := s.threads[i := Thread(t.todo[1..], Idle, t.failures)],
       log := s.log + [Entry(i, t.todo[0], outcome)])
  }

  /** After reading the counter inside `fetch_update`: give up, or hold the value for an exchange. */
  function Observe(s: State, i: nat, t: Thread): State
    requires i < |s.threads| && t.todo != []
  {
    if Next(t.todo[0], s.remaining).None? then
      Finish(s, i, t, Returned(t.todo[0], None), s.remaining)
    else
      s.(threads := s.threads[i := t.(pc := Holding(s.remaining, |s.log|))])
  }

  function Step(s: State, c: Choice): State
    requires Enabled(s, c)
  {
    var i, t := c.thread, s.threads[c.thread];
    var op := t.todo[0];
    match t.pc
    case Idle =>
      if NoAccess(op) then
        Finish(s, i, t, if op.ConsumeUpTo? then Items(0, false) else Reclaimed, s.remaining)
      else if op.Reclaim? then
        Finish(s, i, t, Returned(op, None), (s.remaining + op.units) % WORD)
      else
        Observe(s, i, t)
    case Holding(prev, _) =>
      if s.remaining != prev then
        Observe(s, i, t.(failures := t.failures + 1))
      else if c.spurious || Next(op, prev).None? then
        Observe(s.(spurious := s.spurious + 1), i, t)
      else
        Finish(s, i, t, Returned(op, Some(prev)), Next(op, prev).value)
  }

  // ---- runs ----

  function Start(limit: Usize, programs: seq<Program>): State {
    State(limit, seq(|programs|, i requires 0 <= i < |programs| => Thread(programs[i], Idle, 0)), [], 0)
  }

  predicate IsRun(s: State, choices: seq<Choice>)
    decreases |choices|, 0
  {
    choices == [] ||
    (IsRun(s, choices[..|choices| - 1]) && Enabled(Exec(s, choices[..|choices| - 1]), choices[|choices| - 1]))
  }

  function Exec(s: State, choices: seq<Choice>): State
    requires IsRun(s, choices)
    decreases |choices|, 1
  {
    if choices == [] then s else Step(Exec(s, choices[..|choices| - 1]), choices[|choices| - 1])
  }

  predicate Finished(s: State) {
    forall i :: 0 <= i < |s.threads| ==> s.threads[i].todo == []
  }

  // ---- the invariant ----

  /** The operations of thread `i` the log has completed, in order. */
  function Done(log: seq<Entry>, i: nat): Program {
    if log == [] then []
    else
      var last := log[|log| - 1];
      Done(log[..|log| - 1], i) + (if last.thread == i then [last.op] else [])
  }

  ghost predicate ThreadInv(s: State, i: nat, program: Program)
    requires i < |s.threads|
  {
    var t := s.threads[i];
    && Done(s.log, i) + t.todo == program
    && match t.pc
       case Idle => t.failures <= |s.log|
       case Holding(prev, seen) =>
         && t.todo != [] && !NoAccess(t.todo[0]) && Next(t.todo[0], prev).Some?
         && t.failures <= seen <= |s.log|
         && (seen == |s.log| ==> prev == s.remaining)
  }

  ghost predicate Inv(limit: Usize, programs: seq<Program>, s: State) {
    && |s.threads| == |programs|
    && Sequential(limit, s.log) && Replay(limit, s.log) == s.remaining
    && (forall e :: 0 <= e < |s.log| ==> s.log[e].thread < |programs|)
    && (forall i :: 0 <= i < |programs| ==> ThreadInv(s, i, programs[i]))
  }

  /** What the code computes is the atomic operation, whenever the value it read is still there. */
  lemma CodeIsAtomic(op: Op, cur: Usize)
    ensures !NoAccess(op) && !op.Reclaim? ==>
              Apply(op, cur) == match Next(op, cur)
                                case Some(v) => (v, Returned(op, Some(cur)))
                                case None => (cur, Returned(op, None))
    ensures NoAccess(op) ==> Apply(op, cur) == (cur, if op.ConsumeUpTo? then Items(0, false) else Reclaimed)
  {
    if op.ConsumeUpTo? {
      AffordableFits(cur, op.costPerItem, op.maxItems);
      AffordableIff(cur, op.costPerItem, 0);
    }
  }

  lemma FinishKeeps(limit: Usize, programs: seq<Program>, s: State, i: nat, t: Thread, s': State)
    requires Inv(limit, programs, s) && i < |s.threads|
    requires t.todo != [] && t.todo == s.threads[i].todo && t.failures <= |s.log| + 1
    requires var r := Apply(t.todo[0], s.remaining);
             s' == Finish(s, i, t, r.1, r.0)
    ensures Inv(limit, programs, s')
  {
    assert s'.log[..|s'.log| - 1] == s.log;
    forall j | 0 <= j < |programs| ensures ThreadInv(s', j, programs[j]) {
      assert ThreadInv(s, j, programs[j]);
      if j == i {
        assert [t.todo[0]] + t.todo[1..] == t.todo;
      } else {
        assert Done(s'.log, j) == Done(s.log, j);
      }
    }
  }

  lemma HoldKeeps(limit: Usize, programs: seq<Program>, s: State, i: nat, t: Thread)
    requires Inv(limit, programs, s) && i < |s.threads|
    requires t.todo != [] && t.todo == s.threads[i].todo && t.failures <= |s.log|
    requires !NoAccess(t.todo[0]) && !t.todo[0].Reclaim?
    ensures Inv(limit, programs, Observe(s, i, t))
  {
    CodeIsAtomic(t.todo[0], s.remaining);
    var s' := Observe(s, i, t);
    if Next(t.todo[0], s.remaining).None? {
      FinishKeeps(limit, programs, s, i, t, s');
    } else {
      forall j | 0 <= j < |programs| ensures ThreadInv(s', j, programs[j]) {
        assert ThreadInv(s, j, programs[j]);
      }
    }
  }

  lemma StepKeeps(limit: Usize, programs: seq<Program>, s: State, c: Choice)
    requires Inv(limit, programs, s) && Enabled(s, c)
    ensures Inv(limit, programs, Step(s, c))
  {
    var i, t := c.thread, s.threads[c.thread];
    var op := t.todo[0];
    assert ThreadInv(s, i, programs[i]);
    CodeIsAtomic(op, s.remaining);
    match t.pc
    case Idle =>
      if NoAccess(op) || op.Reclaim? {
        FinishKeeps(limit, programs, s, i, t, Step(s, c));
      } else {
        HoldKeeps(limit, programs, s, i, t);
      }
    case Holding(prev, seen) =>
      if s.remaining != prev {
        HoldKeeps(limit, programs, s, i, t.(failures := t.failures + 1));
      } else if c.spurious {
        var s1 := s.(spurious := s.spurious + 1);
        assert Inv(limit, programs, s1) by {
          forall j | 0 <= j < |programs| ensures ThreadInv(s1, j, programs[j]) { assert ThreadInv(s, j, programs[j]); }
        }
        HoldKeeps(limit, programs, s1, i, t);
      } else {
        FinishKeeps(limit, programs, s, i, t, Step(s, c));
      }
  }

  /**
   * Linearizability: after any interleaving, the completed operations form a sequential log that
   * explains every returned value and the counter, and each thread's own operations appear in its
   * program order.
   */
  lemma {:induction false} RunIsSequential(limit: Usize, programs: seq<Program>, choices: seq<Choice>)
    requires IsRun(Start(limit, programs), choices)
    ensures Inv(limit, programs, Exec(Start(limit, programs), choices))
  {
    if choices == [] {
      var s := Start(limit, programs);
      forall i | 0 <= i < |programs| ensures ThreadInv(s, i, programs[i]) {
        assert Done([], i) + programs[i] == programs[i];
      }
    } else {
      RunIsSequential(limit, programs, choices[..|choices| - 1]);
      StepKeeps(limit, programs, Exec(Start(limit, programs), choices[..|choices| - 1]), choices[|choices| - 1]);
    }
  }

  /** Conservation over every interleaving, exact precisely when no `fetch_add` ran past the word. */
  lemma RunConserves(limit: Usize, programs: seq<Program>, choices: seq<Choice>)
    requires IsRun(Start(limit, programs), choices)
    ensures var s := Exec(Start(limit, programs), choices);
            && s.remaining + TotalTaken(s.log) + WORD * Wraps(limit, s.log) == limit + TotalReclaimed(s.log)
            && (s.remaining + TotalTaken(s.log) == limit + TotalReclaimed(s.log) <==> Wraps(limit, s.log) == 0)
            && (limit + TotalReclaimed(s.log) < WORD ==> Wraps(limit, s.log) == 0)
  {
    RunIsSequential(limit, programs, choices);
    Conservation(limit, Exec(Start(limit, programs), choices).log);
  }

  // ---- totals over threads ----

  function Demand(program: Program): nat {
    if program == [] then 0 else Demand(program[..|program| - 1]) + OpDemand(program[|program| - 1])
  }

  function TotalDemand(programs: seq<Program>): nat {
    if programs == [] then 0 else Demand(programs[0]) + TotalDemand(programs[1..])
  }

  function TotalOps(programs: seq<Program>): nat {
    if programs == [] then 0 else |programs[0]| + TotalOps(programs[1..])
  }

  function DoneBy(log: seq<Entry>, n: nat): (programs: seq<Program>)
    ensures |programs| == n
  {
    seq(n, i requires 0 <= i < n => Done(log, i))
  }

  lemma {:induction false} TotalsOfUpdate(programs: seq<Program>, i: nat, op: Op)
    requires i < |programs|
    ensures TotalDemand(programs[i := programs[i] + [op]]) == TotalDemand(programs) + OpDemand(op)
    ensures TotalOps(programs[i := programs[i] + [op]]) == TotalOps(programs) + 1
  {
    var updated := programs[i := programs[i] + [op]];
    if i == 0 {
      assert updated[1..] == programs[1..];
      assert (programs[0] + [op])[..|programs[0]|] == programs[0];
    } else {
      assert updated[1..] == programs[1..][i - 1 := programs[1..][i - 1] + [op]];
      TotalsOfUpdate(programs[1..], i - 1, op);
    }
  }

  lemma {:induction false} TotalsOfNothing(n: nat)
    ensures TotalDemand(DoneBy([], n)) == 0 && TotalOps(DoneBy([], n)) == 0
  {
    if n > 0 {
      assert DoneBy([], n)[1..] == DoneBy([], n - 1);
      TotalsOfNothing(n - 1);
    }
  }

  /** A log's totals are the sums of its threads' totals. */
  lemma {:induction false} TotalsOfLog(log: seq<Entry>, n: nat)
    requires forall e :: 0 <= e < |log| ==> log[e].thread < n
    ensures LogDemand(log) == TotalDemand(DoneBy(log, n)) && |log| == TotalOps(DoneBy(log, n))
  {
    if log == [] {
      TotalsOfNothing(n);
    } else {
      var front, last := log[..|log| - 1], log[|log| - 1];
      TotalsOfLog(front, n);
      var before := DoneBy(front, n);
      var after := before[last.thread := before[last.thread] + [last.op]];
      forall i | 0 <= i < n ensures DoneBy(log, n)[i] == after[i] {
        assert Done(log, i) == Done(front, i) + (if last.thread == i then [last.op] else []);
      }
      assert DoneBy(log, n) == after;
      TotalsOfUpdate(before, last.thread, last.op);
    }
  }

  lemma {:induction false} OpsOfPrefixes(part: seq<Program>, whole: seq<Program>)
    requires |part| == |whole| && forall i :: 0 <= i < |part| ==> |part[i]| <= |whole[i]|
    ensures TotalOps(part) <= TotalOps(whole)
  {
    if part != [] { OpsOfPrefixes(part[1..], whole[1..]); }
  }

  /**
   * When every thread has finished, all at one cost and without reclaims, the race granted exactly
   * `min(sum of what was asked for, limit / cost)` items.
   */
  lemma RaceGrantsInTotal(limit: Usize, programs: seq<Program>, cost: Cost, choices: seq<Choice>)
    requires IsRun(Start(limit, programs), choices) && Finished(Exec(Start(limit, programs), choices))
    requires forall i, j :: 0 <= i < |programs| && 0 <= j < |programs[i]| ==>
               programs[i][j].ConsumeUpTo? && programs[i][j].costPerItem == cost
    ensures var s := Exec(Start(limit, programs), choices);
            PaidInFull(limit, s.remaining, TotalItems(s.log), TotalDemand(programs), cost)
  {
    var s := Exec(Start(limit, programs), choices);
    RunIsSequential(limit, programs, choices);
    forall i | 0 <= i < |programs| ensures DoneBy(s.log, |programs|)[i] == programs[i] {
      assert ThreadInv(s, i, programs[i]);
    }
    assert DoneBy(s.log, |programs|) == programs;
    TotalsOfLog(s.log, |programs|);
    LoggedOpsAreOurs(s.log, programs);
    GrantedInTotal(limit, s.log, cost);
  }

  lemma {:induction false} LoggedOpsAreOurs(log: seq<Entry>, programs: seq<Program>)
    requires forall e :: 0 <= e < |log| ==> log[e].thread < |programs|
    requires forall i :: 0 <= i < |programs| ==> Done(log, i) <= programs[i]
    ensures forall e :: 0 <= e < |log| ==> log[e].op in programs[log[e].thread]
  {
    if log != [] {
      var front, last := log[..|log| - 1], log[|log| - 1];
      forall i | 0 <= i < |programs| ensures Done(front, i) <= programs[i] {
        assert Done(front, i) <= Done(log, i);
      }
      LoggedOpsAreOurs(front, programs);
      var done := Done(log, last.thread);
      assert done[|done| - 1] == last.op;
    }
  }

  // ---- every operation finishes ----

  /** Failed exchanges so far, plus the exchanges in preparation. */
  function Work(threads: seq<Thread>): nat {
    if threads == [] then 0
    else threads[0].failures + (if threads[0].pc.Holding? then 1 else 0) + Work(threads[1..])
  }

  lemma {:induction false} WorkOfUpdate(threads: seq<Thread>, i: nat, t: Thread)
    requires i < |threads|
    ensures Work(threads[i := t]) + threads[i].failures + (if threads[i].pc.Holding? then 1 else 0)
         == Work(threads) + t.failures + (if t.pc.Holding? then 1 else 0)
  {
    if i == 0 {
      assert threads[0 := t][1..] == threads[1..];
    } else {
      assert threads[i := t][1..] == threads[1..][i - 1 := t];
      WorkOfUpdate(threads[1..], i - 1, t);
    }
  }

  lemma {:induction false} WorkBound(threads: seq<Thread>, bound: nat)
    requires forall i :: 0 <= i < |threads| ==> threads[i].failures <= bound
    ensures Work(threads) <= |threads| * (bound + 1)
  {
    if threads != [] {
      WorkBound(threads[1..], bound);
      assert |threads| * (bound + 1) == (|threads| - 1) * (bound + 1) + (bound + 1);
    }
  }

  lemma {:induction false} NoWorkYet(programs: seq<Program>)
    ensures Work(Start(0, programs).threads) == 0
  {
    if programs != [] {
      assert Start(0, programs).threads[1..] == Start(0, programs[1..]).threads;
      NoWorkYet(programs[1..]);
    }
  }

  lemma StepIsCharged(s: State, c: Choice)
    requires Enabled(s, c)
    ensures var s' := Step(s, c);
            1 + 2 * |s.log| + Work(s.threads) + s.spurious <= 2 * |s'.log| + Work(s'.threads) + s'.spurious
  {
    var s' := Step(s, c);
    WorkOfUpdate(s.threads, c.thread, s'.threads[c.thread]);
    assert s'.threads == s.threads[c.thread := s'.threads[c.thread]];
  }

  /** Each step completes an operation, prepares an exchange, or fails one. */
  lemma {:induction false} StepsAreCharged(limit: Usize, programs: seq<Program>, choices: seq<Choice>)
    requires IsRun(Start(limit, programs), choices)
    ensures var s := Exec(Start(limit, programs), choices);
            |choices| <= 2 * |s.log| + Work(s.threads) + s.spurious
  {
    if choices == [] {
      NoWorkYet(programs);
      assert Start(limit, programs).threads == Start(0, programs).threads;
    } else {
      var front := choices[..|choices| - 1];
      StepsAreCharged(limit, programs, front);
      StepIsCharged(Exec(Start(limit, programs), front), choices[|choices| - 1]);
    }
  }

  lemma Shares(n: nat, a: nat, b: nat)
    requires a <= b
    ensures n * (a + 1) <= n * (b + 1)
  {
    assert n * (b + 1) == n * (a + 1) + n * (b - a);
  }

  lemma UnfinishedCanStep(s: State)
    ensures !Finished(s) <==> exists c :: Enabled(s, c)
  {
    if !Finished(s) {
      var i :| 0 <= i < |s.threads| && s.threads[i].todo != [];
      assert Enabled(s, Choice(i, false));
    }
  }

  /**
   * Lock-freedom with a bound: each failed exchange of a thread is charged to a later operation
   * completed by somebody, so a run of `n` threads with `m` operations in all takes at most
   * `2m + n(m + 1)` steps besides spurious failures, and a run can only stop when all have finished.
   */
  lemma RunsFinish(limit: Usize, programs: seq<Program>, choices: seq<Choice>)
    requires IsRun(Start(limit, programs), choices)
    ensures var s, m := Exec(Start(limit, programs), choices), TotalOps(programs);
            && (forall i :: 0 <= i < |s.threads| ==> s.threads[i].failures <= |s.log|)
            && |s.log| <= m
            && |choices| <= 2 * m + |programs| * (m + 1) + s.spurious
            && (!Finished(s) <==> exists c :: Enabled(s, c))
  {
    var s, m, n := Exec(Start(limit, programs), choices), TotalOps(programs), |programs|;
    RunIsSequential(limit, programs, choices);
    forall i | 0 <= i < n ensures s.threads[i].failures <= |s.log| && |DoneBy(s.log, n)[i]| <= |programs[i]| {
      assert ThreadInv(s, i, programs[i]);
    }
    UnfinishedCanStep(s);
    hide Exec, ThreadInv, Enabled;
    TotalsOfLog(s.log, n);
    OpsOfPrefixes(DoneBy(s.log, n), programs);
    StepsAreCharged(limit, programs, choices);
    WorkBound(s.threads, |s.log|);
    Shares(n, |s.log|, m);
  }
}
