/**
 * `runInterceptors`: every interceptor runs concurrently, a first block wins at once, and an allow
 * needs all of them. The promises are modelled by the jobs they put on the FIFO microtask queue
 * (sections 9.5, 27.2.4.1 and 27.2.4.5 of ECMA-262); interceptors settle whenever they like.
 */
module InterceptorRace {
  import opened Wrappers

  datatype Signature = Signature(issuedAt: real, sigR: string, sigS: string)

  datatype Verdict = Allow(signature: Option<Signature>) | Block(reason: string)

  /** How one `intercept` call ends. */
  datatype Settlement = Returned(verdict: Verdict) | Threw

  /** What one `intercept` call does before its caller continues. */
  datatype Call =
    | ThrowsAtOnce
    | AlreadySettled(settlement: Settlement)
    | Pending

  /** The try/catch around the awaited call. */
  function VerdictOf(s: Settlement): Verdict {
    match s
    case Returned(v) => v
    case Threw => Block("interceptor_error")
  }

  datatype Job =
    | Resume(i: nat)        // the async function around interceptor i continues
    | Relay(i: nat)         // the block promise of interceptor i continues
    | Count(i: nat)         // Promise.all receives element i
    | Conclude              // Promise.all has every element: look for a signature
    | Decide(v: Verdict)    // Promise.race receives a verdict

  /**
   * `verdicts[i]` is the value promise `i` fulfilled with, `order` the order of those fulfilments,
   * `counted` and `left` the state of `Promise.all`, `outcome` that of `Promise.race`.
   */
  datatype State = State(
    queue: seq<Job>,
    settled: seq<Option<Settlement>>,
    verdicts: seq<Option<Verdict>>,
    order: seq<nat>,
    counted: set<nat>,
    left: nat,
    outcome: Option<Verdict>)

  datatype Event = Settle(i: nat, settlement: Settlement) | RunHead

  // ---- the synchronous part ----

  function Throwers(calls: seq<Call>): (ids: seq<nat>)
    ensures forall p :: 0 <= p < |ids| ==> ids[p] < |calls| && calls[ids[p]].ThrowsAtOnce?
    ensures forall p, r :: 0 <= p < r < |ids| ==> ids[p] < ids[r]
    ensures forall i :: 0 <= i < |calls| && calls[i].ThrowsAtOnce? ==> i in ids
  {
    if calls == [] then []
    else
      var i := |calls| - 1;
      Throwers(calls[..i]) + (if calls[i].ThrowsAtOnce? then [i] else [])
  }

  function EarlySettlers(calls: seq<Call>): (ids: seq<nat>)
    ensures forall p :: 0 <= p < |ids| ==> ids[p] < |calls| && calls[ids[p]].AlreadySettled?
    ensures forall p, r :: 0 <= p < r < |ids| ==> ids[p] < ids[r]
    ensures forall i :: 0 <= i < |calls| && calls[i].AlreadySettled? ==> i in ids
  {
    if calls == [] then []
    else
      var i := |calls| - 1;
      EarlySettlers(calls[..i]) + (if calls[i].AlreadySettled? then [i] else [])
  }

  function Resumes(ids: seq<nat>): (jobs: seq<Job>)
    ensures |jobs| == |ids| && forall p :: 0 <= p < |ids| ==> jobs[p] == Resume(ids[p])
  {
    if ids == [] then [] else [Resume(ids[0])] + Resumes(ids[1..])
  }

  function Relays(ids: seq<nat>): (jobs: seq<Job>)
    ensures |jobs| == |ids| && forall p :: 0 <= p < |ids| ==> jobs[p] == Relay(ids[p])
  {
    if ids == [] then [] else [Relay(ids[0])] + Relays(ids[1..])
  }

  function Counts(ids: seq<nat>): (jobs: seq<Job>)
    ensures |jobs| == |ids| && forall p :: 0 <= p < |ids| ==> jobs[p] == Count(ids[p])
  {
    if ids == [] then [] else [Count(ids[0])] + Counts(ids[1..])
  }

  /** What a call has settled with by the time it returns. */
  function AtOnce(call: Call): Option<Settlement> {
    match call
    case ThrowsAtOnce => Some(Threw)
    case AlreadySettled(s) => Some(s)
    case Pending => None
  }

  function SettledAtStart(calls: seq<Call>): (settled: seq<Option<Settlement>>)
    ensures |settled| == |calls|
    ensures forall i :: 0 <= i < |calls| ==> settled[i] == AtOnce(calls[i])
  {
    if calls == [] then [] else SettledAtStart(calls[..|calls| - 1]) + [AtOnce(calls[|calls| - 1])]
  }

  /** The queue once `Promise.race` has been set up: nothing has run yet. */
  function Start(calls: seq<Call>): State {
    State(
      Resumes(EarlySettlers(calls)) + (Relays(Throwers(calls)) + Counts(Throwers(calls))),
      SettledAtStart(calls),
      seq(|calls|, i requires 0 <= i < |calls| => if calls[i].ThrowsAtOnce? then Some(VerdictOf(Threw)) else None),
      Throwers(calls), {}, |calls|, None)
  }

  // ---- jobs ----

  /** `verdicts.find(signed) ?? { action: "allow" }`. */
  function FirstSigned(verdicts: seq<Option<Verdict>>): (v: Verdict)
    ensures v.Allow?
  {
    if verdicts == [] then Allow(None)
    else if verdicts[0].Some? && verdicts[0].value.Allow? && verdicts[0].value.signature.Some? then verdicts[0].value
    else FirstSigned(verdicts[1..])
  }

  predicate Enabled(s: State, e: Event) {
    match e
    case Settle(i, _) => i < |s.settled| && s.settled[i].None?
    case RunHead => s.queue != []
  }

  predicate JobFits(s: State, job: Job) {
    match job
    case Resume(i) => i < |s.settled| == |s.verdicts| && s.settled[i].Some?
    case Relay(i) => i < |s.verdicts| && s.verdicts[i].Some?
    case Count(i) => i < |s.verdicts| && s.left > 0
    case _ => true
  }

  function RunJob(s: State, job: Job): State
    requires JobFits(s, job)
  {
    match job
    case Resume(i) =>
      s.(verdicts := s.verdicts[i := Some(VerdictOf(s.settled[i].value))], order := s.order + [i],
         queue := s.queue + [Relay(i), Count(i)])
    case Relay(i) =>
      if s.verdicts[i].value.Block? then s.(queue := s.queue + [Decide(s.verdicts[i].value)]) else s
    case Count(i) =>
      s.(counted := s.counted + {i}, left := s.left - 1, queue := s.queue + (if s.left == 1 then [Conclude] else []))
    case Conclude =>
      s.(queue := s.queue + [Decide(FirstSigned(s.verdicts))])
    case Decide(v) =>
      if s.outcome.None? then s.(outcome := Some(v)) else s
  }

  function Step(s: State, e: Event): State
    requires Enabled(s, e) && (e.RunHead? ==> JobFits(s, s.queue[0]))
  {
    match e
    case Settle(i, settlement) => s.(settled := s.settled[i := Some(settlement)], queue := s.queue + [Resume(i)])
    case RunHead => RunJob(s.(queue := s.queue[1..]), s.queue[0])
  }

  // ---- what the queue holds ----

  function DecidedBlocks(q: seq<Job>): seq<Verdict> {
    if q == [] then []
    else
      var job := q[|q| - 1];
      DecidedBlocks(q[..|q| - 1]) + (if job.Decide? && job.v.Block? then [job.v] else [])
  }

  predicate Blocks(verdicts: seq<Option<Verdict>>, i: nat) {
    i < |verdicts| && verdicts[i].Some? && verdicts[i].value.Block?
  }

  function RelayedBlocks(q: seq<Job>, verdicts: seq<Option<Verdict>>): seq<Verdict> {
    if q == [] then []
    else
      var job := q[|q| - 1];
      RelayedBlocks(q[..|q| - 1], verdicts)
      + (if job.Relay? && Blocks(verdicts, job.i) then [verdicts[job.i].value] else [])
  }

  /** The block verdicts in the order the promises fulfilled. */
  function BlocksInOrder(order: seq<nat>, verdicts: seq<Option<Verdict>>): seq<Verdict> {
    if order == [] then []
    else
      var i := order[|order| - 1];
      BlocksInOrder(order[..|order| - 1], verdicts) + (if Blocks(verdicts, i) then [verdicts[i].value] else [])
  }

  predicate IsBlockDecision(job: Job) {
    job.Decide? && job.v.Block?
  }

  /** Every interceptor has been counted: only block decisions are left, then the allow. */
  ghost predicate AllCounted(s: State) {
    exists k: nat :: BlocksThenAllow(s, k)
  }

  /** The first `k` jobs are block decisions, and what is left of the allow's jobs follows. */
  predicate BlocksThenAllow(s: State, k: nat) {
    && k <= |s.queue|
    && (forall p :: 0 <= p < k ==> IsBlockDecision(s.queue[p]))
    && (s.queue[k..] == [Conclude] || s.queue[k..] == [Decide(FirstSigned(s.verdicts))]
        || (s.queue[k..] == [] && s.outcome.Some?))
  }

  /** A relay is followed by its count; counts and resumptions are queued once. */
  predicate Orderly(q: seq<Job>) {
    q == [] ||
    (&& (q[0].Relay? ==> Count(q[0].i) in q[1..])
     && (q[0].Count? || q[0].Resume? ==> q[0] !in q[1..])
     && Orderly(q[1..]))
  }

  /** A job is about an interceptor that has got there and not further. */
  ghost predicate JobIsDue(s: State, job: Job)
    requires |s.settled| == |s.verdicts|
  {
    match job
    case Resume(i) => i < |s.settled| && s.settled[i].Some? && s.verdicts[i].None?
    case Relay(i) => i < |s.verdicts| && s.verdicts[i].Some?
    case Count(i) => i < |s.verdicts| && s.verdicts[i].Some? && i !in s.counted
    case Conclude => s.left == 0
    case Decide(v) => v.Allow? ==> s.left == 0
  }

  ghost predicate Jobs(s: State) {
    |s.settled| == |s.verdicts| && Orderly(s.queue) && forall job :: job in s.queue ==> JobIsDue(s, job)
  }

  /** Each interceptor is pending, waits in the queue, or has been counted. */
  ghost predicate Places(s: State) {
    && |s.settled| == |s.verdicts|
    && s.left == |s.verdicts| - |s.counted|
    && (forall i :: i in s.counted ==> i < |s.verdicts| && s.verdicts[i].Some?)
    && (forall i :: 0 <= i < |s.settled| ==>
          && (s.verdicts[i].Some? ==> s.settled[i].Some? && s.verdicts[i].value == VerdictOf(s.settled[i].value))
          && (s.verdicts[i].Some? && i !in s.counted ==> Count(i) in s.queue)
          && (s.settled[i].Some? && s.verdicts[i].None? ==> Resume(i) in s.queue)
          && (s.verdicts[i].Some? <==> i in s.order))
    && (forall p :: 0 <= p < |s.order| ==> s.order[p] < |s.verdicts|)
  }

  /** No allow can reach the race before a block that has been seen. */
  ghost predicate Race(s: State) {
    var blocks := BlocksInOrder(s.order, s.verdicts);
    && (s.left == 0 ==> AllCounted(s))
    && (s.outcome.None? ==> DecidedBlocks(s.queue) + RelayedBlocks(s.queue, s.verdicts) == blocks)
    && (s.outcome.Some? && s.outcome.value.Block? ==> blocks != [] && s.outcome.value == blocks[0])
    && (s.outcome.Some? && s.outcome.value.Allow? ==>
          s.left == 0 && blocks == [] && s.outcome.value == FirstSigned(s.verdicts))
  }

  ghost predicate Inv(s: State) {
    |s.settled| == |s.verdicts| > 0 && Jobs(s) && Places(s) && Race(s)
  }

  // ---- the lists read off the queue ----

  lemma {:induction false} DecidedConcat(q: seq<Job>, r: seq<Job>)
    ensures DecidedBlocks(q + r) == DecidedBlocks(q) + DecidedBlocks(r)
  {
    if r == [] {
      assert q + r == q;
    } else {
      assert (q + r)[..|q + r| - 1] == q + r[..|r| - 1];
      DecidedConcat(q, r[..|r| - 1]);
    }
  }

  lemma {:induction false} RelayedConcat(q: seq<Job>, r: seq<Job>, verdicts: seq<Option<Verdict>>)
    ensures RelayedBlocks(q + r, verdicts) == RelayedBlocks(q, verdicts) + RelayedBlocks(r, verdicts)
  {
    if r == [] {
      assert q + r == q;
    } else {
      assert (q + r)[..|q + r| - 1] == q + r[..|r| - 1];
      RelayedConcat(q, r[..|r| - 1], verdicts);
    }
  }

  function DecidedBy(job: Job): seq<Verdict> {
    if IsBlockDecision(job) then [job.v] else []
  }

  function RelayedBy(job: Job, verdicts: seq<Option<Verdict>>): seq<Verdict> {
    if job.Relay? && Blocks(verdicts, job.i) then [verdicts[job.i].value] else []
  }

  lemma HeadAndTail(q: seq<Job>, verdicts: seq<Option<Verdict>>)
    requires q != []
    ensures DecidedBlocks(q) == DecidedBy(q[0]) + DecidedBlocks(q[1..])
    ensures RelayedBlocks(q, verdicts) == RelayedBy(q[0], verdicts) + RelayedBlocks(q[1..], verdicts)
  {
    assert q == [q[0]] + q[1..];
    DecidedConcat([q[0]], q[1..]);
    RelayedConcat([q[0]], q[1..], verdicts);
    assert [q[0]][..0] == [];
  }

  lemma Appended(q: seq<Job>, job: Job, verdicts: seq<Option<Verdict>>)
    ensures DecidedBlocks(q + [job]) == DecidedBlocks(q) + DecidedBy(job)
    ensures RelayedBlocks(q + [job], verdicts) == RelayedBlocks(q, verdicts) + RelayedBy(job, verdicts)
  {
    assert (q + [job])[..|q|] == q;
  }

  /** A new verdict for an interceptor nobody relays yet changes nothing already read. */
  lemma {:induction false} RelayedUnchanged(q: seq<Job>, verdicts: seq<Option<Verdict>>, i: nat, v: Verdict)
    requires i < |verdicts| && verdicts[i].None?
    requires forall job :: job in q && job.Relay? ==> job.i < |verdicts| && verdicts[job.i].Some?
    ensures RelayedBlocks(q, verdicts[i := Some(v)]) == RelayedBlocks(q, verdicts)
  {
    if q != [] { RelayedUnchanged(q[..|q| - 1], verdicts, i, v); }
  }

  lemma {:induction false} BlocksUnchanged(order: seq<nat>, verdicts: seq<Option<Verdict>>, i: nat, v: Verdict)
    requires i < |verdicts| && verdicts[i].None? && i !in order
    ensures BlocksInOrder(order, verdicts[i := Some(v)]) == BlocksInOrder(order, verdicts)
  {
    if order != [] { BlocksUnchanged(order[..|order| - 1], verdicts, i, v); }
  }

  // ---- every step keeps the invariant ----

  lemma {:induction false} AppendKeepsOrder(q: seq<Job>, job: Job)
    requires Orderly(q) && !job.Relay? && job !in q
    ensures Orderly(q + [job])
  {
    if q != [] {
      assert (q + [job])[1..] == q[1..] + [job];
      AppendKeepsOrder(q[1..], job);
    }
  }

  lemma {:induction false} AppendPairKeepsOrder(q: seq<Job>, i: nat)
    requires Orderly(q) && Count(i) !in q
    ensures Orderly(q + [Relay(i), Count(i)])
  {
    var pair := [Relay(i), Count(i)];
    if q == [] {
      assert pair[1..] == [Count(i)] && Orderly([Count(i)]);
      assert q + pair == pair;
    } else {
      assert (q + pair)[1..] == q[1..] + pair;
      AppendPairKeepsOrder(q[1..], i);
    }
  }

  lemma SettleKeepsPlaces(s: State, i: nat, settlement: Settlement)
    requires Jobs(s) && Places(s) && Enabled(s, Settle(i, settlement))
    ensures Jobs(Step(s, Settle(i, settlement))) && Places(Step(s, Settle(i, settlement)))
  {
    var s' := Step(s, Settle(i, settlement));
    AppendKeepsOrder(s.queue, Resume(i));
    assert forall job :: job in s'.queue <==> job in s.queue || job == Resume(i);
    forall job | job in s'.queue ensures JobIsDue(s', job) {
      if job in s.queue { assert JobIsDue(s, job); }
    }
  }

  lemma SettleKeeps(s: State, i: nat, settlement: Settlement)
    requires Inv(s) && Enabled(s, Settle(i, settlement))
    ensures Inv(Step(s, Settle(i, settlement)))
  {
    SettleKeepsPlaces(s, i, settlement);
    UncountedLeft(s, i);
    KeepsRace(s, Step(s, Settle(i, settlement)), Resume(i));
  }

  /** An interceptor without a verdict is still to be counted. */
  lemma UncountedLeft(s: State, i: nat)
    requires Places(s) && i < |s.verdicts| && i !in s.counted
    ensures s.left > 0
  {
    if s.left == 0 { EveryoneCounted(s); }
  }

  /** Queueing a job the race does not look at, while somebody is still to be counted. */
  lemma KeepsRace(s: State, s': State, job: Job)
    requires Race(s) && s.left > 0 && s'.queue == s.queue + [job] && (job.Resume? || job.Count?)
    requires s' == s.(queue := s'.queue, settled := s'.settled)
    ensures Race(s')
  {
    Appended(s.queue, job, s.verdicts);
  }

  /** Nobody is left to count only when all have been. */
  lemma EveryoneCounted(s: State)
    requires Places(s) && s.left == 0
    ensures forall i :: 0 <= i < |s.verdicts| ==> i in s.counted && s.verdicts[i].Some?
  {
    FullSet(s.counted, |s.verdicts|);
  }

  lemma {:induction false} FullSet(c: set<nat>, n: nat)
    requires (forall i :: i in c ==> i < n) && |c| >= n
    ensures forall i :: 0 <= i < n ==> i in c
  {
    forall i | 0 <= i < n ensures i in c {
      if i !in c {
        SmallSet(c + {i}, n);
      }
    }
  }

  lemma {:induction false} SmallSet(c: set<nat>, n: nat)
    requires forall i :: i in c ==> i < n
    ensures |c| <= n
  {
    if n == 0 {
      assert c == {};
    } else {
      SmallSet(c - {n - 1}, n - 1);
    }
  }

  lemma {:induction false} RelayThenCount(q: seq<Job>, i: nat)
    requires Orderly(q) && Relay(i) in q
    ensures Count(i) in q
  {
    if q[0] != Relay(i) { RelayThenCount(q[1..], i); }
  }

  /** The state left for the job at the head of the queue. */
  function Popped(s: State): State
    requires s.queue != []
  {
    s.(queue := s.queue[1..])
  }

  lemma ResumeKeepsPlaces(s: State, i: nat)
    requires Inv(s) && s.queue != [] && s.queue[0] == Resume(i) && JobFits(s, s.queue[0])
    ensures Jobs(RunJob(Popped(s), Resume(i))) && Places(RunJob(Popped(s), Resume(i)))
  {
    hide Race, VerdictOf;
    var s', rest := RunJob(Popped(s), Resume(i)), s.queue[1..];
    assert JobIsDue(s, Resume(i));
    assert Count(i) !in s.queue;
    AppendPairKeepsOrder(rest, i);
    forall job | job in s'.queue ensures JobIsDue(s', job) {
      if job in rest { assert job in s.queue && JobIsDue(s, job); }
    }
    forall j | 0 <= j < |s'.settled| && s'.settled[j].Some? && s'.verdicts[j].None? ensures Resume(j) in s'.queue {
      assert Resume(j) in rest;
    }
    forall j | 0 <= j < |s'.settled| && s'.verdicts[j].Some? && j !in s'.counted ensures Count(j) in s'.queue {
      assert j != i ==> Count(j) in rest;
      assert s'.queue[|rest| + 1] == Count(i);
    }
  }

  lemma OneMoreInOrder(order: seq<nat>, verdicts: seq<Option<Verdict>>, i: nat, v: Verdict)
    requires i < |verdicts| && verdicts[i].None? && i !in order
    ensures BlocksInOrder(order + [i], verdicts[i := Some(v)])
            == BlocksInOrder(order, verdicts) + (if v.Block? then [v] else [])
  {
    BlocksUnchanged(order, verdicts, i, v);
    assert (order + [i])[..|order|] == order;
  }

  lemma RelayAndCount(q: seq<Job>, i: nat, verdicts: seq<Option<Verdict>>, v: Verdict)
    requires i < |verdicts| && verdicts[i].None?
    requires forall job :: job in q && job.Relay? ==> job.i < |verdicts| && verdicts[job.i].Some?
    ensures var q', vs := q + [Relay(i), Count(i)], verdicts[i := Some(v)];
            && DecidedBlocks(q') == DecidedBlocks(q)
            && RelayedBlocks(q', vs) == RelayedBlocks(q, verdicts) + (if v.Block? then [v] else [])
  {
    hide DecidedBlocks, RelayedBlocks;
    var vs := verdicts[i := Some(v)];
    assert q + [Relay(i), Count(i)] == q + [Relay(i)] + [Count(i)];
    RelayedUnchanged(q, verdicts, i, v);
    Appended(q, Relay(i), vs);
    Appended(q + [Relay(i)], Count(i), vs);
  }

  /** Resuming an interceptor adds its verdict to the lists read off queue and order, and nothing else. */
  lemma ResumeLists(s: State, i: nat)
    requires s.queue != [] && s.queue[0] == Resume(i) && JobFits(s, s.queue[0])
    requires s.verdicts[i].None? && i !in s.order
    requires forall job :: job in s.queue && job.Relay? ==> job.i < |s.verdicts| && s.verdicts[job.i].Some?
    ensures var s', v := RunJob(Popped(s), Resume(i)), VerdictOf(s.settled[i].value);
            var added := if v.Block? then [v] else [];
            && DecidedBlocks(s'.queue) == DecidedBlocks(s.queue)
            && RelayedBlocks(s'.queue, s'.verdicts) == RelayedBlocks(s.queue, s.verdicts) + added
            && BlocksInOrder(s'.order, s'.verdicts) == BlocksInOrder(s.order, s.verdicts) + added
  {
    var s', rest := RunJob(Popped(s), Resume(i)), s.queue[1..];
    var v := VerdictOf(s.settled[i].value);
    hide VerdictOf, FirstSigned, DecidedBlocks, RelayedBlocks, BlocksInOrder;
    HeadAndTail(s.queue, s.verdicts);
    assert forall job :: job in rest ==> job in s.queue;
    assert s'.queue == rest + [Relay(i), Count(i)];
    assert s'.order == s.order + [i] && s'.verdicts == s.verdicts[i := Some(v)];
    hide RunJob;
    RelayAndCount(rest, i, s.verdicts, v);
    OneMoreInOrder(s.order, s.verdicts, i, v);
  }

  lemma ResumeKeepsRace(s: State, i: nat)
    requires Race(s) && s.left > 0 && s.queue != [] && s.queue[0] == Resume(i) && JobFits(s, s.queue[0])
    requires s.verdicts[i].None? && i !in s.order
    requires forall job :: job in s.queue && job.Relay? ==> job.i < |s.verdicts| && s.verdicts[job.i].Some?
    ensures Race(RunJob(Popped(s), Resume(i)))
  {
    ResumeLists(s, i);
  }

  lemma ResumeKeeps(s: State, i: nat)
    requires Inv(s) && s.queue != [] && s.queue[0] == Resume(i) && JobFits(s, s.queue[0])
    ensures Inv(RunJob(Popped(s), Resume(i)))
  {
    assert JobIsDue(s, Resume(i));
    assert forall job :: job in s.queue && job.Relay? ==> JobIsDue(s, job);
    UncountedLeft(s, i);
    ResumeKeepsPlaces(s, i);
    ResumeKeepsRace(s, i);
  }

  lemma RelayKeepsPlaces(s: State, i: nat)
    requires Jobs(s) && Places(s) && s.queue != [] && s.queue[0] == Relay(i) && JobFits(s, s.queue[0])
    ensures Jobs(RunJob(Popped(s), Relay(i))) && Places(RunJob(Popped(s), Relay(i)))
  {
    var s', rest := RunJob(Popped(s), Relay(i)), s.queue[1..];
    if Blocks(s.verdicts, i) { DecisionKeepsOrder(rest, Decide(s.verdicts[i].value)); }
    forall job | job in s'.queue ensures JobIsDue(s', job) {
      if job in rest { assert job in s.queue && JobIsDue(s, job); }
    }
    forall job | job in s.queue && !job.Relay? ensures job in s'.queue {
      assert job in rest;
    }
  }

  lemma RelayKeepsRace(s: State, i: nat)
    requires Race(s) && s.left > 0 && s.queue != [] && s.queue[0] == Relay(i) && JobFits(s, s.queue[0])
    ensures Race(RunJob(Popped(s), Relay(i)))
  {
    hide DecidedBlocks, RelayedBlocks, BlocksInOrder, FirstSigned, AllCounted;
    HeadAndTail(s.queue, s.verdicts);
    Appended(s.queue[1..], Decide(s.verdicts[i].value), s.verdicts);
  }

  lemma RelayKeeps(s: State, i: nat)
    requires Inv(s) && s.queue != [] && s.queue[0] == Relay(i) && JobFits(s, s.queue[0])
    ensures Inv(RunJob(Popped(s), Relay(i)))
  {
    assert Count(i) in s.queue[1..] && Count(i) in s.queue && JobIsDue(s, Count(i));
    UncountedLeft(s, i);
    RelayKeepsPlaces(s, i);
    RelayKeepsRace(s, i);
  }

  lemma {:induction false} DecisionKeepsOrder(q: seq<Job>, job: Job)
    requires Orderly(q) && (job.Decide? || job.Conclude?)
    ensures Orderly(q + [job])
  {
    if q != [] {
      assert (q + [job])[1..] == q[1..] + [job];
      DecisionKeepsOrder(q[1..], job);
    }
  }

  lemma CountKeepsPlaces(s: State, i: nat)
    requires Inv(s) && s.queue != [] && s.queue[0] == Count(i) && JobFits(s, s.queue[0])
    ensures Jobs(RunJob(Popped(s), Count(i))) && Places(RunJob(Popped(s), Count(i)))
  {
    var s', rest := RunJob(Popped(s), Count(i)), s.queue[1..];
    assert JobIsDue(s, Count(i));
    DecisionKeepsOrder(rest, Conclude);
    assert rest + [] == rest;
    forall job | job in s'.queue ensures JobIsDue(s', job) {
      if job in rest { assert job in s.queue && JobIsDue(s, job); }
    }
    forall job | job in s.queue && job != Count(i) ensures job in s'.queue {
      assert job in rest;
    }
  }

  /** Counting the last element leaves nothing but block decisions ahead of the conclusion. */
  lemma LastCount(s: State, i: nat)
    requires Jobs(s) && Places(s) && s.queue != [] && s.queue[0] == Count(i) && s.left == 1
    ensures forall job :: job in s.queue[1..] ==> IsBlockDecision(job)
  {
    var rest := s.queue[1..];
    assert JobIsDue(s, Count(i));
    OneMissing(s, i);
    forall job | job in rest ensures IsBlockDecision(job) {
      assert job in s.queue && JobIsDue(s, job);
      if job.Relay? { RelayIsUncounted(s, job.i); }
    }
  }

  lemma RelayIsUncounted(s: State, i: nat)
    requires Jobs(s) && s.queue != [] && Relay(i) in s.queue[1..]
    ensures Count(i) in s.queue[1..] && i !in s.counted
  {
    RelayThenCount(s.queue[1..], i);
    assert Count(i) in s.queue && JobIsDue(s, Count(i));
  }

  lemma OneMissing(s: State, i: nat)
    requires Places(s) && s.left == 1 && i < |s.verdicts| && i !in s.counted
    ensures forall j :: 0 <= j < |s.verdicts| && j != i ==> j in s.counted
  {
    FullSet(s.counted + {i}, |s.verdicts|);
  }

  lemma CountKeepsRace(s: State, i: nat)
    requires Race(s) && s.left > 0 && s.queue != [] && s.queue[0] == Count(i) && JobFits(s, s.queue[0])
    requires s.left == 1 ==> forall job :: job in s.queue[1..] ==> IsBlockDecision(job)
    ensures Race(RunJob(Popped(s), Count(i)))
  {
    hide DecidedBlocks, RelayedBlocks, BlocksInOrder, FirstSigned;
    var s', rest := RunJob(Popped(s), Count(i)), s.queue[1..];
    HeadAndTail(s.queue, s.verdicts);
    Appended(rest, Conclude, s.verdicts);
    if s.left == 1 {
      assert s'.queue[|rest|..] == [Conclude];
      assert forall p :: 0 <= p < |rest| ==> s'.queue[p] == rest[p] && rest[p] in rest;
      assert BlocksThenAllow(s', |rest|);
    } else {
      assert s'.queue == rest;
    }
  }

  lemma CountKeeps(s: State, i: nat)
    requires Inv(s) && s.queue != [] && s.queue[0] == Count(i) && JobFits(s, s.queue[0])
    ensures Inv(RunJob(Popped(s), Count(i)))
  {
    CountKeepsPlaces(s, i);
    if s.left == 1 { LastCount(s, i); }
    CountKeepsRace(s, i);
  }

  lemma ConcludeKeeps(s: State)
    requires Inv(s) && s.queue != [] && s.queue[0] == Conclude
    ensures Inv(RunJob(Popped(s), Conclude))
  {
    var s' := RunJob(Popped(s), Conclude);
    assert JobIsDue(s, Conclude);
    var k: nat :| BlocksThenAllow(s, k);
    assert s.queue[0] == Conclude && k == 0;
    assert s.queue == s.queue[0..] == [Conclude] && s'.queue == [Decide(FirstSigned(s.verdicts))];
    HeadAndTail(s.queue, s.verdicts);
    HeadAndTail(s'.queue, s.verdicts);
    assert s'.queue[0..] == s'.queue;
    assert BlocksThenAllow(s', 0);
    forall i | 0 <= i < |s.settled| && s.verdicts[i].Some? ensures i in s.counted {
      EveryoneCounted(s);
    }
    EveryoneCounted(s);
    assert Orderly(s'.queue[1..]);
  }

  lemma DecideKeepsPlaces(s: State, v: Verdict)
    requires Inv(s) && s.queue != [] && s.queue[0] == Decide(v)
    ensures Jobs(RunJob(Popped(s), Decide(v))) && Places(RunJob(Popped(s), Decide(v)))
  {
    var s', rest := RunJob(Popped(s), Decide(v)), s.queue[1..];
    forall job | job in s'.queue ensures JobIsDue(s', job) {
      assert job in s.queue && JobIsDue(s, job);
    }
    forall job | job in s.queue && !job.Decide? ensures job in s'.queue {
      assert job in rest;
    }
  }

  lemma DecideKeepsCount(s: State, v: Verdict)
    requires s.queue != [] && s.queue[0] == Decide(v) && AllCounted(s)
    ensures AllCounted(RunJob(Popped(s), Decide(v)))
  {
    hide FirstSigned;
    var s' := RunJob(Popped(s), Decide(v));
    var k: nat :| BlocksThenAllow(s, k);
    if k == 0 {
      assert s.queue[0..] == s.queue;
      assert s'.queue == [] && s'.queue[0..] == [];
      assert BlocksThenAllow(s', 0);
    } else {
      assert s'.queue[k - 1..] == s.queue[k..];
      assert forall p :: 0 <= p < k - 1 ==> s'.queue[p] == s.queue[p + 1];
      assert BlocksThenAllow(s', k - 1);
    }
  }

  /** Only the allow that `Promise.all` settled with can be the head decision and no block. */
  lemma AllowIsLast(s: State, v: Verdict)
    requires s.queue != [] && s.queue[0] == Decide(v) && v.Allow? && AllCounted(s)
    ensures v == FirstSigned(s.verdicts) && s.queue[1..] == []
  {
    hide FirstSigned;
    var k: nat :| BlocksThenAllow(s, k);
    assert k == 0;
    assert s.queue[0..] == s.queue;
  }

  lemma DecideKeeps(s: State, v: Verdict)
    requires Inv(s) && s.queue != [] && s.queue[0] == Decide(v)
    ensures Inv(RunJob(Popped(s), Decide(v)))
  {
    DecideKeepsPlaces(s, v);
    HeadAndTail(s.queue, s.verdicts);
    assert JobIsDue(s, Decide(v));
    if s.left == 0 {
      DecideKeepsCount(s, v);
      if v.Allow? {
        AllowIsLast(s, v);
      }
    }
    hide Jobs, Places, AllCounted, FirstSigned, BlocksInOrder;
  }

  lemma StepKeeps(s: State, e: Event)
    requires Inv(s) && Enabled(s, e)
    ensures e.RunHead? ==> JobFits(s, s.queue[0])
    ensures Inv(Step(s, e))
  {
    match e
    case Settle(i, settlement) => SettleKeeps(s, i, settlement);
    case RunHead =>
      assert JobIsDue(s, s.queue[0]);
      match s.queue[0] {
        case Resume(i) => ResumeKeeps(s, i);
        case Relay(i) => RelayKeeps(s, i);
        case Count(i) =>
          if s.left == 0 { EveryoneCounted(s); }
          CountKeeps(s, i);
        case Conclude => ConcludeKeeps(s);
        case Decide(v) => DecideKeeps(s, v);
      }
  }

  // ---- the start ----

  lemma {:induction false} OrderedResumes(ids: seq<nat>, q: seq<Job>)
    requires forall p, r :: 0 <= p < r < |ids| ==> ids[p] < ids[r]
    requires Orderly(q) && forall job :: job in q ==> !job.Resume?
    ensures Orderly(Resumes(ids) + q)
  {
    if ids == [] {
      assert Resumes(ids) + q == q;
    } else {
      OrderedResumes(ids[1..], q);
      assert (Resumes(ids) + q)[1..] == Resumes(ids[1..]) + q;
      assert Resume(ids[0]) !in Resumes(ids[1..]);
    }
  }

  lemma {:induction false} OrderedCounts(ids: seq<nat>)
    requires forall p, r :: 0 <= p < r < |ids| ==> ids[p] < ids[r]
    ensures Orderly(Counts(ids))
  {
    if ids != [] {
      OrderedCounts(ids[1..]);
      assert Count(ids[0]) !in Counts(ids[1..]);
    }
  }

  lemma {:induction false} OrderedRelays(ids: seq<nat>, counts: seq<Job>)
    requires Orderly(counts) && forall p :: 0 <= p < |ids| ==> Count(ids[p]) in counts
    ensures Orderly(Relays(ids) + counts)
  {
    if ids == [] {
      assert Relays(ids) + counts == counts;
    } else {
      OrderedRelays(ids[1..], counts);
      assert (Relays(ids) + counts)[1..] == Relays(ids[1..]) + counts;
      assert Count(ids[0]) in Relays(ids[1..]) + counts;
    }
  }

  lemma {:induction false} NothingRelayed(q: seq<Job>, verdicts: seq<Option<Verdict>>)
    requires forall job :: job in q ==> !job.Relay? && !job.Decide?
    ensures DecidedBlocks(q) == [] && RelayedBlocks(q, verdicts) == []
  {
    if q != [] { NothingRelayed(q[..|q| - 1], verdicts); }
  }

  lemma {:induction false} RelayedInOrder(ids: seq<nat>, q: seq<Job>, verdicts: seq<Option<Verdict>>)
    requires |q| == |ids| && forall p :: 0 <= p < |ids| ==> q[p] == Relay(ids[p])
    ensures DecidedBlocks(q) == [] && RelayedBlocks(q, verdicts) == BlocksInOrder(ids, verdicts)
  {
    if q != [] { RelayedInOrder(ids[..|ids| - 1], q[..|q| - 1], verdicts); }
  }

  lemma StartOrder(calls: seq<Call>)
    ensures Orderly(Start(calls).queue)
  {
    var throwers := Throwers(calls);
    var counts := Counts(throwers);
    assert forall p :: 0 <= p < |throwers| ==> counts[p] == Count(throwers[p]) && counts[p] in counts;
    OrderedCounts(throwers);
    OrderedRelays(throwers, counts);
    OrderedResumes(EarlySettlers(calls), Relays(throwers) + counts);
  }

  predicate IsStartJob(calls: seq<Call>, job: Job) {
    match job
    case Resume(i) => i < |calls| && calls[i].AlreadySettled?
    case Relay(i) => i < |calls| && calls[i].ThrowsAtOnce?
    case Count(i) => i < |calls| && calls[i].ThrowsAtOnce?
    case _ => false
  }

  lemma {:induction false} QueuedOnce(ids: seq<nat>, i: nat)
    requires i in ids
    ensures Resume(i) in Resumes(ids) && Count(i) in Counts(ids)
  {
    if ids[0] != i { QueuedOnce(ids[1..], i); }
  }

  lemma StartQueueHas(calls: seq<Call>)
    ensures forall i :: i in EarlySettlers(calls) ==> Resume(i) in Start(calls).queue
    ensures forall i :: i in Throwers(calls) ==> Count(i) in Start(calls).queue
  {
    forall i | i in EarlySettlers(calls) ensures Resume(i) in Start(calls).queue {
      QueuedOnce(EarlySettlers(calls), i);
    }
    forall i | i in Throwers(calls) ensures Count(i) in Start(calls).queue {
      QueuedOnce(Throwers(calls), i);
    }
  }

  lemma StartQueueHasOnly(calls: seq<Call>)
    ensures forall job :: job in Start(calls).queue ==> IsStartJob(calls, job)
  {
    hide Resumes, Relays, Counts, EarlySettlers, Throwers;
    var resumes, relays, counts := Resumes(EarlySettlers(calls)), Relays(Throwers(calls)), Counts(Throwers(calls));
    assert forall p :: 0 <= p < |resumes| ==> IsStartJob(calls, resumes[p]);
    assert forall p :: 0 <= p < |relays| ==> IsStartJob(calls, relays[p]);
    assert forall p :: 0 <= p < |counts| ==> IsStartJob(calls, counts[p]);
  }

  /** Everything but the queue, interceptor by interceptor. */
  lemma StartState(calls: seq<Call>)
    ensures var s := Start(calls);
            && |s.settled| == |s.verdicts| == |calls| && s.counted == {} && s.left == |calls| && s.outcome == None
            && (forall i :: 0 <= i < |calls| ==>
                  && (s.settled[i].Some? <==> !calls[i].Pending?) && (s.verdicts[i].Some? <==> calls[i].ThrowsAtOnce?)
                  && (s.verdicts[i].Some? ==> s.settled[i] == Some(Threw) && s.verdicts[i] == Some(VerdictOf(Threw))))
    ensures Start(calls).order == Throwers(calls)
  {
    hide Resumes, Relays, Counts, EarlySettlers, Throwers;
  }

  lemma ThrowersAre(calls: seq<Call>)
    ensures forall i :: i in Throwers(calls) <==> 0 <= i < |calls| && calls[i].ThrowsAtOnce?
  {
    var ids := Throwers(calls);
    hide Throwers;
    forall i | i in ids ensures i < |calls| && calls[i].ThrowsAtOnce? {
      var p :| 0 <= p < |ids| && ids[p] == i;
    }
  }

  lemma StartJobsDue(calls: seq<Call>)
    ensures Jobs(Start(calls))
  {
    StartOrder(calls);
    StartQueueHasOnly(calls);
    StartState(calls);
    hide Orderly, Start, Throwers;
    var s := Start(calls);
    forall job | job in s.queue ensures JobIsDue(s, job) {
      assert IsStartJob(calls, job);
    }
  }

  lemma StartPlaces(calls: seq<Call>)
    ensures Places(Start(calls))
  {
    StartQueueHas(calls);
    StartState(calls);
    ThrowersAre(calls);
    assert forall i :: 0 <= i < |calls| && calls[i].AlreadySettled? ==> i in EarlySettlers(calls);
    hide Start, Throwers, EarlySettlers, VerdictOf;
    var s := Start(calls);
    forall p | 0 <= p < |s.order| ensures s.order[p] < |s.verdicts| {
      assert s.order[p] in Throwers(calls);
    }
  }

  lemma StartLists(calls: seq<Call>)
    ensures DecidedBlocks(Start(calls).queue) == []
    ensures RelayedBlocks(Start(calls).queue, Start(calls).verdicts)
            == BlocksInOrder(Throwers(calls), Start(calls).verdicts)
  {
    var verdicts := Start(calls).verdicts;
    var resumes, relays, counts := Resumes(EarlySettlers(calls)), Relays(Throwers(calls)), Counts(Throwers(calls));
    assert Start(calls).queue == resumes + (relays + counts);
    hide Start, EarlySettlers, Throwers, Resumes, Relays, Counts;
    NothingRelayed(resumes, verdicts);
    NothingRelayed(counts, verdicts);
    RelayedInOrder(Throwers(calls), relays, verdicts);
    hide DecidedBlocks, RelayedBlocks, BlocksInOrder;
    DecidedConcat(relays, counts);
    DecidedConcat(resumes, relays + counts);
    RelayedConcat(relays, counts, verdicts);
    RelayedConcat(resumes, relays + counts, verdicts);
  }

  lemma StartRace(calls: seq<Call>)
    requires calls != []
    ensures Race(Start(calls))
  {
    StartState(calls);
    StartLists(calls);
    hide Start, Throwers, DecidedBlocks, RelayedBlocks, BlocksInOrder;
  }

  // ---- runs ----

  predicate IsRun(s: State, events: seq<Event>)
    decreases |events|, 0
  {
    events == [] ||
    (&& IsRun(s, events[..|events| - 1])
     && var e, t := events[|events| - 1], Exec(s, events[..|events| - 1]);
        Enabled(t, e) && (e.RunHead? ==> JobFits(t, t.queue[0])))
  }

  function Exec(s: State, events: seq<Event>): State
    requires IsRun(s, events)
    decreases |events|, 1
  {
    if events == [] then s else Step(Exec(s, events[..|events| - 1]), events[|events| - 1])
  }

  lemma {:induction false} RunKeeps(calls: seq<Call>, events: seq<Event>)
    requires calls != [] && IsRun(Start(calls), events)
    ensures Inv(Exec(Start(calls), events))
  {
    if events == [] {
      StartJobsDue(calls);
      StartPlaces(calls);
      StartRace(calls);
    } else {
      RunKeeps(calls, events[..|events| - 1]);
      StepKeeps(Exec(Start(calls), events[..|events| - 1]), events[|events| - 1]);
    }
  }

  /** Interceptor `i` has settled with a block, or by throwing. */
  predicate HasBlocked(s: State, i: nat) {
    i < |s.settled| && s.settled[i].Some? && VerdictOf(s.settled[i].value).Block?
  }

  predicate AllSettled(s: State) {
    forall i :: 0 <= i < |s.settled| ==> s.settled[i].Some?
  }

  lemma {:induction false} BlocksAreFromOrder(order: seq<nat>, verdicts: seq<Option<Verdict>>)
    ensures BlocksInOrder(order, verdicts) == [] <==> forall i :: i in order ==> !Blocks(verdicts, i)
    ensures BlocksInOrder(order, verdicts) != [] ==>
              exists p :: 0 <= p < |order| && Blocks(verdicts, order[p])
                          && verdicts[order[p]].value == BlocksInOrder(order, verdicts)[0]
                          && forall r :: 0 <= r < p ==> !Blocks(verdicts, order[r])
  {
    if order != [] {
      var front := order[..|order| - 1];
      BlocksAreFromOrder(front, verdicts);
      if BlocksInOrder(front, verdicts) == [] && Blocks(verdicts, order[|order| - 1]) {
        assert forall r :: 0 <= r < |front| ==> order[r] in front;
        assert BlocksInOrder(order, verdicts)[0] == verdicts[order[|order| - 1]].value;
      }
    }
  }

  /** Every interceptor has settled with an allow, and its promise carries it. */
  ghost predicate AllAllowed(s: State) {
    && |s.settled| == |s.verdicts|
    && forall i :: 0 <= i < |s.settled| ==>
         s.settled[i].Some? && !HasBlocked(s, i) && s.verdicts[i] == Some(VerdictOf(s.settled[i].value))
  }

  /** Place `p` in the settlement order is the first block there, and reads `v`. */
  ghost predicate IsFirstBlock(s: State, p: nat, v: Verdict) {
    && p < |s.order| && HasBlocked(s, s.order[p]) && v == VerdictOf(s.settled[s.order[p]].value)
    && forall r :: 0 <= r < p ==> !HasBlocked(s, s.order[r])
  }

  lemma BlockedMeansBlocks(s: State)
    requires Places(s)
    ensures forall i: nat :: i in s.order ==> (HasBlocked(s, i) <==> Blocks(s.verdicts, i))
    ensures forall i: nat :: Blocks(s.verdicts, i) ==>
              i in s.order && s.verdicts[i].value == VerdictOf(s.settled[i].value)
  {
  }

  lemma AllowIsSound(s: State)
    requires Places(s) && Race(s) && s.outcome.Some? && s.outcome.value.Allow?
    ensures AllAllowed(s) && s.outcome.value == FirstSigned(s.verdicts)
  {
    BlocksAreFromOrder(s.order, s.verdicts);
    BlockedMeansBlocks(s);
    EveryoneCounted(s);
  }

  lemma BlockIsSound(s: State)
    requires Places(s) && Race(s) && s.outcome.Some? && s.outcome.value.Block?
    ensures exists p: nat :: IsFirstBlock(s, p, s.outcome.value)
  {
    BlocksAreFromOrder(s.order, s.verdicts);
    BlockedMeansBlocks(s);
    var p: nat :| p < |s.order| && Blocks(s.verdicts, s.order[p]) && s.verdicts[s.order[p]].value == s.outcome.value
             && forall r :: 0 <= r < p ==> !Blocks(s.verdicts, s.order[r]);
    assert forall r :: 0 <= r <= p ==> s.order[r] in s.order;
    assert IsFirstBlock(s, p, s.outcome.value);
  }

  lemma DrainedIsDecided(s: State)
    requires Inv(s) && s.queue == []
    ensures (exists i :: HasBlocked(s, i)) ==> s.outcome.Some? && s.outcome.value.Block?
    ensures AllSettled(s) ==> s.outcome.Some?
  {
    BlocksAreFromOrder(s.order, s.verdicts);
    BlockedMeansBlocks(s);
    if i: nat :| HasBlocked(s, i) {
      assert s.verdicts[i].Some? && i in s.order && Blocks(s.verdicts, i);
    }
    if AllSettled(s) {
      FullCount(s.counted, |s.verdicts|);
      assert AllCounted(s);
    }
  }

  lemma {:induction false} FullCount(c: set<nat>, n: nat)
    requires forall i :: 0 <= i < n ==> i in c
    ensures |c| >= n
  {
    if n > 0 { FullCount(c - {n - 1}, n - 1); }
  }

  // ---- the queue drains ----

  /** The most jobs that running this one can still cause, itself included. */
  function Weight(job: Job): nat {
    match job
    case Resume(_) => 4
    case Relay(_) => 2
    case Count(_) => 1
    case Conclude => 2
    case Decide(_) => 1
  }

  function QueueWeight(q: seq<Job>): nat {
    if q == [] then 0 else QueueWeight(q[..|q| - 1]) + Weight(q[|q| - 1])
  }

  function StillPending(settled: seq<Option<Settlement>>): nat {
    if settled == [] then 0 else StillPending(settled[1..]) + (if settled[0].None? then 1 else 0)
  }

  function JobsLeft(s: State): nat {
    QueueWeight(s.queue) + 4 * StillPending(s.settled) + (if s.left > 0 then 2 else 0)
  }

  lemma {:induction false} WeightConcat(q: seq<Job>, r: seq<Job>)
    ensures QueueWeight(q + r) == QueueWeight(q) + QueueWeight(r)
  {
    if r == [] {
      assert q + r == q;
    } else {
      assert (q + r)[..|q + r| - 1] == q + r[..|r| - 1];
      WeightConcat(q, r[..|r| - 1]);
    }
  }

  lemma WeightOfOne(job: Job)
    ensures QueueWeight([job]) == Weight(job)
  {
    assert [job][..0] == [];
  }

  lemma {:induction false} OneLessPending(settled: seq<Option<Settlement>>, i: nat, settlement: Settlement)
    requires i < |settled| && settled[i].None?
    ensures StillPending(settled[i := Some(settlement)]) == StillPending(settled) - 1
  {
    if i == 0 {
      assert settled[0 := Some(settlement)][1..] == settled[1..];
    } else {
      assert settled[i := Some(settlement)][1..] == settled[1..][i - 1 := Some(settlement)];
      OneLessPending(settled[1..], i - 1, settlement);
    }
  }

  /**
   * An allow makes its block promise return a promise that never settles. The job that adopts it does
   * nothing, so the queue above leaves it out; it is counted here.
   */
  function NeverJobs(s: State, e: Event): nat
    requires Enabled(s, e) && (e.RunHead? ==> JobFits(s, s.queue[0]))
  {
    if e.RunHead? && s.queue[0].Relay? && s.verdicts[s.queue[0].i].value.Allow? then 1 else 0
  }

  lemma StepUsesJobs(s: State, e: Event)
    requires Enabled(s, e) && (e.RunHead? ==> JobFits(s, s.queue[0]))
    ensures JobsLeft(Step(s, e)) + (if e.RunHead? then 1 else 0) + NeverJobs(s, e) <= JobsLeft(s)
  {
    match e
    case Settle(i, settlement) =>
      OneLessPending(s.settled, i, settlement);
      WeightConcat(s.queue, [Resume(i)]);
      WeightOfOne(Resume(i));
    case RunHead =>
      var job, rest := s.queue[0], s.queue[1..];
      assert s.queue == [job] + rest;
      WeightConcat([job], rest);
      WeightOfOne(job);
      var added := Step(s, e).queue[|rest|..];
      assert Step(s, e).queue == rest + added;
      WeightConcat(rest, added);
      AddedWeight(s, added);
  }

  lemma AddedWeight(s: State, added: seq<Job>)
    requires s.queue != [] && JobFits(s, s.queue[0]) && Step(s, RunHead).queue == s.queue[1..] + added
    ensures match s.queue[0]
            case Resume(_) => QueueWeight(added) == 3
            case Relay(i) => QueueWeight(added) == if s.verdicts[i].value.Block? then 1 else 0
            case Count(_) => QueueWeight(added) == if s.left == 1 then 2 else 0
            case Conclude => QueueWeight(added) == 1
            case Decide(_) => QueueWeight(added) == 0
  {
    var rest := s.queue[1..];
    assert added == Step(s, RunHead).queue[|rest|..];
    if added != [] { WeightOfOne(added[0]); }
    if |added| == 2 {
      assert added == [added[0]] + [added[1]];
      WeightConcat([added[0]], [added[1]]);
      WeightOfOne(added[1]);
    } else if |added| == 1 {
      assert added == [added[0]];
    }
  }

  lemma {:induction false} StartJobs(calls: seq<Call>)
    ensures StillPending(SettledAtStart(calls)) + |EarlySettlers(calls)| + |Throwers(calls)| == |calls|
  {
    if calls != [] {
      var front := calls[..|calls| - 1];
      StartJobs(front);
      var last := SettledAtStart(calls)[|front|];
      assert SettledAtStart(calls) == SettledAtStart(front) + [last];
      PendingConcat(SettledAtStart(front), last);
    }
  }

  lemma StartJobsLeft(calls: seq<Call>)
    ensures JobsLeft(Start(calls)) <= 4 * |calls| + 2
  {
    var resumes, relays, counts := Resumes(EarlySettlers(calls)), Relays(Throwers(calls)), Counts(Throwers(calls));
    StartJobs(calls);
    WeightOfMany(resumes, 4);
    WeightOfMany(relays, 2);
    WeightOfMany(counts, 1);
    WeightConcat(relays, counts);
    WeightConcat(resumes, relays + counts);
  }

  lemma {:induction false} PendingConcat(settled: seq<Option<Settlement>>, last: Option<Settlement>)
    ensures StillPending(settled + [last]) == StillPending(settled) + (if last.None? then 1 else 0)
  {
    if settled != [] {
      assert (settled + [last])[1..] == settled[1..] + [last];
      PendingConcat(settled[1..], last);
    }
  }

  lemma {:induction false} WeightOfMany(q: seq<Job>, w: nat)
    requires forall job :: job in q ==> Weight(job) == w
    ensures QueueWeight(q) == w * |q|
  {
    if q != [] { WeightOfMany(q[..|q| - 1], w); }
  }

  /** The jobs of a run: those of the queue, and the adoptions of promises that never settle. */
  function JobsRun(s: State, events: seq<Event>): nat
    requires IsRun(s, events)
    decreases |events|
  {
    if events == [] then 0
    else
      var front, last := events[..|events| - 1], events[|events| - 1];
      JobsRun(s, front) + (if last.RunHead? then 1 else 0) + NeverJobs(Exec(s, front), last)
  }

  /** With the two jobs by which the caller's promise adopts the race: one at once, one when it is decided. */
  function AllJobsRun(calls: seq<Call>, events: seq<Event>): nat
    requires IsRun(Start(calls), events)
  {
    1 + JobsRun(Start(calls), events) + (if Exec(Start(calls), events).outcome.Some? then 1 else 0)
  }

  lemma {:induction false} JobsAreBounded(calls: seq<Call>, events: seq<Event>)
    requires calls != [] && IsRun(Start(calls), events)
    ensures JobsRun(Start(calls), events) + JobsLeft(Exec(Start(calls), events)) <= 4 * |calls| + 2
  {
    if events == [] {
      StartJobsLeft(calls);
    } else {
      JobsAreBounded(calls, events[..|events| - 1]);
      StepUsesJobs(Exec(Start(calls), events[..|events| - 1]), events[|events| - 1]);
    }
  }

  /** For `n` interceptors no run executes more than `4n + 4` jobs, so the queue always drains. */
  lemma QueueDrains(calls: seq<Call>, events: seq<Event>)
    requires calls != [] && IsRun(Start(calls), events)
    ensures AllJobsRun(calls, events) + JobsLeft(Exec(Start(calls), events)) <= 4 * |calls| + 4
  {
    JobsAreBounded(calls, events);
  }
}
