/**
 * The open-note policy client: a cache with a time to live in front of one shared read per address.
 * First the object itself, then every interleaving of its callers with the node's answers.
 */
module PolicyClient {
  import opened Wrappers
  import PoolTransaction

  datatype Policy = Required | Exempt | Delegated

  // ---- what the node answers ----

  /** The outcome of `callContract`: felts, an error naming the missing entrypoint, or any other failure. */
  datatype Reply = Felts(felts: seq<string>) | EntrypointNotFound | Failed

  /** Decoding one felt through the pool's ABI: the active variant's name, or nothing when it throws. */
  type Decoder = string -> Option<string>

  function ParsePolicy(felts: seq<string>, decode: Decoder): Option<Policy> {
    if |felts| != 1 then None
    else
      match decode(felts[0])
      case None => None
      case Some(variant) =>
        if variant == "Required" then Some(Required)
        else if variant == "Exempt" then Some(Exempt)
        else if variant == "Delegated" then Some(Delegated)
        else None
  }

  /** `readPolicy`: what a settled read resolves to. */
  function Answer(reply: Reply, decode: Decoder): Option<Policy> {
    match reply
    case EntrypointNotFound => Some(Exempt)
    case Failed => None
    case Felts(felts) => ParsePolicy(felts, decode)
  }

  /** The name a policy goes by in the pool's ABI. */
  function PolicyName(policy: Policy): string {
    match policy
    case Required => "Required"
    case Exempt => "Exempt"
    case Delegated => "Delegated"
  }

  /** A reply means a policy: one felt that decodes to its name, or, for `Exempt`, a pool without the entrypoint. */
  predicate Means(reply: Reply, decode: Decoder, policy: Policy) {
    || (reply.Felts? && |reply.felts| == 1 && decode(reply.felts[0]) == Some(PolicyName(policy)))
    || (reply == EntrypointNotFound && policy == Exempt)
  }

  /** A read resolves to the policy its reply means, and to nothing exactly when the reply means none. */
  lemma AnswerIsMeant(reply: Reply, decode: Decoder)
    ensures forall policy :: Answer(reply, decode) == Some(policy) <==> Means(reply, decode, policy)
  {
    NamesDiffer();
    forall policy ensures Answer(reply, decode) == Some(policy) <==> Means(reply, decode, policy) {
    }
  }

  lemma NamesDiffer()
    ensures "Required" != "Exempt" && "Required" != "Delegated" && "Exempt" != "Delegated"
  {
    assert "Required"[0] == 'R' && "Exempt"[0] == 'E' && "Delegated"[0] == 'D';
  }

  // ---- the object ----

  datatype Cached = Cached(policy: Policy, setAt: int)

  /** The two maps; a pending entry holds the identity of the shared promise. */
  datatype Client = Client(cachedPolicies: map<string, Cached>, pendingReads: map<string, nat>)

  /** How a call starts: served from the cache, or awaiting a read, which may be one already running. */
  datatype Started = Served(policy: Policy) | Awaits(read: nat)

  /** An entry older than the time to live is absent; lru-cache takes a time to live of zero for none. */
  predicate Live(c: Client, address: string, now: int, ttl: nat) {
    address in c.cachedPolicies && (ttl == 0 || now - c.cachedPolicies[address].setAt <= ttl)
  }

  function StartedBy(c: Client, address: string, now: int, ttl: nat, next: nat): Started {
    if Live(c, address, now, ttl) then Served(c.cachedPolicies[address].policy)
    else if address in c.pendingReads then Awaits(c.pendingReads[address])
    else Awaits(next)
  }

  /** `getPolicy` up to its await; `next` is the promise a new read would get. */
  function AfterCall(c: Client, address: string, now: int, ttl: nat, next: nat): Client {
    if Live(c, address, now, ttl) || address in c.pendingReads then c
    else c.(pendingReads := c.pendingReads[address := next])
  }

  /** The `finally` of a settled read. */
  function AfterFinally(c: Client, address: string): Client {
    c.(pendingReads := c.pendingReads - {address})
  }

  /** `getPolicy` after its await. */
  function AfterResume(c: Client, address: string, policy: Option<Policy>, now: int): Client {
    if policy.None? then c
    else c.(cachedPolicies := c.cachedPolicies[address := Cached(policy.value, now)])
  }

  class OpenNoteScreeningPolicyClient {
    const ttlMs: nat
    var cachedPolicies: map<string, Cached>
    var pendingReads: map<string, nat>

    ghost function State(): Client
      reads this
    {
      Client(cachedPolicies, pendingReads)
    }

    constructor (ttlMs: nat)
      ensures this.ttlMs == ttlMs && State() == Client(map[], map[])
    {
      this.ttlMs := ttlMs;
      cachedPolicies, pendingReads := map[], map[];
    }

    method GetPolicy(depositor: string, now: int, next: nat) returns (started: Started)
      modifies this
      ensures started == StartedBy(old(State()), PoolTransaction.NormalizeFelt(depositor), now, ttlMs, next)
      ensures State() == AfterCall(old(State()), PoolTransaction.NormalizeFelt(depositor), now, ttlMs, next)
    {
      var address := PoolTransaction.NormalizeFelt(depositor);
      if address in cachedPolicies && (ttlMs == 0 || now - cachedPolicies[address].setAt <= ttlMs) {
        return Served(cachedPolicies[address].policy);
      }
      var read := ReadOnce(address, next);
      return Awaits(read);
    }

    method ReadOnce(address: string, next: nat) returns (read: nat)
      modifies this`pendingReads
      ensures read == if address in old(pendingReads) then old(pendingReads)[address] else next
      ensures pendingReads == if address in old(pendingReads) then old(pendingReads)
              else old(pendingReads)[address := next]
    {
      if address in pendingReads {
        return pendingReads[address];
      }
      pendingReads := pendingReads[address := next];
      return next;
    }

    method Finally(address: string)
      modifies this`pendingReads
      ensures State() == AfterFinally(old(State()), address)
    {
      pendingReads := pendingReads - {address};
    }

    method Resume(address: string, policy: Option<Policy>, now: int) returns (result: Option<Policy>)
      modifies this`cachedPolicies
      ensures result == policy && State() == AfterResume(old(State()), address, policy, now)
    {
      if policy == None {
        return None;
      }
      cachedPolicies := cachedPolicies[address := Cached(policy.value, now)];
      return policy;
    }
  }

  // ---- every interleaving ----

  /** What the pool would answer for an address at an instant. */
  type Pool = (string, int) -> Reply

  /** The client's settings and the world it runs in. */
  datatype Setting = Setting(ttl: nat, timeout: nat, pool: Pool, decode: Decoder)

  /**
   * A read's life: its RPC is out; it has resolved but its `finally` has not run; it has left the
   * pending map and its awaiters resume. `source` is the instant the pool's answer was taken, kept
   * for the statements only.
   */
  datatype Phase =
    | Asked
    | Answered(policy: Option<Policy>, source: int)
    | Settled(policy: Option<Policy>, source: int)

  datatype Read = Read(address: string, askedAt: int, phase: Phase)

  /** A caller suspended on a read. */
  datatype Waiter = Waiter(address: string, read: nat)

  /** One finished call: its address, its result, when, and the read it awaited, if any. */
  datatype Outcome = Outcome(address: string, policy: Option<Policy>, at: int, read: Option<nat>)

  datatype World = World(client: Client, issued: seq<Read>, waiters: seq<Waiter>, outcomes: seq<Outcome>, now: int)

  datatype Step =
    | Call(depositor: string)
    | Reply(read: nat, reply: Reply, source: int)
    | Finally(read: nat)
    | Resume(waiter: nat)
    | Tick(ms: nat)
    | Evict(address: string)

  /** Callbacks run within the turn that queued them; the clock moves between turns. */
  predicate Idle(w: World) {
    && (forall r :: 0 <= r < |w.issued| ==> !w.issued[r].phase.Answered?)
    && (forall i :: 0 <= i < |w.waiters| && w.waiters[i].read < |w.issued| ==> w.issued[w.waiters[i].read].phase.Asked?)
  }

  /** An answer was taken from the pool while the read was out, and arrives before the read's timeout. */
  predicate AnswersInTime(w: World, s: Setting, r: Read, reply: Reply, source: int) {
    r.askedAt <= source <= w.now <= r.askedAt + s.timeout && reply == s.pool(r.address, source)
  }

  predicate Enabled(w: World, s: Setting, step: Step) {
    match step
    case Call(_) => true
    case Reply(r, reply, source) =>
      r < |w.issued| && w.issued[r].phase.Asked?
      && (reply.Failed? || AnswersInTime(w, s, w.issued[r], reply, source))
    case Finally(r) => r < |w.issued| && w.issued[r].phase.Answered?
    case Resume(i) => i < |w.waiters| && w.waiters[i].read < |w.issued| && w.issued[w.waiters[i].read].phase.Settled?
    case Tick(_) => Idle(w)
    case Evict(address) => address in w.client.cachedPolicies
  }

  function Called(w: World, s: Setting, address: string): World {
    var next := |w.issued|;
    var client := AfterCall(w.client, address, w.now, s.ttl, next);
    match StartedBy(w.client, address, w.now, s.ttl, next)
    case Served(policy) => w.(client := client, outcomes := w.outcomes + [Outcome(address, Some(policy), w.now, None)])
    case Awaits(read) =>
      w.(client := client, waiters := w.waiters + [Waiter(address, read)],
         issued := if read == next then w.issued + [Read(address, w.now, Asked)] else w.issued)
  }

  function Resumed(w: World, i: nat): World
    requires i < |w.waiters| && w.waiters[i].read < |w.issued| && w.issued[w.waiters[i].read].phase.Settled?
  {
    var waiter := w.waiters[i];
    var policy := w.issued[waiter.read].phase.policy;
    w.(client := AfterResume(w.client, waiter.address, policy, w.now),
       waiters := w.waiters[..i] + w.waiters[i + 1..],
       outcomes := w.outcomes + [Outcome(waiter.address, policy, w.now, Some(waiter.read))])
  }

  function Next(w: World, s: Setting, step: Step): World
    requires Enabled(w, s, step)
  {
    match step
    case Call(depositor) => Called(w, s, PoolTransaction.NormalizeFelt(depositor))
    case Reply(r, reply, source) =>
      w.(issued := w.issued[r := w.issued[r].(phase := Answered(Answer(reply, s.decode), source))])
    case Finally(r) =>
      var read := w.issued[r];
      w.(client := AfterFinally(w.client, read.address),
         issued := w.issued[r := read.(phase := Settled(read.phase.policy, read.phase.source))])
    case Resume(i) => Resumed(w, i)
    case Tick(ms) => w.(now := w.now + ms)
    case Evict(address) => w.(client := w.client.(cachedPolicies := w.client.cachedPolicies - {address}))
  }

  function Start(now: int): World {
    World(Client(map[], map[]), [], [], [], now)
  }

  predicate IsRun(w: World, s: Setting, steps: seq<Step>)
    decreases |steps|
  {
    steps == [] || (Enabled(w, s, steps[0]) && IsRun(Next(w, s, steps[0]), s, steps[1..]))
  }

  function Exec(w: World, s: Setting, steps: seq<Step>): World
    requires IsRun(w, s, steps)
    decreases |steps|
  {
    if steps == [] then w else Exec(Next(w, s, steps[0]), s, steps[1..])
  }

  // ---- what every step keeps ----

  /** The pending map holds exactly the reads that have not settled, each under its own address. */
  ghost predicate Pending(w: World) {
    && (forall a :: a in w.client.pendingReads ==>
                      var r := w.client.pendingReads[a];
                      r < |w.issued| && w.issued[r].address == a && !w.issued[r].phase.Settled?)
    && (forall r: nat :: r < |w.issued| && !w.issued[r].phase.Settled? ==>
                           w.issued[r].address in w.client.pendingReads
                           && w.client.pendingReads[w.issued[r].address] == r)
  }

  predicate WaiterIsPlaced(w: World, waiter: Waiter) {
    waiter.read < |w.issued| && w.issued[waiter.read].address == waiter.address
  }

  ghost predicate Waiting(w: World) {
    forall i :: 0 <= i < |w.waiters| ==> WaiterIsPlaced(w, w.waiters[i])
  }

  /** The pool answered `policy` for the address at some instant from `low` to `high`. */
  ghost predicate PoolAnswered(s: Setting, address: string, policy: Policy, low: int, high: int) {
    exists at :: low <= at <= high && Means(s.pool(address, at), s.decode, policy)
  }

  /** What a resolved read is worth. */
  predicate ReadIsHonest(s: Setting, r: Read, now: int) {
    && r.askedAt <= now
    && (!r.phase.Asked? && r.phase.policy.Some? ==>
          && r.askedAt <= r.phase.source <= now
          && Means(s.pool(r.address, r.phase.source), s.decode, r.phase.policy.value))
  }

  /** Until the turn ends, an answer is at most a timeout old. */
  predicate ReadIsRecent(s: Setting, r: Read, now: int) {
    !r.phase.Asked? && r.phase.policy.Some? ==> now - s.timeout <= r.phase.source
  }

  ghost predicate Honest(w: World, s: Setting) {
    && (forall r :: 0 <= r < |w.issued| ==> ReadIsHonest(s, w.issued[r], w.now))
    && (forall r :: 0 <= r < |w.issued| && w.issued[r].phase.Answered? ==> ReadIsRecent(s, w.issued[r], w.now))
    && (forall i :: 0 <= i < |w.waiters| && w.waiters[i].read < |w.issued| ==>
                      ReadIsRecent(s, w.issued[w.waiters[i].read], w.now))
  }

  ghost predicate CacheIsSound(w: World, s: Setting) {
    forall a :: a in w.client.cachedPolicies ==>
                  var entry := w.client.cachedPolicies[a];
                  entry.setAt <= w.now && PoolAnswered(s, a, entry.policy, entry.setAt - s.timeout, entry.setAt)
  }

  /** A finished call's policy was the pool's answer within a time to live and a timeout. */
  ghost predicate OutcomeIsFresh(s: Setting, o: Outcome) {
    o.policy.Some? ==> PoolAnswered(s, o.address, o.policy.value, o.at - s.ttl - s.timeout, o.at)
  }

  predicate OutcomeIsShared(w: World, o: Outcome) {
    o.read.Some? ==>
      && o.read.value < |w.issued| && w.issued[o.read.value].phase.Settled?
      && o.policy == w.issued[o.read.value].phase.policy && o.address == w.issued[o.read.value].address
  }

  ghost predicate Fresh(w: World, s: Setting) {
    forall i :: 0 <= i < |w.outcomes| ==> OutcomeIsFresh(s, w.outcomes[i])
  }

  ghost predicate Shared(w: World) {
    forall i :: 0 <= i < |w.outcomes| ==> OutcomeIsShared(w, w.outcomes[i])
  }

  ghost predicate Inv(w: World, s: Setting) {
    Pending(w) && Waiting(w) && Honest(w, s) && CacheIsSound(w, s) && Shared(w)
  }

  lemma CallKeeps(w: World, s: Setting, address: string)
    requires Inv(w, s)
    ensures Inv(Called(w, s, address), s)
  {
    var w' := Called(w, s, address);
    assert Pending(w') && Waiting(w') && CacheIsSound(w', s);
    assert forall r :: 0 <= r < |w.issued| ==> w'.issued[r] == w.issued[r];
    CallKeepsHonest(w, s, address);
    CallKeepsShared(w, s, address);
  }

  lemma CallKeepsHonest(w: World, s: Setting, address: string)
    requires Pending(w) && Waiting(w) && Honest(w, s)
    ensures Honest(Called(w, s, address), s)
  {
    var w' := Called(w, s, address);
    assert forall r :: 0 <= r < |w.issued| ==> w'.issued[r] == w.issued[r];
    forall i | 0 <= i < |w'.waiters| && w'.waiters[i].read < |w'.issued|
      ensures ReadIsRecent(s, w'.issued[w'.waiters[i].read], w'.now)
    {
      if i < |w.waiters| {
        assert WaiterIsPlaced(w, w.waiters[i]);
      } else if w'.waiters[i].read < |w.issued| {
        assert !w.issued[w'.waiters[i].read].phase.Settled?;
      }
    }
  }

  lemma CallKeepsShared(w: World, s: Setting, address: string)
    requires Shared(w)
    ensures Shared(Called(w, s, address))
  {
    var w' := Called(w, s, address);
    forall i | 0 <= i < |w'.outcomes| ensures OutcomeIsShared(w', w'.outcomes[i]) {
      if i < |w.outcomes| {
        assert OutcomeIsShared(w, w.outcomes[i]);
      }
    }
  }

  lemma ReplyKeeps(w: World, s: Setting, r: nat, reply: Reply, source: int)
    requires Inv(w, s) && Enabled(w, s, Step.Reply(r, reply, source))
    ensures Inv(Next(w, s, Step.Reply(r, reply, source)), s)
  {
    var w' := Next(w, s, Step.Reply(r, reply, source));
    AnswerIsMeant(reply, s.decode);
    assert forall i :: 0 <= i < |w.outcomes| ==> OutcomeIsShared(w, w.outcomes[i]);
    assert forall i :: 0 <= i < |w.waiters| ==> WaiterIsPlaced(w, w.waiters[i]);
    assert ReadIsHonest(s, w.issued[r], w.now);
  }

  lemma FinallyKeeps(w: World, s: Setting, r: nat)
    requires Inv(w, s) && Enabled(w, s, Step.Finally(r))
    ensures Inv(Next(w, s, Step.Finally(r)), s)
  {
    var w' := Next(w, s, Step.Finally(r));
    assert forall i :: 0 <= i < |w.outcomes| ==> OutcomeIsShared(w, w.outcomes[i]);
    assert forall i :: 0 <= i < |w.waiters| ==> WaiterIsPlaced(w, w.waiters[i]);
    assert ReadIsHonest(s, w.issued[r], w.now);
  }

  lemma ResumeKeeps(w: World, s: Setting, i: nat)
    requires Inv(w, s) && Enabled(w, s, Step.Resume(i))
    ensures Inv(Resumed(w, i), s)
    ensures Fresh(w, s) ==> Fresh(Resumed(w, i), s)
  {
    var w' := Resumed(w, i);
    var waiter := w.waiters[i];
    assert WaiterIsPlaced(w, waiter);
    var read := w.issued[waiter.read];
    assert ReadIsHonest(s, read, w.now) && ReadIsRecent(s, read, w.now);
    if read.phase.policy.Some? {
      assert PoolAnswered(s, waiter.address, read.phase.policy.value, w.now - s.timeout, w.now);
      assert PoolAnswered(s, waiter.address, read.phase.policy.value, w.now - s.ttl - s.timeout, w.now);
    }
    forall j | 0 <= j < |w'.waiters|
      ensures exists k :: 0 <= k < |w.waiters| && w'.waiters[j] == w.waiters[k]
    {
      assert w'.waiters[j] == w.waiters[if j < i then j else j + 1];
    }
    forall k | 0 <= k < |w'.outcomes| ensures OutcomeIsShared(w', w'.outcomes[k]) {
      if k < |w.outcomes| {
        assert OutcomeIsShared(w, w.outcomes[k]);
      }
    }
  }

  lemma TickKeeps(w: World, s: Setting, ms: nat)
    requires Inv(w, s) && Idle(w)
    ensures Inv(w.(now := w.now + ms), s)
  {
    var w' := w.(now := w.now + ms);
    assert forall i :: 0 <= i < |w.waiters| ==> WaiterIsPlaced(w, w.waiters[i]);
    assert forall i :: 0 <= i < |w.outcomes| ==> OutcomeIsShared(w, w.outcomes[i]);
    assert forall r :: 0 <= r < |w.issued| ==> ReadIsHonest(s, w.issued[r], w.now);
  }

  lemma StepKeeps(w: World, s: Setting, step: Step)
    requires Inv(w, s) && Enabled(w, s, step)
    ensures Inv(Next(w, s, step), s)
  {
    match step
    case Call(depositor) => CallKeeps(w, s, PoolTransaction.NormalizeFelt(depositor));
    case Reply(r, reply, source) => ReplyKeeps(w, s, r, reply, source);
    case Finally(r) => FinallyKeeps(w, s, r);
    case Resume(i) => ResumeKeeps(w, s, i);
    case Tick(ms) => TickKeeps(w, s, ms);
    case Evict(address) =>
      var w' := Next(w, s, step);
      assert Pending(w') && Waiting(w') && Honest(w', s) && CacheIsSound(w', s);
      assert forall i :: 0 <= i < |w.outcomes| ==> OutcomeIsShared(w, w.outcomes[i]);
  }

  lemma StepKeepsFresh(w: World, s: Setting, step: Step)
    requires Inv(w, s) && Fresh(w, s) && Enabled(w, s, step) && s.ttl > 0
    ensures Fresh(Next(w, s, step), s)
  {
    match step
    case Call(depositor) =>
      var address := PoolTransaction.NormalizeFelt(depositor);
      if Live(w.client, address, w.now, s.ttl) {
        var entry := w.client.cachedPolicies[address];
        var at :| entry.setAt - s.timeout <= at <= entry.setAt
                  && Means(s.pool(address, at), s.decode, entry.policy);
        assert PoolAnswered(s, address, entry.policy, w.now - s.ttl - s.timeout, w.now);
      }
    case Resume(i) => ResumeKeeps(w, s, i);
    case _ =>
  }

  lemma {:induction false} RunKeeps(w: World, s: Setting, steps: seq<Step>)
    requires Inv(w, s) && IsRun(w, s, steps)
    ensures Inv(Exec(w, s, steps), s)
    ensures Fresh(w, s) && s.ttl > 0 ==> Fresh(Exec(w, s, steps), s)
    decreases |steps|
  {
    if steps != [] {
      StepKeeps(w, s, steps[0]);
      if Fresh(w, s) && s.ttl > 0 {
        StepKeepsFresh(w, s, steps[0]);
      }
      RunKeeps(Next(w, s, steps[0]), s, steps[1..]);
    }
  }

  // ---- the theorems, over every run ----

  /** At most one RPC is in flight per normalised address. */
  lemma SingleFlight(s: Setting, now: int, steps: seq<Step>, q: nat, r: nat)
    requires IsRun(Start(now), s, steps)
    requires var w := Exec(Start(now), s, steps);
             q < r < |w.issued| && w.issued[q].phase.Asked? && w.issued[r].phase.Asked?
    ensures Exec(Start(now), s, steps).issued[q].address != Exec(Start(now), s, steps).issued[r].address
  {
    RunKeeps(Start(now), s, steps);
  }

  /** A settling read takes its own entry off the pending map, and no other. */
  lemma SettlingRemovesOwn(s: Setting, now: int, steps: seq<Step>, r: nat)
    requires IsRun(Start(now), s, steps) && Enabled(Exec(Start(now), s, steps), s, Step.Finally(r))
    ensures var w := Exec(Start(now), s, steps);
            var w' := Next(w, s, Step.Finally(r));
            && w.issued[r].address in w.client.pendingReads && w.client.pendingReads[w.issued[r].address] == r
            && w.issued[r].address !in w'.client.pendingReads
            && forall a :: a in w.client.pendingReads && w.client.pendingReads[a] != r ==>
                             a in w'.client.pendingReads && w'.client.pendingReads[a] == w.client.pendingReads[a]
  {
    RunKeeps(Start(now), s, steps);
  }

  /** Callers that awaited one read get one answer. */
  lemma CallersShareTheAnswer(s: Setting, now: int, steps: seq<Step>, i: nat, j: nat)
    requires IsRun(Start(now), s, steps)
    requires var outcomes := Exec(Start(now), s, steps).outcomes;
             i < |outcomes| && j < |outcomes| && outcomes[i].read.Some? && outcomes[i].read == outcomes[j].read
    ensures var outcomes := Exec(Start(now), s, steps).outcomes;
            outcomes[i].policy == outcomes[j].policy && outcomes[i].address == outcomes[j].address
  {
    RunKeeps(Start(now), s, steps);
    var w := Exec(Start(now), s, steps);
    assert OutcomeIsShared(w, w.outcomes[i]) && OutcomeIsShared(w, w.outcomes[j]);
  }

  /** A read that has its answer keeps it. */
  lemma {:induction false} PolicyStays(w: World, s: Setting, steps: seq<Step>, r: nat)
    requires IsRun(w, s, steps) && r < |w.issued| && !w.issued[r].phase.Asked?
    ensures var w' := Exec(w, s, steps);
            r < |w'.issued| && !w'.issued[r].phase.Asked? && w'.issued[r].phase.policy == w.issued[r].phase.policy
    decreases |steps|
  {
    if steps != [] {
      StepKeepsPolicy(w, s, steps[0], r);
      hide Next, Enabled;
      PolicyStays(Next(w, s, steps[0]), s, steps[1..], r);
    }
  }

  lemma StepKeepsPolicy(w: World, s: Setting, step: Step, r: nat)
    requires Enabled(w, s, step) && r < |w.issued| && !w.issued[r].phase.Asked?
    ensures var w' := Next(w, s, step);
            r < |w'.issued| && !w'.issued[r].phase.Asked? && w'.issued[r].phase.policy == w.issued[r].phase.policy
  {
    hide Answer, PoolTransaction.NormalizeFelt;
  }

  lemma {:induction false} RunSplits(w: World, s: Setting, front: seq<Step>, back: seq<Step>)
    requires IsRun(w, s, front + back)
    ensures IsRun(w, s, front) && IsRun(Exec(w, s, front), s, back)
    ensures Exec(w, s, front + back) == Exec(Exec(w, s, front), s, back)
    decreases |front|
  {
    hide Next, Enabled;
    if front == [] {
      assert front + back == back;
    } else {
      assert (front + back)[0] == front[0] && (front + back)[1..] == front[1..] + back;
      RunSplits(Next(w, s, front[0]), s, front[1..], back);
    }
  }

  /**
   * Whoever awaited a read is told what its reply means: the policy it names, and nothing exactly when it
   * means none.
   */
  lemma AwaitersAreToldTheReply(s: Setting, now: int, steps: seq<Step>, j: nat, r: nat, reply: Reply, source: int,
                                i: nat)
    requires IsRun(Start(now), s, steps) && j < |steps| && steps[j] == Step.Reply(r, reply, source)
    requires i < |Exec(Start(now), s, steps).outcomes| && Exec(Start(now), s, steps).outcomes[i].read == Some(r)
    ensures var told := Exec(Start(now), s, steps).outcomes[i].policy;
            && (told.Some? ==> Means(reply, s.decode, told.value))
            && (told.None? ==> forall policy :: !Means(reply, s.decode, policy))
  {
    RunKeeps(Start(now), s, steps);
    assert OutcomeIsShared(Exec(Start(now), s, steps), Exec(Start(now), s, steps).outcomes[i]);
    assert steps == steps[..j] + steps[j..];
    RunSplits(Start(now), s, steps[..j], steps[j..]);
    AnswerIsMeant(reply, s.decode);
    ReplyIsKept(Exec(Start(now), s, steps[..j]), s, steps[j..], r, reply, source);
    hide IsRun, Exec, Start, Inv, Means, Answer;
  }

  lemma ReplyIsKept(w: World, s: Setting, steps: seq<Step>, r: nat, reply: Reply, source: int)
    requires IsRun(w, s, steps) && steps != [] && steps[0] == Step.Reply(r, reply, source)
    ensures r < |Exec(w, s, steps).issued| && !Exec(w, s, steps).issued[r].phase.Asked?
    ensures Exec(w, s, steps).issued[r].phase.policy == Answer(reply, s.decode)
  {
    PolicyStays(Next(w, s, steps[0]), s, steps[1..], r);
  }

  /** Every cached policy is one the pool gave within a timeout of its caching: a failed read is never cached. */
  lemma FailuresNeverCached(s: Setting, now: int, steps: seq<Step>, address: string)
    requires IsRun(Start(now), s, steps) && address in Exec(Start(now), s, steps).client.cachedPolicies
    ensures var w := Exec(Start(now), s, steps);
            var entry := w.client.cachedPolicies[address];
            entry.setAt <= w.now && PoolAnswered(s, address, entry.policy, entry.setAt - s.timeout, entry.setAt)
  {
    RunKeeps(Start(now), s, steps);
  }

  /** With a time to live, a returned policy was the pool's answer within that time plus a read's timeout. */
  lemma PoliciesAreFresh(s: Setting, now: int, steps: seq<Step>, i: nat)
    requires s.ttl > 0 && IsRun(Start(now), s, steps) && i < |Exec(Start(now), s, steps).outcomes|
    ensures OutcomeIsFresh(s, Exec(Start(now), s, steps).outcomes[i])
  {
    RunKeeps(Start(now), s, steps);
    assert Fresh(Exec(Start(now), s, steps), s);
  }

  // ---- a time to live of zero ----

  /** A pool that predates the policy list up to instant zero and is unreachable from then on. */
  function UpgradedAtZero(): Pool {
    (_: string, at: int) => if at <= 0 then EntrypointNotFound else Failed
  }

  function NeverExpires(timeout: nat, decode: Decoder): Setting {
    Setting(0, timeout, UpgradedAtZero(), decode)
  }

  /** One read, cached, and a second call `wait` milliseconds later. */
  function LateCall(depositor: string, wait: nat): seq<Step> {
    [Step.Call(depositor), Step.Reply(0, EntrypointNotFound, 0), Step.Finally(0), Step.Resume(0), Step.Tick(wait),
     Step.Call(depositor)]
  }

  lemma ExecStep(w: World, s: Setting, step: Step, rest: seq<Step>)
    requires Enabled(w, s, step) && IsRun(Next(w, s, step), s, rest)
    ensures IsRun(w, s, [step] + rest) && Exec(w, s, [step] + rest) == Exec(Next(w, s, step), s, rest)
  {
    assert ([step] + rest)[1..] == rest;
  }

  /**
   * The bound needs the time to live: configured to zero, the cache serves an answer the pool last
   * gave as long ago as one likes.
   */
  lemma ZeroTtlIsForever(timeout: nat, decode: Decoder, depositor: string, wait: nat)
    ensures var s := NeverExpires(timeout, decode);
            var steps := LateCall(depositor, wait);
            && IsRun(Start(0), s, steps)
            && |Exec(Start(0), s, steps).outcomes| == 2
            && var late := Exec(Start(0), s, steps).outcomes[1];
               late.at == wait && late.policy == Some(Exempt)
               && !PoolAnswered(s, late.address, Exempt, 1, wait)
  {
    var s, address, steps := NeverExpires(timeout, decode), PoolTransaction.NormalizeFelt(depositor),
      LateCall(depositor, wait);
    var read := Read(address, 0, Asked);
    var w1 := World(Client(map[], map[address := 0]), [read], [Waiter(address, 0)], [], 0);
    assert Next(Start(0), s, steps[0]) == w1;
    var w2 := w1.(issued := [read.(phase := Answered(Some(Exempt), 0))]);
    assert Next(w1, s, steps[1]) == w2;
    var w3 := World(Client(map[], map[]), [read.(phase := Settled(Some(Exempt), 0))], [Waiter(address, 0)], [], 0);
    assert Next(w2, s, steps[2]) == w3;
    var w4 := w3.(client := Client(map[address := Cached(Exempt, 0)], map[]), waiters := [],
                  outcomes := [Outcome(address, Some(Exempt), 0, Some(0))]);
    assert Next(w3, s, steps[3]) == w4;
    var w5 := w4.(now := wait);
    assert Next(w4, s, steps[4]) == w5;
    var w6 := Next(w5, s, steps[5]);
    assert w6.outcomes == w5.outcomes + [Outcome(address, Some(Exempt), wait, None)];
    hide Next, PoolTransaction.NormalizeFelt;
    ExecStep(w5, s, steps[5], []);
    ExecStep(w4, s, steps[4], [steps[5]]);
    ExecStep(w3, s, steps[3], [steps[4]] + [steps[5]]);
    ExecStep(w2, s, steps[2], [steps[3]] + ([steps[4]] + [steps[5]]));
    ExecStep(w1, s, steps[1], [steps[2]] + ([steps[3]] + ([steps[4]] + [steps[5]])));
    ExecStep(Start(0), s, steps[0], [steps[1]] + ([steps[2]] + ([steps[3]] + ([steps[4]] + [steps[5]]))));
    assert steps == [steps[0]] + ([steps[1]] + ([steps[2]] + ([steps[3]] + ([steps[4]] + [steps[5]]))));
  }
}
