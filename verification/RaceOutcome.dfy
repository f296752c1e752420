/**
 * What `runInterceptors` returns, said of the calls and the order in which they settle alone: who
 * has ended and how, who ended first, and which verdict that makes.
 */
module RaceOutcome {
  import opened Wrappers
  import opened InterceptorRace

  // ---- the interceptors, as the outside sees them ----

  /** Interceptor `i` has ended with `x`: at once, or by an event. */
  predicate Ends(calls: seq<Call>, events: seq<Event>, i: nat, x: Settlement) {
    i < |calls|
    && match calls[i]
       case ThrowsAtOnce => x == Threw
       case AlreadySettled(y) => x == y
       case Pending => Settle(i, x) in events
  }

  /** Returning a block blocks with it; throwing blocks with the reason reserved for that. */
  predicate BlocksWith(x: Settlement, v: Verdict) {
    (x == Returned(v) && v.Block?) || (x == Threw && v == Block("interceptor_error"))
  }

  ghost predicate HasBlocked(calls: seq<Call>, events: seq<Event>, i: nat) {
    Ends(calls, events, i, Threw) || exists reason :: Ends(calls, events, i, Returned(Block(reason)))
  }

  ghost predicate HasAllowed(calls: seq<Call>, events: seq<Event>, i: nat) {
    exists signature :: Ends(calls, events, i, Returned(Allow(signature)))
  }

  ghost predicate HasEnded(calls: seq<Call>, events: seq<Event>, i: nat) {
    exists x :: Ends(calls, events, i, x)
  }

  /** Some event settles `i` before some event settles `j`. */
  ghost predicate SettlesBefore(events: seq<Event>, i: nat, j: nat) {
    exists p, q :: 0 <= p < q < |events| && events[p].Settle? && events[q].Settle?
                   && events[p].i == i && events[q].i == j
  }

  /** Synchronous throws come first, then settled promises, both in list order; then the events decide. */
  ghost predicate EndsBefore(calls: seq<Call>, events: seq<Event>, i: nat, j: nat)
    requires i < |calls| && j < |calls|
  {
    match (calls[i], calls[j])
    case (ThrowsAtOnce, ThrowsAtOnce) => i < j
    case (ThrowsAtOnce, _) => true
    case (AlreadySettled(_), AlreadySettled(_)) => i < j
    case (AlreadySettled(_), Pending) => true
    case (Pending, Pending) => SettlesBefore(events, i, j)
    case _ => false
  }

  /** `v` is the block of the interceptor that ended first among all those that blocked. */
  ghost predicate IsFirstBlock(calls: seq<Call>, events: seq<Event>, i: nat, v: Verdict) {
    && (exists x :: Ends(calls, events, i, x) && BlocksWith(x, v))
    && forall j: nat :: j != i && HasBlocked(calls, events, j) ==> EndsBefore(calls, events, i, j)
  }

  /** The signature at the least signed place, or none when nobody signed. */
  ghost predicate IsFirstSignature(calls: seq<Call>, events: seq<Event>, signature: Option<Signature>) {
    if signature.None? then forall i: nat :: i < |calls| ==> Ends(calls, events, i, Returned(Allow(None)))
    else exists i: nat ::
           && Ends(calls, events, i, Returned(Allow(signature)))
           && forall j: nat :: j < i ==> Ends(calls, events, j, Returned(Allow(None)))
  }

  // ---- how the state keeps track of them ----

  ghost predicate SettledAsEnded(calls: seq<Call>, events: seq<Event>, settled: seq<Option<Settlement>>) {
    && |settled| == |calls|
    && forall i: nat, x :: i < |calls| ==> (settled[i] == Some(x) <==> Ends(calls, events, i, x))
  }

  /** An event only settles a pending interceptor. */
  predicate OnlyPending(calls: seq<Call>, events: seq<Event>) {
    forall e :: e in events && e.Settle? ==> e.i < |calls| && calls[e.i].Pending?
  }

  lemma SettledFromStart(calls: seq<Call>)
    ensures SettledAsEnded(calls, [], Start(calls).settled)
  {
    hide Throwers, EarlySettlers, Resumes, Relays, Counts;
  }

  /** Only an event settles anybody. */
  lemma StepSettles(s: State, e: Event)
    requires Enabled(s, e) && (e.RunHead? ==> JobFits(s, s.queue[0]))
    ensures Step(s, e).settled == if e.Settle? then s.settled[e.i := Some(e.settlement)] else s.settled
  {
  }

  lemma EndedAtOnce(calls: seq<Call>, events: seq<Event>, settled: seq<Option<Settlement>>, i: nat)
    requires SettledAsEnded(calls, events, settled) && i < |calls| && !calls[i].Pending?
    ensures settled[i].Some?
  {
    assert Ends(calls, events, i, if calls[i].ThrowsAtOnce? then Threw else calls[i].settlement);
  }

  lemma EndsOn(calls: seq<Call>, front: seq<Event>, e: Event, settled: seq<Option<Settlement>>)
    requires SettledAsEnded(calls, front, settled) && OnlyPending(calls, front)
    requires e.Settle? ==> e.i < |settled| && settled[e.i].None?
    ensures SettledAsEnded(calls, front + [e], if e.Settle? then settled[e.i := Some(e.settlement)] else settled)
    ensures OnlyPending(calls, front + [e])
  {
    var events := front + [e];
    assert forall x :: x in events <==> x in front || x == e;
    if e.Settle? && !calls[e.i].Pending? {
      EndedAtOnce(calls, front, settled, e.i);
      assert false;
    }
    forall i: nat, x | i < |calls| && !(e.Settle? && e.i == i)
      ensures Ends(calls, events, i, x) <==> Ends(calls, front, i, x)
    {
    }
    forall i: nat, x | i < |calls| && e.Settle? && e.i == i
      ensures Ends(calls, events, i, x) <==> x == e.settlement
    {
      assert !Ends(calls, front, i, x);
    }
  }

  function Settled(events: seq<Event>): (ids: seq<nat>) {
    if events == [] then []
    else
      var e := events[|events| - 1];
      Settled(events[..|events| - 1]) + (if e.Settle? then [e.i] else [])
  }

  function Finishers(calls: seq<Call>, events: seq<Event>): seq<nat> {
    Throwers(calls) + EarlySettlers(calls) + Settled(events)
  }

  function Resuming(q: seq<Job>): seq<nat> {
    if q == [] then [] else (if q[0].Resume? then [q[0].i] else []) + Resuming(q[1..])
  }

  lemma {:induction false} ResumingConcat(q: seq<Job>, r: seq<Job>)
    ensures Resuming(q + r) == Resuming(q) + Resuming(r)
  {
    if q == [] {
      assert q + r == r;
    } else {
      ResumingHead(q);
      ResumingHead(q + r);
      assert (q + r)[1..] == q[1..] + r;
      ResumingConcat(q[1..], r);
      hide Resuming;
    }
  }

  lemma {:induction false} NoneResuming(q: seq<Job>)
    requires forall job :: job in q ==> !job.Resume?
    ensures Resuming(q) == []
  {
    if q != [] { NoneResuming(q[1..]); }
  }

  lemma {:induction false} ResumingAll(ids: seq<nat>)
    ensures Resuming(Resumes(ids)) == ids
  {
    if ids != [] { ResumingAll(ids[1..]); }
  }

  lemma ResumingHead(q: seq<Job>)
    requires q != []
    ensures Resuming(q) == (if q[0].Resume? then [q[0].i] else []) + Resuming(q[1..])
  {
  }

  /** What a job queues, and whom it puts in the order. */
  lemma JobQueues(s: State, job: Job)
    requires JobFits(s, job)
    ensures |RunJob(s, job).queue| >= |s.queue| && RunJob(s, job).queue[..|s.queue|] == s.queue
    ensures forall more :: more in RunJob(s, job).queue[|s.queue|..] ==> !more.Resume?
    ensures RunJob(s, job).order == s.order + (if job.Resume? then [job.i] else [])
  {
    hide FirstSigned, VerdictOf;
  }

  /** A job moves the head of the resuming to the end of the order. */
  lemma JobKeepsFinishers(s: State)
    requires s.queue != [] && JobFits(s, s.queue[0])
    ensures var s' := RunJob(Popped(s), s.queue[0]);
            s'.order + Resuming(s'.queue) == s.order + Resuming(s.queue)
  {
    var rest, s' := s.queue[1..], RunJob(Popped(s), s.queue[0]);
    JobQueues(Popped(s), s.queue[0]);
    ResumingHead(s.queue);
    hide Resuming, RunJob;
    var more := s'.queue[|rest|..];
    assert s'.queue == rest + more;
    ResumingConcat(rest, more);
    NoneResuming(more);
  }

  /** So does the run; an event appends the newly settled one. */
  lemma StepKeepsFinishers(s: State, e: Event)
    requires Enabled(s, e) && (e.RunHead? ==> JobFits(s, s.queue[0]))
    ensures Step(s, e).order + Resuming(Step(s, e).queue)
            == s.order + Resuming(s.queue) + (if e.Settle? then [e.i] else [])
  {
    hide RunJob, Resuming;
    if e.Settle? {
      ResumingConcat(s.queue, [Resume(e.i)]);
      ResumingAll([e.i]);
      assert Resumes([e.i]) == [Resume(e.i)];
    } else {
      JobKeepsFinishers(s);
    }
  }

  lemma FinishersFromStart(calls: seq<Call>)
    ensures Start(calls).order + Resuming(Start(calls).queue) == Finishers(calls, [])
  {
    var throwers, early := Throwers(calls), EarlySettlers(calls);
    ResumingAll(early);
    hide Resuming, Throwers, EarlySettlers, Resumes, Relays, Counts;
    NoneResuming(Relays(throwers) + Counts(throwers));
    ResumingConcat(Resumes(early), Relays(throwers) + Counts(throwers));
  }

  /** What a state knows of the outside. */
  ghost predicate Tracks(calls: seq<Call>, events: seq<Event>, s: State) {
    && SettledAsEnded(calls, events, s.settled) && OnlyPending(calls, events)
    && s.order + Resuming(s.queue) == Finishers(calls, events)
  }

  lemma StepTracks(calls: seq<Call>, front: seq<Event>, s: State, e: Event)
    requires Tracks(calls, front, s) && Enabled(s, e) && (e.RunHead? ==> JobFits(s, s.queue[0]))
    ensures Tracks(calls, front + [e], Step(s, e))
  {
    StepSettles(s, e);
    StepKeepsFinishers(s, e);
    assert (front + [e])[..|front|] == front;
    hide Step, RunJob, Resuming, Throwers, EarlySettlers, SettledAsEnded, OnlyPending;
    EndsOn(calls, front, e, s.settled);
  }

  lemma StartTracks(calls: seq<Call>)
    ensures Tracks(calls, [], Start(calls))
  {
    SettledFromStart(calls);
    FinishersFromStart(calls);
    hide Start, Resuming, Finishers, SettledAsEnded;
  }

  lemma {:induction false} RunTracks(calls: seq<Call>, events: seq<Event>)
    requires IsRun(Start(calls), events)
    ensures Tracks(calls, events, Exec(Start(calls), events))
  {
    hide Tracks, Start, Enabled, JobFits, Step;
    if events == [] {
      StartTracks(calls);
    } else {
      var front, e := events[..|events| - 1], events[|events| - 1];
      RunTracks(calls, front);
      assert events == front + [e];
      StepTracks(calls, front, Exec(Start(calls), front), e);
    }
  }

  // ---- places among the finishers ----

  lemma {:induction false} SettledAt(events: seq<Event>, p: nat, q: nat)
    requires p < q < |Settled(events)|
    ensures SettlesBefore(events, Settled(events)[p], Settled(events)[q])
  {
    var front, e := events[..|events| - 1], events[|events| - 1];
    if q < |Settled(front)| {
      SettledAt(front, p, q);
      var a, b :| 0 <= a < b < |front| && front[a].Settle? && front[b].Settle?
                  && front[a].i == Settled(events)[p] && front[b].i == Settled(events)[q];
      assert events[a] == front[a] && events[b] == front[b];
    } else {
      var a := SettledWhere(front, p);
      assert events[a] == front[a] && events[|events| - 1] == e;
    }
  }

  lemma {:induction false} SettledWhere(events: seq<Event>, p: nat) returns (a: nat)
    requires p < |Settled(events)|
    ensures a < |events| && events[a].Settle? && events[a].i == Settled(events)[p]
  {
    var front := events[..|events| - 1];
    if p < |Settled(front)| {
      a := SettledWhere(front, p);
      assert events[a] == front[a];
    } else {
      a := |events| - 1;
    }
  }

  lemma {:induction false} SettlesSomewhere(events: seq<Event>, i: nat, x: Settlement)
    requires Settle(i, x) in events
    ensures i in Settled(events)
  {
    var front := events[..|events| - 1];
    assert events == front + [events[|events| - 1]];
    if Settle(i, x) in front {
      SettlesSomewhere(front, i, x);
    }
  }

  lemma EndedFinishes(calls: seq<Call>, events: seq<Event>, i: nat, x: Settlement)
    requires Ends(calls, events, i, x)
    ensures i in Finishers(calls, events)
  {
    assert calls[i].ThrowsAtOnce? ==> i in Throwers(calls);
    assert calls[i].AlreadySettled? ==> i in EarlySettlers(calls);
    if calls[i].Pending? {
      SettlesSomewhere(events, i, x);
    }
    hide Throwers, EarlySettlers, Settled;
  }

  /** Whoever has ended has a place among the finishers. */
  lemma EndedHasPlace(calls: seq<Call>, events: seq<Event>, i: nat, x: Settlement) returns (p: nat)
    requires Ends(calls, events, i, x)
    ensures p < |Finishers(calls, events)| && Finishers(calls, events)[p] == i
  {
    EndedFinishes(calls, events, i, x);
    hide *;
    p :| 0 <= p < |Finishers(calls, events)| && Finishers(calls, events)[p] == i;
  }

  /** An earlier place is an earlier end. */
  lemma PlacesTellOrder(calls: seq<Call>, events: seq<Event>, p: nat, q: nat)
    requires OnlyPending(calls, events) && p < q < |Finishers(calls, events)|
    ensures var i, j := Finishers(calls, events)[p], Finishers(calls, events)[q];
            i < |calls| && j < |calls| && EndsBefore(calls, events, i, j)
  {
    var ts, es, ss := Throwers(calls), EarlySettlers(calls), Settled(events);
    var n := |ts| + |es|;
    if n <= p {
      SettledAt(events, p - n, q - n);
      var a := SettledWhere(events, p - n);
      assert events[a] in events;
    }
    if n <= q {
      var b := SettledWhere(events, q - n);
      assert events[b] in events;
    }
    hide Throwers, EarlySettlers, Settled, SettlesBefore;
  }

  /** An interceptor ends one way only. */
  lemma EndsOnce(calls: seq<Call>, events: seq<Event>, i: nat, x: Settlement, y: Settlement)
    requires IsRun(Start(calls), events) && Ends(calls, events, i, x) && Ends(calls, events, i, y)
    ensures x == y
  {
    RunTracks(calls, events);
    hide IsRun, Exec, Start;
  }

  // ---- the theorems ----

  /** Who has blocked in the state has blocked outside. */
  lemma BlockedOutside(calls: seq<Call>, events: seq<Event>, s: State)
    requires SettledAsEnded(calls, events, s.settled)
    ensures forall i: nat :: InterceptorRace.HasBlocked(s, i) <==> HasBlocked(calls, events, i)
    ensures forall i: nat :: i < |calls| ==> (s.settled[i].Some? <==> HasEnded(calls, events, i))
  {
    hide Ends;
    forall i: nat ensures InterceptorRace.HasBlocked(s, i) <==> HasBlocked(calls, events, i) {
      OutOfRange(calls, events, i);
      if i < |calls| && s.settled[i].Some? {
        assert Ends(calls, events, i, s.settled[i].value);
      }
    }
    forall i: nat | i < |calls| ensures s.settled[i].Some? <==> HasEnded(calls, events, i) {
      if s.settled[i].Some? {
        assert Ends(calls, events, i, s.settled[i].value);
      }
    }
  }

  lemma OutOfRange(calls: seq<Call>, events: seq<Event>, i: nat)
    ensures HasBlocked(calls, events, i) ==> i < |calls|
  {
  }

  lemma BlockOutside(calls: seq<Call>, events: seq<Event>, s: State, p: nat, v: Verdict)
    requires Tracks(calls, events, s) && |s.settled| == |s.verdicts| && Places(s)
    requires InterceptorRace.IsFirstBlock(s, p, v)
    ensures IsFirstBlock(calls, events, s.order[p], v)
  {
    var i := s.order[p];
    BlockedOutside(calls, events, s);
    hide Ends, Finishers, EndsBefore, Resuming, Places, OnlyPending;
    assert Ends(calls, events, i, s.settled[i].value) && BlocksWith(s.settled[i].value, v);
    forall j: nat | j != i && HasBlocked(calls, events, j) ensures j < |calls| && EndsBefore(calls, events, i, j) {
      var q := EndedHasPlace(calls, events, j, s.settled[j].value);
      if q < |s.order| { assert s.order[q] == j; }
      PlacesTellOrder(calls, events, p, q);
    }
  }

  lemma AllowOutside(calls: seq<Call>, events: seq<Event>, s: State)
    requires SettledAsEnded(calls, events, s.settled) && AllAllowed(s)
    ensures forall i: nat :: i < |calls| ==> HasAllowed(calls, events, i)
    ensures IsFirstSignature(calls, events, FirstSigned(s.verdicts).signature)
  {
    hide Ends, FirstSigned;
    forall i: nat | i < |calls|
      ensures s.verdicts[i].Some? && s.verdicts[i].value.Allow? && Ends(calls, events, i, Returned(s.verdicts[i].value))
      ensures HasAllowed(calls, events, i)
    {
      assert !InterceptorRace.HasBlocked(s, i);
      assert Ends(calls, events, i, s.settled[i].value);
    }
    FirstSignedAt(s.verdicts);
  }

  /** The first signed allow is at the least place that is signed. */
  lemma {:induction false} FirstSignedAt(verdicts: seq<Option<Verdict>>)
    requires forall i :: 0 <= i < |verdicts| ==> verdicts[i].Some? && verdicts[i].value.Allow?
    ensures FirstSigned(verdicts).signature.None? ==>
              forall i :: 0 <= i < |verdicts| ==> verdicts[i] == Some(Allow(None))
    ensures FirstSigned(verdicts).signature.Some? ==>
              exists i :: 0 <= i < |verdicts| && verdicts[i] == Some(FirstSigned(verdicts))
                          && forall j :: 0 <= j < i ==> verdicts[j] == Some(Allow(None))
  {
    if verdicts != [] && verdicts[0].value.signature.None? {
      FirstSignedAt(verdicts[1..]);
      if FirstSigned(verdicts).signature.Some? {
        var i :| 0 <= i < |verdicts[1..]| && verdicts[1..][i] == Some(FirstSigned(verdicts))
                 && forall j :: 0 <= j < i ==> verdicts[1..][j] == Some(Allow(None));
        assert verdicts[i + 1] == Some(FirstSigned(verdicts));
        assert forall j :: 0 < j < i + 1 ==> verdicts[j] == verdicts[1..][j - 1];
      } else {
        assert forall i :: 0 < i < |verdicts| ==> verdicts[i] == verdicts[1..][i - 1];
      }
    }
  }

  /**
   * Soundness at every moment of every run. An allow is only returned once every interceptor has
   * returned one, with the first signature in list order; a block is returned only if some
   * interceptor blocked or threw, and is the block of the one that ended first among those.
   */
  lemma RaceIsSound(calls: seq<Call>, events: seq<Event>)
    requires calls != [] && IsRun(Start(calls), events)
    requires Exec(Start(calls), events).outcome.Some?
    ensures var v := Exec(Start(calls), events).outcome.value;
            && (v.Allow? ==>
                  && (forall i: nat :: i < |calls| ==> HasAllowed(calls, events, i))
                  && IsFirstSignature(calls, events, v.signature))
            && (v.Block? ==> exists i: nat :: IsFirstBlock(calls, events, i, v))
  {
    RunKeeps(calls, events);
    RunTracks(calls, events);
    hide IsRun, Exec, Start, IsFirstSignature;
    OutcomeOutside(calls, events, Exec(Start(calls), events));
  }

  lemma OutcomeOutside(calls: seq<Call>, events: seq<Event>, s: State)
    requires Inv(s) && Tracks(calls, events, s) && s.outcome.Some?
    ensures s.outcome.value.Allow? ==>
              && (forall i: nat :: i < |calls| ==> HasAllowed(calls, events, i))
              && IsFirstSignature(calls, events, s.outcome.value.signature)
    ensures s.outcome.value.Block? ==> exists i: nat :: IsFirstBlock(calls, events, i, s.outcome.value)
  {
    hide Race, Places, Jobs, Finishers, SettledAsEnded, IsFirstSignature, FirstSigned, AllAllowed;
    if s.outcome.value.Allow? {
      AllowIsSound(s);
      AllowOutside(calls, events, s);
    } else {
      BlockIsSound(s);
      var p: nat :| InterceptorRace.IsFirstBlock(s, p, s.outcome.value);
      BlockOutside(calls, events, s, p, s.outcome.value);
    }
  }

  /**
   * And it decides as early as it can: whenever the queue is empty, the call has returned exactly
   * if somebody has blocked or everybody has ended, and a block exactly if somebody has blocked.
   */
  lemma RaceDecides(calls: seq<Call>, events: seq<Event>)
    requires calls != [] && IsRun(Start(calls), events) && Exec(Start(calls), events).queue == []
    ensures var outcome := Exec(Start(calls), events).outcome;
            var somebody, everybody := exists i :: HasBlocked(calls, events, i),
              forall i: nat :: i < |calls| ==> HasEnded(calls, events, i);
            && (outcome.Some? <==> somebody || everybody)
            && (outcome.Some? && outcome.value.Block? <==> somebody)
  {
    RunKeeps(calls, events);
    RunTracks(calls, events);
    hide IsRun, Exec, Start;
    DrainedOutside(calls, events, Exec(Start(calls), events));
  }

  lemma DrainedOutside(calls: seq<Call>, events: seq<Event>, s: State)
    requires Inv(s) && Tracks(calls, events, s) && s.queue == []
    ensures var somebody, everybody := exists i :: HasBlocked(calls, events, i),
              forall i: nat :: i < |calls| ==> HasEnded(calls, events, i);
            && (s.outcome.Some? <==> somebody || everybody)
            && (s.outcome.Some? && s.outcome.value.Block? <==> somebody)
  {
    DrainedIsDecided(s);
    BlockedOutside(calls, events, s);
    if s.outcome.Some? {
      if s.outcome.value.Allow? { AllowIsSound(s); } else { BlockIsSound(s); }
    }
    hide Ends, Race, Places, Jobs, Finishers, FirstSigned;
    assert forall i :: HasBlocked(calls, events, i) ==> InterceptorRace.HasBlocked(s, i);
  }
}
