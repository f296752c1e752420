/** Whole runs of the rate limiter: any number of requests, by any partners, against one monotone clock. */
module RateLimiterRuns {
  import opened Wrappers
  import opened Arithmetic
  import opened RateLimiter
  import Numerals

  /** The promised window, and how many partners are remembered. */
  const MINUTE: nat := 60_000
  const REMEMBERED: nat := 20

  datatype Request = Request(partner: string, at: int)

  /** Each partner's fixed limit per minute. */
  type Limits = string -> int

  predicate Monotone(rs: seq<Request>) {
    forall i, j :: 0 <= i < j < |rs| ==> rs[i].at <= rs[j].at
  }

  predicate AllFrom(rs: seq<Request>, partners: set<string>) {
    forall i :: 0 <= i < |rs| ==> rs[i].partner in partners
  }

  /** The limiter after a run from empty. */
  function After(rs: seq<Request>, limits: Limits): Limiter {
    if rs == [] then Limiter(map[], [])
    else
      var last := rs[|rs| - 1];
      AfterCheck(After(rs[..|rs| - 1], limits), last.partner, limits(last.partner), last.at)
  }

  /** Whether the run's last request is admitted. */
  predicate LastAdmitted(rs: seq<Request>, limits: Limits)
    requires rs != []
  {
    var last := rs[|rs| - 1];
    Admits(Found(After(rs[..|rs| - 1], limits), last.partner, last.at), limits(last.partner), last.at)
  }

  /** How many of a partner's requests in the minute from `a` are admitted. */
  function Admitted(rs: seq<Request>, limits: Limits, partner: string, a: int): nat {
    if rs == [] then 0
    else
      var last := rs[|rs| - 1];
      Admitted(rs[..|rs| - 1], limits, partner, a)
      + (if last.partner == partner && a <= last.at < a + MINUTE && LastAdmitted(rs, limits) then 1 else 0)
  }

  function Cap(limit: int): nat {
    Max(1, limit)
  }

  // ---- a partner's windows, read off its request times alone ----

  /**
   * The start of the partner's latest window: its first request, or its first a minute or more after the
   * last start.
   */
  function LastStart(rs: seq<Request>, partner: string): Option<int> {
    if rs == [] then None
    else
      var front, last := LastStart(rs[..|rs| - 1], partner), rs[|rs| - 1];
      if last.partner == partner && (front.None? || last.at - front.value >= MINUTE) then Some(last.at) else front
  }

  function CallsFrom(rs: seq<Request>, partner: string, start: int): nat {
    if rs == [] then 0
    else CallsFrom(rs[..|rs| - 1], partner, start)
         + (if rs[|rs| - 1].partner == partner && rs[|rs| - 1].at >= start then 1 else 0)
  }

  // ---- partners do not disturb each other ----

  predicate NoRepeats(s: seq<string>) {
    forall i, j :: 0 <= i < j < |s| ==> s[i] != s[j]
  }

  ghost predicate Consistent(m: Limiter, partners: set<string>) {
    && NoRepeats(m.recency)
    && (forall k :: k in m.recency <==> k in m.windows)
    && (forall k :: k in m.windows ==> k in partners)
  }

  lemma {:induction false} FitsIn(s: seq<string>, partners: set<string>)
    requires NoRepeats(s) && forall k :: k in s ==> k in partners
    ensures |s| <= |partners|
  {
    if s != [] {
      forall k | k in s[1..] ensures k in partners - {s[0]} {}
      assert NoRepeats(s[1..]);
      FitsIn(s[1..], partners - {s[0]});
    }
  }

  lemma {:induction false} WithoutKeepsApart(s: seq<string>, key: string)
    requires NoRepeats(s)
    ensures NoRepeats(Without(s, key) + [key]) && NoRepeats(Without(s, key))
  {
    if s != [] {
      assert NoRepeats(s[1..]);
      WithoutKeepsApart(s[1..], key);
      if s[0] != key {
        assert s[0] !in s[1..];
        var r := Without(s[1..], key);
        assert s[0] !in r;
        assert Without(s, key) + [key] == [s[0]] + (r + [key]);
      }
    }
  }

  /** The counter of `partner` after its request, when nothing is evicted. */
  function OwnCounter(m: Limiter, partner: string): Option<Count> {
    if partner in m.windows then Some(m.windows[partner]) else None
  }

  lemma GetKeeps(m: Limiter, partner: string, now: int, partners: set<string>)
    requires Consistent(m, partners)
    ensures Consistent(AfterGet(m, partner, now), partners)
  {
    WithoutKeepsApart(m.recency, partner);
  }

  /** With at most twenty partners a check touches its own partner's counter only. */
  lemma CheckIsOwn(m: Limiter, partner: string, limit: int, now: int, partners: set<string>)
    requires Consistent(m, partners) && partner in partners && |partners| <= REMEMBERED
    ensures var m' := AfterCheck(m, partner, limit, now);
            && Consistent(m', partners)
            && OwnCounter(m', partner) == Some(Advanced(OwnCounter(m, partner), limit, now))
            && forall k :: k != partner ==> OwnCounter(m', k) == OwnCounter(m, k)
    ensures Admits(Found(m, partner, now), limit, now) == Admits(OwnCounter(m, partner), limit, now)
  {
    var got := AfterGet(m, partner, now);
    GetKeeps(m, partner, now, partners);
    WithoutKeepsApart(got.recency, partner);
    if partner !in got.windows {
      FitsIn(got.recency, partners - {partner});
      assert partner !in got.recency;
      assert NoRepeats(got.recency + [partner]);
    }
  }

  lemma {:induction false} RunIsConsistent(rs: seq<Request>, limits: Limits, partners: set<string>)
    requires AllFrom(rs, partners) && |partners| <= REMEMBERED
    ensures Consistent(After(rs, limits), partners)
  {
    if rs != [] {
      var last := rs[|rs| - 1];
      RunIsConsistent(rs[..|rs| - 1], limits, partners);
      CheckIsOwn(After(rs[..|rs| - 1], limits), last.partner, limits(last.partner), last.at, partners);
    }
  }

  function Counter(rs: seq<Request>, limits: Limits, partner: string): Option<Count> {
    OwnCounter(After(rs, limits), partner)
  }

  /** One request, seen through the counters. */
  lemma CounterStep(rs: seq<Request>, limits: Limits, partners: set<string>, partner: string)
    requires rs != [] && AllFrom(rs, partners) && |partners| <= REMEMBERED
    ensures var front, last := rs[..|rs| - 1], rs[|rs| - 1];
            Counter(rs, limits, partner) ==
            if last.partner == partner then Some(Advanced(Counter(front, limits, partner), limits(partner), last.at))
            else Counter(front, limits, partner)
    ensures var front, last := rs[..|rs| - 1], rs[|rs| - 1];
            LastAdmitted(rs, limits) <==> Admits(Counter(front, limits, last.partner), limits(last.partner), last.at)
  {
    var front, last := rs[..|rs| - 1], rs[|rs| - 1];
    RunIsConsistent(front, limits, partners);
    CheckIsOwn(After(front, limits), last.partner, limits(last.partner), last.at, partners);
  }

  // ---- windows ----

  lemma CountStep(calls: nat, limit: int)
    requires calls >= 1
    ensures Min(calls, Cap(limit)) < limit <==> calls + 1 <= Cap(limit)
    ensures Min(calls + 1, Cap(limit)) ==
            if Min(calls, Cap(limit)) >= limit then Min(calls, Cap(limit)) else Min(calls, Cap(limit)) + 1
  {
  }

  /** What a partner's counter holds after any run. */
  predicate CounterIsRight(rs: seq<Request>, limits: Limits, partner: string) {
    var own, start := Counter(rs, limits, partner), LastStart(rs, partner);
    && (own.Some? <==> start.Some?)
    && (own.Some? ==> own.value == Count(Min(CallsFrom(rs, partner, start.value), Cap(limits(partner))), start.value)
                      && CallsFrom(rs, partner, start.value) >= 1)
  }

  lemma {:induction false} NoCallsAfter(rs: seq<Request>, partner: string, start: int)
    requires forall i :: 0 <= i < |rs| ==> rs[i].partner == partner ==> rs[i].at < start
    ensures CallsFrom(rs, partner, start) == 0
  {
    if rs != [] { NoCallsAfter(rs[..|rs| - 1], partner, start); }
  }

  /** The latest window holds everything the partner asked since it began, so the next one starts beyond it. */
  lemma {:induction false} LatestWindow(rs: seq<Request>, partner: string)
    requires Monotone(rs)
    ensures LastStart(rs, partner).None? ==> forall i :: 0 <= i < |rs| ==> rs[i].partner != partner
    ensures LastStart(rs, partner).Some? ==>
              forall i :: 0 <= i < |rs| && rs[i].partner == partner
                ==> rs[i].at < LastStart(rs, partner).value + MINUTE
  {
    if rs != [] {
      LatestWindow(rs[..|rs| - 1], partner);
    }
  }

  lemma {:induction false} CountersAreRight(rs: seq<Request>, limits: Limits, partners: set<string>, partner: string)
    requires Monotone(rs) && AllFrom(rs, partners) && |partners| <= REMEMBERED
    ensures CounterIsRight(rs, limits, partner)
  {
    if rs != [] {
      var front, last := rs[..|rs| - 1], rs[|rs| - 1];
      CountersAreRight(front, limits, partners, partner);
      CounterStep(rs, limits, partners, partner);
      hide After;
      CallStep(rs, limits, partner);
    }
  }

  predicate Restarts(rs: seq<Request>, partner: string)
    requires rs != []
  {
    var front, last := LastStart(rs[..|rs| - 1], partner), rs[|rs| - 1];
    last.partner == partner && (front.None? || last.at - front.value >= MINUTE)
  }

  lemma CallStep(rs: seq<Request>, limits: Limits, partner: string)
    requires rs != [] && Monotone(rs) && CounterIsRight(rs[..|rs| - 1], limits, partner)
    requires var front, last := rs[..|rs| - 1], rs[|rs| - 1];
             Counter(rs, limits, partner) ==
             if last.partner == partner then Some(Advanced(Counter(front, limits, partner), limits(partner), last.at))
             else Counter(front, limits, partner)
    ensures CounterIsRight(rs, limits, partner)
  {
    hide Counter;
    var front, last := rs[..|rs| - 1], rs[|rs| - 1];
    var before := LastStart(front, partner);
    if Restarts(rs, partner) {
      LatestWindow(front, partner);
      NoCallsAfter(front, partner, last.at);
    } else if last.partner == partner {
      StartsNoLater(front, partner);
      CountStep(CallsFrom(front, partner, before.value), limits(partner));
    }
  }

  /**
   * A partner's windows are disjoint and a minute long; each admits its first `limit` requests (its
   * first one at least) and refuses the rest.
   */
  lemma WindowsAdmitTheFirst(rs: seq<Request>, limits: Limits, partners: set<string>)
    requires rs != [] && Monotone(rs) && AllFrom(rs, partners) && |partners| <= REMEMBERED
    ensures var last, before := rs[|rs| - 1], LastStart(rs[..|rs| - 1], rs[|rs| - 1].partner);
            var start := LastStart(rs, last.partner);
            && start.Some? && start.value <= last.at < start.value + MINUTE
            && (before.Some? && start != before ==> start.value >= before.value + MINUTE)
            && (LastAdmitted(rs, limits) <==> CallsFrom(rs, last.partner, start.value) <= Cap(limits(last.partner)))
  {
    var front, last := rs[..|rs| - 1], rs[|rs| - 1];
    CountersAreRight(front, limits, partners, last.partner);
    CounterStep(rs, limits, partners, last.partner);
    hide After, Counter, LastAdmitted;
    StartsNoLater(rs, last.partner);
    LatestWindow(rs, last.partner);
    if Restarts(rs, last.partner) {
      LatestWindow(front, last.partner);
      NoCallsAfter(front, last.partner, last.at);
    } else {
      CountStep(CallsFrom(front, last.partner, LastStart(front, last.partner).value), limits(last.partner));
    }
  }

  lemma {:induction false} StartsNoLater(rs: seq<Request>, partner: string)
    requires Monotone(rs)
    ensures LastStart(rs, partner).Some? ==> rs != [] && LastStart(rs, partner).value <= rs[|rs| - 1].at
  {
    if rs != [] { StartsNoLater(rs[..|rs| - 1], partner); }
  }

  // ---- any minute at all ----

  /** Where the latest window lies decides how much of the minute from `a` is used. */
  predicate Used(n: nat, own: Option<Count>, cap: nat, a: int) {
    if own.None? then n == 0
    else if own.value.windowStart < a then n <= own.value.count - 1
    else if own.value.windowStart < a + MINUTE then n <= cap - 1 + own.value.count
    else n <= 2 * cap - 1
  }

  lemma UsedStep(n: nat, own: Option<Count>, limit: int, a: int, now: int)
    requires own.Some? ==> own.value.windowStart <= now && 1 <= own.value.count <= Cap(limit)
    requires Used(n, own, Cap(limit), a) && (now < a ==> n == 0)
    ensures Used(n + (if a <= now < a + MINUTE && Admits(own, limit, now) then 1 else 0),
              Some(Advanced(own, limit, now)), Cap(limit), a)
  {
  }

  lemma {:induction false} NoneYet(rs: seq<Request>, limits: Limits, partner: string, a: int)
    requires forall i :: 0 <= i < |rs| ==> rs[i].at < a
    ensures Admitted(rs, limits, partner, a) == 0
  {
    if rs != [] { NoneYet(rs[..|rs| - 1], limits, partner, a); }
  }

  lemma {:induction false} MinuteIsUsed(rs: seq<Request>, limits: Limits, partners: set<string>, partner: string,
                                        a: int)
    requires Monotone(rs) && AllFrom(rs, partners) && |partners| <= REMEMBERED
    ensures Used(Admitted(rs, limits, partner, a), Counter(rs, limits, partner), Cap(limits(partner)), a)
  {
    if rs != [] {
      var front, last := rs[..|rs| - 1], rs[|rs| - 1];
      MinuteIsUsed(front, limits, partners, partner, a);
      CountersAreRight(front, limits, partners, partner);
      StartsNoLater(front, partner);
      CounterStep(rs, limits, partners, partner);
      if last.partner == partner {
        if last.at < a {
          NoneYet(front, limits, partner, a);
        }
        UsedStep(Admitted(front, limits, partner, a), Counter(front, limits, partner), limits(partner), a, last.at);
      }
    }
  }

  /** Any minute, wherever it starts, admits fewer than twice a partner's limit. */
  lemma AnyMinuteIsBounded(rs: seq<Request>, limits: Limits, partners: set<string>, partner: string, a: int)
    requires Monotone(rs) && AllFrom(rs, partners) && |partners| <= REMEMBERED
    ensures Admitted(rs, limits, partner, a) <= 2 * Cap(limits(partner)) - 1
  {
    MinuteIsUsed(rs, limits, partners, partner, a);
    CountersAreRight(rs, limits, partners, partner);
  }

  // ---- the bound is reached ----

  function Burst(partner: string, at: int, n: nat): seq<Request> {
    if n == 0 then [] else Burst(partner, at, n - 1) + [Request(partner, at)]
  }

  lemma {:induction false} BurstsAre(partner: string, at: int, n: nat)
    ensures |Burst(partner, at, n)| == n && forall i :: 0 <= i < n ==> Burst(partner, at, n)[i] == Request(partner, at)
  {
    if n > 0 { BurstsAre(partner, at, n - 1); }
  }

  /** One more request of the only partner there is. */
  lemma OneMore(rs: seq<Request>, limits: Limits, partner: string, at: int, a: int)
    requires AllFrom(rs, {partner})
    ensures var all, own := rs + [Request(partner, at)], Counter(rs, limits, partner);
            && AllFrom(all, {partner})
            && Counter(all, limits, partner) == Some(Advanced(own, limits(partner), at))
            && Admitted(all, limits, partner, a) ==
               Admitted(rs, limits, partner, a)
               + (if a <= at < a + MINUTE && Admits(own, limits(partner), at) then 1 else 0)
  {
    var all := rs + [Request(partner, at)];
    assert all[..|all| - 1] == rs;
    assert AllFrom(all, {partner});
    CounterStep(all, limits, {partner}, partner);
  }

  /** Within one window, requests are admitted until the limit. */
  lemma {:induction false} BurstIsAdmitted(rs: seq<Request>, limits: Limits, partner: string, at: int, n: nat,
                                           a: int, own: Count)
    requires AllFrom(rs, {partner}) && Counter(rs, limits, partner) == Some(own)
    requires own.windowStart <= at < own.windowStart + MINUTE && own.count >= 1
             && own.count + n <= Cap(limits(partner))
    requires a <= at < a + MINUTE
    ensures AllFrom(rs + Burst(partner, at, n), {partner})
    ensures Counter(rs + Burst(partner, at, n), limits, partner) == Some(own.(count := own.count + n))
    ensures Admitted(rs + Burst(partner, at, n), limits, partner, a) == Admitted(rs, limits, partner, a) + n
  {
    hide Counter, Admitted, AllFrom;
    if n == 0 {
      assert rs + Burst(partner, at, 0) == rs;
    } else {
      BurstIsAdmitted(rs, limits, partner, at, n - 1, a, own);
      OneMore(rs + Burst(partner, at, n - 1), limits, partner, at, a);
      assert rs + Burst(partner, at, n - 1) + [Request(partner, at)] == rs + Burst(partner, at, n);
    }
  }

  function Half(partner: string, n: nat): seq<Request> {
    [Request(partner, 0)] + Burst(partner, MINUTE - 1, n)
  }

  /** One request opens a window, the rest of its limit comes at its end, and a full window follows at once. */
  function Straddle(partner: string, limit: nat): seq<Request>
    requires limit >= 1
  {
    Half(partner, limit - 1) + ([Request(partner, MINUTE)] + Burst(partner, MINUTE, limit - 1))
  }

  lemma StraddleIsMonotone(partner: string, limit: nat)
    requires limit >= 1
    ensures Monotone(Straddle(partner, limit))
  {
    BurstsAre(partner, MINUTE - 1, limit - 1);
    BurstsAre(partner, MINUTE, limit - 1);
    var early, late := Half(partner, limit - 1), [Request(partner, MINUTE)] + Burst(partner, MINUTE, limit - 1);
    assert forall i :: 0 <= i < |early| ==> 0 <= early[i].at < MINUTE && (i > 0 ==> early[i].at == MINUTE - 1);
    assert forall i :: 0 <= i < |late| ==> late[i].at == MINUTE;
    var all := early + late;
    forall i | 0 <= i < |all| ensures all[i] == if i < |early| then early[i] else late[i - |early|] {}
  }

  lemma HalfAdmits(partner: string, limits: Limits, n: nat)
    requires Cap(limits(partner)) == n + 1
    ensures AllFrom(Half(partner, n), {partner})
    ensures Counter(Half(partner, n), limits, partner) == Some(Count(n + 1, 0))
    ensures Admitted(Half(partner, n), limits, partner, MINUTE - 1) == n
  {
    OneMore([], limits, partner, 0, MINUTE - 1);
    assert [] + [Request(partner, 0)] == [Request(partner, 0)];
    hide Counter, Admitted, AllFrom;
    BurstIsAdmitted([Request(partner, 0)], limits, partner, MINUTE - 1, n, MINUTE - 1, Count(1, 0));
  }

  /**
   * No smaller bound holds: for every limit, one below one included, some run admits exactly one less
   * than twice the effective limit within a minute.
   */
  lemma BoundIsReached(partner: string, limits: Limits)
    ensures var rs := Straddle(partner, Cap(limits(partner)));
            && Monotone(rs) && AllFrom(rs, {partner})
            && Admitted(rs, limits, partner, MINUTE - 1) == 2 * Cap(limits(partner)) - 1
  {
    hide Counter, Admitted, AllFrom, Half;
    var n := Cap(limits(partner)) - 1;
    StraddleIsMonotone(partner, n + 1);
    HalfAdmits(partner, limits, n);
    OneMore(Half(partner, n), limits, partner, MINUTE, MINUTE - 1);
    var more := Half(partner, n) + [Request(partner, MINUTE)];
    BurstIsAdmitted(more, limits, partner, MINUTE, n, MINUTE - 1, Count(1, MINUTE));
    assert more + Burst(partner, MINUTE, n) == Straddle(partner, n + 1);
  }

  // ---- one partner too many ----

  const CROWD: nat := REMEMBERED + 1

  /** Twenty-one different partners. */
  predicate IsCrowd(c: seq<string>) {
    |c| == CROWD && NoRepeats(c)
  }

  /** Whose turn the i-th request is when they ask in turn. */
  function Turn(c: seq<string>, i: nat): string
    requires |c| == CROWD
  {
    c[i % CROWD]
  }

  /** The first `m` requests of a crowd asking in turn, all at one instant. */
  function InTurn(c: seq<string>, m: nat): seq<Request>
    requires |c| == CROWD
  {
    if m == 0 then [] else InTurn(c, m - 1) + [Request(Turn(c, m - 1), 0)]
  }

  /** The last twenty to have asked, or fewer. */
  function Latest(c: seq<string>, m: nat): (names: seq<string>)
    requires |c| == CROWD
    ensures |names| == Min(m, REMEMBERED)
    ensures forall k :: 0 <= k < |names| ==> names[k] == Turn(c, m - |names| + k)
  {
    seq(Min(m, REMEMBERED), (k: int) requires 0 <= k => Turn(c, m - Min(m, REMEMBERED) + k))
  }

  lemma TurnsDiffer(c: seq<string>, i: nat, j: nat)
    requires IsCrowd(c) && i < j < i + CROWD
    ensures Turn(c, i) != Turn(c, j)
  {
    var a, b := i % CROWD, j % CROWD;
    assert a != b;
    assert c[if a < b then a else b] != c[if a < b then b else a];
  }

  /** Whoever's turn it is has just been evicted. */
  lemma NextIsForgotten(c: seq<string>, m: nat)
    requires IsCrowd(c)
    ensures Turn(c, m) !in Latest(c, m)
  {
    forall k | 0 <= k < |Latest(c, m)| ensures Latest(c, m)[k] != Turn(c, m) {
      TurnsDiffer(c, m - |Latest(c, m)| + k, m);
    }
  }

  ghost predicate Holds(m: Limiter, names: seq<string>) {
    m.recency == names && NoRepeats(names) && forall k :: k in m.windows <==> k in names
  }

  /** A partner the cache does not know is admitted and put last; the first goes when the cache is full. */
  lemma NewPartner(m: Limiter, names: seq<string>, partner: string, limit: int)
    requires Holds(m, names) && partner !in names && |names| <= REMEMBERED
    ensures Holds(AfterCheck(m, partner, limit, 0), (if |names| < REMEMBERED then names else names[1..]) + [partner])
    ensures Admits(Found(m, partner, 0), limit, 0)
  {
    if |names| == REMEMBERED {
      assert names == [names[0]] + names[1..] && names[0] !in names[1..];
    }
  }

  lemma LatestOn(c: seq<string>, m: nat)
    requires |c| == CROWD
    ensures Latest(c, m + 1) == (if m < REMEMBERED then Latest(c, m) else Latest(c, m)[1..]) + [Turn(c, m)]
  {
    hide Turn;
  }

  lemma InTurnFront(c: seq<string>, m: nat)
    requires |c| == CROWD && m > 0
    ensures |InTurn(c, m)| > 0 && InTurn(c, m)[..|InTurn(c, m)| - 1] == InTurn(c, m - 1)
    ensures InTurn(c, m)[|InTurn(c, m)| - 1] == Request(Turn(c, m - 1), 0)
  {
    hide Turn;
  }

  lemma {:induction false} CrowdState(c: seq<string>, m: nat, limits: Limits)
    requires IsCrowd(c)
    ensures Holds(After(InTurn(c, m), limits), Latest(c, m))
  {
    if m > 0 {
      var k := m - 1;
      CrowdState(c, k, limits);
      NextIsForgotten(c, k);
      LatestOn(c, k);
      InTurnFront(c, m);
      hide Holds, Turn, InTurn, Latest, IsCrowd, AfterCheck;
      NewPartner(After(InTurn(c, k), limits), Latest(c, k), Turn(c, k), limits(Turn(c, k)));
    }
  }

  /** In turn, everybody is admitted every time. */
  lemma CrowdIsAdmitted(c: seq<string>, m: nat, limits: Limits)
    requires IsCrowd(c) && m > 0
    ensures |InTurn(c, m)| > 0 && LastAdmitted(InTurn(c, m), limits)
  {
    var k := m - 1;
    CrowdState(c, k, limits);
    NextIsForgotten(c, k);
    InTurnFront(c, m);
    hide Holds, Turn, InTurn, Latest, IsCrowd, AfterCheck;
    NewPartner(After(InTurn(c, k), limits), Latest(c, k), Turn(c, k), limits(Turn(c, k)));
  }

  lemma FirstsTurn(c: seq<string>, k: nat)
    requires IsCrowd(c)
    ensures Turn(c, k) == c[0] <==> k % CROWD == 0
    ensures (k + 1 + REMEMBERED) / CROWD == (k + REMEMBERED) / CROWD + (if k % CROWD == 0 then 1 else 0)
  {
    assert k % CROWD > 0 ==> c[0] != c[k % CROWD];
  }

  /** One more request at instant zero, admitted. */
  lemma OneMoreAtZero(rs: seq<Request>, front: seq<Request>, asking: string, limits: Limits, partner: string)
    requires rs != [] && front == rs[..|rs| - 1] && rs[|rs| - 1] == Request(asking, 0) && LastAdmitted(rs, limits)
    requires LastStart(front, partner) == None || LastStart(front, partner) == Some(0)
    ensures var more := if asking == partner then 1 else 0;
            && Admitted(rs, limits, partner, 0) == Admitted(front, limits, partner, 0) + more
            && CallsFrom(rs, partner, 0) == CallsFrom(front, partner, 0) + more
    ensures LastStart(rs, partner) == if asking == partner then Some(0) else LastStart(front, partner)
  {
    hide LastAdmitted;
  }

  /** How often the first of the crowd has had its turn. */
  lemma {:induction false} FirstsTurns(c: seq<string>, m: nat, limits: Limits)
    requires IsCrowd(c)
    ensures Admitted(InTurn(c, m), limits, c[0], 0) == CallsFrom(InTurn(c, m), c[0], 0) == (m + REMEMBERED) / CROWD
    ensures LastStart(InTurn(c, m), c[0]) == if m == 0 then None else Some(0)
  {
    if m > 0 {
      var k := m - 1;
      FirstsTurns(c, k, limits);
      CrowdIsAdmitted(c, m, limits);
      InTurnFront(c, m);
      FirstsTurn(c, k);
      FirstStarts(c, k);
      hide Turn, InTurn, LastAdmitted, IsCrowd, After, Admitted, CallsFrom, LastStart;
      OneMoreAtZero(InTurn(c, m), InTurn(c, k), Turn(c, k), limits, c[0]);
    }
  }

  lemma FirstStarts(c: seq<string>, k: nat)
    requires |c| == CROWD
    ensures k == 0 ==> Turn(c, k) == c[0]
  {
  }

  lemma {:induction false} InTurnAtOnce(c: seq<string>, m: nat)
    requires |c| == CROWD
    ensures |InTurn(c, m)| == m && AllFrom(InTurn(c, m), set name | name in c)
    ensures forall i :: 0 <= i < m ==> InTurn(c, m)[i].at == 0
    ensures Monotone(InTurn(c, m))
  {
    if m > 0 {
      InTurnAtOnce(c, m - 1);
      assert Turn(c, m - 1) in c;
    }
  }

  lemma WholeRounds(n: nat)
    ensures (CROWD * n + REMEMBERED) / CROWD == n
  {
    assert CROWD == 21;
    assert (21 * n + 20) / 21 == n;
  }

  /**
   * Twenty-one partners undo both bounds: asking in turn they evict one another, so for every limit
   * and every `n` a run of theirs admits `n` requests of one partner at one instant, all of them in
   * what would be one window.
   */
  lemma TwentyOneUndoTheBounds(c: seq<string>, limits: Limits, n: nat)
    requires IsCrowd(c)
    ensures var rs := InTurn(c, CROWD * n);
            && Monotone(rs) && AllFrom(rs, set name | name in c)
            && Admitted(rs, limits, c[0], 0) == CallsFrom(rs, c[0], 0) == n
            && (n > 0 ==> LastStart(rs, c[0]) == Some(0))
  {
    InTurnAtOnce(c, CROWD * n);
    FirstsTurns(c, CROWD * n, limits);
    WholeRounds(n);
    hide *;
  }

  /** Such partners there are: the first twenty-one numerals. */
  function SomeCrowd(): (c: seq<string>)
    ensures IsCrowd(c)
  {
    var c := seq(CROWD, (k: int) requires 0 <= k => Numerals.Numeral(k, 10));
    assert NoRepeats(c) by {
      forall i, j | 0 <= i < j < CROWD ensures c[i] != c[j] {
        if c[i] == c[j] {
          Numerals.NumeralInjective(i, j, 10);
        }
      }
    }
    c
  }
}
