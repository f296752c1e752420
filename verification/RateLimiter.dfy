/**
 * The per-partner fixed-window rate limiter: an LRU map of counters, each restarted a minute after
 * it began. One monotone clock serves the windows and the cache's time to live.
 */
module RateLimiter {
  import opened Wrappers

  const WINDOW_MS: nat := 60_000
  const MAX_PARTNERS: nat := 20

  // ---- the limiter as a value ----

  datatype Count = Count(count: nat, windowStart: int)

  /** The cache's entries, and its keys from least to most recently used. */
  datatype Limiter = Limiter(windows: map<string, Count>, recency: seq<string>)

  function Without(s: seq<string>, key: string): (r: seq<string>)
    ensures forall k :: k in r <==> k in s && k != key
  {
    if s == [] then []
    else if s[0] == key then Without(s[1..], key)
    else [s[0]] + Without(s[1..], key)
  }

  /** What `get` finds: an entry older than the time to live is dropped. */
  function Found(m: Limiter, partner: string, now: int): Option<Count> {
    if partner in m.windows && now - m.windows[partner].windowStart <= WINDOW_MS then Some(m.windows[partner]) else None
  }

  function AfterGet(m: Limiter, partner: string, now: int): Limiter {
    if partner !in m.windows then m
    else if Found(m, partner, now).Some? then m.(recency := Without(m.recency, partner) + [partner])
    else Limiter(m.windows - {partner}, Without(m.recency, partner))
  }

  /** `set`: the least recently used entry makes room for a new key. */
  function AfterSet(m: Limiter, partner: string, window: Count): Limiter {
    if partner in m.windows then Limiter(m.windows[partner := window], Without(m.recency, partner) + [partner])
    else if |m.recency| >= MAX_PARTNERS
    then Limiter((m.windows - {m.recency[0]})[partner := window], m.recency[1..] + [partner])
    else Limiter(m.windows[partner := window], m.recency + [partner])
  }

  /** What a partner's own counter decides. */
  predicate Admits(found: Option<Count>, limit: int, now: int) {
    found.None? || now - found.value.windowStart >= WINDOW_MS || found.value.count < limit
  }

  function Advanced(found: Option<Count>, limit: int, now: int): Count {
    if found.None? || now - found.value.windowStart >= WINDOW_MS then Count(1, now)
    else if found.value.count >= limit then found.value
    else found.value.(count := found.value.count + 1)
  }

  function AfterCheck(m: Limiter, partner: string, limit: int, now: int): Limiter {
    var found, got := Found(m, partner, now), AfterGet(m, partner, now);
    if found.None? || now - found.value.windowStart >= WINDOW_MS then AfterSet(got, partner, Count(1, now))
    else got.(windows := got.windows[partner := Advanced(found, limit, now)])
  }

  // ---- the class ----

  class Window {
    var count: nat
    const windowStart: int

    constructor (count: nat, windowStart: int)
      ensures this.count == count && this.windowStart == windowStart
    {
      this.count, this.windowStart := count, windowStart;
    }
  }

  class RateLimiter {
    var windows: map<string, Window>
    var recency: seq<string>

    ghost function Repr(): set<object>
      reads this
    {
      set k | k in windows :: windows[k]
    }

    /** No two partners share a counter. */
    ghost predicate Unshared()
      reads this
    {
      forall j, k :: j in windows && k in windows && windows[j] == windows[k] ==> j == k
    }

    ghost function State(): Limiter
      reads this, Repr()
    {
      Limiter(map k | k in windows :: Count(windows[k].count, windows[k].windowStart), recency)
    }

    constructor ()
      ensures Unshared() && State() == Limiter(map[], []) && Repr() == {}
    {
      windows, recency := map[], [];
    }

    method Get(partner: string, now: int) returns (window: Window?)
      requires Unshared()
      modifies this
      ensures Unshared() && Repr() <= old(Repr()) && State() == AfterGet(old(State()), partner, now)
      ensures (window == null) == Found(old(State()), partner, now).None?
      ensures window != null ==>
                partner in windows && windows[partner] == window
                && Found(old(State()), partner, now).value == Count(window.count, window.windowStart)
    {
      if partner !in windows {
        return null;
      }
      if now - windows[partner].windowStart > WINDOW_MS {
        windows, recency := windows - {partner}, Without(recency, partner);
        return null;
      }
      recency := Without(recency, partner) + [partner];
      return windows[partner];
    }

    method Set(partner: string, window: Window)
      requires Unshared() && window !in Repr()
      modifies this
      ensures Unshared() && Repr() <= old(Repr()) + {window}
      ensures State() == AfterSet(old(State()), partner, Count(window.count, window.windowStart))
    {
      if partner in windows {
        recency := Without(recency, partner) + [partner];
      } else if |recency| >= MAX_PARTNERS {
        windows, recency := windows - {recency[0]}, recency[1..] + [partner];
      } else {
        recency := recency + [partner];
      }
      windows := windows[partner := window];
    }

    method Check(partner: string, limitPerMinute: int, now: int) returns (admitted: bool)
      requires Unshared()
      modifies this, Repr()
      ensures Unshared() && fresh(Repr() - old(Repr()))
      ensures admitted == Admits(Found(old(State()), partner, now), limitPerMinute, now)
      ensures State() == AfterCheck(old(State()), partner, limitPerMinute, now)
    {
      var window := Get(partner, now);
      if window == null || now - window.windowStart >= WINDOW_MS {
        var begun := new Window(1, now);
        Set(partner, begun);
        return true;
      }
      if window.count >= limitPerMinute {
        return false;
      }
      window.count := window.count + 1;
      return true;
    }
  }
}
