/** Reads split over several round trips, against one unsplit read: storage slots, events, shadow accounts. */
module PagedReads {
  import opened Wrappers

  // ---- read_slots: batches of storage reads ----

  /** One response of a batch: a storage value, or a response of another type. */
  datatype Response = GetStorageAt(value: nat) | Unexpected

  /** The node's answer to the k-th round trip. */
  type Batches = (nat, seq<nat>) -> Result<seq<Response>>

  /** A batch is answered request by request, from storage pinned to one block. */
  ghost predicate Answers(send: Batches, storage: nat -> nat) {
    forall k, slots :: send(k, slots).Ok? ==>
                         var responses := send(k, slots).value;
                         |responses| == |slots|
                         && forall i :: 0 <= i < |slots| ==>
                              responses[i] == GetStorageAt(storage(slots[i])) || responses[i] == Unexpected
  }

  function ReadEach(slots: seq<nat>, storage: nat -> nat): (values: seq<nat>)
    ensures |values| == |slots| && forall i :: 0 <= i < |slots| ==> values[i] == storage(slots[i])
  {
    seq(|slots|, i requires 0 <= i < |slots| => storage(slots[i]))
  }

  predicate AllStorage(responses: seq<Response>) {
    forall i :: 0 <= i < |responses| ==> responses[i].GetStorageAt?
  }

  /** `batch_read`. */
  method BatchRead(k: nat, slots: seq<nat>, send: Batches) returns (r: Result<seq<nat>>)
    ensures r.Ok? <==> send(k, slots).Ok? && AllStorage(send(k, slots).value)
    ensures r.Ok? ==> |r.value| == |send(k, slots).value|
                      && forall i :: 0 <= i < |r.value| ==> send(k, slots).value[i] == GetStorageAt(r.value[i])
  {
    var reply := send(k, slots);
    if reply.Err? {
      return Err(reply.error);
    }
    var values: seq<nat> := [];
    for i := 0 to |reply.value|
      invariant |values| == i && forall j :: 0 <= j < i ==> reply.value[j] == GetStorageAt(values[j])
    {
      if reply.value[i].Unexpected? {
        return Err("unexpected response type from batch request");
      }
      values := values + [reply.value[i].value];
    }
    return Ok(values);
  }

  /** `slots.chunks(size)`: all but the last of full size. */
  function Chunks(slots: seq<nat>, size: nat): seq<seq<nat>>
    requires size > 0
  {
    if slots == [] then []
    else if |slots| <= size then [slots]
    else [slots[..size]] + Chunks(slots[size..], size)
  }

  function Joined(chunks: seq<seq<nat>>): seq<nat> {
    if chunks == [] then [] else Joined(chunks[..|chunks| - 1]) + chunks[|chunks| - 1]
  }

  lemma {:induction false} JoinedFront(first: seq<nat>, chunks: seq<seq<nat>>)
    ensures Joined([first] + chunks) == first + Joined(chunks)
  {
    if chunks == [] {
      assert [first] + chunks == [first] && [first][..0] == [];
    } else {
      var all := [first] + chunks;
      assert all[..|all| - 1] == [first] + chunks[..|chunks| - 1];
      JoinedFront(first, chunks[..|chunks| - 1]);
    }
  }

  /** The chunks are the slots in order, each of at most the batch size. */
  lemma {:induction false} ChunksJoin(slots: seq<nat>, size: nat)
    requires size > 0
    ensures Joined(Chunks(slots, size)) == slots
    ensures forall k :: 0 <= k < |Chunks(slots, size)| ==> 0 < |Chunks(slots, size)[k]| <= size
    decreases |slots|
  {
    if slots == [] {
    } else if |slots| <= size {
      assert [slots][..0] == [];
    } else {
      ChunksJoin(slots[size..], size);
      JoinedFront(slots[..size], Chunks(slots[size..], size));
      assert slots == slots[..size] + slots[size..];
    }
  }

  predicate BatchSucceeds(send: Batches, k: nat, chunk: seq<nat>) {
    send(k, chunk).Ok? && AllStorage(send(k, chunk).value)
  }

  predicate AllSucceed(send: Batches, chunks: seq<seq<nat>>) {
    forall k :: 0 <= k < |chunks| ==> BatchSucceeds(send, k, chunks[k])
  }

  method ReadChunks(chunks: seq<seq<nat>>, send: Batches, ghost storage: nat -> nat) returns (r: Result<seq<nat>>)
    requires Answers(send, storage)
    ensures r.Ok? <==> AllSucceed(send, chunks)
    ensures r.Ok? ==> r.value == ReadEach(Joined(chunks), storage)
  {
    var results: seq<nat> := [];
    for k := 0 to |chunks|
      invariant results == ReadEach(Joined(chunks[..k]), storage)
      invariant forall m :: 0 <= m < k ==> BatchSucceeds(send, m, chunks[m])
    {
      var read := BatchRead(k, chunks[k], send);
      if read.Err? {
        assert !BatchSucceeds(send, k, chunks[k]);
        return Err(read.error);
      }
      assert chunks[..k + 1][..k] == chunks[..k];
      assert read.value == ReadEach(chunks[k], storage);
      results := results + read.value;
    }
    assert chunks[..|chunks|] == chunks;
    return Ok(results);
  }

  /**
   * `read_slots`: a single slot in one plain read, more in batches of `max_batch_size`. What it
   * returns is what reading the slots one by one would, and it fails exactly when a round trip does.
   */
  method ReadSlots(slots: seq<nat>, maxBatchSize: nat, readSlot: nat -> Result<nat>, send: Batches,
                   ghost storage: nat -> nat)
    returns (r: Result<seq<nat>>)
    requires Answers(send, storage)
    requires forall s :: readSlot(s).Ok? ==> readSlot(s).value == storage(s)
    ensures r.Ok? ==> r.value == ReadEach(slots, storage)
    ensures |slots| == 0 ==> r == Ok([])
    ensures |slots| == 1 ==> (r.Ok? <==> readSlot(slots[0]).Ok?)
    ensures |slots| > 1 && maxBatchSize == 0 ==> r.Err?
    ensures |slots| > 1 && maxBatchSize > 0 ==> (r.Ok? <==> AllSucceed(send, Chunks(slots, maxBatchSize)))
  {
    if |slots| == 0 {
      return Ok([]);
    }
    if |slots| == 1 {
      var one := readSlot(slots[0]);
      return if one.Ok? then Ok([one.value]) else Err(one.error);
    }
    if maxBatchSize == 0 {
      return Err("chunk size must be non-zero");
    }
    ChunksJoin(slots, maxBatchSize);
    r := ReadChunks(Chunks(slots, maxBatchSize), send, storage);
  }

  // ---- get_events: pages of a node's event scan ----

  /** An event as the node emits it: pre-confirmed ones may come without a block number. */
  datatype Emitted = Emitted(blockNumber: Option<nat>, keys: seq<nat>, data: seq<nat>)

  /** For each key position the accepted values; an empty set of values accepts any. */
  type Filter = seq<seq<nat>>

  /** The contract of the trait, as the in-memory backend decides it. */
  predicate Matches(e: Emitted, keys: Filter) {
    forall i :: 0 <= i < |keys| ==> keys[i] == [] || (i < |e.keys| && e.keys[i] in keys[i])
  }

  /** A node that wants a key at every position of the filter, wildcard or not. */
  predicate MatchesStrictly(e: Emitted, keys: Filter) {
    |e.keys| >= |keys| && Matches(e, keys)
  }

  /** A node's matching, trusted only on filters that do not end in a wildcard. */
  type NodeMatching = (Emitted, Filter) -> bool

  ghost predicate RightOnTrimmed(matching: NodeMatching) {
    forall e, keys :: keys == [] || keys[|keys| - 1] != [] ==> matching(e, keys) == Matches(e, keys)
  }

  function Trimmed(keys: Filter): (t: Filter)
    ensures t == [] || t[|t| - 1] != []
    ensures t <= keys && forall i :: |t| <= i < |keys| ==> keys[i] == []
  {
    if keys == [] || keys[|keys| - 1] != [] then keys else Trimmed(keys[..|keys| - 1])
  }

  lemma TrimmingKeepsMatches(e: Emitted, keys: Filter)
    ensures Matches(e, Trimmed(keys)) == Matches(e, keys)
  {
    var t := Trimmed(keys);
    assert forall i :: 0 <= i < |t| ==> t[i] == keys[i];
  }

  lemma StrictNodesQualify(e: Emitted, keys: Filter)
    requires keys == [] || keys[|keys| - 1] != []
    ensures MatchesStrictly(e, keys) == Matches(e, keys)
  {
    if keys != [] && Matches(e, keys) {
      var last := |keys| - 1;
      assert keys[last] == [] || (last < |e.keys| && e.keys[last] in keys[last]);
    }
  }

  /** Without trimming a strict node misses events: a trailing wildcard asks for a key that is not there. */
  lemma TrimmingIsNeeded(selector: nat)
    ensures var e := Emitted(None, [selector], []);
            Matches(e, [[selector], []]) && !MatchesStrictly(e, [[selector], []])
  {
    var keys: Filter := [[selector], []];
    assert keys[0] == [selector] && keys[1] == [];
  }

  function Select(stored: seq<Emitted>, p: Emitted -> bool): seq<Emitted> {
    if stored == [] then []
    else Select(stored[..|stored| - 1], p) + (if p(stored[|stored| - 1]) then [stored[|stored| - 1]] else [])
  }

  function Patch(e: Emitted, blockNumber: nat): Emitted {
    if e.blockNumber.None? then e.(blockNumber := Some(blockNumber)) else e
  }

  function Patched(es: seq<Emitted>, blockNumber: nat): (r: seq<Emitted>)
    ensures |r| == |es| && forall i :: 0 <= i < |es| ==> r[i] == Patch(es[i], blockNumber)
  {
    seq(|es|, i requires 0 <= i < |es| => Patch(es[i], blockNumber))
  }

  function Matching(keys: Filter): Emitted -> bool {
    (e: Emitted) => Matches(e, keys)
  }

  /**
   * `es` are the stored events that match, each once and in order, an absent block number filled in;
   * `places` says where they are stored.
   */
  ghost predicate IsAnswer(es: seq<Emitted>, stored: seq<Emitted>, keys: Filter, blockNumber: nat, places: seq<nat>) {
    && |places| == |es|
    && (forall j, k :: 0 <= j < k < |places| ==> places[j] < places[k])
    && (forall k :: 0 <= k < |places| ==> places[k] < |stored|)
    && (forall i: nat :: i < |stored| ==> (i in places <==> Matches(stored[i], keys)))
    && (forall k :: 0 <= k < |es| ==>
          && es[k].keys == stored[places[k]].keys && es[k].data == stored[places[k]].data
          && es[k].blockNumber == if stored[places[k]].blockNumber == None then Some(blockNumber)
                                  else stored[places[k]].blockNumber)
  }

  /** The selected events at their places. */
  ghost predicate Placed(es: seq<Emitted>, stored: seq<Emitted>, p: Emitted -> bool, places: seq<nat>) {
    && |places| == |es|
    && (forall j, k :: 0 <= j < k < |places| ==> places[j] < places[k])
    && (forall k :: 0 <= k < |places| ==> places[k] < |stored| && es[k] == stored[places[k]])
    && (forall i: nat :: i < |stored| ==> (i in places <==> p(stored[i])))
  }

  lemma {:induction false} SelectPlaced(stored: seq<Emitted>, p: Emitted -> bool) returns (places: seq<nat>)
    ensures Placed(Select(stored, p), stored, p, places)
  {
    if stored == [] {
      places := [];
    } else {
      var n := |stored| - 1;
      var before := SelectPlaced(stored[..n], p);
      places := PlacedOn(Select(stored[..n], p), stored, p, before);
    }
  }

  lemma PlacedOn(es: seq<Emitted>, stored: seq<Emitted>, p: Emitted -> bool, before: seq<nat>)
    returns (places: seq<nat>)
    requires stored != [] && Placed(es, stored[..|stored| - 1], p, before)
    ensures Placed(es + (if p(stored[|stored| - 1]) then [stored[|stored| - 1]] else []), stored, p, places)
  {
    var n := |stored| - 1;
    var front := stored[..n];
    assert forall i :: 0 <= i < n ==> front[i] == stored[i];
    if p(stored[n]) {
      places := before + [n];
      assert forall i :: i in places <==> i in before || i == n;
    } else {
      places := before;
      assert es + [] == es;
    }
    forall i: nat | i < |stored| ensures i in places <==> p(stored[i]) {
      if i < n {
        assert i in before <==> p(front[i]);
      } else {
        assert i !in before;
      }
    }
  }

  lemma SelectedPlaces(stored: seq<Emitted>, keys: Filter, blockNumber: nat) returns (places: seq<nat>)
    ensures IsAnswer(Patched(Select(stored, Matching(keys)), blockNumber), stored, keys, blockNumber, places)
  {
    places := SelectPlaced(stored, Matching(keys));
    hide Select, Matches;
  }

  /** One page, and the token of the next if there is one; a token is opaque to the client. */
  datatype Page<T> = Page(events: seq<Emitted>, continuation: Option<T>)

  /** The node's scan for a filter: what each token fetches, or an error. */
  type Pages<!T> = (Filter, Option<T>) -> Result<Page<T>>

  /** Where a token resumes the scan: how many stored events are behind it, and how much scanning is ahead. */
  datatype Scan = Scan(at: nat, ahead: nat)

  function Resumes<T>(scan: T -> Scan, whole: nat, token: Option<T>): Scan {
    if token.None? then Scan(0, whole) else scan(token.value)
  }

  /**
   * A page holds the matching events of the stretch it scans, none perhaps. It continues where the
   * stretch ends, with less left to scan, or has scanned everything.
   */
  ghost predicate PageFits<T>(page: Page<T>, resumes: Scan, scan: T -> Scan, stored: seq<Emitted>, p: Emitted -> bool) {
    var to := if page.continuation.Some? then scan(page.continuation.value).at else |stored|;
    && resumes.at <= to <= |stored| && page.events == Select(stored[resumes.at..to], p)
    && (page.continuation.Some? ==> scan(page.continuation.value).ahead < resumes.ahead)
  }

  function Accepted(matching: NodeMatching, keys: Filter): Emitted -> bool {
    (e: Emitted) => matching(e, keys)
  }

  /** The node serves every filter in such pages, from each of its tokens. */
  ghost predicate PagesCut<T(!new)>(pages: Pages<T>, matching: NodeMatching, scan: T -> Scan, whole: nat,
                                    stored: seq<Emitted>) {
    forall keys, token ::
      pages(keys, token).Ok? && Resumes(scan, whole, token).at <= |stored| ==>
        PageFits(pages(keys, token).value, Resumes(scan, whole, token), scan, stored, Accepted(matching, keys))
  }

  lemma {:induction false} SelectSame(stored: seq<Emitted>, p: Emitted -> bool, q: Emitted -> bool)
    requires forall e :: p(e) == q(e)
    ensures Select(stored, p) == Select(stored, q)
  {
    if stored != [] { SelectSame(stored[..|stored| - 1], p, q); }
  }

  lemma {:induction false} SelectConcat(a: seq<Emitted>, b: seq<Emitted>, p: Emitted -> bool)
    ensures Select(a + b, p) == Select(a, p) + Select(b, p)
  {
    if b == [] {
      assert a + b == a;
    } else {
      assert (a + b)[..|a + b| - 1] == a + b[..|b| - 1];
      SelectConcat(a, b[..|b| - 1], p);
    }
  }

  /** What a stretch of the scan adds to what was selected before it. */
  lemma SelectUpTo(stored: seq<Emitted>, at: nat, to: nat, p: Emitted -> bool)
    requires at <= to <= |stored|
    ensures Select(stored[..to], p) == Select(stored[..at], p) + Select(stored[at..to], p)
  {
    assert stored[..to] == stored[..at] + stored[at..to];
    SelectConcat(stored[..at], stored[at..to], p);
  }

  /** On the trimmed filter the node selects what the original filter matches. */
  lemma NodeSelects(matching: NodeMatching, stored: seq<Emitted>, keys: Filter)
    requires RightOnTrimmed(matching)
    ensures Select(stored, Accepted(matching, Trimmed(keys))) == Select(stored, Matching(keys))
  {
    forall e ensures matching(e, Trimmed(keys)) == Matches(e, keys) {
      TrimmingKeepsMatches(e, keys);
    }
    SelectSame(stored, Accepted(matching, Trimmed(keys)), Matching(keys));
  }

  /** The tokens of a paging loop: none at first, then each the continuation of the page before. */
  ghost predicate Followed<T>(pages: Pages<T>, filter: Filter, tokens: seq<Option<T>>) {
    tokens != [] && tokens[0] == None
    && forall i :: 0 < i < |tokens| ==> Continues(pages, filter, tokens[i - 1], tokens[i])
  }

  ghost predicate Continues<T>(pages: Pages<T>, filter: Filter, token: Option<T>, next: Option<T>) {
    pages(filter, token).Ok? && next.Some? && next == pages(filter, token).value.continuation
  }

  lemma FollowedOn<T>(pages: Pages<T>, filter: Filter, tokens: seq<Option<T>>, next: Option<T>)
    requires Followed(pages, filter, tokens) && Continues(pages, filter, tokens[|tokens| - 1], next)
    ensures Followed(pages, filter, tokens + [next])
  {
    hide Continues;
    var all := tokens + [next];
    forall i | 0 < i < |all| ensures Continues(pages, filter, all[i - 1], all[i]) {
      if i < |tokens| {
        assert all[i - 1] == tokens[i - 1] && all[i] == tokens[i];
      }
    }
  }

  /** A page adds the events of its stretch, and leaves less to scan if it continues. */
  lemma PageAdds<T(!new)>(pages: Pages<T>, matching: NodeMatching, scan: T -> Scan, whole: nat, stored: seq<Emitted>,
                          filter: Filter, token: Option<T>)
    requires PagesCut(pages, matching, scan, whole, stored)
    requires pages(filter, token).Ok? && Resumes(scan, whole, token).at <= |stored|
    ensures var page, from, p := pages(filter, token).value, Resumes(scan, whole, token), Accepted(matching, filter);
            var next := page.continuation;
            && (next.Some? ==>
                  && scan(next.value).at <= |stored| && scan(next.value).ahead < from.ahead
                  && Select(stored[..scan(next.value).at], p) == Select(stored[..from.at], p) + page.events)
            && (next.None? ==> Select(stored, p) == Select(stored[..from.at], p) + page.events)
  {
    var page, from, p := pages(filter, token).value, Resumes(scan, whole, token), Accepted(matching, filter);
    assert PageFits(page, from, scan, stored, p);
    hide PagesCut, Accepted, Select;
    var to := if page.continuation.Some? then scan(page.continuation.value).at else |stored|;
    SelectUpTo(stored, from.at, to, p);
    assert stored[..|stored|] == stored;
  }

  method StripTrailing(keys: Filter) returns (filter: Filter)
    ensures filter == Trimmed(keys)
  {
    var end := |keys|;
    assert keys[..|keys|] == keys;
    while end > 0 && keys[end - 1] == []
      invariant 0 <= end <= |keys| && Trimmed(keys[..end]) == Trimmed(keys)
    {
      assert keys[..end][..end - 1] == keys[..end - 1];
      end := end - 1;
    }
    filter := keys[..end];
  }

  /**
   * `get_events`: every page of the trimmed filter, with missing block numbers filled in. It returns,
   * in order, exactly the events of the range the original filter matches, and it fails exactly when
   * the last page it asks for does.
   */
  method GetEvents<T(!new)>(keys: Filter, blockNumber: nat, pages: Pages<T>,
                            ghost matching: NodeMatching, ghost scan: T -> Scan, ghost whole: nat,
                            ghost stored: seq<Emitted>)
    returns (r: Result<seq<Emitted>>, ghost asked: seq<Option<T>>)
    requires RightOnTrimmed(matching) && PagesCut(pages, matching, scan, whole, stored)
    ensures r.Ok? ==> exists places :: IsAnswer(r.value, stored, keys, blockNumber, places)
    ensures Followed(pages, Trimmed(keys), asked)
    ensures r.Ok? <==> pages(Trimmed(keys), asked[|asked| - 1]).Ok?
    ensures r.Ok? ==> pages(Trimmed(keys), asked[|asked| - 1]).value.continuation == None
  {
    var filter := StripTrailing(keys);
    ghost var p := Accepted(matching, filter);
    NodeSelects(matching, stored, keys);
    hide RightOnTrimmed, PagesCut, Matching, Accepted, Trimmed, Select, Followed, Patched;
    var allEvents: seq<Emitted> := [];
    var token: Option<T> := None;
    asked := [None];
    FollowedFirst(pages, filter);
    SelectNothing(stored, p);
    while true
      invariant Resumes(scan, whole, token).at <= |stored|
      invariant allEvents == Select(stored[..Resumes(scan, whole, token).at], p)
      invariant Followed(pages, filter, asked) && asked[|asked| - 1] == token
      decreases Resumes(scan, whole, token).ahead
    {
      var page := pages(filter, token);
      if page.Err? {
        return Err(page.error), asked;
      }
      PageAdds(pages, matching, scan, whole, stored, filter, token);
      allEvents := allEvents + page.value.events;
      if page.value.continuation.None? {
        break;
      }
      FollowedOn(pages, filter, asked, page.value.continuation);
      token := page.value.continuation;
      asked := asked + [token];
    }
    ghost var places := SelectedPlaces(stored, keys, blockNumber);
    assert stored[..|stored|] == stored;
    return Ok(Patched(allEvents, blockNumber)), asked;
  }

  lemma FollowedFirst<T>(pages: Pages<T>, filter: Filter)
    ensures Followed(pages, filter, [None])
  {
  }

  lemma SelectNothing(stored: seq<Emitted>, p: Emitted -> bool)
    ensures Select(stored[..0], p) == []
  {
  }

  // ---- resolveShadowAccounts: windows of one view ----

  const MAX_SCAN_RANGE: nat := 1024
  const DEFAULT_ADDRESS_RANGE_END: nat := 100

  datatype Info = Info(address: nat, deployed: bool)

  /** The view over `[from, to)`: every account, or the deployed prefix before the first undeployed one. */
  function View(account: int -> Info, from: int, to: int, untilUndeployed: bool): (infos: seq<Info>)
    decreases to - from
    ensures |infos| <= if from < to then to - from else 0
    ensures !untilUndeployed && from <= to ==> |infos| == to - from
  {
    if from >= to || (untilUndeployed && !account(from).deployed) then []
    else [account(from)] + View(account, from + 1, to, untilUndeployed)
  }

  /** `infos` are the accounts from `from` on. */
  predicate Lists(account: int -> Info, from: int, infos: seq<Info>) {
    forall i :: 0 <= i < |infos| ==> infos[i] == account(from + i)
  }

  predicate AllDeployed(infos: seq<Info>) {
    forall i :: 0 <= i < |infos| ==> infos[i].deployed
  }

  /** The view lists consecutive accounts; with `untilUndeployed`, the longest deployed prefix of the range. */
  lemma {:induction false} ViewIsThePrefix(account: int -> Info, from: int, to: int, untilUndeployed: bool)
    ensures Lists(account, from, View(account, from, to, untilUndeployed))
    ensures untilUndeployed ==> AllDeployed(View(account, from, to, untilUndeployed))
    ensures var stop := from + |View(account, from, to, untilUndeployed)|;
            untilUndeployed && stop < to ==> !account(stop).deployed
    decreases (to - from)
  {
    if from < to && !(untilUndeployed && !account(from).deployed) {
      ViewIsThePrefix(account, from + 1, to, untilUndeployed);
      var rest := View(account, from + 1, to, untilUndeployed);
      var all := [account(from)] + rest;
      forall i | 0 <= i < |all| ensures all[i] == account(from + i) {
        if i > 0 {
          var k := i - 1;
          assert all[i] == rest[k] == account(from + 1 + k);
        }
      }
    }
  }

  /** The contract's own view refuses a span beyond its scan range. */
  function GetShadowAccounts(account: int -> Info, from: int, to: int, untilUndeployed: bool): seq<Info>
    requires to - from <= MAX_SCAN_RANGE
  {
    View(account, from, to, untilUndeployed)
  }

  lemma {:induction false} ViewSplits(account: int -> Info, from: int, mid: int, to: int, untilUndeployed: bool)
    requires from <= mid <= to
    ensures View(account, from, to, untilUndeployed) ==
            if |View(account, from, mid, untilUndeployed)| < mid - from then View(account, from, mid, untilUndeployed)
            else View(account, from, mid, untilUndeployed) + View(account, mid, to, untilUndeployed)
    decreases mid - from
  {
    if from < mid && !(untilUndeployed && !account(from).deployed) {
      ViewSplits(account, from + 1, mid, to, untilUndeployed);
    }
  }

  /** After a window: it ends the view, or the view goes on where the window ended. */
  lemma NextWindow(account: int -> Info, infos: seq<Info>, window: seq<Info>, from: int, to: int, end: int, until: bool)
    requires from < end && to == if from + MAX_SCAN_RANGE < end then from + MAX_SCAN_RANGE else end
    requires window == View(account, from, to, until)
    requires View(account, from, end, until) ==
             if |window| < to - from then window else window + View(account, to, end, until)
    ensures |window| < to - from ==> until && infos + window == infos + View(account, from, end, until)
    ensures |window| == to - from ==>
              (infos + window) + View(account, from + MAX_SCAN_RANGE, end, until)
              == infos + View(account, from, end, until)
  {
    if |window| == to - from {
      assert View(account, from + MAX_SCAN_RANGE, end, until) == View(account, to, end, until);
      assert infos + (window + View(account, to, end, until)) == (infos + window) + View(account, to, end, until);
    }
  }

  lemma NothingLeft(account: int -> Info, infos: seq<Info>, from: int, end: int, until: bool)
    requires from >= end
    ensures infos + View(account, from, end, until) == infos
  {
  }

  /** `resolveShadowAccounts`: windows of at most the scan range, agreeing with one view over the whole range. */
  method ResolveShadowAccounts(account: int -> Info, rangeStart: Option<int>, rangeEnd: Option<int>,
                               untilUndeployed: Option<bool>)
    returns (infos: seq<Info>)
    ensures var start := if rangeStart.Some? then rangeStart.value else 0;
            var end := if rangeEnd.Some? then rangeEnd.value else start + 100;
            infos == View(account, start, end, untilUndeployed == Some(true))
  {
    var start := if rangeStart.Some? then rangeStart.value else 0;
    var end := if rangeEnd.Some? then rangeEnd.value else start + DEFAULT_ADDRESS_RANGE_END;
    var until := if untilUndeployed.Some? then untilUndeployed.value else false;
    infos := [];
    var from := start;
    while from < end
      invariant infos + View(account, from, end, until) == View(account, start, end, until)
    {
      var to := if from + MAX_SCAN_RANGE < end then from + MAX_SCAN_RANGE else end;
      var window := GetShadowAccounts(account, from, to, until);
      ViewSplits(account, from, to, end, until);
      NextWindow(account, infos, window, from, to, end, until);
      infos := infos + window;
      if until && |window| < to - from {
        break;
      }
      from := from + MAX_SCAN_RANGE;
      if from >= end {
        NothingLeft(account, infos, from, end, until);
      }
    }
  }
}
