/**
 * The timeline: spans opened and closed through a stack, nested as they are opened. The clock's
 * readings are parameters; only their order matters.
 */
module Timeline {
  import opened Wrappers

  class Span {
    const name: string
    const startMs: int
    /** The span's place in the order of creation. */
    ghost const order: nat
    var endMs: Option<int>
    var children: seq<Span>

    constructor (name: string, startMs: int, ghost order: nat)
      ensures this.name == name && this.startMs == startMs && this.order == order
      ensures endMs == None && children == []
    {
      this.name, this.startMs, this.order := name, startMs, order;
      endMs, children := None, [];
    }
  }

  // ---- the tree as a value ----

  /** A timeline's whole state: its fields, and the fields of every span begun so far. */
  datatype Forest = Forest(
    spans: seq<Span>,
    stack: seq<Span>,
    ends: map<Span, Option<int>>,
    children: map<Span, seq<Span>>,
    born: nat,
    lastMs: int)

  function Last<T>(s: seq<T>): T
    requires s != []
  {
    s[|s| - 1]
  }

  function Front<T>(s: seq<T>): seq<T>
    requires s != []
  {
    s[..|s| - 1]
  }

  predicate Owned(f: Forest) {
    && f.ends.Keys == f.children.Keys
    && (forall i :: 0 <= i < |f.spans| ==> f.spans[i] in f.ends)
    && (forall i :: 0 <= i < |f.stack| ==> f.stack[i] in f.ends)
    && (forall x, i :: x in f.children && 0 <= i < |f.children[x]| ==> f.children[x][i] in f.ends)
  }

  ghost predicate Ordered(f: Forest) {
    && (forall x :: x in f.ends ==> x.order < f.born)
    && (forall x, y :: x in f.ends && y in f.ends && x.order == y.order ==> x == y)
  }

  /** The stack is a path down from the last root, each span its parent's last child. */
  ghost predicate StackIsPath(f: Forest)
    requires Owned(f)
  {
    && (f.stack != [] ==> f.spans != [] && f.stack[0] == Last(f.spans))
    && (forall i :: 0 <= i < |f.stack| - 1 ==>
                      f.children[f.stack[i]] != [] && Last(f.children[f.stack[i]]) == f.stack[i + 1])
    && (forall i, j :: 0 <= i < j < |f.stack| ==> f.stack[i].order < f.stack[j].order)
  }

  /** Exactly the spans off the stack are closed. */
  predicate OpenOnStack(f: Forest) {
    forall x :: x in f.ends ==> (f.ends[x].None? <==> x in f.stack)
  }

  /** A child begins after its parent, and ends no later. */
  ghost predicate Within(f: Forest, c: Span, x: Span)
    requires c in f.ends && x in f.ends
  {
    && x.startMs <= c.startMs && x.order < c.order
    && (f.ends[x].Some? ==> f.ends[c].Some? && f.ends[c].value <= f.ends[x].value)
  }

  ghost predicate Nested(f: Forest)
    requires Owned(f)
  {
    forall x, i :: x in f.children && 0 <= i < |f.children[x]| ==> Within(f, f.children[x][i], x)
  }

  predicate Before(f: Forest, a: Span, b: Span)
    requires a in f.ends
  {
    f.ends[a].Some? && f.ends[a].value <= b.startMs
  }

  /** Siblings are disjoint and in order, roots among them. */
  predicate SiblingsInTurn(f: Forest)
    requires Owned(f)
  {
    && (forall i, j :: 0 <= i < j < |f.spans| ==> Before(f, f.spans[i], f.spans[j]))
    && (forall x, i, j :: x in f.children && 0 <= i < j < |f.children[x]| ==>
                            Before(f, f.children[x][i], f.children[x][j]))
  }

  predicate Timely(f: Forest) {
    forall x :: x in f.ends ==> x.startMs <= f.lastMs && (f.ends[x].Some? ==> x.startMs <= f.ends[x].value <= f.lastMs)
  }

  /** Children are not roots, and no root is listed twice. */
  predicate RootsApart(f: Forest)
    requires Owned(f)
  {
    && (forall i, j :: 0 <= i < j < |f.spans| ==> f.spans[i] != f.spans[j])
    && (forall x, i, k :: x in f.children && 0 <= i < |f.children[x]| && 0 <= k < |f.spans| ==>
                            f.children[x][i] != f.spans[k])
  }

  /** No child is listed twice. */
  predicate ChildrenApart(f: Forest) {
    forall x, y, i, j ::
      (x in f.children && y in f.children && 0 <= i < |f.children[x]| && 0 <= j < |f.children[y]|
       && f.children[x][i] == f.children[y][j])
      ==> x == y && i == j
  }

  /** Everything happens between the first root's start and, once all is closed, the last root's end. */
  predicate Framed(f: Forest)
    requires Owned(f)
  {
    && (f.spans == [] ==> f.ends == map[])
    && (f.spans != [] ==> forall x :: x in f.ends ==> f.spans[0].startMs <= x.startMs)
    && (f.spans != [] && f.stack == [] ==>
          forall x :: x in f.ends && f.ends[x].Some? && f.ends[Last(f.spans)].Some? ==>
                        f.ends[x].value <= f.ends[Last(f.spans)].value)
  }

  ghost predicate Inv(f: Forest) {
    && Owned(f) && Ordered(f) && StackIsPath(f) && OpenOnStack(f) && Nested(f)
    && SiblingsInTurn(f) && Timely(f) && Framed(f)
    && RootsApart(f) && ChildrenApart(f)
  }

  // ---- begin and end, as functions of the state ----

  /** A span put under the one on top of the stack, or among the roots. */
  function Attached(f: Forest, span: Span): Forest
    requires Owned(f)
  {
    if f.stack == [] then f.(spans := f.spans + [span])
    else f.(children := f.children[Last(f.stack) := f.children[Last(f.stack)] + [span]])
  }

  function Began(f: Forest, span: Span): Forest
    requires Owned(f)
  {
    var g := Attached(f, span);
    g.(stack := f.stack + [span], ends := f.ends[span := None], children := g.children[span := []],
       born := f.born + 1, lastMs := span.startMs)
  }

  function Ended(f: Forest, now: int): Forest {
    if f.stack == [] then f
    else f.(stack := Front(f.stack), ends := f.ends[Last(f.stack) := Some(now)], lastMs := now)
  }

  ghost predicate CanBegin(f: Forest, span: Span) {
    span !in f.ends && span.order == f.born && f.lastMs <= span.startMs
  }

  lemma BeginKeepsPlaces(f: Forest, span: Span)
    requires Owned(f) && Ordered(f) && OpenOnStack(f) && CanBegin(f, span)
    ensures Owned(Began(f, span)) && Ordered(Began(f, span)) && OpenOnStack(Began(f, span))
  {
    var g := Began(f, span);
    forall x | x in g.ends ensures g.ends[x].None? <==> x in g.stack {
      assert x in g.stack <==> x in f.stack || x == span;
    }
  }

  lemma BeginKeepsPath(f: Forest, span: Span)
    requires Owned(f) && Ordered(f) && StackIsPath(f) && CanBegin(f, span) && Owned(Began(f, span))
    ensures StackIsPath(Began(f, span))
  {
    var g := Began(f, span);
    forall i | 0 <= i < |g.stack| - 1
      ensures g.children[g.stack[i]] != [] && Last(g.children[g.stack[i]]) == g.stack[i + 1]
    {
      if i + 1 < |f.stack| {
        assert f.stack[i].order < f.stack[i + 1].order <= Last(f.stack).order;
        assert g.stack[i + 1] == f.stack[i + 1];
      } else {
        assert g.stack[i] == Last(f.stack) && g.stack[i + 1] == span;
      }
    }
    forall i, j | 0 <= i < j < |g.stack| ensures g.stack[i].order < g.stack[j].order {
      assert g.stack[i] == f.stack[i] && f.stack[i] in f.ends;
      if j < |f.stack| {
        assert g.stack[j] == f.stack[j];
      }
    }
  }

  lemma BeginKeepsIntervals(f: Forest, span: Span)
    requires Inv(f) && CanBegin(f, span) && Owned(Began(f, span))
    ensures Nested(Began(f, span)) && Timely(Began(f, span)) && Framed(Began(f, span))
  {
    hide RootsApart, ChildrenApart, StackIsPath, SiblingsInTurn;
    var g := Began(f, span);
    forall x, i | x in g.children && 0 <= i < |g.children[x]| ensures Within(g, g.children[x][i], x) {
      if g.children[x][i] != span {
        assert Within(f, f.children[x][i], x);
      }
    }
  }

  /** The children of the span on top are all closed, and so are the roots when nothing is open. */
  lemma OthersClosed(f: Forest)
    requires Inv(f)
    ensures f.stack != [] ==> forall c :: c in f.children[Last(f.stack)] ==> f.ends[c].Some?
    ensures f.stack == [] ==> forall x :: x in f.ends ==> f.ends[x].Some?
  {
    if f.stack != [] {
      forall c | c in f.children[Last(f.stack)] ensures f.ends[c].Some? {
        assert Within(f, c, Last(f.stack));
        assert c !in f.stack;
      }
    }
  }

  /** The siblings of a span begun now are closed by now. */
  predicate SiblingsClosed(f: Forest)
    requires Owned(f)
  {
    && (f.stack != [] ==> forall c :: c in f.children[Last(f.stack)] ==> f.ends[c].Some? && f.ends[c].value <= f.lastMs)
    && (f.stack == [] ==> forall x :: x in f.ends ==> f.ends[x].Some? && f.ends[x].value <= f.lastMs)
  }

  lemma OthersClosedInTime(f: Forest)
    requires Inv(f)
    ensures SiblingsClosed(f)
  {
    OthersClosed(f);
    hide RootsApart, ChildrenApart, Nested, StackIsPath, Ordered, Framed, OpenOnStack, SiblingsInTurn;
  }

  lemma BeginKeepsTurns(f: Forest, span: Span)
    requires Owned(f) && SiblingsInTurn(f) && SiblingsClosed(f) && CanBegin(f, span) && Owned(Began(f, span))
    ensures SiblingsInTurn(Began(f, span))
  {
    var g := Began(f, span);
    forall i, j | 0 <= i < j < |g.spans| ensures Before(g, g.spans[i], g.spans[j]) {
      if j < |f.spans| {
        assert Before(f, f.spans[i], f.spans[j]);
      } else {
        assert g.spans[i] == f.spans[i] && f.spans[i] in f.ends;
      }
    }
    forall x, i, j | x in g.children && 0 <= i < j < |g.children[x]|
      ensures Before(g, g.children[x][i], g.children[x][j]) {
      if j < |f.children[x]| {
        assert Before(f, f.children[x][i], f.children[x][j]);
      } else {
        assert f.children[x][i] in f.children[Last(f.stack)];
      }
    }
  }

  predicate Unlisted(f: Forest, span: Span) {
    && (forall x, i :: x in f.children && 0 <= i < |f.children[x]| ==> f.children[x][i] != span)
    && (forall k :: 0 <= k < |f.spans| ==> f.spans[k] != span)
  }

  lemma BeginKeepsRootsApart(f: Forest, span: Span)
    requires Owned(f) && RootsApart(f) && Unlisted(f, span) && Owned(Began(f, span)) && span !in f.ends
    ensures RootsApart(Began(f, span))
  {
    var g := Began(f, span);
    forall x, i, k | x in g.children && 0 <= i < |g.children[x]| && 0 <= k < |g.spans|
      ensures g.children[x][i] != g.spans[k]
    {
      if k == |f.spans| {
        assert f.stack == [] && g.spans[k] == span && g.children[x] == f.children[x];
      } else if g.children[x][i] != span {
        assert g.children[x][i] == f.children[x][i] && g.spans[k] == f.spans[k];
      }
    }
  }

  lemma BeginKeepsChildrenApart(f: Forest, span: Span)
    requires Owned(f) && ChildrenApart(f) && Unlisted(f, span) && span !in f.ends
    ensures ChildrenApart(Began(f, span))
  {
    var g := Began(f, span);
    forall x, y, i, j | x in g.children && y in g.children && 0 <= i < |g.children[x]| && 0 <= j < |g.children[y]|
                        && g.children[x][i] == g.children[y][j]
      ensures x == y && i == j
    {
      NewChild(f, span, x, i);
      NewChild(f, span, y, j);
    }
  }

  lemma NewChild(f: Forest, span: Span, x: Span, i: nat)
    requires Owned(f) && Unlisted(f, span) && span !in f.ends
    requires x in Began(f, span).children && i < |Began(f, span).children[x]|
    ensures x in f.children
    ensures if i < |f.children[x]| then Began(f, span).children[x][i] == f.children[x][i]
            else f.stack != [] && x == Last(f.stack) && i == |f.children[x]| && Began(f, span).children[x][i] == span
  {
  }

  /** `begin` keeps the timeline well formed. */
  lemma BeginKeeps(f: Forest, span: Span)
    requires Inv(f) && CanBegin(f, span)
    ensures Inv(Began(f, span))
  {
    BeginKeepsPlaces(f, span);
    BeginKeepsIntervals(f, span);
    OthersClosedInTime(f);
    BeginKeepsTurns(f, span);
    BeginKeepsPath(f, span);
    BeginKeepsRootsApart(f, span);
    BeginKeepsChildrenApart(f, span);
  }

  lemma EndKeepsPlaces(f: Forest, now: int)
    requires Owned(f) && Ordered(f)
    ensures Owned(Ended(f, now)) && Ordered(Ended(f, now))
  {
  }

  lemma EndKeepsOpen(f: Forest, now: int)
    requires Owned(f) && OpenOnStack(f) && StackIsPath(f)
    ensures OpenOnStack(Ended(f, now))
  {
    if f.stack != [] {
      var top := Last(f.stack);
      assert f.stack == Front(f.stack) + [top];
      assert top !in Front(f.stack) by {
        forall i | 0 <= i < |f.stack| - 1 ensures Front(f.stack)[i] != top {
          assert f.stack[i].order < f.stack[|f.stack| - 1].order;
        }
      }
      hide StackIsPath;
    }
  }

  lemma EndKeepsPath(f: Forest, now: int)
    requires Owned(f) && StackIsPath(f) && Owned(Ended(f, now))
    ensures StackIsPath(Ended(f, now))
  {
  }

  lemma EndKeepsIntervals(f: Forest, now: int)
    requires Inv(f) && f.lastMs <= now && Owned(Ended(f, now))
    ensures Nested(Ended(f, now)) && Timely(Ended(f, now))
  {
    if f.stack != [] {
      var g, top := Ended(f, now), Last(f.stack);
      OthersClosed(f);
      forall x, i | x in g.children && 0 <= i < |g.children[x]| ensures Within(g, g.children[x][i], x) {
        var c := f.children[x][i];
        assert Within(f, c, x);
        if x == top {
          assert c in f.children[top];
        }
      }
    }
  }

  lemma EndKeepsTurns(f: Forest, now: int)
    requires Inv(f) && f.lastMs <= now && Owned(Ended(f, now))
    ensures SiblingsInTurn(Ended(f, now)) && Framed(Ended(f, now))
  {
    if f.stack != [] {
      var g, top := Ended(f, now), Last(f.stack);
      assert f.ends[top].None?;
      forall i, j | 0 <= i < j < |g.spans| ensures Before(g, g.spans[i], g.spans[j]) {
        assert Before(f, f.spans[i], f.spans[j]);
      }
      forall x, i, j | x in g.children && 0 <= i < j < |g.children[x]|
        ensures Before(g, g.children[x][i], g.children[x][j]) {
        assert Before(f, f.children[x][i], f.children[x][j]);
      }
    }
  }

  /** `end` keeps the timeline well formed. */
  lemma EndKeeps(f: Forest, now: int)
    requires Inv(f) && f.lastMs <= now
    ensures Inv(Ended(f, now))
  {
    EndKeepsPlaces(f, now);
    EndKeepsOpen(f, now);
    EndKeepsPath(f, now);
    EndKeepsIntervals(f, now);
    EndKeepsTurns(f, now);
  }

  // ---- any sequence of calls ----

  datatype Call = BeginCall(span: Span) | EndCall(now: int)

  /** Each `begin` makes a span of its own, and the clock never goes back. */
  ghost predicate CanRun(f: Forest, calls: seq<Call>)
    decreases |calls|
  {
    calls == [] ||
    match calls[0]
    case BeginCall(span) => Owned(f) && CanBegin(f, span) && CanRun(Began(f, span), calls[1..])
    case EndCall(now) => f.lastMs <= now && CanRun(Ended(f, now), calls[1..])
  }

  ghost function AfterCalls(f: Forest, calls: seq<Call>): Forest
    requires CanRun(f, calls)
    decreases |calls|
  {
    if calls == [] then f
    else
      match calls[0]
      case BeginCall(span) => AfterCalls(Began(f, span), calls[1..])
      case EndCall(now) => AfterCalls(Ended(f, now), calls[1..])
  }

  lemma {:induction false} CallsKeep(f: Forest, calls: seq<Call>)
    requires Inv(f) && CanRun(f, calls)
    ensures Inv(AfterCalls(f, calls))
    decreases |calls|
  {
    hide Inv;
    if calls != [] {
      match calls[0]
      case BeginCall(span) =>
        BeginKeeps(f, span);
        CallsKeep(Began(f, span), calls[1..]);
      case EndCall(now) =>
        EndKeeps(f, now);
        CallsKeep(Ended(f, now), calls[1..]);
    }
  }

  function Empty(now: int): Forest {
    Forest([], [], map[], map[], 0, now)
  }

  /** From an empty timeline, any calls of `begin` and `end`, balanced or not, leave a well-formed one. */
  lemma AnyCallsKeep(now: int, calls: seq<Call>)
    requires CanRun(Empty(now), calls)
    ensures Inv(AfterCalls(Empty(now), calls))
  {
    assert Inv(Empty(now));
    CallsKeep(Empty(now), calls);
  }

  // ---- totalMs ----

  function EndOr(f: Forest, x: Span, now: int): int
    requires x in f.ends
  {
    if f.ends[x].Some? then f.ends[x].value else now
  }

  function TotalMs(f: Forest, now: int): int
    requires Owned(f)
  {
    if f.spans == [] then 0 else EndOr(f, Last(f.spans), now) - f.spans[0].startMs
  }

  /** The total is reached: it runs from the start of one span to the end of one, or to now if that is open. */
  lemma TotalIsReached(f: Forest, now: int)
    requires Inv(f)
    ensures f.spans == [] ==> TotalMs(f, now) == 0
    ensures f.spans != [] ==>
              exists x, y :: x in f.ends && y in f.ends
                             && TotalMs(f, now) == (if f.ends[y].Some? then f.ends[y].value else now) - x.startMs
  {
    if f.spans != [] {
      assert f.spans[0] in f.ends && Last(f.spans) in f.ends;
    }
  }

  /** `end` gives the span on top the clock's reading and takes it off the stack; it touches nothing else. */
  lemma EndStampsTop(f: Forest, now: int)
    requires Owned(f)
    ensures var g := Ended(f, now);
            && (f.stack == [] ==> g == f)
            && (f.stack != [] ==>
                  var top := f.stack[|f.stack| - 1];
                  && g.ends.Keys == f.ends.Keys && g.ends[top] == Some(now) && f.stack == g.stack + [top]
                  && forall x :: x in f.ends && x != top ==> g.ends[x] == f.ends[x])
            && g.spans == f.spans && g.children == f.children
  {
    if f.stack != [] {
      assert f.stack[|f.stack| - 1] in f.ends;
      hide Owned;
      assert Ended(f, now).ends == f.ends[f.stack[|f.stack| - 1] := Some(now)];
    }
  }

  /** The total spans every step: none starts before it or ends after it. */
  lemma TotalCoversAll(f: Forest, now: int, x: Span)
    requires Inv(f) && f.lastMs <= now && x in f.ends
    ensures f.spans != [] && f.spans[0].startMs <= x.startMs
    ensures EndOr(f, x, now) <= f.spans[0].startMs + TotalMs(f, now)
    ensures TotalMs(f, now) >= EndOr(f, x, now) - x.startMs >= 0
  {
    if f.stack != [] {
      assert f.ends[f.stack[0]].None?;
    } else {
      OthersClosed(f);
    }
  }

  // ---- step: a body run between begin and end ----

  /**
   * What `step` runs: nested steps, returns and throws, with the milliseconds between clock readings.
   * `begin` tells a listener about the step before the body is guarded; the listener may throw.
   */
  datatype Body =
    | Return
    | Throw
    | Then(first: Body, rest: Body)
    | Catch(body: Body)
    | Step(name: string, before: nat, listenerThrows: bool, body: Body, after: nat)

  predicate Throws(b: Body) {
    match b
    case Return => false
    case Throw => true
    case Then(first, rest) => Throws(first) || Throws(rest)
    case Catch(_) => false
    case Step(_, _, listenerThrows, body, _) => listenerThrows || Throws(body)
  }

  /** How many steps the listener throws at: each leaves a span on the stack that nothing will close. */
  function Leaks(b: Body): nat {
    match b
    case Return => 0
    case Throw => 0
    case Then(first, rest) => Leaks(first) + (if Throws(first) then 0 else Leaks(rest))
    case Catch(body) => Leaks(body)
    case Step(_, _, listenerThrows, body, _) => if listenerThrows then 1 else Leaks(body)
  }

  datatype Tree = Node(name: string, kids: seq<Tree>)

  /** The steps a body goes through, nested as they run. */
  function Ran(b: Body): seq<Tree> {
    match b
    case Return => []
    case Throw => []
    case Then(first, rest) => Ran(first) + (if Throws(first) then [] else Ran(rest))
    case Catch(body) => Ran(body)
    case Step(name, _, _, body, _) => [Node(name, Ran(body))]
  }

  /** The spans record the trees: same names, same nesting, all closed. */
  predicate Shows(f: Forest, s: seq<Span>, trees: seq<Tree>)
    decreases trees
  {
    if trees == [] then s == []
    else
      && s != [] && s[0] in f.ends && s[0] in f.children
      && s[0].name == trees[0].name && f.ends[s[0]].Some?
      && Shows(f, f.children[s[0]], trees[0].kids)
      && Shows(f, s[1..], trees[1..])
  }

  /** Where the next span goes. */
  function Level(f: Forest): seq<Span>
    requires Owned(f)
  {
    if f.stack == [] then f.spans else f.children[Last(f.stack)]
  }

  /** `g` extends `f` below its open span only: same stack, nothing recorded is changed. */
  predicate Grown(f: Forest, g: Forest)
    requires Owned(f) && Owned(g)
  {
    && g.stack == f.stack && f.lastMs <= g.lastMs
    && (forall x :: x in f.ends ==> x in g.ends && g.ends[x] == f.ends[x])
    && (forall x :: x in f.ends && (f.stack == [] || x != Last(f.stack)) ==> g.children[x] == f.children[x])
    && (forall x :: x in f.ends && f.ends[x].Some? ==> g.children[x] == f.children[x])
    && (f.stack != [] ==> g.spans == f.spans)
    && Level(f) <= Level(g)
  }

  /** Closed spans keep what they show. */
  lemma {:induction false} ShowsStays(f: Forest, g: Forest, s: seq<Span>, trees: seq<Tree>)
    requires Shows(f, s, trees)
    requires forall x :: x in f.ends && x in f.children && f.ends[x].Some? ==>
                           x in g.ends && x in g.children && g.ends[x] == f.ends[x] && g.children[x] == f.children[x]
    ensures Shows(g, s, trees)
    decreases trees
  {
    if trees != [] {
      ShowsStays(f, g, f.children[s[0]], trees[0].kids);
      ShowsStays(f, g, s[1..], trees[1..]);
    }
  }

  lemma {:induction false} ShowsBoth(f: Forest, s: seq<Span>, t: seq<Span>, trees: seq<Tree>, more: seq<Tree>)
    requires Shows(f, s, trees) && Shows(f, t, more)
    ensures Shows(f, s + t, trees + more)
    decreases trees
  {
    if trees == [] {
      assert s + t == t && trees + more == more;
    } else {
      ShowsBoth(f, s[1..], t, trees[1..], more);
      assert (s + t)[1..] == s[1..] + t && (trees + more)[1..] == trees[1..] + more;
    }
  }

  predicate Recorded(f: Forest, g: Forest, trees: seq<Tree>)
    requires Owned(f) && Owned(g)
  {
    Grown(f, g) && Shows(g, Level(g)[|Level(f)|..], trees)
  }

  lemma RecordedThen(f: Forest, g: Forest, h: Forest, trees: seq<Tree>, more: seq<Tree>)
    requires Owned(f) && Owned(g) && Owned(h) && Recorded(f, g, trees) && Recorded(g, h, more)
    ensures Recorded(f, h, trees + more)
  {
    var s, t := Level(g)[|Level(f)|..], Level(h)[|Level(g)|..];
    ShowsStays(g, h, s, trees);
    ShowsBoth(h, s, t, trees, more);
    GrownTwice(f, g, h);
    assert Level(h)[|Level(f)|..] == s + t;
  }

  lemma GrownTwice(f: Forest, g: Forest, h: Forest)
    requires Owned(f) && Owned(g) && Owned(h) && Grown(f, g) && Grown(g, h)
    ensures Grown(f, h)
  {
  }

  lemma RecordedNothing(f: Forest)
    requires Owned(f)
    ensures Recorded(f, f, [])
  {
    assert Level(f)[|Level(f)|..] == [];
  }

  predicate Opened(f: Forest, span: Span, began: Forest) {
    && span !in f.ends && span in began.ends && began.ends[span].None?
    && began.stack == f.stack + [span] && began.lastMs >= f.lastMs
    && span in began.children && began.children[span] == []
    && began.spans == (if f.stack == [] then f.spans + [span] else f.spans)
    && (forall x :: x in f.ends ==> x in began.ends && began.ends[x] == f.ends[x])
    && (forall x :: x in f.children ==> x in began.children)
    && (forall x :: x in f.children && (f.stack == [] || x != Last(f.stack)) ==> began.children[x] == f.children[x])
    && (f.stack != [] && Last(f.stack) in f.children ==>
          began.children[Last(f.stack)] == f.children[Last(f.stack)] + [span])
  }

  predicate Closed(g: Forest, span: Span, h: Forest) {
    && g.stack != [] && Last(g.stack) == span && h.stack == Front(g.stack)
    && h.spans == g.spans && h.children == g.children && h.lastMs >= g.lastMs
    && h.ends.Keys == g.ends.Keys && span in h.ends && h.ends[span].Some?
    && (forall x :: x in g.ends && x != span ==> h.ends[x] == g.ends[x])
  }

  lemma BeganOpens(f: Forest, span: Span)
    requires Owned(f) && CanBegin(f, span)
    ensures Opened(f, span, Began(f, span))
  {
  }

  lemma InvParts(f: Forest)
    requires Inv(f)
    ensures Owned(f) && OpenOnStack(f)
  {
  }

  lemma OnTop(f: Forest, span: Span, began: Forest, g: Forest)
    requires Owned(f) && Owned(began) && Owned(g) && Opened(f, span, began) && Grown(began, g)
    ensures g.stack != [] && Last(g.stack) == span && Front(g.stack) == f.stack
  {
  }

  lemma Closes(g: Forest, span: Span, now: int)
    requires Owned(g) && g.stack != [] && Last(g.stack) == span && g.lastMs <= now
    ensures Closed(g, span, Ended(g, now)) && Ended(g, now).stack == Front(g.stack) && Ended(g, now).lastMs == now
  {
  }

  lemma StepGrows(f: Forest, span: Span, began: Forest, g: Forest, h: Forest)
    requires Owned(f) && OpenOnStack(f) && Owned(began) && Owned(g) && Owned(h)
    requires Opened(f, span, began) && Grown(began, g) && Closed(g, span, h)
    ensures Grown(f, h) && Level(h) == Level(f) + [span]
  {
    assert Last(began.stack) == span && Front(began.stack) == f.stack;
    forall x | x in f.ends ensures x in h.ends && h.ends[x] == f.ends[x] && h.children[x] == began.children[x] {
      assert x != span;
    }
    if f.stack != [] {
      assert Last(f.stack) in f.stack && f.ends[Last(f.stack)].None?;
    }
  }

  lemma RecordedStep(f: Forest, span: Span, began: Forest, g: Forest, h: Forest, trees: seq<Tree>)
    requires Owned(f) && OpenOnStack(f) && Owned(began) && Owned(g) && Owned(h)
    requires Opened(f, span, began) && Recorded(began, g, trees) && Closed(g, span, h)
    ensures Recorded(f, h, [Node(span.name, trees)])
  {
    StepGrows(f, span, began, g, h);
    assert Level(h)[|Level(f)|..] == [span];
    assert Level(g)[|Level(began)|..] == Level(g) == h.children[span];
    assert g.ends[span].None?;
    ShowsStays(g, h, h.children[span], trees);
    assert [Node(span.name, trees)][1..] == [] && [span][1..] == [];
  }

  // ---- what a body leaves, listeners that throw included ----

  /**
   * The stack as it was with the leaked spans on top; with none leaked, the trees recorded and nothing
   * else changed.
   */
  predicate Left(f: Forest, g: Forest, leaks: nat, trees: seq<Tree>)
    requires Owned(f) && Owned(g)
  {
    f.stack <= g.stack && |g.stack| == |f.stack| + leaks && (leaks == 0 ==> Recorded(f, g, trees))
  }

  lemma LeftThen(f: Forest, g: Forest, h: Forest, leaks: nat, trees: seq<Tree>, more: nat, others: seq<Tree>)
    requires Owned(f) && Owned(g) && Owned(h) && Left(f, g, leaks, trees) && Left(g, h, more, others)
    ensures Left(f, h, leaks + more, trees + others)
  {
    if leaks + more == 0 {
      RecordedThen(f, g, h, trees, others);
    }
  }

  lemma LeftStep(f: Forest, span: Span, began: Forest, g: Forest, now: int, leaks: nat, trees: seq<Tree>)
    requires Owned(f) && OpenOnStack(f) && Owned(began) && Owned(g) && Owned(Ended(g, now)) && g.lastMs <= now
    requires Opened(f, span, began) && Left(began, g, leaks, trees)
    ensures Left(f, Ended(g, now), leaks, [Node(span.name, trees)]) && g.stack != []
  {
    if leaks == 0 {
      OnTop(f, span, began, g);
      Closes(g, span, now);
      RecordedStep(f, span, began, g, Ended(g, now), trees);
    } else {
      hide Recorded, Owned;
      assert f.stack <= f.stack + [span] == began.stack <= g.stack;
      assert f.stack <= Front(g.stack);
    }
  }

  // ---- the class ----

  class Timeline {
    var spans: seq<Span>
    var stack: seq<Span>
    /** Every span begun so far, how many, and the latest clock reading. */
    ghost var all: set<Span>
    ghost var born: nat
    ghost var lastMs: int

    ghost function State(): (f: Forest)
      reads this, all
      ensures f.stack == stack
    {
      Forest(spans, stack, map x: Span | x in all :: x.endMs, map x: Span | x in all :: x.children, born, lastMs)
    }

    constructor (now: int)
      ensures State() == Empty(now) && Inv(State())
    {
      spans, stack, all, born, lastMs := [], [], {}, 0, now;
    }

    /** Puts a span under the one on top of the stack, or among the roots. */
    method Attach(span: Span)
      requires Owned(State()) && span !in all
      modifies this`spans, all
      ensures span.endMs == old(span.endMs) && span.children == old(span.children)
      ensures State() == Attached(old(State()), span)
    {
      ghost var f := State();
      assert stack != [] ==> stack[|stack| - 1] in f.ends;
      hide Owned;
      if stack != [] {
        var parent := stack[|stack| - 1];
        parent.children := parent.children + [span];
      } else {
        spans := spans + [span];
      }
      assert State().children == Attached(f, span).children;
      assert State().ends == f.ends;
    }

    ghost method Track(span: Span)
      requires span !in all && span.endMs == None && span.children == []
      modifies this`all, this`born, this`lastMs
      ensures all == old(all) + {span}
      ensures var f := old(State());
              State() == f.(ends := f.ends[span := None], children := f.children[span := []],
                            born := f.born + 1, lastMs := span.startMs)
    {
      ghost var f := State();
      all, born, lastMs := all + {span}, born + 1, span.startMs;
      assert State().ends == f.ends[span := None];
      assert State().children == f.children[span := []];
    }

    method Push(name: string, now: int) returns (span: Span)
      requires Owned(State())
      modifies this, all
      ensures fresh(span) && span.name == name && span.startMs == now && span.order == old(born)
      ensures all == old(all) + {span} && State() == Began(old(State()), span)
    {
      ghost var f := State();
      span := new Span(name, now, born);
      assert State() == f;
      Attach(span);
      hide Owned, Attached;
      ghost var attached := State();
      stack := stack + [span];
      Track(span);
      assert attached.stack == f.stack && attached.born == f.born && attached.ends == f.ends;
    }

    method Pop(now: int)
      requires Owned(State())
      modifies this, all
      ensures all == old(all) && State() == Ended(old(State()), now)
    {
      ghost var f := State();
      if stack != [] {
        var top := stack[|stack| - 1];
        assert top in f.ends;
        stack := stack[..|stack| - 1];
        top.endMs := Some(now);
        lastMs := now;
        assert State().ends == Ended(f, now).ends;
        assert State().children == f.children;
      }
    }

    method Begin(name: string, now: int) returns (span: Span)
      requires Inv(State()) && lastMs <= now
      modifies this, all
      ensures fresh(span) && span.name == name && span.startMs == now && all == old(all) + {span}
      ensures CanBegin(old(State()), span) && State() == Began(old(State()), span) && Inv(State())
    {
      ghost var f := State();
      span := Push(name, now);
      BeginKeeps(f, span);
    }

    method End(now: int)
      requires Inv(State()) && lastMs <= now
      modifies this, all
      ensures all == old(all) && State() == Ended(old(State()), now) && Inv(State())
    {
      ghost var f := State();
      Pop(now);
      EndKeeps(f, now);
    }

    /**
     * `step`: whatever its body does, thrown or not, the stack is back and the body's steps are recorded
     * under the span, unless a listener threw: then the stack keeps one span more for each time it did.
     */
    method StepThrough(name: string, before: nat, listenerThrows: bool, body: Body, after: nat, now: int)
      returns (threw: bool, later: int)
      requires Inv(State()) && lastMs <= now
      modifies this, all
      ensures old(all) <= all && fresh(all - old(all)) && Inv(State()) && now <= later && lastMs <= later
      ensures threw == (listenerThrows || Throws(body))
      ensures Left(old(State()), State(), if listenerThrows then 1 else Leaks(body), [Node(name, Ran(body))])
      decreases body, 1
    {
      hide *;
      ghost var f := State();
      InvParts(f);
      var span := BeginStep(name, now + before);
      ghost var began := State();
      InvParts(began);
      if listenerThrows {
        return true, now + before;
      }
      threw, later := Run(body, now + before);
      later := later + after;
      EndStep(f, span, began, Leaks(body), Ran(body), later);
    }

    /** `begin`, as seen by `step`. */
    method BeginStep(name: string, now: int) returns (span: Span)
      requires Inv(State()) && lastMs <= now
      modifies this, all
      ensures fresh(span) && span.name == name && all == old(all) + {span} && lastMs == now && Inv(State())
      ensures Owned(old(State())) && Owned(State()) && Opened(old(State()), span, State())
      ensures forall trees :: Left(old(State()), State(), 1, trees)
    {
      ghost var f := State();
      span := Begin(name, now);
      BeganOpens(f, span);
      hide Recorded;
    }

    /** `end`, as seen by `step`: what the body recorded becomes the span's. */
    method EndStep(ghost f: Forest, ghost span: Span, ghost began: Forest, ghost leaks: nat, ghost trees: seq<Tree>,
                   now: int)
      requires Inv(State()) && lastMs <= now
      requires Owned(f) && OpenOnStack(f) && Owned(began) && Owned(State())
      requires Opened(f, span, began) && Left(began, State(), leaks, trees)
      modifies this, all
      ensures all == old(all) && lastMs == now && Inv(State()) && Owned(State())
      ensures Left(f, State(), leaks, [Node(span.name, trees)])
    {
      ghost var g := State();
      EndKeeps(g, now);
      InvParts(Ended(g, now));
      hide Inv, Owned, Left, Opened, OpenOnStack;
      LeftStep(f, span, began, g, now, leaks, trees);
      End(now);
    }

    method Run(body: Body, now: int) returns (threw: bool, later: int)
      requires Inv(State()) && lastMs <= now
      modifies this, all
      ensures old(all) <= all && fresh(all - old(all)) && Inv(State()) && now <= later && lastMs <= later
      ensures threw == Throws(body) && Owned(old(State())) && Owned(State())
      ensures Left(old(State()), State(), Leaks(body), Ran(body))
      decreases body, 0
    {
      hide Inv, Owned, Recorded, State;
      ghost var f := State();
      InvParts(f);
      threw, later := false, now;
      match body {
      case Return => RecordedNothing(f);
      case Throw =>
        threw := true;
        RecordedNothing(f);
      case Then(first, rest) =>
        threw, later := Run(first, now);
        ghost var g := State();
        InvParts(g);
        if threw {
          assert Ran(body) == Ran(first);
        } else {
          threw, later := Run(rest, later);
          InvParts(State());
          LeftThen(f, g, State(), Leaks(first), Ran(first), Leaks(rest), Ran(rest));
        }
      case Catch(inner) =>
        var caught;
        caught, later := Run(inner, now);
      case Step(name, before, listenerThrows, inner, after) =>
        threw, later := StepThrough(name, before, listenerThrows, inner, after, now);
      }
      InvParts(State());
    }

    method TotalTime(now: int) returns (ms: int)
      requires Inv(State())
      ensures ms == TotalMs(State(), now)
    {
      if spans == [] { return 0; }
      var last := spans[|spans| - 1];
      assert State().spans == spans && last in State().ends;
      ms := (if last.endMs.Some? then last.endMs.value else now) - spans[0].startMs;
    }
  }
}
