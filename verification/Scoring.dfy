/**
 * Scoring a wallet-exposure response: elements are totalled per evaluation, filtered by the rule's
 * thresholds, and any trigger above the allowed exposure blocks. Figures are reals; rounding is not
 * modelled.
 */
module Scoring {
  import opened Wrappers

  // ---- the response ----

  datatype Element = Element(
    contributionPercentage: real,
    contributionUsd: Option<real>,
    counterpartyPercentage: Option<real>,
    counterpartyUsd: Option<real>)

  datatype Evaluation = Evaluation(ruleId: string, riskScore: Option<real>, elements: seq<Element>)

  datatype Response = Response(complete: bool, source: seq<Evaluation>, destination: seq<Evaluation>)

  /** What `JSON.parse` makes of a body. */
  datatype Body = Malformed | JsonNull | Parsed(response: Response)

  // ---- the rules ----

  datatype Thresholds = Thresholds(
    counterpartyPercentage: real,
    counterpartyUsd: real,
    contributionPercentage: real,
    contributionUsd: real,
    hardBlockUsd: Option<real>)

  const ILLICIT_ACTIVITY := "8f023e48-b9c2-41c6-8c8a-42a936eee86d"
  const SANCTIONED_ENTITY := "1f86dce1-166a-4749-a5df-3972fae7635a"
  const OBFUSCATING := "1e24a6cf-620a-4c89-b423-5e43b2f13614"
  const DPRK_BYBIT_EXPLOIT := "090208b1-18e3-4da0-94d3-23e7eca5fd92"

  /** A property of the rule table: a rule of its own, a property every object inherits, or nothing. */
  datatype Entry = Own(rule: Thresholds) | Inherited | Absent

  predicate IsInherited(id: string) {
    id in {"constructor", "hasOwnProperty", "isPrototypeOf", "propertyIsEnumerable", "toLocaleString", "toString",
           "valueOf", "__proto__", "__defineGetter__", "__defineSetter__", "__lookupGetter__", "__lookupSetter__"}
  }

  function Lookup(id: string): Entry {
    if id == ILLICIT_ACTIVITY then Own(Thresholds(0.1, 0.0, 0.1, 10.0, Some(5000.0)))
    else if id == SANCTIONED_ENTITY then Own(Thresholds(0.0, 0.0, 0.1, 10.0, Some(5000.0)))
    else if id == OBFUSCATING then Own(Thresholds(0.1, 0.0, 0.1, 10.0, None))
    else if id == DPRK_BYBIT_EXPLOIT then Own(Thresholds(0.00001, 0.0, 0.1, 10.0, None))
    else if IsInherited(id) then Inherited
    else Absent
  }

  predicate IsHardBlockRule(id: string) {
    id == ILLICIT_ACTIVITY || id == SANCTIONED_ENTITY
  }

  const ALLOWED_RISK_EXPOSURE: real := 0.01

  // ---- totals ----

  function Total(s: seq<Element>, f: Element -> real): real {
    if s == [] then 0.0 else Total(s[..|s| - 1], f) + f(s[|s| - 1])
  }

  function OrZero(v: Option<real>): real {
    if v.Some? then v.value else 0.0
  }

  function ContributionPercentage(): Element -> real {
    (e: Element) => e.contributionPercentage
  }

  function ContributionUsd(): Element -> real {
    (e: Element) => OrZero(e.contributionUsd)
  }

  function CounterpartyPercentage(): Element -> real {
    (e: Element) => e.contributionPercentage / 100.0 * OrZero(e.counterpartyPercentage)
  }

  function CounterpartyUsd(): Element -> real {
    (e: Element) => OrZero(e.counterpartyUsd)
  }

  datatype Aggregated = Aggregated(
    counterpartyPercentage: real,
    counterpartyUsd: real,
    contributionPercentage: real,
    contributionUsd: real)

  function Aggregate(elements: seq<Element>): Aggregated {
    Aggregated(Total(elements, CounterpartyPercentage()), Total(elements, CounterpartyUsd()),
               Total(elements, ContributionPercentage()), Total(elements, ContributionUsd()))
  }

  method AggregateElements(elements: seq<Element>) returns (a: Aggregated)
    ensures a == Aggregate(elements)
  {
    a := Aggregated(0.0, 0.0, 0.0, 0.0);
    for i := 0 to |elements|
      invariant a == Aggregate(elements[..i])
    {
      assert elements[..i + 1][..i] == elements[..i];
      var e := elements[i];
      a := Aggregated(
        a.counterpartyPercentage + e.contributionPercentage / 100.0 * OrZero(e.counterpartyPercentage),
        a.counterpartyUsd + OrZero(e.counterpartyUsd),
        a.contributionPercentage + e.contributionPercentage,
        a.contributionUsd + OrZero(e.contributionUsd));
    }
    assert elements[..|elements|] == elements;
  }

  // ---- one evaluation ----

  predicate HardBlocked(a: Aggregated, rule: Thresholds) {
    rule.hardBlockUsd.Some? && a.contributionUsd >= rule.hardBlockUsd.value
  }

  predicate Passes(a: Aggregated, rule: Thresholds) {
    || HardBlocked(a, rule)
    || (a.contributionUsd > rule.contributionUsd && a.contributionPercentage > rule.contributionPercentage)
    || (a.counterpartyUsd > rule.counterpartyUsd && a.counterpartyPercentage > rule.counterpartyPercentage)
  }

  datatype Trigger = Trigger(ruleId: string, percentage: real, riskScore: Option<real>)

  /** Whether an evaluation is kept; an inherited property has no thresholds, so nothing exceeds them. */
  predicate Kept(e: Evaluation) {
    match Lookup(e.ruleId)
    case Own(rule) => Passes(Aggregate(e.elements), rule)
    case Inherited => false
    case Absent => true
  }

  function RiskScore(e: Evaluation): Option<real> {
    var entry := Lookup(e.ruleId);
    if entry.Own? && IsHardBlockRule(e.ruleId) && HardBlocked(Aggregate(e.elements), entry.rule)
    then Some(10.0)
    else e.riskScore
  }

  function TriggerOf(e: Evaluation): Trigger {
    Trigger(e.ruleId, Aggregate(e.elements).contributionPercentage, RiskScore(e))
  }

  function Triggers(es: seq<Evaluation>): seq<Trigger> {
    if es == [] then []
    else Triggers(es[..|es| - 1]) + (if Kept(es[|es| - 1]) then [TriggerOf(es[|es| - 1])] else [])
  }

  predicate TriggerFires(t: Trigger) {
    (if t.riskScore.Some? then t.riskScore.value else t.percentage) > ALLOWED_RISK_EXPOSURE
  }

  method FilterAndBuildTriggers(evaluations: seq<Evaluation>) returns (triggers: seq<Trigger>)
    ensures triggers == Triggers(evaluations)
  {
    triggers := [];
    hide Lookup, IsHardBlockRule, Aggregate;
    for i := 0 to |evaluations|
      invariant triggers == Triggers(evaluations[..i])
    {
      assert evaluations[..i + 1][..i] == evaluations[..i];
      var evaluation := evaluations[i];
      var aggregated := AggregateElements(evaluation.elements);
      var riskScore := evaluation.riskScore;
      var entry := Lookup(evaluation.ruleId);
      if entry.Own? && entry.rule.hardBlockUsd.Some? && IsHardBlockRule(evaluation.ruleId)
         && aggregated.contributionUsd >= entry.rule.hardBlockUsd.value {
        riskScore := Some(10.0);
      }
      if entry.Inherited? || (entry.Own? && !Passes(aggregated, entry.rule)) {
        continue;
      }
      triggers := triggers + [Trigger(evaluation.ruleId, aggregated.contributionPercentage, riskScore)];
    }
    assert evaluations[..|evaluations|] == evaluations;
  }

  // ---- the decision ----

  datatype Reason = Clean | MalformedJson | Incomplete | RuleTriggered | UnknownRule

  datatype ScoringResult = ScoringResult(blocked: bool, reason: Reason, triggeringRuleIds: seq<string>)

  function Fired(triggers: seq<Trigger>): seq<Trigger> {
    if triggers == [] then []
    else
      var last := triggers[|triggers| - 1];
      Fired(triggers[..|triggers| - 1]) + (if TriggerFires(last) then [last] else [])
  }

  /** The rule ids of the triggers, each at its first occurrence. */
  function Ids(triggers: seq<Trigger>): (ids: seq<string>)
    ensures forall i, j :: 0 <= i < j < |ids| ==> ids[i] != ids[j]
    ensures forall id :: id in ids <==> exists i :: 0 <= i < |triggers| && triggers[i].ruleId == id
  {
    if triggers == [] then []
    else
      var front, id := Ids(triggers[..|triggers| - 1]), triggers[|triggers| - 1].ruleId;
      if id in front then front else front + [id]
  }

  predicate SomeUnknown(ids: seq<string>) {
    exists i :: 0 <= i < |ids| && Lookup(ids[i]).Absent?
  }

  /** A body that parses to null is an error: its status cannot be read. */
  method ScoreResponse(body: Body) returns (r: Result<ScoringResult>)
    ensures body.Malformed? ==> r == Ok(ScoringResult(true, MalformedJson, []))
    ensures body.JsonNull? <==> r.Err?
    ensures body.Parsed? ==> r.Ok? && Decides(body.response, r.value)
  {
    match body
    case Malformed => return Ok(ScoringResult(true, MalformedJson, []));
    case JsonNull => return Err("TypeError");
    case Parsed(response) =>
      if !response.complete {
        return Ok(ScoringResult(false, Incomplete, []));
      }
      var sourceTriggers := FilterAndBuildTriggers(response.source);
      var destinationTriggers := FilterAndBuildTriggers(response.destination);
      var triggers := sourceTriggers + destinationTriggers;
      var fired: seq<Trigger> := [];
      var ids: seq<string> := [];
      var hasUnknownRule := false;
      hide Lookup;
      for i := 0 to |triggers|
        invariant fired == Fired(triggers[..i]) && ids == Ids(fired)
        invariant hasUnknownRule == SomeUnknown(ids)
      {
        assert triggers[..i + 1][..i] == triggers[..i];
        if TriggerFires(triggers[i]) {
          var id := triggers[i].ruleId;
          assert (fired + [triggers[i]])[..|fired|] == fired;
          fired := fired + [triggers[i]];
          if id !in ids {
            UnknownOn(ids, id);
            ids := ids + [id];
            hasUnknownRule := hasUnknownRule || Lookup(id).Absent?;
          }
        }
      }
      assert triggers[..|triggers|] == triggers;
      if |fired| == 0 {
        return Ok(ScoringResult(false, Clean, []));
      }
      return Ok(ScoringResult(true, if hasUnknownRule then UnknownRule else RuleTriggered, ids));
  }

  lemma UnknownOn(ids: seq<string>, id: string)
    ensures SomeUnknown(ids + [id]) <==> SomeUnknown(ids) || Lookup(id).Absent?
  {
    hide Lookup;
    var all := ids + [id];
    assert all[|ids|] == id;
    forall i | 0 <= i < |ids| ensures all[i] == ids[i] {}
  }

  predicate Decides(r: Response, result: ScoringResult) {
    if !r.complete then result == ScoringResult(false, Incomplete, [])
    else
      var fired := Fired(Triggers(r.source) + Triggers(r.destination));
      if fired == [] then result == ScoringResult(false, Clean, [])
      else result == ScoringResult(true, if SomeUnknown(Ids(fired)) then UnknownRule else RuleTriggered, Ids(fired))
  }

  // ---- exactly when a response blocks ----

  /** An evaluation that blocks on its own. */
  predicate Fires(e: Evaluation) {
    Kept(e) && TriggerFires(TriggerOf(e))
  }

  predicate SomeFires(es: seq<Evaluation>) {
    exists i :: 0 <= i < |es| && Fires(es[i])
  }

  lemma {:induction false} FiredConcat(a: seq<Trigger>, b: seq<Trigger>)
    ensures Fired(a + b) == Fired(a) + Fired(b)
  {
    if b == [] {
      assert a + b == a;
    } else {
      assert (a + b)[..|a + b| - 1] == a + b[..|b| - 1];
      FiredConcat(a, b[..|b| - 1]);
    }
  }

  lemma {:induction false} FiredIffFires(es: seq<Evaluation>)
    ensures Fired(Triggers(es)) != [] <==> SomeFires(es)
  {
    if es != [] {
      var front, last := es[..|es| - 1], es[|es| - 1];
      FiredIffFires(front);
      FiredConcat(Triggers(front), if Kept(last) then [TriggerOf(last)] else []);
      hide Kept, TriggerOf, TriggerFires;
      assert [TriggerOf(last)][..0] == [];
      assert SomeFires(es) <==> SomeFires(front) || Fires(last);
    }
  }

  /** A complete response blocks exactly when some evaluation of it, source or destination, fires. */
  lemma BlocksExactly(r: Response, result: ScoringResult)
    requires Decides(r, result)
    ensures result.blocked <==> r.complete && (SomeFires(r.source) || SomeFires(r.destination))
  {
    FiredIffFires(r.source);
    FiredIffFires(r.destination);
    FiredConcat(Triggers(r.source), Triggers(r.destination));
  }

  // ---- order does not matter ----

  lemma {:induction false} TotalConcat(s: seq<Element>, t: seq<Element>, f: Element -> real)
    ensures Total(s + t, f) == Total(s, f) + Total(t, f)
  {
    if t == [] {
      assert s + t == s;
    } else {
      assert (s + t)[..|s + t| - 1] == s + t[..|t| - 1];
      TotalConcat(s, t[..|t| - 1], f);
    }
  }

  lemma WithoutOne(s: seq<Element>, t: seq<Element>, i: nat)
    requires s != [] && multiset(s) == multiset(t) && i < |t| && t[i] == s[|s| - 1]
    ensures multiset(s[..|s| - 1]) == multiset(t[..i] + t[i + 1..])
  {
    var x := t[i];
    assert s == s[..|s| - 1] + [x];
    assert t == t[..i] + [x] + t[i + 1..];
    assert multiset(s[..|s| - 1]) == multiset(s) - multiset{x};
    assert multiset(t[..i] + t[i + 1..]) == multiset(t) - multiset{x};
  }

  lemma {:induction false} TotalPermuted(s: seq<Element>, t: seq<Element>, f: Element -> real)
    requires multiset(s) == multiset(t)
    ensures Total(s, f) == Total(t, f)
  {
    if s == [] {
      assert |multiset(t)| == 0;
    } else {
      var front, x := s[..|s| - 1], s[|s| - 1];
      assert x in multiset(s) && x in multiset(t);
      var i :| 0 <= i < |t| && t[i] == x;
      var before, after := t[..i], t[i + 1..];
      assert t == before + ([x] + after);
      WithoutOne(s, t, i);
      TotalPermuted(front, before + after, f);
      TotalConcat(before, after, f);
      TotalConcat(before, [x] + after, f);
      TotalConcat([x], after, f);
      assert [x][..0] == [];
    }
  }

  lemma AggregatePermuted(s: seq<Element>, t: seq<Element>)
    requires multiset(s) == multiset(t)
    ensures Aggregate(s) == Aggregate(t)
  {
    TotalPermuted(s, t, ContributionPercentage());
    TotalPermuted(s, t, ContributionUsd());
    TotalPermuted(s, t, CounterpartyPercentage());
    TotalPermuted(s, t, CounterpartyUsd());
  }

  // ---- more evidence never unblocks ----

  predicate NonNegative(s: seq<Element>) {
    forall i :: 0 <= i < |s| ==>
      && s[i].contributionPercentage >= 0.0 && OrZero(s[i].contributionUsd) >= 0.0
      && OrZero(s[i].counterpartyPercentage) >= 0.0 && OrZero(s[i].counterpartyUsd) >= 0.0
  }

  lemma {:induction false} TotalNonNegative(s: seq<Element>, f: Element -> real)
    requires forall i :: 0 <= i < |s| ==> f(s[i]) >= 0.0
    ensures Total(s, f) >= 0.0
  {
    if s != [] { TotalNonNegative(s[..|s| - 1], f); }
  }

  lemma ProductNonNegative(x: real, y: real)
    requires x >= 0.0 && y >= 0.0
    ensures x / 100.0 * y >= 0.0
  {
  }

  predicate AtLeast(a: Aggregated, b: Aggregated) {
    && a.contributionUsd >= b.contributionUsd && a.contributionPercentage >= b.contributionPercentage
    && a.counterpartyUsd >= b.counterpartyUsd && a.counterpartyPercentage >= b.counterpartyPercentage
  }

  lemma MoreElements(s: seq<Element>, more: seq<Element>)
    requires NonNegative(more)
    ensures AtLeast(Aggregate(s + more), Aggregate(s))
  {
    forall i | 0 <= i < |more| ensures CounterpartyPercentage()(more[i]) >= 0.0 {
      ProductNonNegative(more[i].contributionPercentage, OrZero(more[i].counterpartyPercentage));
    }
    TotalNonNegative(more, ContributionPercentage());
    TotalNonNegative(more, ContributionUsd());
    TotalNonNegative(more, CounterpartyPercentage());
    TotalNonNegative(more, CounterpartyUsd());
    TotalConcat(s, more, ContributionPercentage());
    TotalConcat(s, more, ContributionUsd());
    TotalConcat(s, more, CounterpartyPercentage());
    TotalConcat(s, more, CounterpartyUsd());
  }

  /** `big` is `small` with further, non-negative elements, in any order. */
  ghost predicate Extends(big: Evaluation, small: Evaluation) {
    && big.ruleId == small.ruleId && big.riskScore == small.riskScore
    && exists more :: NonNegative(more) && multiset(big.elements) == multiset(small.elements + more)
  }

  lemma ExtensionFires(big: Evaluation, small: Evaluation)
    requires Extends(big, small) && Fires(small)
    ensures Fires(big)
  {
    var more :| NonNegative(more) && multiset(big.elements) == multiset(small.elements + more);
    AggregatePermuted(big.elements, small.elements + more);
    MoreElements(small.elements, more);
    hide Aggregate, Lookup, IsHardBlockRule;
    assert AtLeast(Aggregate(big.elements), Aggregate(small.elements));
  }

  /** Every evaluation of `small` is in `big`, with at least its elements. */
  ghost predicate Covers(big: seq<Evaluation>, small: seq<Evaluation>) {
    forall i :: 0 <= i < |small| ==> exists j :: 0 <= j < |big| && Extends(big[j], small[i])
  }

  lemma CoversFires(big: seq<Evaluation>, small: seq<Evaluation>)
    requires Covers(big, small) && SomeFires(small)
    ensures SomeFires(big)
  {
    var i :| 0 <= i < |small| && Fires(small[i]);
    var j :| 0 <= j < |big| && Extends(big[j], small[i]);
    ExtensionFires(big[j], small[i]);
  }

  /** Adding evaluations or non-negative elements, anywhere and in any order, never turns blocked into allowed. */
  lemma MoreNeverUnblocks(small: Response, big: Response, before: ScoringResult, after: ScoringResult)
    requires Decides(small, before) && Decides(big, after) && big.complete
    requires Covers(big.source, small.source) && Covers(big.destination, small.destination)
    ensures before.blocked ==> after.blocked
  {
    BlocksExactly(small, before);
    BlocksExactly(big, after);
    if SomeFires(small.source) {
      CoversFires(big.source, small.source);
    }
    if SomeFires(small.destination) {
      CoversFires(big.destination, small.destination);
    }
  }

  /** The order of an evaluation's elements changes neither whether it is kept nor what it triggers. */
  lemma ElementOrderIsIrrelevant(e: Evaluation, elements: seq<Element>)
    requires multiset(elements) == multiset(e.elements)
    ensures Kept(e.(elements := elements)) == Kept(e) && TriggerOf(e.(elements := elements)) == TriggerOf(e)
  {
    AggregatePermuted(elements, e.elements);
    hide Aggregate, Lookup, IsHardBlockRule;
  }

  // ---- hard blocks ----

  lemma HardBlockRules(id: string)
    requires IsHardBlockRule(id)
    ensures Lookup(id).Own? && Lookup(id).rule.hardBlockUsd == Some(5000.0)
  {
  }

  /** At its bound a hard-block rule fires, whatever the evaluation's own risk score says. */
  lemma HardBlockAlwaysFires(e: Evaluation)
    requires IsHardBlockRule(e.ruleId) && Aggregate(e.elements).contributionUsd >= 5000.0
    ensures Fires(e)
  {
    HardBlockRules(e.ruleId);
    hide Lookup, IsHardBlockRule, Aggregate;
  }

  // ---- when each rule fires, in numbers ----

  /** An element adds its figures, absent ones counting as zero. */
  lemma ElementAdds(s: seq<Element>, e: Element)
    ensures Aggregate([]) == Aggregated(0.0, 0.0, 0.0, 0.0)
    ensures var a, b := Aggregate(s), Aggregate(s + [e]);
            && b.contributionPercentage == a.contributionPercentage + e.contributionPercentage
            && b.contributionUsd == a.contributionUsd
               + (if e.contributionUsd.Some? then e.contributionUsd.value else 0.0)
            && b.counterpartyUsd == a.counterpartyUsd
               + (if e.counterpartyUsd.Some? then e.counterpartyUsd.value else 0.0)
            && b.counterpartyPercentage == a.counterpartyPercentage
               + (if e.counterpartyPercentage.None? then 0.0
                  else e.contributionPercentage / 100.0 * e.counterpartyPercentage.value)
  {
    assert (s + [e])[..|s|] == s;
  }

  /** The score that counts: the evaluation's own, or else its contribution percentage. */
  function Score(e: Evaluation, a: Aggregated): real {
    if e.riskScore.Some? then e.riskScore.value else a.contributionPercentage
  }

  /** Over ten dollars and a tenth of a percent contributed, or any dollars and enough percent of counterparties. */
  predicate Exceeds(a: Aggregated, counterpartyPercentage: real) {
    || (a.contributionUsd > 10.0 && a.contributionPercentage > 0.1)
    || (a.counterpartyUsd > 0.0 && a.counterpartyPercentage > counterpartyPercentage)
  }

  lemma RulesAre()
    ensures Lookup("8f023e48-b9c2-41c6-8c8a-42a936eee86d") == Own(Thresholds(0.1, 0.0, 0.1, 10.0, Some(5000.0)))
    ensures Lookup("1f86dce1-166a-4749-a5df-3972fae7635a") == Own(Thresholds(0.0, 0.0, 0.1, 10.0, Some(5000.0)))
    ensures Lookup("1e24a6cf-620a-4c89-b423-5e43b2f13614") == Own(Thresholds(0.1, 0.0, 0.1, 10.0, None))
    ensures Lookup("090208b1-18e3-4da0-94d3-23e7eca5fd92") == Own(Thresholds(0.00001, 0.0, 0.1, 10.0, None))
  {
    RuleIdsDiffer();
  }

  lemma RuleIdsDiffer()
    ensures ILLICIT_ACTIVITY[0] == '8' && DPRK_BYBIT_EXPLOIT[0] == '0'
    ensures SANCTIONED_ENTITY[0] == OBFUSCATING[0] == '1' && SANCTIONED_ENTITY[1] != OBFUSCATING[1]
  {
  }

  /** The rules an unknown score can be hard blocked by, which override it. */
  lemma HardBlockRulesAre(id: string)
    ensures IsHardBlockRule(id)
            <==> id in {"8f023e48-b9c2-41c6-8c8a-42a936eee86d", "1f86dce1-166a-4749-a5df-3972fae7635a"}
  {
  }

  /**
   * Exactly when an evaluation of a known rule fires. The two hard-block rules fire from 5000 dollars
   * contributed whatever the score; short of that, and for the other two, the rule's thresholds must be
   * exceeded and the score be above 0.01.
   */
  lemma KnownRulesFireExactly(e: Evaluation)
    ensures var a := Aggregate(e.elements);
            && (e.ruleId == "8f023e48-b9c2-41c6-8c8a-42a936eee86d" ==>
                  (Fires(e) <==> a.contributionUsd >= 5000.0 || (Exceeds(a, 0.1) && Score(e, a) > 0.01)))
            && (e.ruleId == "1f86dce1-166a-4749-a5df-3972fae7635a" ==>
                  (Fires(e) <==> a.contributionUsd >= 5000.0 || (Exceeds(a, 0.0) && Score(e, a) > 0.01)))
            && (e.ruleId == "1e24a6cf-620a-4c89-b423-5e43b2f13614" ==>
                  (Fires(e) <==> Exceeds(a, 0.1) && Score(e, a) > 0.01))
            && (e.ruleId == "090208b1-18e3-4da0-94d3-23e7eca5fd92" ==>
                  (Fires(e) <==> Exceeds(a, 0.00001) && Score(e, a) > 0.01))
  {
    RulesAre();
    HardBlockRulesAre(e.ruleId);
    RuleIdsDiffer();
    hide Lookup, IsHardBlockRule, Aggregate;
  }

  /** Of any other id: a name every object inherits never fires; an unknown one fires by its score alone. */
  lemma OtherRulesFireExactly(e: Evaluation)
    requires e.ruleId !in {"8f023e48-b9c2-41c6-8c8a-42a936eee86d", "1f86dce1-166a-4749-a5df-3972fae7635a",
                           "1e24a6cf-620a-4c89-b423-5e43b2f13614", "090208b1-18e3-4da0-94d3-23e7eca5fd92"}
    ensures var inherited := {"constructor", "hasOwnProperty", "isPrototypeOf", "propertyIsEnumerable",
                              "toLocaleString", "toString", "valueOf", "__proto__", "__defineGetter__",
                              "__defineSetter__", "__lookupGetter__", "__lookupSetter__"};
            Fires(e) <==> e.ruleId !in inherited && Score(e, Aggregate(e.elements)) > 0.01
  {
    assert Lookup(e.ruleId) == if IsInherited(e.ruleId) then Inherited else Absent;
    hide Lookup, IsHardBlockRule, Aggregate;
  }
}
