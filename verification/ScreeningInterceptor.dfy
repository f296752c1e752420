/**
 * The screening interceptor: one `/screen` call per subject, retried against a deadline, ending in a
 * verdict that never lets a deposit through unsigned.
 */
module ScreeningInterceptor {
  import opened Wrappers
  import opened Arithmetic
  import opened Numerals
  import opened PoolTransaction
  import opened PolicyClient
  import opened ScreenedAddress
  import opened InterceptorRace
  import opened RaceOutcome

  // ---- what `/screen` answers ----

  /** The signature field of a reply: a part is missing when it is absent, of another type or not finite. */
  datatype RawSignature = NoSignature | RawSignature(issuedAt: Option<real>, sigR: Option<string>, sigS: Option<string>)

  datatype Payload = Malformed | ScreenResponse(blocked: bool, signature: RawSignature)

  datatype HttpReply = NetworkError | Response(ok: bool, payload: Payload)

  datatype CallResult = Allowed(signature: Signature) | Blocked | Faulted

  /** At most 64 hexadecimal digits after `0x`. */
  predicate IsHexFeltText(s: string) {
    3 <= |s| <= 66 && s[0] == '0' && s[1] == 'x' && AllDigits(s[2..], 16)
  }

  predicate IsScreeningSignature(s: RawSignature) {
    && s.RawSignature? && s.issuedAt.Some? && s.issuedAt.value >= 0.0
    && s.sigR.Some? && IsHexFeltText(s.sigR.value) && s.sigS.Some? && IsHexFeltText(s.sigS.value)
  }

  function Judged(reply: HttpReply): CallResult {
    match reply
    case NetworkError => Faulted
    case Response(ok, payload) =>
      if !ok || payload.Malformed? then Faulted
      else if payload.blocked then Blocked
      else if !IsScreeningSignature(payload.signature) then Faulted
      else
        var s := payload.signature;
        Allowed(Signature(s.issuedAt.value, s.sigR.value, s.sigS.value))
  }

  predicate WellFormed(s: Signature) {
    s.issuedAt >= 0.0 && IsHexFeltText(s.sigR) && IsHexFeltText(s.sigS)
  }

  /** A call that allows has answered 2xx, not blocked, with a well-formed signature, and with that one. */
  lemma AllowedMeansSigned(reply: HttpReply, signature: Signature)
    ensures var raw := RawSignature(Some(signature.issuedAt), Some(signature.sigR), Some(signature.sigS));
            Judged(reply) == Allowed(signature) <==>
            WellFormed(signature) && reply == Response(true, ScreenResponse(false, raw))
  {
  }

  /** A felt text is `0x` and one to sixty-four hexadecimal digits of either case. */
  lemma HexFeltTextIs(s: string)
    ensures IsHexFeltText(s)
            <==> exists digits :: s == "0x" + digits && 1 <= |digits| <= 64
                                  && forall i :: 0 <= i < |digits| ==>
                                       '0' <= digits[i] <= '9' || 'a' <= digits[i] <= 'f' || 'A' <= digits[i] <= 'F'
  {
    if IsHexFeltText(s) {
      var digits := s[2..];
      assert forall i :: 0 <= i < |digits| ==> IsDigit(digits[i], 16);
      assert s == "0x" + digits;
    }
    if digits :| s == "0x" + digits && 1 <= |digits| <= 64
                 && forall i :: 0 <= i < |digits| ==>
                      '0' <= digits[i] <= '9' || 'a' <= digits[i] <= 'f' || 'A' <= digits[i] <= 'F' {
      assert s[2..] == digits;
      assert forall i :: 0 <= i < |digits| ==> IsDigit(digits[i], 16);
    }
  }

  /** A 2xx reply that says blocked blocks for good, signature or not. */
  lemma BlockedMeansSaid(reply: HttpReply)
    ensures Judged(reply) == Blocked
            <==> reply.Response? && reply.ok && reply.payload.ScreenResponse? && reply.payload.blocked
  {
  }

  // ---- the endpoint and the clock ----

  /** What the endpoint would do with the k-th call: how long it takes, and its reply. */
  datatype Exchange = Exchange(duration: nat, reply: HttpReply)

  datatype Attempt = Attempt(address: string, startedAt: int, timeout: int, endedAt: int, result: CallResult)

  /** A call ends with its reply, or fails at its timeout if the reply would come later. */
  function Attempted(address: string, startedAt: int, timeout: int, x: Exchange): Attempt {
    if x.duration <= timeout then Attempt(address, startedAt, timeout, startedAt + x.duration, Judged(x.reply))
    else Attempt(address, startedAt, timeout, startedAt + Max(timeout, 0), Faulted)
  }

  /** An attempt takes as long as the reply but never longer than its timeout, and a late reply counts for nothing. */
  lemma AttemptIs(address: string, startedAt: int, timeout: int, x: Exchange)
    ensures var a := Attempted(address, startedAt, timeout, x);
            && a.endedAt == startedAt + Min(x.duration, Max(timeout, 0))
            && (a.result != Faulted ==> x.duration <= timeout && a.result == Judged(x.reply))
            && (a.result == Faulted ==> x.duration > timeout || Judged(x.reply) == Faulted)
  {
  }

  class Endpoint {
    const exchanges: nat -> Exchange
    var now: int
    var attempts: seq<Attempt>

    /** Every call made so far went as the endpoint would have it. */
    predicate Valid()
      reads this
    {
      forall k :: 0 <= k < |attempts| ==>
        attempts[k] == Attempted(attempts[k].address, attempts[k].startedAt, attempts[k].timeout, exchanges(k))
    }

    constructor (exchanges: nat -> Exchange, now: int)
      ensures Valid()
      ensures this.exchanges == exchanges && this.now == now && attempts == []
    {
      this.exchanges, this.now, attempts := exchanges, now, [];
    }

    method Sleep(ms: nat)
      modifies this`now
      ensures now == old(now) + ms
    {
      now := now + ms;
    }

    method CallScreen(address: string, timeout: int) returns (r: CallResult)
      requires Valid()
      modifies this
      ensures Valid()
      ensures attempts == old(attempts) + [Attempted(address, old(now), timeout, exchanges(|old(attempts)|))]
      ensures now == attempts[|old(attempts)|].endedAt && r == attempts[|old(attempts)|].result
    {
      var attempt := Attempted(address, now, timeout, exchanges(|attempts|));
      attempts := attempts + [attempt];
      now := attempt.endedAt;
      r := attempt.result;
    }
  }

  // ---- screenAndSign ----

  datatype Settings = Settings(poolAddress: string, blockNonPoolTx: bool, timeoutMs: int, maxRetries: int,
                               totalTimeoutMs: int)

  datatype SignOutcome = SignedAllow(signature: Signature) | SignBlocked | Unavailable

  function ExponentialBackoff(attempt: nat): nat
    requires attempt >= 1
  {
    Min(1000 * Pow(2, attempt - 1), 5000)
  }

  /** One, two and four seconds, then five. */
  lemma BackoffIs(attempt: nat)
    requires attempt >= 1
    ensures ExponentialBackoff(attempt)
            == if attempt == 1 then 1000 else if attempt == 2 then 2000 else if attempt == 3 then 4000 else 5000
  {
    assert Pow(2, 0) == 1 && Pow(2, 1) == 2 * Pow(2, 0) && Pow(2, 2) == 2 * Pow(2, 1);
    if attempt > 3 {
      PowMonotone(2, 3, attempt - 1);
      assert Pow(2, 3) == 2 * Pow(2, 2);
    }
  }

  /**
   * The k-th attempt: at the start, or after the previous one failed and its backoff passed, and within
   * the deadline.
   */
  predicate Follows(a: Attempt, previous: Option<Attempt>, k: nat, address: string, cfg: Settings, start: int) {
    var deadline := start + cfg.totalTimeoutMs;
    && a.address == address && start <= a.startedAt < deadline
    && a.timeout == Min(cfg.timeoutMs, deadline - a.startedAt)
    && a.startedAt <= a.endedAt <= deadline
    && (previous.None? ==> a.startedAt == start)
    && (previous.Some? ==>
          && k >= 1 && previous.value.result == Faulted
          && a.startedAt == previous.value.endedAt + Min(ExponentialBackoff(k), deadline - previous.value.endedAt))
  }

  function Previous(attempts: seq<Attempt>, k: nat): Option<Attempt>
    requires k <= |attempts|
  {
    if k == 0 then None else Some(attempts[k - 1])
  }

  /** The attempts of one screening, from its start to its deadline. */
  predicate Disciplined(attempts: seq<Attempt>, address: string, cfg: Settings, start: int) {
    forall k :: 0 <= k < |attempts| ==> Follows(attempts[k], Previous(attempts, k), k, address, cfg, start)
  }

  lemma AttemptFollows(made: seq<Attempt>, address: string, now: int, x: Exchange, cfg: Settings, start: int)
    requires start <= now < start + cfg.totalTimeoutMs
    requires made == [] ==> now == start
    requires made != [] ==>
               var last := made[|made| - 1];
               last.result == Faulted
               && now == last.endedAt + Min(ExponentialBackoff(|made|), start + cfg.totalTimeoutMs - last.endedAt)
    ensures var a := Attempted(address, now, Min(cfg.timeoutMs, start + cfg.totalTimeoutMs - now), x);
            Follows(a, Previous(made, |made|), |made|, address, cfg, start)
            && now <= a.endedAt <= start + cfg.totalTimeoutMs
  {
  }

  lemma NothingYet(address: string, cfg: Settings, start: int)
    ensures Disciplined([], address, cfg, start)
  {
  }

  lemma DisciplinedOn(made: seq<Attempt>, a: Attempt, address: string, cfg: Settings, start: int)
    requires Disciplined(made, address, cfg, start) && Follows(a, Previous(made, |made|), |made|, address, cfg, start)
    ensures Disciplined(made + [a], address, cfg, start)
  {
    hide Follows;
    var all := made + [a];
    forall k | 0 <= k < |all| ensures Follows(all[k], Previous(all, k), k, address, cfg, start) {
      if k < |made| {
        assert all[k] == made[k] && Previous(all, k) == Previous(made, k);
      }
    }
  }

  /** The outcome is the last attempt's, and unavailable when that one failed or there was none. */
  function OutcomeOf(attempts: seq<Attempt>): SignOutcome {
    if attempts == [] then Unavailable
    else
      match attempts[|attempts| - 1].result
      case Allowed(signature) => SignedAllow(signature)
      case Blocked => SignBlocked
      case Faulted => Unavailable
  }

  /**
   * `screenAndSign`: at most `maxRetries + 1` calls, each within the deadline, the next only after the
   * last failed and its backoff passed. It ends by the deadline, and gives up only when the calls or
   * the time are used up.
   */
  method ScreenAndSign(address: string, cfg: Settings, endpoint: Endpoint)
    returns (outcome: SignOutcome, ghost made: seq<Attempt>)
    requires endpoint.Valid()
    modifies endpoint
    ensures endpoint.Valid() && endpoint.attempts == old(endpoint.attempts) + made
    ensures && Disciplined(made, address, cfg, old(endpoint.now))
            && |made| <= Max(0, cfg.maxRetries + 1)
            && outcome == OutcomeOf(made)
            && (outcome == Unavailable ==>
                  |made| == Max(0, cfg.maxRetries + 1) || endpoint.now >= old(endpoint.now) + cfg.totalTimeoutMs)
    ensures old(endpoint.now) <= endpoint.now <= old(endpoint.now) + Max(0, cfg.totalTimeoutMs)
  {
    ghost var before := endpoint.attempts;
    ghost var start := endpoint.now;
    var deadline := endpoint.now + cfg.totalTimeoutMs;
    var attempt := 0;
    made := [];
    hide Disciplined, ExponentialBackoff, Follows, Attempted, Endpoint.Valid;
    NothingYet(address, cfg, start);
    while attempt <= cfg.maxRetries
      invariant 0 <= attempt == |made| <= Max(0, cfg.maxRetries + 1)
      invariant endpoint.Valid() && endpoint.attempts == before + made && Disciplined(made, address, cfg, start)
      invariant start <= endpoint.now <= start + Max(0, cfg.totalTimeoutMs)
      invariant made == [] ==> endpoint.now == start
      invariant made != [] ==> made[|made| - 1].result == Faulted && endpoint.now == made[|made| - 1].endedAt
      decreases cfg.maxRetries - attempt
    {
      if attempt > 0 {
        var backoffMs := ExponentialBackoff(attempt);
        var remainingMs := deadline - endpoint.now;
        if remainingMs <= 0 {
          break;
        }
        endpoint.Sleep(Min(backoffMs, remainingMs));
      }
      var remainingMs := deadline - endpoint.now;
      if remainingMs <= 0 {
        break;
      }
      var perCallTimeout := Min(cfg.timeoutMs, remainingMs);
      ghost var a := Attempted(address, endpoint.now, perCallTimeout, endpoint.exchanges(|endpoint.attempts|));
      AttemptFollows(made, address, endpoint.now, endpoint.exchanges(|endpoint.attempts|), cfg, start);
      var result := endpoint.CallScreen(address, perCallTimeout);
      DisciplinedOn(made, a, address, cfg, start);
      made := made + [a];
      assert endpoint.attempts == before + made;
      match result {
        case Allowed(signature) => return SignedAllow(signature), made;
        case Blocked => return SignBlocked, made;
        case Faulted =>
      }
      attempt := attempt + 1;
    }
    return Unavailable, made;
  }

  // ---- intercept ----

  predicate Unresolved(s: Screened) {
    s.Conflict? || s.UnreadablePolicy? || s.UndeterminedShadowAccount?
  }

  function Reason(s: Screened): string
    requires Unresolved(s)
  {
    match s
    case Conflict => "multiple_screening_subjects"
    case UnreadablePolicy => "screening_policy_unavailable"
    case UndeterminedShadowAccount => "shadow_account_undetermined"
  }

  /** The verdict for a resolved subject, given how its screening ended. */
  function VerdictFor(s: Screened, outcome: SignOutcome): Verdict {
    match s
    case NoSubject => Allow(None)
    case One(_) =>
      (match outcome
       case SignBlocked => Block("address_blocked")
       case Unavailable => Block("screening_unavailable")
       case SignedAllow(signature) => Allow(Some(signature)))
    case Conflict => Block(Reason(s))
    case UnreadablePolicy => Block(Reason(s))
    case UndeterminedShadowAccount => Block(Reason(s))
  }

  method Intercept(calldata: seq<string>, cfg: Settings, d: Decoders, policyOf: string -> Option<Policy>,
                   endpoint: Endpoint)
    returns (v: Verdict, ghost made: seq<Attempt>)
    requires endpoint.Valid()
    modifies endpoint
    ensures endpoint.Valid() && endpoint.attempts == old(endpoint.attempts) + made
    ensures !IsSinglePoolCall(calldata, cfg.poolAddress) ==>
              && made == []
              && v == (if cfg.blockNonPoolTx then Block("transaction is not a direct call to the privacy pool")
                       else Allow(None))
    ensures IsSinglePoolCall(calldata, cfg.poolAddress) ==>
              exists s :: IsSubject(calldata, cfg.poolAddress, d, policyOf, s)
                          && Verdicts(s, cfg, old(endpoint.now), made, v)
    ensures old(endpoint.now) <= endpoint.now <= old(endpoint.now) + Max(0, cfg.totalTimeoutMs)
  {
    made := [];
    if !IsSinglePoolCall(calldata, cfg.poolAddress) {
      if cfg.blockNonPoolTx {
        return Block("transaction is not a direct call to the privacy pool"), made;
      }
      return Allow(None), made;
    }
    var screened := GetScreenedAddress(calldata, cfg.poolAddress, d, policyOf);
    assert IsSubject(calldata, cfg.poolAddress, d, policyOf, screened);
    hide IsSubject, IsSinglePoolCall;
    if screened == NoSubject {
      assert Verdicts(screened, cfg, endpoint.now, made, Allow(None));
      return Allow(None), made;
    }
    if !screened.One? {
      assert Verdicts(screened, cfg, endpoint.now, made, Block(Reason(screened)));
      return Block(Reason(screened)), made;
    }
    var outcome;
    outcome, made := ScreenAndSign(screened.address, cfg, endpoint);
    assert Verdicts(screened, cfg, old(endpoint.now), made, VerdictFor(screened, outcome));
    match outcome
    case SignBlocked => return Block("address_blocked"), made;
    case Unavailable => return Block("screening_unavailable"), made;
    case SignedAllow(signature) => return Allow(Some(signature)), made;
  }

  ghost predicate IsSubject(calldata: seq<string>, poolAddress: string, d: Decoders,
                            policyOf: string -> Option<Policy>, s: Screened) {
    match DecodeClientActions(calldata, poolAddress, d)
    case None => s == NoSubject
    case Some(call) => Decides(call, d, policyOf, s)
  }

  /** A verdict and the calls made for it: none but for a single subject, and that subject alone is screened. */
  predicate Verdicts(s: Screened, cfg: Settings, start: int, made: seq<Attempt>, v: Verdict) {
    && v == VerdictFor(s, OutcomeOf(made))
    && (if s.One? then Disciplined(made, s.address, cfg, start) && |made| <= Max(0, cfg.maxRetries + 1) else made == [])
  }

  /** What a verdict can be, case by case. */
  lemma VerdictsAre(s: Screened, cfg: Settings, start: int, made: seq<Attempt>, v: Verdict)
    requires Verdicts(s, cfg, start, made, v)
    ensures s == NoSubject ==> v == Allow(None)
    ensures s == Conflict ==> v == Block("multiple_screening_subjects")
    ensures s == UnreadablePolicy ==> v == Block("screening_policy_unavailable")
    ensures s == UndeterminedShadowAccount ==> v == Block("shadow_account_undetermined")
    ensures s.One? ==>
              var last := if made == [] then Faulted else made[|made| - 1].result;
              && (last.Faulted? ==> v == Block("screening_unavailable"))
              && (last.Blocked? ==> v == Block("address_blocked"))
              && (last.Allowed? ==> v == Allow(Some(last.signature)))
  {
  }

  // ---- fail closed ----

  /** A decoded call with a deposit is never allowed unsigned. */
  lemma DepositNeverUnsigned(calldata: seq<string>, cfg: Settings, d: Decoders, policyOf: string -> Option<Policy>,
                             s: Screened, start: int, made: seq<Attempt>, v: Verdict)
    requires IsSubject(calldata, cfg.poolAddress, d, policyOf, s) && Verdicts(s, cfg, start, made, v)
    requires DecodeClientActions(calldata, cfg.poolAddress, d).Some?
    requires Deposit in DecodeClientActions(calldata, cfg.poolAddress, d).value.actions
    ensures v != Allow(None)
  {
    DepositOwesItsDepositor(DecodeClientActions(calldata, cfg.poolAddress, d).value, d, policyOf, s);
  }

  /**
   * A signed allow: one address was owed, and the last `/screen` call was for that address; its reply
   * was a 2xx, not blocked, carrying that signature, well formed.
   */
  lemma SignedMeansScreened(calldata: seq<string>, cfg: Settings, d: Decoders, policyOf: string -> Option<Policy>,
                            s: Screened, start: int, made: seq<Attempt>, v: Verdict, x: Exchange)
    requires IsSubject(calldata, cfg.poolAddress, d, policyOf, s) && Verdicts(s, cfg, start, made, v)
    requires v.Allow? && v.signature.Some?
    requires made != [] ==> var a := made[|made| - 1]; a == Attempted(a.address, a.startedAt, a.timeout, x)
    ensures s.One? && DecodeClientActions(calldata, cfg.poolAddress, d).Some?
    ensures var call := DecodeClientActions(calldata, cfg.poolAddress, d).value;
            forall x :: Owes(call, d, policyOf, x) <==> x == s.address
    ensures made != [] && made[|made| - 1].address == s.address && made[|made| - 1].result == Allowed(v.signature.value)
    ensures WellFormed(v.signature.value) && x.reply.Response? && x.reply.ok
            && x.reply.payload.ScreenResponse? && !x.reply.payload.blocked
  {
    AllowedMeansSigned(x.reply, v.signature.value);
  }

  /** Allowed unsigned exactly when it can be told that nobody is owed a screening. */
  lemma UnsignedMeansNobodyOwed(calldata: seq<string>, cfg: Settings, d: Decoders,
                                policyOf: string -> Option<Policy>, s: Screened, start: int,
                                made: seq<Attempt>, v: Verdict)
    requires IsSubject(calldata, cfg.poolAddress, d, policyOf, s) && Verdicts(s, cfg, start, made, v)
    ensures v == Allow(None) <==>
            match DecodeClientActions(calldata, cfg.poolAddress, d)
            case None => true
            case Some(call) => Told(call, d, policyOf) && forall x :: !Owes(call, d, policyOf, x)
  {
    if DecodeClientActions(calldata, cfg.poolAddress, d).Some? {
      var call := DecodeClientActions(calldata, cfg.poolAddress, d).value;
      hide DecodeClientActions, Owes, Told, PolicyUnknown, AccountUnknown;
      if Told(call, d, policyOf) && forall x :: !Owes(call, d, policyOf, x) {
        DecidesOnce(call, d, policyOf, s, NoSubject);
      }
    }
  }

  lemma AllUnsigned(calls: seq<InterceptorRace.Call>, events: seq<Event>, i: nat, x: Settlement)
    requires IsFirstSignature(calls, events, None) && Ends(calls, events, i, x)
    ensures Ends(calls, events, i, Returned(Allow(None)))
  {
  }

  /**
   * Through the race: if an interceptor ended otherwise than with an unsigned allow, the transaction is
   * blocked or allowed signed.
   */
  lemma RaceKeepsTheSignature(calls: seq<InterceptorRace.Call>, events: seq<Event>, i: nat, x: Settlement)
    requires calls != [] && InterceptorRace.IsRun(InterceptorRace.Start(calls), events)
    requires Ends(calls, events, i, x) && x != Returned(Allow(None))
    ensures InterceptorRace.Exec(InterceptorRace.Start(calls), events).outcome != Some(Allow(None))
  {
    hide *;
    if InterceptorRace.Exec(InterceptorRace.Start(calls), events).outcome == Some(Allow(None)) {
      RaceIsSound(calls, events);
      AllUnsigned(calls, events, i, x);
      EndsOnce(calls, events, i, x, Returned(Allow(None)));
    }
  }
}
