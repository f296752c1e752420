# Verification of the privacy client, its interceptors and its discovery service

Dafny models of the repository's hardest self-contained pieces, and proofs about them. The main
theorems range over all inputs, all runs or all interleavings of their model; where a promise fails,
a lemma gives the input or the run. Hash functions are ordinary function parameters: a theorem about
them holds of any function of that type.

| files | what they model |
|---|---|
| `Eip712`, `CallSet712`, `CallSetBinding`, `Snip12Encoder`, `Snip12`, `EthSignature`, `Bytes`, `Numerals` | The hand-written EIP-712 and SNIP-12 hashers, the typed data, a generic encoder for each standard, and what the digests commit to. |
| `IoBudget`, `IoBudgetRace` | The shared I/O counter: single operations as an object, and threads racing with load / compare-exchange loops. |
| `InterceptorRace`, `RaceOutcome` | `runInterceptors` on the FIFO microtask queue, and what it returns, said of the calls and their settlements alone. |
| `PolicyClient` | The open-note policy client: the object with its two maps, and every interleaving of callers and RPC answers. |
| `PoolTransaction`, `ScreenedAddress`, `ScreeningInterceptor` | Recognising a pool call, resolving whom to screen, the retry loop with its deadline, the verdict. |
| `Classifier`, `ClassifierLoops`, `ClassifierPartition`, `ClassifierTotals`, `Ledger`, `Sums` | `classifyTransaction` as a group-by, its loops, and its fusion with `computeBalanceUpdates`. |
| `Timeline` | The mutable span tree. |
| `RateLimiter`, `RateLimiterRuns` | The fixed-window limiter on its LRU map, and whole runs of it. |
| `Canonicity`, `PagedReads` | The two-round-trip canonicity check against a moving chain; batched, paged and windowed reads. |
| `Amounts`, `AmountGrammar`, `AmountCollisions` | Printing and parsing decimal amounts, which texts parse, and which amounts print alike. |
| `Builder` | The operation builder, its placeholders, and the prover that replays and substitutes. |
| `Scoring` | The wallet-exposure scorer, over reals. |
| `ViewingKey` | Passphrase packing, key stretching and the canonical fold. |

`Wrappers` holds the shared option and result datatypes and a little arithmetic.

Where a class or a loop updates state, the model is a class or a method with a loop, proved against
a function of the old state or of the inputs; the theorems are then about that function.

## What turned out different from the documentation

The models follow the code in these places, and a lemma states each exactly.

- A wallet and the hand-written hashers agree exactly when every number is below 2^256. Above, the
  hand-written hash truncates and a wallet refuses (`WalletSignsCallSetHash`).
- `fetch_add` wraps, so the budget is conserved exactly when no reclaim runs past the word
  (`Conservation`). A failed `try_consume` reports less available than it needed exactly when what
  was reclaimed since does not make up for what was missing, taken since or lost to wrapping
  (`AvailableExactly`); in `AvailableCanReachNeed` it does.
- A policy time to live of zero means entries never expire, so the freshness bound needs a positive
  one (`PoliciesAreFresh`, `ZeroTtlIsForever`).
- Any minute admits at most `2 * max(1, limit) - 1` requests of a partner, one less than twice the
  limit, and that is reached (`AnyMinuteIsBounded`, `BoundIsReached`). A limit below one still
  admits one request per window. The bounds need at most twenty partners: twenty-one asking in turn
  evict one another, and any number of requests of one of them is admitted at one instant, whatever
  the limit (`TwentyOneUndoTheBounds`).
- `formatAmount` and `toRawAmount` round trip exactly for amounts that are not negative, have no
  decimals, or are whole (`RoundTrip`). Other amounts can print alike: exactly those with the same
  whole part whose fractions differ by a shift (`PrintsAlikeExactly`), such as -105 and -150 with
  two decimals (`NegativesCollide`). `toRawAmount` ignores whatever follows a second dot
  (`RawAmountCuts`).
- `createOpenNote` counts the note before it converts the user's address. With an address that is no
  number it throws with a note counted and none queued (`UnqueuedNote`); the builder is well built
  exactly when the address converts or no such call precedes the first invoke (`WellBuiltExactly`).
- `step` opens its span before its `try`, so a listener that throws leaves the span open, and only
  that does (`StepThrough`).
- The typed data's verifying contract is an address: a wallet refuses an OutsideExecution domain whose
  contract is 2^160 or more (`DomainEncodes`, `WalletSignsOutsideExecutionHash`).
- A rule id that names a property every JavaScript object has is never kept by the scorer, although
  other unknown ids always are; a body that is JSON `null` is an error (`OtherRulesFireExactly`,
  `ScoreResponse`).
- The canonical fold loses the key at the residues 0, h and h + 1, where h is the half-order
  (`FoldIsCanonical`).

## Assumptions

- Microtasks run to completion within a turn, and the clock moves between turns (`PolicyClient`).
  An RPC's answer was taken from the pool while the read was out, and arrives within the read's
  timeout or not at all. Eviction from the policy cache is arbitrary, which covers LRU order.
- lru-cache and starknet.js are not part of this model. Of lru-cache it uses: entries older than the
  time to live are absent, zero means no time to live, `get` refreshes recency, `set` evicts the
  least recently used key. Of starknet.js: `num.toHex`, a `num.toBigInt` that reads it back, and
  decoders as functions that may fail.
- A sleep lasts exactly as asked and a call ends by its timeout (`ScreeningInterceptor`).
- The node answers truthfully at the instant of each round trip, a block hash determines the block's
  number, and no reorganisation goes below the L1-accepted prefix (`Canonicity`). Storage and event
  reads are pinned to one block. Continuation tokens are opaque: each stands for a place in the
  node's scan, a page holds the matching events up to the next place, none perhaps, and every
  continuation leaves less to scan (`PagedReads`).
- The jobs that adopt the never-settling promise of an allow, and the promise `runInterceptors`
  returns, change no order; they are counted but not queued (`InterceptorRace`).
- `openNotes` lists a transaction's notes in creation order (`Builder`).
- Strings are sequences of Unicode scalar values; lower-casing and white space are ASCII.

## Model

| member | source | states |
|---|---|---|
| CallSet712.WalletSignsCallSetHash | client/src/signers/eip712-call-set-signer.ts:93-174 | for all calls, data, chains and accounts, a generic wallet encoder run on the typed data signs exactly the hand-written CallSet digest if every contract, entry-point hash, calldata felt, data felt and the chain id fit 256 bits, and refuses otherwise |
| CallSet712.TypedDataShows | client/src/signers/eip712-call-set-signer.ts:241-265 | the typed data spells out, in order, each call's contract, entry-point hash and calldata, absent calldata as none, the data, and a domain of chain name, version 2, chain id and the account modulo 2^128 |
| CallSet712.WalletSignsOutsideExecutionHash | client/src/signers/eip712-call-set-signer.ts:214-330 | for any domain, the wallet run on typed data of the same types signs exactly the hand-written OutsideExecution digest if the contract fits 160 bits and every other number 256, and refuses otherwise |
| CallSet712.WalletSignsAccountsOutsideExecution | client/src/signers/eip712-call-set-signer.ts:289-330 | in particular on `outsideExecutionTypedData`, whose domain is the account's, if every number fits 256 bits |
| CallSet712.CallSetTypeString | client/src/signers/eip712-call-set-signer.ts:98-100 | the encodeType string written by hand is the one the handed-out type table generates, referenced struct included |
| CallSet712.OutsideExecutionTypeString | client/src/signers/eip712-call-set-signer.ts:101-103 | the same for OutsideExecution |
| CallSet712.DomainEncodes | client/src/signers/eip712-call-set-signer.ts:137-150 | hashStruct of any domain object is the hand-written domain separator, or nothing when its chain id is 2^256 or more or its contract 2^160 or more |
| CallSet712.CallArrayEncodes | client/src/signers/eip712-call-set-signer.ts:109-124 | the wallet's encoding of the array of calls is the keccak of the concatenated call hashes, or nothing when a number does not fit |
| CallSetBinding.CallSetHashBinds | client/src/signers/eip712-call-set-signer.ts:129-174 | equal CallSet digests come from the same chain, account low 128 bits, data, and calls in order with the same contract, entry-point hash and calldata, or from an explicit pair of colliding preimages of the two computations |
| CallSetBinding.OutsideExecutionHashBinds | client/src/signers/eip712-call-set-signer.ts:214-232 | the same for OutsideExecution: domain, calls, caller, nonce and both times |
| CallSetBinding.KindsDoNotCross | client/src/signers/eip712-call-set-signer.ts:129-232 | a CallSet digest equals an OutsideExecution digest only through a collision |
| CallSetBinding.CallSetHashDependsOnly | client/src/signers/eip712-call-set-signer.ts:159-174 | the converse of binding: that content alone decides the digest |
| Snip12.CallSetHashBinds | client/src/signers/snip12-call-set-signer.ts:61-106 | equal SNIP-12 hashes come from the same account, chain, data, and calls in order with the same contract, entry-point hash and calldata, exactly, or from an explicit Poseidon collision |
| Snip12.EncoderAgrees | client/src/signers/snip12-call-set-signer.ts:37-106 | for all calls, data, chains and accounts, a generic SNIP-12 revision 1 encoder run on the CallSet typed data, with the pinned type hashes and a numeric version, computes exactly the hand-written hash: prefix, domain, account, struct |
| Bytes.To32 | client/src/signers/eip712-call-set-signer.ts:77-85 | the filled array is the 32-byte big-endian reading, higher bytes dropped |
| Bytes.BytesToBigInt | client/src/signers/eip712-call-set-signer.ts:70-74 | the accumulated number, which written back at the same width gives the bytes again |
| Bytes.WordsEqual | client/src/signers/eip712-call-set-signer.ts:88-88 | concatenated 32-byte words are equal exactly when the numbers agree modulo 2^256 |
| Bytes.ReadBack | client/src/signers/eip712-call-set-signer.ts:70-85 | reading what was written on n bytes gives the number modulo 256^n |
| Bytes.Utf8Injective | client/src/viewing-key.ts:32-32 | UTF-8 encodings of different texts differ |
| EthSignature.SixFeltsCarrySignature | client/src/signers/eip712-call-set-signer.ts:340-386 | an accepted 65-byte signature comes back from its six felts, limbs fit 128 bits, and v is 27 or 28 by parity |
| EthSignature.AcceptedExactly | client/src/signers/eip712-call-set-signer.ts:375-386 | accepted are exactly 65 bytes or more whose 65th is 0, 1, 27 or 28 |
| IoBudget.IoBudget.Consume | crates/discovery-core/src/io_budget.rs:46-52 | all or nothing: succeeds exactly when enough remains, and is the atomic operation of the logs |
| IoBudget.IoBudget.Reclaim | crates/discovery-core/src/io_budget.rs:58-62 | the counter after a wrapping addition |
| IoBudget.IoBudget.TryConsume | crates/discovery-core/src/io_budget.rs:65-74 | without interference, a failure reports the need and a strictly smaller remainder, and takes nothing |
| IoBudget.IoBudget.ConsumeUpTo | crates/discovery-core/src/io_budget.rs:91-109 | items times cost is exactly what was subtracted, and exhausted means another item was not affordable |
| IoBudget.GrantIsLargest | crates/discovery-core/src/io_budget.rs:99-106 | the grant is the largest number both asked for and affordable |
| IoBudget.Conservation | crates/discovery-core/src/io_budget.rs:46-109 | over every log: remaining plus taken equals limit plus reclaimed, exactly when no reclaim wrapped |
| IoBudget.GrantedInTotal | crates/discovery-core/src/io_budget.rs:91-109 | at one cost without reclaims the items granted are min(sum asked, limit / cost), in any order |
| IoBudget.AvailableExactly | crates/discovery-core/src/io_budget.rs:65-74 | the available figure of a failed try_consume is below the need exactly when what remained and was reclaimed since is less than the need, what was taken since and what wrapped |
| IoBudget.AvailableFallsShort | crates/discovery-core/src/io_budget.rs:65-74 | in particular, without a reclaim in between the figure is below the need |
| IoBudget.AvailableCanReachNeed | crates/discovery-core/src/io_budget.rs:65-74 | a run where, with a reclaim in between, it is not |
| IoBudgetRace.RunIsSequential | crates/discovery-core/src/io_budget.rs:46-109 | linearizability: every interleaving of load and compare-exchange steps is explained by a sequential log in each thread's program order |
| IoBudgetRace.RunConserves | crates/discovery-core/src/io_budget.rs:46-109 | conservation over every interleaving of any number of threads |
| IoBudgetRace.RaceGrantsInTotal | crates/discovery-core/src/io_budget.rs:91-109 | a finished race at one cost without reclaims granted exactly min(sum asked, limit / cost) |
| IoBudgetRace.RunsFinish | crates/discovery-core/src/io_budget.rs:46-109 | each failed exchange is charged to another's success: steps are bounded, and a run stops only when all have finished |
| RaceOutcome.RaceIsSound | proof-interceptor/src/interceptor.ts:43-91 | whatever the settlement order: an allow means every interceptor returned one, and carries the signature at the least signed place; a block is that of the interceptor that ended first among those that blocked or threw, a throw counting as block interceptor_error |
| RaceOutcome.RaceDecides | proof-interceptor/src/interceptor.ts:72-91 | once the queue drains the outcome is a block exactly when some interceptor blocked or threw, and there is one exactly when that or all ended |
| InterceptorRace.QueueDrains | proof-interceptor/src/interceptor.ts:43-91 | n interceptors run at most 4n + 4 microtasks on any run, the adoption of an allow's pending promise and of the returned promise included |
| InterceptorRace.RunKeeps | proof-interceptor/src/interceptor.ts:43-91 | every reachable state keeps the invariant that no allow can overtake a block already seen |
| PolicyClient.OpenNoteScreeningPolicyClient.GetPolicy | proof-interceptor/src/screening-policy.ts:79-90 | the synchronous part of a call: served while live, joined to the read in flight, or starting one |
| PolicyClient.OpenNoteScreeningPolicyClient.ReadOnce | proof-interceptor/src/screening-policy.ts:92-101 | the read in flight for the address, or the new one, and the pending map after |
| PolicyClient.OpenNoteScreeningPolicyClient.Resume | proof-interceptor/src/screening-policy.ts:86-89 | a resumed caller caches a policy and never a failure |
| PolicyClient.SingleFlight | proof-interceptor/src/screening-policy.ts:92-101 | over every interleaving, at most one RPC is in flight per normalised address |
| PolicyClient.SettlingRemovesOwn | proof-interceptor/src/screening-policy.ts:96-98 | a settling read removes its own pending entry and no other |
| PolicyClient.CallersShareTheAnswer | proof-interceptor/src/screening-policy.ts:79-101 | callers that awaited one read get one answer |
| PolicyClient.AnswerIsMeant | proof-interceptor/src/screening-policy.ts:103-166 | a read resolves to a policy exactly when the reply is one felt that decodes to that policy's name, or the entrypoint is missing and the policy is Exempt |
| PolicyClient.AwaitersAreToldTheReply | proof-interceptor/src/screening-policy.ts:79-101 | over every run, whoever awaited a read gets the policy its reply means, and nothing exactly when it means none |
| PolicyClient.FailuresNeverCached | proof-interceptor/src/screening-policy.ts:86-89 | every cached policy is one a reply of the pool meant within a read's timeout before it was cached |
| PolicyClient.PoliciesAreFresh | proof-interceptor/src/screening-policy.ts:79-139 | with a positive time to live, a policy returned at t is one a reply of the pool meant no earlier than t - ttl - timeout |
| PolicyClient.ZeroTtlIsForever | proof-interceptor/src/screening-policy.ts:53-62 | with a time to live of zero, a run that returns an answer as old as one likes |
| PoolTransaction.NormalizeIsCanonical | proof-interceptor/src/pool-transaction.ts:110-114 | the normal form of a hex felt, in any spelling, is the shortest numeral of its value |
| PoolTransaction.NormalizeReads | proof-interceptor/src/pool-transaction.ts:110-114 | a prefix of either case or none and digits of either case normalise to what `num.toHex` writes for the number |
| PoolTransaction.NormalizeDecidesEquality | proof-interceptor/src/pool-transaction.ts:110-114 | two spellings normalise alike exactly when they are the same number |
| PoolTransaction.SinglePoolCallIsByValue | proof-interceptor/src/pool-transaction.ts:30-37 | a single pool call is recognised by value, whatever the spelling |
| PoolTransaction.DecodesExactly | proof-interceptor/src/pool-transaction.ts:69-93 | exactly which calldata decodes, and which felts are the user, the viewing key and the actions |
| PoolTransaction.ParseIntReads | proof-interceptor/src/pool-transaction.ts:76-77 | the length is read past blanks, a sign and a prefix, up to the first character that is no digit, and is no number without a digit |
| ScreenedAddress.GetScreenedAddress | proof-interceptor/src/screened-address.ts:48-94 | the subject is none, one or a conflict exactly as the call owes a screening of no, one or more addresses, or says that the policy or the shadow account cannot be told; owed are the depositor, and for notes created the first invoke's contract under Required, or under Delegated the shadow account of a compute-invoke that settles a note |
| ScreenedAddress.DecidesOnce | proof-interceptor/src/screened-address.ts:48-94 | no call fits two subjects |
| ScreenedAddress.GetOpenNoteDepositor | proof-interceptor/src/screened-address.ts:130-150 | the first action of the invoke phase, when any open note is created |
| ScreenedAddress.GetDelegatedAddress | proof-interceptor/src/screened-address.ts:101-124 | no address exactly for a plain invoke or one that creates no open note, an unreadable count included; an underivable one fails closed |
| ScreenedAddress.InteractionIsTheDepositors | proof-interceptor/src/shadow-account.ts:93-132 | searching by address finds the depositor's own action, so its arguments decide the shadow account |
| ScreenedAddress.DelegatedIsOwed | proof-interceptor/src/shadow-account.ts:54-79 | the derived shadow account is the one of the depositor's own contract, arguments and user |
| ScreenedAddress.DepositOwesItsDepositor | proof-interceptor/src/screened-address.ts:57-63 | a call with a deposit always has a subject, and a single subject is the depositor |
| ScreeningInterceptor.ScreenAndSign | proof-interceptor/src/screening-interceptor.ts:120-179 | at most maxRetries + 1 calls, each after the last failed and its backoff, all ended by the deadline; the outcome is the last call's, and giving up means calls or time ran out |
| ScreeningInterceptor.Intercept | proof-interceptor/src/screening-interceptor.ts:77-118 | the verdict for the resolved subject, screening that subject alone and nobody otherwise |
| ScreeningInterceptor.AllowedMeansSigned | proof-interceptor/src/screening-interceptor.ts:211-261 | a call allows exactly on a 2xx reply, not blocked, with a well-formed signature |
| ScreeningInterceptor.HexFeltTextIs | proof-interceptor/src/screening-interceptor.ts:42-42 | a signature part is `0x` and one to 64 hexadecimal digits of either case |
| ScreeningInterceptor.BackoffIs | proof-interceptor/src/screening-interceptor.ts:278-280 | retries wait one, two and four seconds, then five |
| ScreeningInterceptor.VerdictsAre | proof-interceptor/src/screening-interceptor.ts:96-117 | the verdict and its reason for every kind of subject and every way the last call can end |
| ScreeningInterceptor.DepositNeverUnsigned | proof-interceptor/src/screening-interceptor.ts:96-117 | a decoded call with a deposit is never allowed unsigned |
| ScreeningInterceptor.SignedMeansScreened | proof-interceptor/src/screening-interceptor.ts:96-117 | a signed allow means exactly one address was owed and its last /screen reply carried that signature, well formed |
| ScreeningInterceptor.UnsignedMeansNobodyOwed | proof-interceptor/src/screening-interceptor.ts:96-117 | an unsigned allow of a pool call means exactly that nobody was owed a screening |
| ScreeningInterceptor.RaceKeepsTheSignature | proof-interceptor/src/interceptor.ts:80-90 | through the race of interceptors, a verdict that is no unsigned allow leaves the transaction blocked or allowed signed |
| Classifier.KeyInjective | sdk/src/internal/action-classifier.ts:116-116 | the string key of an aggregate names one direction, counterparty and token |
| Classifier.Executors | sdk/src/internal/action-classifier.ts:55-64 | exactly the depositors, each once, in order of first occurrence |
| Classifier.Groups | sdk/src/internal/action-classifier.ts:98-124 | exactly the groups of notes to or from others, each once |
| ClassifierLoops.GroupReceived | sdk/src/internal/action-classifier.ts:55-64 | the map built by the loop holds every executor's received legs |
| ClassifierLoops.MatchSwaps | sdk/src/internal/action-classifier.ts:66-77 | the nested loops with their index set give each executor its sent legs, and match exactly the withdrawals to executors |
| ClassifierLoops.AggregateNotes | sdk/src/internal/action-classifier.ts:98-124 | the two maps hold one aggregate per group and one per own token |
| ClassifierLoops.ClassifyTransaction | sdk/src/internal/action-classifier.ts:39-164 | the whole of the loops computes the group-by specification |
| ClassifierPartition.WithdrawalsPartition | sdk/src/internal/action-classifier.ts:51-94 | before fees are stripped every withdrawal and every open-note deposit is in exactly one action, as multisets |
| ClassifierPartition.WithdrawalsAreNamed | sdk/src/internal/action-classifier.ts:66-94 | a sent leg belongs to the swap whose executor received it, a fee to a fee recipient, a plain withdrawal to neither |
| ClassifierPartition.OneTransferPerGroup | sdk/src/internal/action-classifier.ts:98-142 | one transfer, with summed amount and count, per direction, counterparty and token present, and none otherwise |
| ClassifierPartition.SelfShownAlone | sdk/src/internal/action-classifier.ts:144-151 | transferSelf is shown exactly when own notes and fee payments are all there is |
| ClassifierTotals.TransfersCarryTheNotes | sdk/src/internal/action-classifier.ts:98-142 | each transfer shown carries the sum and the number of the notes of its direction, counterparty and token, and is absent when there are none |
| ClassifierTotals.SelfTransfersCarryTheNotes | sdk/src/internal/action-classifier.ts:98-151 | each transferSelf carries the sum and the number of the own notes of its token |
| ClassifierTotals.RegistrationStandsAlone | sdk/src/internal/action-classifier.ts:43-49 | a registration is shown alone, with its key, and never otherwise |
| Ledger.ClassifiedNetIsDirect | demo/src/hooks/useHistory.ts:114-163 | fusion: classifying and netting gives, per token, deposits plus incoming minus outgoing minus charged withdrawals, straight off the raw events |
| Ledger.StripsIncomingOnly | sdk/src/internal/action-classifier.ts:153-157 | fees are stripped exactly from transactions with incoming notes and no outgoing ones |
| Ledger.ComputeBalanceUpdates | demo/src/hooks/useHistory.ts:114-163 | one entry per token touched, holding the net over the actions |
| Ledger.TransactionBalances | demo/src/hooks/useHistory.ts:114-163 | both loops in sequence compute the direct sum |
| Timeline.BeginKeeps | demo/src/timeline.ts:16-26 | begin keeps the stack a root-to-node path of last children, exactly the spans off it closed, children inside parents, siblings disjoint and ordered |
| Timeline.EndKeeps | demo/src/timeline.ts:28-31 | so does end, on an empty stack too |
| Timeline.EndStampsTop | demo/src/timeline.ts:28-31 | end gives the top span the clock's reading and no other span anything |
| Timeline.AnyCallsKeep | demo/src/timeline.ts:10-31 | from an empty timeline, so does any sequence of them, balanced or not, against a clock that never goes back |
| Timeline.Timeline.Begin | demo/src/timeline.ts:16-26 | the whole state of the tree after begin |
| Timeline.Timeline.End | demo/src/timeline.ts:28-31 | the whole state of the tree after end |
| Timeline.Timeline.StepThrough | demo/src/timeline.ts:33-40 | whatever its body does, thrown or not, step restores the stack and records exactly the steps run under its span, unless listeners throw: then the stack keeps exactly one open span more for each that did |
| Timeline.RecordedThen | demo/src/timeline.ts:33-40 | what consecutive bodies record is recorded in order, the earlier spans untouched |
| Timeline.TotalCoversAll | demo/src/timeline.ts:43-48 | no span starts before or ends after the total |
| Timeline.TotalIsReached | demo/src/timeline.ts:43-48 | the total is reached: from the start of one span to the end of one, or to now |
| Timeline.Timeline.TotalTime | demo/src/timeline.ts:43-48 | the method computes that total |
| RateLimiter.RateLimiter.Check | elliptic-proxy/src/rate-limit.ts:21-36 | the answer and the whole cache after one check, counters and recency |
| RateLimiterRuns.CheckIsOwn | elliptic-proxy/src/rate-limit.ts:16-36 | with at most twenty partners a check touches its own partner's counter only |
| RateLimiterRuns.WindowsAdmitTheFirst | elliptic-proxy/src/rate-limit.ts:21-36 | a partner's windows are disjoint and a minute long, and each admits exactly its first max(1, limit) requests |
| RateLimiterRuns.AnyMinuteIsBounded | elliptic-proxy/src/rate-limit.ts:12-36 | any 60,000 ms half-open interval of any run admits at most 2 max(1, limit) - 1 |
| RateLimiterRuns.BoundIsReached | elliptic-proxy/src/rate-limit.ts:12-36 | for every limit, below one included, some run reaches that bound |
| RateLimiterRuns.TwentyOneUndoTheBounds | elliptic-proxy/src/rate-limit.ts:13-19 | twenty-one partners undo both bounds: for every limit and n, their asking in turn admits n requests of one partner at one instant |
| Canonicity.AnswerWasTrue | crates/discovery-service/src/rpc_backend.rs:460-478 | against a chain that appends, reorganises above its final prefix or finalises in between, each answer is true of the chain at some instant during the call |
| Canonicity.ShortcutChangesNothing | crates/discovery-service/src/rpc_backend.rs:467-472 | the L1 shortcut answers what the second round trip would, now or later |
| Canonicity.FinalForever | crates/discovery-service/src/rpc_backend.rs:467-472 | a final block is canonical in every later state |
| Canonicity.HashAloneCannotTell | crates/discovery-service/src/rpc_backend.rs:461-462 | one and the same answer by hash is truthful of a canonical and of a replaced block |
| PagedReads.ReadSlots | crates/discovery-service/src/rpc_backend.rs:309-323 | batches agree with reading slot by slot, and fail exactly when a round trip fails or answers with another type |
| PagedReads.ChunksJoin | crates/discovery-service/src/rpc_backend.rs:318-321 | the batches are the slots in order, none empty or over the batch size |
| PagedReads.GetEvents | crates/discovery-service/src/rpc_backend.rs:344-405 | for opaque tokens and pages that may be empty, the result is exactly the stored events the original filter matches, each once and in order, an absent block number filled in; it fails exactly when the last page it asks for does |
| PagedReads.TrimmingKeepsMatches | crates/discovery-core/src/events_backend.rs:68-99 | dropping trailing wildcards changes no match of the in-memory backend |
| PagedReads.StrictNodesQualify | crates/discovery-service/src/rpc_backend.rs:356-364 | a node that wants a key at every position agrees on trimmed filters |
| PagedReads.TrimmingIsNeeded | crates/discovery-service/src/rpc_backend.rs:356-364 | untrimmed, such a node misses an event |
| PagedReads.ResolveShadowAccounts | client/src/shadow-accounts.ts:35-58 | windows of at most 1024 agree with one view over the whole range, empty and reversed ranges included |
| PagedReads.ViewIsThePrefix | client/src/shadow-accounts.ts:29-34 | the view lists consecutive accounts, and with untilUndeployed the longest deployed prefix |
| Amounts.RoundTrip | demo/src/format.ts:14-69 | parsing what was printed gives the amount back exactly when it is not negative, has no decimals or is whole |
| Amounts.FormatInjective | demo/src/format.ts:14-20 | an amount that round trips, as every non-negative one does, prints like no other |
| AmountCollisions.PrintsAlikeExactly | demo/src/format.ts:14-20 | two amounts print alike exactly when they are equal, or negative with one whole part and one fraction the other's shifted |
| AmountCollisions.NegativesCollide | demo/src/format.ts:14-20 | -105 and -150 with two decimals print alike |
| Amounts.ParseFormatParse | demo/src/format.ts:62-69 | printing and parsing again what was parsed changes nothing exactly when it is not negative, has no decimals or is whole |
| Amounts.ParsesDigits | demo/src/format.ts:62-69 | digits with at most one dot parse to the scaled number, a missing whole part included |
| AmountGrammar.BigIntReads | demo/src/format.ts:62-69 | exactly which texts `BigInt` accepts, blanks around a decimal or a prefixed number, and as which number |
| AmountGrammar.RawAmountCuts | demo/src/format.ts:62-69 | the part before the first dot and the part up to the second are kept, what follows is dropped, and too long a fraction fails |
| Amounts.NegativeFails | demo/src/format.ts:14-20 | any other negative amount prints as something that does not parse |
| Builder.PrivacyBuilder.Perform | client/src/builder.ts:42-190 | the builder's fields after any call, and whether it threw |
| Builder.WellBuiltExactly | client/src/builder.ts:61-116 | after any calls, thrown ones included, no OPEN transfer follows an invoke, and the count is the OPEN transfers queued exactly when the user's address converts or no convertible note is asked for before the first invoke |
| Builder.UnqueuedNote | client/src/builder.ts:97-111 | with an address that is no number, one thrown createOpenNote leaves a note counted, handed out as a placeholder and never queued |
| Builder.PlaceholdersResolve | client/src/strk20-prover.ts:142-164 | whatever is called before and after, a callback gets one placeholder per note asked for in time; each resolves in range to the note it stood for if the user's address converts, and is out of range if not; the pool's placeholder resolves to the pool |
| Builder.ThrowsExactly | client/src/builder.ts:42-190 | after any calls, a call throws exactly on a missing number, a note asked for after an invoke or without an address, or its own callback throwing on the placeholders handed to it |
| Builder.PlaceholderIndexIs | client/src/strk20-prover.ts:142-142 | exactly the texts with one or more decimal digits between the fixed parts stand for a note |
| Builder.LiteralsSubstitute | client/src/strk20-prover.ts:149-164 | anything else but the pool's placeholder is the number it parses to, or fails |
| Builder.BuildReplays | client/src/strk20-prover.ts:94-140 | replaying the built actions asks the core builder for what the calls asked, amounts and open notes included |
| Builder.Translate | client/src/strk20-prover.ts:94-140 | the loop replays every action as what it says, amounts parsed and OPEN kept, and fails exactly when some amount does not parse |
| Builder.SubstituteMeans | client/src/strk20-prover.ts:149-164 | substitution gives each calldata item its meaning, and fails exactly on a note past those created |
| Scoring.AggregateElements | elliptic-proxy/src/scoring.ts:227-248 | the four totals |
| Scoring.FilterAndBuildTriggers | elliptic-proxy/src/scoring.ts:157-187 | the triggers of the evaluations kept, in order |
| Scoring.ScoreResponse | elliptic-proxy/src/scoring.ts:109-149 | the decision, its reason and the distinct rule ids, errors included |
| Scoring.BlocksExactly | elliptic-proxy/src/scoring.ts:117-148 | a complete response blocks exactly when one of its evaluations fires |
| Scoring.MoreNeverUnblocks | elliptic-proxy/src/scoring.ts:109-248 | more evaluations or non-negative elements, anywhere, never turn blocked into allowed |
| Scoring.ElementOrderIsIrrelevant | elliptic-proxy/src/scoring.ts:227-248 | the order of elements changes nothing |
| Scoring.HardBlockAlwaysFires | elliptic-proxy/src/scoring.ts:163-172 | at its bound a hard-block rule blocks whatever risk_score says |
| Scoring.KnownRulesFireExactly | elliptic-proxy/src/scoring.ts:36-225 | exactly when each of the four rules fires, in dollars and percent |
| Scoring.ElementAdds | elliptic-proxy/src/scoring.ts:227-248 | what one more element adds to each total, absent figures adding nothing |
| Scoring.OtherRulesFireExactly | elliptic-proxy/src/scoring.ts:165-177 | for any other id: an inherited property name never fires, and an unknown one fires exactly by its score or percentage above 0.01 |
| ViewingKey.PassphraseToFelts | client/src/viewing-key.ts:31-42 | the loops give the length and the big-endian limbs |
| ViewingKey.KdfInputInjective | client/src/viewing-key.ts:51-53 | the first hash's input determines passphrase and salt |
| ViewingKey.PrefixIsNeeded | client/src/viewing-key.ts:25-30 | without the length prefix a leading zero byte is lost |
| ViewingKey.LimbsFit | client/src/viewing-key.ts:22-42 | every limb is below 2^248 |
| ViewingKey.KdfBinds | client/src/viewing-key.ts:51-57 | one stretched key for two pairs of passphrase and salt means an explicit collision among the inputs hashed |
| ViewingKey.FoldIsCanonical | client/src/viewing-key.ts:66-70 | the fold lands in [1, half-order) and is plus or minus the key exactly outside three residues |
| ViewingKey.FoldMerges | client/src/viewing-key.ts:66-70 | two keys fold alike exactly when equal or opposite modulo the order, or both fold to one |
| ViewingKey.Derive | client/src/viewing-key.ts:51-58 | a thousand rounds and the fold, always a canonical key |
| ViewingKey.PassphraseViewingKeyProvider.GetViewingKey | client/src/viewing-key.ts:78-84 | the derived key, the same on every call |

## Left out

- HTTP servers, fetch, sockets, logging, metrics, configuration, React state and storage: plumbing, kept only as values returned.
- Cryptography and the decoders of starknet.js: functions that are parameters.
- `formatChainId` and `formatTokenAmount`: printing without a round trip to prove.
- `enrich` of the timeline, and `step` bodies that overlap in time or call `begin` and `end` themselves: the stack is then whatever they leave.
- What a timeline listener does, besides throwing: it is called for effect only.
- `runInterceptors` of an empty list, which allows at once: it is one branch.
- The per-block variant of `read_slots` and the request semaphore: the same loop, and a plain counter.
- The block range of `get_events`: the model starts from the node's events in that range.
- The calls and the collect policy of a shadow account invoke: carried along unread.
- Memoisation races of the viewing-key provider: the source awaits nothing between test and assignment.
- ScreeningInterceptor.ScreenAndSign: does not model timer drift or the HMAC of the request, because the clock and the transport are assumptions here.
- Scoring.AggregateElements: does not model floating-point rounding or non-numeric JSON fields, because the figures are reals.
- IoBudget.IoBudget.ConsumeUpTo: does not model the panic on a zero cost, because the type of the cost excludes it as the source's assertion does.
- PolicyClient.PoliciesAreFresh: does not model the cache's clock resolution of about a millisecond, because lru-cache is not part of this model.
- Builder.PrivacyBuilder.Perform: does not model callbacks that call the builder themselves, because a callback is a function of its arguments.
