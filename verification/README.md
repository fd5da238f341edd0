# Verified model of a marketplace backend's money, protocols and walks

The repository is a TypeScript backend. This project models the parts of it whose correctness is hard to
see from any one function, and proves what they promise:

- **Money** (`Sums`, `Sets`, `Allocation`, `AllocationLaws`, `Money`): largest-remainder allocation, even splits, ordered
  clamped deductions and floor-rounded basis-point fees, on unbounded integers. `Allocate`, `SplitEvenly` and
  `DeductInOrder` are methods with the source's loops; what they return is tied to a relation or function, and the
  laws are proved about that.
- **At-most-once protocols** (`Kv`, `KvLaws`, `Canonical`, `Enumeration`, `Idempotency`, `IdempotencyLaws`, `Retries`, `PrintVendor`, `PrintGateway`): the idempotency
  middleware over the key/value store, and the print-submission retry loop over a lossy network against the vendor
  that `fake.ts` specifies.
- **Time and counter bounds** (`RateLimit`, `AiQuota`, `MailingRate`): what the fixed-window limiter, the free AI
  allowance and the two-level rate cache really guarantee.
- **Geohash** (`Geohash`): the interleaved bisection equals a closed-form grid cell.
- **Stored rows** (`AuditWalk`, `Ads`, `Backfill`): the audit-log walk whose every read inserts a row, the ad
  placement lifecycle, its auction and its billing, and the follow backfill.

Protocols are state machines: `Apply` is one atomic step of the source (one store or database operation, one request
on the wire, one tick of the clock), `Run` folds a list of steps, and the main results hold for every list of steps,
that is for every interleaving. The print gateway is one caller's loop, with any other traffic at the vendor before
each of its sends. Beside each machine stands a class with the source's fields. The methods of `Middleware`, `Gateway`,
`AiQuotaService` and `MailingRates` are proved to do what the steps do; those of `Placements` work on a whole
collection with no one else writing, and `Ads.StepsAlone` says that the steps then come to the same for one row. Database collections are maps or sequences with atomic single-document steps.
No proof relies on automatic induction: lemmas it would apply to switch it off and write the induction out.

Taken as given: numbers in request bodies are finite (`JSON.stringify` writes `1e999`, once parsed, as `null`), and
SHA-256 and `JSON.stringify` then never collide, so a digest is the canonical body itself; thrown
application errors carry the name `AppError`, as `src/integrations/print/gateway.ts:199` relies on; only the vendor's
duplicate detection answers 409; the vendor's other refusals arrive as 400 or 404; clocks do not run backwards.

## Where the code and its documentation differ

The model follows the code.

- `src/middleware/idempotency.ts:33` assigns members by name, so a member called `__proto__` becomes the prototype of
  the canonical object and is never hashed: two different bodies then agree. Without such members the canonical form
  keeps the meaning, and only then (`Canonical.CanonKeepsMeaningIff`, `Canonical.ProtoMemberIsNotHashed`).
- `src/integrations/print/gateway.ts:158-162` says that a 401 is followed by a new login and an immediate retry. The retry
  uses up an attempt, so with a good new token the operation is sent again if and only if an attempt is left
  (`PrintGateway.SentAgainAfter401Iff`; `PrintGateway.SentAgainAfter401` covers every outcome of the logins). None is left
  to a call that is not retryable, nor to a retryable one answered 401 at its third attempt
  (`PrintGateway.Unauthorised401EndsSingleCall`, `PrintGateway.Late401EndsRetryableCall`).
- `src/integrations/print/fake.ts:228` calls terminal states terminal and the pipeline one-way. Every terminal state can
  be left for any status (`PrintVendor.TerminalIsNotTerminal`), and the pipeline runs forward only until something takes
  the order off it; by way of a state off it, it runs backwards (`PrintVendor.PipelineRunsForward`,
  `PrintVendor.DetourRunsBackwards`).
- `src/modules/ai/aiQuota.service.ts:119-121` says a release cannot mint allowance. `release` recomputes the month, and
  a call reserved in one month that fails in the next one frees a place there. The counters stay exact if and only if
  a release runs in the month of its reservation (`AiQuota.ReleaseIsExactIffSameMonth`,
  `AiQuota.StrayReleaseMintsAllowance`).
- `src/modules/ads/ads.service.ts:665-668` writes `active` whatever the status was. A row is on air unpaid at some time
  if and only if it is resumed before it is activated (`Ads.EverOnAirUnpaidIff`, `Ads.ResumeServesUnpaid`).
- `src/modules/ads/ads.service.ts:483-492` writes back what was computed from the row as read. Impressions counted since
  are never billed (`Ads.SettlementDropsWhatCameBetween`), and charges settled since are erased: spending falls if and
  only if they came to more than the writer's own batch (`Ads.SettlementErasesChargesBetween`,
  `Ads.StaleSweepErasesCharge`), never if no other settlement was written (`Ads.LoneSettlementKeepsCharges`).
- `src/modules/ads/ads.service.ts:395` calls the selection an honest auction of the highest CPM. The query's limit comes
  before the sort. A call that shows n ads is honest, whichever rows are fetched, if and only if at most 50 rows are
  servable, or all eligible ads tie, or at least n + (servable rows - 50) of them tie for best (`Ads.HonestAtIff`); it is
  honest for every n only in the first two cases (`Ads.HonestIff`, `Ads.LimitMayHideTheBest`).
- `src/modules/ads/ads.service.ts:131-136` says that a settled charge lets the placement start delivering. It does if and
  only if the row still waits for payment when the webhook reads it and when it writes; a checkout finished after the
  abandonment sweep, or after a pause, is charged and its placement neither marked paid nor put on air (`Ads.PaymentActivatesIff`,
  `Ads.LatePaymentIsLost`).
- `src/modules/boost/mailingRate.ts:75` starts a fresh memo from a stored rate, so a rate can be shown for nearly two
  TTLs after it was stored (`MailingRate.TwiceTtlIsReached`). A rate in the memo need not be in the store at all
  (`MailingRate.MemoOutrunsStore`).
- `src/modules/boost/mailingRate.ts:48` says that invalidating clears both layers. What is in flight can refill them; an
  invalidation works if and only if no old rate is still out (`MailingRate.InvalidationWorksIff`,
  `MailingRate.InvalidateLosesToCallInFlight`).
- The fallback at `src/shared/money.ts:107-113` and the skip at `:103` are dead code (`Allocation.TurnHasWeight`).

## Model

| member | source | states |
|---|---|---|
| Allocation.Allocate | src/shared/money.ts:81-115 | The loop over an array of floors returns exactly the largest-remainder parts: each its floor or one more, in order of discarded fraction then position, mirrored for a negative total; all zeros for a zero total or no positive weight. |
| Allocation.SortSorts | src/shared/money.ts:93-99 | The hand-out order really is sorted by larger fraction, ties by position. |
| Allocation.SortKeeps | src/shared/money.ts:93-99 | Sorting loses and invents no leg, and keeps the sum of fractions. |
| Allocation.OrderCovers | src/shared/money.ts:93-99 | The order lists every leg exactly once with its own fraction and weight. |
| Allocation.FractionsSum | src/shared/money.ts:90-96 | The discarded fractions sum to magnitude times the weights less total weight times the floors. |
| Allocation.LeftoverFromFractions | src/shared/money.ts:90-91 | The remainder is never negative, and total weight times it is exactly the sum of the discarded fractions. |
| Allocation.TurnHasFraction | src/shared/money.ts:101-113 | While cents remain, the leg whose turn it is exists and has a nonzero fraction. |
| Allocation.TurnHasWeight | src/shared/money.ts:101-113 | That leg has a positive weight: neither the skip nor the parking fallback is ever reached. |
| Allocation.HandedOutInOrder | src/shared/money.ts:101-106 | Handing one cent to each of the first legs in order is the largest-remainder choice. |
| AllocationLaws.OnlyPositiveWeightsCount | src/shared/money.ts:84-90 | A leg weighs its weight if that is positive and nothing otherwise; the total weight is the sum of these, positive exactly when some weight is. |
| AllocationLaws.NothingToAllocate | src/shared/money.ts:78-85 | A zero total, or no positive weight, gives every leg zero, one part a leg. |
| AllocationLaws.ExtraCentsInOrder | src/shared/money.ts:93-106 | If a leg gets the extra cent, so does every leg with a larger discarded fraction, or the same one and an earlier place. |
| AllocationLaws.SumsExactly | src/shared/money.ts:41-46 | With a positive total weight the parts sum exactly to the total, whatever its sign. |
| AllocationLaws.WithinOneCent | src/shared/money.ts:68-71 | Every part is less than one cent from its exact share, and a leg of no weight gets nothing. |
| AllocationLaws.NegationCommutes | src/shared/money.ts:87-114 | Allocating the negated total gives the negated parts. |
| AllocationLaws.AllocationIsUnique | src/shared/money.ts:68-71 | Largest remainder with ties to the earlier leg determines the parts: there is only one such allocation. |
| AllocationLaws.HeavierNeverGetsLess | src/shared/money.ts:68-76 | A heavier leg never gets less, and of two legs of equal weight the earlier gets the same or one cent more; for a negative total, mirrored. |
| AllocationLaws.AllocationIsOptimal | src/shared/money.ts:68-76 | Among all integer vectors with the same sum, none has a smaller total deviation from the exact shares. |
| AllocationLaws.ExtraCentHasFraction | src/shared/money.ts:101-106 | A leg that gets the extra cent had a nonzero fraction and a positive weight. |
| AllocationLaws.Threshold | src/shared/money.ts:93-106 | One threshold separates the fractions of legs that got the extra cent from those that did not. |
| Money.RoundsDown | src/shared/money.ts:48-60 | A rate collects baseCents * bps / 10,000 rounded down to a whole cent; nothing for a base or rate that is not positive. |
| Money.BpsSplit | src/shared/money.ts:56-60 | A rate on a sum is at least the rates on the two summands together and at most one cent more. |
| Money.PartByPartAgainstOnce | src/shared/money.ts:56-115 | Charging a rate on each allocated part collects at most what charging it once does, and falls short by at most one cent less than the number of parts. |
| Money.SplitEvenly | src/shared/money.ts:118-121 | An even split is exactly (total mod n) copies of floor + 1 followed by copies of floor, mirrored for a negative total; nothing for no parts. |
| Money.EvenSharesSum | src/shared/money.ts:117-121 | Those shares sum exactly to the total. |
| Money.DeductInOrder | src/shared/money.ts:149-165 | The loop returns the specified legs and remainder, and each label reads as the sum of its legs, 0 if it has none. |
| Money.LegIs | src/shared/money.ts:155-160 | With r cents left by the deductions before it, a rate takes r * bps / 10,000 rounded down and wins over a fixed amount given with it; a fixed amount takes its positive part; neither more than r; a deduction with neither takes nothing. |
| Money.DeductionsConserve | src/shared/money.ts:139-165 | Legs plus remainder equal the gross: no cent appears or vanishes. |
| Money.LaterDeductionsWait | src/shared/money.ts:142-147 | Appending deductions leaves the earlier legs as they were; the new ones act on what those left. |
| Money.TakenMonotone | src/shared/money.ts:155-159 | One deduction from a larger amount takes no less, and at most the difference more, also at rates above 100%. |
| Money.DeductionsMonotone | src/shared/money.ts:149-165 | Every leg and the remainder are monotone in the gross. |
| Money.AllocationReconciles | src/shared/money.ts:174-181 | The legs of an allocation with positive total weight always pass the reconciliation check; a difference is reported exactly. |
| KvLaws.StandsUntilItsTtl | src/shared/kv.ts:57-63 | What is set is read back until its TTL has passed, to the millisecond, for good without one, and not after a delete. |
| KvLaws.ReservesTheAbsent | src/shared/kv.ts:51-55 | A reservation is written exactly when nothing is read back, stands for its TTL, and changes nothing otherwise. |
| KvLaws.CountsWithinItsWindow | src/shared/kv.ts:36-45 | Counting starts a window of its TTL at the first value, and within it goes up by one step without moving its end. |
| KvLaws.PruningIsInvisible | src/shared/kv.ts:26-34 | Deleting an expired entry changes no later lookup of any key. |
| KvLaws.OtherKeysUntouched | src/shared/kv.ts:36-63 | No operation on one key affects another. |
| Kv.MemoryStore.Live | src/shared/kv.ts:26-34 | Returns the entry exactly when it is present and not past its expiry, deleting it when it is past. |
| Kv.MemoryStore.IncrWithTtl | src/shared/kv.ts:36-45 | Counts on from a live entry without moving its expiry; opens a new window at 1 otherwise. |
| Kv.MemoryStore.Get | src/shared/kv.ts:47-49 | Returns the live value, if any. |
| Kv.MemoryStore.SetNx | src/shared/kv.ts:51-55 | Writes and says yes exactly when no live entry holds the key. |
| Kv.MemoryStore.Set | src/shared/kv.ts:57-59 | Overwrites; no TTL, or a TTL of 0, means no expiry. |
| Kv.MemoryStore.Del | src/shared/kv.ts:61-63 | Removes the entry. |
| Canonical.CanonDenotes | src/middleware/idempotency.ts:28-37 | The canonical body means what the body means, `__proto__` members left out, at every depth. |
| Canonical.CanonIsCanonical | src/middleware/idempotency.ts:28-37 | Its keys stand in enumeration order at every depth. |
| Enumeration.IndexIff | src/middleware/idempotency.ts:33 | The keys an object enumerates first are the numbers below 2^32 - 1 written without leading zeros. |
| Enumeration.EnumerationOrder | src/middleware/idempotency.ts:33 | Keys stand by number if they are such numbers, before all others, and those by code units. |
| Canonical.CanonicalUnique | src/middleware/idempotency.ts:17-37 | Two canonical bodies with the same meaning are the same, member order included. |
| Canonical.SameCanonIffSameTree | src/middleware/idempotency.ts:17-37 | Canonical forms agree if and only if the bodies agree as nested maps and ordered arrays, `__proto__` members aside. |
| Canonical.CanonKeepsMeaningIff | src/middleware/idempotency.ts:32-33 | The canonical form keeps the whole meaning if and only if no object at any depth has a `__proto__` member. |
| Canonical.ProtoMemberIsNotHashed | src/middleware/idempotency.ts:32-43 | Concrete bodies that differ in a `__proto__` member and have the same digest. |
| Canonical.CanonIdempotent | src/middleware/idempotency.ts:28-37 | Canonicalising twice changes nothing. |
| Canonical.DigestDecidesEquality | src/middleware/idempotency.ts:39-43 | Equal bodies up to key order have equal digests, and equal digests mean equal bodies if neither has a `__proto__` member; an absent or null body counts as the empty object. |
| Canonical.EmptyBodies | src/middleware/idempotency.ts:39-43 | An absent body, null and the empty object have one digest; a number, string, boolean or array has another. |
| Idempotency.Middleware.TryReserve | src/middleware/idempotency.ts:79-88 | In whatever state other requests have left, reserving writes and decides exactly as the protocol's step. |
| Idempotency.Middleware.ReadExisting | src/middleware/idempotency.ts:88-113 | In whatever state other requests have left by then, the read after a refusal decides exactly as the protocol's step. |
| Idempotency.Middleware.Admit | src/middleware/idempotency.ts:79-113 | The two in sequence, with time passing in between, decide and change the store as the protocol's steps do. |
| Idempotency.Middleware.Record | src/middleware/idempotency.ts:115-128 | The wrapped response stores a 2xx, deletes on a 4xx and leaves the reservation otherwise, as the landing step does. |
| IdempotencyLaws.StartsAreBounded | src/middleware/idempotency.ts:45-71 | In every interleaving, handler starts are at most 1 + 4xx releases that landed + expiries met. |
| Retries.StartsAreOwed | src/middleware/idempotency.ts:45-71 | The same with the releases counted from the requests: runs that answered 4xx and gave the key back. |
| IdempotencyLaws.OneHandlerAtATime | src/middleware/idempotency.ts:50-56 | While no reservation has expired, two handlers never run side by side. |
| IdempotencyLaws.NothingStartsAfterOutcome | src/middleware/idempotency.ts:58-68 | After a 2xx or an unknown outcome no handler starts any more, however late the un-awaited write lands, unless a reservation expires. |
| IdempotencyLaws.ReplayIsOfAStoredRun | src/middleware/idempotency.ts:97-108 | Every replay has the status and payload of a landed 2xx run with the same digest, the only 2xx run if nothing expired. |
| IdempotencyLaws.MismatchIsGenuine | src/middleware/idempotency.ts:98-103 | A mismatch is reported only against a started run whose body really means something else. |
| IdempotencyLaws.OtherBodyIsTurnedAway | src/middleware/idempotency.ts:88-103 | A request that comes while the key is held is refused; however many steps of others later it reads, if the key is then held for another digest it gets a mismatch, and the store is unchanged. |
| IdempotencyLaws.RefusedNeverStarts | src/middleware/idempotency.ts:88-113 | Over all runs, a request whose reservation was refused never starts a handler. |
| Retries.StartsIffNobodyKeepsKey | src/middleware/idempotency.ts:58-68 | While nothing has expired, a request's handler starts if and only if every handler started before it has answered 4xx and given the key back. |
| Retries.RetryIsReplayed | src/middleware/idempotency.ts:88-113 | While nothing has expired, a refused request reads: a mismatch, if the run that keeps the key has another digest; exactly that run's status and payload, if it answered 2xx with a payload and the write has landed; that it is in progress, otherwise. |
| Retries.ReadOfAFreeKey | src/middleware/idempotency.ts:88-96 | If the key was given back since the refusal, the request is told to come again. |
| Retries.NothingExpiresWithinADay | src/middleware/idempotency.ts:82-86 | No run of any requests meets an expiry within 24 hours. |
| IdempotencyLaws.ExpiryAllowsASecondRun | src/middleware/idempotency.ts:119-123 | The bound is reached: a stored 2xx runs out after its TTL and the same request runs again. |
| Idempotency.StepKeepsInv | src/middleware/idempotency.ts:73-132 | Every step keeps the starts counted, the stored entry backed by a run, and each replay and mismatch justified. |
| Idempotency.StepKeepsExclusive | src/middleware/idempotency.ts:82-126 | Until an expiry, every step keeps at most one holder, and the key taken exactly while there is one. |
| PrintVendor.FakePrintVendor.CreateAudienceCount | src/integrations/print/fake.ts:93-121 | Stores the count of a well-formed audience under a new id, refuses one without areas or radius. |
| PrintVendor.FakePrintVendor.SubmitOrder | src/integrations/print/fake.ts:142-195 | Creates, detects a duplicate reference, or rejects, in the source's order of checks, with the whole new state. |
| PrintVendor.FakePrintVendor.CancelOrder | src/integrations/print/fake.ts:205-217 | Cancels a known order whose batch is open. |
| PrintVendor.FakePrintVendor.AdvanceOrder | src/integrations/print/fake.ts:223-234 | Moves an order on, never backwards along the pipeline, closing the batch from printing on. |
| PrintVendor.FakePrintVendor.CloseOrderBatch | src/integrations/print/fake.ts:236-240 | Shuts the cancellation window of a known order. |
| PrintVendor.TrimCutsTheEnds | src/integrations/print/fake.ts:143 | Trimming cuts off the white space at both ends, all of it and nothing else. |
| PrintVendor.TrimIdempotent | src/integrations/print/fake.ts:143 | Trimming twice is trimming once, so gateway and vendor see the same reference. |
| PrintVendor.PerformKeeps | src/integrations/print/fake.ts:77-241 | Every operation keeps orders and references in one-to-one correspondence, ids fresh, and placed orders in place. |
| PrintVendor.PerformAllKeeps | src/integrations/print/fake.ts:77-241 | So does every sequence of operations. |
| PrintVendor.AcceptedIff | src/integrations/print/fake.ts:142-195 | A submission is accepted exactly when its reference is new and not blank, its count is known and agrees, and both sides have artwork; it stands under fresh ids, in preparation, batch open, at 40 cents a piece; otherwise nothing changes. |
| PrintVendor.CountIff | src/integrations/print/fake.ts:93-121 | A selection that is not empty is counted under a fresh id: a thousand an area, 2,500 a radius. |
| PrintVendor.BalancePaysForOrders | src/integrations/print/fake.ts:186 | Over any operations the balance falls by exactly 40 cents for each piece of each accepted order. |
| PrintVendor.CancellableIff | src/integrations/print/fake.ts:205-240 | After any operations an order whose batch was open can be canceled, and is then canceled and nothing else, if and only if none of them closed its batch. |
| PrintVendor.OneOrderPerReference | src/integrations/print/fake.ts:148-154 | However callers' operations interleave, no reference has two orders, nor does an order change its reference. |
| PrintVendor.ResubmissionIsFree | src/integrations/print/fake.ts:148-154 | A reference once accepted is a duplicate ever after, and submitting it again changes nothing. |
| PrintVendor.ClosedBatchStaysClosed | src/integrations/print/fake.ts:48-49 | No operations make an order cancellable again once its batch has closed. |
| PrintVendor.AdvanceRefusedIff | src/integrations/print/fake.ts:223-233 | An order is refused an advance if and only if that would be a step back within the pipeline. |
| PrintVendor.TerminalIsNotTerminal | src/integrations/print/fake.ts:226-233 | Every terminal state can be left for any status; an order can be advanced anywhere if and only if it is terminal or in preparation. |
| PrintVendor.PipelineRunsForward | src/integrations/print/fake.ts:228-231 | Over any operations that do not take the order off the pipeline, its stage never goes back. |
| PrintVendor.DetourRunsBackwards | src/integrations/print/fake.ts:228-231 | A mailed order is in preparation again after an advance to failed and one to preparing. |
| PrintVendor.FakePrintVendor.HandleAll | src/integrations/print/fake.ts:83-241 | Other callers' operations, handled one after the other. |
| PrintGateway.Gateway.Token | src/integrations/print/gateway.ts:103-126 | Reuses a token that lasts beyond the skew, else logs in; only a granted login changes the cache. |
| PrintGateway.Gateway.RawFetch | src/integrations/print/gateway.ts:83-94 | One send, whose effect at the vendor and whose reply follow the network's choice. |
| PrintGateway.Gateway.HandleReply | src/integrations/print/gateway.ts:156-205 | The loop's branches on a reply, as `ErrorAnswer`, `OtherAnswers` and `SentAgainAfter401` say what they come to. |
| PrintGateway.Gateway.Try | src/integrations/print/gateway.ts:144-205 | One pass of the loop body. |
| PrintGateway.Gateway.Call | src/integrations/print/gateway.ts:138-210 | The retry loop computes the recursively specified call, token cache and vendor included. |
| PrintGateway.Gateway.Submit | src/integrations/print/gateway.ts:303-339 | Trims, refuses an empty reference before sending anything, then makes a retryable call. |
| PrintGateway.TokenRule | src/integrations/print/gateway.ts:103-126 | A token is in hand exactly when the cached one is good for another minute or a login is granted; no credentials or a refused login stop the call, as worth retrying from status 500; a lost or unreadable login is tried again. |
| PrintGateway.ErrorAnswer | src/integrations/print/gateway.ts:169-205 | After an answer of 500 or above, or 429, at any attempt, the request is sent again if and only if an attempt that is left gets a token, and at the last one the call fails as worth retrying; after any other error, the first 401 and a submission's 409 aside, it fails at once as not. |
| PrintGateway.OtherAnswers | src/integrations/print/gateway.ts:156-205 | A readable success and a submission's 409 end the call as such; after a lost reply or an unreadable one the request is sent again if and only if an attempt that is left gets a token, and with none left the vendor is unreachable. |
| PrintGateway.AnsweredCalls | src/integrations/print/gateway.ts:138-210 | A call that is served and answered returns the order, the cancellation, the status or the balance as the vendor has it, and any refusal as an error not worth retrying; only an accepted order or cancellation changes the vendor. |
| PrintGateway.TransientFailuresAreOvercome | src/integrations/print/gateway.ts:311-322 | However many requests were lost or turned away with 500 or more or 429, the first one within the attempts that is served and answered places the order and returns it. |
| PrintGateway.UnansweredOrderIsAConflict | src/integrations/print/gateway.ts:319-322 | If the vendor served one whose answer was lost, transient or unreadable, the next one that is answered reports the conflict, and the order exists. |
| PrintGateway.SubmissionIsAtMostOnce | src/integrations/print/gateway.ts:311-322 | For any losses, late deliveries, 401s, 429s, 5xxs and unreadable bodies, with any other vendor traffic between the attempts: the call places at most the one order of its reference, a returned id is that order, a conflict means it exists, no two orders share a reference, at most three sends; without other traffic nothing else changes. |
| PrintGateway.CallIsTruthful | src/integrations/print/gateway.ts:138-210 | The same from any attempt on, by which the outcome never misreports the vendor. |
| PrintGateway.SendsBounded | src/integrations/print/gateway.ts:139-143 | A call sends no more often than it has attempts. |
| PrintGateway.HistoryKeepsOneOrder | src/integrations/print/gateway.ts:303-339 | Over any history of submissions with other vendor traffic during and between them, every order keeps its reference and has no twin. |
| PrintGateway.ResubmittingChangesNothing | src/integrations/print/gateway.ts:319-322 | Submitting a reference that has an order places nothing, leaves that order, and never reports success; without other traffic the vendor is unchanged. |
| PrintGateway.Unauthorised401EndsSingleCall | src/integrations/print/gateway.ts:158-167 | A call that is not retryable, once it has a token and its request is answered 401, processed or not, ends as unreachable after that one send, with the new token. |
| PrintGateway.SentAgainAfter401Iff | src/integrations/print/gateway.ts:143-167 | After the first 401 of a call, at any attempt, with a new token that is good for the next one, the operation is sent again if and only if an attempt is left. |
| PrintGateway.SentAgainAfter401 | src/integrations/print/gateway.ts:143-167 | After a 401 at any attempt, the operation is sent again if and only if it is the first 401 of the call, the new login is not refused, and an attempt that is left gets a token. |
| PrintGateway.Late401EndsRetryableCall | src/integrations/print/gateway.ts:143-167 | A retryable call whose first two requests are lost and whose third is answered 401 ends as unreachable after three sends, with a new token unused. |
| PrintGateway.SendsAtAllIff | src/integrations/print/gateway.ts:143-145 | What is left of a call sends anything if and only if one of its attempts gets a token before one is stopped for want of it. |
| PrintGateway.SingleCallSendsOnce | src/integrations/print/gateway.ts:139-143 | A call that is not retryable sends at most once. |
| PrintGateway.UnreachableMayHavePlacedTheOrder | src/integrations/print/gateway.ts:198-209 | If every reply is lost the outcome is unreachable after three sends, and the order exists. |
| RateLimit.RateLimiter.Handle | src/middleware/rateLimit.ts:21-45 | Counts the hit in the store, reports the remaining allowance, admits while the count is within the limit. |
| RateLimit.StoreTracks | src/shared/kv.ts:36-45 | After any hits, a key's counter is the size of its current window so far and runs out with it. |
| RateLimit.CountIsPlaceInWindow | src/middleware/rateLimit.ts:29-31 | The count a request gets is its own place in its window. |
| RateLimit.FirstMaxAdmitted | src/middleware/rateLimit.ts:40-44 | Each window admits exactly its first `max` requests of the key. |
| RateLimit.OpenersApart | src/shared/kv.ts:26-45 | Consecutive windows of a key open more than a window's length apart. |
| RateLimit.AtMostTwoWindowsLessOne | src/middleware/rateLimit.ts:18-46 | Any closed interval of one window's length sees at most 2 * max - 1 admissions of a key. |
| RateLimit.BoundIsReached | src/middleware/rateLimit.ts:18-46 | Concrete hits that reach the bound. |
| AiQuota.AiQuotaService.GetStatus | src/modules/ai/aiQuota.service.ts:53-61 | Used and remaining make up the limit unless more was used, and nothing remains exactly when the limit is reached. |
| AiQuota.RemainingCallsGoThrough | src/modules/ai/aiQuota.service.ts:36-62 | What status reports as remaining is exactly how many further calls of the month go through: those, and no more. |
| AiQuota.AiQuotaService.Consume | src/modules/ai/aiQuota.service.ts:77-114 | Reserves first; beyond the limit gives the reservation back and refuses; as the protocol's steps do. |
| AiQuota.AiQuotaService.Release | src/modules/ai/aiQuota.service.ts:123-128 | Takes one off the month's counter, never below zero. |
| AiQuota.GrantsAreBounded | src/modules/ai/aiQuota.service.ts:64-76 | In every interleaving of any users' requests, granted calls of a user's month never exceed the limit by more than the stray releases that hit it. |
| AiQuota.SameMonthIsExact | src/middleware/aiQuota.ts:23-43 | If no release of the user's was stray, whatever other users did, the limit holds, and the counter equals kept, running, refused-not-released and forfeited calls. |
| AiQuota.DueReleaseCounts | src/modules/ai/aiQuota.service.ts:119-128 | If no release of the user's was stray so far, the count > 0 guard never swallows one that is due in its own month. |
| AiQuota.FinishDecides | src/middleware/aiQuota.ts:34-43 | A call is given back, one off the counter, if and only if its response has status 400 or above. |
| AiQuota.KeptForGood | src/middleware/aiQuota.ts:34-43 | A call that finished below 400, or whose release failed, stays counted whatever happens later. |
| AiQuota.FailedReleaseForfeits | src/middleware/aiQuota.ts:37-41 | A release that fails moves no counter and leaves the call counted. |
| AiQuota.FiveGoThrough | src/modules/ai/aiQuota.service.ts:77-114 | Of a new user's calls within a month, the first five go through and no more. |
| AiQuota.OtherUsersUntouched | src/modules/ai/aiQuota.service.ts:89-93 | Steps of one user never change another user's counter. |
| AiQuota.ReleaseIsExactIffSameMonth | src/modules/ai/aiQuota.service.ts:96-128 | Giving back a failed or a refused reservation keeps all counters exact if and only if it happens in the month of the reservation. |
| AiQuota.StrayReleaseMintsAllowance | src/modules/ai/aiQuota.service.ts:119-128 | A concrete run from an empty database in which six calls go through in one month. |
| MailingRate.MailingRates.Resolve | src/modules/boost/mailingRate.ts:60-98 | Memo, store, result and whether the vendor is asked are those of the protocol's steps with nothing in between. |
| MailingRate.AloneTakesTheFirstThatKnows | src/modules/boost/mailingRate.ts:54-98 | A call with nothing in between answers from the memo, else the store, else the vendor, with the memo and store each path leaves. |
| MailingRate.MailingRates.Invalidate | src/modules/boost/mailingRate.ts:49-52 | Clears the memo and the stored rate, as the two steps do. |
| MailingRate.MailingRates.InvalidateThenResolve | src/modules/boost/mailingRate.ts:48-52 | Run in sequence, the call after an invalidation always asks the vendor and answers from its reply. |
| MailingRate.VendorRatesAreRecent | src/modules/boost/mailingRate.ts:54-98 | For any number of processes, a rate shown as the vendor's is positive; if it came by way of the store, it was written there less than two TTLs before the call began, and if not, it was quoted less than one TTL before; a configured one is the positive constant. |
| MailingRate.MissesAreRecent | src/modules/boost/mailingRate.ts:62-91 | For any number of processes, a call that shows no rate of the vendor's goes by a failure of its own, of its process begun less than five minutes before, or stored less than ten minutes before; it shows the positive configured rate, else nothing. |
| MailingRate.RemembersForItsTtl | src/modules/boost/mailingRate.ts:60-98 | A cold process shows what the vendor replies and, alone, gives that answer for six hours, or five minutes if there was no price, to the millisecond, and then asks again. |
| MailingRate.ReadsPastTheUnusable | src/modules/boost/mailingRate.ts:67-84 | With no memo, a live stored sentinel or positive rate is the answer; any other stored value is read past, and the vendor asked. |
| MailingRate.StoreFailuresAreHarmless | src/modules/boost/mailingRate.ts:79-97 | A call whose read and write of the store both fail shows what the vendor replies all the same. |
| MailingRate.FirstProcessWarmsStore | src/modules/boost/mailingRate.ts:84-97 | A concrete first call leaves the quoted rate in memo and store. |
| MailingRate.TwiceTtlIsReached | src/modules/boost/mailingRate.ts:72-77 | A concrete run in which a rate is shown one millisecond short of two TTLs after it was stored. |
| MailingRate.MemoOutrunsStore | src/modules/boost/mailingRate.ts:93-97 | Concrete runs in which a rate is shown that is not in the store: its write is under way, or failed. |
| MailingRate.InvalidationWorksIff | src/modules/boost/mailingRate.ts:48-52 | Once the store is cleared, no later call of the process shows a rate quoted before a given time, in any continuation, if and only if no such rate is in its unexpired memo, on its way to the store in any process, or about to be kept by a call of its own. |
| MailingRate.InvalidateLosesToCallInFlight | src/modules/boost/mailingRate.ts:48-52 | A concrete run: a rate whose write is under way while both layers are cleared is stored afterwards and shown by the next call. |
| Geohash.GeohashEncode | src/shared/geo.ts:40-78 | The bisection loop returns the base-32 spelling of the closed-form cell, for all coordinates and precisions. |
| Geohash.BisectFindsCell | src/shared/geo.ts:50-69 | After n halvings the bounds are the edges of the grid column min(2^n - 1, floor(share * 2^n)), and the next bit is the lowest bit of the finer column. |
| Geohash.CellHalves | src/shared/geo.ts:52-68 | A column is twice its parent, plus one exactly when the point is at or above the middle. |
| Geohash.CellNests | src/shared/geo.ts:52-68 | A coarser column is the finer one divided by the power of two between them. |
| Geohash.CellContains | src/shared/geo.ts:36-39 | The final cell contains an in-range point, half open except at the far edge. |
| Geohash.SpellingIsInjective | src/shared/geo.ts:70-76 | Different cells have different hashes. |
| Geohash.SameHashIffSameCell | src/shared/geo.ts:36-39 | Two points share a hash if and only if they share a cell. |
| Geohash.CoarserIsPrefix | src/shared/geo.ts:36-39 | A hash of smaller precision is a prefix of one of larger precision. |
| Geohash.DigitInverts | src/shared/geo.ts:34 | Every character of the alphabet can be read back. |
| Geohash.BitsDetermine | src/shared/geo.ts:54-67 | An index is determined by its bits. |
| AuditWalk.AuditLog.ListAuditLogs | src/modules/admin/admin.service.ts:148-218 | Inserts the read's own row first, then returns the page of the filtered, newest-first rows below the cursor, and the next cursor. |
| AuditWalk.SortSorts | src/modules/admin/admin.service.ts:204-205 | Rows come newest first by (created_at, _id), none lost. |
| AuditWalk.NewestFirstUnique | src/modules/admin/admin.service.ts:204-205 | The order leaves no choice: equal contents newest first are the same list. |
| AuditWalk.RestIsUnchanged | src/modules/admin/admin.service.ts:175-188 | Below any cursor of the first sight, a later read finds exactly the rest of it, whatever newer rows came in. |
| AuditWalk.WalkCollects | src/modules/admin/admin.service.ts:204-217 | After n pages the walk holds exactly the first n * limit rows of the first sight, or all of them and a null cursor. |
| AuditWalk.WalkReturnsFirstSight | src/modules/admin/admin.service.ts:161-217 | If rows written later are newer, a walk to the null cursor returns exactly the rows of the first read that pass every given filter, by falling (created_at, _id). |
| AuditWalk.WalkTerminates | src/modules/admin/admin.service.ts:210-215 | The walk has no more pages than those rows fill, and ends exactly when they are exhausted. |
| AuditWalk.WalkToEnd | src/modules/admin/admin.service.ts:148-218 | A client that calls the list page after page, with rows written by others before each call, comes to the null cursor with exactly the matching rows of the first read, newest first, provided keys are not reused and later rows are newer. |
| AuditWalk.WalkOmitsNothing | src/modules/admin/admin.service.ts:175-217 | With no assumption on new rows, a finished walk is still newest first without duplicates, every row matching, and omits no row of the first read. |
| Ads.BudgetHolds | src/modules/ads/ads.service.ts:478-492 | Under any race of activations, sweeps, serving, settlements and pauses, 0 <= spent <= budget. |
| Ads.BillingIsRounded | src/modules/ads/ads.service.ts:479-491 | While the budget cut nothing off, 1000 * spent is within 500 per settlement of cpm times billed impressions, and no impression is billed that was not served. |
| Ads.ActivatedAtMostOnce | src/modules/ads/ads.service.ts:131-150 | However many webhooks race, a placement is activated at most once, never after leaving pending_payment. |
| Ads.PaymentActivatesIff | src/modules/ads/ads.service.ts:131-150 | A webhook for a settled charge puts the placement on air, paid and started at the time of its read and ending after the days of its tier if it has any, if and only if the row waits for payment at both its read and its write, whatever happens between; otherwise it leaves the row as it is. |
| Ads.LatePaymentIsLost | src/modules/ads/ads.service.ts:138-150 | Concrete runs in which a settled charge leaves its placement off air with no payment recorded: swept as abandoned, or paused, before the webhook. |
| Ads.ServedInWindowAndBudget | src/modules/ads/ads.service.ts:369-380 | Everything served was an ad, active, started, not past its end and with budget left, when read. |
| Ads.ReadOfAServableRow | src/modules/ads/ads.service.ts:369-406 | Every such row is served when read, and counts one impression to be billed. |
| Ads.WindowCloses | src/modules/ads/ads.service.ts:374-458 | Once its window is over an ad is served no more, swept or not, and the next sweep ends it. |
| Ads.GoesOnAirUnpaidIff | src/modules/ads/ads.service.ts:665-669 | A step puts an unpaid row on air if and only if it resumes a row that was never activated. |
| Ads.EverOnAirUnpaidIff | src/modules/ads/ads.service.ts:652-671 | Over a run, a row is on air unpaid at some time if and only if it is resumed before it is activated. |
| Ads.ServedWasPaidFor | src/modules/ads/ads.service.ts:138-161 | Everything served was paid for by then, unless the row was resumed before it was activated. |
| Ads.ResumeServesUnpaid | src/modules/ads/ads.service.ts:665-669 | Resuming an unpaid ad puts it on air. |
| Ads.SettlementIs | src/modules/ads/ads.service.ts:469-492 | From 25 unbilled impressions on, a settlement charges their price per thousand rounded half up, as far as the budget goes, accounts for them and resets them, and retires the row exactly when the budget is gone. |
| Ads.SettlementDropsWhatCameBetween | src/modules/ads/ads.service.ts:469-492 | A settlement drops exactly the impressions counted between its read and its write, whatever else happened there, other settlements included: none are lost if and only if none came. |
| Ads.SettlementErasesChargesBetween | src/modules/ads/ads.service.ts:479-492 | It leaves spent at what it read plus its own charge, whatever was charged in between: spending falls if and only if that was more than its own charge. |
| Ads.LoneSettlementKeepsCharges | src/modules/ads/ads.service.ts:478-492 | With no other settlement written between its read and its write, spending does not fall. |
| Ads.StaleSweepErasesCharge | src/modules/ads/ads.service.ts:478-492 | A concrete run from a new ad in which a stale sweep takes spending from 50 cents back to 25. |
| Ads.StepKeepsMoney | src/modules/ads/ads.service.ts:478-492 | Every step keeps the row and every stale copy within budget and within rounding. |
| Ads.StepKeepsLife | src/modules/ads/ads.service.ts:138-161 | Every step keeps activation recorded exactly once and serving sound. |
| Ads.AuctionSpelledOut | src/modules/ads/ads.service.ts:369-397 | Only rows of the slot that pass the filter and are active ads in their window and under budget are ranked, all of them if the query's limit of 50 is not reached, by higher CPM and then more budget left. |
| Ads.AuctionIsHonest | src/modules/ads/ads.service.ts:395-398 | With at most 50 servable rows, no eligible ad left out outranks one that was shown, and slots stay empty only when every eligible ad is shown. |
| Ads.HonestAtIff | src/modules/ads/ads.service.ts:366-398 | A call showing n > 0 ads shows none that an eligible ad left out outranks, whichever rows the query returns, if and only if at most 50 rows are servable, or all eligible ads tie, or at least n + servable - 50 of them tie for best. |
| Ads.HonestIff | src/modules/ads/ads.service.ts:369-398 | That holds for every number of ads shown if and only if at most 50 rows are servable or all eligible ads tie. |
| Ads.AllEligibleRankedIff | src/modules/ads/ads.service.ts:369-398 | Every legal auction ranks every eligible ad if and only if at most 50 rows are servable or none is eligible. |
| Ads.LimitMayHideTheBest | src/modules/ads/ads.service.ts:369-382 | With more than 50, an ad that pays more than every other can be missing while a lesser eligible ad is shown. |
| Ads.SortRanks | src/modules/ads/ads.service.ts:396-397 | The ranking is by CPM, then remaining budget, and repeats no ad. |
| Ads.PickSome | src/modules/ads/ads.service.ts:369-380 | A limited query returns distinct matching rows, as many as the limit allows, all of them if they fit. |
| Ads.Placements.Serve | src/modules/ads/ads.service.ts:366-406 | Shows the first ads of the ranking of up to 50 servable rows that pass the filter, counts one impression on exactly those, touches no other row. |
| Ads.Placements.Pause | src/modules/ads/ads.service.ts:652-671 | Writes paused or active over whatever status a known placement has; an unknown one is reported. |
| Ads.Placements.UpdateEnded | src/modules/ads/ads.service.ts:455-458 | Afterwards no active row's window is over; exactly the active rows whose window was over have ended, and their number is reported. |
| Ads.Placements.UpdateAbandoned | src/modules/ads/ads.service.ts:464-467 | Afterwards no unpaid row is an hour old; exactly the unpaid rows of that age have ended, and their number is reported. |
| Ads.Placements.FindDue | src/modules/ads/ads.service.ts:469-474 | Up to the limit, distinct ads with a full batch, all of them if they fit. |
| Ads.Placements.SettleOne | src/modules/ads/ads.service.ts:479-492 | Bills one row and retires it when its budget is gone. |
| Ads.Placements.BillPending | src/modules/ads/ads.service.ts:476-501 | Settles each row once, leaves the rest alone, and counts billed and exhausted rows. |
| Ads.Placements.SettleImpressions | src/modules/ads/ads.service.ts:443-508 | One undisturbed sweep: the reported counts and the fate of every row. |
| Ads.Placements.ActivateByPaymentIntent | src/modules/ads/ads.service.ts:138-161 | Handles exactly the known intents; of the row the query finds, activates it if it is pending, with its window starting now, and touches no other row. |
| Ads.StepsAlone | src/modules/ads/ads.service.ts:366-508 | With no one else writing, the steps of a sweep and of a serving come to the methods' effect on the row. |
| Backfill.FollowCollection.BackfillFollows | scripts/backfill-brand-scopes.ts:35-70 | Migrated + collapsed + skipped equals the rows read, migrated + collapsed the legacy rows that map to a brand, rows lost equal collapsed; a dry run changes nothing. |
| Backfill.FollowCollection.MoveOne | scripts/backfill-brand-scopes.ts:43-66 | One row is skipped, collapsed into an existing pair, or migrated; other rows stay. |
| Backfill.FollowCollection.FindOne | scripts/backfill-brand-scopes.ts:54-59 | Finds a follow of the pair exactly when there is one. |
| Backfill.FollowCollection.BackfillTwice | scripts/backfill-brand-scopes.ts:35-70 | A second run migrates and collapses nothing, and after both a user follows a brand exactly when they followed it or one of its businesses before. |
| Backfill.MoveRefines | scripts/backfill-brand-scopes.ts:43-66 | Moving one row loses only rows whose pair is still followed, keeps pairs unique and takes no brand follow away. |
| Backfill.MoveAllRefines | scripts/backfill-brand-scopes.ts:43-67 | So does moving any list of rows; rows without a brand to move to are untouched. |
| Backfill.InterruptedBackfillLosesNobody | scripts/backfill-brand-scopes.ts:43-67 | Stopped anywhere, the script has lost nobody's follow, of a brand directly or through a business. |
| Backfill.NothingLeftToMove | scripts/backfill-brand-scopes.ts:35-67 | After a full run no legacy row maps to a brand. |
| Backfill.BrandFollowersAfter | scripts/backfill-brand-scopes.ts:43-67 | After a full run a user follows a brand exactly when they followed it, or one of its businesses, before. |
| Backfill.FollowersSpelledOut | scripts/backfill-brand-scopes.ts:43-67 | The same in terms of the rows and the business-to-brand map, an empty brand id counting as none. |

## Left out

- Floating point: coordinates are exact reals, money and billing exact integers (`Math.round` of a price is taken exactly); `applyPercent`, `formatCents`, `distanceMeters`, `assertCents`, fractional weights and loss of precision above 2^53 are not modelled.
- Labels such as `constructor` or `__proto__`, which the plain object behind `amountOf` inherits or treats specially, are ordinary labels here.
- Redis: the store has the in-memory semantics everywhere; the Redis client library is not part of this model.
- Kv.MemoryStore.IncrWithTtl: the text form of numbers is abstracted by a starting value and a successor function, because only counters are ever incremented.
- Idempotency.Middleware.Admit: errors for a missing header or principal are left out; it has no other request acting between its reserve and its read, which its two parts and the protocol's steps do. Handlers that answer twice, or other than through `res.json`, are left out.
- PrintGateway.Gateway.Call: two calls of one process share the token cache but are not interleaved; what others do at the vendor is.
- PrintGateway.Gateway.RawFetch: HTTP is reduced to status and parsed body; the back-off sleeps, time-outs as such, redirects, and the parsing and price checks of `wire` bodies are not modelled.
- The vendor's price lists (`priceBreaks`, `priceRun`, `selectPriceBreak`, `assertUnitCostSane`): lookups in a published table that change no state.
- RateLimit.RateLimiter.Handle: the switch that disables the limiter and its fail-open branch are left out; identity, route and tier make up the key.
- AiQuota.AiQuotaService.Consume: subscribers, who pass straight through uncounted, are left out; the calendar month is a parameter, since its computation from the clock is one expression.
- Ads.ServedInWindowAndBudget: speaks of the row as read; a sweep or settlement between the read and the counting update can end the row meanwhile.
- Ads.Placements.Serve: which rows match the slot and city, which pass the category and radius filter, and how many ads a feed may hold are parameters.
- Ownership checks, checkout, clicks, refunds and the reconciliation of pending payments are left out; foreign calls stand behind them.
- AuditWalk.AuditLog.ListAuditLogs: the base64url coding of cursors (section 5 of RFC 4648) and the rejection of malformed ones are left out, and writing the own row may fail quietly, as a parameter says.
- Backfill.FollowCollection.BackfillFollows: follows written by others while the script runs are not modelled; stopping it anywhere is.
- `backfillReviews` and building the business-to-brand map, which add nothing the follow backfill does not show; `backfill-brands.ts`, whose undo depends on a schema that is not part of this model.
- Permissions, trust bands, invoices, agreements, events, logging and metrics: settled by reading one branch, or foreign calls.
