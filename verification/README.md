# Concord core: a verified model

Concord is an asynchronous HTTP API client. This project models the parts of its
core where the state and the interleavings are, and proves what they promise.

- **Credential slot** (`CredentialSlot.dfy`, `AuthRejection.dfy`, `SlotProtocol.dfy`,
  `SlotInvariants.dfy`, `SlotTheorems.dfy`, `SlotAnswers.dfy`). One cached credential behind a mutex,
  refreshed by one current owner while other callers sleep. Every critical section is a
  method of a class and a function on the guarded data, proved equal. The functions are
  then the steps of a transition system: any number of callers, any interleaving at every
  point where the lock is free, cancelled futures, manual sets, challenges, and commits that
  take the lock twice. A run is an arbitrary list of labels, so a statement over lists is a
  statement over every run.
- **Pagination** (`RequestIdentity.dfy`, `Pagination.dfy`, `PaginationRuns.dfy`,
  `HonestPagination.dfy`, `PaginationControllers.dfy`). The collect loop with its four
  termination modes and two loop guards, first against an arbitrary server and controller,
  where the whole history of a run is characterised and shown to be unique, then against a
  server that answers with slices of a list.
- **Streaming bodies** (`BodyAdapters.dfy`, `BodyHints.dfy`). The counting adapters as state
  machines over arbitrary frame scripts (data, trailers, errors, pending polls, frames after
  an end), and size hints through any nesting of wrappers.
- **Body replay** (`BodyReplay.dfy`). Which prepared bodies can be produced again.
- **One request** (`RequestDriver.dfy`). Classifying a challenged response, and the loop with
  its single authentication recovery.
- **Authentication placement** (`AuthPlacement.dfy`). Planning slots, checking the public
  request against them and putting the credentials in.
- **URLs** (`UrlBuilding.dfy`). Path and host building, and reading both back.

Time is part of the credential protocol: a clock that never runs back and never passes the
platform's largest instant, and one refresh skew for all callers, as every call in the client
uses the default step policy. It matters for one law at the centre of the slot. A challenge
names a generation, and a rolled-back refresh re-stamps the old value with a newer generation,
so a late challenge can leave the value in the slot (`ChallengedValueMayStay` gives the run for
every skew and expiry). It is never leased again all the same
(`ChallengedCredentialNeverLeasedAgain`): a refresh runs only over a value that is due, and what
is due stays due. `LeasableAgainIffAvailable` and `HoldableIffRestorable` say exactly when a
leased credential can be leased again and when the slot can hold it again.

Two properties one might expect are false of the code; each has an exact statement here.

- A declared length or a response limit of 2^64-1 is not enforced by the stream, because those
  byte counters saturate there; three frames of the largest size pass. `ExactLengthNeedsHeadroom`,
  `ResponseLimitHoldsIff` and `LimitersAgreeBelowTop` are if-and-only-if statements in the limit,
  and `BoundedHintsHonestIff` in the length of the run. A request limit is enforced up to the top
  (`RequestLimitHolds`), and so is any limit on a collected response, which has to fit one buffer
  (`CollectedFits`).
- A collect run over an honest server that wants more than 2^32 full pages ends with an
  overflow of its page counter, even if its caps are larger. `PageCounterOverflows` gives the
  input; `HonestCollect` and `OffsetLimitCollects` give the result in every case.

## Model

| member | source | states |
|---|---|---|
| `CredentialSlots.CredentialSlot.constructor` | concord_core/src/auth/credentials.rs:330-365 | a new slot is empty at generation 0 and issues owner number 1 first |
| `CredentialSlots.CredentialSlot.NextRefreshOwner` | concord_core/src/auth/credentials.rs:785-796 | an owner number is handed out once; at the top of the counter it fails and the counter stays |
| `CredentialSlots.CredentialSlot.Inspect` | concord_core/src/auth/credentials.rs:372-488 | one loop turn under the lock is the step `InspectSpec` the protocol uses, including the owner number spent when an empty slot cannot raise its generation; a slot that failed to initialise fails and stays as it was |
| `CredentialSlots.CredentialSlot.CommitCheck` | concord_core/src/auth/credentials.rs:716-737 | first lock of a commit: the refresh's wake-up handle exactly when owner and generation still match |
| `CredentialSlots.CredentialSlot.CommitStore` | concord_core/src/auth/credentials.rs:739-782 | second lock: a stale owner changes nothing, a retry-after overflow leaves the refresh running, and otherwise the result is stored under the attempt's generation |
| `CredentialSlots.CredentialSlot.DropGuard` | concord_core/src/auth/credentials.rs:263-314 | an armed guard rolls the slot back to the saved value, stamped with the attempt's generation, only while it is the current owner |
| `CredentialSlots.CredentialSlot.InvalidateGeneration` | concord_core/src/auth/credentials.rs:543-595 | the new state and the credential taken, for a valid slot and for the saved value of a running refresh; a failure changes nothing |
| `CredentialSlots.CredentialSlot.Replace` | concord_core/src/auth/credentials.rs:651-691 | manual set and clear move one generation on and return the handle of the refresh they overtake |
| `CredentialSlots.CredentialSlot.GetCached` | concord_core/src/auth/credentials.rs:702-714 | a lease exactly when the slot is initialised and valid, with the current value and generation |
| `CredentialSlots.InvalidationIsExact` | concord_core/src/auth/credentials.rs:543-595 | an invalidation fails exactly when a matching valid slot is at the last generation, changes the slot exactly when it takes a credential, leaves nothing more for it to take, and never ends a running refresh |
| `CredentialSlots.GenerationsOnlyGrow` | concord_core/src/auth/credentials.rs:861-875 | no critical section lowers the generation; a begin and a manual change raise it by one, a commit and a rollback keep it |
| `SlotAnswers.FreshValueIsReturned` | concord_core/src/auth/credentials.rs:383-390 | a look at a valid slot leases its value if and only if the value outlives now plus the skew, and then nothing changes |
| `SlotAnswers.ExpiringValueIsRefreshed` | concord_core/src/auth/credentials.rs:391-418 | a value that expires within the skew begins a refresh under the next generation and owner number, and the provider gets the value and whether it has expired |
| `SlotAnswers.OtherwiseValidFails` | concord_core/src/auth/credentials.rs:825-850 | a valid slot begins a refresh in no other case, never waits, and fails without a change with the error of the step that could not be made |
| `SlotAnswers.FailedSlotBacksOff` | concord_core/src/auth/credentials.rs:438-462 | a failed slot answers with its error until its retry time and is then refreshed without a current value |
| `SlotAnswers.EmptySlotIsFilled` | concord_core/src/auth/credentials.rs:463-482 | an empty slot is filled; when its generation cannot move, the owner number is spent and the look fails |
| `SlotAnswers.RunningRefreshIsAwaited` | concord_core/src/auth/credentials.rs:420-437 | a look at a running refresh waits on its handle |
| `SlotAnswers.CancelledRefreshRestores` | concord_core/src/auth/credentials.rs:263-314 | beginning a refresh and cancelling it gives back what the slot had, one generation on, and wakes its waiters |
| `SlotAnswers.CommitSettles` | concord_core/src/auth/credentials.rs:716-782 | what the provider said becomes the state under the attempt's generation, with the retry time at now plus the wait, for the current attempt only |
| `SlotAnswers.InvalidationTakes` | concord_core/src/auth/credentials.rs:543-595 | without a generation any value is taken, with one exactly that generation's; what is left is spelled out |
| `SlotAnswers.ManualReplaces` | concord_core/src/auth/credentials.rs:651-691 | a manual change puts its value or nothing in place one generation on and names the refresh it overtakes |
| `SlotAnswers.EveryLookedUpLeaseOutlivesSkew` | concord_core/src/auth/credentials.rs:382-390 | in every run, each lease that a look gave out outlived the skew when it was given |
| `SlotAnswers.BackOffHolds` | concord_core/src/auth/credentials.rs:438-446 | over any run without a manual change, until the retry time no refresh begins, the slot stays, and every look is answered with its error |
| `SlotAnswers.CommittedErrorBacksOff` | concord_core/src/auth/credentials.rs:762-776 | committing an error with a wait starts such a back-off of exactly that wait |
| `AuthRejection.ChallengeReachesSlot` | concord_core/src/auth/orchestrator.rs:332-411 | planning and applying a rejection of a bound use invalidates the leased generation exactly when the status is a challenge under its policy; refreshing bindings recover, others end |
| `AuthRejection.ActionsSayWhy` | concord_core/src/auth/plan.rs:468-498 | a planned action invalidates and recovers for the reason of its status |
| `AuthRejection.RecoveryAlwaysInvalidates` | concord_core/src/auth/orchestrator.rs:401-411 | a recovery invalidates for its own reason or for the status, a terminal action only for its own |
| `AuthRejection.DecisionFollowsPolicy` | concord_core/src/auth/plan.rs:616-662 | under every step policy a challenge leads to what the policy allows for its status, and nothing else does |
| `AuthRejection.ForeignRejectionIsRefused` | concord_core/src/auth/orchestrator.rs:362-378 | an action of another credential, use or generation, and a foreign binding, are refused without touching the slot |
| `AuthRejection.AuthRejectionPlan.AppendValidated` | concord_core/src/auth/plan.rs:578-586 | a recovery is dropped when one is already planned, everything else is appended |
| `AuthRejection.AggregateKeepsFirstRecovery` | concord_core/src/auth/plan.rs:461-586 | for every list of actions the aggregate is all terminal actions in order with the first recovery in its place, and nothing else |
| `SlotInvariants.StepKeepsOwners` | concord_core/src/auth/credentials.rs:263-300 | every step keeps: a running refresh carries the latest owner number, exactly one armed guard holds it, and guards have different numbers |
| `SlotInvariants.StepKeepsWake` | concord_core/src/auth/credentials.rs:420-437 | every step keeps: each sleeper is registered on the running refresh or on a wake-up that somebody still owes |
| `SlotInvariants.StepKeepsLoops` | concord_core/src/auth/credentials.rs:379-520 | every step keeps: a caller about to look again has outlived every refresh it met, and has made at most as many turns as owner numbers it saw |
| `SlotInvariants.StepKeepsLog` | concord_core/src/auth/credentials.rs:716-782 | every step keeps: generations of installed credentials strictly grow, and every lease was installed |
| `SlotInvariants.StepKeepsIdentities` | concord_core/src/auth/credentials.rs:372-520 | every step keeps: a result on its way to a commit is carried by one caller and was never in the slot |
| `SlotInvariants.StepKeepsLeases` | concord_core/src/auth/credentials.rs:382-418 | every step keeps: a refresh runs only over a value that is due, a leased credential the slot holds under another generation is due, and a credential is leased under one generation only |
| `SlotInvariants.ReachableInv` | concord_core/src/auth/credentials.rs:317-782 | all six invariants hold in every state that any run of any number of callers reaches from any representable time |
| `SlotTheorems.SleepersAreRegistered` | concord_core/src/auth/credentials.rs:420-437 | in every reachable state a running refresh has exactly one live guard, and nobody sleeps on a wake-up that no one will give |
| `SlotTheorems.NobodySleepsWhenQuiet` | concord_core/src/auth/credentials.rs:716-782 | once no caller is in flight nobody is asleep and no refresh is left running |
| `SlotTheorems.InFlightStepsFinish` | concord_core/src/auth/credentials.rs:716-782 | in whatever order in-flight callers take their steps, they take at most five each |
| `SlotTheorems.FinishedMeansAwake` | concord_core/src/auth/credentials.rs:263-300 | from every reachable state, when the in-flight steps are used up in any order every sleeper has been woken |
| `SlotTheorems.RunExtendsLog` | concord_core/src/auth/credentials.rs:861-875 | over any run the generation never decreases and the history is only added to |
| `SlotTheorems.LaterLeasesAreNewer` | concord_core/src/auth/credentials.rs:372-520 | a credential handed out after some point, by a lease or a cached read, has at least the generation the slot had then |
| `SlotTheorems.OneCredentialPerGeneration` | concord_core/src/auth/credentials.rs:302-314 | leases and cached reads of one generation are the same, and each generation becomes valid at most once although commits and rollbacks both settle it |
| `SlotTheorems.LeasedUnderOneGeneration` | concord_core/src/auth/credentials.rs:372-520 | two leases of one credential are the same lease: a value re-stamped by a rollback is not leased again |
| `SlotTheorems.ChallengedGenerationNeverReturns` | concord_core/src/auth/orchestrator.rs:294-411 | after a challenge to a leased generation is applied, everything handed out later in any continuation has a strictly greater generation |
| `SlotTheorems.ChallengedCredentialNeverLeasedAgain` | concord_core/src/auth/orchestrator.rs:294-411 | after a challenge to a leased generation is applied, no continuation leases that credential again, whether the challenge took it, found it gone or found it re-stamped |
| `SlotTheorems.AppliedInvalidationIsFinal` | concord_core/src/auth/credentials.rs:543-595 | an invalidation that takes effect, on the value or on the saved value of a running refresh, is final: no continuation hands that credential out again, not even to a cached read |
| `SlotTheorems.OwnerNumbersAreNeverReused` | concord_core/src/auth/credentials.rs:785-796 | of two refreshes in one run the later has the larger number |
| `SlotTheorems.OvertakenForever` | concord_core/src/auth/credentials.rs:716-747 | an attempt that lost the slot is never its current owner again |
| `SlotTheorems.OnlyTheCurrentOwnerSettles` | concord_core/src/auth/credentials.rs:716-782 | a commit or rollback that changes the slot is made by the one caller that holds the current owner number |
| `SlotTheorems.StaleOwnersAreHarmless` | concord_core/src/auth/credentials.rs:716-747 | once overtaken, also between the two locks of its commit, an attempt changes neither slot nor history in any future state |
| `SlotTheorems.LoopTurnsAdvance` | concord_core/src/auth/credentials.rs:379-520 | each loop turn of a caller meets or starts a refresh with a strictly larger number than the last it met, or ends the call |
| `SlotTheorems.LoopTurnsAreBounded` | concord_core/src/auth/credentials.rs:379-520 | a caller has made fewer loop turns than owner numbers issued, so finitely many refreshes mean finitely many turns |
| `SlotTheorems.LeasableAgainIffAvailable` | concord_core/src/auth/credentials.rs:372-418 | a leased credential is leased again by some continuation if and only if it is in the slot and not due now |
| `SlotTheorems.HoldableIffRestorable` | concord_core/src/auth/credentials.rs:263-314 | the slot can hold a leased credential, now or later, if and only if it is its value, or is saved under a refresh whose owner can still be cancelled or commit an error with a positive retry time |
| `SlotTheorems.ChallengedValueMayStay` | concord_core/src/auth/credentials.rs:283-306 | for every skew and expiry, a run of leases by `get_or_refresh` in which a value survives, inside the slot, a correctly applied challenge to the generation it was leased under; it cannot be leased from there |
| `RequestIdentity.SortIsSorted` | concord_core/src/request.rs:555-570 | sorting headers by name, then value, gives a sorted permutation |
| `RequestIdentity.IdentityIsCanonical` | concord_core/src/request.rs:537-582 | two requests have equal identities if and only if they differ at most in their overrides and in the order of their headers, multiplicities included |
| `Pagination.FetchPage` | concord_core/src/request.rs:292-321 | the first half of a loop turn is `Fetch`: both guards, the controller, the plan with the caller's options, the request and its answer |
| `Pagination.SettlePage` | concord_core/src/request.rs:321-432 | the second half is `Settle`: counters, caps, advance and the decision to go on, in the order of the source |
| `Pagination.CollectWithRuntime` | concord_core/src/request.rs:263-434 | initialisation and loop together are the recursive `Loop`, one `Turn` per page |
| `Pagination.Collect` | concord_core/src/request.rs:221-261 | zero caps are refused, zero takes return nothing without a request, an endpoint without a controller is refused, and the rest is the loop |
| `Pagination.SettleIsGood` | concord_core/src/request.rs:321-432 | accounting for a page ends with a good outcome or keeps the loop's invariant |
| `Pagination.CollectIsGood` | concord_core/src/request.rs:291-434 | for every server and controller: at most m requests for page modes, n for `TakeItems(n)`, m+1 for `HardItemCap(m)`; pairwise distinct identities; each request carries its page index; and with exact counts a success is the received pages in order, cut at n for `TakeItems(n)` and at most m items for `HardItemCap(m)` |
| `PaginationRuns.CollectRunIsExact` | concord_core/src/request.rs:221-434 | every collect is decided before its first request, in the source's order of checks, or is an exact run: each turn begins where the controller left off and sends what it prepares with the caller's options, the run goes on only after a full page whose controller said continue with room in every cap, progress keys and identities are pairwise distinct, and it ends with the result its last page, request or guard gives |
| `PaginationRuns.RunIsDetermined` | concord_core/src/request.rs:263-434 | exact runs are unique: controller, server and caps determine requests, pages, states and result |
| `PaginationRuns.NothingAfterStop` | concord_core/src/request.rs:322-431 | no request follows a page whose controller said stop, or an empty or short page |
| `HonestPagination.HonestFetch` | concord_core/src/request.rs:292-321 | against an honest server neither loop guard fires and the page is the slice at the run's position |
| `HonestPagination.LastPage` | concord_core/src/request.rs:338-432 | whichever turn ends the run, its result is the one read off the list |
| `HonestPagination.HonestCollect` | concord_core/src/request.rs:221-434 | for every walking controller: `TakeItems(n)` is items[start..start+n] in at most ceil(n/limit) requests, `TakePages(m)` is items[start..start+m*limit], `HardPageCap(m)` succeeds iff fewer than m*limit remain, `HardItemCap(m)` iff at most m remain, both with everything; a run that wants more than 2^32 full pages overflows instead |
| `PaginationControllers.PaginationRuntimeAdapter.Init` | concord_core/src/pagination.rs:202-212 | loads the endpoint's fields once; a second initialisation fails and changes nothing |
| `PaginationControllers.PaginationRuntimeAdapter.Step` | concord_core/src/pagination.rs:214-244 | runs the controller and stores its state into the endpoint; a failure leaves the endpoint alone and the controller as its step left it; before initialisation nothing changes |
| `PaginationControllers.StepsReachEndpoint` | concord_core/src/pagination.rs:202-244 | the endpoint gets the controller's fields exactly when a step succeeds |
| `PaginationControllers.OffsetLimitPagination.Advance` | concord_core/src/pagination/offset_limit.rs:38-62 | moves the offset by one page; an invalid size or an overflow leaves it |
| `PaginationControllers.OffsetMovesOrFails` | concord_core/src/pagination/offset_limit.rs:29-88 | the controller moves on by its limit or fails as invalid size or overflow and stays; preparing only checks the limit |
| `PaginationControllers.OffsetLimitWalks` | concord_core/src/pagination/offset_limit.rs:25-88 | the offset/limit controller behind the adapter walks the list in steps of its limit with one key per offset |
| `PaginationControllers.OffsetLimitCollects` | concord_core/src/pagination/offset_limit.rs:25-66 | offset/limit pagination over an honest server, end to end, as stated for `HonestCollect` |
| `PaginationControllers.SliceServerIsHonest` | concord_core/src/pagination/offset_limit.rs:25-66 | an endpoint that sends offset and limit as decimal query parameters, and a server that slices its list by them, are what the two rows above assume |
| `PaginationControllers.PageCounterOverflows` | concord_core/src/request.rs:405-427 | with one item a page and 2^32 items, taking 2^32+1 pages overflows the page counter, where the list would give all of its items |
| `BodyAdapters.ExactLengthBody.PollFrame` | concord_core/src/body.rs:480-521 | one poll is one step of the exact-length machine; once terminal it does not touch the inner body |
| `BodyAdapters.LimitedBody.PollFrame` | concord_core/src/body.rs:568-614 | one poll is one step of the limiting machine, with its checked sum |
| `BodyAdapters.MultipartByteStream.PollNext` | concord_core/src/multipart.rs:347-388 | one poll is one step of the multipart part machine |
| `BodyAdapters.BoundedResponseStream.SetLimit` | concord_core/src/transport.rs:171-173 | only the limit changes |
| `BodyAdapters.BoundedResponseStream.PollFrame` | concord_core/src/transport.rs:239-273 | one poll is one step of the response limiting machine |
| `BodyAdapters.BoundedResponseStream.NextChunk` | concord_core/src/transport.rs:201-213 | the next data frame, with trailers skipped; a chunk consumes some of the script |
| `BodyAdapters.BoundedResponseStream.CollectBytes` | concord_core/src/transport.rs:215-221 | the loop over chunks is `CollectSpec`, with a panic as an outcome of its own when the one result buffer cannot grow |
| `BodyAdapters.AdapterBehaves` | concord_core/src/body.rs:453-614 | for every script and number of polls, each adapter, with a bound it can count to or with none, passes answers through up to its stop, gives one verdict there, and then ends for ever without polling its inner body |
| `BodyAdapters.DeliveredIsPrefix` | concord_core/src/body.rs:453-614 | what an adapter delivers is a prefix of the script, and never exceeds the bound if there is one |
| `BodyAdapters.AdapterEndsOnce` | concord_core/src/body.rs:453-614 | each adapter fails at most once, and after a failure or an end only ends follow and the inner body is left alone |
| `BodyAdapters.ExactLengthHolds` | concord_core/src/body.rs:453-533 | for every script: never more than the declared bytes, a clean end only after exactly that many, one error at most, and only ends after it with the inner body left alone |
| `BodyAdapters.ExactLengthNeedsHeadroom` | concord_core/src/body.rs:489-500 | a declared length is enforced on all scripts if and only if it is below 2^64-1 |
| `BodyAdapters.MultipartAgrees` | concord_core/src/multipart.rs:329-388 | a part with a declared length has the trace and the inner polls of an exact-length body, from any point of any script |
| `BodyAdapters.LimitedAgreesWithBounded` | concord_core/src/body.rs:560-614 | request and response limiters with one limit give the same frames, the same errors and the same inner polls |
| `BodyAdapters.LimitersAgreeBelowTop` | concord_core/src/transport.rs:239-273 | the two limiters agree on all scripts if and only if the limit is below 2^64-1 |
| `BodyAdapters.RequestLimitHolds` | concord_core/src/body.rs:568-614 | a request limit is enforced on every script, 2^64-1 included |
| `BodyAdapters.ResponseLimitHoldsIff` | concord_core/src/transport.rs:239-273 | a response limit is enforced on all scripts if and only if it is below 2^64-1 |
| `BodyAdapters.CollectIsExact` | concord_core/src/transport.rs:201-273 | for every limit and buffer, collecting succeeds if and only if the body reports no error before its end and its data fit both the limit and the buffer, and returns all the data in order; with a limit the buffer can hold, the buffer never has to grow too far |
| `BodyAdapters.CollectOutcomeIsExact` | concord_core/src/transport.rs:201-273 | which of collecting, failing with the stream's own verdict and overgrowing happens is read off the point where the stream stops |
| `BodyAdapters.CollectedFits` | concord_core/src/transport.rs:215-221 | collected data fit every limit, 2^64-1 included |
| `BodyAdapters.RequestBodyErrorSlot.Record` | concord_core/src/body.rs:210-219 | the first error stays |
| `BodyAdapters.ObservedRequestBody.PollFrame` | concord_core/src/body.rs:251-265 | every answer passes through, and an error is recorded on its way |
| `BodyAdapters.FirstErrorIsRecorded` | concord_core/src/body.rs:227-275 | whatever body is observed, the slot holds its first error, and stays empty if and only if there was none |
| `BodyAdapters.ObservedErrorIsTheError` | concord_core/src/io.rs:597-609 | of an observed adapter every error it ever returned is the recorded one |
| `BodyAdapters.ReusableLengthAgrees` | concord_core/src/io.rs:611-627 | checking a buffer's length up front reports exactly the error that streaming it would |
| `BodyHints.HintedBody.PollFrame` | concord_core/src/body.rs:763-801 | the declared hint shrinks by the data passed on, loses an upper bound that data overran, and is empty after the end; an inner error does not end it |
| `BodyHints.HintsStayWellFormed` | concord_core/src/body.rs:620-642 | for every nesting and number of polls, lower <= upper |
| `BodyHints.WrappersPass` | concord_core/src/body.rs:453-825 | on a clean run a wrapper neither adds nor removes bytes, what a limiter lets through fits its limit, and an exact-length run has its declared length |
| `BodyHints.HonestHintsStayHonest` | concord_core/src/body.rs:756-825 | if the declared hints are honest and the run ends cleanly, the bytes still to come lie within the reported bounds of any wrapper after every number of polls, also past the end and through a response limit |
| `BodyHints.BoundedHintsHonestIff` | concord_core/src/transport.rs:279-295 | a response limit over an honest body reports honest hints for a whole clean run if and only if the run fits the limit, which every limit below 2^64-1 ensures |
| `BodyHints.ExactHintIsExact` | concord_core/src/body.rs:527-532 | on a clean run the hint of an exact-length body is exactly the number of bytes still to come |
| `BodyHints.ExactHintsStayExact` | concord_core/src/body.rs:620-642 | over an exact inner hint, declared hint or declared length every wrapper reports exactly the bytes still to come, after every poll of a clean run |
| `BodyHints.LimitCutsTightly` | concord_core/src/body.rs:620-642 | a limit keeps a lower bound it leaves room for, and its upper bound is the smaller of the inner one and what it leaves; both limiters agree |
| `BodyHints.DeclaredHintShrinks` | concord_core/src/body.rs:774-790 | data takes its length off both declared bounds; an upper bound that data passed is given up |
| `BodyReplay.CloneIfReconstructible` | concord_core/src/multipart.rs:227-238 | cloning gives the form back exactly when `is_reconstructible` says so, and nothing otherwise |
| `BodyReplay.PreparedBody.ProduceForExecution` | concord_core/src/io.rs:471-524 | one production is `Produce`: one-shot sources are taken, everything else is kept |
| `BodyReplay.ProduceOnce` | concord_core/src/io.rs:460-524 | a production leaves a replayable body as it was and consumes any other |
| `BodyReplay.ReplayableIffNeverConsumed` | concord_core/src/io.rs:460-524 | a body reports replayable if and only if no list of productions meets AlreadyConsumed; otherwise it produces at most once; and the report never changes |
| `BodyReplay.ProductionIsFaithful` | concord_core/src/io.rs:471-524 | a production succeeds if and only if there is content, and then carries that content, the fixed media type and the declared exact length |
| `BodyReplay.EveryProductionIsFaithful` | concord_core/src/io.rs:471-524 | however often a body is produced, each success carries what it was prepared with |
| `RequestDriver.ClassifyAuthRejection` | concord_core/src/client/execute.rs:110-177 | the loop over applied uses is `ClassifySpec`, with every error in its place |
| `RequestDriver.ProtectedAnswersAreClassified` | concord_core/src/client/execute.rs:110-195 | 401 and 403 of an endpoint with requirements are classified if a credential was applied; every other answer is no rejection |
| `RequestDriver.PlannableIff` | concord_core/src/client/execute.rs:119-155 | a use can be planned if and only if a requirement has its credential, usage and step, and the credential's binding serves it |
| `RequestDriver.ClassificationSucceedsIff` | concord_core/src/client/execute.rs:110-177 | classifying different uses succeeds if and only if each can be planned |
| `RequestDriver.RepeatedUseIsRefused` | concord_core/src/client/execute.rs:161-170 | a use equal to one already planned is refused |
| `RequestDriver.ClassificationAggregates` | concord_core/src/client/execute.rs:110-177 | a classified response carries the planned action of every applied use in order, with recoveries after the first left out |
| `RequestDriver.ClassificationRecoversIff` | concord_core/src/client/execute.rs:110-177 | it asks for a recovery if and only if some applied use is challenged by the status under its policy and its binding refreshes |
| `RequestDriver.ClassifiedPlanResolves` | concord_core/src/client/execute.rs:217-260 | every action of a classified plan belongs to an applied use and its requirement, so applying it never fails to resolve |
| `RequestDriver.DriveExecutions` | concord_core/src/client/execute.rs:431-690 | the loop with its recovery budget and pending rejection is `DriveSpec` |
| `RequestDriver.RequestIsHandled` | concord_core/src/client/execute.rs:431-690 | a request sends at most twice and in order; each rejection it is answered with is applied exactly once, unless the head of its recovery cannot be made; it resends only after an accepted rejection that asked for recovery and with a replayable body; it returns a status only for an answer that is no rejection; and a fresh body never fails it as already consumed |
| `RequestDriver.ResentIffChallenged` | concord_core/src/client/execute.rs:431-690 | with everything else going through, a request is sent again if and only if its first answer is a 401 or 403 that challenges a use whose binding refreshes, and its body can be rebuilt |
| `RequestDriver.FirstAnswerEnds` | concord_core/src/client/execute.rs:543-690 | a first answer that is no recoverable rejection ends the request with its status or with what became of the rejection |
| `RequestDriver.SecondAnswerEnds` | concord_core/src/client/execute.rs:589-608 | an accepted recoverable rejection is followed by a second execution whose answer ends the request |
| `RequestDriver.FirstExecutionStops` | concord_core/src/client/execute.rs:458-535 | what stops a first execution, in order, and what was sent by then |
| `RequestDriver.RecoveryStops` | concord_core/src/client/execute.rs:458-535 | what stops a recovery, in order |
| `AuthPlacementPlans.CollideIffSameTarget` | concord_core/src/auth/plan.rs:173-184 | two placements collide if and only if they write to the same header or query key |
| `AuthPlacementPlans.AuthSlotIds.Next` | concord_core/src/auth/plan.rs:12-28 | ids are handed out once; at the top of the counter it fails and stays |
| `AuthPlacementPlans.FromAuthPlan` | concord_core/src/auth/plan.rs:54-106 | the loop with its lists and the counter, from which other plans draw in between, is `PlanAll`, also where it stops early |
| `AuthPlacementPlans.PlansAreGood` | concord_core/src/auth/plan.rs:54-106 | however draws of other plans interleave, a successful plan has one slot per requirement with its data and parsed placement, pairwise different ids and pairwise different targets |
| `AuthPlacementPlans.PlanningSucceedsIff` | concord_core/src/auth/plan.rs:54-106 | planning succeeds if and only if every header name parses and is not owned by somebody else, no two requirements share a target, and the id counter has room for its draws and those in between |
| `AuthPlacementPlans.SensitiveKeysAreExact` | concord_core/src/auth/plan.rs:66-76 | a query key is marked sensitive if and only if some query slot has that name in any ASCII case |
| `AuthPlacementPlans.OwnedHeadersAreRefused` | concord_core/src/header_ownership.rs:22-64 | the protocol's, the client's and the request-identity headers never carry a credential, and no id is spent on them |
| `AuthPlacementPlans.PlanningFailsAsConfiguration` | concord_core/src/auth/plan.rs:54-106 | planning fails only as a configuration error |
| `AuthPlacementPlans.ValidatePublicRequest` | concord_core/src/auth/plan.rs:117-170 | accepts exactly the requests in which every slot's target is free and not reserved |
| `AuthPlacementPlans.FreeMeansUnused` | concord_core/src/auth/plan.rs:117-170 | a target is free if and only if nothing public is there, and a header also not reserved |
| `AuthPlacementPlans.PreparedUsesAreRequired` | concord_core/src/auth/plan.rs:305-330 | a prepared credential that passed its binding check records the credential, usage, step and provenance its requirement asks for |
| `AuthPlacementPlans.MaterializeAuthentication` | concord_core/src/transport.rs:428-523 | the two loops are `PlaceAll` over the materials by slot, also where it stops early |
| `AuthPlacementPlans.PlacingIsFaithful` | concord_core/src/transport.rs:447-520 | with matching materials and free distinct targets, placing fails exactly on an invalid header value, and otherwise keeps the public request and puts each credential alone at its target |
| `AuthPlacementPlans.MaterializationIsFaithful` | concord_core/src/transport.rs:428-523 | planning, public validation and binding checks together give the previous row for the whole pipeline: every slot uses its own material, no header is added beyond the slots', and each query slot's key occurs once |
| `AuthPlacementPlans.CredentialsArrive` | concord_core/src/transport.rs:453-507 | in the finished request each requirement's own credential is where its placement says, in the form it says: `Bearer` and secret, `Basic` and the encoded pair, the bare secret under the header, or the query pair |
| `AuthPlacementPlans.BasicReadsBack` | concord_core/src/transport.rs:487-505 | a basic header reads back as username and password, for every username without a colon |
| `AuthPlacementPlans.PlaceFailures` | concord_core/src/transport.rs:448-520 | how one slot fails: no material, material of the other kind, or text that is no header value |
| `AuthPlacementPlans.LastMaterialCounts` | concord_core/src/transport.rs:437-444 | of several materials for one slot the last one counts |
| `UrlBuilding.UrlPath.PushRaw` | concord_core/src/types.rs:255-289 | the in-place edits compute `PushedRaw` |
| `UrlBuilding.UrlPath.PushSegmentEncoded` | concord_core/src/types.rs:315-321 | `""` and `"/"` are skipped, anything else is encoded and pushed |
| `UrlBuilding.PushRawAppendsParts` | concord_core/src/types.rs:255-289 | for every path and piece, pushing appends exactly the non-empty parts of the trimmed piece |
| `UrlBuilding.PushedRawText` | concord_core/src/types.rs:255-289 | the path after a raw piece is the path without a trailing slash, one slash, and the trimmed piece without a slash at either end |
| `UrlBuilding.RawPiecesKeepCanonical` | concord_core/src/types.rs:255-289 | raw pieces that double no slash keep a path free of doubled and trailing slashes |
| `UrlBuilding.TrimIsExact` | concord_core/src/types.rs:255-259 | trimming takes exactly the white space off both ends |
| `UrlBuilding.PercentEncode` | concord_core/src/types.rs:291-310 | the loop is the byte-wise `Encoded` |
| `UrlBuilding.EncodeRoundTrip` | concord_core/src/types.rs:291-310 | decoding by sections 2.1 and 2.3 of RFC 3986 undoes the encoding, and the encoding has no slash and no white space |
| `UrlBuilding.PathReadsBack` | concord_core/src/types.rs:236-321 | split on slashes and decode: the pushed segments come back in order, without `""` and `"/"` |
| `UrlBuilding.PathIsCanonical` | concord_core/src/types.rs:236-321 | the path text has one slash in front of each kept segment and none at the end, and is `/` when nothing was kept |
| `UrlBuilding.HostParts.constructor` | concord_core/src/types.rs:31-38 | a new host has no labels |
| `UrlBuilding.HostParts.SetAbsolute` | concord_core/src/types.rs:42-45 | the absolute host replaces the labels and forgets a refused one |
| `UrlBuilding.HostParts.PushLabel` | concord_core/src/types.rs:53-69 | labels are appended in order; in absolute mode the first pushed label is remembered and nothing else changes |
| `UrlBuilding.AbsoluteValidIff` | concord_core/src/types.rs:86-134 | an absolute host passes its checks if and only if it is non-empty and has no delimiter of a URL authority and no white space |
| `UrlBuilding.HostParts.Validate` | concord_core/src/types.rs:71-200 | no error if and only if every label is a letter-digit-hyphen label without a hyphen at an end, or the absolute host is clean and no label was pushed; an error names the first offence with its index, text, placeholder and reason |
| `UrlBuilding.LabelReasonIsTrue` | concord_core/src/types.rs:139-197 | the reason given for a bad label is true of it, and a bad byte is the first of its first bad character |
| `UrlBuilding.LeadByteIsUtf8` | concord_core/src/types.rs:184-197 | the byte reported is the character itself for ASCII and a UTF-8 lead byte otherwise |
| `UrlBuilding.HostParts.Join` | concord_core/src/types.rs:202-227 | the labels with dots between them in front of the domain, or the absolute host |
| `UrlBuilding.ValidatedHostIsClean` | concord_core/src/types.rs:71-227 | the joined host of validated parts contains nothing that would end the host part of a URL |
| `UrlBuilding.HostJoinIsInjective` | concord_core/src/types.rs:202-227 | for one domain, different lists of validated labels give different hosts |

## Left out

- The start time, the refresh skew and the largest representable instant are parameters of a run; the skew is one for all callers, as in the client.
- Every provider result and every manual value gets a fresh credential identity; two results with equal secret text count as different credentials.
- Slots whose provider failed to initialise appear in the class, not in the protocol: they never change state.
- What a provider's own `invalidate` does after the slot was changed, the lifecycle observer hooks and mutex poisoning are not modelled.
- A future dropped at a suspension point and a panic inside a provider are the same cancel step.
- `usize` is 64 bits wide.
- CredentialSlots.CredentialSlot.Inspect: the second check after registering a waiter is not modelled, because it runs under the same lock and always succeeds.
- HonestPagination.HonestCollect: the list has fewer than 2^64 items, and different offsets must be rendered into different requests, as the loop guards presuppose.
- The cursor and paged controllers.
- `is_end_stream`, the exclusive-poll wrapper and the conversion of foreign errors into body errors.
- RequestDriver.DriveExecutions: making the public head, preparing authentication, finishing the message, sending it and applying a rejection to the slots are parameters of each execution; rate limiting, hooks, response limits and debug output are not modelled.
- BodyAdapters.BoundedResponseStream.CollectBytes: how far the buffer can grow is a parameter, at most the largest byte slice, because it depends on the allocator.
- UrlBuilding.UrlPath.PushSegmentEncoded: segments are the UTF-8 bytes of the original strings.
- Parsing header names (which also puts them in lower case), the validity of header values, base64 and the encoding of a query are library calls; they are parameters, and the query is a list of decoded pairs.
- Error texts are kept only where they tell cases apart.
- TLS, proxies, the reqwest client, policies, redaction, retry modes, codecs, the macros and the development executor: plumbing or decisions settled by reading one branch.
