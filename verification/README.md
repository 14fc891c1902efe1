# go-ddd-core, modelled and proved

go-ddd-core defines contracts (job queues, idempotency, object storage, event buses, event sourcing)
and ships small complete implementations that serve as their executable specification. This project
models those implementations, and the algorithms of the production code beside them, in Dafny, and
proves what they promise: over every interleaving of workers, clients, writers and clock readings, or
over every input.

`dafny verify dfyconfig.toml` checks everything.

| component | modules | main results |
|---|---|---|
| leased job queue | `Delivery`, `LeasedQueue`, `LeasedRuns`, `LeasedExclusion`, `LeasedStore`, `LeasedWorld` | `ContractOnEveryRun`, `CompletedExactlyWhenAcked`, `JobsAreDurable`, `NothingIsLost`, `FailureIsRetriedAtOnce`, `RoundsDrain`, `ExclusiveExactlyWhenInTime`, `DeliveriesAreIsolated` |
| claim-based job queue | `ClaimQueue`, `ClaimRuns`, `ClaimStore` | `ContractOnEveryRun`, `ClaimIsExclusive`, `AttemptsAccounted`, `RetriedExactlyAfterDelay`, `ScheduleOnlyMovesLater` |
| idempotency store | `Idempotency`, `IdempotencyRuns`, `IdempotencyIsolation`, `IdempotencyStore`, `IdempotencyWorld` | `ConcludesExactlyWhenOpen`, `ReservesExactlyWhenFree`, `BeginIsDecided`, `FinishIsFinal`, `KeyIsolation`, `ReplaysAreIsolated` |
| paginated listing | `Lexical`, `Listing`, `MemStorage` | `WalkIsSound`, `StillWalkIsExact`, `EndSignal`, `ListAll`, `WalkAmidChanges` |
| filter trees | `Specification`, `Filter` | `BuildSpecification`, `TranslationHasTreeValue`, `DeMorgan`, `Flattening`, `Congruence` |
| router and inbox | `Router`, `RouterTables`, `RouterLoop`, `RouterServing` | `AtMostOnce`, `AppliedExactlyWhenNoRivals`, `ServingAppliesOnce`, `ServedMeansApplied` |
| event sourcing | `EventSourcing`, `ESAggregate`, `Writers` | `ReloadsExactlyWhenClean`, `NoLostUpdates`, `InPlaceExactlyWhenHarmless` |
| bank account | `Account` | `BalanceIsLedger`, `DebtIsCovered`, `OverdraftRuleHoldsUnlessItWraps` |
| Relay cursors | `Base64Url`, `Cursor` | `CursorRoundTrip`, `AfterTheEnd` |

How the model is laid out:

- Each mutex-protected critical section is a function on values (`LeasedQueue.Dequeue`,
  `Idempotency.Step`, ...). A transition system takes these as its atomic steps; a run is a sequence of
  states and actions, and any action that is enabled may come next. So goroutine scheduling, map
  iteration order, clock advances, handlers that never return, crashes and redelivery are all choices
  of the run, and the theorems hold for all of them.
- The objects that the code updates in place are classes with the same fields. Their methods are proved
  equal to the step functions, payload buffers being real byte arrays there: a store's abstract value
  depends only on arrays it keeps to itself.
- `LeasedWorld` and `IdempotencyWorld` run those objects under any sequence of moves: calls of any
  clients, workers fetching, handlers being handed copies and returning much later, and single bytes
  written at any time into any array that someone was handed or has passed in. The contents of all those
  arrays are followed move by move (`mems`). Whatever the moves, the objects go through a run of the
  transition system with the bytes that are in the arrays, so every theorem about runs holds of them.
  `MemStorage.WalkAmidChanges` and `RouterServing` do the same for the listing walk and the router loop.
- Instants are integers; 0 is Go's zero `time.Time`. Durations are integers in nanoseconds.
- A history (`Delivery.Log`) records what happened to jobs. A delivery is identified by its position in
  the history, which lets outcomes of stragglers be told apart from those of later deliveries.
- In the claim-based queue the clock is read before the store's lock is taken, so a claim or a retry may
  use an older reading than the present (`at <= now`). A retry's reading is not older than the claim it
  follows.
- In the idempotency store a call reads the clock when it looks an entry up and again when it files a
  new one (`at <= stamp`), and readings never go back from one call to the next.
- A handler of the router commits its effect together with `Record` in one step. `Seen` is asked in
  the same step or not at all: an earlier `Seen` that said no is the case of not asking, and one that
  said yes stays right because nothing is ever taken off the record.

What the proofs found, where the code does less than one may read into it:

- Under a lease, handling is not exclusive and one job may be acked twice (`LeasedRuns.StragglersOverlap`),
  as `ports/jobs/jobs.go` says itself. It is exclusive exactly as long as no job is dequeued while an open
  delivery of it has overrun its lease (`LeasedExclusion.ExclusiveExactlyWhenInTime`); until then no job is
  acked twice, and from then on it can be (`ExclusiveMeansAckedOnce`, `OverlapCanAckTwice`). Under claims
  handling is always exclusive and one ack is all there can be.
- A page of one that holds the empty key would end a walk early (`Listing.EndSignal`,
  `Listing.EmptyKeyEndsWalkEarly`). The store never holds the empty key, because `Put` rejects it.
- The overdraft rule is decided on a 64-bit difference. It is decided as stated exactly when that
  difference does not wrap (`Account.OverdraftRuleHoldsUnlessItWraps`, `Account.WithdrawalCanWrap`), and
  the debt can leave the limits only through a deposit that wraps (`Account.CoverIsLostOnlyByWrapping`,
  `Account.DepositCanWrap`).
- Nothing stops `SetOverdraftLimit` on a closed or frozen account, so "closed is final" holds for status
  and money, not for the limit. What such accounts accept is stated exactly
  (`Account.ClosedAcceptsOnlyLimits`, `Account.FrozenPaysNothing`, `Account.ClosedAccountChangesLimit`).
- An `apply` that fails after it has touched the state makes the rebuilt aggregate differ; that it does not
  is exactly what rebuilding needs (`EventSourcing.ReloadsExactlyWhenClean`). Accepted events are raised
  in the state their stream replays to exactly when rejections do no harm, which is a little less: once
  a rejection has touched a state nothing is accepted before the state is as it was
  (`Writers.InPlaceExactlyWhenHarmless`, `EventSourcing.HarmlessNeedNotBeClean`).
- Handlers that record under one Consumer name can make an acked envelope skip one of them. An ack means
  that all handlers were applied exactly when the table of handlers has no rivals
  (`RouterTables.AppliedExactlyWhenNoRivals`).

## Model

| member | source | states |
|---|---|---|
| `Buffers.Clone` | ports/jobs/jobs_test.go:91-93 | a fresh array with the same bytes; nil and empty copy alike |
| `Decimal.ItoaInjective` | ports/jobs/jobs_test.go:103-105 | numerals identify their numbers, so counters never issue an id twice |
| `Decimal.ItoaShape` | ports/jobs/jobs_test.go:103-105 | numerals are decimal digits without leading zeros |
| `Decimal.TaggedInjective` | ports/idempotency/idempotencytest/idempotencytest_test.go:109-110 | the same for numerals behind a fixed text, as in lease tokens and claim-queue ids |
| `Delivery.AcceptKeepsContract` | ports/jobs/jobs.go:32-41 | accepting a job under a fresh id keeps the delivery contract of a history |
| `Delivery.DeliverKeepsContract` | ports/jobs/jobs.go:17-30 | handing over an accepted, due, un-acked job verbatim keeps the contract |
| `Delivery.ReturnKeepsContract` | ports/jobs/jobs.go:207-228 | the first outcome of a delivery, however late, keeps the contract |
| `LeasedQueue.ReclaimIsComplete` | ports/jobs/jobs_test.go:117-121 | after reclaiming no lease is expired, and the due pending jobs are exactly those that were deliverable |
| `LeasedRuns.EnqueueContract` | ports/jobs/jobs_test.go:83-110 | each reply if and only if its case holds, in the order type, horizon, context, backend; a job is stored exactly on success or lost acknowledgement, as one new pending job under a fresh non-empty id, all else untouched |
| `LeasedRuns.InvAlways` | ports/jobs/jobs_test.go:83-147 | the invariant that ties store, open deliveries and history together holds in every reachable state |
| `LeasedRuns.ContractOnEveryRun` | ports/jobs/jobs_test.go:113-147 | on every run: ids unique; every delivery carries what was accepted and never before ProcessAt; every outcome belongs to one delivery; no delivery after an ack; two deliveries of a job are more than the lease apart or a failure was reported between them |
| `LeasedRuns.NeverEarly` | ports/jobs/jobs_test.go:122-129 | every delivery, first or repeated, comes at or after the ProcessAt its job was accepted with, zero being always past |
| `LeasedRuns.CompletedExactlyWhenAcked` | ports/jobs/jobs_test.go:133-139 | a job is completed if and only if some delivery of it returned nil; attempts counts its deliveries; only workers with a handler for the type ever report |
| `LeasedRuns.JobsAreDurable` | ports/jobs/jobs_test.go:98-147 | between any two states of a run a stored job stays, its id, type, payload and ProcessAt unchanged, and completed is never left |
| `LeasedRuns.FailureIsRetriedAtOnce` | ports/jobs/jobs_test.go:141-147 | right after a failed attempt is reported the job can be dequeued by any worker if and only if no delivery of it was acked and its ProcessAt has come: no lease is waited out |
| `LeasedRuns.NothingIsLost` | ports/jobs/jobs.go:207-228 | whatever happened before, an un-acked job can be dequeued by any worker once its ProcessAt has come and one lease has passed |
| `LeasedRuns.DequeueIsComplete` | ports/jobs/jobs_test.go:113-131 | dequeue is empty-handed if and only if nothing is due, removes exactly the job it hands out from the deliverable ones, and leaves no expired lease |
| `LeasedRuns.RoundsDeliverEachOnce` | ports/jobs/jobs_test.go:113-139 | with the clock fixed, dequeue-then-complete rounds in any order deliver distinct jobs, all deliverable, and leave exactly the rest |
| `LeasedRuns.RoundsDrain` | ports/jobs/jobs_test.go:113-139 | with k deliverable jobs there are at most k rounds, and the queue is drained exactly after k |
| `LeasedRuns.StragglersOverlap` | ports/jobs/jobs.go:51-57 | for every lease length there is a run in which two deliveries of one job are handled at once and both ack |
| `LeasedExclusion.UnreportedAlways` | ports/jobs/jobs_test.go:133-147 | while nothing has overlapped, no outcome of a job was reported behind an open delivery of it |
| `LeasedExclusion.DequeueKeepsExclusion` | ports/jobs/jobs_test.go:113-131 | in a run without overlap so far, a dequeue keeps it so if and only if no open delivery of the job has overrun its lease |
| `LeasedExclusion.ExclusiveExactlyWhenInTime` | ports/jobs/jobs.go:51-57 | handling is exclusive throughout a run if and only if no dequeue ever hands out a job with an open delivery beyond its lease |
| `LeasedExclusion.ExclusiveMeansAckedOnce` | ports/jobs/jobs_test.go:133-139 | as long as handling was exclusive no job was acked twice |
| `LeasedExclusion.OverlapCanAckTwice` | ports/jobs/jobs.go:207-228 | from every reachable overlap the run can go on to a second ack |
| `LeasedStore.Clock.constructor` | ports/jobs/jobs_test.go:32 | starts a million seconds after the Unix epoch, which is not the zero instant |
| `LeasedStore.FakeStore.constructor` | ports/jobs/jobs_test.go:79-81 | an empty store with a lease of one minute and no horizon |
| `LeasedStore.FakeStore.Insert` | ports/jobs/jobs_test.go:103-105 | files a pending job under the next numeral |
| `LeasedStore.FakeStore.Enqueue` | ports/jobs/jobs_test.go:83-110 | refines the enqueue step, on a private copy of the payload, also when the acknowledgement is lost |
| `LeasedStore.FakeStore.SweepLeases` | ports/jobs/jobs_test.go:117-121 | the loop puts exactly the expired leases back to pending |
| `LeasedStore.FakeStore.ReclaimExpired` | ports/jobs/jobs_test.go:117-121 | refines the reclaim step |
| `LeasedStore.FakeStore.LeaseOne` | ports/jobs/jobs_test.go:122-130 | the loop leases some due pending job, and gives up only if there is none |
| `LeasedStore.FakeStore.Dequeue` | ports/jobs/jobs_test.go:113-131 | refines the nondeterministic dequeue step |
| `LeasedStore.FakeStore.Complete` | ports/jobs/jobs_test.go:133-139 | refines the complete step, in any phase, unknown ids ignored |
| `LeasedStore.FakeStore.Requeue` | ports/jobs/jobs_test.go:141-147 | refines the requeue step: only an active job becomes pending |
| `LeasedStore.FakeStore.SetFaults` | ports/jobs/jobs_test.go:178-182 | switches the faults and nothing else |
| `LeasedStore.FakeWorker.Register` | ports/jobs/jobs_test.go:212-225 | bad arguments before duplicates; a duplicate leaves the first handler installed |
| `LeasedStore.FakeWorker.Hand` | ports/jobs/jobs_test.go:268-279 | the handler of exactly that type, if there is one, gets a fresh copy of the payload |
| `LeasedStore.FakeWorker.Report` | ports/jobs/jobs_test.go:280-284 | nil completes, an error requeues |
| `LeasedWorld.Open` | ports/jobs/jobs_test.go:79-81 | a new store and its workers are a start |
| `LeasedWorld.Surround` | ports/jobs/jobs_test.go:40-44 | a clock advance or a fault is one step, and touches no held array |
| `LeasedWorld.Outside` | ports/jobs/jobs_test.go:83-110 | a write changes one byte of one held array and nothing of the store; a submit is an enqueue step with exactly what the held array contains, and changes no held array |
| `LeasedWorld.Hire` | ports/jobs/jobs_test.go:212-225 | a registration is a step exactly if it succeeds |
| `LeasedWorld.Serve` | ports/jobs/jobs_test.go:259-266 | fetching and reporting are steps of the transition system, and touch no held array |
| `LeasedWorld.Attend` | ports/jobs/jobs_test.go:268-279 | the call of a handler is a step; if there is a handler it holds one more array with exactly the payload of the delivery |
| `LeasedWorld.PlayedIsRun` | ports/jobs/jobs_test.go:227-287 | what any sequence of moves does is a run of the transition system |
| `LeasedWorld.AcceptedWasSubmitted` | ports/jobs/jobs_test.go:91-105 | every job in the log was submitted by an earlier move, with what the array it passed contained then |
| `LeasedWorld.DeliveriesAreIsolated` | ports/jobs/jobs_test.go:91-109 | over any interleaving of callers, workers and stragglers, and any bytes written at any time into arrays passed in or handed out: the objects follow a run that enqueues what the arrays contain; the log satisfies the contract; every handler is handed a new array with the bytes that were in the array its job was submitted with, as they were then, also when the acknowledgement was lost; and held arrays change by their holders' writes alone |
| `ClaimRuns.InvAlways` | ports/jobs/jobstest/delivery_test.go:36-93 | the invariant of the claim-based queue holds in every reachable state |
| `ClaimRuns.ContractOnEveryRun` | ports/jobs/jobstest/delivery_test.go:58-93 | on every run the delivery contract holds, a job is delivered again only after its previous delivery failed and at least the retry delay later, and at most one ack per job is ever reported |
| `ClaimRuns.EnqueueContract` | ports/jobs/jobstest/delivery_test.go:36-48 | one new unclaimed job under "job-" and the next number, exactly as passed, all other jobs untouched |
| `ClaimRuns.NeverEarly` | ports/jobs/jobstest/delivery_test.go:65-67 | no delivery before the ProcessAt its job was accepted with |
| `ClaimRuns.RetriedExactlyAfterDelay` | ports/jobs/jobstest/delivery_test.go:86-93 | a failed job can be claimed again exactly from retryDelay after the failure, by exactly the workers with a handler for its type |
| `ClaimRuns.OutcomesTouchLittle` | ports/jobs/jobstest/delivery_test.go:78-93 | in whatever state, completing and retrying a job touch nothing else of it and no other job |
| `ClaimRuns.ClaimIsExclusive` | ports/jobs/jobstest/delivery_test.go:141-170 | a job has exactly one delivery in flight while claimed and unfinished, otherwise none; no claim is dropped for want of a handler |
| `ClaimRuns.AttemptsAccounted` | ports/jobs/jobstest/delivery_test.go:58-93 | attempts are the failures, plus the delivery in flight, plus the ack |
| `ClaimRuns.ScheduleOnlyMovesLater` | ports/jobs/jobstest/delivery_test.go:86-93 | between any two states of a run a job stays, is unaltered, its ProcessAt never moves earlier, done is never left |
| `ClaimRuns.NothingIsLost` | ports/jobs/jobstest/delivery_test.go:58-76 | a job neither acked nor in flight can be claimed by any worker that handles its type once its schedule has come |
| `ClaimStore.RefStore.constructor` | ports/jobs/jobstest/delivery_test.go:34 | an empty store |
| `ClaimStore.RefStore.Insert` | ports/jobs/jobstest/delivery_test.go:36-48 | refines the enqueue step: an unclaimed job under the next id |
| `ClaimStore.RefStore.Enqueue` | ports/jobs/jobstest/delivery_test.go:97-105 | type before context; refines the enqueue step on a private copy |
| `ClaimStore.RefStore.Claim` | ports/jobs/jobstest/delivery_test.go:58-76 | the loop refines the nondeterministic claim step and hands out a fresh copy of the payload |
| `ClaimStore.RefStore.Complete` | ports/jobs/jobstest/delivery_test.go:78-84 | refines the complete step |
| `ClaimStore.RefStore.Retry` | ports/jobs/jobstest/delivery_test.go:86-93 | refines the retry step |
| `IdempotencyRuns.TokensAreUnique` | ports/idempotency/idempotencytest/idempotencytest_test.go:108-124 | no lease token is ever issued twice, to any key |
| `IdempotencyRuns.NewReservation` | ports/idempotency/idempotencytest/idempotencytest_test.go:109-123 | a new reservation tells the caller its own scope and key, a numbered token, one minute, and no bytes |
| `IdempotencyRuns.RejectedExactlyWhenBad` | ports/idempotency/idempotencytest/idempotencytest_test.go:95-101 | a done context if and only if so, malformed input if and only if a part is empty, in that order, the store unchanged |
| `IdempotencyRuns.ReservationHolds` | ports/idempotency/idempotencytest/idempotencytest_test.go:77-93 | until concluded or too old, a reservation is what the store holds for its key, whatever other calls do |
| `IdempotencyRuns.FinishHolds` | ports/idempotency/idempotencytest/idempotencytest_test.go:142-161 | a finished key keeps the bytes of that Finish in every later state |
| `IdempotencyRuns.InProgressOrigin` | ports/idempotency/idempotencytest/idempotencytest_test.go:106-124 | every held reservation stems from a Begin that nothing has concluded since |
| `IdempotencyRuns.CompletedOrigin` | ports/idempotency/idempotencytest/idempotencytest_test.go:153-160 | every completed entry stems from a successful Finish |
| `IdempotencyRuns.ConcludesExactlyWhenOpen` | ports/idempotency/idempotencytest/idempotencytest_test.go:142-181 | Finish and Cancel are applied if and only if the token belongs to a reservation of that key that was not concluded and is not too old; otherwise the reply is Conflict |
| `IdempotencyRuns.HonestClientConcludes` | ports/idempotency/idempotencytest/idempotencytest_test.go:142-181 | a client that passes back exactly the reservation it was given succeeds if and only if that reservation is still open |
| `IdempotencyRuns.ReservesExactlyWhenFree` | ports/idempotency/idempotencytest/idempotencytest_test.go:75-124 | Begin reports StatusNew if and only if the key was never finished and every earlier reservation of it was cancelled or has outlived a positive reclaimAfter |
| `IdempotencyRuns.HeldKeyAnswers` | ports/idempotency/idempotencytest/idempotencytest_test.go:126-139 | Begin on a held key is told in progress for the reserving fingerprint and a mismatch for any other, without token or bytes |
| `IdempotencyRuns.BeginIsDecided` | ports/idempotency/idempotencytest/idempotencytest_test.go:106-139 | a key is finished, held by an open reservation, or free, and Begin reserves if and only if it is free |
| `IdempotencyRuns.FinishIsFinal` | ports/idempotency/idempotencytest/idempotencytest_test.go:126-161 | after a Finish every other Finish or Cancel conflicts, and every Begin replays exactly its bytes for the reserving fingerprint and a mismatch without bytes for any other |
| `IdempotencyRuns.DeadTokensStayDead` | ports/idempotency/idempotencytest/idempotencytest_test.go:77-181 | a token that was concluded or has aged, or belongs to another key, never authorises anything again |
| `IdempotencyIsolation.ProjectionReplays` | ports/idempotency/idempotencytest/idempotencytest_test.go:77-181 | the simulation between the shared store and one key's own store, from any related pair of states |
| `IdempotencyIsolation.KeyIsolation` | ports/idempotency/idempotency.go:124-132 | in any interleaving, and for any tokens passed, a key's replies are those of its own calls run at the same times on an empty store, up to token names |
| `IdempotencyIsolation.ProjectionKeepsCalls` | ports/idempotency/idempotency.go:124-132 | the calls run on that store are the key's calls, in order, arguments and times unchanged, tokens aside |
| `IdempotencyIsolation.KeyIsolationByRenaming` | ports/idempotency/idempotency.go:124-132 | when callers pass back only tokens issued for the key, one injective renaming does for all calls and replies |
| `IdempotencyStore.CloneBytes` | ports/idempotency/idempotencytest/idempotencytest_test.go:183-190 | a fresh array with the same bytes, nil staying nil |
| `IdempotencyStore.FakeStore.constructor` | ports/idempotency/idempotencytest/idempotencytest_test.go:68-73 | an empty store |
| `IdempotencyStore.FakeStore.Lookup` | ports/idempotency/idempotencytest/idempotencytest_test.go:77-93 | drops the entry exactly if it can be reclaimed |
| `IdempotencyStore.FakeStore.Open` | ports/idempotency/idempotencytest/idempotencytest_test.go:109-116 | files the reservation under the next token |
| `IdempotencyStore.FakeStore.Close` | ports/idempotency/idempotencytest/idempotencytest_test.go:157-159 | files the outcome and ends the ownership |
| `IdempotencyStore.FakeStore.Begin` | ports/idempotency/idempotencytest/idempotencytest_test.go:95-140 | refines the Begin step; a replay is a fresh array |
| `IdempotencyStore.FakeStore.Finish` | ports/idempotency/idempotencytest/idempotencytest_test.go:142-161 | refines the Finish step on a private copy of the response |
| `IdempotencyStore.FakeStore.Cancel` | ports/idempotency/idempotencytest/idempotencytest_test.go:163-181 | refines the Cancel step |
| `IdempotencyWorld.PerformAsk` | ports/idempotency/idempotencytest/idempotencytest_test.go:95-140 | a Begin is one step; the client then holds one more array with exactly the bytes of the replay, or none |
| `IdempotencyWorld.PerformConclusion` | ports/idempotency/idempotencytest/idempotencytest_test.go:142-181 | a Finish is one step with exactly what the passed array contains, a Cancel one step; neither changes a held array |
| `IdempotencyWorld.Perform` | ports/idempotency/idempotencytest/idempotencytest_test.go:95-181 | any move is one step or, for a write, none; held arrays change by their holders' writes alone |
| `IdempotencyWorld.ReplaysAt` | ports/idempotency/idempotencytest/idempotencytest_test.go:126-161 | a replay after a Finish hands out the bytes that were in the array passed to that Finish at that moment |
| `IdempotencyWorld.ReplaysAreIsolated` | ports/idempotency/idempotencytest/idempotencytest_test.go:129-159 | over any calls on any keys with any tokens, and any bytes written at any time into arrays passed in or handed out: the store follows a run with the bytes the arrays contain; every replay is a new array with the bytes that were in the buffer when Finish was called, or a mismatch without bytes; and held arrays change by their holders' writes alone |
| `Lexical.LessIsLexical` | ports/storage/storagetest/reference.go:139-145 | the order of keys is byte-wise lexical: a proper prefix first, otherwise the first differing byte decides |
| `Lexical.LessTransitive` | ports/storage/storagetest/reference.go:139-145 | it is transitive |
| `Lexical.LessTotal` | ports/storage/storagetest/reference.go:139-145 | and total |
| `Lexical.SortedIsListing` | ports/storage/storagetest/reference.go:132-139 | the sorted listing of a set is increasing and holds each element once |
| `Lexical.ListingIsSorted` | ports/storage/storagetest/reference.go:132-139 | it is the only increasing listing of that set |
| `Listing.EndSignal` | ports/storage/storagetest/reference.go:141-164 | the cursor comes back empty if and only if no matching key is left over, or the page has limit one and holds the empty key |
| `Listing.EmptyKeyEndsWalkEarly` | ports/storage/storagetest/reference.go:146-149 | with the empty key stored a walk can end with keys not listed |
| `Listing.WalkIsSound` | ports/storage/storagetest/reference.go:121-165 | with any mutation between pages and any limits, a walk yields strictly increasing keys, each stored and matching when listed, and if it ends it has yielded every matching key present throughout |
| `Listing.StillWalkIsExact` | ports/storage/storage.go:110-118 | over a store left alone a walk ends exactly at its last page and has then yielded exactly the sorted matching keys |
| `Listing.PageCountIsCeiling` | ports/storage/storagetest/reference.go:141-164 | the number of pages is max(1, ceil(n / limit)) |
| `Listing.RemainingAfter` | ports/storage/storagetest/reference.go:142-145 | resuming at a listed key leaves exactly the rest of the listing |
| `MemStorage.InsertKey` | ports/storage/storagetest/reference.go:139 | keeps a listing increasing and adds exactly one key |
| `MemStorage.SortKeys` | ports/storage/storagetest/reference.go:139 | returns the sorted listing of the keys |
| `MemStorage.CursorSplits` | ports/storage/storagetest/reference.go:142-145 | skipping keys up to the cursor leaves exactly the keys after it, for any cursor |
| `MemStorage.MemStorage.constructor` | ports/storage/storagetest/reference.go:33-35 | an empty store |
| `MemStorage.MemStorage.Put` | ports/storage/storagetest/reference.go:41-72 | succeeds exactly for a non-empty key, a live context and a body of the declared size; stores exactly that object; errors in order of precedence change nothing; the empty key is never stored |
| `MemStorage.MemStorage.Stat` | ports/storage/storagetest/reference.go:85-106 | reports the stored object, or the first error that applies |
| `MemStorage.MemStorage.Delete` | ports/storage/storagetest/reference.go:108-119 | removes exactly the key; an absent key is no error |
| `MemStorage.MemStorage.Collect` | ports/storage/storagetest/reference.go:132-138 | the matching keys, each once, in whatever order |
| `MemStorage.MemStorage.FillPage` | ports/storage/storagetest/reference.go:141-164 | skips up to the cursor, takes at most limit objects and says whether more are left |
| `MemStorage.MemStorage.List` | ports/storage/storagetest/reference.go:121-165 | returns the page that the plain key set determines, with the facts of the stored objects |
| `MemStorage.ListAll` | ports/storage/storagetest/storagetest.go:192-215 | following the cursor until it is empty terminates, lists exactly the sorted matching keys, in exactly max(1, ceil(n / limit)) pages |
| `MemStorage.WalkedIsWalk` | ports/storage/storagetest/reference.go:41-72 | pages asked for between any puts and deletes form a walk, the empty key never being stored |
| `MemStorage.Perform` | ports/storage/storagetest/reference.go:41-165 | each Put, Delete or page changes the store, or lists it, exactly as its key set says |
| `MemStorage.WalkAmidChanges` | ports/storage/storagetest/reference.go:108-165 | the pages that the running store returns amid any puts and deletes yield strictly increasing keys, each stored when listed, and at the end every matching key that was there throughout |
| `Specification.NegatedMeansNot` | application/query/spec/spec.go:83-94 | the Not method and the Not combinator agree, negating twice changes nothing, and the Not method of a negation hands back what it negates |
| `Filter.BuildSpecification` | transport/graphql/spec_filter.go:33-87 | fails with the first error among the reached leaves, left to right; gives nil exactly if no reached leaf has a specification; otherwise gives one satisfied by exactly the values the pruned tree holds for, with Leaf over And over Or over Not, its predicates in the order of the leaves |
| `Filter.BuildAll` | transport/graphql/spec_filter.go:39-55 | the same for the conjunction loop |
| `Filter.BuildAny` | transport/graphql/spec_filter.go:57-73 | the same for the disjunction loop |
| `Filter.TranslationHasTreeValue` | transport/graphql/spec_filter.go:33-87 | for leaves that are plain predicates, however valued: no error, nil exactly if no leaf is present, otherwise satisfied by exactly the values for which the pruned tree is true |
| `Filter.EquivalentTreesTranslateAlike` | transport/graphql/spec_filter.go:23-33 | equivalent trees give the same error, both nil, or specifications that agree on every value |
| `Filter.DeMorgan` | transport/graphql/spec_filter.go:33-87 | pushing Not into And or Or gives an equivalent tree, errors and nil included |
| `Filter.Flattening` | transport/graphql/spec_filter.go:33-87 | splicing And into And, or Or into Or, gives an equivalent tree |
| `Filter.Congruence` | transport/graphql/spec_filter.go:33-87 | replacing any subtree by an equivalent one, at any depth and shadowed or not, gives an equivalent tree, so both rewrites hold everywhere |
| `Router.InvAlways` | eventbus/router.go:67-106 | effects and records stay together, and what loops and acks claim is on record, in every reachable state |
| `Router.HandlerSucceedsExactly` | eventbus/inbox.go:23-43 | a handler succeeds exactly with a valid key, a live context and its work done now or earlier; it leaves its record, and its effect if there was none |
| `Router.RegisteredInOrder` | eventbus/router.go:46-51 | handlers are kept per router and name in the order of registration |
| `Router.AtMostOnce` | eventbus/inbox.go:30-43 | for any number of loops and any redelivery, each (Consumer, EventID) effect is applied at most once, and only by handlers of published events |
| `Router.AckedMeansAppliedOnce` | eventbus/inbox.go:30-43 | also with handlers registered on the way: if they have Consumers of their own, every handler of an acked envelope has been applied exactly once, even if later handlers failed and forced redelivery |
| `RouterTables.TableInvAlways` | eventbus/router.go:89-106 | with a fixed table, only a handler that is the first of its Consumer on its router is ever applied |
| `RouterTables.SharingIsRivalry` | eventbus/inbox.go:8-13 | two different handlers of one Consumer on a name that can be acked are rivals |
| `RouterTables.RivalIsSkipped` | eventbus/inbox.go:8-13 | for every table with rivals there is a run that acks an event to a handler that is never applied |
| `RouterTables.AppliedExactlyWhenNoRivals` | eventbus/inbox.go:30-43 | for every table and set of events: an ack always means that every handler was applied exactly once if and only if there are no rivals |
| `RouterLoop.ReferenceInbox.Seen` | eventbus/inboxtest/reference_test.go:32-43 | key before context, context before inbox |
| `RouterLoop.ReferenceInbox.Record` | eventbus/inboxtest/reference_test.go:45-59 | the same precedence; a duplicate is reported and changes nothing |
| `RouterLoop.Invoke` | eventbus/inbox.go:23-28 | a handler with its effect and Record in one transaction refines the handler step |
| `RouterLoop.DispatchProgress` | eventbus/router.go:100-105 | dispatch succeeds exactly when it got through all handlers, and those it got through are on record |
| `RouterLoop.DispatchRecordsEffects` | eventbus/router.go:100-105 | what a dispatch adds to the inbox is exactly what it applied |
| `RouterLoop.DispatchAppliesOnce` | eventbus/router.go:100-105 | a dispatch applies nothing on record already, and nothing twice |
| `RouterLoop.ServingAppliesOnce` | eventbus/router.go:67-87 | over any sequence of envelopes, all handlers of acked ones are on record, the inbox gained exactly what was applied, nothing twice |
| `RouterLoop.Loop.constructor` | eventbus/router.go:25-31 | no handlers, no callback |
| `RouterLoop.ChainedJoin` | eventbus/handler.go:30-38 | one middleware wraps the handler, and of two groups the first wraps what the second makes of it |
| `RouterLoop.Chain` | eventbus/handler.go:31-38 | the loop wraps the handler in its middlewares, the first one outermost |
| `RouterLoop.Loop.RegisterHandler` | eventbus/router.go:46-51 | appends the wrapped handler to those of that name, other names untouched |
| `RouterLoop.Loop.Dispatch` | eventbus/router.go:89-106 | handlers in order, stopping at the first that fails; no handler means success and the callback |
| `RouterLoop.Loop.Run` | eventbus/router.go:67-87 | a failed subscription takes nothing, a cancelled context stops between envelopes, a closed channel ends the loop; each envelope taken is acked exactly if its dispatch succeeded, otherwise nacked; the unknown ones go to the callback |
| `RouterServing.HandleRest` | eventbus/router.go:100-105 | what is left of a dispatch is a stretch of handler steps and an ack or nack |
| `RouterServing.DispatchIsStretch` | eventbus/router.go:89-106 | one dispatch is a stretch of a run of the router system: received, handled in order, acked or nacked |
| `RouterServing.ServedIsRun` | eventbus/router.go:67-87 | what the loop does with any envelopes on a new inbox is a run of the router system, same records, effects, acks and nacks |
| `RouterServing.ServedMeansApplied` | eventbus/router.go:67-106 | without rivals among its handlers, every handler of every envelope the loop acks was applied exactly once |
| `EventSourcing.ReplayJoin` | eventsourcing/aggregate.go:61-70 | replaying two stretches is replaying them one after the other |
| `EventSourcing.LoadIsReplay` | eventsourcing/aggregate.go:61-70 | LoadHistory succeeds exactly if the events replay; version grows by their number, nothing stays pending; a failed load keeps what was pending |
| `EventSourcing.FailedLoadStops` | eventsourcing/aggregate.go:61-70 | a failed load stops at the first rejected event: the events before it are applied and counted, none after, and what was pending stays |
| `EventSourcing.ChunkingIsIrrelevant` | eventsourcing/aggregate.go:61-70 | any chunking of a history loads to the same aggregate |
| `EventSourcing.ExpectedVersionIsStable` | eventsourcing/aggregate.go:50-57 | any mix of accepted and rejected events keeps version minus pending unchanged |
| `EventSourcing.ReloadsExactlyWhenClean` | eventsourcing/aggregate.go:50-70 | a loaded aggregate can always be rebuilt from stream plus pending events if and only if rejected events leave reachable states unchanged |
| `EventSourcing.DirtyRejectionIsLost` | eventsourcing/aggregate.go:50-53 | an apply that changes the state before failing breaks the rebuilding |
| `EventSourcing.CleanIsHarmless` | eventsourcing/aggregate.go:50-57 | clean rejections do no harm |
| `EventSourcing.HarmlessNeedNotBeClean` | eventsourcing/aggregate.go:50-57 | the converse fails: an apply that breaks for good at its first rejection |
| `ESAggregate.BaseESAggregate.constructor` | eventsourcing/aggregate.go:41-46 | version 0, nothing pending |
| `ESAggregate.BaseESAggregate.Apply` | eventsourcing/aggregate.go:73-75 | delegates to the injected function |
| `ESAggregate.BaseESAggregate.Raise` | eventsourcing/aggregate.go:50-57 | refines the raise step: a rejected event is not recorded and not counted |
| `ESAggregate.BaseESAggregate.LoadHistory` | eventsourcing/aggregate.go:61-70 | the loop refines the load: stops at the first failure, clears only on success |
| `Writers.InvAlways` | eventsourcing/eventstore.go:33-45 | every writer's pending events are in place after its part of the stream and its state has at most drifted through rejections, in every reachable state |
| `Writers.AppendContract` | eventsourcing/eventstore.go:25-37 | -1 skips the check, 0 asks for a new stream, any other version has to be the stream's |
| `Writers.NoLostUpdates` | eventsourcing/eventstore.go:35-37 | every stream always replays, is exactly its accepted batches in order, and each event of each batch was raised in the very state the stream before it replays to |
| `Writers.AcceptedExactlyWhenCurrent` | eventsourcing/eventstore.go:25-37 | an append is accepted if and only if the writer has seen the whole stream (the any-version value never comes up), and every load succeeds |
| `Writers.StaleWritersNeverWin` | eventsourcing/eventstore.go:35-37 | a writer that fell behind changes nothing until it loads again |
| `Writers.HarmfulRejectionMisplaces` | eventsourcing/aggregate.go:50-53 | each harmful rejection yields a run with an accepted batch whose last event was raised in a state its stream never had |
| `Writers.InPlaceExactlyWhenHarmless` | eventsourcing/aggregate.go:50-57 | accepted events are always raised in the state their stream replays to if and only if rejections do no harm |
| `Account.Wrap` | examples/minimal/domain/account/account.go:87 | 64-bit wrap-around, the identity exactly on values that fit |
| `Account.BalanceIsLedger` | examples/minimal/domain/account/account.go:41-142 | on every run the balance is opening deposit plus deposits minus withdrawals modulo 2^64, and exactly that sum if and only if it fits; each BalanceAfter is the running balance; versions are 1..n |
| `Account.StatusIsRecorded` | examples/minimal/domain/account/account.go:58-142 | on every run the limit in force is the one recorded last, and the status is what the events say |
| `Account.DebtIsCovered` | examples/minimal/domain/account/account.go:74-95 | as long as no deposit wrapped, the balance never drops below minus the largest overdraft limit ever set |
| `Account.CoverIsLostOnlyByWrapping` | examples/minimal/domain/account/account.go:100-113 | exactly when an accepted call keeps the debt covered: always, except a deposit whose sum wraps to below the limit |
| `Account.DepositCanWrap` | examples/minimal/domain/account/account.go:109 | a run whose deposit turns the largest balance into the largest debt |
| `Account.AllOrNothing` | examples/minimal/domain/account/account.go:58-142 | a rejected call changes nothing; an accepted one adds one version and one event and keeps all earlier events |
| `Account.RefusalsAreExact` | examples/minimal/domain/account/account.go:58-142 | each refusal is given exactly in its case, in the order of the checks |
| `Account.AcceptedIsRecorded` | examples/minimal/domain/account/account.go:58-142 | the event of an accepted call says what was asked for and what became of it |
| `Account.ClosedIsFinal` | examples/minimal/domain/account/account.go:131-142 | once closed, status and balance stay for the rest of the run, and only limit changes are still recorded |
| `Account.ClosedAcceptsOnlyLimits` | examples/minimal/domain/account/account.go:58-142 | on every run a closed account accepts a call if and only if it sets a non-negative limit |
| `Account.FrozenPaysNothing` | examples/minimal/domain/account/account.go:58-142 | a frozen account accepts exactly new limits, positive deposits and being closed |
| `Account.FrozenIsLasting` | examples/minimal/domain/account/account.go:116-142 | frozen is never left but for closed, and no withdrawal is recorded any more |
| `Account.ClosedAccountChangesLimit` | examples/minimal/domain/account/account.go:58-67 | for every limit a run that sets it on a closed account |
| `Account.WithdrawRespectsLimit` | examples/minimal/domain/account/account.go:74-95 | right after an accepted withdrawal the balance is within the limit in force |
| `Account.OverdraftRuleHoldsUnlessItWraps` | examples/minimal/domain/account/account.go:87-90 | a positive withdrawal from an open account is decided by the exact rule if and only if the difference fits 64 bits |
| `Account.WithdrawalCanWrap` | examples/minimal/domain/account/account.go:87-91 | a run in which a withdrawal beyond every limit is accepted and leaves the largest balance |
| `Account.BankAccount.constructor` | examples/minimal/domain/account/account.go:46-53 | open, version 1, one event |
| `Account.OpenAccount` | examples/minimal/domain/account/account.go:41-54 | a negative deposit gives no account, any other one a fresh account |
| `Account.BankAccount.SetOverdraftLimit` | examples/minimal/domain/account/account.go:58-67 | refines the step, in any status |
| `Account.BankAccount.Withdraw` | examples/minimal/domain/account/account.go:74-95 | refines the step with its order of checks |
| `Account.BankAccount.Deposit` | examples/minimal/domain/account/account.go:100-113 | refines the step; frozen accounts still take deposits |
| `Account.BankAccount.Freeze` | examples/minimal/domain/account/account.go:116-129 | refines the step; only open accounts, with a reason |
| `Account.BankAccount.Close` | examples/minimal/domain/account/account.go:133-142 | refines the step |
| `Base64Url.RoundTrip` | transport/graphql/cursor.go:15-32 | decoding undoes unpadded base64url encoding, for every byte string |
| `Base64Url.RefusedExactlyWhenMalformed` | transport/graphql/cursor.go:27-30 | a text is refused if and only if it has a symbol outside the alphabet or a length no encoding has |
| `Base64Url.DecodedIsCanonical` | transport/graphql/cursor.go:27-31 | an accepted text is the encoding of what it decodes to, but for spare bits of its last symbol, which are ignored |
| `Base64Url.SymbolsAreTheAlphabet` | transport/graphql/cursor.go:16 | all 64 symbols are those of table 2 of RFC 4648 |
| `Base64Url.EncodingShape` | transport/graphql/cursor.go:15-17 | only URL-safe symbols, as many as n bytes need without padding |
| `Base64Url.KnownVectors` | transport/graphql/cursor.go:16 | test vectors of section 10 of RFC 4648 with padding omitted, and both URL-safe symbols |
| `Cursor.CursorRoundTrip` | transport/graphql/cursor.go:15-32 | DecodeCursor undoes EncodeCursor, for every byte string, behind the prefix v1: |
| `Cursor.CursorRefused` | transport/graphql/cursor.go:23-32 | a cursor is refused if and only if the prefix is missing or what follows is not an encoding |
| `Cursor.ToPageRequest` | transport/graphql/cursor.go:50-66 | backward arguments are refused first, a bad cursor is an error, otherwise size and decoded token |
| `Cursor.BuildConnection` | transport/graphql/cursor.go:96-111 | every item with its cursor in order; the end cursor is the page's own next cursor if it has one, else the last edge's |
| `Cursor.AfterTheEnd` | transport/graphql/cursor.go:50-111 | the end cursor passed back as After asks for exactly NextCursor if there is a next page, else for the last item's payload; it is refused exactly for an empty last page |
| `Cursor.AfterEdge` | transport/graphql/cursor.go:50-111 | any edge cursor passed back asks for that item's payload |

## Left out

- `Run` of both job workers as code: goroutines, sleeping, tickers and the drain timeout are replaced by atomic steps that may come in any order, including handlers that never return. `LeasedWorld` runs the leased worker's pieces in any order instead.
- Fairness and starvation: the map order promises neither, so "can be delivered" is proved, not "will be".
- Different retry delays per worker: all workers of a claim-based run share one, as the fixture of ports/jobs/jobstest/delivery_test.go wires them.
- `refWorker.Register`: the same checks as the leased worker's.
- Job records and entries updated through pointers: maps of values that are reassigned, so a handed-out record is a snapshot. The fields a worker reads from it never change.
- `memStorage.Get`: it takes the lock twice, so its data and info agree only when nothing runs in between. Object data and metadata are values, not buffers, in the storage model.
- `sort.Strings`: modelled by an insertion sort; what matters is that a set has only one increasing listing.
- `Filter`: a leaf builder that returns a specification together with an error counts as an error; specifications outside the package's own combinators are predicates.
- `Router`: typed registration and its type mismatch error, and what the unknown-event callback does. A middleware is any function from handlers to handlers.
- `Writers`: appends of no events, which write nothing whether the store takes them or not; snapshots, LoadFrom and SetVersion, and the wrap-around of 64-bit versions; ID, event id and stream id are left out of aggregates where nothing depends on them.
- Go's base64 decoder is a library outside the repository: it also skips line breaks, which the model does not; that it ignores spare bits is how the model reads its non-strict mode.
- Snapshot policy, projectors, outbox, codecs, configuration, HTTP and gRPC servers, logging, tracing, rate limit and cache ports, pagination and error code tables, bootstrap: plumbing or easy members.
