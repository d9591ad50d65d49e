# Verification of the travel-booking saga and the billing ledger

A Dafny model of the booking saga (`TravelBookingSaga`, `SagaCoordinator`, the saga state repository, the three
reservation services, the notification service) and of the billing ledger (deposit and withdraw handlers, the
transaction state machine, virtual accounts, invoice numbering), with proofs of what they guarantee and of where a
guarantee ends. `dafny verify dfyconfig.toml` checks everything.

## How it is built

Every awaited MongoDB, Redis, broker or database command is one atomic step, given by a pure function on the stores.
The interleaving theorems quantify over every trace of those steps: any number of calls, messages reordered,
duplicated or unsolicited, time passing, locks expiring, acknowledgements lost, processes that stop anywhere. The
classes (`Coordinator`, `SagaStateRepository`, `Saga`, `ConfirmationHandler`, `ReservationService`, `OldSaga`,
`NotificationService`, the billing classes, `VirtualAccountService`, `InvoiceService`) are imperative, as the source
is, and each method is proved to leave the stores exactly as the same steps do when nothing comes in between. So the
theorems about steps are theorems about the methods. `SagaLimits.AloneIsATrace` closes the circle: letting one call
run by itself is one of the interleavings.

| files | what they hold |
|---|---|
| SagaTypes, CacheKeys, CoordinatorModel, Keyspace, SagaCoordinator | the coordinator: six timed maps, the flat string keyspace that represents them, the class over it |
| LockSafety, RateLimit | the lock and the fixed-window limiter over timed traces |
| SagaState, Repository | saga documents and their atomic commands |
| SagaProtocol | `execute` and `confirmReservation`/`aggregateResults` as step machines, and the world they interleave in |
| SagaDocuments, SagaLaunch, SagaQueue, SagaJoin, SagaNumbers, SagaContents, SagaOutcome | what every interleaving keeps true, and how a request ends |
| SoloRuns, SoloHandlers, RunOutcomes, HandlerOutcomes, TravelBookingSaga, ReservationServices, Notifications | the same calls uninterrupted, what they leave field by field, and the classes |
| SagaLimits, SagaRedelivery, SagaFailures | what the protocol does not guarantee: exact conditions, and runs from the initial world |
| WebhookSenders | webhook senders that overlap |
| Compensation | `execute_old` and `compensate` |
| TransactionStates, Ledger, LedgerSerial, LedgerPayments, LedgerLimits, BillingHandlers | transactions and balances |
| VirtualAccounts, AccountLimits | transfers and closings |
| Demands | requests against one balance, for LedgerLimits and AccountLimits |
| Decimals, Invoices, InvoiceRaces | invoice numbers, one call at a time and interleaved |

## What came out

Guarantees that hold over every interleaving: at most one launch per request id, on the strength of the unique
`requestId` index; a booking number or CONFIRMED only with all three reservations; at most as many booking numbers for
a request as its confirmations reached the join point, so one if each is saved once (`NumbersNeedJoins`, `OneNumber`);
if besides nothing about them fails, the client is told exactly one number, the document's (`OneNumberToldOnce`);
documents carry the user and amount of a call with their request id (`DocumentsAreTheirCallers`);
every PENDING document of a run past its enqueue step is in the pending queue; balances explained by applied
transactions; a deposit in the balance only after Stripe said that its payment succeeded (`CreditedWasPaid`); the total of
the virtual accounts. Over every serial run, invoice numbers are distinct and, while the
clock is not set back across a year, gapless (`NumbersAreUnique`, `GaplessMonths`). Interleaved calls, too, leave the
numbers of a serial run, without gaps, as long as no year is a digit longer than another: the unique index refuses
every call whose count has become stale (`InterleavedIsSerial`, `StoredWithoutGaps`, `RefusedIff`).

What one call leaves when it runs alone is written out field by field, for every reply it can get: `LaunchLeaves`,
`CreatedDocument`, `CaughtCallLeaves` and `ThrowingCallLeaves` for `execute`, `WaitingConfirmation`, `UnsavedConfirmation`,
`AggregationOutcome` and `UnrecordedFailure` for a confirmation, `DepositOutcome` and `WithdrawalOutcome` for the ledger,
`WhatStands` for `execute_old`.

Where the code does not do what its documentation or comments say, the model follows the code. Each entry names
the exact condition that is proved and the run or input that shows the failure:

- The lock does not prevent duplicate execution (`sagas/README.md` and the comment at
  `saga-coordinator.service.ts:13-15` say it does): it expires, and anyone may delete it
  (`SecondAcquireIff`, `LockIsNotExclusive`).
- A launched booking can end FAILED exactly if its request is submitted twice or, submitted once, a command of the call
  or of a confirmation can fail, a confirmation can name no reservation, or a drawn number can be taken
  (`CanBeFailedIff`); with all commands of the calls acknowledged, a run marks it exactly if there is a second one
  (`RunMarksIff`). Runs that show it: a second submission whose existence check came too early
  (`DoubleSubmissionFailsALiveSaga`), a first one whose lock expired (`ExpiredLockFailsALiveSaga`), a resubmission whose
  existence check fails in the driver, which never was near the lock (`FailedLookupFailsALiveSaga`; that is the only way
  for a run without the lock, `UnlockedRunsRecordOnlyAFailedLookup`), the only call, its last publication not
  acknowledged (`OneCallMarksItsOwn`), and aggregateResults, which writes the number, is not told so and marks its own
  booking (`AggregationMarksItsOwn`; when it gets there at all is `AggregationFailsIff`).
- "Max 5 per minute" is 5 per window; 60 seconds can hold 9 admitted calls and never more
  (`AtMostTwiceMaxMinusOne`, `BoundIsReached`). INCR and EXPIRE are separate commands: a window ends if and only if
  its opener sends the EXPIRE (`WindowEndsIff`).
- The hotel service waits for lower-case step names that nobody writes, so it never aggregates, and a booking whose
  hotel confirmation comes last is stranded (`HotelNeverAggregates`, `HotelLastStrands`, `HotelLastIsReached`). With
  the constant of the other two services aggregateResults is called exactly once (`CalledOnce`). The constant is a
  parameter of the model.
- A redelivered confirmation of a finished booking draws a second booking number (`RedeliveryRebooksIff`,
  `RedeliveryIsReached`). A CONFIRMED notification names a number that the document has carried; after a redelivery
  the document may carry another one by then.
- "One-shot" webhook delivery holds for senders that do not overlap (`ExcessNeedsOverlap`,
  `ConcurrentSendersPostTwice`); and since a success deletes by id, it also deletes a registration made meanwhile
  (`RegistrationLastsUntilAPost`).
- Withdrawals, or transfers out of one account, that each fit the balance can overdraw it together exactly if their
  positive amounts add up to more than it (`OverdraftIff`, `InterleavedOverdraftIff`). A transfer of a low enough
  negative amount passes the balance check and can take the receiver below zero (`TransferKeepsNonNegativeIff`,
  `NegativeTransferTakesFromReceiver`).
- CANCELED is not final: it can be left, now or ever, exactly if a write judged before the cancellation is on its way
  (`CanBeRevivedIff`, `CanceledThenCompleted`); and a CANCELED transaction can have its amount in the balance
  (`CanceledAndAppliedIff`, `CanceledButApplied`).
- An account is CLOSED with money in it exactly if more came in, since some closing's read, than it lacked then
  (`ClosedWithMoneyIff`, `ClosedWithMoney`). A set of requested transfers can bring that about exactly if some of them
  empty the account and the gifts among the rest fill it again (`CanCloseWithMoneyIff`); no call looks at a status, so
  money can also come in later (`TransferIntoClosed`).
- A gap in a month's invoice numbers needs a clock that was set back across a year to one with fewer digits
  (`GapNeedsClockSetBack`, `PrefixCollision`).

## Model

| member | source | states |
|---|---|---|
| CacheKeys.FamiliesDisjoint | src/modules/billing/sagas/cache-keys.const.ts:16-25 | no key carries two of the prefixes, whatever ids clients choose |
| CacheKeys.KeyInjective | src/modules/billing/sagas/cache-keys.const.ts:27-37 | two built keys are equal exactly when family and id are; none is the queue's key |
| Keyspace.RepresentationUnique | src/modules/billing/sagas/cache-keys.const.ts:16-38 | one flat string store represents at most one state of the six maps |
| Keyspace.PutRepresents | src/modules/billing/sagas/cache-keys.const.ts:27-37 | writing a built key changes its own map at its own id and nothing else |
| Keyspace.DelRepresents | src/modules/billing/sagas/saga-coordinator.service.ts:91-99 | deleting a built key removes that id from that map and nothing else |
| Keyspace.ScoresRepresent | src/modules/billing/sagas/saga-coordinator.service.ts:145-162 | writing the sorted set (or dropping its key when empty) changes the queue alone |
| Keyspace.ExpireRepresents | src/modules/billing/sagas/saga-coordinator.service.ts:21-21 | dropping the expired keys of the flat store is dropping the expired entries of each map |
| Keyspace.PatternCounts | src/modules/billing/sagas/saga-coordinator.service.ts:273-277 | as many keys match a prefix pattern as there are ids under it |
| Keyspace.LocksCounted | src/modules/billing/sagas/saga-coordinator.service.ts:275-275 | the count of `saga:lock:*` is the number of held locks |
| Keyspace.ActiveCounted | src/modules/billing/sagas/saga-coordinator.service.ts:276-276 | the count of `saga:in-active:*` is the number of cached states |
| CoordinatorModel.DeletionsCommute | src/modules/billing/sagas/saga-coordinator.service.ts:258-264 | the effect of a run of cleanup's deletions depends only on which ones it holds |
| CoordinatorModel.CleanupInAnyOrder | src/modules/billing/sagas/saga-coordinator.service.ts:256-265 | whatever the order of the five deletions, exactly the request's entries go, and no rate counter |
| SagaCoordinator.Coordinator.AcquireSagaLock | src/modules/billing/sagas/saga-coordinator.service.ts:17-35 | succeeds exactly on a free key with a positive ttl; the lock then runs out at its deadline; otherwise nothing changes |
| SagaCoordinator.Coordinator.ReleaseSagaLock | src/modules/billing/sagas/saga-coordinator.service.ts:38-46 | deletes the lock whoever holds it |
| SagaCoordinator.Coordinator.IsLocked | src/modules/billing/sagas/saga-coordinator.service.ts:49-53 | tells whether the lock is held |
| SagaCoordinator.Coordinator.SetActiveSagaState | src/modules/billing/sagas/saga-coordinator.service.ts:61-73 | caches the state until its deadline; a ttl Redis rejects changes nothing |
| SagaCoordinator.Coordinator.GetActiveSagaState | src/modules/billing/sagas/saga-coordinator.service.ts:75-89 | returns what was cached under this id |
| SagaCoordinator.Coordinator.ClearActiveSagaState | src/modules/billing/sagas/saga-coordinator.service.ts:91-99 | removes this id's cached state only |
| SagaCoordinator.Coordinator.IncrementStepCounter | src/modules/billing/sagas/saga-coordinator.service.ts:106-117 | one more on this step of this request, and the hash lives two hours from now |
| SagaCoordinator.Coordinator.GetSagaProgressStep | src/modules/billing/sagas/saga-coordinator.service.ts:119-128 | returns this request's counters, or none |
| SagaCoordinator.Coordinator.ClearSagaProgress | src/modules/billing/sagas/saga-coordinator.service.ts:130-138 | removes this request's counters only |
| SagaCoordinator.Coordinator.AddToPendingQueue | src/modules/billing/sagas/saga-coordinator.service.ts:145-153 | scores the request with its priority, or with the time if there is none or it is zero |
| SagaCoordinator.Coordinator.RemoveFromPendingQueue | src/modules/billing/sagas/saga-coordinator.service.ts:155-162 | takes the request out of the queue |
| SagaCoordinator.Coordinator.GetStuckSagas | src/modules/billing/sagas/saga-coordinator.service.ts:164-176 | lists exactly the requests queued at or before the cut-off, each once, lowest score first |
| SagaCoordinator.Coordinator.GetPendingCount | src/modules/billing/sagas/saga-coordinator.service.ts:178-185 | counts the queued requests |
| SagaCoordinator.Coordinator.CheckRateLimit | src/modules/billing/sagas/saga-coordinator.service.ts:193-214 | counts the call, arms the window if it opened it, allows it exactly up to the maximum |
| SagaCoordinator.Coordinator.GetRateLimitCount | src/modules/billing/sagas/saga-coordinator.service.ts:216-225 | returns the user's count, or 0 |
| SagaCoordinator.Coordinator.SetSagaMetadata | src/modules/billing/sagas/saga-coordinator.service.ts:232-241 | merges the fields and sets the expiry; an empty record changes nothing |
| SagaCoordinator.Coordinator.GetSagaMetadata | src/modules/billing/sagas/saga-coordinator.service.ts:243-251 | returns the request's metadata, or none |
| SagaCoordinator.Coordinator.Cleanup | src/modules/billing/sagas/saga-coordinator.service.ts:256-265 | on the flat keyspace, in any order of its deletions, leaves exactly the state without this request |
| SagaCoordinator.Coordinator.GetStats | src/modules/billing/sagas/saga-coordinator.service.ts:267-292 | the three counts are the sizes of the three maps |
| LockSafety.HeldUntilReleasedOrExpired | src/modules/billing/sagas/saga-coordinator.service.ts:17-46 | a held lock survives every trace without a deletion of its key, until its deadline |
| LockSafety.FreedWhenReleasedOrExpired | src/modules/billing/sagas/saga-coordinator.service.ts:17-46 | after a deletion or the deadline, and no new acquisition, the lock is free |
| LockSafety.LockTraceSafety | src/modules/billing/sagas/saga-coordinator.service.ts:17-46 | between two successful acquisitions there was a deletion or the first one's ttl passed |
| LockSafety.SecondAcquireIff | src/modules/billing/sagas/saga-coordinator.service.ts:17-46 | exactly when a second caller gets the lock |
| RateLimit.AlwaysInv | src/modules/billing/sagas/saga-coordinator.service.ts:193-214 | over every timed trace of interleaved INCR and EXPIRE: counts, windows and the callers that owe an EXPIRE fit together |
| RateLimit.WindowsStartApart | src/modules/billing/sagas/saga-coordinator.service.ts:196-200 | windows of one user open at least 60 seconds apart |
| RateLimit.WindowAdmitsAtMostMax | src/modules/billing/sagas/saga-coordinator.service.ts:196-202 | one window admits at most the maximum |
| RateLimit.AtMostTwiceMaxMinusOne | src/modules/billing/sagas/saga-coordinator.service.ts:193-214 | any 60 seconds admit at most twice the maximum less one |
| RateLimit.BoundIsReached | src/modules/billing/sagas/saga-coordinator.service.ts:193-214 | for every maximum some trace admits that many: the bound is sharp |
| RateLimit.AbandonedWindowNeverEnds | src/modules/billing/sagas/saga-coordinator.service.ts:196-200 | on every continuation without the opener's EXPIRE, the same window is still open |
| RateLimit.WindowEndsIff | src/modules/billing/sagas/saga-coordinator.service.ts:196-200 | on every continuation with 60 seconds left after it, the window is over if and only if its opener sent EXPIRE |
| RateLimit.OneCallOwes | src/modules/billing/sagas/saga-coordinator.service.ts:196-200 | one call reaches the state both cases start from |
| Repository.SagaStateRepository.Create | src/modules/billing/sagas/travel-booking-saga-state.repository.ts:20-24 | inserts a PENDING document, or refuses a second one for the request id |
| Repository.SagaStateRepository.FindByRequestId | src/modules/billing/sagas/travel-booking-saga-state.repository.ts:27-29 | the document of that id, or none |
| Repository.SagaStateRepository.FindByBookingId | src/modules/billing/sagas/travel-booking-saga-state.repository.ts:32-34 | some request whose document carries the number if there is one, the only one while numbers are distinct |
| Repository.SagaStateRepository.SaveConfirmedReservation | src/modules/billing/sagas/travel-booking-saga-state.repository.ts:41-67 | sets the service's id and adds its step in one update, returning the updated document; without a document, nothing |
| Repository.SagaStateRepository.FinalizeState | src/modules/billing/sagas/travel-booking-saga-state.repository.ts:70-78 | number, CONFIRMED and four steps at once; a number another document carries is refused |
| Repository.SagaStateRepository.SetErrorState | src/modules/billing/sagas/travel-booking-saga-state.repository.ts:114-127 | FAILED and the message, nothing else |
| Repository.BrokerClient.Emit | src/modules/billing/sagas/travel-booking.saga.ts:214-224 | the event is appended exactly if the broker got it, acknowledged or not |
| SagaState.SaveAllExplained | src/modules/billing/sagas/travel-booking-saga-state.repository.ts:57-66 | after any messages, ids and steps are described by the set of messages alone |
| SagaState.ConfirmationsConfluent | src/modules/billing/sagas/travel-booking-saga-state.repository.ts:41-67 | two sequences of the same confirmations, permuted and repeated at will, leave the same ids and step set |
| SagaState.SaveKeepsSound | src/modules/billing/sagas/travel-booking-saga-state.repository.ts:57-66 | saving keeps steps and ids in step, and never shrinks a document |
| SagaState.FinalizeKeepsSound | src/modules/billing/sagas/travel-booking.saga.ts:343-347 | overwriting completedSteps loses no step of a document with all three |
| SagaState.SetErrorKeepsSound | src/modules/billing/sagas/travel-booking-saga-state.repository.ts:114-127 | recording an error takes back no id, step or number |
| SagaDocuments.DocsAlways | src/modules/billing/sagas/travel-booking.saga.ts:318-385 | every reachable world: sound documents, distinct numbers, handlers past a read or write knowing what they saw |
| SagaDocuments.BookingIdSoundness | src/modules/billing/sagas/travel-booking.saga.ts:318-347 | in every reachable world, a number or CONFIRMED comes with all three ids and steps, and the number is nobody else's |
| SagaDocuments.NotificationSoundness | src/modules/billing/services/car-rental.service.ts:91-100 | every CONFIRMED notification names a number its document has carried |
| SagaDocuments.DocumentsOnlyGrow | src/modules/billing/sagas/travel-booking-saga-state.repository.ts:41-78 | from any moment on no id, step or number is taken back and PENDING is not re-entered |
| SagaLaunch.LaunchAlways | src/modules/billing/sagas/travel-booking.saga.ts:133-226 | every reachable world: a run past create is the only one, and its progress matches the log |
| SagaLaunch.AtMostOnceLaunch | src/modules/billing/sagas/travel-booking.saga.ts:133-226 | at most one run per request id gets past create; its events are a prefix of HOTEL, FLIGHT, CAR |
| SagaQueue.PendingMeansQueued | src/modules/billing/sagas/travel-booking.saga.ts:184-211 | a PENDING document whose run passed the enqueue step is queued, and reported stuck after t exactly if enqueued at least t ago |
| SagaJoin.WhoJoins | src/modules/billing/services/flight.service.ts:80-87 | which saved confirmations reach the join point, over every interleaving and for either hotel constant |
| SagaJoin.CallsAreJoins | src/modules/billing/services/flight.service.ts:68-92 | once all handlers are over, aggregateResults was called exactly once per save that joined |
| SagaJoin.EachConfirmedOnce | src/modules/billing/services/flight.service.ts:68-92 | each confirmation saved once, shared constant: exactly the last handler joins |
| SagaJoin.HotelNeverAggregates | src/modules/billing/services/hotel.service.ts:13-13 | with its own constant the hotel's handler never aggregates |
| SagaJoin.HotelLastStrands | src/modules/billing/services/hotel.service.ts:75-100 | with the hotel's confirmation last, the document has all ids and never a number |
| SagaJoin.BookedAlways | src/modules/billing/sagas/travel-booking.saga.ts:343-347 | a document with a number has a handler that went on to aggregate |
| SagaJoin.IncompleteNeedsEmptyId | src/modules/billing/sagas/travel-booking.saga.ts:330-335 | the "Incomplete reservation IDs" branch is reached from the join point only if some confirmation carried an empty id |
| SoloRuns.ExitPaths | src/modules/billing/sagas/travel-booking.saga.ts:133-256 | every way out: own lock released, active key absent, PENDING exactly when all three events were acknowledged, else FAILED |
| SoloRuns.ResubmitOnce | src/modules/billing/sagas/travel-booking.saga.ts:135-146 | a resubmission answers the stored status and number and changes nothing |
| SoloRuns.ResubmissionIsNoOp | src/modules/billing/sagas/travel-booking.saga.ts:248-255 | any number of serial resubmissions after the creating run leave all stores as they were |
| SoloRuns.RateLimitedLeavesNothing | src/modules/billing/sagas/travel-booking.saga.ts:175-178 | a rate-limited run leaves no document, queue entry or event |
| RunOutcomes.LaunchLeaves | src/modules/billing/sagas/travel-booking.saga.ts:133-256 | a call that goes through, all acknowledged: exactly a new PENDING document with its user and amount, events hotel, flight, car, one count on each step for two hours, its place in the queue, one hit; answers PENDING |
| RunOutcomes.CreatedDocument | src/modules/billing/sagas/travel-booking.saga.ts:184-192 | for every reply: a call that created its document leaves its own user and amount, no number, ids or steps, and PENDING without error or FAILED with the reason it answers |
| RunOutcomes.CaughtCallLeaves | src/modules/billing/sagas/travel-booking.saga.ts:229-247 | a call that leaves through its acknowledged catch block: document FAILED with the reason answered, its other fields and other documents as before, the reason in the metadata for an hour |
| RunOutcomes.ThrowingCallLeaves | src/modules/billing/sagas/travel-booking.saga.ts:229-256 | a call throws if and only if it gets to its catch block and its error record is not acknowledged; then no metadata, and the document marked with the reason exactly if the record arrived |
| RunOutcomes.ResubmissionAnswersTheReason | src/modules/billing/sagas/travel-booking.saga.ts:135-146 | the next call with that id answers FAILED and the recorded reason, and changes nothing |
| RunOutcomes.RateLimitedIff | src/modules/billing/sagas/travel-booking.saga.ts:174-178 | a call alone that gets the lock is turned away by the rate limit if and only if its user's live window holds five hits or more |
| RunOutcomes.TurnedAwayByLock | src/modules/billing/sagas/travel-booking.saga.ts:164-172 | a call alone that finds the lock held answers FAILED, that it is held, and leaves every store as it was |
| SagaContents.DocumentsAreTheirCallers | src/modules/billing/sagas/travel-booking.saga.ts:184-192 | in every reachable world a document has the user and amount of a call with its request id, and of the call that created it |
| SagaContents.ActiveCallsAreToldPending | src/modules/billing/sagas/travel-booking.saga.ts:148-162 | in every reachable world a call that finds its request cached answers PENDING, no number, in progress; one that does not goes on to the lock |
| SagaContents.CacheAlways | src/modules/billing/sagas/travel-booking.saga.ts:195-208 | in every reachable world a cached state is PENDING, without number, with user and amount of a call of that request, for an hour at most |
| HandlerOutcomes.WaitingConfirmation | src/modules/billing/services/flight.service.ts:72-86 | a saved confirmation that does not complete the three: its own id and step in its document, one count for two hours, nobody told |
| HandlerOutcomes.UnsavedConfirmation | src/modules/billing/services/flight.service.ts:93-99 | a save that is not acknowledged: the client is told FAILED, Redis untouched, the document at most with the confirmation |
| HandlerOutcomes.AggregationOutcome | src/modules/billing/sagas/travel-booking.saga.ts:318-385 | for every reply: which reason aggregateResults records in document and metadata and the client is told, or the number, CONFIRMED, the four steps, the client told and Redis cleared of the request alone |
| HandlerOutcomes.UnrecordedFailure | src/modules/billing/sagas/travel-booking.saga.ts:365-385 | an error record that is not acknowledged: the client is told the driver's error, Redis unchanged, the document marked only if it arrived |
| SagaLimits.AloneIsATrace | src/modules/billing/sagas/travel-booking.saga.ts:133-256 | from any reachable world, one call running on alone is a trace and ends as the uninterrupted call does |
| SagaLimits.LateRunFailsTheSaga | src/modules/billing/sagas/travel-booking.saga.ts:165-247 | a run that waits at the lock while the document exists, going on alone: if it gets the lock, FAILED with the reason it answers (rate limit at five hits, lost insert, or duplicate); if not, documents untouched |
| SagaLimits.DoubleSubmissionFailsALiveSaga | src/modules/billing/sagas/travel-booking.saga.ts:135-247 | reachable: first call PENDING with all events published, document FAILED by the second |
| SagaLimits.LockIsNotExclusive | src/modules/billing/sagas/travel-booking.saga.ts:165-172 | reachable: two runs of one request hold the lock at once |
| SagaRedelivery.JoinedConfirmation | src/modules/billing/services/flight.service.ts:68-92 | a confirmation that reaches the join point: document final, client told the number drawn, Redis clean |
| SagaRedelivery.RedeliveryRebooksIff | src/modules/billing/sagas/travel-booking.saga.ts:318-347 | a confirmation handled alone replaces the number of a booked document if and only if save and read are acknowledged, the constant is met, the ids are complete and the update is neither lost nor refused |
| SagaRedelivery.RedeliveryIsReached | src/modules/billing/sagas/travel-booking.saga.ts:337-347 | from the initial world: launch, three confirmations, one of them again; the client is told two numbers |
| SagaRedelivery.HotelLastIsReached | src/modules/billing/services/hotel.service.ts:75-100 | from the initial world, every command acknowledged: three confirmations saved once, all handlers over, no booking and nobody told |
| SagaNumbers.NumbersNeedJoins | src/modules/billing/sagas/travel-booking.saga.ts:337-347 | over every interleaving a request gets at most as many numbers as its confirmations reached the join point |
| SagaNumbers.OneNumber | src/modules/billing/sagas/travel-booking.saga.ts:337-347 | three confirmations saved once each: at most one number ever, and the document carries that of the handler past its acknowledged update |
| SagaNumbers.CalledOnce | src/modules/billing/services/flight.service.ts:80-90 | handlers over: aggregateResults was called exactly once, by the last confirmation's handler, unless that is the hotel's with its own constant |
| SagaNumbers.AcknowledgedUpdateConfirms | src/modules/billing/sagas/travel-booking.saga.ts:343-347 | in every reachable world the acknowledged update leaves the document CONFIRMED with its number and all ids |
| SagaOutcome.OneNumberToldOnce | src/modules/billing/services/flight.service.ts:68-100 | each confirmation saved once and clean, handlers over, any interleaving: the client was told exactly the document's number, once (CONFIRMED after a single acknowledged call), or, stranded by the hotel, none and there is none |
| SagaFailures.CanBeFailedIff | src/modules/billing/sagas/travel-booking.saga.ts:133-247 | some interleaving ends with all three events published and the document FAILED if and only if the request is submitted twice, or once with a command that can fail or a confirmation that is not clean |
| SagaFailures.RunMarksIff | src/modules/billing/sagas/travel-booking.saga.ts:229-236 | all commands of the request's calls acknowledged: some interleaving brings a run to marking the launched booking if and only if there is a second call |
| SagaFailures.AggregationFailsIff | src/modules/billing/sagas/travel-booking.saga.ts:320-370 | on every trace, what sends aggregateResults to its error record: a failed read, an empty id, an update not acknowledged or refused; never a missing document or id |
| SagaFailures.OneCallMarksItsOwn | src/modules/billing/sagas/travel-booking.saga.ts:214-236 | reachable with one call: its last publication is not acknowledged and it marks its own launched booking FAILED |
| SagaFailures.AggregationMarksItsOwn | src/modules/billing/sagas/travel-booking.saga.ts:343-370 | reachable with one acknowledged call: the final update is applied, not acknowledged, and the document ends FAILED with its number |
| SagaLimits.UnlockedRunsRecordOnlyAFailedLookup | src/modules/billing/sagas/travel-booking.saga.ts:135-236 | on every trace, a run without the lock changes documents only by recording that its own existence check failed |
| SagaLimits.FailedLookupFailsALiveSaga | src/modules/billing/sagas/travel-booking.saga.ts:135-236 | reachable: a live booking FAILED by a resubmission whose existence check threw |
| SagaLimits.ExpiredLockFailsALiveSaga | src/modules/billing/sagas/travel-booking.saga.ts:165-236 | reachable: a live booking FAILED by a run whose lock expired before its create |
| SoloHandlers.CleanContinues | src/modules/billing/sagas/travel-booking.saga.ts:350-352 | cleanup's deletions, in the order they land, are the handler's cleaning steps |
| TravelBookingSaga.Saga.Admit | src/modules/billing/sagas/travel-booking.saga.ts:134-178 | existing saga, active cache, lock and rate limit are the run's first steps |
| TravelBookingSaga.Saga.Register | src/modules/billing/sagas/travel-booking.saga.ts:184-211 | document, cache and queue are the run's next steps |
| TravelBookingSaga.Saga.PublishAll | src/modules/billing/sagas/travel-booking.saga.ts:214-226 | the three publications with their counters are the run's next steps |
| TravelBookingSaga.Saga.Recover | src/modules/billing/sagas/travel-booking.saga.ts:229-247 | the catch block is the run's error steps; it throws exactly if recording the error fails |
| TravelBookingSaga.Saga.Leave | src/modules/billing/sagas/travel-booking.saga.ts:248-255 | the finally block is the run's last steps |
| TravelBookingSaga.Saga.Execute | src/modules/billing/sagas/travel-booking.saga.ts:111-257 | over the real stores, the call ends and answers exactly as the protocol's run does |
| TravelBookingSaga.Saga.Finish | src/modules/billing/sagas/travel-booking.saga.ts:320-352 | read, number, final update and clean-up are the handler's steps |
| TravelBookingSaga.Saga.AggregateResults | src/modules/billing/sagas/travel-booking.saga.ts:318-385 | as the protocol's handler: a number issued means complete ids, a final document and a clean Redis |
| ReservationServices.ReservationService.MakeReservation | src/modules/billing/services/flight.service.ts:35-59 | stores the request under a new id, or throws and stores nothing |
| ReservationServices.ReservationService.CancelReservation | src/modules/billing/services/flight.service.ts:106-123 | removes a reservation, or throws on an API error or an unknown id |
| ReservationServices.ReservationService.GetReservation | src/modules/billing/services/flight.service.ts:128-130 | the request made under the id, if it was not cancelled since, by the service's whole history |
| ReservationServices.ConfirmationHandler.SaveAndCount | src/modules/billing/services/hotel.service.ts:81-95 | save, counter and join test are the handler's first steps |
| ReservationServices.ConfirmationHandler.ConfirmReservation | src/modules/billing/services/car-rental.service.ts:70-102 | the call leaves stores and notifications exactly as the protocol's handler run alone |
| Notifications.NotificationService.RegisterWebhook | src/modules/billing/webhooks_sse/travel-booking-notification.service.ts:53-56 | the last url registered for an id counts |
| Notifications.NotificationService.SendWebhook | src/modules/billing/webhooks_sse/travel-booking-notification.service.ts:114-133 | posts to the registered url; success uses the registration up, failure keeps it |
| Notifications.NotificationService.NotifyBookingConfirmed | src/modules/billing/webhooks_sse/travel-booking-notification.service.ts:72-86 | one event on the stream, then the webhook |
| Notifications.NotificationService.NotifyBookingFailed | src/modules/billing/webhooks_sse/travel-booking-notification.service.ts:94-106 | one event on the stream, then the webhook |
| Notifications.PostsNeverExceedRegistrations | src/modules/billing/webhooks_sse/travel-booking-notification.service.ts:114-133 | serially, successful posts of an id, plus one while it is still registered, never exceed its registrations |
| Notifications.PostsGoWhereRegistered | src/modules/billing/webhooks_sse/travel-booking-notification.service.ts:114-128 | serially, every post goes to a url registered for its id, never to an empty one |
| Notifications.FailedPostsKeepRegistration | src/modules/billing/webhooks_sse/travel-booking-notification.service.ts:129-132 | a registration outlives any number of failed posts |
| WebhookSenders.UninterruptedSender | src/modules/billing/webhooks_sse/travel-booking-notification.service.ts:114-133 | lookup and post with nothing in between are the serial operation |
| WebhookSenders.ExcessExactlyWhen | src/modules/billing/webhooks_sse/travel-booking-notification.service.ts:114-133 | a step uses more than it registers exactly when a post succeeds whose registration is already gone |
| WebhookSenders.ExcessNeedsOverlap | src/modules/billing/webhooks_sse/travel-booking-notification.service.ts:114-133 | over every interleaving, posts of an id exceed its registrations only if two senders of that id overlapped |
| WebhookSenders.OverlapPostsTwice | src/modules/billing/webhooks_sse/travel-booking-notification.service.ts:114-133 | from any world with two senders of an id posting, both succeed on at most one registration |
| WebhookSenders.ConcurrentSendersPostTwice | src/modules/billing/webhooks_sse/travel-booking-notification.service.ts:114-133 | reachable: one registration, two successful posts |
| WebhookSenders.RegistrationLastsUntilAPost | src/modules/billing/webhooks_sse/travel-booking-notification.service.ts:126-128 | a registration lasts exactly until some sender of its id succeeds, whatever url that one looked up |
| WebhookSenders.LateRegistrationIsLost | src/modules/billing/webhooks_sse/travel-booking-notification.service.ts:115-128 | a url registered while another is being posted to is deleted by that success, unposted |
| Compensation.OldSaga.Undo | src/modules/billing/sagas/travel-booking.saga.ts:494-516 | a cancellation that throws becomes a dead letter and is swallowed |
| Compensation.OldSaga.RunCompensations | src/modules/billing/sagas/travel-booking.saga.ts:571-574 | the list is run to its end whatever fails |
| Compensation.OldSaga.Compensate | src/modules/billing/sagas/travel-booking.saga.ts:484-577 | what was reserved is undone in the order car, hotel, flight |
| Compensation.OldSaga.ReserveAll | src/modules/billing/sagas/travel-booking.saga.ts:410-461 | flight, hotel, car for 40, 35 and 25 percent of the total, each only if those before succeeded |
| Compensation.OldSaga.ExecuteOld | src/modules/billing/sagas/travel-booking.saga.ts:259-316 | CONFIRMED exactly if nothing failed; ids, maps and letters as the run's specification says |
| Compensation.ListOutcome | src/modules/billing/sagas/travel-booking.saga.ts:490-574 | running the list built backwards is undoing car, then hotel, then flight |
| Compensation.MapAfterRun | src/modules/billing/sagas/travel-booking.saga.ts:259-316 | each service's map after a run, for every pattern of failures |
| Compensation.LettersAfterRun | src/modules/billing/sagas/travel-booking.saga.ts:484-577 | the dead letters and attempted cancellations of a run, in order |
| Compensation.AllOrNothing | src/modules/billing/sagas/travel-booking.saga.ts:484-577 | each reservation of a failed run is gone, or there with exactly one dead letter; other entries untouched |
| Compensation.WhatStands | src/modules/billing/sagas/travel-booking.saga.ts:410-461 | a reservation of the run is there exactly if it was made and the run confirmed or its cancellation failed, and carries the request's id and user and 40, 35 or 25 percent of the total |
| Compensation.ConfirmedAddsUp | src/modules/billing/sagas/travel-booking.saga.ts:410-461 | a confirmed run's three reservations stay and their amounts add up to the total |
| TransactionStates.NextStatesAreTheOtherValidOnes | src/modules/billing/sagas/transaction.state-machine.ts:167-176 | a transition is valid exactly if it stays or goes to a listed next state |
| TransactionStates.AbsorbingStates | src/modules/billing/sagas/transaction.state-machine.ts:24-32 | nothing follows COMPLETED or CANCELED |
| TransactionStates.OnlyThoseAreAbsorbing | src/modules/billing/sagas/transaction.state-machine.ts:24-32 | and only those two have no next state |
| TransactionStates.CompletedWasProcessing | src/modules/billing/sagas/transaction.state-machine.ts:24-32 | whatever the detours, a COMPLETED transaction came from PROCESSING |
| Ledger.UninterruptedMove | src/modules/billing/sagas/transaction.state-machine.ts:39-74 | read and write of an outside `transition` with nothing in between are the whole call |
| Ledger.BalancesAreExplained | src/modules/billing/services/billing.service.ts:30-39 | every interleaving with outside transitions: balance is opening balance plus applied transactions, each applied at most once |
| Ledger.RowsAreConsistent | src/modules/billing/commands/handlers/deposit.handler.ts:27-58 | every interleaving of handlers: COMPLETED is applied once, applied is PROCESSING or COMPLETED, state and status are CREATED and PENDING, both PROCESSING or both COMPLETED, completedAt in COMPLETED only |
| Ledger.BalanceWithinProcessing | src/modules/billing/commands/handlers/withdraw.handler.ts:30-49 | a balance differs from completed deposits less completed withdrawals by at most what is PROCESSING |
| Ledger.CompletedStays | src/modules/billing/commands/handlers/withdraw.handler.ts:48-49 | no interleaving of handlers changes a COMPLETED row |
| LedgerSerial.HandlerOutcome | src/modules/billing/commands/handlers/withdraw.handler.ts:18-59 | what one handler leaves, for every failure in it; an uncovered withdrawal leaves no row and no change |
| LedgerSerial.DepositOutcome | src/modules/billing/commands/handlers/deposit.handler.ts:20-61 | acknowledged: added to the balance and COMPLETED if and only if the payment succeeded, PROCESSING and not added on return if unsettled, throwing if refused |
| LedgerSerial.WithdrawalOutcome | src/modules/billing/commands/handlers/withdraw.handler.ts:18-54 | acknowledged: taken from the balance and COMPLETED if covered, otherwise throwing with no row and no change |
| LedgerSerial.CreditNeedsPayment | src/modules/billing/commands/handlers/deposit.handler.ts:56-58 | whatever fails in it, a deposit changes the balance only if the payment succeeded, and on return exactly if it did |
| LedgerPayments.CreditedWasPaid | src/modules/billing/commands/handlers/deposit.handler.ts:43-58 | on every interleaving with outside transitions, a deposit in the balance belongs to a handler that asked Stripe and was told it succeeded |
| LedgerSerial.SerialHistory | src/modules/billing/sagas/transaction.state-machine.ts:39-74 | serial handlers and transition calls: each of the five states with its own status (PENDING for CREATED, FAILED for ERROR), completedAt in COMPLETED only; COMPLETED and CANCELED last |
| LedgerSerial.SerialBalancesStayNonNegative | src/modules/billing/commands/handlers/withdraw.handler.ts:25-46 | serially no withdrawal takes a balance below zero |
| LedgerLimits.OverdraftIff | src/modules/billing/commands/handlers/withdraw.handler.ts:23-46 | withdrawals that each fit: some interleaving (with deposits, moves, faults, other users) goes below zero if and only if their positive amounts exceed the balance |
| LedgerLimits.DemandIsAllThatGoes | src/modules/billing/commands/handlers/withdraw.handler.ts:23-46 | on every trace the balance keeps what the opening balance has beyond the amounts asked for |
| LedgerLimits.CanBeRevivedIff | src/modules/billing/sagas/transaction.state-machine.ts:40-66 | from any reachable world, some continuation takes a CANCELED row out of CANCELED if and only if a write to it judged before is pending |
| LedgerLimits.CanceledAndAppliedIff | src/modules/billing/commands/handlers/withdraw.handler.ts:43-49 | the two ways, and no other, in which a row becomes CANCELED with its amount in the balance |
| LedgerLimits.CanceledThenCompleted | src/modules/billing/sagas/transaction.state-machine.ts:40-66 | reachable: CANCELED overwritten by COMPLETED |
| LedgerLimits.CanceledButApplied | src/modules/billing/commands/handlers/withdraw.handler.ts:43-49 | reachable: CANCELED with the amount taken |
| BillingHandlers.BillingService.GetOrCreateBillingUser | src/modules/billing/services/billing.service.ts:11-28 | the stored balance, or a new user with none |
| BillingHandlers.BillingService.UpdateBalance | src/modules/billing/services/billing.service.ts:30-39 | adds the amount to that user only, or throws for an unknown one |
| BillingHandlers.BillingService.CreateTransaction | src/modules/billing/services/billing.service.ts:76-80 | appends a CREATED row |
| BillingHandlers.BillingService.UpdateTransaction | src/modules/billing/services/billing.service.ts:82-87 | writes the status of that row only, or throws for an unknown one |
| BillingHandlers.TransactionStateMachine.Transition | src/modules/billing/sagas/transaction.state-machine.ts:39-74 | moves an existing row along a valid transition, with that state's own status, or throws and changes nothing |
| BillingHandlers.TransactionStateMachine.GetCurrentState | src/modules/billing/sagas/transaction.state-machine.ts:152-162 | the state whose next states are exactly those `transition` can move the row on to; none for a missing row |
| BillingHandlers.Handlers.Withdraw | src/modules/billing/commands/handlers/withdraw.handler.ts:18-59 | users and rows end as the ledger's steps for a withdrawal, run alone, leave them; acknowledged, the amount is taken and the row COMPLETED exactly if covered |
| BillingHandlers.Handlers.Deposit | src/modules/billing/commands/handlers/deposit.handler.ts:20-69 | users and rows end as the ledger's steps for a deposit, run alone, leave them; acknowledged, the amount is added and the row COMPLETED exactly if the payment succeeded |
| VirtualAccounts.TotalIsConserved | src/modules/billing/services/virtual-account.service.ts:108-139 | over every interleaving the sum of balances moves by exactly what updateVirtualAccountBalance added |
| VirtualAccounts.UninterruptedTransfer | src/modules/billing/services/virtual-account.service.ts:108-139 | the three commands of a transfer without interruption are the whole call |
| VirtualAccounts.UninterruptedClose | src/modules/billing/services/virtual-account.service.ts:81-98 | the two commands of a closing without interruption: closed exactly if there without positive balance, otherwise unchanged and throwing |
| VirtualAccounts.TransferKeepsNonNegativeIff | src/modules/billing/services/virtual-account.service.ts:116-118 | a serial transfer takes a balance below zero exactly if it passes the check, goes to another account and is so negative that the receiver lacks the money |
| VirtualAccounts.NegativeTransferTakesFromReceiver | src/modules/billing/services/virtual-account.service.ts:116-131 | at an input: a negative amount to an empty account is accepted and leaves that account below zero |
| VirtualAccounts.SerialTransfersKeepNonNegative | src/modules/billing/services/virtual-account.service.ts:108-139 | serial transfers of non-negative amounts keep balances non-negative and their sum |
| AccountLimits.InterleavedOverdraftIff | src/modules/billing/services/virtual-account.service.ts:109-138 | transfers out of one account that each fit: some interleaving goes below zero if and only if their positive amounts exceed its balance |
| AccountLimits.DemandAlways | src/modules/billing/services/virtual-account.service.ts:109-138 | on every trace the account keeps what the opening balance has beyond what is asked of it |
| AccountLimits.EffectIsExact | src/modules/billing/services/virtual-account.service.ts:61-138 | commits of transfers and adjustments are all that changes a balance, and by how much |
| AccountLimits.ClosedWithMoneyIff | src/modules/billing/services/virtual-account.service.ts:81-98 | on every trace, a CLOSED account has money if and only if more came in since some closing's read than it lacked then |
| AccountLimits.CanCloseWithMoneyIff | src/modules/billing/services/virtual-account.service.ts:81-138 | which requested transfers, interleaved with closings, can leave an account CLOSED with money: exactly those of which some part takes it to zero or below and the gifts among the rest bring it above |
| AccountLimits.GiftsCloseWithMoneyIff | src/modules/billing/services/virtual-account.service.ts:81-138 | requests that only give: exactly if the account has no money to begin with and they bring some |
| AccountLimits.QuietCloseLeavesNoMoney | src/modules/billing/services/virtual-account.service.ts:81-98 | a closing without a credit from its read on leaves no money, then or later |
| AccountLimits.ClosedWithMoney | src/modules/billing/services/virtual-account.service.ts:81-98 | reachable: a credit between the closing's read and write |
| AccountLimits.TransferIntoClosed | src/modules/billing/services/virtual-account.service.ts:108-139 | serially, a transfer into a CLOSED account goes through |
| AccountLimits.StatusIsIgnored | src/modules/billing/services/virtual-account.service.ts:108-139 | answer and balances of a transfer do not depend on any status |
| VirtualAccounts.VirtualAccountService.CreateVirtualAccount | src/modules/billing/services/virtual-account.service.ts:10-34 | a new ACTIVE account with nothing in it |
| VirtualAccounts.VirtualAccountService.UpdateVirtualAccountBalance | src/modules/billing/services/virtual-account.service.ts:61-70 | adds to that account only; throws if it is missing |
| VirtualAccounts.VirtualAccountService.SuspendVirtualAccount | src/modules/billing/services/virtual-account.service.ts:72-79 | sets that account's status only |
| VirtualAccounts.VirtualAccountService.CloseVirtualAccount | src/modules/billing/services/virtual-account.service.ts:81-98 | closes exactly an existing account without positive balance |
| VirtualAccounts.VirtualAccountService.TransferBetweenAccounts | src/modules/billing/services/virtual-account.service.ts:108-139 | moves the amount if both accounts exist and the first covers it, else changes nothing |
| Decimals.ValueOfToString | src/modules/billing/services/invoice.service.ts:102-113 | a rendered number reads back as itself |
| Decimals.PaddedRoundTrip | src/modules/billing/services/invoice.service.ts:102-113 | also when padded, and when it has outgrown its width |
| Invoices.TokenInjective | src/modules/billing/services/invoice.service.ts:101-109 | different months have different year-month tokens |
| Invoices.NumberInjective | src/modules/billing/services/invoice.service.ts:113-115 | equal numbers have equal token and sequence |
| Invoices.NumberReads | src/modules/billing/services/invoice.service.ts:100-116 | a number reads as INV-, the year, two digits of the month, a hyphen, and the sequence in five digits or, past those, more without a leading zero |
| Invoices.StartsWithToken | src/modules/billing/services/invoice.service.ts:105-111 | the counted prefix looks at the token alone |
| Invoices.NumbersAreUnique | src/modules/billing/services/invoice.service.ts:12-32 | no two invoices of a serial run ever share a number |
| Invoices.NextIsNew | src/modules/billing/services/invoice.service.ts:100-116 | the number generated is none of those issued, and the run goes on with it |
| Invoices.LaterIsLarger | src/modules/billing/services/invoice.service.ts:105-113 | within a month sequences grow |
| Invoices.InSequenceIff | src/modules/billing/services/invoice.service.ts:105-113 | an invoice continues its month without a gap exactly if no earlier token extends its own |
| Invoices.GaplessWhileYearsNeverDecrease | src/modules/billing/services/invoice.service.ts:100-116 | an invoice that no later year precedes continues its month without a gap, in every year |
| Invoices.GaplessUnlessExtended | src/modules/billing/services/invoice.service.ts:100-116 | in a serial run in which no invoice follows one whose token extends its own, the sequences of a month are exactly 1 to its number of invoices, each once |
| Invoices.GaplessMonths | src/modules/billing/services/invoice.service.ts:100-116 | while years never decrease, the sequences of a month are exactly 1 to its number of invoices, each once |
| Invoices.GapNeedsClockSetBack | src/modules/billing/services/invoice.service.ts:100-116 | a gap shows an earlier invoice of a later year with more digits |
| Invoices.PrefixCollision | src/modules/billing/services/invoice.service.ts:108-108 | the clock set back from October 20240 to January 2024: that month's first invoice gets number two |
| InvoiceRaces.StoredNumbersDiffer | libs/providers/src/prisma/models/invoice.prisma:5-5 | in every interleaving of counts and inserts, no number is stored twice |
| InvoiceRaces.InterleavedIsSerial | src/modules/billing/services/invoice.service.ts:12-32 | interleaved calls, failing or refused at will, whose tokens do not extend one another: the stored numbers are those of a serial run in the order of storing |
| InvoiceRaces.StoredWithoutGaps | src/modules/billing/services/invoice.service.ts:100-116 | so in every such interleaving a month's stored sequences are exactly 1 to its number of stored invoices |
| InvoiceRaces.RefusedIff | src/modules/billing/services/invoice.service.ts:15-28 | an insert that arrives is refused if and only if another call stored an invoice of the month since this one's count |
| Invoices.InvoiceService.CreateInvoice | src/modules/billing/services/invoice.service.ts:12-32 | appends a DRAFT invoice with a number no stored invoice has |
| Invoices.InvoiceService.GenerateInvoiceNumber | src/modules/billing/services/invoice.service.ts:100-116 | the number that follows the stored ones at this date |
| Invoices.InvoiceService.UpdateInvoiceStatus | src/modules/billing/services/invoice.service.ts:62-67 | changes one status and no number |

## Left out

- Redis commands are assumed to be carried out; the coordinator's catch branches (the rate limiter's fail-open among them) are not modelled, except for rejected arguments.
- `execute`'s request validation, which throws before anything is touched, and the generated idempotency key: a run starts with its request id.
- The request id is an instance field in the source; the model gives each run its own, that is, one run at a time per instance and any number of instances.
- Timestamps, original requests, error stacks, log lines and the wording of messages; a message is a value that names its cause.
- `emit` is handed the promise of `reserveHotel`, `reserveFlight` or `reserveCar` unawaited; the reservation that this makes in the service's memory during `execute` is not modelled, only the event.
- A process that stops is one that takes no further step; nothing restarts it.
- Booking numbers, reservation ids and account numbers are drawn by the environment; where the source relies on their being new, that is a precondition, or a refused write where an index checks it.
- `execute_old` is modelled without interleaving; its simulated failures are inputs.
- A handler's own webhook delivery is one step with its notification; overlapping deliveries are studied in WebhookSenders.
- `deleteByUserId`, `updateStatus`, `setReservationId`, `addCompletedStep`, `findPendingSagas` and `getStatsByUser` are not called by the flow.
- Amounts are exact reals, not floating point.
- A billing user is identified by its unique user id, a transaction by its position in the order of creation; Stripe's ids, descriptions and idempotency keys of transactions are not kept.
- The completed events of the two handlers and their final read of the transaction.
- Retry, reporting, subscription and plan operations of the billing service; PDF generation and unpaid-invoice queries.
- createInvoice first looks up or creates the billing user, as the ledger's handlers do; the invoice model starts after that.
- A call whose number the unique index refuses throws; nothing in the source retries it.
- HTTP, GraphQL, Kafka, RabbitMQ and SSE plumbing.
