# Booking engine: a verified model

This project models the booking engine of the dog-school application: reservations and their life
cycle, prepaid passes with their movement log, the guarded transactional store both live in, the batch
jobs that close an activity, dog compatibility, and the rolling-window login limiter. `dafny verify
dfyconfig.toml` checks all of it.

## How it is organised

* **Aggregates**: `Reservations`, `Passes`, `Activities`, `Compatibility` and `Admission` follow the
  files of `internal/domain` and the admission checks of `register.go`, whose loops are proved to compute
  the admission verdict the engine uses. Aggregates that mutate fields
  are classes whose methods are proved against functions; what matters about those functions is proved
  as lemmas.
* **One client**: `Store` is the repositories over one database, `BatchClose` the two batch jobs as
  methods over it with their validation, sorting, dispatch, BEGIN and ROLLBACK, `BatchLaws` what they
  amount to. `Transactions` is `WithinTx` over a store of any type, `PendingReasons` the reason table.
* **All clients**: `Engine` is a state machine in which any number of clients run the use cases
  (register, cancel, reject, forgive, confirm, complete, no-show, close, bulk complete, patch a pass,
  delete an activity) one SQL statement at a time. Writes stay private until COMMIT, row locks are held
  until the end of the transaction, a statement that needs a held lock waits, as does an INSERT whose
  duplicate somebody else is changing, and any client may be lost at any point. `EngineInvariant` states
  the inductive invariant, `EngineLocal` and `EngineCommit` prove every statement keeps it;
  `EngineTheorems` and `EngineHistory` draw the conclusions for every interleaving, and
  `EnginePermissions` says who may commit what, and when. `EngineProgress` bounds the statements left,
  `EngineDeadlock` says exactly when clients get stuck, `EngineCompletion` from where everybody can
  still finish, and `EngineWitness` runs the machine into what can go wrong. `EngineSerial` shows that a
  batch running alone in this machine computes exactly what the imperative batch methods compute, and
  `EngineAlone` does the same for registrations and refunds, next to idle others, against a closed
  description of their effect.
* **Logins**: `LoginLimiter` is the limiter and the retention of its clean-up job; `LoginProtocol` runs
  any number of concurrent logins, the clock and the clean-up job against it.

## Assumptions

* The `updated_at` trigger gives every committed change of a pass a version never used before. (The
  migration uses `NOW()`, the start of the transaction.)
* A statement is atomic and sees the last committed version of each row; a row written or read FOR
  UPDATE stays locked until the transaction ends; reservation ids come from a sequence that is not
  rolled back. After a failed statement a transaction refuses further statements and COMMIT fails.
* An INSERT that meets, in the partial unique index, a row with an uncommitted status write of another
  transaction waits for the end of that transaction; a row that is merely locked it refuses at once.
* `DELETE FROM activities` locks the activity first; its cascade then locks the activity's reservations
  one by one, in any order the server likes, and all rows are gone when it commits by itself.
* Dogs, and the fields of an activity other than `closed`, do not change during a run.
* A run opens with activities of positive capacity and full passes, and with no reservation.
* There is one logical clock, in nanoseconds; the current time is a parameter.

## Where code and comments differ

The model follows the code.

* The id-ascending order of the batches does not rule out every deadlock. Deleting the activity takes
  locks the other way round (`DeletionClashIsReached`), and so does registering a dog whose current
  reservation is being closed: its INSERT waits for the batch while it holds the activity the batch needs
  (`BookingClashIsReached`). Clients are stuck exactly when some wait for each other in a ring
  (`StuckExactlyByAClash`), every ring contains one of these two meetings (`ClashHasABlockedBatch`), and
  `CompletesExactlyWithoutBlocking` says from which states everybody can still be brought to an end.
* The guard of `Delete` does not keep slot holders from being deleted: a booking may be committed between
  the guard and the DELETE. From every state behind the guard in which a booking of the activity is
  possible outright some run does it (`GuardIsOvertaken`); a guard passed on an activity that is closed
  or gone, with no registration for it past its first statement, never loses a holder
  (`SealedGuardsHold`). Only reservations committed behind the guard are at risk
  (`DeletionTakesLatecomers`).
* `login.go` records a failure for a locked-out login too, so the count can exceed the documented bound
  at will (`LockedOutLoginsCountToo`, `LockedOutTriesAddUp`). It keeps the bound exactly but for those
  failures (`CountBound`, `OvershootBoundOnTheCount`). And the bound is not "one extra attempt above
  threshold" but as many as there are logins in flight (`OvershootIsAttained`).
* `ResetByEmail` does not preserve the address history: it takes its own failures out of it
  (`ResetMeaning` gives the exact difference).
* A sex conflict's reason depends on which dog comes in; only whether it blocks does not (`SexRule`).
* A zero expected version does not skip the guard of `PassRepository.Update`; it makes it fail.
* RetryAfter is the earliest possible release, not the release: with more failures than the threshold
  the axis stays locked (`RetryAfterIsExact`).
* "Finished implies started" fails exactly when the duration's nanoseconds wrap into the upper half of
  the 64-bit range, first at 2,562,048 hours (`FinishedImpliesStarted`), and a retention covers its
  windows exactly below 2^62 ns
  (`CleanupRetention`).
* Reasons saved with an empty list of dogs come back with a nil list.

## Model

| member | source | states |
|---|---|---|
| EngineTheorems.LedgerAgreement | internal/repository/postgres/pass_repository.go:124-159 | In every reachable state of every interleaving each pass counter equals its size plus the sum of its committed movement rows and lies between 0 and its size. |
| EngineTheorems.ExactlyOnceMoney | internal/repository/postgres/reservation_repository.go:143-169 | Each committed reservation accounts for exactly one -1 booking on its own pass, and for exactly one +1 refund if it ended CANCELLED_IN_TIME or FORGIVEN and none otherwise; no other movement ever exists. |
| EngineTheorems.ConsumedIsCharged | internal/domain/pass.go:280-311 | Sessions consumed on a pass equal its reservations still charged, counting those a deleted activity took along; hence CanRefund holds whenever a charged reservation exists. |
| EngineTheorems.RefundsAreNeverSkipped | internal/usecase/reservation/forgive.go:103-172 | A client about to commit CANCELLED_IN_TIME or FORGIVEN carries exactly one refund, of that reservation to its pass: the "nothing to refund" branch never commits. |
| EngineTheorems.CapacityNeverExceeded | internal/usecase/reservation/register.go:156-390 | Held slots never exceed an activity's capacity and no dog holds two of them, in any run. |
| EngineTheorems.RosterIsSafe | internal/usecase/reservation/register.go:260-305 | Checking each newcomer against the current holders only is enough: no holder that was not booked by override shares an activity with an earlier holder, overrides included, that makes two intact males or fires an ABSOLUTA trigger in either direction; sizes fit and an individual class has one holder. |
| EngineTheorems.DogAndPassShareTheirOwner | internal/usecase/reservation/register.go:321-366 | No reservation, with or without override, is ever paid from the pass of somebody who does not own the dog. |
| EnginePermissions.BookingsArePermitted | internal/usecase/reservation/register.go:156-390 | Whoever is about to commit a booking, in any run, books an active dog into an open activity that has not begun and has a place left, pays with a session of an unexpired pass of the dog's owner, and without an override is that owner and fits the size. |
| EnginePermissions.ChangesArePermitted | internal/usecase/reservation/cancel.go:138-263 | Whoever is about to commit a change of status, in any run, makes the one its use case stands for, from the status the row has, as somebody and at a time it may; a cancellation carries a refund exactly if it comes at least two hours before the activity, a rejection and a pardon always do. |
| EnginePermissions.BatchesArePermitted | internal/usecase/activity/close_activity.go:132-216 | Whichever batch is about to commit, in any run, settles CONFIRMED reservations of its own activity only, after its end, as NO_SHOW if listed and COMPLETED otherwise. |
| EnginePermissions.EveryBookedDogIsActive | internal/usecase/reservation/register.go:213-222 | No reservation is ever committed for a dog that is not active, override or not. |
| EnginePermissions.AdmissionInFull | internal/usecase/reservation/register.go:184-305 | A dog is let in exactly if there is a place, it is active, an individual class is its own, and without an override it is the caller's, fits the size, and makes neither two intact males nor an ABSOLUTA conflict with anybody who has a place. |
| EnginePermissions.ReviewInFull | internal/usecase/reservation/register.go:260-320 | Of those let in exactly overrides, and dogs without a special condition that make neither two males nor any trigger conflict, are confirmed at once. |
| EnginePermissions.DecisionInFull | internal/usecase/reservation/cancel.go:138-200 | When each of the six use cases may change a status, on whose behalf, and to what; otherwise it refuses. |
| EngineHistory.HistoryIsAPath | internal/domain/reservation.go:27-41 | The committed statuses of a reservation form a path of the documented state machine that starts with a booking, never repeats a status and has at most three changes. |
| EngineHistory.AtMostOneWinner | internal/repository/postgres/reservation_repository.go:123-190 | Of all clients that ever observed a reservation in the same status at most one commits a change away from it: no ABA. |
| EngineHistory.DeletionTakesLatecomers | internal/repository/postgres/activity_repository.go:178-212 | A deletion takes all reservations of the activity along; the slot holders among them are exactly those committed after its guard that have not released their slot. |
| EngineHistory.SealedGuardsHold | internal/repository/postgres/activity_repository.go:178-212 | If the activity is closed or gone, has no slot holder, and no registration for it is past its first statement, then in no run does anybody hold a slot of it again, so a guard passed there never loses a holder. |
| EngineWitness.GuardIsOvertaken | internal/repository/postgres/activity_repository.go:178-212 | From every state in which a deletion has passed its guard and a booking of the activity is possible outright, some run commits the booking and the DELETE then takes the CONFIRMED reservation along. |
| EngineWitness.DeletionTakesAConfirmedReservation | internal/repository/postgres/activity_repository.go:178-212 | Such a run from an opening state. |
| EngineDeadlock.SomebodyCanStep | internal/usecase/activity/close_activity.go:161-175 | In every reachable state with a client in flight some client's next statement goes through, for all use cases together, unless clients wait for each other in a ring. |
| EngineDeadlock.StuckExactlyByAClash | internal/usecase/activity/close_activity.go:161-175 | When nobody can step, everybody has finished if and only if there is no such ring. |
| EngineDeadlock.ClashIsForEver | internal/usecase/activity/close_activity.go:161-175 | A ring is a deadlock: until one of its clients is aborted none of them executes another statement, whatever the others do. |
| EngineDeadlock.ClashHasABlockedBatch | migrations/000014_allow_reservation_reregistration.up.sql:10-12 | Every ring contains a batch and a client holding its activity that is deleting it or registering a dog whose reservation the batch has processed, and the batch has still to take a lock of that client. |
| EngineCompletion.BlockingEndsInARefusal | internal/usecase/activity/close_activity.go:203-213 | Such a pair lasts, in any run that aborts neither, until the batch or the registration is refused; so the batch never commits while the other is there. |
| EngineCompletion.EverybodyFinishes | internal/usecase/activity/close_activity.go:218-271 | From every state without such a pair the clients in flight can all be run to completion, within a computed number of statements. |
| EngineCompletion.CompletesExactlyWithoutBlocking | internal/usecase/activity/bulk_complete_reservations.go:157-180 | Everybody can be run to completion without refusing a member of such a pair if and only if there is none; a batch that saw the activity closed belongs to one only if it has still to process a reservation the deletion holds. |
| EngineWitness.DeletionClashIsReached | internal/repository/postgres/activity_repository.go:185-213 | A run from an opening state into the deadlock between deleting and closing an activity. |
| EngineWitness.BookingClashIsReached | internal/usecase/reservation/register.go:156-390 | A run from an opening state, without any deletion, into the deadlock between closing an activity and registering a dog again that has a place in it. |
| EngineProgress.NoScheduleRunsForEver | internal/usecase/activity/bulk_complete_reservations.go:157-180 | No schedule whatsoever lets the clients in flight execute more statements than that measure. |
| EngineSerial.BatchAloneIsTheUseCase | internal/usecase/activity/close_activity.go:132-216 | A batch running alone, statement by statement, terminates with the tables the imperative use case leaves on success and with the tables it found otherwise. |
| EngineAlone.RegisterAlone | internal/usecase/reservation/register.go:156-398 | A registration nobody interferes with takes effect exactly if the activity, the admission verdict, the pass and the unique index allow it: one session, its movement, the reservation and the reasons it is held for, all at once; otherwise no table changes. |
| EngineAlone.RefundAlone | internal/usecase/reservation/cancel.go:138-263 | A cancellation, rejection or pardon nobody interferes with takes effect exactly if it is allowed: the new status, and one session back with its movement where one is due; otherwise nothing changes. |
| EngineAlone.CancellationInFull | internal/domain/reservation.go:125-135 | A cancellation that takes effect leaves the pass with one session more and its movement if it comes at least two hours before the activity, and leaves pass and movements alone if it comes later. |
| EngineAlone.MoveAlone | internal/usecase/reservation/confirm.go:60-99 | A confirmation, completion or no-show nobody interferes with changes the status exactly if it is allowed, and nothing else. |
| EngineAlone.PatchAlone | internal/usecase/pass/modify.go:59-100 | A patch of a pass nobody interferes with replaces exactly the given fields, with a new version, or changes nothing: if the pass is missing, the patch empty, the price negative or the expiry the zero time. |
| EngineAlone.DeleteAlone | internal/repository/postgres/activity_repository.go:185-213 | A deletion nobody interferes with is refused exactly while somebody has a place or the activity is gone; otherwise activity, reservations and reasons go, and nothing else. |
| EngineAlone.CancelUndoesBooking | internal/domain/pass.go:279-311 | An in-time cancellation restores the pass and every movement sum its booking changed; only a CANCELLED_IN_TIME reservation remains. |
| Reservations.ArrowsAreExactlyTheTransitions | internal/domain/reservation.go:27-41 | The six methods offer exactly the documented arrows, none missing and none extra. |
| Reservations.PathsNeverReturn | internal/domain/reservation.go:125-202 | Along any path the rank falls, so at most three changes, no status twice, no released slot held again, no refunded session charged again. |
| Reservations.LongestPath | internal/domain/reservation.go:27-41 | A path with three changes: the bound is attained. |
| Reservations.Reservation.Cancel | internal/domain/reservation.go:125-135 | Only a CONFIRMED reservation is cancelled: CANCELLED_LATE exactly if less than two hours are left, CANCELLED_IN_TIME otherwise, the boundary included; a refusal leaves the status alone. |
| Reservations.Reservation.Complete | internal/domain/reservation.go:139-145 | CONFIRMED becomes COMPLETED; anything else is refused unchanged. |
| Reservations.Reservation.MarkNoShow | internal/domain/reservation.go:149-155 | CONFIRMED becomes NO_SHOW; anything else is refused unchanged. |
| Reservations.Reservation.Forgive | internal/domain/reservation.go:160-166 | CANCELLED_LATE becomes FORGIVEN; anything else is refused unchanged. |
| Reservations.Reservation.ConfirmPending | internal/domain/reservation.go:185-191 | PENDING_TO_CONFIRM becomes CONFIRMED; anything else is refused unchanged. |
| Reservations.Reservation.RejectPending | internal/domain/reservation.go:196-202 | PENDING_TO_CONFIRM becomes CANCELLED_IN_TIME; anything else is refused unchanged. |
| Passes.UnitOfWorkNeverDrifts | internal/domain/pass.go:258-311 | After any sequence of accepted and refused calls the counter has moved by the sum of the pending movements, stays in range, and no recorded movement is lost. |
| Passes.NewPass | internal/domain/pass.go:108-147 | Accepts exactly a non-negative id, a positive size, a counter between 0 and size, a non-negative price, a recognised type, an owner and non-zero times, and starts with no pending movement. |
| Passes.SavedPassesLoad | internal/domain/pass.go:102-147 | A pass that could be loaded can be loaded again after any unit of work. |
| Passes.Pass.ConsumeSession | internal/domain/pass.go:258-277 | Moves the counter and records the movement together, or refuses (blank reason, exhausted, expired, in that order) and changes nothing. |
| Passes.Pass.RefundSession | internal/domain/pass.go:294-311 | Gives one session back and records it together, or refuses and changes nothing; never above the size. |
| Passes.Pass.ClearPendingMovements | internal/domain/pass.go:182-185 | Empties the pending movements and nothing else. |
| Activities.FinishedImpliesStarted | internal/domain/activity.go:192-213 | "Finished implies started" at all times if and only if the nanoseconds of the duration modulo 2^64 are below 2^63, which up to 5,124,095 hours means at most 2,562,047. |
| Activities.DurationsThatFit | internal/domain/activity.go:208-213 | Durations up to 2,562,047 hours are exact; one hour more wraps to a negative number. |
| Activities.FinishedAfterItsDuration | internal/domain/activity.go:208-213 | Up to 2,562,047 hours an activity is finished exactly when more than its duration has passed since it began. |
| Activities.Activity.Close | internal/domain/activity.go:249-258 | Closes an open activity, refuses a closed one, changes nothing else. |
| Compatibility.ConflictsFrom | internal/domain/dog.go:292-321 | Index and scan return exactly one conflict per firing trigger, in trigger order, each naming the trait fired on; the lookup never misses and the early return loses nothing. |
| Compatibility.ConflictListIsUnique | internal/domain/dog.go:292-321 | That description leaves exactly one possible list. |
| Compatibility.FiringIsExact | internal/domain/incompatibility.go:104-109 | Every firing trigger is reported once, in order, and no other. |
| Compatibility.FiresOn | internal/domain/incompatibility.go:104-109 | A trigger fires exactly if its non-empty target code is among the other dog's trait codes. |
| Compatibility.ConflictsWith | internal/domain/dog.go:279-287 | Both directions one after the other; nothing for no dog or the dog itself. |
| Compatibility.ConflictsAreSymmetric | internal/domain/dog.go:279-287 | a.ConflictsWith(b) and b.ConflictsWith(a) are equal as multisets. |
| Compatibility.LevelsBetween | internal/domain/dog.go:279-321 | The list contains a conflict of a level exactly if a trigger of that level fires between the two dogs, in either order. |
| Compatibility.HasAbsoluteConflict | internal/usecase/reservation/register.go:400-410 | The scan finds a blocking conflict exactly if there is one. |
| Compatibility.SexRule | internal/domain/dog.go:360-451 | Blocking means two different intact males, from either side; the reasons agree exactly if both or neither are neutered. |
| Compatibility.SizeIsByWeight | internal/domain/dog.go:401-413 | The size bracket by weight: up to 5 kg, up to 20 kg, above, unknown without a positive weight. |
| Admission.VerdictIsTheWorstPair | internal/usecase/reservation/register.go:260-320 | Blocked exactly if some holder is incompatible; confirmed exactly if no holder and no special condition gives cause for review. |
| Admission.Review | internal/usecase/reservation/register.go:260-316 | The loops over sex and trigger conflicts give the verdict of the worst pair, and one storable reason for every pair of males and for a special condition. |
| Admission.ReviewSexes | internal/usecase/reservation/register.go:266-286 | Blocked exactly by another intact male if the dog is one; otherwise one reason for each male holder if the dog is male. |
| Admission.ReviewTriggers | internal/usecase/reservation/register.go:293-302 | Something is found exactly if a trigger fires between the dog and a holder in either direction, and it is absolute exactly if an ABSOLUTA one does. |
| Admission.Decide | internal/usecase/reservation/register.go:196-316 | Each refusal is given by the first check that fails, in order: place, ownership, active dog, individual class, size, compatibility; an override skips ownership, size and compatibility only. Verdict and reasons are those the engine admits by. |
| Admission.ReasonsAreSpelledOut | internal/usecase/reservation/register.go:266-316 | A held booking has one reason for every other male among the holders if the dog is a male, saying which of the two is castrated, and one for a special condition, and no other. |
| Store.Database.CreateReservation | internal/repository/postgres/reservation_repository.go:68-83 | Inserts under a fresh id exactly if the references exist and no slot-holding row has the same activity and dog; the duplicate is told apart; a failed insert leaves the table alone. |
| Store.Database.UpdateReservation | internal/repository/postgres/reservation_repository.go:143-190 | Writes the status exactly if the row has the expected one; ErrReservationStateChanged exactly if it has another, not found exactly if there is no row; nothing else changes. |
| Store.SecondWriterIsRefused | internal/repository/postgres/reservation_repository.go:123-190 | Of two updates that expect the same status, once one has moved the row away from it the other is refused as changed. |
| Store.Database.ListByActivity | internal/repository/postgres/reservation_repository.go:198-220 | Every reservation of the activity, whatever its status, once, by creation time. |
| Store.Database.CountHeldSlotsBatch | internal/repository/postgres/reservation_repository.go:625-651 | For every requested activity the count (missing key = 0) equals the number of slot holders and the count of HoldsSlot over its listing; exactly the activities without holders are missing. |
| Store.CapacityCountIsExact | internal/repository/postgres/reservation_repository.go:198-220 | Counting HoldsSlot over the listing counts the slot holders. |
| Store.Database.UpdatePass | internal/repository/postgres/pass_repository.go:124-183 | The row, but for its owner, and all pending movements are written together exactly if the stored version is the expected one and every INSERT succeeds; ErrPassStateChanged exactly if the version is another and the expected one not zero; otherwise the pending movements are kept, and nothing is written, or inside a caller's transaction exactly what precedes the failing insert, for the caller to roll back. |
| Store.StalePassIsRefused | internal/repository/postgres/pass_repository.go:124-183 | Of two aggregates loaded from the same version, once one is saved the other is refused as changed. |
| Store.Database.UpdateActivity | internal/repository/postgres/activity_repository.go:141-176 | Replaces the row if it exists, and nothing else. |
| Store.Database.DeleteActivity | internal/repository/postgres/activity_repository.go:185-213 | Refused exactly while somebody holds a slot; otherwise the activity and its reservations go, and every other row stays, in its order. |
| BatchClose.NewCloseActivityInput | internal/usecase/activity/close_activity.go:42-68 | Refuses a bad activity id, then the first bad reservation id; otherwise each id is kept once, in the order of first occurrence. |
| BatchClose.FirstOccurrencesAreUnique | internal/usecase/activity/close_activity.go:54-62 | Order-preserving deduplication leaves exactly one possible list. |
| BatchClose.Partition | internal/usecase/activity/bulk_complete_reservations.go:140-149 | Collects exactly the CONFIRMED reservations and notices exactly whether any is pending. |
| BatchClose.CollectNoShows | internal/usecase/activity/close_activity.go:177-193 | The set of no-shows, or the refusal of the first listed id that is not CONFIRMED or not of this activity. |
| BatchClose.SortById | internal/usecase/activity/close_activity.go:175-175 | The same ids in strictly ascending order. |
| BatchClose.CompleteReservation | internal/usecase/reservation/complete.go:113-189 | Refused by the first check that fails: input, reservation, activity, not finished, not the owner's dog, not CONFIRMED; otherwise that row becomes COMPLETED and no other changes. |
| BatchClose.MarkReservationNoShow | internal/usecase/reservation/mark_no_show.go:113-188 | Refused by the first check that fails: input, reservation, activity, not begun, not the owner's dog, not CONFIRMED; otherwise that row becomes NO_SHOW and no other changes. |
| BatchClose.ProcessConfirmed | internal/usecase/activity/close_activity.go:231-271 | One transition per reservation in the given order, stopping at the first failure. |
| BatchClose.LoopIsPointwise | internal/usecase/activity/close_activity.go:231-271 | The loop succeeds exactly if no id repeats and each reservation could be settled by itself, and then settles all of them. |
| BatchClose.LoopStopsAtTheFirstObstacle | internal/usecase/activity/close_activity.go:240-269 | Over distinct ids it fails at the first reservation that cannot be settled by itself, with that reservation's error. |
| BatchClose.OrderDoesNotMatter | internal/usecase/activity/close_activity.go:161-175 | Any permutation of the ids gives the same success and the same final rows, so sorting only fixes the lock order. |
| BatchClose.CloseActivity | internal/usecase/activity/close_activity.go:119-216 | On any error, including a failing statement at any point of the loop or a failing COMMIT, all tables are as before; otherwise they are the specified outcome. |
| BatchClose.BulkComplete | internal/usecase/activity/bulk_complete_reservations.go:92-183 | The same for bulk completion; the count is the number of CONFIRMED reservations. |
| BatchLaws.CloseMeaning | internal/usecase/activity/close_activity.go:132-216 | Closing succeeds exactly under its policy on workable data; then each CONFIRMED reservation is NO_SHOW if and only if listed, else COMPLETED, the activity is closed, and nothing else changes. |
| BatchLaws.BulkMeaning | internal/usecase/activity/bulk_complete_reservations.go:110-183 | The same for bulk completion: refused while anything is pending, everybody COMPLETED, closed before or not. |
| BatchLaws.WhileItRunsNothingCloses | internal/usecase/activity/bulk_complete_reservations.go:110-135 | Both jobs answer "not finished" exactly as long as no more than the activity's duration has passed since it began. |
| BatchLaws.CloseRefusals | internal/usecase/activity/close_activity.go:132-193 | Closing is refused by the first of: no activity, not finished, closed already, the first listed id that is not a CONFIRMED reservation of it. |
| BatchLaws.BulkRefusals | internal/usecase/activity/bulk_complete_reservations.go:110-149 | Bulk completion is refused by the first of: no activity, not finished, a pending reservation. |
| BatchLaws.StoppedAtTheLeast | internal/usecase/activity/close_activity.go:240-269 | A stopped batch names the least id that could not be settled by itself. |
| BatchLaws.BulkIsCloseWithoutNoShows | internal/usecase/activity/bulk_complete_reservations.go:162-168 | Bulk completion and closing with an empty list have the same outcome if and only if the activity is not both finished and either closed or with pending reservations. |
| BatchLaws.BulkTwice | internal/usecase/activity/bulk_complete_reservations.go:170-182 | A second bulk completion at the same time or later finds nothing CONFIRMED and changes nothing. |
| BatchLaws.BulkReleasesEverySlot | internal/repository/postgres/activity_repository.go:178-199 | After bulk completion nobody holds a slot, so the deletion guard passes. |
| BatchLaws.CloseLeavesThePending | internal/repository/postgres/activity_repository.go:178-199 | After closing exactly the pending reservations still hold slots, so the guard passes if and only if there were none. |
| BatchLaws.ClosingIsFree | internal/usecase/activity/close_activity.go:231-271 | Closing moves no session, leaves every charge as it was, and changes statuses only along arrows. |
| Transactions.Connection.WithinTx | internal/repository/postgres/transaction.go:47-72 | Joins a transaction in flight; otherwise commits once on success and restores the store on an error, a panic, or a failing BEGIN or COMMIT. |
| Transactions.Connection.Execute | internal/repository/postgres/transaction.go:84-100 | A statement goes to the transaction in flight if there is one and to the live store otherwise. |
| Transactions.JoinedNeverCommits | internal/repository/postgres/transaction.go:47-50 | Inside a transaction nothing commits and the live store does not move, however deep the nesting. |
| Transactions.NestingIsTransparent | internal/repository/postgres/transaction.go:42-50 | Inside a transaction, removing every nested WithinTx changes neither outcome nor store. |
| Transactions.WithinTxIsAllOrNothing | internal/repository/postgres/transaction.go:47-72 | If errors are propagated, the outermost call commits once after all statements of the tree succeeded in order, or leaves the store as before BEGIN, and reports which. |
| Transactions.WithinTxCommitsOnceOrNever | internal/repository/postgres/transaction.go:47-72 | Errors propagated or not, the outermost call commits once or changes nothing, and nesting makes no difference to which. |
| Transactions.FailedStatementsAreFatal | internal/repository/postgres/transaction.go:47-72 | A failed statement loses the whole transaction, even if its error is swallowed and everything after it goes well. |
| Transactions.PanicsEscape | internal/repository/postgres/transaction.go:55-66 | A panic is swallowed by no error handler, nothing runs after it, and the outermost call rolls back and passes it on. |
| Transactions.SwallowedErrors | internal/repository/postgres/transaction.go:48-50 | Exactly what a swallowed inner error leaves: its earlier writes are committed, or, if a statement had failed, the whole outer transaction is lost. |
| Transactions.SwallowingBreaksAtomicity | internal/repository/postgres/transaction.go:48-50 | Of two writes of a unit whose error is swallowed, the first is committed alone. |
| Transactions.AutocommitIsNotAtomic | internal/repository/postgres/transaction.go:91-100 | The same pair of statements leaves half its effect without WithinTx and none within it. |
| PendingReasons.Repository.SavePendingReasons | internal/repository/postgres/reservation_repository.go:771-821 | Replaces the reasons of one reservation, all or (on its own) none, exactly if every reason can be stored; other reservations are never affected. |
| PendingReasons.Repository.ListPendingReasonsByReservation | internal/repository/postgres/reservation_repository.go:845-872 | The stored reasons in ordinal order. |
| PendingReasons.Repository.ListPendingReasonsByReservations | internal/repository/postgres/reservation_repository.go:880-912 | Agrees with the single list for every requested id; a key is missing exactly if its list is empty. |
| PendingReasons.RoundTrip | internal/repository/postgres/reservation_repository.go:771-872 | Listing returns what was saved, in order, whatever was stored before, with an empty list of dogs read back as nil. |
| PendingReasons.OthersAreUntouched | internal/repository/postgres/reservation_repository.go:783-792 | A save, complete or broken off, never shows in another reservation's list. |
| PendingReasons.LastSaveWins | internal/repository/postgres/reservation_repository.go:758-760 | The last save wins completely; saving twice is saving once. |
| LoginLimiter.LoginAttemptRepository.CountFailuresSince | internal/repository/postgres/login_attempt_repository.go:112-133 | The number of failures on the axis in the window and the oldest of them. |
| LoginLimiter.OldestIsTheMinimum | internal/repository/postgres/login_attempt_repository.go:118-123 | The reported oldest failure is a counted one and no counted one is older; without any it is the current time. |
| LoginLimiter.LoginAttemptRepository.Check | internal/repository/postgres/login_attempt_repository.go:64-100 | E-mail first, then address; locked at the threshold, with the time until the oldest counted failure ages out. |
| LoginLimiter.CheckMeaning | internal/repository/postgres/login_attempt_repository.go:64-100 | Locked by the e-mail exactly if its threshold of failures lies in its window, by the address exactly if not by the e-mail but that axis is full, admitted otherwise. |
| LoginLimiter.LoginAttemptRepository.Record | internal/repository/postgres/login_attempt_repository.go:138-147 | Adds one row and changes no other. |
| LoginLimiter.LoginAttemptRepository.ResetByEmail | internal/repository/postgres/login_attempt_repository.go:154-164 | Removes exactly the failures of that e-mail. |
| LoginLimiter.LoginAttemptRepository.DeleteOlderThan | internal/repository/postgres/login_attempt_repository.go:170-181 | Removes exactly the rows before the cutoff and reports how many. |
| LoginLimiter.ResetMeaning | internal/repository/postgres/login_attempt_repository.go:149-164 | The e-mail's count becomes 0, other e-mails keep theirs, each address count falls by the failures it shares with the e-mail. |
| LoginLimiter.RetryAfterHolds | internal/repository/postgres/login_attempt_repository.go:64-100 | Locked out at t with RetryAfter r means locked out at every time up to t + r, whatever is recorded in between. |
| LoginLimiter.RetryAfterIsExact | internal/repository/postgres/login_attempt_repository.go:72-81 | After t + r an axis without new failures opens at once if exactly the threshold was counted, and in general exactly when few enough failures remain in the window. |
| LoginLimiter.RetryAfterIsWithinTheWindow | internal/repository/postgres/login_attempt_repository.go:73-76 | RetryAfter lies between 0 and the window, and its clipping at 0 never acts on one clock. |
| LoginLimiter.CleanupRetention | cmd/api/router.go:495-504 | At least an hour; covers both windows if and only if doubling the longer one does not overflow. |
| LoginProtocol.CleanUpIsInvisible | cmd/api/router.go:506-521 | With a covering retention every run gives every Check the same verdict and RetryAfter as the run without the clean-up job. |
| LoginProtocol.InvisibleExactlyIfCovered | cmd/api/router.go:495-521 | The clean-up job is invisible in all runs if and only if the retention covers both windows. |
| LoginProtocol.ShortRetentionIsVisible | cmd/api/router.go:495-504 | With a retention below either window there is a run in which a login is let through that would be locked out. |
| LoginProtocol.OvershootBoundOnTheCount | internal/repository/postgres/login_attempt_repository.go:19-28 | In every run with at most c logins between Check and Record in which no locked-out login records a failure, the count that Check reads never exceeds emailMaxFailures - 1 + c. |
| LoginProtocol.CountBound | internal/usecase/auth/login.go:128-151 | In every run the count exceeds that bound by no more than the counted failures of locked-out logins. |
| LoginProtocol.LockedOutTriesAddUp | internal/usecase/auth/login.go:129-136 | From every state in which Check locks a login out, k further locked-out tries add k counted failures, for every k. |
| LoginProtocol.FailuresSplit | internal/usecase/auth/login.go:128-151 | The count is the failures of admitted plus those of locked-out logins. |
| LoginProtocol.LockedOutLoginsNeverSucceed | internal/usecase/auth/login.go:128-137 | In no run does a login that Check has locked out succeed. |
| LoginProtocol.OnlyASuccessForgives | internal/usecase/auth/login.go:167-176 | A row goes only when it has outlived the retention, or, a failure, when a login of its e-mail that has succeeded resets it. |
| LoginProtocol.OvershootBound | internal/usecase/auth/login.go:138-155 | With at most c admitted logins between Check and Record, the counted failures of admitted logins never exceed emailMaxFailures - 1 + c in any run. |
| LoginProtocol.OvershootIsAttained | internal/repository/postgres/login_attempt_repository.go:19-28 | For every c some run with at most c logins in flight reaches that bound. |
| LoginProtocol.LockedOutLoginsCountToo | internal/usecase/auth/login.go:129-136 | With one client in flight every count is reached, because a locked-out login records a failure. |

## Left out

- HTTP handlers, DTOs, the frontend, configuration, the remaining list and pagination queries, row scanning and visibility filtering: I/O, or the SQL engine's own behaviour.
- bcrypt, JWT and the in-memory rate limiter: libraries whose behaviour is not part of the repository.
- Patch methods of activities, dogs and incompatibilities, and hard deletion of dogs and users: the engine assumes those rows do not change during a run, except for deleting an activity.
- Engine.InsertReservation: the rows of reasons are written with the reservation they belong to; a failing save is a client lost before COMMIT.
- Registering passes and activities: they are present in the opening state.
- Validating constructors of activities, dogs and incompatibilities.
- The whole-row UPDATE of a modified activity, which may lower its capacity or reopen it under the holders.
- EngineDeadlock.SomebodyCanStep: clients read reservations and passes FOR UPDATE, as the reservation use cases do; the safety theorems also cover clients that do not.
- EngineDeadlock.ClashIsForEver: the server's deadlock detector, which ends such a wait by aborting a client, is the Abort event; which client it picks is not modelled.
- Engine.ProcessNext: a batch's SELECT FOR UPDATE and UPDATE of one reservation are one step, as nobody can come between them; rows no step changes are read with the neighbouring statement.
- Store.Database.UpdatePass: the in-memory aggregate after a rolled-back outer transaction, whose pending movements are already cleared, is not followed further.
- BatchClose.SortById: Go's library sort is represented by an insertion sort; ids are distinct, so the result is the same.
- Movement timestamps, and the wording of reasons and errors: reasons are values of a datatype.
- Real clocks and clock skew, and the ticker and shutdown of the clean-up goroutine: clean-up may happen at any point of a run.
