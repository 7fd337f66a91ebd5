# Car-rental backend: a verified model

This project models the booking system of the car-rental backend and the smaller protocols around it,
and proves what they keep. The booking tables are one value (`Tables.State`): cars, maintenance records,
rentals (8 statuses), payments (4 statuses), invoices (3 statuses) and the id sequences. Every SQL
transaction is a function from tables to tables with its error branches (`Repositories`), every request
is the service's guards around such transactions (`Services`), and the classes in `store.dfy`,
`calendar.dfy`, `maintenance.dfy`, `accounts.dfy` and `rate_limiter.dfy` run the same code statement by
statement over mutable fields, each method proved to end in the state its function says. Dates are day
numbers, times are integers, and money is in cents.

What the code never states anywhere, and what is proved here:

- **Pairs.** With atomic requests the reachable (rental status, payment status) pairs are exactly the
  table in `PairTable.PairOk`: nothing outside it is reached, and every pair in it is.
- **Double bookings.** No interleaving of any requests makes one. Without the exclusion constraint the car lock
  and the re-check keep all bookings apart exactly as long as no re-approval takes days that are booked or
  that a creation has just re-checked; with atomic requests the constraint decides exactly one kind of request.
- **Lifecycle.** Missed ticks are harmless, the arms of the statement commute, counts of split runs add up
  with an exact excess for activations.
- **Histories.** Payments only move forward under every interleaving, at most three times; the revenue of a
  report is what was confirmed minus what was refunded.
- **Effects.** What every request answers and leaves is stated once more in statuses, dates and amounts alone,
  without the functions that compute it (`effects.dfy`, and lemmas named `...Effect` elsewhere).
- **Calendar, limiter, tokens, verification codes, maintenance, filters, paging, Redis encoding**: see the
  table below.

Two machines describe running requests. `Services.Run` serves them one at a time. `Interleaving.Steps`
splits them: a request reads and decides, and writes later, with any number of other requests in between;
creating a rental has four steps (checks, car lock, re-check, insert). `Serial` shows that the first machine
is the part of the second in which nobody is interrupted. "Reachable" below means reached from empty tables
by atomic requests; what holds under interleavings says so.

## Findings

- The pair table is a fact about atomic requests only. `UpdateStatus` and `Cancel` read in the service and
  write blindly in the repository, so a cancellation decided before a payment request and written after it
  leaves a cancelled rental with a pending payment, whose confirmation then rolls back
  (`Serial.StaleCancelBreaksTheTable`). `Interleaving.StepKeepsTable` gives the exact condition per step.
- That an invoice marked paid has a paid payment is a fact about atomic requests too. It is lost in two ways: an
  invoice decided before a refund and inserted as paid after it (`Serial.StaleInvoiceIsNotPaid`), and a `MarkPaid`
  that runs late, after a refund and a new invoice (`Serial.LateMarkIsNotPaid`). `Interleaving.StepKeepsSettled`
  shows that no other kind of write loses it.
- The pickup-date branch of `Cancel` (internal/service/rental_service.go:446-451) decides nothing as long as requests
  are atomic: then a confirmed rental has a paid payment, and the guard before the branch refuses that
  (`PairTable.ConfirmedCancelIsRefused`). It decides exactly when the confirmed rental has no open payment
  (`PairTable.PickupDateDecidesIff`), which takes a stale status write
  (`Interleaving.ConfirmedCancelIsRefusedUnlessStale`); a confirmation written over itself after a refund is one
  (`Serial.StaleConfirmedReachesTheDate`). The service's own tests of the branch use a confirmed rental without a
  payment.
- The exclusion constraint refuses a creation whose days a re-approval took between the re-check and the insert;
  without it that creation would be the double booking (`Serial.ReapprovalTakesPromisedDays`). Nothing else can take
  the days (`Interleaving.LockAndRecheckSuffice`).
- Counting requests in time order, the rate limiter admits at most `2 * MaxRequests - 1` requests of a key in any closed
  interval of one window, and that number is reached. But the clock is read before the lock is taken, so requests
  can be counted out of order. Then the clean-up can show (`RateLimiter.OutOfOrderCleanupShows`), exactly when a
  request finds its running window deleted (`RateLimiter.CleanupIsInvisibleIffNothingIsForgotten`), and the bound can
  be exceeded, by such a request (`RateLimiter.ForgottenRequestsExceedTheBound`) or by a late one
  (`RateLimiter.LateRequestsExceedTheBound`). It holds for every key whose own requests are in order and not forgotten.
- The error of `IncrementEmailVerificationAttempts` is ignored. Each lost increment is a free guess, and if all
  are lost there is no bound (`EmailVerification.LostIncrementsLiftTheBound`, `EmailVerification.OverGuessedIff`).
- The comparison and the increment of an attempt are two steps. Attempts that compare before any of them counts all
  get their comparison: with at most n in flight the bound per code is 4 + n, and it is reached
  (`VerificationRaces.OverlappingGuessesBound`, `VerificationRaces.OverlappingGuessesReachTheBound`).
- `%`, `_` and `\` in a search term are not quoted before ILIKE. A search finds exactly the texts that contain the
  term if and only if the term has none of them (`Text.SearchIsExactForLiterals`).
- While car statuses follow the maintenance records, one scheduled record closes its car for every day, and the
  date overlap with a record never decides a booking (`MaintenanceSync.RecordsCloseTheCar`).
- Rentals are billed by a 64-bit duration: from a span of 106752 days on the bill stays at 106752 days
  (`Billing.BilledDaysCountTheRange`).

## Model

| member | source | states |
|---|---|---|
| PairWitnesses.EveryPairIsReached | internal/service/rental_service.go:322-454 | every pair of the table is reached by a run of requests |
| PairWitnesses.ReachablePairsAreTheTable | internal/service/rental_service.go:322-454 | a (rental, payment) pair occurs in some reachable state if and only if it is in the table |
| PairTable.StatusWriteKeepsTable | internal/repository/rental_repository.go:331-358 | the blind status write keeps the pair table if and only if the new status goes with the payment the rental has at that moment |
| PairTable.InsertRentalKeepsTable | internal/repository/rental_repository.go:127-139 | a new requested rental has no payment |
| PairTable.CreateForRentalKeepsTable | internal/repository/payment_repository.go:52-101 | inserting a pending payment and moving an approved rental to pending_payment keeps the pair table |
| PairTable.ConfirmKeepsTable | internal/repository/payment_repository.go:146-182 | Confirm moves payment and rental together or not at all |
| PairTable.FailKeepsTable | internal/repository/payment_repository.go:184-223 | Fail moves payment and rental together |
| PairTable.RefundKeepsTable | internal/repository/payment_repository.go:225-265 | Refund cancels the rental unless it is completed, and the pair stays in the table |
| PairTable.SyncedPayment | internal/repository/rental_repository.go:273-279 | a sync fails the payment of a rental exactly when it was pending and the rental expired |
| PairTable.SyncKeepsTable | internal/repository/rental_repository.go:256-329 | SyncLifecycle keeps the pair table |
| PairTable.StatusRequestKeepsTable | internal/service/rental_service.go:322-454 | the guards of UpdateStatus, Approve, Reject and Cancel let through only writes that keep the pair table |
| PairTable.RequestKeepsTable | internal/service/rental_service.go:322-454 | every request keeps the pair table |
| PairTable.ReachableIsCoupled | internal/service/rental_service.go:322-454 | in every state that a run of requests and syncs reaches from empty tables, every rental and its payment are in the pair table |
| PairTable.PaymentFollowsRental | internal/repository/payment_repository.go:52-265 | reachable: a payment is pending if and only if its rental is pending_payment; confirmed or active implies paid; paid implies confirmed, active or completed |
| PairTable.ConfirmNeverRollsBack | internal/repository/payment_repository.go:168-179 | reachable: confirming succeeds exactly for existing pending payments, so the zero-rows rollback never fires |
| PairTable.PaidRentalIsOnlyCancelledByRefund | internal/service/rental_service.go:376-391 | reachable: a request takes a confirmed or active rental to cancelled if and only if it is the refund of that rental's payment |
| PairTable.ConfirmedCancelIsRefused | internal/service/rental_service.go:429-454 | reachable, so with atomic requests: Cancel on a confirmed rental changes nothing and answers open payment (or forbidden), whatever the pickup date |
| PairTable.CancelOfConfirmed | internal/service/rental_service.go:443-453 | in any state, Cancel on a confirmed rental of a permitted actor is refused for an open payment, and otherwise succeeds before the pickup date and is refused from then on |
| PairTable.PickupDateDecidesIff | internal/service/rental_service.go:443-451 | in any state, two days get different answers from Cancel on a confirmed rental if and only if it has no open payment |
| Interleaving.StepCommits | internal/repository/rental_repository.go:71-140 | a move changes the tables by the one transaction it commits, and not at all otherwise |
| Interleaving.CreationStepsEffect | internal/repository/rental_repository.go:82-125 | a creation waits for the lock of its car, gives up on a car that is missing, in maintenance or inactive, and goes on after the re-check exactly if the days are free |
| Interleaving.StepKeepsSound | internal/service/payment_service.go:26-55 | what a service decided on a stale read is still priced and dated right when it is written, and the schema holds |
| Interleaving.InterleavingIsALog | internal/service/rental_service.go:310-320 | every interleaving leaves the tables that its log of well-formed transactions leaves |
| Interleaving.InterleavedPaymentsAdvance | internal/repository/payment_repository.go:154-265 | under any interleaving a payment changes at most three times along the log, and the schema holds |
| Interleaving.InterleavedPastIsKept | internal/repository/payment_repository.go:255-262 | under any interleaving void invoices stay void and rentals keep their facts |
| Interleaving.StepsKeepAmounts | internal/service/payment_service.go:43-48 | under any interleaving payments and invoices are over the total of their rental |
| Interleaving.InterleavedNoDoubleBooking | migrations/010_rental_approval_flow.sql:15-21 | under any interleaving no two blocking rentals of a car share a day |
| Interleaving.InsertKeepsGuarded | internal/repository/rental_repository.go:71-140 | the insert of a task that holds its car keeps all bookings apart and leaves what the other tasks have re-checked free, with and without the constraint |
| Interleaving.StepKeepsGuarded | internal/repository/rental_repository.go:83-125 | with or without the constraint, one move keeps all bookings apart, those between re-check and insert included, if and only if it is not a re-entry into a blocking status on days that are booked or re-checked |
| Interleaving.LockAndRecheckSuffice | internal/repository/rental_repository.go:83-125 | with or without the constraint, all bookings are apart at every moment of an interleaving if and only if no move is such a re-entry |
| Interleaving.NoReentryNoDoubleBooking | internal/repository/rental_repository.go:83-125 | in particular, without the constraint and without re-approvals no interleaving makes a double booking |
| Interleaving.InsertIsRefusedIffTaken | internal/repository/rental_repository.go:127-139 | the constraint refuses the insert of a re-checked rental if and only if its days have been taken since, and decides nothing while bookings are apart |
| Interleaving.TableIsTheGuard | internal/service/rental_service.go:322-391 | the pair table says what the checks of the service say: no open payment for approval, rejection and cancellation, the checks for active and completed, completed also after a refund; the other statuses are only written over themselves |
| Interleaving.StepKeepsTable | internal/repository/rental_repository.go:338-358 | one move keeps the pair table if and only if it is not a status write whose guard has become false since the read |
| Interleaving.InterleavingKeepsTable | internal/repository/rental_repository.go:360-385 | an interleaving is in the pair table at every moment if and only if it has no status write whose guard has become false since the read |
| Interleaving.ConfirmedCancelIsRefusedUnlessStale | internal/service/rental_service.go:443-451 | in an interleaving without a stale status write Cancel on a confirmed rental is refused for its payment |
| Interleaving.StepKeepsSettled | internal/service/invoice_service.go:40-54 | one move keeps invoices marked paid over paid payments if and only if it does not insert an invoice as paid, or mark an issued one, while the payment of the rental is not paid |
| Interleaving.InterleavingKeepsSettled | internal/handler/payment_handler.go:74-80 | an interleaving has paid payments under its paid invoices at every moment if and only if it has no such move |
| Interleaving.StepKeepsCompleted | internal/repository/payment_repository.go:184-223 | one move takes a rental out of completed if and only if it is a status write or the failure of a payment still pending on it; while the pair table holds, only the status write |
| Interleaving.InterleavedCompletedStays | internal/repository/rental_repository.go:331-358 | a completed rental is completed at every later moment of an interleaving if and only if no move takes it out |
| Interleaving.InterleavedClosedStays | internal/repository/payment_repository.go:154-265 | however requests interleave, a payment that failed or was refunded stays so |
| Serial.UninterruptedRequestIsAtomic | internal/service/rental_service.go:77-116 | the moves of any request with nothing in between do exactly what the atomic request does and leave no lock |
| Serial.AtomicRunsAreInterleavings | internal/service/rental_service.go:77-116 | every run of atomic requests is an interleaving |
| Serial.Overtaken | internal/service/rental_service.go:429-454 | when two requests read the same state, the later write works on the tables of the earlier one with its old decision |
| Serial.StaleCancelBreaksTheTable | internal/repository/rental_repository.go:360-385 | an interleaving leads to a cancelled rental with a pending payment, and confirming that payment rolls back |
| Serial.StaleInvoiceIsNotPaid | internal/service/invoice_service.go:40-54 | an interleaving in which an invoice decided before a refund is inserted as paid after it; Interleaving.StepKeepsSettled has the exact condition |
| Serial.LateMarkIsNotPaid | internal/handler/payment_handler.go:74-80 | an interleaving in which MarkPaid runs after a refund and a new invoice, and marks that invoice paid over the refunded payment |
| Serial.StaleConfirmedReachesTheDate | internal/service/rental_service.go:323-325 | an interleaving leads to a confirmed rental with a refunded payment, and there the pickup date decides |
| Serial.ReapprovalTakesPromisedDays | internal/service/rental_service.go:330-336 | a run in which a re-approval commits between the re-check and the insert of a creation; the constraint then refuses the creation, which without it is a double booking |
| DoubleBooking.WriteKeeps | migrations/010_rental_approval_flow.sql:15-21 | writing a row keeps the rentals free of double bookings if and only if the row clashes with no other |
| DoubleBooking.CommitKeepsNoDoubleBooking | migrations/010_rental_approval_flow.sql:15-21 | with the constraint no transaction makes a double booking |
| DoubleBooking.CreationNeedsNoConstraint | internal/repository/rental_repository.go:71-140 | the locked re-check excludes every clash by itself: creation is the same with and without the constraint, and safe |
| DoubleBooking.OnlyReapprovalNeedsTheConstraint | internal/service/rental_service.go:330-336 | with atomic requests, dropping the constraint changes the answer, or makes a double booking, if and only if the request approves a rejected or cancelled rental whose days are taken |
| DoubleBooking.ReachableHasNoDoubleBooking | migrations/010_rental_approval_flow.sql:15-21 | no reachable state has two blocking rentals of one car on one day |
| DoubleBooking.ConstraintIsNeededSomewhere | internal/service/rental_service.go:330-336 | a reachable state in which only the constraint refuses such an approval |
| Lifecycle.ArmsAreDisjoint | internal/repository/rental_repository.go:266-307 | no rental is taken by two of the arms |
| Lifecycle.OneMoreArm | internal/repository/rental_repository.go:266-307 | an arm that selects in the snapshot adds exactly its own rows, whichever arms have run before it |
| Lifecycle.AnyOrderGivesTheSameTables | internal/repository/rental_repository.go:266-307 | every sequence of arms with each arm in it, in any order and even repeated, gives the same tables |
| Lifecycle.RentalArmsInOrder | internal/repository/rental_repository.go:287-307 | the three rental updates, one after the other, are the row-by-row sync |
| Lifecycle.DependentArms | internal/repository/rental_repository.go:273-286 | the payment and invoice updates, which select through the ids of the expired rentals, are the row-by-row sync |
| Lifecycle.CatchUp | internal/repository/rental_repository.go:256-329 | for d1 <= d2, syncing on d1 and then on d2 gives the same tables as syncing on d2 |
| Lifecycle.MissedTicksAreHarmless | internal/repository/rental_repository.go:256-329 | any non-empty sequence of syncs on days in order does what the last one alone does |
| Lifecycle.SplitCountsAddUp | internal/repository/rental_repository.go:308-320 | the cancelled, completed, failed and voided counts of a split run add up exactly; activations exceed those of the later run by exactly the rentals activated on the first day and over by the second |
| Lifecycle.SecondSyncIsIdle | internal/repository/rental_repository.go:256-329 | a second sync on the same day changes nothing and counts zero everywhere |
| Lifecycle.AfterSync | internal/repository/rental_repository.go:266-307 | afterwards every blocking rental ends today or later and every confirmed one starts later |
| Lifecycle.OneActivationPerCar | internal/repository/rental_repository.go:293-300 | reachable: a sync activates at most one rental per car |
| History.CommitAdvancesPayments | internal/repository/payment_repository.go:154-265 | one transaction, however stale the read behind it, moves a payment along none, pending, paid or failed, and paid to refunded, or not at all |
| History.AtMostThreePaymentChanges | internal/repository/payment_repository.go:72-80 | over any log of transactions the payment of a rental changes at most three times, because every change raises its rank |
| History.CommitAllKeepsFacts | internal/repository/rental_repository.go:331-358 | no log of transactions changes the user, car, dates, total or creation time of a rental |
| History.PricesStay | internal/service/payment_service.go:43-48 | an amount read from a rental in one state is still its total in every later state |
| History.CommitKeepsAmounts | internal/service/invoice_service.go:40-46 | a transaction keeps every payment and invoice over the total of its rental |
| History.CommitAllKeepsVoid | internal/repository/payment_repository.go:255-262 | no log of transactions revives a void invoice |
| AtomicRuns.RequestKeepsSettled | internal/handler/payment_handler.go:74-80 | every request keeps: an invoice marked paid has a paid payment |
| AtomicRuns.ReachableBooks | internal/service/invoice_service.go:22-59 | reachable: an invoice marked paid has a paid payment, and payments and invoices are over the rental's total, whether or not MarkPaid was reached and whenever the invoices were created |
| AtomicRuns.ThePastIsKept | internal/repository/payment_repository.go:255-262 | over any further run the rentals keep their facts and void invoices stay void |
| AtomicRuns.RequestKeepsCompleted | internal/repository/payment_repository.go:247-254 | no request takes a completed rental out of completed |
| AtomicRuns.EndsAreFinal | internal/service/payment_service.go:34-41 | over any further run of atomic requests a rental whose payment failed or was refunded is never again pending_payment, confirmed or active, and completed is final |
| Effects.CreateRentalEffect | internal/service/rental_service.go:77-116 | a rental is refused for its dates, a missing car, a car in maintenance or inactive, or a taken day, in this order, and otherwise it is one new requested row with the user, car, dates and time of the request, whose total is the days of the range (106752 beyond a span of 106751) times the daily rate of its car |
| Effects.AvailabilityEffect | internal/service/rental_service.go:118-154 | CheckAvailability says available if and only if the creation would be accepted, and quotes the days and the price in the rate of the car |
| Effects.StatusWriteEffect | internal/repository/rental_repository.go:331-358 | the write is refused for a missing rental or, for a booking status, if another booking of the car shares a day; otherwise the one rental has the new status, its issued invoice is void exactly if it is cancelled or rejected, and every other row is as it was |
| Effects.UpdateStatusEffect | internal/service/rental_service.go:310-370 | every combination of current status, payment and next status with its answer, and the rows afterwards |
| Effects.ApproveEffect | internal/service/rental_service.go:393-409 | approval answers and leaves exactly that |
| Effects.RejectEffect | internal/service/rental_service.go:411-427 | rejection, and the issued invoice is void afterwards |
| Effects.CancelEffect | internal/service/rental_service.go:429-454 | the answers of Cancel in their order, and the cancelled rental with its issued invoice void |
| Effects.CreatePaymentEffect | internal/service/payment_service.go:26-55 | the answers in their order, and one new pending payment over the total of the rental with the method that was asked for, and the rental waiting for payment |
| Effects.ConfirmEffect | internal/handler/payment_handler.go:61-90 | the payment is paid and the rental confirmed, the issued invoice is paid exactly if MarkPaid got through, and nothing else changes |
| Effects.FailEffect | internal/repository/payment_repository.go:184-223 | a pending payment is failed, its rental cancelled and its issued invoice void, and nothing else changes |
| Effects.RefundEffect | internal/repository/payment_repository.go:225-265 | a paid payment is refunded, its rental cancelled unless completed, its invoice void with its amount kept whether it was issued or paid, and nothing else changes |
| Effects.GetInvoiceEffect | internal/service/invoice_service.go:22-55 | an existing invoice changes nothing; otherwise one new invoice over the total, paid exactly if the payment is |
| Effects.ForbiddenIff | internal/service/rental_service.go:434-436 | cancelling, paying and asking for an invoice are forbidden if and only if the rental exists and the actor is neither its user nor an administrator |
| Effects.SyncedRentalEffect | internal/repository/rental_repository.go:266-307 | a sync cancels an unpaid rental if and only if its end is before today, makes a confirmed one active if and only if today is in its range, completes a confirmed or active one if and only if its end is before today, and changes nothing else of any rental |
| Effects.SyncedBooksEffect | internal/repository/rental_repository.go:273-286 | a sync fails a pending payment and voids an issued invoice if and only if its rental is unpaid and ended before today, and changes no other row |
| Effects.SyncCountsEffect | internal/repository/rental_repository.go:308-320 | the five counts are the numbers of those rows |
| Effects.NoDayIsBookedTwice | migrations/010_rental_approval_flow.sql:15-21 | reachable: no booking shares a day with another booking of its car |
| Money.EntryOfRow | internal/repository/report_repository.go:47-57 | the revenue counts a join row exactly when its payment is paid and its rental was created in the window |
| Money.RevenueIsTheLedger | internal/repository/report_repository.go:47-57 | over any run the revenue of a window is the amounts confirmed minus the amounts refunded for its rentals |
| Money.RevenueOfALog | internal/repository/report_repository.go:47-57 | over any log of transactions from any state that meets the schema, the revenue of a window changes by what the log confirmed minus what it refunded |
| Money.InterleavedRevenueIsTheLedger | internal/repository/report_repository.go:47-57 | however requests interleave, the revenue of a window is what was confirmed minus what was refunded |
| Money.OneRowPerRental | internal/repository/report_repository.go:47-57 | the join has exactly one row per rental of the window, so counts of rows, distinct ids and rentals agree |
| Money.CarsAddUp | internal/repository/report_repository.go:62-71 | before the limit of five, per-car revenues and rental counts sum to the totals |
| Money.PendingPaymentsAreWaitingRentals | internal/repository/report_repository.go:52 | reachable: the report's pending payments are as many as its rentals in pending_payment |
| Calendar.AscendingListsAgree | internal/service/rental_service.go:192-198 | two strictly ascending lists with the same days are equal, so the specification of the calendar has one answer |
| Calendar.RangeIsFreeByDays | internal/repository/car_repository.go:164-187 | the overlap query finds a range free if and only if none of its days is blocked |
| Calendar.CalendarDecidesAvailability | internal/service/rental_service.go:118-154 | for a future range of the month, CheckAvailability says available if and only if the car can be rented and the calendar lists none of the days |
| Calendar.CalendarDecidesTheDayFilter | internal/repository/car_repository.go:232-251 | a day of the month is in the calendar if and only if the available_on filter leaves the car out |
| Calendar.CalendarDecidesCreation | internal/service/rental_service.go:77-116 | in the month, the checks of Create pass if and only if the car can be rented and the calendar lists none of the days |
| Calendar.RangesEffect | internal/repository/rental_repository.go:142-167 | the rows of the two calendar queries, in statuses and dates, with the status and dates each one shows |
| Calendar.ListedRentalsAreApart | internal/repository/rental_repository.go:142-167 | reachable: the rental ranges of the calendar follow one another without a shared day, so their order by start date is strict |
| Billing.BilledDaysCountTheRange | internal/service/rental_service.go:212-221 | billed days are the days of the inclusive range if and only if the span is at most 106751, and 106752 beyond |
| Billing.SplitChargeAddsUp | internal/service/rental_service.go:100 | at a positive rate the charges of the two parts of a range add up to its charge if and only if its span does not saturate |
| RateLimiter.CleanupIsInvisible | internal/middleware/rate_limiter.go:70-105 | for requests in time order, every verdict, count and reset time is that of a limiter that never deletes |
| RateLimiter.CleanupIsInvisibleIffNothingIsForgotten | internal/middleware/rate_limiter.go:71-83 | in whatever order requests are counted, all answers agree with the limiter that never deletes if and only if no request finds its window deleted while it still runs |
| RateLimiter.OutOfOrderCleanupShows | internal/middleware/rate_limiter.go:48-70 | that happens: a run out of time order in which a request finds its running window deleted and is admitted instead of refused |
| RateLimiter.AdmissionBound | internal/middleware/rate_limiter.go:71-101 | at most 2 * MaxRequests - 1 requests of a key are admitted in any closed interval of one window's length, if the requests of that key are counted in time order and none finds its running window deleted, whatever the order of the others |
| RateLimiter.AdmissionBoundInOrder | internal/middleware/rate_limiter.go:71-101 | so it is for every key when all requests are counted in time order |
| RateLimiter.ForgottenRequestsExceedTheBound | internal/middleware/rate_limiter.go:48-70 | a key in time order with one request forgotten exceeds the bound |
| RateLimiter.LateRequestsExceedTheBound | internal/middleware/rate_limiter.go:48-70 | a key with nothing forgotten and one request counted late exceeds the bound |
| RateLimiter.AdmissionBoundIsReached | internal/middleware/rate_limiter.go:71-101 | for every configuration some run in time order reaches that number |
| RateLimiter.HeldWindowsAreRecent | internal/middleware/rate_limiter.go:71-78 | for requests in any order, every window in the map was opened within the last two window lengths before the latest request, plus what requests are late beyond one window length |
| RateLimiter.EveryRunIsLateBySome | internal/middleware/rate_limiter.go:48-70 | every run has such a lateness, so the bound applies to every run |
| RateLimiter.HeldWindowsInOrder | internal/middleware/rate_limiter.go:71-78 | in time order: within the last two window lengths before the current request |
| RateLimiter.HitEffect | internal/middleware/rate_limiter.go:80-101 | a request opens a window if its key has none or the time is past its end, counts in it, and is admitted while the count is at most the maximum |
| RateLimiter.NormalisedWindow | internal/middleware/rate_limiter.go:39-41 | a window that is not positive means one minute |
| Sessions.AtMostOneSuccessor | internal/service/user_service.go:177-197 | under any interleaving of find, load, revoke and create steps a refresh token has at most one successor, and it is revoked by then |
| Sessions.RevokedStaysRevoked | internal/repository/auth_token_repository.go:59-74 | a revoked token never becomes active again |
| Sessions.RevocationEffect | internal/repository/auth_token_repository.go:59-84 | revoking one token, or all of one user, revokes those rows and changes no other |
| Sessions.ActiveIff | internal/repository/auth_token_repository.go:42-57 | a token can be exchanged if and only if it is stored, not revoked and not over |
| Sessions.ActiveTokensAreGranted | internal/service/user_service.go:349-382 | under any interleaving a user's active tokens never outnumber the logins and verifications that stored a token |
| Sessions.OnlyVerifiedUsersHoldTokens | internal/service/user_service.go:349-382 | every stored token belongs to a verified user |
| Sessions.StepKeepsVerified | internal/repository/user_repository.go:196-215 | no step takes the verification of a user away |
| Sessions.VerifiedOnlyByACode | internal/repository/user_repository.go:196-215 | a user becomes verified exactly by the step that marks a matched code of that user |
| Accounts.UninterruptedRefresh | internal/service/user_service.go:177-197 | the four steps of a refresh without interruption exchange the token for its successor |
| Accounts.RefreshEffect | internal/service/user_service.go:177-197 | a missing, revoked or expired token changes nothing; an active one is revoked and its successor stored for the same user, and no other row changes |
| Accounts.UninterruptedLogin | internal/service/user_service.go:161-175 | the steps of a login without interruption store one token for a verified user and do nothing for any other |
| Accounts.UninterruptedVerification | internal/service/user_service.go:225-233 | those of a correct code verify the user and store one token |
| Accounts.LogoutEffect | internal/service/user_service.go:251-268 | a logout revokes the one token, a logout everywhere exactly the tokens of the user |
| EmailVerification.WrongCodesPerCodeSent | internal/service/user_service.go:199-234 | over any run of requests served one after the other at most five wrong codes are compared per code sent, not counting lost increments |
| EmailVerification.CodesSentBound | internal/service/user_service.go:236-249 | for requests served one after the other, within time T of registration at most 1 + floor(T / 1 min) codes are sent |
| EmailVerification.WrongCodesBound | internal/service/user_service.go:199-249 | for requests served one after the other, within time T at most 5 * (1 + floor(T / 1 min)) wrong codes are compared, plus those whose increment was lost |
| EmailVerification.CounterMissesTheLost | internal/service/user_service.go:215-223 | for an unverified user the wrong codes compared since the last code was sent are exactly the counter plus the increments lost since then |
| EmailVerification.OverGuessedIff | internal/service/user_service.go:215-223 | more than five are compared on the current code if and only if the lost increments exceed what the counter has left to five, which takes a lost increment |
| EmailVerification.VerifiedStays | internal/repository/user_repository.go:196-215 | verified is permanent |
| EmailVerification.AttemptEffect | internal/service/user_service.go:199-234 | an attempt verifies if and only if the user is unverified, the code is the saved one for that address, it is not past its expiry, and fewer than five attempts are counted; every refusal and the row afterwards |
| EmailVerification.ResendEffect | internal/service/user_service.go:236-249 | a new code if and only if the user is unverified and the last one is a minute old, good for the ttl and with no attempts counted |
| EmailVerification.VerifiedByTheLastMail | internal/service/user_service.go:199-234 | over any run a user who becomes verified does so with the last code sent, for the address it was sent to, at most the ttl after it was sent |
| EmailVerification.LostIncrementsLiftTheBound | internal/service/user_service.go:220-223 | with the ignored increments lost, any number of wrong codes is compared for one code sent |
| VerificationRaces.UninterruptedAttempt | internal/service/user_service.go:199-234 | the comparison and the write of an attempt with nothing in between leave the row of the undivided attempt |
| VerificationRaces.UninterruptedResend | internal/service/user_service.go:236-249 | so do the two steps of a request for a new code |
| VerificationRaces.OverlappingGuessesBound | internal/service/user_service.go:204-223 | however comparisons, increments and new codes interleave, with at most n attempts in flight at most 4 + n wrong codes are compared per code, plus lost increments |
| VerificationRaces.OverlappingGuessesInAll | internal/service/user_service.go:199-249 | over a whole interleaved run at most 4 + n wrong codes are compared per code sent, plus the lost increments |
| VerificationRaces.OverlappingCodesBound | internal/service/user_service.go:236-249 | however the requests interleave, with at most m requests for a code between check and save at most m * (1 + floor(T / 1 min)) codes are sent within time T of registration |
| VerificationRaces.OverlappingWrongCodesBound | internal/service/user_service.go:199-249 | and with at most n attempts in flight at most (4 + n) * m * (1 + floor(T / 1 min)) wrong codes are compared, plus those whose increment was lost |
| VerificationRaces.OverlappingGuessesReachTheBound | internal/service/user_service.go:215-223 | for every n a run with nothing lost and at most n in flight compares 4 + n wrong codes on one code, because all of them read the counter before any of them counts |
| MaintenanceSync.ServedCarsAreInStep | internal/service/maintenance_service.go:36-113 | after a served create, update or delete each touched car, both cars of a moved record included, has status maintenance if and only if it has a scheduled or in-progress record; others are as before; a refused order changes nothing |
| MaintenanceSync.TouchedCarEffect | internal/service/maintenance_service.go:133-157 | every touched car keeps its rate and is in maintenance with a scheduled or running record, available if it comes out of maintenance, and otherwise what it was |
| MaintenanceSync.CarComesBack | internal/service/maintenance_service.go:151-156 | a car that leaves maintenance with its last active record can be rented again |
| MaintenanceSync.OrderEffect | internal/service/maintenance_service.go:36-113 | the answers of create, update and delete in their order, and the one record written or deleted with all others as they were |
| MaintenanceSync.RunKeepsCarsInStep | internal/service/maintenance_service.go:133-157 | runs of maintenance orders keep that for all cars |
| MaintenanceSync.OrderKeepsRecordsApart | migrations/012_create_car_maintenances_table.sql:22-28 | maintenance orders keep the active records of a car apart |
| MaintenanceSync.RecordsCloseTheCar | internal/service/rental_service.go:88-98 | while cars are in step, a record is never what makes the overlap query refuse a car that can be rented |
| Filters.BuildCarListWhere | internal/repository/car_repository.go:203-258 | for every filter, database and row the generated conditions with their numbered arguments select the row if and only if it is what the filter asks for, and every placeholder has an argument |
| Filters.BuildRentalListWhere | internal/repository/rental_repository.go:496-530 | the same for rentals, with payment columns that are NULL when there is no payment |
| Filters.BuildMaintenanceWhere | internal/repository/maintenance_repository.go:183-198 | the same for maintenance records |
| Filters.BuildUserListWhere | internal/repository/user_repository.go:299-318 | the same for users |
| Filters.FilterEffect | internal/repository/car_repository.go:203-258 | what each filter asks of a row, column by column, bounds and zero values included |
| Filters.EmptyFiltersAskForAll | internal/repository/rental_repository.go:496-530 | zero values switch every criterion off |
| Filters.SearchIsExact | internal/repository/user_repository.go:303-307 | a search asks for exactly the rows with the term in one of their columns if and only if the term has no pattern character |
| Filters.LiteralSearchSelectsTheTerm | internal/repository/car_repository.go:203-258 | for terms without pattern characters a generated clause selects exactly the rows that contain the term and pass the other criteria |
| Filters.SearchedColumns | internal/repository/car_repository.go:207-211 | cars are searched by brand, model, plate number and year, users by name, e-mail address and phone |
| Filters.TextOfNumber | internal/repository/car_repository.go:210 | the year is searched in its decimal notation |
| Filters.AddPaging | internal/repository/car_repository.go:120-130 | LIMIT and OFFSET take the next two numbers, and the clause keeps its meaning with the longer arguments |
| Text.SearchFindsTheTerm | internal/repository/car_repository.go:207-211 | ILIKE with the term between two % finds exactly the texts that contain it, letter case aside, for terms without pattern characters |
| Text.PatternCharactersAreNotQuoted | internal/repository/car_repository.go:207-211 | every term with a pattern character is found in a text that does not contain it |
| Text.SearchIsExactForLiterals | internal/repository/car_repository.go:207-211 | the search finds exactly the texts that contain the term if and only if the term has no pattern character |
| Text.ItoaRoundTrip | internal/cache/redis_rate_store.go:128-132 | decimal lengths are read back as written |
| Paging.PageHasRows | internal/repository/car_repository.go:150-153 | a page has rows if and only if its number is at most TotalPages |
| Paging.PagesAreTheMatches | internal/repository/rental_repository.go:182-232 | over fixed data the pages 1 to TotalPages put together are exactly the matching rows in order |
| Paging.MatchingIsTheSelection | internal/repository/rental_repository.go:496-530 | the rows put on pages are exactly the rows of the table that match, each once |
| Paging.RequestedPage | internal/repository/car_repository.go:189-201 | numbers below one ask for page 1, sizes below one for the default, sizes above a hundred for a hundred, and all others for what they say |
| Paging.RowsOfAPage | internal/repository/car_repository.go:120-130 | row k of a page is matching row (page - 1) * size + k, so page 1 starts with the first one, and a page has size rows as far as there are so many |
| Paging.ListPage | internal/repository/car_repository.go:110-162 | the count, the number of pages and the page for any page number and size, after normalisation |
| Resp.WriteCommand | internal/cache/redis_rate_store.go:125-139 | the pieces appended in the loop make the array of bulk strings |
| Resp.RoundTrip | internal/cache/redis_rate_store.go:125-139 | any argument list, CR and LF included, is read back from its encoding, and reading stops at its end |
| Resp.UniquelyDecodable | internal/cache/redis_rate_store.go:125-139 | no encoding is a proper prefix of another, and different argument lists have different encodings |
| Resp.IntegerReplyRoundTrip | internal/cache/redis_rate_store.go:141-161 | every integer reply, negative ones included, is read as the server wrote it |
| Resp.PaddedReplyRoundTrip | internal/cache/redis_rate_store.go:141-161 | blanks around the number of a reply do not matter |
| Resp.OtherRepliesGiveNoNumber | internal/cache/redis_rate_store.go:146-151 | a line that is not an integer reply, an error reply among them, gives no number |
| Services.RequestRunsItsPlan | internal/service/rental_service.go:77-116 | serving a request leaves the tables exactly as the transactions it issues leave them, so the checks of a service and the re-checks of its repository never disagree when atomic |
| Services.RefusedRequestChangesNothing | internal/service/rental_service.go:310-320 | a request refused at whatever step, the rollbacks included, leaves every table as it was |
| Services.RequestRunsOne | internal/service/rental_service.go:310-320 | every request but a confirmation issues at most one transaction |
| Services.ConfirmRunsItsPlan | internal/handler/payment_handler.go:61-90 | a confirmation issues none, the confirmation alone, or the confirmation and MarkPaid |
| SchemaKept.CommitKeepsSchema | migrations/004_create_payments_table.sql:5 | no transaction breaks a UNIQUE rental_id, a foreign key, a date check or the freshness of ids |
| SchemaKept.RequestKeepsSchema | migrations/011_create_invoices_table.sql:5 | no request breaks them, with or without the exclusion constraint |
| Tables.OwnRowDoesNotClash | migrations/010_rental_approval_flow.sql:15-21 | the exclusion constraint gives the same verdict before and after the row is written |
| Tables.PaymentIsUnique | migrations/004_create_payments_table.sql:5 | under UNIQUE (rental_id) any payment of a rental is the one every join sees |
| Tables.UpdatedPayment | internal/repository/payment_repository.go:154-160 | updating one payment row changes what its own rental sees and nothing else |
| Tables.InsertedPayment | internal/repository/payment_repository.go:72-84 | inserting a payment for a rental that has none keeps UNIQUE and changes what that rental sees only |
| Tables.MappedPayments | internal/repository/rental_repository.go:273-279 | a bulk update that keeps rental ids keeps UNIQUE, and each rental sees its own row's new value |
| Models.OverlapSharesADay | internal/repository/rental_repository.go:93-102 | the overlap test of the availability queries holds of two proper ranges exactly when some day lies in both |
| Calendar.CalendarService.ListRentalRanges | internal/repository/rental_repository.go:142-167 | lists the status and dates of exactly the blocking rentals of the car that overlap the month, each row once, by start date |
| Calendar.CalendarService.ListMaintenanceRanges | internal/repository/maintenance_repository.go:144-168 | lists the status and dates of exactly the active records of the car that overlap the month, each row once, by start date |
| Calendar.CalendarService.CollectDays | internal/service/rental_service.go:183-190 | the clipped nested loops collect exactly the days of the month that lie in some range |
| Calendar.CalendarService.AvailabilityCalendar | internal/service/rental_service.go:156-199 | answers the strictly ascending, duplicate-free list of exactly the blocked days of the month, and the ranges, rentals first and then records |
| Calendar.CalendarService.CheckAvailability | internal/service/rental_service.go:118-154 | the date errors, the missing car, and then the availability, days and price |
| RateLimiter.Middleware.constructor | internal/middleware/rate_limiter.go:35-44 | a window that is not positive becomes one minute, and the map starts empty |
| RateLimiter.Middleware.Handle | internal/middleware/rate_limiter.go:70-101 | one request cleans, counts and judges as the specified limiter, and without a positive maximum everything passes |
| RateLimiter.Middleware.DeleteExpired | internal/middleware/rate_limiter.go:72-76 | the deletion loop removes exactly the windows that are over |
| Accounts.UserService.RevokeByHash | internal/repository/auth_token_repository.go:59-74 | revokes, and reports whether the token was there and not revoked yet |
| Accounts.UserService.RevokeAllByUserId | internal/repository/auth_token_repository.go:76-84 | revokes the tokens of one user and no other |
| Accounts.UserService.CreateAuthResponse | internal/service/user_service.go:349-382 | stores one token, for verified users only |
| Accounts.UserService.Refresh | internal/service/user_service.go:177-197 | succeeds if and only if the token is stored, not revoked and not over, the user verified and the new token unused; the new token is good for the ttl from now |
| Accounts.UserService.Login | internal/service/user_service.go:161-175 | succeeds if and only if the password matches and the user is verified, and then stores one token |
| Accounts.UserService.VerifyEmail | internal/service/user_service.go:199-234 | every branch: the row after the attempt, and success if and only if the saved code for that address was given in time with fewer than five attempts counted |
| Accounts.UserService.ResendEmailVerification | internal/service/user_service.go:236-249 | a new code exactly when the user is not verified and the cooldown is over |
| Accounts.UserService.Logout | internal/service/user_service.go:251-264 | the token is revoked, and an unknown one is no error |
| MaintenanceSync.MaintenanceService.HasActiveMaintenance | internal/service/maintenance_service.go:159-175 | the loop over the two statuses finds whether the car has a scheduled or in-progress record |
| MaintenanceSync.MaintenanceService.SyncCarMaintenanceStatus | internal/service/maintenance_service.go:133-157 | the car goes to maintenance, back to available only from maintenance, or stays |
| MaintenanceSync.MaintenanceService.Create | internal/service/maintenance_service.go:36-67 | validates, inserts and syncs the car |
| MaintenanceSync.MaintenanceService.Update | internal/service/maintenance_service.go:69-102 | validates, writes, and syncs the car the record left before the one it is on |
| MaintenanceSync.MaintenanceService.Delete | internal/service/maintenance_service.go:104-113 | deletes and syncs the car |
| Store.Database.constructor | migrations/004_create_payments_table.sql:5 | the tables start empty |
| Store.Database.FindRental | internal/repository/rental_repository.go:169-180 | answers the row and the status of its payment exactly if the rental exists |
| Store.Database.CreateWithAvailability | internal/repository/rental_repository.go:71-140 | lock, status check, both overlap checks and insert answer and write as the transaction says, or change nothing |
| Store.Database.UpdateRentalStatus | internal/repository/rental_repository.go:331-358 | writes the status, voids issued invoices on cancelled or rejected, and rolls back on the constraint |
| Store.Database.CancelRental | internal/repository/rental_repository.go:360-385 | cancels whatever the status is by now and voids issued invoices |
| Store.Database.SyncLifecycle | internal/repository/rental_repository.go:256-329 | the five updates run in order over the snapshot are the row-by-row sync, and the counts are the numbers of rows each one took |
| Store.Database.CreateForRental | internal/repository/payment_repository.go:52-101 | the status re-check, the UNIQUE error, the insert and the move to pending_payment as one transaction |
| Store.Database.ConfirmPayment | internal/repository/payment_repository.go:146-182 | the conditional update of the payment and the rental, rolled back when the rental is not pending_payment |
| Store.Database.FailPayment | internal/repository/payment_repository.go:184-223 | fails a pending payment, cancels its rental and voids its issued invoice, or changes nothing |
| Store.Database.RefundPayment | internal/repository/payment_repository.go:225-265 | refunds a paid payment, cancels a rental that is not completed and voids its open invoice, or changes nothing |
| Store.Database.FindInvoice | internal/repository/invoice_repository.go:41-51 | answers the invoice of the rental exactly if it has one |
| Store.Database.InsertInvoice | internal/repository/invoice_repository.go:27-39 | inserts unless the rental is missing or has an invoice |
| Store.Database.MarkInvoicePaid | internal/repository/invoice_repository.go:53-60 | only issued invoices of the rental become paid |
| Store.RentalService.Create | internal/service/rental_service.go:77-116 | the date, car and availability checks in their order, the price, and then the transaction |
| Store.RentalService.UpdateStatus | internal/service/rental_service.go:310-320 | the guard table over the status and payment read, then the blind write |
| Store.RentalService.Approve | internal/service/rental_service.go:393-409 | only a requested rental without an open payment is approved |
| Store.RentalService.Reject | internal/service/rental_service.go:411-427 | only a requested or approved rental without an open payment is rejected |
| Store.RentalService.Cancel | internal/service/rental_service.go:429-454 | the guards of Cancel in their order, then the blind write |
| Store.RentalService.SyncLifecycle | internal/service/rental_service.go:294-296 | the sync request with its counts |
| Store.PaymentService.Create | internal/service/payment_service.go:26-55 | ownership, status and existing-payment guards, the amount from the rental, the status it read passed on as the expected one |
| Store.InvoiceService.GetOrCreate | internal/service/invoice_service.go:22-55 | answers the invoice of the rental, which the table holds afterwards: the existing one, or a new one that is paid exactly when the payment is |
| Store.PaymentHandler.Confirm | internal/handler/payment_handler.go:61-90 | the invoice is marked only after a successful confirmation, and whether that reached the database does not change the answer |
| Store.PaymentHandler.Fail | internal/handler/payment_handler.go:92-118 | looks the payment up, then Fail |
| Store.PaymentHandler.Refund | internal/handler/payment_handler.go:120-146 | looks the payment up, then Refund |

## Left out

- HTTP handlers, routing, CORS, headers, body limits, roles and permissions, logging and health checks, except for the order of confirm and mark-paid in the payment handler and the owner-or-admin tests of the services.
- Sending mail, image storage, Redis sockets, bcrypt, JWT and HMAC: hashes are injective, generated tokens are parameters, and whether a password matches is a parameter.
- PostgreSQL itself: a transaction is one step that commits and meets the constraints or changes nothing; FOR UPDATE is a critical section on the car row; a statement sees one snapshot.
- Deadlocks, lock time-outs, lost connections and gaps in id sequences.
- Columns that nothing decides on: updated_at, paid_at, invoice numbers, names and plates.
- Floating point and NUMERIC(12,2): rates, totals and revenues are whole cents of any size.
- Parsing of dates and months: ranges are day numbers, and a month is its first and last day.
- Error texts and status codes: errors are the cases of an enumeration, and so are the statuses, so texts that name no status do not occur.
- Text of the SQL statements: conditions, placeholders and arguments are data, evaluated by a small semantics of comparisons, NULL, ILIKE and the two NOT EXISTS conditions.
- Upper and lower case outside ASCII, in ILIKE, and white space outside ASCII, in integer replies.
- ORDER BY of the list endpoints: tables are sequences in their listing order. The calendar queries do sort by start date.
- The counts of active and of cancelled rentals in the report.
- The order of the five top cars of the report and its limit of five; the per-car figures are stated before the limit.
- The Redis branch of the rate limiter and its Increment command sequence; the model has the in-memory branch and the wire format.
- `PaymentRepository.Create` and `PaymentRepository.UpdateStatus` (internal/repository/payment_repository.go:33 and 133), which no service calls.
- Registration, profile, role and phone handling beyond what verification and tokens need; normalisation of e-mail addresses.
- Rows from before migration 010; tables start empty.
- Administrators' changes of cars and maintenance records appear to the booking system as one step to any fleet that the foreign keys and date checks allow.
- Notifications, audit log and RBAC look-ups.
- Maintenance orders are served one after the other; two at the same time on one car are not part of this model.
- Resp.RoundTrip: the reader of commands is a reference definition of the server's side, which the repository does not contain.
