/** What each request answers and leaves, said in statuses, dates and amounts alone. */
module Effects {
  import opened Models
  import opened Tables
  import opened Repositories
  import opened Services
  import opened DoubleBooking
  import Billing
  import Calendar

  // ----- words -----

  predicate Books(status: RentalStatus) {
    status != Rejected && status != Cancelled && status != Completed
  }

  predicate Unpaid(status: RentalStatus) {
    status == Requested || status == Approved || status == PendingPayment
  }

  predicate Closed(payment: Option<PaymentStatus>) {
    payment == None || payment == Some(Failed) || payment == Some(Refunded)
  }

  /** The actor is neither the user of the rental nor an administrator. */
  predicate Stranger(actor: Actor, rental: Rental) {
    actor.userId != rental.userId && !actor.admin
  }

  /** A booking or a scheduled or running maintenance record has the car on that day. */
  ghost predicate Taken(s: State, carId: int, day: int) {
    || (exists i :: i in s.rentals && s.rentals[i].carId == carId && Books(s.rentals[i].status)
          && s.rentals[i].startDate <= day <= s.rentals[i].endDate)
    || (exists i :: i in s.maintenances && s.maintenances[i].carId == carId
          && (s.maintenances[i].status == Scheduled || s.maintenances[i].status == InProgress)
          && s.maintenances[i].startDate <= day <= s.maintenances[i].endDate)
  }

  /** Another booking of the same car shares a day with the rental. */
  ghost predicate SharesADay(rentals: map<int, Rental>, id: int)
    requires id in rentals
  {
    exists other, day :: other in rentals && other != id && Shares(rentals[id], rentals[other], day)
  }

  predicate Shares(rental: Rental, other: Rental, day: int) {
    && other.carId == rental.carId && Books(other.status)
    && rental.startDate <= day <= rental.endDate && other.startDate <= day <= other.endDate
  }

  /** No row came or went, and every row but one is as it was. */
  ghost predicate OnlyRow<T>(before: map<int, T>, after: map<int, T>, id: int, row: T) {
    && id in before && after.Keys == before.Keys && after[id] == row
    && forall i :: i in before && i != id ==> after[i] == before[i]
  }

  ghost predicate NewRow<T>(before: map<int, T>, after: map<int, T>, id: int, row: T) {
    && id !in before && after.Keys == before.Keys + {id} && after[id] == row
    && forall i :: i in before ==> after[i] == before[i]
  }

  /** The invoices of the rental in one of the statuses go to `status`, and all others are as they were. */
  ghost predicate InvoicesGo(before: map<int, Invoice>, after: map<int, Invoice>, rentalId: int, statuses: set<InvoiceStatus>, status: InvoiceStatus) {
    && after.Keys == before.Keys
    && forall i :: i in before ==>
         if before[i].rentalId == rentalId && before[i].status in statuses
         then after[i] == Invoice(rentalId, before[i].amount, status)
         else after[i] == before[i]
  }

  /** The rental has the new status and keeps the rest; no other rental changes. */
  ghost predicate RentalGoes(s: State, t: State, id: int, status: RentalStatus) {
    && id in s.rentals
    && var row := s.rentals[id];
       OnlyRow(s.rentals, t.rentals, id, Rental(row.userId, row.carId, row.startDate, row.endDate, row.total, status, row.createdAt))
  }

  ghost predicate SameFleet(s: State, t: State) {
    t.cars == s.cars && t.maintenances == s.maintenances
  }

  ghost predicate SameIds(s: State, t: State) {
    t.nextRental == s.nextRental && t.nextPayment == s.nextPayment && t.nextInvoice == s.nextInvoice
  }

  // ----- creating a rental -----

  lemma TakenIsBlocked(s: State, carId: int, day: int)
    ensures Taken(s, carId, day) <==> Calendar.BlockedOn(s, carId, day)
  {
  }

  /** A range is free for the query exactly when none of its days is taken. */
  lemma FreeDays(s: State, carId: int, start: int, end: int)
    requires DatesOrdered(s) && start <= end
    ensures IsAvailable(s, carId, start, end) <==> forall day :: start <= day <= end ==> !Taken(s, carId, day)
  {
    Calendar.RangeIsFreeByDays(s, carId, start, end);
    forall day {
      TakenIsBlocked(s, carId, day);
    }
    if forall day :: start <= day <= end ==> !Taken(s, carId, day) {
      forall day | Covers(start, end, day)
        ensures !Calendar.BlockedOn(s, carId, day)
      {
        assert !Taken(s, carId, day);
      }
    }
    if IsAvailable(s, carId, start, end) {
      forall day | start <= day <= end
        ensures !Taken(s, carId, day)
      {
        assert Covers(start, end, day);
      }
    }
  }

  /** The price of a range in a car's rate: its days, up to the span that saturates. */
  function Price(start: int, end: int, dailyRate: int): int {
    (if end - start <= 106_751 then end - start + 1 else 106_752) * dailyRate
  }

  /** Why a rental is refused, in the order of the checks. */
  ghost function CreationAnswer(s: State, carId: int, start: int, end: int, today: int): Outcome {
    if end < start then Refused(InvalidDateSpan)
    else if start < today then Refused(StartInPast)
    else if carId !in s.cars then Refused(NotFound)
    else if s.cars[carId].status == UnderMaintenance || s.cars[carId].status == Inactive then Refused(CarUnavailable)
    else if exists day :: start <= day <= end && Taken(s, carId, day) then Refused(Error.DoubleBooking)
    else Done
  }

  /** Creating a rental answers so, and a created rental is one new row with the data of the request, the
      price in the rate of its car, and status requested. */
  lemma CreateRentalEffect(s: State, userId: int, carId: int, start: int, end: int, today: int, now: int)
    requires Schema(s)
    ensures var reply := Apply(true, s, CreateRental(userId, carId, start, end, today, now));
            && reply.outcome == CreationAnswer(s, carId, start, end, today)
            && (reply.outcome == Done ==>
                 && NewRow(s.rentals, reply.db.rentals, s.nextRental,
                           Rental(userId, carId, start, end, Price(start, end, s.cars[carId].dailyRate), Requested, now))
                 && reply.db == s.(rentals := reply.db.rentals, nextRental := s.nextRental + 1))
  {
    if start <= end {
      FreeDays(s, carId, start, end);
      Billing.BilledDaysCountTheRange(start, end);
    }
    if CreationAnswer(s, carId, start, end, today) == Done {
      assert forall day :: start <= day <= end ==> !Taken(s, carId, day);
    }
  }

  /** What CheckAvailability answers: the same refusals of the dates and of a missing car, then whether a
      rental would be accepted, the days and the price in the rate of the car. */
  lemma AvailabilityEffect(s: State, carId: int, start: int, end: int, today: int)
    requires Schema(s)
    ensures var reply := Calendar.AvailabilityFor(s, carId, start, end, today);
            if end < start then reply == Calendar.NoAnswer(InvalidDateSpan)
            else if start < today then reply == Calendar.NoAnswer(StartInPast)
            else if carId !in s.cars then reply == Calendar.NoAnswer(NotFound)
            else
              && reply.Answer?
              && (reply.result.available <==> CreationAnswer(s, carId, start, end, today) == Done)
              && reply.result.days == (if end - start <= 106_751 then end - start + 1 else 106_752)
              && reply.result.total == Price(start, end, s.cars[carId].dailyRate)
  {
    if start <= end {
      FreeDays(s, carId, start, end);
      Billing.BilledDaysCountTheRange(start, end);
    }
    if CreationAnswer(s, carId, start, end, today) == Done {
      assert forall day :: start <= day <= end ==> !Taken(s, carId, day);
    }
  }

  // ----- status changes -----

  lemma ClashIsASharedDay(s: State, id: int, status: RentalStatus)
    requires DatesOrdered(s) && id in s.rentals
    ensures ClashesWithOther(s.rentals, id, s.rentals[id].(status := status)) <==> Books(status) && SharesADay(s.rentals, id)
  {
    var row := s.rentals[id].(status := status);
    if ClashesWithOther(s.rentals, id, row) {
      var other :| other in s.rentals && other != id && Clash(row, s.rentals[other]);
      OverlapSharesADay(row.startDate, row.endDate, s.rentals[other].startDate, s.rentals[other].endDate);
      var day :| Covers(row.startDate, row.endDate, day) && Covers(s.rentals[other].startDate, s.rentals[other].endDate, day);
      assert Shares(s.rentals[id], s.rentals[other], day);
    }
    if Books(status) && SharesADay(s.rentals, id) {
      var other, day :| other in s.rentals && other != id && Shares(s.rentals[id], s.rentals[other], day);
      assert Clash(row, s.rentals[other]);
    }
  }

  /** In a reachable state no two bookings of a car share a day. */
  lemma NoDayIsBookedTwice(s: State, id: int)
    requires Reachable(s) && id in s.rentals && Books(s.rentals[id].status)
    ensures !SharesADay(s.rentals, id)
  {
    ReachableHasNoDoubleBooking(s);
  }

  /** The rental has the new status, its issued invoice is void if it is cancelled or rejected, and nothing
      else has changed. */
  ghost predicate StatusWritten(s: State, t: State, id: int, status: RentalStatus) {
    && RentalGoes(s, t, id, status)
    && InvoicesGo(s.invoices, t.invoices, id, if status == Cancelled || status == Rejected then {Issued} else {}, Void)
    && t.payments == s.payments && SameFleet(s, t) && SameIds(s, t)
  }

  lemma StatusWriteEffect(s: State, id: int, status: RentalStatus)
    requires Schema(s)
    ensures var reply := UpdateRentalStatus(true, s, id, status);
            && reply.outcome == (if id !in s.rentals then Refused(NotFound)
                                 else if Books(status) && SharesADay(s.rentals, id) then Refused(Error.DoubleBooking)
                                 else Done)
            && (reply.outcome == Done ==> StatusWritten(s, reply.db, id, status))
  {
    if id in s.rentals {
      ClashIsASharedDay(s, id, status);
    }
  }

  /** What an administrator's status change is answered, apart from a missing rental and a taken day. */
  function ChangeAnswer(current: RentalStatus, payment: Option<PaymentStatus>, next: RentalStatus): Outcome {
    if next == current then Done
    else if (next == Approved && (current == Requested || current == Rejected || current == Cancelled))
            || (next == Rejected && (current == Requested || current == Approved))
            || (next == Cancelled && current != Completed)
      then if Closed(payment) then Done else Refused(OpenPayment)
    else if next == Active || next == Completed then
      if payment != Some(Paid) then Refused(OpenPayment)
      else if (next == Active && current == Confirmed) || (next == Completed && current == Active) then Done
      else Refused(InvalidTransition)
    else Refused(InvalidTransition)
  }

  lemma UpdateStatusEffect(s: State, id: int, next: RentalStatus)
    requires Schema(s)
    ensures var reply := Apply(true, s, UpdateStatus(id, next));
            && reply.outcome == (if id !in s.rentals then Refused(NotFound)
                                 else if ChangeAnswer(s.rentals[id].status, PaymentStatusOf(s.payments, id), next) != Done
                                   then ChangeAnswer(s.rentals[id].status, PaymentStatusOf(s.payments, id), next)
                                 else if Books(next) && SharesADay(s.rentals, id) then Refused(Error.DoubleBooking)
                                 else Done)
            && (reply.outcome == Done ==> StatusWritten(s, reply.db, id, next))
  {
    StatusWriteEffect(s, id, next);
  }

  lemma ApproveEffect(s: State, id: int)
    requires Schema(s)
    ensures var reply := Apply(true, s, Approve(id));
            && reply.outcome == (if id !in s.rentals then Refused(NotFound)
                                 else if s.rentals[id].status != Requested then Refused(InvalidTransition)
                                 else if !Closed(PaymentStatusOf(s.payments, id)) then Refused(OpenPayment)
                                 else if SharesADay(s.rentals, id) then Refused(Error.DoubleBooking)
                                 else Done)
            && (reply.outcome == Done ==> StatusWritten(s, reply.db, id, Approved))
  {
    StatusWriteEffect(s, id, Approved);
  }

  lemma RejectEffect(s: State, id: int)
    requires Schema(s)
    ensures var reply := Apply(true, s, Reject(id));
            && reply.outcome == (if id !in s.rentals then Refused(NotFound)
                                 else if s.rentals[id].status != Requested && s.rentals[id].status != Approved then Refused(InvalidTransition)
                                 else if !Closed(PaymentStatusOf(s.payments, id)) then Refused(OpenPayment)
                                 else Done)
            && (reply.outcome == Done ==> StatusWritten(s, reply.db, id, Rejected))
  {
    StatusWriteEffect(s, id, Rejected);
  }

  lemma CancelEffect(s: State, actor: Actor, id: int, today: int)
    requires Schema(s)
    ensures var reply := Apply(true, s, Cancel(actor, id, today));
            && reply.outcome == (if id !in s.rentals then Refused(NotFound)
                                 else if Stranger(actor, s.rentals[id]) then Refused(Forbidden)
                                 else if s.rentals[id].status == Cancelled then Refused(AlreadyCancelled)
                                 else if s.rentals[id].status == Completed then Refused(InvalidTransition)
                                 else if !Closed(PaymentStatusOf(s.payments, id)) then Refused(OpenPayment)
                                 else if s.rentals[id].status == Confirmed && s.rentals[id].startDate <= today then Refused(PickupDatePassed)
                                 else Done)
            && (reply.outcome == Done ==> StatusWritten(s, reply.db, id, Cancelled))
  {
    StatusWriteEffect(s, id, Cancelled);
  }

  // ----- payments -----

  lemma CreatePaymentEffect(s: State, actor: Actor, id: int, payMethod: PaymentMethod)
    requires Schema(s)
    ensures var reply := Apply(true, s, CreatePayment(actor, id, payMethod));
            && reply.outcome == (if id !in s.rentals then Refused(NotFound)
                                 else if Stranger(actor, s.rentals[id]) then Refused(Forbidden)
                                 else if s.rentals[id].status != Approved && s.rentals[id].status != PendingPayment then Refused(InvalidTransition)
                                 else if PaymentStatusOf(s.payments, id) != None then Refused(PaymentExists)
                                 else Done)
            && (reply.outcome == Done ==>
                 && NewRow(s.payments, reply.db.payments, s.nextPayment, Payment(id, s.rentals[id].total, payMethod, Pending))
                 && StatusWritten(s, reply.db.(payments := s.payments, nextPayment := s.nextPayment), id, PendingPayment)
                 && reply.db.nextPayment == s.nextPayment + 1)
  {
  }

  /** The payment has the new status and keeps its rental, amount and method; no other payment changes. */
  ghost predicate PaymentGoes(s: State, t: State, id: int, status: PaymentStatus) {
    && id in s.payments
    && OnlyRow(s.payments, t.payments, id, Payment(s.payments[id].rentalId, s.payments[id].amount, s.payments[id].payMethod, status))
  }

  lemma ConfirmEffect(s: State, id: int, markReached: bool)
    requires Schema(s)
    ensures var reply := Apply(true, s, Confirm(id, markReached));
            && reply.outcome == (if id !in s.payments then Refused(NotFound)
                                 else if s.payments[id].status != Pending || s.rentals[s.payments[id].rentalId].status != PendingPayment
                                   then Refused(InvalidPayment)
                                 else Done)
            && (reply.outcome == Done ==>
                 && PaymentGoes(s, reply.db, id, Paid) && RentalGoes(s, reply.db, s.payments[id].rentalId, Confirmed)
                 && InvoicesGo(s.invoices, reply.db.invoices, s.payments[id].rentalId, if markReached then {Issued} else {}, Settled)
                 && SameFleet(s, reply.db) && SameIds(s, reply.db))
  {
  }

  lemma FailEffect(s: State, id: int)
    requires Schema(s)
    ensures var reply := Apply(true, s, Fail(id));
            && reply.outcome == (if id !in s.payments then Refused(NotFound)
                                 else if s.payments[id].status != Pending then Refused(InvalidPayment)
                                 else Done)
            && (reply.outcome == Done ==>
                 && PaymentGoes(s, reply.db, id, Failed) && RentalGoes(s, reply.db, s.payments[id].rentalId, Cancelled)
                 && InvoicesGo(s.invoices, reply.db.invoices, s.payments[id].rentalId, {Issued}, Void)
                 && SameFleet(s, reply.db) && SameIds(s, reply.db))
  {
  }

  /** After a refund the invoice of the rental is void, issued or paid before, with its amount kept; the
      rental is cancelled unless it is completed. */
  lemma RefundEffect(s: State, id: int)
    requires Schema(s)
    ensures var reply := Apply(true, s, Refund(id));
            && reply.outcome == (if id !in s.payments then Refused(NotFound)
                                 else if s.payments[id].status != Paid then Refused(InvalidPayment)
                                 else Done)
            && (reply.outcome == Done ==>
                 && PaymentGoes(s, reply.db, id, Refunded)
                 && RentalGoes(s, reply.db, s.payments[id].rentalId,
                               if s.rentals[s.payments[id].rentalId].status == Completed then Completed else Cancelled)
                 && InvoicesGo(s.invoices, reply.db.invoices, s.payments[id].rentalId, {Issued, Settled}, Void)
                 && SameFleet(s, reply.db) && SameIds(s, reply.db))
  {
    if id in s.payments && s.payments[id].status == Paid {
      var rental := s.rentals[s.payments[id].rentalId];
      assert rental.status == Completed ==> rental.(status := Completed) == rental;
      var after := Apply(true, s, Refund(id)).db.invoices;
      forall i | i in s.invoices && s.invoices[i].rentalId == s.payments[id].rentalId
        ensures after[i] == Invoice(s.invoices[i].rentalId, s.invoices[i].amount, Void)
        ensures s.invoices[i].status == Void ==> after[i] == s.invoices[i]
      {
        assert s.invoices[i].status == Void ==> s.invoices[i].(status := Void) == s.invoices[i];
      }
    }
  }

  // ----- invoices -----

  lemma GetInvoiceEffect(s: State, actor: Actor, id: int)
    requires Schema(s)
    ensures var reply := Apply(true, s, GetInvoice(actor, id));
            var exist := exists i :: i in s.invoices && s.invoices[i].rentalId == id;
            && reply.outcome == (if id !in s.rentals then Refused(NotFound)
                                 else if Stranger(actor, s.rentals[id]) then Refused(Forbidden)
                                 else Done)
            && (reply.outcome == Done && exist ==> reply.db == s)
            && (reply.outcome == Done && !exist ==>
                 && NewRow(s.invoices, reply.db.invoices, s.nextInvoice,
                           Invoice(id, s.rentals[id].total, if PaymentStatusOf(s.payments, id) == Some(Paid) then Settled else Issued))
                 && reply.db == s.(invoices := reply.db.invoices, nextInvoice := s.nextInvoice + 1))
  {
  }

  /** The requests of users are refused as forbidden exactly for actors who are neither the user of the
      rental nor an administrator. */
  lemma ForbiddenIff(s: State, actor: Actor, id: int, today: int, payMethod: PaymentMethod)
    requires Schema(s)
    ensures Apply(true, s, Cancel(actor, id, today)).outcome == Refused(Forbidden) <==> id in s.rentals && Stranger(actor, s.rentals[id])
    ensures Apply(true, s, CreatePayment(actor, id, payMethod)).outcome == Refused(Forbidden) <==> id in s.rentals && Stranger(actor, s.rentals[id])
    ensures Apply(true, s, GetInvoice(actor, id)).outcome == Refused(Forbidden) <==> id in s.rentals && Stranger(actor, s.rentals[id])
  {
    CancelEffect(s, actor, id, today);
    CreatePaymentEffect(s, actor, id, payMethod);
    GetInvoiceEffect(s, actor, id);
  }

  // ----- the lifecycle -----

  /** A rental over a sync: unpaid ones are cancelled from the day after their end, confirmed ones are active
      from their start to their end and completed after it, and all others are as they were. */
  lemma SyncedRentalEffect(s: State, today: int, id: int)
    requires id in s.rentals
    ensures Next(s, Sync(today)).rentals.Keys == s.rentals.Keys
    ensures var before, after := s.rentals[id], Next(s, Sync(today)).rentals[id];
            && (Unpaid(before.status) && before.endDate < today ==> after.status == Cancelled)
            && (Unpaid(before.status) && before.endDate >= today ==> after.status == before.status)
            && (before.status == Confirmed && before.startDate > today && before.endDate >= today ==> after.status == Confirmed)
            && (before.status == Confirmed && before.startDate <= today <= before.endDate ==> after.status == Active)
            && (before.status == Active && before.endDate >= today ==> after.status == Active)
            && ((before.status == Confirmed || before.status == Active) && before.endDate < today ==> after.status == Completed)
            && (!Books(before.status) ==> after.status == before.status)
            && after == Rental(before.userId, before.carId, before.startDate, before.endDate, before.total, after.status, before.createdAt)
  {
  }

  /** A sync fails the pending payments and voids the issued invoices of the unpaid rentals that are over,
      and changes no other payment or invoice. */
  lemma SyncedBooksEffect(s: State, today: int)
    requires Schema(s)
    ensures var t := Next(s, Sync(today));
            && t.payments.Keys == s.payments.Keys && t.invoices.Keys == s.invoices.Keys && SameFleet(s, t) && SameIds(s, t)
            && (forall p :: p in s.payments ==>
                  var row, rental := s.payments[p], s.rentals[s.payments[p].rentalId];
                  t.payments[p] == if row.status == Pending && Unpaid(rental.status) && rental.endDate < today
                                   then Payment(row.rentalId, row.amount, row.payMethod, Failed) else row)
            && (forall i :: i in s.invoices ==>
                  var row, rental := s.invoices[i], s.rentals[s.invoices[i].rentalId];
                  t.invoices[i] == if row.status == Issued && Unpaid(rental.status) && rental.endDate < today
                                   then Invoice(row.rentalId, row.amount, Void) else row)
  {
  }

  function ToCancel(s: State, today: int): set<int> {
    set i | i in s.rentals && Over(s, i, today)
  }

  function ToActivate(s: State, today: int): set<int> {
    set i | i in s.rentals && s.rentals[i].status == Confirmed && s.rentals[i].startDate <= today <= s.rentals[i].endDate
  }

  function ToComplete(s: State, today: int): set<int> {
    set i | i in s.rentals && (s.rentals[i].status == Confirmed || s.rentals[i].status == Active) && s.rentals[i].endDate < today
  }

  function ToFail(s: State, today: int): set<int> {
    set p | p in s.payments && s.payments[p].status == Pending && Over(s, s.payments[p].rentalId, today)
  }

  function ToVoid(s: State, today: int): set<int> {
    set i | i in s.invoices && s.invoices[i].status == Issued && Over(s, s.invoices[i].rentalId, today)
  }

  /** The rental is unpaid and over. */
  predicate Over(s: State, id: int, today: int) {
    id in s.rentals && Unpaid(s.rentals[id].status) && s.rentals[id].endDate < today
  }

  /** The counts are the numbers of rows that the sync takes. */
  lemma SyncCountsEffect(s: State, today: int)
    ensures CountsOf(s, today) ==
            SyncCounts(|ToCancel(s, today)|, |ToActivate(s, today)|, |ToComplete(s, today)|, |ToFail(s, today)|, |ToVoid(s, today)|)
  {
    forall i
      ensures i in ExpiredIds(s, today) <==> i in ToCancel(s, today)
      ensures i in ActivatedIds(s, today) <==> i in ToActivate(s, today)
      ensures i in CompletedIds(s, today) <==> i in ToComplete(s, today)
      ensures i in FailedIds(s, today) <==> i in ToFail(s, today)
      ensures i in VoidedIds(s, today) <==> i in ToVoid(s, today)
    {
    }
    assert ExpiredIds(s, today) == ToCancel(s, today) && ActivatedIds(s, today) == ToActivate(s, today);
    assert CompletedIds(s, today) == ToComplete(s, today);
    assert FailedIds(s, today) == ToFail(s, today) && VoidedIds(s, today) == ToVoid(s, today);
  }
}
