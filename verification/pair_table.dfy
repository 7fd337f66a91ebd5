/** Which payment a rental can have in each of its statuses, over every run of atomic requests. */
module PairTable {
  import opened Models
  import opened Tables
  import opened Repositories
  import opened Services
  import opened SchemaKept
  import Billing

  type Pay = Option<PaymentStatus>

  /** The table of the reachable (rental, payment) pairs. */
  predicate PairOk(rental: RentalStatus, payment: Pay) {
    match rental
    case Requested => payment == None
    case Approved => payment == None || payment == Some(Failed) || payment == Some(Refunded)
    case Rejected => payment == None || payment == Some(Failed) || payment == Some(Refunded)
    case Cancelled => payment == None || payment == Some(Failed) || payment == Some(Refunded)
    case PendingPayment => payment == Some(Pending)
    case Confirmed => payment == Some(Paid)
    case Active => payment == Some(Paid)
    case Completed => payment == Some(Paid) || payment == Some(Refunded)
  }

  ghost predicate Coupled(s: State) {
    forall id :: id in s.rentals ==> PairOk(s.rentals[id].status, PaymentStatusOf(s.payments, id))
  }

  // ----- each transaction keeps the table -----

  /** A status write keeps the table exactly when the new status goes with the payment the rental
      has when the write happens. */
  lemma StatusWriteKeepsTable(enforce: bool, s: State, id: int, status: RentalStatus)
    requires Coupled(s)
    requires UpdateRentalStatus(enforce, s, id, status).outcome == Done
    ensures Coupled(UpdateRentalStatus(enforce, s, id, status).db) <==> PairOk(status, PaymentStatusOf(s.payments, id))
  {
    var after := UpdateRentalStatus(enforce, s, id, status).db;
    assert after.payments == s.payments;
    assert after.rentals[id].status == status;
  }

  lemma InsertRentalKeepsTable(enforce: bool, s: State, row: Rental)
    requires Schema(s) && Coupled(s) && row.status == Requested
    ensures Coupled(InsertRental(enforce, s, row).db)
  {
    assert s.nextRental !in s.rentals;
    assert !HasPayment(s.payments, s.nextRental);
  }

  lemma CreateForRentalKeepsTable(s: State, payment: Payment, expected: RentalStatus)
    requires Schema(s) && Coupled(s)
    requires payment.status == Pending && (expected.Approved? || expected.PendingPayment?)
    ensures Coupled(CreateForRental(s, payment, expected).db)
  {
    var reply := CreateForRental(s, payment, expected);
    if reply.outcome == Done {
      InsertedPayment(s.payments, s.nextPayment, payment);
      assert PaymentStatusOf(s.payments, payment.rentalId) == None;
    }
  }

  lemma ConfirmKeepsTable(s: State, id: int)
    requires Schema(s) && Coupled(s)
    ensures Coupled(ConfirmPayment(s, id).db)
  {
    if ConfirmPayment(s, id).outcome == Done {
      UpdatedPayment(s.payments, id, s.payments[id].(status := Paid));
    }
  }

  lemma FailKeepsTable(s: State, id: int)
    requires Schema(s) && Coupled(s)
    ensures Coupled(FailPayment(s, id).db)
  {
    if FailPayment(s, id).outcome == Done {
      UpdatedPayment(s.payments, id, s.payments[id].(status := Failed));
    }
  }

  lemma RefundKeepsTable(s: State, id: int)
    requires Schema(s) && Coupled(s)
    ensures Coupled(RefundPayment(s, id).db)
  {
    if RefundPayment(s, id).outcome == Done {
      PaymentIsUnique(s.payments, id);
      UpdatedPayment(s.payments, id, s.payments[id].(status := Refunded));
    }
  }

  /** What the lifecycle statement does to the payment a rental sees. */
  lemma SyncedPayment(s: State, today: int, id: int)
    requires Schema(s) && id in s.rentals
    ensures PaymentStatusOf(SyncLifecycle(s, today).payments, id) ==
            if PaymentStatusOf(s.payments, id) == Some(Pending) && Expired(s.rentals[id], today) then Some(Failed)
            else PaymentStatusOf(s.payments, id)
  {
    MappedPayments(s.payments, SyncLifecycle(s, today).payments);
    if HasPayment(s.payments, id) {
      var k := PaymentIdOf(s.payments, id);
      assert s.payments[k].rentalId == id;
    }
  }

  lemma SyncKeepsTable(s: State, today: int)
    requires Schema(s) && Coupled(s)
    ensures Coupled(SyncLifecycle(s, today))
  {
    var after := SyncLifecycle(s, today);
    forall id | id in after.rentals
      ensures PairOk(after.rentals[id].status, PaymentStatusOf(after.payments, id))
    {
      SyncedPayment(s, today, id);
      assert PairOk(s.rentals[id].status, PaymentStatusOf(s.payments, id));
    }
  }

  // ----- each request keeps the table -----

  lemma RequestKeepsTable(enforce: bool, s: State, request: Request)
    requires Schema(s) && Coupled(s)
    ensures Coupled(Apply(enforce, s, request).db)
  {
    match request
    case CreateRental(userId, carId, start, end, today, now) =>
      if ValidateCreate(s, carId, start, end, today) == Done {
        var total := Billing.Charge(start, end, s.cars[carId].dailyRate);
        InsertRentalKeepsTable(enforce, s, Rental(userId, carId, start, end, total, Requested, now));
      }
    case UpdateStatus(id, next) => StatusRequestKeepsTable(enforce, s, request);
    case Approve(id) => StatusRequestKeepsTable(enforce, s, request);
    case Reject(id) => StatusRequestKeepsTable(enforce, s, request);
    case Cancel(actor, id, today) => StatusRequestKeepsTable(enforce, s, request);
    case CreatePayment(actor, id, payMethod) =>
      if id in s.rentals && ValidatePayment(actor, s.rentals[id], HasPayment(s.payments, id)) == Done {
        CreateForRentalKeepsTable(s, Payment(id, s.rentals[id].total, payMethod, Pending), s.rentals[id].status);
      }
    case Confirm(id, markReached) => ConfirmKeepsTable(s, id);
    case Fail(id) => FailKeepsTable(s, id);
    case Refund(id) => RefundKeepsTable(s, id);
    case GetInvoice(actor, id) =>
    case Sync(today) => SyncKeepsTable(s, today);
    case Fleet(cars, maintenances) =>
  }

  lemma StatusRequestKeepsTable(enforce: bool, s: State, request: Request)
    requires Coupled(s)
    requires request.UpdateStatus? || request.Approve? || request.Reject? || request.Cancel?
    ensures Coupled(Apply(enforce, s, request).db)
  {
    match request
    case UpdateStatus(id, next) => GuardedWriteKeepsTable(enforce, s, id, next);
    case Approve(id) => GuardedWriteKeepsTable(enforce, s, id, Approved);
    case Reject(id) => GuardedWriteKeepsTable(enforce, s, id, Rejected);
    case Cancel(actor, id, today) => GuardedWriteKeepsTable(false, s, id, Cancelled);
  }

  /** A status write whose new status goes with the rental's payment. */
  lemma GuardedWriteKeepsTable(enforce: bool, s: State, id: int, status: RentalStatus)
    requires Coupled(s)
    ensures id in s.rentals && PairOk(status, PaymentStatusOf(s.payments, id)) ==>
            Coupled(UpdateRentalStatus(enforce, s, id, status).db)
  {
    if UpdateRentalStatus(enforce, s, id, status).outcome == Done {
      StatusWriteKeepsTable(enforce, s, id, status);
    }
  }

  // ----- over whole runs -----

  lemma {:induction false} RunKeepsTable(s: State, requests: seq<Request>)
    requires Schema(s) && Coupled(s)
    ensures Schema(Run(s, requests)) && Coupled(Run(s, requests))
  {
    if requests != [] {
      var last := |requests| - 1;
      RunKeepsTable(s, requests[..last]);
      RequestKeepsSchema(true, Run(s, requests[..last]), requests[last]);
      RequestKeepsTable(true, Run(s, requests[..last]), requests[last]);
    }
  }

  /** In every state a run of requests reaches, every rental and its payment are in the table. */
  lemma ReachableIsCoupled(s: State)
    requires Reachable(s)
    ensures Schema(s) && Coupled(s)
  {
    var requests :| Run(EMPTY, requests) == s;
    RunKeepsTable(EMPTY, requests);
  }

  /** A payment is pending exactly while its rental waits for payment; a confirmed or active rental
      is paid; a paid payment belongs to a confirmed, active or completed rental. */
  lemma PaymentFollowsRental(s: State, id: int)
    requires Reachable(s) && id in s.payments
    ensures s.payments[id].rentalId in s.rentals
    ensures s.payments[id].status.Pending? <==> s.rentals[s.payments[id].rentalId].status.PendingPayment?
    ensures var rental := s.rentals[s.payments[id].rentalId].status;
            s.payments[id].status.Paid? ==> rental.Confirmed? || rental.Active? || rental.Completed?
    ensures var rental := s.rentals[s.payments[id].rentalId].status;
            rental.Confirmed? || rental.Active? ==> s.payments[id].status.Paid?
  {
    ReachableIsCoupled(s);
    PaymentIsUnique(s.payments, id);
    assert PairOk(s.rentals[s.payments[id].rentalId].status, PaymentStatusOf(s.payments, s.payments[id].rentalId));
  }

  /** Confirming a pending payment always succeeds: the rollback for a rental that does not wait for
      payment never happens. */
  lemma ConfirmNeverRollsBack(s: State, id: int, markReached: bool)
    requires Reachable(s)
    ensures Apply(true, s, Confirm(id, markReached)).outcome ==
            if id !in s.payments then Refused(NotFound)
            else if s.payments[id].status.Pending? then Done
            else Refused(InvalidPayment)
  {
    if id in s.payments {
      PaymentFollowsRental(s, id);
    }
  }

  /** The only request that takes a confirmed or active rental to cancelled is a refund of its
      payment; the checks of Cancel for confirmed rentals are never what stops it. */
  lemma PaidRentalIsOnlyCancelledByRefund(s: State, request: Request, id: int)
    requires Reachable(s) && id in s.rentals
    requires s.rentals[id].status.Confirmed? || s.rentals[id].status.Active?
    ensures id in Next(s, request).rentals
    ensures Next(s, request).rentals[id].status.Cancelled?
       <==> request.Refund? && request.paymentId in s.payments && s.payments[request.paymentId].rentalId == id
  {
    ReachableIsCoupled(s);
    if request.Confirm? || request.Fail? || request.Refund? {
      PaymentRequestOnPaidRental(s, request, id);
    } else {
      OtherRequestOnPaidRental(s, request, id);
    }
  }

  lemma PaymentRequestOnPaidRental(s: State, request: Request, id: int)
    requires Schema(s) && Coupled(s) && id in s.rentals && (s.rentals[id].status.Confirmed? || s.rentals[id].status.Active?)
    requires request.Confirm? || request.Fail? || request.Refund?
    ensures id in Next(s, request).rentals
    ensures Next(s, request).rentals[id].status.Cancelled?
       <==> request.Refund? && request.paymentId in s.payments && s.payments[request.paymentId].rentalId == id
  {
    assert PaymentStatusOf(s.payments, id) == Some(Paid);
    if request.paymentId in s.payments {
      PaymentIsUnique(s.payments, request.paymentId);
    }
  }

  lemma OtherRequestOnPaidRental(s: State, request: Request, id: int)
    requires Coupled(s) && id in s.rentals && (s.rentals[id].status.Confirmed? || s.rentals[id].status.Active?)
    requires !request.Confirm? && !request.Fail? && !request.Refund?
    requires s.nextRental != id
    ensures id in Next(s, request).rentals
    ensures !Next(s, request).rentals[id].status.Cancelled?
  {
    assert PaymentStatusOf(s.payments, id) == Some(Paid);
  }

  /** A user can never cancel a confirmed rental through Cancel, before the pickup date or after. */
  lemma ConfirmedCancelIsRefused(s: State, actor: Actor, id: int, today: int)
    requires Reachable(s) && id in s.rentals && s.rentals[id].status.Confirmed?
    ensures Apply(true, s, Cancel(actor, id, today)) ==
            Reply(s, Refused(if Permitted(actor, s.rentals[id]) then OpenPayment else Forbidden))
  {
    ReachableIsCoupled(s);
    assert PairOk(s.rentals[id].status, PaymentStatusOf(s.payments, id));
  }

  ghost function CancelOutcome(s: State, actor: Actor, id: int, today: int): Outcome {
    Apply(true, s, Cancel(actor, id, today)).outcome
  }

  /** What Cancel does with a confirmed rental of a permitted actor in any state: an open payment refuses
      it, and otherwise the pickup date decides. */
  lemma CancelOfConfirmed(s: State, actor: Actor, id: int, today: int)
    requires id in s.rentals && s.rentals[id].status.Confirmed? && Permitted(actor, s.rentals[id])
    ensures Apply(true, s, Cancel(actor, id, today)) ==
            if EnsureNoOpenPayment(PaymentStatusOf(s.payments, id)) != Done then Reply(s, Refused(OpenPayment))
            else if s.rentals[id].startDate > today then CancelRental(s, id)
            else Reply(s, Refused(PickupDatePassed))
  {
  }

  /** The date decides, in the sense that two days get different answers, exactly when the rental has no
      open payment. */
  lemma PickupDateDecidesIff(s: State, actor: Actor, id: int)
    requires id in s.rentals && s.rentals[id].status.Confirmed? && Permitted(actor, s.rentals[id])
    ensures (exists day, other :: CancelOutcome(s, actor, id, day) != CancelOutcome(s, actor, id, other))
       <==> EnsureNoOpenPayment(PaymentStatusOf(s.payments, id)) == Done
  {
    var start := s.rentals[id].startDate;
    forall day {
      CancelOfConfirmed(s, actor, id, day);
    }
    if EnsureNoOpenPayment(PaymentStatusOf(s.payments, id)) == Done {
      assert CancelOutcome(s, actor, id, start - 1) != CancelOutcome(s, actor, id, start);
    }
  }
}
