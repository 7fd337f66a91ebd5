/** The requests of the booking system, each taken as one atomic step: the guards of the services
    around the repository transactions. */
module Services {
  import opened Models
  import opened Tables
  import opened Repositories
  import Billing

  // ----- guards -----

  predicate Permitted(actor: Actor, rental: Rental) {
    rental.userId == actor.userId || actor.admin
  }

  function EnsureNoOpenPayment(payment: Option<PaymentStatus>): Outcome {
    match payment
    case None => Done
    case Some(Failed) => Done
    case Some(Refunded) => Done
    case Some(Pending) => Refused(OpenPayment)
    case Some(Paid) => Refused(OpenPayment)
  }

  function ValidateStatusChange(current: RentalStatus, payment: Option<PaymentStatus>, next: RentalStatus): Outcome {
    if next == current then Done
    else
      match next
      case Requested => Refused(InvalidTransition)
      case Approved =>
        if !current.Requested? && !current.Rejected? && !current.Cancelled? then Refused(InvalidTransition)
        else EnsureNoOpenPayment(payment)
      case Rejected =>
        if !current.Requested? && !current.Approved? then Refused(InvalidTransition)
        else EnsureNoOpenPayment(payment)
      case Cancelled =>
        if current.Completed? then Refused(InvalidTransition)
        else EnsureNoOpenPayment(payment)
      case PendingPayment => Refused(InvalidTransition)
      case Confirmed => Refused(InvalidTransition)
      case Active =>
        if payment != Some(Paid) then Refused(OpenPayment)
        else if !current.Confirmed? then Refused(InvalidTransition)
        else Done
      case Completed =>
        if payment != Some(Paid) then Refused(OpenPayment)
        else if !current.Active? then Refused(InvalidTransition)
        else Done
  }

  function ValidateApprove(current: RentalStatus, payment: Option<PaymentStatus>): Outcome {
    if !current.Requested? then Refused(InvalidTransition) else EnsureNoOpenPayment(payment)
  }

  function ValidateReject(current: RentalStatus, payment: Option<PaymentStatus>): Outcome {
    if !current.Requested? && !current.Approved? then Refused(InvalidTransition) else EnsureNoOpenPayment(payment)
  }

  function ValidateCancel(actor: Actor, rental: Rental, payment: Option<PaymentStatus>, today: int): Outcome {
    if !Permitted(actor, rental) then Refused(Forbidden)
    else if rental.status.Cancelled? then Refused(AlreadyCancelled)
    else if rental.status.Completed? then Refused(InvalidTransition)
    else if EnsureNoOpenPayment(payment) != Done then EnsureNoOpenPayment(payment)
    else if rental.status.Confirmed? && !(rental.startDate > today) then Refused(PickupDatePassed)
    else Done
  }

  function ValidateDates(start: int, end: int, today: int): Outcome {
    if end < start then Refused(InvalidDateSpan)
    else if start < today then Refused(StartInPast)
    else Done
  }

  /** What RentalService.Create checks before it opens the transaction. */
  function ValidateCreate(s: State, carId: int, start: int, end: int, today: int): Outcome {
    if ValidateDates(start, end, today) != Done then ValidateDates(start, end, today)
    else if carId !in s.cars then Refused(NotFound)
    else if !Rentable(s.cars[carId].status) then Refused(CarUnavailable)
    else if !IsAvailable(s, carId, start, end) then Refused(DoubleBooking)
    else Done
  }

  function ValidatePayment(actor: Actor, rental: Rental, paymentExists: bool): Outcome {
    if !Permitted(actor, rental) then Refused(Forbidden)
    else if !rental.status.PendingPayment? && !rental.status.Approved? then Refused(InvalidTransition)
    else if paymentExists then Refused(PaymentExists)
    else Done
  }

  function InvoiceFor(rentalId: int, rental: Rental, payment: Option<PaymentStatus>): Invoice {
    Invoice(rentalId, rental.total, if payment == Some(Paid) then Settled else Issued)
  }

  // ----- requests -----

  datatype Request =
    | CreateRental(userId: int, carId: int, startDate: int, endDate: int, today: int, now: int)
    | UpdateStatus(rentalId: int, next: RentalStatus)
    | Approve(rentalId: int)
    | Reject(rentalId: int)
    | Cancel(actor: Actor, rentalId: int, today: int)
    | CreatePayment(actor: Actor, rentalId: int, payMethod: PaymentMethod)
    | Confirm(paymentId: int, markReached: bool)
    | Fail(paymentId: int)
    | Refund(paymentId: int)
    | GetInvoice(actor: Actor, rentalId: int)
    | Sync(today: int)
    | Fleet(cars: map<int, Car>, maintenances: map<int, Maintenance>)

  function CreateRentalStep(enforce: bool, s: State, userId: int, carId: int, start: int, end: int, today: int, now: int): Reply {
    var checked := ValidateCreate(s, carId, start, end, today);
    if checked != Done then Reply(s, checked)
    else
      var total := Billing.Charge(start, end, s.cars[carId].dailyRate);
      CreateWithAvailability(enforce, s, Rental(userId, carId, start, end, total, Requested, now))
  }

  ghost function UpdateStatusStep(enforce: bool, s: State, id: int, next: RentalStatus): Reply {
    if id !in s.rentals then Reply(s, Refused(NotFound))
    else
      var checked := ValidateStatusChange(s.rentals[id].status, PaymentStatusOf(s.payments, id), next);
      if checked != Done then Reply(s, checked) else UpdateRentalStatus(enforce, s, id, next)
  }

  ghost function ApproveStep(enforce: bool, s: State, id: int): Reply {
    if id !in s.rentals then Reply(s, Refused(NotFound))
    else
      var checked := ValidateApprove(s.rentals[id].status, PaymentStatusOf(s.payments, id));
      if checked != Done then Reply(s, checked) else UpdateRentalStatus(enforce, s, id, Approved)
  }

  ghost function RejectStep(enforce: bool, s: State, id: int): Reply {
    if id !in s.rentals then Reply(s, Refused(NotFound))
    else
      var checked := ValidateReject(s.rentals[id].status, PaymentStatusOf(s.payments, id));
      if checked != Done then Reply(s, checked) else UpdateRentalStatus(enforce, s, id, Rejected)
  }

  ghost function CancelStep(s: State, actor: Actor, id: int, today: int): Reply {
    if id !in s.rentals then Reply(s, Refused(NotFound))
    else
      var checked := ValidateCancel(actor, s.rentals[id], PaymentStatusOf(s.payments, id), today);
      if checked != Done then Reply(s, checked) else CancelRental(s, id)
  }

  function CreatePaymentStep(s: State, actor: Actor, id: int, payMethod: PaymentMethod): Reply {
    if id !in s.rentals then Reply(s, Refused(NotFound))
    else
      var rental := s.rentals[id];
      var checked := ValidatePayment(actor, rental, HasPayment(s.payments, id));
      if checked != Done then Reply(s, checked)
      else CreateForRental(s, Payment(id, rental.total, payMethod, Pending), rental.status)
  }

  /** PaymentHandler.Confirm: the invoice update runs after the confirmation and its failure is
      ignored; `markReached` says whether it reached the database. */
  function ConfirmStep(s: State, id: int, markReached: bool): Reply {
    if id !in s.payments then Reply(s, Refused(NotFound))
    else
      var confirmed := ConfirmPayment(s, id);
      if confirmed.outcome == Done && markReached
      then Reply(MarkInvoicePaid(confirmed.db, s.payments[id].rentalId), Done)
      else confirmed
  }

  ghost function GetInvoiceStep(s: State, actor: Actor, id: int): Reply {
    if id !in s.rentals then Reply(s, Refused(NotFound))
    else if !Permitted(actor, s.rentals[id]) then Reply(s, Refused(Forbidden))
    else if HasInvoice(s.invoices, id) then Reply(s, Done)
    else InsertInvoice(s, InvoiceFor(id, s.rentals[id], PaymentStatusOf(s.payments, id)))
  }

  ghost function Apply(enforce: bool, s: State, request: Request): Reply {
    match request
    case CreateRental(userId, carId, start, end, today, now) => CreateRentalStep(enforce, s, userId, carId, start, end, today, now)
    case UpdateStatus(id, next) => UpdateStatusStep(enforce, s, id, next)
    case Approve(id) => ApproveStep(enforce, s, id)
    case Reject(id) => RejectStep(enforce, s, id)
    case Cancel(actor, id, today) => CancelStep(s, actor, id, today)
    case CreatePayment(actor, id, payMethod) => CreatePaymentStep(s, actor, id, payMethod)
    case Confirm(id, markReached) => ConfirmStep(s, id, markReached)
    case Fail(id) => if id !in s.payments then Reply(s, Refused(NotFound)) else FailPayment(s, id)
    case Refund(id) => if id !in s.payments then Reply(s, Refused(NotFound)) else RefundPayment(s, id)
    case GetInvoice(actor, id) => GetInvoiceStep(s, actor, id)
    case Sync(today) => Reply(SyncLifecycle(s, today), Done)
    case Fleet(cars, maintenances) => ReplaceFleet(s, cars, maintenances)
  }

  // ----- the transactions a request runs -----

  /** The transactions that a request issues when it is served in state `s`. */
  ghost function Plan(s: State, request: Request): seq<Tx> {
    match request
    case CreateRental(userId, carId, start, end, today, now) =>
      if ValidateCreate(s, carId, start, end, today) == Done
      then [RentalTx(Rental(userId, carId, start, end, Billing.Charge(start, end, s.cars[carId].dailyRate), Requested, now))]
      else []
    case UpdateStatus(id, next) =>
      if id in s.rentals && ValidateStatusChange(s.rentals[id].status, PaymentStatusOf(s.payments, id), next) == Done
      then [StatusTx(id, next)] else []
    case Approve(id) =>
      if id in s.rentals && ValidateApprove(s.rentals[id].status, PaymentStatusOf(s.payments, id)) == Done
      then [StatusTx(id, Approved)] else []
    case Reject(id) =>
      if id in s.rentals && ValidateReject(s.rentals[id].status, PaymentStatusOf(s.payments, id)) == Done
      then [StatusTx(id, Rejected)] else []
    case Cancel(actor, id, today) =>
      if id in s.rentals && ValidateCancel(actor, s.rentals[id], PaymentStatusOf(s.payments, id), today) == Done
      then [StatusTx(id, Cancelled)] else []
    case CreatePayment(actor, id, payMethod) =>
      if id in s.rentals && ValidatePayment(actor, s.rentals[id], HasPayment(s.payments, id)) == Done
      then [PaymentTx(Payment(id, s.rentals[id].total, payMethod, Pending), s.rentals[id].status)] else []
    case Confirm(id, markReached) =>
      if ConfirmPayment(s, id).outcome == Done
      then if markReached then [ConfirmTx(id), MarkPaidTx(s.payments[id].rentalId)] else [ConfirmTx(id)]
      else []
    case Fail(id) => [FailTx(id)]
    case Refund(id) => [RefundTx(id)]
    case GetInvoice(actor, id) =>
      if id in s.rentals && Permitted(actor, s.rentals[id]) && !HasInvoice(s.invoices, id)
      then [InvoiceTx(InvoiceFor(id, s.rentals[id], PaymentStatusOf(s.payments, id)))] else []
    case Sync(today) => [SyncTx(today)]
    case Fleet(cars, maintenances) => [FleetTx(cars, maintenances)]
  }

  lemma CommitOne(enforce: bool, s: State, tx: Tx)
    ensures CommitAll(enforce, s, [tx]) == Commit(enforce, s, tx).db
  {
    assert [tx][..0] == [];
  }

  lemma CommitTwo(enforce: bool, s: State, first: Tx, second: Tx)
    ensures CommitAll(enforce, s, [first, second]) == Commit(enforce, Commit(enforce, s, first).db, second).db
  {
    assert [first, second][..1] == [first];
    CommitOne(enforce, s, first);
  }

  /** Serving a request leaves the tables as its transactions leave them: what the checks of a service
      let through, the checks of its repository let through too. */
  lemma RequestRunsItsPlan(enforce: bool, s: State, request: Request)
    ensures Apply(enforce, s, request).db == CommitAll(enforce, s, Plan(s, request))
  {
    if request.Confirm? {
      ConfirmRunsItsPlan(enforce, s, request);
    } else {
      RequestRunsOne(enforce, s, request);
      var plan := Plan(s, request);
      if plan != [] {
        CommitOne(enforce, s, plan[0]);
        assert plan == [plan[0]];
      }
    }
  }

  /** A request that is refused, at whatever step, changes nothing. */
  lemma RefusedRequestChangesNothing(enforce: bool, s: State, request: Request)
    ensures Apply(enforce, s, request).outcome != Done ==> Apply(enforce, s, request).db == s
  {
  }

  /** Every request but a confirmation issues one transaction at most. */
  lemma RequestRunsOne(enforce: bool, s: State, request: Request)
    requires !request.Confirm?
    ensures |Plan(s, request)| <= 1
    ensures Apply(enforce, s, request).db == if Plan(s, request) == [] then s else Commit(enforce, s, Plan(s, request)[0]).db
  {
  }

  lemma ConfirmRunsItsPlan(enforce: bool, s: State, request: Request)
    requires request.Confirm?
    ensures Apply(enforce, s, request).db == CommitAll(enforce, s, Plan(s, request))
  {
    var plan := Plan(s, request);
    if |plan| == 1 {
      CommitOne(enforce, s, plan[0]);
      assert plan == [plan[0]];
    } else if |plan| == 2 {
      CommitTwo(enforce, s, plan[0], plan[1]);
      assert plan == [plan[0], plan[1]];
    }
  }

  // ----- runs -----

  ghost function Next(s: State, request: Request): State {
    Apply(true, s, request).db
  }

  ghost function Run(s: State, requests: seq<Request>): State {
    if requests == [] then s
    else Next(Run(s, requests[..|requests| - 1]), requests[|requests| - 1])
  }

  /** Reached from the empty tables by some run of atomic requests. */
  ghost predicate Reachable(s: State) {
    exists requests :: Run(EMPTY, requests) == s
  }

  lemma ReachableStep(s: State, request: Request)
    requires Reachable(s)
    ensures Reachable(Next(s, request))
  {
    var requests :| Run(EMPTY, requests) == s;
    assert (requests + [request])[..|requests|] == requests;
    assert Run(EMPTY, requests + [request]) == Next(s, request);
  }

  lemma {:induction false} RunSplits(s: State, first: seq<Request>, second: seq<Request>)
    ensures Run(s, first + second) == Run(Run(s, first), second)
  {
    if second == [] {
      assert first + second == first;
    } else {
      var last := |second| - 1;
      assert (first + second)[..|first + second| - 1] == first + second[..last];
      RunSplits(s, first, second[..last]);
    }
  }

  lemma ReachableRun(s: State, requests: seq<Request>)
    requires Reachable(s)
    ensures Reachable(Run(s, requests))
  {
    var before :| Run(EMPTY, before) == s;
    RunSplits(EMPTY, before, requests);
  }
}
