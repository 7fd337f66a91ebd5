/** The rows of the booking tables and the errors that requests answer with.
    Dates are day numbers, timestamps are integers, money is in cents. */
module Models {
  datatype Option<+T> = None | Some(value: T)

  datatype RentalStatus =
    Requested | Approved | Rejected | PendingPayment | Confirmed | Active | Cancelled | Completed

  datatype PaymentStatus = Pending | Paid | Failed | Refunded

  datatype PaymentMethod = Cash | Card | BankTransfer

  datatype InvoiceStatus = Issued | Settled | Void

  datatype CarStatus = Available | Rented | UnderMaintenance | Inactive

  datatype MaintenanceStatus = Scheduled | InProgress | Finished | Dropped

  datatype Car = Car(dailyRate: nat, status: CarStatus)

  datatype Maintenance = Maintenance(carId: int, startDate: int, endDate: int, status: MaintenanceStatus)

  datatype Rental = Rental(userId: int, carId: int, startDate: int, endDate: int,
                           total: int, status: RentalStatus, createdAt: int)

  datatype Payment = Payment(rentalId: int, amount: int, payMethod: PaymentMethod, status: PaymentStatus)

  datatype Invoice = Invoice(rentalId: int, amount: int, status: InvoiceStatus)

  /** Who sends a request: the user id and whether the role is admin or super admin. */
  datatype Actor = Actor(userId: int, admin: bool)

  datatype Error =
    | NotFound
    | Forbidden
    | InvalidDateSpan
    | StartInPast
    | CarUnavailable
    | DoubleBooking
    | InvalidTransition
    | OpenPayment
    | InvalidPayment
    | PaymentExists
    | StatusChanged
    | AlreadyCancelled
    | PickupDatePassed
    | Conflict

  datatype Outcome = Done | Refused(error: Error)

  /** The statuses in which a rental keeps its car from other rentals. */
  predicate Blocking(status: RentalStatus) {
    status.Requested? || status.Approved? || status.PendingPayment? || status.Confirmed? || status.Active?
  }

  predicate ActiveMaintenance(status: MaintenanceStatus) {
    status.Scheduled? || status.InProgress?
  }

  /** The interval test of every availability query: both ranges include their end days. */
  predicate Overlap(start: int, end: int, otherStart: int, otherEnd: int) {
    start <= otherEnd && otherStart <= end
  }

  /** The range contains the day. */
  predicate Covers(start: int, end: int, day: int) {
    start <= day <= end
  }

  /** Two proper ranges overlap exactly when some day lies in both. */
  lemma OverlapSharesADay(start: int, end: int, otherStart: int, otherEnd: int)
    requires start <= end && otherStart <= otherEnd
    ensures Overlap(start, end, otherStart, otherEnd)
       <==> exists day :: Covers(start, end, day) && Covers(otherStart, otherEnd, day)
  {
    if Overlap(start, end, otherStart, otherEnd) {
      var day := if start < otherStart then otherStart else start;
      assert Covers(start, end, day) && Covers(otherStart, otherEnd, day);
    }
  }

  lemma SomeMember(s: set<int>)
    requires s != {}
    ensures exists x :: x in s
  {
    assert (forall x: int :: x !in s) ==> s == {};
  }
}
