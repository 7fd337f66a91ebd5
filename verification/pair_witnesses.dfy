/** Every pair of the table is reached by some run, so the table is exact. */
module PairWitnesses {
  import opened Models
  import opened Tables
  import opened Services
  import opened PairTable
  import Billing

  const ADMIN := Actor(0, true)

  /** One car, one rental of one day, perhaps its payment. */
  function One(rental: RentalStatus, payment: Pay): State {
    State(
      map[0 := Car(100, Available)],
      map[],
      map[0 := Rental(0, 0, 0, 0, 100, rental, 0)],
      match payment case None => map[] case Some(p) => map[0 := Payment(0, 100, Cash, p)],
      map[],
      1,
      if payment == None then 0 else 1,
      0)
  }

  lemma OnePayment(rental: RentalStatus, payment: Pay)
    ensures PaymentStatusOf(One(rental, payment).payments, 0) == payment
    ensures HasPayment(One(rental, payment).payments, 0) <==> payment != None
  {
    if payment.Some? {
      assert 0 in One(rental, payment).payments;
      PaymentIsUnique(One(rental, payment).payments, 0);
    }
  }

  lemma RequestedIsReached()
    ensures Reachable(One(Requested, None))
  {
    var cars := map[0 := Car(100, Available)];
    var fleet := EMPTY.(cars := cars);
    assert Run(EMPTY, []) == EMPTY;
    assert Reachable(EMPTY);
    ReachableStep(EMPTY, Fleet(cars, map[]));
    assert Next(EMPTY, Fleet(cars, map[])) == fleet;
    ReachableStep(fleet, CreateRental(0, 0, 0, 0, 0, 0));
    Billing.BilledDaysCountTheRange(0, 0);
    assert Next(fleet, CreateRental(0, 0, 0, 0, 0, 0)) == One(Requested, None);
  }

  lemma StatusStep(rental: RentalStatus, payment: Pay, next: RentalStatus)
    requires ValidateStatusChange(rental, payment, next) == Done
    requires Reachable(One(rental, payment))
    ensures Reachable(One(next, payment))
  {
    OnePayment(rental, payment);
    ReachableStep(One(rental, payment), UpdateStatus(0, next));
    assert Next(One(rental, payment), UpdateStatus(0, next)) == One(next, payment);
  }

  lemma PaymentStep()
    requires Reachable(One(Approved, None))
    ensures Reachable(One(PendingPayment, Some(Pending)))
  {
    OnePayment(Approved, None);
    ReachableStep(One(Approved, None), CreatePayment(ADMIN, 0, Cash));
    assert Next(One(Approved, None), CreatePayment(ADMIN, 0, Cash)) == One(PendingPayment, Some(Pending));
  }

  lemma ResolveStep()
    requires Reachable(One(PendingPayment, Some(Pending)))
    ensures Reachable(One(Confirmed, Some(Paid)))
    ensures Reachable(One(Cancelled, Some(Failed)))
  {
    var s := One(PendingPayment, Some(Pending));
    ReachableStep(s, Confirm(0, true));
    assert Next(s, Confirm(0, true)) == One(Confirmed, Some(Paid));
    ReachableStep(s, Fail(0));
    assert Next(s, Fail(0)) == One(Cancelled, Some(Failed));
  }

  lemma RefundStep(rental: RentalStatus)
    requires Reachable(One(rental, Some(Paid)))
    ensures Reachable(One(if rental.Completed? then Completed else Cancelled, Some(Refunded)))
  {
    var s := One(rental, Some(Paid));
    ReachableStep(s, Refund(0));
    assert Next(s, Refund(0)) == One(if rental.Completed? then Completed else Cancelled, Some(Refunded));
  }

  lemma UnpaidPairsAreReached()
    ensures Reachable(One(Requested, None)) && Reachable(One(Approved, None))
    ensures Reachable(One(Rejected, None)) && Reachable(One(Cancelled, None))
  {
    RequestedIsReached();
    StatusStep(Requested, None, Approved);
    StatusStep(Requested, None, Rejected);
    StatusStep(Requested, None, Cancelled);
  }

  lemma PaidPairsAreReached()
    ensures Reachable(One(PendingPayment, Some(Pending))) && Reachable(One(Cancelled, Some(Failed)))
    ensures Reachable(One(Confirmed, Some(Paid))) && Reachable(One(Active, Some(Paid))) && Reachable(One(Completed, Some(Paid)))
  {
    UnpaidPairsAreReached();
    PaymentStep();
    ResolveStep();
    StatusStep(Confirmed, Some(Paid), Active);
    StatusStep(Active, Some(Paid), Completed);
  }

  lemma ClosedPairsAreReached()
    ensures Reachable(One(Completed, Some(Refunded))) && Reachable(One(Cancelled, Some(Refunded)))
    ensures Reachable(One(Approved, Some(Refunded))) && Reachable(One(Rejected, Some(Refunded)))
    ensures Reachable(One(Approved, Some(Failed))) && Reachable(One(Rejected, Some(Failed)))
  {
    PaidPairsAreReached();
    RefundStep(Completed);
    RefundStep(Confirmed);
    StatusStep(Cancelled, Some(Refunded), Approved);
    StatusStep(Approved, Some(Refunded), Rejected);
    StatusStep(Cancelled, Some(Failed), Approved);
    StatusStep(Approved, Some(Failed), Rejected);
  }

  lemma EveryPairIsReached(rental: RentalStatus, payment: Pay)
    requires PairOk(rental, payment)
    ensures Reachable(One(rental, payment))
  {
    UnpaidPairsAreReached();
    PaidPairsAreReached();
    ClosedPairsAreReached();
  }

  /** The pair is seen in some reachable state. */
  ghost predicate Seen(rental: RentalStatus, payment: Pay) {
    exists s: State, id: int ::
      Reachable(s) && id in s.rentals && s.rentals[id].status == rental && PaymentStatusOf(s.payments, id) == payment
  }

  /** The reachable (rental status, payment status) pairs are exactly the table. */
  lemma ReachablePairsAreTheTable(rental: RentalStatus, payment: Pay)
    ensures Seen(rental, payment) <==> PairOk(rental, payment)
  {
    if PairOk(rental, payment) {
      EveryPairIsReached(rental, payment);
      OnePayment(rental, payment);
      var s := One(rental, payment);
      assert Reachable(s) && 0 in s.rentals && s.rentals[0].status == rental && PaymentStatusOf(s.payments, 0) == payment;
    }
    if Seen(rental, payment) {
      var s: State, id: int :|
        Reachable(s) && id in s.rentals && s.rentals[id].status == rental && PaymentStatusOf(s.payments, id) == payment;
      ReachableIsCoupled(s);
    }
  }
}
