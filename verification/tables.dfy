/** The database as a value: one map per table, and the constraints of the migrations. */
module Tables {
  import opened Models

  datatype State = State(
    cars: map<int, Car>,
    maintenances: map<int, Maintenance>,
    rentals: map<int, Rental>,
    payments: map<int, Payment>,
    invoices: map<int, Invoice>,
    nextRental: int,
    nextPayment: int,
    nextInvoice: int)

  const EMPTY := State(map[], map[], map[], map[], map[], 0, 0, 0)

  // ----- constraints -----

  /** Two rows that the exclusion constraint on rentals does not allow together. */
  predicate Clash(a: Rental, b: Rental) {
    && Blocking(a.status) && Blocking(b.status)
    && a.carId == b.carId
    && Overlap(a.startDate, a.endDate, b.startDate, b.endDate)
  }

  /** rentals_no_double_booking */
  ghost predicate NoDoubleBooking(rentals: map<int, Rental>) {
    forall i, j :: i in rentals && j in rentals && i != j ==> !Clash(rentals[i], rentals[j])
  }

  /** The row clashes with some row other than `id`. */
  predicate ClashesWithOther(rentals: map<int, Rental>, id: int, row: Rental) {
    exists other :: other in rentals && other != id && Clash(row, rentals[other])
  }

  /** A row never clashes with itself, so the check may run before or after the row is written. */
  lemma OwnRowDoesNotClash(rentals: map<int, Rental>, id: int, row: Rental)
    ensures ClashesWithOther(rentals[id := row], id, row) <==> ClashesWithOther(rentals, id, row)
  {
    if ClashesWithOther(rentals, id, row) {
      var other :| other in rentals && other != id && Clash(row, rentals[other]);
      assert Clash(row, rentals[id := row][other]);
    }
  }

  /** Two rows that the exclusion constraint on car_maintenances does not allow together. */
  predicate RecordsClash(a: Maintenance, b: Maintenance) {
    && ActiveMaintenance(a.status) && ActiveMaintenance(b.status)
    && a.carId == b.carId
    && Overlap(a.startDate, a.endDate, b.startDate, b.endDate)
  }

  /** The row clashes with some row other than `id`. */
  predicate MaintenanceClash(table: map<int, Maintenance>, id: int, row: Maintenance) {
    exists other :: other in table && other != id && RecordsClash(row, table[other])
  }

  /** UNIQUE (rental_id) on payments */
  ghost predicate UniquePayments(payments: map<int, Payment>) {
    forall i, j :: i in payments && j in payments && payments[i].rentalId == payments[j].rentalId ==> i == j
  }

  /** UNIQUE (rental_id) on invoices */
  ghost predicate UniqueInvoices(invoices: map<int, Invoice>) {
    forall i, j :: i in invoices && j in invoices && invoices[i].rentalId == invoices[j].rentalId ==> i == j
  }

  /** The date checks of rentals and car_maintenances. */
  ghost predicate DatesOrdered(s: State) {
    && (forall i :: i in s.rentals ==> s.rentals[i].startDate <= s.rentals[i].endDate)
    && (forall i :: i in s.maintenances ==> s.maintenances[i].startDate <= s.maintenances[i].endDate)
  }

  /** The foreign keys. */
  ghost predicate References(s: State) {
    && (forall i :: i in s.rentals ==> s.rentals[i].carId in s.cars)
    && (forall i :: i in s.payments ==> s.payments[i].rentalId in s.rentals)
    && (forall i :: i in s.invoices ==> s.invoices[i].rentalId in s.rentals)
  }

  /** The sequences only hand out ids that no row has. */
  ghost predicate FreshIds(s: State) {
    && (forall i :: i in s.rentals ==> i < s.nextRental)
    && (forall i :: i in s.payments ==> i < s.nextPayment)
    && (forall i :: i in s.invoices ==> i < s.nextInvoice)
  }

  /** Everything the schema enforces, apart from the exclusion constraint on rentals. */
  ghost predicate Schema(s: State) {
    && UniquePayments(s.payments)
    && UniqueInvoices(s.invoices)
    && DatesOrdered(s)
    && References(s)
    && FreshIds(s)
  }

  // ----- the payment of a rental (LEFT JOIN payments ON rental_id) -----

  predicate HasPayment(payments: map<int, Payment>, rentalId: int) {
    exists id :: id in payments && payments[id].rentalId == rentalId
  }

  ghost function PaymentIdOf(payments: map<int, Payment>, rentalId: int): (id: int)
    requires HasPayment(payments, rentalId)
    ensures id in payments && payments[id].rentalId == rentalId
  {
    var id :| id in payments && payments[id].rentalId == rentalId;
    id
  }

  ghost function PaymentOf(payments: map<int, Payment>, rentalId: int): Option<Payment> {
    if HasPayment(payments, rentalId) then Some(payments[PaymentIdOf(payments, rentalId)]) else None
  }

  ghost function PaymentStatusOf(payments: map<int, Payment>, rentalId: int): Option<PaymentStatus> {
    match PaymentOf(payments, rentalId)
    case None => None
    case Some(p) => Some(p.status)
  }

  /** Under the UNIQUE constraint any payment of the rental is the payment of the rental. */
  lemma PaymentIsUnique(payments: map<int, Payment>, id: int)
    requires UniquePayments(payments) && id in payments
    ensures PaymentOf(payments, payments[id].rentalId) == Some(payments[id])
    ensures PaymentStatusOf(payments, payments[id].rentalId) == Some(payments[id].status)
  {
    assert HasPayment(payments, payments[id].rentalId);
  }

  /** Updating one payment row changes what its own rental sees and nothing else. */
  lemma UpdatedPayment(payments: map<int, Payment>, id: int, row: Payment)
    requires UniquePayments(payments) && id in payments && row.rentalId == payments[id].rentalId
    ensures UniquePayments(payments[id := row])
    ensures forall r :: PaymentOf(payments[id := row], r) == if r == row.rentalId then Some(row) else PaymentOf(payments, r)
  {
    var after := payments[id := row];
    forall r
      ensures PaymentOf(after, r) == if r == row.rentalId then Some(row) else PaymentOf(payments, r)
    {
      if r == row.rentalId {
        PaymentIsUnique(after, id);
      } else if HasPayment(payments, r) {
        var k := PaymentIdOf(payments, r);
        assert after[k] == payments[k];
        PaymentIsUnique(after, k);
      } else {
        assert !HasPayment(after, r);
      }
    }
  }

  /** Inserting a payment for a rental that has none. */
  lemma InsertedPayment(payments: map<int, Payment>, id: int, row: Payment)
    requires UniquePayments(payments) && id !in payments && !HasPayment(payments, row.rentalId)
    ensures UniquePayments(payments[id := row])
    ensures forall r :: PaymentOf(payments[id := row], r) == if r == row.rentalId then Some(row) else PaymentOf(payments, r)
  {
    var after := payments[id := row];
    forall r
      ensures PaymentOf(after, r) == if r == row.rentalId then Some(row) else PaymentOf(payments, r)
    {
      if r == row.rentalId {
        PaymentIsUnique(after, id);
      } else if HasPayment(payments, r) {
        var k := PaymentIdOf(payments, r);
        assert after[k] == payments[k];
        PaymentIsUnique(after, k);
      } else {
        assert !HasPayment(after, r);
      }
    }
  }

  /** A bulk update that keeps every row's rental: each rental sees its own row's new value. */
  lemma MappedPayments(payments: map<int, Payment>, after: map<int, Payment>)
    requires UniquePayments(payments) && after.Keys == payments.Keys
    requires forall i :: i in payments ==> after[i].rentalId == payments[i].rentalId
    ensures UniquePayments(after)
    ensures forall r :: HasPayment(after, r) <==> HasPayment(payments, r)
    ensures forall i :: i in payments ==>
      PaymentOf(payments, payments[i].rentalId) == Some(payments[i]) && PaymentOf(after, payments[i].rentalId) == Some(after[i])
  {
    forall r
      ensures HasPayment(after, r) <==> HasPayment(payments, r)
    {
      if HasPayment(payments, r) {
        var k := PaymentIdOf(payments, r);
        assert after[k].rentalId == r;
      }
      if HasPayment(after, r) {
        var k := PaymentIdOf(after, r);
        assert payments[k].rentalId == r;
      }
    }
    forall i | i in payments
      ensures PaymentOf(payments, payments[i].rentalId) == Some(payments[i])
      ensures PaymentOf(after, payments[i].rentalId) == Some(after[i])
    {
      PaymentIsUnique(payments, i);
      PaymentIsUnique(after, i);
    }
  }
}
