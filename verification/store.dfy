/** The repositories and services as the program has them: objects whose methods run statement after
    statement over mutable tables. Every method is proved to do what the step functions say. */
module Store {
  import opened Models
  import opened Tables
  import opened Repositories
  import opened Services
  import opened SchemaKept
  import opened Lifecycle
  import Billing

  class Database {
    var cars: map<int, Car>
    var maintenances: map<int, Maintenance>
    var rentals: map<int, Rental>
    var payments: map<int, Payment>
    var invoices: map<int, Invoice>
    var nextRental: int
    var nextPayment: int
    var nextInvoice: int

    ghost function View(): State
      reads this
    {
      State(cars, maintenances, rentals, payments, invoices, nextRental, nextPayment, nextInvoice)
    }

    ghost predicate Valid()
      reads this
    {
      Schema(View())
    }

    constructor ()
      ensures Valid() && View() == EMPTY
    {
      cars, maintenances, rentals, payments, invoices := map[], map[], map[], map[], map[];
      nextRental, nextPayment, nextInvoice := 0, 0, 0;
    }

    // ----- rentals -----

    /** SELECT ... FROM rentals LEFT JOIN payments WHERE id = $1 */
    method FindRental(id: int) returns (row: Option<Rental>, payment: Option<PaymentStatus>)
      requires Valid()
      ensures row.Some? <==> id in rentals
      ensures row.Some? ==> row.value == rentals[id] && payment == PaymentStatusOf(payments, id)
    {
      row, payment := None, None;
      if id in rentals {
        row := Some(rentals[id]);
        if p :| p in payments && payments[p].rentalId == id {
          payment := Some(payments[p].status);
          PaymentIsUnique(payments, p);
        }
      }
    }

    method CreateWithAvailability(row: Rental) returns (outcome: Outcome)
      requires Valid()
      modifies this
      ensures Valid()
      ensures Reply(View(), outcome) == Repositories.CreateWithAvailability(true, old(View()), row)
    {
      InsertRentalKeepsSchema(true, View(), row);
      if row.carId !in cars {
        return Refused(NotFound);
      }
      var carStatus := cars[row.carId].status;
      if carStatus == UnderMaintenance || carStatus == Inactive {
        return Refused(CarUnavailable);
      }
      var hasOverlap := RentalOverlap(rentals, row.carId, row.startDate, row.endDate);
      if hasOverlap {
        return Refused(DoubleBooking);
      }
      hasOverlap := MaintenanceOverlap(maintenances, row.carId, row.startDate, row.endDate);
      if hasOverlap {
        return Refused(CarUnavailable);
      }
      if row.endDate < row.startDate {
        return Refused(InvalidDateSpan);
      }
      if ClashesWithOther(rentals, nextRental, row) {
        return Refused(DoubleBooking);
      }
      rentals := rentals[nextRental := row];
      nextRental := nextRental + 1;
      outcome := Done;
    }

    method UpdateRentalStatus(id: int, status: RentalStatus) returns (outcome: Outcome)
      requires Valid()
      modifies this
      ensures Valid()
      ensures Reply(View(), outcome) == Repositories.UpdateRentalStatus(true, old(View()), id, status)
    {
      StatusWriteKeepsSchema(true, View(), id, status);
      if id !in rentals {
        return Refused(NotFound);
      }
      var begin := rentals;
      rentals := rentals[id := rentals[id].(status := status)];
      OwnRowDoesNotClash(begin, id, rentals[id]);
      if ClashesWithOther(rentals, id, rentals[id]) {
        rentals := begin;
        return Refused(DoubleBooking);
      }
      if status == Cancelled || status == Rejected {
        invoices := VoidIssued(invoices, id);
      }
      outcome := Done;
    }

    method CancelRental(id: int) returns (outcome: Outcome)
      requires Valid()
      modifies this
      ensures Valid()
      ensures Reply(View(), outcome) == Repositories.CancelRental(old(View()), id)
    {
      StatusWriteKeepsSchema(false, View(), id, Cancelled);
      if id !in rentals {
        return Refused(NotFound);
      }
      rentals := rentals[id := rentals[id].(status := Cancelled)];
      invoices := VoidIssued(invoices, id);
      outcome := Done;
    }

    /** Runs the arms of the statement one after the other, each over the rows of the snapshot. */
    method SyncLifecycle(today: int) returns (counts: SyncCounts)
      requires Valid()
      modifies this
      ensures Valid()
      ensures View() == Repositories.SyncLifecycle(old(View()), today)
      ensures counts == CountsOf(old(View()), today)
    {
      ghost var snapshot := View();
      var expiredUnpaid := set i | i in rentals && Expired(rentals[i], today);
      var toActivate := set i | i in rentals && Activates(rentals[i], today);
      var toComplete := set i | i in rentals && Completes(rentals[i], today);
      assert expiredUnpaid == ExpiredIds(snapshot, today);
      assert toActivate == ActivatedIds(snapshot, today) && toComplete == CompletedIds(snapshot, today);
      var toFail, toVoid := PendingOf(payments, expiredUnpaid), IssuedOf(invoices, expiredUnpaid);
      DependentArms(snapshot, today);
      RentalArmsInOrder(snapshot, today);
      SyncKeepsSchema(snapshot, today);

      payments := FailChosen(payments, toFail);
      invoices := VoidChosen(invoices, toVoid);
      rentals := SetStatuses(rentals, expiredUnpaid, Cancelled);
      rentals := SetStatuses(rentals, toActivate, Active);
      rentals := SetStatuses(rentals, toComplete, Completed);
      counts := SyncCounts(|expiredUnpaid|, |toActivate|, |toComplete|, |toFail|, |toVoid|);
    }

    // ----- payments -----

    method CreateForRental(payment: Payment, expected: RentalStatus) returns (outcome: Outcome)
      requires Valid()
      modifies this
      ensures Valid()
      ensures Reply(View(), outcome) == Repositories.CreateForRental(old(View()), payment, expected)
    {
      CreateForRentalKeepsSchema(View(), payment, expected);
      if payment.rentalId !in rentals {
        return Refused(NotFound);
      }
      var currentStatus := rentals[payment.rentalId].status;
      if currentStatus != expected {
        return Refused(StatusChanged);
      }
      if HasPayment(payments, payment.rentalId) {
        return Refused(PaymentExists);
      }
      payments := payments[nextPayment := payment];
      nextPayment := nextPayment + 1;
      if currentStatus == Approved {
        rentals := rentals[payment.rentalId := rentals[payment.rentalId].(status := PendingPayment)];
      }
      outcome := Done;
    }

    method ConfirmPayment(id: int) returns (outcome: Outcome)
      requires Valid()
      modifies this
      ensures Valid()
      ensures Reply(View(), outcome) == Repositories.ConfirmPayment(old(View()), id)
    {
      ConfirmKeepsSchema(View(), id);
      if id !in payments || payments[id].status != Pending {
        return Refused(InvalidPayment);
      }
      var begin := payments;
      payments := payments[id := payments[id].(status := Paid)];
      var rentalId := payments[id].rentalId;
      if rentalId !in rentals || rentals[rentalId].status != PendingPayment {
        payments := begin;
        return Refused(InvalidPayment);
      }
      rentals := rentals[rentalId := rentals[rentalId].(status := Confirmed)];
      outcome := Done;
    }

    method FailPayment(id: int) returns (outcome: Outcome)
      requires Valid()
      modifies this
      ensures Valid()
      ensures Reply(View(), outcome) == Repositories.FailPayment(old(View()), id)
    {
      FailKeepsSchema(View(), id);
      if id !in payments || payments[id].status != Pending {
        return Refused(InvalidPayment);
      }
      payments := payments[id := payments[id].(status := Failed)];
      var rentalId := payments[id].rentalId;
      if rentalId in rentals {
        rentals := rentals[rentalId := rentals[rentalId].(status := Cancelled)];
      }
      invoices := VoidIssued(invoices, rentalId);
      outcome := Done;
    }

    method RefundPayment(id: int) returns (outcome: Outcome)
      requires Valid()
      modifies this
      ensures Valid()
      ensures Reply(View(), outcome) == Repositories.RefundPayment(old(View()), id)
    {
      RefundKeepsSchema(View(), id);
      if id !in payments || payments[id].status != Paid {
        return Refused(InvalidPayment);
      }
      payments := payments[id := payments[id].(status := Refunded)];
      var rentalId := payments[id].rentalId;
      if rentalId in rentals && rentals[rentalId].status != Completed {
        rentals := rentals[rentalId := rentals[rentalId].(status := Cancelled)];
      }
      invoices := map i | i in invoices ::
        if invoices[i].rentalId == rentalId && (invoices[i].status == Issued || invoices[i].status == Settled)
        then invoices[i].(status := Void) else invoices[i];
      assert invoices == VoidOpen(old(invoices), rentalId);
      outcome := Done;
    }

    // ----- invoices -----

    method FindInvoice(rentalId: int) returns (invoice: Option<Invoice>)
      ensures invoice.Some? <==> HasInvoice(invoices, rentalId)
      ensures invoice.Some? ==> exists i :: i in invoices && invoices[i] == invoice.value && invoice.value.rentalId == rentalId
    {
      invoice := None;
      if i :| i in invoices && invoices[i].rentalId == rentalId {
        invoice := Some(invoices[i]);
      }
    }

    method InsertInvoice(row: Invoice) returns (outcome: Outcome)
      requires Valid()
      modifies this
      ensures Valid()
      ensures Reply(View(), outcome) == Repositories.InsertInvoice(old(View()), row)
    {
      InsertInvoiceKeepsSchema(View(), row);
      if row.rentalId !in rentals {
        return Refused(NotFound);
      }
      if HasInvoice(invoices, row.rentalId) {
        return Refused(Conflict);
      }
      invoices := invoices[nextInvoice := row];
      nextInvoice := nextInvoice + 1;
      outcome := Done;
    }

    method MarkInvoicePaid(rentalId: int)
      requires Valid()
      modifies this
      ensures Valid()
      ensures View() == Repositories.MarkInvoicePaid(old(View()), rentalId)
    {
      MarkPaidKeepsSchema(View(), rentalId);
      invoices := map i | i in invoices ::
        if invoices[i].rentalId == rentalId && invoices[i].status == Issued then invoices[i].(status := Settled) else invoices[i];
    }
  }

  class RentalService {
    const db: Database

    constructor (db: Database)
      ensures this.db == db
    {
      this.db := db;
    }

    method Create(userId: int, carId: int, start: int, end: int, today: int, now: int) returns (outcome: Outcome)
      requires db.Valid()
      modifies db
      ensures db.Valid()
      ensures Reply(db.View(), outcome) == Apply(true, old(db.View()), Request.CreateRental(userId, carId, start, end, today, now))
    {
      if end < start {
        return Refused(InvalidDateSpan);
      }
      if start < today {
        return Refused(StartInPast);
      }
      if carId !in db.cars {
        return Refused(NotFound);
      }
      var car := db.cars[carId];
      if car.status == UnderMaintenance || car.status == Inactive {
        return Refused(CarUnavailable);
      }
      var available := !RentalOverlap(db.rentals, carId, start, end) && !MaintenanceOverlap(db.maintenances, carId, start, end);
      if !available {
        return Refused(DoubleBooking);
      }
      var total := Billing.BilledDays(start, end) * car.dailyRate;
      outcome := db.CreateWithAvailability(Rental(userId, carId, start, end, total, Requested, now));
    }

    method UpdateStatus(id: int, status: RentalStatus) returns (outcome: Outcome)
      requires db.Valid()
      modifies db
      ensures db.Valid()
      ensures Reply(db.View(), outcome) == Apply(true, old(db.View()), Request.UpdateStatus(id, status))
    {
      var row, payment := db.FindRental(id);
      if row == None {
        return Refused(NotFound);
      }
      var checked := ValidateStatusChange(row.value.status, payment, status);
      if checked != Done {
        return checked;
      }
      outcome := db.UpdateRentalStatus(id, status);
    }

    method Approve(id: int) returns (outcome: Outcome)
      requires db.Valid()
      modifies db
      ensures db.Valid()
      ensures Reply(db.View(), outcome) == Apply(true, old(db.View()), Request.Approve(id))
    {
      var row, payment := db.FindRental(id);
      if row == None {
        return Refused(NotFound);
      }
      if row.value.status != Requested {
        return Refused(InvalidTransition);
      }
      var open := EnsureNoOpenPayment(payment);
      if open != Done {
        return open;
      }
      outcome := db.UpdateRentalStatus(id, Approved);
    }

    method Reject(id: int) returns (outcome: Outcome)
      requires db.Valid()
      modifies db
      ensures db.Valid()
      ensures Reply(db.View(), outcome) == Apply(true, old(db.View()), Request.Reject(id))
    {
      var row, payment := db.FindRental(id);
      if row == None {
        return Refused(NotFound);
      }
      if row.value.status != Requested && row.value.status != Approved {
        return Refused(InvalidTransition);
      }
      var open := EnsureNoOpenPayment(payment);
      if open != Done {
        return open;
      }
      outcome := db.UpdateRentalStatus(id, Rejected);
    }

    method Cancel(actor: Actor, id: int, today: int) returns (outcome: Outcome)
      requires db.Valid()
      modifies db
      ensures db.Valid()
      ensures Reply(db.View(), outcome) == Apply(true, old(db.View()), Request.Cancel(actor, id, today))
    {
      var row, payment := db.FindRental(id);
      if row == None {
        return Refused(NotFound);
      }
      if row.value.userId != actor.userId && !actor.admin {
        return Refused(Forbidden);
      }
      if row.value.status == Cancelled {
        return Refused(AlreadyCancelled);
      }
      if row.value.status == Completed {
        return Refused(InvalidTransition);
      }
      var open := EnsureNoOpenPayment(payment);
      if open != Done {
        return open;
      }
      if row.value.status == Confirmed {
        if !(row.value.startDate > today) {
          return Refused(PickupDatePassed);
        }
      }
      outcome := db.CancelRental(id);
    }

    method SyncLifecycle(today: int) returns (counts: SyncCounts)
      requires db.Valid()
      modifies db
      ensures db.Valid()
      ensures db.View() == Next(old(db.View()), Request.Sync(today))
      ensures counts == CountsOf(old(db.View()), today)
    {
      counts := db.SyncLifecycle(today);
    }
  }

  class PaymentService {
    const db: Database

    constructor (db: Database)
      ensures this.db == db
    {
      this.db := db;
    }

    method Create(actor: Actor, rentalId: int, payMethod: PaymentMethod) returns (outcome: Outcome)
      requires db.Valid()
      modifies db
      ensures db.Valid()
      ensures Reply(db.View(), outcome) == Apply(true, old(db.View()), Request.CreatePayment(actor, rentalId, payMethod))
    {
      var row, _ := db.FindRental(rentalId);
      if row == None {
        return Refused(NotFound);
      }
      var rental := row.value;
      if rental.userId != actor.userId && !actor.admin {
        return Refused(Forbidden);
      }
      if rental.status != PendingPayment && rental.status != Approved {
        return Refused(InvalidTransition);
      }
      if HasPayment(db.payments, rentalId) {
        return Refused(PaymentExists);
      }
      outcome := db.CreateForRental(Payment(rentalId, rental.total, payMethod, Pending), rental.status);
    }
  }

  class InvoiceService {
    const db: Database

    constructor (db: Database)
      ensures this.db == db
    {
      this.db := db;
    }

    /** Answers the invoice of the rental, which is the one row the table has for it afterwards. */
    method GetOrCreate(actor: Actor, rentalId: int) returns (outcome: Outcome, invoice: Option<Invoice>)
      requires db.Valid()
      modifies db
      ensures db.Valid()
      ensures Reply(db.View(), outcome) == Apply(true, old(db.View()), Request.GetInvoice(actor, rentalId))
      ensures invoice.Some? <==> outcome == Done
      ensures outcome == Done ==> exists i :: i in db.invoices && db.invoices[i] == invoice.value && invoice.value.rentalId == rentalId
    {
      invoice := None;
      var row, payment := db.FindRental(rentalId);
      if row == None {
        return Refused(NotFound), None;
      }
      if row.value.userId != actor.userId && !actor.admin {
        return Refused(Forbidden), None;
      }
      invoice := db.FindInvoice(rentalId);
      if invoice.Some? {
        return Done, invoice;
      }
      var created := Invoice(rentalId, row.value.total, Issued);
      if payment == Some(Paid) {
        created := created.(status := Settled);
      }
      ghost var id := db.nextInvoice;
      outcome := db.InsertInvoice(created);
      if outcome == Done {
        invoice := Some(created);
        assert db.invoices[id] == created;
      }
    }
  }

  class PaymentHandler {
    const db: Database

    constructor (db: Database)
      ensures this.db == db
    {
      this.db := db;
    }

    /** Confirms the payment and then marks the invoice; whether the second statement reached the
        database is not looked at. */
    method Confirm(id: int, markReached: bool) returns (outcome: Outcome)
      requires db.Valid()
      modifies db
      ensures db.Valid()
      ensures Reply(db.View(), outcome) == Apply(true, old(db.View()), Request.Confirm(id, markReached))
    {
      if id !in db.payments {
        return Refused(NotFound);
      }
      var payment := db.payments[id];
      outcome := db.ConfirmPayment(id);
      if outcome != Done {
        return;
      }
      if markReached {
        db.MarkInvoicePaid(payment.rentalId);
      }
    }

    method Fail(id: int) returns (outcome: Outcome)
      requires db.Valid()
      modifies db
      ensures db.Valid()
      ensures Reply(db.View(), outcome) == Apply(true, old(db.View()), Request.Fail(id))
    {
      if id !in db.payments {
        return Refused(NotFound);
      }
      outcome := db.FailPayment(id);
    }

    method Refund(id: int) returns (outcome: Outcome)
      requires db.Valid()
      modifies db
      ensures db.Valid()
      ensures Reply(db.View(), outcome) == Apply(true, old(db.View()), Request.Refund(id))
    {
      if id !in db.payments {
        return Refused(NotFound);
      }
      outcome := db.RefundPayment(id);
    }
  }
}
