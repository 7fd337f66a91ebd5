/** What each repository transaction does to the tables: it either commits as one step or leaves
    them as they were. `enforce` says whether the database has the exclusion constraint on rentals;
    the migrations install it, and switching it off shows which steps rely on it. */
module Repositories {
  import opened Models
  import opened Tables

  datatype Reply = Reply(db: State, outcome: Outcome)

  // ----- rentals -----

  /** The INSERT of CreateWithAvailability. */
  function InsertRental(enforce: bool, s: State, row: Rental): Reply {
    if row.carId !in s.cars then Reply(s, Refused(NotFound))
    else if row.endDate < row.startDate then Reply(s, Refused(InvalidDateSpan))
    else if enforce && ClashesWithOther(s.rentals, s.nextRental, row) then Reply(s, Refused(DoubleBooking))
    else Reply(s.(rentals := s.rentals[s.nextRental := row], nextRental := s.nextRental + 1), Done)
  }

  predicate Rentable(status: CarStatus) {
    !status.UnderMaintenance? && !status.Inactive?
  }

  predicate RentalOverlap(rentals: map<int, Rental>, carId: int, start: int, end: int) {
    exists i :: i in rentals && rentals[i].carId == carId && Blocking(rentals[i].status)
      && rentals[i].startDate <= end && rentals[i].endDate >= start
  }

  predicate MaintenanceOverlap(table: map<int, Maintenance>, carId: int, start: int, end: int) {
    exists i :: i in table && table[i].carId == carId && ActiveMaintenance(table[i].status)
      && table[i].startDate <= end && table[i].endDate >= start
  }

  /** CarRepository.IsAvailable */
  predicate IsAvailable(s: State, carId: int, start: int, end: int) {
    !RentalOverlap(s.rentals, carId, start, end) && !MaintenanceOverlap(s.maintenances, carId, start, end)
  }

  function CreateWithAvailability(enforce: bool, s: State, row: Rental): Reply {
    if row.carId !in s.cars then Reply(s, Refused(NotFound))
    else if !Rentable(s.cars[row.carId].status) then Reply(s, Refused(CarUnavailable))
    else if RentalOverlap(s.rentals, row.carId, row.startDate, row.endDate) then Reply(s, Refused(DoubleBooking))
    else if MaintenanceOverlap(s.maintenances, row.carId, row.startDate, row.endDate) then Reply(s, Refused(CarUnavailable))
    else InsertRental(enforce, s, row)
  }

  /** The issued invoices of one rental become void. */
  function VoidIssued(invoices: map<int, Invoice>, rentalId: int): map<int, Invoice> {
    map i | i in invoices ::
      if invoices[i].rentalId == rentalId && invoices[i].status.Issued? then invoices[i].(status := Void) else invoices[i]
  }

  function UpdateRentalStatus(enforce: bool, s: State, id: int, status: RentalStatus): Reply {
    if id !in s.rentals then Reply(s, Refused(NotFound))
    else
      var row := s.rentals[id].(status := status);
      if enforce && ClashesWithOther(s.rentals, id, row) then Reply(s, Refused(DoubleBooking))
      else
        var invoices := if status.Cancelled? || status.Rejected? then VoidIssued(s.invoices, id) else s.invoices;
        Reply(s.(rentals := s.rentals[id := row], invoices := invoices), Done)
  }

  function CancelRental(s: State, id: int): Reply {
    UpdateRentalStatus(false, s, id, Cancelled)
  }

  // ----- the lifecycle statement -----

  datatype SyncCounts = SyncCounts(cancelled: nat, activated: nat, completed: nat, failedPayments: nat, voidedInvoices: nat)

  /** expired_unpaid */
  predicate Expired(row: Rental, today: int) {
    (row.status.Requested? || row.status.Approved? || row.status.PendingPayment?) && row.endDate < today
  }

  predicate Activates(row: Rental, today: int) {
    row.status.Confirmed? && row.startDate <= today && row.endDate >= today
  }

  predicate Completes(row: Rental, today: int) {
    (row.status.Confirmed? || row.status.Active?) && row.endDate < today
  }

  predicate FailsPayment(s: State, payment: Payment, today: int) {
    payment.status.Pending? && payment.rentalId in s.rentals && Expired(s.rentals[payment.rentalId], today)
  }

  predicate VoidsInvoice(s: State, invoice: Invoice, today: int) {
    invoice.status.Issued? && invoice.rentalId in s.rentals && Expired(s.rentals[invoice.rentalId], today)
  }

  function SyncedRental(row: Rental, today: int): Rental {
    if Expired(row, today) then row.(status := Cancelled)
    else if Activates(row, today) then row.(status := Active)
    else if Completes(row, today) then row.(status := Completed)
    else row
  }

  function SyncLifecycle(s: State, today: int): State {
    s.(
      rentals := map i | i in s.rentals :: SyncedRental(s.rentals[i], today),
      payments := map i | i in s.payments ::
        if FailsPayment(s, s.payments[i], today) then s.payments[i].(status := Failed) else s.payments[i],
      invoices := map i | i in s.invoices ::
        if VoidsInvoice(s, s.invoices[i], today) then s.invoices[i].(status := Void) else s.invoices[i])
  }

  function ExpiredIds(s: State, today: int): set<int> {
    set i | i in s.rentals && Expired(s.rentals[i], today)
  }

  function ActivatedIds(s: State, today: int): set<int> {
    set i | i in s.rentals && Activates(s.rentals[i], today)
  }

  function CompletedIds(s: State, today: int): set<int> {
    set i | i in s.rentals && Completes(s.rentals[i], today)
  }

  function FailedIds(s: State, today: int): set<int> {
    set i | i in s.payments && FailsPayment(s, s.payments[i], today)
  }

  function VoidedIds(s: State, today: int): set<int> {
    set i | i in s.invoices && VoidsInvoice(s, s.invoices[i], today)
  }

  function CountsOf(s: State, today: int): SyncCounts {
    SyncCounts(|ExpiredIds(s, today)|, |ActivatedIds(s, today)|, |CompletedIds(s, today)|, |FailedIds(s, today)|, |VoidedIds(s, today)|)
  }

  // ----- payments -----

  function CreateForRental(s: State, payment: Payment, expected: RentalStatus): Reply {
    if payment.rentalId !in s.rentals then Reply(s, Refused(NotFound))
    else
      var rental := s.rentals[payment.rentalId];
      if rental.status != expected then Reply(s, Refused(StatusChanged))
      else if HasPayment(s.payments, payment.rentalId) then Reply(s, Refused(PaymentExists))
      else
        var rentals := if rental.status.Approved? then s.rentals[payment.rentalId := rental.(status := PendingPayment)] else s.rentals;
        Reply(s.(rentals := rentals, payments := s.payments[s.nextPayment := payment], nextPayment := s.nextPayment + 1), Done)
  }

  function ConfirmPayment(s: State, id: int): Reply {
    if id !in s.payments || !s.payments[id].status.Pending? then Reply(s, Refused(InvalidPayment))
    else
      var rentalId := s.payments[id].rentalId;
      if rentalId !in s.rentals || !s.rentals[rentalId].status.PendingPayment? then
        // zero rows affected: the transaction rolls back
        Reply(s, Refused(InvalidPayment))
      else
        Reply(s.(payments := s.payments[id := s.payments[id].(status := Paid)],
                 rentals := s.rentals[rentalId := s.rentals[rentalId].(status := Confirmed)]), Done)
  }

  function FailPayment(s: State, id: int): Reply {
    if id !in s.payments || !s.payments[id].status.Pending? then Reply(s, Refused(InvalidPayment))
    else
      var rentalId := s.payments[id].rentalId;
      var rentals := if rentalId in s.rentals then s.rentals[rentalId := s.rentals[rentalId].(status := Cancelled)] else s.rentals;
      Reply(s.(payments := s.payments[id := s.payments[id].(status := Failed)],
               rentals := rentals,
               invoices := VoidIssued(s.invoices, rentalId)), Done)
  }

  /** The open invoices of one rental, issued or settled, become void. */
  function VoidOpen(invoices: map<int, Invoice>, rentalId: int): map<int, Invoice> {
    map i | i in invoices :: if invoices[i].rentalId == rentalId then invoices[i].(status := Void) else invoices[i]
  }

  function RefundPayment(s: State, id: int): Reply {
    if id !in s.payments || !s.payments[id].status.Paid? then Reply(s, Refused(InvalidPayment))
    else
      var rentalId := s.payments[id].rentalId;
      var rentals :=
        if rentalId in s.rentals && !s.rentals[rentalId].status.Completed?
        then s.rentals[rentalId := s.rentals[rentalId].(status := Cancelled)]
        else s.rentals;
      Reply(s.(payments := s.payments[id := s.payments[id].(status := Refunded)],
               rentals := rentals,
               invoices := VoidOpen(s.invoices, rentalId)), Done)
  }

  // ----- invoices -----

  predicate HasInvoice(invoices: map<int, Invoice>, rentalId: int) {
    exists id :: id in invoices && invoices[id].rentalId == rentalId
  }

  function InsertInvoice(s: State, row: Invoice): Reply {
    if row.rentalId !in s.rentals then Reply(s, Refused(NotFound))
    else if HasInvoice(s.invoices, row.rentalId) then Reply(s, Refused(Conflict))
    else Reply(s.(invoices := s.invoices[s.nextInvoice := row], nextInvoice := s.nextInvoice + 1), Done)
  }

  function MarkInvoicePaid(s: State, rentalId: int): State {
    s.(invoices := map i | i in s.invoices ::
         if s.invoices[i].rentalId == rentalId && s.invoices[i].status.Issued? then s.invoices[i].(status := Settled) else s.invoices[i])
  }

  // ----- cars and maintenance records -----

  /** Administrators change cars and maintenance records in any way the schema allows: a car that a
      rental refers to stays, and maintenance dates are ordered. */
  function ReplaceFleet(s: State, cars: map<int, Car>, maintenances: map<int, Maintenance>): Reply {
    if (forall i :: i in s.rentals ==> s.rentals[i].carId in cars)
       && (forall i :: i in maintenances ==> maintenances[i].startDate <= maintenances[i].endDate)
    then Reply(s.(cars := cars, maintenances := maintenances), Done)
    else Reply(s, Refused(Conflict))
  }

  // ----- every change of the booking tables is one of these transactions -----

  datatype Tx =
    | RentalTx(row: Rental)
    | StatusTx(id: int, status: RentalStatus)
    | PaymentTx(payment: Payment, expected: RentalStatus)
    | ConfirmTx(id: int)
    | FailTx(id: int)
    | RefundTx(id: int)
    | InvoiceTx(invoice: Invoice)
    | MarkPaidTx(rentalId: int)
    | SyncTx(today: int)
    | FleetTx(cars: map<int, Car>, maintenances: map<int, Maintenance>)

  function Commit(enforce: bool, s: State, tx: Tx): Reply {
    match tx
    case RentalTx(row) => InsertRental(enforce, s, row)
    case StatusTx(id, status) => UpdateRentalStatus(enforce, s, id, status)
    case PaymentTx(payment, expected) => CreateForRental(s, payment, expected)
    case ConfirmTx(id) => ConfirmPayment(s, id)
    case FailTx(id) => FailPayment(s, id)
    case RefundTx(id) => RefundPayment(s, id)
    case InvoiceTx(invoice) => InsertInvoice(s, invoice)
    case MarkPaidTx(rentalId) => Reply(MarkInvoicePaid(s, rentalId), Done)
    case SyncTx(today) => Reply(SyncLifecycle(s, today), Done)
    case FleetTx(cars, maintenances) => ReplaceFleet(s, cars, maintenances)
  }

  function CommitAll(enforce: bool, s: State, txs: seq<Tx>): State {
    if txs == [] then s else Commit(enforce, CommitAll(enforce, s, txs[..|txs| - 1]), txs[|txs| - 1]).db
  }
}
