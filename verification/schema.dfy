/** Every request keeps what the schema enforces. */
module SchemaKept {
  import opened Models
  import opened Tables
  import opened Repositories
  import opened Services

  lemma StatusWriteKeepsSchema(enforce: bool, s: State, id: int, status: RentalStatus)
    requires Schema(s)
    ensures Schema(UpdateRentalStatus(enforce, s, id, status).db)
  {
  }

  lemma InsertRentalKeepsSchema(enforce: bool, s: State, row: Rental)
    requires Schema(s)
    ensures Schema(InsertRental(enforce, s, row).db)
  {
  }

  lemma CreateForRentalKeepsSchema(s: State, payment: Payment, expected: RentalStatus)
    requires Schema(s)
    ensures Schema(CreateForRental(s, payment, expected).db)
  {
    if CreateForRental(s, payment, expected).outcome == Done {
      InsertedPayment(s.payments, s.nextPayment, payment);
    }
  }

  lemma ConfirmKeepsSchema(s: State, id: int)
    requires Schema(s)
    ensures Schema(ConfirmPayment(s, id).db)
  {
    if ConfirmPayment(s, id).outcome == Done {
      UpdatedPayment(s.payments, id, s.payments[id].(status := Paid));
    }
  }

  lemma FailKeepsSchema(s: State, id: int)
    requires Schema(s)
    ensures Schema(FailPayment(s, id).db)
  {
    if FailPayment(s, id).outcome == Done {
      UpdatedPayment(s.payments, id, s.payments[id].(status := Failed));
    }
  }

  lemma RefundKeepsSchema(s: State, id: int)
    requires Schema(s)
    ensures Schema(RefundPayment(s, id).db)
  {
    if RefundPayment(s, id).outcome == Done {
      UpdatedPayment(s.payments, id, s.payments[id].(status := Refunded));
    }
  }

  lemma SyncKeepsSchema(s: State, today: int)
    requires Schema(s)
    ensures Schema(SyncLifecycle(s, today))
  {
    MappedPayments(s.payments, SyncLifecycle(s, today).payments);
  }

  lemma InsertInvoiceKeepsSchema(s: State, row: Invoice)
    requires Schema(s)
    ensures Schema(InsertInvoice(s, row).db)
  {
  }

  lemma MarkPaidKeepsSchema(s: State, rentalId: int)
    requires Schema(s)
    ensures Schema(MarkInvoicePaid(s, rentalId))
  {
  }

  /** No transaction breaks a foreign key, a UNIQUE constraint, a date check or the freshness of ids. */
  lemma CommitKeepsSchema(enforce: bool, s: State, tx: Tx)
    requires Schema(s)
    ensures Schema(Commit(enforce, s, tx).db)
  {
    match tx
    case RentalTx(row) => InsertRentalKeepsSchema(enforce, s, row);
    case StatusTx(id, status) => StatusWriteKeepsSchema(enforce, s, id, status);
    case PaymentTx(payment, expected) => CreateForRentalKeepsSchema(s, payment, expected);
    case ConfirmTx(id) => ConfirmKeepsSchema(s, id);
    case FailTx(id) => FailKeepsSchema(s, id);
    case RefundTx(id) => RefundKeepsSchema(s, id);
    case InvoiceTx(invoice) => InsertInvoiceKeepsSchema(s, invoice);
    case MarkPaidTx(rentalId) => MarkPaidKeepsSchema(s, rentalId);
    case SyncTx(today) => SyncKeepsSchema(s, today);
    case FleetTx(cars, maintenances) =>
  }

  lemma {:induction false} CommitAllKeepsSchema(enforce: bool, s: State, txs: seq<Tx>)
    requires Schema(s)
    ensures Schema(CommitAll(enforce, s, txs))
  {
    if txs != [] {
      CommitAllKeepsSchema(enforce, s, txs[..|txs| - 1]);
      CommitKeepsSchema(enforce, CommitAll(enforce, s, txs[..|txs| - 1]), txs[|txs| - 1]);
    }
  }

  lemma RequestKeepsSchema(enforce: bool, s: State, request: Request)
    requires Schema(s)
    ensures Schema(Apply(enforce, s, request).db)
  {
    RequestRunsItsPlan(enforce, s, request);
    CommitAllKeepsSchema(enforce, s, Plan(s, request));
  }
}
