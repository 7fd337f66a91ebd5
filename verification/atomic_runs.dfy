/** Whole runs of atomic requests: invoices, prices and the ends of a rental's life. */
module AtomicRuns {
  import opened Models
  import opened Tables
  import opened Repositories
  import opened Services
  import opened SchemaKept
  import opened History
  import opened PairTable

  // ----- settled invoices -----

  /** An invoice marked paid belongs to a rental whose payment is paid. */
  ghost predicate SettledIsPaid(s: State) {
    forall i :: i in s.invoices && s.invoices[i].status.Settled? ==>
      PaymentStatusOf(s.payments, s.invoices[i].rentalId) == Some(Paid)
  }

  lemma PaymentKeepsSettled(s: State, payment: Payment, expected: RentalStatus)
    requires Schema(s) && SettledIsPaid(s)
    ensures SettledIsPaid(CreateForRental(s, payment, expected).db)
  {
    if CreateForRental(s, payment, expected).outcome == Done {
      InsertedPayment(s.payments, s.nextPayment, payment);
      assert PaymentStatusOf(s.payments, payment.rentalId) == None;
    }
  }

  lemma ConfirmKeepsSettled(s: State, id: int, markReached: bool)
    requires Schema(s) && SettledIsPaid(s)
    ensures SettledIsPaid(ConfirmStep(s, id, markReached).db)
  {
    if ConfirmPayment(s, id).outcome == Done {
      MovedPayment(s, id, Paid);
      var confirmed := ConfirmPayment(s, id).db;
      assert PaymentStatusOf(confirmed.payments, s.payments[id].rentalId) == Some(Paid);
    }
  }

  lemma FailKeepsSettled(s: State, id: int)
    requires Schema(s) && SettledIsPaid(s)
    ensures SettledIsPaid(FailPayment(s, id).db)
  {
    if FailPayment(s, id).outcome == Done {
      MovedPayment(s, id, Failed);
    }
  }

  lemma RefundKeepsSettled(s: State, id: int)
    requires Schema(s) && SettledIsPaid(s)
    ensures SettledIsPaid(RefundPayment(s, id).db)
  {
    if RefundPayment(s, id).outcome == Done {
      MovedPayment(s, id, Refunded);
    }
  }

  lemma SyncKeepsSettled(s: State, today: int)
    requires Schema(s) && SettledIsPaid(s)
    ensures SettledIsPaid(SyncLifecycle(s, today))
  {
    var after := SyncLifecycle(s, today);
    forall i | i in after.invoices && after.invoices[i].status.Settled?
      ensures PaymentStatusOf(after.payments, after.invoices[i].rentalId) == Some(Paid)
    {
      SyncedPayment(s, today, s.invoices[i].rentalId);
    }
  }

  lemma RequestKeepsSettled(s: State, request: Request)
    requires Schema(s) && SettledIsPaid(s)
    ensures SettledIsPaid(Next(s, request))
  {
    match request
    case CreatePayment(actor, id, payMethod) =>
      if id in s.rentals {
        PaymentKeepsSettled(s, Payment(id, s.rentals[id].total, payMethod, Pending), s.rentals[id].status);
      }
    case Confirm(id, markReached) => ConfirmKeepsSettled(s, id, markReached);
    case Fail(id) => FailKeepsSettled(s, id);
    case Refund(id) => RefundKeepsSettled(s, id);
    case Sync(today) => SyncKeepsSettled(s, today);
    case GetInvoice(actor, id) => InvoiceKeepsSettled(s, actor, id);
    case _ =>
  }

  lemma InvoiceKeepsSettled(s: State, actor: Actor, id: int)
    requires SettledIsPaid(s)
    ensures SettledIsPaid(GetInvoiceStep(s, actor, id).db)
  {
  }

  // ----- prices -----

  lemma RequestKeepsAmounts(s: State, request: Request)
    requires Schema(s) && AmountsMatch(s)
    ensures AmountsMatch(Next(s, request))
  {
    var plan := Plan(s, request);
    RequestRunsItsPlan(true, s, request);
    if |plan| >= 1 {
      CommitKeepsAmounts(true, s, plan[0]);
      CommitKeepsSchema(true, s, plan[0]);
      CommitOne(true, s, plan[0]);
    }
    if |plan| == 2 {
      CommitTwo(true, s, plan[0], plan[1]);
      CommitKeepsAmounts(true, Commit(true, s, plan[0]).db, plan[1]);
      assert plan == [plan[0], plan[1]];
    } else if |plan| == 1 {
      assert plan == [plan[0]];
    }
  }

  lemma {:induction false} RunKeepsBooks(s: State, requests: seq<Request>)
    requires Schema(s) && SettledIsPaid(s) && AmountsMatch(s)
    ensures Schema(Run(s, requests)) && SettledIsPaid(Run(s, requests)) && AmountsMatch(Run(s, requests))
  {
    if requests != [] {
      var before := Run(s, requests[..|requests| - 1]);
      RunKeepsBooks(s, requests[..|requests| - 1]);
      RequestKeepsSchema(true, before, requests[|requests| - 1]);
      RequestKeepsSettled(before, requests[|requests| - 1]);
      RequestKeepsAmounts(before, requests[|requests| - 1]);
    }
  }

  /** In every reachable state a settled invoice has a paid payment, and payments and invoices are
      over the total of their rental, whether or not MarkPaid ever reached the database and whenever
      the invoices were created. */
  lemma ReachableBooks(s: State)
    requires Reachable(s)
    ensures SettledIsPaid(s) && AmountsMatch(s)
  {
    var requests :| Run(EMPTY, requests) == s;
    RunKeepsBooks(EMPTY, requests);
  }

  // ----- the past is kept -----

  lemma {:induction false} RunKeepsThePast(s: State, requests: seq<Request>)
    requires Schema(s)
    ensures SameRentals(s, Run(s, requests)) && VoidStays(s, Run(s, requests))
  {
    if requests != [] {
      var last := |requests| - 1;
      var before := Run(s, requests[..last]);
      RunKeepsThePast(s, requests[..last]);
      RunKeepsSchema(s, requests[..last]);
      RequestRunsItsPlan(true, before, requests[last]);
      CommitAllKeepsFacts(true, before, Plan(before, requests[last]));
      CommitAllKeepsVoid(true, before, Plan(before, requests[last]));
    }
  }

  lemma {:induction false} RunKeepsSchema(s: State, requests: seq<Request>)
    requires Schema(s)
    ensures Schema(Run(s, requests))
  {
    if requests != [] {
      RunKeepsSchema(s, requests[..|requests| - 1]);
      RequestKeepsSchema(true, Run(s, requests[..|requests| - 1]), requests[|requests| - 1]);
    }
  }

  /** Whatever happens after a rental was created, its user, car, dates and total stay, and a void
      invoice stays void. */
  lemma ThePastIsKept(s: State, requests: seq<Request>)
    requires Reachable(s)
    ensures SameRentals(s, Run(s, requests)) && VoidStays(s, Run(s, requests))
  {
    ReachableIsCoupled(s);
    RunKeepsThePast(s, requests);
  }

  // ----- ends -----

  /** The payment of the rental has failed or was refunded. */
  ghost predicate Closed(s: State, id: int) {
    PaymentStatusOf(s.payments, id) == Some(Failed) || PaymentStatusOf(s.payments, id) == Some(Refunded)
  }

  lemma {:induction false} TransactionsKeepClosed(s: State, txs: seq<Tx>, id: int)
    requires Schema(s) && Closed(s, id) && forall i :: 0 <= i < |txs| ==> WellFormed(txs[i])
    ensures Closed(CommitAll(true, s, txs), id)
  {
    if txs != [] {
      var last := |txs| - 1;
      TransactionsKeepClosed(s, txs[..last], id);
      CommitAllKeepsSchema(true, s, txs[..last]);
      CommitAdvancesPayments(true, CommitAll(true, s, txs[..last]), txs[last], id);
    }
  }

  lemma RequestKeepsClosed(s: State, request: Request, id: int)
    requires Schema(s) && Closed(s, id)
    ensures Closed(Next(s, request), id)
  {
    RequestRunsItsPlan(true, s, request);
    TransactionsKeepClosed(s, Plan(s, request), id);
  }

  lemma RequestKeepsCompleted(s: State, request: Request, id: int)
    requires Schema(s) && Coupled(s) && id in s.rentals && s.rentals[id].status.Completed?
    ensures id in Next(s, request).rentals && Next(s, request).rentals[id].status.Completed?
  {
    if request.Confirm? || request.Fail? || request.Refund? {
      PaymentRequestKeepsCompleted(s, request, id);
    } else {
      OtherRequestKeepsCompleted(s, request, id);
    }
  }

  lemma PaymentRequestKeepsCompleted(s: State, request: Request, id: int)
    requires Schema(s) && Coupled(s) && id in s.rentals && s.rentals[id].status.Completed?
    requires request.Confirm? || request.Fail? || request.Refund?
    ensures id in Next(s, request).rentals && Next(s, request).rentals[id].status.Completed?
  {
    var payment := PaymentStatusOf(s.payments, id);
    assert payment == Some(Paid) || payment == Some(Refunded);
    if request.paymentId in s.payments {
      PaymentIsUnique(s.payments, request.paymentId);
    }
  }

  lemma OtherRequestKeepsCompleted(s: State, request: Request, id: int)
    requires id in s.rentals && s.rentals[id].status.Completed? && s.nextRental != id
    requires !request.Confirm? && !request.Fail? && !request.Refund?
    ensures id in Next(s, request).rentals && Next(s, request).rentals[id].status.Completed?
  {
  }

  /** A rental whose payment failed or was refunded never again waits for payment, is confirmed or
      is active; a completed rental stays completed. */
  lemma {:induction false} EndsAreFinal(s: State, requests: seq<Request>, id: int)
    requires Reachable(s) && id in s.rentals
    ensures id in Run(s, requests).rentals
    ensures Closed(s, id) ==> Closed(Run(s, requests), id)
    ensures Closed(s, id) ==>
      var status := Run(s, requests).rentals[id].status;
      !status.PendingPayment? && !status.Confirmed? && !status.Active?
    ensures s.rentals[id].status.Completed? ==> Run(s, requests).rentals[id].status.Completed?
  {
    ThePastIsKept(s, requests);
    ReachableRun(s, requests);
    ReachableIsCoupled(Run(s, requests));
    if requests != [] {
      EndsAreFinal(s, requests[..|requests| - 1], id);
      ReachableRun(s, requests[..|requests| - 1]);
      var before, request := Run(s, requests[..|requests| - 1]), requests[|requests| - 1];
      ReachableIsCoupled(before);
      if Closed(s, id) {
        RequestKeepsClosed(before, request, id);
      }
      if s.rentals[id].status.Completed? {
        RequestKeepsCompleted(before, request, id);
      }
    }
    assert PairOk(Run(s, requests).rentals[id].status, PaymentStatusOf(Run(s, requests).payments, id));
  }
}
