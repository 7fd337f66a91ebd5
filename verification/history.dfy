/** What single transactions can do to one rental, its payment and its invoice, whatever order they
    come in. Nothing here assumes that a request is atomic. */
module History {
  import opened Models
  import opened Tables
  import opened Repositories
  import opened SchemaKept

  type Pay = Option<PaymentStatus>

  // ----- payments only move forward -----

  predicate Advances(before: Pay, after: Pay) {
    || before == after
    || (before == None && after == Some(Pending))
    || (before == Some(Pending) && (after == Some(Paid) || after == Some(Failed)))
    || (before == Some(Paid) && after == Some(Refunded))
  }

  function Rank(payment: Pay): (rank: nat)
    ensures rank <= 3
  {
    match payment
    case None => 0
    case Some(Pending) => 1
    case Some(Paid) => 2
    case Some(Failed) => 2
    case Some(Refunded) => 3
  }

  /** Nobody but CreateForRental's callers builds payment rows, and they build pending ones. */
  predicate WellFormed(tx: Tx) {
    tx.PaymentTx? ==> tx.payment.status == Pending
  }

  /** One transaction moves the payment of each rental along none, pending, paid or failed, and paid
      to refunded, or not at all. */
  lemma CommitAdvancesPayments(enforce: bool, s: State, tx: Tx, id: int)
    requires Schema(s) && WellFormed(tx)
    ensures Advances(PaymentStatusOf(s.payments, id), PaymentStatusOf(Commit(enforce, s, tx).db.payments, id))
  {
    var reply := Commit(enforce, s, tx);
    if reply.outcome == Done {
      match tx
      case PaymentTx(payment, expected) => InsertedPayment(s.payments, s.nextPayment, payment);
      case ConfirmTx(p) => MovedPayment(s, p, Paid);
      case FailTx(p) => MovedPayment(s, p, Failed);
      case RefundTx(p) => MovedPayment(s, p, Refunded);
      case SyncTx(today) => SyncAdvancesPayments(s, today, id);
      case _ =>
    }
  }

  lemma MovedPayment(s: State, p: int, status: PaymentStatus)
    requires Schema(s) && p in s.payments
    ensures PaymentStatusOf(s.payments, s.payments[p].rentalId) == Some(s.payments[p].status)
    ensures forall r ::
      PaymentStatusOf(s.payments[p := s.payments[p].(status := status)], r) ==
      (if r == s.payments[p].rentalId then Some(status) else PaymentStatusOf(s.payments, r))
  {
    PaymentIsUnique(s.payments, p);
    UpdatedPayment(s.payments, p, s.payments[p].(status := status));
  }

  lemma SyncAdvancesPayments(s: State, today: int, id: int)
    requires Schema(s)
    ensures Advances(PaymentStatusOf(s.payments, id), PaymentStatusOf(SyncLifecycle(s, today).payments, id))
  {
    MappedPayments(s.payments, SyncLifecycle(s, today).payments);
    if HasPayment(s.payments, id) {
      var k := PaymentIdOf(s.payments, id);
      assert s.payments[k].rentalId == id;
    }
  }

  /** The state after each transaction of a log, the initial state first. */
  function Trace(enforce: bool, s: State, txs: seq<Tx>): (states: seq<State>)
    ensures |states| == |txs| + 1
    ensures states[|txs|] == CommitAll(enforce, s, txs)
  {
    if txs == [] then [s]
    else
      var before := Trace(enforce, s, txs[..|txs| - 1]);
      before + [Commit(enforce, before[|txs| - 1], txs[|txs| - 1]).db]
  }

  /** How often the payment of a rental changes along a sequence of states. */
  ghost function Changes(states: seq<State>, id: int): nat {
    if |states| < 2 then 0
    else
      var last := |states| - 1;
      Changes(states[..last], id) +
      if PaymentStatusOf(states[last].payments, id) == PaymentStatusOf(states[last - 1].payments, id) then 0 else 1
  }

  lemma AdvanceRaisesRank(before: Pay, after: Pay)
    requires Advances(before, after)
    ensures Rank(before) + (if before == after then 0 else 1) <= Rank(after)
  {
  }

  lemma LastChange(states: seq<State>, next: State, id: int)
    requires states != []
    ensures Changes(states + [next], id) == Changes(states, id) +
      if PaymentStatusOf(next.payments, id) == PaymentStatusOf(states[|states| - 1].payments, id) then 0 else 1
  {
    assert (states + [next])[..|states|] == states;
  }

  /** Under any interleaving of transactions the payment of a rental changes at most three times. */
  lemma {:induction false} AtMostThreePaymentChanges(enforce: bool, s: State, txs: seq<Tx>, id: int)
    requires Schema(s) && forall i :: 0 <= i < |txs| ==> WellFormed(txs[i])
    ensures Changes(Trace(enforce, s, txs), id) <= 3
    ensures Changes(Trace(enforce, s, txs), id) + Rank(PaymentStatusOf(s.payments, id))
         <= Rank(PaymentStatusOf(CommitAll(enforce, s, txs).payments, id))
  {
    if txs != [] {
      var last := |txs| - 1;
      var prefix, states := txs[..last], Trace(enforce, s, txs);
      AtMostThreePaymentChanges(enforce, s, prefix, id);
      var before := Trace(enforce, s, prefix);
      assert states == before + [Commit(enforce, before[last], txs[last]).db];
      CommitAllKeepsSchema(enforce, s, prefix);
      CommitAdvancesPayments(enforce, before[last], txs[last], id);
      AdvanceRaisesRank(PaymentStatusOf(before[last].payments, id), PaymentStatusOf(states[last + 1].payments, id));
      LastChange(before, states[last + 1], id);
    }
  }

  // ----- what a rental is never changes -----

  /** The columns of a rental that no statement writes after the INSERT. */
  function Facts(row: Rental): Rental {
    row.(status := Requested)
  }

  ghost predicate SameRentals(before: State, after: State) {
    forall id :: id in before.rentals ==> id in after.rentals && Facts(after.rentals[id]) == Facts(before.rentals[id])
  }

  lemma CommitKeepsFacts(enforce: bool, s: State, tx: Tx)
    requires Schema(s)
    ensures SameRentals(s, Commit(enforce, s, tx).db)
  {
  }

  lemma {:induction false} CommitAllKeepsFacts(enforce: bool, s: State, txs: seq<Tx>)
    requires Schema(s)
    ensures SameRentals(s, CommitAll(enforce, s, txs))
  {
    if txs != [] {
      var before := CommitAll(enforce, s, txs[..|txs| - 1]);
      CommitAllKeepsFacts(enforce, s, txs[..|txs| - 1]);
      CommitAllKeepsSchema(enforce, s, txs[..|txs| - 1]);
      CommitKeepsFacts(enforce, before, txs[|txs| - 1]);
    }
  }

  // ----- amounts -----

  /** Payments and invoices are over the total of their rental. */
  ghost predicate AmountsMatch(s: State) {
    && (forall i :: i in s.payments && s.payments[i].rentalId in s.rentals ==>
          s.payments[i].amount == s.rentals[s.payments[i].rentalId].total)
    && (forall i :: i in s.invoices && s.invoices[i].rentalId in s.rentals ==>
          s.invoices[i].amount == s.rentals[s.invoices[i].rentalId].total)
  }

  /** The row a transaction inserts is priced from the rental, as the services price it. */
  predicate Priced(s: State, tx: Tx) {
    && (tx.PaymentTx? ==> tx.payment.rentalId in s.rentals && tx.payment.amount == s.rentals[tx.payment.rentalId].total)
    && (tx.InvoiceTx? ==> tx.invoice.rentalId in s.rentals && tx.invoice.amount == s.rentals[tx.invoice.rentalId].total)
  }

  /** A price read in one state still holds in every later state. */
  lemma PricesStay(before: State, after: State, tx: Tx)
    requires Priced(before, tx) && SameRentals(before, after)
    ensures Priced(after, tx)
  {
    if tx.PaymentTx? {
      assert Facts(after.rentals[tx.payment.rentalId]).total == Facts(before.rentals[tx.payment.rentalId]).total;
    } else if tx.InvoiceTx? {
      assert Facts(after.rentals[tx.invoice.rentalId]).total == Facts(before.rentals[tx.invoice.rentalId]).total;
    }
  }

  lemma CommitKeepsAmounts(enforce: bool, s: State, tx: Tx)
    requires Schema(s) && AmountsMatch(s) && Priced(s, tx)
    ensures AmountsMatch(Commit(enforce, s, tx).db)
  {
  }

  // ----- void is final -----

  ghost predicate VoidStays(before: State, after: State) {
    forall i :: i in before.invoices ==>
      && i in after.invoices
      && after.invoices[i].rentalId == before.invoices[i].rentalId
      && (before.invoices[i].status.Void? ==> after.invoices[i].status.Void?)
  }

  lemma CommitKeepsVoid(enforce: bool, s: State, tx: Tx)
    requires Schema(s)
    ensures VoidStays(s, Commit(enforce, s, tx).db)
  {
  }

  lemma {:induction false} CommitAllKeepsVoid(enforce: bool, s: State, txs: seq<Tx>)
    requires Schema(s)
    ensures VoidStays(s, CommitAll(enforce, s, txs))
  {
    if txs != [] {
      var before := CommitAll(enforce, s, txs[..|txs| - 1]);
      CommitAllKeepsVoid(enforce, s, txs[..|txs| - 1]);
      CommitAllKeepsSchema(enforce, s, txs[..|txs| - 1]);
      CommitKeepsVoid(enforce, before, txs[|txs| - 1]);
    }
  }
}
