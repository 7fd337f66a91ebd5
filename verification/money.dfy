/** The report over the rentals created in a window (internal/repository/report_repository.go): the
    join of rentals and payments, the revenue, and the figures per car. */
module Money {
  import opened Models
  import opened Tables
  import opened Repositories
  import opened Services
  import opened SchemaKept
  import opened History
  import opened PairTable
  import opened AtomicRuns
  import opened Sums
  import I = Interleaving

  /** created_at >= from AND created_at < to */
  datatype Window = Window(from: int, to: int)

  predicate In(w: Window, rental: Rental) {
    w.from <= rental.createdAt < w.to
  }

  /** A row of rentals LEFT JOIN payments: a rental id and the id of a payment, if it has one. */
  datatype Row = Row(rental: int, payment: Option<int>)

  function Rentals(s: State, w: Window): set<int> {
    set r | r in s.rentals && In(w, s.rentals[r])
  }

  function JoinRows(s: State, w: Window): set<Row> {
    (set p | p in s.payments && s.payments[p].rentalId in Rentals(s, w) :: Row(s.payments[p].rentalId, Some(p)))
    + (set r | r in Rentals(s, w) && !HasPayment(s.payments, r) :: Row(r, None))
  }

  /** CASE WHEN p.status = 'paid' THEN p.amount ELSE 0 END */
  function PaidAmount(s: State, row: Row): int {
    if row.payment.Some? && row.payment.value in s.payments && s.payments[row.payment.value].status.Paid?
    then s.payments[row.payment.value].amount else 0
  }

  function PaidAmounts(s: State, w: Window): map<Row, int> {
    map row | row in JoinRows(s, w) :: PaidAmount(s, row)
  }

  ghost function Revenue(s: State, w: Window): int {
    Sum(PaidAmounts(s, w))
  }

  // ----- revenue is what came in minus what went back -----

  /** What one request adds to the revenue of the window. */
  ghost function Booked(s: State, request: Request, w: Window): int {
    match request
    case Confirm(p, _) =>
      if Apply(true, s, request).outcome == Done && s.payments[p].rentalId in Rentals(s, w) then s.payments[p].amount else 0
    case Refund(p) =>
      if Apply(true, s, request).outcome == Done && s.payments[p].rentalId in Rentals(s, w) then -s.payments[p].amount else 0
    case _ => 0
  }

  /** The amounts confirmed minus the amounts refunded over a run. */
  ghost function Ledger(s: State, requests: seq<Request>, w: Window): int {
    if requests == [] then 0
    else
      var last := |requests| - 1;
      Ledger(s, requests[..last], w) + Booked(Run(s, requests[..last]), requests[last], w)
  }

  /** The revenue counts a join row exactly when its payment is paid and its rental is in the window. */
  lemma EntryOfRow(s: State, w: Window, row: Row)
    requires Schema(s)
    ensures Entry(PaidAmounts(s, w), row) ==
            match row.payment
            case None => 0
            case Some(p) =>
              if p in s.payments && s.payments[p].rentalId == row.rental && s.payments[p].status.Paid?
                 && row.rental in s.rentals && w.from <= s.rentals[row.rental].createdAt < w.to
              then s.payments[p].amount else 0
  {
  }

  /** The payments that are paid, with their amounts, are the same before and after. */
  ghost predicate SamePaid(before: State, after: State) {
    && (forall p :: p in after.payments && after.payments[p].status.Paid? ==> p in before.payments && after.payments[p] == before.payments[p])
    && (forall p :: p in before.payments && before.payments[p].status.Paid? ==> p in after.payments && after.payments[p] == before.payments[p])
  }

  lemma SamePaidSameRevenue(before: State, after: State, w: Window)
    requires Schema(before) && Schema(after) && SameRentals(before, after) && SamePaid(before, after)
    ensures Revenue(after, w) == Revenue(before, w)
  {
    forall row: Row
      ensures Entry(PaidAmounts(after, w), row) == Entry(PaidAmounts(before, w), row)
    {
      EntryOfRow(before, w, row);
      EntryOfRow(after, w, row);
      if row.rental in before.rentals {
        assert Facts(after.rentals[row.rental]).createdAt == Facts(before.rentals[row.rental]).createdAt;
      }
    }
    SameEntriesSameSum(PaidAmounts(before, w), PaidAmounts(after, w));
  }

  /** One payment enters or leaves the paid ones. */
  lemma PaidChange(before: State, after: State, w: Window, p: int, status: PaymentStatus)
    requires Schema(before) && Schema(after) && p in before.payments && after.rentals.Keys == before.rentals.Keys
    requires forall r :: r in before.rentals ==> after.rentals[r].createdAt == before.rentals[r].createdAt
    requires after.payments == before.payments[p := before.payments[p].(status := status)]
    ensures Revenue(after, w) == Revenue(before, w) +
      if before.payments[p].rentalId in Rentals(before, w)
      then (if status.Paid? then before.payments[p].amount else 0) - (if before.payments[p].status.Paid? then before.payments[p].amount else 0)
      else 0
  {
    var rentalId, amount := before.payments[p].rentalId, before.payments[p].amount;
    var delta := if rentalId in Rentals(before, w)
      then (if status.Paid? then amount else 0) - (if before.payments[p].status.Paid? then amount else 0) else 0;
    assert forall r :: r in before.rentals ==> (In(w, after.rentals[r]) <==> In(w, before.rentals[r]));
    assert Rentals(after, w) == Rentals(before, w);
    forall row: Row
      ensures Entry(PaidAmounts(after, w), row) == Entry(PaidAmounts(before, w), row) + (if row == Row(rentalId, Some(p)) then delta else 0)
    {
      EntryOfRow(before, w, row);
      EntryOfRow(after, w, row);
    }
    SumShift(PaidAmounts(before, w), PaidAmounts(after, w), Row(rentalId, Some(p)), delta);
  }

  lemma ConfirmIsBooked(s: State, id: int, markReached: bool, w: Window)
    requires Schema(s)
    ensures Revenue(Next(s, Confirm(id, markReached)), w) == Revenue(s, w) + Booked(s, Confirm(id, markReached), w)
  {
    var request := Confirm(id, markReached);
    RequestKeepsSchema(true, s, request);
    if Apply(true, s, request).outcome == Done {
      PaidChange(s, Next(s, request), w, id, Paid);
    }
  }

  lemma RefundIsBooked(s: State, id: int, w: Window)
    requires Schema(s)
    ensures Revenue(Next(s, Refund(id)), w) == Revenue(s, w) + Booked(s, Refund(id), w)
  {
    RequestKeepsSchema(true, s, Refund(id));
    if Apply(true, s, Refund(id)).outcome == Done {
      PaidChange(s, Next(s, Refund(id)), w, id, Refunded);
    }
  }

  lemma OthersAreNotBooked(s: State, request: Request, w: Window)
    requires Schema(s) && !request.Confirm? && !request.Refund?
    ensures Revenue(Next(s, request), w) == Revenue(s, w)
  {
    RequestKeepsSchema(true, s, request);
    RequestRunsItsPlan(true, s, request);
    CommitAllKeepsFacts(true, s, Plan(s, request));
    OthersKeepPaid(s, request);
    SamePaidSameRevenue(s, Next(s, request), w);
  }

  lemma OthersKeepPaid(s: State, request: Request)
    requires Schema(s) && !request.Confirm? && !request.Refund?
    ensures SamePaid(s, Next(s, request))
  {
  }

  /** Over any run the reported revenue of a window is what was confirmed minus what was refunded for
      the rentals created in it. */
  lemma {:induction false} RevenueIsTheLedger(requests: seq<Request>, w: Window)
    ensures Revenue(Run(EMPTY, requests), w) == Ledger(EMPTY, requests, w)
  {
    if requests == [] {
      assert PaidAmounts(EMPTY, w).Keys == {};
    } else {
      var last := |requests| - 1;
      var s, request := Run(EMPTY, requests[..last]), requests[last];
      RevenueIsTheLedger(requests[..last], w);
      RunKeepsSchema(EMPTY, requests[..last]);
      match request
      case Confirm(p, markReached) => ConfirmIsBooked(s, p, markReached, w);
      case Refund(p) => RefundIsBooked(s, p, w);
      case _ => OthersAreNotBooked(s, request, w);
    }
  }

  // ----- the ledger of a log of transactions -----

  /** What one transaction adds to the revenue of the window. */
  ghost function BookedTx(s: State, tx: Tx, w: Window): int {
    match tx
    case ConfirmTx(p) =>
      if ConfirmPayment(s, p).outcome == Done && s.payments[p].rentalId in Rentals(s, w) then s.payments[p].amount else 0
    case RefundTx(p) =>
      if RefundPayment(s, p).outcome == Done && s.payments[p].rentalId in Rentals(s, w) then -s.payments[p].amount else 0
    case _ => 0
  }

  ghost function LogLedger(enforce: bool, s: State, txs: seq<Tx>, w: Window): int {
    if txs == [] then 0
    else
      var last := |txs| - 1;
      LogLedger(enforce, s, txs[..last], w) + BookedTx(CommitAll(enforce, s, txs[..last]), txs[last], w)
  }

  lemma OtherTransactionsKeepPaid(enforce: bool, s: State, tx: Tx)
    requires Schema(s) && WellFormed(tx) && !tx.ConfirmTx? && !tx.RefundTx?
    ensures SamePaid(s, Commit(enforce, s, tx).db)
  {
  }

  lemma CommitIsBooked(enforce: bool, s: State, tx: Tx, w: Window)
    requires Schema(s) && WellFormed(tx)
    ensures Revenue(Commit(enforce, s, tx).db, w) == Revenue(s, w) + BookedTx(s, tx, w)
  {
    var after := Commit(enforce, s, tx).db;
    CommitKeepsSchema(enforce, s, tx);
    if tx.ConfirmTx? {
      if ConfirmPayment(s, tx.id).outcome == Done {
        PaidChange(s, after, w, tx.id, Paid);
      }
    } else if tx.RefundTx? {
      if RefundPayment(s, tx.id).outcome == Done {
        PaidChange(s, after, w, tx.id, Refunded);
      }
    } else {
      CommitKeepsFacts(enforce, s, tx);
      OtherTransactionsKeepPaid(enforce, s, tx);
      SamePaidSameRevenue(s, after, w);
    }
  }

  /** Over any log of transactions, with or without the exclusion constraint, the revenue of a window
      changes by what the log confirmed minus what it refunded. */
  lemma {:induction false} RevenueOfALog(enforce: bool, s: State, txs: seq<Tx>, w: Window)
    requires Schema(s) && forall i :: 0 <= i < |txs| ==> WellFormed(txs[i])
    ensures Revenue(CommitAll(enforce, s, txs), w) == Revenue(s, w) + LogLedger(enforce, s, txs, w)
  {
    if txs != [] {
      var last := |txs| - 1;
      RevenueOfALog(enforce, s, txs[..last], w);
      CommitAllKeepsSchema(enforce, s, txs[..last]);
      CommitIsBooked(enforce, CommitAll(enforce, s, txs[..last]), txs[last], w);
    }
  }

  /** However requests interleave, the reported revenue is what was confirmed minus what was refunded. */
  lemma InterleavedRevenueIsTheLedger(moves: seq<I.Move>, w: Window)
    ensures Revenue(I.Steps(true, I.START, moves).db, w) == LogLedger(true, EMPTY, I.Log(true, I.START, moves), w)
  {
    I.InterleavingIsALog(true, I.START, moves);
    RevenueOfALog(true, EMPTY, I.Log(true, I.START, moves), w);
    assert PaidAmounts(EMPTY, w).Keys == {};
  }

  // ----- the join does not duplicate rentals -----

  ghost function RowOf(s: State, r: int): Row {
    Row(r, if HasPayment(s.payments, r) then Some(PaymentIdOf(s.payments, r)) else None)
  }

  lemma JoinRowOf(s: State, w: Window, row: Row)
    requires Schema(s)
    ensures row in JoinRows(s, w) <==> row.rental in Rentals(s, w) && row == RowOf(s, row.rental)
  {
    if row in JoinRows(s, w) && row.payment.Some? {
      PaymentIsUnique(s.payments, row.payment.value);
      assert PaymentIdOf(s.payments, row.rental) == row.payment.value;
    }
  }

  /** The join has exactly one row per rental of the window, so COUNT over the rows, COUNT(DISTINCT
      rentals.id) and the number of rentals are the same. */
  lemma OneRowPerRental(s: State, w: Window)
    requires Schema(s)
    ensures |JoinRows(s, w)| == |Rentals(s, w)|
    ensures (set row | row in JoinRows(s, w) :: row.rental) == Rentals(s, w)
    ensures forall a, b :: a in JoinRows(s, w) && b in JoinRows(s, w) && a.rental == b.rental ==> a == b
  {
    var image := map r | r in Rentals(s, w) :: RowOf(s, r);
    forall row
      ensures row in image.Values <==> row in JoinRows(s, w)
      ensures row in JoinRows(s, w) ==> row.rental in image && image[row.rental] == row
    {
      JoinRowOf(s, w, row);
      if row in JoinRows(s, w) {
        assert image[row.rental] == row;
      }
    }
    assert image.Values == JoinRows(s, w);
    ImageSize(Rentals(s, w), image);
    forall r
      ensures r in Rentals(s, w) <==> r in (set row | row in JoinRows(s, w) :: row.rental)
    {
      if r in Rentals(s, w) {
        assert RowOf(s, r) in JoinRows(s, w) && RowOf(s, r).rental == r;
      }
    }
  }

  // ----- per car -----

  function CarOfRow(s: State, w: Window): map<Row, int> {
    map row | row in JoinRows(s, w) && row.rental in s.rentals :: s.rentals[row.rental].carId
  }

  /** The groups of GROUP BY c.id: JOIN cars keeps a row when its car exists. */
  function Groups(s: State, w: Window): set<int> {
    set row | row in CarOfRow(s, w) && CarOfRow(s, w)[row] in s.cars :: CarOfRow(s, w)[row]
  }

  ghost function CarRevenue(s: State, w: Window): map<int, int> {
    PerGroup(PaidAmounts(s, w), CarOfRow(s, w), Groups(s, w))
  }

  ghost function CarRentals(s: State, w: Window): map<int, int> {
    PerGroup(Ones(JoinRows(s, w)), CarOfRow(s, w), Groups(s, w))
  }

  /** Before the limit to five cars, the per-car revenues and rental counts add up to the revenue and
      the number of rentals of the report. */
  lemma CarsAddUp(s: State, w: Window)
    requires Schema(s)
    ensures Sum(CarRevenue(s, w)) == Revenue(s, w)
    ensures Sum(CarRentals(s, w)) == |Rentals(s, w)|
  {
    var group := CarOfRow(s, w);
    forall row | row in JoinRows(s, w)
      ensures row in group && group[row] in Groups(s, w)
    {
      assert row.rental in Rentals(s, w);
    }
    GroupsAddUp(PaidAmounts(s, w), group, Groups(s, w));
    GroupsAddUp(Ones(JoinRows(s, w)), group, Groups(s, w));
    SumOfOnes(JoinRows(s, w));
    OneRowPerRental(s, w);
  }

  // ----- pending payments -----

  function PendingPayments(s: State, w: Window): set<int> {
    set p | p in s.payments && s.payments[p].rentalId in Rentals(s, w) && s.payments[p].status.Pending?
  }

  function WaitingRentals(s: State, w: Window): set<int> {
    set r | r in Rentals(s, w) && s.rentals[r].status.PendingPayment?
  }

  /** The report's number of pending payments is the number of rentals waiting for payment. */
  lemma PendingPaymentsAreWaitingRentals(s: State, w: Window)
    requires Reachable(s)
    ensures |PendingPayments(s, w)| == |WaitingRentals(s, w)|
  {
    ReachableIsCoupled(s);
    var image := map p | p in PendingPayments(s, w) :: s.payments[p].rentalId;
    forall p | p in PendingPayments(s, w)
      ensures image[p] in WaitingRentals(s, w)
    {
      PaymentFollowsRental(s, p);
    }
    forall r | r in WaitingRentals(s, w)
      ensures r in image.Values
    {
      assert PairOk(s.rentals[r].status, PaymentStatusOf(s.payments, r));
      var p := PaymentIdOf(s.payments, r);
      assert p in image && image[p] == r;
    }
    forall a, b | a in image && b in image && image[a] == image[b]
      ensures a == b
    {
      assert s.payments[a].rentalId == s.payments[b].rentalId;
    }
    assert image.Values == WaitingRentals(s, w);
    ImageSize(PendingPayments(s, w), image);
  }
}
