/** How the interleaved system and the atomic requests relate: one request at a time is an
    interleaving, and what the atomic requests keep beyond that is lost by some interleavings. */
module Serial {
  import opened Models
  import opened Tables
  import opened Repositories
  import opened Services
  import opened PairTable
  import opened PairWitnesses
  import opened AtomicRuns
  import opened Interleaving
  import Billing

  // ----- one request at a time -----

  /** The moves of one request with nothing in between. */
  function Schedule(request: Request): seq<Move> {
    match request
    case CreateRental(_, _, _, _, _, _) => [Read(0, request), LockCar(0), Recheck(0), Write(0)]
    case Confirm(_, _) => [Read(0, request), Write(0), Write(0)]
    case _ => [Read(0, request), Write(0)]
  }

  function Idle(s: State): System {
    System(s, map[], map[])
  }

  lemma TwoSteps(sys: System, a: Move, b: Move)
    ensures Steps(true, sys, [a, b]) == Step(true, Step(true, sys, a), b)
  {
    assert [a, b][..1] == [a] && [a][..0] == [];
    assert Steps(true, sys, [a]) == Step(true, sys, a);
  }

  lemma ThreeSteps(sys: System, a: Move, b: Move, c: Move)
    ensures Steps(true, sys, [a, b, c]) == Step(true, Step(true, Step(true, sys, a), b), c)
  {
    assert [a, b, c][..2] == [a, b];
    TwoSteps(sys, a, b);
  }

  lemma FourSteps(sys: System, a: Move, b: Move, c: Move, d: Move)
    ensures Steps(true, sys, [a, b, c, d]) == Step(true, Step(true, Step(true, Step(true, sys, a), b), c), d)
  {
    assert [a, b, c, d][..3] == [a, b, c];
    ThreeSteps(sys, a, b, c);
  }

  lemma SerialCreate(s: State, request: Request)
    requires request.CreateRental?
    ensures Steps(true, Idle(s), Schedule(request)) == Idle(Next(s, request))
  {
    FourSteps(Idle(s), Read(0, request), LockCar(0), Recheck(0), Write(0));
    var CreateRental(userId, carId, start, end, today, now) := request;
    if ValidateCreate(s, carId, start, end, today) == Done {
      var row := Rental(userId, carId, start, end, Billing.Charge(start, end, s.cars[carId].dailyRate), Requested, now);
      var read := Step(true, Idle(s), Read(0, request));
      assert read == System(s, map[0 := Prechecked(row)], map[]);
      var locked := Step(true, read, LockCar(0));
      assert locked == System(s, map[0 := Locked(row)], map[carId := 0]);
      var rechecked := Step(true, locked, Recheck(0));
      assert rechecked == System(s, map[0 := Rechecked(row)], map[carId := 0]);
      var written := Step(true, rechecked, Write(0));
      assert written.db == Next(s, request);
      assert written.jobs == map[] && written.locks == map[];
    }
  }

  lemma SerialConfirm(s: State, request: Request)
    requires request.Confirm?
    ensures Steps(true, Idle(s), Schedule(request)) == Idle(Next(s, request))
  {
    ThreeSteps(Idle(s), Read(0, request), Write(0), Write(0));
    var id := request.paymentId;
    if id in s.payments {
      var follow := if request.markReached then Some(MarkPaidTx(s.payments[id].rentalId)) else None;
      var read := Step(true, Idle(s), Read(0, request));
      assert read == System(s, map[0 := Ready(ConfirmTx(id), follow)], map[]);
      var confirmed := Step(true, read, Write(0));
      var marked := Step(true, confirmed, Write(0));
      assert marked.db == Next(s, request);
      assert marked.jobs == map[] && marked.locks == map[];
    }
  }

  lemma SerialOther(s: State, request: Request)
    requires !request.CreateRental? && !request.Confirm?
    ensures Steps(true, Idle(s), Schedule(request)) == Idle(Next(s, request))
  {
    TwoSteps(Idle(s), Read(0, request), Write(0));
    RequestRunsItsPlan(true, s, request);
    var plan := Plan(s, request);
    if plan == [] {
      assert Step(true, Idle(s), Read(0, request)) == Idle(s);
    } else {
      assert plan == [plan[0]];
      CommitOne(true, s, plan[0]);
      var read := Step(true, Idle(s), Read(0, request));
      assert read == System(s, map[0 := Ready(plan[0], None)], map[]);
      var written := Step(true, read, Write(0));
      assert written.jobs == map[] && written.locks == map[];
    }
  }

  /** A request whose moves are not interrupted does exactly what the atomic request does. */
  lemma UninterruptedRequestIsAtomic(s: State, request: Request)
    ensures Steps(true, Idle(s), Schedule(request)) == Idle(Next(s, request))
  {
    if request.CreateRental? {
      SerialCreate(s, request);
    } else if request.Confirm? {
      SerialConfirm(s, request);
    } else {
      SerialOther(s, request);
    }
  }

  lemma {:induction false} StepsSplit(sys: System, first: seq<Move>, second: seq<Move>)
    ensures Steps(true, sys, first + second) == Steps(true, Steps(true, sys, first), second)
  {
    if second == [] {
      assert first + second == first;
    } else {
      var last := |second| - 1;
      assert (first + second)[..|first + second| - 1] == first + second[..last];
      StepsSplit(sys, first, second[..last]);
    }
  }

  function Schedules(requests: seq<Request>): seq<Move> {
    if requests == [] then []
    else Schedules(requests[..|requests| - 1]) + Schedule(requests[|requests| - 1])
  }

  /** Every run of atomic requests is one of the interleavings. */
  lemma {:induction false} AtomicRunsAreInterleavings(requests: seq<Request>)
    ensures Steps(true, START, Schedules(requests)) == Idle(Run(EMPTY, requests))
  {
    if requests != [] {
      var last := |requests| - 1;
      AtomicRunsAreInterleavings(requests[..last]);
      StepsSplit(START, Schedules(requests[..last]), Schedule(requests[last]));
      UninterruptedRequestIsAtomic(Run(EMPTY, requests[..last]), requests[last]);
    }
  }

  /** Some interleaving from the empty tables leads here. */
  ghost predicate Interleaved(s: State) {
    exists moves :: Steps(true, START, moves) == Idle(s)
  }

  lemma ContinueWith(s: State, moves: seq<Move>, t: State)
    requires Reachable(s) && Steps(true, Idle(s), moves) == Idle(t)
    ensures Interleaved(t)
  {
    var requests :| Run(EMPTY, requests) == s;
    AtomicRunsAreInterleavings(requests);
    StepsSplit(START, Schedules(requests), moves);
    assert Steps(true, START, Schedules(requests) + moves) == Idle(t);
  }

  // ----- what interleavings lose -----

  lemma ReadReady(s: State, jobs: map<int, Job>, task: int, request: Request, tx: Tx)
    requires task !in jobs && Decision(s, request) == Some(Ready(tx, None))
    ensures Step(true, System(s, jobs, map[]), Read(task, request)) == System(s, jobs[task := Ready(tx, None)], map[])
  {
  }

  lemma WriteReady(s: State, jobs: map<int, Job>, task: int, tx: Tx)
    requires task in jobs && jobs[task] == Ready(tx, None)
    ensures Step(true, System(s, jobs, map[]), Write(task)) == System(Commit(true, s, tx).db, jobs - {task}, map[])
  {
    assert Step(true, System(s, jobs, map[]), Write(task)).locks == map[];
  }

  /** Two requests read the same state; the second to read writes first. */
  lemma Overtaken(s: State, late: Request, lateTx: Tx, early: Request, earlyTx: Tx)
    requires Decision(s, late) == Some(Ready(lateTx, None)) && Decision(s, early) == Some(Ready(earlyTx, None))
    ensures Steps(true, Idle(s), [Read(0, late), Read(1, early), Write(1), Write(0)]) ==
            Idle(Commit(true, Commit(true, s, earlyTx).db, lateTx).db)
  {
    FourSteps(Idle(s), Read(0, late), Read(1, early), Write(1), Write(0));
    var one := map[0 := Ready(lateTx, None)];
    var two := one[1 := Ready(earlyTx, None)];
    ReadReady(s, map[], 0, late, lateTx);
    ReadReady(s, one, 1, early, earlyTx);
    WriteReady(s, two, 1, earlyTx);
    assert two - {1} == one;
    WriteReady(Commit(true, s, earlyTx).db, one, 0, lateTx);
    assert one - {0} == map[];
  }

  /** A cancellation that was decided before the payment request came in and written after it leaves a
      cancelled rental with a pending payment, and confirming that payment rolls back. */
  lemma StaleCancelBreaksTheTable()
    ensures var s := One(Cancelled, Some(Pending));
            && Interleaved(s)
            && !Coupled(s)
            && ConfirmPayment(s, 0) == Reply(s, Refused(InvalidPayment))
  {
    var s, u := One(Approved, None), One(Cancelled, Some(Pending));
    var cancel, pay := Cancel(ADMIN, 0, 0), CreatePayment(ADMIN, 0, Cash);
    CancelAndPay();
    PayThenCancel();
    Overtaken(s, cancel, CANCELLATION, pay, PAYMENT);
    EveryPairIsReached(Approved, None);
    ContinueWith(s, [Read(0, cancel), Read(1, pay), Write(1), Write(0)], u);
    OnePayment(Cancelled, Some(Pending));
    assert !PairOk(u.rentals[0].status, PaymentStatusOf(u.payments, 0));
  }

  const CANCELLATION := StatusTx(0, Cancelled)
  const PAYMENT := PaymentTx(Payment(0, 100, Cash, Pending), Approved)

  lemma CancelAndPay()
    ensures Decision(One(Approved, None), Cancel(ADMIN, 0, 0)) == Some(Ready(CANCELLATION, None))
    ensures Decision(One(Approved, None), CreatePayment(ADMIN, 0, Cash)) == Some(Ready(PAYMENT, None))
  {
    OnePayment(Approved, None);
  }

  lemma PayThenCancel()
    ensures Commit(true, One(Approved, None), PAYMENT).db == One(PendingPayment, Some(Pending))
    ensures Commit(true, One(PendingPayment, Some(Pending)), CANCELLATION).db == One(Cancelled, Some(Pending))
  {
    OnePayment(Approved, None);
  }

  /** The refunded rental with an invoice that was priced as paid before the refund. */
  function LateInvoice(): State {
    One(Cancelled, Some(Refunded)).(invoices := map[0 := Invoice(0, 100, Settled)], nextInvoice := 1)
  }

  lemma RefundThenInvoice()
    ensures RefundPayment(One(Confirmed, Some(Paid)), 0) == Reply(One(Cancelled, Some(Refunded)), Done)
    ensures InsertInvoice(One(Cancelled, Some(Refunded)), Invoice(0, 100, Settled)) == Reply(LateInvoice(), Done)
    ensures !SettledIsPaid(LateInvoice())
  {
    var after := RefundPayment(One(Confirmed, Some(Paid)), 0).db;
    assert after.payments == One(Cancelled, Some(Refunded)).payments;
    assert after.rentals == One(Cancelled, Some(Refunded)).rentals;
    OnePayment(Cancelled, Some(Refunded));
    assert LateInvoice().invoices[0].status.Settled?;
  }

  lemma AskAndRefund()
    ensures Decision(One(Confirmed, Some(Paid)), GetInvoice(ADMIN, 0)) == Some(Ready(InvoiceTx(Invoice(0, 100, Settled)), None))
    ensures Decision(One(Confirmed, Some(Paid)), Refund(0)) == Some(Ready(RefundTx(0), None))
  {
    OnePayment(Confirmed, Some(Paid));
  }

  /** An invoice that was decided before a refund and inserted after it is marked paid although its
      payment is refunded. */
  lemma StaleInvoiceIsNotPaid()
    ensures Interleaved(LateInvoice()) && !SettledIsPaid(LateInvoice())
  {
    var s, u := One(Confirmed, Some(Paid)), LateInvoice();
    var ask, insert := GetInvoice(ADMIN, 0), InvoiceTx(Invoice(0, 100, Settled));
    AskAndRefund();
    Overtaken(s, ask, insert, Refund(0), RefundTx(0));
    RefundThenInvoice();
    EveryPairIsReached(Confirmed, Some(Paid));
    ContinueWith(s, [Read(0, ask), Read(1, Refund(0)), Write(1), Write(0)], u);
  }

  // ----- the other way to a wrongly paid invoice -----

  /** A request that runs through while another one waits with its write. */
  lemma RunsThrough(s: State, jobs: map<int, Job>, request: Request, tx: Tx)
    requires 1 !in jobs && Decision(s, request) == Some(Ready(tx, None))
    ensures Steps(true, System(s, jobs, map[]), [Read(1, request), Write(1)]) == System(Commit(true, s, tx).db, jobs, map[])
  {
    TwoSteps(System(s, jobs, map[]), Read(1, request), Write(1));
    ReadReady(s, jobs, 1, request, tx);
    WriteReady(s, jobs[1 := Ready(tx, None)], 1, tx);
    assert jobs[1 := Ready(tx, None)] - {1} == jobs;
  }

  const MARK := MarkPaidTx(0)

  /** The confirmation that has committed the payment and still has to mark the invoice. */
  const MARKING: map<int, Job> := map[0 := Ready(MARK, None)]

  /** The refunded rental with an invoice that was issued after the refund. */
  function IssuedInvoice(): State {
    LateInvoice().(invoices := map[0 := Invoice(0, 100, Issued)])
  }

  lemma ConfirmWaits()
    ensures Steps(true, Idle(One(PendingPayment, Some(Pending))), [Read(0, Confirm(0, true)), Write(0)])
         == System(One(Confirmed, Some(Paid)), MARKING, map[])
  {
    var s, request := One(PendingPayment, Some(Pending)), Confirm(0, true);
    TwoSteps(Idle(s), Read(0, request), Write(0));
    var read := Step(true, Idle(s), Read(0, request));
    assert read == System(s, map[0 := Ready(ConfirmTx(0), Some(MARK))], map[]);
    assert Commit(true, s, ConfirmTx(0)) == Reply(One(Confirmed, Some(Paid)), Done);
  }

  lemma IssueAfterRefund()
    ensures Decision(One(Cancelled, Some(Refunded)), GetInvoice(ADMIN, 0)) == Some(Ready(InvoiceTx(Invoice(0, 100, Issued)), None))
    ensures Commit(true, One(Cancelled, Some(Refunded)), InvoiceTx(Invoice(0, 100, Issued))).db == IssuedInvoice()
    ensures Commit(true, IssuedInvoice(), MARK).db == LateInvoice()
  {
    OnePayment(Cancelled, Some(Refunded));
  }

  const LATE_MARK: seq<Move> :=
    [Read(0, Confirm(0, true)), Write(0)] + [Read(1, Refund(0)), Write(1)] + [Read(1, GetInvoice(ADMIN, 0)), Write(1)] + [Write(0)]

  /** A confirmation whose MarkPaid runs late, after a refund and a new invoice, marks that invoice paid
      although the payment is refunded. */
  lemma LateMarkIsNotPaid()
    ensures Steps(true, Idle(One(PendingPayment, Some(Pending))), LATE_MARK) == Idle(LateInvoice())
    ensures Interleaved(LateInvoice()) && !SettledIsPaid(LateInvoice())
  {
    ConfirmWaits();
    RefundAndIssue();
    LastMark();
    InFourParts(Idle(One(PendingPayment, Some(Pending))),
      [Read(0, Confirm(0, true)), Write(0)], System(One(Confirmed, Some(Paid)), MARKING, map[]),
      [Read(1, Refund(0)), Write(1)], System(One(Cancelled, Some(Refunded)), MARKING, map[]),
      [Read(1, GetInvoice(ADMIN, 0)), Write(1)], System(IssuedInvoice(), MARKING, map[]),
      [Write(0)], Idle(LateInvoice()));
    EveryPairIsReached(PendingPayment, Some(Pending));
    ContinueWith(One(PendingPayment, Some(Pending)), LATE_MARK, LateInvoice());
    RefundThenInvoice();
  }

  lemma InFourParts(sys: System, a: seq<Move>, one: System, b: seq<Move>, two: System, c: seq<Move>, three: System, d: seq<Move>, four: System)
    requires Steps(true, sys, a) == one && Steps(true, one, b) == two && Steps(true, two, c) == three && Steps(true, three, d) == four
    ensures Steps(true, sys, a + b + c + d) == four
  {
    StepsSplit(sys, a, b);
    StepsSplit(sys, a + b, c);
    StepsSplit(sys, a + b + c, d);
  }

  lemma RefundAndIssue()
    ensures Steps(true, System(One(Confirmed, Some(Paid)), MARKING, map[]), [Read(1, Refund(0)), Write(1)])
         == System(One(Cancelled, Some(Refunded)), MARKING, map[])
    ensures Steps(true, System(One(Cancelled, Some(Refunded)), MARKING, map[]), [Read(1, GetInvoice(ADMIN, 0)), Write(1)])
         == System(IssuedInvoice(), MARKING, map[])
  {
    AskAndRefund();
    RefundThenInvoice();
    RunsThrough(One(Confirmed, Some(Paid)), MARKING, Refund(0), RefundTx(0));
    IssueAfterRefund();
    RunsThrough(One(Cancelled, Some(Refunded)), MARKING, GetInvoice(ADMIN, 0), InvoiceTx(Invoice(0, 100, Issued)));
  }

  lemma LastMark()
    ensures Steps(true, System(IssuedInvoice(), MARKING, map[]), [Write(0)]) == Idle(LateInvoice())
  {
    var sys := System(IssuedInvoice(), MARKING, map[]);
    assert [Write(0)][..0] == [];
    assert Steps(true, sys, [Write(0)]) == Step(true, sys, Write(0));
    WriteReady(IssuedInvoice(), MARKING, 0, MARK);
    IssueAfterRefund();
    assert MARKING - {0} == map[];
  }

  // ----- a confirmed rental whose payment is refunded -----

  const CONFIRMED_AGAIN := StatusTx(0, Confirmed)

  lemma ConfirmedOverItself()
    ensures Decision(One(Confirmed, Some(Paid)), UpdateStatus(0, Confirmed)) == Some(Ready(CONFIRMED_AGAIN, None))
    ensures Commit(true, One(Confirmed, Some(Paid)), RefundTx(0)).db == One(Cancelled, Some(Refunded))
    ensures Commit(true, One(Cancelled, Some(Refunded)), CONFIRMED_AGAIN).db == One(Confirmed, Some(Refunded))
  {
    RefundThenInvoice();
    var after := Commit(true, One(Cancelled, Some(Refunded)), CONFIRMED_AGAIN).db;
    assert after.rentals == One(Confirmed, Some(Refunded)).rentals;
  }

  /** A status written over itself, decided before a refund and written after it, leaves a confirmed
      rental with a refunded payment, and there the pickup date decides. */
  lemma StaleConfirmedReachesTheDate()
    ensures var s := One(Confirmed, Some(Refunded));
            && Interleaved(s)
            && Apply(true, s, Cancel(ADMIN, 0, 0)) == Reply(s, Refused(PickupDatePassed))
            && Apply(true, s, Cancel(ADMIN, 0, -1)) == CancelRental(s, 0)
            && CancelRental(s, 0).outcome == Done
  {
    var s := One(Confirmed, Some(Paid));
    AskAndRefund();
    ConfirmedOverItself();
    Overtaken(s, UpdateStatus(0, Confirmed), CONFIRMED_AGAIN, Refund(0), RefundTx(0));
    EveryPairIsReached(Confirmed, Some(Paid));
    ContinueWith(s, [Read(0, UpdateStatus(0, Confirmed)), Read(1, Refund(0)), Write(1), Write(0)], One(Confirmed, Some(Refunded)));
    CancelAfterRefund();
  }

  lemma CancelAfterRefund()
    ensures var s := One(Confirmed, Some(Refunded));
            && Apply(true, s, Cancel(ADMIN, 0, 0)) == Reply(s, Refused(PickupDatePassed))
            && Apply(true, s, Cancel(ADMIN, 0, -1)) == CancelRental(s, 0)
            && CancelRental(s, 0).outcome == Done
  {
    var s := One(Confirmed, Some(Refunded));
    OnePayment(Confirmed, Some(Refunded));
    CancelOfConfirmed(s, ADMIN, 0, 0);
    CancelOfConfirmed(s, ADMIN, 0, -1);
  }

  // ----- days taken between the re-check and the insert -----

  /** The rental that a task has re-checked and not inserted yet. */
  const PROMISED := Rental(0, 0, 0, 0, 100, Requested, 0)

  function Holding(rental: RentalStatus, job: Job): System {
    System(One(rental, None), map[0 := job], if job.Prechecked? then map[] else map[0 := 0])
  }

  lemma NextMove(enforce: bool, sys: System, moves: seq<Move>, move: Move)
    ensures Steps(enforce, sys, moves + [move]) == Step(enforce, Steps(enforce, sys, moves), move)
  {
    assert (moves + [move])[..|moves|] == moves;
  }

  lemma RecheckedWhileCancelled(enforce: bool)
    ensures Step(enforce, Idle(One(Cancelled, None)), Read(0, CreateRental(0, 0, 0, 0, 0, 0))) == Holding(Cancelled, Prechecked(PROMISED))
    ensures Step(enforce, Holding(Cancelled, Prechecked(PROMISED)), LockCar(0)) == Holding(Cancelled, Locked(PROMISED))
    ensures Step(enforce, Holding(Cancelled, Locked(PROMISED)), Recheck(0)) == Holding(Cancelled, Rechecked(PROMISED))
  {
    Billing.BilledDaysCountTheRange(0, 0);
  }

  /** The state in which the first task holds its lock and the second is about to approve. */
  function Approving(): System {
    System(One(Cancelled, None), map[0 := Rechecked(PROMISED), 1 := Ready(StatusTx(0, Approved), None)], map[0 := 0])
  }

  lemma ApprovalIsRead(enforce: bool)
    ensures Step(enforce, Holding(Cancelled, Rechecked(PROMISED)), Read(1, UpdateStatus(0, Approved))) == Approving()
  {
    OnePayment(Cancelled, None);
  }

  lemma ApprovedMeanwhile(enforce: bool)
    ensures Step(enforce, Approving(), Write(1)) == Holding(Approved, Rechecked(PROMISED))
    ensures TakesDays(enforce, Approving(), Write(1))
  {
    var after := Step(enforce, Approving(), Write(1));
    assert Commit(enforce, One(Cancelled, None), StatusTx(0, Approved)) == Reply(One(Approved, None), Done);
    assert after.jobs == Holding(Approved, Rechecked(PROMISED)).jobs;
    assert after.locks == map[0 := 0];
    assert Promised(Approving().jobs, One(Approved, None).rentals[0]) by {
      assert Approving().jobs[0] == Rechecked(PROMISED);
    }
  }

  const TAKING: seq<Move> :=
    [Read(0, CreateRental(0, 0, 0, 0, 0, 0))] + [LockCar(0)] + [Recheck(0)] + [Read(1, UpdateStatus(0, Approved))] + [Write(1)]

  lemma TakingRuns(enforce: bool)
    ensures Steps(enforce, Idle(One(Cancelled, None)), TAKING) == Holding(Approved, Rechecked(PROMISED))
  {
    var sys, start := Idle(One(Cancelled, None)), [Read(0, CreateRental(0, 0, 0, 0, 0, 0))];
    RecheckedWhileCancelled(enforce);
    ApprovalIsRead(enforce);
    ApprovedMeanwhile(enforce);
    assert [] + start == start;
    NextMove(enforce, sys, [], start[0]);
    NextMove(enforce, sys, start, LockCar(0));
    NextMove(enforce, sys, start + [LockCar(0)], Recheck(0));
    NextMove(enforce, sys, start + [LockCar(0)] + [Recheck(0)], Read(1, UpdateStatus(0, Approved)));
    NextMove(enforce, sys, start + [LockCar(0)] + [Recheck(0)] + [Read(1, UpdateStatus(0, Approved))], Write(1));
  }

  /** A re-approval between the re-check and the insert of a creation: the approval commits, with the
      constraint or without, and then it is the creation that the constraint refuses and that books the
      day twice without it. */
  lemma ReapprovalTakesPromisedDays()
    ensures Reachable(One(Cancelled, None))
    ensures forall enforce :: Steps(enforce, Idle(One(Cancelled, None)), TAKING) == Holding(Approved, Rechecked(PROMISED))
    ensures InsertRental(true, One(Approved, None), PROMISED) == Reply(One(Approved, None), Refused(Error.DoubleBooking))
    ensures !NoDoubleBooking(InsertRental(false, One(Approved, None), PROMISED).db.rentals)
  {
    EveryPairIsReached(Cancelled, None);
    forall enforce {
      TakingRuns(enforce);
    }
    var s := One(Approved, None);
    assert Clash(PROMISED, s.rentals[0]);
    var after := InsertRental(false, s, PROMISED).db.rentals;
    assert after[1] == PROMISED && after[0] == s.rentals[0];
    assert Clash(after[0], after[1]);
  }
}
