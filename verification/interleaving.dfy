/** Requests that run at the same time. A service reads, checks, and later writes what it decided;
    in between other requests run. Creating a rental has four steps: the checks of the service, the
    lock on the car row, the re-check under the lock, and the insert with its commit. */
module Interleaving {
  import opened Models
  import opened Tables
  import opened Repositories
  import opened Services
  import opened SchemaKept
  import opened History
  import opened DoubleBooking
  import opened PairTable
  import opened AtomicRuns
  import Billing

  datatype Job =
    | Ready(tx: Tx, follow: Option<Tx>)
    | Prechecked(row: Rental)
    | Locked(row: Rental)
    | Rechecked(row: Rental)

  /** The tables, the request in progress of each task, and which task holds which car row. */
  datatype System = System(db: State, jobs: map<int, Job>, locks: map<int, int>)

  datatype Move =
    | Read(task: int, request: Request)
    | LockCar(task: int)
    | Recheck(task: int)
    | Write(task: int)
    | Abandon(task: int)

  const START := System(EMPTY, map[], map[])

  // ----- the moves -----

  /** What a service decides to write after reading `s`. A confirmation only looks the payment up. */
  ghost function Decision(s: State, request: Request): Option<Job> {
    match request
    case CreateRental(userId, carId, start, end, today, now) =>
      if ValidateCreate(s, carId, start, end, today) == Done
      then Some(Prechecked(Rental(userId, carId, start, end, Billing.Charge(start, end, s.cars[carId].dailyRate), Requested, now)))
      else None
    case Confirm(id, markReached) =>
      if id in s.payments
      then Some(Ready(ConfirmTx(id), if markReached then Some(MarkPaidTx(s.payments[id].rentalId)) else None))
      else None
    case _ =>
      var plan := Plan(s, request);
      if plan == [] then None else Some(Ready(plan[0], None))
  }

  function Drop(sys: System, task: int): System {
    sys.(jobs := sys.jobs - {task}, locks := map car | car in sys.locks && sys.locks[car] != task :: sys.locks[car])
  }

  function LockStep(sys: System, task: int, row: Rental): System {
    if row.carId in sys.locks then sys  // waits for the holder
    else if row.carId !in sys.db.cars || !Rentable(sys.db.cars[row.carId].status) then Drop(sys, task)
    else sys.(jobs := sys.jobs[task := Locked(row)], locks := sys.locks[row.carId := task])
  }

  function RecheckStep(sys: System, task: int, row: Rental): System {
    if IsAvailable(sys.db, row.carId, row.startDate, row.endDate) then sys.(jobs := sys.jobs[task := Rechecked(row)])
    else Drop(sys, task)
  }

  function WriteStep(enforce: bool, sys: System, task: int, tx: Tx, follow: Option<Tx>): System {
    var reply := Commit(enforce, sys.db, tx);
    var after := sys.(db := reply.db);
    if reply.outcome == Done && follow.Some? then after.(jobs := sys.jobs[task := Ready(follow.value, None)])
    else Drop(after, task)
  }

  ghost function Step(enforce: bool, sys: System, move: Move): System {
    if move.Read? then
      if move.task in sys.jobs then sys
      else
        match Decision(sys.db, move.request)
        case None => sys
        case Some(job) => sys.(jobs := sys.jobs[move.task := job])
    else if move.task !in sys.jobs then sys
    else
      match (move, sys.jobs[move.task])
      case (LockCar(task), Prechecked(row)) => LockStep(sys, task, row)
      case (Recheck(task), Locked(row)) => RecheckStep(sys, task, row)
      case (Write(task), Rechecked(row)) => WriteStep(enforce, sys, task, RentalTx(row), None)
      case (Write(task), Ready(tx, follow)) => WriteStep(enforce, sys, task, tx, follow)
      case (Abandon(task), _) => Drop(sys, task)
      case _ => sys
  }

  ghost function Steps(enforce: bool, sys: System, moves: seq<Move>): System {
    if moves == [] then sys
    else Step(enforce, Steps(enforce, sys, moves[..|moves| - 1]), moves[|moves| - 1])
  }

  /** A creation takes the lock of its car when it is free and the car is there and can be rented, waits
      while another task has it, and gives up otherwise; its re-check goes on exactly if the days are
      free. */
  lemma CreationStepsEffect(enforce: bool, sys: System, task: int, row: Rental)
    requires task in sys.jobs
    ensures sys.jobs[task] == Prechecked(row) ==>
      var after := Step(enforce, sys, LockCar(task));
      if row.carId in sys.locks then after == sys
      else if row.carId in sys.db.cars && sys.db.cars[row.carId].status !in {UnderMaintenance, Inactive}
        then after == System(sys.db, sys.jobs[task := Locked(row)], sys.locks[row.carId := task])
      else after.db == sys.db && task !in after.jobs
    ensures sys.jobs[task] == Locked(row) ==>
      var after := Step(enforce, sys, Recheck(task));
      if IsAvailable(sys.db, row.carId, row.startDate, row.endDate)
        then after == System(sys.db, sys.jobs[task := Rechecked(row)], sys.locks)
      else after.db == sys.db && task !in after.jobs && forall car :: car in after.locks ==> after.locks[car] != task
  {
  }

  // ----- an interleaving is a sequence of transactions -----

  /** The transaction that a move commits, if it commits one. */
  ghost function Committed(sys: System, move: Move): Option<Tx> {
    if move.Write? && move.task in sys.jobs && sys.jobs[move.task].Rechecked? then Some(RentalTx(sys.jobs[move.task].row))
    else if move.Write? && move.task in sys.jobs && sys.jobs[move.task].Ready? then Some(sys.jobs[move.task].tx)
    else None
  }

  lemma StepCommits(enforce: bool, sys: System, move: Move)
    ensures Step(enforce, sys, move).db ==
            match Committed(sys, move) case None => sys.db case Some(tx) => Commit(enforce, sys.db, tx).db
  {
  }

  ghost function Log(enforce: bool, sys: System, moves: seq<Move>): seq<Tx> {
    if moves == [] then []
    else
      var last := |moves| - 1;
      var before := Log(enforce, sys, moves[..last]);
      match Committed(Steps(enforce, sys, moves[..last]), moves[last])
      case None => before
      case Some(tx) => before + [tx]
  }

  /** What the services put into their jobs. */
  ghost predicate SoundTx(db: State, tx: Tx) {
    && !tx.RentalTx?
    && WellFormed(tx)
    && Priced(db, tx)
    && (tx.PaymentTx? ==> tx.expected.Approved? || tx.expected.PendingPayment?)
  }

  ghost predicate SoundJob(db: State, job: Job) {
    match job
    case Ready(tx, follow) => SoundTx(db, tx) && (follow.Some? ==> follow.value.MarkPaidTx?)
    case Prechecked(row) => row.status == Requested && row.startDate <= row.endDate
    case Locked(row) => row.status == Requested && row.startDate <= row.endDate
    case Rechecked(row) => row.status == Requested && row.startDate <= row.endDate
  }

  ghost predicate SoundJobs(sys: System) {
    forall task :: task in sys.jobs ==> SoundJob(sys.db, sys.jobs[task])
  }

  lemma DecisionIsSound(s: State, request: Request)
    requires Schema(s)
    ensures match Decision(s, request) case None => true case Some(job) => SoundJob(s, job)
  {
  }

  lemma JobStaysSound(before: State, after: State, job: Job)
    requires SoundJob(before, job) && SameRentals(before, after)
    ensures SoundJob(after, job)
  {
    if job.Ready? {
      PricesStay(before, after, job.tx);
    }
  }

  lemma StepKeepsSound(enforce: bool, sys: System, move: Move)
    requires Schema(sys.db) && SoundJobs(sys)
    ensures Schema(Step(enforce, sys, move).db) && SoundJobs(Step(enforce, sys, move))
  {
    var after := Step(enforce, sys, move);
    StepKeepsFacts(enforce, sys, move);
    forall task | task in after.jobs
      ensures SoundJob(after.db, after.jobs[task])
    {
      StepJob(enforce, sys, move, task);
    }
  }

  lemma StepKeepsFacts(enforce: bool, sys: System, move: Move)
    requires Schema(sys.db)
    ensures Schema(Step(enforce, sys, move).db) && SameRentals(sys.db, Step(enforce, sys, move).db)
  {
    StepCommits(enforce, sys, move);
    if Committed(sys, move).Some? {
      CommitKeepsSchema(enforce, sys.db, Committed(sys, move).value);
      CommitKeepsFacts(enforce, sys.db, Committed(sys, move).value);
    }
  }

  lemma StepJob(enforce: bool, sys: System, move: Move, task: int)
    requires Schema(sys.db) && SoundJobs(sys) && task in Step(enforce, sys, move).jobs
    requires SameRentals(sys.db, Step(enforce, sys, move).db)
    ensures SoundJob(Step(enforce, sys, move).db, Step(enforce, sys, move).jobs[task])
  {
    if move.Read? {
      DecisionIsSound(sys.db, move.request);
    }
    if task in sys.jobs {
      JobStaysSound(sys.db, Step(enforce, sys, move).db, sys.jobs[task]);
    }
  }

  lemma {:induction false} StepsKeepSound(enforce: bool, sys: System, moves: seq<Move>)
    requires Schema(sys.db) && SoundJobs(sys)
    ensures Schema(Steps(enforce, sys, moves).db) && SoundJobs(Steps(enforce, sys, moves))
  {
    if moves != [] {
      StepsKeepSound(enforce, sys, moves[..|moves| - 1]);
      StepKeepsSound(enforce, Steps(enforce, sys, moves[..|moves| - 1]), moves[|moves| - 1]);
    }
  }

  /** Every interleaving leaves the tables that some sequence of well-formed transactions leaves. */
  lemma {:induction false} InterleavingIsALog(enforce: bool, sys: System, moves: seq<Move>)
    requires Schema(sys.db) && SoundJobs(sys)
    ensures Steps(enforce, sys, moves).db == CommitAll(enforce, sys.db, Log(enforce, sys, moves))
    ensures forall i :: 0 <= i < |Log(enforce, sys, moves)| ==> WellFormed(Log(enforce, sys, moves)[i])
  {
    if moves != [] {
      var last := |moves| - 1;
      var before := Steps(enforce, sys, moves[..last]);
      InterleavingIsALog(enforce, sys, moves[..last]);
      StepsKeepSound(enforce, sys, moves[..last]);
      StepCommits(enforce, before, moves[last]);
      var log := Log(enforce, sys, moves[..last]);
      if Committed(before, moves[last]).Some? {
        assert (log + [Committed(before, moves[last]).value])[..|log|] == log;
      }
    }
  }

  /** However requests interleave, the payment of a rental changes at most three times and the schema
      holds. */
  lemma InterleavedPaymentsAdvance(moves: seq<Move>, id: int)
    ensures var log := Log(true, START, moves);
            && Steps(true, START, moves).db == CommitAll(true, EMPTY, log)
            && Changes(Trace(true, EMPTY, log), id) <= 3
            && Schema(Steps(true, START, moves).db)
  {
    InterleavingIsALog(true, START, moves);
    AtMostThreePaymentChanges(true, EMPTY, Log(true, START, moves), id);
    StepsKeepSound(true, START, moves);
  }

  /** However requests interleave, a void invoice stays void and a rental keeps its user, car, dates
      and total. */
  lemma InterleavedPastIsKept(sys: System, moves: seq<Move>)
    requires Schema(sys.db) && SoundJobs(sys)
    ensures VoidStays(sys.db, Steps(true, sys, moves).db)
    ensures SameRentals(sys.db, Steps(true, sys, moves).db)
  {
    InterleavingIsALog(true, sys, moves);
    CommitAllKeepsVoid(true, sys.db, Log(true, sys, moves));
    CommitAllKeepsFacts(true, sys.db, Log(true, sys, moves));
  }

  /** However requests interleave, payments and invoices are over the total of their rental. */
  lemma {:induction false} StepsKeepAmounts(enforce: bool, sys: System, moves: seq<Move>)
    requires Schema(sys.db) && SoundJobs(sys) && AmountsMatch(sys.db)
    ensures AmountsMatch(Steps(enforce, sys, moves).db)
  {
    if moves != [] {
      var before := Steps(enforce, sys, moves[..|moves| - 1]);
      StepsKeepAmounts(enforce, sys, moves[..|moves| - 1]);
      StepsKeepSound(enforce, sys, moves[..|moves| - 1]);
      StepCommits(enforce, before, moves[|moves| - 1]);
      if Committed(before, moves[|moves| - 1]).Some? {
        CommitKeepsAmounts(enforce, before.db, Committed(before, moves[|moves| - 1]).value);
      }
    }
  }

  // ----- double bookings -----

  /** With the exclusion constraint no interleaving of any requests makes a double booking. */
  lemma {:induction false} InterleavedNoDoubleBooking(sys: System, moves: seq<Move>)
    requires NoDoubleBooking(sys.db.rentals)
    ensures NoDoubleBooking(Steps(true, sys, moves).db.rentals)
  {
    if moves != [] {
      var before := Steps(true, sys, moves[..|moves| - 1]);
      InterleavedNoDoubleBooking(sys, moves[..|moves| - 1]);
      StepCommits(true, before, moves[|moves| - 1]);
      if Committed(before, moves[|moves| - 1]).Some? {
        CommitKeepsNoDoubleBooking(before.db, Committed(before, moves[|moves| - 1]).value);
      }
    }
  }

  /** The move turns a rental that does not block its car into one that does. */
  ghost predicate Reenters(sys: System, move: Move) {
    match Committed(sys, move)
    case Some(StatusTx(id, status)) => id in sys.db.rentals && Blocking(status) && !Blocking(sys.db.rentals[id].status)
    case _ => false
  }

  /** Some task has found these days free under its lock and is about to insert its rental. */
  ghost predicate Promised(jobs: map<int, Job>, row: Rental) {
    exists task :: task in jobs && jobs[task].Rechecked? && jobs[task].row.carId == row.carId
      && Overlap(row.startDate, row.endDate, jobs[task].row.startDate, jobs[task].row.endDate)
  }

  /** The move re-enters a blocking status on days that another rental has or that are promised to a
      task. With the constraint only the second can commit. */
  ghost predicate TakesDays(enforce: bool, sys: System, move: Move) {
    && Reenters(sys, move)
    && var tx := Committed(sys, move).value;
       var row := sys.db.rentals[tx.id].(status := tx.status);
       && Commit(enforce, sys.db, tx).outcome == Done
       && (ClashesWithOther(sys.db.rentals, tx.id, row) || Promised(sys.jobs, row))
  }

  /** A task between its lock and its commit holds its car, and after the re-check nothing overlaps
      its rental. */
  ghost predicate Guarded(sys: System) {
    forall task :: task in sys.jobs ==>
      match sys.jobs[task]
      case Locked(row) => row.carId in sys.locks && sys.locks[row.carId] == task
      case Rechecked(row) =>
        && row.carId in sys.locks && sys.locks[row.carId] == task
        && !RentalOverlap(sys.db.rentals, row.carId, row.startDate, row.endDate)
      case _ => true
  }

  /** Nothing is booked twice, and what the tasks have found free is still free. */
  ghost predicate Apart(sys: System) {
    Guarded(sys) && NoDoubleBooking(sys.db.rentals)
  }

  lemma NoNewBlocksKeepsOverlap(before: map<int, Rental>, after: map<int, Rental>, carId: int, start: int, end: int)
    requires NoNewBlocks(before, after) && !RentalOverlap(before, carId, start, end)
    ensures !RentalOverlap(after, carId, start, end)
  {
  }

  /** A transaction other than an insertion or a re-entry adds no obstacle. */
  lemma CommitAddsNoBlocks(enforce: bool, s: State, tx: Tx)
    requires !tx.RentalTx?
    requires tx.StatusTx? && tx.id in s.rentals ==> !(Blocking(tx.status) && !Blocking(s.rentals[tx.id].status))
    ensures NoNewBlocks(s.rentals, Commit(enforce, s, tx).db.rentals)
  {
  }

  lemma InsertKeepsGuarded(enforce: bool, sys: System, task: int)
    requires Apart(sys)
    requires task in sys.jobs && sys.jobs[task].Rechecked? && sys.jobs[task].row.status == Requested
    ensures Apart(Step(enforce, sys, Write(task)))
  {
    var row, after := sys.jobs[task].row, Step(enforce, sys, Write(task));
    assert !ClashesWithOther(sys.db.rentals, sys.db.nextRental, row);
    WriteKeeps(sys.db.rentals, sys.db.nextRental, row);
    forall other | other in after.jobs && after.jobs[other].Rechecked?
      ensures !RentalOverlap(after.db.rentals, after.jobs[other].row.carId, after.jobs[other].row.startDate, after.jobs[other].row.endDate)
    {
      assert after.jobs[other].row.carId != row.carId;
      var mine := after.jobs[other].row;
      assert !RentalOverlap(sys.db.rentals, mine.carId, mine.startDate, mine.endDate);
    }
  }

  lemma ReadyKeepsGuarded(enforce: bool, sys: System, task: int)
    requires Apart(sys)
    requires task in sys.jobs && sys.jobs[task].Ready? && !sys.jobs[task].tx.RentalTx?
    requires !Reenters(sys, Write(task))
    ensures Apart(Step(enforce, sys, Write(task)))
  {
    var after := Step(enforce, sys, Write(task));
    CommitAddsNoBlocks(enforce, sys.db, sys.jobs[task].tx);
    NoNewBlocksKeeps(sys.db.rentals, after.db.rentals);
    forall other | other in after.jobs && after.jobs[other].Rechecked?
      ensures !RentalOverlap(after.db.rentals, after.jobs[other].row.carId, after.jobs[other].row.startDate, after.jobs[other].row.endDate)
    {
      var mine := after.jobs[other].row;
      NoNewBlocksKeepsOverlap(sys.db.rentals, after.db.rentals, mine.carId, mine.startDate, mine.endDate);
    }
  }

  /** One written row makes a range overlap exactly if it did before or the row does. */
  lemma WrittenOverlap(rentals: map<int, Rental>, id: int, row: Rental, carId: int, start: int, end: int)
    requires id in rentals && !Blocking(rentals[id].status) && Blocking(row.status)
    ensures RentalOverlap(rentals[id := row], carId, start, end) <==>
            RentalOverlap(rentals, carId, start, end) || (row.carId == carId && Overlap(row.startDate, row.endDate, start, end))
  {
    var after := rentals[id := row];
    if RentalOverlap(rentals, carId, start, end) {
      var i :| i in rentals && rentals[i].carId == carId && Blocking(rentals[i].status)
        && rentals[i].startDate <= end && rentals[i].endDate >= start;
      assert after[i] == rentals[i];
    }
    if row.carId == carId && Overlap(row.startDate, row.endDate, start, end) {
      assert after[id] == row;
    }
  }

  lemma ReentryKeepsGuarded(enforce: bool, sys: System, task: int)
    requires Apart(sys) && Reenters(sys, Write(task))
    ensures Apart(Step(enforce, sys, Write(task))) <==> !TakesDays(enforce, sys, Write(task))
  {
    var tx, after := Committed(sys, Write(task)).value, Step(enforce, sys, Write(task));
    var row := sys.db.rentals[tx.id].(status := tx.status);
    if Commit(enforce, sys.db, tx).outcome == Done {
      assert after.db.rentals == sys.db.rentals[tx.id := row];
      WriteKeeps(sys.db.rentals, tx.id, row);
      forall other | other in sys.jobs && sys.jobs[other].Rechecked?
        ensures other in after.jobs && after.jobs[other] == sys.jobs[other]
        ensures var mine := sys.jobs[other].row;
                RentalOverlap(after.db.rentals, mine.carId, mine.startDate, mine.endDate)
                <==> row.carId == mine.carId && Overlap(row.startDate, row.endDate, mine.startDate, mine.endDate)
      {
        var mine := sys.jobs[other].row;
        WrittenOverlap(sys.db.rentals, tx.id, row, mine.carId, mine.startDate, mine.endDate);
      }
    }
  }

  /** With or without the constraint, one move keeps all bookings apart, those in progress included,
      exactly when it is not a re-entry on taken days. */
  lemma StepKeepsGuarded(enforce: bool, sys: System, move: Move)
    requires Schema(sys.db) && SoundJobs(sys) && Apart(sys)
    ensures Apart(Step(enforce, sys, move)) <==> !TakesDays(enforce, sys, move)
  {
    if move.Write? && move.task in sys.jobs {
      assert SoundJob(sys.db, sys.jobs[move.task]);
      if sys.jobs[move.task].Rechecked? {
        InsertKeepsGuarded(enforce, sys, move.task);
      } else if Reenters(sys, move) {
        ReentryKeepsGuarded(enforce, sys, move.task);
      } else if sys.jobs[move.task].Ready? {
        ReadyKeepsGuarded(enforce, sys, move.task);
      }
    }
  }

  ghost predicate AlwaysApart(enforce: bool, moves: seq<Move>) {
    Apart(Steps(enforce, START, moves)) && (moves != [] ==> AlwaysApart(enforce, moves[..|moves| - 1]))
  }

  ghost predicate SomeMoveTakesDays(enforce: bool, moves: seq<Move>) {
    moves != [] &&
    (SomeMoveTakesDays(enforce, moves[..|moves| - 1])
     || TakesDays(enforce, Steps(enforce, START, moves[..|moves| - 1]), moves[|moves| - 1]))
  }

  /** With or without the constraint, all bookings, those in progress included, are apart at every moment
      exactly when no move of the interleaving re-enters on taken days. So the car lock and the re-check
      keep creation safe from everything but re-approvals. */
  lemma {:induction false} LockAndRecheckSuffice(enforce: bool, moves: seq<Move>)
    ensures AlwaysApart(enforce, moves) <==> !SomeMoveTakesDays(enforce, moves)
  {
    if moves != [] {
      var last := |moves| - 1;
      LockAndRecheckSuffice(enforce, moves[..last]);
      StepsKeepSound(enforce, START, moves[..last]);
      if AlwaysApart(enforce, moves[..last]) {
        StepKeepsGuarded(enforce, Steps(enforce, START, moves[..last]), moves[last]);
      }
    }
  }

  ghost predicate NeverReenters(sys: System, moves: seq<Move>) {
    forall i :: 0 <= i < |moves| ==> !Reenters(Steps(false, sys, moves[..i]), moves[i])
  }

  /** Without the constraint and without any re-entry nothing is booked twice. */
  lemma {:induction false} NoReentryNoDoubleBooking(moves: seq<Move>)
    requires NeverReenters(START, moves)
    ensures !SomeMoveTakesDays(false, moves) && NoDoubleBooking(Steps(false, START, moves).db.rentals)
  {
    if moves != [] {
      var last := |moves| - 1;
      forall i | 0 <= i < last
        ensures !Reenters(Steps(false, START, moves[..last][..i]), moves[..last][i])
      {
        assert moves[..last][..i] == moves[..i];
      }
      NoReentryNoDoubleBooking(moves[..last]);
      assert !Reenters(Steps(false, START, moves[..last]), moves[last]);
    }
    LockAndRecheckSuffice(false, moves);
  }

  /** The exclusion constraint refuses an insert exactly when its days have been taken since the
      re-check, and never while the bookings in progress are apart. */
  lemma InsertIsRefusedIffTaken(sys: System, task: int)
    requires Schema(sys.db) && SoundJobs(sys) && task in sys.jobs && sys.jobs[task].Rechecked?
    ensures var row := sys.jobs[task].row;
            row.carId in sys.db.cars ==>
              (InsertRental(true, sys.db, row).outcome == Refused(Error.DoubleBooking)
               <==> RentalOverlap(sys.db.rentals, row.carId, row.startDate, row.endDate))
    ensures Guarded(sys) ==> InsertRental(true, sys.db, sys.jobs[task].row) == InsertRental(false, sys.db, sys.jobs[task].row)
  {
    var row := sys.jobs[task].row;
    assert SoundJob(sys.db, sys.jobs[task]);
    if RentalOverlap(sys.db.rentals, row.carId, row.startDate, row.endDate) {
      var i :| i in sys.db.rentals && sys.db.rentals[i].carId == row.carId && Blocking(sys.db.rentals[i].status)
        && sys.db.rentals[i].startDate <= row.endDate && sys.db.rentals[i].endDate >= row.startDate;
      assert Clash(row, sys.db.rentals[i]);
    }
  }

  // ----- the pair table -----

  /** Going with the payment is passing the checks of the service: the open-payment guard of reviews and
      cancellations, and the checks for the start and the end of a rental; a refund after the end goes
      too. The other statuses are only ever written over themselves. */
  lemma TableIsTheGuard(status: RentalStatus, payment: Pay)
    ensures status.Approved? || status.Rejected? || status.Cancelled? ==>
      (PairOk(status, payment) <==> EnsureNoOpenPayment(payment) == Done)
    ensures PairOk(Active, payment) <==> ValidateStatusChange(Confirmed, payment, Active) == Done
    ensures PairOk(Completed, payment) <==> ValidateStatusChange(Active, payment, Completed) == Done || payment == Some(Refunded)
    ensures status.Requested? || status.PendingPayment? || status.Confirmed? ==>
      forall current :: ValidateStatusChange(current, payment, status) == Done ==> status == current
  {
  }

  /** The move writes a status that does not go with the payment the rental has by now. */
  ghost predicate StaleStatusWrite(sys: System, move: Move) {
    match Committed(sys, move)
    case Some(StatusTx(id, status)) =>
      && Commit(true, sys.db, StatusTx(id, status)).outcome == Done
      && !PairOk(status, PaymentStatusOf(sys.db.payments, id))
    case _ => false
  }

  /** One move keeps the pair table exactly when it is not a status write whose guard has become
      false since the read. */
  lemma StepKeepsTable(sys: System, move: Move)
    requires Schema(sys.db) && SoundJobs(sys) && Coupled(sys.db)
    ensures Coupled(Step(true, sys, move).db) <==> !StaleStatusWrite(sys, move)
  {
    StepCommits(true, sys, move);
    if Committed(sys, move).Some? {
      var tx := Committed(sys, move).value;
      assert SoundJob(sys.db, sys.jobs[move.task]);
      match tx
      case RentalTx(row) => InsertRentalKeepsTable(true, sys.db, row);
      case StatusTx(id, status) =>
        if Commit(true, sys.db, tx).outcome == Done {
          StatusWriteKeepsTable(true, sys.db, id, status);
        }
      case PaymentTx(payment, expected) => CreateForRentalKeepsTable(sys.db, payment, expected);
      case ConfirmTx(id) => ConfirmKeepsTable(sys.db, id);
      case FailTx(id) => FailKeepsTable(sys.db, id);
      case RefundTx(id) => RefundKeepsTable(sys.db, id);
      case SyncTx(today) => SyncKeepsTable(sys.db, today);
      case _ =>
    }
  }

  /** At every moment of the interleaving all rentals and payments are in the pair table. */
  ghost predicate AlwaysCoupled(moves: seq<Move>) {
    Coupled(Steps(true, START, moves).db) && (moves != [] ==> AlwaysCoupled(moves[..|moves| - 1]))
  }

  ghost predicate HasStaleStatusWrite(moves: seq<Move>) {
    moves != [] &&
    (HasStaleStatusWrite(moves[..|moves| - 1]) || StaleStatusWrite(Steps(true, START, moves[..|moves| - 1]), moves[|moves| - 1]))
  }

  /** A whole interleaving stays in the pair table exactly when it has no stale status write. */
  lemma {:induction false} InterleavingKeepsTable(moves: seq<Move>)
    ensures AlwaysCoupled(moves) <==> !HasStaleStatusWrite(moves)
  {
    if moves != [] {
      var last := |moves| - 1;
      InterleavingKeepsTable(moves[..last]);
      StepsKeepSound(true, START, moves[..last]);
      if AlwaysCoupled(moves[..last]) {
        StepKeepsTable(Steps(true, START, moves[..last]), moves[last]);
      }
    }
  }

  /** In an interleaving without a stale status write, Cancel on a confirmed rental is refused for its
      payment, whatever the date. */
  lemma ConfirmedCancelIsRefusedUnlessStale(moves: seq<Move>, actor: Actor, id: int, today: int)
    requires !HasStaleStatusWrite(moves)
    requires var s := Steps(true, START, moves).db;
             id in s.rentals && s.rentals[id].status.Confirmed? && Permitted(actor, s.rentals[id])
    ensures var s := Steps(true, START, moves).db;
            Apply(true, s, Cancel(actor, id, today)) == Reply(s, Refused(OpenPayment))
  {
    InterleavingKeepsTable(moves);
    var s := Steps(true, START, moves).db;
    assert PairOk(s.rentals[id].status, PaymentStatusOf(s.payments, id));
    CancelOfConfirmed(s, actor, id, today);
  }

  // ----- ends -----

  /** The move takes the rental out of completed: a status write, or the failure of a payment that is
      pending although the rental is completed. */
  ghost predicate LeavesCompleted(sys: System, move: Move, id: int) {
    match Committed(sys, move)
    case Some(StatusTx(other, status)) =>
      other == id && !status.Completed? && Commit(true, sys.db, StatusTx(other, status)).outcome == Done
    case Some(FailTx(p)) => p in sys.db.payments && sys.db.payments[p].status.Pending? && sys.db.payments[p].rentalId == id
    case _ => false
  }

  /** One move keeps a completed rental completed exactly when it is none of these; while the pair table
      holds, only a stale status write is. */
  lemma StepKeepsCompleted(sys: System, move: Move, id: int)
    requires Schema(sys.db) && SoundJobs(sys) && id in sys.db.rentals && sys.db.rentals[id].status.Completed?
    ensures id in Step(true, sys, move).db.rentals
    ensures Step(true, sys, move).db.rentals[id].status.Completed? <==> !LeavesCompleted(sys, move, id)
    ensures Coupled(sys.db) && LeavesCompleted(sys, move, id) ==> Committed(sys, move).value.StatusTx?
  {
    StepCommits(true, sys, move);
    if Committed(sys, move).Some? {
      var tx := Committed(sys, move).value;
      assert SoundJob(sys.db, sys.jobs[move.task]);
      CommitOnCompleted(sys.db, tx, id);
      if tx.FailTx? && tx.id in sys.db.payments {
        PaymentIsUnique(sys.db.payments, tx.id);
      }
    }
  }

  lemma CommitOnCompleted(s: State, tx: Tx, id: int)
    requires id in s.rentals && s.rentals[id].status.Completed? && id != s.nextRental
    requires tx.PaymentTx? ==> tx.expected.Approved? || tx.expected.PendingPayment?
    ensures id in Commit(true, s, tx).db.rentals
    ensures !tx.StatusTx? && !tx.FailTx? ==> Commit(true, s, tx).db.rentals[id].status.Completed?
    ensures tx.StatusTx? ==> (Commit(true, s, tx).db.rentals[id].status.Completed?
              <==> !(tx.id == id && !tx.status.Completed? && Commit(true, s, tx).outcome == Done))
    ensures tx.FailTx? ==> (Commit(true, s, tx).db.rentals[id].status.Completed?
              <==> !(tx.id in s.payments && s.payments[tx.id].status.Pending? && s.payments[tx.id].rentalId == id))
  {
  }

  ghost predicate AlwaysCompleted(sys: System, moves: seq<Move>, id: int) {
    && id in Steps(true, sys, moves).db.rentals && Steps(true, sys, moves).db.rentals[id].status.Completed?
    && (moves != [] ==> AlwaysCompleted(sys, moves[..|moves| - 1], id))
  }

  ghost predicate SomeMoveLeavesCompleted(sys: System, moves: seq<Move>, id: int) {
    moves != [] &&
    (SomeMoveLeavesCompleted(sys, moves[..|moves| - 1], id)
     || LeavesCompleted(Steps(true, sys, moves[..|moves| - 1]), moves[|moves| - 1], id))
  }

  /** A completed rental stays completed at every later moment exactly when no move takes it out. */
  lemma {:induction false} InterleavedCompletedStays(sys: System, moves: seq<Move>, id: int)
    requires Schema(sys.db) && SoundJobs(sys) && id in sys.db.rentals && sys.db.rentals[id].status.Completed?
    ensures AlwaysCompleted(sys, moves, id) <==> !SomeMoveLeavesCompleted(sys, moves, id)
  {
    if moves != [] {
      var last := |moves| - 1;
      InterleavedCompletedStays(sys, moves[..last], id);
      StepsKeepSound(true, sys, moves[..last]);
      if AlwaysCompleted(sys, moves[..last], id) {
        StepKeepsCompleted(Steps(true, sys, moves[..last]), moves[last], id);
      }
    }
  }

  /** However requests interleave, a payment that failed or was refunded stays so. */
  lemma InterleavedClosedStays(sys: System, moves: seq<Move>, id: int)
    requires Schema(sys.db) && SoundJobs(sys) && Closed(sys.db, id)
    ensures Closed(Steps(true, sys, moves).db, id)
  {
    InterleavingIsALog(true, sys, moves);
    TransactionsKeepClosed(sys.db, Log(true, sys, moves), id);
  }

  // ----- invoices marked paid -----

  /** The move inserts an invoice marked paid, or marks one paid, although the payment of its rental is
      not paid by now. */
  ghost predicate StaleInvoiceWrite(sys: System, move: Move) {
    match Committed(sys, move)
    case Some(InvoiceTx(row)) =>
      && InsertInvoice(sys.db, row).outcome == Done
      && row.status.Settled?
      && PaymentStatusOf(sys.db.payments, row.rentalId) != Some(Paid)
    case Some(MarkPaidTx(rentalId)) =>
      && (exists i :: i in sys.db.invoices && sys.db.invoices[i].rentalId == rentalId && sys.db.invoices[i].status.Issued?)
      && PaymentStatusOf(sys.db.payments, rentalId) != Some(Paid)
    case _ => false
  }

  lemma InvoiceWriteKeepsSettled(s: State, row: Invoice)
    requires Schema(s) && SettledIsPaid(s)
    ensures SettledIsPaid(InsertInvoice(s, row).db) <==>
      !(InsertInvoice(s, row).outcome == Done && row.status.Settled? && PaymentStatusOf(s.payments, row.rentalId) != Some(Paid))
  {
    var after := InsertInvoice(s, row).db;
    if InsertInvoice(s, row).outcome == Done {
      assert after.invoices[s.nextInvoice] == row;
    }
  }

  lemma MarkKeepsSettled(s: State, rentalId: int)
    requires SettledIsPaid(s)
    ensures SettledIsPaid(MarkInvoicePaid(s, rentalId)) <==>
      !((exists i :: i in s.invoices && s.invoices[i].rentalId == rentalId && s.invoices[i].status.Issued?)
        && PaymentStatusOf(s.payments, rentalId) != Some(Paid))
  {
    var after := MarkInvoicePaid(s, rentalId);
    if i :| i in s.invoices && s.invoices[i].rentalId == rentalId && s.invoices[i].status.Issued? {
      assert after.invoices[i].status.Settled? && after.invoices[i].rentalId == rentalId;
    }
  }

  lemma CommitKeepsSettled(s: State, tx: Tx)
    requires Schema(s) && SettledIsPaid(s) && !tx.InvoiceTx? && !tx.MarkPaidTx?
    ensures SettledIsPaid(Commit(true, s, tx).db)
  {
    match tx
    case PaymentTx(payment, expected) => PaymentKeepsSettled(s, payment, expected);
    case ConfirmTx(id) => if ConfirmPayment(s, id).outcome == Done { ConfirmKeepsSettled(s, id, false); }
    case FailTx(id) => FailKeepsSettled(s, id);
    case RefundTx(id) => RefundKeepsSettled(s, id);
    case SyncTx(today) => SyncKeepsSettled(s, today);
    case _ =>
  }

  /** One move keeps invoices marked paid over paid payments exactly when it is not a stale invoice
      write. */
  lemma StepKeepsSettled(sys: System, move: Move)
    requires Schema(sys.db) && SettledIsPaid(sys.db)
    ensures SettledIsPaid(Step(true, sys, move).db) <==> !StaleInvoiceWrite(sys, move)
  {
    StepCommits(true, sys, move);
    if Committed(sys, move).Some? {
      var tx := Committed(sys, move).value;
      match tx
      case InvoiceTx(row) => InvoiceWriteKeepsSettled(sys.db, row);
      case MarkPaidTx(rentalId) => MarkKeepsSettled(sys.db, rentalId);
      case _ => CommitKeepsSettled(sys.db, tx);
    }
  }

  /** At every moment of the interleaving invoices marked paid have paid payments. */
  ghost predicate AlwaysSettled(moves: seq<Move>) {
    SettledIsPaid(Steps(true, START, moves).db) && (moves != [] ==> AlwaysSettled(moves[..|moves| - 1]))
  }

  ghost predicate HasStaleInvoiceWrite(moves: seq<Move>) {
    moves != [] &&
    (HasStaleInvoiceWrite(moves[..|moves| - 1]) || StaleInvoiceWrite(Steps(true, START, moves[..|moves| - 1]), moves[|moves| - 1]))
  }

  /** A whole interleaving keeps them so exactly when it has no stale invoice write. */
  lemma {:induction false} InterleavingKeepsSettled(moves: seq<Move>)
    ensures AlwaysSettled(moves) <==> !HasStaleInvoiceWrite(moves)
  {
    if moves != [] {
      var last := |moves| - 1;
      InterleavingKeepsSettled(moves[..last]);
      StepsKeepSound(true, START, moves[..last]);
      if AlwaysSettled(moves[..last]) {
        StepKeepsSettled(Steps(true, START, moves[..last]), moves[last]);
      }
    }
  }
}
