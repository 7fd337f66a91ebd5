/** No two rentals of one car in a blocking status share a day: what keeps it so, and which request
    needs the exclusion constraint for it. */
module DoubleBooking {
  import opened Models
  import opened Tables
  import opened Repositories
  import opened Services
  import opened PairTable
  import opened PairWitnesses
  import Billing

  /** No row of the second table is more of an obstacle than the row of the first. */
  ghost predicate NoNewBlocks(before: map<int, Rental>, after: map<int, Rental>) {
    forall i :: i in after ==>
      && i in before
      && after[i].carId == before[i].carId
      && after[i].startDate == before[i].startDate && after[i].endDate == before[i].endDate
      && (Blocking(after[i].status) ==> Blocking(before[i].status))
  }

  lemma NoNewBlocksKeeps(before: map<int, Rental>, after: map<int, Rental>)
    requires NoDoubleBooking(before) && NoNewBlocks(before, after)
    ensures NoDoubleBooking(after)
  {
    forall i, j | i in after && j in after && i != j
      ensures !Clash(after[i], after[j])
    {
      assert !Clash(before[i], before[j]);
    }
  }

  /** Writing one row that clashes with no other keeps the table free of clashes, and only then. */
  lemma WriteKeeps(rentals: map<int, Rental>, id: int, row: Rental)
    requires NoDoubleBooking(rentals)
    ensures NoDoubleBooking(rentals[id := row]) <==> !ClashesWithOther(rentals, id, row)
  {
    var after := rentals[id := row];
    if ClashesWithOther(rentals, id, row) {
      var other :| other in rentals && other != id && Clash(row, rentals[other]);
      assert Clash(after[id], after[other]);
    } else {
      forall i, j | i in after && j in after && i != j
        ensures !Clash(after[i], after[j])
      {
        if i != id && j != id {
          assert !Clash(rentals[i], rentals[j]);
        } else if i == id {
          assert !Clash(row, rentals[j]);
        } else {
          assert !Clash(row, rentals[i]);
        }
      }
    }
  }

  /** With the exclusion constraint, no transaction makes a double booking, whatever it is and
      however stale the read behind it. */
  lemma CommitKeepsNoDoubleBooking(s: State, tx: Tx)
    requires NoDoubleBooking(s.rentals)
    ensures NoDoubleBooking(Commit(true, s, tx).db.rentals)
  {
    var after := Commit(true, s, tx).db.rentals;
    match tx
    case RentalTx(row) => WriteKeeps(s.rentals, s.nextRental, row);
    case StatusTx(id, status) =>
      if id in s.rentals {
        WriteKeeps(s.rentals, id, s.rentals[id].(status := status));
      }
    case _ => NoNewBlocksKeeps(s.rentals, after);
  }

  /** Only the approval of a rejected or cancelled rental can meet another booking of the same days. */
  ghost predicate NeedsConstraint(s: State, request: Request) {
    && request.UpdateStatus? && request.next.Approved?
    && request.rentalId in s.rentals
    && (var row := s.rentals[request.rentalId];
        && (row.status.Rejected? || row.status.Cancelled?)
        && ClashesWithOther(s.rentals, request.rentalId, row.(status := Approved)))
  }

  lemma StatusWriteNeedsConstraint(s: State, id: int, status: RentalStatus)
    requires NoDoubleBooking(s.rentals) && id in s.rentals
    requires Blocking(s.rentals[id].status) || !Blocking(status)
    ensures UpdateRentalStatus(true, s, id, status) == UpdateRentalStatus(false, s, id, status)
    ensures NoDoubleBooking(UpdateRentalStatus(false, s, id, status).db.rentals)
  {
    var row := s.rentals[id].(status := status);
    forall other | other in s.rentals && other != id
      ensures !Clash(row, s.rentals[other])
    {
      assert !Clash(s.rentals[id], s.rentals[other]);
    }
    WriteKeeps(s.rentals, id, row);
  }

  /** The locked re-check of a new rental already excludes every clash. */
  lemma CreationNeedsNoConstraint(s: State, row: Rental)
    requires NoDoubleBooking(s.rentals) && row.status == Requested
    ensures CreateWithAvailability(true, s, row) == CreateWithAvailability(false, s, row)
    ensures NoDoubleBooking(CreateWithAvailability(false, s, row).db.rentals)
  {
    if !RentalOverlap(s.rentals, row.carId, row.startDate, row.endDate) {
      assert !ClashesWithOther(s.rentals, s.nextRental, row);
      WriteKeeps(s.rentals, s.nextRental, row);
    }
  }

  lemma ReapprovalNeedsConstraint(s: State, id: int)
    requires Schema(s) && Coupled(s) && NoDoubleBooking(s.rentals) && id in s.rentals
    requires s.rentals[id].status.Rejected? || s.rentals[id].status.Cancelled?
    ensures NoDoubleBooking(UpdateStatusStep(false, s, id, Approved).db.rentals) <==> !NeedsConstraint(s, UpdateStatus(id, Approved))
    ensures UpdateStatusStep(true, s, id, Approved) == UpdateStatusStep(false, s, id, Approved)
       <==> !NeedsConstraint(s, UpdateStatus(id, Approved))
  {
    WriteKeeps(s.rentals, id, s.rentals[id].(status := Approved));
    assert PairOk(s.rentals[id].status, PaymentStatusOf(s.payments, id));
  }

  /** The request has the same answer and the same effect with and without the constraint, and the
      effect is free of clashes. */
  ghost predicate IndifferentToConstraint(s: State, request: Request) {
    && Apply(true, s, request) == Apply(false, s, request)
    && NoDoubleBooking(Apply(false, s, request).db.rentals)
  }

  lemma CreateIsIndifferent(s: State, request: Request)
    requires NoDoubleBooking(s.rentals) && request.CreateRental?
    ensures IndifferentToConstraint(s, request)
  {
    var CreateRental(userId, carId, start, end, today, now) := request;
    if ValidateCreate(s, carId, start, end, today) == Done {
      var total := Billing.Charge(start, end, s.cars[carId].dailyRate);
      CreationNeedsNoConstraint(s, Rental(userId, carId, start, end, total, Requested, now));
    }
  }

  lemma StatusUpdateIsIndifferent(s: State, request: Request)
    requires Schema(s) && Coupled(s) && NoDoubleBooking(s.rentals)
    requires request.UpdateStatus?
    requires request.rentalId in s.rentals && request.next.Approved? ==>
      !s.rentals[request.rentalId].status.Rejected? && !s.rentals[request.rentalId].status.Cancelled?
    ensures IndifferentToConstraint(s, request)
  {
    var UpdateStatus(id, next) := request;
    if id in s.rentals && ValidateStatusChange(s.rentals[id].status, PaymentStatusOf(s.payments, id), next) == Done {
      assert PairOk(s.rentals[id].status, PaymentStatusOf(s.payments, id));
      StatusWriteNeedsConstraint(s, id, next);
    }
  }

  lemma ReviewIsIndifferent(s: State, request: Request)
    requires NoDoubleBooking(s.rentals) && (request.Approve? || request.Reject?)
    ensures IndifferentToConstraint(s, request)
  {
    var id := request.rentalId;
    if id in s.rentals && Apply(true, s, request).outcome != Refused(InvalidTransition) {
      StatusWriteNeedsConstraint(s, id, if request.Approve? then Approved else Rejected);
    }
  }

  lemma OthersAreIndifferent(s: State, request: Request)
    requires NoDoubleBooking(s.rentals)
    requires !request.CreateRental? && !request.UpdateStatus? && !request.Approve? && !request.Reject?
    ensures IndifferentToConstraint(s, request)
  {
    OthersAddNoBlocks(s, request);
    NoNewBlocksKeeps(s.rentals, Apply(false, s, request).db.rentals);
  }

  lemma OthersAddNoBlocks(s: State, request: Request)
    requires !request.CreateRental? && !request.UpdateStatus? && !request.Approve? && !request.Reject?
    ensures NoNewBlocks(s.rentals, Apply(false, s, request).db.rentals)
  {
  }

  /** With atomic requests the exclusion constraint matters for exactly one request, the approval of
      a rejected or cancelled rental whose days are taken: it changes the answer to that request
      only, and without it that request, and no other, makes a double booking. */
  lemma OnlyReapprovalNeedsTheConstraint(s: State, request: Request)
    requires Schema(s) && Coupled(s) && NoDoubleBooking(s.rentals)
    ensures NoDoubleBooking(Apply(false, s, request).db.rentals) <==> !NeedsConstraint(s, request)
    ensures Apply(true, s, request) == Apply(false, s, request) <==> !NeedsConstraint(s, request)
  {
    match request
    case CreateRental(_, _, _, _, _, _) => CreateIsIndifferent(s, request);
    case UpdateStatus(id, next) =>
      if next.Approved? && id in s.rentals && (s.rentals[id].status.Rejected? || s.rentals[id].status.Cancelled?) {
        ReapprovalNeedsConstraint(s, id);
      } else {
        StatusUpdateIsIndifferent(s, request);
      }
    case Approve(_) => ReviewIsIndifferent(s, request);
    case Reject(_) => ReviewIsIndifferent(s, request);
    case _ => OthersAreIndifferent(s, request);
  }

  lemma {:induction false} RunKeepsNoDoubleBooking(s: State, requests: seq<Request>)
    requires NoDoubleBooking(s.rentals)
    ensures NoDoubleBooking(Run(s, requests).rentals)
  {
    if requests != [] {
      var before := Run(s, requests[..|requests| - 1]);
      RunKeepsNoDoubleBooking(s, requests[..|requests| - 1]);
      RequestRunsItsPlan(true, before, requests[|requests| - 1]);
      PlanKeepsNoDoubleBooking(before, Plan(before, requests[|requests| - 1]));
    }
  }

  lemma {:induction false} PlanKeepsNoDoubleBooking(s: State, txs: seq<Tx>)
    requires NoDoubleBooking(s.rentals)
    ensures NoDoubleBooking(CommitAll(true, s, txs).rentals)
  {
    if txs != [] {
      PlanKeepsNoDoubleBooking(s, txs[..|txs| - 1]);
      CommitKeepsNoDoubleBooking(CommitAll(true, s, txs[..|txs| - 1]), txs[|txs| - 1]);
    }
  }

  lemma ReachableHasNoDoubleBooking(s: State)
    requires Reachable(s)
    ensures NoDoubleBooking(s.rentals)
  {
    var requests :| Run(EMPTY, requests) == s;
    RunKeepsNoDoubleBooking(EMPTY, requests);
  }

  // ----- the constraint is really needed -----

  /** A cancelled rental whose day another rental has taken since. */
  function Retaken(): State {
    One(Cancelled, None).(
      rentals := map[0 := Rental(0, 0, 0, 0, 100, Cancelled, 0), 1 := Rental(0, 0, 0, 0, 100, Requested, 0)],
      nextRental := 2)
  }

  /** Such a state is reached, and there the exclusion constraint is what refuses the approval. */
  lemma ConstraintIsNeededSomewhere()
    ensures Reachable(Retaken())
    ensures NeedsConstraint(Retaken(), UpdateStatus(0, Approved))
    ensures Apply(true, Retaken(), UpdateStatus(0, Approved)) == Reply(Retaken(), Refused(Error.DoubleBooking))
    ensures !NoDoubleBooking(Apply(false, Retaken(), UpdateStatus(0, Approved)).db.rentals)
  {
    var s := One(Cancelled, None);
    EveryPairIsReached(Cancelled, None);
    ReachableStep(s, CreateRental(0, 0, 0, 0, 0, 0));
    Billing.BilledDaysCountTheRange(0, 0);
    assert Next(s, CreateRental(0, 0, 0, 0, 0, 0)).rentals == Retaken().rentals;
    assert Next(s, CreateRental(0, 0, 0, 0, 0, 0)) == Retaken();
    var t := Retaken();
    assert Clash(t.rentals[0].(status := Approved), t.rentals[1]);
    assert ClashesWithOther(t.rentals, 0, t.rentals[0].(status := Approved));
    ReachableIsCoupled(t);
    ReachableHasNoDoubleBooking(t);
    ReapprovalNeedsConstraint(t, 0);
    assert PairOk(t.rentals[0].status, PaymentStatusOf(t.payments, 0));
  }
}
