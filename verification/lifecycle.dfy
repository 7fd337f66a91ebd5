/** The periodic lifecycle statement: its arms, missed ticks, and what it leaves behind. */
module Lifecycle {
  import opened Models
  import opened Tables
  import opened Repositories
  import opened DoubleBooking
  import opened Services

  // ----- the arms of the statement -----

  /** The data-modifying arms of the WITH statement. Every arm selects its rows in the snapshot the
      statement started from. */
  datatype Arm = FailedPayments | VoidedInvoices | CancelledRentals | ActivatedRentals | CompletedRentals

  const ARMS: set<Arm> := {FailedPayments, VoidedInvoices, CancelledRentals, ActivatedRentals, CompletedRentals}

  function SetStatuses(rentals: map<int, Rental>, chosen: set<int>, status: RentalStatus): map<int, Rental> {
    map i | i in rentals :: if i in chosen then rentals[i].(status := status) else rentals[i]
  }

  /** One arm, applied to the tables as the arms before it have left them. */
  function RunArm(snapshot: State, now: State, today: int, arm: Arm): State {
    match arm
    case FailedPayments =>
      now.(payments := map i | i in now.payments ::
        if i in snapshot.payments && FailsPayment(snapshot, snapshot.payments[i], today)
        then now.payments[i].(status := Failed) else now.payments[i])
    case VoidedInvoices =>
      now.(invoices := map i | i in now.invoices ::
        if i in snapshot.invoices && VoidsInvoice(snapshot, snapshot.invoices[i], today)
        then now.invoices[i].(status := Void) else now.invoices[i])
    case CancelledRentals =>
      now.(rentals := SetStatuses(now.rentals, ExpiredIds(snapshot, today), Cancelled))
    case ActivatedRentals =>
      now.(rentals := SetStatuses(now.rentals, ActivatedIds(snapshot, today), Active))
    case CompletedRentals =>
      now.(rentals := SetStatuses(now.rentals, CompletedIds(snapshot, today), Completed))
  }

  function RunArms(snapshot: State, today: int, arms: seq<Arm>): State {
    if arms == [] then snapshot
    else RunArm(snapshot, RunArms(snapshot, today, arms[..|arms| - 1]), today, arms[|arms| - 1])
  }

  /** The rental arms never choose the same rental. */
  lemma ArmsAreDisjoint(row: Rental, today: int)
    ensures !(Expired(row, today) && Activates(row, today))
    ensures !(Expired(row, today) && Completes(row, today))
    ensures !(Activates(row, today) && Completes(row, today))
  {
  }

  /** The tables after the arms in `done`, in whatever order they ran. */
  function AfterArms(s: State, today: int, done: set<Arm>): State {
    s.(
      rentals := map i | i in s.rentals :: var row := s.rentals[i];
        if CancelledRentals in done && Expired(row, today) then row.(status := Cancelled)
        else if ActivatedRentals in done && Activates(row, today) then row.(status := Active)
        else if CompletedRentals in done && Completes(row, today) then row.(status := Completed)
        else row,
      payments := map i | i in s.payments ::
        if FailedPayments in done && FailsPayment(s, s.payments[i], today) then s.payments[i].(status := Failed) else s.payments[i],
      invoices := map i | i in s.invoices ::
        if VoidedInvoices in done && VoidsInvoice(s, s.invoices[i], today) then s.invoices[i].(status := Void) else s.invoices[i])
  }

  lemma OneMoreArm(s: State, today: int, done: set<Arm>, arm: Arm)
    ensures RunArm(s, AfterArms(s, today, done), today, arm) == AfterArms(s, today, done + {arm})
  {
    if arm.FailedPayments? || arm.VoidedInvoices? {
      OneMoreDependentArm(s, today, done, arm);
    } else {
      OneMoreRentalArm(s, today, done, arm);
    }
  }

  lemma OneMoreDependentArm(s: State, today: int, done: set<Arm>, arm: Arm)
    requires arm.FailedPayments? || arm.VoidedInvoices?
    ensures RunArm(s, AfterArms(s, today, done), today, arm) == AfterArms(s, today, done + {arm})
  {
    var got, want := RunArm(s, AfterArms(s, today, done), today, arm), AfterArms(s, today, done + {arm});
    assert got.rentals == want.rentals;
    assert got.payments == want.payments;
    assert got.invoices == want.invoices;
  }

  lemma OneMoreRentalArm(s: State, today: int, done: set<Arm>, arm: Arm)
    requires !arm.FailedPayments? && !arm.VoidedInvoices?
    ensures RunArm(s, AfterArms(s, today, done), today, arm) == AfterArms(s, today, done + {arm})
  {
    var before, want := AfterArms(s, today, done), AfterArms(s, today, done + {arm});
    var got := RunArm(s, before, today, arm);
    forall i | i in s.rentals
      ensures got.rentals[i] == want.rentals[i]
    {
      ArmsAreDisjoint(s.rentals[i], today);
    }
    assert got.rentals == want.rentals;
    assert want.payments == before.payments && want.invoices == before.invoices;
  }

  lemma {:induction false} ArmsCommute(s: State, today: int, arms: seq<Arm>)
    ensures RunArms(s, today, arms) == AfterArms(s, today, set arm | arm in arms)
  {
    if arms == [] {
      assert AfterArms(s, today, {}).rentals == s.rentals;
      assert AfterArms(s, today, {}).payments == s.payments;
      assert AfterArms(s, today, {}).invoices == s.invoices;
    } else {
      var last := |arms| - 1;
      ArmsCommute(s, today, arms[..last]);
      OneMoreArm(s, today, (set arm | arm in arms[..last]), arms[last]);
      assert arms == arms[..last] + [arms[last]];
      assert (set arm | arm in arms[..last]) + {arms[last]} == (set arm | arm in arms);
    }
  }

  /** Whatever order the arms run in, the statement leaves the same tables. */
  lemma AnyOrderGivesTheSameTables(s: State, today: int, arms: seq<Arm>)
    requires (set arm | arm in arms) == ARMS
    ensures RunArms(s, today, arms) == SyncLifecycle(s, today)
  {
    ArmsCommute(s, today, arms);
    var after := AfterArms(s, today, ARMS);
    forall i | i in s.rentals
      ensures after.rentals[i] == SyncLifecycle(s, today).rentals[i]
    {
      assert CancelledRentals in ARMS && ActivatedRentals in ARMS && CompletedRentals in ARMS;
    }
    assert after.rentals == SyncLifecycle(s, today).rentals;
    assert after.payments == SyncLifecycle(s, today).payments;
    assert after.invoices == SyncLifecycle(s, today).invoices;
  }

  /** The rental arms in the order of the statement. */
  lemma RentalArmsInOrder(s: State, today: int)
    ensures var cancelled := SetStatuses(s.rentals, ExpiredIds(s, today), Cancelled);
            var activated := SetStatuses(cancelled, ActivatedIds(s, today), Active);
            SetStatuses(activated, CompletedIds(s, today), Completed) == SyncLifecycle(s, today).rentals
  {
    var cancelled := SetStatuses(s.rentals, ExpiredIds(s, today), Cancelled);
    var activated := SetStatuses(cancelled, ActivatedIds(s, today), Active);
    var got := SetStatuses(activated, CompletedIds(s, today), Completed);
    forall i | i in s.rentals
      ensures got[i] == SyncLifecycle(s, today).rentals[i]
    {
      ArmsAreDisjoint(s.rentals[i], today);
    }
  }

  function FailChosen(payments: map<int, Payment>, chosen: set<int>): map<int, Payment> {
    map i | i in payments :: if i in chosen then payments[i].(status := Failed) else payments[i]
  }

  function VoidChosen(invoices: map<int, Invoice>, chosen: set<int>): map<int, Invoice> {
    map i | i in invoices :: if i in chosen then invoices[i].(status := Void) else invoices[i]
  }

  function PendingOf(payments: map<int, Payment>, rentals: set<int>): set<int> {
    set i | i in payments && payments[i].rentalId in rentals && payments[i].status == Pending
  }

  function IssuedOf(invoices: map<int, Invoice>, rentals: set<int>): set<int> {
    set i | i in invoices && invoices[i].rentalId in rentals && invoices[i].status == Issued
  }

  /** The payment and invoice arms, which select through the ids of the expired rentals. */
  lemma DependentArms(s: State, today: int)
    ensures PendingOf(s.payments, ExpiredIds(s, today)) == FailedIds(s, today)
    ensures IssuedOf(s.invoices, ExpiredIds(s, today)) == VoidedIds(s, today)
    ensures FailChosen(s.payments, FailedIds(s, today)) == SyncLifecycle(s, today).payments
    ensures VoidChosen(s.invoices, VoidedIds(s, today)) == SyncLifecycle(s, today).invoices
  {
    forall i
      ensures i in PendingOf(s.payments, ExpiredIds(s, today)) <==> i in FailedIds(s, today)
      ensures i in IssuedOf(s.invoices, ExpiredIds(s, today)) <==> i in VoidedIds(s, today)
    {
      if i in s.payments {
        assert s.payments[i].rentalId in ExpiredIds(s, today) <==> s.payments[i].rentalId in s.rentals && Expired(s.rentals[s.payments[i].rentalId], today);
      }
    }
  }

  // ----- missed ticks -----

  /** One rental over two days: its status afterwards, and on which of the days each arm takes it. */
  lemma RowCatchUp(row: Rental, first: int, second: int)
    requires first <= second
    ensures var mid := SyncedRental(row, first);
            && SyncedRental(mid, second) == SyncedRental(row, second)
            && (Expired(row, second) <==> Expired(row, first) || Expired(mid, second))
            && !(Expired(row, first) && Expired(mid, second))
            && (Completes(row, second) <==> Completes(row, first) || Completes(mid, second))
            && !(Completes(row, first) && Completes(mid, second))
            && !(Activates(row, first) && Activates(mid, second))
            && (Activates(row, first) || Activates(mid, second)
                <==> Activates(row, second) || (Activates(row, first) && row.endDate < second))
  {
  }

  lemma MidRental(s: State, first: int, second: int, i: int)
    requires first <= second && i in s.rentals
    ensures i in SyncLifecycle(s, first).rentals
    ensures SyncLifecycle(s, first).rentals[i] == SyncedRental(s.rentals[i], first)
    ensures Expired(s.rentals[i], second) <==> Expired(s.rentals[i], first) || Expired(SyncLifecycle(s, first).rentals[i], second)
    ensures !(Expired(s.rentals[i], first) && Expired(SyncLifecycle(s, first).rentals[i], second))
  {
    RowCatchUp(s.rentals[i], first, second);
  }

  lemma MidPayment(s: State, first: int, second: int, i: int)
    requires first <= second && i in s.payments
    ensures var mid := SyncLifecycle(s, first);
            && i in mid.payments
            && (FailsPayment(s, s.payments[i], second) <==> FailsPayment(s, s.payments[i], first) || FailsPayment(mid, mid.payments[i], second))
            && !(FailsPayment(s, s.payments[i], first) && FailsPayment(mid, mid.payments[i], second))
  {
    if s.payments[i].rentalId in s.rentals {
      MidRental(s, first, second, s.payments[i].rentalId);
    }
  }

  lemma MidInvoice(s: State, first: int, second: int, i: int)
    requires first <= second && i in s.invoices
    ensures var mid := SyncLifecycle(s, first);
            && i in mid.invoices
            && (VoidsInvoice(s, s.invoices[i], second) <==> VoidsInvoice(s, s.invoices[i], first) || VoidsInvoice(mid, mid.invoices[i], second))
            && !(VoidsInvoice(s, s.invoices[i], first) && VoidsInvoice(mid, mid.invoices[i], second))
  {
    if s.invoices[i].rentalId in s.rentals {
      MidRental(s, first, second, s.invoices[i].rentalId);
    }
  }

  /** A sync on an earlier day leaves the later sync's result as it is. */
  lemma CatchUp(s: State, first: int, second: int)
    requires first <= second
    ensures SyncLifecycle(SyncLifecycle(s, first), second) == SyncLifecycle(s, second)
  {
    var split, once := SyncLifecycle(SyncLifecycle(s, first), second), SyncLifecycle(s, second);
    forall i | i in s.rentals
      ensures split.rentals[i] == once.rentals[i]
    {
      RowCatchUp(s.rentals[i], first, second);
    }
    forall i | i in s.payments
      ensures split.payments[i] == once.payments[i]
    {
      MidPayment(s, first, second, i);
    }
    forall i | i in s.invoices
      ensures split.invoices[i] == once.invoices[i]
    {
      MidInvoice(s, first, second, i);
    }
    assert split.rentals == once.rentals && split.payments == once.payments && split.invoices == once.invoices;
  }

  function SyncAll(s: State, days: seq<int>): State {
    if days == [] then s else SyncLifecycle(SyncAll(s, days[..|days| - 1]), days[|days| - 1])
  }

  /** Any number of ticks on days in order does what the last one alone does. */
  lemma {:induction false} MissedTicksAreHarmless(s: State, days: seq<int>)
    requires days != [] && forall i, j :: 0 <= i <= j < |days| ==> days[i] <= days[j]
    ensures SyncAll(s, days) == SyncLifecycle(s, days[|days| - 1])
  {
    var last := |days| - 1;
    if last > 0 {
      MissedTicksAreHarmless(s, days[..last]);
      CatchUp(s, days[last - 1], days[last]);
    } else {
      assert SyncAll(s, days[..0]) == s;
    }
  }

  lemma DisjointUnion(a: set<int>, b: set<int>, both: set<int>)
    requires a !! b && a + b == both
    ensures |a| + |b| == |both|
  {
  }

  /** The confirmed rentals that a sync on `first` activates and that are over by `second`. */
  function PassedThrough(s: State, first: int, second: int): set<int> {
    set i | i in s.rentals && Activates(s.rentals[i], first) && s.rentals[i].endDate < second
  }

  /** The counts of two syncs add up to those of the later one alone, except that the split run also
      reports the activation of rentals that are over by the second day. */
  lemma SplitCountsAddUp(s: State, first: int, second: int)
    requires first <= second
    ensures var a, b, once := CountsOf(s, first), CountsOf(SyncLifecycle(s, first), second), CountsOf(s, second);
            && a.cancelled + b.cancelled == once.cancelled
            && a.completed + b.completed == once.completed
            && a.failedPayments + b.failedPayments == once.failedPayments
            && a.voidedInvoices + b.voidedInvoices == once.voidedInvoices
            && a.activated + b.activated == once.activated + |PassedThrough(s, first, second)|
  {
    SplitCancellations(s, first, second);
    SplitCompletions(s, first, second);
    SplitActivations(s, first, second);
    SplitFailures(s, first, second);
    SplitVoids(s, first, second);
  }

  lemma SplitCancellations(s: State, first: int, second: int)
    requires first <= second
    ensures CountsOf(s, first).cancelled + CountsOf(SyncLifecycle(s, first), second).cancelled == CountsOf(s, second).cancelled
  {
    var mid := SyncLifecycle(s, first);
    forall i | i in s.rentals
      ensures !(i in ExpiredIds(s, first) && i in ExpiredIds(mid, second))
      ensures i in ExpiredIds(s, first) || i in ExpiredIds(mid, second) <==> i in ExpiredIds(s, second)
    {
      RowCatchUp(s.rentals[i], first, second);
    }
    DisjointUnion(ExpiredIds(s, first), ExpiredIds(mid, second), ExpiredIds(s, second));
  }

  lemma SplitCompletions(s: State, first: int, second: int)
    requires first <= second
    ensures CountsOf(s, first).completed + CountsOf(SyncLifecycle(s, first), second).completed == CountsOf(s, second).completed
  {
    var mid := SyncLifecycle(s, first);
    forall i | i in s.rentals
      ensures !(i in CompletedIds(s, first) && i in CompletedIds(mid, second))
      ensures i in CompletedIds(s, first) || i in CompletedIds(mid, second) <==> i in CompletedIds(s, second)
    {
      RowCatchUp(s.rentals[i], first, second);
    }
    DisjointUnion(CompletedIds(s, first), CompletedIds(mid, second), CompletedIds(s, second));
  }

  lemma ActivatedInSplit(s: State, first: int, second: int, i: int)
    requires first <= second
    ensures !(i in ActivatedIds(s, first) && i in ActivatedIds(SyncLifecycle(s, first), second))
    ensures i in ActivatedIds(s, first) || i in ActivatedIds(SyncLifecycle(s, first), second)
       <==> i in ActivatedIds(s, second) || i in PassedThrough(s, first, second)
    ensures !(i in ActivatedIds(s, second) && i in PassedThrough(s, first, second))
  {
    if i in s.rentals {
      RowCatchUp(s.rentals[i], first, second);
    }
  }

  lemma SplitActivations(s: State, first: int, second: int)
    requires first <= second
    ensures CountsOf(s, first).activated + CountsOf(SyncLifecycle(s, first), second).activated
         == CountsOf(s, second).activated + |PassedThrough(s, first, second)|
  {
    var early, late := ActivatedIds(s, first), ActivatedIds(SyncLifecycle(s, first), second);
    var once, passed := ActivatedIds(s, second), PassedThrough(s, first, second);
    forall i
      ensures !(i in early && i in late) && !(i in once && i in passed)
      ensures i in early || i in late <==> i in once || i in passed
    {
      ActivatedInSplit(s, first, second, i);
    }
    DisjointUnion(early, late, early + late);
    DisjointUnion(once, passed, early + late);
  }

  lemma SplitFailures(s: State, first: int, second: int)
    requires first <= second
    ensures CountsOf(s, first).failedPayments + CountsOf(SyncLifecycle(s, first), second).failedPayments == CountsOf(s, second).failedPayments
  {
    var mid := SyncLifecycle(s, first);
    forall i | i in s.payments
      ensures !(i in FailedIds(s, first) && i in FailedIds(mid, second))
      ensures i in FailedIds(s, first) || i in FailedIds(mid, second) <==> i in FailedIds(s, second)
    {
      MidPayment(s, first, second, i);
    }
    DisjointUnion(FailedIds(s, first), FailedIds(mid, second), FailedIds(s, second));
  }

  lemma SplitVoids(s: State, first: int, second: int)
    requires first <= second
    ensures CountsOf(s, first).voidedInvoices + CountsOf(SyncLifecycle(s, first), second).voidedInvoices == CountsOf(s, second).voidedInvoices
  {
    var mid := SyncLifecycle(s, first);
    forall i | i in s.invoices
      ensures !(i in VoidedIds(s, first) && i in VoidedIds(mid, second))
      ensures i in VoidedIds(s, first) || i in VoidedIds(mid, second) <==> i in VoidedIds(s, second)
    {
      MidInvoice(s, first, second, i);
    }
    DisjointUnion(VoidedIds(s, first), VoidedIds(mid, second), VoidedIds(s, second));
  }

  /** A second sync on the same day finds nothing to do. */
  lemma SecondSyncIsIdle(s: State, today: int)
    ensures SyncLifecycle(SyncLifecycle(s, today), today) == SyncLifecycle(s, today)
    ensures CountsOf(SyncLifecycle(s, today), today) == SyncCounts(0, 0, 0, 0, 0)
  {
    CatchUp(s, today, today);
    SplitCountsAddUp(s, today, today);
    assert forall i :: i !in PassedThrough(s, today, today);
  }

  // ----- afterwards -----

  /** After a sync every blocking rental ends today or later and every confirmed one is still to
      start. */
  lemma AfterSync(s: State, today: int, id: int)
    requires id in SyncLifecycle(s, today).rentals
    ensures var row := SyncLifecycle(s, today).rentals[id];
            && (Blocking(row.status) ==> row.endDate >= today)
            && (row.status.Confirmed? ==> row.startDate > today)
  {
  }

  /** In a reachable state a sync activates at most one rental per car. */
  lemma OneActivationPerCar(s: State, today: int, i: int, j: int)
    requires Reachable(s)
    requires i in s.rentals && j in s.rentals && s.rentals[i].carId == s.rentals[j].carId
    requires Activates(s.rentals[i], today) && Activates(s.rentals[j], today)
    ensures i == j
  {
    ReachableHasNoDoubleBooking(s);
    assert i != j ==> !Clash(s.rentals[i], s.rentals[j]);
  }
}
