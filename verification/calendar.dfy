/** The availability calendar of one car and the two other ways the program answers whether a car is
    free: the range query behind CheckAvailability and the per-day filter of the car list. */
module Calendar {
  import opened Models
  import opened Numbers
  import opened Tables
  import opened Repositories
  import opened Services
  import opened Store
  import opened PairTable
  import opened DoubleBooking
  import Billing

  /** The first and last day of the month that was asked for. */
  datatype Month = Month(first: int, last: int)

  datatype Source = OfRental(rental: RentalStatus) | OfMaintenance(maintenance: MaintenanceStatus)

  /** A row of the calendar queries. */
  datatype Range = Range(source: Source, startDate: int, endDate: int)

  // ----- the meaning of the answers -----

  /** A blocking rental or an active maintenance record of the car covers the day. */
  predicate BlockedOn(s: State, carId: int, day: int) {
    || (exists i :: i in s.rentals && s.rentals[i].carId == carId && Blocking(s.rentals[i].status)
          && Covers(s.rentals[i].startDate, s.rentals[i].endDate, day))
    || (exists i :: i in s.maintenances && s.maintenances[i].carId == carId && ActiveMaintenance(s.maintenances[i].status)
          && Covers(s.maintenances[i].startDate, s.maintenances[i].endDate, day))
  }

  ghost predicate Ascending(days: seq<int>) {
    forall i, j :: 0 <= i < j < |days| ==> days[i] < days[j]
  }

  /** The strictly ascending list of the blocked days of the month. */
  ghost predicate BlockedDays(s: State, carId: int, month: Month, days: seq<int>) {
    && Ascending(days)
    && forall day :: day in days <==> Covers(month.first, month.last, day) && BlockedOn(s, carId, day)
  }

  lemma WithoutTheLast(days: seq<int>, day: int)
    requires Ascending(days) && days != []
    ensures day in days[..|days| - 1] <==> day in days && day != days[|days| - 1]
  {
    assert days == days[..|days| - 1] + [days[|days| - 1]];
  }

  /** There is only one such list. */
  lemma {:induction false} AscendingListsAgree(a: seq<int>, b: seq<int>)
    requires Ascending(a) && Ascending(b)
    requires forall day :: day in a <==> day in b
    ensures a == b
  {
    assert a != [] ==> a[0] in a;
    assert b != [] ==> b[0] in b;
    if a != [] {
      var x, y := a[|a| - 1], b[|b| - 1];
      assert x in a && y in b;
      assert x == y;
      var restA, restB := a[..|a| - 1], b[..|b| - 1];
      forall day: int
        ensures day in restA <==> day in restB
      {
        WithoutTheLast(a, day);
        WithoutTheLast(b, day);
      }
      AscendingListsAgree(restA, restB);
      assert a == restA + [x] && b == restB + [y];
    }
  }

  // ----- the range query and the day filter -----

  datatype Availability = Availability(available: bool, days: int, total: int)

  datatype AvailabilityReply = Answer(result: Availability) | NoAnswer(error: Error)

  /** The NOT EXISTS conditions of the car list for `available_on`. */
  predicate AvailableOn(s: State, carId: int, day: int) {
    && !(exists i :: i in s.rentals && s.rentals[i].carId == carId && Blocking(s.rentals[i].status)
           && s.rentals[i].startDate <= day && s.rentals[i].endDate >= day)
    && !(exists i :: i in s.maintenances && s.maintenances[i].carId == carId && ActiveMaintenance(s.maintenances[i].status)
           && s.maintenances[i].startDate <= day && s.maintenances[i].endDate >= day)
  }

  /** A range is free for the overlap query exactly when none of its days is blocked. */
  lemma RangeIsFreeByDays(s: State, carId: int, start: int, end: int)
    requires DatesOrdered(s) && start <= end
    ensures IsAvailable(s, carId, start, end) <==> forall day :: Covers(start, end, day) ==> !BlockedOn(s, carId, day)
  {
    if IsAvailable(s, carId, start, end) {
      forall day | Covers(start, end, day)
        ensures !BlockedOn(s, carId, day)
      {
      }
    }
    if RentalOverlap(s.rentals, carId, start, end) {
      var i :| i in s.rentals && s.rentals[i].carId == carId && Blocking(s.rentals[i].status)
        && s.rentals[i].startDate <= end && s.rentals[i].endDate >= start;
      OverlapSharesADay(start, end, s.rentals[i].startDate, s.rentals[i].endDate);
    }
    if MaintenanceOverlap(s.maintenances, carId, start, end) {
      var i :| i in s.maintenances && s.maintenances[i].carId == carId && ActiveMaintenance(s.maintenances[i].status)
        && s.maintenances[i].startDate <= end && s.maintenances[i].endDate >= start;
      OverlapSharesADay(start, end, s.maintenances[i].startDate, s.maintenances[i].endDate);
    }
  }

  /** For a range of the month that a calendar was made for, CheckAvailability says available exactly
      when the car can be rented at all and the calendar lists none of the days. */
  lemma CalendarDecidesAvailability(s: State, carId: int, month: Month, days: seq<int>, start: int, end: int, today: int)
    requires DatesOrdered(s) && BlockedDays(s, carId, month, days)
    requires carId in s.cars && today <= start <= end && month.first <= start && end <= month.last
    ensures AvailabilityFor(s, carId, start, end, today).Answer?
    ensures AvailabilityFor(s, carId, start, end, today).result.available
       <==> Rentable(s.cars[carId].status) && forall day :: Covers(start, end, day) ==> day !in days
  {
    RangeIsFreeByDays(s, carId, start, end);
  }

  /** A day of the month is in the calendar exactly when the car list leaves the car out for it. */
  lemma CalendarDecidesTheDayFilter(s: State, carId: int, month: Month, days: seq<int>, day: int)
    requires BlockedDays(s, carId, month, days) && Covers(month.first, month.last, day)
    ensures day in days <==> !AvailableOn(s, carId, day)
  {
  }

  /** The booking form and the calendar agree: in the month, creating a rental gets past its checks
      exactly when the car can be rented and the calendar lists none of the days. */
  lemma CalendarDecidesCreation(s: State, carId: int, month: Month, days: seq<int>, start: int, end: int, today: int)
    requires DatesOrdered(s) && BlockedDays(s, carId, month, days)
    requires carId in s.cars && today <= start <= end && month.first <= start && end <= month.last
    ensures ValidateCreate(s, carId, start, end, today) == Done
       <==> Rentable(s.cars[carId].status) && forall day :: Covers(start, end, day) ==> day !in days
  {
    RangeIsFreeByDays(s, carId, start, end);
  }

  function AvailabilityFor(s: State, carId: int, start: int, end: int, today: int): AvailabilityReply {
    if end < start then NoAnswer(InvalidDateSpan)
    else if start < today then NoAnswer(StartInPast)
    else if carId !in s.cars then NoAnswer(NotFound)
    else
      var days, total := Billing.BilledDays(start, end), Billing.Charge(start, end, s.cars[carId].dailyRate);
      Answer(Availability(Rentable(s.cars[carId].status) && IsAvailable(s, carId, start, end), days, total))
  }

  // ----- building the calendar -----

  /** The blocking rentals of the car that overlap the month, as the query selects them. */
  function RentalRanges(rentals: map<int, Rental>, carId: int, month: Month): map<int, Range> {
    map i | i in rentals && rentals[i].carId == carId && Blocking(rentals[i].status)
            && rentals[i].startDate <= month.last && rentals[i].endDate >= month.first
      :: Range(OfRental(rentals[i].status), rentals[i].startDate, rentals[i].endDate)
  }

  /** The active maintenance records of the car that overlap the month. */
  function MaintenanceRanges(table: map<int, Maintenance>, carId: int, month: Month): map<int, Range> {
    map i | i in table && table[i].carId == carId && ActiveMaintenance(table[i].status)
            && table[i].startDate <= month.last && table[i].endDate >= month.first
      :: Range(OfMaintenance(table[i].status), table[i].startDate, table[i].endDate)
  }

  /** The rows the queries select, in statuses and dates: the bookings and the scheduled or running records
      of the car with a day at or before the end of the month and one at or after its start. */
  lemma RangesEffect(s: State, carId: int, month: Month, i: int)
    ensures i in RentalRanges(s.rentals, carId, month) <==>
      && i in s.rentals && s.rentals[i].carId == carId
      && s.rentals[i].status !in {Rejected, Cancelled, Completed}
      && !(s.rentals[i].startDate > month.last) && !(s.rentals[i].endDate < month.first)
    ensures i in RentalRanges(s.rentals, carId, month) ==>
      RentalRanges(s.rentals, carId, month)[i] == Range(OfRental(s.rentals[i].status), s.rentals[i].startDate, s.rentals[i].endDate)
    ensures i in MaintenanceRanges(s.maintenances, carId, month) <==>
      && i in s.maintenances && s.maintenances[i].carId == carId
      && s.maintenances[i].status in {Scheduled, InProgress}
      && !(s.maintenances[i].startDate > month.last) && !(s.maintenances[i].endDate < month.first)
    ensures i in MaintenanceRanges(s.maintenances, carId, month) ==>
      MaintenanceRanges(s.maintenances, carId, month)[i] ==
      Range(OfMaintenance(s.maintenances[i].status), s.maintenances[i].startDate, s.maintenances[i].endDate)
  {
  }

  /** The items are the rows, each once, in the order of their start dates; `ids` says which row each of
      them is. */
  ghost predicate Lists(rows: map<int, Range>, ids: seq<int>, items: seq<Range>) {
    && |ids| == |items|
    && (forall i :: i in ids <==> i in rows)
    && (forall j, k :: 0 <= j < k < |ids| ==> ids[j] != ids[k])
    && (forall k :: 0 <= k < |ids| ==> ids[k] in rows && items[k] == rows[ids[k]])
    && (forall j, k :: 0 <= j <= k < |items| ==> items[j].startDate <= items[k].startDate)
  }

  function InsertAt<T>(list: seq<T>, at: nat, x: T): (longer: seq<T>)
    requires at <= |list|
    ensures |longer| == |list| + 1
    ensures forall k :: 0 <= k < |longer| ==> longer[k] == if k < at then list[k] else if k == at then x else list[k - 1]
  {
    list[..at] + [x] + list[at..]
  }

  lemma InsertedMembers(ids: seq<int>, at: nat, id: int)
    requires at <= |ids|
    ensures forall i :: i in InsertAt(ids, at, id) <==> i in ids || i == id
  {
    assert ids == ids[..at] + ids[at..];
  }

  lemma InsertedInOrder(items: seq<Range>, at: nat, range: Range)
    requires at <= |items|
    requires forall j, k :: 0 <= j <= k < |items| ==> items[j].startDate <= items[k].startDate
    requires forall k :: 0 <= k < at ==> items[k].startDate <= range.startDate
    requires at < |items| ==> range.startDate <= items[at].startDate
    ensures var after := InsertAt(items, at, range);
            forall j, k :: 0 <= j <= k < |after| ==> after[j].startDate <= after[k].startDate
  {
  }

  lemma InsertedOnce(ids: seq<int>, at: nat, id: int)
    requires at <= |ids| && id !in ids
    requires forall j, k :: 0 <= j < k < |ids| ==> ids[j] != ids[k]
    ensures var after := InsertAt(ids, at, id);
            forall j, k :: 0 <= j < k < |after| ==> after[j] != after[k]
  {
  }

  lemma InsertedRow(done: map<int, Range>, id: int, range: Range, ids: seq<int>, items: seq<Range>, at: nat)
    requires Lists(done, ids, items) && id !in done && at <= |items|
    requires forall k :: 0 <= k < at ==> items[k].startDate <= range.startDate
    requires at < |items| ==> range.startDate <= items[at].startDate
    ensures Lists(done[id := range], InsertAt(ids, at, id), InsertAt(items, at, range))
  {
    InsertedMembers(ids, at, id);
    InsertedInOrder(items, at, range);
    InsertedOnce(ids, at, id);
  }

  ghost predicate InSome(ranges: seq<Range>, month: Month, day: int) {
    exists k :: 0 <= k < |ranges| && InBoth(ranges[k], month, day)
  }

  lemma InSomeOfBoth(first: seq<Range>, second: seq<Range>, month: Month, day: int)
    ensures InSome(first + second, month, day) <==> InSome(first, month, day) || InSome(second, month, day)
  {
    var both := first + second;
    if InSome(first, month, day) {
      var k :| 0 <= k < |first| && InBoth(first[k], month, day);
      assert both[k] == first[k];
    }
    if InSome(second, month, day) {
      var k :| 0 <= k < |second| && InBoth(second[k], month, day);
      assert both[|first| + k] == second[k];
    }
  }

  lemma RowsBlock(rows: map<int, Range>, ids: seq<int>, items: seq<Range>, month: Month, day: int)
    requires Lists(rows, ids, items)
    ensures InSome(items, month, day) <==> exists i :: i in rows && InBoth(rows[i], month, day)
  {
    if InSome(items, month, day) {
      var k :| 0 <= k < |items| && InBoth(items[k], month, day);
      assert InBoth(rows[ids[k]], month, day);
    }
    if i :| i in rows && InBoth(rows[i], month, day) {
      var k :| 0 <= k < |ids| && ids[k] == i;
      assert InBoth(items[k], month, day);
    }
  }

  lemma RentalsBlock(s: State, carId: int, month: Month, day: int)
    ensures var rows := RentalRanges(s.rentals, carId, month);
            (exists i :: i in rows && InBoth(rows[i], month, day)) <==>
              && Covers(month.first, month.last, day)
              && exists i :: i in s.rentals && s.rentals[i].carId == carId && Blocking(s.rentals[i].status)
                   && Covers(s.rentals[i].startDate, s.rentals[i].endDate, day)
  {
    var rows := RentalRanges(s.rentals, carId, month);
    if i :| i in s.rentals && Covers(month.first, month.last, day) && s.rentals[i].carId == carId
            && Blocking(s.rentals[i].status) && Covers(s.rentals[i].startDate, s.rentals[i].endDate, day) {
      assert i in rows && InBoth(rows[i], month, day);
    }
  }

  lemma MaintenancesBlock(s: State, carId: int, month: Month, day: int)
    ensures var rows := MaintenanceRanges(s.maintenances, carId, month);
            (exists i :: i in rows && InBoth(rows[i], month, day)) <==>
              && Covers(month.first, month.last, day)
              && exists i :: i in s.maintenances && s.maintenances[i].carId == carId && ActiveMaintenance(s.maintenances[i].status)
                   && Covers(s.maintenances[i].startDate, s.maintenances[i].endDate, day)
  {
    var rows := MaintenanceRanges(s.maintenances, carId, month);
    if i :| i in s.maintenances && Covers(month.first, month.last, day) && s.maintenances[i].carId == carId
            && ActiveMaintenance(s.maintenances[i].status) && Covers(s.maintenances[i].startDate, s.maintenances[i].endDate, day) {
      assert i in rows && InBoth(rows[i], month, day);
    }
  }

  /** What the two queries answered: first the rentals, then the records. */
  ghost predicate ListsBoth(s: State, carId: int, month: Month, rentalIds: seq<int>, recordIds: seq<int>, ranges: seq<Range>) {
    && |ranges| == |rentalIds| + |recordIds|
    && Lists(RentalRanges(s.rentals, carId, month), rentalIds, ranges[..|rentalIds|])
    && Lists(MaintenanceRanges(s.maintenances, carId, month), recordIds, ranges[|rentalIds|..])
  }

  /** What the two queries list covers, within the month, exactly the blocked days. */
  lemma RangesCoverBlockedDays(s: State, carId: int, month: Month, rentalIds: seq<int>, recordIds: seq<int>, ranges: seq<Range>, day: int)
    requires ListsBoth(s, carId, month, rentalIds, recordIds, ranges)
    ensures InSome(ranges, month, day) <==> Covers(month.first, month.last, day) && BlockedOn(s, carId, day)
  {
    var n := |rentalIds|;
    assert ranges == ranges[..n] + ranges[n..];
    InSomeOfBoth(ranges[..n], ranges[n..], month, day);
    RowsBlock(RentalRanges(s.rentals, carId, month), rentalIds, ranges[..n], month, day);
    RowsBlock(MaintenanceRanges(s.maintenances, carId, month), recordIds, ranges[n..], month, day);
    RentalsBlock(s, carId, month, day);
    MaintenancesBlock(s, carId, month, day);
  }

  /** In a reachable state the listed rentals follow one another without a shared day. */
  lemma ListedRentalsAreApart(s: State, carId: int, month: Month, ids: seq<int>, items: seq<Range>, j: nat, k: nat)
    requires Reachable(s) && Lists(RentalRanges(s.rentals, carId, month), ids, items)
    requires j < k < |items|
    ensures items[j].endDate < items[k].startDate
  {
    ReachableIsCoupled(s);
    ReachableHasNoDoubleBooking(s);
    assert !Clash(s.rentals[ids[j]], s.rentals[ids[k]]);
  }

  /** The day lies in the range and in the month. */
  predicate InBoth(range: Range, month: Month, day: int) {
    Covers(range.startDate, range.endDate, day) && Covers(month.first, month.last, day)
  }

  /** Inserts a day into an ascending list. */
  function Insert(days: seq<int>, day: int): (sorted: seq<int>)
    requires Ascending(days) && day !in days
    ensures Ascending(sorted)
    ensures forall d :: d in sorted <==> d in days || d == day
  {
    if days == [] || days[|days| - 1] < day then
      assert forall d :: d in days + [day] <==> d in days || d == day;
      days + [day]
    else
      var last := days[|days| - 1];
      assert days == days[..|days| - 1] + [last];
      var rest := Insert(days[..|days| - 1], day);
      assert last in days && day < last;
      assert forall i :: 0 <= i < |rest| ==> rest[i] in rest;
      assert forall d :: d in rest + [last] <==> d in rest || d == last;
      rest + [last]
  }

  class CalendarService {
    const db: Database

    constructor (db: Database)
      ensures this.db == db
    {
      this.db := db;
    }

    /** ORDER BY start_date ASC */
    method OrderByStart(rows: map<int, Range>) returns (items: seq<Range>, ghost ids: seq<int>)
      ensures Lists(rows, ids, items)
    {
      items, ids := [], [];
      var todo := rows.Keys;
      ghost var done: map<int, Range> := map[];
      while todo != {}
        invariant todo <= rows.Keys && done == rows - todo
        invariant Lists(done, ids, items)
        decreases todo
      {
        SomeMember(todo);
        var i :| i in todo;
        var at := 0;
        while at < |items| && items[at].startDate <= rows[i].startDate
          invariant 0 <= at <= |items|
          invariant forall k :: 0 <= k < at ==> items[k].startDate <= rows[i].startDate
        {
          at := at + 1;
        }
        InsertedRow(done, i, rows[i], ids, items, at);
        items, ids := InsertAt(items, at, rows[i]), InsertAt(ids, at, i);
        todo, done := todo - {i}, done[i := rows[i]];
        assert done == rows - todo;
      }
      assert done == rows;
    }

    /** RentalRepository.ListCalendarRanges */
    method ListRentalRanges(carId: int, month: Month) returns (items: seq<Range>, ghost ids: seq<int>)
      ensures Lists(RentalRanges(db.rentals, carId, month), ids, items)
    {
      items, ids := OrderByStart(RentalRanges(db.rentals, carId, month));
    }

    /** MaintenanceRepository.ListCalendarRanges */
    method ListMaintenanceRanges(carId: int, month: Month) returns (items: seq<Range>, ghost ids: seq<int>)
      ensures Lists(MaintenanceRanges(db.maintenances, carId, month), ids, items)
    {
      items, ids := OrderByStart(MaintenanceRanges(db.maintenances, carId, month));
    }

    /** The days of the month that the ranges cover, collected range by range and day by day. */
    method CollectDays(ranges: seq<Range>, month: Month) returns (blocked: set<int>)
      ensures forall day :: day in blocked <==> InSome(ranges, month, day)
    {
      blocked := {};
      var n := 0;
      while n < |ranges|
        invariant 0 <= n <= |ranges|
        invariant forall day :: day in blocked <==> exists k :: 0 <= k < n && InBoth(ranges[k], month, day)
      {
        var start, end := Max(ranges[n].startDate, month.first), Min(ranges[n].endDate, month.last);
        ghost var before := blocked;
        var day := start;
        while day <= end
          invariant start <= day
          invariant day <= end + 1 || day == start
          invariant forall d :: d in blocked <==> d in before || (start <= d < day && InBoth(ranges[n], month, d))
          decreases end - day
        {
          blocked := blocked + {day};
          day := day + 1;
        }
        assert forall d :: InBoth(ranges[n], month, d) <==> start <= d < day && InBoth(ranges[n], month, d);
        n := n + 1;
      }
    }

    /** The collected days as a sorted list. */
    method SortDays(blocked: set<int>) returns (days: seq<int>)
      ensures Ascending(days) && forall day :: day in days <==> day in blocked
    {
      days := [];
      var todo := blocked;
      while todo != {}
        invariant todo <= blocked
        invariant Ascending(days)
        invariant forall day :: day in days <==> day in blocked && day !in todo
        decreases todo
      {
        SomeMember(todo);
        var day :| day in todo;
        todo := todo - {day};
        days := Insert(days, day);
      }
    }

    /** RentalService.AvailabilityCalendar */
    method AvailabilityCalendar(carId: int, month: Month)
      returns (outcome: Outcome, days: seq<int>, ranges: seq<Range>, ghost rentalIds: seq<int>, ghost recordIds: seq<int>)
      ensures outcome == if carId in db.cars then Done else Refused(NotFound)
      ensures outcome == Done ==> BlockedDays(db.View(), carId, month, days)
      ensures outcome == Done ==> ListsBoth(db.View(), carId, month, rentalIds, recordIds, ranges)
    {
      days, ranges, rentalIds, recordIds := [], [], [], [];
      if carId !in db.cars {
        outcome := Refused(NotFound);
        return;
      }
      var maintenanceRanges;
      ranges, rentalIds := ListRentalRanges(carId, month);
      maintenanceRanges, recordIds := ListMaintenanceRanges(carId, month);
      ghost var n := |ranges|;
      ranges := ranges + maintenanceRanges;
      assert ranges[n..] == maintenanceRanges;
      var blocked := CollectDays(ranges, month);
      days := SortDays(blocked);
      outcome := Done;
      forall day {
        RangesCoverBlockedDays(db.View(), carId, month, rentalIds, recordIds, ranges, day);
      }
    }

    /** RentalService.CheckAvailability */
    method CheckAvailability(carId: int, start: int, end: int, today: int) returns (reply: AvailabilityReply)
      ensures reply == AvailabilityFor(db.View(), carId, start, end, today)
    {
      if end < start {
        return NoAnswer(InvalidDateSpan);
      }
      if start < today {
        return NoAnswer(StartInPast);
      }
      if carId !in db.cars {
        return NoAnswer(NotFound);
      }
      var car := db.cars[carId];
      var days := Billing.BilledDays(start, end);
      var result := Availability(false, days, days * car.dailyRate);
      if car.status == UnderMaintenance || car.status == Inactive {
        return Answer(result);
      }
      var available := !RentalOverlap(db.rentals, carId, start, end) && !MaintenanceOverlap(db.maintenances, carId, start, end);
      reply := Answer(result.(available := available));
    }
  }
}
