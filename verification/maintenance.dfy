/** Maintenance records and the car status that follows them. */
module MaintenanceSync {
  import opened Models
  import opened Tables
  import opened Repositories
  import opened Services
  import opened Store

  datatype Shop = Shop(cars: map<int, Car>, records: map<int, Maintenance>)

  datatype Input = Input(carId: int, startDate: int, endDate: int, status: Option<MaintenanceStatus>)

  datatype Order =
    | Create(id: int, input: Input, today: int)
    | Update(id: int, input: Input, today: int)
    | Delete(id: int)

  datatype Served = Served(shop: Shop, outcome: Outcome)

  // ----- the statements and the status sync -----

  function RowOf(input: Input): Maintenance {
    Maintenance(input.carId, input.startDate, input.endDate, if input.status.Some? then input.status.value else Scheduled)
  }

  predicate HasActive(records: map<int, Maintenance>, carId: int) {
    exists i :: i in records && records[i].carId == carId && ActiveMaintenance(records[i].status)
  }

  predicate NoneWith(records: map<int, Maintenance>, carId: int, status: MaintenanceStatus) {
    forall i :: i in records && records[i].carId == carId ==> records[i].status != status
  }

  /** syncCarMaintenanceStatus */
  function SyncCar(shop: Shop, carId: int): Shop {
    if carId !in shop.cars then shop
    else
      var car := shop.cars[carId];
      if HasActive(shop.records, carId) then shop.(cars := shop.cars[carId := car.(status := UnderMaintenance)])
      else if car.status.UnderMaintenance? then shop.(cars := shop.cars[carId := car.(status := Available)])
      else shop
  }

  function Validate(shop: Shop, input: Input, today: int): Outcome {
    if ValidateDates(input.startDate, input.endDate, today) != Done then ValidateDates(input.startDate, input.endDate, today)
    else if input.carId !in shop.cars then Refused(NotFound)
    else Done
  }

  function CreateStep(shop: Shop, id: int, input: Input, today: int): Served {
    var checked := Validate(shop, input, today);
    if checked != Done then Served(shop, checked)
    else if id in shop.records then Served(shop, Refused(Conflict))
    else if MaintenanceClash(shop.records, id, RowOf(input)) then Served(shop, Refused(DoubleBooking))
    else Served(SyncCar(shop.(records := shop.records[id := RowOf(input)]), input.carId), Done)
  }

  function UpdateStep(shop: Shop, id: int, input: Input, today: int): Served {
    if id !in shop.records then Served(shop, Refused(NotFound))
    else
      var checked := Validate(shop, input, today);
      if checked != Done then Served(shop, checked)
      else if MaintenanceClash(shop.records, id, RowOf(input)) then Served(shop, Refused(DoubleBooking))
      else
        var written := shop.(records := shop.records[id := RowOf(input)]);
        var left := if shop.records[id].carId != input.carId then SyncCar(written, shop.records[id].carId) else written;
        Served(SyncCar(left, input.carId), Done)
  }

  function DeleteStep(shop: Shop, id: int): Served {
    if id !in shop.records then Served(shop, Refused(NotFound))
    else Served(SyncCar(shop.(records := shop.records - {id}), shop.records[id].carId), Done)
  }

  function Serve(shop: Shop, order: Order): Served {
    match order
    case Create(id, input, today) => CreateStep(shop, id, input, today)
    case Update(id, input, today) => UpdateStep(shop, id, input, today)
    case Delete(id) => DeleteStep(shop, id)
  }

  function Run(shop: Shop, orders: seq<Order>): Shop {
    if orders == [] then shop else Serve(Run(shop, orders[..|orders| - 1]), orders[|orders| - 1]).shop
  }

  // ----- what holds afterwards -----

  /** The cars that a served order concerns: the one the record is on now and the one it was on. */
  function Touched(shop: Shop, order: Order): set<int> {
    (if order.Delete? then {} else {order.input.carId})
    + (if !order.Create? && order.id in shop.records then {shop.records[order.id].carId} else {})
  }

  /** The car is under maintenance exactly when it has a scheduled or running record. */
  predicate InStep(shop: Shop, carId: int) {
    carId in shop.cars ==> (shop.cars[carId].status.UnderMaintenance? <==> HasActive(shop.records, carId))
  }

  ghost predicate AllInStep(shop: Shop) {
    forall carId :: carId in shop.cars ==> InStep(shop, carId)
  }

  lemma SyncPutsInStep(shop: Shop, carId: int)
    ensures InStep(SyncCar(shop, carId), carId)
    ensures SyncCar(shop, carId).records == shop.records
    ensures SyncCar(shop, carId).cars.Keys == shop.cars.Keys
    ensures forall other :: other in shop.cars && other != carId ==> SyncCar(shop, carId).cars[other] == shop.cars[other]
  {
  }

  lemma OtherCarsKeepTheirRecords(records: map<int, Maintenance>, after: map<int, Maintenance>, id: int, carId: int)
    requires forall i :: i != id ==> (i in after <==> i in records) && (i in after ==> after[i] == records[i])
    requires id in records ==> records[id].carId != carId
    requires id in after ==> after[id].carId != carId
    ensures HasActive(after, carId) <==> HasActive(records, carId)
  {
  }

  /** A served order puts every car it touches in step with its records, leaves every other car and its
      records as they were, and a refused order changes nothing. */
  lemma ServedCarsAreInStep(shop: Shop, order: Order, carId: int)
    ensures Serve(shop, order).outcome != Done ==> Serve(shop, order).shop == shop
    ensures Serve(shop, order).outcome == Done && carId in Touched(shop, order) ==> InStep(Serve(shop, order).shop, carId)
    ensures carId !in Touched(shop, order) ==>
      && (carId in Serve(shop, order).shop.cars <==> carId in shop.cars)
      && (carId in shop.cars ==> Serve(shop, order).shop.cars[carId] == shop.cars[carId])
      && (HasActive(Serve(shop, order).shop.records, carId) <==> HasActive(shop.records, carId))
  {
    var served := Serve(shop, order);
    if served.outcome == Done {
      match order {
      case Create(id, input, today) =>
        SyncPutsInStep(shop.(records := shop.records[id := RowOf(input)]), input.carId);
      case Update(id, input, today) =>
        var written := shop.(records := shop.records[id := RowOf(input)]);
        SyncPutsInStep(written, shop.records[id].carId);
        SyncPutsInStep(written, input.carId);
        SyncPutsInStep(SyncCar(written, shop.records[id].carId), input.carId);
      case Delete(id) =>
        SyncPutsInStep(shop.(records := shop.records - {id}), shop.records[id].carId);
      }
      if carId !in Touched(shop, order) {
        OtherCarsKeepTheirRecords(shop.records, served.shop.records, order.id, carId);
      }
    }
  }

  /** The car has a scheduled or running record. */
  ghost predicate InTheShop(records: map<int, Maintenance>, carId: int) {
    exists i :: i in records && records[i].carId == carId && (records[i].status == Scheduled || records[i].status == InProgress)
  }

  /** The status of a touched car: in maintenance with a scheduled or running record, available if it comes
      out of maintenance, and otherwise what it was. */
  function StatusAfter(inTheShop: bool, before: CarStatus): CarStatus {
    if inTheShop then UnderMaintenance else if before == UnderMaintenance then Available else before
  }

  lemma SyncedCar(shop: Shop, carId: int)
    requires carId in shop.cars
    ensures SyncCar(shop, carId).cars.Keys == shop.cars.Keys
    ensures SyncCar(shop, carId).cars[carId] ==
            Car(shop.cars[carId].dailyRate, StatusAfter(InTheShop(shop.records, carId), shop.cars[carId].status))
  {
    assert HasActive(shop.records, carId) <==> InTheShop(shop.records, carId);
  }

  /** Every car that a served order touches keeps its rate and has exactly that status. */
  lemma TouchedCarEffect(shop: Shop, order: Order, carId: int)
    requires Serve(shop, order).outcome == Done && carId in Touched(shop, order) && carId in shop.cars
    ensures var after := Serve(shop, order).shop;
            && after.cars.Keys == shop.cars.Keys
            && after.cars[carId] == Car(shop.cars[carId].dailyRate, StatusAfter(InTheShop(after.records, carId), shop.cars[carId].status))
  {
    match order
    case Create(id, input, today) => SyncedCar(shop.(records := shop.records[id := RowOf(input)]), carId);
    case Delete(id) => SyncedCar(shop.(records := shop.records - {id}), carId);
    case Update(id, input, today) =>
      var written, from := shop.(records := shop.records[id := RowOf(input)]), shop.records[id].carId;
      var left := if from != input.carId then SyncCar(written, from) else written;
      SyncPutsInStep(written, from);
      SyncPutsInStep(left, input.carId);
      if carId == input.carId {
        SyncedCar(left, carId);
      } else {
        SyncedCar(written, carId);
      }
  }

  /** A car that leaves maintenance with its last record can be rented again. */
  lemma CarComesBack(shop: Shop, order: Order, carId: int)
    requires Serve(shop, order).outcome == Done && carId in Touched(shop, order) && carId in shop.cars
    requires shop.cars[carId].status == UnderMaintenance && !InTheShop(Serve(shop, order).shop.records, carId)
    ensures Serve(shop, order).shop.cars[carId].status == Available
    ensures Rentable(Serve(shop, order).shop.cars[carId].status)
  {
    TouchedCarEffect(shop, order, carId);
  }

  /** Another scheduled or running record of the car shares a day with the range. */
  ghost predicate Occupied(records: map<int, Maintenance>, id: int, input: Input) {
    exists other, day :: other in records && other != id && AtWork(records[other], input, day)
  }

  predicate AtWork(record: Maintenance, input: Input, day: int) {
    && record.carId == input.carId && (record.status == Scheduled || record.status == InProgress)
    && record.startDate <= day <= record.endDate && input.startDate <= day <= input.endDate
  }

  /** The order asks for a scheduled or running record; scheduled is what no status means. */
  predicate ForWork(input: Input) {
    input.status == None || input.status == Some(Scheduled) || input.status == Some(InProgress)
  }

  lemma ClashIsAnOccupiedDay(records: map<int, Maintenance>, id: int, input: Input)
    requires forall i :: i in records ==> records[i].startDate <= records[i].endDate
    requires input.startDate <= input.endDate
    ensures MaintenanceClash(records, id, RowOf(input)) <==> ForWork(input) && Occupied(records, id, input)
  {
    var row := RowOf(input);
    if MaintenanceClash(records, id, row) {
      var other :| other in records && other != id && RecordsClash(row, records[other]);
      OverlapSharesADay(row.startDate, row.endDate, records[other].startDate, records[other].endDate);
      var day :| Covers(row.startDate, row.endDate, day) && Covers(records[other].startDate, records[other].endDate, day);
      assert AtWork(records[other], input, day);
    }
    if ForWork(input) && Occupied(records, id, input) {
      var other, day :| other in records && other != id && AtWork(records[other], input, day);
      assert RecordsClash(row, records[other]);
    }
  }

  /** What an order answers, and the records it leaves: the one record written or deleted, and all others. */
  lemma OrderEffect(shop: Shop, order: Order)
    requires forall i :: i in shop.records ==> shop.records[i].startDate <= shop.records[i].endDate
    ensures var served := Serve(shop, order);
            match order
            case Delete(id) =>
              && served.outcome == (if id in shop.records then Done else Refused(NotFound))
              && (served.outcome == Done ==> served.shop.records == map i | i in shop.records && i != id :: shop.records[i])
            case _ =>
              var id, input := order.id, order.input;
              var status := if input.status == None then Scheduled else input.status.value;
              && served.outcome == (if order.Update? && id !in shop.records then Refused(NotFound)
                                    else if input.endDate < input.startDate then Refused(InvalidDateSpan)
                                    else if input.startDate < order.today then Refused(StartInPast)
                                    else if input.carId !in shop.cars then Refused(NotFound)
                                    else if order.Create? && id in shop.records then Refused(Conflict)
                                    else if ForWork(input) && Occupied(shop.records, id, input) then Refused(DoubleBooking)
                                    else Done)
              && (served.outcome == Done ==>
                    served.shop.records == shop.records[id := Maintenance(input.carId, input.startDate, input.endDate, status)])
  {
    match order
    case Delete(id) =>
      if id in shop.records {
        assert shop.records - {id} == map i | i in shop.records && i != id :: shop.records[i];
      }
    case _ =>
      if order.input.startDate <= order.input.endDate {
        ClashIsAnOccupiedDay(shop.records, order.id, order.input);
      }
  }

  /** Runs of maintenance orders keep all cars in step. */
  lemma {:induction false} RunKeepsCarsInStep(shop: Shop, orders: seq<Order>)
    requires AllInStep(shop)
    ensures AllInStep(Run(shop, orders))
  {
    if orders != [] {
      var before, order := Run(shop, orders[..|orders| - 1]), orders[|orders| - 1];
      RunKeepsCarsInStep(shop, orders[..|orders| - 1]);
      forall carId {
        ServedCarsAreInStep(before, order, carId);
      }
    }
  }

  /** While cars are in step, a car that can be rented has no active record at all: a record on any day
      closes the car for every day, and the overlap of a rental with a record is never what refuses
      it. */
  lemma RecordsCloseTheCar(s: State, carId: int, start: int, end: int)
    requires AllInStep(Shop(s.cars, s.maintenances)) && carId in s.cars && Rentable(s.cars[carId].status)
    ensures !MaintenanceOverlap(s.maintenances, carId, start, end)
    ensures IsAvailable(s, carId, start, end) <==> !RentalOverlap(s.rentals, carId, start, end)
  {
    assert InStep(Shop(s.cars, s.maintenances), carId);
  }

  /** No two active records of one car share a day. */
  ghost predicate NoMaintenanceOverlap(records: map<int, Maintenance>) {
    forall i, j :: i in records && j in records && i != j ==> !RecordsClash(records[i], records[j])
  }

  /** Maintenance orders keep the records of a car apart. */
  lemma OrderKeepsRecordsApart(shop: Shop, order: Order)
    requires NoMaintenanceOverlap(shop.records)
    ensures NoMaintenanceOverlap(Serve(shop, order).shop.records)
  {
    var after := Serve(shop, order).shop.records;
    forall i, j | i in after && j in after && i != j
      ensures !RecordsClash(after[i], after[j])
    {
      if i in shop.records && j in shop.records {
        assert !RecordsClash(shop.records[i], shop.records[j]);
      }
    }
  }

  // ----- the service -----

  class MaintenanceService {
    const db: Database

    constructor (db: Database)
      ensures this.db == db
    {
      this.db := db;
    }

    ghost function View(): Shop
      reads db
    {
      Shop(db.cars, db.maintenances)
    }

    /** Asks for the records of each active status in turn. */
    method HasActiveMaintenance(carId: int) returns (found: bool)
      ensures found == HasActive(db.maintenances, carId)
    {
      var statuses := [Scheduled, InProgress];
      for n := 0 to |statuses|
        invariant forall k :: 0 <= k < n ==> NoneWith(db.maintenances, carId, statuses[k])
      {
        var rows := set i | i in db.maintenances && db.maintenances[i].carId == carId && db.maintenances[i].status == statuses[n];
        if |rows| > 0 {
          SomeMember(rows);
          return true;
        }
        assert rows == {};
        assert NoneWith(db.maintenances, carId, statuses[n]) by {
          forall i | i in db.maintenances && db.maintenances[i].carId == carId
            ensures db.maintenances[i].status != statuses[n]
          {
            assert i !in rows;
          }
        }
      }
      assert NoneWith(db.maintenances, carId, statuses[0]) && NoneWith(db.maintenances, carId, statuses[1]);
      found := false;
    }

    method SyncCarMaintenanceStatus(carId: int) returns (outcome: Outcome)
      modifies db`cars
      ensures outcome == if carId in old(db.cars) then Done else Refused(NotFound)
      ensures View() == SyncCar(old(View()), carId)
    {
      if carId !in db.cars {
        return Refused(NotFound);
      }
      var car := db.cars[carId];
      outcome := Done;
      var active := HasActiveMaintenance(carId);
      if active {
        if car.status != UnderMaintenance {
          db.cars := db.cars[carId := car.(status := UnderMaintenance)];
        }
      } else if car.status == UnderMaintenance {
        db.cars := db.cars[carId := car.(status := Available)];
      }
      assert car.status == UnderMaintenance ==> car.(status := UnderMaintenance) == car;
    }

    method Create(id: int, input: Input, today: int) returns (outcome: Outcome)
      modifies db`cars, db`maintenances
      ensures Served(View(), outcome) == Serve(old(View()), Order.Create(id, input, today))
    {
      outcome := Validate(Shop(db.cars, db.maintenances), input, today);
      if outcome != Done {
        return;
      }
      var item := Maintenance(input.carId, input.startDate, input.endDate, Scheduled);
      if input.status.Some? {
        item := item.(status := input.status.value);
      }
      if id in db.maintenances {
        return Refused(Conflict);
      }
      if MaintenanceClash(db.maintenances, id, item) {
        return Refused(DoubleBooking);
      }
      db.maintenances := db.maintenances[id := item];
      outcome := SyncCarMaintenanceStatus(item.carId);
    }

    /** The foreign key keeps the car of a record in the table. */
    method Update(id: int, input: Input, today: int) returns (outcome: Outcome)
      requires forall i :: i in db.maintenances ==> db.maintenances[i].carId in db.cars
      modifies db`cars, db`maintenances
      ensures Served(View(), outcome) == Serve(old(View()), Order.Update(id, input, today))
    {
      if id !in db.maintenances {
        return Refused(NotFound);
      }
      var current := db.maintenances[id];
      outcome := Validate(Shop(db.cars, db.maintenances), input, today);
      if outcome != Done {
        return;
      }
      var item := Maintenance(input.carId, input.startDate, input.endDate, Scheduled);
      if input.status.Some? {
        item := item.(status := input.status.value);
      }
      if MaintenanceClash(db.maintenances, id, item) {
        return Refused(DoubleBooking);
      }
      db.maintenances := db.maintenances[id := item];
      if current.carId != item.carId {
        outcome := SyncCarMaintenanceStatus(current.carId);
        if outcome != Done {
          return;
        }
      }
      outcome := SyncCarMaintenanceStatus(item.carId);
    }

    method Delete(id: int) returns (outcome: Outcome)
      requires forall i :: i in db.maintenances ==> db.maintenances[i].carId in db.cars
      modifies db`cars, db`maintenances
      ensures Served(View(), outcome) == Serve(old(View()), Order.Delete(id))
    {
      if id !in db.maintenances {
        return Refused(NotFound);
      }
      var item := db.maintenances[id];
      db.maintenances := db.maintenances - {id};
      outcome := SyncCarMaintenanceStatus(item.carId);
    }
  }
}
