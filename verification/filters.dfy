/** The WHERE clauses of the list endpoints: conditions with numbered placeholders and the arguments
    they number. */
module Filters {
  import opened Models
  import opened Tables
  import opened Repositories
  import opened Text
  import opened Calendar

  // ----- a small part of SQL -----

  datatype Value = Null | Number(n: int) | Str(text: string)

  /** A row as column values; a column of an outer join without a match is NULL. */
  datatype Columns = Columns(id: int, values: map<string, Value>)

  datatype Comparison = Eq | Ge | Le

  /** Conditions over a row. `ph` is the number of a placeholder, counted from one. */
  datatype Condition =
    | Compare(column: string, op: Comparison, ph: int)
    | AnyILike(columns: seq<string>, ph: int)
    | NoRentalOn(ph: int)
    | NoMaintenanceOn(ph: int)

  function ValueOf(row: Columns, column: string): Value {
    if column in row.values then row.values[column] else Null
  }

  /** CAST(... AS TEXT) for the columns that are searched. */
  function TextOf(value: Value): string {
    match value
    case Null => ""
    case Str(text) => text
    case Number(n) => if n >= 0 then Itoa(n) else "-" + Itoa(-n)
  }

  /** Comparing with NULL is not true. */
  predicate Holds(left: Value, op: Comparison, right: Value) {
    match (left, right)
    case (Number(a), Number(b)) => (match op case Eq => a == b case Ge => a >= b case Le => a <= b)
    case (Str(a), Str(b)) => op.Eq? && a == b
    case _ => false
  }

  predicate InRange(condition: Condition, args: seq<Value>) {
    1 <= condition.ph <= |args|
  }

  /** The value of a condition for a row of the database `db`. */
  predicate Eval(condition: Condition, args: seq<Value>, db: State, row: Columns)
    requires InRange(condition, args)
  {
    var arg := args[condition.ph - 1];
    match condition
    case Compare(column, op, _) => Holds(ValueOf(row, column), op, arg)
    case AnyILike(columns, _) =>
      exists i :: 0 <= i < |columns| && ValueOf(row, columns[i]) != Null && ILike(TextOf(ValueOf(row, columns[i])), TextOf(arg))
    case NoRentalOn(_) => arg.Number? && !RentalOverlap(db.rentals, row.id, arg.n, arg.n)
    case NoMaintenanceOn(_) => arg.Number? && !MaintenanceOverlap(db.maintenances, row.id, arg.n, arg.n)
  }

  /** The conditions joined with AND, and the arguments they refer to. */
  datatype Where = Where(conditions: seq<Condition>, args: seq<Value>)

  /** Every placeholder has an argument. */
  ghost predicate WellNumbered(where: Where) {
    forall i :: 0 <= i < |where.conditions| ==> InRange(where.conditions[i], where.args)
  }

  ghost predicate Selects(where: Where, db: State, row: Columns)
    requires WellNumbered(where)
  {
    forall i :: 0 <= i < |where.conditions| ==> Eval(where.conditions[i], where.args, db, row)
  }

  // ----- adding conditions -----

  const NO_CONDITION := Where([], [])

  function WithArg(where: Where, value: Value): Where {
    where.(args := where.args + [value])
  }

  function WithCondition(where: Where, condition: Condition): Where {
    where.(conditions := where.conditions + [condition])
  }

  /** A new argument leaves the meaning of the conditions as it is. */
  lemma ArgKeepsMeaning(where: Where, value: Value, db: State, row: Columns)
    requires WellNumbered(where)
    ensures WellNumbered(WithArg(where, value))
    ensures Selects(WithArg(where, value), db, row) <==> Selects(where, db, row)
  {
    var longer := WithArg(where, value);
    forall i | 0 <= i < |where.conditions|
      ensures InRange(longer.conditions[i], longer.args)
      ensures Eval(longer.conditions[i], longer.args, db, row) == Eval(where.conditions[i], where.args, db, row)
    {
      assert InRange(where.conditions[i], where.args);
      assert longer.args[where.conditions[i].ph - 1] == where.args[where.conditions[i].ph - 1];
    }
  }

  lemma ConditionNarrows(where: Where, condition: Condition, db: State, row: Columns)
    requires WellNumbered(where) && InRange(condition, where.args)
    ensures WellNumbered(WithCondition(where, condition))
    ensures Selects(WithCondition(where, condition), db, row) <==> Selects(where, db, row) && Eval(condition, where.args, db, row)
  {
    var longer := WithCondition(where, condition);
    assert longer.conditions[|where.conditions|] == condition;
    forall i | 0 <= i < |where.conditions|
      ensures longer.conditions[i] == where.conditions[i]
    {
    }
    assert forall i :: 0 <= i < |longer.conditions| ==> InRange(longer.conditions[i], longer.args);
    if Selects(longer, db, row) {
      assert Eval(longer.conditions[|where.conditions|], longer.args, db, row);
      forall i | 0 <= i < |where.conditions|
        ensures Eval(where.conditions[i], where.args, db, row)
      {
        assert Eval(longer.conditions[i], longer.args, db, row);
      }
    }
  }

  // ----- the filters of the list endpoints -----

  /** Zero values of the source switch a criterion off: empty text, numbers that are not positive, and
      no date. Rates are in cents. */
  datatype Filter =
    | CarFilter(search: string, status: string, minYear: int, maxYear: int, minDailyRate: int, maxDailyRate: int, availableOn: Option<int>)
    | RentalFilter(status: string, paymentStatus: string, userId: int, carId: int, startFrom: Option<int>, endTo: Option<int>)
    | MaintenanceFilter(carId: int, status: string)
    | UserFilter(search: string, role: string)

  const CAR_TEXTS := ["brand", "model", "plate_number", "year"]
  const USER_TEXTS := ["name", "email", "phone"]

  predicate Mentions(row: Columns, columns: seq<string>, search: string) {
    search != "" ==> exists i :: 0 <= i < |columns| && ValueOf(row, columns[i]) != Null
                                 && ILike(TextOf(ValueOf(row, columns[i])), "%" + search + "%")
  }

  predicate IsText(row: Columns, column: string, wanted: string) {
    wanted != "" ==> ValueOf(row, column) == Str(wanted)
  }

  predicate IsNumber(row: Columns, column: string, wanted: int) {
    wanted > 0 ==> ValueOf(row, column) == Number(wanted)
  }

  predicate AtLeast(row: Columns, column: string, bound: int) {
    bound > 0 ==> ValueOf(row, column).Number? && ValueOf(row, column).n >= bound
  }

  predicate AtMost(row: Columns, column: string, bound: int) {
    bound > 0 ==> ValueOf(row, column).Number? && ValueOf(row, column).n <= bound
  }

  predicate From(row: Columns, column: string, bound: Option<int>) {
    bound.Some? ==> ValueOf(row, column).Number? && ValueOf(row, column).n >= bound.value
  }

  predicate UpTo(row: Columns, column: string, bound: Option<int>) {
    bound.Some? ==> ValueOf(row, column).Number? && ValueOf(row, column).n <= bound.value
  }

  /** The row is what the filter asks for. */
  predicate Matches(filter: Filter, db: State, row: Columns) {
    match filter
    case CarFilter(search, status, minYear, maxYear, minDailyRate, maxDailyRate, availableOn) =>
      && Mentions(row, CAR_TEXTS, search)
      && IsText(row, "status", status)
      && AtLeast(row, "year", minYear) && AtMost(row, "year", maxYear)
      && AtLeast(row, "daily_rate", minDailyRate) && AtMost(row, "daily_rate", maxDailyRate)
      && (availableOn.Some? ==> AvailableOn(db, row.id, availableOn.value))
    case RentalFilter(status, paymentStatus, userId, carId, startFrom, endTo) =>
      && IsText(row, "r.status", status) && IsText(row, "p.status", paymentStatus)
      && IsNumber(row, "r.user_id", userId) && IsNumber(row, "r.car_id", carId)
      && From(row, "r.start_date", startFrom) && UpTo(row, "r.end_date", endTo)
    case MaintenanceFilter(carId, status) => IsNumber(row, "car_id", carId) && IsText(row, "status", status)
    case UserFilter(search, role) => Mentions(row, USER_TEXTS, search) && IsText(row, "role", role)
  }

  /** The column holds a number from the first bound to the second; bounds below one do not count. */
  predicate Between(row: Columns, column: string, low: int, high: int) {
    || (low <= 0 && high <= 0)
    || (column in row.values && row.values[column].Number?
        && !(low >= 1 && row.values[column].n < low) && !(high >= 1 && row.values[column].n > high))
  }

  predicate Shows(row: Columns, column: string, text: string) {
    text == [] || (column in row.values && row.values[column] == Str(text))
  }

  predicate ShowsId(row: Columns, column: string, id: int) {
    id <= 0 || (column in row.values && row.values[column] == Number(id))
  }

  /** The column holds a day from the first one to the second, as far as they are given. */
  predicate OnDay(row: Columns, column: string, low: Option<int>, high: Option<int>) {
    || (low == None && high == None)
    || (column in row.values && row.values[column].Number?
        && !(low.Some? && row.values[column].n < low.value) && !(high.Some? && row.values[column].n > high.value))
  }

  /** What the criteria other than the search ask of a row, column by column. */
  lemma FilterEffect(filter: Filter, db: State, row: Columns)
    ensures match filter
            case CarFilter(search, status, minYear, maxYear, minDailyRate, maxDailyRate, availableOn) =>
              Matches(filter, db, row) <==>
                && Mentions(row, CAR_TEXTS, search) && Shows(row, "status", status)
                && Between(row, "year", minYear, maxYear) && Between(row, "daily_rate", minDailyRate, maxDailyRate)
                && (availableOn == None || !BlockedOn(db, row.id, availableOn.value))
            case RentalFilter(status, paymentStatus, userId, carId, startFrom, endTo) =>
              Matches(filter, db, row) <==>
                && Shows(row, "r.status", status) && Shows(row, "p.status", paymentStatus)
                && ShowsId(row, "r.user_id", userId) && ShowsId(row, "r.car_id", carId)
                && OnDay(row, "r.start_date", startFrom, None) && OnDay(row, "r.end_date", None, endTo)
            case MaintenanceFilter(carId, status) =>
              Matches(filter, db, row) <==> ShowsId(row, "car_id", carId) && Shows(row, "status", status)
            case UserFilter(search, role) =>
              Matches(filter, db, row) <==> Mentions(row, USER_TEXTS, search) && Shows(row, "role", role)
  {
  }

  /** An empty filter asks for every row. */
  lemma EmptyFiltersAskForAll(db: State, row: Columns)
    ensures Matches(CarFilter("", "", 0, 0, 0, 0, None), db, row) && Matches(RentalFilter("", "", 0, 0, None, None), db, row)
    ensures Matches(MaintenanceFilter(0, ""), db, row) && Matches(UserFilter("", ""), db, row)
  {
  }

  // ----- criterion by criterion -----

  /** The criteria of a filter in the order in which the builders look at them. */
  predicate Criterion(filter: Filter, k: int, db: State, row: Columns) {
    match filter
    case CarFilter(search, status, minYear, maxYear, minDailyRate, maxDailyRate, availableOn) =>
      if k == 0 then Mentions(row, CAR_TEXTS, search)
      else if k == 1 then IsText(row, "status", status)
      else if k == 2 then AtLeast(row, "year", minYear)
      else if k == 3 then AtMost(row, "year", maxYear)
      else if k == 4 then AtLeast(row, "daily_rate", minDailyRate)
      else if k == 5 then AtMost(row, "daily_rate", maxDailyRate)
      else if k == 6 then availableOn.Some? ==> !RentalOverlap(db.rentals, row.id, availableOn.value, availableOn.value)
      else if k == 7 then availableOn.Some? ==> !MaintenanceOverlap(db.maintenances, row.id, availableOn.value, availableOn.value)
      else true
    case RentalFilter(status, paymentStatus, userId, carId, startFrom, endTo) =>
      if k == 0 then IsText(row, "r.status", status)
      else if k == 1 then IsText(row, "p.status", paymentStatus)
      else if k == 2 then IsNumber(row, "r.user_id", userId)
      else if k == 3 then IsNumber(row, "r.car_id", carId)
      else if k == 4 then From(row, "r.start_date", startFrom)
      else if k == 5 then UpTo(row, "r.end_date", endTo)
      else true
    case MaintenanceFilter(carId, status) =>
      if k == 0 then IsNumber(row, "car_id", carId) else if k == 1 then IsText(row, "status", status) else true
    case UserFilter(search, role) =>
      if k == 0 then Mentions(row, USER_TEXTS, search) else if k == 1 then IsText(row, "role", role) else true
  }

  ghost predicate FirstCriteria(filter: Filter, n: nat, db: State, row: Columns) {
    forall k :: 0 <= k < n ==> Criterion(filter, k, db, row)
  }

  lemma CriteriaAreTheFilter(filter: Filter, db: State, row: Columns)
    ensures FirstCriteria(filter, 8, db, row) <==> Matches(filter, db, row)
  {
    if FirstCriteria(filter, 8, db, row) {
      assert Criterion(filter, 0, db, row) && Criterion(filter, 1, db, row) && Criterion(filter, 2, db, row) && Criterion(filter, 3, db, row);
      assert Criterion(filter, 4, db, row) && Criterion(filter, 5, db, row) && Criterion(filter, 6, db, row) && Criterion(filter, 7, db, row);
    }
  }

  /** The clause built so far selects a row exactly when the row passes the first `n` criteria. */
  ghost predicate Built(where: Where, filter: Filter, n: nat) {
    WellNumbered(where) && forall db: State, row: Columns :: Selects(where, db, row) <==> FirstCriteria(filter, n, db, row)
  }

  lemma NextCriterion(filter: Filter, n: nat, db: State, row: Columns)
    ensures FirstCriteria(filter, n + 1, db, row) <==> FirstCriteria(filter, n, db, row) && Criterion(filter, n, db, row)
  {
  }

  lemma Added(where: Where, filter: Filter, n: nat, value: Value, condition: Condition)
    requires Built(where, filter, n) && condition.ph == |where.args| + 1
    requires forall db: State, row: Columns :: Eval(condition, where.args + [value], db, row) <==> Criterion(filter, n, db, row)
    ensures Built(WithCondition(WithArg(where, value), condition), filter, n + 1)
  {
    var longer := WithArg(where, value);
    forall db: State, row: Columns
      ensures WellNumbered(WithCondition(longer, condition))
      ensures Selects(WithCondition(longer, condition), db, row) <==> FirstCriteria(filter, n + 1, db, row)
    {
      ArgKeepsMeaning(where, value, db, row);
      ConditionNarrows(longer, condition, db, row);
      NextCriterion(filter, n, db, row);
    }
  }

  lemma AddedForLastArg(where: Where, filter: Filter, n: nat, condition: Condition)
    requires Built(where, filter, n) && InRange(condition, where.args)
    requires forall db: State, row: Columns :: Eval(condition, where.args, db, row) <==> Criterion(filter, n, db, row)
    ensures Built(WithCondition(where, condition), filter, n + 1)
  {
    forall db: State, row: Columns
      ensures WellNumbered(WithCondition(where, condition))
      ensures Selects(WithCondition(where, condition), db, row) <==> FirstCriteria(filter, n + 1, db, row)
    {
      ConditionNarrows(where, condition, db, row);
      NextCriterion(filter, n, db, row);
    }
  }

  lemma Skipped(where: Where, filter: Filter, n: nat)
    requires Built(where, filter, n)
    requires forall db: State, row: Columns :: Criterion(filter, n, db, row)
    ensures Built(where, filter, n + 1)
  {
    forall db: State, row: Columns {
      NextCriterion(filter, n, db, row);
    }
  }

  /** Generating the clause preserves the meaning of the filter, and every placeholder has an argument. */
  ghost predicate MeansFilter(where: Where, filter: Filter) {
    WellNumbered(where) && forall db: State, row: Columns :: Selects(where, db, row) <==> Matches(filter, db, row)
  }

  lemma BuiltMeansFilter(where: Where, filter: Filter)
    requires Built(where, filter, 8)
    ensures MeansFilter(where, filter)
  {
    forall db: State, row: Columns {
      CriteriaAreTheFilter(filter, db, row);
    }
  }

  // ----- what a search finds -----

  /** Numbers are searched in their decimal notation. */
  lemma TextOfNumber(n: int)
    ensures n >= 0 ==> AllDigits(TextOf(Number(n))) && Atoi(TextOf(Number(n))) == n
    ensures n < 0 ==> TextOf(Number(n)) == "-" + TextOf(Number(-n))
  {
    if n >= 0 {
      ItoaRoundTrip(n);
    }
  }

  ghost predicate Has(row: Columns, column: string, search: string) {
    ValueOf(row, column) != Null && ContainsTerm(TextOf(ValueOf(row, column)), search)
  }

  /** Cars are searched by brand, model, plate number and year, users by name, e-mail address and phone. */
  lemma SearchedColumns(row: Columns, search: string)
    ensures Contains(row, CAR_TEXTS, search) <==>
      Has(row, "brand", search) || Has(row, "model", search) || Has(row, "plate_number", search) || Has(row, "year", search)
    ensures Contains(row, USER_TEXTS, search) <==> Has(row, "name", search) || Has(row, "email", search) || Has(row, "phone", search)
  {
    assert Has(row, "brand", search) <==> Has(row, CAR_TEXTS[0], search);
    assert Has(row, "model", search) <==> Has(row, CAR_TEXTS[1], search);
    assert Has(row, "plate_number", search) <==> Has(row, CAR_TEXTS[2], search);
    assert Has(row, "year", search) <==> Has(row, CAR_TEXTS[3], search);
    assert Has(row, "name", search) <==> Has(row, USER_TEXTS[0], search);
    assert Has(row, "email", search) <==> Has(row, USER_TEXTS[1], search);
    assert Has(row, "phone", search) <==> Has(row, USER_TEXTS[2], search);
  }

  ghost predicate Contains(row: Columns, columns: seq<string>, search: string) {
    exists i :: 0 <= i < |columns| && Has(row, columns[i], search)
  }

  lemma LiteralSearch(row: Columns, columns: seq<string>, search: string)
    requires Literal(search)
    ensures Mentions(row, columns, search) <==> search == "" || Contains(row, columns, search)
  {
    forall i | 0 <= i < |columns| {
      SearchFindsTheTerm(TextOf(ValueOf(row, columns[i])), search);
    }
  }

  /** A search asks for the rows with the term in one of their columns exactly if the term has no pattern
      character. */
  lemma SearchIsExact(columns: seq<string>, search: string)
    requires columns != []
    ensures (forall row: Columns :: Mentions(row, columns, search) <==> search == "" || Contains(row, columns, search))
       <==> Literal(search)
  {
    if Literal(search) {
      forall row: Columns {
        LiteralSearch(row, columns, search);
      }
    } else {
      var text := Misread(search);
      var row := Columns(0, map[columns[0] := Str(text)]);
      PatternCharactersAreNotQuoted(search);
      assert ValueOf(row, columns[0]) == Str(text);
      assert Mentions(row, columns, search) && !Contains(row, columns, search);
    }
  }

  function WithoutSearch(filter: Filter): Filter {
    match filter
    case CarFilter(_, status, minYear, maxYear, minDailyRate, maxDailyRate, availableOn) =>
      CarFilter("", status, minYear, maxYear, minDailyRate, maxDailyRate, availableOn)
    case UserFilter(_, role) => UserFilter("", role)
    case _ => filter
  }

  /** What a filter asks for in words: the rows with the search term in one of the searched columns that
      pass the other criteria. */
  ghost predicate Wanted(filter: Filter, db: State, row: Columns) {
    match filter
    case CarFilter(search, _, _, _, _, _, _) =>
      (search == "" || Contains(row, CAR_TEXTS, search)) && Matches(WithoutSearch(filter), db, row)
    case UserFilter(search, _) =>
      (search == "" || Contains(row, USER_TEXTS, search)) && Matches(WithoutSearch(filter), db, row)
    case _ => Matches(filter, db, row)
  }

  /** A generated clause selects exactly the rows that contain the term and pass the other criteria, for
      terms without pattern characters. */
  lemma LiteralSearchSelectsTheTerm(where: Where, filter: Filter, db: State, row: Columns)
    requires MeansFilter(where, filter) && (filter.CarFilter? || filter.UserFilter? ==> Literal(filter.search))
    ensures Selects(where, db, row) <==> Wanted(filter, db, row)
  {
    match filter
    case CarFilter(search, _, _, _, _, _, _) => LiteralSearch(row, CAR_TEXTS, search);
    case UserFilter(search, _) => LiteralSearch(row, USER_TEXTS, search);
    case _ =>
  }

  // ----- the builders -----

  /** The statement that lists a page: the clause, and the numbers of the LIMIT and OFFSET arguments. */
  datatype ListQuery = ListQuery(where: Where, limitArg: int, offsetArg: int)

  /** LIMIT and OFFSET take the two numbers after those of the clause, and the clause keeps its meaning
      with the longer argument list. */
  ghost predicate Paged(query: ListQuery, filter: Filter, limit: int, offset: int) {
    && MeansFilter(query.where, filter)
    && 1 <= query.limitArg && query.limitArg + 1 == query.offsetArg == |query.where.args|
    && query.where.args[query.limitArg - 1] == Number(limit)
    && query.where.args[query.offsetArg - 1] == Number(offset)
    && forall i :: 0 <= i < |query.where.conditions| ==> query.where.conditions[i].ph < query.limitArg
  }

  /** The number of rows before a page, for pages counted from one. */
  function Offset(page: int, pageSize: int): int {
    (page - 1) * pageSize
  }

  method AddPaging(where: Where, filter: Filter, page: int, pageSize: int) returns (query: ListQuery)
    requires MeansFilter(where, filter)
    ensures Paged(query, filter, pageSize, Offset(page, pageSize))
    ensures query.where.conditions == where.conditions && query.limitArg == |where.args| + 1
  {
    var limitArg, offsetArg := |where.args| + 1, |where.args| + 2;
    var args := where.args + [Number(pageSize), Number(Offset(page, pageSize))];
    query := ListQuery(Where(where.conditions, args), limitArg, offsetArg);
    assert args == (where.args + [Number(pageSize)]) + [Number(Offset(page, pageSize))];
    forall db: State, row: Columns
      ensures WellNumbered(query.where) && (Selects(query.where, db, row) <==> Matches(filter, db, row))
    {
      ArgKeepsMeaning(where, Number(pageSize), db, row);
      ArgKeepsMeaning(WithArg(where, Number(pageSize)), Number(Offset(page, pageSize)), db, row);
    }
    assert forall i :: 0 <= i < |where.conditions| ==> InRange(where.conditions[i], where.args);
  }

  /** Appends an argument and the condition on it if the criterion is switched on. */
  method Narrow(where: Where, active: bool, value: Value, condition: Condition, ghost filter: Filter, ghost n: nat) returns (after: Where)
    requires Built(where, filter, n)
    requires active ==> condition.ph == |where.args| + 1
    requires active ==> forall db: State, row: Columns :: Eval(condition, where.args + [value], db, row) <==> Criterion(filter, n, db, row)
    requires !active ==> forall db: State, row: Columns :: Criterion(filter, n, db, row)
    ensures Built(after, filter, n + 1)
    ensures after == if active then WithCondition(WithArg(where, value), condition) else where
  {
    if active {
      var args := where.args + [value];
      var conditions := where.conditions + [condition];
      after := Where(conditions, args);
      Added(where, filter, n, value, condition);
    } else {
      after := where;
      Skipped(where, filter, n);
    }
  }

  method BuildMaintenanceWhere(filter: Filter) returns (where: Where)
    requires filter.MaintenanceFilter?
    ensures MeansFilter(where, filter)
  {
    where := NO_CONDITION;
    where := Narrow(where, filter.carId > 0, Number(filter.carId), Compare("car_id", Eq, |where.args| + 1), filter, 0);
    where := Narrow(where, filter.status != "", Str(filter.status), Compare("status", Eq, |where.args| + 1), filter, 1);
    NoFurtherCriteria(where, filter, 2);
  }

  method BuildUserListWhere(filter: Filter) returns (where: Where)
    requires filter.UserFilter?
    ensures MeansFilter(where, filter)
  {
    where := NO_CONDITION;
    where := Narrow(where, filter.search != "", Str("%" + filter.search + "%"), AnyILike(USER_TEXTS, |where.args| + 1), filter, 0);
    where := Narrow(where, filter.role != "", Str(filter.role), Compare("role", Eq, |where.args| + 1), filter, 1);
    NoFurtherCriteria(where, filter, 2);
  }

  method BuildRentalListWhere(filter: Filter) returns (where: Where)
    requires filter.RentalFilter?
    ensures MeansFilter(where, filter)
  {
    where := NO_CONDITION;
    where := Narrow(where, filter.status != "", Str(filter.status), Compare("r.status", Eq, |where.args| + 1), filter, 0);
    where := Narrow(where, filter.paymentStatus != "", Str(filter.paymentStatus), Compare("p.status", Eq, |where.args| + 1), filter, 1);
    where := Narrow(where, filter.userId > 0, Number(filter.userId), Compare("r.user_id", Eq, |where.args| + 1), filter, 2);
    where := Narrow(where, filter.carId > 0, Number(filter.carId), Compare("r.car_id", Eq, |where.args| + 1), filter, 3);
    where := NarrowByDates(where, filter);
    NoFurtherCriteria(where, filter, 6);
  }

  method NarrowByDates(where: Where, filter: Filter) returns (after: Where)
    requires filter.RentalFilter? && Built(where, filter, 4)
    ensures Built(after, filter, 6)
  {
    after := Narrow(where, filter.startFrom.Some?, DateArg(filter.startFrom), Compare("r.start_date", Ge, |where.args| + 1), filter, 4);
    after := Narrow(after, filter.endTo.Some?, DateArg(filter.endTo), Compare("r.end_date", Le, |after.args| + 1), filter, 5);
  }

  method BuildCarListWhere(filter: Filter) returns (where: Where)
    requires filter.CarFilter?
    ensures MeansFilter(where, filter)
  {
    where := NO_CONDITION;
    where := Narrow(where, filter.search != "", Str("%" + filter.search + "%"), AnyILike(CAR_TEXTS, |where.args| + 1), filter, 0);
    where := Narrow(where, filter.status != "", Str(filter.status), Compare("status", Eq, |where.args| + 1), filter, 1);
    where := Narrow(where, filter.minYear > 0, Number(filter.minYear), Compare("year", Ge, |where.args| + 1), filter, 2);
    where := Narrow(where, filter.maxYear > 0, Number(filter.maxYear), Compare("year", Le, |where.args| + 1), filter, 3);
    where := Narrow(where, filter.minDailyRate > 0, Number(filter.minDailyRate), Compare("daily_rate", Ge, |where.args| + 1), filter, 4);
    where := Narrow(where, filter.maxDailyRate > 0, Number(filter.maxDailyRate), Compare("daily_rate", Le, |where.args| + 1), filter, 5);
    where := NarrowByDay(where, filter);
    NoFurtherCriteria(where, filter, 8);
  }

  /** The two availability conditions share one argument. */
  method NarrowByDay(where: Where, filter: Filter) returns (after: Where)
    requires filter.CarFilter? && Built(where, filter, 6)
    ensures Built(after, filter, 8)
  {
    if filter.availableOn.Some? {
      var placeholder := |where.args| + 1;
      var args := where.args + [Number(filter.availableOn.value)];
      Added(where, filter, 6, Number(filter.availableOn.value), NoRentalOn(placeholder));
      after := Where(where.conditions + [NoRentalOn(placeholder)], args);
      AddedForLastArg(after, filter, 7, NoMaintenanceOn(placeholder));
      after := Where(after.conditions + [NoMaintenanceOn(placeholder)], args);
    } else {
      after := where;
      Skipped(after, filter, 6);
      Skipped(after, filter, 7);
    }
  }

  function DateArg(date: Option<int>): Value {
    if date.Some? then Number(date.value) else Null
  }

  lemma {:induction false} NoFurtherCriteria(where: Where, filter: Filter, n: nat)
    requires Built(where, filter, n) && n <= 8
    requires forall k, db: State, row: Columns :: n <= k < 8 ==> Criterion(filter, k, db, row)
    ensures MeansFilter(where, filter)
    decreases 8 - n
  {
    if n == 8 {
      BuiltMeansFilter(where, filter);
    } else {
      Skipped(where, filter, n);
      NoFurtherCriteria(where, filter, n + 1);
    }
  }
}
