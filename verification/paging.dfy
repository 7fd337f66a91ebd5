/** Paging of the list endpoints: normalised page numbers, LIMIT and OFFSET, and the number of pages. */
module Paging {
  import opened Tables
  import opened Filters

  const MAX_PAGE_SIZE := 100

  /** Page and PageSize after normalisation; the default size is 12 for cars and 20 elsewhere. */
  function NormalPage(page: int): int {
    if page < 1 then 1 else page
  }

  function NormalSize(pageSize: int, default: int): int {
    if pageSize < 1 then default else if pageSize > MAX_PAGE_SIZE then MAX_PAGE_SIZE else pageSize
  }

  /** ORDER BY ... LIMIT size OFFSET offset, over rows that are in order already. */
  function LimitOffset<R>(rows: seq<R>, limit: nat, offset: nat): seq<R> {
    if offset >= |rows| then [] else if offset + limit >= |rows| then rows[offset..] else rows[offset..offset + limit]
  }

  /** int(math.Ceil(float64(total) / float64(pageSize))), zero for no rows */
  function TotalPages(total: nat, size: nat): nat
    requires size > 0
  {
    (total + size - 1) / size
  }

  /** The rows of the table that the filter asks for, in the order of the table. */
  function Matching(table: seq<Columns>, filter: Filter, db: State): seq<Columns> {
    if table == [] then []
    else
      var before := Matching(table[..|table| - 1], filter, db);
      if Matches(filter, db, table[|table| - 1]) then before + [table[|table| - 1]] else before
  }

  /** What a page request answers. */
  function PageOf(table: seq<Columns>, filter: Filter, db: State, page: int, size: nat): seq<Columns>
    requires page >= 1
  {
    OffsetIsNotNegative(page, size);
    LimitOffset(Matching(table, filter, db), size, Offset(page, size))
  }

  /** Pages 1 to n, one after the other. */
  function FirstPages<R>(rows: seq<R>, size: nat, n: nat): seq<R> {
    if n == 0 then [] else FirstPages(rows, size, n - 1) + LimitOffset(rows, size, (n - 1) * size)
  }

  /** A page continues the rows where the pages before it end. */
  lemma PageContinues<R>(rows: seq<R>, size: nat, from: nat)
    ensures (if from >= |rows| then rows else rows[..from]) + LimitOffset(rows, size, from)
         == if from + size >= |rows| then rows else rows[..from + size]
  {
    if from < |rows| && from + size < |rows| {
      assert rows[..from] + rows[from..from + size] == rows[..from + size];
    } else if from < |rows| {
      assert rows[..from] + rows[from..] == rows;
    }
  }

  lemma {:induction false} FirstPagesAreAPrefix<R>(rows: seq<R>, size: nat, n: nat)
    ensures FirstPages(rows, size, n) == if n * size >= |rows| then rows else rows[..n * size]
  {
    if n > 0 {
      FirstPagesAreAPrefix(rows, size, n - 1);
      PageContinues(rows, size, (n - 1) * size);
      assert (n - 1) * size + size == n * size;
    }
  }

  lemma PagesCoverTotal(total: nat, size: nat)
    requires size > 0
    ensures TotalPages(total, size) * size >= total
    ensures TotalPages(total, size) > 0 ==> (TotalPages(total, size) - 1) * size < total
  {
    var pages := TotalPages(total, size);
    assert pages * size + (total + size - 1) % size == total + size - 1;
  }

  lemma LessOrEqualTimes(a: int, b: int, size: nat)
    requires a <= b
    ensures a * size <= b * size
  {
  }

  /** Pages up to the last start before the end of the rows, later ones do not. */
  lemma PageStarts(total: nat, size: nat, page: int)
    requires size > 0 && page >= 1
    ensures page <= TotalPages(total, size) <==> (page - 1) * size < total
  {
    var pages := TotalPages(total, size);
    PagesCoverTotal(total, size);
    if page <= pages {
      LessOrEqualTimes(page - 1, pages - 1, size);
    } else {
      LessOrEqualTimes(pages, page - 1, size);
    }
  }

  /** A page has rows exactly when it is one of the counted pages. */
  lemma PageHasRows(table: seq<Columns>, filter: Filter, db: State, page: int, size: nat)
    requires size > 0 && page >= 1
    ensures PageOf(table, filter, db, page, size) != [] <==> page <= TotalPages(|Matching(table, filter, db)|, size)
  {
    OffsetIsNotNegative(page, size);
    PageStarts(|Matching(table, filter, db)|, size, page);
  }

  /** Over fixed data the pages 1 to TotalPages put together are exactly the matching rows, each once
      and in order. */
  lemma PagesAreTheMatches(table: seq<Columns>, filter: Filter, db: State, size: nat)
    requires size > 0
    ensures var rows := Matching(table, filter, db);
            FirstPages(rows, size, TotalPages(|rows|, size)) == rows
  {
    var rows := Matching(table, filter, db);
    PagesCoverTotal(|rows|, size);
    FirstPagesAreAPrefix(rows, size, TotalPages(|rows|, size));
  }

  /** Which page and size a request gets: the first page for numbers below one, the default size for sizes
      below one, and a hundred rows at most. */
  lemma RequestedPage(page: int, pageSize: int, default: int)
    requires 1 <= default <= 100
    ensures NormalPage(page) == if page >= 1 then page else 1
    ensures 1 <= NormalSize(pageSize, default) <= 100
    ensures 1 <= pageSize <= 100 ==> NormalSize(pageSize, default) == pageSize
    ensures pageSize < 1 ==> NormalSize(pageSize, default) == default
    ensures pageSize > 100 ==> NormalSize(pageSize, default) == 100
  {
  }

  /** Page 1 starts with the first matching row, each page has `size` rows as far as there are so many, and
      row k of a page is matching row (page - 1) * size + k. */
  lemma RowsOfAPage(table: seq<Columns>, filter: Filter, db: State, page: int, size: nat, k: nat)
    requires size > 0 && page >= 1
    ensures var rows, items, first := Matching(table, filter, db), PageOf(table, filter, db, page, size), (page - 1) * size;
            && first >= 0
            && |items| == (if first >= |rows| then 0 else if first + size >= |rows| then |rows| - first else size)
            && (k < |items| ==> items[k] == rows[first + k])
  {
    OffsetIsNotNegative(page, size);
  }

  /** The matching rows are the rows of the table that match, once each if the table has each once. */
  lemma {:induction false} MatchingIsTheSelection(table: seq<Columns>, filter: Filter, db: State)
    ensures forall row :: row in Matching(table, filter, db) <==> row in table && Matches(filter, db, row)
    ensures (forall i, j :: 0 <= i < j < |table| ==> table[i].id != table[j].id) ==>
      forall i, j :: 0 <= i < j < |Matching(table, filter, db)| ==> Matching(table, filter, db)[i].id != Matching(table, filter, db)[j].id
  {
    if table != [] {
      var last, rest := table[|table| - 1], table[..|table| - 1];
      MatchingIsTheSelection(rest, filter, db);
      assert table == rest + [last];
      if (forall i, j :: 0 <= i < j < |table| ==> table[i].id != table[j].id) {
        forall i | 0 <= i < |Matching(rest, filter, db)|
          ensures Matching(rest, filter, db)[i].id != last.id
        {
          assert Matching(rest, filter, db)[i] in rest;
          var k :| 0 <= k < |rest| && rest[k] == Matching(rest, filter, db)[i];
          assert table[k].id != table[|table| - 1].id;
        }
      }
    }
  }

  method BuildWhere(filter: Filter) returns (where: Where)
    ensures MeansFilter(where, filter)
  {
    match filter {
      case CarFilter(_, _, _, _, _, _, _) => where := BuildCarListWhere(filter);
      case RentalFilter(_, _, _, _, _, _) => where := BuildRentalListWhere(filter);
      case MaintenanceFilter(_, _) => where := BuildMaintenanceWhere(filter);
      case UserFilter(_, _) => where := BuildUserListWhere(filter);
    }
  }

  lemma OffsetIsNotNegative(page: int, size: nat)
    requires page >= 1
    ensures Offset(page, size) >= 0
  {
  }

  /** The list statement with LIMIT and OFFSET, run over the table. */
  method RunPage(table: seq<Columns>, ghost filter: Filter, query: ListQuery, db: State, ghost page: int, ghost size: nat) returns (items: seq<Columns>)
    requires page >= 1 && Paged(query, filter, size, Offset(page, size))
    ensures items == PageOf(table, filter, db, page, size)
  {
    OffsetIsNotNegative(page, size);
    var rows := RunWhere(table, filter, query.where, db);
    var limitArg, offsetArg := query.where.args[query.limitArg - 1], query.where.args[query.offsetArg - 1];
    items := LimitOffset(rows, limitArg.n, offsetArg.n);
  }

  /** A page request answers the page that was asked for, the number of matching rows and the number of
      pages. */
  method ListPage(table: seq<Columns>, filter: Filter, db: State, page: int, pageSize: int, default: int) returns (items: seq<Columns>, total: nat, totalPages: nat)
    requires 1 <= default <= MAX_PAGE_SIZE
    ensures total == |Matching(table, filter, db)|
    ensures totalPages == TotalPages(total, NormalSize(pageSize, default))
    ensures items == PageOf(table, filter, db, NormalPage(page), NormalSize(pageSize, default))
  {
    var wantedPage, size := NormalPage(page), NormalSize(pageSize, default);
    var where := BuildWhere(filter);
    var counted := RunWhere(table, filter, where, db);
    total := |counted|;
    totalPages := CountPages(total, size);
    var query := AddPaging(where, filter, wantedPage, size);
    items := RunPage(table, filter, query, db, wantedPage, size);
  }

  method CountPages(total: nat, size: nat) returns (totalPages: nat)
    requires size > 0
    ensures totalPages == TotalPages(total, size)
  {
    totalPages := 0;
    if total > 0 {
      totalPages := (total + size - 1) / size;
    }
  }

  /** The rows the clause selects, as the database reads them one by one. */
  method RunWhere(table: seq<Columns>, ghost filter: Filter, where: Where, db: State) returns (rows: seq<Columns>)
    requires MeansFilter(where, filter)
    ensures rows == Matching(table, filter, db)
  {
    rows := [];
    for n := 0 to |table|
      invariant rows == Matching(table[..n], filter, db)
    {
      var selected := RunConditions(where, db, table[n]);
      if selected {
        rows := rows + [table[n]];
      }
      assert table[..n + 1][..n] == table[..n];
    }
    assert table[..|table|] == table;
  }

  method RunConditions(where: Where, db: State, row: Columns) returns (selected: bool)
    requires WellNumbered(where)
    ensures selected <==> Selects(where, db, row)
  {
    selected := true;
    for k := 0 to |where.conditions|
      invariant selected <==> forall i :: 0 <= i < k ==> Eval(where.conditions[i], where.args, db, row)
    {
      selected := selected && Eval(where.conditions[k], where.args, db, row);
    }
  }
}
