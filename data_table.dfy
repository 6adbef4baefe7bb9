/** The sorting and column-filter logic of the dashboard's data table: a click on a column header
    sets the sort order, the rows are sorted on a copy by that column, and the rows shown are those
    whose cells contain every filter value, ignoring case. A row maps column ids to integer cells;
    a row without a column reads as `undefined`. */
module DataTable {
  import opened Text

  type Row = map<string, int>

  /** An entry of the `sorting` state: the column and whether the order is descending. */
  datatype SortSpec = SortSpec(id: string, desc: bool)

  /** An entry of the `columnFilters` state. */
  datatype ColumnFilter = ColumnFilter(id: string, value: string)

  // ---------------------------------------------------------------- clicking a header

  /** `handleSort` as written: `desc: !isAsc`. */
  function HandleSortAsWritten(sorting: seq<SortSpec>, column: string): (r: seq<SortSpec>)
    ensures |r| == 1 && r[0].id == column
  {
    var isAsc := |sorting| > 0 && sorting[0].id == column && sorting[0].desc == false;
    [SortSpec(column, !isAsc)]
  }

  /** Starting from no sorting, every sequence of clicks leaves the table sorted descending:
      the ascending state that the toggle tests for is never reached. */
  lemma {:induction false} ClicksAlwaysDescend(clicks: seq<string>)
    requires |clicks| > 0
    ensures var s := ClicksAsWritten([], clicks); |s| == 1 && s[0].desc
  {
    if |clicks| > 1 {
      ClicksAlwaysDescend(clicks[..|clicks| - 1]);
    }
  }

  function ClicksAsWritten(sorting: seq<SortSpec>, clicks: seq<string>): seq<SortSpec> {
    if clicks == [] then sorting
    else HandleSortAsWritten(ClicksAsWritten(sorting, clicks[..|clicks| - 1]), clicks[|clicks| - 1])
  }

  /** The toggle the header arrows are drawn for: a click on the column sorted ascending sorts it
      descending, any other click sorts that column ascending. */
  function HandleSort(sorting: seq<SortSpec>, column: string): (r: seq<SortSpec>)
    ensures |r| == 1 && r[0].id == column
    ensures r[0].desc <==> |sorting| > 0 && sorting[0] == SortSpec(column, false)
  {
    var isAsc := |sorting| > 0 && sorting[0].id == column && sorting[0].desc == false;
    [SortSpec(column, isAsc)]
  }

  /** Two clicks on the same column sort it ascending and then descending. */
  lemma HandleSortToggles(sorting: seq<SortSpec>, column: string)
    ensures var once := HandleSort(sorting, column);
            var twice := HandleSort(once, column);
            (once[0].desc <==> !twice[0].desc) && (twice[0].desc ==> !HandleSort(twice, column)[0].desc)
  {
  }

  // ---------------------------------------------------------------- sorting

  /** Whether the comparator puts row a strictly before row b: both cells must be present, since
      every comparison with `undefined` is false. */
  predicate Before(a: Row, b: Row, column: string, desc: bool) {
    column in a && column in b && (if desc then a[column] > b[column] else a[column] < b[column])
  }

  /** No row is placed after a row the comparator puts after it. */
  predicate Sorted(rows: seq<Row>, column: string, desc: bool) {
    forall i, j :: 0 <= i < j < |rows| ==> !Before(rows[j], rows[i], column, desc)
  }

  /** Every row has a cell in the column. */
  predicate Keyed(rows: seq<Row>, column: string) {
    forall k :: 0 <= k < |rows| ==> column in rows[k]
  }

  /** Inserts a row into sorted rows, before the first one that does not go before it. */
  function Insert(x: Row, rows: seq<Row>, column: string, desc: bool): (r: seq<Row>)
    ensures multiset(r) == multiset(rows) + multiset{x}
    ensures |r| == |rows| + 1
  {
    if rows == [] then [x]
    else if Before(rows[0], x, column, desc) then
      assert rows == [rows[0]] + rows[1..];
      [rows[0]] + Insert(x, rows[1..], column, desc)
    else [x] + rows
  }

  /** The `[...data].sort(comparator)` of `sortedData`, as a stable insertion sort. */
  function Sort(rows: seq<Row>, column: string, desc: bool): (r: seq<Row>)
    ensures multiset(r) == multiset(rows)
  {
    if rows == [] then []
    else
      assert rows == [rows[0]] + rows[1..];
      Insert(rows[0], Sort(rows[1..], column, desc), column, desc)
  }

  lemma {:induction false} InsertSorted(x: Row, rows: seq<Row>, column: string, desc: bool)
    requires Sorted(rows, column, desc) && Keyed(rows, column) && column in x
    ensures Sorted(Insert(x, rows, column, desc), column, desc)
  {
    if rows != [] {
      var r := Insert(x, rows, column, desc);
      if Before(rows[0], x, column, desc) {
        var tail := rows[1..];
        assert Keyed(tail, column);
        InsertSorted(x, tail, column, desc);
        var rest := Insert(x, tail, column, desc);
        assert r == [rows[0]] + rest;
        forall j | 0 <= j < |rest|
          ensures !Before(rest[j], rows[0], column, desc)
        {
          assert rest[j] in multiset(tail) + multiset{x};
          if rest[j] != x {
            assert rest[j] in tail;
          }
        }
      } else {
        assert r == [x] + rows;
        forall j | 0 <= j < |rows|
          ensures !Before(rows[j], x, column, desc)
        {
          if j > 0 {
            assert !Before(rows[j], rows[0], column, desc);
          }
        }
      }
    }
  }

  /** The sorted rows are ordered by the column whenever every row has a cell in it. */
  lemma {:induction false} SortSorted(rows: seq<Row>, column: string, desc: bool)
    requires Keyed(rows, column)
    ensures Sorted(Sort(rows, column, desc), column, desc)
  {
    if rows != [] {
      var tail := rows[1..];
      assert Keyed(tail, column);
      SortSorted(tail, column, desc);
      var s := Sort(tail, column, desc);
      forall k | 0 <= k < |s|
        ensures column in s[k]
      {
        assert s[k] in multiset(tail);
      }
      InsertSorted(rows[0], s, column, desc);
    }
  }

  /** `sortedData`: the rows as given when nothing is sorted, otherwise a sorted copy. */
  function SortedData(data: seq<Row>, sorting: seq<SortSpec>): (r: seq<Row>)
    ensures multiset(r) == multiset(data)
    ensures sorting == [] ==> r == data
  {
    if sorting == [] then data else Sort(data, sorting[0].id, sorting[0].desc)
  }

  /** The shown order is a reordering of the data that is sorted by the chosen column. */
  lemma SortedDataOrdered(data: seq<Row>, sorting: seq<SortSpec>)
    requires sorting != [] && Keyed(data, sorting[0].id)
    ensures Sorted(SortedData(data, sorting), sorting[0].id, sorting[0].desc)
  {
    SortSorted(data, sorting[0].id, sorting[0].desc);
  }

  // ---------------------------------------------------------------- filtering

  /** `String(row[id])`: the decimal numeral of the cell, or "undefined" when it is missing. */
  function CellText(row: Row, column: string): string {
    if column in row then IntToDec(row[column]) else "undefined"
  }

  /** The row's cell contains the filter value, ignoring case. */
  predicate MatchesFilter(row: Row, f: ColumnFilter) {
    Contains(Lower(CellText(row, f.id)), Lower(f.value))
  }

  predicate MatchesAll(row: Row, filters: seq<ColumnFilter>) {
    forall k :: 0 <= k < |filters| ==> MatchesFilter(row, filters[k])
  }

  /** `rows.filter(row => filters.every(...))`. */
  function KeepMatching(rows: seq<Row>, filters: seq<ColumnFilter>): (r: seq<Row>)
    ensures |r| <= |rows|
    ensures forall x :: x in r <==> x in rows && MatchesAll(x, filters)
  {
    if rows == [] then []
    else (if MatchesAll(rows[0], filters) then [rows[0]] else []) + KeepMatching(rows[1..], filters)
  }

  /** `filteredData`: the sorted rows when there are no filters, otherwise those that match them all. */
  function FilteredData(sorted: seq<Row>, filters: seq<ColumnFilter>): (r: seq<Row>)
    ensures filters == [] ==> r == sorted
    ensures forall x :: x in r <==> x in sorted && MatchesAll(x, filters)
  {
    if filters == [] then sorted else KeepMatching(sorted, filters)
  }

  /** Filtering keeps the order of the sorted rows. */
  lemma {:induction false} KeepMatchingSorted(rows: seq<Row>, filters: seq<ColumnFilter>, column: string, desc: bool)
    requires Sorted(rows, column, desc)
    ensures Sorted(KeepMatching(rows, filters), column, desc)
  {
    if rows != [] {
      var tail := rows[1..];
      assert Sorted(tail, column, desc);
      KeepMatchingSorted(tail, filters, column, desc);
      var rest := KeepMatching(tail, filters);
      forall j | 0 <= j < |rest|
        ensures !Before(rest[j], rows[0], column, desc)
      {
        assert rest[j] in tail;
      }
    }
  }

  /** A row lacking the column still matches a filter that "undefined" contains. */
  lemma MissingCellMatchesUndefined(row: Row, column: string)
    requires column !in row
    ensures MatchesFilter(row, ColumnFilter(column, "UND"))
  {
    var u := Lower("UND");
    assert u[0] == 'u' && u[1] == 'n' && u[2] == 'd';
    var l := Lower(CellText(row, column));
    assert CellText(row, column) == "undefined";
    assert l[0] == 'u' && l[1] == 'n' && l[2] == 'd';
    assert l[0..3] == u;
    assert OccursAt(l, u, 0);
  }

  // ---------------------------------------------------------------- the filter input

  /** `columnFilters.find(f => f.id === column)?.value || ''`: the text the filter input shows. */
  function FilterValue(filters: seq<ColumnFilter>, column: string): (v: string)
    ensures v != "" ==> exists k :: 0 <= k < |filters| && filters[k] == ColumnFilter(column, v)
  {
    if filters == [] then ""
    else if filters[0].id == column then filters[0].value
    else FilterValue(filters[1..], column)
  }

  /** `columnFilters.filter(f => f.id !== column)`. */
  function OtherColumns(filters: seq<ColumnFilter>, column: string): (r: seq<ColumnFilter>)
    ensures forall f :: f in r <==> f in filters && f.id != column
  {
    if filters == [] then []
    else (if filters[0].id != column then [filters[0]] else []) + OtherColumns(filters[1..], column)
  }

  /** The `onChange` handler of the filter input. */
  function OnFilterInput(filters: seq<ColumnFilter>, column: string, value: string): (r: seq<ColumnFilter>)
    ensures forall f :: f in r && f.id != column <==> f in filters && f.id != column
    ensures value == "" ==> forall f :: f in r ==> f.id != column
    ensures value != "" ==> forall f :: f in r && f.id == column ==> f.value == value
  {
    var kept := OtherColumns(filters, column);
    if value != "" then kept + [ColumnFilter(column, value)] else kept
  }

  /** After typing, the input shows exactly what was typed. */
  lemma {:induction false} FilterInputShowsValue(filters: seq<ColumnFilter>, column: string, value: string)
    ensures FilterValue(OnFilterInput(filters, column, value), column) == value
  {
    var kept := OtherColumns(filters, column);
    if value != "" {
      NoValueWithout(kept, [ColumnFilter(column, value)], column);
    } else {
      NoValueWithout(kept, [], column);
      assert kept + [] == kept;
    }
  }

  lemma {:induction false} NoValueWithout(a: seq<ColumnFilter>, b: seq<ColumnFilter>, column: string)
    requires forall f :: f in a ==> f.id != column
    ensures FilterValue(a + b, column) == FilterValue(b, column)
  {
    if a != [] {
      assert (a + b)[0] == a[0];
      assert (a + b)[1..] == a[1..] + b;
      NoValueWithout(a[1..], b, column);
    } else {
      assert a + b == b;
    }
  }

  /** Typing into the input leaves at most one filter for its column. */
  lemma {:induction false} FilterInputSingleEntry(filters: seq<ColumnFilter>, column: string, value: string)
    ensures var r := OnFilterInput(filters, column, value);
            forall i, j :: 0 <= i < j < |r| && r[i].id == column ==> r[j].id != column
  {
    var kept := OtherColumns(filters, column);
    var r := OnFilterInput(filters, column, value);
    forall i | 0 <= i < |kept|
      ensures kept[i].id != column
    {
      assert kept[i] in kept;
    }
  }
}
