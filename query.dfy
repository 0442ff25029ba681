/**
  The table query behind the `/api/data` endpoint of `server.py`
  (`get_data`): the conjunctive filter mask, the optional sort on one
  column, the page window and the clean-up of the domain columns of the
  returned records.

  The merged DataFrame is a `Frame`: its column names and its rows, each
  row a dictionary from column name to `Cell`. A numeric cell keeps the
  text that `astype(str)` gives for it, so the substring filter can be
  stated without modelling float formatting.
 */
module Query {
  import opened Wrappers
  import opened Text
  import opened PyBuiltins
  import opened Sorting

  datatype Cell = Null | Num(value: real, text: string) | Str(s: string)

  type Row = map<string, Cell>

  datatype Frame = Frame(columns: seq<string>, rows: seq<Row>)

  /** A column the row does not carry reads as a missing value. */
  function CellAt(r: Row, column: string): Cell {
    if column in r then r[column] else Null
  }

  /** `str(value)` of a cell as `astype(str)` writes it. */
  function StrForm(c: Cell): string {
    match c
    case Null => "nan"
    case Num(_, text) => text
    case Str(s) => s
  }

  // ---------------------------------------------------------------------
  // Filters (lines 51-68).

  /** A filter value: a dictionary with optional `min`/`max` bounds, or
      any other JSON value, already turned into its `str` form. */
  datatype Filter = Range(min: Option<real>, max: Option<real>) | Substring(needle: string)

  /** The filter dictionary in its key order. */
  type Filters = seq<(string, Filter)>

  /** One filter accepts a cell: inclusive bounds that a missing or
      non-numeric value never meets, or a case-insensitive substring of
      the cell's string form. */
  predicate Accepts(c: Cell, f: Filter) {
    match f
    case Range(lo, hi) =>
      (lo.None? || (c.Num? && c.value >= lo.value)) &&
      (hi.None? || (c.Num? && c.value <= hi.value))
    case Substring(needle) => ContainsIgnoreCase(StrForm(c), needle)
  }

  /** A bound compared with a column holding text raises a `TypeError`. */
  predicate Raises(rows: seq<Row>, column: string, f: Filter) {
    f.Range? && (f.min.Some? || f.max.Some?) &&
    exists i :: 0 <= i < |rows| && CellAt(rows[i], column).Str?
  }

  /** A row passes every filter whose column exists; the others are ignored. */
  predicate Matches(r: Row, filters: Filters, columns: seq<string>) {
    forall k :: 0 <= k < |filters| && filters[k].0 in columns ==> Accepts(CellAt(r, filters[k].0), filters[k].1)
  }

  /** Some filter on an existing column raises. */
  predicate FilterFails(fr: Frame, filters: Filters) {
    exists k :: 0 <= k < |filters| && filters[k].0 in fr.columns && Raises(fr.rows, filters[k].0, filters[k].1)
  }

  /** The matching rows, in table order. */
  function Filtered(rows: seq<Row>, filters: Filters, columns: seq<string>): (r: seq<Row>)
    ensures |r| <= |rows|
  {
    if rows == [] then []
    else
      var last := rows[|rows| - 1];
      Filtered(rows[..|rows| - 1], filters, columns) + if Matches(last, filters, columns) then [last] else []
  }

  /** The filtered table keeps each matching row as often as the table
      has it, and no other row. */
  lemma {:induction false} FilteredCount(rows: seq<Row>, filters: Filters, columns: seq<string>, x: Row)
    ensures multiset(Filtered(rows, filters, columns))[x] ==
            if Matches(x, filters, columns) then multiset(rows)[x] else 0
  {
    if rows != [] {
      var init, last := rows[..|rows| - 1], rows[|rows| - 1];
      FilteredCount(init, filters, columns, x);
      assert rows == init + [last];
    }
  }

  /** The empty filter dictionary keeps the whole table. */
  lemma {:induction false} NoFiltersKeepAll(rows: seq<Row>, columns: seq<string>)
    ensures Filtered(rows, [], columns) == rows
  {
    if rows != [] {
      NoFiltersKeepAll(rows[..|rows| - 1], columns);
      assert rows == rows[..|rows| - 1] + [rows[|rows| - 1]];
    }
  }

  /** Filters combine by AND. */
  lemma Conjunction(r: Row, f: Filters, g: Filters, columns: seq<string>)
    ensures Matches(r, f + g, columns) <==> Matches(r, f, columns) && Matches(r, g, columns)
  {
    if Matches(r, f, columns) && Matches(r, g, columns) {
      forall k | 0 <= k < |f + g| && (f + g)[k].0 in columns
        ensures Accepts(CellAt(r, (f + g)[k].0), (f + g)[k].1)
      {
        if k >= |f| {
          assert (f + g)[k] == g[k - |f|];
        }
      }
    }
    if Matches(r, f + g, columns) {
      forall k | 0 <= k < |f| && f[k].0 in columns ensures Accepts(CellAt(r, f[k].0), f[k].1) {
        assert (f + g)[k] == f[k];
      }
      forall k | 0 <= k < |g| && g[k].0 in columns ensures Accepts(CellAt(r, g[k].0), g[k].1) {
        assert (f + g)[|f| + k] == g[k];
      }
    }
  }

  /** A filter on a column the table does not have changes nothing. */
  lemma {:induction false} UnknownColumnIgnored(rows: seq<Row>, f: Filters, column: string, v: Filter, columns: seq<string>)
    requires column !in columns
    ensures Filtered(rows, f + [(column, v)], columns) == Filtered(rows, f, columns)
  {
    if rows != [] {
      var last := rows[|rows| - 1];
      UnknownColumnIgnored(rows[..|rows| - 1], f, column, v, columns);
      Conjunction(last, f, [(column, v)], columns);
    }
  }

  /** The comparison of one column with one filter value, vectorised
      over all rows: it raises (on the lower bound when there is one,
      since that comparison comes first) or gives one flag per row. */
  function CompareColumn(rows: seq<Row>, column: string, f: Filter): (r: Result<seq<bool>>)
    ensures r.Err? <==> Raises(rows, column, f)
    ensures r.Ok? ==> |r.value| == |rows| &&
                      forall i :: 0 <= i < |rows| ==> (r.value[i] <==> Accepts(CellAt(rows[i], column), f))
  {
    if Raises(rows, column, f) then
      Err("'" + (if f.min.Some? then ">=" else "<=") + "' not supported between instances of 'str' and 'float'")
    else Ok(seq(|rows|, i requires 0 <= i < |rows| => Accepts(CellAt(rows[i], column), f)))
  }

  /** The `mask &=` loop (lines 51-65): an error as soon as one filter
      raises, otherwise the rows every filter accepts. */
  method FilterMask(fr: Frame, filters: Filters) returns (mask: Result<seq<bool>>)
    ensures mask.Err? <==> FilterFails(fr, filters)
    ensures mask.Ok? ==> |mask.value| == |fr.rows| &&
                         forall i :: 0 <= i < |fr.rows| ==> (mask.value[i] <==> Matches(fr.rows[i], filters, fr.columns))
  {
    var m := seq(|fr.rows|, i => true);
    var k := 0;
    while k < |filters|
      invariant 0 <= k <= |filters| && |m| == |fr.rows|
      invariant !FilterFails(fr, filters[..k])
      invariant forall i :: 0 <= i < |m| ==> (m[i] <==> Matches(fr.rows[i], filters[..k], fr.columns))
    {
      var (column, f) := filters[k];
      assert filters[..k + 1] == filters[..k] + [filters[k]];
      if column in fr.columns {
        var col := CompareColumn(fr.rows, column, f);
        if col.Err? {
          assert filters[k].0 in fr.columns && Raises(fr.rows, filters[k].0, filters[k].1);
          return Err(col.message);
        }
        m := seq(|m|, i requires 0 <= i < |m| => m[i] && col.value[i]);
      }
      forall i | 0 <= i < |m| ensures m[i] <==> Matches(fr.rows[i], filters[..k + 1], fr.columns) {
        Conjunction(fr.rows[i], filters[..k], [filters[k]], fr.columns);
      }
      k := k + 1;
    }
    assert filters[..k] == filters;
    mask := Ok(m);
  }

  /** `merged_data[mask]`: the rows whose flag is set, in order. */
  method ApplyMask(rows: seq<Row>, mask: seq<bool>, ghost filters: Filters, ghost columns: seq<string>)
    returns (kept: seq<Row>)
    requires |mask| == |rows|
    requires forall i :: 0 <= i < |rows| ==> (mask[i] <==> Matches(rows[i], filters, columns))
    ensures kept == Filtered(rows, filters, columns)
  {
    kept := [];
    var i := 0;
    while i < |rows|
      invariant 0 <= i <= |rows|
      invariant kept == Filtered(rows[..i], filters, columns)
    {
      assert rows[..i + 1][..i] == rows[..i];
      if mask[i] {
        kept := kept + [rows[i]];
      }
      i := i + 1;
    }
    assert rows[..i] == rows;
  }

  /** What `get_data` goes on with: the filtered rows, or the first
      `page_size` rows of the table when a filter raised (lines 69-71). */
  function Candidates(fr: Frame, filters: Filters, pageSize: int): seq<Row> {
    if FilterFails(fr, filters) then Head(fr.rows, pageSize) else Filtered(fr.rows, filters, fr.columns)
  }

  // ---------------------------------------------------------------------
  // Sorting (lines 74-79).

  /** Python's `<=` on strings: code point by code point, a prefix first. */
  predicate LexLe(a: string, b: string)
    decreases |a|
  {
    a == [] || (b != [] && (a[0] < b[0] || (a[0] == b[0] && LexLe(a[1..], b[1..]))))
  }

  lemma {:induction false} LexTotal(a: string, b: string)
    ensures LexLe(a, b) || LexLe(b, a)
    decreases |a|
  {
    if a != [] && b != [] && a[0] == b[0] {
      LexTotal(a[1..], b[1..]);
    }
  }

  lemma {:induction false} LexTransitive(a: string, b: string, c: string)
    requires LexLe(a, b) && LexLe(b, c)
    ensures LexLe(a, c)
    decreases |a|
  {
    if a != [] && b != [] && c != [] && a[0] == b[0] == c[0] {
      LexTransitive(a[1..], b[1..], c[1..]);
    }
  }

  /** Numbers before text, missing values last. */
  function Kind(c: Cell): nat {
    match c
    case Num(_, _) => 0
    case Str(_) => 1
    case Null => 2
  }

  /** The order of `sort_values(by=column, ascending=...)` on one column:
      missing values last in either direction (`na_position='last'`).
      Numbers and text are never compared, since a column mixing them
      raises instead. */
  predicate CellLe(a: Cell, b: Cell, ascending: bool) {
    if Kind(a) != Kind(b) then Kind(a) < Kind(b)
    else match a
      case Null => true
      case Num(x, _) => if ascending then x <= b.value else x >= b.value
      case Str(s) => if ascending then LexLe(s, b.s) else LexLe(b.s, s)
  }

  function ByColumn(column: string, ascending: bool): (Row, Row) -> bool {
    (x: Row, y: Row) => CellLe(CellAt(x, column), CellAt(y, column), ascending)
  }

  lemma CellOrder(a: Cell, b: Cell, c: Cell, ascending: bool)
    ensures CellLe(a, b, ascending) || CellLe(b, a, ascending)
    ensures CellLe(a, b, ascending) && CellLe(b, c, ascending) ==> CellLe(a, c, ascending)
  {
    if a.Str? && b.Str? {
      LexTotal(a.s, b.s);
    }
    if a.Str? && b.Str? && c.Str? && CellLe(a, b, ascending) && CellLe(b, c, ascending) {
      if ascending {
        LexTransitive(a.s, b.s, c.s);
      } else {
        LexTransitive(c.s, b.s, a.s);
      }
    }
  }

  lemma ByColumnOrder(column: string, ascending: bool)
    ensures Total(ByColumn(column, ascending)) && Transitive(ByColumn(column, ascending))
  {
    var le := ByColumn(column, ascending);
    forall x: Row, y: Row ensures le(x, y) || le(y, x) {
      CellOrder(CellAt(x, column), CellAt(y, column), CellAt(y, column), ascending);
    }
    forall x: Row, y: Row, z: Row | le(x, y) && le(y, z) ensures le(x, z) {
      CellOrder(CellAt(x, column), CellAt(y, column), CellAt(z, column), ascending);
    }
  }

  /** Sorting on a column mixing numbers and text raises. */
  predicate Mixed(rows: seq<Row>, column: string) {
    (exists i :: 0 <= i < |rows| && CellAt(rows[i], column).Num?) &&
    (exists j :: 0 <= j < |rows| && CellAt(rows[j], column).Str?)
  }

  /** A sort is asked for with a non-empty name of an existing column. */
  predicate SortRequested(sortBy: Option<string>, columns: seq<string>) {
    sortBy.Some? && sortBy.value != "" && sortBy.value in columns
  }

  /** Lines 74-79: sort when asked for and possible (ascending exactly
      when the direction is "asc" in any letter case), otherwise leave
      the rows as they are. */
  method SortRows(rows: seq<Row>, columns: seq<string>, sortBy: Option<string>, sortDir: string)
    returns (sorted: seq<Row>)
    ensures multiset(sorted) == multiset(rows)
    ensures SortRequested(sortBy, columns) && !Mixed(rows, sortBy.value) ==>
              SortedBy(sorted, ByColumn(sortBy.value, LowerAll(sortDir) == "asc"))
    ensures !SortRequested(sortBy, columns) || Mixed(rows, sortBy.value) ==> sorted == rows
  {
    if SortRequested(sortBy, columns) && !Mixed(rows, sortBy.value) {
      var ascending := LowerAll(sortDir) == "asc";
      ByColumnOrder(sortBy.value, ascending);
      sorted := SortBy(rows, ByColumn(sortBy.value, ascending));
    } else {
      sorted := rows;
    }
  }

  // ---------------------------------------------------------------------
  // The page window (lines 85-86, 134).

  function PageStart(page: int, pageSize: int, total: nat): int {
    var first := page * pageSize;
    var last := if total == 0 then 0 else total - 1;
    if first < last then first else last
  }

  function PageEnd(page: int, pageSize: int, total: nat): int {
    var stop := PageStart(page, pageSize, total) + pageSize;
    if stop < total then stop else total
  }

  /** `filtered_data.iloc[start_idx:end_idx]`, with Python's slice rules. */
  function PageRows<T>(s: seq<T>, page: int, pageSize: int): seq<T> {
    Slice(s, PageStart(page, pageSize, |s|), PageEnd(page, pageSize, |s|))
  }

  /** `max(1, (total_rows + page_size - 1) // page_size)`; `None` where the
      division by a zero page size raises. */
  function TotalPages(total: nat, pageSize: int): Option<int> {
    if pageSize == 0 then None
    else
      var q := FloorDiv(total + pageSize - 1, pageSize);
      Some(if q < 1 then 1 else q)
  }

  /** A page never holds more than `page_size` rows. */
  lemma PageBound<T>(s: seq<T>, page: int, pageSize: nat)
    ensures |PageRows(s, page, pageSize)| <= pageSize
  {
    var start, stop := PageStart(page, pageSize, |s|), PageEnd(page, pageSize, |s|);
    assert stop <= start + pageSize;
    var lo, hi := SliceBound(start, |s|), SliceBound(stop, |s|);
    if lo < hi {
      if start < 0 {
        assert stop <= pageSize + start < pageSize;
      }
      assert hi - lo <= pageSize;
    }
  }

  /** A page inside the table is the `page`-th run of `page_size` rows. */
  lemma PageInside<T>(s: seq<T>, page: nat, pageSize: nat)
    requires pageSize > 0 && page * pageSize < |s|
    ensures var first := page * pageSize;
            PageRows(s, page, pageSize) == s[first..if first + pageSize < |s| then first + pageSize else |s|]
  {
  }

  /** A page past the end gives the last row rather than nothing. */
  lemma PagePastEnd<T>(s: seq<T>, page: nat, pageSize: nat)
    requires pageSize > 0 && s != [] && page * pageSize >= |s|
    ensures PageRows(s, page, pageSize) == [s[|s| - 1]]
  {
    assert PageStart(page, pageSize, |s|) == |s| - 1;
  }

  /** Every row is on the page its index divides into. */
  lemma RowOnItsPage<T>(s: seq<T>, i: nat, pageSize: nat)
    requires pageSize > 0 && i < |s|
    ensures i % pageSize < |PageRows(s, i / pageSize, pageSize)|
    ensures PageRows(s, i / pageSize, pageSize)[i % pageSize] == s[i]
  {
    var page := i / pageSize;
    assert page * pageSize + i % pageSize == i;
    assert page * pageSize <= i;
    PageInside(s, page, pageSize);
  }

  /** For a positive page size, the page count is the least number of
      pages of `page_size` rows that hold every row, and at least one. */
  lemma TotalPagesSpec(total: nat, pageSize: nat)
    requires total > 0 && pageSize > 0
    ensures TotalPages(total, pageSize).Some?
    ensures var n := TotalPages(total, pageSize).value;
            n >= 1 && (n - 1) * pageSize < total <= n * pageSize
  {
    var q := FloorDiv(total + pageSize - 1, pageSize);
    assert pageSize * q <= total + pageSize - 1 < pageSize * q + pageSize;
    PositiveFactor(pageSize, q);
    assert (q - 1) * pageSize == pageSize * q - pageSize;
  }

  lemma PositiveFactor(a: nat, b: int)
    requires a * b > 0
    ensures b > 0
  {
  }

  // ---------------------------------------------------------------------
  // The domain columns of the returned records (lines 113-127).

  const DomainColumns: seq<string> := ["PFAM_domains", "KOFAM_domains"]

  /** A domain cell stays only if it is text `json.loads` accepts
      (`isJson`); anything else becomes the empty JSON list. */
  function SanitiseCell(c: Cell, isJson: string -> bool): Cell {
    if c.Str? && isJson(c.s) then c else Str("[]")
  }

  function SanitiseRow(r: Row, isJson: string -> bool): (r': Row)
    ensures r'.Keys == r.Keys
    ensures forall col :: col in r && col !in DomainColumns ==> r'[col] == r[col]
    ensures forall col :: col in r && col in DomainColumns ==> r'[col] == SanitiseCell(r[col], isJson)
  {
    map col | col in r :: if col in DomainColumns then SanitiseCell(r[col], isJson) else r[col]
  }

  /** Sanitised domain cells hold text that parses or `"[]"`; valid text
      is kept as it was. */
  lemma SanitisedDomainCells(r: Row, isJson: string -> bool, col: string)
    requires col in r && col in DomainColumns
    ensures var c := SanitiseRow(r, isJson)[col];
            c.Str? && (isJson(c.s) || c.s == "[]")
    ensures r[col].Str? && isJson(r[col].s) ==> SanitiseRow(r, isJson)[col] == r[col]
  {
  }

  /** Sanitising twice is sanitising once, since `"[]"` parses. */
  lemma SanitiseIdempotent(r: Row, isJson: string -> bool)
    requires isJson("[]")
    ensures SanitiseRow(SanitiseRow(r, isJson), isJson) == SanitiseRow(r, isJson)
  {
  }

  /** The record loop of lines 114-127. */
  method SanitiseRecords(records: seq<Row>, isJson: string -> bool) returns (out: seq<Row>)
    ensures |out| == |records|
    ensures forall i :: 0 <= i < |records| ==> out[i] == SanitiseRow(records[i], isJson)
  {
    out := [];
    var i := 0;
    while i < |records|
      invariant 0 <= i <= |records| && |out| == i
      invariant forall j :: 0 <= j < i ==> out[j] == SanitiseRow(records[j], isJson)
    {
      var record := records[i];
      var k := 0;
      while k < |DomainColumns|
        invariant 0 <= k <= |DomainColumns|
        invariant record.Keys == records[i].Keys
        invariant forall col :: col in record ==>
                    record[col] == if col in DomainColumns[..k] then SanitiseCell(records[i][col], isJson) else records[i][col]
      {
        var col := DomainColumns[k];
        if col in record {
          record := record[col := SanitiseCell(record[col], isJson)];
        }
        assert DomainColumns[..k + 1] == DomainColumns[..k] + [col];
        k := k + 1;
      }
      assert DomainColumns[..k] == DomainColumns;
      out := out + [record];
      i := i + 1;
    }
  }

  // ---------------------------------------------------------------------
  // The endpoint.

  datatype DataPage = DataPage(data: seq<Row>, page: int, pageSize: int, totalRows: nat, totalPages: int,
                               error: Option<string>)

  /** `get_data` (lines 27-155) once the request arguments are parsed:
      filter (or fall back), sort, cut the page and clean its records. An
      empty result has no pages; a zero page size fails the page count
      and yields the minimal response with its error. `isJson` stands for
      "`json.loads` accepts this text". */
  method GetData(frame: Option<Frame>, page: int, pageSize: int, filters: Filters,
                 sortBy: Option<string>, sortDir: string, isJson: string -> bool)
    returns (r: Result<DataPage>, ghost ordered: seq<Row>)
    ensures frame.None? ==> r == Err("Data not loaded")
    ensures frame.Some? ==>
              var rows := Candidates(frame.value, filters, pageSize);
              var total := |rows|;
              r.Ok? && r.value.page == page && r.value.pageSize == pageSize &&
              r.value.totalRows == total &&
              multiset(ordered) == multiset(rows) &&
              (SortRequested(sortBy, frame.value.columns) && !Mixed(rows, sortBy.value) ==>
                 SortedBy(ordered, ByColumn(sortBy.value, LowerAll(sortDir) == "asc"))) &&
              (!SortRequested(sortBy, frame.value.columns) || Mixed(rows, sortBy.value) ==> ordered == rows) &&
              (total == 0 ==> r.value == DataPage([], page, pageSize, 0, 0, None)) &&
              (total > 0 && pageSize == 0 ==>
                 r.value == DataPage([], page, pageSize, total, 1,
                                     Some("Data formatting error: integer division or modulo by zero"))) &&
              (total > 0 && pageSize != 0 ==>
                 var window := PageRows(ordered, page, pageSize);
                 r.value.error.None? && Some(r.value.totalPages) == TotalPages(total, pageSize) &&
                 |r.value.data| == |window| &&
                 forall i :: 0 <= i < |window| ==> r.value.data[i] == SanitiseRow(window[i], isJson))
  {
    ordered := [];
    if frame.None? {
      return Err("Data not loaded"), ordered;
    }
    var fr := frame.value;
    var mask := FilterMask(fr, filters);
    var rows;
    if mask.Err? {
      rows := Head(fr.rows, pageSize);
    } else {
      rows := ApplyMask(fr.rows, mask.value, filters, fr.columns);
    }
    var sorted := SortRows(rows, fr.columns, sortBy, sortDir);
    ordered := sorted;
    assert |sorted| == |multiset(sorted)| == |multiset(rows)| == |rows|;
    var total := |sorted|;
    var start := PageStart(page, pageSize, total);
    var end := PageEnd(page, pageSize, total);
    if total == 0 {
      return Ok(DataPage([], page, pageSize, 0, 0, None)), ordered;
    }
    var window := Slice(sorted, start, end);
    var records := SanitiseRecords(window, isJson);
    var pages := TotalPages(total, pageSize);
    if pages.None? {
      return Ok(DataPage([], page, pageSize, total, 1,
                         Some("Data formatting error: integer division or modulo by zero"))), ordered;
    }
    r := Ok(DataPage(records, page, pageSize, total, pages.value, None));
  }
}
