/**
  The summaries behind the `/api/visualization_data` endpoint of
  `server.py` (`get_visualization_data`): the same filter as the table
  query, then the MHC value counts, the affinity values and the fifteen
  most frequent domain names of each domain column.

  A domain cell holds a JSON list of hit dictionaries; `parse` stands for
  `json.loads` followed by reading each entry's `hmm_name`, giving `None`
  where either raises.
 */
module Visualization {
  import opened Wrappers
  import opened PyBuiltins
  import opened Sorting
  import opened Tallies
  import opened Query

  /** The cells of one column, row by row. */
  function Column(rows: seq<Row>, column: string): (r: seq<Cell>)
    ensures |r| == |rows|
  {
    seq(|rows|, i requires 0 <= i < |rows| => CellAt(rows[i], column))
  }

  /** `Series.dropna()`: the present values, in order. */
  function Present(cells: seq<Cell>): (r: seq<Cell>)
    ensures forall i :: 0 <= i < |r| ==> !r[i].Null?
  {
    if cells == [] then []
    else Present(cells[..|cells| - 1]) + if cells[|cells| - 1].Null? then [] else [cells[|cells| - 1]]
  }

  /** Dropping missing values keeps every present value as often as it occurs. */
  lemma {:induction false} PresentCount(cells: seq<Cell>, v: Cell)
    ensures multiset(Present(cells))[v] == if v.Null? then 0 else multiset(cells)[v]
  {
    if cells != [] {
      var init, last := cells[..|cells| - 1], cells[|cells| - 1];
      PresentCount(init, v);
      assert cells == init + [last];
    }
  }

  /** The domain names of the cells that parse, cell after cell; a cell
      that is not text or does not parse adds nothing. */
  function DomainNames(cells: seq<Cell>, parse: string -> Option<seq<string>>): seq<string> {
    if cells == [] then []
    else
      var last := cells[|cells| - 1];
      DomainNames(cells[..|cells| - 1], parse) + CellNames(last, parse)
  }

  /** What one cell adds to the counted names. */
  function CellNames(c: Cell, parse: string -> Option<seq<string>>): seq<string> {
    if c.Str? && parse(c.s).Some? then parse(c.s).value else []
  }

  lemma DomainNamesStep(cells: seq<Cell>, i: nat, parse: string -> Option<seq<string>>)
    requires i < |cells|
    ensures DomainNames(cells[..i + 1], parse) == DomainNames(cells[..i], parse) + CellNames(cells[i], parse)
  {
    assert cells[..i + 1][..i] == cells[..i];
  }

  /** The `Counter.update` loop of lines 229-235. */
  method CountDomainNames(cells: seq<Cell>, parse: string -> Option<seq<string>>) returns (counts: Tally<string>)
    ensures counts == CountAll(DomainNames(cells, parse))
  {
    counts := Empty();
    var i := 0;
    while i < |cells|
      invariant 0 <= i <= |cells|
      invariant counts == CountAll(DomainNames(cells[..i], parse))
    {
      DomainNamesStep(cells, i, parse);
      var cell := cells[i];
      ghost var before := DomainNames(cells[..i], parse);
      if cell.Str? {
        var names := parse(cell.s);
        if names.Some? {
          AddAllCountAll(before, names.value);
          counts := AddAll(counts, names.value);
        } else {
          assert before + CellNames(cell, parse) == before;
        }
      } else {
        assert before + CellNames(cell, parse) == before;
      }
      i := i + 1;
    }
    assert cells[..i] == cells;
  }

  /** `most_common(15)` stated on the counted names: at most fifteen
      distinct names, each with its number of occurrences, in
      non-increasing count order, and no name left out occurs more often
      than one kept. Equally frequent names keep the order in which they
      first occur, so of those tied at the cut the first met are kept. */
  ghost predicate Ranks(top: seq<(string, nat)>, names: seq<string>) {
    var distinct := |Unique(names)|;
    |top| == (if distinct < 15 then distinct else 15) &&
    SortedBy(top, ByCountDesc()) &&
    (forall i :: 0 <= i < |top| ==> top[i].1 == multiset(names)[top[i].0] > 0) &&
    (forall i, j :: 0 <= i < j < |top| ==> top[i].0 != top[j].0) &&
    (forall n, i :: n in names && 0 <= i < |top| && n !in Keys(top) ==> multiset(names)[n] <= top[i].1) &&
    (forall i, j :: 0 <= i < j < |top| && top[i].1 == top[j].1 ==> Precedes(Unique(names), top[i].0, top[j].0)) &&
    (forall n, i :: n in names && 0 <= i < |top| && n !in Keys(top) && multiset(names)[n] == top[i].1 ==>
       Precedes(Unique(names), top[i].0, n))
  }

  /** One domain column's top fifteen (lines 219-242): nothing when the
      column is absent, since the `KeyError` is caught there. */
  method TopDomains(fr: Frame, rows: seq<Row>, column: string, parse: string -> Option<seq<string>>)
    returns (top: seq<(string, nat)>)
    ensures Covers(top, fr, rows, column, parse)
  {
    if column !in fr.columns {
      return [];
    }
    var counts := CountDomainNames(Present(Column(rows, column)), parse);
    CountAllKeys(DomainNames(Present(Column(rows, column)), parse));
    top := MostCommon(counts, 15);
    RankedNames(DomainNames(Present(Column(rows, column)), parse), top);
  }

  /** What a domain column reports: nothing when the column is absent,
      else its top fifteen names. */
  ghost predicate Covers(top: seq<(string, nat)>, fr: Frame, rows: seq<Row>, column: string,
                         parse: string -> Option<seq<string>>)
  {
    (column !in fr.columns ==> top == []) &&
    (column in fr.columns ==> Ranks(top, DomainNames(Present(Column(rows, column)), parse)))
  }

  /** The guarantees of `most_common` on the tally of `names`, restated
      on `names` themselves. */
  lemma RankedNames(names: seq<string>, top: seq<(string, nat)>)
    requires var t := CountAll(names);
             var distinct := |t.keys|;
             |top| == (if 15 < distinct then 15 else distinct) &&
             SortedBy(top, ByCountDesc()) &&
             (forall i :: 0 <= i < |top| ==> top[i].0 in t.count && top[i].1 == t.count[top[i].0]) &&
             (forall i, j :: 0 <= i < j < |top| ==> top[i].0 != top[j].0) &&
             (forall k, i :: k in t.count && 0 <= i < |top| && k !in Keys(top) ==> t.count[k] <= top[i].1) &&
             (forall i, j :: 0 <= i < j < |top| && top[i].1 == top[j].1 ==> Precedes(t.keys, top[i].0, top[j].0)) &&
             (forall k, i :: k in t.count && 0 <= i < |top| && k !in Keys(top) && t.count[k] == top[i].1 ==>
                Precedes(t.keys, top[i].0, k))
    ensures Ranks(top, names)
  {
    CountAllKeys(names);
    UniqueMembers(names);
    forall i | 0 <= i < |top| ensures top[i].1 == multiset(names)[top[i].0] > 0 {
      CountAllCounts(names, top[i].0);
    }
    forall n, i | n in names && 0 <= i < |top| && n !in Keys(top) ensures multiset(names)[n] <= top[i].1 {
      CountAllCounts(names, n);
    }
    forall n, i | n in names && 0 <= i < |top| && n !in Keys(top) && multiset(names)[n] == top[i].1
      ensures Precedes(Unique(names), top[i].0, n)
    {
      CountAllCounts(names, n);
    }
  }

  datatype Overview = Overview(totalRows: nat, mhcCounts: map<Cell, nat>, affinityData: seq<Cell>,
                               pfamDomains: seq<(string, nat)>, kofamDomains: seq<(string, nat)>,
                               pfamMetagenomeDomains: Option<seq<(string, nat)>>,
                               kofamMetagenomeDomains: Option<seq<(string, nat)>>)

  /** `value_counts()`: how often each present value occurs. */
  function ValueCounts(cells: seq<Cell>): map<Cell, nat> {
    CountAll(Present(cells)).count
  }

  /** A value's count is its number of rows; missing values are not counted. */
  lemma ValueCountsMeaning(cells: seq<Cell>, v: Cell)
    ensures v in ValueCounts(cells) <==> !v.Null? && v in cells
    ensures v in ValueCounts(cells) ==> ValueCounts(cells)[v] == multiset(cells)[v]
  {
    PresentCount(cells, v);
    CountAllCounts(Present(cells), v);
    CountAllKeys(Present(cells));
    UniqueMembers(Present(cells));
  }

  /** The summary of lines 209-333 over `rows`: their number, the `MHC`
      value counts, the present affinities and the top names of each of the
      four domain columns. */
  ghost predicate Summarises(o: Overview, fr: Frame, rows: seq<Row>, parse: string -> Option<seq<string>>) {
    o.totalRows == |rows| &&
    o.mhcCounts == ValueCounts(Column(rows, "MHC")) &&
    o.affinityData == Present(Column(rows, "mimic_Aff(nM)")) &&
    Covers(o.pfamDomains, fr, rows, "PFAM_domains", parse) &&
    Covers(o.kofamDomains, fr, rows, "KOFAM_domains", parse) &&
    o.pfamMetagenomeDomains.Some? &&
    Covers(o.pfamMetagenomeDomains.value, fr, rows, "PFAM_metagenome_domains", parse) &&
    o.kofamMetagenomeDomains.Some? &&
    Covers(o.kofamMetagenomeDomains.value, fr, rows, "KOFAM_metagenome_domains", parse)
  }

  /** `get_visualization_data` (lines 158-344) once the filters are
      parsed. A filter that raises is an error here (unlike the table
      query); no matching rows give the empty summary; a missing `MHC` or
      affinity column fails the summary. */
  method GetVisualizationData(frame: Option<Frame>, filters: Filters, parse: string -> Option<seq<string>>)
    returns (r: Result<Overview>)
    ensures frame.None? ==> r == Err("Data not loaded")
    ensures frame.Some? && FilterFails(frame.value, filters) ==> r.Err?
    ensures frame.Some? && !FilterFails(frame.value, filters) ==>
              var fr := frame.value;
              var rows := Filtered(fr.rows, filters, fr.columns);
              (rows == [] ==> r == Ok(Overview(0, map[], [], [], [], None, None))) &&
              (rows != [] && "MHC" !in fr.columns ==> r == Err("Error preparing data: 'MHC'")) &&
              (rows != [] && "MHC" in fr.columns && "mimic_Aff(nM)" !in fr.columns ==>
                 r == Err("Error preparing data: 'mimic_Aff(nM)'")) &&
              (rows != [] && "MHC" in fr.columns && "mimic_Aff(nM)" in fr.columns ==>
                 r.Ok? && Summarises(r.value, fr, rows, parse))
  {
    if frame.None? {
      return Err("Data not loaded");
    }
    var fr := frame.value;
    var mask := FilterMask(fr, filters);
    if mask.Err? {
      return Err("Error applying filters: " + mask.message);
    }
    var rows := ApplyMask(fr.rows, mask.value, filters, fr.columns);
    if |rows| == 0 {
      return Ok(Overview(0, map[], [], [], [], None, None));
    }
    r := Summarise(fr, rows, parse);
  }

  /** Lines 209-338 on the filtered rows. */
  method Summarise(fr: Frame, rows: seq<Row>, parse: string -> Option<seq<string>>) returns (r: Result<Overview>)
    ensures "MHC" !in fr.columns ==> r == Err("Error preparing data: 'MHC'")
    ensures "MHC" in fr.columns && "mimic_Aff(nM)" !in fr.columns ==> r == Err("Error preparing data: 'mimic_Aff(nM)'")
    ensures "MHC" in fr.columns && "mimic_Aff(nM)" in fr.columns ==> r.Ok? && Summarises(r.value, fr, rows, parse)
  {
    if "MHC" !in fr.columns {
      return Err("Error preparing data: 'MHC'");
    }
    var mhcCounts := ValueCounts(Column(rows, "MHC"));
    if "mimic_Aff(nM)" !in fr.columns {
      return Err("Error preparing data: 'mimic_Aff(nM)'");
    }
    var affinityData := Present(Column(rows, "mimic_Aff(nM)"));
    var pfamDomains := TopDomains(fr, rows, "PFAM_domains", parse);
    var kofamDomains := TopDomains(fr, rows, "KOFAM_domains", parse);
    var pfamMetagenomeDomains := TopDomains(fr, rows, "PFAM_metagenome_domains", parse);
    var kofamMetagenomeDomains := TopDomains(fr, rows, "KOFAM_metagenome_domains", parse);
    r := Ok(Overview(|rows|, mhcCounts, affinityData, pfamDomains, kofamDomains,
                     Some(pfamMetagenomeDomains), Some(kofamMetagenomeDomains)));
  }
}
