/**
  The binders table, its merge with the four hit maps (`merge_data`) and
  the counts of `get_data_summary`.
 */
module Records {
  import opened Wrappers
  import opened Text
  import opened PyBuiltins
  import opened Hmm
  import opened Tallies

  /** A row of the binders table: the columns the processor reads. A
      missing peptide or affinity (NaN) is `None`. */
  datatype BinderRow = BinderRow(mimicGene: string, mhc: string, cancerAcc: string, cancerDb: string,
                                 peptide: Option<string>, affinity: Option<real>, bindLevel: string)

  /** The four maps built by `process_hmm_hits`. */
  datatype HitMaps = HitMaps(pfam: DomainMap, kofam: DomainMap, pfamMeta: DomainMap, kofamMeta: DomainMap)

  /** The hits of one map for one gene and the columns derived from them:
      the hit list (the `*_domains` JSON column), its length and the names
      joined by ", ". */
  datatype Annotation = Annotation(domains: seq<Hit>, count: nat, names: string)

  /** A row of the merged table: the binder row and the added columns. */
  datatype MergedRow = MergedRow(binder: BinderRow, pfam: Annotation, kofam: Annotation,
                                 pfamMeta: Annotation, kofamMeta: Annotation, originSeqLength: int)

  function NamesOf(hits: seq<Hit>): (r: seq<string>)
    ensures |r| == |hits|
    ensures forall k :: 0 <= k < |hits| ==> r[k] == hits[k].hmmName
  {
    if hits == [] then [] else [hits[0].hmmName] + NamesOf(hits[1..])
  }

  /** The columns `merge_data` derives from one map for one gene. */
  function Annotate(m: DomainMap, gene: string): Annotation {
    var hits := HitsAt(m, gene);
    Annotation(hits, |hits|, Join(NamesOf(hits), ", "))
  }

  /** One merged row (lines 545-607): absent genes get no hits and a
      length of 0. */
  function MergeRow(b: BinderRow, maps: HitMaps, lengths: map<string, int>): MergedRow {
    MergedRow(b, Annotate(maps.pfam, b.mimicGene), Annotate(maps.kofam, b.mimicGene),
              Annotate(maps.pfamMeta, b.mimicGene), Annotate(maps.kofamMeta, b.mimicGene),
              if b.mimicGene in lengths then lengths[b.mimicGene] else 0)
  }

  /** The merged table: one row per binder row, in order. */
  function MergeRows(binders: seq<BinderRow>, maps: HitMaps, lengths: map<string, int>): (r: seq<MergedRow>)
    ensures |r| == |binders|
    ensures forall i :: 0 <= i < |r| ==> r[i].binder == binders[i]
  {
    seq(|binders|, i requires 0 <= i < |binders| => MergeRow(binders[i], maps, lengths))
  }

  predicate NoCommaIn(hits: seq<Hit>) {
    forall k :: 0 <= k < |hits| ==> ',' !in hits[k].hmmName
  }

  /** The names column reads back as the gene's hit names in hit order,
      and as many of them as the count column says, when the gene has hits
      and no name contains a comma; with no hits both columns are empty. */
  lemma AnnotationNames(m: DomainMap, gene: string)
    ensures var a := Annotate(m, gene);
            a.count == |a.domains| &&
            (a.domains == [] ==> a.count == 0 && a.names == "") &&
            (a.domains != [] && NoCommaIn(a.domains) ==>
               Split(a.names, ", ") == NamesOf(a.domains) && |Split(a.names, ", ")| == a.count)
  {
    var a := Annotate(m, gene);
    if a.domains != [] && NoCommaIn(a.domains) {
      SplitJoin(NamesOf(a.domains), ", ");
    }
  }

  // ---------------------------------------------------------------------
  // `get_data_summary` (counts only).

  datatype Summary = Summary(totalRows: nat, uniqueMimicGenes: nat, uniqueMhcTypes: nat, uniqueCancerAccs: nat,
                             bindingLevelCounts: map<string, nat>,
                             pfamWithDomains: nat, kofamWithDomains: nat,
                             withLength: nat, minLength: int, maxLength: int)

  function Genes(rows: seq<MergedRow>): (r: seq<string>)
    ensures |r| == |rows|
    ensures forall i :: 0 <= i < |rows| ==> r[i] == rows[i].binder.mimicGene
  {
    seq(|rows|, i requires 0 <= i < |rows| => rows[i].binder.mimicGene)
  }

  function Mhcs(rows: seq<MergedRow>): (r: seq<string>)
    ensures |r| == |rows|
    ensures forall i :: 0 <= i < |rows| ==> r[i] == rows[i].binder.mhc
  {
    seq(|rows|, i requires 0 <= i < |rows| => rows[i].binder.mhc)
  }

  function CancerAccs(rows: seq<MergedRow>): (r: seq<string>)
    ensures |r| == |rows|
    ensures forall i :: 0 <= i < |rows| ==> r[i] == rows[i].binder.cancerAcc
  {
    seq(|rows|, i requires 0 <= i < |rows| => rows[i].binder.cancerAcc)
  }

  function BindLevels(rows: seq<MergedRow>): (r: seq<string>)
    ensures |r| == |rows|
    ensures forall i :: 0 <= i < |rows| ==> r[i] == rows[i].binder.bindLevel
  {
    seq(|rows|, i requires 0 <= i < |rows| => rows[i].binder.bindLevel)
  }

  /** Rows whose PFAM (or KOFAM) count column is positive. */
  function CountWithDomains(rows: seq<MergedRow>, pfam: bool): (r: nat)
    ensures r <= |rows|
  {
    if rows == [] then 0
    else CountWithDomains(rows[..|rows| - 1], pfam) +
         (if (if pfam then rows[|rows| - 1].pfam.count else rows[|rows| - 1].kofam.count) > 0 then 1 else 0)
  }

  /** The positive `origin_seq_length` values, in row order. */
  function PositiveLengths(rows: seq<MergedRow>): (r: seq<int>)
    ensures |r| <= |rows|
    ensures forall k :: 0 <= k < |r| ==> r[k] > 0
  {
    if rows == [] then []
    else PositiveLengths(rows[..|rows| - 1]) +
         (if rows[|rows| - 1].originSeqLength > 0 then [rows[|rows| - 1].originSeqLength] else [])
  }

  function Min(s: seq<int>): int
    requires s != []
  {
    if |s| == 1 then s[0] else var m := Min(s[..|s| - 1]); if s[|s| - 1] < m then s[|s| - 1] else m
  }

  function Max(s: seq<int>): int
    requires s != []
  {
    if |s| == 1 then s[0] else var m := Max(s[..|s| - 1]); if s[|s| - 1] > m then s[|s| - 1] else m
  }

  /** `get_data_summary` without its averages; an error before the merge. */
  function DataSummary(merged: Option<seq<MergedRow>>): Result<Summary> {
    match merged
    case None => Err("Merged data not created. Call merge_data() first.")
    case Some(rows) =>
      var lengths := PositiveLengths(rows);
      Ok(Summary(|rows|, |Unique(Genes(rows))|, |Unique(Mhcs(rows))|, |Unique(CancerAccs(rows))|,
                 CountAll(BindLevels(rows)).count,
                 CountWithDomains(rows, true), CountWithDomains(rows, false),
                 |lengths|, if lengths == [] then 0 else Min(lengths), if lengths == [] then 0 else Max(lengths)))
  }

  lemma {:induction false} MinMaxSpec(s: seq<int>)
    requires s != []
    ensures Min(s) in s && Max(s) in s
    ensures forall k :: 0 <= k < |s| ==> Min(s) <= s[k] <= Max(s)
  {
    if |s| > 1 {
      var init := s[..|s| - 1];
      MinMaxSpec(init);
      assert forall k :: 0 <= k < |init| ==> init[k] == s[k];
      assert s == init + [s[|s| - 1]];
    }
  }

  /** What the summary's counts mean. The three `nunique` counts are the
      numbers of distinct genes, alleles and accessions among the rows. The
      binding-level counts sum to the row count and give each level its
      number of rows. The two domain counts and the length count are the
      numbers of rows with a positive PFAM count, KOFAM count and length.
      The length range is the smallest and largest positive length, both
      taken by some row, and is 0..0 when there are none. */
  lemma SummarySpec(rows: seq<MergedRow>)
    ensures DataSummary(Some(rows)).Ok?
    ensures var s := DataSummary(Some(rows)).value;
            s.totalRows == |rows| &&
            s.uniqueMimicGenes == |set i | 0 <= i < |rows| :: rows[i].binder.mimicGene| &&
            s.uniqueMhcTypes == |set i | 0 <= i < |rows| :: rows[i].binder.mhc| &&
            s.uniqueCancerAccs == |set i | 0 <= i < |rows| :: rows[i].binder.cancerAcc| &&
            (forall level :: level in s.bindingLevelCounts ==> s.bindingLevelCounts[level] == multiset(BindLevels(rows))[level]) &&
            (forall i :: 0 <= i < |rows| ==> rows[i].binder.bindLevel in s.bindingLevelCounts) &&
            s.pfamWithDomains == |set i | 0 <= i < |rows| && rows[i].pfam.count > 0| &&
            s.kofamWithDomains == |set i | 0 <= i < |rows| && rows[i].kofam.count > 0|
    ensures var s := DataSummary(Some(rows)).value;
            s.withLength == |set i | 0 <= i < |rows| && rows[i].originSeqLength > 0| &&
            (s.withLength == 0 ==> s.minLength == 0 && s.maxLength == 0) &&
            (s.withLength > 0 ==>
               0 < s.minLength <= s.maxLength &&
               (exists i :: 0 <= i < |rows| && rows[i].originSeqLength == s.minLength) &&
               (exists i :: 0 <= i < |rows| && rows[i].originSeqLength == s.maxLength)) &&
            (forall i :: 0 <= i < |rows| && rows[i].originSeqLength > 0 ==>
               s.minLength <= rows[i].originSeqLength <= s.maxLength)
  {
    SummaryDistinct(rows);
    SummaryLevels(rows);
    WithDomainsCount(rows, true);
    WithDomainsCount(rows, false);
    SummaryLengths(rows);
  }

  lemma SummaryDistinct(rows: seq<MergedRow>)
    ensures var s := DataSummary(Some(rows)).value;
            s.uniqueMimicGenes == |set i | 0 <= i < |rows| :: rows[i].binder.mimicGene| &&
            s.uniqueMhcTypes == |set i | 0 <= i < |rows| :: rows[i].binder.mhc| &&
            s.uniqueCancerAccs == |set i | 0 <= i < |rows| :: rows[i].binder.cancerAcc|
  {
    DistinctGenes(rows);
    DistinctMhcs(rows);
    DistinctAccs(rows);
  }

  lemma DistinctGenes(rows: seq<MergedRow>)
    ensures |Unique(Genes(rows))| == |set i | 0 <= i < |rows| :: rows[i].binder.mimicGene|
  {
    UniqueCount(Genes(rows));
    assert (set x | x in Genes(rows)) == set i | 0 <= i < |rows| :: rows[i].binder.mimicGene;
  }

  lemma DistinctMhcs(rows: seq<MergedRow>)
    ensures |Unique(Mhcs(rows))| == |set i | 0 <= i < |rows| :: rows[i].binder.mhc|
  {
    UniqueCount(Mhcs(rows));
    assert (set x | x in Mhcs(rows)) == set i | 0 <= i < |rows| :: rows[i].binder.mhc;
  }

  lemma DistinctAccs(rows: seq<MergedRow>)
    ensures |Unique(CancerAccs(rows))| == |set i | 0 <= i < |rows| :: rows[i].binder.cancerAcc|
  {
    UniqueCount(CancerAccs(rows));
    assert (set x | x in CancerAccs(rows)) == set i | 0 <= i < |rows| :: rows[i].binder.cancerAcc;
  }

  lemma SummaryLevels(rows: seq<MergedRow>)
    ensures var s := DataSummary(Some(rows)).value;
            (forall level :: level in s.bindingLevelCounts ==> s.bindingLevelCounts[level] == multiset(BindLevels(rows))[level]) &&
            (forall i :: 0 <= i < |rows| ==> rows[i].binder.bindLevel in s.bindingLevelCounts)
  {
    var s := DataSummary(Some(rows)).value;
    var levels := BindLevels(rows);
    CountAllKeys(levels);
    forall level | level in s.bindingLevelCounts
      ensures s.bindingLevelCounts[level] == multiset(levels)[level]
    {
      CountAllCounts(levels, level);
    }
    forall i | 0 <= i < |rows| ensures rows[i].binder.bindLevel in s.bindingLevelCounts {
      assert levels[i] in Unique(levels);
    }
  }

  lemma SummaryLengths(rows: seq<MergedRow>)
    ensures var s := DataSummary(Some(rows)).value;
            s.withLength == |set i | 0 <= i < |rows| && rows[i].originSeqLength > 0| &&
            (s.withLength == 0 ==> s.minLength == 0 && s.maxLength == 0) &&
            (s.withLength > 0 ==>
               0 < s.minLength <= s.maxLength &&
               (exists i :: 0 <= i < |rows| && rows[i].originSeqLength == s.minLength) &&
               (exists i :: 0 <= i < |rows| && rows[i].originSeqLength == s.maxLength)) &&
            (forall i :: 0 <= i < |rows| && rows[i].originSeqLength > 0 ==>
               s.minLength <= rows[i].originSeqLength <= s.maxLength)
  {
    var s := DataSummary(Some(rows)).value;
    var lengths := PositiveLengths(rows);
    PositiveLengthsCount(rows);
    if lengths != [] {
      MinMaxSpec(lengths);
      PositiveLengthFrom(rows, Min(lengths));
      PositiveLengthFrom(rows, Max(lengths));
      forall i | 0 <= i < |rows| && rows[i].originSeqLength > 0
        ensures s.minLength <= rows[i].originSeqLength <= s.maxLength
      {
        PositiveLengthListed(rows, i);
      }
    } else {
      forall i | 0 <= i < |rows| && rows[i].originSeqLength > 0
        ensures false
      {
        PositiveLengthListed(rows, i);
      }
    }
  }

  /** `(col > 0).sum()` over the PFAM or KOFAM count column. */
  lemma WithDomainsCount(rows: seq<MergedRow>, pfam: bool)
    ensures pfam ==> CountWithDomains(rows, pfam) == |set i | 0 <= i < |rows| && rows[i].pfam.count > 0|
    ensures !pfam ==> CountWithDomains(rows, pfam) == |set i | 0 <= i < |rows| && rows[i].kofam.count > 0|
  {
    if pfam { PfamCount(rows); } else { KofamCount(rows); }
  }

  lemma {:induction false} PfamCount(rows: seq<MergedRow>)
    ensures CountWithDomains(rows, true) == |set i | 0 <= i < |rows| && rows[i].pfam.count > 0|
  {
    if rows != [] {
      var init := rows[..|rows| - 1];
      var n := |rows| - 1;
      PfamCount(init);
      var before := set i | 0 <= i < |init| && init[i].pfam.count > 0;
      var after := set i | 0 <= i < |rows| && rows[i].pfam.count > 0;
      forall i | i in after ensures i in before + (if rows[n].pfam.count > 0 then {n} else {}) {
        if i < n { assert init[i] == rows[i]; }
      }
      forall i | i in before ensures i in after { assert init[i] == rows[i]; }
      assert after == before + (if rows[n].pfam.count > 0 then {n} else {});
      assert n !in before;
    }
  }

  lemma {:induction false} KofamCount(rows: seq<MergedRow>)
    ensures CountWithDomains(rows, false) == |set i | 0 <= i < |rows| && rows[i].kofam.count > 0|
  {
    if rows != [] {
      var init := rows[..|rows| - 1];
      var n := |rows| - 1;
      KofamCount(init);
      var before := set i | 0 <= i < |init| && init[i].kofam.count > 0;
      var after := set i | 0 <= i < |rows| && rows[i].kofam.count > 0;
      forall i | i in after ensures i in before + (if rows[n].kofam.count > 0 then {n} else {}) {
        if i < n { assert init[i] == rows[i]; }
      }
      forall i | i in before ensures i in after { assert init[i] == rows[i]; }
      assert after == before + (if rows[n].kofam.count > 0 then {n} else {});
      assert n !in before;
    }
  }

  /** The positive lengths are one per row with a positive length. */
  lemma {:induction false} PositiveLengthsCount(rows: seq<MergedRow>)
    ensures |PositiveLengths(rows)| == |set i | 0 <= i < |rows| && rows[i].originSeqLength > 0|
  {
    if rows != [] {
      var init := rows[..|rows| - 1];
      var n := |rows| - 1;
      PositiveLengthsCount(init);
      var before := set i | 0 <= i < |init| && init[i].originSeqLength > 0;
      var after := set i | 0 <= i < |rows| && rows[i].originSeqLength > 0;
      assert after == before + (if rows[n].originSeqLength > 0 then {n} else {});
      assert n !in before;
    }
  }

  /** Every positive length listed is some row's length. */
  lemma {:induction false} PositiveLengthFrom(rows: seq<MergedRow>, x: int)
    requires x in PositiveLengths(rows)
    ensures exists i :: 0 <= i < |rows| && rows[i].originSeqLength == x
  {
    var init := rows[..|rows| - 1];
    if x in PositiveLengths(init) {
      PositiveLengthFrom(init, x);
      var i :| 0 <= i < |init| && init[i].originSeqLength == x;
      assert rows[i].originSeqLength == x;
    } else {
      assert rows[|rows| - 1].originSeqLength == x;
    }
  }

  lemma {:induction false} PositiveLengthListed(rows: seq<MergedRow>, i: nat)
    requires i < |rows| && rows[i].originSeqLength > 0
    ensures rows[i].originSeqLength in PositiveLengths(rows)
  {
    var init := rows[..|rows| - 1];
    if i < |rows| - 1 {
      assert init[i] == rows[i];
      PositiveLengthListed(init, i);
    }
  }
}
