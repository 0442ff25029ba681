/**
  `MimicDataProcessor`: the object that holds the loaded tables, the
  sequence lengths, the four hit maps and the merged table, and that
  fills them step by step (`load_data`, `process_hmm_hits`,
  `merge_data`) before the analyses read them.

  Reading the CSV files is not modelled: `LoadData` receives the parsed
  tables. The FASTA files of the data directory are the `FastaFile`
  listing the sequence cache was built from.
 */
module Processor {
  import opened Wrappers
  import opened PyBuiltins
  import opened Fasta
  import opened Sequences
  import opened Hmm
  import opened Records
  import DomainFrequencies
  import CancerReport
  import Enrichment
  import Related
  import Sorting
  import Intersections

  /** The `mimic_gene` column of the binders table. */
  function BinderGenes(rows: seq<BinderRow>): (r: seq<string>)
    ensures |r| == |rows| && forall i :: 0 <= i < |rows| ==> r[i] == rows[i].mimicGene
  {
    seq(|rows|, i requires 0 <= i < |rows| => rows[i].mimicGene)
  }

  /** The lengths that `_load_sequence_lengths_from_fasta` collects over
      the FASTA files, in listing order (a later file overrides). */
  function DirLengths(files: seq<FastaFile>): map<string, nat> {
    if files == [] then map[] else DirLengths(files[..|files| - 1]) + FileLengths(files[|files| - 1].lines)
  }

  /** The position of the last file whose lengths hold `id`, or -1. */
  function LastLengthFile(files: seq<FastaFile>, id: string): (k: int)
    ensures -1 <= k < |files|
  {
    if files == [] then -1
    else if id in FileLengths(files[|files| - 1].lines) then |files| - 1
    else LastLengthFile(files[..|files| - 1], id)
  }

  /** An id has a length exactly when some file gives it one, and it is
      the length the last such file gives. */
  lemma {:induction false} DirLengthsSource(files: seq<FastaFile>, id: string)
    ensures id in DirLengths(files) <==> LastLengthFile(files, id) >= 0
    ensures id in DirLengths(files) ==>
              var k := LastLengthFile(files, id);
              id in FileLengths(files[k].lines) && DirLengths(files)[id] == FileLengths(files[k].lines)[id] &&
              forall j :: k < j < |files| ==> id !in FileLengths(files[j].lines)
    decreases |files|
  {
    if files != [] {
      DirLengthsSource(files[..|files| - 1], id);
    }
  }

  /** Lines 428-437: every binder gene gets an empty list if it has none. */
  function Pad(m: DomainMap, genes: seq<string>): DomainMap {
    map id | id in m.Keys + (set g | g in genes) :: if id in m then m[id] else []
  }

  /** Padding adds keys but never changes what a lookup gives. */
  lemma PadKeepsLookups(m: DomainMap, genes: seq<string>, id: string)
    ensures HitsAt(Pad(m, genes), id) == HitsAt(m, id)
    ensures id in genes ==> id in Pad(m, genes)
  {
  }

  /** A table that was never loaded is processed as an empty one. */
  function RowsOf(t: Option<seq<HmmRow>>): seq<HmmRow> {
    t.GetOr([])
  }

  /** Padding happens only once the binders are loaded. */
  function PadFor(m: DomainMap, binders: Option<seq<BinderRow>>): DomainMap {
    if binders.None? then m else Pad(m, Unique(BinderGenes(binders.value)))
  }

  /** The four maps of `process_hmm_hits` (lines 405-444). */
  function HitMapsOf(binders: Option<seq<BinderRow>>, pfam: Option<seq<HmmRow>>, kofam: Option<seq<HmmRow>>,
                     pfamMeta: Option<seq<HmmRow>>, kofamMeta: Option<seq<HmmRow>>): HitMaps
  {
    HitMaps(PadFor(AppendHits(map[], RowsOf(pfam)), binders), PadFor(AppendHits(map[], RowsOf(kofam)), binders),
            PadFor(AppendHits(map[], RowsOf(pfamMeta)), binders), PadFor(AppendHits(map[], RowsOf(kofamMeta)), binders))
  }

  /** Each map gives every id the hits of its table's rows for that id, in
      row order, and every binder gene is a key of all four. */
  lemma HitMapsMeaning(binders: Option<seq<BinderRow>>, pfam: Option<seq<HmmRow>>, kofam: Option<seq<HmmRow>>,
                       pfamMeta: Option<seq<HmmRow>>, kofamMeta: Option<seq<HmmRow>>, id: string)
    ensures var maps := HitMapsOf(binders, pfam, kofam, pfamMeta, kofamMeta);
            HitsAt(maps.pfam, id) == HitsOf(RowsOf(pfam), id) &&
            HitsAt(maps.kofam, id) == HitsOf(RowsOf(kofam), id) &&
            HitsAt(maps.pfamMeta, id) == HitsOf(RowsOf(pfamMeta), id) &&
            HitsAt(maps.kofamMeta, id) == HitsOf(RowsOf(kofamMeta), id)
    ensures binders.Some? && id in BinderGenes(binders.value) ==>
              var maps := HitMapsOf(binders, pfam, kofam, pfamMeta, kofamMeta);
              id in maps.pfam && id in maps.kofam && id in maps.pfamMeta && id in maps.kofamMeta
  {
    MapMeaning(binders, RowsOf(pfam), id);
    MapMeaning(binders, RowsOf(kofam), id);
    MapMeaning(binders, RowsOf(pfamMeta), id);
    MapMeaning(binders, RowsOf(kofamMeta), id);
  }

  lemma MapMeaning(binders: Option<seq<BinderRow>>, rows: seq<HmmRow>, id: string)
    ensures HitsAt(PadFor(AppendHits(map[], rows), binders), id) == HitsOf(rows, id)
    ensures binders.Some? && id in BinderGenes(binders.value) ==> id in PadFor(AppendHits(map[], rows), binders)
  {
    AppendHitsSpec(map[], rows, id);
    if binders.Some? {
      UniqueMembers(BinderGenes(binders.value));
      PadKeepsLookups(AppendHits(map[], rows), Unique(BinderGenes(binders.value)), id);
    }
  }

  /** After `process_hmm_hits` and `merge_data`, each merged row carries,
      for each of the four tables, exactly the hits of that table's rows
      for the row's gene, in table order, and their number. */
  lemma MergedHits(binders: seq<BinderRow>, pfam: Option<seq<HmmRow>>, kofam: Option<seq<HmmRow>>,
                   pfamMeta: Option<seq<HmmRow>>, kofamMeta: Option<seq<HmmRow>>, lengths: map<string, int>, i: nat)
    requires i < |binders|
    ensures var row := MergeRows(binders, HitMapsOf(Some(binders), pfam, kofam, pfamMeta, kofamMeta), lengths)[i];
            var g := binders[i].mimicGene;
            row.pfam.domains == HitsOf(RowsOf(pfam), g) && row.pfam.count == |HitsOf(RowsOf(pfam), g)| &&
            row.kofam.domains == HitsOf(RowsOf(kofam), g) && row.kofam.count == |HitsOf(RowsOf(kofam), g)| &&
            row.pfamMeta.domains == HitsOf(RowsOf(pfamMeta), g) &&
            row.pfamMeta.count == |HitsOf(RowsOf(pfamMeta), g)| &&
            row.kofamMeta.domains == HitsOf(RowsOf(kofamMeta), g) &&
            row.kofamMeta.count == |HitsOf(RowsOf(kofamMeta), g)|
  {
    HitMapsMeaning(Some(binders), pfam, kofam, pfamMeta, kofamMeta, binders[i].mimicGene);
  }

  /** One metagenome table raises the sequence lengths to its largest end
      positions (lines 520-524); an empty table leaves them alone. */
  function Raise(lengths: map<string, int>, rows: seq<HmmRow>): map<string, int> {
    if rows == [] then lengths else RaiseTo(lengths, EndPositions(rows))
  }

  function RaisedLengths(lengths: map<string, int>, pfamMeta: Option<seq<HmmRow>>,
                         kofamMeta: Option<seq<HmmRow>>): map<string, int>
  {
    Raise(Raise(lengths, RowsOf(pfamMeta)), RowsOf(kofamMeta))
  }

  /** No length ever goes down, and every metagenome hit's end is covered. */
  lemma RaisedLengthsGrow(lengths: map<string, int>, pfamMeta: Option<seq<HmmRow>>,
                          kofamMeta: Option<seq<HmmRow>>, id: string)
    ensures id in lengths ==> id in RaisedLengths(lengths, pfamMeta, kofamMeta) &&
                              lengths[id] <= RaisedLengths(lengths, pfamMeta, kofamMeta)[id]
    ensures id in EndPositions(RowsOf(kofamMeta)) ==>
              id in RaisedLengths(lengths, pfamMeta, kofamMeta) &&
              EndPositions(RowsOf(kofamMeta))[id] <= RaisedLengths(lengths, pfamMeta, kofamMeta)[id]
  {
    var once := Raise(lengths, RowsOf(pfamMeta));
    RaiseToMonotone(lengths, EndPositions(RowsOf(pfamMeta)));
    RaiseToMonotone(once, EndPositions(RowsOf(kofamMeta)));
  }

  /** The lengths of all listed FASTA files, file after file. */
  method CollectLengths(files: seq<FastaFile>) returns (collected: map<string, nat>)
    ensures collected == DirLengths(files)
  {
    collected := map[];
    var k := 0;
    while k < |files|
      invariant 0 <= k <= |files|
      invariant collected == DirLengths(files[..k])
    {
      assert files[..k + 1][..k] == files[..k];
      collected := LoadFileLengths(files[k].lines, collected);
      k := k + 1;
    }
    assert files[..k] == files;
  }

  /** `_process_hmm_data` on one table: its hit map and, for a metagenome
      table, its end positions; nothing for an empty table. */
  method ProcessTable(rows: seq<HmmRow>, isMetagenome: bool) returns (m: DomainMap, ends: map<string, int>)
    ensures m == AppendHits(map[], rows)
    ensures ends == if isMetagenome then EndPositions(rows) else map[]
  {
    m, ends := map[], map[];
    if rows != [] {
      m, ends := CollectHits(rows, m, isMetagenome);
    }
  }

  /** The padding step of `process_hmm_hits` for one map. */
  method PadMap(m: DomainMap, binders: Option<seq<BinderRow>>) returns (m': DomainMap)
    ensures m' == PadFor(m, binders)
  {
    m' := m;
    if binders.Some? {
      var genes := Unique(BinderGenes(binders.value));
      m' := PadGenes(m, genes);
      assert m'.Keys == Pad(m, genes).Keys;
    }
  }

  /** The metagenome step of `_process_hmm_data` for one table. */
  method RaiseFor(lengths: map<string, int>, rows: seq<HmmRow>, ends: map<string, int>) returns (lengths': map<string, int>)
    requires ends == EndPositions(rows)
    ensures lengths' == Raise(lengths, rows)
  {
    lengths' := lengths;
    if rows != [] {
      lengths' := RaiseLengths(lengths, ends);
    }
  }

  /** `process_hmm_hits` on the loaded tables: the four tables in turn, the
      metagenome ones raising the lengths, then the padding. */
  method ProcessAll(binders: Option<seq<BinderRow>>, pfam: Option<seq<HmmRow>>, kofam: Option<seq<HmmRow>>,
                    pfamMeta: Option<seq<HmmRow>>, kofamMeta: Option<seq<HmmRow>>, lengths: map<string, int>)
    returns (maps: HitMaps, lengths': map<string, int>)
    ensures maps == HitMapsOf(binders, pfam, kofam, pfamMeta, kofamMeta)
    ensures lengths' == RaisedLengths(lengths, pfamMeta, kofamMeta)
  {
    var pfamMap, e1 := ProcessTable(RowsOf(pfam), false);
    var kofamMap, e2 := ProcessTable(RowsOf(kofam), false);
    var pfamMetaMap, e3 := ProcessTable(RowsOf(pfamMeta), true);
    lengths' := RaiseFor(lengths, RowsOf(pfamMeta), e3);
    var kofamMetaMap, e4 := ProcessTable(RowsOf(kofamMeta), true);
    lengths' := RaiseFor(lengths', RowsOf(kofamMeta), e4);
    pfamMap := PadMap(pfamMap, binders);
    kofamMap := PadMap(kofamMap, binders);
    pfamMetaMap := PadMap(pfamMetaMap, binders);
    kofamMetaMap := PadMap(kofamMetaMap, binders);
    maps := HitMaps(pfamMap, kofamMap, pfamMetaMap, kofamMetaMap);
  }

  class MimicDataProcessor {
    var dataDir: seq<FastaFile>
    var binders: Option<seq<BinderRow>>
    var pfamRows: Option<seq<HmmRow>>
    var kofamRows: Option<seq<HmmRow>>
    var pfamMetaRows: Option<seq<HmmRow>>
    var kofamMetaRows: Option<seq<HmmRow>>
    var lengths: map<string, int>
    var maps: Option<HitMaps>
    var merged: Option<seq<MergedRow>>
    var cache: SequenceCache

    /** The cache indexes the processor's directory, and a merged table
        only exists once the hit maps do. */
    ghost predicate Valid()
      reads this, cache
    {
      cache.Valid() && cache.dataDir == dataDir && (merged.Some? ==> maps.Some?)
    }

    /** `__init__`: nothing loaded, no lengths, a fresh sequence cache. */
    constructor (dir: seq<FastaFile>)
      ensures Valid() && fresh(cache)
      ensures dataDir == dir && binders.None? && pfamRows.None? && kofamRows.None?
      ensures pfamMetaRows.None? && kofamMetaRows.None? && lengths == map[] && maps.None? && merged.None?
    {
      dataDir := dir;
      binders := None;
      pfamRows := None;
      kofamRows := None;
      pfamMetaRows := None;
      kofamMetaRows := None;
      lengths := map[];
      maps := None;
      merged := None;
      cache := new SequenceCache(dir);
    }

    /** `_load_sequence_lengths_from_fasta` (lines 1507-1560): the lengths
        of all FASTA files, written over the current ones. */
    method LoadSequenceLengthsFromFasta()
      requires Valid()
      modifies this
      ensures Valid() && cache == old(cache) && dataDir == old(dataDir)
      ensures lengths == old(lengths) + DirLengths(FastaFiles(dataDir))
      ensures binders == old(binders) && maps == old(maps) && merged == old(merged)
      ensures pfamRows == old(pfamRows) && kofamRows == old(kofamRows)
      ensures pfamMetaRows == old(pfamMetaRows) && kofamMetaRows == old(kofamMetaRows)
    {
      var files := FastaFiles(dataDir);
      if files == [] {
        assert lengths + DirLengths(files) == lengths;
        return;
      }
      var collected := CollectLengths(files);
      lengths := lengths + collected;
    }

    /** `load_data` (lines 262-403) past the file reading: the lengths
        first, then the tables, a missing HMM file giving an empty one. */
    method LoadData(binderRows: seq<BinderRow>, pfam: seq<HmmRow>, kofam: seq<HmmRow>,
                    pfamMeta: seq<HmmRow>, kofamMeta: seq<HmmRow>)
      requires Valid()
      modifies this
      ensures Valid() && cache == old(cache) && dataDir == old(dataDir)
      ensures lengths == old(lengths) + DirLengths(FastaFiles(dataDir))
      ensures binders == Some(binderRows) && pfamRows == Some(pfam) && kofamRows == Some(kofam)
      ensures pfamMetaRows == Some(pfamMeta) && kofamMetaRows == Some(kofamMeta)
      ensures maps == old(maps) && merged == old(merged)
    {
      LoadSequenceLengthsFromFasta();
      binders := Some(binderRows);
      pfamRows := Some(pfam);
      kofamRows := Some(kofam);
      pfamMetaRows := Some(pfamMeta);
      kofamMetaRows := Some(kofamMeta);
    }

    /** `process_hmm_hits` (lines 405-444) with `_process_hmm_data`: the
        four maps, the metagenome end positions folded into the lengths,
        and the binder genes padded in. */
    method ProcessHmmHits()
      requires Valid()
      modifies this
      ensures Valid() && cache == old(cache) && dataDir == old(dataDir)
      ensures maps == Some(HitMapsOf(binders, pfamRows, kofamRows, pfamMetaRows, kofamMetaRows))
      ensures lengths == RaisedLengths(old(lengths), pfamMetaRows, kofamMetaRows)
      ensures binders == old(binders) && merged == old(merged)
      ensures pfamRows == old(pfamRows) && kofamRows == old(kofamRows)
      ensures pfamMetaRows == old(pfamMetaRows) && kofamMetaRows == old(kofamMetaRows)
    {
      var built, raised := ProcessAll(binders, pfamRows, kofamRows, pfamMetaRows, kofamMetaRows, lengths);
      maps := Some(built);
      lengths := raised;
    }

    /** `merge_data` (lines 526-620): an error before `load_data`; the hit
        maps are built first if missing; then one merged row per binder
        row. */
    method MergeData() returns (error: Option<string>)
      requires Valid()
      modifies this
      ensures Valid() && cache == old(cache) && dataDir == old(dataDir)
      ensures old(binders).None? ==> error == Some("Data not loaded. Call load_data() first.") && unchanged(this)
      ensures old(binders).Some? ==>
                error.None? && binders == old(binders) &&
                (old(maps).Some? ==> maps == old(maps) && lengths == old(lengths)) &&
                (old(maps).None? ==>
                   maps == Some(HitMapsOf(binders, pfamRows, kofamRows, pfamMetaRows, kofamMetaRows)) &&
                   lengths == RaisedLengths(old(lengths), pfamMetaRows, kofamMetaRows)) &&
                merged == Some(MergeRows(binders.value, maps.value, lengths))
    {
      if binders.None? {
        return Some("Data not loaded. Call load_data() first.");
      }
      if maps.None? {
        ProcessHmmHits();
      }
      merged := Some(MergeRows(binders.value, maps.value, lengths));
      error := None;
    }

    /** `get_data_summary` (counts only). */
    function GetDataSummary(): (r: Result<Summary>)
      reads this
      ensures merged.None? <==> r == Err("Merged data not created. Call merge_data() first.")
      ensures merged.Some? ==> r.Ok? && r.value.totalRows == |merged.value|
    {
      DataSummary(merged)
    }

    /** `get_global_domain_frequencies` over the merged genes, or before
        the merge over the ids of the better-binder HMM tables. */
    method GetGlobalDomainFrequencies() returns (g: DomainFrequencies.GlobalFrequencies)
      ensures var genes := DomainFrequencies.AllGenes(merged, pfamRows, kofamRows);
              (maps.None? ==> g == DomainFrequencies.GlobalFrequencies(Tallies.Empty(), Tallies.Empty(),
                                                                         Tallies.Empty(), Tallies.Empty())) &&
              (maps.Some? ==>
                 g.pfamBetterBinders == Tallies.CountAll(DomainFrequencies.Names(DomainFrequencies.TraceOf(genes, maps.value.pfam))) &&
                 g.kofamBetterBinders == Tallies.CountAll(DomainFrequencies.Names(DomainFrequencies.TraceOf(genes, maps.value.kofam))) &&
                 g.pfamMetagenome == Tallies.CountAll(DomainFrequencies.Names(DomainFrequencies.TraceOf(genes, maps.value.pfamMeta))) &&
                 g.kofamMetagenome == Tallies.CountAll(DomainFrequencies.Names(DomainFrequencies.TraceOf(genes, maps.value.kofamMeta))))
    {
      var genes := DomainFrequencies.AllGenes(merged, pfamRows, kofamRows);
      g := DomainFrequencies.GlobalDomainFrequencies(genes, maps);
    }

    /** `get_cancer_data` on the processor's merged table and maps. */
    method GetCancerData(acc: string) returns (r: Result<Option<CancerReport.CancerData>>)
      requires Valid()
      ensures merged.None? ==> r == Err("Merged data not created. Call merge_data() first.")
      ensures merged.Some? && CancerReport.RowsFor(merged.value, acc) == [] ==> r == Ok(None)
      ensures merged.Some? && CancerReport.RowsFor(merged.value, acc) != [] ==>
                r.Ok? && r.value.Some? &&
                CancerReport.Reports(r.value.value, CancerReport.RowsFor(merged.value, acc), Unique(Genes(merged.value)),
                                     acc, maps.value)
    {
      if merged.None? {
        return Err("Merged data not created. Call merge_data() first.");
      }
      r := CancerReport.GetCancerData(merged, maps.value, acc);
    }

    /** `get_domain_enrichment_data` on the processor's merged table and maps. */
    method GetDomainEnrichmentData() returns (r: Result<Enrichment.EnrichmentReport>, ghost others: seq<string>)
      requires Valid()
      ensures merged.None? ==> r == Err("Merged data not created. Call merge_data() first.")
      ensures merged.Some? ==> r.Ok? && Enrichment.Reported(r.value, merged.value, maps.value, others)
    {
      if merged.None? {
        return Err("Merged data not created. Call merge_data() first."), [];
      }
      r, others := Enrichment.GetDomainEnrichmentData(merged, maps.value);
    }

    /** `find_related_sequences` on the processor's merged table and maps. */
    method FindRelatedSequences(query: string, limit: int) returns (r: Result<seq<Related.Match>>)
      requires Valid()
      ensures merged.None? ==> r == Err("Merged data not created. Call merge_data() first.")
      ensures merged.Some? ==> r.Ok? && (limit >= 0 ==> |r.value| <= limit)
      ensures merged.Some? ==>
                forall i :: 0 <= i < |r.value| ==>
                  r.value[i].id != query &&
                  r.value[i].score == Related.DoubledScore(maps.value, Related.ProfileOf(maps.value, query),
                                                           r.value[i].id) as real / 2.0
      ensures merged.Some? ==>
                var ms := r.value;
                (forall i, j :: 0 <= i < j < |ms| ==> ms[i].id != ms[j].id && ms[i].score >= ms[j].score) &&
                (forall i, j :: 0 <= i < j < |ms| && ms[i].score == ms[j].score ==>
                   Sorting.Precedes(Unique(Genes(merged.value)), ms[i].id, ms[j].id))
    {
      if merged.None? {
        return Err("Merged data not created. Call merge_data() first.");
      }
      r := Related.FindRelatedSequences(merged, maps.value, query, limit);
    }

    /** The sequences of `ids` that the cache can give, keyed by id. */
    function Batch(ids: seq<string>): map<string, string>
      reads this, cache
    {
      cache.Batch(ids)
    }

    /** `analyze_binding_domain_intersections` with the peptides located in
        the sequences the cache gives for the selected genes. */
    method AnalyzeBindingDomainIntersections(threshold: Option<real>, level: Option<string>,
                                             maxSequences: Option<int>, workers: nat)
      returns (result: Intersections.Analysis, reports: seq<int>)
      requires Valid() && workers >= 1
      ensures Intersections.Finished(reports)
      ensures merged.None? ==> result == Intersections.Failure("Merged data not created. Call merge_data() first.")
      ensures merged.Some? ==>
                var rows := Intersections.Kept(merged.value, threshold, level);
                var ids := Intersections.Selected(Unique(Genes(rows)), maxSequences);
                Intersections.Describes(result, rows, ids, maps.value.pfam, Batch(ids), threshold, level)
    {
      if merged.None? {
        result, reports := Intersections.AnalyzeBindingDomainIntersections(merged, map[], map[], threshold, level,
                                                                           maxSequences, workers);
        return;
      }
      result, reports := AnalyzeMerged(threshold, level, maxSequences, workers);
    }

    /** The analysis once the merged table exists. */
    method AnalyzeMerged(threshold: Option<real>, level: Option<string>, maxSequences: Option<int>, workers: nat)
      returns (result: Intersections.Analysis, reports: seq<int>)
      requires Valid() && workers >= 1 && merged.Some?
      ensures Intersections.Finished(reports)
      ensures var rows := Intersections.Kept(merged.value, threshold, level);
              var ids := Intersections.Selected(Unique(Genes(rows)), maxSequences);
              Intersections.Describes(result, rows, ids, maps.value.pfam, Batch(ids), threshold, level)
    {
      var rows := Intersections.Kept(merged.value, threshold, level);
      var ids := Intersections.Selected(Unique(Genes(rows)), maxSequences);
      var sequences := cache.GetSequencesBatch(ids);
      result, reports := Intersections.AnalyzeBindingDomainIntersections(merged, maps.value.pfam, sequences,
                                                                         threshold, level, maxSequences, workers);
    }
  }
}
