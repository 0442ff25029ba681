/**
  `analyze_binding_domain_intersections`: which PFAM domains the located
  binding peptides fall into. Rows are filtered by binding level and
  affinity, each selected gene's peptides are located on its sequence,
  every (domain, binding) pair of a sequence goes through the overlap
  rule, and the qualifying pairs are tallied per domain.
 */
module Intersections {
  import opened Wrappers
  import opened Text
  import opened PyBuiltins
  import opened Sorting
  import opened Tallies
  import opened Hmm
  import opened Records

  // ---------------------------------------------------------------------
  // Row selection (lines 1111-1127, 1154-1160).

  /** A row is kept when its level equals a given (non-empty) level and
      its affinity is at most a given threshold; a missing affinity fails
      the comparison. */
  predicate Passes(r: MergedRow, threshold: Option<real>, level: Option<string>) {
    (level.None? || level.value == "" || r.binder.bindLevel == level.value) &&
    (threshold.None? || (r.binder.affinity.Some? && r.binder.affinity.value <= threshold.value))
  }

  function Kept(rows: seq<MergedRow>, threshold: Option<real>, level: Option<string>): (r: seq<MergedRow>)
    ensures |r| <= |rows|
    ensures forall k :: 0 <= k < |r| ==> Passes(r[k], threshold, level) && r[k] in rows
  {
    if rows == [] then []
    else
      var init := Kept(rows[..|rows| - 1], threshold, level);
      var last := rows[|rows| - 1];
      assert forall k :: 0 <= k < |init| ==> init[k] in rows;
      if Passes(last, threshold, level) then init + [last] else init
  }

  /** The filter keeps every row that passes, in order, and with neither
      filter given it keeps the whole table. */
  lemma {:induction false} KeptSpec(rows: seq<MergedRow>, threshold: Option<real>, level: Option<string>, i: nat)
    requires i < |rows| && Passes(rows[i], threshold, level)
    ensures rows[i] in Kept(rows, threshold, level)
  {
    var init := rows[..|rows| - 1];
    if i < |rows| - 1 {
      assert init[i] == rows[i];
      KeptSpec(init, threshold, level, i);
    }
  }

  lemma {:induction false} KeptAll(rows: seq<MergedRow>, threshold: Option<real>, level: Option<string>)
    requires threshold.None? && (level.None? || level.value == "")
    ensures Kept(rows, threshold, level) == rows
  {
    if rows != [] {
      KeptAll(rows[..|rows| - 1], threshold, level);
      assert rows == rows[..|rows| - 1] + [rows[|rows| - 1]];
    }
  }

  /** `unique()` of the kept genes, cut to `max_sequences` when that is
      given, non-zero and smaller than the number of genes. */
  function Selected(genes: seq<string>, maxSequences: Option<int>): (r: seq<string>)
    ensures |r| <= |genes|
  {
    if maxSequences.Some? && maxSequences.value != 0 && |genes| > maxSequences.value
    then Head(genes, maxSequences.value)
    else genes
  }

  lemma SelectedBound(genes: seq<string>, n: nat)
    requires n != 0
    ensures |Selected(genes, Some(n))| == if |genes| > n then n else |genes|
    ensures Selected(genes, Some(n)) <= genes
  {
    SliceNatural(genes, 0, n);
  }

  /** The rows of one gene, in table order (`sequence_groups[id]`). */
  function RowsOf(rows: seq<MergedRow>, id: string): (r: seq<MergedRow>)
    ensures forall k :: 0 <= k < |r| ==> r[k].binder.mimicGene == id
  {
    if rows == [] then []
    else RowsOf(rows[..|rows| - 1], id) + (if rows[|rows| - 1].binder.mimicGene == id then [rows[|rows| - 1]] else [])
  }

  // ---------------------------------------------------------------------
  // Located peptides (lines 1200-1227).

  /** An entry of `binding_positions_data`. */
  datatype Binding = Binding(sequenceId: string, peptide: string, start: int, end: int,
                             affinity: Option<real>, mhc: string, bindLevel: string)

  function SequenceOf(sequences: map<string, string>, id: string): string {
    if id in sequences then sequences[id] else ""
  }

  /** The peptides of one gene's rows found in its sequence, in row order. */
  function PeptideHits(rows: seq<MergedRow>, id: string, sequence: string): (r: seq<Binding>)
    ensures forall k :: 0 <= k < |r| ==>
              r[k].sequenceId == id && r[k].peptide != "" && r[k].end == r[k].start + |r[k].peptide| - 1 &&
              r[k].start == Find(sequence, r[k].peptide) >= 0
  {
    if rows == [] then []
    else
      var init := PeptideHits(rows[..|rows| - 1], id, sequence);
      var b := rows[|rows| - 1].binder;
      if b.peptide.Some? && b.peptide.value != "" && Find(sequence, b.peptide.value) >= 0 then
        var p := b.peptide.value;
        var pos := Find(sequence, p);
        init + [Binding(id, p, pos, pos + |p| - 1, b.affinity, b.mhc, b.bindLevel)]
      else init
  }

  /** A gene takes part when it has rows and a non-empty sequence. */
  predicate Usable(rows: seq<MergedRow>, sequences: map<string, string>, id: string) {
    RowsOf(rows, id) != [] && SequenceOf(sequences, id) != ""
  }

  /** All located peptides of the genes, gene by gene. */
  function LocatedAll(ids: seq<string>, rows: seq<MergedRow>, sequences: map<string, string>): (r: seq<Binding>)
    ensures forall k :: 0 <= k < |r| ==> r[k].sequenceId in ids
  {
    if ids == [] then []
    else
      var id := ids[|ids| - 1];
      LocatedAll(ids[..|ids| - 1], rows, sequences) +
      (if Usable(rows, sequences, id) then PeptideHits(RowsOf(rows, id), id, SequenceOf(sequences, id)) else [])
  }

  /** `valid_sequence_ids`. */
  function ValidIds(ids: seq<string>, rows: seq<MergedRow>, sequences: map<string, string>): (r: seq<string>)
    ensures |r| <= |ids|
  {
    if ids == [] then []
    else
      ValidIds(ids[..|ids| - 1], rows, sequences) +
      (if Usable(rows, sequences, ids[|ids| - 1]) then [ids[|ids| - 1]] else [])
  }

  function BindingIds(bs: seq<Binding>): (r: seq<string>)
    ensures |r| == |bs|
    ensures forall k :: 0 <= k < |bs| ==> r[k] == bs[k].sequenceId
  {
    seq(|bs|, k requires 0 <= k < |bs| => bs[k].sequenceId)
  }

  // ---------------------------------------------------------------------
  // Domains, bindings per sequence and the overlap rule (lines 1258-1346).

  datatype DomainSpan = DomainSpan(name: string, start: int, end: int)

  /** The entries of `sequence_to_domains[id]`: every PFAM hit of the id. */
  function DomainsOf(pfam: DomainMap, id: string): (r: seq<DomainSpan>)
    ensures |r| == |HitsAt(pfam, id)|
  {
    var hits := HitsAt(pfam, id);
    seq(|hits|, k requires 0 <= k < |hits| => DomainSpan(hits[k].hmmName, hits[k].start, hits[k].end))
  }

  /** `bindings_by_sequence[id]`: the id's located peptides, in order. */
  function BindingsFor(bs: seq<Binding>, id: string): (r: seq<Binding>)
    ensures forall k :: 0 <= k < |r| ==> r[k] in bs && r[k].sequenceId == id
  {
    if bs == [] then []
    else
      var init := BindingsFor(bs[..|bs| - 1], id);
      assert forall k :: 0 <= k < |init| ==> init[k] in bs;
      init + (if bs[|bs| - 1].sequenceId == id then [bs[|bs| - 1]] else [])
  }

  /** The overlap rule: the intervals meet and the common part covers at
      least half of the binding (the percentage test, cross-multiplied). */
  predicate Overlaps(b: Binding, d: DomainSpan) {
    b.start <= d.end && b.end >= d.start &&
    2 * ((if b.end < d.end then b.end else d.end) - (if b.start > d.start then b.start else d.start) + 1) >= b.end - b.start + 1
  }

  /** How many of the `n` positions from `p` on lie in the domain. */
  function InDomain(d: DomainSpan, p: int, n: nat): nat {
    if n == 0 then 0
    else InDomain(d, p, n - 1) + (if d.start <= p + n - 1 <= d.end then 1 else 0)
  }

  lemma {:induction false} InDomainCount(d: DomainSpan, p: int, n: nat)
    ensures var lo := if p > d.start then p else d.start;
            var hi := if p + n - 1 < d.end then p + n - 1 else d.end;
            InDomain(d, p, n) == if hi < lo then 0 else hi - lo + 1
  {
    if n > 0 {
      InDomainCount(d, p, n - 1);
    }
  }

  /** The rule counts a pair exactly when at least half of the binding's
      positions lie in the domain. */
  lemma OverlapMeaning(b: Binding, d: DomainSpan)
    requires b.start <= b.end
    ensures Overlaps(b, d) <==> 2 * InDomain(d, b.start, b.end - b.start + 1) >= b.end - b.start + 1
  {
    InDomainCount(d, b.start, b.end - b.start + 1);
  }

  /** A qualifying (domain, binding) pair. */
  datatype Match = Match(sequenceId: string, domain: DomainSpan, binding: Binding)

  function DomainMatches(id: string, d: DomainSpan, bs: seq<Binding>): (r: seq<Match>)
    ensures forall k :: 0 <= k < |r| ==> r[k].sequenceId == id && r[k].domain == d
  {
    if bs == [] then []
    else DomainMatches(id, d, bs[..|bs| - 1]) +
         (if Overlaps(bs[|bs| - 1], d) then [Match(id, d, bs[|bs| - 1])] else [])
  }

  function SequenceMatches(id: string, ds: seq<DomainSpan>, bs: seq<Binding>): (r: seq<Match>)
    ensures forall k :: 0 <= k < |r| ==> r[k].sequenceId == id
  {
    if ds == [] then []
    else SequenceMatches(id, ds[..|ds| - 1], bs) + DomainMatches(id, ds[|ds| - 1], bs)
  }

  /** Every qualifying pair of every sequence, sequence by sequence. */
  function AllMatches(ids: seq<string>, pfam: DomainMap, bs: seq<Binding>): (r: seq<Match>)
    ensures forall k :: 0 <= k < |r| ==> r[k].sequenceId in ids
  {
    if ids == [] then []
    else
      var id := ids[|ids| - 1];
      AllMatches(ids[..|ids| - 1], pfam, bs) + SequenceMatches(id, DomainsOf(pfam, id), BindingsFor(bs, id))
  }

  /** With no domain for any of the sequences there is nothing to count. */
  lemma {:induction false} NoDomainsNoMatches(ids: seq<string>, pfam: DomainMap, bs: seq<Binding>)
    requires forall id :: id in ids ==> DomainsOf(pfam, id) == []
    ensures AllMatches(ids, pfam, bs) == []
  {
    if ids != [] {
      NoDomainsNoMatches(ids[..|ids| - 1], pfam, bs);
    }
  }

  /** A binding is matched against a domain of its own sequence. */
  lemma {:induction false} DomainMatchSound(id: string, d: DomainSpan, bs: seq<Binding>, k: nat)
    requires k < |DomainMatches(id, d, bs)|
    ensures var m := DomainMatches(id, d, bs)[k]; m.binding in bs && Overlaps(m.binding, m.domain)
  {
    var init := DomainMatches(id, d, bs[..|bs| - 1]);
    if k < |init| {
      DomainMatchSound(id, d, bs[..|bs| - 1], k);
    }
  }

  lemma SubsetSize<T>(a: set<T>, b: set<T>)
    requires a <= b
    ensures |a| <= |b|
  {
    assert b == a + (b - a);
    assert a * (b - a) == {};
  }

  // ---------------------------------------------------------------------
  // The per-domain tally (lines 1410-1439).

  function MatchDomains(ms: seq<Match>): (r: seq<string>)
    ensures |r| == |ms|
    ensures forall k :: 0 <= k < |ms| ==> r[k] == ms[k].domain.name
  {
    seq(|ms|, k requires 0 <= k < |ms| => ms[k].domain.name)
  }

  /** `domain_seq_counter[d]`: the sequences with a match in domain `d`. */
  function SeqsOf(ms: seq<Match>, d: string): set<string> {
    set k | 0 <= k < |ms| && ms[k].domain.name == d :: ms[k].sequenceId
  }

  /** A domain is never in more sequences than it has matches. */
  lemma {:induction false} SequencesAtMostMatches(ms: seq<Match>, d: string)
    ensures |SeqsOf(ms, d)| <= multiset(MatchDomains(ms))[d]
  {
    if ms != [] {
      var init := ms[..|ms| - 1];
      var last := ms[|ms| - 1];
      SequencesAtMostMatches(init, d);
      SeqsOfStep(ms, |ms| - 1, d);
      assert ms[..|ms|] == ms;
      assert MatchDomains(ms) == MatchDomains(init) + [last.domain.name];
      if last.domain.name == d {
        SubsetSize(SeqsOf(ms, d), SeqsOf(init, d) + {last.sequenceId});
      }
    }
  }

  // ---------------------------------------------------------------------
  // The loops.

  /** Reported progress so far: values within 0..100, never decreasing,
      none above the current `progress`. */
  predicate Reported(reports: seq<int>, progress: int) {
    0 <= progress <= 100 &&
    (forall k :: 0 <= k < |reports| ==> 0 <= reports[k] <= progress) &&
    (forall j, k :: 0 <= j < k < |reports| ==> reports[j] <= reports[k])
  }

  lemma LocatedStep(ids: seq<string>, i: nat, rows: seq<MergedRow>, sequences: map<string, string>)
    requires i < |ids|
    ensures var id := ids[i];
            LocatedAll(ids[..i + 1], rows, sequences) == LocatedAll(ids[..i], rows, sequences) +
              (if Usable(rows, sequences, id) then PeptideHits(RowsOf(rows, id), id, SequenceOf(sequences, id)) else []) &&
            ValidIds(ids[..i + 1], rows, sequences) == ValidIds(ids[..i], rows, sequences) +
              (if Usable(rows, sequences, id) then [id] else [])
  {
    assert ids[..i + 1][..i] == ids[..i];
  }

  /** A report is made only when it raises the progress. */
  method Advance(reports: seq<int>, progress: int, newProgress: int) returns (reports': seq<int>, progress': int)
    requires Reported(reports, progress) && 0 <= newProgress <= 100
    ensures Reported(reports', progress')
    ensures progress' == if newProgress > progress then newProgress else progress
    ensures |reports| <= |reports'| && reports'[..|reports|] == reports
  {
    reports', progress' := reports, progress;
    if newProgress > progress {
      progress' := newProgress;
      reports' := reports + [newProgress];
    }
  }

  /** `int(done / total * scale)` for `0 < done <= total`, exactly. */
  lemma ShareBound(done: int, total: int, scale: nat)
    requires 0 < done <= total
    ensures 0 <= (done * scale) / total <= scale
  {
    var p := done * scale;
    var q := p / total;
    assert 0 <= p <= total * scale by {
      assert p == scale * done;
      assert total * scale == scale * total;
    }
    assert p == total * q + p % total;
  }

  /** `sequence_groups` (lines 1162-1169). */
  method GroupRows(rows: seq<MergedRow>) returns (groups: map<string, seq<MergedRow>>)
    ensures forall id :: id in groups <==> RowsOf(rows, id) != []
    ensures forall id :: id in groups ==> groups[id] == RowsOf(rows, id)
  {
    groups := map[];
    var i := 0;
    while i < |rows|
      invariant 0 <= i <= |rows|
      invariant forall id :: id in groups <==> RowsOf(rows[..i], id) != []
      invariant forall id :: id in groups ==> groups[id] == RowsOf(rows[..i], id)
    {
      var id := rows[i].binder.mimicGene;
      assert rows[..i + 1][..i] == rows[..i];
      var list := if id in groups then groups[id] else [];
      groups := groups[id := list + [rows[i]]];
      i := i + 1;
    }
    assert rows[..i] == rows;
  }

  /** The peptides of one gene's rows found in its sequence (lines
      1213-1227). */
  method LocatePeptides(group: seq<MergedRow>, id: string, sequence: string) returns (found: seq<Binding>)
    ensures found == PeptideHits(group, id, sequence)
  {
    found := [];
    var j := 0;
    while j < |group|
      invariant 0 <= j <= |group|
      invariant found == PeptideHits(group[..j], id, sequence)
    {
      var b := group[j].binder;
      assert group[..j + 1][..j] == group[..j];
      if b.peptide.Some? && b.peptide.value != "" {
        var position := Find(sequence, b.peptide.value);
        if position >= 0 {
          found := found + [Binding(id, b.peptide.value, position, position + |b.peptide.value| - 1,
                                    b.affinity, b.mhc, b.bindLevel)];
        }
      }
      j := j + 1;
    }
    assert group[..j] == group;
  }

  /** Lines 1195-1199: every `every`-th gene reports `5 + int(done / total * 25)`
      if that raises the progress. */
  method Tick(done: nat, total: nat, every: nat, reports: seq<int>, progress: int)
    returns (reports': seq<int>, progress': int)
    requires 0 < done <= total && every >= 1
    requires Reported(reports, progress) && progress <= 30
    ensures Reported(reports', progress') && progress' <= 30
    ensures |reports| <= |reports'| && reports'[..|reports|] == reports
  {
    reports', progress' := reports, progress;
    if done % every == 0 {
      ShareBound(done, total, 25);
      reports', progress' := Advance(reports, progress, 5 + (done * 25) / total);
    }
  }

  /** One gene of the sequence loop: skipped without rows or sequence
      (lines 1200-1208), otherwise its peptides are located. */
  method VisitGene(id: string, rows: seq<MergedRow>, groups: map<string, seq<MergedRow>>, sequences: map<string, string>)
    returns (usable: bool, found: seq<Binding>)
    requires forall id :: id in groups <==> RowsOf(rows, id) != []
    requires forall id :: id in groups ==> groups[id] == RowsOf(rows, id)
    ensures usable == Usable(rows, sequences, id)
    ensures usable ==> found == PeptideHits(RowsOf(rows, id), id, SequenceOf(sequences, id))
  {
    var group := if id in groups then groups[id] else [];
    var sequence := SequenceOf(sequences, id);
    usable := group != [] && sequence != "";
    found := [];
    if usable {
      found := LocatePeptides(group, id, sequence);
    }
  }

  /** The sequence loop (lines 1171-1227): count each gene as processed,
      skip genes without rows or sequence, locate the peptides of the
      others, and report progress between 5 and 30. */
  method LocateBindings(ids: seq<string>, rows: seq<MergedRow>, groups: map<string, seq<MergedRow>>,
                        sequences: map<string, string>, reports0: seq<int>, progress0: int)
    returns (bindings: seq<Binding>, valid: seq<string>, processed: nat, reports: seq<int>, progress: int)
    requires forall id :: id in groups <==> RowsOf(rows, id) != []
    requires forall id :: id in groups ==> groups[id] == RowsOf(rows, id)
    requires Reported(reports0, progress0) && progress0 <= 30
    ensures bindings == LocatedAll(ids, rows, sequences)
    ensures valid == ValidIds(ids, rows, sequences)
    ensures processed == |ids|
    ensures Reported(reports, progress) && progress <= 30
    ensures |reports0| <= |reports| && reports[..|reports0|] == reports0
  {
    bindings, valid, processed := [], [], 0;
    reports, progress := reports0, progress0;
    var total := |ids|;
    var every := if total / 20 > 1 then total / 20 else 1;
    while processed < total
      invariant processed <= total
      invariant bindings == LocatedAll(ids[..processed], rows, sequences)
      invariant valid == ValidIds(ids[..processed], rows, sequences)
      invariant Reported(reports, progress) && progress <= 30
      invariant |reports0| <= |reports| && reports[..|reports0|] == reports0
    {
      var id := ids[processed];
      LocatedStep(ids, processed, rows, sequences);
      processed := processed + 1;
      reports, progress := Tick(processed, total, every, reports, progress);
      var usable, found := VisitGene(id, rows, groups, sequences);
      if usable {
        valid := valid + [id];
        bindings := bindings + found;
      }
    }
    assert ids[..processed] == ids;
  }

  function Lookup<T>(m: map<string, seq<T>>, id: string): seq<T> {
    if id in m then m[id] else []
  }

  /** `sequence_to_domains` (lines 1258-1274): the PFAM hits of each bound
      sequence that has any. */
  method IndexDomains(ids: seq<string>, pfam: DomainMap) returns (index: map<string, seq<DomainSpan>>)
    requires Distinct(ids)
    ensures forall id :: id in index <==> id in ids && DomainsOf(pfam, id) != []
    ensures forall id :: id in index ==> index[id] == DomainsOf(pfam, id)
  {
    index := map[];
    var i := 0;
    while i < |ids|
      invariant 0 <= i <= |ids|
      invariant forall id :: id in index <==> id in ids[..i] && DomainsOf(pfam, id) != []
      invariant forall id :: id in index ==> index[id] == DomainsOf(pfam, id)
    {
      var id := ids[i];
      assert id !in ids[..i];
      var hits := HitsAt(pfam, id);
      var spans := DomainsOf(pfam, id);
      var j := 0;
      while j < |hits|
        invariant 0 <= j <= |hits|
        invariant j == 0 ==> id !in index
        invariant j > 0 ==> id in index && index[id] == spans[..j]
        invariant forall x :: x != id ==> (x in index <==> x in ids[..i] && DomainsOf(pfam, x) != [])
        invariant forall x :: x != id && x in index ==> index[x] == DomainsOf(pfam, x)
      {
        index := index[id := Lookup(index, id) + [DomainSpan(hits[j].hmmName, hits[j].start, hits[j].end)]];
        assert spans[..j + 1] == spans[..j] + [spans[j]];
        j := j + 1;
      }
      assert spans[..j] == spans;
      assert ids[..i + 1] == ids[..i] + [id];
      i := i + 1;
    }
    assert ids[..i] == ids;
  }

  /** `bindings_by_sequence` (lines 1301-1312). */
  method IndexBindings(bs: seq<Binding>) returns (index: map<string, seq<Binding>>)
    ensures forall id :: id in index ==> index[id] == BindingsFor(bs, id)
    ensures forall id :: id !in index ==> BindingsFor(bs, id) == []
  {
    index := map[];
    var i := 0;
    while i < |bs|
      invariant 0 <= i <= |bs|
      invariant forall id :: Lookup(index, id) == BindingsFor(bs[..i], id)
    {
      var index' := index[bs[i].sequenceId := Lookup(index, bs[i].sequenceId) + [bs[i]]];
      forall id ensures Lookup(index', id) == BindingsFor(bs[..i + 1], id) {
        BindingsForStep(bs, i, id);
      }
      index := index';
      i := i + 1;
    }
    assert bs[..i] == bs;
    forall id ensures id in index ==> index[id] == BindingsFor(bs, id) {
      assert Lookup(index, id) == BindingsFor(bs, id);
    }
  }

  lemma BindingsForStep(bs: seq<Binding>, i: nat, id: string)
    requires i < |bs|
    ensures BindingsFor(bs[..i + 1], id) == BindingsFor(bs[..i], id) + if bs[i].sequenceId == id then [bs[i]] else []
  {
    assert bs[..i + 1][..i] == bs[..i];
  }

  /** The binding loop of one domain (lines 1330-1358). */
  method MatchDomain(id: string, d: DomainSpan, bs: seq<Binding>) returns (ms: seq<Match>)
    ensures ms == DomainMatches(id, d, bs)
  {
    ms := [];
    var k := 0;
    while k < |bs|
      invariant 0 <= k <= |bs|
      invariant ms == DomainMatches(id, d, bs[..k])
    {
      var b := bs[k];
      assert bs[..k + 1][..k] == bs[..k];
      if b.start <= d.end && b.end >= d.start {
        var overlapStart := if b.start > d.start then b.start else d.start;
        var overlapEnd := if b.end < d.end then b.end else d.end;
        var overlapLength := overlapEnd - overlapStart + 1;
        var bindingLength := b.end - b.start + 1;
        if 2 * overlapLength >= bindingLength {
          ms := ms + [Match(id, d, b)];
        }
      }
      k := k + 1;
    }
    assert bs[..k] == bs;
  }

  /** The domain loop of one sequence (lines 1318-1328). */
  method MatchSequence(id: string, ds: seq<DomainSpan>, bs: seq<Binding>) returns (ms: seq<Match>)
    ensures ms == SequenceMatches(id, ds, bs)
  {
    ms := [];
    var j := 0;
    while j < |ds|
      invariant 0 <= j <= |ds|
      invariant ms == SequenceMatches(id, ds[..j], bs)
    {
      assert ds[..j + 1][..j] == ds[..j];
      var found := MatchDomain(id, ds[j], bs);
      ms := ms + found;
      j := j + 1;
    }
    assert ds[..j] == ds;
  }

  lemma {:induction false} NoBindingsNoMatches(id: string, ds: seq<DomainSpan>)
    ensures SequenceMatches(id, ds, []) == []
  {
    if ds != [] {
      NoBindingsNoMatches(id, ds[..|ds| - 1]);
    }
  }

  /** `find_domain_binding_intersections` over all bound sequences. */
  method FindIntersections(ids: seq<string>, pfam: DomainMap, bs: seq<Binding>,
                           domainIndex: map<string, seq<DomainSpan>>, bindingIndex: map<string, seq<Binding>>)
    returns (results: seq<Match>)
    requires forall id :: id in ids ==> Lookup(domainIndex, id) == DomainsOf(pfam, id)
    requires forall id :: id in ids ==> Lookup(bindingIndex, id) == BindingsFor(bs, id)
    ensures results == AllMatches(ids, pfam, bs)
  {
    results := [];
    var i := 0;
    while i < |ids|
      invariant 0 <= i <= |ids|
      invariant results == AllMatches(ids[..i], pfam, bs)
    {
      var id := ids[i];
      AllMatchesStep(ids, i, pfam, bs);
      var domains := Lookup(domainIndex, id);
      var bindings := Lookup(bindingIndex, id);
      if domains == [] || bindings == [] {
        NoBindingsNoMatches(id, domains);
      } else {
        var found := MatchSequence(id, domains, bindings);
        results := results + found;
      }
      i := i + 1;
    }
    assert ids[..i] == ids;
  }

  lemma AllMatchesStep(ids: seq<string>, i: nat, pfam: DomainMap, bs: seq<Binding>)
    requires i < |ids|
    ensures AllMatches(ids[..i + 1], pfam, bs) ==
            AllMatches(ids[..i], pfam, bs) + SequenceMatches(ids[i], DomainsOf(pfam, ids[i]), BindingsFor(bs, ids[i]))
  {
    assert ids[..i + 1][..i] == ids[..i];
  }

  // ---------------------------------------------------------------------
  // The tally and the summaries.

  function Sampled(n: nat): nat {
    if n < 100 then n else 100
  }

  lemma SubsetSameSize<T>(a: set<T>, b: set<T>)
    requires a <= b && |a| == |b|
    ensures a == b
  {
    assert b == a + (b - a);
    assert a * (b - a) == {};
  }

  /** One `domain_sequences[d].add(id)` under the 100 limit keeps the
      sample the first 100 of the domain's sequences. */
  lemma SampleStep(sample: set<string>, seqs: set<string>, x: string)
    requires sample <= seqs && |sample| == Sampled(|seqs|)
    ensures var sample' := if |sample| < 100 then sample + {x} else sample;
            sample' <= seqs + {x} && |sample'| == Sampled(|seqs + {x}|)
  {
    if x in seqs {
      assert seqs + {x} == seqs;
      if |sample| < 100 {
        SubsetSameSize(sample, seqs);
        assert sample + {x} == sample;
      }
    } else {
      assert |seqs + {x}| == |seqs| + 1;
      if |sample| < 100 {
        assert x !in sample;
        assert |sample + {x}| == |sample| + 1;
      }
    }
  }

  lemma SeqsOfStep(ms: seq<Match>, i: nat, d: string)
    requires i < |ms|
    ensures SeqsOf(ms[..i + 1], d) == SeqsOf(ms[..i], d) + (if ms[i].domain.name == d then {ms[i].sequenceId} else {})
  {
    var pre, now := ms[..i], ms[..i + 1];
    forall x | x in SeqsOf(now, d) ensures x in SeqsOf(pre, d) + (if ms[i].domain.name == d then {ms[i].sequenceId} else {}) {
      var k :| 0 <= k < |now| && now[k].domain.name == d && now[k].sequenceId == x;
      if k < i {
        assert pre[k] == now[k];
      }
    }
    forall x | x in SeqsOf(pre, d) ensures x in SeqsOf(now, d) {
      var k :| 0 <= k < |pre| && pre[k].domain.name == d && pre[k].sequenceId == x;
      assert now[k] == pre[k];
    }
    if ms[i].domain.name == d {
      assert now[i] == ms[i];
    }
  }

  lemma CountStep(ms: seq<Match>, i: nat)
    requires i < |ms|
    ensures CountAll(MatchDomains(ms[..i + 1])) == Add(CountAll(MatchDomains(ms[..i])), ms[i].domain.name)
  {
    var xs := MatchDomains(ms[..i + 1]);
    assert xs[..|xs| - 1] == MatchDomains(ms[..i]);
  }

  lemma SeqsOfSteps(ms: seq<Match>, i: nat)
    requires i < |ms|
    ensures forall e :: SeqsOf(ms[..i + 1], e) == SeqsOf(ms[..i], e) + (if ms[i].domain.name == e then {ms[i].sequenceId} else {})
  {
    forall e ensures SeqsOf(ms[..i + 1], e) == SeqsOf(ms[..i], e) + (if ms[i].domain.name == e then {ms[i].sequenceId} else {}) {
      SeqsOfStep(ms, i, e);
    }
  }

  /** A domain not yet counted has no sequences. */
  lemma UnseenDomain(ms: seq<Match>, d: string)
    ensures d !in CountAll(MatchDomains(ms)).count ==> SeqsOf(ms, d) == {}
  {
    if SeqsOf(ms, d) != {} {
      var x :| x in SeqsOf(ms, d);
      var k :| 0 <= k < |ms| && ms[k].domain.name == d && ms[k].sequenceId == x;
      assert MatchDomains(ms)[k] == d;
      CountAllKeys(MatchDomains(ms));
    }
  }

  lemma SeqSetsStep(ms: seq<Match>, i: nat, seqSets: map<string, set<string>>, seqSets': map<string, set<string>>)
    requires i < |ms|
    requires forall e :: e in seqSets ==> seqSets[e] == SeqsOf(ms[..i], e)
    requires ms[i].domain.name !in seqSets ==> SeqsOf(ms[..i], ms[i].domain.name) == {}
    requires var d := ms[i].domain.name; seqSets' == seqSets[d := (if d in seqSets then seqSets[d] else {}) + {ms[i].sequenceId}]
    ensures forall e :: e in seqSets' ==> seqSets'[e] == SeqsOf(ms[..i + 1], e)
  {
    SeqsOfSteps(ms, i);
  }

  /** Lines 1437-1439: add the sequence to the domain's sample while the
      sample holds fewer than 100. */
  method RecordSample(seqSets: map<string, set<string>>, samples: map<string, set<string>>, d: string, id: string)
    returns (samples': map<string, set<string>>)
    requires forall e :: e in samples && e in seqSets ==> samples[e] <= seqSets[e] && |samples[e]| == Sampled(|seqSets[e]|)
    requires d in samples <==> d in seqSets
    ensures samples'.Keys == samples.Keys + {d}
    ensures var seqSets' := seqSets[d := (if d in seqSets then seqSets[d] else {}) + {id}];
            forall e :: e in samples' && e in seqSets' ==> samples'[e] <= seqSets'[e] && |samples'[e]| == Sampled(|seqSets'[e]|)
  {
    var seqs: set<string> := if d in seqSets then seqSets[d] else {};
    var sample: set<string> := if d in samples then samples[d] else {};
    SampleStep(sample, seqs, id);
    if |sample| < 100 {
      sample := sample + {id};
    }
    samples' := samples[d := sample];
  }

  /** The tally loop (lines 1410-1439): per domain the number of matches,
      the set of its sequences and a sample of at most 100 of them. */
  method TallyMatches(ms: seq<Match>)
    returns (counter: Tally<string>, seqSets: map<string, set<string>>, samples: map<string, set<string>>)
    ensures counter == CountAll(MatchDomains(ms))
    ensures forall d :: (d in seqSets <==> d in counter.count) && (d in samples <==> d in counter.count)
    ensures forall d :: d in seqSets ==> seqSets[d] == SeqsOf(ms, d)
    ensures forall d :: d in samples && d in seqSets ==> samples[d] <= seqSets[d] && |samples[d]| == Sampled(|seqSets[d]|)
  {
    counter := Empty();
    seqSets, samples := map[], map[];
    var i := 0;
    while i < |ms|
      invariant 0 <= i <= |ms|
      invariant counter == CountAll(MatchDomains(ms[..i]))
      invariant forall d :: (d in seqSets <==> d in counter.count) && (d in samples <==> d in counter.count)
      invariant forall d :: d in seqSets ==> seqSets[d] == SeqsOf(ms[..i], d)
      invariant forall d :: d in samples && d in seqSets ==> samples[d] <= seqSets[d] && |samples[d]| == Sampled(|seqSets[d]|)
    {
      var d := ms[i].domain.name;
      var id := ms[i].sequenceId;
      CountStep(ms, i);
      SeqsOfSteps(ms, i);
      counter := Add(counter, d);
      UnseenDomain(ms[..i], d);
      var seqSets' := seqSets[d := (if d in seqSets then seqSets[d] else {}) + {id}];
      SeqSetsStep(ms, i, seqSets, seqSets');
      samples := RecordSample(seqSets, samples, d, id);
      seqSets := seqSets';
      i := i + 1;
    }
    assert ms[..i] == ms;
  }

  /** One entry of `domain_summaries`, without its averages and percentage. */
  datatype DomainSummary = DomainSummary(domain: string, bindingCount: nat, sequenceCount: nat, sequences: set<string>)

  function ByBindingCount(): (DomainSummary, DomainSummary) -> bool {
    DescendingInt((s: DomainSummary) => s.bindingCount)
  }

  /** What a summary of domain `s.domain` holds, given the tally. */
  predicate Summarises(s: DomainSummary, counter: Tally<string>, seqSets: map<string, set<string>>,
                       samples: map<string, set<string>>)
  {
    s.domain in counter.count && s.domain in seqSets && s.domain in samples &&
    s.bindingCount == counter.count[s.domain] && s.sequenceCount == |seqSets[s.domain]| &&
    s.sequences == samples[s.domain]
  }

  /** Lines 1441-1460: one summary per counted domain, by binding count,
      highest first. */
  method Summaries(counter: Tally<string>, seqSets: map<string, set<string>>, samples: map<string, set<string>>)
    returns (summaries: seq<DomainSummary>)
    requires WellFormed(counter)
    requires forall d :: (d in seqSets <==> d in counter.count) && (d in samples <==> d in counter.count)
    ensures SortedBy(summaries, ByBindingCount())
    ensures |summaries| == |counter.keys|
    ensures forall k :: 0 <= k < |summaries| ==> Summarises(summaries[k], counter, seqSets, samples)
    ensures forall d :: d in counter.count ==> exists k :: 0 <= k < |summaries| && summaries[k].domain == d
  {
    var list: seq<DomainSummary> := [];
    var i := 0;
    while i < |counter.keys|
      invariant 0 <= i <= |counter.keys|
      invariant |list| == i
      invariant forall k :: 0 <= k < i ==> list[k].domain == counter.keys[k] && Summarises(list[k], counter, seqSets, samples)
    {
      var d := counter.keys[i];
      assert d in counter.count;
      list := list + [DomainSummary(d, counter.count[d], |seqSets[d]|, samples[d])];
      i := i + 1;
    }
    KeyOrders((s: DomainSummary) => s.bindingCount, (s: DomainSummary) => 0.0);
    summaries := SortBy(list, ByBindingCount());
    assert |summaries| == |multiset(summaries)| == |multiset(list)| == |list|;
    forall k | 0 <= k < |summaries| ensures Summarises(summaries[k], counter, seqSets, samples) {
      assert summaries[k] in multiset(list);
    }
    forall d | d in counter.count ensures exists k :: 0 <= k < |summaries| && summaries[k].domain == d {
      var m :| 0 <= m < |counter.keys| && counter.keys[m] == d;
      assert list[m] in multiset(summaries);
    }
  }

  // ---------------------------------------------------------------------
  // The whole analysis.

  /** The returned dictionary: the analysis (early exits included), or the
      error dictionary of the exception handler. */
  datatype Analysis =
    | Analysis(totalSequences: nat, domainBindingCounts: map<string, nat>, summaries: seq<DomainSummary>,
               processedSequences: nat, totalUniqueSequences: nat, foundSequencesWithPeptides: nat,
               bindingThreshold: Option<real>, bindingLevel: Option<string>)
    | Failure(error: string)

  /** What the summaries say about the matches `ms`: sorted by binding
      count, one per matched domain, each with its number of matches, its
      number of sequences (never more than its matches) and a sample of at
      most 100 of those sequences. */
  ghost predicate SummariesOf(summaries: seq<DomainSummary>, ms: seq<Match>) {
    var counts := CountAll(MatchDomains(ms)).count;
    SortedBy(summaries, ByBindingCount()) &&
    |summaries| == |Unique(MatchDomains(ms))| &&
    (forall k :: 0 <= k < |summaries| ==>
       var s := summaries[k];
       s.domain in counts && s.bindingCount == counts[s.domain] == multiset(MatchDomains(ms))[s.domain] &&
       s.sequenceCount == |SeqsOf(ms, s.domain)| <= s.bindingCount &&
       s.sequences <= SeqsOf(ms, s.domain) && |s.sequences| == Sampled(s.sequenceCount)) &&
    (forall d :: d in counts ==> exists k :: 0 <= k < |summaries| && summaries[k].domain == d)
  }

  lemma NothingToSummarise()
    ensures CountAll(MatchDomains([])).count == map[] && SummariesOf([], [])
  {
    assert MatchDomains([]) == [];
  }

  lemma ReportedAppend(reports: seq<int>, progress: int, v: int)
    requires Reported(reports, progress) && progress <= v <= 100
    ensures Reported(reports + [v], v)
  {
  }

  lemma SummariesSpec(ms: seq<Match>, counter: Tally<string>, seqSets: map<string, set<string>>,
                      samples: map<string, set<string>>, summaries: seq<DomainSummary>)
    requires counter == CountAll(MatchDomains(ms))
    requires forall d :: (d in seqSets <==> d in counter.count) && (d in samples <==> d in counter.count)
    requires forall d :: d in seqSets ==> seqSets[d] == SeqsOf(ms, d)
    requires forall d :: d in samples && d in seqSets ==> samples[d] <= seqSets[d] && |samples[d]| == Sampled(|seqSets[d]|)
    requires SortedBy(summaries, ByBindingCount())
    requires |summaries| == |counter.keys|
    requires forall k :: 0 <= k < |summaries| ==> Summarises(summaries[k], counter, seqSets, samples)
    requires forall d :: d in counter.count ==> exists k :: 0 <= k < |summaries| && summaries[k].domain == d
    ensures SummariesOf(summaries, ms)
  {
    CountAllKeys(MatchDomains(ms));
    forall k | 0 <= k < |summaries|
      ensures summaries[k].bindingCount == multiset(MatchDomains(ms))[summaries[k].domain]
      ensures summaries[k].sequenceCount <= summaries[k].bindingCount
    {
      CountAllCounts(MatchDomains(ms), summaries[k].domain);
      SequencesAtMostMatches(ms, summaries[k].domain);
    }
  }

  /** What the analysis returns for the kept rows `rows` and the selected
      genes `ids`. */
  ghost predicate Describes(result: Analysis, rows: seq<MergedRow>, ids: seq<string>, pfam: DomainMap,
                            sequences: map<string, string>, threshold: Option<real>, level: Option<string>)
  {
    var bs := LocatedAll(ids, rows, sequences);
    var bound := Unique(BindingIds(bs));
    var ms := AllMatches(bound, pfam, bs);
    result.Analysis? &&
    result.totalSequences == result.totalUniqueSequences == |bound| &&
    result.processedSequences == |ids| &&
    result.foundSequencesWithPeptides == (if bs == [] then 0 else |ValidIds(ids, rows, sequences)|) &&
    result.domainBindingCounts == CountAll(MatchDomains(ms)).count &&
    SummariesOf(result.summaries, ms) &&
    result.bindingThreshold == threshold && result.bindingLevel == level
  }

  /** Progress that ends the run: within 0..100, never decreasing, last 100. */
  predicate Finished(reports: seq<int>) {
    Reported(reports, 100) && reports != [] && reports[|reports| - 1] == 100
  }

  /** Lines 1254-1466, once peptides were located: the bound sequences'
      domains, the matches, their tally and the summaries, with progress
      from 30 on. */
  method AnalyzeBindings(bs: seq<Binding>, pfam: DomainMap, workers: nat, reports0: seq<int>)
    returns (counts: map<string, nat>, summaries: seq<DomainSummary>, reports: seq<int>)
    requires workers >= 1 && Reported(reports0, 30)
    ensures var ms := AllMatches(Unique(BindingIds(bs)), pfam, bs);
            counts == CountAll(MatchDomains(ms)).count && SummariesOf(summaries, ms)
    ensures Finished(reports)
  {
    reports := reports0;
    var bound := Unique(BindingIds(bs));
    var domainIndex := IndexDomains(bound, pfam);
    if domainIndex == map[] {
      NoDomainsNoMatches(bound, pfam, bs);
      NothingToSummarise();
      ReportedAppend(reports, 30, 100);
      return map[], [], reports + [100];
    }
    ReportedAppend(reports, 30, 40);
    var progress;
    reports, progress := reports + [40], 40;
    var results := MatchAll(bs, pfam, bound, domainIndex);
    reports, progress := BatchProgress(workers, reports, progress);
    ReportedAppend(reports, progress, 90);
    reports := reports + [90];
    ReportedAppend(reports, 90, 100);
    if results == [] {
      NothingToSummarise();
      return map[], [], reports + [100];
    }
    counts, summaries := Summarise(results);
    reports := reports + [100];
  }

  /** Lines 1301-1387: the bindings indexed by sequence and every bound
      sequence's pairs matched. */
  method MatchAll(bs: seq<Binding>, pfam: DomainMap, bound: seq<string>, domainIndex: map<string, seq<DomainSpan>>)
    returns (results: seq<Match>)
    requires forall id :: id in domainIndex <==> id in bound && DomainsOf(pfam, id) != []
    requires forall id :: id in domainIndex ==> domainIndex[id] == DomainsOf(pfam, id)
    ensures results == AllMatches(bound, pfam, bs)
  {
    var bindingIndex := IndexBindings(bs);
    results := FindIntersections(bound, pfam, bs, domainIndex, bindingIndex);
  }

  /** Lines 1378-1385: as worker batch `i` completes, progress
      `40 + int((i + 1) / workers * 50)` is reported if it is higher. */
  method BatchProgress(workers: nat, reports0: seq<int>, progress0: int) returns (reports: seq<int>, progress: int)
    requires workers >= 1 && Reported(reports0, progress0) && progress0 <= 90
    ensures Reported(reports, progress) && progress <= 90
  {
    reports, progress := reports0, progress0;
    var batch := 0;
    while batch < workers
      invariant 0 <= batch <= workers
      invariant Reported(reports, progress) && progress <= 90
    {
      ShareBound(batch + 1, workers, 50);
      reports, progress := Advance(reports, progress, 40 + ((batch + 1) * 50) / workers);
      batch := batch + 1;
    }
  }

  /** Lines 1409-1460: the tally of the matches and the sorted summaries. */
  method Summarise(results: seq<Match>) returns (counts: map<string, nat>, summaries: seq<DomainSummary>)
    ensures counts == CountAll(MatchDomains(results)).count && SummariesOf(summaries, results)
  {
    var counter, seqSets, samples := TallyMatches(results);
    CountAllKeys(MatchDomains(results));
    summaries := Summaries(counter, seqSets, samples);
    SummariesSpec(results, counter, seqSets, samples, summaries);
    counts := counter.count;
  }

  /** Lines 1135-1254 and the tail: the kept rows' genes are selected, their
      peptides located, and the rest analysed. */
  method AnalyzeRows(rows: seq<MergedRow>, pfam: DomainMap, sequences: map<string, string>,
                     threshold: Option<real>, level: Option<string>, maxSequences: Option<int>, workers: nat,
                     reports0: seq<int>)
    returns (result: Analysis, reports: seq<int>)
    requires workers >= 1 && Reported(reports0, 5)
    ensures Describes(result, rows, Selected(Unique(Genes(rows)), maxSequences), pfam, sequences, threshold, level)
    ensures Finished(reports)
  {
    if rows == [] {
      ReportedAppend(reports0, 5, 100);
      assert Genes(rows) == [];
      NoBindingsDescribed(rows, Selected(Unique(Genes(rows)), maxSequences), pfam, sequences, threshold, level);
      return Analysis(0, map[], [], 0, 0, 0, threshold, level), reports0 + [100];
    }
    var ids := Selected(Unique(Genes(rows)), maxSequences);
    var groups := GroupRows(rows);
    var bs, valid, processed, progress;
    bs, valid, processed, reports, progress := LocateBindings(ids, rows, groups, sequences, reports0, 5);
    if bs == [] {
      ReportedAppend(reports, progress, 100);
      NoBindingsDescribed(rows, ids, pfam, sequences, threshold, level);
      return Analysis(0, map[], [], processed, 0, 0, threshold, level), reports + [100];
    }
    ReportedAppend(reports, progress, 30);
    var counts, summaries;
    counts, summaries, reports := AnalyzeBindings(bs, pfam, workers, reports + [30]);
    var bound := Unique(BindingIds(bs));
    result := Analysis(|bound|, counts, summaries, processed, |bound|, |valid|, threshold, level);
    BindingsDescribed(result, rows, ids, pfam, sequences, threshold, level);
  }

  /** No peptide located: the empty analysis describes the run. */
  lemma NoBindingsDescribed(rows: seq<MergedRow>, ids: seq<string>, pfam: DomainMap, sequences: map<string, string>,
                            threshold: Option<real>, level: Option<string>)
    requires LocatedAll(ids, rows, sequences) == []
    ensures Describes(Analysis(0, map[], [], |ids|, 0, 0, threshold, level), rows, ids, pfam, sequences, threshold, level)
  {
    NothingToSummarise();
    assert BindingIds([]) == [];
  }

  /** Located peptides: the analysis built from their matches describes the run. */
  lemma BindingsDescribed(result: Analysis, rows: seq<MergedRow>, ids: seq<string>, pfam: DomainMap,
                          sequences: map<string, string>, threshold: Option<real>, level: Option<string>)
    requires var bs := LocatedAll(ids, rows, sequences);
             var bound := Unique(BindingIds(bs));
             var ms := AllMatches(bound, pfam, bs);
             bs != [] && result.Analysis? &&
             result == Analysis(|bound|, result.domainBindingCounts, result.summaries, |ids|, |bound|,
                                |ValidIds(ids, rows, sequences)|, threshold, level) &&
             result.domainBindingCounts == CountAll(MatchDomains(ms)).count && SummariesOf(result.summaries, ms)
    ensures Describes(result, rows, ids, pfam, sequences, threshold, level)
  {
  }

  /** `analyze_binding_domain_intersections` (lines 1046-1506) without its
      averages, percentages and timing. `sequences` stands for
      `get_sequences_batch` of the selected genes and `workers` for the
      number of worker batches; the progress callback's arguments are
      returned in `reports`. */
  method AnalyzeBindingDomainIntersections(merged: Option<seq<MergedRow>>, pfam: DomainMap,
                                           sequences: map<string, string>, threshold: Option<real>,
                                           level: Option<string>, maxSequences: Option<int>, workers: nat)
    returns (result: Analysis, reports: seq<int>)
    requires workers >= 1
    ensures Finished(reports)
    ensures merged.None? ==> result == Failure("Merged data not created. Call merge_data() first.") && reports == [100]
    ensures merged.Some? ==>
              var rows := Kept(merged.value, threshold, level);
              Describes(result, rows, Selected(Unique(Genes(rows)), maxSequences), pfam, sequences, threshold, level)
  {
    if merged.None? {
      return Failure("Merged data not created. Call merge_data() first."), [100];
    }
    var rows := Kept(merged.value, threshold, level);
    result, reports := AnalyzeRows(rows, pfam, sequences, threshold, level, maxSequences, workers, [0, 5]);
  }
}
