/**
  `get_cancer_data`: everything the application shows for one cancer
  accession — its genes and MHC alleles, the domains of its genes (the
  metagenome ones under a `META_` prefix), the PFAM enrichment of those
  genes against all better binders, the affinity statistics and the
  binding-level tally.
 */
module CancerReport {
  import opened Wrappers
  import opened Text
  import opened PyBuiltins
  import opened Sorting
  import opened Tallies
  import opened Hmm
  import opened Records
  import opened DomainFrequencies
  import opened Enrichment
  import opened Median

  /** The rows of the merged table for one cancer accession, in order. */
  function RowsFor(rows: seq<MergedRow>, acc: string): (r: seq<MergedRow>)
    ensures |r| <= |rows|
    ensures forall i :: 0 <= i < |r| ==> r[i] in rows && r[i].binder.cancerAcc == acc
  {
    if rows == [] then []
    else RowsFor(rows[..|rows| - 1], acc) + (if rows[|rows| - 1].binder.cancerAcc == acc then [rows[|rows| - 1]] else [])
  }

  lemma {:induction false} RowsForComplete(rows: seq<MergedRow>, acc: string, i: nat)
    requires i < |rows| && rows[i].binder.cancerAcc == acc
    ensures rows[i] in RowsFor(rows, acc)
  {
    if i < |rows| - 1 {
      RowsForComplete(rows[..|rows| - 1], acc, i);
    }
  }

  // ---------------------------------------------------------------------
  // The domain ledgers (`pfam_domain_counts`, `kofam_domain_counts`).

  /** One entry of a ledger; `isMetagenome` is set when a metagenome hit
      created the entry. */
  datatype DomainTally = DomainTally(count: nat, genes: seq<string>, eValues: seq<real>, bitscores: seq<real>,
                                     isMetagenome: bool)

  /** A ledger: its entries and their insertion order. */
  datatype Ledger = Ledger(keys: seq<string>, entries: map<string, DomainTally>)

  predicate LedgerWellFormed(l: Ledger) {
    Distinct(l.keys) && l.entries.Keys == set k | k in l.keys
  }

  /** One hit filed under a name: the name is the hit's, prefixed with
      `META_` for a metagenome hit. */
  datatype Event = Event(gene: string, name: string, hit: Hit, meta: bool)

  const Prefix: string := "META_"

  function EventsFor(gene: string, hits: seq<Hit>, meta: bool): (r: seq<Event>)
    ensures |r| == |hits|
    ensures forall k :: 0 <= k < |hits| ==>
              r[k] == Event(gene, if meta then Prefix + hits[k].hmmName else hits[k].hmmName, hits[k], meta)
  {
    seq(|hits|, k requires 0 <= k < |hits| =>
      Event(gene, if meta then Prefix + hits[k].hmmName else hits[k].hmmName, hits[k], meta))
  }

  /** The hits a ledger receives, in order: for each gene, its better
      binder hits and then its metagenome hits. */
  function EventsOf(genes: seq<string>, binders: DomainMap, metagenome: DomainMap): seq<Event> {
    if genes == [] then []
    else
      var g := genes[|genes| - 1];
      EventsOf(genes[..|genes| - 1], binders, metagenome) +
      EventsFor(g, HitsAt(binders, g), false) + EventsFor(g, HitsAt(metagenome, g), true)
  }

  /** Filing one hit (lines 1726-1738 and the three loops like it). */
  function File(l: Ledger, e: Event): Ledger {
    var d := if e.name in l.entries then l.entries[e.name] else DomainTally(0, [], [], [], e.meta);
    Ledger(if e.name in l.entries then l.keys else l.keys + [e.name],
           l.entries[e.name := DomainTally(d.count + 1, d.genes + [e.gene], d.eValues + [e.hit.eValue],
                                           d.bitscores + [e.hit.bitscore], d.isMetagenome)])
  }

  function LedgerOf(events: seq<Event>): Ledger {
    if events == [] then Ledger([], map[]) else File(LedgerOf(events[..|events| - 1]), events[|events| - 1])
  }

  function NamesIn(events: seq<Event>): (r: seq<string>)
    ensures |r| == |events|
    ensures forall k :: 0 <= k < |events| ==> r[k] == events[k].name
  {
    seq(|events|, k requires 0 <= k < |events| => events[k].name)
  }

  /** The sum of the counts of the entries listed in `keys`. */
  function SumCounts(keys: seq<string>, entries: map<string, DomainTally>, metaToo: bool): nat {
    if keys == [] then 0
    else
      var k := keys[|keys| - 1];
      SumCounts(keys[..|keys| - 1], entries, metaToo) +
      (if k in entries && (metaToo || !entries[k].isMetagenome) then entries[k].count else 0)
  }

  lemma FileSpec(l: Ledger, e: Event)
    requires LedgerWellFormed(l)
    ensures LedgerWellFormed(File(l, e))
    ensures SumCounts(File(l, e).keys, File(l, e).entries, true) == SumCounts(l.keys, l.entries, true) + 1
  {
    var l' := File(l, e);
    if e.name in l.entries {
      SumBump(l.keys, l.entries, e.name, l'.entries[e.name]);
    } else {
      SumFresh(l.keys, l.entries, e.name, l'.entries[e.name]);
    }
  }

  lemma {:induction false} SumBump(keys: seq<string>, entries: map<string, DomainTally>, k: string, d: DomainTally)
    requires Distinct(keys) && k in keys && k in entries && d.count == entries[k].count + 1
    ensures SumCounts(keys, entries[k := d], true) == SumCounts(keys, entries, true) + 1
  {
    var init := keys[..|keys| - 1];
    if keys[|keys| - 1] != k {
      assert k in init by {
        assert keys == init + [keys[|keys| - 1]];
      }
      SumBump(init, entries, k, d);
    } else {
      SumSkip(init, entries, k, d, true);
    }
  }

  lemma {:induction false} SumSkip(keys: seq<string>, entries: map<string, DomainTally>, k: string, d: DomainTally,
                                   metaToo: bool)
    requires k !in keys
    ensures SumCounts(keys, entries[k := d], metaToo) == SumCounts(keys, entries, metaToo)
  {
    if keys != [] {
      SumSkip(keys[..|keys| - 1], entries, k, d, metaToo);
    }
  }

  lemma SumFresh(keys: seq<string>, entries: map<string, DomainTally>, k: string, d: DomainTally)
    requires k !in keys && d.count == 1
    ensures SumCounts(keys + [k], entries[k := d], true) == SumCounts(keys, entries, true) + 1
  {
    SumSkip(keys, entries, k, d, true);
    assert (keys + [k])[..|keys|] == keys;
  }

  lemma NamesInStep(events: seq<Event>)
    requires events != []
    ensures NamesIn(events) == NamesIn(events[..|events| - 1]) + [events[|events| - 1].name]
  {
  }

  lemma UniqueAppend(s: seq<string>, x: string)
    ensures Unique(s + [x]) == if x in Unique(s) then Unique(s) else Unique(s) + [x]
  {
    assert (s + [x])[..|s|] == s;
  }

  /** What a ledger holds: each name once, in order of first filing, and
      counts that add up to the number of hits filed. */
  lemma {:induction false} LedgerShape(events: seq<Event>)
    ensures var l := LedgerOf(events);
            LedgerWellFormed(l) && l.keys == Unique(NamesIn(events)) && SumCounts(l.keys, l.entries, true) == |events|
  {
    if events != [] {
      var init := events[..|events| - 1];
      var e := events[|events| - 1];
      LedgerShape(init);
      FileSpec(LedgerOf(init), e);
      NamesInStep(events);
      UniqueAppend(NamesIn(init), e.name);
    }
  }

  /** Each entry counts the hits filed under its name, with one gene,
      e-value and bitscore per hit. */
  lemma {:induction false} LedgerEntry(events: seq<Event>, name: string)
    ensures var l := LedgerOf(events);
            name in l.entries ==>
              var d := l.entries[name];
              d.count == |d.genes| == |d.eValues| == |d.bitscores| == multiset(NamesIn(events))[name] > 0
  {
    if events != [] {
      var init := events[..|events| - 1];
      var e := events[|events| - 1];
      LedgerEntry(init, name);
      NamesInStep(events);
      if name != e.name || name !in LedgerOf(init).entries {
        LedgerAbsent(init, name);
      }
    }
  }

  lemma {:induction false} LedgerAbsent(events: seq<Event>, name: string)
    ensures name !in LedgerOf(events).entries ==> multiset(NamesIn(events))[name] == 0
  {
    if events != [] {
      var init := events[..|events| - 1];
      LedgerAbsent(init, name);
      NamesInStep(events);
    }
  }

  /** An entry is flagged as metagenome only under a `META_` name, and
      then because a metagenome hit created it. */
  lemma {:induction false} MetagenomeFlag(events: seq<Event>, name: string)
    requires MetaPrefixed(events)
    ensures name in LedgerOf(events).entries && LedgerOf(events).entries[name].isMetagenome ==>
              StartsWith(name, Prefix)
  {
    if events != [] {
      MetagenomeFlag(events[..|events| - 1], name);
    }
  }

  /** Every metagenome hit is filed under a `META_` name. */
  predicate MetaPrefixed(events: seq<Event>) {
    forall k :: 0 <= k < |events| && events[k].meta ==> StartsWith(events[k].name, Prefix)
  }

  lemma {:induction false} EventsPrefixed(genes: seq<string>, binders: DomainMap, metagenome: DomainMap)
    ensures MetaPrefixed(EventsOf(genes, binders, metagenome))
  {
    if genes != [] {
      EventsPrefixed(genes[..|genes| - 1], binders, metagenome);
      var g := genes[|genes| - 1];
      var a, b, c := EventsOf(genes[..|genes| - 1], binders, metagenome), EventsFor(g, HitsAt(binders, g), false),
                     EventsFor(g, HitsAt(metagenome, g), true);
      var es := a + b + c;
      forall k | 0 <= k < |es| && es[k].meta ensures StartsWith(es[k].name, Prefix) {
        if k >= |a| + |b| {
          var h := HitsAt(metagenome, g)[k - |a| - |b|];
          assert es[k] == c[k - |a| - |b|] == Event(g, Prefix + h.hmmName, h, true);
          PrefixStarts(h.hmmName);
        } else if k < |a| {
          assert es[k] == a[k] && a[k].meta;
        }
      }
    }
  }

  lemma PrefixStarts(n: string)
    ensures StartsWith(Prefix + n, Prefix)
  {
    assert (Prefix + n)[..|Prefix|] == Prefix;
  }

  /** Filing the hits of one gene from one map. */
  method FileHits(l: Ledger, ghost before: seq<Event>, gene: string, hits: seq<Hit>, meta: bool) returns (l': Ledger)
    requires l == LedgerOf(before)
    ensures l' == LedgerOf(before + EventsFor(gene, hits, meta))
  {
    l' := l;
    var j := 0;
    assert before + EventsFor(gene, hits[..0], meta) == before;
    while j < |hits|
      invariant 0 <= j <= |hits|
      invariant l' == LedgerOf(before + EventsFor(gene, hits[..j], meta))
    {
      var h := hits[j];
      var name := if meta then Prefix + h.hmmName else h.hmmName;
      FileStep(before, gene, hits, meta, j);
      l' := File(l', Event(gene, name, h, meta));
      j := j + 1;
    }
    assert hits[..j] == hits;
  }

  lemma FileStep(before: seq<Event>, gene: string, hits: seq<Hit>, meta: bool, j: nat)
    requires j < |hits|
    ensures var h := hits[j];
            LedgerOf(before + EventsFor(gene, hits[..j + 1], meta)) ==
            File(LedgerOf(before + EventsFor(gene, hits[..j], meta)),
                 Event(gene, if meta then Prefix + h.hmmName else h.hmmName, h, meta))
  {
    var h := hits[j];
    var e := Event(gene, if meta then Prefix + h.hmmName else h.hmmName, h, meta);
    var u := before + EventsFor(gene, hits[..j], meta);
    assert before + EventsFor(gene, hits[..j + 1], meta) == u + [e];
    assert (u + [e])[..|u|] == u;
  }

  /** The loop of lines 1715-1832: both ledgers over the genes. */
  method CountDomains(genes: seq<string>, maps: HitMaps) returns (pfam: Ledger, kofam: Ledger)
    ensures pfam == LedgerOf(EventsOf(genes, maps.pfam, maps.pfamMeta))
    ensures kofam == LedgerOf(EventsOf(genes, maps.kofam, maps.kofamMeta))
  {
    pfam, kofam := Ledger([], map[]), Ledger([], map[]);
    var i := 0;
    while i < |genes|
      invariant 0 <= i <= |genes|
      invariant pfam == LedgerOf(EventsOf(genes[..i], maps.pfam, maps.pfamMeta))
      invariant kofam == LedgerOf(EventsOf(genes[..i], maps.kofam, maps.kofamMeta))
    {
      var g := genes[i];
      EventsStep(genes, i, maps.pfam, maps.pfamMeta);
      EventsStep(genes, i, maps.kofam, maps.kofamMeta);
      var p0 := EventsOf(genes[..i], maps.pfam, maps.pfamMeta);
      var k0 := EventsOf(genes[..i], maps.kofam, maps.kofamMeta);
      pfam := FileHits(pfam, p0, g, HitsAt(maps.pfam, g), false);
      kofam := FileHits(kofam, k0, g, HitsAt(maps.kofam, g), false);
      pfam := FileHits(pfam, p0 + EventsFor(g, HitsAt(maps.pfam, g), false), g, HitsAt(maps.pfamMeta, g), true);
      kofam := FileHits(kofam, k0 + EventsFor(g, HitsAt(maps.kofam, g), false), g, HitsAt(maps.kofamMeta, g), true);
      i := i + 1;
    }
    assert genes[..i] == genes;
  }

  lemma EventsStep(genes: seq<string>, i: nat, binders: DomainMap, metagenome: DomainMap)
    requires i < |genes|
    ensures EventsOf(genes[..i + 1], binders, metagenome) ==
            EventsOf(genes[..i], binders, metagenome) + EventsFor(genes[i], HitsAt(binders, genes[i]), false) +
            EventsFor(genes[i], HitsAt(metagenome, genes[i]), true)
  {
    assert genes[..i + 1][..i] == genes[..i];
  }

  /** An entry of `pfam_domains` / `kofam_domains`. */
  datatype DomainRow = DomainRow(domain: string, tally: DomainTally)

  function LedgerRows(l: Ledger): (r: seq<DomainRow>)
    requires LedgerWellFormed(l)
    ensures |r| == |l.keys|
    ensures forall i :: 0 <= i < |r| ==> r[i] == DomainRow(l.keys[i], l.entries[l.keys[i]])
  {
    seq(|l.keys|, i requires 0 <= i < |l.keys| => DomainRow(l.keys[i], l.entries[l.keys[i]]))
  }

  function ByCount(): (DomainRow, DomainRow) -> bool {
    DescendingInt((r: DomainRow) => r.tally.count)
  }

  /** `sorted(..., key=count, reverse=True)` over a ledger; `sorted` is
      stable, so equal counts keep the ledger's order of first filing. */
  method RankDomains(l: Ledger) returns (rows: seq<DomainRow>)
    requires LedgerWellFormed(l)
    ensures SortedBy(rows, ByCount())
    ensures multiset(rows) == multiset(LedgerRows(l))
    ensures forall a, b :: 0 <= a < b < |rows| && rows[a].tally.count == rows[b].tally.count ==>
              Precedes(l.keys, rows[a].domain, rows[b].domain)
  {
    KeyOrders((r: DomainRow) => r.tally.count, (r: DomainRow) => 0.0);
    rows := SortBy(LedgerRows(l), ByCount());
    forall a, b | 0 <= a < b < |rows| && rows[a].tally.count == rows[b].tally.count
      ensures Precedes(l.keys, rows[a].domain, rows[b].domain)
    {
      assert ByCount()(rows[b], rows[a]);
      RowsPrecede(l, rows[a], rows[b]);
    }
  }

  /** Ledger rows follow the ledger's keys. */
  lemma RowsPrecede(l: Ledger, x: DomainRow, y: DomainRow)
    requires LedgerWellFormed(l) && Precedes(LedgerRows(l), x, y)
    ensures Precedes(l.keys, x.domain, y.domain)
  {
    var a, b :| 0 <= a < b < |LedgerRows(l)| && LedgerRows(l)[a] == x && LedgerRows(l)[b] == y;
    assert l.keys[a] == x.domain && l.keys[b] == y.domain;
  }

  // ---------------------------------------------------------------------
  // The PFAM enrichment against all better binders.

  /** A `pfam_enrichment` record. */
  datatype CancerEntry = CancerEntry(domain: string, cancerCount: nat, globalCount: nat,
                                     cancerFraction: real, globalFraction: real, enrichment: real,
                                     genes: seq<string>, eValues: seq<real>, bitscores: seq<real>)

  /** One record (lines 1941-1970): the default enrichment of 1.0 stands
      unless the domain and both totals are positive. The `inf` branch of
      the source needs a zero global fraction, which a positive global
      count excludes. */
  function CancerEntryFor(domain: string, d: DomainTally, global: Tally<string>, cancerTotal: nat, globalTotal: nat)
    : (e: CancerEntry)
    ensures e.domain == domain && e.cancerCount == d.count && e.globalCount == CountOf(global, domain)
  {
    var gc := CountOf(global, domain);
    if gc > 0 && globalTotal > 0 && cancerTotal > 0 then
      var cf := d.count as real / cancerTotal as real;
      var gf := gc as real / globalTotal as real;
      CancerEntry(domain, d.count, gc, cf, gf, cf / gf, d.genes, d.eValues, d.bitscores)
    else
      CancerEntry(domain, d.count, gc, 0.0, 0.0, 1.0, d.genes, d.eValues, d.bitscores)
  }

  /** The records of the loop of lines 1913-1989: the ledger's entries in
      order, metagenome entries skipped. */
  function CancerEntries(keys: seq<string>, entries: map<string, DomainTally>, global: Tally<string>,
                         cancerTotal: nat, globalTotal: nat): seq<CancerEntry>
    requires forall k :: k in keys ==> k in entries
  {
    if keys == [] then []
    else
      var k := keys[|keys| - 1];
      var init := CancerEntries(keys[..|keys| - 1], entries, global, cancerTotal, globalTotal);
      if entries[k].isMetagenome then init else init + [CancerEntryFor(k, entries[k], global, cancerTotal, globalTotal)]
  }

  /** The enrichment of a cancer's domain: 1.0 when the domain is unknown
      globally or the cancer has no better binder domains; otherwise at
      least 1 iff its share among the cancer's domains is at least its
      share among all better binders' domains. */
  lemma CancerEnrichmentMeaning(domain: string, d: DomainTally, global: Tally<string>, cancerTotal: nat, globalTotal: nat)
    ensures var e := CancerEntryFor(domain, d, global, cancerTotal, globalTotal);
            var gc := CountOf(global, domain);
            (gc == 0 || cancerTotal == 0 || globalTotal == 0 ==> e.enrichment == 1.0) &&
            (gc > 0 && cancerTotal > 0 && globalTotal > 0 ==>
               (e.enrichment >= 1.0 <==> d.count * globalTotal >= gc * cancerTotal))
  {
    var gc := CountOf(global, domain);
    if gc > 0 && cancerTotal > 0 && globalTotal > 0 {
      RatioAtLeastOne(d.count, cancerTotal, gc, globalTotal);
    }
  }

  /** Only better binder entries are rated, each as its record says. */
  lemma {:induction false} CancerEntriesSpec(keys: seq<string>, entries: map<string, DomainTally>, global: Tally<string>,
                                             cancerTotal: nat, globalTotal: nat)
    requires forall k :: k in keys ==> k in entries
    ensures forall e :: e in CancerEntries(keys, entries, global, cancerTotal, globalTotal) ==>
              e.domain in keys && !entries[e.domain].isMetagenome &&
              e == CancerEntryFor(e.domain, entries[e.domain], global, cancerTotal, globalTotal)
  {
    if keys != [] {
      CancerEntriesSpec(keys[..|keys| - 1], entries, global, cancerTotal, globalTotal);
      assert keys == keys[..|keys| - 1] + [keys[|keys| - 1]];
    }
  }

  function ByCancerEnrichment(): (CancerEntry, CancerEntry) -> bool {
    DescendingReal((e: CancerEntry) => e.enrichment)
  }

  /** `pfam_enrichment`, ranked by enrichment, highest first; `list.sort`
      is stable, so equal enrichments keep the records' order. */
  method RateDomains(l: Ledger, global: Tally<string>, cancerTotal: nat, globalTotal: nat) returns (rated: seq<CancerEntry>)
    requires LedgerWellFormed(l)
    ensures SortedBy(rated, ByCancerEnrichment())
    ensures multiset(rated) == multiset(CancerEntries(l.keys, l.entries, global, cancerTotal, globalTotal))
    ensures forall a, b :: 0 <= a < b < |rated| && rated[a].enrichment == rated[b].enrichment ==>
              Precedes(CancerEntries(l.keys, l.entries, global, cancerTotal, globalTotal), rated[a], rated[b])
  {
    var unsorted := [];
    var i := 0;
    while i < |l.keys|
      invariant 0 <= i <= |l.keys|
      invariant unsorted == CancerEntries(l.keys[..i], l.entries, global, cancerTotal, globalTotal)
    {
      assert l.keys[..i + 1][..i] == l.keys[..i];
      var k := l.keys[i];
      if !l.entries[k].isMetagenome {
        unsorted := unsorted + [CancerEntryFor(k, l.entries[k], global, cancerTotal, globalTotal)];
      }
      i := i + 1;
    }
    assert l.keys[..i] == l.keys;
    KeyOrders((e: CancerEntry) => 0, (e: CancerEntry) => e.enrichment);
    rated := SortBy(unsorted, ByCancerEnrichment());
    assert forall a, b :: 0 <= a < b < |rated| && rated[a].enrichment == rated[b].enrichment ==>
             ByCancerEnrichment()(rated[b], rated[a]);
  }

  // ---------------------------------------------------------------------
  // Affinity statistics and binding levels.

  /** `affinity_stats` without the mean. */
  datatype AffinityStats = AffinityStats(minimum: real, maximum: real, median: real, count: nat, data: seq<real>)

  /** The positive affinities of the rows, in row order (NaN is `None`):
      the filter of line 1844 with `np.isinf` for the `pd.isinf` it calls
      (see `BindingBlockAsWritten`); a real is never infinite. */
  function PositiveAffinities(rows: seq<MergedRow>): (r: seq<real>)
    ensures forall k :: 0 <= k < |r| ==> r[k] > 0.0
    ensures |r| <= |rows|
  {
    if rows == [] then []
    else
      var a := rows[|rows| - 1].binder.affinity;
      PositiveAffinities(rows[..|rows| - 1]) + (if a.Some? && a.value > 0.0 then [a.value] else [])
  }

  function MinReal(s: seq<real>): real
    requires s != []
  {
    if |s| == 1 then s[0] else var m := MinReal(s[..|s| - 1]); if s[|s| - 1] < m then s[|s| - 1] else m
  }

  function MaxReal(s: seq<real>): real
    requires s != []
  {
    if |s| == 1 then s[0] else var m := MaxReal(s[..|s| - 1]); if s[|s| - 1] > m then s[|s| - 1] else m
  }

  lemma {:induction false} MinMaxRealSpec(s: seq<real>)
    requires s != []
    ensures MinReal(s) in s && MaxReal(s) in s
    ensures forall k :: 0 <= k < |s| ==> MinReal(s) <= s[k] <= MaxReal(s)
  {
    if |s| > 1 {
      var init := s[..|s| - 1];
      MinMaxRealSpec(init);
      assert s == init + [s[|s| - 1]];
    }
  }

  /** The statistics of a non-empty list of affinities. */
  ghost predicate Summarises(stats: AffinityStats) {
    stats.count == |stats.data| &&
    (stats.data == [] ==> stats == AffinityStats(0.0, 0.0, 0.0, 0, [])) &&
    (stats.data != [] ==>
       stats.minimum == MinReal(stats.data) && stats.maximum == MaxReal(stats.data) &&
       IsMedian(stats.median, stats.data) && stats.minimum <= stats.median <= stats.maximum)
  }

  /** Lines 1839-1867 with the filter corrected: minimum, maximum and `sorted(data)[n // 2]` of the
      positive affinities, or zeros when there are none. */
  method Affinities(rows: seq<MergedRow>) returns (stats: AffinityStats)
    ensures stats.data == PositiveAffinities(rows)
    ensures Summarises(stats)
  {
    var data := PositiveAffinities(rows);
    if data == [] {
      return AffinityStats(0.0, 0.0, 0.0, 0, []);
    }
    KeyOrders((x: real) => 0, (x: real) => x);
    var sorted := SortBy(data, Ascending());
    assert |sorted| == |multiset(sorted)| == |multiset(data)| == |data|;
    var median := sorted[|sorted| / 2];
    assert median in multiset(data);
    SortedMedian(sorted, |sorted| / 2);
    CountPermutation(sorted, data, median, true);
    CountPermutation(sorted, data, median, false);
    MinMaxRealSpec(data);
    stats := AffinityStats(MinReal(data), MaxReal(data), median, |data|, data);
  }

  /** The binding data, affinity statistics and binding levels that lines
      1838-1891 leave in the report. */
  datatype BindingBlock = BindingBlock(bindingData: seq<MergedRow>, stats: AffinityStats, levels: Tally<string>)

  /** Some row carries an affinity that is a number (not NaN). */
  predicate AnyAffinity(rows: seq<MergedRow>) {
    exists i :: 0 <= i < |rows| && rows[i].binder.affinity.Some?
  }

  /** Lines 1838-1891 as written. `pd.isinf` does not exist in pandas, so
      the filter at line 1844 raises `AttributeError` for the first
      affinity that is not NaN (`pd.isna` decides NaN first). The inner
      handler catches only `ValueError` and `TypeError`; the outer one
      resets the binding data, the statistics and the levels. With no such
      affinity the list stays empty and the levels are counted. */
  method BindingBlockAsWritten(rows: seq<MergedRow>) returns (b: BindingBlock)
    ensures AnyAffinity(rows) ==> b == BindingBlock([], AffinityStats(0.0, 0.0, 0.0, 0, []), CountAll<string>([]))
    ensures !AnyAffinity(rows) ==>
              b == BindingBlock(rows, AffinityStats(0.0, 0.0, 0.0, 0, []), CountAll(BindLevels(rows)))
  {
    var i := 0;
    while i < |rows|
      invariant 0 <= i <= |rows|
      invariant forall k :: 0 <= k < i ==> rows[k].binder.affinity.None?
    {
      if rows[i].binder.affinity.Some? {
        return BindingBlock([], AffinityStats(0.0, 0.0, 0.0, 0, []), CountAll<string>([]));
      }
      i := i + 1;
    }
    b := BindingBlock(rows, AffinityStats(0.0, 0.0, 0.0, 0, []), CountAll(BindLevels(rows)));
  }

  /** Where the source does not raise, its (empty) statistics are those of
      the corrected filter: no row has a positive affinity then. */
  lemma {:induction false} NoAffinityNoData(rows: seq<MergedRow>)
    ensures !AnyAffinity(rows) ==> PositiveAffinities(rows) == []
  {
    if rows != [] && !AnyAffinity(rows) {
      var init := rows[..|rows| - 1];
      assert !AnyAffinity(init) by {
        forall i | 0 <= i < |init| ensures init[i].binder.affinity.None? {
          assert init[i] == rows[i];
        }
      }
      NoAffinityNoData(init);
      assert rows[|rows| - 1].binder.affinity.None?;
    }
  }

  /** One row with an affinity of 50 nM: the corrected report lists it and
      counts its binding level; as written, `AnyAffinity` holds, so the
      report keeps no binding data, no affinity and no level. */
  lemma OneAffinityRow(row: MergedRow)
    requires row.binder.affinity == Some(50.0)
    ensures AnyAffinity([row])
    ensures PositiveAffinities([row]) == [50.0]
    ensures CountOf(CountAll(BindLevels([row])), row.binder.bindLevel) == 1
    ensures CountOf(CountAll<string>([]), row.binder.bindLevel) == 0
  {
  }

  /** The `mimic_BindLevel` column of the rows. */
  lemma BindingLevelsSpec(rows: seq<MergedRow>, level: string)
    ensures CountOf(CountAll(BindLevels(rows)), level) == multiset(BindLevels(rows))[level]
    ensures Tallies.Total(CountAll(BindLevels(rows))) == |rows|
  {
    CountAllCounts(BindLevels(rows), level);
    CountAllTotal(BindLevels(rows));
  }

  // ---------------------------------------------------------------------
  // The whole report.

  datatype CancerData = CancerData(
    cancerAcc: string, cancerDb: string,
    mimicGenes: seq<string>, mhcAlleles: seq<string>,
    pfamDomains: seq<DomainRow>, kofamDomains: seq<DomainRow>,
    pfamEnrichment: seq<CancerEntry>,
    bindingData: seq<MergedRow>,
    affinityStats: AffinityStats,
    bindingLevels: Tally<string>,
    pfamDomainCount: nat, kofamDomainCount: nat)

  /** The records of a ledger against the global counts, before ranking. */
  function RatedOf(l: Ledger, global: Tally<string>): seq<CancerEntry>
    requires LedgerWellFormed(l)
  {
    CancerEntries(l.keys, l.entries, global, SumCounts(l.keys, l.entries, false), Tallies.Total(global))
  }

  /** Equal counts in ranked ledger rows keep the ledger's order. */
  ghost predicate TiesKept(rows: seq<DomainRow>, l: Ledger) {
    forall a, b :: 0 <= a < b < |rows| && rows[a].tally.count == rows[b].tally.count ==>
      Precedes(l.keys, rows[a].domain, rows[b].domain)
  }

  /** Equal enrichments in ranked records keep the records' order. */
  ghost predicate EnrichmentTiesKept(rated: seq<CancerEntry>, entries: seq<CancerEntry>) {
    forall a, b :: 0 <= a < b < |rated| && rated[a].enrichment == rated[b].enrichment ==>
      Precedes(entries, rated[a], rated[b])
  }

  /** The ledgers and the enrichment of one accession's genes. */
  method DomainsOf(genes: seq<string>, allGenes: seq<string>, maps: HitMaps)
    returns (pfamRows: seq<DomainRow>, kofamRows: seq<DomainRow>, rated: seq<CancerEntry>,
             pfamCount: nat, kofamCount: nat)
    ensures var pfam := LedgerOf(EventsOf(genes, maps.pfam, maps.pfamMeta));
            var kofam := LedgerOf(EventsOf(genes, maps.kofam, maps.kofamMeta));
            var global := CountAll(Names(TraceOf(allGenes, maps.pfam)));
            LedgerWellFormed(pfam) && LedgerWellFormed(kofam) &&
            pfamCount == |pfam.keys| && kofamCount == |kofam.keys| &&
            multiset(pfamRows) == multiset(LedgerRows(pfam)) && SortedBy(pfamRows, ByCount()) &&
            multiset(kofamRows) == multiset(LedgerRows(kofam)) && SortedBy(kofamRows, ByCount()) &&
            multiset(rated) == multiset(RatedOf(pfam, global)) &&
            SortedBy(rated, ByCancerEnrichment())
    ensures var pfam := LedgerOf(EventsOf(genes, maps.pfam, maps.pfamMeta));
            var kofam := LedgerOf(EventsOf(genes, maps.kofam, maps.kofamMeta));
            var global := CountAll(Names(TraceOf(allGenes, maps.pfam)));
            TiesKept(pfamRows, pfam) && TiesKept(kofamRows, kofam) &&
            EnrichmentTiesKept(rated, RatedOf(pfam, global))
  {
    var pfam, kofam := CountDomains(genes, maps);
    LedgerShape(EventsOf(genes, maps.pfam, maps.pfamMeta));
    LedgerShape(EventsOf(genes, maps.kofam, maps.kofamMeta));
    var global := GlobalDomainFrequencies(allGenes, Some(maps));
    var cancerTotal := SumCounts(pfam.keys, pfam.entries, false);
    var globalTotal := Tallies.Total(global.pfamBetterBinders);
    rated := RateDomains(pfam, global.pfamBetterBinders, cancerTotal, globalTotal);
    pfamRows := RankDomains(pfam);
    kofamRows := RankDomains(kofam);
    pfamCount, kofamCount := |pfam.keys|, |kofam.keys|;
  }

  /** The report over an accession's rows, as lines 1692-2034 build it,
      with the affinity filter of line 1844 corrected. */
  ghost predicate Reports(d: CancerData, rows: seq<MergedRow>, allGenes: seq<string>, acc: string, maps: HitMaps)
    requires rows != []
  {
    var global := CountAll(Names(TraceOf(allGenes, maps.pfam)));
    var pfam := LedgerOf(EventsOf(d.mimicGenes, maps.pfam, maps.pfamMeta));
    var kofam := LedgerOf(EventsOf(d.mimicGenes, maps.kofam, maps.kofamMeta));
    d.cancerAcc == acc && d.cancerDb == rows[0].binder.cancerDb &&
    d.bindingData == rows &&
    d.mimicGenes == Unique(Genes(rows)) && d.mhcAlleles == Unique(Mhcs(rows)) &&
    d.bindingLevels == CountAll(BindLevels(rows)) &&
    d.affinityStats.data == PositiveAffinities(rows) && Summarises(d.affinityStats) &&
    LedgerWellFormed(pfam) && LedgerWellFormed(kofam) &&
    d.pfamDomainCount == |pfam.keys| && d.kofamDomainCount == |kofam.keys| &&
    multiset(d.pfamDomains) == multiset(LedgerRows(pfam)) && SortedBy(d.pfamDomains, ByCount()) &&
    multiset(d.kofamDomains) == multiset(LedgerRows(kofam)) && SortedBy(d.kofamDomains, ByCount()) &&
    multiset(d.pfamEnrichment) == multiset(RatedOf(pfam, global)) &&
    SortedBy(d.pfamEnrichment, ByCancerEnrichment()) &&
    TiesKept(d.pfamDomains, pfam) && TiesKept(d.kofamDomains, kofam) &&
    EnrichmentTiesKept(d.pfamEnrichment, RatedOf(pfam, global))
  }

  method Report(rows: seq<MergedRow>, allGenes: seq<string>, maps: HitMaps, acc: string) returns (d: CancerData)
    requires rows != []
    ensures Reports(d, rows, allGenes, acc, maps)
  {
    var genes := Unique(Genes(rows));
    var pfamRows, kofamRows, rated, pfamCount, kofamCount := DomainsOf(genes, allGenes, maps);
    var stats := Affinities(rows);
    d := CancerData(acc, rows[0].binder.cancerDb, genes, Unique(Mhcs(rows)), pfamRows, kofamRows, rated,
                    rows, stats, CountAll(BindLevels(rows)), pfamCount, kofamCount);
  }

  /** `get_cancer_data`: an error before the merge, nothing for an unknown
      accession, and otherwise the report over the accession's rows; the
      global frequencies are those of all merged genes. */
  method GetCancerData(merged: Option<seq<MergedRow>>, maps: HitMaps, acc: string) returns (r: Result<Option<CancerData>>)
    ensures merged.None? ==> r == Err("Merged data not created. Call merge_data() first.")
    ensures merged.Some? && RowsFor(merged.value, acc) == [] ==> r == Ok(None)
    ensures merged.Some? && RowsFor(merged.value, acc) != [] ==>
              r.Ok? && r.value.Some? && Reports(r.value.value, RowsFor(merged.value, acc), Unique(Genes(merged.value)), acc, maps)
  {
    if merged.None? {
      return Err("Merged data not created. Call merge_data() first.");
    }
    var rows := RowsFor(merged.value, acc);
    if rows == [] {
      return Ok(None);
    }
    var d := Report(rows, Unique(Genes(merged.value)), maps, acc);
    r := Ok(Some(d));
  }
}
