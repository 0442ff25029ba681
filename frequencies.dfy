/**
  Domain frequencies: `_calculate_domain_frequencies` (counts, gene sets
  and scores per domain over a set of sequences), the plain counts of
  `get_global_domain_frequencies`, and the detail rows of
  `_prepare_domain_details`.

  Every count is specified over the trace of (sequence id, hit) pairs
  the loops visit: the hits of each sequence in list order, the
  sequences in iteration order.
 */
module DomainFrequencies {
  import opened Wrappers
  import opened PyBuiltins
  import opened Sorting
  import opened Tallies
  import opened Hmm
  import opened Records

  /** The details kept for one domain: the genes it was found on, and the
      bitscore and e-value of each occurrence, in visiting order. */
  datatype Detail = Detail(genes: set<string>, bitscores: seq<real>, eValues: seq<real>)

  /** What `_calculate_domain_frequencies` builds for one kind of map:
      `*_counts`, `*_details` and `total_*`. */
  datatype Frequencies = Frequencies(counts: Tally<string>, details: map<string, Detail>, total: nat)

  type Trace = seq<(string, Hit)>

  /** The hits of one sequence, each paired with the sequence id. */
  function Pairs(id: string, hits: seq<Hit>): (r: Trace)
    ensures |r| == |hits|
    ensures forall k :: 0 <= k < |hits| ==> r[k] == (id, hits[k])
  {
    seq(|hits|, k requires 0 <= k < |hits| => (id, hits[k]))
  }

  /** Every (sequence, hit) pair the loops visit, in order; a sequence
      missing from the map contributes nothing. */
  function TraceOf(ids: seq<string>, m: DomainMap): Trace {
    if ids == [] then [] else TraceOf(ids[..|ids| - 1], m) + Pairs(ids[|ids| - 1], HitsAt(m, ids[|ids| - 1]))
  }

  function Names(t: Trace): (r: seq<string>)
    ensures |r| == |t|
    ensures forall k :: 0 <= k < |t| ==> r[k] == t[k].1.hmmName
  {
    seq(|t|, k requires 0 <= k < |t| => t[k].1.hmmName)
  }

  function GenesOf(t: Trace, name: string): set<string> {
    if t == [] then {}
    else GenesOf(t[..|t| - 1], name) + (if t[|t| - 1].1.hmmName == name then {t[|t| - 1].0} else {})
  }

  function BitscoresOf(t: Trace, name: string): seq<real> {
    if t == [] then []
    else BitscoresOf(t[..|t| - 1], name) + (if t[|t| - 1].1.hmmName == name then [t[|t| - 1].1.bitscore] else [])
  }

  function EValuesOf(t: Trace, name: string): seq<real> {
    if t == [] then []
    else EValuesOf(t[..|t| - 1], name) + (if t[|t| - 1].1.hmmName == name then [t[|t| - 1].1.eValue] else [])
  }

  /** The frequencies of a trace, stated without the loop. */
  function Describe(t: Trace): Frequencies {
    Frequencies(CountAll(Names(t)),
                map name | name in Names(t) :: Detail(GenesOf(t, name), BitscoresOf(t, name), EValuesOf(t, name)),
                |t|)
  }

  /** One iteration of the inner loop (lines 2234-2256): count the hit
      and file its gene and scores under its domain name. */
  function Record(f: Frequencies, id: string, h: Hit): Frequencies {
    var d := if h.hmmName in f.details then f.details[h.hmmName] else Detail({}, [], []);
    Frequencies(Add(f.counts, h.hmmName),
                f.details[h.hmmName := Detail(d.genes + {id}, d.bitscores + [h.bitscore], d.eValues + [h.eValue])],
                f.total + 1)
  }

  lemma Unnamed(t: Trace, name: string)
    requires name !in Names(t)
    ensures GenesOf(t, name) == {} && BitscoresOf(t, name) == [] && EValuesOf(t, name) == []
  {
    if t != [] {
      var init := t[..|t| - 1];
      assert Names(init) == Names(t)[..|t| - 1];
      Unnamed(init, name);
    }
  }

  lemma RecordStep(t: Trace, p: (string, Hit))
    ensures Describe(t + [p]) == Record(Describe(t), p.0, p.1)
  {
    var lhs, rhs := Describe(t + [p]), Record(Describe(t), p.0, p.1);
    NamesStep(t, p);
    forall k | k in lhs.details || k in rhs.details
      ensures k in lhs.details && k in rhs.details && lhs.details[k] == rhs.details[k]
    {
      DetailStep(t, p, k);
    }
    assert lhs.details == rhs.details;
  }

  lemma NamesStep(t: Trace, p: (string, Hit))
    ensures Names(t + [p]) == Names(t) + [p.1.hmmName]
    ensures CountAll(Names(t + [p])) == Add(CountAll(Names(t)), p.1.hmmName)
  {
    var n := Names(t + [p]);
    assert n == Names(t) + [p.1.hmmName];
    assert n[..|n| - 1] == Names(t);
  }

  lemma DetailStep(t: Trace, p: (string, Hit), k: string)
    ensures var lhs, rhs := Describe(t + [p]), Record(Describe(t), p.0, p.1);
            (k in lhs.details <==> k in rhs.details) &&
            (k in lhs.details ==> lhs.details[k] == rhs.details[k])
  {
    if k == p.1.hmmName {
      DetailStepNamed(t, p);
    } else {
      DetailStepOther(t, p, k);
    }
  }

  /** The hit's own domain name: its entry gains the hit. */
  lemma DetailStepNamed(t: Trace, p: (string, Hit))
    ensures var k, lhs, rhs := p.1.hmmName, Describe(t + [p]), Record(Describe(t), p.0, p.1);
            k in lhs.details && k in rhs.details && lhs.details[k] == rhs.details[k]
  {
    var t' := t + [p];
    assert t'[..|t|] == t;
    NamesStep(t, p);
    if p.1.hmmName !in Names(t) {
      Unnamed(t, p.1.hmmName);
    }
  }

  /** Any other domain name: its entry is unchanged. */
  lemma DetailStepOther(t: Trace, p: (string, Hit), k: string)
    requires k != p.1.hmmName
    ensures var lhs, rhs := Describe(t + [p]), Record(Describe(t), p.0, p.1);
            (k in lhs.details <==> k in rhs.details) &&
            (k in lhs.details ==> lhs.details[k] == rhs.details[k])
  {
    var t' := t + [p];
    assert t'[..|t|] == t;
    NamesStep(t, p);
  }

  /** Visiting the hits of one more sequence. */
  lemma TraceStep(ids: seq<string>, m: DomainMap, i: nat)
    requires i < |ids|
    ensures TraceOf(ids[..i + 1], m) == TraceOf(ids[..i], m) + Pairs(ids[i], HitsAt(m, ids[i]))
  {
    assert ids[..i + 1][..i] == ids[..i];
  }

  lemma PairsStep(id: string, hits: seq<Hit>, j: nat)
    requires j < |hits|
    ensures Pairs(id, hits[..j + 1]) == Pairs(id, hits[..j]) + [(id, hits[j])]
  {
  }

  // ---------------------------------------------------------------------
  // What the frequencies mean.

  lemma {:induction false} OccurrenceCount(t: Trace, name: string)
    ensures |BitscoresOf(t, name)| == |EValuesOf(t, name)| == multiset(Names(t))[name]
    ensures |GenesOf(t, name)| <= |BitscoresOf(t, name)|
  {
    if t != [] {
      var init := t[..|t| - 1];
      OccurrenceCount(init, name);
      assert Names(t) == Names(init) + [t[|t| - 1].1.hmmName];
    }
  }

  /** The counters of a trace: the counts are well formed and add up to
      the total, each counted name has details, and a domain's score lists
      are as long as its count while its gene set is no larger. */
  lemma DescribeSpec(t: Trace, name: string)
    ensures var f := Describe(t);
            WellFormed(f.counts) && Tallies.Total(f.counts) == f.total == |t| &&
            f.details.Keys == f.counts.count.Keys &&
            CountOf(f.counts, name) == multiset(Names(t))[name] &&
            (name in f.details ==>
               |f.details[name].bitscores| == |f.details[name].eValues| == CountOf(f.counts, name) &&
               1 <= |f.details[name].genes| <= CountOf(f.counts, name))
  {
    var f := Describe(t);
    CountAllKeys(Names(t));
    CountAllTotal(Names(t));
    CountAllCounts(Names(t), name);
    OccurrenceCount(t, name);
    if name in f.details {
      GenesNonEmpty(t, name);
    }
  }

  lemma {:induction false} GenesNonEmpty(t: Trace, name: string)
    requires name in Names(t)
    ensures GenesOf(t, name) != {}
  {
    var init := t[..|t| - 1];
    assert Names(t) == Names(init) + [t[|t| - 1].1.hmmName];
    if t[|t| - 1].1.hmmName != name {
      GenesNonEmpty(init, name);
    }
  }

  /** The pairs visited are exactly the hits of the listed sequences. */
  lemma {:induction false} TraceMembers(ids: seq<string>, m: DomainMap, id: string, h: Hit)
    ensures (id, h) in TraceOf(ids, m) <==> id in ids && h in HitsAt(m, id)
  {
    if ids != [] {
      var init, last := ids[..|ids| - 1], ids[|ids| - 1];
      TraceMembers(init, m, id, h);
      assert ids == init + [last];
      var p := Pairs(last, HitsAt(m, last));
      assert (id, h) in p <==> id == last && h in HitsAt(m, last);
    }
  }

  /** A gene is listed under a domain iff one of its hits has that name. */
  lemma {:induction false} GenesMeaning(t: Trace, name: string, id: string)
    ensures id in GenesOf(t, name) <==> exists h :: (id, h) in t && h.hmmName == name
  {
    if t != [] {
      var init, last := t[..|t| - 1], t[|t| - 1];
      GenesMeaning(init, name, id);
      assert t == init + [last];
      if last.0 == id && last.1.hmmName == name {
        assert (id, last.1) in t;
      }
    }
  }

  /** For the trace of a set of sequences: the genes of a domain are the
      listed sequences with a hit of that name. */
  lemma DetailGenes(ids: seq<string>, m: DomainMap, name: string, id: string)
    ensures id in GenesOf(TraceOf(ids, m), name) <==>
            id in ids && exists h :: h in HitsAt(m, id) && h.hmmName == name
  {
    GenesMeaning(TraceOf(ids, m), name, id);
    if id in GenesOf(TraceOf(ids, m), name) {
      var h :| (id, h) in TraceOf(ids, m) && h.hmmName == name;
      TraceMembers(ids, m, id, h);
    }
    if id in ids && exists h :: h in HitsAt(m, id) && h.hmmName == name {
      var h :| h in HitsAt(m, id) && h.hmmName == name;
      TraceMembers(ids, m, id, h);
    }
  }

  // ---------------------------------------------------------------------
  // The loops.

  /** The inner loop of lines 2233-2256 over the hits of one sequence. */
  method CountHits(f: Frequencies, ghost t: Trace, id: string, hits: seq<Hit>) returns (f': Frequencies)
    requires f == Describe(t)
    ensures f' == Describe(t + Pairs(id, hits))
  {
    f' := f;
    var j := 0;
    assert t + Pairs(id, hits[..0]) == t;
    while j < |hits|
      invariant 0 <= j <= |hits|
      invariant f' == Describe(t + Pairs(id, hits[..j]))
    {
      PairsStep(id, hits, j);
      RecordStep(t + Pairs(id, hits[..j]), (id, hits[j]));
      assert t + Pairs(id, hits[..j + 1]) == t + Pairs(id, hits[..j]) + [(id, hits[j])];
      f' := Record(f', id, hits[j]);
      j := j + 1;
    }
    assert hits[..j] == hits;
  }

  /** `_calculate_domain_frequencies`: the PFAM and KOFAM frequencies of
      the sequences, visited in the order of `ids` (a set in the source). */
  method CalculateDomainFrequencies(ids: seq<string>, pfamMap: DomainMap, kofamMap: DomainMap)
    returns (pfam: Frequencies, kofam: Frequencies)
    ensures pfam == Describe(TraceOf(ids, pfamMap))
    ensures kofam == Describe(TraceOf(ids, kofamMap))
  {
    pfam := Describe([]);
    kofam := Describe([]);
    var i := 0;
    while i < |ids|
      invariant 0 <= i <= |ids|
      invariant pfam == Describe(TraceOf(ids[..i], pfamMap))
      invariant kofam == Describe(TraceOf(ids[..i], kofamMap))
    {
      TraceStep(ids, pfamMap, i);
      TraceStep(ids, kofamMap, i);
      pfam := CountHits(pfam, TraceOf(ids[..i], pfamMap), ids[i], HitsAt(pfamMap, ids[i]));
      kofam := CountHits(kofam, TraceOf(ids[..i], kofamMap), ids[i], HitsAt(kofamMap, ids[i]));
      i := i + 1;
    }
    assert ids[..i] == ids;
  }

  /** The four counters of `get_global_domain_frequencies`. */
  datatype GlobalFrequencies = GlobalFrequencies(pfamBetterBinders: Tally<string>, pfamMetagenome: Tally<string>,
                                                 kofamBetterBinders: Tally<string>, kofamMetagenome: Tally<string>)

  /** `counter[name] += 1` for each hit of one sequence. */
  method TallyHits(t: Tally<string>, ghost before: Trace, id: string, hits: seq<Hit>) returns (t': Tally<string>)
    requires t == CountAll(Names(before))
    ensures t' == CountAll(Names(before + Pairs(id, hits)))
  {
    t' := t;
    var j := 0;
    assert before + Pairs(id, hits[..0]) == before;
    while j < |hits|
      invariant 0 <= j <= |hits|
      invariant t' == CountAll(Names(before + Pairs(id, hits[..j])))
    {
      TallyStep(before, id, hits, j);
      t' := Add(t', hits[j].hmmName);
      j := j + 1;
    }
    assert hits[..j] == hits;
  }

  lemma TallyStep(before: Trace, id: string, hits: seq<Hit>, j: nat)
    requires j < |hits|
    ensures CountAll(Names(before + Pairs(id, hits[..j + 1]))) ==
            Add(CountAll(Names(before + Pairs(id, hits[..j]))), hits[j].hmmName)
  {
    PairsStep(id, hits, j);
    var u := before + Pairs(id, hits[..j]);
    assert before + Pairs(id, hits[..j + 1]) == u + [(id, hits[j])];
    NamesStep(u, (id, hits[j]));
  }

  /** The genes `get_global_domain_frequencies` counts over: the merged
      table's genes, else the ids of the two binder hit tables without
      duplicates (a set in the source; here in order of appearance). */
  function AllGenes(merged: Option<seq<MergedRow>>, pfamRows: Option<seq<HmmRow>>, kofamRows: Option<seq<HmmRow>>)
    : (genes: seq<string>)
    ensures Distinct(genes)
    ensures merged.Some? ==> genes == Unique(Genes(merged.value))
    ensures merged.None? ==> forall g :: g in genes <==> g in TableIds(pfamRows) || g in TableIds(kofamRows)
  {
    match merged
    case Some(rows) => Unique(Genes(rows))
    case None =>
      var ids := TableIds(pfamRows) + TableIds(kofamRows);
      UniqueMembers(ids);
      Unique(ids)
  }

  function TableIds(rows: Option<seq<HmmRow>>): (r: seq<string>)
    ensures rows.Some? ==> |r| == |rows.value| && forall i :: 0 <= i < |r| ==> r[i] == rows.value[i].sequenceId
    ensures rows.None? ==> r == []
  {
    match rows
    case None => []
    case Some(rs) => seq(|rs|, i requires 0 <= i < |rs| => rs[i].sequenceId)
  }

  /** `get_global_domain_frequencies` over `genes`: each counter counts
      the hit names of its map over those genes; before
      `process_hmm_hits` has built the maps, every counter is empty. */
  method GlobalDomainFrequencies(genes: seq<string>, maps: Option<HitMaps>) returns (g: GlobalFrequencies)
    ensures maps.None? ==> g == GlobalFrequencies(Empty(), Empty(), Empty(), Empty())
    ensures maps.Some? ==>
              g.pfamBetterBinders == CountAll(Names(TraceOf(genes, maps.value.pfam))) &&
              g.kofamBetterBinders == CountAll(Names(TraceOf(genes, maps.value.kofam))) &&
              g.pfamMetagenome == CountAll(Names(TraceOf(genes, maps.value.pfamMeta))) &&
              g.kofamMetagenome == CountAll(Names(TraceOf(genes, maps.value.kofamMeta)))
  {
    g := GlobalFrequencies(Empty(), Empty(), Empty(), Empty());
    if maps.None? {
      return;
    }
    var m := maps.value;
    var i := 0;
    while i < |genes|
      invariant 0 <= i <= |genes|
      invariant g.pfamBetterBinders == CountAll(Names(TraceOf(genes[..i], m.pfam)))
      invariant g.kofamBetterBinders == CountAll(Names(TraceOf(genes[..i], m.kofam)))
      invariant g.pfamMetagenome == CountAll(Names(TraceOf(genes[..i], m.pfamMeta)))
      invariant g.kofamMetagenome == CountAll(Names(TraceOf(genes[..i], m.kofamMeta)))
    {
      var gene := genes[i];
      TraceStep(genes, m.pfam, i);
      TraceStep(genes, m.kofam, i);
      TraceStep(genes, m.pfamMeta, i);
      TraceStep(genes, m.kofamMeta, i);
      var a := TallyHits(g.pfamBetterBinders, TraceOf(genes[..i], m.pfam), gene, HitsAt(m.pfam, gene));
      var b := TallyHits(g.kofamBetterBinders, TraceOf(genes[..i], m.kofam), gene, HitsAt(m.kofam, gene));
      var c := TallyHits(g.pfamMetagenome, TraceOf(genes[..i], m.pfamMeta), gene, HitsAt(m.pfamMeta, gene));
      var d := TallyHits(g.kofamMetagenome, TraceOf(genes[..i], m.kofamMeta), gene, HitsAt(m.kofamMeta, gene));
      g := GlobalFrequencies(a, c, b, d);
      i := i + 1;
    }
    assert genes[..i] == genes;
  }

  /** The global counters agree with the frequencies computed over the
      same genes and map: same counts, and their sum is the number of hits. */
  lemma GlobalAgrees(genes: seq<string>, m: DomainMap)
    ensures CountAll(Names(TraceOf(genes, m))) == Describe(TraceOf(genes, m)).counts
    ensures Tallies.Total(CountAll(Names(TraceOf(genes, m)))) == |TraceOf(genes, m)|
  {
    CountAllTotal(Names(TraceOf(genes, m)));
  }

  // ---------------------------------------------------------------------
  // `_prepare_domain_details`.

  /** A row of `_prepare_domain_details` without its averages. */
  datatype DomainDetail = DomainDetail(domain: string, count: nat, genes: set<string>,
                                       bitscores: seq<real>, eValues: seq<real>)

  function DetailRow(domain: string, d: Detail): (r: DomainDetail)
    ensures r.count == |d.genes|
  {
    DomainDetail(domain, |d.genes|, d.genes, d.bitscores, d.eValues)
  }

  /** One row per domain, in the dictionary's order `keys`. */
  function DetailRows(keys: seq<string>, details: map<string, Detail>): (r: seq<DomainDetail>)
    requires forall k :: k in keys ==> k in details
    ensures |r| == |keys|
    ensures forall i :: 0 <= i < |keys| ==> r[i] == DetailRow(keys[i], details[keys[i]])
  {
    seq(|keys|, i requires 0 <= i < |keys| => DetailRow(keys[i], details[keys[i]]))
  }

  function ByGeneCount(): (DomainDetail, DomainDetail) -> bool {
    DescendingInt((d: DomainDetail) => d.count)
  }

  /** `_prepare_domain_details`: one row per domain, its count being the
      number of distinct genes, ranked by that count. `keys` is the
      dictionary's insertion order. */
  method PrepareDomainDetails(keys: seq<string>, details: map<string, Detail>) returns (rows: seq<DomainDetail>)
    requires Distinct(keys) && details.Keys == set k | k in keys
    ensures |rows| == |keys|
    ensures SortedBy(rows, ByGeneCount())
    ensures multiset(rows) == multiset(DetailRows(keys, details))
    ensures forall i :: 0 <= i < |rows| ==> rows[i].domain in details && rows[i] == DetailRow(rows[i].domain, details[rows[i].domain])
  {
    var unsorted := [];
    var i := 0;
    while i < |keys|
      invariant 0 <= i <= |keys|
      invariant unsorted == DetailRows(keys[..i], details)
    {
      unsorted := unsorted + [DetailRow(keys[i], details[keys[i]])];
      i := i + 1;
    }
    assert keys[..i] == keys;
    KeyOrders((d: DomainDetail) => d.count, (d: DomainDetail) => 0.0);
    rows := SortBy(unsorted, ByGeneCount());
    assert |rows| == |multiset(rows)| == |multiset(unsorted)| == |unsorted|;
    forall i | 0 <= i < |rows| ensures rows[i].domain in details && rows[i] == DetailRow(rows[i].domain, details[rows[i].domain]) {
      assert rows[i] in multiset(unsorted);
    }
  }
}
