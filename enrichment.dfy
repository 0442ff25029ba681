/**
  Domain enrichment: `_calculate_domain_enrichment`, which sorts the
  domains of a target set into enriched, depleted and exclusive against a
  background, and `get_domain_enrichment_data`, which compares the better
  binders with the rest of the metagenome and tags every entry with its
  kind and status.
 */
module Enrichment {
  import opened Wrappers
  import opened PyBuiltins
  import opened Sorting
  import opened Tallies
  import opened Hmm
  import opened Records
  import opened DomainFrequencies

  /** The `enrichment` value: a finite fold change, or `float('inf')` for
      a domain absent from the background. */
  datatype Fold = Times(x: real) | Unbounded

  /** One enrichment record; `genes` is the domain's gene set when the
      details name the domain (`gene_count` is its size). */
  datatype Entry = Entry(domain: string, targetCount: nat, backgroundCount: nat,
                         targetFraction: real, backgroundFraction: real, enrichment: Fold,
                         genes: Option<set<string>>)

  /** The list an entry goes to, which is also its `status` tag. */
  datatype Status = Enriched | Depleted | Exclusive

  function StatusOf(e: Entry): Status {
    match e.enrichment
    case Unbounded => Exclusive
    case Times(x) => if x >= 1.0 then Enriched else Depleted
  }

  /** The record built for one target domain (lines 2328-2375). */
  function EntryFor(domain: string, count: nat, targetTotal: nat, background: Tally<string>, backgroundTotal: nat,
                    details: map<string, Detail>): (e: Entry)
    requires targetTotal > 0 && backgroundTotal > 0
    ensures e.domain == domain && e.targetCount == count && e.backgroundCount == CountOf(background, domain)
    ensures e.genes == if domain in details then Some(details[domain].genes) else None
  {
    var b := CountOf(background, domain);
    var genes := if domain in details then Some(details[domain].genes) else None;
    var tf := count as real / targetTotal as real;
    if b > 0 then
      var bf := b as real / backgroundTotal as real;
      Entry(domain, count, b, tf, bf, Times(tf / bf), genes)
    else
      Entry(domain, count, 0, tf, 0.0, Unbounded, genes)
  }

  /** The records of the loop over `target_counts.items()`, domains with a
      zero count skipped. */
  function Entries(keys: seq<string>, target: Tally<string>, targetTotal: nat, background: Tally<string>,
                   backgroundTotal: nat, details: map<string, Detail>): seq<Entry>
    requires targetTotal > 0 && backgroundTotal > 0
  {
    if keys == [] then []
    else
      var k := keys[|keys| - 1];
      var init := Entries(keys[..|keys| - 1], target, targetTotal, background, backgroundTotal, details);
      if CountOf(target, k) == 0 then init
      else init + [EntryFor(k, CountOf(target, k), targetTotal, background, backgroundTotal, details)]
  }

  /** The entries of one status, in order. */
  function WithStatus(es: seq<Entry>, s: Status): (r: seq<Entry>)
    ensures forall e :: e in r ==> e in es && StatusOf(e) == s
  {
    if es == [] then []
    else
      var init := WithStatus(es[..|es| - 1], s);
      var e := es[|es| - 1];
      if StatusOf(e) == s then init + [e] else init
  }

  /** The fold change a list is ranked by; exclusive records, which are
      ranked by count instead, do not use it. */
  function FoldKey(e: Entry): real {
    match e.enrichment
    case Times(x) => x
    case Unbounded => 0.0
  }

  function ByEnrichmentDesc(): (Entry, Entry) -> bool {
    DescendingReal(FoldKey)
  }

  function ByEnrichmentAsc(): (Entry, Entry) -> bool {
    AscendingReal(FoldKey)
  }

  function ByTargetCountDesc(): (Entry, Entry) -> bool {
    DescendingInt((e: Entry) => e.targetCount)
  }

  // ---------------------------------------------------------------------
  // What the classification means.

  lemma RatioAtLeastOne(c: nat, tt: nat, b: nat, bt: nat)
    requires tt > 0 && bt > 0 && b > 0
    ensures (c as real / tt as real) / (b as real / bt as real) >= 1.0 <==> c * bt >= b * tt
  {
    var tf := c as real / tt as real;
    var bf := b as real / bt as real;
    var p := (tt as real) * (bt as real);
    assert bf > 0.0 && p > 0.0;
    assert tf / bf >= 1.0 <==> tf >= bf by {
      assert (tf / bf) * bf == tf;
    }
    assert tf * (tt as real) == c as real;
    assert bf * (bt as real) == b as real;
    assert tf * p == (c as real) * (bt as real);
    assert bf * p == (b as real) * (tt as real);
    assert (c * bt) as real == (c as real) * (bt as real);
    assert (b * tt) as real == (b as real) * (tt as real);
    assert tf >= bf <==> tf * p >= bf * p;
  }

  /** A counted target domain is exclusive iff the background lacks it,
      and otherwise enriched iff its share of the target is at least its
      share of the background (`count / target_total >=
      background_count / background_total`, cross-multiplied). */
  lemma StatusMeaning(domain: string, count: nat, tt: nat, background: Tally<string>, bt: nat, details: map<string, Detail>)
    requires tt > 0 && bt > 0
    ensures var e := EntryFor(domain, count, tt, background, bt, details);
            var b := CountOf(background, domain);
            (StatusOf(e) == Exclusive <==> b == 0) &&
            (StatusOf(e) == Enriched <==> b > 0 && count * bt >= b * tt) &&
            (StatusOf(e) == Depleted <==> b > 0 && count * bt < b * tt)
  {
    var b := CountOf(background, domain);
    if b > 0 {
      RatioAtLeastOne(count, tt, b, bt);
    }
  }

  /** The records are those of the counted target domains. */
  lemma {:induction false} EntriesSpec(keys: seq<string>, target: Tally<string>, tt: nat, background: Tally<string>,
                                       bt: nat, details: map<string, Detail>, k: string)
    requires tt > 0 && bt > 0
    ensures var es := Entries(keys, target, tt, background, bt, details);
            (forall e :: e in es ==> e.domain in keys && CountOf(target, e.domain) > 0 &&
                                     e == EntryFor(e.domain, CountOf(target, e.domain), tt, background, bt, details)) &&
            (k in keys && CountOf(target, k) > 0 ==> EntryFor(k, CountOf(target, k), tt, background, bt, details) in es)
  {
    if keys != [] {
      var init := keys[..|keys| - 1];
      EntriesSpec(init, target, tt, background, bt, details, k);
      assert keys == init + [keys[|keys| - 1]];
    }
  }

  /** Each entry is in the list of its own status. */
  lemma {:induction false} StatusListed(es: seq<Entry>, e: Entry)
    requires e in es
    ensures e in WithStatus(es, StatusOf(e))
  {
    var init := es[..|es| - 1];
    assert es == init + [es[|es| - 1]];
    if e != es[|es| - 1] {
      StatusListed(init, e);
    }
  }

  /** The three lists split the records: together they hold each record
      as often as the records do. */
  lemma {:induction false} StatusPartition(es: seq<Entry>)
    ensures multiset(es) == multiset(WithStatus(es, Enriched)) + multiset(WithStatus(es, Depleted)) +
                            multiset(WithStatus(es, Exclusive))
  {
    if es != [] {
      var init := es[..|es| - 1];
      StatusPartition(init);
      assert es == init + [es[|es| - 1]];
    }
  }

  /** Exactly one list: a counted target domain appears in the list of its
      status and in no other. */
  lemma ExactlyOneList(keys: seq<string>, target: Tally<string>, tt: nat, background: Tally<string>, bt: nat,
                       details: map<string, Detail>, k: string)
    requires tt > 0 && bt > 0 && k in keys && CountOf(target, k) > 0
    ensures var es := Entries(keys, target, tt, background, bt, details);
            var e := EntryFor(k, CountOf(target, k), tt, background, bt, details);
            e in WithStatus(es, StatusOf(e)) &&
            forall s, x :: s != StatusOf(e) && x in WithStatus(es, s) ==> x.domain != k
  {
    var es := Entries(keys, target, tt, background, bt, details);
    var e := EntryFor(k, CountOf(target, k), tt, background, bt, details);
    EntriesSpec(keys, target, tt, background, bt, details, k);
    StatusListed(es, e);
  }

  // ---------------------------------------------------------------------
  // `_calculate_domain_enrichment`.

  lemma EntriesStep(keys: seq<string>, i: nat, target: Tally<string>, tt: nat, background: Tally<string>, bt: nat,
                    details: map<string, Detail>)
    requires tt > 0 && bt > 0 && i < |keys|
    ensures var before := Entries(keys[..i], target, tt, background, bt, details);
            Entries(keys[..i + 1], target, tt, background, bt, details) ==
              if CountOf(target, keys[i]) == 0 then before
              else before + [EntryFor(keys[i], CountOf(target, keys[i]), tt, background, bt, details)]
  {
    assert keys[..i + 1][..i] == keys[..i];
  }

  lemma WithStatusAppend(es: seq<Entry>, e: Entry, s: Status)
    ensures WithStatus(es + [e], s) == WithStatus(es, s) + if StatusOf(e) == s then [e] else []
  {
    assert (es + [e])[..|es|] == es;
  }

  /** The loop of lines 2322-2378 over the target domains. */
  method ClassifyDomains(target: Tally<string>, tt: nat, background: Tally<string>, bt: nat, details: map<string, Detail>)
    returns (enriched: seq<Entry>, depleted: seq<Entry>, exclusive: seq<Entry>)
    requires tt > 0 && bt > 0
    ensures var es := Entries(target.keys, target, tt, background, bt, details);
            enriched == WithStatus(es, Enriched) && depleted == WithStatus(es, Depleted) &&
            exclusive == WithStatus(es, Exclusive)
  {
    enriched, depleted, exclusive := [], [], [];
    var keys := target.keys;
    var i := 0;
    while i < |keys|
      invariant 0 <= i <= |keys|
      invariant var es := Entries(keys[..i], target, tt, background, bt, details);
                enriched == WithStatus(es, Enriched) && depleted == WithStatus(es, Depleted) &&
                exclusive == WithStatus(es, Exclusive)
    {
      var domain := keys[i];
      var count := CountOf(target, domain);
      EntriesStep(keys, i, target, tt, background, bt, details);
      if count != 0 {
        var e := EntryFor(domain, count, tt, background, bt, details);
        var es := Entries(keys[..i], target, tt, background, bt, details);
        WithStatusAppend(es, e, Enriched);
        WithStatusAppend(es, e, Depleted);
        WithStatusAppend(es, e, Exclusive);
        match e.enrichment
        case Unbounded =>
          exclusive := exclusive + [e];
        case Times(x) =>
          if x >= 1.0 {
            enriched := enriched + [e];
          } else {
            depleted := depleted + [e];
          }
      }
      i := i + 1;
    }
    assert keys[..i] == keys;
  }

  /** `_calculate_domain_enrichment`: three empty lists when either total
      is 0; otherwise the records of each status, enriched ranked by fold
      change descending, depleted ascending, exclusive by target count
      descending. */
  method CalculateDomainEnrichment(target: Tally<string>, tt: nat, background: Tally<string>, bt: nat,
                                   details: map<string, Detail>)
    returns (enriched: seq<Entry>, depleted: seq<Entry>, exclusive: seq<Entry>)
    ensures tt == 0 || bt == 0 ==> enriched == [] && depleted == [] && exclusive == []
    ensures tt > 0 && bt > 0 ==>
              var es := Entries(target.keys, target, tt, background, bt, details);
              multiset(enriched) == multiset(WithStatus(es, Enriched)) &&
              multiset(depleted) == multiset(WithStatus(es, Depleted)) &&
              multiset(exclusive) == multiset(WithStatus(es, Exclusive))
    ensures SortedBy(enriched, ByEnrichmentDesc())
    ensures SortedBy(depleted, ByEnrichmentAsc())
    ensures SortedBy(exclusive, ByTargetCountDesc())
  {
    if tt == 0 || bt == 0 {
      return [], [], [];
    }
    var e0, d0, x0 := ClassifyDomains(target, tt, background, bt, details);
    KeyOrders((e: Entry) => e.targetCount, FoldKey);
    enriched := SortBy(e0, ByEnrichmentDesc());
    depleted := SortBy(d0, ByEnrichmentAsc());
    exclusive := SortBy(x0, ByTargetCountDesc());
  }

  /** Every member of a permutation of one status list has that status. */
  lemma SameStatus(sorted: seq<Entry>, es: seq<Entry>, s: Status)
    requires multiset(sorted) == multiset(WithStatus(es, s))
    ensures forall e :: e in sorted ==> StatusOf(e) == s
  {
    forall e | e in sorted ensures StatusOf(e) == s {
      assert e in multiset(WithStatus(es, s));
    }
  }

  // ---------------------------------------------------------------------
  // `get_domain_enrichment_data`.

  /** An entry of `all_enrichment_data`: a record with its `domain_type`
      ("PFAM" or "KOFAM") and `status`. */
  datatype Tagged = Tagged(entry: Entry, domainType: string, status: Status)

  function Tag(es: seq<Entry>, domainType: string, s: Status): (r: seq<Tagged>)
    ensures |r| == |es|
    ensures forall i :: 0 <= i < |es| ==> r[i] == Tagged(es[i], domainType, s)
  {
    seq(|es|, i requires 0 <= i < |es| => Tagged(es[i], domainType, s))
  }

  /** The `statistics` of one kind of domain. */
  datatype KindStats = KindStats(binderUnique: nat, binderTotal: nat, metagenomeUnique: nat, metagenomeTotal: nat,
                                 enriched: nat, depleted: nat, exclusive: nat)

  datatype EnrichmentReport = EnrichmentReport(
    pfamEnrichment: seq<Entry>, kofamEnrichment: seq<Entry>,
    pfamDepletion: seq<Entry>, kofamDepletion: seq<Entry>,
    pfamExclusive: seq<Entry>, kofamExclusive: seq<Entry>,
    pfamDomains: seq<DomainDetail>, kofamDomains: seq<DomainDetail>,
    allEnrichmentData: seq<Tagged>,
    betterBinderCount: nat, metagenomeCount: nat, totalSequenceCount: nat,
    pfamStats: KindStats, kofamStats: KindStats)

  /** The members of a set of ids, in some order (Python's set iteration). */
  method Enumerate(s: set<string>) returns (r: seq<string>)
    ensures Distinct(r) && |r| == |s|
    ensures forall x :: x in r <==> x in s
  {
    r := [];
    var rest := s;
    while rest != {}
      invariant rest <= s && |r| + |rest| == |s|
      invariant Distinct(r)
      invariant forall x :: x in r <==> x in s && x !in rest
      decreases |rest|
    {
      var x :| x in rest;
      r := r + [x];
      rest := rest - {x};
    }
  }

  /** The three lists and the `statistics` entry of one kind: what
      `_calculate_domain_enrichment` gives for the better binders'
      frequencies against the background's, and the sizes they report. */
  ghost predicate Compared(binder: Frequencies, background: Frequencies, enriched: seq<Entry>, depleted: seq<Entry>,
                     exclusive: seq<Entry>, stats: KindStats)
  {
    stats == KindStats(|binder.counts.keys|, binder.total, |background.counts.keys|, background.total,
                       |enriched|, |depleted|, |exclusive|) &&
    (binder.total == 0 || background.total == 0 ==> enriched == [] && depleted == [] && exclusive == []) &&
    (binder.total > 0 && background.total > 0 ==>
       var es := Entries(binder.counts.keys, binder.counts, binder.total, background.counts, background.total,
                         binder.details);
       multiset(enriched) == multiset(WithStatus(es, Enriched)) &&
       multiset(depleted) == multiset(WithStatus(es, Depleted)) &&
       multiset(exclusive) == multiset(WithStatus(es, Exclusive))) &&
    SortedBy(enriched, ByEnrichmentDesc()) && SortedBy(depleted, ByEnrichmentAsc()) &&
    SortedBy(exclusive, ByTargetCountDesc())
  }

  /** Enrichment, depletion and exclusivity of one kind of domain, with
      the statistics about them. */
  method CompareKind(binder: Frequencies, background: Frequencies)
    returns (enriched: seq<Entry>, depleted: seq<Entry>, exclusive: seq<Entry>, stats: KindStats)
    ensures Compared(binder, background, enriched, depleted, exclusive, stats)
    ensures forall e :: e in enriched ==> StatusOf(e) == Enriched
    ensures forall e :: e in depleted ==> StatusOf(e) == Depleted
    ensures forall e :: e in exclusive ==> StatusOf(e) == Exclusive
  {
    enriched, depleted, exclusive := CalculateDomainEnrichment(binder.counts, binder.total, background.counts,
                                                               background.total, binder.details);
    if binder.total > 0 && background.total > 0 {
      var es := Entries(binder.counts.keys, binder.counts, binder.total, background.counts, background.total,
                        binder.details);
      SameStatus(enriched, es, Enriched);
      SameStatus(depleted, es, Depleted);
      SameStatus(exclusive, es, Exclusive);
    }
    stats := KindStats(|binder.counts.keys|, binder.total, |background.counts.keys|, background.total,
                       |enriched|, |depleted|, |exclusive|);
  }

  /** `_prepare_domain_details` of one kind's frequencies: one row per
      counted domain, ranked by its number of distinct genes. */
  ghost predicate Detailed(f: Frequencies, rows: seq<DomainDetail>) {
    |rows| == |f.counts.keys| &&
    SortedBy(rows, ByGeneCount()) &&
    (forall k :: k in f.counts.keys ==> k in f.details) &&
    multiset(rows) == multiset(DetailRows(f.counts.keys, f.details))
  }

  /** The detail rows of one kind for the better binders. */
  method DetailsOf(f: Frequencies, ghost t: Trace) returns (rows: seq<DomainDetail>)
    requires f == Describe(t)
    ensures Detailed(f, rows)
    ensures forall i :: 0 <= i < |rows| ==>
              rows[i].domain in f.counts.count && rows[i].domain in f.details &&
              rows[i] == DetailRow(rows[i].domain, f.details[rows[i].domain])
  {
    DescribeSpec(t, "");
    rows := PrepareDomainDetails(f.counts.keys, f.details);
  }

  /** One kind of domain, stated on the sequences and maps it comes from:
      the frequencies of `binderIds` in `binderMap` compared with those of
      `others` in `backgroundMap`, and the binders' detail rows. */
  ghost predicate KindReported(binderIds: seq<string>, binderMap: DomainMap, others: seq<string>,
                               backgroundMap: DomainMap, enriched: seq<Entry>, depleted: seq<Entry>,
                               exclusive: seq<Entry>, stats: KindStats, domains: seq<DomainDetail>)
  {
    var binder := Describe(TraceOf(binderIds, binderMap));
    Compared(binder, Describe(TraceOf(others, backgroundMap)), enriched, depleted, exclusive, stats) &&
    Detailed(binder, domains)
  }

  /** One kind of domain: the better binders' frequencies against the
      background's, classified, and the binders' detail rows. */
  method EnrichKind(binder: Frequencies, background: Frequencies, ghost binderIds: seq<string>,
                    ghost binderMap: DomainMap, ghost others: seq<string>, ghost backgroundMap: DomainMap)
    returns (enriched: seq<Entry>, depleted: seq<Entry>, exclusive: seq<Entry>, stats: KindStats,
             domains: seq<DomainDetail>)
    requires binder == Describe(TraceOf(binderIds, binderMap))
    requires background == Describe(TraceOf(others, backgroundMap))
    ensures KindReported(binderIds, binderMap, others, backgroundMap, enriched, depleted, exclusive, stats, domains)
    ensures forall e :: e in enriched ==> StatusOf(e) == Enriched
    ensures forall e :: e in depleted ==> StatusOf(e) == Depleted
    ensures forall e :: e in exclusive ==> StatusOf(e) == Exclusive
  {
    enriched, depleted, exclusive, stats := CompareKind(binder, background);
    domains := DetailsOf(binder, TraceOf(binderIds, binderMap));
  }

  /** The whole report for merged rows `rows`: the better binders are the
      distinct genes of the rows; the background is `others`, the
      metagenome sequences (those of either metagenome map) that are not
      better binders, in the order the set is visited. */
  ghost predicate Reported(rep: EnrichmentReport, rows: seq<MergedRow>, maps: HitMaps, others: seq<string>) {
    Distinct(others) &&
    (forall x :: x in others <==> (x in maps.pfamMeta || x in maps.kofamMeta) && x !in Genes(rows)) &&
    rep.betterBinderCount == |set g | g in Genes(rows)| &&
    rep.totalSequenceCount == |maps.pfamMeta.Keys + maps.kofamMeta.Keys| &&
    rep.metagenomeCount == |others| &&
    KindReported(Unique(Genes(rows)), maps.pfam, others, maps.pfamMeta,
                 rep.pfamEnrichment, rep.pfamDepletion, rep.pfamExclusive, rep.pfamStats, rep.pfamDomains) &&
    KindReported(Unique(Genes(rows)), maps.kofam, others, maps.kofamMeta,
                 rep.kofamEnrichment, rep.kofamDepletion, rep.kofamExclusive, rep.kofamStats, rep.kofamDomains) &&
    rep.allEnrichmentData ==
      Tag(rep.pfamEnrichment, "PFAM", Enriched) + Tag(rep.pfamDepletion, "PFAM", Depleted) +
      Tag(rep.pfamExclusive, "PFAM", Exclusive) + Tag(rep.kofamEnrichment, "KOFAM", Enriched) +
      Tag(rep.kofamDepletion, "KOFAM", Depleted) + Tag(rep.kofamExclusive, "KOFAM", Exclusive)
  }

  /** The better binders (the distinct genes of the merged rows, in order
      of first appearance) and the background: the metagenome sequences
      that are not better binders, in the order the set is visited. */
  method Population(rows: seq<MergedRow>, maps: HitMaps) returns (binderIds: seq<string>, others: seq<string>)
    ensures binderIds == Unique(Genes(rows))
    ensures |binderIds| == |set g | g in Genes(rows)|
    ensures Distinct(others)
    ensures forall x :: x in others <==> (x in maps.pfamMeta || x in maps.kofamMeta) && x !in Genes(rows)
  {
    binderIds := Unique(Genes(rows));
    UniqueMembers(Genes(rows));
    var binderSet := set g | g in binderIds;
    assert binderSet == set g | g in Genes(rows);
    DistinctCard(binderIds);
    others := Enumerate(maps.pfamMeta.Keys + maps.kofamMeta.Keys - binderSet);
  }

  /** `get_domain_enrichment_data`: an error before the merge; otherwise
      the better binders' domains against those of the metagenome
      sequences that are not better binders, per kind, with every record
      tagged by its kind and the list it is in. `maps` are the four maps
      `process_hmm_hits` built, which `merge_data` guarantees exist. */
  method GetDomainEnrichmentData(merged: Option<seq<MergedRow>>, maps: HitMaps)
    returns (r: Result<EnrichmentReport>, ghost others: seq<string>)
    ensures merged.None? ==> r == Err("Merged data not created. Call merge_data() first.")
    ensures merged.Some? ==> r.Ok? && Reported(r.value, merged.value, maps, others)
    ensures merged.Some? ==>
              forall t :: t in r.value.allEnrichmentData ==>
                t.status == StatusOf(t.entry) && (t.domainType == "PFAM" || t.domainType == "KOFAM")
  {
    if merged.None? {
      return Err("Merged data not created. Call merge_data() first."), [];
    }
    var rows := merged.value;
    var binderIds, visited := Population(rows, maps);
    others := visited;
    var metagenome := maps.pfamMeta.Keys + maps.kofamMeta.Keys;

    var binderPfam, binderKofam := CalculateDomainFrequencies(binderIds, maps.pfam, maps.kofam);
    var metaPfam, metaKofam := CalculateDomainFrequencies(visited, maps.pfamMeta, maps.kofamMeta);

    var pe, pd, px, pstats, pfamDomains := EnrichKind(binderPfam, metaPfam, binderIds, maps.pfam, visited,
                                                      maps.pfamMeta);
    var ke, kd, kx, kstats, kofamDomains := EnrichKind(binderKofam, metaKofam, binderIds, maps.kofam, visited,
                                                      maps.kofamMeta);

    var all := Tag(pe, "PFAM", Enriched) + Tag(pd, "PFAM", Depleted) + Tag(px, "PFAM", Exclusive) +
               Tag(ke, "KOFAM", Enriched) + Tag(kd, "KOFAM", Depleted) + Tag(kx, "KOFAM", Exclusive);
    TagsAgree(pe, pd, px, "PFAM");
    TagsAgree(ke, kd, kx, "KOFAM");
    var rep := EnrichmentReport(pe, ke, pd, kd, px, kx, pfamDomains, kofamDomains, all,
                                |binderIds|, |visited|, |metagenome|, pstats, kstats);
    r := Ok(rep);
  }

  lemma TagsAgree(e: seq<Entry>, d: seq<Entry>, x: seq<Entry>, kind: string)
    requires forall v :: v in e ==> StatusOf(v) == Enriched
    requires forall v :: v in d ==> StatusOf(v) == Depleted
    requires forall v :: v in x ==> StatusOf(v) == Exclusive
    ensures forall t :: t in Tag(e, kind, Enriched) + Tag(d, kind, Depleted) + Tag(x, kind, Exclusive) ==>
              t.status == StatusOf(t.entry) && t.domainType == kind
  {
    forall t | t in Tag(e, kind, Enriched) + Tag(d, kind, Depleted) + Tag(x, kind, Exclusive)
      ensures t.status == StatusOf(t.entry) && t.domainType == kind
    {
      if t in Tag(e, kind, Enriched) {
        var i :| 0 <= i < |e| && Tag(e, kind, Enriched)[i] == t;
        assert e[i] in e;
      } else if t in Tag(d, kind, Depleted) {
        var i :| 0 <= i < |d| && Tag(d, kind, Depleted)[i] == t;
        assert d[i] in d;
      } else {
        var i :| 0 <= i < |x| && Tag(x, kind, Exclusive)[i] == t;
        assert x[i] in x;
      }
    }
  }
}
