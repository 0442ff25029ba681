# Mimic binding-domain explorer, modelled in Dafny

This project models the data layer of a small web service. The service studies
"molecular mimicry" peptides: short peptides of metagenome (microbial) genes
that bind the same MHC molecules as peptides of human cancer genes. The layer
works as follows:

- A **sequence cache** indexes a directory of FASTA files. For each sequence id
  it records the file, the character offset where the residues start and the
  residue count. It reads a sequence back from that location.
- A **processor** does five things:
  - loads the binder table and four HMMER domain-hit tables (PFAM and KOFAM,
    each for the better binders and for the metagenome);
  - turns the hit tables into per-sequence hit lists;
  - raises sequence lengths to the largest domain end seen;
  - merges everything into one table with one row per binder row;
  - answers questions about the merged table: a summary, per-cancer reports,
    domain frequencies and enrichment, related sequences, and which binding
    peptides fall inside which domains.
- The **server** adds four things:
  - the paginated, filterable and sortable table query;
  - the chart summary;
  - a registry of background analysis tasks that clients poll for progress;
  - a status call for those tasks.

Each component is one module. Pure logic is written as functions with lemmas.
Loops are methods with invariants, proved against those functions. The
processor, the cache and the registry of analysis tasks are classes whose methods update
their fields.

| module (file) | models |
|---|---|
| `Wrappers` (wrappers.dfy) | `Option` / `Result` |
| `Text` (text.dfy) | `str.strip`, `split()[0]`, `find`, `join`, `split(sep)`, ASCII `lower` |
| `PyBuiltins` (pybuiltins.dfy) | `//`, `int()` truncation, slicing, `head`, `unique()` |
| `Tallies` (tallies.dfy) | insertion-ordered `dict` counters, `Counter`, `most_common` |
| `Sorting` (sorting.dfy) | `sorted` / `list.sort` with a key |
| `Fasta` (fasta.dfy) | both FASTA readers and the sequence extraction |
| `Sequences` (sequence_cache.dfy) | the `SequenceCache` class |
| `Hmm` (hmm.dfy) | `_process_hmm_data` and the padding step |
| `Records` (records.dfy) | merged rows and `get_data_summary` |
| `Processor` (processor.dfy) | the `MimicDataProcessor` class |
| `Positions` (positions.dfy) | `_calculate_binding_positions` |
| `Intersections` (intersections.dfy) | `analyze_binding_domain_intersections` |
| `DomainFrequencies` (frequencies.dfy) | `_calculate_domain_frequencies`, `get_global_domain_frequencies`, `_prepare_domain_details` |
| `Enrichment` (enrichment.dfy) | `_calculate_domain_enrichment`, `get_domain_enrichment_data` |
| `CancerReport` (cancer.dfy) | `get_cancer_data` |
| `Related` (related.dfy) | `find_related_sequences` |
| `Query` (query.dfy) | the `/api/data` handler |
| `Visualization` (visualization.dfy) | the `/api/visualization_data` handler |
| `Tasks` (tasks.dfy) | the registry of analysis tasks and its two endpoints |

Python floats become exact `real`s. Integers are unbounded, as in Python.
Where the output order follows a `dict`'s insertion order, the model keeps that
order. The stable sorts (`sorted`, `list.sort`, `Counter.most_common`) keep
equal keys in their input order, and the model states that order for ties;
`sort_values` is not stable, so only its sortedness and permutation are
claimed. Where the output order follows a `set`'s iteration order, the model fixes one order and
states its properties so that they hold for any order.

## Model

| member | source | states |
|---|---|---|
| `Text.FirstTokenSpec` | data_processor.py:111-112 | the first whitespace-separated token exists exactly when the header is not all blank, and it is non-empty with no blank in it |
| `Text.FindSpec` | data_processor.py:985-991 | `find` returns the first occurrence of the peptide, and -1 exactly when it does not occur |
| `Text.JoinSplit` | data_processor.py:180 | splitting text at a separator and joining it back gives the text unchanged |
| `Text.SplitJoin` | data_processor.py:580-602 | joining a non-empty list of names with a non-empty separator and splitting again gives the names back when no name contains the separator's first character |
| `Text.FirstTokenStripRight` | data_processor.py:1534-1543 | stripping a header line first does not change its first token |
| `Text.StripLeftAllSpace` | data_processor.py:1534-1537 | stripping empties a line exactly when it is all blank |
| `Text.StripLeftSpec` | data_processor.py:1534 | `lstrip` removes exactly the leading blanks: what remains is a suffix that is empty or starts with a non-blank |
| `Text.StripRightSpec` | data_processor.py:115-117 | `rstrip` removes exactly the trailing blanks: what remains is a prefix that is empty or ends with a non-blank |
| `Text.FindFromSpec` | data_processor.py:989 | searching from `i` finds the first occurrence at or after `i`, or -1 when there is none anywhere |
| `PyBuiltins.FloorDiv` | server.py:134 | Python's `//` rounds towards negative infinity for either sign of the divisor |
| `PyBuiltins.Trunc` | data_processor.py:483-495 | `int()` of a finite float truncates towards zero |
| `PyBuiltins.SliceNatural` | server.py:99 | a slice with non-negative bounds is the plain subsequence, clamped at the end, and empty past it |
| `PyBuiltins.HeadNegative` | server.py:71 | `head(n)` with negative `n` drops the last `-n` rows |
| `PyBuiltins.Unique` | data_processor.py:1705 | `unique()` holds each value of the column exactly once and nothing else |
| `PyBuiltins.UniquePrefix` | data_processor.py:1150-1156 | the unique values of a prefix are a prefix of the unique values, which is what `max_sequences` relies on |
| `Tallies.CountAllKeys` | server.py:229-235 | a `Counter` holds each key once, in order of first appearance |
| `Tallies.CountAllCounts` | server.py:229-235 | each key's count is its number of occurrences |
| `Tallies.CountAllTotal` | server.py:229-235 | the counts add up to the number of items counted |
| `Tallies.AddAllCountAll` | server.py:233 | `update` counts the new items on top of the old ones |
| `Tallies.MostCommon` | server.py:238-239 | `most_common(n)` gives `min(n, keys)` distinct keys with their counts, highest first, equal counts in the order their keys were first counted, no key left out counts more than one that is listed, and one left out with an equal count was counted after it |
| `Tallies.AddSpec` | server.py:233 | adding one item raises its count by one, appends it as a new key when unseen, and leaves every other count alone |
| `Tallies.RankedTop` | server.py:239 | no key outside the top `n` counts more than a key inside it |
| `Sorting.SortBy` | data_processor.py:2381-2387 | sorting by a key gives an ordered permutation of the input, and is stable: two elements out of key order in the output were in that order in the input |
| `Fasta.IndexSingleFile` | data_processor.py:82-128 | the line scan builds exactly the index that the header-by-header definition gives |
| `Fasta.IndexedIff` | data_processor.py:105-112 | an id is indexed exactly when some header carries it as its first token |
| `Fasta.LaterHeaderWins` | data_processor.py:106-108 | a repeated id keeps the record of its last header |
| `Fasta.LastRecordRunsToEnd` | data_processor.py:121-123 | the last record of a file takes every remaining line |
| `Fasta.ResidueCountSplit` | data_processor.py:115-117 | a record's length counts only the stripped characters of its own lines |
| `Fasta.LoadFileLengths` | data_processor.py:1526-1556 | one file's lengths are written over those of the files before it, and they are the header-by-header lengths of that file |
| `Fasta.ReadersAgree` | data_processor.py:1526-1559 | on files whose headers carry a token and have a line after them, the length loader finds exactly the lengths the indexer records |
| `Fasta.BodylessHeaderDiffers` | data_processor.py:1537 | a header with no line after it: the indexer records length 0, the loader records nothing |
| `Fasta.TokenlessHeaderDiffers` | data_processor.py:1543 | a header with no token: the indexer drops its record, the loader files it under the empty id |
| `Fasta.ExtractFrom` | data_processor.py:180-185 | the residues read back are at most `length` long, hold no line break, and lose at most one trailing `*` |
| `Fasta.ExtractAsWritten` | data_processor.py:169-185 | the read as written returns at most `length` residues and no line break |
| `Fasta.ExtractRecord` | data_processor.py:180-185 | a window that starts with a record's lines yields that record's residues, less one stop `*` |
| `Fasta.ExtractIndexedRecord` | data_processor.py:113-117 | round trip: reading back from the recorded offset and length gives the record's residues, less one stop `*` |
| `Fasta.AsWrittenCoversShortRecords` | data_processor.py:173-174 | the window as written reads the record correctly whenever the record's lines fit in `length + length//60 + 10` characters |
| `Fasta.AsWrittenTruncatesNarrowRecords` | data_processor.py:173 | a record of `n >= 12` residues, one per line, comes back with fewer than `n` residues |
| `Sequences.FastaFiles` | data_processor.py:53-54 | the listing keeps exactly the `.faa` and `.fasta` files |
| `Sequences.MergeFileIndex` | data_processor.py:72-74 | one file's entries overwrite the shared index, and the lengths map stays the index's lengths |
| `Sequences.IndexFiles` | data_processor.py:48-79 | the index is each file's index laid over those of the files before it |
| `Sequences.DirectoryIndexSource` | data_processor.py:72-74 | later files win: an id is indexed exactly when some file indexes it, at the last such file's entry |
| `Sequences.SequenceCache.constructor` | data_processor.py:33-46 | the cache is built on its directory with the index and lengths of its FASTA files |
| `Sequences.SequenceCache.GetSequence` | data_processor.py:145-191 | an id that is not indexed gives `""`; otherwise at most the recorded length of residues, no line break |
| `Sequences.SequenceCache.GetSequenceLength` | data_processor.py:193-195 | the recorded residue count, 0 for an unknown id, and never less than what `get_sequence` returns |
| `Sequences.SequenceCache.GetSequencesBatch` | data_processor.py:197-226 | exactly the requested ids that are indexed, each with its sequence |
| `Sequences.GetSequenceRoundTrip` | data_processor.py:145-187 | in a directory of well-ended files with distinct names, an indexed id gives back the residues of its last record in the last file that has it |
| `Sequences.IndexedLocation` | data_processor.py:72-74 | the stored location of an id is its last header's entry in the last file that indexes it |
| `Sequences.ReadSequence` | data_processor.py:145-191 | "" for an id that is not indexed; otherwise at most the recorded length of residues, no line break |
| `Sequences.IndexedRecord` | data_processor.py:113-117 | the sequence read for an indexed id is the record of its last header in the last file that indexes it |
| `Sequences.IndexEntryIsRecord` | data_processor.py:105-123 | an id is in a file's index exactly when some header carries it, and its entry is that of the last such header |
| `Hmm.ParseWrittenHits` | data_processor.py:463-508 | a table written from one sequence's hits, numbers as numbers, parses back to exactly those hits in order |
| `Hmm.ParseWritten` | data_processor.py:469-495 | a hit written as a row of numbers parses back to itself: whole positions survive `int()` |
| `Hmm.AppendHitsSpec` | data_processor.py:463-508 | each id's list is its old list followed by one hit per row of that id, in row order, and only the rows' ids are added |
| `Hmm.HitsCount` | data_processor.py:463-508 | an id has exactly as many hits as rows |
| `Hmm.RowHitRecorded` | data_processor.py:502-508 | every row's hit lands in its own sequence's list |
| `Hmm.EndPositionsSpec` | data_processor.py:497-500 | the end recorded for a sequence is the largest `env_to` of its rows |
| `Hmm.CollectHits` | data_processor.py:463-508 | the row loop appends every hit and, for metagenome tables, tracks the largest end per sequence |
| `Hmm.RaiseToMonotone` | data_processor.py:519-524 | raising never lowers a length, never loses a sequence, and covers every end |
| `Hmm.RaiseLengths` | data_processor.py:519-524 | the loop folds the end positions into the lengths, keeping the larger value |
| `Hmm.PadGenes` | data_processor.py:427-437 | every binder gene gets an empty list if it has none; existing lists are untouched |
| `Records.MergeRows` | data_processor.py:526-620 | one merged row per binder row, in order, each carrying its binder row |
| `Records.AnnotationNames` | data_processor.py:560-602 | the names column reads back as the hit names in order, as many as the count column says |
| `Records.SummarySpec` | data_processor.py:692-780 | the three distinct counts are the numbers of distinct genes, alleles and accessions among the rows; binding levels count their rows and add up to it; the domain and length counts are the numbers of rows with a positive PFAM count, KOFAM count and length; the length range is the least and greatest positive length, each some row's, or 0..0 |
| `PyBuiltins.UniqueCount` | data_processor.py:699-701 | `nunique()` is the number of distinct values of the column |
| `Records.WithDomainsCount` | data_processor.py:713-729 | `(count > 0).sum()` is the number of rows with a positive count |
| `Records.PositiveLengthsCount` | data_processor.py:748-752 | one positive length is listed per row with a positive length |
| `Records.MinMaxSpec` | data_processor.py:740-760 | the minimum and maximum are members of the list and bound all of it |
| `Processor.DirLengthsSource` | data_processor.py:1507-1560 | an id has a length exactly when some file gives it one, and the last such file's length wins |
| `Processor.PadKeepsLookups` | data_processor.py:427-437 | padding adds keys but never changes what a lookup gives |
| `Processor.HitMapsMeaning` | data_processor.py:405-444 | each map gives every id the hits of its table's rows, and every binder gene is a key of all four maps |
| `Processor.MergedHits` | data_processor.py:545-607 | after `process_hmm_hits` and `merge_data`, each merged row's four domain columns hold exactly the hits of that table's rows for the row's gene, in table order, with their number |
| `Processor.RaisedLengthsGrow` | data_processor.py:519-524 | no length goes down, and every metagenome hit's end is covered |
| `Processor.ProcessAll` | data_processor.py:405-444 | the four maps are built, the metagenome ends raise the lengths, and the binder genes are padded |
| `Processor.CollectLengths` | data_processor.py:1512-1559 | the file loop gathers exactly the lengths of the listed files, later files overwriting earlier ones |
| `Processor.ProcessTable` | data_processor.py:446-524 | one table gives exactly its hit map, and its end positions only when it is a metagenome table |
| `Processor.PadMap` | data_processor.py:427-437 | one map is padded with every binder gene it lacks |
| `Processor.RaiseFor` | data_processor.py:519-524 | the lengths are raised by one table's end positions |
| `Processor.MimicDataProcessor.constructor` | data_processor.py:242-260 | nothing loaded, no lengths, a fresh cache over the directory |
| `Processor.MimicDataProcessor.LoadSequenceLengthsFromFasta` | data_processor.py:1507-1560 | the lengths of all FASTA files are written over the current ones; nothing else changes |
| `Processor.MimicDataProcessor.LoadData` | data_processor.py:262-403 | lengths first, then the five tables are stored; maps and merged table untouched |
| `Processor.MimicDataProcessor.ProcessHmmHits` | data_processor.py:405-444 | the maps become those of the loaded tables and the lengths are raised by the metagenome ends |
| `Processor.MimicDataProcessor.MergeData` | data_processor.py:526-620 | an error with nothing changed before loading; otherwise the maps are built if missing and the merged table is one row per binder row |
| `Processor.MimicDataProcessor.GetDataSummary` | data_processor.py:692-780 | an error before the merge, else a summary of exactly the merged rows |
| `Processor.MimicDataProcessor.GetGlobalDomainFrequencies` | data_processor.py:1589-1680 | each counter counts its map's hit names over the merged genes (or the binder tables' ids); all empty before the maps exist |
| `Processor.MimicDataProcessor.GetCancerData` | data_processor.py:1682-2034 | an error before the merge, nothing for an unknown accession, else the accession's report, with the affinity filter corrected |
| `Processor.MimicDataProcessor.GetDomainEnrichmentData` | data_processor.py:2036-2200 | an error before the merge, else the whole report as `Enrichment.GetDomainEnrichmentData` states it |
| `Processor.MimicDataProcessor.FindRelatedSequences` | data_processor.py:2433-2586 | an error before the merge, else at most `limit` other genes, each with its shared-domain score |
| `Processor.MimicDataProcessor.AnalyzeBindingDomainIntersections` | data_processor.py:1046-1506 | progress ends at 100; an error before the merge; else the analysis of the kept rows over the sequences the cache gives |
| `Processor.MimicDataProcessor.AnalyzeMerged` | data_processor.py:1111-1466 | once merged: progress ends at 100, and the result describes the kept rows' selected genes over the sequences the cache gives |
| `Positions.FoundPlacement` | data_processor.py:985-998 | a found peptide starts at its first occurrence, lies inside the sequence, and ends `len - 1` later |
| `Positions.Annotated` | data_processor.py:985-1025 | annotating a binding never changes its peptide or its given position |
| `Positions.UnplacedMarked` | data_processor.py:1004-1025 | a peptide neither found nor given a position is marked -1/-1; an empty peptide changes nothing and covers nothing |
| `Positions.AddRange` | data_processor.py:997-998 | each position of the peptide's range gains exactly one count, and no other |
| `Positions.CalculateBindingPositions` | data_processor.py:911-1044 | every binding is annotated in order; the histogram lists each covered position once, ascending, with the number of placed peptides covering it |
| `Intersections.KeptSpec` | data_processor.py:1111-1127 | every row passing the level and affinity filters is kept |
| `Intersections.Kept` | data_processor.py:1111-1127 | every kept row passes both filters and comes from the table, in order |
| `Intersections.KeptAll` | data_processor.py:1125-1127 | with neither filter the whole table is kept |
| `Intersections.SelectedBound` | data_processor.py:1150-1156 | a positive `max_sequences` keeps the first that many genes, or all of them |
| `Intersections.Selected` | data_processor.py:1150-1156 | never more genes than the table's unique genes |
| `Intersections.PeptideHits` | data_processor.py:1213-1227 | each located peptide is non-empty, starts at its first occurrence in the sequence and ends `len - 1` later |
| `Intersections.LocatePeptides` | data_processor.py:1213-1227 | the peptide loop of one gene finds exactly its located peptides |
| `Intersections.VisitGene` | data_processor.py:1200-1227 | a gene is usable exactly when it has rows and a sequence, and then its peptides are located |
| `Intersections.Tick` | data_processor.py:1195-1199 | the progress report keeps earlier reports, stays increasing and stays at most 30 |
| `Intersections.GroupRows` | data_processor.py:1162-1169 | each gene with rows is grouped with exactly its rows, in order |
| `Intersections.LocateBindings` | data_processor.py:1171-1227 | every selected gene counts as processed; the peptides found are those of genes with rows and a sequence; progress stays within 5..30 and never falls |
| `Intersections.OverlapMeaning` | data_processor.py:1340-1352 | a binding is counted in a domain exactly when at least half of its positions lie in it |
| `Intersections.IndexDomains` | data_processor.py:1258-1274 | each bound sequence that has PFAM hits is indexed with exactly those hits |
| `Intersections.IndexBindings` | data_processor.py:1301-1312 | each sequence is indexed with exactly its located peptides, in order |
| `Intersections.FindIntersections` | data_processor.py:1315-1358 | the per-batch loops find exactly the qualifying (binding, domain) pairs of every sequence |
| `Intersections.MatchDomain` | data_processor.py:1330-1358 | the binding loop of one domain finds exactly its qualifying pairs |
| `Intersections.MatchSequence` | data_processor.py:1318-1328 | the domain loop of one sequence finds exactly its qualifying pairs |
| `Intersections.MatchAll` | data_processor.py:1301-1387 | every bound sequence's qualifying pairs are found, sequence by sequence |
| `Intersections.AllMatches` | data_processor.py:1315-1358 | every pair found belongs to one of the sequences examined |
| `Intersections.DomainMatchSound` | data_processor.py:1330-1358 | every match pairs a binding of the sequence with an overlapping domain of it |
| `Intersections.NoDomainsNoMatches` | data_processor.py:1318-1328 | without domains nothing matches |
| `Intersections.SequencesAtMostMatches` | data_processor.py:1410-1439 | a domain never has more sequences than matches |
| `Intersections.TallyMatches` | data_processor.py:1410-1439 | per domain: its number of matches, its set of sequences, and a sample that is a subset of them of size `min(100, n)`; which ones depends on the order results arrive in, which is left open |
| `Intersections.RecordSample` | data_processor.py:1437-1439 | each domain's sample stays a subset of its sequences, of size `min(100, sequences)` |
| `Intersections.Summarise` | data_processor.py:1409-1460 | the counts and the summaries are exactly those of the matches |
| `Intersections.BatchProgress` | data_processor.py:1378-1385 | batch reports keep increasing and stay at most 90 |
| `Intersections.AnalyzeBindings` | data_processor.py:1254-1466 | the counts and summaries are those of every bound sequence's matches, and progress ends at 100 |
| `Intersections.AnalyzeRows` | data_processor.py:1135-1466 | the result describes the selected genes of the kept rows, their located peptides and matches |
| `Intersections.NoBindingsDescribed` | data_processor.py:1233-1246 | with no peptide located the empty analysis describes the run |
| `Intersections.BindingsDescribed` | data_processor.py:1473-1482 | with peptides located the analysis built from their matches describes the run |
| `Intersections.Summaries` | data_processor.py:1441-1460 | one summary per counted domain, ranked by binding count, highest first |
| `Intersections.SummariesSpec` | data_processor.py:1409-1460 | the summaries state each domain's match count, its sequence count (never above the match count) and a sample of `min(100, sequences)` of them |
| `Intersections.Advance` | data_processor.py:1195-1199 | a progress report is made only when it raises the progress |
| `Intersections.AnalyzeBindingDomainIntersections` | data_processor.py:1046-1506 | progress ends at 100; an error before the merge; else the result describes the kept rows' selected genes, their located peptides and matches |
| `DomainFrequencies.CalculateDomainFrequencies` | data_processor.py:2202-2295 | the PFAM and KOFAM frequencies are those of every (sequence, hit) pair visited |
| `DomainFrequencies.CountHits` | data_processor.py:2233-2256 | the inner loop adds one sequence's hits to the frequencies built so far |
| `DomainFrequencies.OccurrenceCount` | data_processor.py:2234-2256 | a domain's score lists are as long as its number of hits, and it has no more genes than hits |
| `DomainFrequencies.TallyHits` | data_processor.py:1623-1660 | the counter is that of the names of all hits visited so far |
| `DomainFrequencies.DescribeSpec` | data_processor.py:2226-2295 | counts add up to the total number of hits; each counted domain has details whose score lists are as long as its count and whose gene set is no larger |
| `DomainFrequencies.GenesMeaning` | data_processor.py:2250 | a gene is listed under a domain exactly when one of its hits has that name |
| `DomainFrequencies.DetailGenes` | data_processor.py:2227-2256 | a domain's genes are the listed sequences with a hit of that name |
| `DomainFrequencies.TraceMembers` | data_processor.py:2227-2233 | the pairs visited are exactly the hits of the listed sequences |
| `DomainFrequencies.AllGenes` | data_processor.py:1603-1618 | the merged table's distinct genes, else the distinct ids of the two binder hit tables |
| `DomainFrequencies.GlobalDomainFrequencies` | data_processor.py:1589-1680 | each counter counts its map's hit names over the genes; all empty before the maps exist |
| `DomainFrequencies.GlobalAgrees` | data_processor.py:1623-1660 | the global counters agree with the per-set frequencies over the same genes and add up to the number of hits |
| `DomainFrequencies.PrepareDomainDetails` | data_processor.py:2391-2431 | one row per domain whose count is its number of distinct genes, ranked by that count |
| `Enrichment.StatusMeaning` | data_processor.py:2341-2375 | exclusive exactly when the background lacks the domain, else enriched exactly when its target share is at least its background share |
| `Enrichment.EntryFor` | data_processor.py:2328-2375 | the record keeps the domain, its count, the background count and the genes of its details |
| `Enrichment.StatusListed` | data_processor.py:2357-2375 | every record is in the list of its own status |
| `Enrichment.RatioAtLeastOne` | data_processor.py:2342-2358 | the fold change is at least 1 exactly when `count * background_total >= background_count * target_total` |
| `Enrichment.EntriesSpec` | data_processor.py:2322-2325 | the records are exactly those of the target domains with a non-zero count |
| `Enrichment.StatusPartition` | data_processor.py:2357-2375 | the three lists together hold every record exactly as often as the records do |
| `Enrichment.ExactlyOneList` | data_processor.py:2357-2375 | a counted domain is in the list of its status and in no other |
| `Enrichment.ClassifyDomains` | data_processor.py:2322-2378 | the loop files each record in the list of its status, in order |
| `Enrichment.CalculateDomainEnrichment` | data_processor.py:2297-2389 | three empty lists when a total is 0; otherwise permutations of the status lists, sorted by fold change (descending and ascending) and by target count |
| `Enrichment.GetDomainEnrichmentData` | data_processor.py:2036-2200 | an error before the merge; else, per kind, the better binders' domain frequencies (distinct genes of the merged rows) compared with those of the metagenome sequences that are not binders: the three lists as permutations of the classified records, sorted, the statistics, the detail tables, the counts, and the tagged list in the source's order |
| `Enrichment.Population` | data_processor.py:2048-2075 | the better binders are the distinct merged genes; the background holds each metagenome sequence that is not a binder, once |
| `Enrichment.EnrichKind` | data_processor.py:2083-2108 | one kind's lists, statistics and detail rows, stated on the sequences and maps the frequencies come from |
| `Enrichment.Enumerate` | data_processor.py:2053 | iterating a set visits each member once |
| `Enrichment.CompareKind` | data_processor.py:2083-2098 | empty lists when either side has no hits; else each list is a permutation of the records of its status, sorted (enrichment down, depletion up, exclusive by count down), and the statistics count the domains, hits and lists |
| `Enrichment.DetailsOf` | data_processor.py:2101-2108 | one detail row per counted domain, each that domain's details, ranked by gene count, a permutation of the domains' rows |
| `Enrichment.TagsAgree` | data_processor.py:2114-2155 | every tagged record carries its own status and kind |
| `CancerReport.LedgerShape` | data_processor.py:1715-1832 | a ledger holds each name once, in order of first filing, and its counts add up to the hits filed |
| `CancerReport.RowsFor` | data_processor.py:1696 | the rows selected for an accession come from the table and carry that accession |
| `CancerReport.FileSpec` | data_processor.py:1726-1738 | filing one hit keeps the ledger well-formed and adds one to its total |
| `CancerReport.LedgerAbsent` | data_processor.py:1715-1832 | a name the ledger does not hold was never filed |
| `CancerReport.EventsPrefixed` | data_processor.py:1781-1791 | every metagenome filing carries the `META_` prefix |
| `CancerReport.LedgerEntry` | data_processor.py:1726-1738 | each entry counts the hits under its name, with one gene, e-value and bitscore per hit |
| `CancerReport.MetagenomeFlag` | data_processor.py:1781-1791 | an entry is flagged as metagenome only under a `META_` name |
| `CancerReport.CountDomains` | data_processor.py:1715-1832 | both ledgers are the filings of the genes' binder hits, then their metagenome hits, gene by gene |
| `CancerReport.RankDomains` | data_processor.py:1999-2009 | a permutation of the ledger's rows, sorted by count, highest first, equal counts in the ledger's order of first filing |
| `CancerReport.CancerEnrichmentMeaning` | data_processor.py:1941-1970 | the default 1.0 stands unless the domain and both totals are positive; then enrichment is at least 1 exactly when the cancer share is at least the global share |
| `CancerReport.CancerEntriesSpec` | data_processor.py:1913-1989 | only the better-binder entries are rated, each as its record says |
| `CancerReport.CancerEntryFor` | data_processor.py:1941-1970 | the record keeps the domain, its cancer count and its global count |
| `CancerReport.RateDomains` | data_processor.py:1913-1996 | a permutation of the rated entries, highest enrichment first, equal enrichments in the ledger's order |
| `CancerReport.Affinities` | data_processor.py:1839-1867 | with the filter of line 1844 corrected (see Findings): the positive affinities, their count, minimum and maximum, and as median the value at position `n // 2` of their ascending order (stated by counting), or zeros when there are none |
| `Median.CountPermutation` | data_processor.py:1855 | how many values lie below a bound does not depend on their order |
| `Median.SortedMedian` | data_processor.py:1855 | in an ascending list, the value at position `h` has at most `h` values below it and more than `h` at or below it |
| `Median.MedianUnique` | data_processor.py:1855 | only one value has that property, so it is `sorted(data)[n // 2]` |
| `Median.CountConcat` | data_processor.py:1855 | counting distributes over concatenation |
| `CancerReport.PositiveAffinities` | data_processor.py:1839-1845 | the corrected filter (see Findings) keeps only positive affinities, never more than the rows |
| `CancerReport.BindingBlockAsWritten` | data_processor.py:1838-1891 | as written: any affinity that is not NaN raises at line 1844, leaving no binding data, zero statistics and no levels; otherwise the rows, zero statistics and the counted levels |
| `CancerReport.NoAffinityNoData` | data_processor.py:1838-1891 | where the source does not raise, its zero statistics are those of the corrected filter |
| `CancerReport.OneAffinityRow` | data_processor.py:1844 | one row of 50 nM: the corrected report lists the affinity and counts its level; as written the row triggers the raise |
| `CancerReport.BindingLevelsSpec` | data_processor.py:1869-1878 | each binding level counts its rows, and the counts add up to the row count |
| `CancerReport.RowsForComplete` | data_processor.py:1696 | every row of the accession is selected |
| `CancerReport.GetCancerData` | data_processor.py:1682-2034 | an error before the merge, nothing for an unknown accession, else the report over the accession's rows, with the affinity filter corrected |
| `CancerReport.DomainsOf` | data_processor.py:1715-2009 | both ledgers are well-formed, the domain counts are their sizes, the rows are their ranked permutations with ties in ledger order, and the enrichment rates the PFAM ledger, ties in ledger order |
| `CancerReport.Report` | data_processor.py:1696-2034 | the report over exactly the accession's rows: its genes, alleles, levels, domain tables and enrichment with their tie order, and all of the affinity statistics, with the affinity filter corrected |
| `Related.ScoreIsShared` | data_processor.py:2547-2579 | the metagenome guards change nothing: the score is the weighted count of shared names |
| `Related.ScoreSymmetric` | data_processor.py:2547-2579 | relatedness is symmetric |
| `Related.GuardIsIdle` | data_processor.py:2547-2579 | a metagenome guard that fails means nothing would have been shared anyway |
| `Related.NoDomainsNoScore` | data_processor.py:2496-2497 | the early return for a query without domain names agrees with the loop |
| `Related.CandidatesSpec` | data_processor.py:2503-2582 | the candidates are exactly the other genes with a positive score, each with its score |
| `Related.ScoreGenes` | data_processor.py:2503-2582 | the loop collects exactly the candidates, in gene order |
| `Related.FindRelatedSequences` | data_processor.py:2433-2586 | an error before the merge; else at most `limit` distinct other genes, highest score first, equal scores in gene order, no gene left out scores higher than one listed, and one left out with an equal score comes after it in gene order |
| `Related.TopBest` | data_processor.py:2585-2586 | a gene outside the top `n` of the ranking scores no higher than any gene in it |
| `Related.TopFacts` | data_processor.py:2585-2586 | the top `limit` are at most `limit` distinct other genes with positive scores, in score order, and none left out scores higher |
| `Related.CandidatesDistinct` | data_processor.py:2503-2582 | each gene is scored once, so the candidates are distinct genes |
| `Related.CandidatesOrder` | data_processor.py:2503-2582 | the candidates keep the genes' order |
| `Related.TopTies` | data_processor.py:2585 | `sorted` is stable: equal scores among and around the top keep the genes' order |
| `Related.TopMembers` | data_processor.py:2585-2586 | every listed gene is another gene with its own positive score |
| `Related.TopOrder` | data_processor.py:2585 | listed scores never increase |
| `Related.TopBestAll` | data_processor.py:2585-2586 | no gene left out scores higher than a listed one |
| `Query.FilterMask` | server.py:51-65 | an error exactly when some filter raises; otherwise the rows every filter accepts |
| `Query.ApplyMask` | server.py:68 | the masked rows are exactly the filtered rows |
| `Query.FilteredCount` | server.py:51-68 | a matching row is kept as often as the table has it, and no other row is kept |
| `Query.Filtered` | server.py:51-68 | filtering never adds rows |
| `Query.Conjunction` | server.py:53-65 | filters combine by AND |
| `Query.UnknownColumnIgnored` | server.py:54-55 | a filter on a missing column changes nothing |
| `Query.NoFiltersKeepAll` | server.py:51-68 | no filters keep the whole table |
| `Query.ByColumnOrder` | server.py:77 | the column order is total and transitive, missing values last |
| `Query.LexTotal` | server.py:77 | any two texts are ordered one way or the other |
| `Query.LexTransitive` | server.py:77 | the text order is transitive |
| `Query.SortRows` | server.py:74-79 | a permutation, sorted when a sort is asked for and possible (ascending when the direction is "asc" in any case), else unchanged |
| `Query.PageBound` | server.py:85-86 | a page never holds more than `page_size` rows |
| `Query.PageInside` | server.py:85-99 | a page inside the table is the `page`-th run of `page_size` rows |
| `Query.PagePastEnd` | server.py:85-99 | a page past the end gives the last row rather than nothing |
| `Query.RowOnItsPage` | server.py:85-99 | every row is on the page its index divides into |
| `Query.TotalPagesSpec` | server.py:134 | the page count is the least number of pages that hold every row, and at least 1 |
| `Query.SanitiseRow` | server.py:114-127 | only the two domain columns change; each becomes the cleaned cell |
| `Query.SanitisedDomainCells` | server.py:116-127 | a cleaned domain cell is text that parses, or `"[]"`; valid text is kept |
| `Query.SanitiseIdempotent` | server.py:114-127 | cleaning twice is cleaning once |
| `Query.SanitiseRecords` | server.py:114-127 | every record is cleaned, in order |
| `Query.GetData` | server.py:27-155 | not loaded is an error; else the total and order of the filtered (or fallback) rows; no rows give 0 pages; a zero page size gives the formatting error; otherwise the cleaned page and its page count |
| `Visualization.PresentCount` | server.py:215 | `dropna` keeps every present value as often as it occurs |
| `Visualization.Present` | server.py:215 | `dropna` keeps the present values in order |
| `Visualization.ValueCountsMeaning` | server.py:212 | a value's count is its number of rows; missing values are not counted |
| `Visualization.CountDomainNames` | server.py:229-235 | the counter counts the names of the cells that parse |
| `Visualization.RankedNames` | server.py:237-239 | the top fifteen are stated on the names themselves: distinct, counted, ranked, none left out counts more, and ties go to the name seen first |
| `Visualization.TopDomains` | server.py:219-242 | nothing for a missing column, else its top fifteen names, equal counts in order of first appearance |
| `Visualization.Summarise` | server.py:209-338 | a missing `MHC` or affinity column gives its `KeyError` text; otherwise the summary of the rows |
| `Visualization.GetVisualizationData` | server.py:158-344 | not loaded or a raising filter is an error; no matching rows give the empty summary; otherwise the summary of the filtered rows |
| `Tasks.TaskRegistry.constructor` | server.py:539 | the registry starts empty |
| `Tasks.TaskRegistry.Start` | server.py:496-501 | a new task is running at progress 0 with no result |
| `Tasks.TaskRegistry.UpdateProgress` | server.py:504-505 | the callback sets that entry's progress, and an unknown id leaves the table alone |
| `Tasks.TaskRegistry.Complete` | server.py:517-518 | the result is stored and the entry marked completed |
| `Tasks.TaskRegistry.Fail` | server.py:519-524 | the entry is marked failed with the exception text |
| `Tasks.TaskRegistry.Forget` | server.py:562-568 | the delayed clean-up removes that entry and nothing else |
| `Tasks.TaskRegistry.Status` | server.py:541-574 | unknown id gives not found; the result only for a completed task; an error (or "Unknown error") exactly for a failed one |
| `Tasks.TaskRegistry.Relay` | server.py:504-505 | after the reports a task holds the last one |
| `Tasks.TaskRegistry.RunBindingAnalysis` | server.py:477-536 | the defaults (500, no level, 1000) are applied; the entry ends completed at 100 with the analysis of the kept rows |

## Left out

- File reading, `os.listdir`, `mmap`, CSV parsing and `print` are left out. A directory is a sequence of files, each a sequence of lines. Tables are sequences of rows.
- Threads are left out: the `ThreadPoolExecutor`s of data_processor.py:61 and 1368 become sequential loops. At line 1374 `as_completed` hands batch results over in completion order, and that order decides the order of domain summaries with equal counts, which sequences enter each domain's 100-sequence sample, and the key order of the counters. The model leaves all three open: `Intersections.Summaries` states no order among equal counts, and `Intersections.RecordSample` states only a subset of size `min(100, n)`. The file indexing at line 61 reads its futures in submission order, which the model follows.
- The background thread and the 300-second sleep of the clean-up are left out. The task id is a parameter instead of a `uuid4`.
- JSON is a parameter: `json.loads` becomes a `parse` function, and "is valid JSON" becomes an `isJson` predicate. `safe_json`'s own output format is not modelled.
- Float formatting, NaN and infinity replacement by `None`, and averages, means, percentages and timings are left out. Scores are exact rationals.
- Exception texts of pandas and Python are not modelled, except the `KeyError` text for a missing column and division by zero.
- `Query.GetData`: the `iloc` fallback at server.py:100-102 cannot be reached for a valid slice, so it is not modelled.
- Query.Accepts: `str.contains` is a regular expression in pandas. It is modelled as a literal, ASCII case-insensitive substring test.
- Query.SortRows: `sort_values` is not stable. The model sorts stably and claims only "sorted and a permutation", so a stable sort is one allowed outcome.
- The order of `value_counts()` is not modelled: `Visualization.ValueCounts` is a map.
- A `set`'s iteration order, in `_calculate_domain_frequencies` and `get_global_domain_frequencies`, is fixed to one order. The counts and gene sets proved do not depend on it.
- Intersections.AnalyzeBindingDomainIntersections: intermediate progress values are only bounded and non-decreasing, not computed exactly. The final 100 is exact.
- Sequences.SequenceCache.GetSequencesBatch: a file that cannot be mapped is not modelled; every indexed file can be read.
- Sequences.SequenceCache.GetSequence: reads the record up to the end of its file, as corrected under Findings. The as-written window is modelled separately, by `Fasta.ExtractAsWritten`.
- Processor.MimicDataProcessor.FindRelatedSequences: its contract gives bound, scores, distinct ids, order and tie order; completeness is stated by `Related.FindRelatedSequences`.
- Sequences.GetSequenceRoundTrip: the index counts characters read in text mode, while `mmap` seeks count bytes. The model uses one offset for both, which is exact only for ASCII files with LF line endings; `Fasta.ExtractIndexedRecord` assumes the same.
- Records.SummarySpec, Intersections.Selected and CancerReport.BindingLevelsSpec: gene ids, alleles, accessions and binding levels are strings, never NaN. `nunique()` and `value_counts()` dropping NaN, the skipping of NaN ids at data_processor.py:1183 and 1190, and the level "nan" are not modelled.
- Positions.CalculateBindingPositions: an infinite `position` makes `int()` raise `OverflowError`, which the outer handler turns into an empty result. The model has no infinite position.
- Query.GetData: starts from parsed request arguments. A `filters` argument that is not JSON gets the 400 response `{'error': 'Invalid filters JSON'}` (server.py:40-43); this is not modelled. Nor is the `type=int` coercion of `page` and `page_size` (server.py:34-35), which falls back to the default for a value that is not an integer.
- Visualization.GetVisualizationData: starts from parsed filters. A `filters` argument that is not JSON gets the 400 response `{'error': 'Invalid filters JSON'}` (server.py:166-169); this is not modelled.
- Query.FilterMask: only dictionary filters with numeric or missing bounds, and text filters, are modelled; a non-numeric bound and any other JSON value as a filter are not.
- Hmm.FloatOr and Hmm.IntOr1: what `float()` and `int()` make of a text cell is carried by the cell (`Hmm.Field.Text`), not computed from its characters.
- `get_column_metadata`, `save_processed_data`, `get_sequence_data`, `close` and the HTML routes of the server are not part of this model.

## Findings

| source | as written | input that shows it | evidently intended | confidence | as-written member | corrected member |
|---|---|---|---|---|---|---|
| data_processor.py:1844 | The affinity filter calls `pd.isinf`, which pandas does not define. For any affinity that is not NaN, the attribute lookup raises `AttributeError`. The inner `except (ValueError, TypeError)` does not catch it; the outer handler at 1880-1891 resets `binding_data` to `[]`, the statistics to zeros and `binding_levels` to `{}`. | One row for the accession with an affinity of 50 nM: the report has 0 binding records, count 0 and no levels. | `np.isinf`: the positive affinities, their statistics, the rows as binding data and the counted levels. | not executed (rests on pandas' documented API) | `CancerReport.BindingBlockAsWritten`, `CancerReport.OneAffinityRow` | `CancerReport.Affinities` (on `CancerReport.PositiveAffinities`), used by `CancerReport.Report` |
| data_processor.py:173 | `get_sequence` reads `length + length // 60 + 10` characters. It assumes lines of about 60 residues, so a record wrapped more narrowly is cut short. | A FASTA record `>a` followed by `n >= 12` lines of one residue each. The index records length `n`, but the read returns fewer than `n` residues. | The record's residues are read back in full, whatever the line width. | not executed | `Fasta.AsWrittenTruncatesNarrowRecords` (on `Fasta.ExtractAsWritten`) | `Fasta.ExtractIndexedRecord` (on `Fasta.Extract`), used by `Sequences.GetSequenceRoundTrip` |
