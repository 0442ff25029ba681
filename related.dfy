/**
  `find_related_sequences`: other better binder genes ranked by how many
  domain names they share with a given sequence, better binder PFAM
  domains weighing most and metagenome KOFAM domains least.

  The source's weights 3, 2, 1.5 and 1 are doubled to 6, 4, 3 and 2 so
  that scores stay integers; a reported score is the doubled score over 2.
 */
module Related {
  import opened Wrappers
  import opened PyBuiltins
  import opened Sorting
  import opened Tallies
  import opened Hmm
  import opened Records

  /** The distinct domain names of a sequence in one map. */
  function NameSet(m: DomainMap, id: string): set<string> {
    set h | h in HitsAt(m, id) :: h.hmmName
  }

  /** The names of the four maps for one sequence. */
  datatype Profile = Profile(pfam: set<string>, kofam: set<string>, pfamMeta: set<string>, kofamMeta: set<string>)

  function ProfileOf(maps: HitMaps, id: string): Profile {
    Profile(NameSet(maps.pfam, id), NameSet(maps.kofam, id), NameSet(maps.pfamMeta, id), NameSet(maps.kofamMeta, id))
  }

  predicate NoDomains(p: Profile) {
    p.pfam == {} && p.kofam == {} && p.pfamMeta == {} && p.kofamMeta == {}
  }

  /** Twice the score of `other` against `query` (lines 2547-2579): the
      metagenome terms are only added when the query has such names and
      the other sequence has such hits. */
  function DoubledScore(maps: HitMaps, query: Profile, other: string): nat {
    var p := ProfileOf(maps, other);
    6 * |query.pfam * p.pfam| + 4 * |query.kofam * p.kofam| +
    (if query.pfamMeta != {} && HitsAt(maps.pfamMeta, other) != [] then 3 * |query.pfamMeta * p.pfamMeta| else 0) +
    (if query.kofamMeta != {} && HitsAt(maps.kofamMeta, other) != [] then 2 * |query.kofamMeta * p.kofamMeta| else 0)
  }

  /** The score without the guards: each shared name of each kind, weighted. */
  function Shared(a: Profile, b: Profile): nat {
    6 * |a.pfam * b.pfam| + 4 * |a.kofam * b.kofam| + 3 * |a.pfamMeta * b.pfamMeta| + 2 * |a.kofamMeta * b.kofamMeta|
  }

  lemma NoHitsNoNames(m: DomainMap, id: string)
    ensures HitsAt(m, id) == [] ==> NameSet(m, id) == {}
  {
  }

  /** The guards change nothing: the score is the weighted count of
      shared names. */
  lemma ScoreIsShared(maps: HitMaps, query: string, other: string)
    ensures DoubledScore(maps, ProfileOf(maps, query), other) == Shared(ProfileOf(maps, query), ProfileOf(maps, other))
  {
    var q := ProfileOf(maps, query);
    GuardIsIdle(q.pfamMeta, maps.pfamMeta, other);
    GuardIsIdle(q.kofamMeta, maps.kofamMeta, other);
  }

  /** One metagenome guard: without names or without hits there is
      nothing shared anyway. */
  lemma GuardIsIdle(q: set<string>, m: DomainMap, id: string)
    ensures (q != {} && HitsAt(m, id) != []) || |q * NameSet(m, id)| == 0
  {
    NoHitsNoNames(m, id);
    if q == {} {
      assert q * NameSet(m, id) == {};
    }
  }

  /** Relatedness is symmetric. */
  lemma ScoreSymmetric(maps: HitMaps, a: string, b: string)
    ensures DoubledScore(maps, ProfileOf(maps, a), b) == DoubledScore(maps, ProfileOf(maps, b), a)
  {
    ScoreIsShared(maps, a, b);
    ScoreIsShared(maps, b, a);
    var p, q := ProfileOf(maps, a), ProfileOf(maps, b);
    assert p.pfam * q.pfam == q.pfam * p.pfam;
    assert p.kofam * q.kofam == q.kofam * p.kofam;
    assert p.pfamMeta * q.pfamMeta == q.pfamMeta * p.pfamMeta;
    assert p.kofamMeta * q.kofamMeta == q.kofamMeta * p.kofamMeta;
  }

  /** A query without domain names relates to nothing: the early return
      of lines 2496-2497 agrees with the loop. */
  lemma NoDomainsNoScore(maps: HitMaps, query: string, other: string)
    requires NoDomains(ProfileOf(maps, query))
    ensures DoubledScore(maps, ProfileOf(maps, query), other) == 0
  {
    ScoreIsShared(maps, query, other);
    var q, p := ProfileOf(maps, query), ProfileOf(maps, other);
    assert q.pfam * p.pfam == {} && q.kofam * p.kofam == {};
    assert q.pfamMeta * p.pfamMeta == {} && q.kofamMeta * p.kofamMeta == {};
  }

  /** `related_scores`: the other genes with a positive score, in gene order. */
  function Candidates(genes: seq<string>, maps: HitMaps, query: string): seq<(string, nat)> {
    if genes == [] then []
    else
      var g := genes[|genes| - 1];
      var s := DoubledScore(maps, ProfileOf(maps, query), g);
      Candidates(genes[..|genes| - 1], maps, query) + (if g != query && s > 0 then [(g, s)] else [])
  }

  lemma {:induction false} CandidatesSpec(genes: seq<string>, maps: HitMaps, query: string)
    ensures forall c :: c in Candidates(genes, maps, query) ==>
              c.0 in genes && c.0 != query && c.1 > 0 && c.1 == DoubledScore(maps, ProfileOf(maps, query), c.0)
    ensures forall g :: g in genes && g != query && DoubledScore(maps, ProfileOf(maps, query), g) > 0 ==>
              (g, DoubledScore(maps, ProfileOf(maps, query), g)) in Candidates(genes, maps, query)
  {
    if genes != [] {
      CandidatesSpec(genes[..|genes| - 1], maps, query);
      assert genes == genes[..|genes| - 1] + [genes[|genes| - 1]];
    }
  }

  /** One entry of the answer: `{'id': ..., 'score': ...}`. */
  datatype Match = Match(id: string, score: real)

  function ByScore(): ((string, nat), (string, nat)) -> bool {
    DescendingInt((c: (string, nat)) => c.1)
  }

  /** The scoring loop of lines 2503-2582. */
  method ScoreGenes(genes: seq<string>, maps: HitMaps, query: string) returns (scores: seq<(string, nat)>)
    ensures scores == Candidates(genes, maps, query)
  {
    var profile := ProfileOf(maps, query);
    scores := [];
    var i := 0;
    while i < |genes|
      invariant 0 <= i <= |genes|
      invariant scores == Candidates(genes[..i], maps, query)
    {
      assert genes[..i + 1][..i] == genes[..i];
      var g := genes[i];
      if g != query {
        var score := DoubledScore(maps, profile, g);
        if score > 0 {
          scores := scores + [(g, score)];
        }
      }
      i := i + 1;
    }
    assert genes[..i] == genes;
  }

  function AsMatches(ranked: seq<(string, nat)>): (r: seq<Match>)
    ensures |r| == |ranked|
    ensures forall i :: 0 <= i < |r| ==> r[i] == Match(ranked[i].0, ranked[i].1 as real / 2.0)
  {
    seq(|ranked|, i requires 0 <= i < |ranked| => Match(ranked[i].0, ranked[i].1 as real / 2.0))
  }

  /** `find_related_sequences`: an error before the merge; no matches for
      a sequence without domain names; otherwise the `limit` best other
      genes with a positive score (Python slicing, so a negative `limit`
      drops from the end), each once, best first, each with its score;
      `sorted` is stable, so equal scores keep the genes' order, and a gene
      tied with a listed one is left out only if it comes later. */
  method FindRelatedSequences(merged: Option<seq<MergedRow>>, maps: HitMaps, query: string, limit: int)
    returns (r: Result<seq<Match>>)
    ensures merged.None? ==> r == Err("Merged data not created. Call merge_data() first.")
    ensures merged.Some? ==> r.Ok?
    ensures merged.Some? && NoDomains(ProfileOf(maps, query)) ==> r.value == []
    ensures merged.Some? ==>
              var ms := r.value;
              var genes := Unique(Genes(merged.value));
              (limit >= 0 ==> |ms| <= limit) &&
              (forall i :: 0 <= i < |ms| ==>
                 ms[i].id in genes && ms[i].id != query && ms[i].score > 0.0 &&
                 ms[i].score == DoubledScore(maps, ProfileOf(maps, query), ms[i].id) as real / 2.0) &&
              (forall i, j :: 0 <= i < j < |ms| ==> ms[i].id != ms[j].id) &&
              (forall i, j :: 0 <= i < j < |ms| ==> ms[i].score >= ms[j].score) &&
              (forall i, j :: 0 <= i < j < |ms| && ms[i].score == ms[j].score ==> Precedes(genes, ms[i].id, ms[j].id))
    ensures merged.Some? && !NoDomains(ProfileOf(maps, query)) ==>
              var ms := r.value;
              var genes := Unique(Genes(merged.value));
              |ms| == SliceBound(limit, |Candidates(genes, maps, query)|) &&
              forall g, i :: g in genes && g != query && 0 <= i < |ms| && (forall k :: 0 <= k < |ms| ==> ms[k].id != g) ==>
                DoubledScore(maps, ProfileOf(maps, query), g) as real / 2.0 <= ms[i].score &&
                (DoubledScore(maps, ProfileOf(maps, query), g) as real / 2.0 == ms[i].score ==>
                   Precedes(genes, ms[i].id, g))
  {
    if merged.None? {
      return Err("Merged data not created. Call merge_data() first.");
    }
    if NoDomains(ProfileOf(maps, query)) {
      return Ok([]);
    }
    var genes := Unique(Genes(merged.value));
    var scores := ScoreGenes(genes, maps, query);
    CandidatesSpec(genes, maps, query);
    KeyOrders((c: (string, nat)) => c.1, (c: (string, nat)) => 0.0);
    var ranked := SortBy(scores, ByScore());
    var top := Head(ranked, limit);
    assert |ranked| == |multiset(ranked)| == |multiset(scores)| == |scores|;
    TopFacts(genes, maps, query, scores, ranked, limit);
    HeadTies(genes, maps, query, scores, ranked, limit);
    r := Ok(AsMatches(top));
  }

  lemma TopIsPrefix(ranked: seq<(string, nat)>, limit: int)
    ensures Head(ranked, limit) == ranked[..|Head(ranked, limit)|]
    ensures |Head(ranked, limit)| == SliceBound(limit, |ranked|)
  {
    if limit >= 0 {
      SliceNatural(ranked, 0, limit);
    } else {
      HeadNegative(ranked, limit);
    }
  }

  lemma TopFacts(genes: seq<string>, maps: HitMaps, query: string, scores: seq<(string, nat)>,
                 ranked: seq<(string, nat)>, limit: int)
    requires Distinct(genes) && scores == Candidates(genes, maps, query)
    requires multiset(ranked) == multiset(scores) && SortedBy(ranked, ByScore())
    ensures var ms := AsMatches(Head(ranked, limit));
            (limit >= 0 ==> |ms| <= limit) &&
            (forall i :: 0 <= i < |ms| ==>
               ms[i].id in genes && ms[i].id != query && ms[i].score > 0.0 &&
               ms[i].score == DoubledScore(maps, ProfileOf(maps, query), ms[i].id) as real / 2.0) &&
            (forall i, j :: 0 <= i < j < |ms| ==> ms[i].id != ms[j].id) &&
            (forall i, j :: 0 <= i < j < |ms| ==> ms[i].score >= ms[j].score)
    ensures var ms := AsMatches(Head(ranked, limit));
            |ms| == SliceBound(limit, |scores|) &&
            forall g, i :: g in genes && g != query && 0 <= i < |ms| && (forall k :: 0 <= k < |ms| ==> ms[k].id != g) ==>
              DoubledScore(maps, ProfileOf(maps, query), g) as real / 2.0 <= ms[i].score
  {
    assert |ranked| == |multiset(ranked)| == |multiset(scores)| == |scores|;
    TopIsPrefix(ranked, limit);
    TopMembers(genes, maps, query, scores, ranked, |Head(ranked, limit)|);
    TopOrder(ranked, |Head(ranked, limit)|);
    TopBestAll(genes, maps, query, scores, ranked, |Head(ranked, limit)|);
    TopDistinct(genes, maps, query, scores, ranked, |Head(ranked, limit)|);
  }

  /** `TopTies` for the answer's slice of the ranking. */
  lemma HeadTies(genes: seq<string>, maps: HitMaps, query: string, scores: seq<(string, nat)>,
                 ranked: seq<(string, nat)>, limit: int)
    requires scores == Candidates(genes, maps, query) && multiset(ranked) == multiset(scores)
    requires forall a, b :: 0 <= a < b < |ranked| && ByScore()(ranked[b], ranked[a]) ==>
               Precedes(scores, ranked[a], ranked[b])
    ensures var ms := AsMatches(Head(ranked, limit));
            (forall i, j :: 0 <= i < j < |ms| && ms[i].score == ms[j].score ==> Precedes(genes, ms[i].id, ms[j].id)) &&
            (forall g, i ::
               g in genes && g != query && 0 <= i < |ms| && (forall k :: 0 <= k < |ms| ==> ms[k].id != g) &&
               DoubledScore(maps, ProfileOf(maps, query), g) as real / 2.0 == ms[i].score ==>
               Precedes(genes, ms[i].id, g))
  {
    TopIsPrefix(ranked, limit);
    assert |ranked| == |multiset(ranked)| == |multiset(scores)| == |scores|;
    TopTies(genes, maps, query, scores, ranked, |Head(ranked, limit)|);
  }

  /** The listed genes are distinct: the candidates are, being one per gene. */
  lemma TopDistinct(genes: seq<string>, maps: HitMaps, query: string, scores: seq<(string, nat)>,
                    ranked: seq<(string, nat)>, n: nat)
    requires Distinct(genes) && scores == Candidates(genes, maps, query)
    requires multiset(ranked) == multiset(scores) && n <= |ranked|
    ensures var ms := AsMatches(ranked[..n]);
            forall i, j :: 0 <= i < j < |ms| ==> ms[i].id != ms[j].id
  {
    CandidatesDistinct(genes, maps, query);
    var ms := AsMatches(ranked[..n]);
    forall i, j | 0 <= i < j < |ms| ensures ms[i].id != ms[j].id {
      PermutedKeysDistinct(scores, ranked, i, j);
    }
  }

  /** The candidates of all genes are those of all but the last, then at
      most one for the last gene. */
  lemma CandidatesLast(genes: seq<string>, maps: HitMaps, query: string) returns (last: seq<(string, nat)>)
    requires genes != []
    ensures Candidates(genes, maps, query) == Candidates(genes[..|genes| - 1], maps, query) + last
    ensures |last| <= 1 && forall c :: c in last ==> c.0 == genes[|genes| - 1]
  {
    var g := genes[|genes| - 1];
    var s := DoubledScore(maps, ProfileOf(maps, query), g);
    last := if g != query && s > 0 then [(g, s)] else [];
  }

  /** One candidate per gene at most, so the candidates' ids are distinct. */
  lemma {:induction false} CandidatesDistinct(genes: seq<string>, maps: HitMaps, query: string)
    requires Distinct(genes)
    ensures var cs := Candidates(genes, maps, query);
            forall x, y :: 0 <= x < y < |cs| ==> cs[x].0 != cs[y].0
  {
    if genes != [] {
      var init := genes[..|genes| - 1];
      var last := CandidatesLast(genes, maps, query);
      CandidatesDistinct(init, maps, query);
      CandidatesSpec(init, maps, query);
      var ci := Candidates(init, maps, query);
      var cs := ci + last;
      assert genes[|genes| - 1] !in init;
      forall x, y | 0 <= x < y < |cs| ensures cs[x].0 != cs[y].0 {
        if y >= |ci| {
          assert cs[x] == ci[x] && ci[x] in ci && cs[y] in last;
        } else {
          assert cs[x] == ci[x] && cs[y] == ci[y];
        }
      }
    }
  }

  /** The candidates follow the genes' order. */
  lemma {:induction false} CandidatesOrder(genes: seq<string>, maps: HitMaps, query: string, x: (string, nat),
                                           y: (string, nat))
    requires Precedes(Candidates(genes, maps, query), x, y)
    ensures Precedes(genes, x.0, y.0)
  {
    var init := genes[..|genes| - 1];
    var last := CandidatesLast(genes, maps, query);
    var ci := Candidates(init, maps, query);
    if Precedes(ci, x, y) {
      CandidatesOrder(init, maps, query, x, y);
      PrecedesPrefix(init, genes, x.0, y.0);
    } else {
      PrecedesSplit(ci, last, x, y);
      CandidatesSpec(init, maps, query);
      PrecedesLast(init, genes, x.0, y.0);
    }
  }

  /** An order in one part of a concatenation, or across it. */
  lemma PrecedesSplit<T>(s: seq<T>, t: seq<T>, x: T, y: T)
    requires Precedes(s + t, x, y) && !Precedes(s, x, y) && |t| <= 1
    ensures x in s && y in t
  {
    var a, b :| 0 <= a < b < |s + t| && (s + t)[a] == x && (s + t)[b] == y;
    assert s[a] == x && t[b - |s|] == y;
  }

  lemma PrecedesPrefix<T>(s: seq<T>, t: seq<T>, x: T, y: T)
    requires Precedes(s, x, y) && s <= t
    ensures Precedes(t, x, y)
  {
    var a, b :| 0 <= a < b < |s| && s[a] == x && s[b] == y;
    assert t[a] == x && t[b] == y;
  }

  lemma PrecedesLast<T>(s: seq<T>, t: seq<T>, x: T, y: T)
    requires t != [] && s == t[..|t| - 1] && x in s && y == t[|t| - 1]
    ensures Precedes(t, x, y)
  {
    var a :| 0 <= a < |s| && s[a] == x;
    assert t[a] == x;
  }

  /** Ties among and around the first `n` ranked genes follow the genes'
      order, because the ranking is stable. */
  lemma TopTies(genes: seq<string>, maps: HitMaps, query: string, scores: seq<(string, nat)>,
                ranked: seq<(string, nat)>, n: nat)
    requires scores == Candidates(genes, maps, query)
    requires multiset(ranked) == multiset(scores) && n <= |ranked|
    requires forall a, b :: 0 <= a < b < |ranked| && ByScore()(ranked[b], ranked[a]) ==>
               Precedes(scores, ranked[a], ranked[b])
    ensures var ms := AsMatches(ranked[..n]);
            (forall i, j :: 0 <= i < j < |ms| && ms[i].score == ms[j].score ==> Precedes(genes, ms[i].id, ms[j].id)) &&
            (forall g, i ::
               g in genes && g != query && 0 <= i < |ms| && (forall k :: 0 <= k < |ms| ==> ms[k].id != g) &&
               DoubledScore(maps, ProfileOf(maps, query), g) as real / 2.0 == ms[i].score ==>
               Precedes(genes, ms[i].id, g))
  {
    var ms := AsMatches(ranked[..n]);
    forall i, j | 0 <= i < j < |ms| && ms[i].score == ms[j].score ensures Precedes(genes, ms[i].id, ms[j].id) {
      RankedTie(genes, maps, query, scores, ranked, i, j);
    }
    forall g, i | g in genes && g != query && 0 <= i < |ms| && (forall k :: 0 <= k < |ms| ==> ms[k].id != g) &&
                  DoubledScore(maps, ProfileOf(maps, query), g) as real / 2.0 == ms[i].score
      ensures Precedes(genes, ms[i].id, g)
    {
      forall k | 0 <= k < n ensures ranked[k].0 != g {
        assert ms[k].id == ranked[k].0;
      }
      LeftOutTieFollows(genes, maps, query, scores, ranked, n, g, i);
    }
  }

  lemma RankedTie(genes: seq<string>, maps: HitMaps, query: string, scores: seq<(string, nat)>,
                  ranked: seq<(string, nat)>, i: nat, j: nat)
    requires scores == Candidates(genes, maps, query) && i < j < |ranked|
    requires forall a, b :: 0 <= a < b < |ranked| && ByScore()(ranked[b], ranked[a]) ==>
               Precedes(scores, ranked[a], ranked[b])
    requires ranked[i].1 as real / 2.0 == ranked[j].1 as real / 2.0
    ensures Precedes(genes, ranked[i].0, ranked[j].0)
  {
    assert ByScore()(ranked[j], ranked[i]);
    CandidatesOrder(genes, maps, query, ranked[i], ranked[j]);
  }

  lemma LeftOutTieFollows(genes: seq<string>, maps: HitMaps, query: string, scores: seq<(string, nat)>,
                          ranked: seq<(string, nat)>, n: nat, g: string, i: nat)
    requires scores == Candidates(genes, maps, query)
    requires multiset(ranked) == multiset(scores) && i < n <= |ranked|
    requires forall a, b :: 0 <= a < b < |ranked| && ByScore()(ranked[b], ranked[a]) ==>
               Precedes(scores, ranked[a], ranked[b])
    requires g in genes && g != query && forall k :: 0 <= k < n ==> ranked[k].0 != g
    requires DoubledScore(maps, ProfileOf(maps, query), g) == ranked[i].1
    ensures Precedes(genes, ranked[i].0, g)
  {
    CandidatesSpec(genes, maps, query);
    assert ranked[i] in multiset(scores);
    var c := (g, ranked[i].1);
    assert c in multiset(ranked);
    var p :| 0 <= p < |ranked| && ranked[p] == c;
    assert p >= n;
    assert ByScore()(ranked[p], ranked[i]);
    CandidatesOrder(genes, maps, query, ranked[i], ranked[p]);
  }

  lemma TopBestAll(genes: seq<string>, maps: HitMaps, query: string, scores: seq<(string, nat)>,
                   ranked: seq<(string, nat)>, n: nat)
    requires scores == Candidates(genes, maps, query)
    requires multiset(ranked) == multiset(scores) && SortedBy(ranked, ByScore()) && n <= |ranked|
    ensures var ms := AsMatches(ranked[..n]);
            forall g, i :: g in genes && g != query && 0 <= i < |ms| && (forall k :: 0 <= k < |ms| ==> ms[k].id != g) ==>
              DoubledScore(maps, ProfileOf(maps, query), g) as real / 2.0 <= ms[i].score
  {
    var ms := AsMatches(ranked[..n]);
    forall g, i | g in genes && g != query && 0 <= i < |ms| && (forall k :: 0 <= k < |ms| ==> ms[k].id != g)
      ensures DoubledScore(maps, ProfileOf(maps, query), g) as real / 2.0 <= ms[i].score
    {
      forall k | 0 <= k < n ensures ranked[k].0 != g {
        assert ms[k].id == ranked[k].0;
      }
      TopBestOne(genes, maps, query, scores, ranked, n, g);
    }
  }

  /** A gene outside the first `n` ranked scores scores no higher than any of them. */
  lemma TopBestOne(genes: seq<string>, maps: HitMaps, query: string, scores: seq<(string, nat)>,
                   ranked: seq<(string, nat)>, n: nat, g: string)
    requires scores == Candidates(genes, maps, query)
    requires multiset(ranked) == multiset(scores) && SortedBy(ranked, ByScore()) && n <= |ranked|
    requires g in genes && g != query && forall k :: 0 <= k < n ==> ranked[k].0 != g
    ensures forall i :: 0 <= i < n ==> DoubledScore(maps, ProfileOf(maps, query), g) <= ranked[i].1
  {
    var s := DoubledScore(maps, ProfileOf(maps, query), g);
    if s > 0 {
      CandidatesSpec(genes, maps, query);
      assert (g, s) in multiset(ranked);
      TopBest(ranked, n, (g, s));
    }
  }

  lemma TopMembers(genes: seq<string>, maps: HitMaps, query: string, scores: seq<(string, nat)>,
                   ranked: seq<(string, nat)>, n: nat)
    requires scores == Candidates(genes, maps, query)
    requires multiset(ranked) == multiset(scores) && n <= |ranked|
    ensures var ms := AsMatches(ranked[..n]);
            forall i :: 0 <= i < |ms| ==>
              ms[i].id in genes && ms[i].id != query && ms[i].score > 0.0 &&
              ms[i].score == DoubledScore(maps, ProfileOf(maps, query), ms[i].id) as real / 2.0
  {
    CandidatesSpec(genes, maps, query);
    var ms := AsMatches(ranked[..n]);
    forall i | 0 <= i < |ms|
      ensures ms[i].id in genes && ms[i].id != query && ms[i].score > 0.0 &&
              ms[i].score == DoubledScore(maps, ProfileOf(maps, query), ms[i].id) as real / 2.0
    {
      assert ranked[i] in multiset(scores);
    }
  }

  lemma TopOrder(ranked: seq<(string, nat)>, n: nat)
    requires SortedBy(ranked, ByScore()) && n <= |ranked|
    ensures var ms := AsMatches(ranked[..n]);
            forall i, j :: 0 <= i < j < |ms| ==> ms[i].score >= ms[j].score
  {
    var ms := AsMatches(ranked[..n]);
    forall i, j | 0 <= i < j < |ms| ensures ms[i].score >= ms[j].score {
      assert ByScore()(ranked[i], ranked[j]);
    }
  }

  lemma TopBest(ranked: seq<(string, nat)>, n: nat, c: (string, nat))
    requires SortedBy(ranked, ByScore()) && n <= |ranked| && c in ranked
    requires forall k :: 0 <= k < n ==> ranked[k].0 != c.0
    ensures forall i :: 0 <= i < n ==> c.1 <= ranked[i].1
  {
    var p :| 0 <= p < |ranked| && ranked[p] == c;
    forall i | 0 <= i < n ensures c.1 <= ranked[i].1 {
      assert ByScore()(ranked[i], ranked[p]);
    }
  }
}
