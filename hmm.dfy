/**
  `_process_hmm_data` and the padding of `process_hmm_hits`: rows of an
  HMM hits table become a map from sequence id to its hits, with defaults
  for numbers that do not parse, and (for metagenome tables) the largest
  `env_to` seen per sequence.
 */
module Hmm {
  import opened Wrappers
  import opened PyBuiltins

  /** A numeric cell of a hits table as it reaches `float()` / `int()`:
      a finite number, a missing value (NaN), an infinity, or text (an
      object column). Text carries what Python makes of it: `asFloat` is
      the finite value `float(s)` returns (None when it raises, or when it
      gives NaN or an infinity, as for "nan" or "inf"), `asInt` the value
      `int(s)` returns (None when it raises, as for "12.5" or "abc"). */
  datatype Field = Number(x: real) | NaN | Infinite | Text(s: string, asFloat: Option<real>, asInt: Option<int>)

  datatype HmmRow = HmmRow(sequenceId: string, hmmName: string,
                           bitscore: Field, evalue: Field, envFrom: Field, envTo: Field)

  /** One entry of a domain map: `hmm_name`, `bitscore`, `e_value`, `start`, `end`. */
  datatype Hit = Hit(hmmName: string, bitscore: real, eValue: real, start: int, end: int)

  type DomainMap = map<string, seq<Hit>>

  /** `float(v)` with a default for anything that fails or is NaN or infinite. */
  function FloatOr(f: Field, default: real): (r: real)
    ensures f.Number? ==> r == f.x
    ensures f.Text? && f.asFloat.Some? ==> r == f.asFloat.value
    ensures f.NaN? || f.Infinite? || (f.Text? && f.asFloat.None?) ==> r == default
  {
    match f
    case Number(x) => x
    case Text(_, Some(x), _) => x
    case _ => default
  }

  /** `int(v)` with a default of 1: a finite number is truncated towards
      zero, integer text is read; NaN and other text raise `ValueError`,
      infinity `OverflowError`. */
  function IntOr1(f: Field): (r: int)
    ensures f.Number? ==> r == Trunc(f.x)
    ensures f.Text? && f.asInt.Some? ==> r == f.asInt.value
    ensures f.NaN? || f.Infinite? || (f.Text? && f.asInt.None?) ==> r == 1
  {
    match f
    case Number(x) => Trunc(x)
    case Text(_, _, Some(n)) => n
    case _ => 1
  }

  /** The hit recorded for one row (lines 473-508). */
  function ParseHit(row: HmmRow): (h: Hit)
    ensures h.hmmName == row.hmmName
    ensures h.bitscore == FloatOr(row.bitscore, 0.0) && h.eValue == FloatOr(row.evalue, 1.0)
    ensures h.start == IntOr1(row.envFrom) && h.end == IntOr1(row.envTo)
  {
    Hit(row.hmmName, FloatOr(row.bitscore, 0.0), FloatOr(row.evalue, 1.0),
        IntOr1(row.envFrom), IntOr1(row.envTo))
  }

  /** A hit written back as a row of a hits table for sequence `id`. */
  function WrittenRow(id: string, h: Hit): HmmRow {
    HmmRow(id, h.hmmName, Number(h.bitscore), Number(h.eValue), Number(h.start as real), Number(h.end as real))
  }

  function WrittenRows(id: string, hs: seq<Hit>): (rows: seq<HmmRow>)
    ensures |rows| == |hs|
    ensures forall k :: 0 <= k < |hs| ==> rows[k] == WrittenRow(id, hs[k])
  {
    if hs == [] then [] else WrittenRows(id, hs[..|hs| - 1]) + [WrittenRow(id, hs[|hs| - 1])]
  }

  /** Parsing a written hit gives the hit back: positions are whole, so
      truncation keeps them. */
  lemma ParseWritten(id: string, h: Hit)
    ensures ParseHit(WrittenRow(id, h)) == h
  {
    TruncWhole(h.start);
    TruncWhole(h.end);
  }

  /** A table written from one sequence's hits, parsed again, lists those
      hits for that sequence in the same order. */
  lemma {:induction false} ParseWrittenHits(id: string, hs: seq<Hit>)
    ensures HitsOf(WrittenRows(id, hs), id) == hs
  {
    if hs != [] {
      var rows := WrittenRows(id, hs);
      assert rows[..|rows| - 1] == WrittenRows(id, hs[..|hs| - 1]);
      ParseWrittenHits(id, hs[..|hs| - 1]);
      ParseWritten(id, hs[|hs| - 1]);
    }
  }

  function HitsAt(m: DomainMap, id: string): seq<Hit> {
    if id in m then m[id] else []
  }

  /** The hits of the rows for one sequence, in row order. */
  function HitsOf(rows: seq<HmmRow>, id: string): (r: seq<Hit>)
    ensures |r| <= |rows|
  {
    if rows == [] then []
    else HitsOf(rows[..|rows| - 1], id) +
         (if rows[|rows| - 1].sequenceId == id then [ParseHit(rows[|rows| - 1])] else [])
  }

  /** `domain_map` after appending one hit per row, in order. */
  function AppendHits(m: DomainMap, rows: seq<HmmRow>): DomainMap {
    if rows == [] then m
    else
      var m' := AppendHits(m, rows[..|rows| - 1]);
      var row := rows[|rows| - 1];
      m'[row.sequenceId := HitsAt(m', row.sequenceId) + [ParseHit(row)]]
  }

  /** The largest parsed `env_to` per sequence id of the rows. */
  function EndPositions(rows: seq<HmmRow>): map<string, int> {
    if rows == [] then map[]
    else
      var ends := EndPositions(rows[..|rows| - 1]);
      var row := rows[|rows| - 1];
      var e := IntOr1(row.envTo);
      if row.sequenceId !in ends || e > ends[row.sequenceId] then ends[row.sequenceId := e] else ends
  }

  /** The lengths after raising each sequence to its end position where that is larger. */
  function RaiseTo(lengths: map<string, int>, ends: map<string, int>): map<string, int> {
    map id | id in lengths.Keys + ends.Keys :: Raised(lengths, ends, id)
  }

  function Raised(lengths: map<string, int>, ends: map<string, int>, id: string): int
    requires id in lengths || id in ends
  {
    if id in ends && (id !in lengths || ends[id] > lengths[id]) then ends[id] else lengths[id]
  }

  // ---------------------------------------------------------------------
  // What the hit map holds.

  /** Every id's list is its old list followed by one hit per row for that
      id, in row order; exactly the ids of the rows are added. */
  lemma {:induction false} AppendHitsSpec(m: DomainMap, rows: seq<HmmRow>, id: string)
    ensures HitsAt(AppendHits(m, rows), id) == HitsAt(m, id) + HitsOf(rows, id)
    ensures id in AppendHits(m, rows) <==> id in m || exists k :: 0 <= k < |rows| && rows[k].sequenceId == id
  {
    if rows != [] {
      var init := rows[..|rows| - 1];
      AppendHitsSpec(m, init, id);
      assert forall k :: 0 <= k < |init| ==> init[k] == rows[k];
      if id in m || exists k :: 0 <= k < |rows| && rows[k].sequenceId == id {
        if id !in m && rows[|rows| - 1].sequenceId != id {
          var k :| 0 <= k < |rows| && rows[k].sequenceId == id;
          assert init[k].sequenceId == id;
        }
      }
    }
  }

  /** One hit per row: a row's hit sits in its own sequence's list. */
  lemma {:induction false} RowHitRecorded(rows: seq<HmmRow>, k: nat)
    requires k < |rows|
    ensures ParseHit(rows[k]) in HitsOf(rows, rows[k].sequenceId)
  {
    var init := rows[..|rows| - 1];
    if k < |rows| - 1 {
      assert init[k] == rows[k];
      RowHitRecorded(init, k);
    }
  }

  /** An id's list holds exactly as many hits as the id has rows. */
  lemma {:induction false} HitsCount(rows: seq<HmmRow>, id: string)
    ensures |HitsOf(rows, id)| == |set k | 0 <= k < |rows| && rows[k].sequenceId == id|
  {
    if rows != [] {
      var n := |rows| - 1;
      var init := rows[..n];
      HitsCount(init, id);
      RowIndicesStep(rows, id);
    }
  }

  lemma RowIndicesStep(rows: seq<HmmRow>, id: string)
    requires rows != []
    ensures var n := |rows| - 1;
            var before := set k | 0 <= k < n && rows[..n][k].sequenceId == id;
            var now := set k | 0 <= k < |rows| && rows[k].sequenceId == id;
            |now| == |before| + if rows[n].sequenceId == id then 1 else 0
  {
    var n := |rows| - 1;
    var before := set k | 0 <= k < n && rows[..n][k].sequenceId == id;
    var now := set k | 0 <= k < |rows| && rows[k].sequenceId == id;
    if rows[n].sequenceId == id {
      assert now == before + {n};
    } else {
      assert now == before;
    }
  }

  /** The recorded end is the largest `env_to` of that sequence's rows. */
  lemma {:induction false} EndPositionsSpec(rows: seq<HmmRow>, id: string)
    ensures id in EndPositions(rows) <==> exists k :: 0 <= k < |rows| && rows[k].sequenceId == id
    ensures id in EndPositions(rows) ==>
              (forall k :: 0 <= k < |rows| && rows[k].sequenceId == id ==> IntOr1(rows[k].envTo) <= EndPositions(rows)[id]) &&
              exists k :: 0 <= k < |rows| && rows[k].sequenceId == id && IntOr1(rows[k].envTo) == EndPositions(rows)[id]
  {
    if rows != [] {
      var init := rows[..|rows| - 1];
      EndPositionsSpec(init, id);
      assert forall k :: 0 <= k < |init| ==> init[k] == rows[k];
      if id in EndPositions(init) {
        var k :| 0 <= k < |init| && init[k].sequenceId == id && IntOr1(init[k].envTo) == EndPositions(init)[id];
        assert rows[k] == init[k];
      }
      if id !in EndPositions(init) && exists k :: 0 <= k < |rows| && rows[k].sequenceId == id {
        var k :| 0 <= k < |rows| && rows[k].sequenceId == id;
        assert k == |rows| - 1;
      }
    }
  }

  /** Raising never lowers a length and never loses a sequence. */
  lemma RaiseToMonotone(lengths: map<string, int>, ends: map<string, int>)
    ensures RaiseTo(lengths, ends).Keys == lengths.Keys + ends.Keys
    ensures forall id :: id in lengths ==> RaiseTo(lengths, ends)[id] >= lengths[id]
    ensures forall id :: id in ends ==> RaiseTo(lengths, ends)[id] >= ends[id]
    ensures forall id :: id in RaiseTo(lengths, ends) ==>
              RaiseTo(lengths, ends)[id] == (if id in lengths then lengths[id] else ends[id]) ||
              (id in ends && RaiseTo(lengths, ends)[id] == ends[id])
  {
  }

  // ---------------------------------------------------------------------
  // The loops.

  /** The row loop of `_process_hmm_data` (lines 469-513): append one hit
      per row to `domainMap` and, for metagenome tables, track the largest
      end position per sequence. */
  method CollectHits(rows: seq<HmmRow>, domainMap: DomainMap, isMetagenome: bool)
    returns (domainMap': DomainMap, ends: map<string, int>)
    ensures domainMap' == AppendHits(domainMap, rows)
    ensures ends == if isMetagenome then EndPositions(rows) else map[]
  {
    domainMap' := domainMap;
    ends := map[];
    var i := 0;
    while i < |rows|
      invariant 0 <= i <= |rows|
      invariant domainMap' == AppendHits(domainMap, rows[..i])
      invariant ends == if isMetagenome then EndPositions(rows[..i]) else map[]
    {
      var row := rows[i];
      var hit := ParseHit(row);
      if isMetagenome {
        if row.sequenceId !in ends || hit.end > ends[row.sequenceId] {
          ends := ends[row.sequenceId := hit.end];
        }
      }
      var list := if row.sequenceId in domainMap' then domainMap'[row.sequenceId] else [];
      domainMap' := domainMap'[row.sequenceId := list + [hit]];
      HitsStep(domainMap, rows, i);
      i := i + 1;
    }
    assert rows[..i] == rows;
  }

  lemma HitsStep(m: DomainMap, rows: seq<HmmRow>, i: nat)
    requires i < |rows|
    ensures var before, row := AppendHits(m, rows[..i]), rows[i];
            AppendHits(m, rows[..i + 1]) == before[row.sequenceId := HitsAt(before, row.sequenceId) + [ParseHit(row)]]
    ensures var ends, row := EndPositions(rows[..i]), rows[i];
            var e := IntOr1(row.envTo);
            EndPositions(rows[..i + 1]) == if row.sequenceId !in ends || e > ends[row.sequenceId] then ends[row.sequenceId := e] else ends
  {
    assert rows[..i + 1][..i] == rows[..i];
  }

  /** Lines 520-524: fold the end positions into the sequence lengths,
      keeping the larger value. */
  method RaiseLengths(lengths: map<string, int>, ends: map<string, int>) returns (lengths': map<string, int>)
    ensures lengths' == RaiseTo(lengths, ends)
  {
    lengths' := lengths;
    var pending := ends.Keys;
    while pending != {}
      invariant pending <= ends.Keys
      invariant forall id :: id in lengths' <==> id in lengths || (id in ends && id !in pending)
      invariant forall id :: id in lengths' ==>
                  lengths'[id] == if id in pending || id !in ends then lengths[id] else Raised(lengths, ends, id)
      decreases |pending|
    {
      var id :| id in pending;
      if id !in lengths' || ends[id] > lengths'[id] {
        lengths' := lengths'[id := ends[id]];
      }
      pending := pending - {id};
    }
    assert lengths'.Keys == RaiseTo(lengths, ends).Keys;
  }

  /** Lines 428-437: every binder gene gets an (empty) entry if it has none. */
  method PadGenes(m: DomainMap, genes: seq<string>) returns (m': DomainMap)
    ensures m'.Keys == m.Keys + set g | g in genes
    ensures forall id :: id in m ==> m'[id] == m[id]
    ensures forall id :: id in m' && id !in m ==> m'[id] == []
  {
    m' := m;
    var i := 0;
    while i < |genes|
      invariant 0 <= i <= |genes|
      invariant m'.Keys == m.Keys + set g | g in genes[..i]
      invariant forall id :: id in m ==> m'[id] == m[id]
      invariant forall id :: id in m' && id !in m ==> m'[id] == []
    {
      if genes[i] !in m' {
        m' := m'[genes[i] := []];
      }
      assert genes[..i + 1] == genes[..i] + [genes[i]];
      i := i + 1;
    }
    assert genes[..i] == genes;
  }
}
