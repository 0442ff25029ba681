/**
  `SequenceCache`: the index of every FASTA file of the data directory, and
  the lookups over it. The directory is given as its listing, in listing
  order, each file with its lines; the memory-mapped reads become reads of
  the file's text (see `Fasta.Extract`).
 */
module Sequences {
  import opened Wrappers
  import opened Text
  import opened Fasta

  datatype FastaFile = FastaFile(name: string, lines: seq<string>)

  /** `sequence_index` values: the file, the body offset and the residue count. */
  datatype Location = Location(file: string, startPos: nat, length: nat)

  /** The listing filter: names ending in `.faa` or `.fasta`. */
  predicate IsFastaName(name: string) {
    EndsWith(name, ".faa") || EndsWith(name, ".fasta")
  }

  function FastaFiles(dir: seq<FastaFile>): (r: seq<FastaFile>)
    ensures forall k :: 0 <= k < |r| ==> IsFastaName(r[k].name) && r[k] in dir
    ensures forall f :: f in dir && IsFastaName(f.name) ==> f in r
  {
    if dir == [] then []
    else (if IsFastaName(dir[0].name) then [dir[0]] else []) + FastaFiles(dir[1..])
  }

  /** One file's index, each entry tagged with the file's name. */
  function Located(name: string, m: map<string, Entry>): map<string, Location> {
    map id | id in m :: Location(name, m[id].startPos, m[id].length)
  }

  /** The merged index: each file's entries overwrite those of the files
      before it. */
  function DirectoryIndex(files: seq<FastaFile>): map<string, Location> {
    if files == [] then map[]
    else DirectoryIndex(files[..|files| - 1]) + Located(files[|files| - 1].name, FileIndex(files[|files| - 1].lines))
  }

  function LengthsOf(index: map<string, Location>): map<string, nat> {
    map id | id in index :: index[id].length
  }

  /** The text of the first listed file with that name, if any. */
  function ContentOf(dir: seq<FastaFile>, name: string): Option<string> {
    if dir == [] then None
    else if dir[0].name == name then Some(Concat(dir[0].lines))
    else ContentOf(dir[1..], name)
  }

  /** Lines 72-74: copy one file's entries into the shared index and lengths. */
  method MergeFileIndex(index: map<string, Location>, lengths: map<string, nat>, name: string,
                        fileSequences: map<string, Entry>)
    returns (index': map<string, Location>, lengths': map<string, nat>)
    requires lengths == LengthsOf(index)
    ensures index' == index + Located(name, fileSequences)
    ensures lengths' == LengthsOf(index')
  {
    index', lengths' := index, lengths;
    var pending := fileSequences.Keys;
    while pending != {}
      invariant pending <= fileSequences.Keys
      invariant index' == index + Located(name, map id | id in fileSequences && id !in pending :: fileSequences[id])
      invariant lengths' == LengthsOf(index')
      decreases |pending|
    {
      var id :| id in pending;
      var e := fileSequences[id];
      index' := index'[id := Location(name, e.startPos, e.length)];
      lengths' := lengths'[id := e.length];
      pending := pending - {id};
    }
  }

  /** The loop of `_index_fasta_files`: each file indexed, then merged
      over the entries of the files before it. */
  method IndexFiles(files: seq<FastaFile>) returns (index: map<string, Location>, lengths: map<string, nat>)
    ensures index == DirectoryIndex(files)
    ensures lengths == LengthsOf(index)
  {
    index, lengths := map[], map[];
    var k := 0;
    while k < |files|
      invariant 0 <= k <= |files|
      invariant index == DirectoryIndex(files[..k])
      invariant lengths == LengthsOf(index)
    {
      var fileSequences := IndexSingleFile(files[k].lines);
      index, lengths := MergeFileIndex(index, lengths, files[k].name, fileSequences);
      DirectoryIndexStep(files, k);
      k := k + 1;
    }
    assert files[..k] == files;
  }

  lemma DirectoryIndexStep(files: seq<FastaFile>, k: nat)
    requires k < |files|
    ensures DirectoryIndex(files[..k + 1]) ==
            DirectoryIndex(files[..k]) + Located(files[k].name, FileIndex(files[k].lines))
  {
    assert files[..k + 1][..k] == files[..k];
  }

  /** `get_sequence` over a listing and an index: "" for an id that is
      not indexed or whose file is not listed, otherwise the residues read
      back from the record's file. */
  function ReadSequence(dir: seq<FastaFile>, index: map<string, Location>, id: string): (r: string)
    ensures id !in index ==> r == ""
    ensures id in index ==> |r| <= index[id].length
    ensures '\n' !in r
  {
    if id !in index then ""
    else
      var loc := index[id];
      match ContentOf(dir, loc.file)
      case None => ""
      case Some(content) => Extract(content, loc.startPos, loc.length)
  }

  class SequenceCache {
    var dataDir: seq<FastaFile>
    var sequenceIndex: map<string, Location>
    var sequenceLengths: map<string, nat>

    ghost predicate Valid()
      reads this
    {
      sequenceIndex == DirectoryIndex(FastaFiles(dataDir)) &&
      sequenceLengths == LengthsOf(sequenceIndex)
    }

    /** `__init__` with `_index_fasta_files`: index each FASTA file of the
        listing, then merge the per-file results in listing order. */
    constructor (dir: seq<FastaFile>)
      ensures dataDir == dir && Valid()
    {
      var index, lengths := IndexFiles(FastaFiles(dir));
      dataDir := dir;
      sequenceIndex := index;
      sequenceLengths := lengths;
    }

    /** `get_sequence`: "" for an id that is not indexed, otherwise the
        residues read back from the record's file. */
    function GetSequence(id: string): (r: string)
      reads this
      ensures id !in sequenceIndex ==> r == ""
      ensures id in sequenceIndex ==> |r| <= sequenceIndex[id].length
      ensures '\n' !in r
    {
      ReadSequence(dataDir, sequenceIndex, id)
    }

    /** `get_sequence_length`: the recorded residue count, 0 when not indexed. */
    function GetSequenceLength(id: string): (r: nat)
      reads this
      requires Valid()
      ensures r == if id in sequenceIndex then sequenceIndex[id].length else 0
      ensures |GetSequence(id)| <= r
    {
      if id in sequenceLengths then sequenceLengths[id] else 0
    }

    /** `get_sequences_batch`: the sequence of every requested id that is
        indexed, keyed by id. */
    method GetSequencesBatch(ids: seq<string>) returns (result: map<string, string>)
      ensures result.Keys == set id | id in ids && id in sequenceIndex
      ensures forall id :: id in result ==> result[id] == GetSequence(id)
      ensures result == Batch(ids)
    {
      result := map[];
      var i := 0;
      while i < |ids|
        invariant 0 <= i <= |ids|
        invariant result.Keys == set id | id in ids[..i] && id in sequenceIndex
        invariant forall id :: id in result ==> result[id] == GetSequence(id)
      {
        if ids[i] in sequenceIndex {
          result := result[ids[i] := GetSequence(ids[i])];
        }
        assert ids[..i + 1] == ids[..i] + [ids[i]];
        i := i + 1;
      }
      assert ids[..i] == ids;
      BatchIs(ids, result);
    }

    /** The sequences of `ids` that the cache can give, keyed by id. */
    function Batch(ids: seq<string>): map<string, string>
      reads this
    {
      map id | id in ids && id in sequenceIndex :: GetSequence(id)
    }

    lemma BatchIs(ids: seq<string>, result: map<string, string>)
      requires result.Keys == set id | id in ids && id in sequenceIndex
      requires forall id :: id in result ==> result[id] == GetSequence(id)
      ensures result == Batch(ids)
    {
    }
  }

  // ---------------------------------------------------------------------
  // What `get_sequence` returns.

  predicate DistinctNames(dir: seq<FastaFile>) {
    forall i, j :: 0 <= i < |dir| && 0 <= j < |dir| && dir[i].name == dir[j].name ==> i == j
  }

  /** The position of the last listed file whose index holds `id`, or -1. */
  function LastFileWith(files: seq<FastaFile>, id: string): (k: int)
    ensures -1 <= k < |files|
    ensures k >= 0 ==> id in FileIndex(files[k].lines)
    ensures forall j :: k < j < |files| ==> id !in FileIndex(files[j].lines)
  {
    if files == [] then -1
    else if id in FileIndex(files[|files| - 1].lines) then |files| - 1
    else LastFileWith(files[..|files| - 1], id)
  }

  /** Later files win: an id is in the merged index exactly when some file
      indexes it, and its location is the last such file's entry. */
  lemma {:induction false} DirectoryIndexSource(files: seq<FastaFile>, id: string)
    ensures id in DirectoryIndex(files) <==> LastFileWith(files, id) >= 0
    ensures id in DirectoryIndex(files) ==>
              var k := LastFileWith(files, id);
              var e := FileIndex(files[k].lines)[id];
              DirectoryIndex(files)[id] == Location(files[k].name, e.startPos, e.length)
    decreases |files|
  {
    if files != [] {
      DirectoryIndexSource(files[..|files| - 1], id);
    }
  }

  /** The position of the last header among the first `k` lines carrying `id`, or -1. */
  function LastHeaderWith(lines: seq<string>, k: nat, id: string): (h: int)
    requires k <= |lines|
    ensures -1 <= h < k
    ensures h >= 0 ==> IsHeader(lines[h]) && HeaderId(lines[h]) == Some(id)
    ensures forall j :: h < j < k && IsHeader(lines[j]) ==> HeaderId(lines[j]) != Some(id)
  {
    if k == 0 then -1
    else if IsHeader(lines[k - 1]) && HeaderId(lines[k - 1]) == Some(id) then k - 1
    else LastHeaderWith(lines, k - 1, id)
  }

  /** A file's entry for an id is the record of the last header carrying it. */
  lemma {:induction false} IndexEntryIsRecord(lines: seq<string>, k: nat, id: string)
    requires k <= |lines|
    ensures id in IndexUpTo(lines, k) <==> LastHeaderWith(lines, k, id) >= 0
    ensures id in IndexUpTo(lines, k) ==> IndexUpTo(lines, k)[id] == EntryAt(lines, LastHeaderWith(lines, k, id))
  {
    if k > 0 {
      IndexEntryIsRecord(lines, k - 1, id);
    }
  }

  lemma {:induction false} ContentOfListed(dir: seq<FastaFile>, i: nat)
    requires i < |dir| && DistinctNames(dir)
    ensures ContentOf(dir, dir[i].name) == Some(Concat(dir[i].lines))
    decreases |dir|
  {
    if i > 0 {
      assert dir[0].name != dir[i].name;
      var rest := dir[1..];
      assert DistinctNames(rest) by {
        forall a, b | 0 <= a < |rest| && 0 <= b < |rest| && rest[a].name == rest[b].name ensures a == b {
          assert rest[a] == dir[a + 1] && rest[b] == dir[b + 1];
        }
      }
      ContentOfListed(rest, i - 1);
    }
  }

  /** Every line of every file ends with a line break and holds no other. */
  predicate WellEndedFiles(dir: seq<FastaFile>) {
    forall f :: f in dir ==> forall k :: 0 <= k < |f.lines| ==> WellEnded(f.lines[k])
  }

  /** Round trip through the cache: in a directory of well-ended FASTA files
      with distinct names, the sequence returned for an indexed id is the
      residues, less one stop '*', of the last record carrying that id in the
      last listed FASTA file that has one. */
  lemma GetSequenceRoundTrip(c: SequenceCache, id: string)
    requires c.Valid() && DistinctNames(c.dataDir)
    requires WellEndedFiles(c.dataDir)
    requires id in c.sequenceIndex
    ensures var files := FastaFiles(c.dataDir);
            var k := LastFileWith(files, id);
            k >= 0 &&
            var lines := files[k].lines;
            var h := LastHeaderWith(lines, |lines|, id);
            h >= 0 &&
            c.GetSequence(id) == RecordSequence(lines, h)
  {
    IndexedRecord(c.dataDir, id);
  }

  /** The location the directory index gives an id points at the record of
      its last header in the last FASTA file that indexes it. */
  lemma IndexedRecord(dir: seq<FastaFile>, id: string)
    requires DistinctNames(dir)
    requires WellEndedFiles(dir)
    requires id in DirectoryIndex(FastaFiles(dir))
    ensures var files := FastaFiles(dir);
            var k := LastFileWith(files, id);
            k >= 0 &&
            var lines := files[k].lines;
            var h := LastHeaderWith(lines, |lines|, id);
            h >= 0 && ReadSequence(dir, DirectoryIndex(files), id) == RecordSequence(lines, h)
  {
    var files := FastaFiles(dir);
    IndexedLocation(files, id);
    var f := files[LastFileWith(files, id)];
    var h := LastHeaderWith(f.lines, |f.lines|, id);
    var i :| 0 <= i < |dir| && dir[i] == f;
    ContentOfListed(dir, i);
    ExtractIndexedRecord(f.lines, h);
  }

  /** The location of an indexed id is the entry of its last header in the
      last file that indexes it. */
  lemma IndexedLocation(files: seq<FastaFile>, id: string)
    requires id in DirectoryIndex(files)
    ensures var k := LastFileWith(files, id);
            k >= 0 &&
            var lines := files[k].lines;
            var h := LastHeaderWith(lines, |lines|, id);
            h >= 0 && IsHeader(lines[h]) &&
            DirectoryIndex(files)[id] == Location(files[k].name, EntryAt(lines, h).startPos, EntryAt(lines, h).length)
  {
    DirectoryIndexSource(files, id);
    var k := LastFileWith(files, id);
    IndexEntryIsRecord(files[k].lines, |files[k].lines|, id);
  }
}
