/**
  The two FASTA readers of the data processor, on a file given as the lines
  Python's text-mode iteration yields (each line keeps its '\n'), and the
  residue extraction that reads a record back from the file's characters.

  * The indexer (`SequenceCache._index_single_file`) recognises a header by a
    raw leading '>', keys it by the first whitespace token after the '>',
    and records where the record's body starts and how many non-blank
    characters its lines hold.
  * The length loader (`_load_sequence_lengths_from_fasta`) strips each line
    first, keys a token-less header by "", and stores a record only when at
    least one line followed its header.
 */
module Fasta {
  import opened Wrappers
  import opened Text

  /** Where a record's body starts in its file, and its residue count. */
  datatype Entry = Entry(startPos: nat, length: nat)

  /** The file's text: the lines laid end to end. */
  function Concat(lines: seq<string>): (r: string)
    ensures |lines| > 0 ==> StartsWith(r, lines[0])
  {
    if lines == [] then [] else lines[0] + Concat(lines[1..])
  }

  lemma {:induction false} ConcatAppend(a: seq<string>, b: seq<string>)
    ensures Concat(a + b) == Concat(a) + Concat(b)
    decreases |a|
  {
    if a == [] {
      assert a + b == b;
    } else {
      assert (a + b)[1..] == a[1..] + b;
      ConcatAppend(a[1..], b);
    }
  }

  /** The indexer's `pos` when it reaches line `k`. */
  function Offset(lines: seq<string>, k: nat): nat
    requires k <= |lines|
  {
    |Concat(lines[..k])|
  }

  lemma OffsetStep(lines: seq<string>, k: nat)
    requires k < |lines|
    ensures Offset(lines, k + 1) == Offset(lines, k) + |lines[k]|
  {
    assert lines[..k + 1] == lines[..k] + [lines[k]];
    ConcatAppend(lines[..k], [lines[k]]);
  }

  // ---------------------------------------------------------------------
  // What a header is, for each reader.

  /** The indexer's test: `line.startswith('>')` on the raw line. */
  predicate IsHeader(line: string) {
    StartsWith(line, ">")
  }

  /** The indexer's key: `line[1:].split()[0]`, or none for a token-less header. */
  function HeaderId(line: string): Option<string>
    requires IsHeader(line)
  {
    FirstToken(line[1..])
  }

  /** The length loader's test: the stripped line starts with '>'. */
  predicate IsLoaderHeader(line: string) {
    StartsWith(Strip(line), ">")
  }

  /** The length loader's key: the first token of the stripped header, or "". */
  function LoaderId(line: string): string
    requires IsLoaderHeader(line)
  {
    FirstToken(Strip(line)[1..]).GetOr("")
  }

  /** The first header at or after line `i`, or the end of the file. */
  function NextHeader(lines: seq<string>, i: nat, isHeader: string -> bool): (r: nat)
    requires i <= |lines|
    ensures i <= r <= |lines|
    ensures r < |lines| ==> isHeader(lines[r])
    ensures forall j :: i <= j < r ==> !isHeader(lines[j])
    decreases |lines| - i
  {
    if i == |lines| || isHeader(lines[i]) then i else NextHeader(lines, i + 1, isHeader)
  }

  /** The number of non-blank characters in lines `a` to `b`: the sum of
      `len(line.strip())`, which both readers compute. */
  function ResidueCount(lines: seq<string>, a: nat, b: nat): nat
    requires a <= b <= |lines|
    decreases b - a
  {
    if a == b then 0 else ResidueCount(lines, a, b - 1) + |Strip(lines[b - 1])|
  }

  // ---------------------------------------------------------------------
  // The indexer.

  /** The record that the header on line `h` opens. */
  function EntryAt(lines: seq<string>, h: nat): Entry
    requires h < |lines|
  {
    Entry(Offset(lines, h + 1), ResidueCount(lines, h + 1, NextHeader(lines, h + 1, IsHeader)))
  }

  /** The indexer's dictionary after the headers among the first `k` lines,
      each header overwriting an earlier one with the same key. */
  function IndexUpTo(lines: seq<string>, k: nat): map<string, Entry>
    requires k <= |lines|
  {
    if k == 0 then map[]
    else
      var m := IndexUpTo(lines, k - 1);
      var line := lines[k - 1];
      if IsHeader(line) && HeaderId(line).Some? then m[HeaderId(line).value := EntryAt(lines, k - 1)] else m
  }

  function FileIndex(lines: seq<string>): map<string, Entry> {
    IndexUpTo(lines, |lines|)
  }

  lemma {:induction false} IndexUpToQuiet(lines: seq<string>, a: nat, b: nat)
    requires a <= b <= |lines|
    requires forall j :: a <= j < b ==> !IsHeader(lines[j])
    ensures IndexUpTo(lines, b) == IndexUpTo(lines, a)
    decreases b - a
  {
    if a < b {
      IndexUpToQuiet(lines, a, b - 1);
    }
  }

  /** `_index_single_file`, scanning the lines once. */
  method IndexSingleFile(lines: seq<string>) returns (sequences: map<string, Entry>)
    ensures sequences == FileIndex(lines)
  {
    sequences := map[];
    var currentId: Option<string> := None;
    var startPos: nat := 0;
    var sequenceLength: nat := 0;
    var pos: nat := 0;
    ghost var last: int := -1;
    var i := 0;
    while i < |lines|
      invariant 0 <= i <= |lines|
      invariant pos == Offset(lines, i)
      invariant -1 <= last < i
      invariant forall j :: last < j < i ==> !IsHeader(lines[j])
      invariant last == -1 ==> currentId.None? && sequences == map[]
      invariant last >= 0 ==> IsHeader(lines[last]) && currentId == HeaderId(lines[last])
      invariant last >= 0 ==> sequences == IndexUpTo(lines, last) && startPos == Offset(lines, last + 1)
      invariant last >= 0 && currentId.Some? ==> sequenceLength == ResidueCount(lines, last + 1, i)
    {
      var line := lines[i];
      if StartsWith(line, ">") {
        IndexClose(lines, last, i, sequences, currentId, startPos, sequenceLength);
        if currentId.Some? {
          sequences := sequences[currentId.value := Entry(startPos, sequenceLength)];
        }
        currentId := FirstToken(line[1..]);
        OffsetStep(lines, i);
        startPos := pos + |line|;
        sequenceLength := 0;
        last := i;
      } else if currentId.Some? {
        sequenceLength := sequenceLength + |Strip(line)|;
      }
      OffsetStep(lines, i);
      pos := pos + |line|;
      i := i + 1;
    }
    IndexClose(lines, last, |lines|, sequences, currentId, startPos, sequenceLength);
    if currentId.Some? {
      sequences := sequences[currentId.value := Entry(startPos, sequenceLength)];
    }
  }

  /** Reaching the next header (or the end) at line `i` closes the record
      that the header on line `last` opened: storing it gives the index of
      the first `i` lines. */
  lemma IndexClose(lines: seq<string>, last: int, i: nat, sequences: map<string, Entry>, currentId: Option<string>,
                   startPos: nat, sequenceLength: nat)
    requires -1 <= last < i <= |lines|
    requires forall j :: last < j < i ==> !IsHeader(lines[j])
    requires i == |lines| || IsHeader(lines[i])
    requires last == -1 ==> currentId.None? && sequences == map[]
    requires last >= 0 ==> IsHeader(lines[last]) && currentId == HeaderId(lines[last])
    requires last >= 0 ==> sequences == IndexUpTo(lines, last) && startPos == Offset(lines, last + 1)
    requires last >= 0 && currentId.Some? ==> sequenceLength == ResidueCount(lines, last + 1, i)
    ensures IndexUpTo(lines, i) ==
            if currentId.Some? then sequences[currentId.value := Entry(startPos, sequenceLength)] else sequences
  {
    if last >= 0 {
      IndexQuietAfter(lines, last, i);
    } else {
      IndexUpToQuiet(lines, 0, i);
    }
  }

  /** The lines after a header up to the next one add nothing, and the
      next one is where its record ends. */
  lemma IndexQuietAfter(lines: seq<string>, last: nat, i: nat)
    requires last < i <= |lines|
    requires forall j :: last < j < i ==> !IsHeader(lines[j])
    requires i == |lines| || IsHeader(lines[i])
    ensures IndexUpTo(lines, i) == IndexUpTo(lines, last + 1)
    ensures NextHeader(lines, last + 1, IsHeader) == i
  {
    NextHeaderAt(lines, last + 1, i);
    IndexUpToQuiet(lines, last + 1, i);
  }

  lemma {:induction false} NextHeaderAt(lines: seq<string>, i: nat, n: nat)
    requires i <= n <= |lines|
    requires forall j :: i <= j < n ==> !IsHeader(lines[j])
    requires n == |lines| || IsHeader(lines[n])
    ensures NextHeader(lines, i, IsHeader) == n
    decreases n - i
  {
    if i < n {
      NextHeaderAt(lines, i + 1, n);
    }
  }

  /** A key is indexed exactly when some header carries it as its first token. */
  lemma {:induction false} IndexedIff(lines: seq<string>, k: nat, id: string)
    requires k <= |lines|
    ensures id in IndexUpTo(lines, k) <==>
            exists h :: 0 <= h < k && IsHeader(lines[h]) && HeaderId(lines[h]) == Some(id)
  {
    if k > 0 {
      IndexedIff(lines, k - 1, id);
      var line := lines[k - 1];
      if IsHeader(line) && HeaderId(line) == Some(id) {
        assert 0 <= k - 1 < k && IsHeader(lines[k - 1]) && HeaderId(lines[k - 1]) == Some(id);
      }
    }
  }

  /** The entry of a key is the record of the LAST header carrying it: a
      duplicate key keeps the later record, and the last record of the file,
      which no later header closes, runs to the end of the file. */
  lemma {:induction false} LaterHeaderWins(lines: seq<string>, k: nat, h: nat, id: string)
    requires h < k <= |lines|
    requires IsHeader(lines[h]) && HeaderId(lines[h]) == Some(id)
    requires forall j :: h < j < k && IsHeader(lines[j]) ==> HeaderId(lines[j]) != Some(id)
    ensures id in IndexUpTo(lines, k) && IndexUpTo(lines, k)[id] == EntryAt(lines, h)
    decreases k
  {
    if k - 1 > h {
      LaterHeaderWins(lines, k - 1, h, id);
    }
  }

  /** The record of the last header of a file holds every remaining line. */
  lemma LastRecordRunsToEnd(lines: seq<string>, h: nat)
    requires h < |lines| && IsHeader(lines[h]) && HeaderId(lines[h]).Some?
    requires forall j :: h < j < |lines| ==> !IsHeader(lines[j])
    ensures HeaderId(lines[h]).value in FileIndex(lines)
    ensures FileIndex(lines)[HeaderId(lines[h]).value] ==
            Entry(Offset(lines, h + 1), ResidueCount(lines, h + 1, |lines|))
  {
    LaterHeaderWins(lines, |lines|, h, HeaderId(lines[h]).value);
    NextHeaderAt(lines, h + 1, |lines|);
  }

  /** Lines outside any keyed record (before the first header, or after a
      token-less header) add nothing: the residue count of a record is that
      of the lines between its header and the next header. */
  lemma {:induction false} ResidueCountSplit(lines: seq<string>, a: nat, m: nat, b: nat)
    requires a <= m <= b <= |lines|
    ensures ResidueCount(lines, a, b) == ResidueCount(lines, a, m) + ResidueCount(lines, m, b)
    decreases b - m
  {
    if m < b {
      ResidueCountSplit(lines, a, m, b - 1);
    }
  }

  // ---------------------------------------------------------------------
  // The length loader.

  /** The stripped lines `a` to `b`, as the loader collects them in `current_seq`. */
  function StrippedLines(lines: seq<string>, a: nat, b: nat): (r: seq<string>)
    requires a <= b <= |lines|
    ensures |r| == b - a
  {
    seq(b - a, j requires 0 <= j < b - a => Strip(lines[a + j]))
  }

  lemma {:induction false} StrippedLinesLength(lines: seq<string>, a: nat, b: nat)
    requires a <= b <= |lines|
    ensures |Concat(StrippedLines(lines, a, b))| == ResidueCount(lines, a, b)
    decreases b - a
  {
    if a < b {
      StrippedLinesLength(lines, a, b - 1);
      assert StrippedLines(lines, a, b) == StrippedLines(lines, a, b - 1) + [Strip(lines[b - 1])];
      ConcatAppend(StrippedLines(lines, a, b - 1), [Strip(lines[b - 1])]);
    }
  }

  /** The loader's dictionary after the headers among the first `k` lines:
      a header whose record has at least one line stores its residue count. */
  function LengthsUpTo(lines: seq<string>, k: nat): map<string, nat>
    requires k <= |lines|
  {
    if k == 0 then map[]
    else
      var m := LengthsUpTo(lines, k - 1);
      var line := lines[k - 1];
      var n := NextHeader(lines, k, IsLoaderHeader);
      if IsLoaderHeader(line) && n > k then m[LoaderId(line) := ResidueCount(lines, k, n)] else m
  }

  function FileLengths(lines: seq<string>): map<string, nat> {
    LengthsUpTo(lines, |lines|)
  }

  lemma {:induction false} LengthsUpToQuiet(lines: seq<string>, a: nat, b: nat)
    requires a <= b <= |lines|
    requires forall j :: a <= j < b ==> !IsLoaderHeader(lines[j])
    ensures LengthsUpTo(lines, b) == LengthsUpTo(lines, a)
    decreases b - a
  {
    if a < b {
      LengthsUpToQuiet(lines, a, b - 1);
    }
  }

  lemma {:induction false} NextLoaderHeaderAt(lines: seq<string>, i: nat, n: nat)
    requires i <= n <= |lines|
    requires forall j :: i <= j < n ==> !IsLoaderHeader(lines[j])
    requires n == |lines| || IsLoaderHeader(lines[n])
    ensures NextHeader(lines, i, IsLoaderHeader) == n
    decreases n - i
  {
    if i < n {
      NextLoaderHeaderAt(lines, i + 1, n);
    }
  }

  /** The lines after a loader header up to the next one add nothing, and
      the next one is where its record ends. */
  lemma LengthsQuietAfter(lines: seq<string>, last: nat, i: nat)
    requires last < i <= |lines|
    requires forall j :: last < j < i ==> !IsLoaderHeader(lines[j])
    requires i == |lines| || IsLoaderHeader(lines[i])
    ensures LengthsUpTo(lines, i) == LengthsUpTo(lines, last + 1)
    ensures NextHeader(lines, last + 1, IsLoaderHeader) == i
  {
    LengthsUpToQuiet(lines, last + 1, i);
    NextLoaderHeaderAt(lines, last + 1, i);
  }

  /** Writing one key over a merged dictionary. */
  lemma OverrideUpdate(acc: map<string, nat>, m: map<string, nat>, id: string, v: nat)
    ensures acc + m[id := v] == (acc + m)[id := v]
  {
  }

  /** One file of `_load_sequence_lengths_from_fasta`, writing into the
      dictionary `acc` that all files share. */
  method LoadFileLengths(lines: seq<string>, acc: map<string, nat>) returns (sequenceLengths: map<string, nat>)
    ensures sequenceLengths == acc + FileLengths(lines)
  {
    sequenceLengths := acc;
    var currentId: Option<string> := None;
    var currentSeq: seq<string> := [];
    ghost var last: int := -1;
    var i := 0;
    while i < |lines|
      invariant 0 <= i <= |lines|
      invariant -1 <= last < i
      invariant forall j :: last < j < i ==> !IsLoaderHeader(lines[j])
      invariant currentSeq == StrippedLines(lines, last + 1, i)
      invariant last == -1 ==> currentId.None? && sequenceLengths == acc
      invariant last >= 0 ==> IsLoaderHeader(lines[last]) && currentId == Some(LoaderId(lines[last]))
      invariant last >= 0 ==> sequenceLengths == acc + LengthsUpTo(lines, last)
    {
      var line := Strip(lines[i]);
      if StartsWith(line, ">") {
        LoaderClose(lines, acc, last, i, sequenceLengths, currentId, currentSeq);
        if currentId.Some? && currentSeq != [] {
          sequenceLengths := sequenceLengths[currentId.value := |Concat(currentSeq)|];
        }
        currentId := Some(FirstToken(line[1..]).GetOr(""));
        currentSeq := [];
        last := i;
      } else {
        StrippedStep(lines, last + 1, i);
        currentSeq := currentSeq + [line];
      }
      i := i + 1;
    }
    LoaderClose(lines, acc, last, |lines|, sequenceLengths, currentId, currentSeq);
    if currentId.Some? && currentSeq != [] {
      sequenceLengths := sequenceLengths[currentId.value := |Concat(currentSeq)|];
    }
  }

  /** Reaching the next loader header (or the end) at line `i` closes the
      record of the header on line `last`: storing its length when it has
      lines gives the lengths of the first `i` lines. */
  lemma LoaderClose(lines: seq<string>, acc: map<string, nat>, last: int, i: nat, sequenceLengths: map<string, nat>,
                    currentId: Option<string>, currentSeq: seq<string>)
    requires -1 <= last < i <= |lines|
    requires forall j :: last < j < i ==> !IsLoaderHeader(lines[j])
    requires i == |lines| || IsLoaderHeader(lines[i])
    requires currentSeq == StrippedLines(lines, last + 1, i)
    requires last == -1 ==> currentId.None? && sequenceLengths == acc
    requires last >= 0 ==> IsLoaderHeader(lines[last]) && currentId == Some(LoaderId(lines[last]))
    requires last >= 0 ==> sequenceLengths == acc + LengthsUpTo(lines, last)
    ensures acc + LengthsUpTo(lines, i) ==
            if currentId.Some? && currentSeq != [] then sequenceLengths[currentId.value := |Concat(currentSeq)|]
            else sequenceLengths
  {
    if last >= 0 {
      LoaderCloseRecord(lines, acc, last, i, sequenceLengths);
      CollectedLines(lines, last + 1, i, currentSeq);
    } else {
      LengthsUpToQuiet(lines, 0, i);
      assert acc + map[] == acc;
    }
  }

  lemma StrippedStep(lines: seq<string>, a: nat, i: nat)
    requires a <= i < |lines|
    ensures StrippedLines(lines, a, i + 1) == StrippedLines(lines, a, i) + [Strip(lines[i])]
  {
  }

  /** The collected lines are empty only for an empty record, and their
      joined length is the record's residue count. */
  lemma CollectedLines(lines: seq<string>, a: nat, b: nat, collected: seq<string>)
    requires a <= b <= |lines| && collected == StrippedLines(lines, a, b)
    ensures collected != [] <==> b > a
    ensures |Concat(collected)| == ResidueCount(lines, a, b)
  {
    StrippedLinesLength(lines, a, b);
  }

  lemma LoaderCloseRecord(lines: seq<string>, acc: map<string, nat>, last: nat, i: nat,
                          sequenceLengths: map<string, nat>)
    requires last < i <= |lines|
    requires forall j :: last < j < i ==> !IsLoaderHeader(lines[j])
    requires i == |lines| || IsLoaderHeader(lines[i])
    requires IsLoaderHeader(lines[last]) && sequenceLengths == acc + LengthsUpTo(lines, last)
    ensures acc + LengthsUpTo(lines, i) ==
            if i > last + 1 then sequenceLengths[LoaderId(lines[last]) := ResidueCount(lines, last + 1, i)]
            else sequenceLengths
  {
    var m := LengthsUpTo(lines, last);
    LengthsQuietAfter(lines, last, i);
    if i > last + 1 {
      OverrideUpdate(acc, m, LoaderId(lines[last]), ResidueCount(lines, last + 1, i));
    }
  }

  // ---------------------------------------------------------------------
  // How the two readers compare.

  /** On a file whose headers start in column 0, each carry a token and each
      have at least one line after them, the loader finds exactly the lengths
      the indexer records. */
  lemma ReadersAgree(lines: seq<string>)
    requires forall j :: 0 <= j < |lines| ==> (IsLoaderHeader(lines[j]) ==> IsHeader(lines[j]))
    requires forall j :: 0 <= j < |lines| && IsHeader(lines[j]) ==> HeaderId(lines[j]).Some?
    requires forall j :: 0 <= j < |lines| && IsHeader(lines[j]) ==> j + 1 < |lines| && !IsHeader(lines[j + 1])
    ensures FileLengths(lines) == map id | id in FileIndex(lines) :: FileIndex(lines)[id].length
  {
    forall j | 0 <= j < |lines| ensures IsLoaderHeader(lines[j]) == IsHeader(lines[j]) {
      if IsHeader(lines[j]) { HeaderStripped(lines[j]); }
    }
    ReadersAgreeUpTo(lines, |lines|);
  }

  lemma HeaderStripped(line: string)
    requires IsHeader(line)
    ensures IsLoaderHeader(line) && Strip(line)[1..] == StripRight(line[1..])
  {
    assert line == [line[0]] + line[1..];
    StripMarked(line[0], line[1..]);
  }

  lemma {:induction false} ReadersAgreeUpTo(lines: seq<string>, k: nat)
    requires k <= |lines|
    requires forall j :: 0 <= j < |lines| ==> IsLoaderHeader(lines[j]) == IsHeader(lines[j])
    requires forall j :: 0 <= j < |lines| && IsHeader(lines[j]) ==> HeaderId(lines[j]).Some?
    requires forall j :: 0 <= j < |lines| && IsHeader(lines[j]) ==> j + 1 < |lines| && !IsHeader(lines[j + 1])
    ensures LengthsUpTo(lines, k) == IndexedLengths(IndexUpTo(lines, k))
  {
    if k > 0 {
      ReadersAgreeUpTo(lines, k - 1);
      if IsHeader(lines[k - 1]) {
        ReadersAgreeHeader(lines, k);
      }
    }
  }

  /** The recorded lengths of an index. */
  function IndexedLengths(m: map<string, Entry>): map<string, nat> {
    map id | id in m :: m[id].length
  }

  /** A header line: both readers record the same key with the same length. */
  lemma ReadersAgreeHeader(lines: seq<string>, k: nat)
    requires 0 < k <= |lines| && IsHeader(lines[k - 1])
    requires forall j :: 0 <= j < |lines| ==> IsLoaderHeader(lines[j]) == IsHeader(lines[j])
    requires HeaderId(lines[k - 1]).Some?
    requires k < |lines| && !IsHeader(lines[k])
    requires LengthsUpTo(lines, k - 1) == IndexedLengths(IndexUpTo(lines, k - 1))
    ensures LengthsUpTo(lines, k) == IndexedLengths(IndexUpTo(lines, k))
  {
    var line := lines[k - 1];
    SameNextHeader(lines, k);
    HeaderStripped(line);
    FirstTokenStripRight(line[1..]);
    assert LoaderId(line) == HeaderId(line).value;
    var m := IndexUpTo(lines, k - 1);
    assert IndexedLengths(m[HeaderId(line).value := EntryAt(lines, k - 1)]) ==
           IndexedLengths(m)[HeaderId(line).value := EntryAt(lines, k - 1).length];
  }

  lemma {:induction false} SameNextHeader(lines: seq<string>, i: nat)
    requires i <= |lines|
    requires forall j :: 0 <= j < |lines| ==> IsLoaderHeader(lines[j]) == IsHeader(lines[j])
    ensures NextHeader(lines, i, IsLoaderHeader) == NextHeader(lines, i, IsHeader)
    decreases |lines| - i
  {
    if i < |lines| {
      SameNextHeader(lines, i + 1);
    }
  }

  /** A header with no line after it: the indexer records it with length 0,
      the loader does not record it. */
  lemma BodylessHeaderDiffers()
    ensures "a" in FileIndex([">a\n", ">b\n", "MK\n"])
    ensures "a" !in FileLengths([">a\n", ">b\n", "MK\n"])
  {
    var lines := [">a\n", ">b\n", "MK\n"];
    assert IsHeader(lines[0]) && HeaderId(lines[0]) == Some("a") by {
      assert lines[0][1..] == "a\n";
      assert StripLeft("a\n") == "a\n";
      assert TakeWord("a\n") == "a";
    }
    IndexedIff(lines, 3, "a");
    assert IsLoaderHeader(lines[1]) by { HeaderStripped(lines[1]); }
    assert NextHeader(lines, 1, IsLoaderHeader) == 1;
    assert !IsLoaderHeader(lines[2]) by {
      assert StripLeft(lines[2]) == lines[2];
    }
    assert LengthsUpTo(lines, 1) == map[];
    assert LoaderId(lines[1]) == "b" by {
      HeaderStripped(lines[1]);
      assert StripRight("b\n") == "b" by {
        assert "b\n"[..1] == "b";
      }
      assert StripLeft("b") == "b";
      assert TakeWord("b") == "b";
    }
  }

  /** A header with no token: the indexer skips its record, the loader
      stores it under the empty key. */
  lemma TokenlessHeaderDiffers()
    ensures FileIndex([">\n", "MK\n"]) == map[]
    ensures FileLengths([">\n", "MK\n"]) == map["" := 2]
  {
    var lines := [">\n", "MK\n"];
    assert HeaderId(lines[0]).None? by {
      assert lines[0][1..] == "\n";
    }
    assert !IsHeader(lines[1]) by { assert lines[1][..1] == "M"; }
    assert IsLoaderHeader(lines[0]) by { HeaderStripped(lines[0]); }
    assert Strip(lines[0])[1..] == [] by {
      HeaderStripped(lines[0]);
      assert StripRight("\n") == [];
    }
    assert !IsLoaderHeader(lines[1]) by {
      assert StripLeft(lines[1]) == lines[1];
    }
    assert Strip(lines[1]) == "MK" by {
      assert StripLeft(lines[1]) == lines[1];
      assert lines[1][..2] == "MK";
    }
    assert NextHeader(lines, 1, IsLoaderHeader) == 2;
  }

  // ---------------------------------------------------------------------
  // Reading a record back: `get_sequence`'s extraction.

  /** How many characters `get_sequence` reads for a record of `length`
      residues: the length plus one line break per 60 residues plus 10. */
  function ReadLength(length: nat): nat {
    length + length / 60 + 10
  }

  /** The residues recovered from a window of the file: the window's lines,
      stripped and joined, then cut to `length`. */
  function Truncated(window: string, length: nat): (r: string)
    ensures |r| <= length
    ensures '\n' !in r
  {
    var joined := StripJoin(Split(window, "\n"));
    SplitJoinNoBreak(window);
    if |joined| <= length then joined else joined[..length]
  }

  /** The truncated text with one trailing stop codon '*' removed. */
  function ExtractFrom(window: string, length: nat): (r: string)
    ensures |r| <= length
    ensures '\n' !in r
    ensures r == Truncated(window, length) || r + "*" == Truncated(window, length)
  {
    DropStop(Truncated(window, length))
  }

  /** `get_sequence` on a record found at `startPos`, as written: it reads
      `ReadLength(length)` characters, or up to the end of the file. A start
      past the end of the file makes `mm.seek` fail, which yields "". */
  function ExtractAsWritten(content: string, startPos: nat, length: nat): (r: string)
    ensures |r| <= length && '\n' !in r
  {
    if startPos > |content| then ""
    else
      var stop := if startPos + ReadLength(length) <= |content| then startPos + ReadLength(length) else |content|;
      ExtractFrom(content[startPos..stop], length)
  }

  /** The extraction as intended: everything after `startPos` may hold the
      record's residues, so the window runs to the end of the file. */
  function Extract(content: string, startPos: nat, length: nat): (r: string)
    ensures |r| <= length && '\n' !in r
  {
    if startPos > |content| then "" else ExtractFrom(content[startPos..], length)
  }

  lemma SplitJoinNoBreak(s: string)
    ensures '\n' !in StripJoin(Split(s, "\n"))
  {
    SplitPartsNoBreak(s);
    StripJoinNoBreak(Split(s, "\n"));
  }

  lemma {:induction false} SplitPartsNoBreak(s: string)
    ensures forall k :: 0 <= k < |Split(s, "\n")| ==> '\n' !in Split(s, "\n")[k]
    decreases |s|
  {
    var i := Find(s, "\n");
    FindSpec(s, "\n");
    if i < 0 {
      forall j | 0 <= j < |s| ensures s[j] != '\n' {
        assert !OccursAt(s, "\n", j);
        assert s[j..j + 1] == [s[j]];
      }
    } else {
      forall j | 0 <= j < i ensures s[j] != '\n' {
        assert !OccursAt(s, "\n", j);
        assert s[j..j + 1] == [s[j]];
      }
      SplitPartsNoBreak(s[i + 1..]);
    }
  }

  lemma {:induction false} StripJoinNoBreak(parts: seq<string>)
    requires forall k :: 0 <= k < |parts| ==> '\n' !in parts[k]
    ensures '\n' !in StripJoin(parts)
    decreases |parts|
  {
    if parts != [] {
      StripJoinNoBreak(parts[1..]);
      StripNoBreak(parts[0]);
    }
  }

  lemma StripNoBreak(p: string)
    requires '\n' !in p
    ensures '\n' !in Strip(p)
  {
    StripWithin(p);
  }

  // ---------------------------------------------------------------------
  // The extraction recovers the record.

  /** A line as the reader yields it from a file with '\n' line ends. */
  predicate WellEnded(line: string) {
    |line| > 0 && line[|line| - 1] == '\n' && '\n' !in line[..|line| - 1]
  }

  /** The residues of the lines `a` to `b`: each line stripped, then joined. */
  function Residues(lines: seq<string>, a: nat, b: nat): (r: string)
    requires a <= b <= |lines|
  {
    StripJoin(lines[a..b])
  }

  lemma {:induction false} ResiduesLength(lines: seq<string>, a: nat, b: nat)
    requires a <= b <= |lines|
    ensures |Residues(lines, a, b)| == ResidueCount(lines, a, b)
    decreases b - a
  {
    if a < b {
      ResiduesLength(lines, a, b - 1);
      assert lines[a..b] == lines[a..b - 1] + [lines[b - 1]];
      StripJoinAppend(lines[a..b - 1], [lines[b - 1]]);
      assert StripJoin([lines[b - 1]]) == Strip(lines[b - 1]) by {
        assert [lines[b - 1]][1..] == [];
      }
    }
  }

  /** Splitting well-ended lines followed by any text at '\n' gives their
      stripped residues first. */
  lemma {:induction false} JoinedWindow(ls: seq<string>, tail: string)
    requires forall k :: 0 <= k < |ls| ==> WellEnded(ls[k])
    ensures StripJoin(Split(Concat(ls) + tail, "\n")) == StripJoin(ls) + StripJoin(Split(tail, "\n"))
    decreases |ls|
  {
    if ls == [] {
      assert Concat(ls) + tail == tail;
    } else {
      var line := ls[0];
      var body := line[..|line| - 1];
      var rest := Concat(ls[1..]) + tail;
      assert line == body + "\n";
      assert Concat(ls) + tail == body + "\n" + rest;
      SplitFirstLine(body, rest);
      JoinedWindow(ls[1..], tail);
      StripNewline(body);
      StripJoinCons(body, Split(rest, "\n"));
      calc {
        StripJoin(Split(Concat(ls) + tail, "\n"));
        StripJoin([body] + Split(rest, "\n"));
        Strip(body) + StripJoin(Split(rest, "\n"));
        Strip(body) + (StripJoin(ls[1..]) + StripJoin(Split(tail, "\n")));
        (Strip(line) + StripJoin(ls[1..])) + StripJoin(Split(tail, "\n"));
        StripJoin(ls) + StripJoin(Split(tail, "\n"));
      }
    }
  }

  lemma SplitFirstLine(body: string, rest: string)
    requires '\n' !in body
    ensures Split(body + "\n" + rest, "\n") == [body] + Split(rest, "\n")
  {
    FirstOccurrenceAfter(body, "\n", rest);
    assert (body + "\n" + rest)[..|body|] == body;
    assert (body + "\n" + rest)[|body| + 1..] == rest;
  }

  lemma StripJoinCons(x: string, xs: seq<string>)
    ensures StripJoin([x] + xs) == Strip(x) + StripJoin(xs)
  {
    assert ([x] + xs)[1..] == xs;
  }

  /** A window that starts with a record's well-ended lines yields exactly
      that record's residues, less one trailing '*'. */
  lemma ExtractRecord(ls: seq<string>, tail: string)
    requires forall k :: 0 <= k < |ls| ==> WellEnded(ls[k])
    ensures ExtractFrom(Concat(ls) + tail, |StripJoin(ls)|) == DropStop(StripJoin(ls))
  {
    JoinedWindow(ls, tail);
    var a := StripJoin(ls);
    assert (a + StripJoin(Split(tail, "\n")))[..|a|] == a;
  }

  /** `sequence[:-1]` when the sequence ends with '*'. */
  function DropStop(s: string): (r: string)
    ensures EndsWith(s, "*") ==> r + "*" == s
    ensures !EndsWith(s, "*") ==> r == s
  {
    if EndsWith(s, "*") then
      assert s == s[..|s| - 1] + "*";
      s[..|s| - 1]
    else s
  }

  /** The sequence of the record headed at line `h`: its residue lines,
      stripped and joined, less one stop '*'. */
  function RecordSequence(lines: seq<string>, h: nat): string
    requires h < |lines|
  {
    DropStop(Residues(lines, h + 1, NextHeader(lines, h + 1, IsHeader)))
  }


  /** The file's text after line `k` begins is the text of lines `k` onwards. */
  lemma ContentAfter(lines: seq<string>, k: nat)
    requires k <= |lines|
    ensures Offset(lines, k) <= |Concat(lines)|
    ensures Concat(lines)[Offset(lines, k)..] == Concat(lines[k..])
  {
    assert lines == lines[..k] + lines[k..];
    ConcatAppend(lines[..k], lines[k..]);
  }

  lemma ConcatSplitAt(lines: seq<string>, a: nat, b: nat)
    requires a <= b <= |lines|
    ensures Concat(lines[a..]) == Concat(lines[a..b]) + Concat(lines[b..])
  {
    assert lines[a..] == lines[a..b] + lines[b..];
    ConcatAppend(lines[a..b], lines[b..]);
  }

  /** The lines of the record that the header on line `h` opens, and where
      they sit in the file's text. */
  function RecordLines(lines: seq<string>, h: nat): seq<string>
    requires h < |lines|
  {
    lines[h + 1..NextHeader(lines, h + 1, IsHeader)]
  }

  lemma RecordWindow(lines: seq<string>, h: nat)
    requires forall k :: 0 <= k < |lines| ==> WellEnded(lines[k])
    requires h < |lines|
    ensures forall k :: 0 <= k < |RecordLines(lines, h)| ==> WellEnded(RecordLines(lines, h)[k])
    ensures Offset(lines, h + 1) <= |Concat(lines)|
    ensures Concat(lines)[Offset(lines, h + 1)..] ==
            Concat(RecordLines(lines, h)) + Concat(lines[NextHeader(lines, h + 1, IsHeader)..])
    ensures Offset(lines, NextHeader(lines, h + 1, IsHeader)) == Offset(lines, h + 1) + |Concat(RecordLines(lines, h))|
    ensures EntryAt(lines, h).length == |StripJoin(RecordLines(lines, h))|
    ensures Residues(lines, h + 1, NextHeader(lines, h + 1, IsHeader)) == StripJoin(RecordLines(lines, h))
  {
    RecordLinesWellEnded(lines, h);
    RecordText(lines, h);
    ResiduesLength(lines, h + 1, NextHeader(lines, h + 1, IsHeader));
  }

  lemma RecordLinesWellEnded(lines: seq<string>, h: nat)
    requires forall k :: 0 <= k < |lines| ==> WellEnded(lines[k])
    requires h < |lines|
    ensures forall k :: 0 <= k < |RecordLines(lines, h)| ==> WellEnded(RecordLines(lines, h)[k])
  {
    var ls := RecordLines(lines, h);
    forall k | 0 <= k < |ls| ensures WellEnded(ls[k]) { assert ls[k] == lines[h + 1 + k]; }
  }

  /** Where the record's lines sit in the file's text. */
  lemma RecordText(lines: seq<string>, h: nat)
    requires h < |lines|
    ensures Offset(lines, h + 1) <= |Concat(lines)|
    ensures Concat(lines)[Offset(lines, h + 1)..] ==
            Concat(RecordLines(lines, h)) + Concat(lines[NextHeader(lines, h + 1, IsHeader)..])
    ensures Offset(lines, NextHeader(lines, h + 1, IsHeader)) == Offset(lines, h + 1) + |Concat(RecordLines(lines, h))|
  {
    var n := NextHeader(lines, h + 1, IsHeader);
    var ls := lines[h + 1..n];
    ContentAfter(lines, h + 1);
    ConcatSplitAt(lines, h + 1, n);
    assert lines[..n] == lines[..h + 1] + ls;
    ConcatAppend(lines[..h + 1], ls);
  }

  /** Round trip: in a file of well-ended lines, extracting the record that
      the header on line `h` opens, from the position and length the indexer
      recorded, gives back that record's residues without its stop '*'. */
  lemma ExtractIndexedRecord(lines: seq<string>, h: nat)
    requires forall k :: 0 <= k < |lines| ==> WellEnded(lines[k])
    requires h < |lines| && IsHeader(lines[h])
    ensures Extract(Concat(lines), EntryAt(lines, h).startPos, EntryAt(lines, h).length) ==
            RecordSequence(lines, h)
  {
    RecordWindow(lines, h);
    ExtractRecord(RecordLines(lines, h), Concat(lines[NextHeader(lines, h + 1, IsHeader)..]));
  }

  /** The read window as written covers the record whenever the record's
      lines span no more than `ReadLength` characters; then the two
      extractions agree. */
  lemma AsWrittenCoversShortRecords(lines: seq<string>, h: nat)
    requires forall k :: 0 <= k < |lines| ==> WellEnded(lines[k])
    requires h < |lines| && IsHeader(lines[h])
    requires Offset(lines, NextHeader(lines, h + 1, IsHeader)) - Offset(lines, h + 1) <= ReadLength(EntryAt(lines, h).length)
    ensures ExtractAsWritten(Concat(lines), EntryAt(lines, h).startPos, EntryAt(lines, h).length) ==
            RecordSequence(lines, h)
  {
    RecordWindow(lines, h);
    ExtractCoveredWindow(Concat(lines), Offset(lines, h + 1), RecordLines(lines, h),
                         Concat(lines[NextHeader(lines, h + 1, IsHeader)..]));
  }

  lemma ExtractCoveredWindow(content: string, start: nat, ls: seq<string>, rest: string)
    requires forall k :: 0 <= k < |ls| ==> WellEnded(ls[k])
    requires start <= |content| && content[start..] == Concat(ls) + rest
    requires |Concat(ls)| <= ReadLength(|StripJoin(ls)|)
    ensures ExtractAsWritten(content, start, |StripJoin(ls)|) == DropStop(StripJoin(ls))
  {
    var len := |StripJoin(ls)|;
    var stop := if start + ReadLength(len) <= |content| then start + ReadLength(len) else |content|;
    var c := Concat(ls);
    AsWrittenStop(content, start, len);
    WindowSplit(content, start, stop, c, rest);
    ExtractRecord(ls, rest[..stop - start - |c|]);
  }

  /** The window as written ends `ReadLength` characters on, or at the end. */
  lemma AsWrittenStop(content: string, start: nat, length: nat)
    requires start <= |content|
    ensures var stop := if start + ReadLength(length) <= |content| then start + ReadLength(length) else |content|;
            ExtractAsWritten(content, start, length) == ExtractFrom(content[start..stop], length)
  {
  }

  /** A window that starts at `start` and covers `c` begins with `c`. */
  lemma WindowSplit(content: string, start: nat, stop: nat, c: string, rest: string)
    requires start <= stop <= |content| && content[start..] == c + rest && |c| <= stop - start
    ensures content[start..stop] == c + rest[..stop - start - |c|]
  {
    assert content[start..stop] == content[start..][..stop - start];
  }

  // ---------------------------------------------------------------------
  // The read window as written is too short for records wrapped at fewer
  // than 60 residues per line.

  /** `n` lines holding one residue 'A' each. */
  function OneResidueLines(n: nat): (r: seq<string>)
    ensures |r| == n
  {
    seq(n, _ => "A\n")
  }

  lemma {:induction false} OneResidueLinesText(n: nat)
    ensures StripJoin(OneResidueLines(n)) == seq(n, _ => 'A')
    ensures |Concat(OneResidueLines(n))| == 2 * n
    ensures forall k :: 0 <= k < n ==> WellEnded(OneResidueLines(n)[k]) && !IsHeader(OneResidueLines(n)[k])
  {
    OneResidueLine();
    if n > 0 {
      var ls := OneResidueLines(n);
      assert ls[1..] == OneResidueLines(n - 1);
      OneResidueLinesText(n - 1);
      assert seq(n, _ => 'A') == "A" + seq(n - 1, _ => 'A');
    }
  }

  lemma OneResidueLine()
    ensures Strip("A\n") == "A" && WellEnded("A\n") && !IsHeader("A\n")
  {
    StripNewline("A");
    assert StripRight("A") == "A";
    assert "A\n"[..1] == "A";
  }

  /** A record of `n` >= 12 residues, one per line: the indexer records
      length `n`, but the `n + n/60 + 10` characters that `get_sequence`
      reads hold fewer than `n` of the record's `2n` characters of residues
      and line breaks, so fewer than `n` residues come back. */
  lemma AsWrittenTruncatesNarrowRecords(n: nat)
    requires n >= 12
    ensures var lines := [">a\n"] + OneResidueLines(n);
            EntryAt(lines, 0).length == n &&
            RecordSequence(lines, 0) == seq(n, _ => 'A') &&
            |ExtractAsWritten(Concat(lines), EntryAt(lines, 0).startPos, EntryAt(lines, 0).length)| < n
  {
    NarrowRecord(n);
    NarrowRead(n);
  }

  /** The narrow record's entry starts after the 3-character header and
      counts `n` residues, which are all of the record's sequence. */
  lemma NarrowRecord(n: nat)
    ensures var lines := [">a\n"] + OneResidueLines(n);
            EntryAt(lines, 0) == Entry(3, n) && RecordSequence(lines, 0) == seq(n, _ => 'A')
  {
    var lines := [">a\n"] + OneResidueLines(n);
    NarrowLines(n);
    RecordWindow(lines, 0);
    OneResidueLinesText(n);
    NarrowStart(n);
    assert !EndsWith(seq(n, _ => 'A'), "*") by {
      if n > 0 { assert seq(n, _ => 'A')[n - 1..] == "A"; }
    }
  }

  lemma NarrowStart(n: nat)
    ensures Offset([">a\n"] + OneResidueLines(n), 1) == 3
  {
    var lines := [">a\n"] + OneResidueLines(n);
    assert lines[..1] == [">a\n"];
    assert Concat([">a\n"]) == ">a\n" + Concat([]);
  }

  /** Reading the narrow record as written gives fewer than `n` residues. */
  lemma NarrowRead(n: nat)
    requires n >= 12
    ensures |ExtractAsWritten(Concat([">a\n"] + OneResidueLines(n)), 3, n)| < n
  {
    var ls := OneResidueLines(n);
    var lines := [">a\n"] + ls;
    NarrowLines(n);
    RecordWindow(lines, 0);
    OneResidueLinesText(n);
    NarrowStart(n);
    assert Concat(lines)[3..] == Concat(ls) by {
      assert Concat(lines[n + 1..]) == [];
    }
    NarrowWindow(n, Concat(lines));
  }

  lemma NarrowLines(n: nat)
    ensures var lines := [">a\n"] + OneResidueLines(n);
            (forall k :: 0 <= k < |lines| ==> WellEnded(lines[k])) &&
            NextHeader(lines, 1, IsHeader) == n + 1 && RecordLines(lines, 0) == OneResidueLines(n) &&
            lines[n + 1..] == []
  {
    var ls := OneResidueLines(n);
    var lines := [">a\n"] + ls;
    OneResidueLinesText(n);
    forall k | 0 <= k < |lines| ensures WellEnded(lines[k]) {
      if k > 0 { assert lines[k] == ls[k - 1]; }
    }
    assert forall j :: 1 <= j < n + 1 ==> lines[j] == ls[j - 1];
    NextHeaderAt(lines, 1, n + 1);
  }

  lemma NarrowWindow(n: nat, content: string)
    requires n >= 12 && |content| >= 3 && content[3..] == Concat(OneResidueLines(n))
    ensures |ExtractAsWritten(content, 3, n)| < n
  {
    NarrowSplit(n, content);
    AsWrittenWindow(content, 3, n);
    ExtractFromShorter(content[3..3 + ReadLength(n)], n);
  }

  lemma NarrowSplit(n: nat, content: string)
    requires n >= 12 && |content| >= 3 && content[3..] == Concat(OneResidueLines(n))
    ensures 3 + ReadLength(n) <= |content|
    ensures |StripJoin(Split(content[3..3 + ReadLength(n)], "\n"))| < n
  {
    var r := ReadLength(n);
    var m := r / 2;
    OneResidueLinesText(n);
    var window := content[3..3 + r];
    var tail := window[2 * m..];
    NarrowWindowShape(n, content);
    SingleLineResidues(tail);
    JoinedWindow(OneResidueLines(m), tail);
    OneResidueLinesText(m);
  }

  /** The first `ReadLength(n)` characters of the record are `m` whole
      one-residue lines and at most one more character, which is no line
      break. */
  lemma NarrowWindowShape(n: nat, content: string)
    requires n >= 12 && |content| >= 3 && content[3..] == Concat(OneResidueLines(n))
    ensures 3 + ReadLength(n) <= |content|
    ensures var r := ReadLength(n);
            var m := r / 2;
            var window := content[3..3 + r];
            m <= n && 2 * m <= r &&
            window == Concat(OneResidueLines(m)) + window[2 * m..] && |window[2 * m..]| <= 1 &&
            '\n' !in window[2 * m..]
  {
    var r := ReadLength(n);
    var m := r / 2;
    NarrowArithmetic(n);
    var head := OneResidueLines(m);
    var rest := OneResidueLines(n - m);
    OneResidueLinesSplit(n, m);
    OneResidueLinesText(m);
    OneResidueLinesText(n - m);
    ResidueFirst(n - m);
    WindowShape(content, 3 + r, Concat(head), Concat(rest));
  }

  /** A window over `c` and at most one more character of `rest`, which is
      no line break. */
  lemma WindowShape(content: string, stop: nat, c: string, rest: string)
    requires 3 <= |content| && content[3..] == c + rest
    requires 3 + |c| <= stop <= 3 + |c| + 1 && stop <= |content|
    requires stop == 3 + |c| + 1 ==> rest[0] != '\n'
    ensures content[3..stop] == c + content[3..stop][|c|..]
    ensures |content[3..stop][|c|..]| <= 1 && '\n' !in content[3..stop][|c|..]
  {
    WindowSplit(content, 3, stop, c, rest);
    assert content[3..stop][|c|..] == rest[..stop - 3 - |c|];
  }

  lemma OneResidueLinesSplit(n: nat, m: nat)
    requires m <= n
    ensures Concat(OneResidueLines(n)) == Concat(OneResidueLines(m)) + Concat(OneResidueLines(n - m))
  {
    assert OneResidueLines(n) == OneResidueLines(m) + OneResidueLines(n - m);
    ConcatAppend(OneResidueLines(m), OneResidueLines(n - m));
  }

  /** The text of one-residue lines starts with a residue. */
  lemma ResidueFirst(k: nat)
    requires k > 0
    ensures |Concat(OneResidueLines(k))| > 0 && Concat(OneResidueLines(k))[0] == 'A'
  {
    var ls := OneResidueLines(k);
    OneResidueLinesText(k);
    assert ls == [ls[0]] + ls[1..];
  }

  lemma NarrowArithmetic(n: nat)
    requires n >= 12
    ensures var r := ReadLength(n);
            var m := r / 2;
            m < n && 2 * m <= r <= 2 * m + 1 && r < 2 * n
  {
  }

  /** Text without a line break yields at most its own characters. */
  lemma SingleLineResidues(tail: string)
    requires '\n' !in tail
    ensures |StripJoin(Split(tail, "\n"))| <= |tail|
  {
    NoOccurrence(tail, "\n");
    assert Split(tail, "\n") == [tail];
    StripLeftSpec(tail);
    StripRightSpec(StripLeft(tail));
  }

  lemma AsWrittenWindow(content: string, start: nat, length: nat)
    requires start + ReadLength(length) <= |content|
    ensures ExtractAsWritten(content, start, length) == ExtractFrom(content[start..start + ReadLength(length)], length)
  {
  }

  lemma ExtractFromShorter(window: string, length: nat)
    ensures |ExtractFrom(window, length)| <= |StripJoin(Split(window, "\n"))|
  {
  }
}
