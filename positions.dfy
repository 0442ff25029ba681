/**
  `_calculate_binding_positions`: place each binding's peptide on the
  protein sequence, write the inclusive start and end back into the
  binding, and count how many placed peptides cover each position.
 */
module Positions {
  import opened Wrappers
  import opened Text
  import opened PyBuiltins
  import opened Sorting
  import opened Tallies

  /** The binding's optional `position` field: absent, an integer, a finite
      float (truncated by `int()`), NaN (on which `int()` raises
      `ValueError`), or a value of another type. */
  datatype PositionField = NoPosition | Whole(n: int) | Fraction(x: real) | NotANumber | NotNumeric

  /** A binding record: its peptide (`None` when the key is absent) and
      position field, and the two fields this step writes. */
  datatype Binding = Binding(peptide: Option<string>, position: PositionField,
                             positionStart: Option<int>, positionEnd: Option<int>)

  /** Where a binding's peptide is placed, if it is: its first occurrence
      in a non-empty sequence, else an integer or float `position` field. */
  function Placement(b: Binding, sequence: string): Option<int> {
    match b.peptide
    case None => None
    case Some(p) =>
      if p == "" then None
      else
        var found := if sequence != "" then Find(sequence, p) else -1;
        if found >= 0 then Some(found)
        else match b.position
          case Whole(n) => Some(n)
          case Fraction(x) => Some(Trunc(x))
          case _ => None
  }

  /** The binding as the step leaves it. */
  function Annotated(b: Binding, sequence: string): (r: Binding)
    ensures r.peptide == b.peptide && r.position == b.position
  {
    match Placement(b, sequence)
    case Some(start) =>
      b.(positionStart := Some(start), positionEnd := Some(start + |b.peptide.value| - 1))
    case None =>
      if b.peptide.Some? && b.peptide.value != "" && b.position.NoPosition? then
        b.(positionStart := Some(-1), positionEnd := Some(-1))
      else b
  }

  /** How many placed peptides cover position `q`. */
  function Coverage(bindings: seq<Binding>, sequence: string, q: int): nat {
    if bindings == [] then 0
    else
      var b := bindings[|bindings| - 1];
      Coverage(bindings[..|bindings| - 1], sequence, q) +
      (match Placement(b, sequence)
       case Some(start) => if start <= q < start + |b.peptide.value| then 1 else 0
       case None => 0)
  }

  /** Lines 989-998: a found peptide starts at its first occurrence, ends
      `len - 1` later, and lies inside the sequence. */
  lemma FoundPlacement(b: Binding, sequence: string)
    requires b.peptide.Some? && b.peptide.value != "" && sequence != ""
    requires Find(sequence, b.peptide.value) >= 0
    ensures var start := Placement(b, sequence).value;
            var p := b.peptide.value;
            start == Find(sequence, p) &&
            0 <= start && start + |p| <= |sequence| && sequence[start..start + |p|] == p &&
            (forall j :: 0 <= j < start ==> !OccursAt(sequence, p, j)) &&
            Annotated(b, sequence).positionEnd == Some(start + |p| - 1)
  {
    FindSpec(sequence, b.peptide.value);
  }

  /** Lines 1020-1025: a peptide neither found nor given a position is
      marked -1/-1 and counts nowhere; empty peptides are skipped. */
  lemma UnplacedMarked(b: Binding, sequence: string, q: int)
    ensures b.peptide.Some? && b.peptide.value != "" && Placement(b, sequence).None? && b.position.NoPosition? ==>
              Annotated(b, sequence).positionStart == Some(-1) && Annotated(b, sequence).positionEnd == Some(-1)
    ensures (b.peptide.None? || b.peptide.value == "") ==> Annotated(b, sequence) == b && Coverage([b], sequence, q) == 0
  {
    assert [b][..0] == [];
  }

  /** The inner loop of lines 1001-1003 (and 1014-1016): one more peptide
      covering each position of `[start, start + len)`. */
  method AddRange(counts: Tally<int>, start: int, len: nat) returns (counts': Tally<int>)
    requires WellFormed(counts)
    ensures WellFormed(counts')
    ensures forall q :: CountOf(counts', q) == CountOf(counts, q) + (if start <= q < start + len then 1 else 0)
    ensures forall q :: q in counts'.count ==> q in counts.count || start <= q < start + len
  {
    counts' := counts;
    var i := start;
    while i < start + len
      invariant start <= i <= start + len
      invariant WellFormed(counts')
      invariant forall q :: CountOf(counts', q) == CountOf(counts, q) + (if start <= q < i then 1 else 0)
      invariant forall q :: q in counts'.count ==> q in counts.count || start <= q < i
    {
      ghost var before := counts';
      AddSpec(counts', i);
      counts' := Add(counts', i);
      assert forall q :: q in counts'.count ==> q in before.count || q == i;
      i := i + 1;
    }
  }

  function ByPosition(): ((int, nat), (int, nat)) -> bool {
    AscendingInt((p: (int, nat)) => p.0)
  }

  /** `_calculate_binding_positions`: the annotated bindings and the
      histogram of covered positions, ascending and each once, each with
      the number of placed peptides covering it. */
  method CalculateBindingPositions(bindings: seq<Binding>, sequence: string)
    returns (annotated: seq<Binding>, histogram: seq<(int, nat)>)
    ensures |annotated| == |bindings|
    ensures forall i :: 0 <= i < |bindings| ==> annotated[i] == Annotated(bindings[i], sequence)
    ensures forall j, k :: 0 <= j < k < |histogram| ==> histogram[j].0 < histogram[k].0
    ensures forall k :: 0 <= k < |histogram| ==> histogram[k].1 == Coverage(bindings, sequence, histogram[k].0) > 0
    ensures forall q :: Coverage(bindings, sequence, q) > 0 ==> exists k :: 0 <= k < |histogram| && histogram[k].0 == q
  {
    var counts: Tally<int> := Empty();
    annotated := [];
    var i := 0;
    while i < |bindings|
      invariant 0 <= i <= |bindings|
      invariant |annotated| == i
      invariant forall k :: 0 <= k < i ==> annotated[k] == Annotated(bindings[k], sequence)
      invariant WellFormed(counts)
      invariant forall q :: CountOf(counts, q) == Coverage(bindings[..i], sequence, q)
      invariant forall q :: q in counts.count ==> counts.count[q] > 0
    {
      var b := bindings[i];
      assert bindings[..i + 1][..i] == bindings[..i];
      var place := Placement(b, sequence);
      if place.Some? {
        var p := b.peptide.value;
        b := b.(positionStart := Some(place.value), positionEnd := Some(place.value + |p| - 1));
        counts := AddRange(counts, place.value, |p|);
        assert forall q :: q in counts.count ==> counts.count[q] == CountOf(counts, q);
      } else if b.peptide.Some? && b.peptide.value != "" && b.position.NoPosition? {
        b := b.(positionStart := Some(-1), positionEnd := Some(-1));
      }
      annotated := annotated + [b];
      i := i + 1;
    }
    assert bindings[..i] == bindings;
    KeyOrders((p: (int, nat)) => p.0, (p: (int, nat)) => 0.0);
    var items := Items(counts);
    histogram := SortBy(items, ByPosition());
    SortedItemsFrom(counts, items, histogram);
    SortedItemsComplete(counts, items, histogram);
    SortedItemsStrict(items, histogram);
  }

  lemma SortedItemsFrom(counts: Tally<int>, items: seq<(int, nat)>, histogram: seq<(int, nat)>)
    requires WellFormed(counts) && items == Items(counts)
    requires multiset(histogram) == multiset(items)
    ensures forall k :: 0 <= k < |histogram| ==> histogram[k].0 in counts.count && histogram[k].1 == CountOf(counts, histogram[k].0)
  {
    forall k | 0 <= k < |histogram| ensures histogram[k].0 in counts.count && histogram[k].1 == CountOf(counts, histogram[k].0) {
      assert histogram[k] in multiset(items);
    }
  }

  lemma SortedItemsComplete(counts: Tally<int>, items: seq<(int, nat)>, histogram: seq<(int, nat)>)
    requires WellFormed(counts) && items == Items(counts)
    requires multiset(histogram) == multiset(items)
    ensures forall q :: q in counts.count ==> exists k :: 0 <= k < |histogram| && histogram[k].0 == q
  {
    forall q | q in counts.count ensures exists k :: 0 <= k < |histogram| && histogram[k].0 == q {
      assert q in counts.keys;
      var k :| 0 <= k < |counts.keys| && counts.keys[k] == q;
      assert items[k].0 == q;
      assert items[k] in multiset(histogram);
    }
  }

  lemma SortedItemsStrict(items: seq<(int, nat)>, histogram: seq<(int, nat)>)
    requires forall j, k :: 0 <= j < k < |items| ==> items[j].0 != items[k].0
    requires SortedBy(histogram, ByPosition()) && multiset(histogram) == multiset(items)
    ensures forall j, k :: 0 <= j < k < |histogram| ==> histogram[j].0 < histogram[k].0
  {
    forall j, k | 0 <= j < k < |histogram| ensures histogram[j].0 < histogram[k].0 {
      assert ByPosition()(histogram[j], histogram[k]);
      if histogram[j].0 == histogram[k].0 {
        SameKeyTwice(items, histogram, j, k);
      }
    }
  }

  lemma SameKeyTwice(items: seq<(int, nat)>, histogram: seq<(int, nat)>, j: nat, k: nat)
    requires forall x, y :: 0 <= x < y < |items| ==> items[x].0 != items[y].0
    requires multiset(histogram) == multiset(items)
    requires j < k < |histogram|
    ensures histogram[j].0 != histogram[k].0
  {
    if histogram[j].0 == histogram[k].0 {
      assert histogram[j] in multiset(items) && histogram[k] in multiset(items);
      var a :| 0 <= a < |items| && items[a] == histogram[j];
      var b :| 0 <= b < |items| && items[b] == histogram[k];
      if a == b {
        var pre, mid, post := histogram[..j], histogram[j + 1..k], histogram[k + 1..];
        assert histogram == pre + [histogram[j]] + mid + [histogram[k]] + post;
        assert multiset(items)[items[a]] >= 2;
        MultiplicityOne(items, a);
      }
    }
  }
}
