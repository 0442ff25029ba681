/**
  Python built-ins whose semantics the rest of the model relies on and
  which differ from Dafny's own operators: slicing with negative or
  out-of-range bounds, floor division, `int()` of a float, and the
  first-appearance order of `unique()`.
 */
module PyBuiltins {

  /** Python's `a // b`: rounds towards negative infinity for either sign of `b`. */
  function FloorDiv(a: int, b: int): (r: int)
    requires b != 0
    ensures b > 0 ==> b * r <= a < b * r + b
    ensures b < 0 ==> b * r + b < a <= b * r
  {
    if b > 0 then a / b else (-a) / (-b)
  }

  /** `int(x)` for a finite float: truncation towards zero. */
  function Trunc(x: real): (r: int)
    ensures 0.0 <= x ==> 0 <= r && r as real <= x < r as real + 1.0
    ensures x < 0.0 ==> r <= 0 && r as real - 1.0 < x <= r as real
  {
    if x >= 0.0 then x.Floor else -((-x).Floor)
  }

  /** `int()` of a whole number gives that number back. */
  lemma TruncWhole(n: int)
    ensures Trunc(n as real) == n
  {
  }

  /** A slice bound as Python normalises it against a length `n`. */
  function SliceBound(i: int, n: nat): (r: nat)
    ensures r <= n
  {
    if i < 0 then (if i + n < 0 then 0 else i + n) else if i > n then n else i
  }

  /** `s[start:stop]`: negative bounds count from the end, bounds past
      either end are clamped, and a reversed range is empty. */
  function Slice<T>(s: seq<T>, start: int, stop: int): (r: seq<T>)
    ensures |r| <= |s|
  {
    var lo := SliceBound(start, |s|);
    var hi := SliceBound(stop, |s|);
    if lo < hi then s[lo..hi] else []
  }

  /** `s[:n]`, which is also `DataFrame.head(n)`. */
  function Head<T>(s: seq<T>, n: int): (r: seq<T>)
    ensures |r| <= |s|
  {
    Slice(s, 0, n)
  }

  lemma SliceNatural<T>(s: seq<T>, start: nat, stop: nat)
    requires start <= stop
    ensures start <= |s| ==> Slice(s, start, stop) == s[start..if stop <= |s| then stop else |s|]
    ensures start > |s| ==> Slice(s, start, stop) == []
  {
  }

  /** A negative `n` drops the last `-n` elements. */
  lemma HeadNegative<T>(s: seq<T>, n: int)
    requires n < 0
    ensures Head(s, n) == if |s| + n <= 0 then [] else s[..|s| + n]
  {
  }

  predicate Distinct<T(==)>(s: seq<T>) {
    forall i, j :: 0 <= i < j < |s| ==> s[i] != s[j]
  }

  /** `Series.unique()`: each value once, in order of first appearance. */
  function Unique<T(==)>(s: seq<T>): (r: seq<T>)
    ensures Distinct(r)
    ensures forall i :: 0 <= i < |r| ==> r[i] in s
    ensures forall i :: 0 <= i < |s| ==> s[i] in r
    ensures |r| <= |s|
  {
    if s == [] then []
    else
      var u := Unique(s[..|s| - 1]);
      var x := s[|s| - 1];
      assert forall i :: 0 <= i < |s| - 1 ==> s[i] == s[..|s| - 1][i];
      if x in u then u else u + [x]
  }

  lemma UniqueMembers<T>(s: seq<T>)
    ensures forall x :: x in Unique(s) <==> x in s
  {
  }

  /** A prefix of the input yields a prefix of its unique values. */
  lemma {:induction false} UniquePrefix<T>(s: seq<T>, k: nat)
    requires k <= |s|
    ensures |Unique(s[..k])| <= |Unique(s)| && Unique(s[..k]) == Unique(s)[..|Unique(s[..k])|]
    decreases |s|
  {
    if k < |s| {
      var init := s[..|s| - 1];
      assert init[..k] == s[..k];
      UniquePrefix(init, k);
    } else {
      assert s[..k] == s;
    }
  }

  /** `nunique()`: the number of unique values is the number of distinct
      values in the input. */
  lemma UniqueCount<T>(s: seq<T>)
    ensures |Unique(s)| == |set x | x in s|
  {
    UniqueMembers(s);
    assert (set x | x in Unique(s)) == (set x | x in s);
    DistinctCard(Unique(s));
  }

  lemma {:induction false} DistinctCard<T>(s: seq<T>)
    requires Distinct(s)
    ensures |set x | x in s| == |s|
  {
    if s != [] {
      var init := s[..|s| - 1];
      DistinctCard(init);
      assert (set x | x in s) == (set x | x in init) + {s[|s| - 1]};
      assert s[|s| - 1] !in init;
    }
  }
}
