/**
  The sorts of the system (`list.sort`, `sorted`, `DataFrame.sort_values`,
  `Counter.most_common`) as one insertion sort parameterised by the order.
  The insertion sort is stable, as `list.sort`, `sorted` and
  `most_common` are: ties keep their input order. `sort_values`
  (quicksort by default) is not stable, so for it only sortedness and
  permutation are relied on.
 */
module Sorting {

  ghost predicate Total<T(!new)>(le: (T, T) -> bool) {
    forall a, b :: le(a, b) || le(b, a)
  }

  ghost predicate Transitive<T(!new)>(le: (T, T) -> bool) {
    forall a, b, c :: le(a, b) && le(b, c) ==> le(a, c)
  }

  ghost predicate SortedBy<T>(s: seq<T>, le: (T, T) -> bool) {
    forall i, j :: 0 <= i < j < |s| ==> le(s[i], s[j])
  }

  /** Descending by an integer key: `sort(key=..., reverse=True)`. */
  function DescendingInt<T>(key: T -> int): (T, T) -> bool
  {
    (a, b) => key(a) >= key(b)
  }

  function DescendingReal<T>(key: T -> real): (T, T) -> bool
  {
    (a, b) => key(a) >= key(b)
  }

  function AscendingReal<T>(key: T -> real): (T, T) -> bool
  {
    (a, b) => key(a) <= key(b)
  }

  function AscendingInt<T>(key: T -> int): (T, T) -> bool
  {
    (a, b) => key(a) <= key(b)
  }

  lemma KeyOrders<T(!new)>(ki: T -> int, kr: T -> real)
    ensures Total(DescendingInt(ki)) && Transitive(DescendingInt(ki))
    ensures Total(AscendingInt(ki)) && Transitive(AscendingInt(ki))
    ensures Total(DescendingReal(kr)) && Transitive(DescendingReal(kr))
    ensures Total(AscendingReal(kr)) && Transitive(AscendingReal(kr))
  {
  }

  /** Inserting `x` at `j` keeps a sorted sequence sorted when everything
      before `j` is at most `x` and everything from `j` on is at least `x`. */
  lemma InsertKeepsSorted<T>(r: seq<T>, x: T, j: nat, le: (T, T) -> bool)
    requires j <= |r| && SortedBy(r, le)
    requires forall k :: 0 <= k < j ==> le(r[k], x)
    requires forall k :: j <= k < |r| ==> le(x, r[k])
    ensures SortedBy(r[..j] + [x] + r[j..], le)
  {
    var t := r[..j] + [x] + r[j..];
    forall a, b | 0 <= a < b < |t| ensures le(t[a], t[b]) {
      if b < j || a > j {
        assert t[a] == r[if a < j then a else a - 1] && t[b] == r[if b < j then b else b - 1];
      }
    }
  }

  /** `x` occurs before `y` in `s`. */
  ghost predicate Precedes<T>(s: seq<T>, x: T, y: T) {
    exists a, b :: 0 <= a < b < |s| && s[a] == x && s[b] == y
  }

  /** A stable insertion sort under `le`: sorted, a permutation, and two
      elements that tie (the later one ranks at least as high as the
      earlier) keep the order they have in `s`. */
  method SortBy<T(!new)>(s: seq<T>, le: (T, T) -> bool) returns (r: seq<T>)
    requires Total(le) && Transitive(le)
    ensures SortedBy(r, le)
    ensures multiset(r) == multiset(s)
    ensures forall a, b :: 0 <= a < b < |r| && le(r[b], r[a]) ==> Precedes(s, r[a], r[b])
  {
    r := [];
    ghost var pos: seq<nat> := [];
    var i := 0;
    while i < |s|
      invariant 0 <= i <= |s|
      invariant SortedBy(r, le) && multiset(r) == multiset(s[..i])
      invariant Tracks(s, r, pos, i) && StableBy(r, pos, le)
    {
      r, pos := InsertStable(s, r, pos, i, le);
      i := i + 1;
    }
    assert s[..i] == s;
    forall a, b | 0 <= a < b < |r| && le(r[b], r[a]) ensures Precedes(s, r[a], r[b]) {
      assert s[pos[a]] == r[a] && s[pos[b]] == r[b];
    }
  }

  /** `pos[k]` is where `r[k]` came from among the first `i` elements of `s`. */
  ghost predicate Tracks<T>(s: seq<T>, r: seq<T>, pos: seq<nat>, i: nat) {
    |pos| == |r| && forall k :: 0 <= k < |r| ==> pos[k] < i && pos[k] < |s| && r[k] == s[pos[k]]
  }

  /** Ties in `r` appear in the order of their origins. */
  ghost predicate StableBy<T>(r: seq<T>, pos: seq<nat>, le: (T, T) -> bool)
    requires |pos| == |r|
  {
    forall a, b :: 0 <= a < b < |r| && le(r[b], r[a]) ==> pos[a] < pos[b]
  }

  /** One step of the insertion sort: `s[i]` goes behind its ties. */
  method InsertStable<T(!new)>(s: seq<T>, r: seq<T>, ghost pos: seq<nat>, i: nat, le: (T, T) -> bool)
    returns (r': seq<T>, ghost pos': seq<nat>)
    requires Total(le) && Transitive(le) && i < |s|
    requires SortedBy(r, le) && multiset(r) == multiset(s[..i])
    requires Tracks(s, r, pos, i) && StableBy(r, pos, le)
    ensures SortedBy(r', le) && multiset(r') == multiset(s[..i + 1])
    ensures Tracks(s, r', pos', i + 1) && StableBy(r', pos', le)
  {
    var j := InsertionPoint(r, s[i], le);
    InsertKeepsSorted(r, s[i], j, le);
    InsertKeepsStable(r, pos, s[i], i, j, le);
    InsertTracks(s, r, pos, i, j);
    r', pos' := r[..j] + [s[i]] + r[j..], pos[..j] + [i] + pos[j..];
  }

  /** Where a stable insertion puts `x`: behind everything that ranks at
      most as high as it, in front of everything that ranks strictly lower. */
  method InsertionPoint<T(!new)>(r: seq<T>, x: T, le: (T, T) -> bool) returns (j: nat)
    requires Total(le) && Transitive(le) && SortedBy(r, le)
    ensures j <= |r|
    ensures forall k :: 0 <= k < j ==> le(r[k], x)
    ensures forall k :: j <= k < |r| ==> le(x, r[k]) && !le(r[k], x)
  {
    j := |r|;
    while j > 0 && !le(r[j - 1], x)
      invariant 0 <= j <= |r|
      invariant forall k :: j <= k < |r| ==> le(x, r[k]) && !le(r[k], x)
    {
      j := j - 1;
    }
    forall k | 0 <= k < j ensures le(r[k], x) {
      assert le(r[k], r[j - 1]);
    }
  }

  /** Inserting `s[i]` at `j` keeps the record of where each element came from. */
  lemma InsertTracks<T>(s: seq<T>, r: seq<T>, pos: seq<nat>, i: nat, j: nat)
    requires i < |s| && j <= |r| && |pos| == |r|
    requires multiset(r) == multiset(s[..i])
    requires Tracks(s, r, pos, i)
    ensures var r', pos' := r[..j] + [s[i]] + r[j..], pos[..j] + [i] + pos[j..];
            multiset(r') == multiset(s[..i + 1]) && Tracks(s, r', pos', i + 1)
  {
    assert r == r[..j] + r[j..];
    assert s[..i + 1] == s[..i] + [s[i]];
    var r', pos' := r[..j] + [s[i]] + r[j..], pos[..j] + [i] + pos[j..];
    forall k | 0 <= k < |r'| ensures pos'[k] < i + 1 && pos'[k] < |s| && r'[k] == s[pos'[k]] {
      if k < j {
        assert r'[k] == r[k] && pos'[k] == pos[k];
      } else if k > j {
        assert r'[k] == r[k - 1] && pos'[k] == pos[k - 1];
      }
    }
  }

  /** Inserting the `i`-th input element behind everything that ranks at
      most as high as it keeps every tie in input order. */
  lemma InsertKeepsStable<T>(r: seq<T>, pos: seq<nat>, x: T, i: nat, j: nat, le: (T, T) -> bool)
    requires j <= |r| && |pos| == |r|
    requires forall k :: 0 <= k < |r| ==> pos[k] < i
    requires StableBy(r, pos, le)
    requires forall k :: j <= k < |r| ==> !le(r[k], x)
    ensures StableBy(r[..j] + [x] + r[j..], pos[..j] + [i] + pos[j..], le)
  {
    var r', pos' := r[..j] + [x] + r[j..], pos[..j] + [i] + pos[j..];
    forall a, b | 0 <= a < b < |r'| && le(r'[b], r'[a]) ensures pos'[a] < pos'[b] {
      var a0 := if a < j then a else a - 1;
      var b0 := if b < j then b else b - 1;
      if a != j && b != j {
        assert r'[a] == r[a0] && r'[b] == r[b0] && pos'[a] == pos[a0] && pos'[b] == pos[b0];
      }
    }
  }
}
