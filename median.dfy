/**
  The median `sorted(data)[len(data) // 2]` of a list of numbers, stated
  by counting: the value at that position of the ascending order is the
  one with at most `len(data) // 2` values below it and more at or below it.
 */
module Median {
  import opened Sorting

  function Ascending(): (real, real) -> bool {
    AscendingReal((x: real) => x)
  }

  predicate Below(x: real, m: real, strict: bool) {
    if strict then x < m else x <= m
  }

  /** How many values are below `m` (`strict`) or at most `m`. */
  function CountBelow(s: seq<real>, m: real, strict: bool): (r: nat)
    ensures r <= |s|
    ensures (forall k :: 0 <= k < |s| ==> Below(s[k], m, strict)) ==> r == |s|
    ensures (forall k :: 0 <= k < |s| ==> !Below(s[k], m, strict)) ==> r == 0
  {
    if s == [] then 0
    else CountBelow(s[..|s| - 1], m, strict) + (if Below(s[|s| - 1], m, strict) then 1 else 0)
  }

  /** `m` sits at position `|data| / 2` of the ascending order of `data`:
      at most that many values lie below it and more lie at or below it. */
  ghost predicate IsMedian(m: real, data: seq<real>) {
    m in data && CountBelow(data, m, true) <= |data| / 2 < CountBelow(data, m, false)
  }

  lemma {:induction false} CountConcat(u: seq<real>, v: seq<real>, m: real, strict: bool)
    ensures CountBelow(u + v, m, strict) == CountBelow(u, m, strict) + CountBelow(v, m, strict)
  {
    if v == [] {
      assert u + v == u;
    } else {
      assert (u + v)[..|u + v| - 1] == u + v[..|v| - 1];
      CountConcat(u, v[..|v| - 1], m, strict);
    }
  }

  lemma CountRemove(b: seq<real>, i: nat, m: real, strict: bool)
    requires i < |b|
    ensures CountBelow(b, m, strict) ==
            CountBelow(b[..i] + b[i + 1..], m, strict) + (if Below(b[i], m, strict) then 1 else 0)
  {
    assert b == (b[..i] + [b[i]]) + b[i + 1..];
    CountConcat(b[..i] + [b[i]], b[i + 1..], m, strict);
    CountConcat(b[..i], [b[i]], m, strict);
    CountConcat(b[..i], b[i + 1..], m, strict);
  }

  /** Counting does not depend on the order of the values. */
  lemma {:induction false} CountPermutation(a: seq<real>, b: seq<real>, m: real, strict: bool)
    requires multiset(a) == multiset(b)
    ensures CountBelow(a, m, strict) == CountBelow(b, m, strict)
  {
    if a == [] {
      assert |b| == |multiset(b)| == 0;
    } else {
      var x, init := a[|a| - 1], a[..|a| - 1];
      assert a == init + [x];
      assert x in multiset(b);
      var i :| 0 <= i < |b| && b[i] == x;
      var rest := b[..i] + b[i + 1..];
      assert b == b[..i] + [x] + b[i + 1..];
      assert multiset(init) == multiset(a) - multiset{x};
      assert multiset(rest) == multiset(b) - multiset{x};
      CountPermutation(init, rest, m, strict);
      CountRemove(b, i, m, strict);
    }
  }

  /** The value at position `h` of an ascending list is its `h`-th order statistic. */
  lemma SortedMedian(s: seq<real>, h: nat)
    requires SortedBy(s, Ascending()) && h < |s|
    ensures CountBelow(s, s[h], true) <= h < CountBelow(s, s[h], false)
  {
    forall k | 0 <= k < |s| ensures (k <= h ==> s[k] <= s[h]) && (h <= k ==> s[h] <= s[k]) {
      if k < h { assert Ascending()(s[k], s[h]); }
      if h < k { assert Ascending()(s[h], s[k]); }
    }
    AscendingFewerBelow(s, h);
    AscendingAtMost(s, h);
  }

  lemma AscendingFewerBelow(s: seq<real>, h: nat)
    requires h < |s|
    requires forall k :: h <= k < |s| ==> s[h] <= s[k]
    ensures CountBelow(s, s[h], true) <= h
  {
    var tail := s[h..];
    forall k | 0 <= k < |tail| ensures !Below(tail[k], s[h], true) {
      assert tail[k] == s[h + k];
    }
    assert CountBelow(tail, s[h], true) == 0;
    assert s == s[..h] + tail;
    CountConcat(s[..h], tail, s[h], true);
  }

  lemma AscendingAtMost(s: seq<real>, h: nat)
    requires h < |s|
    requires forall k :: 0 <= k <= h ==> s[k] <= s[h]
    ensures h < CountBelow(s, s[h], false)
  {
    var head, rest := s[..h + 1], s[h + 1..];
    forall k | 0 <= k < |head| ensures Below(head[k], s[h], false) {
      assert head[k] == s[k];
    }
    assert CountBelow(head, s[h], false) == |head|;
    assert s == head + rest;
    CountConcat(head, rest, s[h], false);
  }

  lemma {:induction false} CountMonotone(s: seq<real>, a: real, b: real)
    requires a < b
    ensures CountBelow(s, a, false) <= CountBelow(s, b, true)
  {
    if s != [] {
      CountMonotone(s[..|s| - 1], a, b);
    }
  }

  /** At most one value is the median of a list, so `IsMedian` pins down
      `sorted(data)[len(data) // 2]`. */
  lemma MedianUnique(a: real, b: real, data: seq<real>)
    requires IsMedian(a, data) && IsMedian(b, data)
    ensures a == b
  {
    if a < b {
      CountMonotone(data, a, b);
    } else if b < a {
      CountMonotone(data, b, a);
    }
  }
}
