/**
  Counting dictionaries (`Counter`, and the `d[k] = d.get(k, 0) + 1`
  idiom): a count per key, with the keys in insertion order because the
  ranking of `most_common` keeps that order among equal counts.
 */
module Tallies {
  import opened PyBuiltins
  import opened Sorting

  datatype Tally<K> = Tally(keys: seq<K>, count: map<K, nat>)

  predicate WellFormed<K>(t: Tally<K>) {
    Distinct(t.keys) && t.count.Keys == set k | k in t.keys
  }

  function Empty<K>(): Tally<K> {
    Tally([], map[])
  }

  /** One `counter[k] += 1`. */
  function Add<K>(t: Tally<K>, k: K): Tally<K> {
    if k in t.count then Tally(t.keys, t.count[k := t.count[k] + 1])
    else Tally(t.keys + [k], t.count[k := 1])
  }

  /** `Counter(xs)`: every element counted, in order. */
  function CountAll<K>(xs: seq<K>): Tally<K> {
    if xs == [] then Empty() else Add(CountAll(xs[..|xs| - 1]), xs[|xs| - 1])
  }

  /** `counter.update(xs)`. */
  function AddAll<K>(t: Tally<K>, xs: seq<K>): Tally<K>
    decreases |xs|
  {
    if xs == [] then t else AddAll(Add(t, xs[0]), xs[1..])
  }

  function CountOf<K>(t: Tally<K>, k: K): nat {
    if k in t.count then t.count[k] else 0
  }

  /** The sum of all counts. */
  function Total<K>(t: Tally<K>): nat {
    SumCounts(t.keys, t.count)
  }

  function SumCounts<K>(keys: seq<K>, count: map<K, nat>): nat {
    if keys == [] then 0
    else SumCounts(keys[..|keys| - 1], count) + (if keys[|keys| - 1] in count then count[keys[|keys| - 1]] else 0)
  }

  /** `counter.items()`, in insertion order. */
  function Items<K>(t: Tally<K>): (r: seq<(K, nat)>)
    ensures |r| == |t.keys|
  {
    seq(|t.keys|, i requires 0 <= i < |t.keys| => (t.keys[i], CountOf(t, t.keys[i])))
  }

  lemma AddSpec<K>(t: Tally<K>, k: K)
    requires WellFormed(t)
    ensures WellFormed(Add(t, k))
    ensures CountOf(Add(t, k), k) == CountOf(t, k) + 1
    ensures forall j :: j != k ==> CountOf(Add(t, k), j) == CountOf(t, j)
    ensures k in t.count ==> Add(t, k).keys == t.keys
    ensures k !in t.count ==> Add(t, k).keys == t.keys + [k]
    ensures Total(Add(t, k)) == Total(t) + 1
  {
    if k in t.count {
      AddKnown(t, k);
    } else {
      AddFresh(t, k);
    }
  }

  lemma AddKnown<K>(t: Tally<K>, k: K)
    requires WellFormed(t) && k in t.count
    ensures WellFormed(Add(t, k)) && Add(t, k).keys == t.keys
    ensures Total(Add(t, k)) == Total(t) + 1
  {
    SumCountsBump(t.keys, t.count, k);
  }

  lemma AddFresh<K>(t: Tally<K>, k: K)
    requires WellFormed(t) && k !in t.count
    ensures WellFormed(Add(t, k)) && Add(t, k).keys == t.keys + [k]
    ensures Total(Add(t, k)) == Total(t) + 1
  {
    var keys := t.keys + [k];
    assert k !in t.keys;
    assert Distinct(keys) by {
      forall i, j | 0 <= i < j < |keys| ensures keys[i] != keys[j] {
        if j == |t.keys| {
          assert keys[i] == t.keys[i];
        } else {
          assert keys[i] == t.keys[i] && keys[j] == t.keys[j];
        }
      }
    }
    assert (set x | x in keys) == (set x | x in t.keys) + {k};
    SumCountsFresh(t.keys, t.count, k);
  }

  lemma AddCount<K>(t: Tally<K>, k: K, j: K)
    ensures CountOf(Add(t, k), j) == CountOf(t, j) + if j == k then 1 else 0
  {
  }

  lemma {:induction false} SumCountsBump<K>(keys: seq<K>, count: map<K, nat>, k: K)
    requires Distinct(keys) && k in count
    ensures SumCounts(keys, count[k := count[k] + 1]) == SumCounts(keys, count) + (if k in keys then 1 else 0)
    decreases |keys|
  {
    if keys != [] {
      var init := keys[..|keys| - 1];
      assert Distinct(init);
      SumCountsBump(init, count, k);
      assert k in keys <==> k in init || k == keys[|keys| - 1] by {
        assert keys == init + [keys[|keys| - 1]];
      }
    }
  }

  lemma {:induction false} SumCountsFresh<K>(keys: seq<K>, count: map<K, nat>, k: K)
    requires k !in keys
    ensures SumCounts(keys, count[k := 1]) == SumCounts(keys, count)
    ensures SumCounts(keys + [k], count[k := 1]) == SumCounts(keys, count) + 1
    decreases |keys|
  {
    if keys != [] {
      var init := keys[..|keys| - 1];
      assert k !in init;
      SumCountsFresh(init, count, k);
    }
    assert (keys + [k])[..|keys|] == keys;
  }

  /** What `Counter(xs)` holds: each key once, in order of first appearance. */
  lemma {:induction false} CountAllKeys<K>(xs: seq<K>)
    ensures WellFormed(CountAll(xs))
    ensures CountAll(xs).keys == Unique(xs)
  {
    if xs != [] {
      var init := xs[..|xs| - 1];
      CountAllKeys(init);
      AddSpec(CountAll(init), xs[|xs| - 1]);
    }
  }

  /** Each key's count is its multiplicity in `xs`. */
  lemma {:induction false} CountAllCounts<K>(xs: seq<K>, k: K)
    ensures CountOf(CountAll(xs), k) == multiset(xs)[k]
  {
    if xs != [] {
      var init := xs[..|xs| - 1];
      CountAllCounts(init, k);
      AddCount(CountAll(init), xs[|xs| - 1], k);
      assert xs == init + [xs[|xs| - 1]];
    }
  }

  /** The counts sum to `|xs|`. */
  lemma {:induction false} CountAllTotal<K>(xs: seq<K>)
    ensures Total(CountAll(xs)) == |xs|
  {
    if xs != [] {
      var init := xs[..|xs| - 1];
      CountAllTotal(init);
      CountAllKeys(init);
      AddSpec(CountAll(init), xs[|xs| - 1]);
    }
  }

  /** `update` extends the counted sequence. */
  lemma {:induction false} AddAllCountAll<K>(xs: seq<K>, ys: seq<K>)
    ensures AddAll(CountAll(xs), ys) == CountAll(xs + ys)
    decreases |ys|
  {
    if ys == [] {
      assert xs + ys == xs;
    } else {
      var xs' := xs + [ys[0]];
      assert xs'[..|xs'| - 1] == xs;
      assert CountAll(xs') == Add(CountAll(xs), ys[0]);
      AddAllCountAll(xs', ys[1..]);
      assert xs' + ys[1..] == xs + ys;
    }
  }

  /** The ranking order of `most_common`: higher counts first. */
  function ByCountDesc<K>(): ((K, nat), (K, nat)) -> bool {
    DescendingInt((p: (K, nat)) => p.1)
  }

  /** `counter.most_common(n)` for `n >= 0`: the items ranked by count,
      equal counts in the order their keys were first counted, then the
      first `n`. */
  method MostCommon<K(!new)>(t: Tally<K>, n: nat) returns (r: seq<(K, nat)>)
    requires WellFormed(t)
    ensures |r| == if n < |t.keys| then n else |t.keys|
    ensures SortedBy(r, ByCountDesc())
    ensures forall i :: 0 <= i < |r| ==> r[i].0 in t.count && r[i].1 == t.count[r[i].0]
    ensures forall i, j :: 0 <= i < j < |r| ==> r[i].0 != r[j].0
    ensures forall k, i :: k in t.count && 0 <= i < |r| && k !in Keys(r) ==> t.count[k] <= r[i].1
    ensures forall i, j :: 0 <= i < j < |r| && r[i].1 == r[j].1 ==> Precedes(t.keys, r[i].0, r[j].0)
    ensures forall k, i :: k in t.count && 0 <= i < |r| && k !in Keys(r) && t.count[k] == r[i].1 ==>
              Precedes(t.keys, r[i].0, k)
  {
    KeyOrders((p: (K, nat)) => p.1, (p: (K, nat)) => 0.0);
    var items := Items(t);
    var ranked := SortBy(items, ByCountDesc());
    r := Head(ranked, n);
    SliceNatural(ranked, 0, n);
    assert |ranked| == |multiset(ranked)| == |multiset(items)| == |items|;
    RankedPrefix(t, items, ranked, n);
  }

  /** What the first `n` of a stable ranking of the items give. */
  lemma RankedPrefix<K>(t: Tally<K>, items: seq<(K, nat)>, ranked: seq<(K, nat)>, n: nat)
    requires WellFormed(t) && items == Items(t) && multiset(ranked) == multiset(items)
    requires SortedBy(ranked, ByCountDesc())
    requires forall a, b :: 0 <= a < b < |ranked| && ByCountDesc()(ranked[b], ranked[a]) ==>
               Precedes(items, ranked[a], ranked[b])
    ensures var r := ranked[..if n < |ranked| then n else |ranked|];
            SortedBy(r, ByCountDesc()) &&
            (forall i :: 0 <= i < |r| ==> r[i].0 in t.count && r[i].1 == t.count[r[i].0]) &&
            (forall i, j :: 0 <= i < j < |r| ==> r[i].0 != r[j].0) &&
            (forall k, i :: k in t.count && 0 <= i < |r| && k !in Keys(r) ==> t.count[k] <= r[i].1) &&
            (forall i, j :: 0 <= i < j < |r| && r[i].1 == r[j].1 ==> Precedes(t.keys, r[i].0, r[j].0)) &&
            (forall k, i :: k in t.count && 0 <= i < |r| && k !in Keys(r) && t.count[k] == r[i].1 ==>
               Precedes(t.keys, r[i].0, k))
  {
    RankedItems(t, items, ranked);
    RankedKeysDistinct(t, items, ranked);
    RankedTop(t, items, ranked, n);
    RankedTies(t, items, ranked, n);
  }

  /** A stable ranking keeps tied keys in counting order, so a tied key
      left out of the first `n` was counted after every kept key it ties with. */
  lemma RankedTies<K>(t: Tally<K>, items: seq<(K, nat)>, ranked: seq<(K, nat)>, n: nat)
    requires WellFormed(t) && items == Items(t) && multiset(ranked) == multiset(items)
    requires forall a, b :: 0 <= a < b < |ranked| && ByCountDesc()(ranked[b], ranked[a]) ==>
               Precedes(items, ranked[a], ranked[b])
    ensures var r := ranked[..if n < |ranked| then n else |ranked|];
            (forall i, j :: 0 <= i < j < |r| && r[i].1 == r[j].1 ==> Precedes(t.keys, r[i].0, r[j].0)) &&
            (forall k, i :: k in t.count && 0 <= i < |r| && k !in Keys(r) && t.count[k] == r[i].1 ==>
               Precedes(t.keys, r[i].0, k))
  {
    var r := ranked[..if n < |ranked| then n else |ranked|];
    forall i, j | 0 <= i < j < |r| && r[i].1 == r[j].1 ensures Precedes(t.keys, r[i].0, r[j].0) {
      assert ByCountDesc()(ranked[j], ranked[i]);
      ItemsOrder(t, items, ranked[i], ranked[j]);
    }
    forall k, i | k in t.count && 0 <= i < |r| && k !in Keys(r) && t.count[k] == r[i].1
      ensures Precedes(t.keys, r[i].0, k)
    {
      LeftOutTie(t, items, ranked, |r|, k, i);
    }
  }

  lemma LeftOutTie<K>(t: Tally<K>, items: seq<(K, nat)>, ranked: seq<(K, nat)>, n: nat, k: K, i: nat)
    requires WellFormed(t) && items == Items(t) && multiset(ranked) == multiset(items)
    requires forall a, b :: 0 <= a < b < |ranked| && ByCountDesc()(ranked[b], ranked[a]) ==>
               Precedes(items, ranked[a], ranked[b])
    requires i < n <= |ranked| && k in t.count && k !in Keys(ranked[..n]) && t.count[k] == ranked[i].1
    ensures Precedes(t.keys, ranked[i].0, k)
  {
    var p := KeyRanked(t, items, ranked, k);
    OutsidePrefix(ranked, n, p);
    assert ByCountDesc()(ranked[p], ranked[i]);
    ItemsOrder(t, items, ranked[i], ranked[p]);
  }

  /** Every counted key has its item somewhere in a permutation of the items. */
  lemma KeyRanked<K>(t: Tally<K>, items: seq<(K, nat)>, ranked: seq<(K, nat)>, k: K) returns (p: nat)
    requires WellFormed(t) && items == Items(t) && multiset(ranked) == multiset(items) && k in t.count
    ensures p < |ranked| && ranked[p] == (k, t.count[k])
  {
    var m :| 0 <= m < |t.keys| && t.keys[m] == k;
    assert items[m] in multiset(ranked);
    p :| 0 <= p < |ranked| && ranked[p] == items[m];
  }

  lemma OutsidePrefix<K>(r: seq<(K, nat)>, n: nat, p: nat)
    requires n <= |r| && p < |r| && r[p].0 !in Keys(r[..n])
    ensures p >= n
  {
    assert forall q :: 0 <= q < n ==> r[..n][q].0 in Keys(r[..n]);
  }

  lemma ItemsOrder<K>(t: Tally<K>, items: seq<(K, nat)>, x: (K, nat), y: (K, nat))
    requires items == Items(t) && Precedes(items, x, y)
    ensures Precedes(t.keys, x.0, y.0)
  {
    var a, b :| 0 <= a < b < |items| && items[a] == x && items[b] == y;
    assert t.keys[a] == x.0 && t.keys[b] == y.0;
  }

  function Keys<K>(r: seq<(K, nat)>): set<K> {
    set i | 0 <= i < |r| :: r[i].0
  }

  lemma RankedItems<K>(t: Tally<K>, items: seq<(K, nat)>, ranked: seq<(K, nat)>)
    requires WellFormed(t) && items == Items(t) && multiset(ranked) == multiset(items)
    ensures forall i :: 0 <= i < |ranked| ==> ranked[i].0 in t.count && ranked[i].1 == t.count[ranked[i].0]
  {
    forall i | 0 <= i < |ranked| ensures ranked[i].0 in t.count && ranked[i].1 == t.count[ranked[i].0] {
      assert ranked[i] in multiset(items);
    }
  }

  lemma RankedKeysDistinct<K>(t: Tally<K>, items: seq<(K, nat)>, ranked: seq<(K, nat)>)
    requires WellFormed(t) && items == Items(t) && multiset(ranked) == multiset(items)
    ensures forall i, j :: 0 <= i < j < |ranked| ==> ranked[i].0 != ranked[j].0
  {
    forall i, j | 0 <= i < j < |ranked| ensures ranked[i].0 != ranked[j].0 {
      ItemsDistinct(t, items, ranked, i, j);
    }
  }

  lemma RankedTop<K>(t: Tally<K>, items: seq<(K, nat)>, ranked: seq<(K, nat)>, n: nat)
    requires WellFormed(t) && items == Items(t) && multiset(ranked) == multiset(items)
    requires SortedBy(ranked, ByCountDesc())
    ensures var r := ranked[..if n < |ranked| then n else |ranked|];
            forall k, i :: k in t.count && 0 <= i < |r| && k !in Keys(r) ==> t.count[k] <= r[i].1
  {
    var r := ranked[..if n < |ranked| then n else |ranked|];
    forall k, i | k in t.count && 0 <= i < |r| && k !in Keys(r) ensures t.count[k] <= r[i].1 {
      var m :| 0 <= m < |t.keys| && t.keys[m] == k;
      assert items[m] in multiset(ranked);
      var p :| 0 <= p < |ranked| && ranked[p] == items[m];
      assert ByCountDesc()(ranked[i], ranked[p]);
    }
  }

  lemma ItemsDistinct<K>(t: Tally<K>, items: seq<(K, nat)>, ranked: seq<(K, nat)>, i: nat, j: nat)
    requires WellFormed(t) && items == Items(t) && multiset(ranked) == multiset(items)
    requires i < j < |ranked|
    ensures ranked[i].0 != ranked[j].0
  {
    PermutedKeysDistinct(items, ranked, i, j);
  }

  /** A permutation of pairs with distinct keys has distinct keys. */
  lemma PermutedKeysDistinct<K>(items: seq<(K, nat)>, ranked: seq<(K, nat)>, i: nat, j: nat)
    requires forall x, y :: 0 <= x < y < |items| ==> items[x].0 != items[y].0
    requires multiset(ranked) == multiset(items) && i < j < |ranked|
    ensures ranked[i].0 != ranked[j].0
  {
    assert ranked[i] in multiset(items) && ranked[j] in multiset(items);
    var a :| 0 <= a < |items| && items[a] == ranked[i];
    var b :| 0 <= b < |items| && items[b] == ranked[j];
    if a == b {
      assert ranked == ranked[..i] + [ranked[i]] + ranked[i + 1..j] + [ranked[j]] + ranked[j + 1..];
      assert multiset(ranked)[ranked[i]] >= 2;
      MultiplicityOne(items, a);
      assert false;
    }
  }

  lemma MultiplicityOne<K>(items: seq<(K, nat)>, a: nat)
    requires a < |items|
    requires forall x, y :: 0 <= x < y < |items| ==> items[x].0 != items[y].0
    ensures multiset(items)[items[a]] == 1
  {
    var pre, post := items[..a], items[a + 1..];
    assert items == pre + [items[a]] + post;
    forall x | 0 <= x < |pre| ensures pre[x] != items[a] {
      assert pre[x] == items[x];
    }
    forall y | 0 <= y < |post| ensures post[y] != items[a] {
      assert post[y] == items[a + 1 + y];
    }
    assert items[a] !in pre && items[a] !in post;
  }
}
