/**
 * Counting and percentage arithmetic shared by both dashboards: the zero-guarded
 * percentage expression, `SELECT key, COUNT(*) ... GROUP BY key`, and the loop that
 * attaches a percentage to every group of such a query.
 */
module Stats {

  /** `count / total * 100` when `total > 0`, and 0 otherwise (exact; the source's rounding is not modelled). */
  function Percent(count: nat, total: nat): (p: real)
    ensures total == 0 ==> p == 0.0
    ensures 0 < total ==> p * (total as real) == (count as real) * 100.0
    ensures count <= total ==> 0.0 <= p <= 100.0
  {
    if total > 0 then (count as real) / (total as real) * 100.0 else 0.0
  }

  /** Python's `sum(...)` over a list of counts. */
  function SumCounts(counts: seq<nat>): nat
  {
    if counts == [] then 0 else SumCounts(counts[..|counts| - 1]) + counts[|counts| - 1]
  }

  /** The sum of a list of percentages. */
  function SumReals(xs: seq<real>): real
  {
    if xs == [] then 0.0 else SumReals(xs[..|xs| - 1]) + xs[|xs| - 1]
  }

  /** The percentage of every count against one total, in order. */
  function PercentsOf(counts: seq<nat>, total: nat): (ps: seq<real>)
    ensures |ps| == |counts|
    ensures forall i :: 0 <= i < |counts| ==> ps[i] == Percent(counts[i], total)
  {
    seq(|counts|, i requires 0 <= i < |counts| => Percent(counts[i], total))
  }

  /** Summing the percentages of some counts against `total` gives their sum's percentage. */
  lemma {:induction false} PercentsSumToShare(counts: seq<nat>, total: nat)
    requires 0 < total
    ensures SumReals(PercentsOf(counts, total)) == (SumCounts(counts) as real) / (total as real) * 100.0
  {
    if counts != [] {
      var n := |counts|;
      var front := counts[..n - 1];
      assert PercentsOf(counts, total)[..n - 1] == PercentsOf(front, total);
      PercentsSumToShare(front, total);
      SharesAdd(SumCounts(front) as real, counts[n - 1] as real, total as real);
    }
  }

  lemma SharesAdd(s: real, c: real, t: real)
    requires 0.0 < t
    ensures s / t * 100.0 + c / t * 100.0 == (s + c) / t * 100.0
  {
    assert s / t + c / t == (s + c) / t;
  }

  /** When the total is the sum of the counts and positive, the percentages sum to exactly 100. */
  lemma PercentsSumTo100(counts: seq<nat>)
    requires 0 < SumCounts(counts)
    ensures SumReals(PercentsOf(counts, SumCounts(counts))) == 100.0
  {
    PercentsSumToShare(counts, SumCounts(counts));
    WholeShare(SumCounts(counts) as real);
  }

  lemma WholeShare(t: real)
    requires 0.0 < t
    ensures t / t * 100.0 == 100.0
  {
  }

  // ---------------------------------------------------------------------------
  // GROUP BY key with COUNT(*)
  // ---------------------------------------------------------------------------

  /** How many of `keys` equal `k`. */
  function Occurrences<K(==,!new)>(keys: seq<K>, k: K): (n: nat)
    ensures n == 0 <==> k !in keys
    ensures n <= |keys|
  {
    if keys == [] then 0
    else Occurrences(keys[..|keys| - 1], k) + (if keys[|keys| - 1] == k then 1 else 0)
  }

  /** Counting over two runs of keys adds their counts. */
  lemma {:induction false} OccurrencesAppend<K(!new)>(a: seq<K>, b: seq<K>, k: K)
    ensures Occurrences(a + b, k) == Occurrences(a, k) + Occurrences(b, k)
  {
    if b == [] {
      assert a + b == a;
    } else {
      OccurrencesAppend(a, b[..|b| - 1], k);
      assert (a + b)[..|a + b| - 1] == a + b[..|b| - 1];
    }
  }

  /** In a run where every key is `x`, `x` occurs once per element and nothing else occurs. */
  lemma {:induction false} OccurrencesUniform<K(!new)>(keys: seq<K>, x: K, k: K)
    requires forall i :: 0 <= i < |keys| ==> keys[i] == x
    ensures Occurrences(keys, k) == if k == x then |keys| else 0
  {
    if keys != [] {
      OccurrencesUniform(keys[..|keys| - 1], x, k);
    }
  }

  /** The distinct keys, each at the place it first appears. */
  function Distinct<K(==,!new)>(keys: seq<K>): (d: seq<K>)
    ensures forall k :: k in d <==> k in keys
    ensures forall i, j :: 0 <= i < j < |d| ==> d[i] != d[j]
  {
    if keys == [] then []
    else
      var d := Distinct(keys[..|keys| - 1]);
      var last := keys[|keys| - 1];
      assert keys == keys[..|keys| - 1] + [last];
      if last in d then d else d + [last]
  }

  lemma DistinctSnoc<K(!new)>(keys: seq<K>, x: K)
    ensures Distinct(keys + [x]) == if x in Distinct(keys) then Distinct(keys) else Distinct(keys) + [x]
  {
    assert (keys + [x])[..|keys|] == keys;
  }

  /** The position where `k` first appears in `keys`. */
  function FirstIndex<K(==)>(keys: seq<K>, k: K): (r: nat)
    requires k in keys
    ensures r < |keys| && keys[r] == k
    ensures forall j :: 0 <= j < r ==> keys[j] != k
  {
    if keys[0] == k then 0 else 1 + FirstIndex(keys[1..], k)
  }

  /** Adding a key at the end does not move the first appearance of a key already present. */
  lemma FirstIndexSnoc<K(!new)>(keys: seq<K>, x: K, k: K)
    requires k in keys
    ensures FirstIndex(keys + [x], k) == FirstIndex(keys, k)
  {
    assert (keys + [x])[FirstIndex(keys, k)] == k;
  }

  /** `Distinct` lists the keys in the order of their first appearance. */
  lemma {:induction false} DistinctInOrder<K(!new)>(keys: seq<K>)
    ensures forall i, j :: 0 <= i < j < |Distinct(keys)| ==>
      FirstIndex(keys, Distinct(keys)[i]) < FirstIndex(keys, Distinct(keys)[j])
  {
    if keys != [] {
      var front, x := keys[..|keys| - 1], keys[|keys| - 1];
      assert keys == front + [x];
      DistinctInOrder(front);
      DistinctSnoc(front, x);
      var d := Distinct(front);
      forall i, j | 0 <= i < j < |Distinct(keys)|
        ensures FirstIndex(keys, Distinct(keys)[i]) < FirstIndex(keys, Distinct(keys)[j])
      {
        assert Distinct(keys)[i] == d[i];
        FirstIndexSnoc(front, x, d[i]);
        if j < |d| {
          assert Distinct(keys)[j] == d[j];
          FirstIndexSnoc(front, x, d[j]);
        } else {
          assert Distinct(keys)[j] == x && x !in front;
          assert forall m :: 0 <= m < |front| ==> keys[m] != x;
        }
      }
    }
  }

  /** The rows of `SELECT key, COUNT(*) FROM t GROUP BY key`; SQL leaves the order open, this takes first appearance. */
  function GroupCounts<K(==,!new)>(keys: seq<K>): (groups: seq<(K, nat)>)
    ensures |groups| == |Distinct(keys)|
    ensures forall i :: 0 <= i < |groups| ==> groups[i] == (Distinct(keys)[i], Occurrences(keys, Distinct(keys)[i]))
  {
    var d := Distinct(keys);
    seq(|d|, i requires 0 <= i < |d| => (d[i], Occurrences(keys, d[i])))
  }

  /** The count column of a grouped result. */
  function Counts<K>(groups: seq<(K, nat)>): (cs: seq<nat>)
    ensures |cs| == |groups|
    ensures forall i :: 0 <= i < |groups| ==> cs[i] == groups[i].1
  {
    seq(|groups|, i requires 0 <= i < |groups| => groups[i].1)
  }

  /** Every key is in exactly one group, with its number of occurrences, and no group is empty. */
  lemma GroupCountsExact<K(!new)>(keys: seq<K>, k: K)
    ensures k in keys <==> exists i :: 0 <= i < |GroupCounts(keys)| && GroupCounts(keys)[i].0 == k
    ensures forall i :: 0 <= i < |GroupCounts(keys)| && GroupCounts(keys)[i].0 == k ==> GroupCounts(keys)[i].1 == Occurrences(keys, k) > 0
  {
    var d := Distinct(keys);
    if k in keys {
      var i :| 0 <= i < |d| && d[i] == k;
      assert GroupCounts(keys)[i].0 == k;
    }
  }

  /** The sum of `Occurrences(keys, k)` over the keys `k` of `d`. */
  function OccurrenceSum<K(==,!new)>(d: seq<K>, keys: seq<K>): nat
  {
    if d == [] then 0 else OccurrenceSum(d[..|d| - 1], keys) + Occurrences(keys, d[|d| - 1])
  }

  /** Appending `x` to the keys adds one to the sum over `d` exactly when `x` is one of `d`'s distinct keys. */
  lemma {:induction false} OccurrenceSumSnoc<K(!new)>(d: seq<K>, keys: seq<K>, x: K)
    requires forall i, j :: 0 <= i < j < |d| ==> d[i] != d[j]
    ensures OccurrenceSum(d, keys + [x]) == OccurrenceSum(d, keys) + (if x in d then 1 else 0)
  {
    if d != [] {
      var front := d[..|d| - 1];
      OccurrenceSumSnoc(front, keys, x);
      assert (keys + [x])[..|keys|] == keys;
      assert x in d <==> x in front || x == d[|d| - 1];
      assert x == d[|d| - 1] ==> x !in front;
    }
  }

  /** The groups of a GROUP BY account for every row: their counts add up to the number of rows. */
  lemma {:induction false} GroupCountsSum<K(!new)>(keys: seq<K>)
    ensures SumCounts(Counts(GroupCounts(keys))) == |keys|
  {
    OccurrenceSumOfDistinct(keys);
    CountsAreOccurrenceSum(Distinct(keys), keys);
  }

  lemma {:induction false} OccurrenceSumOfDistinct<K(!new)>(keys: seq<K>)
    ensures OccurrenceSum(Distinct(keys), keys) == |keys|
  {
    if keys != [] {
      var front := keys[..|keys| - 1];
      var x := keys[|keys| - 1];
      assert keys == front + [x];
      var d := Distinct(front);
      OccurrenceSumOfDistinct(front);
      OccurrenceSumSnoc(d, front, x);
      if x !in d {
        assert Distinct(keys) == d + [x];
        assert (d + [x])[..|d|] == d;
        assert Occurrences(front, x) == 0;
      }
    }
  }

  lemma {:induction false} CountsAreOccurrenceSum<K(!new)>(d: seq<K>, keys: seq<K>)
    requires d == Distinct(keys)
    ensures SumCounts(Counts(GroupCounts(keys))) == OccurrenceSum(d, keys)
  {
    var cs := Counts(GroupCounts(keys));
    OccurrencePrefixSum(d, keys, cs, |d|);
    assert cs[..|d|] == cs;
    assert d[..|d|] == d;
  }

  lemma {:induction false} OccurrencePrefixSum<K(!new)>(d: seq<K>, keys: seq<K>, cs: seq<nat>, n: nat)
    requires |cs| == |d| && n <= |d|
    requires forall i :: 0 <= i < |d| ==> cs[i] == Occurrences(keys, d[i])
    ensures SumCounts(cs[..n]) == OccurrenceSum(d[..n], keys)
  {
    if n > 0 {
      OccurrencePrefixSum(d, keys, cs, n - 1);
      assert cs[..n][..n - 1] == cs[..n - 1];
      assert d[..n][..n - 1] == d[..n - 1];
    }
  }

  /** Grouping two rows: one group of two when their keys agree, two groups of one otherwise. */
  lemma GroupCountsPair<K(!new)>(a: K, b: K)
    ensures GroupCounts([a, b]) == if a == b then [(a, 2)] else [(a, 1), (b, 1)]
  {
    assert [a, b][..1] == [a];
    assert [a][..0] == [];
    assert Distinct([a]) == [a];
    assert Occurrences([a], a) == 1;
    assert Occurrences([a], b) == if a == b then 1 else 0;
  }

  /** `f` applied to every key. */
  function MapKeys<K, L>(f: K -> L, keys: seq<K>): (ls: seq<L>)
    ensures |ls| == |keys|
    ensures forall i :: 0 <= i < |keys| ==> ls[i] == f(keys[i])
  {
    seq(|keys|, i requires 0 <= i < |keys| => f(keys[i]))
  }

  /** `f` never sends two keys to the same value. */
  ghost predicate Injective<K(!new), L>(f: K -> L)
  {
    forall a, b :: f(a) == f(b) ==> a == b
  }

  /** Renaming the keys one-to-one keeps every count. */
  lemma {:induction false} OccurrencesMapped<K(!new), L(!new)>(f: K -> L, keys: seq<K>, k: K)
    requires Injective(f)
    ensures Occurrences(MapKeys(f, keys), f(k)) == Occurrences(keys, k)
  {
    if keys != [] {
      var front := keys[..|keys| - 1];
      OccurrencesMapped(f, front, k);
      assert MapKeys(f, keys)[..|keys| - 1] == MapKeys(f, front);
    }
  }

  /** Renaming the keys one-to-one renames the distinct keys and keeps their order. */
  lemma {:induction false} DistinctMapped<K(!new), L(!new)>(f: K -> L, keys: seq<K>)
    requires Injective(f)
    ensures Distinct(MapKeys(f, keys)) == MapKeys(f, Distinct(keys))
  {
    if keys != [] {
      var front, x := keys[..|keys| - 1], keys[|keys| - 1];
      DistinctMapped(f, front);
      assert MapKeys(f, keys)[..|keys| - 1] == MapKeys(f, front);
      var d := Distinct(front);
      assert f(x) in MapKeys(f, d) <==> x in d;
      if x !in d {
        assert MapKeys(f, d + [x]) == MapKeys(f, d) + [f(x)];
      }
    }
  }

  /** Grouping renamed keys gives the same groups, renamed, in the same order, with the same counts. */
  lemma GroupCountsMapped<K(!new), L(!new)>(f: K -> L, keys: seq<K>)
    requires Injective(f)
    ensures |GroupCounts(MapKeys(f, keys))| == |GroupCounts(keys)|
    ensures forall i :: 0 <= i < |GroupCounts(keys)| ==>
      GroupCounts(MapKeys(f, keys))[i] == (f(GroupCounts(keys)[i].0), GroupCounts(keys)[i].1)
  {
    DistinctMapped(f, keys);
    forall i | 0 <= i < |GroupCounts(keys)|
      ensures GroupCounts(MapKeys(f, keys))[i] == (f(GroupCounts(keys)[i].0), GroupCounts(keys)[i].1)
    {
      OccurrencesMapped(f, keys, Distinct(keys)[i]);
    }
  }

  // ---------------------------------------------------------------------------
  // Percentages per group (run_local.py:202-210 and 231-239)
  // ---------------------------------------------------------------------------

  /** One dashboard row: a group's key, its count, and its share of all counted rows. */
  datatype CategoryStat<K> = CategoryStat(key: K, count: nat, percentage: real)

  /** The percentage column of a list of dashboard rows. */
  function Percentages<K>(stats: seq<CategoryStat<K>>): (ps: seq<real>)
    ensures |ps| == |stats|
    ensures forall i :: 0 <= i < |stats| ==> ps[i] == stats[i].percentage
  {
    seq(|stats|, i requires 0 <= i < |stats| => stats[i].percentage)
  }

  /**
   * Sums the group counts, then appends one row per group with `count / total * 100`
   * (0 when the total is 0). The percentages add up to 100 whenever any row was counted.
   */
  method WithPercentages<K>(groups: seq<(K, nat)>) returns (stats: seq<CategoryStat<K>>)
    ensures |stats| == |groups|
    ensures forall i :: 0 <= i < |groups| ==>
      stats[i].key == groups[i].0 && stats[i].count == groups[i].1
      && stats[i].percentage == Percent(groups[i].1, SumCounts(Counts(groups)))
    ensures SumCounts(Counts(groups)) > 0 ==> SumReals(Percentages(stats)) == 100.0
    ensures SumCounts(Counts(groups)) == 0 ==> forall i :: 0 <= i < |stats| ==> stats[i].percentage == 0.0
  {
    var total := SumCounts(Counts(groups));
    stats := [];
    var i := 0;
    while i < |groups|
      invariant 0 <= i <= |groups|
      invariant |stats| == i
      invariant forall j :: 0 <= j < i ==> stats[j] == CategoryStat(groups[j].0, groups[j].1, Percent(groups[j].1, total))
    {
      var (key, count) := groups[i];
      stats := stats + [CategoryStat(key, count, Percent(count, total))];
      i := i + 1;
    }
    if total > 0 {
      assert Percentages(stats) == PercentsOf(Counts(groups), total);
      PercentsSumTo100(Counts(groups));
    }
  }
}
