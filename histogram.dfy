/**
 * The lifetime-multiplicity histograms: for 1, 2, ..., up to the largest
 * lifetime count, how many clauses were weakened (or restored) that many
 * times.
 */
module Histogram {
  import opened Wrappers
  import opened Counters

  /** `Counter(m.values()).get(v, 0)`: how many keys have the value `v`. */
  function CountOf(m: map<int, nat>, v: nat): (c: nat)
    ensures c <= |m|
    decreases |m|
  {
    if m == map[] then 0
    else
      var k := Min(m.Keys);
      (if m[k] == v then 1 else 0) + CountOf(m - {k}, v)
  }

  /** The count does not depend on the order: any key can be taken out first. */
  lemma {:induction false} CountOfRemove(m: map<int, nat>, k: int, v: nat)
    requires k in m
    ensures CountOf(m, v) == (if m[k] == v then 1 else 0) + CountOf(m - {k}, v)
    decreases |m|
  {
    var j := Min(m.Keys);
    if j != k {
      var mj, mk := m - {j}, m - {k};
      assert CountOf(mj, v) == (if m[k] == v then 1 else 0) + CountOf(mj - {k}, v) by {
        CountOfRemove(mj, k, v);
      }
      assert Min(mk.Keys) == j by {
        assert j in mk.Keys;
        assert Min(mk.Keys) in m.Keys;
      }
      assert mj - {k} == mk - {j};
    }
  }

  /** `[counts.get(i, 0) for i in range(1, n + 1)]`. */
  function Counts(m: map<int, nat>, n: nat): (r: seq<nat>)
    ensures |r| == n
    ensures forall i :: 0 <= i < n ==> r[i] == CountOf(m, i + 1)
  {
    if n == 0 then [] else Counts(m, n - 1) + [CountOf(m, n)]
  }

  /**
   * The histogram of a lifetime-count map, up to its largest count; `max`
   * of an empty counter fails, so an empty map has none.
   */
  function Histogram(m: map<int, nat>): (r: Option<seq<nat>>)
    ensures r.None? <==> m == map[]
  {
    if m == map[] then None
    else
      var k := Min(m.Keys);
      assert m[k] in m.Values;
      Some(Counts(m, Max(m.Values)))
  }

  /** The total of a sequence of counts. */
  function Total(h: seq<nat>): nat {
    if h == [] then 0 else Total(h[..|h| - 1]) + h[|h| - 1]
  }

  /** The total weighted by position: `sum(i * h[i - 1] for i in 1..|h|)`. */
  function Weighted(h: seq<nat>): nat {
    if h == [] then 0 else Weighted(h[..|h| - 1]) + |h| * h[|h| - 1]
  }

  lemma CountsPrefix(m: map<int, nat>, n: nat)
    requires n > 0
    ensures Counts(m, n)[..n - 1] == Counts(m, n - 1)
  {
  }

  lemma {:induction false} CountsRemove(m: map<int, nat>, k: int, n: nat)
    requires k in m
    ensures Total(Counts(m, n)) == (if 1 <= m[k] <= n then 1 else 0) + Total(Counts(m - {k}, n))
  {
    if n > 0 {
      CountsRemove(m, k, n - 1);
      CountsPrefix(m, n);
      CountsPrefix(m - {k}, n);
      CountOfRemove(m, k, n);
    }
  }

  lemma {:induction false} WeightedRemove(m: map<int, nat>, k: int, n: nat)
    requires k in m
    ensures Weighted(Counts(m, n)) == (if 1 <= m[k] <= n then m[k] else 0) + Weighted(Counts(m - {k}, n))
  {
    if n > 0 {
      var a, b := CountOf(m, n), CountOf(m - {k}, n);
      var w0, v0 := Weighted(Counts(m, n - 1)), Weighted(Counts(m - {k}, n - 1));
      assert w0 == (if 1 <= m[k] <= n - 1 then m[k] else 0) + v0 by {
        WeightedRemove(m, k, n - 1);
      }
      assert Weighted(Counts(m, n)) == w0 + n * a by {
        WeightedStep(m, n);
      }
      assert Weighted(Counts(m - {k}, n)) == v0 + n * b by {
        WeightedStep(m - {k}, n);
      }
      assert a == (if m[k] == n then 1 else 0) + b by {
        CountOfRemove(m, k, n);
      }
      WeightedBar(n, m[k], a, b, w0, v0);
    }
  }

  /** The arithmetic of one more bar: the removed key adds its count to bar `n` or to an earlier one. */
  lemma WeightedBar(n: nat, x: nat, a: nat, b: nat, w0: nat, v0: nat)
    requires n > 0
    requires a == (if x == n then 1 else 0) + b
    requires w0 == (if 1 <= x <= n - 1 then x else 0) + v0
    ensures w0 + n * a == (if 1 <= x <= n then x else 0) + v0 + n * b
  {
    if x == n {
      assert n * a == n * b + n;
    }
  }

  lemma WeightedStep(m: map<int, nat>, n: nat)
    requires n > 0
    ensures Weighted(Counts(m, n)) == Weighted(Counts(m, n - 1)) + n * CountOf(m, n)
  {
    CountsPrefix(m, n);
  }

  /** Every key whose count lies in 1..n is counted in exactly one bar, with its count as weight. */
  lemma {:induction false} CountsCoverKeys(m: map<int, nat>, n: nat)
    requires forall k :: k in m ==> 1 <= m[k] <= n
    ensures Total(Counts(m, n)) == |m|
    ensures Weighted(Counts(m, n)) == SumValues(m)
    decreases |m|
  {
    if m != map[] {
      var k := Min(m.Keys);
      CountsRemove(m, k, n);
      WeightedRemove(m, k, n);
      CountsCoverKeys(m - {k}, n);
      SumValuesRemove(m, k);
    } else {
      CountsEmpty(n);
    }
  }

  lemma {:induction false} CountsEmpty(n: nat)
    ensures Total(Counts(map[], n)) == 0 && Weighted(Counts(map[], n)) == 0
  {
    if n > 0 {
      CountsEmpty(n - 1);
      CountsPrefix(map[], n);
    }
  }

  lemma CountOfKey(m: map<int, nat>, k: int)
    requires k in m
    ensures CountOf(m, m[k]) >= 1
  {
    CountOfRemove(m, k, m[k]);
  }

  /**
   * For clause counters (every value at least 1): the bars add up to the
   * number of clauses, weighted by their position they add up to the total
   * number of events, and the last bar is not empty.
   */
  lemma HistogramOfCounter(m: map<int, nat>)
    requires Positive(m) && m != map[]
    ensures var h := Histogram(m).value;
      && |h| >= 1
      && Total(h) == |m|
      && Weighted(h) == SumValues(m)
      && h[|h| - 1] > 0
  {
    var top := Max(m.Values);
    assert forall k :: k in m ==> m[k] in m.Values;
    CountsCoverKeys(m, top);
    var k :| k in m && m[k] == top;
    CountOfKey(m, k);
  }
}
