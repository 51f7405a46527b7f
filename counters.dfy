/**
 * The dictionary idioms of the log parser: `d.get(k, default)`, the counter
 * increment `d[k] = d.get(k, 0) + 1`, `sum(d.values())`, and `sorted()` of
 * a set of integers.
 */
module Counters {

  /** `m.get(k, default)`. */
  function Get(m: map<int, nat>, k: int, default: nat): nat {
    if k in m then m[k] else default
  }

  /** `m[k] = m.get(k, 0) + 1`. */
  function Inc(m: map<int, nat>, k: int): map<int, nat> {
    m[k := Get(m, k, 0) + 1]
  }

  /** Every value of a counter is at least 1 (a key exists only once it was counted). */
  ghost predicate Positive(m: map<int, nat>) {
    forall k :: k in m ==> m[k] >= 1
  }

  /** Every key is non-negative. */
  ghost predicate NonNegativeKeys(m: map<int, nat>) {
    forall k :: k in m ==> k >= 0
  }

  lemma Inhabited(s: set<int>) returns (y: int)
    requires s != {}
    ensures y in s
  {
    if forall x :: x !in s {
      assert false;
    }
    y :| y in s;
  }

  lemma {:induction false} HasMin(s: set<int>)
    requires s != {}
    ensures exists m :: m in s && forall x :: x in s ==> m <= x
    decreases |s|
  {
    var y := Inhabited(s);
    var rest := s - {y};
    if rest != {} {
      HasMin(rest);
      var m :| m in rest && forall x :: x in rest ==> m <= x;
      var least := if y < m then y else m;
      forall x | x in s ensures least <= x {
        if x != y { assert x in rest; }
      }
    } else {
      assert s == {y};
    }
  }

  lemma {:induction false} HasMax(s: set<int>)
    requires s != {}
    ensures exists m :: m in s && forall x :: x in s ==> x <= m
    decreases |s|
  {
    var y := Inhabited(s);
    var rest := s - {y};
    if rest != {} {
      HasMax(rest);
      var m :| m in rest && forall x :: x in rest ==> x <= m;
      var greatest := if y > m then y else m;
      forall x | x in s ensures x <= greatest {
        if x != y { assert x in rest; }
      }
    } else {
      assert s == {y};
    }
  }

  /** `min(s)`: the least element of a non-empty set. */
  function Min(s: set<int>): (m: int)
    requires s != {}
    ensures m in s && forall x :: x in s ==> m <= x
  {
    HasMin(s);
    var m :| m in s && forall x :: x in s ==> m <= x;
    m
  }

  /** `max(s)`: the greatest element of a non-empty set. */
  function Max(s: set<int>): (m: int)
    requires s != {}
    ensures m in s && forall x :: x in s ==> x <= m
  {
    HasMax(s);
    var m :| m in s && forall x :: x in s ==> x <= m;
    m
  }

  /** `sum(m.values())`, taking the keys in ascending order. */
  function SumValues(m: map<int, nat>): nat
    decreases |m|
  {
    if m == map[] then 0
    else
      var k := Min(m.Keys);
      m[k] + SumValues(m - {k})
  }

  /** The sum does not depend on the order: any key can be taken out first. */
  lemma {:induction false} SumValuesRemove(m: map<int, nat>, k: int)
    requires k in m
    ensures SumValues(m) == m[k] + SumValues(m - {k})
    decreases |m|
  {
    var j := Min(m.Keys);
    if j != k {
      var mj, mk := m - {j}, m - {k};
      SumValuesRemove(mj, k);
      assert mj - {k} == mk - {j};
      assert j in mk.Keys;
      assert Min(mk.Keys) in m.Keys;
      assert Min(mk.Keys) == j;
    }
  }

  /** A counter increment adds exactly one to the sum of the values. */
  lemma SumValuesInc(m: map<int, nat>, k: int)
    ensures SumValues(Inc(m, k)) == SumValues(m) + 1
  {
    var m' := Inc(m, k);
    SumValuesRemove(m', k);
    assert m' - {k} == m - {k};
    if k in m {
      SumValuesRemove(m, k);
    } else {
      assert m - {k} == m;
    }
  }

  /** `sorted(s)`: the elements of a finite set in strictly ascending order. */
  function Sorted(s: set<int>): (r: seq<int>)
    ensures |r| == |s|
    ensures forall x :: x in r <==> x in s
    ensures forall i, j :: 0 <= i < j < |r| ==> r[i] < r[j]
    decreases |s|
  {
    if s == {} then []
    else
      var m := Min(s);
      var rest := Sorted(s - {m});
      var r := [m] + rest;
      assert forall i, j :: 0 <= i < j < |r| ==> r[i] < r[j] by {
        forall i, j | 0 <= i < j < |r| ensures r[i] < r[j] {
          assert r[j] == rest[j - 1];
          if i > 0 {
            assert r[i] == rest[i - 1];
          } else {
            assert rest[j - 1] in s - {m};
          }
        }
      }
      r
  }
}
