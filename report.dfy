/**
 * The integer figures the report derives from the closed records: the
 * x-axis values, the staleness keys of the stacked bars, the per-record
 * series, the assumption variables and the summary table.
 */
module Report {
  import opened Wrappers
  import opened Counters
  import opened Records
  import opened Log
  import LogInvariant
  import LogProperties

  /** `[query['index'] for query in queries]`. */
  function Indices(qs: seq<Query>): (r: seq<int>)
    ensures |r| == |qs|
  {
    seq(|qs|, k requires 0 <= k < |qs| => qs[k].index)
  }

  /** After a parsed log the x-axis values are 0, 1, ..., one per `u` or `m` line. */
  lemma ParsedIndices(lines: seq<string>)
    requires Parse(lines).Ok?
    ensures var xs := Indices(Parse(lines).value.queries);
      |xs| == ClosingLines(lines) && forall k :: 0 <= k < |xs| ==> xs[k] == k
  {
    LogProperties.ParseRecords(lines);
  }

  /** The union of the key sets of a sequence of maps. */
  function KeysOf(ms: seq<map<int, nat>>): (r: set<int>)
    ensures forall d :: d in r <==> exists k :: 0 <= k < |ms| && d in ms[k]
  {
    if ms == [] then {}
    else
      var init := ms[..|ms| - 1];
      var r := KeysOf(init) + ms[|ms| - 1].Keys;
      assert forall d :: d in r ==> exists k :: 0 <= k < |ms| && d in ms[k] by {
        forall d | d in r ensures exists k :: 0 <= k < |ms| && d in ms[k] {
          if d !in ms[|ms| - 1] {
            var k :| 0 <= k < |init| && d in init[k];
            assert ms[k] == init[k];
          }
        }
      }
      assert forall k, d :: 0 <= k < |ms| - 1 && d in ms[k] ==> d in init[k];
      r
  }

  /** The per-record staleness maps of weakenings. */
  function WeakenedMaps(qs: seq<Query>): (r: seq<map<int, nat>>)
    ensures |r| == |qs|
  {
    seq(|qs|, k requires 0 <= k < |qs| => qs[k].weakened)
  }

  /** The per-record staleness maps of restorations. */
  function RestoredMaps(qs: seq<Query>): (r: seq<map<int, nat>>)
    ensures |r| == |qs|
  {
    seq(|qs|, k requires 0 <= k < |qs| => qs[k].restored)
  }

  /** `sorted(weaken_durations)`: the staleness values of all weakenings, ascending, each once. */
  function WeakenDurations(qs: seq<Query>): seq<int> {
    Sorted(KeysOf(WeakenedMaps(qs)))
  }

  /** `sorted(restore_durations)`. */
  function RestoreDurations(qs: seq<Query>): seq<int> {
    Sorted(KeysOf(RestoredMaps(qs)))
  }

  /**
   * The weaken durations are exactly the staleness values some record
   * counts a weakening for, strictly ascending.
   */
  lemma WeakenDurationsOf(qs: seq<Query>)
    ensures var w := WeakenDurations(qs);
      && (forall d :: d in w <==> exists k :: 0 <= k < |qs| && d in qs[k].weakened)
      && (forall i, j :: 0 <= i < j < |w| ==> w[i] < w[j])
  {
    assert forall k :: 0 <= k < |qs| ==> WeakenedMaps(qs)[k] == qs[k].weakened;
  }

  /** Likewise for the restore durations. */
  lemma RestoreDurationsOf(qs: seq<Query>)
    ensures var r := RestoreDurations(qs);
      && (forall d :: d in r <==> exists k :: 0 <= k < |qs| && d in qs[k].restored)
      && (forall i, j :: 0 <= i < j < |r| ==> r[i] < r[j])
  {
    assert forall k :: 0 <= k < |qs| ==> RestoredMaps(qs)[k] == qs[k].restored;
  }

  lemma ParsedDurations(lines: seq<string>)
    requires Parse(lines).Ok?
    ensures var qs := Parse(lines).value.queries;
      && (forall d :: d in WeakenDurations(qs) ==> d >= 0)
      && (forall d :: d in RestoreDurations(qs) ==> d >= 0)
  {
    var qs := Parse(lines).value.queries;
    WeakenDurationsOf(qs);
    RestoreDurationsOf(qs);
    LogProperties.ParsedRecordsWellFormed(lines);
  }

  /** `any(sum(query[<map>].values()) > 0 for query in queries)`, for the weakened or restored column. */
  predicate HasAny(qs: seq<Query>, c: Column) {
    exists k :: 0 <= k < |qs| && Value(qs[k], c) > 0
  }

  /** A record has a positive column total exactly when the column total over all records is positive. */
  lemma {:induction false} HasAnyIffSum(qs: seq<Query>, c: Column)
    requires c == Weakened || c == Restored
    ensures HasAny(qs, c) <==> Sum(qs, c) > 0
    ensures Sum(qs, c) >= 0
  {
    if qs != [] {
      var init := qs[..|qs| - 1];
      HasAnyIffSum(init, c);
      assert forall k :: 0 <= k < |init| ==> init[k] == qs[k];
      if HasAny(qs, c) && Value(qs[|qs| - 1], c) == 0 {
        var k :| 0 <= k < |qs| && Value(qs[k], c) > 0;
        assert HasAny(init, c);
      }
    }
  }

  lemma SumValuesPositive(m: map<int, nat>)
    requires Positive(m)
    ensures SumValues(m) > 0 <==> m != map[]
  {
    if m != map[] {
      var k := Min(m.Keys);
      SumValuesRemove(m, k);
    }
  }

  /** A well-formed record counts a weakening (restoration) exactly when its staleness map has a key. */
  lemma RecordHasAny(q: Query)
    requires WellFormed(q)
    ensures Value(q, Weakened) > 0 <==> q.weakened != map[]
    ensures Value(q, Restored) > 0 <==> q.restored != map[]
  {
    SumValuesPositive(q.weakened);
    SumValuesPositive(q.restored);
  }

  /** For well-formed records, some weakening was counted exactly when there is a weaken duration to plot. */
  lemma HasWeakenedIffDurations(qs: seq<Query>)
    requires forall k :: 0 <= k < |qs| ==> WellFormed(qs[k])
    ensures HasAny(qs, Weakened) <==> WeakenDurations(qs) != []
  {
    WeakenDurationsOf(qs);
    var w := WeakenDurations(qs);
    if w != [] {
      assert w[0] in w;
      var k :| 0 <= k < |qs| && w[0] in qs[k].weakened;
      RecordHasAny(qs[k]);
    }
    if HasAny(qs, Weakened) {
      var k :| 0 <= k < |qs| && Value(qs[k], Weakened) > 0;
      RecordHasAny(qs[k]);
      var d :| d in qs[k].weakened;
      assert d in w;
    }
  }

  /** Likewise for restorations. */
  lemma HasRestoredIffDurations(qs: seq<Query>)
    requires forall k :: 0 <= k < |qs| ==> WellFormed(qs[k])
    ensures HasAny(qs, Restored) <==> RestoreDurations(qs) != []
  {
    RestoreDurationsOf(qs);
    var r := RestoreDurations(qs);
    if r != [] {
      assert r[0] in r;
      var k :| 0 <= k < |qs| && r[0] in qs[k].restored;
      RecordHasAny(qs[k]);
    }
    if HasAny(qs, Restored) {
      var k :| 0 <= k < |qs| && Value(qs[k], Restored) > 0;
      RecordHasAny(qs[k]);
      var d :| d in qs[k].restored;
      assert d in r;
    }
  }

  /** `[<column of query> for query in queries]`. */
  function Series(qs: seq<Query>, c: Column): (r: seq<int>)
    ensures |r| == |qs|
  {
    seq(|qs|, k requires 0 <= k < |qs| => Value(qs[k], c))
  }

  function Total(xs: seq<int>): int {
    if xs == [] then 0 else Total(xs[..|xs| - 1]) + xs[|xs| - 1]
  }

  /** A plotted series adds up to the column total of the summary table. */
  lemma {:induction false} SeriesTotal(qs: seq<Query>, c: Column)
    ensures Total(Series(qs, c)) == Sum(qs, c)
  {
    if qs != [] {
      var init := qs[..|qs| - 1];
      SeriesTotal(init, c);
      assert Series(qs, c)[..|qs| - 1] == Series(init, c);
    }
  }

  /** The input curve counts the inputs before the query, so for well-formed records it never dips below 0. */
  lemma NetInputsSeries(qs: seq<Query>)
    requires forall k :: 0 <= k < |qs| ==> WellFormed(qs[k])
    ensures forall k :: 0 <= k < |qs| ==> Series(qs, NetInputs)[k] >= 0
    ensures forall k :: 0 <= k < |qs| ==>
      Series(qs, NetInputs)[k] + Series(qs, InputsAfterQuery)[k] == Series(qs, Inputs)[k]
  {
  }

  function Abs(x: int): nat {
    if x < 0 then -x else x
  }

  /** `x` is the absolute value of an assumption of one of the records. */
  ghost predicate AbsAssumed(qs: seq<Query>, x: int) {
    exists k, j :: 0 <= k < |qs| && qs[k].assertedVars.Some? && 0 <= j < |qs[k].assertedVars.value|
      && x == Abs(qs[k].assertedVars.value[j])
  }

  /** The absolute values of the assumptions of records that have them. */
  function AbsVars(qs: seq<Query>): (r: set<int>)
    ensures forall x :: x in r <==> AbsAssumed(qs, x)
  {
    if qs == [] then {}
    else
      var init, q := qs[..|qs| - 1], qs[|qs| - 1];
      var own := if q.assertedVars.Some? then set j | 0 <= j < |q.assertedVars.value| :: Abs(q.assertedVars.value[j]) else {};
      var r := AbsVars(init) + own;
      assert forall x :: x in r ==> AbsAssumed(qs, x) by {
        forall x | x in r ensures AbsAssumed(qs, x) {
          if x !in own {
            var k, j :| 0 <= k < |init| && init[k].assertedVars.Some? && 0 <= j < |init[k].assertedVars.value|
              && x == Abs(init[k].assertedVars.value[j]);
            assert qs[k] == init[k];
          } else {
            var j :| 0 <= j < |q.assertedVars.value| && x == Abs(q.assertedVars.value[j]);
            assert qs[|qs| - 1] == q;
          }
        }
      }
      assert forall k :: 0 <= k < |qs| - 1 ==> qs[k] == init[k];
      r
  }

  /**
   * `sorted({abs(v) for query in queries for v in query['asserted_vars']})`;
   * a record without assumptions has no `asserted_vars` and makes the
   * lookup fail.
   */
  function AssumptionVars(qs: seq<Query>): (r: Option<seq<int>>)
    ensures r.None? <==> exists k :: 0 <= k < |qs| && qs[k].assertedVars.None?
  {
    if exists k :: 0 <= k < |qs| && qs[k].assertedVars.None? then None
    else Some(Sorted(AbsVars(qs)))
  }

  /** The y-axis values: every variable assumed in some record, once, ascending, non-negative. */
  lemma AssumptionVarsSorted(qs: seq<Query>)
    requires AssumptionVars(qs).Some?
    ensures var vs := AssumptionVars(qs).value;
      && (forall i, j :: 0 <= i < j < |vs| ==> vs[i] < vs[j])
      && (forall i :: 0 <= i < |vs| ==> vs[i] >= 0)
      && (forall k, j :: 0 <= k < |qs| && 0 <= j < |qs[k].assertedVars.value| ==> Abs(qs[k].assertedVars.value[j]) in vs)
  {
    var vs := AssumptionVars(qs).value;
    forall i | 0 <= i < |vs| ensures vs[i] >= 0 {
      assert vs[i] in AbsVars(qs);
    }
    forall k, j | 0 <= k < |qs| && 0 <= j < |qs[k].assertedVars.value| ensures Abs(qs[k].assertedVars.value[j]) in vs {
      assert Abs(qs[k].assertedVars.value[j]) in AbsVars(qs);
    }
  }

  /** The integer rows of the statistics table. */
  datatype Summary = Summary(
    totalClauses: int,    // inputs plus learned clauses
    totalDeletions: int,
    totalLearned: int,
    totalWeakens: int,
    totalRestores: int)

  function Summarize(qs: seq<Query>): Summary {
    Summary(Sum(qs, InputsAndLearned), Sum(qs, Deleted), Sum(qs, Learned), Sum(qs, Weakened), Sum(qs, Restored))
  }

  /** The total clauses are the input clauses plus the learned clauses of the records. */
  lemma {:induction false} TotalClausesSplit(qs: seq<Query>)
    ensures Summarize(qs).totalClauses == Sum(qs, Inputs) + Sum(qs, Learned)
  {
    if qs != [] {
      TotalClausesSplit(qs[..|qs| - 1]);
    }
  }

  /**
   * After a parsed log the weakens and restores of the table are the
   * lifetime counts of the clauses, less those of the record still open at
   * the end of the log.
   */
  lemma ParsedSummary(lines: seq<string>)
    requires Parse(lines).Ok?
    ensures var r := Parse(lines).value; var t := Summarize(r.queries);
      && t.totalWeakens + SumValues(r.query.weakened) == SumValues(r.weakens)
      && t.totalRestores + SumValues(r.query.restored) == SumValues(r.restores)
      && t.totalWeakens >= 0 && t.totalRestores >= 0
  {
    LogProperties.ParsedTotals(lines);
    HasAnyIffSum(Parse(lines).value.queries, Weakened);
    HasAnyIffSum(Parse(lines).value.queries, Restored);
  }

  /** A fraction `num / den` with a positive denominator. */
  datatype Ratio = Ratio(num: int, den: nat)

  /**
   * `(weakens - restores) / weakens * 100`, guarded against no weakens by 0,
   * kept as an exact fraction.
   */
  function WeakenedNotRestored(t: Summary): (r: Ratio)
    ensures r.den > 0
  {
    if t.totalWeakens > 0 then Ratio((t.totalWeakens - t.totalRestores) * 100, t.totalWeakens) else Ratio(0, 1)
  }

  /**
   * The percentage is 0 without weakens, between 0 and 100 when restores do
   * not outnumber weakens, and negative when they do (which the re-insertion
   * of restored ids allows).
   */
  lemma WeakenedNotRestoredRange(t: Summary)
    requires t.totalRestores >= 0
    ensures var p := WeakenedNotRestored(t);
      && (t.totalWeakens <= 0 ==> p.num == 0)
      && (t.totalWeakens > 0 && t.totalRestores <= t.totalWeakens ==> 0 <= p.num <= 100 * p.den)
      && (t.totalWeakens > 0 && t.totalRestores > t.totalWeakens ==> p.num < 0)
  {
  }

  /** `sum(1 for query in queries if query['result'] == v)`. */
  function CountResult(qs: seq<Query>, v: string): (n: nat)
    ensures n <= |qs|
    ensures n == |qs| <==> forall k :: 0 <= k < |qs| ==> qs[k].result == Some(v)
  {
    if qs == [] then 0
    else
      var n := CountResult(qs[1..], v) + (if qs[0].result == Some(v) then 1 else 0);
      assert forall k :: 1 <= k < |qs| ==> qs[k] == qs[1..][k - 1];
      n
  }

  /**
   * The satisfied and unsatisfied counts; the lookup of `result` fails on a
   * record that has none.
   */
  function ResultTally(qs: seq<Query>): (r: Option<(nat, nat)>)
    ensures r.None? <==> exists k :: 0 <= k < |qs| && qs[k].result.None?
  {
    if exists k :: 0 <= k < |qs| && qs[k].result.None? then None
    else Some((CountResult(qs, "SATISFIABLE"), CountResult(qs, "UNSATISFIABLE")))
  }

  /** No record is counted both satisfied and unsatisfied. */
  lemma {:induction false} CountDistinct(qs: seq<Query>, a: string, b: string)
    requires a != b
    ensures CountResult(qs, a) + CountResult(qs, b) <= |qs|
  {
    if qs != [] {
      CountDistinct(qs[1..], a, b);
    }
  }

  lemma ResultTallyBound(qs: seq<Query>)
    requires ResultTally(qs).Some?
    ensures ResultTally(qs).value.0 + ResultTally(qs).value.1 <= |qs|
  {
    CountDistinct(qs, "SATISFIABLE", "UNSATISFIABLE");
  }
}
