/** The x-axis tick positions shared by the per-record plots. */
module Ticks {
  import opened Wrappers

  /** The number of labels the layout asks for. */
  const NumLabels: nat := 10

  /** `max(n // (num_labels - 1), 1)`: the distance between two labels. */
  function TickStep(n: nat): nat {
    if n / (NumLabels - 1) > 1 then n / (NumLabels - 1) else 1
  }

  /**
   * What the label positions for `n` records are: every `step`-th index
   * from 0, with the last one moved to `n - 1`.
   */
  ghost predicate Labels(n: nat, ls: seq<int>) {
    var step := TickStep(n);
    && |ls| >= 1
    && ls[0] == 0
    && ls[|ls| - 1] == n - 1
    && (forall k :: 0 <= k < |ls| - 1 ==> ls[k] == k * step)
    && (|ls| - 1) * step < n <= |ls| * step
    && (forall i, j :: 0 <= i < j < |ls| ==> ls[i] < ls[j])
    && (forall k :: 0 <= k < |ls| ==> 0 <= ls[k] < n)
  }

  /**
   * `range(0, n, step)`, then the last entry replaced by `n - 1` when that
   * index is missing; with no records the replacement has no entry to
   * overwrite and fails.
   */
  method LabelIndices(n: nat) returns (r: Option<seq<int>>)
    ensures r.None? <==> n == 0
    ensures r.Some? ==> Labels(n, r.value)
  {
    var step := TickStep(n);
    var ls: seq<int> := [];
    var i := 0;
    while i < n
      invariant i == |ls| * step
      invariant forall k :: 0 <= k < |ls| ==> ls[k] == k * step
      invariant |ls| > 0 ==> (|ls| - 1) * step < n
      decreases n - i
    {
      MulSucc(|ls|, step);
      ls := ls + [i];
      i := i + step;
    }
    ghost var range := ls;
    if n - 1 !in ls {
      if |ls| == 0 {
        return None;
      }
      ls := ls[|ls| - 1 := n - 1];
    }
    RangeLabels(n, range, ls);
    return Some(ls);
  }

  lemma MulSucc(c: nat, step: nat)
    ensures (c + 1) * step == c * step + step
  {
  }

  /** `range(0, n, step)` with its last entry set to `n - 1` meets `Labels`. */
  lemma RangeLabels(n: nat, range: seq<int>, ls: seq<int>)
    requires n >= 1 && |range| >= 1
    requires forall k :: 0 <= k < |range| ==> range[k] == k * TickStep(n)
    requires (|range| - 1) * TickStep(n) < n <= |range| * TickStep(n)
    requires ls == if n - 1 in range then range else range[|range| - 1 := n - 1]
    ensures Labels(n, ls)
  {
    var step := TickStep(n);
    if n - 1 in range {
      var k :| 0 <= k < |range| && range[k] == n - 1;
      if k < |range| - 1 {
        MulStrict(k, |range| - 1, step);
      }
    }
    FirstLabel(n, |ls|);
    LabelsIncrease(n, ls);
  }

  /** With more than one label the step is below `n`, so the first label stays 0. */
  lemma FirstLabel(n: nat, c: nat)
    requires n >= 1 && c >= 1 && (c - 1) * TickStep(n) < n <= c * TickStep(n)
    ensures c == 1 ==> n == 1
  {
  }

  lemma LabelsIncrease(n: nat, ls: seq<int>)
    requires n >= 1 && |ls| >= 1
    requires (forall k :: 0 <= k < |ls| - 1 ==> ls[k] == k * TickStep(n)) && ls[|ls| - 1] == n - 1
    requires (|ls| - 1) * TickStep(n) < n
    ensures forall i, j :: 0 <= i < j < |ls| ==> ls[i] < ls[j]
    ensures forall k :: 0 <= k < |ls| ==> 0 <= ls[k] < n
  {
    var step := TickStep(n);
    forall i, j | 0 <= i < j < |ls| ensures ls[i] < ls[j] {
      MulStrict(i, j, step);
      if j == |ls| - 1 { MulMono(j, |ls| - 1, step); }
    }
    forall k | 0 <= k < |ls| ensures 0 <= ls[k] < n {
      if k < |ls| - 1 { MulMono(k, |ls| - 1, step); }
    }
  }

  lemma MulStrict(i: nat, j: nat, step: nat)
    requires i < j && step >= 1
    ensures i * step < j * step
  {
  }

  lemma MulMono(i: nat, j: nat, step: nat)
    requires i <= j
    ensures i * step <= j * step
  {
  }

  /** However many records there are, there are at most 17 labels. */
  lemma AtMostSeventeenLabels(n: nat, ls: seq<int>)
    requires Labels(n, ls)
    ensures |ls| <= 17
  {
    var step, c := TickStep(n), |ls|;
    if n < NumLabels - 1 {
      assert step == 1;
    } else {
      assert n <= 9 * step + 8;
      if c - 1 >= 17 {
        MulMono(17, c - 1, step);
      }
    }
  }

  /** Seventeen records get seventeen labels, one for each record. */
  lemma SeventeenRecordsSeventeenLabels(ls: seq<int>)
    requires Labels(17, ls)
    ensures |ls| == 17
  {
    assert TickStep(17) == 1;
  }

  /** 23 records: every second index, 0, 2, ..., 22; the last record is labelled. */
  lemma TwentyThreeRecords(ls: seq<int>)
    requires Labels(23, ls)
    ensures |ls| == 12 && ls[11] == 22
    ensures forall k :: 0 <= k < 12 ==> ls[k] == 2 * k
  {
    assert TickStep(23) == 2;
  }
}
