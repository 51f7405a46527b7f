/**
 * One query record of a LIDRUP log (the dictionary `query` of the
 * visualiser) and the per-record integer columns that the report sums.
 */
module Records {
  import opened Wrappers
  import opened Counters

  /**
   * A query record. `weakened` and `restored` map a staleness interval to
   * the number of clauses weakened or restored at that interval. The keys
   * `asserted_vars`, `result`, `unsat_core` and `model` exist only once the
   * matching line was seen, hence the options; `input_after_query` is read
   * everywhere with a default of 0, so it is a plain counter here.
   */
  datatype Query = Query(
    index: nat,
    weakened: map<int, nat>,
    restored: map<int, nat>,
    learnedClauses: nat,
    inputClauses: nat,
    deletedClauses: nat,
    inputAfterQuery: nat,
    assertedVars: Option<seq<int>>,
    result: Option<string>,
    unsatCore: Option<seq<int>>,
    model: Option<seq<int>>)

  /** The zeroed record opened for query number `index`. */
  function Fresh(index: nat): Query {
    Query(index, map[], map[], 0, 0, 0, 0, None, None, None, None)
  }

  /** What every record the parser builds satisfies. */
  ghost predicate WellFormed(q: Query) {
    && NonNegativeKeys(q.weakened) && NonNegativeKeys(q.restored)
    && Positive(q.weakened) && Positive(q.restored)
    && q.inputAfterQuery <= q.inputClauses
  }

  /** The integer columns derived from a record. */
  datatype Column =
    | Inputs            // input_clauses
    | Learned           // learned_clauses
    | Deleted           // deleted_clauses
    | InputsAfterQuery  // input_after_query
    | NetInputs         // input_clauses - input_after_query
    | InputsAndLearned  // input_clauses + learned_clauses
    | Weakened          // sum(weakened.values())
    | Restored          // sum(restored.values())

  function Value(q: Query, c: Column): int {
    match c
    case Inputs => q.inputClauses
    case Learned => q.learnedClauses
    case Deleted => q.deletedClauses
    case InputsAfterQuery => q.inputAfterQuery
    case NetInputs => q.inputClauses - q.inputAfterQuery
    case InputsAndLearned => q.inputClauses + q.learnedClauses
    case Weakened => SumValues(q.weakened)
    case Restored => SumValues(q.restored)
  }

  /** `sum(<column> for query in queries)`. */
  function Sum(qs: seq<Query>, c: Column): int {
    if qs == [] then 0 else Sum(qs[..|qs| - 1], c) + Value(qs[|qs| - 1], c)
  }

  lemma SumAppend(qs: seq<Query>, q: Query, c: Column)
    ensures Sum(qs + [q], c) == Sum(qs, c) + Value(q, c)
  {
    assert (qs + [q])[..|qs|] == qs;
  }

  /** A column total over two runs of records is the sum of their totals. */
  lemma {:induction false} SumConcat(a: seq<Query>, b: seq<Query>, c: Column)
    ensures Sum(a + b, c) == Sum(a, c) + Sum(b, c)
    decreases |b|
  {
    if b == [] {
      assert a + b == a;
    } else {
      var init, last := b[..|b| - 1], b[|b| - 1];
      assert a + b == (a + init) + [last];
      SumAppend(a + init, last, c);
      SumConcat(a, init, c);
    }
  }
}
