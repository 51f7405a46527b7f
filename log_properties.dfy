/** What one line, and a whole log, do to the parser's state. */
module LogProperties {
  import opened Wrappers
  import opened Text
  import opened Counters
  import opened Records
  import opened Log
  import opened LogInvariant

  /** A line whose first character is none of `i l d q w r s u m` changes nothing. */
  lemma StepIgnoresUntagged(s: LogState, line: string)
    requires !IsTagged(line)
    ensures Step(s, line) == Ok(s)
  {
  }

  /** An `l` or `d` line adds exactly one to its counter, whatever ids it lists. */
  lemma StepCountsLearnedAndDeleted(s: LogState, line: string)
    requires |line| > 0 && (line[0] == 'l' || line[0] == 'd')
    ensures Step(s, line).Ok?
    ensures var q := s.query;
      Step(s, line).value ==
        if line[0] == 'l' then s.(query := q.(learnedClauses := q.learnedClauses + 1))
        else s.(query := q.(deletedClauses := q.deletedClauses + 1))
  {
  }

  /** An `i` line adds one input clause, and one input after the query exactly when `q` was seen. */
  lemma StepCountsInput(s: LogState, line: string)
    requires |line| > 0 && line[0] == 'i'
    ensures Step(s, line).Ok?
    ensures var r, q := Step(s, line).value, s.query;
      && r.query.inputClauses == q.inputClauses + 1
      && r.query.inputAfterQuery == q.inputAfterQuery + (if s.queried then 1 else 0)
      && r == s.(query := q.(inputClauses := r.query.inputClauses, inputAfterQuery := r.query.inputAfterQuery))
  {
  }

  /**
   * An `s` line fails with `MissingResult` exactly when it has fewer than two
   * fields (the IndexError of `split()[1]`); otherwise it records its second
   * field as the result and changes nothing else.
   */
  lemma StepResult(s: LogState, line: string)
    requires |line| > 0 && line[0] == 's'
    ensures Step(s, line).Err? <==> |Split(line)| < 2
    ensures Step(s, line).Err? ==> Step(s, line).error == MissingResult
    ensures |Split(line)| >= 2 ==> Step(s, line) == Ok(s.(query := s.query.(result := Some(Split(line)[1]))))
  {
  }

  /**
   * A `u` or `m` line that parses appends exactly one record (the open one,
   * with its core or model), resets `queried`, advances the index and opens
   * a fresh zeroed record; the clause maps are untouched.
   */
  lemma StepCloses(s: LogState, line: string)
    requires IsClosing(line) && Step(s, line).Ok?
    ensures var r := Step(s, line).value;
      && |r.queries| == |s.queries| + 1
      && r.queries[..|s.queries|] == s.queries
      && r.queries[|s.queries|] == s.query.(unsatCore := r.queries[|s.queries|].unsatCore, model := r.queries[|s.queries|].model)
      && (line[0] == 'u' ==> r.queries[|s.queries|].unsatCore.Some? && r.queries[|s.queries|].model == s.query.model)
      && (line[0] == 'm' ==> r.queries[|s.queries|].model.Some? && r.queries[|s.queries|].unsatCore == s.query.unsatCore)
      && !r.queried && r.index == s.index + 1 && r.query == Fresh(s.index + 1)
      && r.vacated == s.vacated && r.weakens == s.weakens && r.restores == s.restores
  {
    var r := Step(s, line).value;
    assert r.queries[..|s.queries|] == s.queries;
  }

  lemma WeakenAllKeepsRecords(s: LogState, fields: seq<string>)
    requires WeakenAll(s, fields).Ok?
    ensures var r := WeakenAll(s, fields).value;
      r.queries == s.queries && r.index == s.index && r.queried == s.queried
    decreases |fields|
  {
    if fields != [] {
      WeakenAllKeepsRecords(WeakenClause(s, ParseInt(fields[0]).value), fields[1..]);
    }
  }

  lemma RestoreAllKeepsRecords(s: LogState, fields: seq<string>)
    requires RestoreAll(s, fields).Ok?
    ensures var r := RestoreAll(s, fields).value;
      r.queries == s.queries && r.index == s.index && r.queried == s.queried
    decreases |fields|
  {
    if fields != [] {
      RestoreAllKeepsRecords(RestoreClause(s, ParseInt(fields[0]).value).value, fields[1..]);
    }
  }

  /** Any other line that parses leaves the closed records and the index alone. */
  lemma StepKeepsRecords(s: LogState, line: string)
    requires !IsClosing(line) && Step(s, line).Ok?
    ensures Step(s, line).value.queries == s.queries && Step(s, line).value.index == s.index
  {
    if |line| > 0 {
      var tag := line[0];
      if tag == 'w' {
        WeakenAllKeepsRecords(s, Inner(Split(line)));
      } else if tag == 'r' {
        RestoreAllKeepsRecords(s, Inner(Split(line)));
      } else if tag == 'q' {
        assert Step(s, line) == QueryLine(s, line);
      } else if tag == 's' {
        assert Step(s, line) == ResultLine(s, line);
      }
    }
  }

  /**
   * Over a whole run, one record is appended per `u` or `m` line, the
   * records already closed are never changed, and the index counts them.
   */
  lemma {:induction false} RunRecords(s: LogState, lines: seq<string>)
    requires Run(s, lines).Ok?
    ensures var r := Run(s, lines).value;
      && |r.queries| == |s.queries| + ClosingLines(lines)
      && r.queries[..|s.queries|] == s.queries
      && r.index == s.index + ClosingLines(lines)
    decreases |lines|
  {
    if lines != [] {
      var s' := Step(s, lines[0]).value;
      if IsClosing(lines[0]) { StepCloses(s, lines[0]); } else { StepKeepsRecords(s, lines[0]); }
      RunRecords(s', lines[1..]);
      var r := Run(s, lines).value;
      assert r.queries[..|s.queries|] == r.queries[..|s'.queries|][..|s.queries|];
    }
  }

  /**
   * Parsing a log yields one record per `u` or `m` line, in order, and the
   * record at position k carries index k.
   */
  lemma ParseRecords(lines: seq<string>)
    requires Parse(lines).Ok?
    ensures var r := Parse(lines).value;
      && |r.queries| == ClosingLines(lines)
      && forall k :: 0 <= k < |r.queries| ==> r.queries[k].index == k
  {
    RunRecords(Initial(), lines);
    ParseInv(lines);
  }

  /** Once a line fails, the rest of the log is never looked at. */
  lemma {:induction false} RunFatal(s: LogState, lines: seq<string>, more: seq<string>)
    requires Run(s, lines).Err?
    ensures Run(s, lines + more) == Run(s, lines)
    decreases |lines|
  {
    assert (lines + more)[0] == lines[0];
    if Step(s, lines[0]).Ok? {
      assert (lines + more)[1..] == lines[1..] + more;
      RunFatal(Step(s, lines[0]).value, lines[1..], more);
    }
  }

  /** Running two pieces of a log one after the other is running the whole. */
  lemma {:induction false} RunAppend(s: LogState, lines: seq<string>, more: seq<string>)
    requires Run(s, lines).Ok?
    ensures Run(s, lines + more) == Run(Run(s, lines).value, more)
    decreases |lines|
  {
    if lines == [] {
      assert lines + more == more;
    } else {
      assert (lines + more)[0] == lines[0];
      assert (lines + more)[1..] == lines[1..] + more;
      RunAppend(Step(s, lines[0]).value, lines[1..], more);
    }
  }

  /**
   * In every record of a parsed log the inputs counted after the query are
   * among its inputs, every staleness interval is non-negative, and the
   * record holds exactly one answer: the core of its `u` line or the model
   * of its `m` line.
   */
  lemma ParsedRecordsWellFormed(lines: seq<string>)
    requires Parse(lines).Ok?
    ensures var r := Parse(lines).value;
      forall k :: 0 <= k < |r.queries| ==>
        && r.queries[k].inputAfterQuery <= r.queries[k].inputClauses
        && (forall d :: d in r.queries[k].weakened ==> d >= 0)
        && (forall d :: d in r.queries[k].restored ==> d >= 0)
        && (r.queries[k].unsatCore.Some? <==> r.queries[k].model.None?)
  {
    ParseInv(lines);
  }

  /**
   * After a parsed log the weakenings counted per record and staleness
   * (closed records plus the open one) add up to the lifetime weakenings
   * counted per clause, and likewise for restorations; only weakened
   * clauses were restored, and no vacate index lies in the future.
   */
  lemma ParsedTotals(lines: seq<string>)
    requires Parse(lines).Ok?
    ensures var r := Parse(lines).value;
      && Sum(r.queries, Weakened) + SumValues(r.query.weakened) == SumValues(r.weakens)
      && Sum(r.queries, Restored) + SumValues(r.query.restored) == SumValues(r.restores)
      && r.restores.Keys <= r.weakens.Keys
      && forall id :: id in r.vacated ==> r.vacated[id] <= r.index
  {
    ParseInv(lines);
  }
}
