/** The parser's invariant holds initially and every successful line keeps it. */
module LogInvariant {
  import opened Wrappers
  import opened Text
  import opened Counters
  import opened Records
  import opened Log

  lemma InitialInv()
    ensures Inv(Initial())
  {
  }

  lemma IncPositive(m: map<int, nat>, k: int)
    requires Positive(m)
    ensures Positive(Inc(m, k)) && Inc(m, k).Keys == m.Keys + {k}
  {
  }

  lemma WeakenClauseInv(s: LogState, id: int)
    requires Inv(s)
    ensures Inv(WeakenClause(s, id))
  {
    var s' := WeakenClause(s, id);
    var staleness := s.index - Get(s.vacated, id, s.index);
    assert s'.queries == s.queries && s'.index == s.index;
    assert ClosedOk(s');
    IncPositive(s.query.weakened, staleness);
    assert OpenOk(s');
    IncPositive(s.weakens, id);
    assert ClausesOk(s');
    SumValuesInc(s.weakens, id);
    SumValuesInc(s.query.weakened, staleness);
    assert TotalsOk(s');
  }

  lemma {:induction false} WeakenAllInv(s: LogState, fields: seq<string>)
    requires Inv(s) && WeakenAll(s, fields).Ok?
    ensures Inv(WeakenAll(s, fields).value)
    decreases |fields|
  {
    if fields != [] {
      var id := ParseInt(fields[0]).value;
      WeakenClauseInv(s, id);
      WeakenAllInv(WeakenClause(s, id), fields[1..]);
    }
  }

  lemma RestoreClauseInv(s: LogState, id: int)
    requires Inv(s) && RestoreClause(s, id).Ok?
    ensures Inv(RestoreClause(s, id).value)
  {
    var s' := RestoreClause(s, id).value;
    var staleness := s.index - s.vacated[id];
    assert s' == s.(query := s.query.(restored := Inc(s.query.restored, staleness)),
                    restores := Inc(s.restores, id),
                    vacated := s.vacated[id := s.index]);
    assert ClosedOk(s') by {
      assert s'.queries == s.queries && s'.index == s.index;
    }
    assert OpenOk(s') by {
      IncPositive(s.query.restored, staleness);
    }
    assert ClausesOk(s') by {
      IncPositive(s.restores, id);
    }
    assert TotalsOk(s') by {
      SumValuesInc(s.restores, id);
      SumValuesInc(s.query.restored, staleness);
    }
  }

  lemma {:induction false} RestoreAllInv(s: LogState, fields: seq<string>)
    requires Inv(s) && RestoreAll(s, fields).Ok?
    ensures Inv(RestoreAll(s, fields).value)
    decreases |fields|
  {
    if fields != [] {
      var id := ParseInt(fields[0]).value;
      RestoreClauseInv(s, id);
      RestoreAllInv(RestoreClause(s, id).value, fields[1..]);
    }
  }

  lemma CloseInv(s: LogState, done: Query)
    requires Inv(s) && WellFormed(done) && done.index == s.index
    requires done.weakened == s.query.weakened && done.restored == s.query.restored
    requires done.unsatCore.Some? <==> done.model.None?
    ensures Inv(Close(s, done))
  {
    var s' := Close(s, done);
    SumAppend(s.queries, done, Weakened);
    SumAppend(s.queries, done, Restored);
    assert forall k :: 0 <= k < |s.queries| ==> s'.queries[k] == s.queries[k];
  }

  lemma CoreLineInv(s: LogState, line: string)
    requires Inv(s) && |line| > 0 && CoreLine(s, line).Ok?
    ensures Inv(CoreLine(s, line).value)
  {
    var core := ParseInts(Tail(Split(CoreText(line)))).value;
    CloseInv(s, s.query.(unsatCore := Some(core)));
  }

  lemma ModelLineInv(s: LogState, line: string)
    requires Inv(s) && ModelLine(s, line).Ok?
    ensures Inv(ModelLine(s, line).value)
  {
    var model := ParseInts(Inner(Split(line))).value;
    CloseInv(s, s.query.(model := Some(model)));
  }

  lemma InputLineInv(s: LogState)
    requires Inv(s)
    ensures Inv(InputLine(s))
  {
    var s' := InputLine(s);
    assert s'.queries == s.queries && s'.index == s.index;
    assert ClosedOk(s');
    assert OpenOk(s');
  }

  lemma QueryLineInv(s: LogState, line: string)
    requires Inv(s) && QueryLine(s, line).Ok?
    ensures Inv(QueryLine(s, line).value)
  {
    var s' := QueryLine(s, line).value;
    assert s'.queries == s.queries && s'.index == s.index;
    assert ClosedOk(s');
    assert OpenOk(s');
  }

  lemma ResultLineInv(s: LogState, line: string)
    requires Inv(s) && ResultLine(s, line).Ok?
    ensures Inv(ResultLine(s, line).value)
  {
    var s' := ResultLine(s, line).value;
    assert s'.queries == s.queries && s'.index == s.index;
    assert ClosedOk(s');
    assert OpenOk(s');
  }

  lemma CounterLineInv(s: LogState, q: Query)
    requires Inv(s)
    requires q == s.query.(learnedClauses := q.learnedClauses, deletedClauses := q.deletedClauses)
    ensures Inv(s.(query := q))
  {
    var s' := s.(query := q);
    assert ClosedOk(s');
    assert OpenOk(s');
  }

  /** Every line the parser accepts keeps the invariant. */
  lemma StepInv(s: LogState, line: string)
    requires Inv(s) && Step(s, line).Ok?
    ensures Inv(Step(s, line).value)
  {
    if |line| > 0 {
      var tag, q := line[0], s.query;
      if tag == 'i' {
        InputLineInv(s);
      } else if tag == 'l' {
        CounterLineInv(s, q.(learnedClauses := q.learnedClauses + 1));
      } else if tag == 'd' {
        CounterLineInv(s, q.(deletedClauses := q.deletedClauses + 1));
      } else if tag == 'q' {
        QueryLineInv(s, line);
      } else if tag == 'w' {
        WeakenAllInv(s, Inner(Split(line)));
      } else if tag == 'r' {
        RestoreAllInv(s, Inner(Split(line)));
      } else if tag == 's' {
        ResultLineInv(s, line);
      } else if tag == 'u' {
        CoreLineInv(s, line);
      } else if tag == 'm' {
        ModelLineInv(s, line);
      }
    }
  }

  /** A run the parser accepts keeps the invariant. */
  lemma {:induction false} RunInv(s: LogState, lines: seq<string>)
    requires Inv(s) && Run(s, lines).Ok?
    ensures Inv(Run(s, lines).value)
    decreases |lines|
  {
    if lines != [] {
      StepInv(s, lines[0]);
      RunInv(Step(s, lines[0]).value, lines[1..]);
    }
  }

  lemma RunFromInitialInv(lines: seq<string>)
    requires Run(Initial(), lines).Ok?
    ensures Inv(Run(Initial(), lines).value)
  {
    InitialInv();
    RunInv(Initial(), lines);
  }

  /** The state after any log the parser accepts satisfies the invariant. */
  lemma ParseInv(lines: seq<string>)
    requires Parse(lines).Ok?
    ensures Inv(Parse(lines).value)
  {
    RunFromInitialInv(lines);
  }
}
