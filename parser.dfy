/**
 * The parse loop as the script runs it: the accumulators are fields that
 * each line updates in place, and the ids of `w` and `r` lines are
 * processed one at a time. Every method is proved against the functional
 * definition in `Log`.
 */
module Parser {
  import opened Wrappers
  import opened Text
  import opened Counters
  import opened Records
  import opened Log
  import LogInvariant

  class LogParser {
    var queries: seq<Query>
    var vacated: map<int, nat>
    var weakens: map<int, nat>
    var restores: map<int, nat>
    var index: nat
    var queried: bool
    var query: Query

    /** The parser's fields as a value. */
    function State(): LogState
      reads this
    {
      LogState(queries, vacated, weakens, restores, index, queried, query)
    }

    ghost predicate Valid()
      reads this
    {
      Inv(State())
    }

    /** No record closed, nothing weakened, record 0 open and zeroed (`Valid` by `LogInvariant.InitialInv`). */
    constructor ()
      ensures State() == Initial()
    {
      queries := [];
      vacated := map[];
      weakens := map[];
      restores := map[];
      index := 0;
      queried := false;
      query := Fresh(0);
    }

    /**
     * One line. On success the new state is `Step` of the old one and the
     * invariant is kept; on failure the error is the one `Step` reports.
     * The fields after a failure are not specified: the script stops there.
     */
    method ProcessLine(line: string) returns (err: Option<ParseError>)
      modifies this
      ensures Step(old(State()), line).Ok? ==> err == None && State() == Step(old(State()), line).value
      ensures Step(old(State()), line).Err? ==> err == Some(Step(old(State()), line).error)
      ensures old(Valid()) && err == None ==> Valid()
    {
      ghost var s := State();
      err := Dispatch(line);
      if err == None && Inv(s) {
        LogInvariant.StepInv(s, line);
      }
    }

    /** The `if`/`elif` ladder on the first character of the line. */
    method Dispatch(line: string) returns (err: Option<ParseError>)
      modifies this
      ensures Step(old(State()), line).Ok? ==> err == None && State() == Step(old(State()), line).value
      ensures Step(old(State()), line).Err? ==> err == Some(Step(old(State()), line).error)
    {
      err := None;
      if |line| == 0 {
        return;
      }
      var tag := line[0];
      if tag == 'i' {
        query := query.(inputClauses := query.inputClauses + 1,
                        inputAfterQuery := if queried then query.inputAfterQuery + 1 else query.inputAfterQuery);
      } else if tag == 'l' {
        query := query.(learnedClauses := query.learnedClauses + 1);
      } else if tag == 'd' {
        query := query.(deletedClauses := query.deletedClauses + 1);
      } else if tag == 'q' {
        var vars := ParseInts(Inner(Split(line)));
        if vars.Err? {
          return Some(vars.error);
        }
        queried := true;
        query := query.(assertedVars := Some(vars.value));
      } else if tag == 'w' {
        err := Weaken(Inner(Split(line)));
      } else if tag == 'r' {
        err := Restore(Inner(Split(line)));
      } else if tag == 's' {
        var fields := Split(line);
        if |fields| < 2 {
          return Some(MissingResult);
        }
        query := query.(result := Some(fields[1]));
      } else if tag == 'u' {
        var core := ParseInts(Tail(Split(CoreText(line))));
        if core.Err? {
          return Some(core.error);
        }
        CloseRecord(query.(unsatCore := Some(core.value)));
      } else if tag == 'm' {
        var model := ParseInts(Inner(Split(line)));
        if model.Err? {
          return Some(model.error);
        }
        CloseRecord(query.(model := Some(model.value)));
      }
    }

    /** The ids of a `w` line, one at a time. */
    method Weaken(clauses: seq<string>) returns (err: Option<ParseError>)
      modifies this
      ensures WeakenAll(old(State()), clauses).Ok? ==> err == None && State() == WeakenAll(old(State()), clauses).value
      ensures WeakenAll(old(State()), clauses).Err? ==> err == Some(WeakenAll(old(State()), clauses).error)
    {
      var j := 0;
      while j < |clauses|
        invariant 0 <= j <= |clauses|
        invariant WeakenAll(State(), clauses[j..]) == WeakenAll(old(State()), clauses)
      {
        assert clauses[j..][1..] == clauses[j + 1..];
        var id := ParseInt(clauses[j]);
        if id.None? {
          return Some(InvalidLiteral(clauses[j]));
        }
        WeakenId(id.value);
        j := j + 1;
      }
      return None;
    }

    /** One weakened id: its count, the record's staleness count, its vacate index. */
    method WeakenId(x: int)
      modifies this
      ensures State() == WeakenClause(old(State()), x)
    {
      weakens := Inc(weakens, x);
      var diff := index - Get(vacated, x, index);
      query := query.(weakened := Inc(query.weakened, diff));
      vacated := vacated[x := index];
    }

    /** The ids of an `r` line, one at a time; `pop` fails on an id not in `vacated`. */
    method Restore(clauses: seq<string>) returns (err: Option<ParseError>)
      modifies this
      ensures RestoreAll(old(State()), clauses).Ok? ==> err == None && State() == RestoreAll(old(State()), clauses).value
      ensures RestoreAll(old(State()), clauses).Err? ==> err == Some(RestoreAll(old(State()), clauses).error)
    {
      var j := 0;
      while j < |clauses|
        invariant 0 <= j <= |clauses|
        invariant RestoreAll(State(), clauses[j..]) == RestoreAll(old(State()), clauses)
      {
        assert clauses[j..][1..] == clauses[j + 1..];
        var id := ParseInt(clauses[j]);
        if id.None? {
          return Some(InvalidLiteral(clauses[j]));
        }
        var x := id.value;
        if x !in vacated {
          return Some(UnknownRestore(x));
        }
        RestoreId(x);
        j := j + 1;
      }
      return None;
    }

    /** One restored id: `pop` its vacate index, count it, put it back at the current index. */
    method RestoreId(x: int)
      requires x in vacated
      modifies this
      ensures State() == RestoreClause(old(State()), x).value
    {
      var last := vacated[x];
      vacated := vacated - {x};
      var diff := index - last;
      query := query.(restored := Inc(query.restored, diff));
      restores := Inc(restores, x);
      vacated := vacated[x := index];
      assert vacated == old(vacated)[x := index];
    }

    /** Append the finished record, clear `queried`, open the next record. */
    method CloseRecord(done: Query)
      modifies this
      ensures State() == Close(old(State()), done)
    {
      queries := queries + [done];
      queried := false;
      index := index + 1;
      query := Fresh(index);
    }
  }

  /** The whole loop: the result is `Parse`, so every property of `Parse` holds of it. */
  method ParseLog(lines: seq<string>) returns (r: Result<LogState, ParseError>)
    ensures r == Parse(lines)
    ensures r.Ok? ==> Inv(r.value)
  {
    var p := new LogParser();
    var i := 0;
    while i < |lines|
      invariant 0 <= i <= |lines|
      invariant Run(p.State(), lines[i..]) == Parse(lines)
    {
      ghost var s := p.State();
      RunHead(s, lines[i..]);
      assert lines[i..][0] == lines[i];
      assert lines[i..][1..] == lines[i + 1..];
      var err := p.ProcessLine(lines[i]);
      if err.Some? {
        return Err(err.value);
      }
      i := i + 1;
    }
    r := Ok(p.State());
    LogInvariant.ParseInv(lines);
  }

  lemma RunHead(s: LogState, lines: seq<string>)
    requires lines != []
    ensures Step(s, lines[0]).Err? ==> Run(s, lines) == Err(Step(s, lines[0]).error)
    ensures Step(s, lines[0]).Ok? ==> Run(s, lines) == Run(Step(s, lines[0]).value, lines[1..])
  {
  }
}
