/** Whole logs run through the parse loop, line by line. */
module Scenarios {
  import opened Wrappers
  import opened Text
  import opened Counters
  import opened Records
  import opened Log
  import opened LiteralProperties
  import ClauseProperties
  import LogProperties
  import Report

  lemma RunCons(s: LogState, lines: seq<string>)
    requires lines != [] && Step(s, lines[0]).Ok?
    ensures Run(s, lines) == Run(Step(s, lines[0]).value, lines[1..])
  {
  }

  lemma StepIsInput(s: LogState, line: string)
    requires |line| > 0 && line[0] == 'i'
    ensures Step(s, line) == Ok(InputLine(s))
  {
  }

  /** The terminator of every line the file yields, but possibly the last. */
  lemma Newline()
    ensures Blank("\n")
  {
    assert IsSpace('\n');
  }

  lemma IncEmpty(k: int)
    ensures Inc(map[], k) == map[k := 1]
  {
  }

  lemma IncAt(k: int, n: nat)
    ensures Inc(map[k := n], k) == map[k := n + 1]
  {
  }

  lemma Join2(a: string, b: string)
    ensures Join([a, b]) == a + " " + b
  {
    assert [a, b][1..] == [b];
  }

  lemma Join3(a: string, b: string, c: string)
    ensures Join([a, b, c]) == a + " " + b + " " + c
  {
    assert [a, b, c][1..] == [b, c];
    Join2(b, c);
  }

  lemma Join4(a: string, b: string, c: string, d: string)
    ensures Join([a, b, c, d]) == a + " " + b + " " + c + " " + d
  {
    assert [a, b, c, d][1..] == [b, c, d];
    Join3(b, c, d);
  }

  /** The line `<tag> 7 0`: its inner field is the id 7. */
  lemma SevenLine(tag: char, line: string)
    requires !IsSpace(tag) && line == [tag] + " 7 0\n"
    ensures |line| > 0 && line[0] == tag && Inner(Split(line)) == ["7"] && ParseInt("7") == Some(7)
  {
    SevenText(tag, line);
    SevenFields(tag, line);
    SevenValue();
  }

  lemma SevenText(tag: char, line: string)
    requires line == [tag] + " 7 0\n"
    ensures line == Join([[tag], "7", "0"]) + "\n"
  {
    Join3([tag], "7", "0");
    assert [tag] + " " + "7" + " " + "0" + "\n" == [tag] + " 7 0\n";
  }

  lemma SevenFields(tag: char, line: string)
    requires !IsSpace(tag) && line == Join([[tag], "7", "0"]) + "\n"
    ensures Inner(Split(line)) == ["7"]
  {
    assert IsToken("7") && IsToken("0");
    SplitJoin([[tag], "7", "0"]);
    Newline();
    SplitBlank(Join([[tag], "7", "0"]), "\n");
  }

  lemma SevenValue()
    ensures ParseInt("7") == Some(7)
  {
    assert IsDigitRun("7");
  }

  lemma StepWeakenField(s: LogState, line: string, f: string, id: int)
    requires |line| > 0 && line[0] == 'w' && Inner(Split(line)) == [f] && ParseInt(f) == Some(id)
    ensures Step(s, line) == Ok(WeakenClause(s, id))
  {
    ClauseProperties.StepIsWeakenAll(s, line);
    assert [f][1..] == [];
  }

  lemma StepRestoreField(s: LogState, line: string, f: string, id: int)
    requires |line| > 0 && line[0] == 'r' && Inner(Split(line)) == [f] && ParseInt(f) == Some(id)
    ensures Step(s, line) == RestoreClause(s, id)
  {
    ClauseProperties.StepIsRestoreAll(s, line);
    assert [f][1..] == [];
    if RestoreClause(s, id).Ok? {
      assert RestoreAll(RestoreClause(s, id).value, []) == RestoreClause(s, id);
    }
  }

  lemma WeakenSeven(s: LogState, line: string)
    requires line == "w 7 0\n"
    ensures Step(s, line) == Ok(WeakenClause(s, 7))
  {
    SevenLine('w', line);
    StepWeakenField(s, line, "7", 7);
  }

  lemma RestoreSeven(s: LogState, line: string)
    requires line == "r 7 0\n"
    ensures Step(s, line) == RestoreClause(s, 7)
  {
    SevenLine('r', line);
    StepRestoreField(s, line, "7", 7);
  }

  lemma EmptyModelLine(line: string)
    requires line == "m 0\n"
    ensures line == LiteralLine('m', [], "0") + "\n"
  {
    assert [['m']] + Fields([]) + ["0"] == ["m", "0"];
    Join2("m", "0");
  }

  lemma ModelStep(s: LogState, line: string, xs: seq<int>)
    requires line == LiteralLine('m', xs, "0") + "\n"
    ensures Step(s, line) == Ok(Close(s, s.query.(model := Some(xs))))
  {
    assert IsToken("0");
    Newline();
    ModelLineRoundTrip(s, xs, "0", "\n");
  }

  lemma QueryStep(s: LogState, line: string, xs: seq<int>)
    requires line == LiteralLine('q', xs, "0") + "\n"
    ensures Step(s, line) == Ok(s.(queried := true, query := s.query.(assertedVars := Some(xs))))
  {
    assert IsToken("0");
    Newline();
    QueryLineRoundTrip(s, xs, "0", "\n");
  }

  /** `m 0`: an empty model, and the record closes. */
  lemma EmptyModel(s: LogState, line: string)
    requires line == "m 0\n"
    ensures Step(s, line) == Ok(Close(s, s.query.(model := Some([]))))
  {
    EmptyModelLine(line);
    ModelStep(s, line, []);
  }

  lemma Lines2(x: int, y: int)
    ensures Fields([x, y]) == [IntToString(x), IntToString(y)]
  {
  }

  lemma LiteralExample(tag: char, line: string)
    requires line == [tag] + " 3 -4 0\n"
    ensures line == LiteralLine(tag, [3, -4], "0") + "\n"
  {
    Lines2(3, -4);
    assert IntToString(3) == "3";
    assert IntToString(-4) == "-4";
    assert [[tag]] + Fields([3, -4]) + ["0"] == [[tag], "3", "-4", "0"];
    Join4([tag], "3", "-4", "0");
  }

  lemma QueryExample(s: LogState, line: string)
    requires line == "q 3 -4 0\n"
    ensures Step(s, line) == Ok(s.(queried := true, query := s.query.(assertedVars := Some([3, -4]))))
  {
    LiteralExample('q', line);
    QueryStep(s, line, [3, -4]);
  }

  lemma ModelExample(s: LogState, line: string)
    requires line == "m 3 -4 0\n"
    ensures Step(s, line) == Ok(Close(s, s.query.(model := Some([3, -4]))))
  {
    LiteralExample('m', line);
    ModelStep(s, line, [3, -4]);
  }

  lemma ResultFields(line: string)
    requires line == "s SATISFIABLE\n"
    ensures |line| > 0 && line[0] == 's' && Split(line) == ["s", "SATISFIABLE"]
  {
    ResultText(line);
    ResultSplit(line);
  }

  lemma ResultText(line: string)
    requires line == "s SATISFIABLE\n"
    ensures line == Join(["s", "SATISFIABLE"]) + "\n"
  {
    Join2("s", "SATISFIABLE");
  }

  lemma ResultSplit(line: string)
    requires line == Join(["s", "SATISFIABLE"]) + "\n"
    ensures Split(line) == ["s", "SATISFIABLE"]
  {
    ResultTokens();
    SplitJoin(["s", "SATISFIABLE"]);
    Newline();
    SplitBlank(Join(["s", "SATISFIABLE"]), "\n");
  }

  lemma ResultTokens()
    ensures IsToken("s") && IsToken("SATISFIABLE")
  {
  }

  lemma ResultExample(s: LogState, line: string)
    requires line == "s SATISFIABLE\n"
    ensures Step(s, line) == Ok(s.(query := s.query.(result := Some("SATISFIABLE"))))
  {
    ResultFields(line);
    LogProperties.StepResult(s, line);
  }

  /**
   * `i 1 2 0`, `q 3 -4 0`, `i 5 0`, `s SATISFIABLE`, `m 3 -4 0`: one record
   * with two input clauses, one of them after the query, the assumptions
   * [3, -4], the result SATISFIABLE and the model [3, -4].
   */
  lemma SatisfiableExample(lines: seq<string>)
    requires lines == ["i 1 2 0\n", "q 3 -4 0\n", "i 5 0\n", "s SATISFIABLE\n", "m 3 -4 0\n"]
    ensures var r := Parse(lines);
      && r.Ok? && |r.value.queries| == 1
      && r.value.queries[0].inputClauses == 2
      && r.value.queries[0].inputAfterQuery == 1
      && r.value.queries[0].assertedVars == Some([3, -4])
      && r.value.queries[0].result == Some("SATISFIABLE")
      && r.value.queries[0].model == Some([3, -4])
      && r.value.queries[0].unsatCore == None
  {
    var s0 := Initial();
    StepIsInput(s0, lines[0]);
    var s1 := InputLine(s0);
    QueryExample(s1, lines[1]);
    var s2 := s1.(queried := true, query := s1.query.(assertedVars := Some([3, -4])));
    StepIsInput(s2, lines[2]);
    var s3 := InputLine(s2);
    ResultExample(s3, lines[3]);
    var s4 := s3.(query := s3.query.(result := Some("SATISFIABLE")));
    ModelExample(s4, lines[4]);
    var s5 := Close(s4, s4.query.(model := Some([3, -4])));
    assert Run(s5, lines[5..]) == Ok(s5);
    RunCons(s4, lines[4..]);
    RunCons(s3, lines[3..]);
    RunCons(s2, lines[2..]);
    RunCons(s1, lines[1..]);
    RunCons(s0, lines);
  }

  /**
   * `w 7 0`, three `m 0`, `w 7 0`: the second weaken comes three records
   * after the first, so the open fourth record holds one weaken of
   * staleness 3, the first record one of staleness 0, and clause 7 counts
   * two weakens.
   */
  lemma StalenessExample(lines: seq<string>)
    requires lines == ["w 7 0\n", "m 0\n", "m 0\n", "m 0\n", "w 7 0\n"]
    ensures var r := Parse(lines);
      && r.Ok? && |r.value.queries| == 3
      && r.value.queries[0].weakened == map[0 := 1]
      && r.value.query.weakened == map[3 := 1]
      && r.value.weakens == map[7 := 2]
      && r.value.vacated == map[7 := 3]
  {
    StalenessRun(lines);
  }

  /** The records the three `m 0` lines close. */
  function StalenessRecords(): seq<Query> {
    [Fresh(0).(weakened := map[0 := 1], model := Some([])), Fresh(1).(model := Some([])), Fresh(2).(model := Some([]))]
  }

  /** The states of the staleness example after each line. */
  function StalenessStates(): (r: seq<LogState>)
    ensures |r| == 6
  {
    var rs := StalenessRecords();
    [Initial(),
     LogState([], map[7 := 0], map[7 := 1], map[], 0, false, Fresh(0).(weakened := map[0 := 1])),
     LogState(rs[..1], map[7 := 0], map[7 := 1], map[], 1, false, Fresh(1)),
     LogState(rs[..2], map[7 := 0], map[7 := 1], map[], 2, false, Fresh(2)),
     LogState(rs, map[7 := 0], map[7 := 1], map[], 3, false, Fresh(3)),
     LogState(rs, map[7 := 3], map[7 := 2], map[], 3, false, Fresh(3).(weakened := map[3 := 1]))]
  }

  lemma StalenessRun(lines: seq<string>)
    requires lines == ["w 7 0\n", "m 0\n", "m 0\n", "m 0\n", "w 7 0\n"]
    ensures Parse(lines) == Ok(StalenessStates()[5])
  {
    var ss := StalenessStates();
    assert Step(ss[0], lines[0]) == Ok(ss[1]) by {
      WeakenSeven(ss[0], lines[0]);
      StalenessFirst();
    }
    assert forall k :: 1 <= k < 4 ==> Step(ss[k], lines[k]) == Ok(ss[k + 1]) by {
      forall k | 1 <= k < 4 ensures Step(ss[k], lines[k]) == Ok(ss[k + 1]) {
        EmptyModel(ss[k], lines[k]);
        StalenessModel(k);
      }
    }
    assert Step(ss[4], lines[4]) == Ok(ss[5]) by {
      WeakenSeven(ss[4], lines[4]);
      StalenessLast();
    }
    assert Run(ss[5], lines[5..]) == Ok(ss[5]);
    RunCons(ss[4], lines[4..]);
    RunCons(ss[3], lines[3..]);
    RunCons(ss[2], lines[2..]);
    RunCons(ss[1], lines[1..]);
    RunCons(ss[0], lines);
  }

  lemma StalenessFirst()
    ensures WeakenClause(StalenessStates()[0], 7) == StalenessStates()[1]
  {
    IncEmpty(7);
    IncEmpty(0);
  }

  lemma StalenessModel(k: nat)
    requires 1 <= k < 4
    ensures var ss := StalenessStates(); Close(ss[k], ss[k].query.(model := Some([]))) == ss[k + 1]
  {
    var ss, rs := StalenessStates(), StalenessRecords();
    var done := ss[k].query.(model := Some([]));
    assert done == rs[k - 1];
    if k == 1 {
      assert [] + [rs[0]] == rs[..1];
    } else if k == 2 {
      assert rs[..1] + [rs[1]] == rs[..2];
    } else {
      assert rs[..2] + [rs[2]] == rs;
    }
  }

  lemma StalenessLast()
    ensures WeakenClause(StalenessStates()[4], 7) == StalenessStates()[5]
  {
    var s4 := StalenessStates()[4];
    assert Get(s4.vacated, 7, s4.index) == 0;
    IncAt(7, 1);
    IncEmpty(3);
    assert s4.vacated[7 := 3] == map[7 := 3];
  }

  /**
   * `w 7 0`, `r 7 0`, `r 7 0`: the restored id goes back into `vacated`, so
   * it can be restored twice after a single weaken.
   */
  lemma DoubleRestoreExample(lines: seq<string>)
    requires lines == ["w 7 0\n", "r 7 0\n", "r 7 0\n"]
    ensures var r := Parse(lines);
      && r.Ok?
      && r.value.weakens == map[7 := 1]
      && r.value.restores == map[7 := 2]
      && r.value.query.restored == map[0 := 2]
  {
    DoubleRestoreRun(lines);
    DoubleRestoreFacts();
  }

  /** The states of the double-restore example after each line. */
  function DoubleRestoreStates(): (r: seq<LogState>)
    ensures |r| == 4
  {
    var s0 := Initial();
    var s1 := WeakenClause(s0, 7);
    var s2 := s1.(query := s1.query.(restored := Inc(s1.query.restored, 0)), restores := Inc(s1.restores, 7));
    var s3 := s2.(query := s2.query.(restored := Inc(s2.query.restored, 0)), restores := Inc(s2.restores, 7));
    [s0, s1, s2, s3]
  }

  lemma DoubleRestoreSteps()
    ensures var ss := DoubleRestoreStates();
      RestoreClause(ss[1], 7) == Ok(ss[2]) && RestoreClause(ss[2], 7) == Ok(ss[3])
  {
    var ss := DoubleRestoreStates();
    assert ss[1].vacated == map[7 := 0] && ss[1].index == 0;
    assert ss[2].vacated == map[7 := 0] && ss[2].index == 0;
    assert ss[1].vacated[7 := 0] == ss[1].vacated;
  }

  lemma DoubleRestoreRun(lines: seq<string>)
    requires lines == ["w 7 0\n", "r 7 0\n", "r 7 0\n"]
    ensures Parse(lines) == Ok(DoubleRestoreStates()[3])
  {
    var ss := DoubleRestoreStates();
    DoubleRestoreSteps();
    WeakenSeven(ss[0], lines[0]);
    RestoreSeven(ss[1], lines[1]);
    RestoreSeven(ss[2], lines[2]);
    assert Run(ss[3], lines[3..]) == Ok(ss[3]);
    RunCons(ss[2], lines[2..]);
    RunCons(ss[1], lines[1..]);
    RunCons(ss[0], lines);
  }

  lemma DoubleRestoreFacts()
    ensures var s := DoubleRestoreStates()[3];
      && s.queries == []
      && s.query.weakened == map[0 := 1]
      && s.weakens == map[7 := 1]
      && s.restores == map[7 := 2]
      && s.query.restored == map[0 := 2]
  {
    DoubleRestoreFirst();
    var s2 := DoubleRestoreStates()[2];
    assert DoubleRestoreStates()[3] == s2.(query := s2.query.(restored := Inc(s2.query.restored, 0)), restores := Inc(s2.restores, 7));
    IncAt(7, 1);
    IncAt(0, 1);
  }

  lemma DoubleRestoreFirst()
    ensures var s := DoubleRestoreStates()[2];
      && s.queries == []
      && s.query.weakened == map[0 := 1]
      && s.weakens == map[7 := 1]
      && s.restores == map[7 := 1]
      && s.query.restored == map[0 := 1]
  {
    IncEmpty(7);
    IncEmpty(0);
  }

  /** `r 7 0` with nothing weakened: the run stops with the unknown id. */
  lemma RestoreBeforeWeakenExample(lines: seq<string>)
    requires lines == ["r 7 0\n"]
    ensures Parse(lines) == Err(UnknownRestore(7))
  {
    RestoreSeven(Initial(), lines[0]);
  }

  lemma SumValuesSingle(k: int, n: nat)
    ensures SumValues(map[k := n]) == n
  {
    var m := map[k := n];
    assert k in m.Keys;
    assert Min(m.Keys) == k;
    assert m - {k} == map[];
  }

  /** The summary of a single closed record. */
  lemma SummarizeOne(q: Query)
    ensures Report.Summarize([q]).totalWeakens == SumValues(q.weakened)
    ensures Report.Summarize([q]).totalRestores == SumValues(q.restored)
  {
    assert [q][..0] == [];
    assert Sum([q], Weakened) == Value(q, Weakened);
    assert Sum([q], Restored) == Value(q, Restored);
  }

  /**
   * The double-restore log closed by `m 0`: one weaken and two restores in
   * the table, so the weakened-not-restored percentage is -100.
   */
  lemma NegativePercentageExample(lines: seq<string>)
    requires lines == ["w 7 0\n", "r 7 0\n", "r 7 0\n", "m 0\n"]
    ensures Parse(lines).Ok?
    ensures var t := Report.Summarize(Parse(lines).value.queries);
      && t.totalWeakens == 1 && t.totalRestores == 2
      && Report.WeakenedNotRestored(t) == Report.Ratio(-100, 1)
  {
    NegativePercentageRun(lines);
    DoubleRestoreRecordFacts();
    OneWeakenTwoRestores(DoubleRestoreRecord());
  }

  /** The record the `m 0` line closes. */
  function DoubleRestoreRecord(): Query {
    DoubleRestoreStates()[3].query.(model := Some([]))
  }

  lemma DoubleRestoreRecordFacts()
    ensures DoubleRestoreRecord().weakened == map[0 := 1] && DoubleRestoreRecord().restored == map[0 := 2]
  {
    DoubleRestoreFacts();
  }

  lemma NegativePercentageRun(lines: seq<string>)
    requires lines == ["w 7 0\n", "r 7 0\n", "r 7 0\n", "m 0\n"]
    ensures Parse(lines).Ok? && Parse(lines).value.queries == [DoubleRestoreRecord()]
  {
    var head := lines[..3];
    assert lines == head + [lines[3]];
    DoubleRestoreRun(head);
    DoubleRestoreFacts();
    var s3 := DoubleRestoreStates()[3];
    LogProperties.RunAppend(Initial(), head, [lines[3]]);
    EmptyModel(s3, lines[3]);
    RunCons(s3, [lines[3]]);
  }

  /** A lone record with one weaken and two restores, both at staleness 0. */
  lemma OneWeakenTwoRestores(q: Query)
    requires q.weakened == map[0 := 1] && q.restored == map[0 := 2]
    ensures var t := Report.Summarize([q]);
      && t.totalWeakens == 1 && t.totalRestores == 2
      && Report.WeakenedNotRestored(t) == Report.Ratio(-100, 1)
  {
    SummarizeOne(q);
    SumValuesSingle(0, 1);
    SumValuesSingle(0, 2);
  }
}
