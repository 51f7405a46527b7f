/**
 * The LIDRUP log parser as a function of its state: one forward pass over
 * the lines, where the first character of a line selects an update of the
 * open record, of the closed records and of the file-wide maps `vacated`,
 * `weakens` and `restores`.
 */
module Log {
  import opened Wrappers
  import opened Text
  import opened Counters
  import opened Records

  /** The ways the script terminates on a malformed log. */
  datatype ParseError =
    | InvalidLiteral(token: string)  // `int()` raised ValueError on this field
    | UnknownRestore(clause: int)    // `vacated.pop` raised KeyError: restored but never weakened
    | MissingResult                  // an `s` line without a second field (IndexError)

  /** Everything the parse loop updates. */
  datatype LogState = LogState(
    queries: seq<Query>,        // the closed records
    vacated: map<int, nat>,     // clause id -> index of its last weakening or restoration
    weakens: map<int, nat>,     // clause id -> lifetime number of weakenings
    restores: map<int, nat>,    // clause id -> lifetime number of restorations
    index: nat,                 // the number of the open record
    queried: bool,              // a `q` line was seen since the last closure
    query: Query)               // the open record

  function Initial(): LogState {
    LogState([], map[], map[], map[], 0, false, Fresh(0))
  }

  /** `fields[1:-1]`: drops the tag and the last field, whatever it is. */
  function Inner(fields: seq<string>): seq<string> {
    if |fields| < 2 then [] else fields[1..|fields| - 1]
  }

  /** `fields[1:]`. */
  function Tail(fields: seq<string>): seq<string> {
    if fields == [] then [] else fields[1..]
  }

  /** `[int(x) for x in fields]`, failing on the first field that is not an integer. */
  function ParseInts(fields: seq<string>): Result<seq<int>, ParseError> {
    if fields == [] then Ok([])
    else match ParseInt(fields[0])
      case None => Err(InvalidLiteral(fields[0]))
      case Some(v) =>
        var rest :- ParseInts(fields[1..]);
        Ok([v] + rest)
  }

  /**
   * The conversion succeeds exactly when every field is an integer, and then
   * converts each field in place; otherwise it reports the first bad field.
   */
  lemma {:induction false} ParseIntsSpec(fields: seq<string>)
    ensures ParseInts(fields).Ok? <==> forall k :: 0 <= k < |fields| ==> ParseInt(fields[k]).Some?
    ensures ParseInts(fields).Ok? ==> var r := ParseInts(fields).value;
      |r| == |fields| && forall k :: 0 <= k < |fields| ==> ParseInt(fields[k]) == Some(r[k])
    ensures ParseInts(fields).Err? ==>
      exists j :: 0 <= j < |fields| && FirstInvalid(fields, j) && ParseInts(fields).error == InvalidLiteral(fields[j])
  {
    if fields != [] {
      var tail := fields[1..];
      assert forall k :: 1 <= k < |fields| ==> fields[k] == tail[k - 1];
      if ParseInt(fields[0]).None? {
        assert FirstInvalid(fields, 0);
      } else {
        ParseIntsSpec(tail);
        var rest := ParseInts(tail);
        if rest.Err? {
          var j :| 0 <= j < |tail| && FirstInvalid(tail, j) && rest.error == InvalidLiteral(tail[j]);
          assert FirstInvalid(fields, j + 1);
        }
      }
    }
  }

  /** `fields[j]` is the first field that `int()` rejects. */
  ghost predicate FirstInvalid(fields: seq<string>, j: int)
    requires 0 <= j < |fields|
  {
    ParseInt(fields[j]).None? && forall k :: 0 <= k < j ==> ParseInt(fields[k]).Some?
  }

  /**
   * The text an `u` line's core is read from: everything before the first
   * '0' character, or, when the line has none, all but the last character.
   */
  function CoreText(line: string): string
    requires |line| > 0
  {
    var z := FindZero(line);
    if z >= 0 then line[..z] else line[..|line| - 1]
  }

  /** Weakening of one clause id on a `w` line. */
  function WeakenClause(s: LogState, id: int): LogState {
    var staleness := s.index - Get(s.vacated, id, s.index);
    s.(weakens := Inc(s.weakens, id),
       query := s.query.(weakened := Inc(s.query.weakened, staleness)),
       vacated := s.vacated[id := s.index])
  }

  /** The loop over the ids of a `w` line. */
  function WeakenAll(s: LogState, fields: seq<string>): Result<LogState, ParseError>
    decreases |fields|
  {
    if fields == [] then Ok(s)
    else match ParseInt(fields[0])
      case None => Err(InvalidLiteral(fields[0]))
      case Some(id) => WeakenAll(WeakenClause(s, id), fields[1..])
  }

  /** Restoration of one clause id on an `r` line; the id must be in `vacated`. */
  function RestoreClause(s: LogState, id: int): Result<LogState, ParseError> {
    if id !in s.vacated then Err(UnknownRestore(id))
    else
      var staleness := s.index - s.vacated[id];
      Ok(s.(query := s.query.(restored := Inc(s.query.restored, staleness)),
            restores := Inc(s.restores, id),
            vacated := s.vacated[id := s.index]))
  }

  /** The loop over the ids of an `r` line. */
  function RestoreAll(s: LogState, fields: seq<string>): Result<LogState, ParseError>
    decreases |fields|
  {
    if fields == [] then Ok(s)
    else match ParseInt(fields[0])
      case None => Err(InvalidLiteral(fields[0]))
      case Some(id) =>
        var s' :- RestoreClause(s, id);
        RestoreAll(s', fields[1..])
  }

  /** Closing the open record: append it, reset `queried`, open the next one. */
  function Close(s: LogState, done: Query): LogState {
    s.(queries := s.queries + [done], queried := false, index := s.index + 1, query := Fresh(s.index + 1))
  }

  /** `u` and `m` lines close a record. */
  predicate IsClosing(line: string) {
    |line| > 0 && (line[0] == 'u' || line[0] == 'm')
  }

  /** Lines whose first character selects an update. */
  predicate IsTagged(line: string) {
    |line| > 0 && line[0] in "ildqwrsum"
  }

  /** An `i` line: one more input clause, and one more after the query once `q` was seen. */
  function InputLine(s: LogState): LogState {
    var q := s.query;
    s.(query := q.(inputClauses := q.inputClauses + 1,
                   inputAfterQuery := if s.queried then q.inputAfterQuery + 1 else q.inputAfterQuery))
  }

  /** A `q` line: the assumptions, signs and order kept. */
  function QueryLine(s: LogState, line: string): Result<LogState, ParseError> {
    var vars :- ParseInts(Inner(Split(line)));
    Ok(s.(queried := true, query := s.query.(assertedVars := Some(vars))))
  }

  /** An `s` line: the second field is the result. */
  function ResultLine(s: LogState, line: string): Result<LogState, ParseError> {
    var fields := Split(line);
    if |fields| < 2 then Err(MissingResult)
    else Ok(s.(query := s.query.(result := Some(fields[1]))))
  }

  /** A `u` line: the core, then closure. */
  function CoreLine(s: LogState, line: string): Result<LogState, ParseError>
    requires |line| > 0
  {
    var core :- ParseInts(Tail(Split(CoreText(line))));
    Ok(Close(s, s.query.(unsatCore := Some(core))))
  }

  /** An `m` line: the model, then closure. */
  function ModelLine(s: LogState, line: string): Result<LogState, ParseError> {
    var model :- ParseInts(Inner(Split(line)));
    Ok(Close(s, s.query.(model := Some(model))))
  }

  /** One iteration of the parse loop: the first character selects the update. */
  function Step(s: LogState, line: string): Result<LogState, ParseError> {
    if |line| == 0 then Ok(s)
    else
      var tag, q := line[0], s.query;
      if tag == 'i' then Ok(InputLine(s))
      else if tag == 'l' then Ok(s.(query := q.(learnedClauses := q.learnedClauses + 1)))
      else if tag == 'd' then Ok(s.(query := q.(deletedClauses := q.deletedClauses + 1)))
      else if tag == 'q' then QueryLine(s, line)
      else if tag == 'w' then WeakenAll(s, Inner(Split(line)))
      else if tag == 'r' then RestoreAll(s, Inner(Split(line)))
      else if tag == 's' then ResultLine(s, line)
      else if tag == 'u' then CoreLine(s, line)
      else if tag == 'm' then ModelLine(s, line)
      else Ok(s)
  }

  /** The whole loop from state `s`; the first error ends the run. */
  function Run(s: LogState, lines: seq<string>): Result<LogState, ParseError>
    decreases |lines|
  {
    if lines == [] then Ok(s)
    else
      var s' :- Step(s, lines[0]);
      Run(s', lines[1..])
  }

  /**
   * Parsing a whole log, given as the lines `for line in f` yields: each
   * keeps its terminator `\n`, except possibly the last.
   */
  function Parse(lines: seq<string>): Result<LogState, ParseError> {
    Run(Initial(), lines)
  }

  /** The number of `u` and `m` lines. */
  function ClosingLines(lines: seq<string>): nat {
    if lines == [] then 0 else (if IsClosing(lines[0]) then 1 else 0) + ClosingLines(lines[1..])
  }

  /** The parser's invariant. */
  ghost predicate Inv(s: LogState) {
    ClosedOk(s) && OpenOk(s) && ClausesOk(s) && TotalsOk(s)
  }

  /**
   * The closed records are numbered 0, 1, ... in order, well formed, and
   * each holds exactly one answer: a core or a model.
   */
  ghost predicate ClosedOk(s: LogState) {
    && s.index == |s.queries|
    && forall k :: 0 <= k < |s.queries| ==>
      && s.queries[k].index == k && WellFormed(s.queries[k])
      && (s.queries[k].unsatCore.Some? <==> s.queries[k].model.None?)
  }

  /**
   * The open record carries the current index and no answer yet; `queried`
   * says whether it has assumptions.
   */
  ghost predicate OpenOk(s: LogState) {
    && s.query.index == s.index
    && s.query.unsatCore.None? && s.query.model.None?
    && WellFormed(s.query)
    && (s.queried <==> s.query.assertedVars.Some?)
    && (!s.queried ==> s.query.inputAfterQuery == 0)
  }

  /**
   * Every vacate index is at most the current index; the ids in `vacated`
   * are exactly the weakened ones, and only weakened ids were restored.
   */
  ghost predicate ClausesOk(s: LogState) {
    && (forall id :: id in s.vacated ==> s.vacated[id] <= s.index)
    && s.vacated.Keys == s.weakens.Keys
    && s.restores.Keys <= s.weakens.Keys
    && Positive(s.weakens) && Positive(s.restores)
  }

  /** The per-record staleness counts, closed and open, add up to the lifetime counts. */
  ghost predicate TotalsOk(s: LogState) {
    && Sum(s.queries, Weakened) + SumValues(s.query.weakened) == SumValues(s.weakens)
    && Sum(s.queries, Restored) + SumValues(s.query.restored) == SumValues(s.restores)
  }
}
