# LIDRUP log parser, modelled in Dafny

`ldrup-visualiser.py` reads a LIDRUP proof log, in which an incremental SAT
solver records its input, learned and deleted clauses, its queries under
assumptions, the weakening and restoration of clauses, and the answers
(`s` result lines, `u` unsat cores and `m` models). It turns the log into
one record per query and plots them. This project models the part of the
script that is not plotting:

- **the parse loop** (lines 22-72). It is modelled twice.
  - As a function, `Log.Step` and `Log.Run`: one line, then a fold over all lines.
  - As the in-place class `Parser.LogParser`. Its fields are the script's variables (`queries`, `vacated`, `weakens`, `restores`, `index`, `queried`, `query`). Its methods update them, with inner loops over the ids of `w` and `r` lines. Every method is proved to compute what the function computes.
  - Python's `str.split()`, `int()`, `str.find('0')` and the slices `[1:-1]` and `[1:]` are written out on strings (module `Text`, `Log.Inner`, `Log.Tail`).
  - The three ways the script stops on a malformed log are `ParseError` values, not preconditions: a non-integer field, a `KeyError` when a clause is restored without being in `vacated`, and an `s` line with no result.
- **the parser's invariant** (`Log.Inv`), proved for every prefix of every log:
  - records are numbered 0, 1, ... in order;
  - every vacate index is at most the current index, so every staleness is non-negative;
  - `input_after_query <= input_clauses`;
  - every closed record holds exactly one answer, a core or a model, and the open record holds none;
  - the lifetime maps `weakens` and `restores` add up to the per-record staleness maps.
- **the x-axis tick subsampling** (lines 90-94), a method building the label list and overwriting its last entry.
- **the integer aggregates** of the report:
  - the record indices, the sorted staleness keys and the `has_weakened`/`has_restored` flags (75-86);
  - the lifetime-multiplicity histograms (165-167, 176-178);
  - the per-record series (188-193);
  - the sorted absolute assumption variables (276-279);
  - the summary totals, the weakened-not-restored percentage as an exact fraction, and the SAT/UNSAT tallies (311-318).

Modules, in dependency order:
- `Wrappers`, `Text`, `Counters` (Python dict idioms), `Records` (the per-query record);
- `Log` (the functional parser);
- `LogInvariant`, `LogProperties`, `ClauseProperties`, `LiteralProperties`;
- `Parser` (the class);
- `Terminators` (lines read with and without their `\n`);
- `Ticks`, `Histogram`, `Report`;
- `Scenarios` (concrete logs worked end to end).

The log is the sequence of lines `for line in open(...)` yields (line 29), so each line keeps its terminator `\n`, except possibly the last. The model reads lines exactly so. Trailing whitespace adds no field to `split()`, so the terminator changes nothing, except on a `u` line with no '0' (`Terminators.StepIgnoresTerminator`, `Terminators.RunIgnoresTerminators`).

Behaviour of the script that the model keeps, though a reader might expect otherwise:
- Line 51 pops the id from `vacated` and line 54 puts it back at the current index. So a clause stays restorable and can be restored more often than it was weakened (`Scenarios.DoubleRestoreExample`), and the weakened-not-restored percentage of line 316 can be negative (`Scenarios.NegativePercentageExample`, `Report.WeakenedNotRestoredRange`).
- `num_labels = 10` (line 90) asks for ten x-axis labels, but the integer division on line 91 allows up to 17 (`Ticks.AtMostSeventeenLabels`, `Ticks.SeventeenRecordsSeventeenLabels`).
- A `u` line's core is read from the text before the first `'0'` *character* (line 60). So `u 10 0` gives the core `[1]`, not `[10]` (`LiteralProperties.CoreQuirkExample`), and every literal in a parsed core ends in a non-zero digit (`LiteralProperties.CoreHasNoMultipleOfTen`).
- On a `u` line with no '0' at all, line 61 takes `line[:-1]`. That drops the terminator when there is one, and otherwise the line's last character: `u 1 2` read with `\n` gives the core `[1, 2]`, and as an unterminated last line it gives `[1]` (`Terminators.CoreTerminatorExample`).
- `[1:-1]` drops the last field whatever it is; nothing checks that it is the `0` terminator (`LiteralProperties.QueryLineRoundTrip` holds for any last field).

## Model

| member | source | states |
|---|---|---|
| Text.Split | ldrup-visualiser.py:40 | `str.split()`: its fields are described by `Text.SplitFields`, `Text.SplitJoin` and `LiteralProperties.SplitBlank` |
| Text.ParseInt | ldrup-visualiser.py:40 | `int()` of one field, `None` where it raises ValueError; `Text.ParseIntToString` reads back every decimal integer |
| Text.SplitFields | ldrup-visualiser.py:40 | every field `split()` returns is non-empty, free of whitespace, and made of characters of the line |
| Text.SplitJoin | ldrup-visualiser.py:40 | splitting whitespace-free tokens joined by single spaces gives the tokens back, in order |
| Text.FindZero | ldrup-visualiser.py:60 | `find('0')` is -1 exactly when the line has no '0'; otherwise it is the position of the first '0' |
| Text.ParseIntToString | ldrup-visualiser.py:40 | `int()` reads back every integer written in decimal, sign included |
| Counters.Inc | ldrup-visualiser.py:44-46 | `d[k] = d.get(k, 0) + 1`; its effect on the value sum is `Counters.SumValuesInc` |
| Counters.SumValues | ldrup-visualiser.py:85-86 | `sum(d.values())`, independent of key order by `Counters.SumValuesRemove` |
| Counters.SumValuesInc | ldrup-visualiser.py:44-46 | the `d[k] = d.get(k, 0) + 1` update adds exactly one to the sum of the values |
| Counters.SumValuesRemove | ldrup-visualiser.py:85-86 | the sum of a dict's values does not depend on the order the keys are visited |
| Counters.Sorted | ldrup-visualiser.py:104-105 | `sorted()` of a set, as on lines 104-105 and 279: the same elements, as many as the set has, strictly ascending |
| Records.Sum | ldrup-visualiser.py:311-315 | `sum(<column> for query in queries)`; it splits over any two runs of records by `Records.SumConcat` |
| Records.SumConcat | ldrup-visualiser.py:311-315 | a column total over two runs of records is the sum of their totals |
| Log.ParseInts | ldrup-visualiser.py:40 | `[int(x) for x in ...]`, stopping at the first bad field; specified by `Log.ParseIntsSpec` |
| Log.ParseIntsSpec | ldrup-visualiser.py:40 | `[int(x) for x in ...]` succeeds exactly when every field is an integer; then it converts each field in place; otherwise it reports the first bad field |
| Log.CoreText | ldrup-visualiser.py:60-61 | the text a `u` line's core is read from; it holds no '0' (`LiteralProperties.CoreHasNoMultipleOfTen`) and ignores the terminator when the line has a '0' (`Terminators.StepIgnoresTerminator`) |
| Log.WeakenClause | ldrup-visualiser.py:44-47 | one id of a `w` line; its exact effect is `ClauseProperties.StepWeakenOne` (staleness 0 for a first weakening by `ClauseProperties.StepWeakenFirst`), and it keeps the invariant by `LogInvariant.WeakenClauseInv` |
| Log.WeakenAll | ldrup-visualiser.py:42-47 | the loop over a `w` line's ids; each id is counted at its own staleness (`ClauseProperties.WeakenAllStaleness`), and `WeakenAllFrame`, `WeakenAllCounts` and `WeakenAllVacated` give the rest of the new state |
| Log.RestoreClause | ldrup-visualiser.py:51-54 | one id of an `r` line, failing when it is not in `vacated`; both outcomes are `ClauseProperties.StepRestoreOne`, and it keeps the invariant by `LogInvariant.RestoreClauseInv` |
| Log.RestoreAll | ldrup-visualiser.py:49-54 | the loop over an `r` line's ids; its outcome is `ClauseProperties.RestoreAllOutcome`, each id is counted at its own staleness (`ClauseProperties.RestoreAllStaleness`), and `RestoreAllCounts` and `RestoreAllVacated` give the rest of the new state |
| Log.Close | ldrup-visualiser.py:62-65 | append the record, reset `queried`, advance `index`, open a zeroed record; `LogProperties.StepCloses` and `LogInvariant.CloseInv` |
| Log.Initial | ldrup-visualiser.py:22-28 | the state before the first line: no records, empty maps, index 0, not queried, a zeroed record 0; it meets the invariant by `LogInvariant.InitialInv` |
| Records.Fresh | ldrup-visualiser.py:28 | the zeroed record `{'index': index, 'weakened': {}, 'restored': {}, ...}` opened at the start and after each closure (lines 65, 72); `LogProperties.StepCloses` opens it at the next index |
| Log.InputLine | ldrup-visualiser.py:30-33 | the `i` branch; its effect is `LogProperties.StepCountsInput` |
| Log.QueryLine | ldrup-visualiser.py:38-40 | the `q` branch; `LiteralProperties.StepQuery` and `LiteralProperties.QueryLineRoundTrip` |
| Log.ResultLine | ldrup-visualiser.py:55-57 | the `s` branch; both outcomes are `LogProperties.StepResult` |
| Log.CoreLine | ldrup-visualiser.py:58-65 | the `u` branch; `LiteralProperties.CoreLineRoundTrip`, `LiteralProperties.CoreQuirkExample` and `LogProperties.StepCloses` |
| Log.ModelLine | ldrup-visualiser.py:66-72 | the `m` branch; `LiteralProperties.ModelLineRoundTrip` and `LogProperties.StepCloses` |
| Log.Step | ldrup-visualiser.py:30-72 | one iteration of the loop; each tag's effect is a `LogProperties`, `ClauseProperties` or `LiteralProperties` lemma, and `LogInvariant.StepInv` keeps the invariant |
| Log.Run | ldrup-visualiser.py:29-72 | the loop from a given state; `LogProperties.RunRecords`, `RunFatal`, `RunAppend` and `LogInvariant.RunInv` |
| Log.Parse | ldrup-visualiser.py:22-72 | the loop from the initial state; `LogProperties.ParseRecords`, `ParsedTotals` and `LogInvariant.ParseInv` |
| LogProperties.StepIgnoresUntagged | ldrup-visualiser.py:29-72 | a line that is empty or starts with none of `i l d q w r s u m` changes nothing |
| LogProperties.StepCountsLearnedAndDeleted | ldrup-visualiser.py:34-37 | an `l` or `d` line adds exactly one to its counter, whatever it lists, and changes nothing else |
| LogProperties.StepCountsInput | ldrup-visualiser.py:30-33 | an `i` line adds one input clause, and one input after the query once `q` was seen, and changes nothing else |
| LogProperties.StepResult | ldrup-visualiser.py:55-57 | an `s` line stops with `MissingResult` exactly when it has fewer than two fields (the IndexError of `split()[1]`); otherwise it records its second field as the result and changes nothing else |
| LogProperties.StepCloses | ldrup-visualiser.py:58-72 | a `u` or `m` line appends exactly one record: the open one with its core set and its model left alone (`u`), or its model set and its core left alone (`m`) |
| LogProperties.WeakenAllKeepsRecords | ldrup-visualiser.py:41-47 | a `w` line leaves the closed records, the index and `queried` alone |
| LogProperties.RestoreAllKeepsRecords | ldrup-visualiser.py:48-54 | an `r` line leaves the closed records, the index and `queried` alone |
| LogProperties.StepKeepsRecords | ldrup-visualiser.py:30-57 | only `u` and `m` lines touch the closed records and the index |
| LogProperties.RunRecords | ldrup-visualiser.py:29-72 | a run appends one record per `u`/`m` line, keeps the earlier ones, and advances the index by the same number |
| LogProperties.ParseRecords | ldrup-visualiser.py:28-72 | after a parsed log, `len(queries)` is the number of `u`/`m` lines and `queries[k]['index'] == k` |
| LogProperties.RunFatal | ldrup-visualiser.py:29-72 | once a line fails, the lines after it do not matter: the run ends with that error |
| LogProperties.RunAppend | ldrup-visualiser.py:29 | parsing two pieces of a log in turn is parsing the whole log |
| LogProperties.ParsedRecordsWellFormed | ldrup-visualiser.py:30-33 | in every parsed record `input_after_query <= input_clauses`, every staleness key is non-negative, and exactly one of `unsat_core` and `model` is set |
| LogProperties.ParsedTotals | ldrup-visualiser.py:44-54 | after a parsed log the per-record weakened (restored) counts, closed plus open, add up to the lifetime counts; only weakened ids were restored; every vacate index is at most the current index |
| LogInvariant.InitialInv | ldrup-visualiser.py:22-28 | the initial state satisfies the parser's invariant |
| LogInvariant.WeakenClauseInv | ldrup-visualiser.py:43-47 | weakening one id keeps the invariant |
| LogInvariant.WeakenAllInv | ldrup-visualiser.py:41-47 | a successful `w` line keeps the invariant |
| LogInvariant.RestoreClauseInv | ldrup-visualiser.py:50-54 | restoring one id that is in `vacated` keeps the invariant |
| LogInvariant.RestoreAllInv | ldrup-visualiser.py:48-54 | a successful `r` line keeps the invariant |
| LogInvariant.CloseInv | ldrup-visualiser.py:62-65 | closing a well-formed open record keeps the invariant |
| LogInvariant.InputLineInv | ldrup-visualiser.py:30-33 | an `i` line keeps the invariant |
| LogInvariant.QueryLineInv | ldrup-visualiser.py:38-40 | a successful `q` line keeps the invariant |
| LogInvariant.ResultLineInv | ldrup-visualiser.py:55-57 | a successful `s` line keeps the invariant |
| LogInvariant.CoreLineInv | ldrup-visualiser.py:58-65 | a successful `u` line keeps the invariant |
| LogInvariant.ModelLineInv | ldrup-visualiser.py:66-72 | a successful `m` line keeps the invariant |
| LogInvariant.StepInv | ldrup-visualiser.py:29-72 | every successful line keeps the invariant |
| LogInvariant.RunInv | ldrup-visualiser.py:29-72 | a successful run from a state that meets the invariant ends in one that meets it |
| LogInvariant.ParseInv | ldrup-visualiser.py:22-72 | every successfully parsed log ends in a state that meets the invariant |
| ClauseProperties.WeakenAllFrame | ldrup-visualiser.py:42-47 | a `w` loop over integer ids succeeds and changes only `weakens`, `vacated` and the open record's `weakened` |
| ClauseProperties.WeakenAllSum | ldrup-visualiser.py:45-46 | each listed id adds one to the total of the open record's weakened counts |
| ClauseProperties.Stalenesses | ldrup-visualiser.py:45-46 | a closed form, independent of the loop, for the staleness each id of a line is counted at: the k-th id counts at 0 when it already occurs among the first k ids or was never vacated, and otherwise at `index - vacated[id]`; one staleness per id |
| ClauseProperties.WeakenAllStaleness | ldrup-visualiser.py:42-47 | for each listed id in turn, `weakened[index - vacated.get(id, index)]` goes up by one: every key's count grows by the number of ids counted at that staleness |
| ClauseProperties.WeakenAllCounts | ldrup-visualiser.py:44 | each occurrence of an id adds one to its lifetime weaken count; unlisted ids keep theirs |
| ClauseProperties.WeakenAllVacated | ldrup-visualiser.py:47 | after a `w` line every listed id is vacated at the current index; the others keep their entry |
| ClauseProperties.StepWeaken | ldrup-visualiser.py:41-47 | a `w` line with integer ids succeeds, counts each id at its own staleness, and does all of the above at once |
| ClauseProperties.StepWeakenOne | ldrup-visualiser.py:42-47 | a `w` line naming one id: `weakens[id] += 1`, staleness `index - vacated.get(id, index)` counted once, `vacated[id] = index`, nothing else |
| ClauseProperties.StepWeakenFirst | ldrup-visualiser.py:45 | the first weakening of an id has staleness 0 |
| ClauseProperties.RestoreAllOutcome | ldrup-visualiser.py:49-51 | an `r` loop over integer ids succeeds exactly when every id is in `vacated` before the line; otherwise it reports the first id that is not; on success it changes only `restores`, `vacated` and the open record's `restored`, and the keys of `vacated` stay the same |
| ClauseProperties.RestoreAllSum | ldrup-visualiser.py:52-53 | each restored id adds one to the total of the open record's restored counts |
| ClauseProperties.RestoreAllStaleness | ldrup-visualiser.py:49-54 | for each listed id in turn, `restored[index - vacated.pop(id)]` goes up by one: every key's count grows by the number of ids counted at that staleness |
| ClauseProperties.RestoreAllCounts | ldrup-visualiser.py:53 | each occurrence of an id adds one to its lifetime restore count; unlisted ids keep theirs |
| ClauseProperties.RestoreAllVacated | ldrup-visualiser.py:51-54 | after an `r` line every listed id is back in `vacated` at the current index |
| ClauseProperties.StepRestore | ldrup-visualiser.py:48-54 | an `r` line with integer ids succeeds exactly when each id is in `vacated`, and otherwise stops with the first id that is not; on success each id is counted at its own staleness, and the lifetime counts and vacate indices change as above and nothing else does |
| ClauseProperties.StepRestoreOne | ldrup-visualiser.py:48-54 | an `r` line naming one id stops with `UnknownRestore` when it is not in `vacated`; otherwise the exact new state: lifetime count +1, one clause at staleness `index - vacated[id]`, vacated again at `index` |
| LiteralProperties.SplitTrailingSpace | ldrup-visualiser.py:40 | a whitespace character at the end of a line adds no field to `split()` |
| LiteralProperties.SplitBlank | ldrup-visualiser.py:29 | trailing whitespace, the terminator `\n` in particular, adds no field to `split()` |
| LiteralProperties.ParseIntsFields | ldrup-visualiser.py:40 | the decimal fields of a list of literals convert back to that list |
| LiteralProperties.QueryLineRoundTrip | ldrup-visualiser.py:38-40 | a `q` line as read, terminator included, listing literals and any last field, sets `queried` and records exactly those literals, signs and order kept |
| LiteralProperties.ModelLineRoundTrip | ldrup-visualiser.py:66-72 | an `m` line as read, terminator included, listing literals and any last field, closes the record with exactly those literals as its model |
| LiteralProperties.StepQuery | ldrup-visualiser.py:38-40 | a `q` line succeeds exactly when its inner fields are all integers |
| LiteralProperties.CoreLineRoundTrip | ldrup-visualiser.py:58-65 | a `u` line as read, terminator included, listing zero-free literals and ending in `0`, closes the record with exactly those literals as its core |
| LiteralProperties.CoreHasNoMultipleOfTen | ldrup-visualiser.py:60-61 | every literal of a parsed core ends in a non-zero digit: the text is cut at the first '0' |
| LiteralProperties.CoreQuirkExample | ldrup-visualiser.py:60-61 | `u 10 0` closes the record with the core `[1]` |
| Terminators.StepIgnoresTerminator | ldrup-visualiser.py:29-72 | a line followed by whitespace has the same effect as the line, unless it is a `u` line with no '0' |
| Terminators.RunIgnoresTerminators | ldrup-visualiser.py:29 | when every `u` line has a '0', parsing the lines with their `\n` terminators is parsing them without |
| Terminators.CoreTerminatorExample | ldrup-visualiser.py:60-61 | `u 1 2` read with its `\n` gives the core [1, 2]; as a last line without one, `line[:-1]` cuts the 2 and gives [1] |
| Parser.LogParser.constructor | ldrup-visualiser.py:22-28 | the fields start as the initial state: no records, empty maps, record 0 open and zeroed |
| Parser.LogParser.ProcessLine | ldrup-visualiser.py:30-72 | one line: the fields become what `Log.Step` computes, or the error it reports is returned; the invariant is kept |
| Parser.LogParser.Dispatch | ldrup-visualiser.py:30-72 | the tag ladder updating the fields in place computes `Log.Step` |
| Parser.LogParser.Weaken | ldrup-visualiser.py:42-47 | the in-place loop over a `w` line's ids computes `Log.WeakenAll` (state or first error) |
| Parser.LogParser.WeakenId | ldrup-visualiser.py:44-47 | the three in-place updates for one id compute `Log.WeakenClause` |
| Parser.LogParser.Restore | ldrup-visualiser.py:49-54 | the in-place loop over an `r` line's ids computes `Log.RestoreAll`, stopping at the first unknown id |
| Parser.LogParser.RestoreId | ldrup-visualiser.py:51-54 | pop, count and re-insert for one vacated id compute `Log.RestoreClause` |
| Parser.LogParser.CloseRecord | ldrup-visualiser.py:62-65 | append the record, reset `queried`, advance `index`, open a zeroed record |
| Parser.ParseLog | ldrup-visualiser.py:22-72 | the loop over all lines returns `Log.Parse` of them, a state meeting the invariant on success |
| Ticks.TickStep | ldrup-visualiser.py:91 | `max(n // (num_labels - 1), 1)`; the labels it spaces are described by `Ticks.LabelIndices` and `Ticks.AtMostSeventeenLabels` |
| Ticks.LabelIndices | ldrup-visualiser.py:90-94 | for n >= 1 records: labels start at 0, end at n-1, increase strictly, lie in [0, n-1], and all but the last are multiples of the step; for n == 0 the overwrite fails |
| Ticks.AtMostSeventeenLabels | ldrup-visualiser.py:90-94 | there are never more than 17 labels |
| Ticks.SeventeenRecordsSeventeenLabels | ldrup-visualiser.py:90-94 | 17 records get 17 labels, so the bound is reached |
| Ticks.TwentyThreeRecords | ldrup-visualiser.py:90-94 | 23 records get labels 0, 2, ..., 20, 22 |
| Histogram.CountOf | ldrup-visualiser.py:165 | `Counter(values)[v]` is at most the number of clauses |
| Histogram.Counts | ldrup-visualiser.py:167 | the histogram list has one entry per multiplicity 1..n, each the count of clauses with it |
| Histogram.Histogram | ldrup-visualiser.py:165-167 | there is a histogram exactly when some clause was counted; `max` of an empty counter fails |
| Histogram.CountsCoverKeys | ldrup-visualiser.py:165-167 | when every count lies in 1..n, the bars add up to the number of clauses and, weighted by multiplicity, to the total count |
| Histogram.HistogramOfCounter | ldrup-visualiser.py:165-167 | for a lifetime map of positive counts: the bars add up to the clauses, the weighted bars to all weakens (restores), and the last bar is non-empty |
| Report.Indices | ldrup-visualiser.py:75 | one x value per record |
| Report.ParsedIndices | ldrup-visualiser.py:75 | after a parsed log the x values are 0, 1, ..., one per `u`/`m` line |
| Report.KeysOf | ldrup-visualiser.py:78-82 | the union of the records' key sets holds exactly the keys of some record |
| Report.WeakenDurations | ldrup-visualiser.py:77-81 | the staleness keys of every record's `weakened`, as sorted on line 104; described by `Report.WeakenDurationsOf` |
| Report.RestoreDurations | ldrup-visualiser.py:77-81 | the staleness keys of every record's `restored`, as sorted on line 105; described by `Report.RestoreDurationsOf` |
| Report.WeakenDurationsOf | ldrup-visualiser.py:78-82 | the weaken durations are the staleness values some record counts, strictly ascending |
| Report.RestoreDurationsOf | ldrup-visualiser.py:78-82 | the restore durations are the staleness values some record counts, strictly ascending |
| Report.ParsedDurations | ldrup-visualiser.py:78-82 | after a parsed log no duration is negative |
| Report.HasAny | ldrup-visualiser.py:85-86 | `any(sum(...) > 0 for query in queries)`; `Report.HasAnyIffSum` and `Report.HasWeakenedIffDurations` |
| Report.HasAnyIffSum | ldrup-visualiser.py:85-86 | some record has a positive weakened (restored) sum exactly when the total is positive |
| Report.HasWeakenedIffDurations | ldrup-visualiser.py:85 | `has_weakened` holds exactly when there is some weaken duration |
| Report.HasRestoredIffDurations | ldrup-visualiser.py:86 | `has_restored` holds exactly when there is some restore duration |
| Report.Series | ldrup-visualiser.py:188-193 | one series value per record |
| Report.SeriesTotal | ldrup-visualiser.py:191-192 | a plotted series adds up to the column total over the records |
| Report.NetInputsSeries | ldrup-visualiser.py:188 | `input_clauses - input_after_query` is never negative, and with the inputs after the query it gives the input clauses |
| Report.AbsVars | ldrup-visualiser.py:276-278 | `all_vars` holds exactly the absolute values of the assumptions of some record |
| Report.AssumptionVars | ldrup-visualiser.py:276-279 | the loop fails exactly when some record has no assumption list |
| Report.AssumptionVarsSorted | ldrup-visualiser.py:276-279 | the variables are strictly ascending and non-negative, and every assumption's variable is among them |
| Report.Summarize | ldrup-visualiser.py:311-315 | the table's totals; `Report.TotalClausesSplit` and `Report.ParsedSummary` |
| Report.TotalClausesSplit | ldrup-visualiser.py:311 | the total of clauses is the total of input clauses plus the total of learned ones |
| Report.ParsedSummary | ldrup-visualiser.py:314-315 | after a parsed log the weaken (restore) totals plus the open record's equal the lifetime counts, and neither is negative |
| Report.WeakenedNotRestored | ldrup-visualiser.py:316 | the percentage is a fraction with a positive denominator, 0 when nothing was weakened |
| Report.WeakenedNotRestoredRange | ldrup-visualiser.py:316 | 0 with no weakens; within [0, 100] when restores do not exceed weakens; negative when they do |
| Report.CountResult | ldrup-visualiser.py:317-318 | the tally of a result is at most the number of records, and equals it exactly when every record has that result |
| Report.ResultTally | ldrup-visualiser.py:317-318 | the tallies fail exactly when some record has no result |
| Report.ResultTallyBound | ldrup-visualiser.py:317-318 | `num_sat + num_unsat` never exceeds the number of records |
| Scenarios.SatisfiableExample | ldrup-visualiser.py:29-72 | a five-line satisfiable log, each line ending in `\n`, gives one record with 2 inputs, 1 after the query, assumptions [3, -4], result SATISFIABLE and model [3, -4] |
| Scenarios.StalenessExample | ldrup-visualiser.py:41-47 | weakening clause 7 again three records later counts staleness 3 |
| Scenarios.DoubleRestoreExample | ldrup-visualiser.py:48-54 | one weaken followed by two restores of the same clause succeeds, with restores[7] == 2 |
| Scenarios.RestoreBeforeWeakenExample | ldrup-visualiser.py:51 | restoring a clause never weakened stops the parse with `UnknownRestore` |
| Scenarios.NegativePercentageExample | ldrup-visualiser.py:316 | with one weaken and two restores the weakened-not-restored percentage is -100 |

## Left out

- Plotting (lines 96-348) is matplotlib rendering: figure layout, colours, legends, the statistics table and `savefig`/`show`. Its scatter loop over assumptions, and the grouping of restore bars with its stale `heights` (line 140), are not part of this model.
- The restore histogram (lines 176-178) is the same computation as the weaken one. `Histogram.Histogram` models both. A `max` of an empty restore counter (line 177) fails, which `Histogram.Histogram` returns as `None`.
- Argument parsing (lines 15-19), the imports and their `ImportError` handling (lines 4-13), and opening the file (line 29) are I/O. The log is given as the sequence of lines the file yields, each with its terminator `\n` except possibly the last.
- The output file name (line 345) is string glue for I/O.
- Report.WeakenedNotRestored: the float division and `* 100` of line 316 are kept as an exact fraction, `(weakens - restores) * 100 / weakens`, not a rounded float.
- Text.ParseInt: accepts an optional sign, ASCII digits and single underscores between digits. It does not accept the surrounding whitespace or the non-ASCII Unicode digits that Python's `int()` also accepts. Fields come from `split()`, so they never hold whitespace. It also has no length limit: from Python 3.11 on, `int()` raises ValueError on a field of more than 4300 digits (`sys.get_int_max_str_digits()`), where the script stops and the model reads the value.
- Parser.LogParser.ProcessLine: says nothing about the fields after a failing line, because the script stops with an exception there and nothing reads them.
- Parser.LogParser.constructor: ensures only `State() == Initial()`. That the initial state is valid is `LogInvariant.InitialInv`.
- Report: the statistics rows whose values are only one sum each (total deletions and total learned, lines 312-313) share `Records.Sum` and are not stated separately.
