/**
 * Lines as the file yields them: each keeps its terminator `\n`, except
 * possibly the last. Only `split()` and `find('0')` read a line's text, and
 * whitespace at the end adds no field, so the terminator changes nothing,
 * except on a `u` line without any '0'. There `line[:-1]` drops the
 * terminator, and without one it drops the last character of the line.
 */
module Terminators {
  import opened Wrappers
  import opened Text
  import opened Log
  import opened LiteralProperties

  /** Every line followed by `\n`. */
  function Terminated(lines: seq<string>): (r: seq<string>)
    ensures |r| == |lines| && forall k :: 0 <= k < |lines| ==> r[k] == lines[k] + "\n"
  {
    seq(|lines|, k requires 0 <= k < |lines| => lines[k] + "\n")
  }

  /** Text appended after a '0' does not move the first '0'. */
  lemma FindZeroPrefix(s: string, t: string)
    requires '0' in s
    ensures FindZero(s + t) == FindZero(s)
  {
    var z := FindZero(s);
    assert (s + t)[..z] == s[..z];
    FindZeroAt(s + t, z);
  }

  /** A line and the same line followed by whitespace have the same effect, unless it is a `u` line with no '0'. */
  lemma StepIgnoresTerminator(s: LogState, line: string, eol: string)
    requires Blank(eol)
    requires |line| > 0 && line[0] == 'u' ==> '0' in line
    ensures Step(s, line + eol) == Step(s, line)
  {
    var read := line + eol;
    if line == [] {
      assert read == eol;
      if eol != [] {
        assert IsSpace(eol[0]);
      }
    } else if line[0] == 'u' {
      CoreIgnoresTerminator(s, line, eol);
    } else {
      assert read[0] == line[0];
      SplitBlank(line, eol);
      SameFieldsSameStep(s, line, read);
    }
  }

  /** Apart from `u` lines, a line's effect depends only on its tag and its fields. */
  lemma SameFieldsSameStep(s: LogState, a: string, b: string)
    requires |a| > 0 && |b| > 0 && a[0] == b[0] && a[0] != 'u' && Split(a) == Split(b)
    ensures Step(s, a) == Step(s, b)
  {
  }

  lemma CoreIgnoresTerminator(s: LogState, line: string, eol: string)
    requires |line| > 0 && line[0] == 'u' && '0' in line
    ensures Step(s, line + eol) == Step(s, line)
  {
    var read := line + eol;
    FindZeroPrefix(line, eol);
    var z := FindZero(line);
    assert read[..z] == line[..z];
    assert CoreText(read) == CoreText(line);
    StepIsCoreLine(s, line);
    StepIsCoreLine(s, read);
  }

  /** Parsing the lines as the file yields them is parsing them without terminators, when every `u` line has a '0'. */
  lemma {:induction false} RunIgnoresTerminators(s: LogState, lines: seq<string>)
    requires forall k :: 0 <= k < |lines| && |lines[k]| > 0 && lines[k][0] == 'u' ==> '0' in lines[k]
    ensures Run(s, Terminated(lines)) == Run(s, lines)
    decreases |lines|
  {
    if lines != [] {
      var t := Terminated(lines);
      assert Blank("\n") by {
        assert IsSpace('\n');
      }
      StepIgnoresTerminator(s, lines[0], "\n");
      assert t[0] == lines[0] + "\n";
      assert t[1..] == Terminated(lines[1..]);
      if Step(s, lines[0]).Ok? {
        RunIgnoresTerminators(Step(s, lines[0]).value, lines[1..]);
      }
    }
  }

  /**
   * `u 1 2` with no '0': read with its terminator the core is [1, 2]; as a
   * last line without one, `line[:-1]` cuts the 2 and the core is [1].
   */
  lemma CoreTerminatorExample(s: LogState)
    ensures Step(s, "u 1 2\n") == Ok(Close(s, s.query.(unsatCore := Some([1, 2]))))
    ensures Step(s, "u 1 2") == Ok(Close(s, s.query.(unsatCore := Some([1]))))
  {
    TerminatedCoreText();
    UnterminatedCoreText();
    CoreFieldsOneTwo();
    QuirkFields();
    QuirkValue();
    CoreValuesOneTwo();
    CoreLineOf(s, "u 1 2\n", [1, 2]);
    StepIsCoreLine(s, "u 1 2\n");
    CoreLineOf(s, "u 1 2", [1]);
    StepIsCoreLine(s, "u 1 2");
  }

  lemma TerminatedCoreText()
    ensures CoreText("u 1 2\n") == "u 1 2"
  {
    assert '0' !in "u 1 2\n";
  }

  lemma UnterminatedCoreText()
    ensures Tail(Split(CoreText("u 1 2"))) == ["1"]
  {
    assert '0' !in "u 1 2";
    assert CoreText("u 1 2") == "u 1" + " ";
    SplitTrailingSpace("u 1", ' ');
    QuirkFields();
  }

  lemma CoreFieldsOneTwo()
    ensures Tail(Split("u 1 2")) == ["1", "2"]
  {
    assert Join(["u", "1", "2"]) == "u 1 2" by {
      assert ["u", "1", "2"][1..] == ["1", "2"];
      assert ["1", "2"][1..] == ["2"];
    }
    SplitJoin(["u", "1", "2"]);
  }

  lemma CoreValuesOneTwo()
    ensures ParseInts(["1", "2"]) == Ok([1, 2])
  {
    assert IsDigitRun("2");
    assert DigitsValue("2") == 2;
    assert ParseInt("2") == Some(2);
    assert ["2"][1..] == [];
    assert ParseInts([]) == Ok([]);
    assert [2] + [] == [2];
    assert ParseInts(["2"]) == Ok([2]);
    QuirkValue();
    assert ["1", "2"][1..] == ["2"];
    assert [1] + [2] == [1, 2];
  }
}
