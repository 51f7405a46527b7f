/** The literal lists of `q`, `m` and `u` lines: what is read, in which order, with which signs. */
module LiteralProperties {
  import opened Wrappers
  import opened Text
  import opened Records
  import opened Log

  /** The decimal fields of a list of literals. */
  function Fields(xs: seq<int>): (r: seq<string>)
    ensures |r| == |xs|
  {
    seq(|xs|, k requires 0 <= k < |xs| => IntToString(xs[k]))
  }

  /** A line `<tag> x1 ... xn <last>`, fields separated by single spaces. */
  function LiteralLine(tag: char, xs: seq<int>, last: string): string {
    Join([[tag]] + Fields(xs) + [last])
  }

  lemma {:induction false} ParseIntsFields(xs: seq<int>)
    ensures ParseInts(Fields(xs)) == Ok(xs)
  {
    forall k | 0 <= k < |xs| ensures ParseInt(Fields(xs)[k]) == Some(xs[k]) {
      ParseIntToString(xs[k]);
    }
    ParseIntsSpec(Fields(xs));
    var r := ParseInts(Fields(xs));
    assert r.Ok?;
    assert forall k :: 0 <= k < |xs| ==> r.value[k] == xs[k];
    assert r.value == xs;
  }

  lemma FieldsAreTokens(xs: seq<int>)
    ensures forall k :: 0 <= k < |xs| ==> IsToken(Fields(xs)[k])
  {
    forall k | 0 <= k < |xs| ensures IsToken(Fields(xs)[k]) {
      IntToStringIsToken(xs[k]);
    }
  }

  lemma SplitLiteralLine(tag: char, xs: seq<int>, last: string)
    requires !IsSpace(tag) && IsToken(last)
    ensures Split(LiteralLine(tag, xs, last)) == [[tag]] + Fields(xs) + [last]
  {
    var ts := [[tag]] + Fields(xs) + [last];
    FieldsAreTokens(xs);
    assert forall k :: 1 <= k < |ts| - 1 ==> ts[k] == Fields(xs)[k - 1];
    SplitJoin(ts);
  }

  lemma InnerOfLiteralLine(tag: char, xs: seq<int>, last: string)
    requires !IsSpace(tag) && IsToken(last)
    ensures Inner(Split(LiteralLine(tag, xs, last))) == Fields(xs)
  {
    SplitLiteralLine(tag, xs, last);
    var ts := [[tag]] + Fields(xs) + [last];
    assert ts[1..|ts| - 1] == Fields(xs);
  }

  /** The inner fields of a literal line as read, terminator included. */
  lemma InnerOfReadLine(tag: char, xs: seq<int>, last: string, eol: string)
    requires !IsSpace(tag) && IsToken(last) && Blank(eol)
    ensures var line := LiteralLine(tag, xs, last) + eol;
      |line| > 0 && line[0] == tag && Inner(Split(line)) == Fields(xs)
  {
    LiteralLineTag(tag, xs, last);
    SplitBlank(LiteralLine(tag, xs, last), eol);
    InnerOfLiteralLine(tag, xs, last);
  }

  /**
   * A `q` line, as read with its terminator `eol`, records exactly its
   * integers between the tag and the last field, signs and order kept, and
   * marks the record as queried; the last field is dropped whatever it is.
   */
  lemma QueryLineRoundTrip(s: LogState, xs: seq<int>, last: string, eol: string)
    requires IsToken(last) && Blank(eol)
    ensures Step(s, LiteralLine('q', xs, last) + eol) == Ok(s.(queried := true, query := s.query.(assertedVars := Some(xs))))
  {
    var line := LiteralLine('q', xs, last) + eol;
    InnerOfReadLine('q', xs, last, eol);
    StepIsQueryLine(s, line);
    ParseIntsFields(xs);
  }

  /**
   * An `m` line, as read with its terminator `eol`, records exactly its
   * integers between the tag and the last field, then closes the record.
   */
  lemma ModelLineRoundTrip(s: LogState, xs: seq<int>, last: string, eol: string)
    requires IsToken(last) && Blank(eol)
    ensures Step(s, LiteralLine('m', xs, last) + eol) == Ok(Close(s, s.query.(model := Some(xs))))
  {
    var line := LiteralLine('m', xs, last) + eol;
    InnerOfReadLine('m', xs, last, eol);
    StepIsModelLine(s, line);
    ParseIntsFields(xs);
  }

  /** Any `q` line: it parses exactly when its inner fields are integers, and then records them. */
  lemma StepQuery(s: LogState, line: string)
    requires |line| > 0 && line[0] == 'q'
    ensures Step(s, line).Ok? <==> ParseInts(Inner(Split(line))).Ok?
    ensures Step(s, line).Ok? ==>
      Step(s, line).value == s.(queried := true, query := s.query.(assertedVars := Some(ParseInts(Inner(Split(line))).value)))
  {
    StepIsQueryLine(s, line);
  }

  lemma {:induction false} JoinSnoc(ts: seq<string>, t: string)
    requires ts != []
    ensures Join(ts + [t]) == Join(ts) + " " + t
    decreases |ts|
  {
    if |ts| == 1 {
      assert ts + [t] == [ts[0], t];
      assert [ts[0], t][1..] == [t];
    } else {
      assert (ts + [t])[1..] == ts[1..] + [t];
      JoinSnoc(ts[1..], t);
    }
  }

  lemma {:induction false} JoinHasNoZero(ts: seq<string>)
    requires forall k :: 0 <= k < |ts| ==> '0' !in ts[k]
    ensures '0' !in Join(ts)
    decreases |ts|
  {
    if |ts| > 1 {
      JoinHasNoZero(ts[1..]);
      assert Join(ts) == ts[0] + " " + Join(ts[1..]);
    }
  }

  lemma FindZeroAt(s: string, z: nat)
    requires z < |s| && s[z] == '0' && '0' !in s[..z]
    ensures FindZero(s) == z
  {
  }

  /** A trailing whitespace character adds no field. */
  lemma {:induction false} SplitTrailingSpace(s: string, c: char)
    requires IsSpace(c)
    ensures Split(s + [c]) == Split(s)
    decreases |s|
  {
    if s == [] {
      assert Split([c]) == Split([c][1..]);
    } else if IsSpace(s[0]) {
      assert (s + [c])[1..] == s[1..] + [c];
      SplitTrailingSpace(s[1..], c);
    } else {
      var n := TokenLen(s);
      TokenLenSpace(s, c);
      assert (s + [c])[..n] == s[..n];
      assert (s + [c])[n..] == s[n..] + [c];
      SplitTrailingSpace(s[n..], c);
    }
  }

  lemma {:induction false} TokenLenSpace(s: string, c: char)
    requires IsSpace(c)
    ensures TokenLen(s + [c]) == TokenLen(s)
    decreases |s|
  {
    if s != [] && !IsSpace(s[0]) {
      assert (s + [c])[1..] == s[1..] + [c];
      TokenLenSpace(s[1..], c);
    }
  }

  /** Trailing whitespace, a line terminator in particular, adds no field. */
  lemma {:induction false} SplitBlank(s: string, t: string)
    requires Blank(t)
    ensures Split(s + t) == Split(s)
    decreases |t|
  {
    if t != [] {
      assert s + t == (s + [t[0]]) + t[1..];
      SplitBlank(s + [t[0]], t[1..]);
      SplitTrailingSpace(s, t[0]);
    } else {
      assert s + t == s;
    }
  }

  /**
   * The text before the first '0' of `u x1 ... xn 0` followed by the
   * terminator `eol`, when no literal contains '0'.
   */
  lemma CoreTextOfLiteralLine(xs: seq<int>, eol: string)
    requires forall k :: 0 <= k < |xs| ==> '0' !in IntToString(xs[k])
    ensures CoreText(LiteralLine('u', xs, "0") + eol) == Join([['u']] + Fields(xs)) + " "
  {
    var head := [['u']] + Fields(xs);
    var line := LiteralLine('u', xs, "0") + eol;
    assert [['u']] + Fields(xs) + ["0"] == head + ["0"];
    JoinSnoc(head, "0");
    var h := Join(head);
    assert line == h + " " + "0" + eol;
    assert forall k :: 0 <= k < |head| ==> '0' !in head[k] by {
      forall k | 0 <= k < |head| ensures '0' !in head[k] {
        if k > 0 { assert head[k] == IntToString(xs[k - 1]); }
      }
    }
    JoinHasNoZero(head);
    assert line[..|h| + 1] == h + " ";
    FindZeroAt(line, |h| + 1);
  }

  lemma CoreFieldsOfLiteralLine(xs: seq<int>)
    ensures Tail(Split(Join([['u']] + Fields(xs)) + " ")) == Fields(xs)
  {
    var head := [['u']] + Fields(xs);
    SplitTrailingSpace(Join(head), ' ');
    FieldsAreTokens(xs);
    assert forall k :: 1 <= k < |head| ==> head[k] == Fields(xs)[k - 1];
    SplitJoin(head);
    assert head[1..] == Fields(xs);
  }

  /**
   * A `u` line `u x1 ... xn 0`, as read with its terminator `eol`, whose
   * literals contain no '0' digit records exactly those literals as the
   * core, then closes the record.
   */
  lemma CoreLineRoundTrip(s: LogState, xs: seq<int>, eol: string)
    requires forall k :: 0 <= k < |xs| ==> '0' !in IntToString(xs[k])
    ensures Step(s, LiteralLine('u', xs, "0") + eol) == Ok(Close(s, s.query.(unsatCore := Some(xs))))
  {
    var line := LiteralLine('u', xs, "0") + eol;
    LiteralLineTag('u', xs, "0");
    CoreTextOfLiteralLine(xs, eol);
    CoreFieldsOfLiteralLine(xs);
    ParseIntsFields(xs);
    CoreLineOf(s, line, xs);
    StepIsCoreLine(s, line);
  }

  lemma LiteralLineTag(tag: char, xs: seq<int>, last: string)
    ensures |LiteralLine(tag, xs, last)| > 0 && LiteralLine(tag, xs, last)[0] == tag
  {
    var ts := [[tag]] + Fields(xs) + [last];
    assert ts[0] == [tag];
  }

  lemma StepIsQueryLine(s: LogState, line: string)
    requires |line| > 0 && line[0] == 'q'
    ensures Step(s, line) == QueryLine(s, line)
  {
  }

  lemma StepIsModelLine(s: LogState, line: string)
    requires |line| > 0 && line[0] == 'm'
    ensures Step(s, line) == ModelLine(s, line)
  {
  }

  lemma StepIsCoreLine(s: LogState, line: string)
    requires |line| > 0 && line[0] == 'u'
    ensures Step(s, line) == CoreLine(s, line)
  {
  }

  lemma CoreLineOf(s: LogState, line: string, xs: seq<int>)
    requires |line| > 0 && ParseInts(Tail(Split(CoreText(line)))) == Ok(xs)
    ensures CoreLine(s, line) == Ok(Close(s, s.query.(unsatCore := Some(xs))))
  {
  }

  lemma {:induction false} DigitsValueLastDigit(t: string)
    requires DigitsOrSeparators(t) && |t| > 0 && IsDigit(t[|t| - 1])
    ensures DigitsValue(t) % 10 == t[|t| - 1] as int - '0' as int
  {
  }

  /** A field without the character '0' never stands for a multiple of ten (nor for 0). */
  lemma ZeroFreeFieldValue(t: string, v: int)
    requires ParseInt(t) == Some(v) && '0' !in t
    ensures v % 10 != 0
  {
    var body := if |t| > 0 && (t[0] == '-' || t[0] == '+') then t[1..] else t;
    assert IsDigitRun(body);
    var last := body[|body| - 1];
    assert last in t;
    assert IsDigit(last);
    DigitsValueLastDigit(body);
  }

  /**
   * The core of a `u` line is read from the text before the first '0'
   * character, so none of its fields contains '0' and no core literal is
   * a multiple of ten: `u 10 0` yields the core [1], not [10].
   */
  lemma CoreHasNoMultipleOfTen(s: LogState, line: string)
    requires |line| > 0 && line[0] == 'u' && Step(s, line).Ok?
    ensures var r := Step(s, line).value;
      && |r.queries| == |s.queries| + 1
      && r.queries[|s.queries|].unsatCore.Some?
      && forall k :: 0 <= k < |r.queries[|s.queries|].unsatCore.value| ==> r.queries[|s.queries|].unsatCore.value[k] % 10 != 0
  {
    assert Step(s, line) == CoreLine(s, line);
    CoreFieldsZeroFree(line);
  }

  /** No field the core is read from contains '0', so no core literal is a multiple of ten. */
  lemma CoreFieldsZeroFree(line: string)
    requires |line| > 0 && ParseInts(Tail(Split(CoreText(line)))).Ok?
    ensures var core := ParseInts(Tail(Split(CoreText(line)))).value;
      forall k :: 0 <= k < |core| ==> core[k] % 10 != 0
  {
    var text := CoreText(line);
    CoreTextZeroFree(line);
    var fields := Split(text);
    SplitFields(text);
    ParseIntsSpec(Tail(fields));
    var core := ParseInts(Tail(fields)).value;
    forall k | 0 <= k < |core| ensures core[k] % 10 != 0 {
      var t := Tail(fields)[k];
      assert t == fields[k + 1];
      assert CharsFrom(t, text);
      ZeroFreeFieldValue(t, core[k]);
    }
  }

  lemma CoreTextZeroFree(line: string)
    requires |line| > 0
    ensures '0' !in CoreText(line)
  {
    var text := CoreText(line);
    if FindZero(line) < 0 {
      assert forall i :: 0 <= i < |text| ==> text[i] == line[i];
    }
  }

  /** The example `u 10 0`: the core is [1]. */
  lemma CoreQuirkExample(s: LogState)
    ensures Step(s, "u 10 0\n") == Ok(Close(s, s.query.(unsatCore := Some([1]))))
  {
    var line := "u 10 0\n";
    QuirkText();
    QuirkFields();
    QuirkValue();
    CoreLineOf(s, line, [1]);
    StepIsCoreLine(s, line);
  }

  lemma QuirkText()
    ensures CoreText("u 10 0\n") == "u 1"
  {
    FindZeroAt("u 10 0\n", 3);
  }

  lemma QuirkFields()
    ensures Tail(Split("u 1")) == ["1"]
  {
    assert Join(["u", "1"]) == "u 1";
    SplitJoin(["u", "1"]);
  }

  lemma QuirkValue()
    ensures ParseInts(["1"]) == Ok([1])
  {
    assert IsDigitRun("1");
    assert DigitsValue("1") == 1;
    assert ParseInt("1") == Some(1);
    assert ["1"][1..] == [];
    assert ParseInts([]) == Ok([]);
    assert [1] + [] == [1];
  }
}
