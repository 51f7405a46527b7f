/**
 * The string operations the log parser relies on: Python's whitespace
 * `str.split()`, `str.find('0')` and the decimal `int()` conversion.
 */
module Text {
  import opened Wrappers

  /** Python's `str.isspace()` for one character. */
  predicate IsSpace(c: char) {
    var n := c as int;
    n == 32 || 9 <= n <= 13 || 28 <= n <= 31 || n == 0x85 || n == 0xA0 || n == 0x1680
    || 0x2000 <= n <= 0x200A || n == 0x2028 || n == 0x2029 || n == 0x202F || n == 0x205F || n == 0x3000
  }

  /** A field produced by `split()`: non-empty and free of whitespace. */
  ghost predicate IsToken(t: string) {
    |t| > 0 && forall i :: 0 <= i < |t| ==> !IsSpace(t[i])
  }

  /** Nothing but whitespace, such as the terminator `\n` a line read from a file ends with. */
  ghost predicate Blank(t: string) {
    forall i :: 0 <= i < |t| ==> IsSpace(t[i])
  }

  /** Every character of `t` occurs in `s`. */
  ghost predicate CharsFrom(t: string, s: string) {
    forall i :: 0 <= i < |t| ==> t[i] in s
  }

  /** Length of the longest whitespace-free prefix of `s`. */
  function TokenLen(s: string): (n: nat)
    ensures n <= |s|
    ensures forall i :: 0 <= i < n ==> !IsSpace(s[i])
    ensures n < |s| ==> IsSpace(s[n])
  {
    if s == [] || IsSpace(s[0]) then 0 else 1 + TokenLen(s[1..])
  }

  /** Python's `s.split()`: the maximal whitespace-free runs of `s`, in order. */
  function Split(s: string): seq<string>
    decreases |s|
  {
    if s == [] then []
    else if IsSpace(s[0]) then Split(s[1..])
    else
      var n := TokenLen(s);
      [s[..n]] + Split(s[n..])
  }

  /** Every field of `split()` is a non-empty whitespace-free run of characters of `s`. */
  lemma {:induction false} SplitFields(s: string)
    ensures forall k :: 0 <= k < |Split(s)| ==> IsToken(Split(s)[k]) && CharsFrom(Split(s)[k], s)
    decreases |s|
  {
    if s == [] {
    } else if IsSpace(s[0]) {
      var r := Split(s[1..]);
      SplitFields(s[1..]);
      forall k, i | 0 <= k < |r| && 0 <= i < |r[k]| ensures r[k][i] in s {
        assert CharsFrom(r[k], s[1..]);
        assert r[k][i] in s[1..];
      }
    } else {
      var n := TokenLen(s);
      var rest := Split(s[n..]);
      SplitFields(s[n..]);
      var r := [s[..n]] + rest;
      assert Split(s) == r;
      forall k, i | 0 <= k < |r| && 0 <= i < |r[k]| ensures r[k][i] in s {
        if k == 0 { assert r[k][i] == s[i]; } else { assert r[k] == rest[k - 1]; assert r[k][i] in s[n..]; }
      }
      assert IsToken(r[0]);
      forall k | 1 <= k < |r| ensures IsToken(r[k]) { assert r[k] == rest[k - 1]; }
    }
  }

  /** Tokens joined by single spaces, the shape of a well-formed log line. */
  function Join(ts: seq<string>): string {
    if ts == [] then "" else if |ts| == 1 then ts[0] else ts[0] + " " + Join(ts[1..])
  }

  lemma {:induction false} TokenLenOfToken(t: string, u: string)
    requires IsToken(t)
    requires u == [] || IsSpace(u[0])
    ensures TokenLen(t + u) == |t|
    decreases |t|
  {
    if |t| > 1 {
      assert (t + u)[1..] == t[1..] + u;
      TokenLenOfToken(t[1..], u);
    } else {
      assert (t + u)[1..] == u;
    }
  }

  /** Splitting a space-joined list of tokens gives back the tokens. */
  lemma {:induction false} SplitJoin(ts: seq<string>)
    requires forall k :: 0 <= k < |ts| ==> IsToken(ts[k])
    ensures Split(Join(ts)) == ts
    decreases |ts|
  {
    if |ts| == 1 {
      var t := ts[0];
      assert t + [] == t;
      TokenLenOfToken(t, []);
      assert t[|t|..] == [];
    } else if |ts| > 1 {
      var t, rest := ts[0], Join(ts[1..]);
      var s := t + " " + rest;
      assert s == t + (" " + rest);
      TokenLenOfToken(t, " " + rest);
      assert s[..|t|] == t;
      assert s[|t|..] == " " + rest;
      assert (" " + rest)[1..] == rest;
      SplitJoin(ts[1..]);
    }
  }

  /** Python's `s.find('0')`: the first position of the character '0', or -1. */
  function FindZero(s: string): (z: int)
    ensures z == -1 <==> '0' !in s
    ensures z != -1 ==> 0 <= z < |s| && s[z] == '0' && '0' !in s[..z]
  {
    if s == [] then -1
    else if s[0] == '0' then 0
    else
      var z := FindZero(s[1..]);
      if z == -1 then
        assert forall i :: 0 <= i < |s| ==> s[i] != '0' by {
          forall i | 0 <= i < |s| ensures s[i] != '0' { if i > 0 { assert s[i] == s[1..][i - 1]; } }
        }
        -1
      else
        assert s[..z + 1] == [s[0]] + s[1..][..z];
        z + 1
  }

  predicate IsDigit(c: char) { '0' <= c <= '9' }

  /**
   * The digit part Python's `int()` accepts: ASCII digits, where a single
   * underscore may stand between two digits.
   */
  predicate IsDigitRun(s: string) {
    && |s| > 0
    && DigitsOrSeparators(s)
    && forall i :: 0 <= i < |s| && s[i] == '_' ==> 0 < i < |s| - 1 && IsDigit(s[i - 1]) && IsDigit(s[i + 1])
  }

  predicate DigitsOrSeparators(s: string) {
    forall i :: 0 <= i < |s| ==> IsDigit(s[i]) || s[i] == '_'
  }

  /** The decimal value of a digit run, underscores skipped. */
  function DigitsValue(s: string): nat
    requires DigitsOrSeparators(s)
  {
    if s == [] then 0
    else
      var last := s[|s| - 1];
      assert IsDigit(last) || last == '_';
      if last == '_' then DigitsValue(s[..|s| - 1])
      else DigitsValue(s[..|s| - 1]) * 10 + (last as int - '0' as int)
  }

  /** Python's `int(t)` on one field: an optional sign and a digit run, or None (a ValueError). */
  function ParseInt(t: string): Option<int> {
    if |t| > 0 && (t[0] == '-' || t[0] == '+') then
      if IsDigitRun(t[1..]) then
        var v: int := DigitsValue(t[1..]);
        Some(if t[0] == '-' then -v else v)
      else None
    else if IsDigitRun(t) then Some(DigitsValue(t))
    else None
  }

  function DigitChar(d: nat): char
    requires d < 10
  {
    ('0' as int + d) as char
  }

  /** Python's `str(n)` for a non-negative integer. */
  function NatToString(n: nat): (s: string)
    ensures |s| > 0 && forall i :: 0 <= i < |s| ==> IsDigit(s[i])
  {
    if n < 10 then [DigitChar(n)] else NatToString(n / 10) + [DigitChar(n % 10)]
  }

  /** Python's `str(n)`: the decimal form of an integer, with '-' when negative. */
  function IntToString(n: int): string {
    if n < 0 then "-" + NatToString(-n) else NatToString(n)
  }

  lemma {:induction false} NatToStringValue(n: nat)
    ensures IsDigitRun(NatToString(n)) && DigitsValue(NatToString(n)) == n
  {
    var s := NatToString(n);
    if n >= 10 {
      NatToStringValue(n / 10);
      assert s[..|s| - 1] == NatToString(n / 10);
    } else {
      assert s[..0] == [];
    }
  }

  /** `int()` undoes `str()`: the decimal form of every integer parses back to it. */
  lemma ParseIntToString(n: int)
    ensures ParseInt(IntToString(n)) == Some(n)
  {
    var s := IntToString(n);
    if n < 0 {
      var d := NatToString(-n);
      NatToStringValue(-n);
      assert s == "-" + d;
      assert s[0] == '-';
      assert s[1..] == d;
    } else {
      NatToStringValue(n);
      assert IsDigit(s[0]);
    }
  }

  /** The decimal form of an integer is a single field for `split()`. */
  lemma IntToStringIsToken(n: int)
    ensures IsToken(IntToString(n))
  {
    var s := IntToString(n);
    if n < 0 {
      assert forall i :: 1 <= i < |s| ==> s[i] == NatToString(-n)[i - 1];
    }
  }
}
