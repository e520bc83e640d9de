/**
 * The pieces of Python's built-ins that the data-preparation script leans
 * on: `str.strip()`, `int(str)`, `str.join` and the `{:02d}` format spec.
 */
module PythonLang {
  import opened Wrappers
  import opened Text

  /** `str.isspace()` for one character: the whitespace `strip()` and `int()` remove. */
  predicate IsSpace(c: char) {
    || '\t' <= c <= '\r' || '\U{001C}' <= c <= ' '
    || c == '\U{0085}' || c == '\U{00A0}' || c == '\U{1680}' || '\U{2000}' <= c <= '\U{200A}'
    || c == '\U{2028}' || c == '\U{2029}' || c == '\U{202F}' || c == '\U{205F}' || c == '\U{3000}'
  }

  predicate AllSpace(s: string) {
    forall i :: 0 <= i < |s| ==> IsSpace(s[i])
  }

  /** `s.lstrip()`: the longest suffix of `s` not starting with whitespace, all of the cut being whitespace. */
  function StripStart(s: string): (r: string)
    ensures |r| <= |s| && r == s[|s| - |r|..]
    ensures AllSpace(s[..|s| - |r|])
    ensures r != [] ==> !IsSpace(r[0])
    decreases |s|
  {
    if s != [] && IsSpace(s[0]) then
      var r := StripStart(s[1..]);
      assert s[..|s| - |r|] == [s[0]] + s[1..][..|s| - 1 - |r|];
      r
    else s
  }

  /** `s.rstrip()`: the longest prefix of `s` not ending in whitespace, all of the cut being whitespace. */
  function StripEnd(s: string): (r: string)
    ensures |r| <= |s| && r == s[..|r|]
    ensures AllSpace(s[|r|..])
    ensures r != [] ==> !IsSpace(r[|r| - 1])
    decreases |s|
  {
    if s != [] && IsSpace(s[|s| - 1]) then
      var r := StripEnd(s[..|s| - 1]);
      assert s[|r|..] == s[..|s| - 1][|r|..] + [s[|s| - 1]];
      r
    else s
  }

  /** `s.strip()`: whitespace removed from both ends. */
  function Strip(s: string): (r: string)
    ensures r == [] || (!IsSpace(r[0]) && !IsSpace(r[|r| - 1]))
  {
    StripEnd(StripStart(s))
  }

  /** `strip()` removes exactly the surrounding whitespace: padding a trimmed string gives it back. */
  lemma StripPadded(front: string, t: string, back: string)
    requires AllSpace(front) && AllSpace(back)
    requires t == [] || (!IsSpace(t[0]) && !IsSpace(t[|t| - 1]))
    ensures Strip(front + t + back) == t
  {
    if t == [] {
      assert AllSpace(front + t + back);
      StripAllSpace(front + t + back);
    } else {
      assert front + t + back == front + (t + back);
      StripStartPadded(front, t + back);
      StripEndPadded(t, back);
    }
  }

  lemma {:induction false} StripAllSpace(s: string)
    requires AllSpace(s)
    ensures StripStart(s) == []
    decreases |s|
  {
    if s != [] {
      StripAllSpace(s[1..]);
    }
  }

  lemma {:induction false} StripStartPadded(front: string, u: string)
    requires AllSpace(front) && u != [] && !IsSpace(u[0])
    ensures StripStart(front + u) == u
    decreases |front|
  {
    if front != [] {
      assert (front + u)[0] == front[0];
      assert (front + u)[1..] == front[1..] + u;
      StripStartPadded(front[1..], u);
    } else {
      assert front + u == u;
    }
  }

  lemma {:induction false} StripEndPadded(t: string, back: string)
    requires t != [] && !IsSpace(t[|t| - 1]) && AllSpace(back)
    ensures StripEnd(t + back) == t
    decreases |back|
  {
    if back != [] {
      assert (t + back)[|t + back| - 1] == back[|back| - 1];
      assert (t + back)[..|t + back| - 1] == t + back[..|back| - 1];
      StripEndPadded(t, back[..|back| - 1]);
    } else {
      assert t + back == t;
    }
  }

  /** A string with no whitespace at either end is left alone. */
  lemma StripTrimmed(t: string)
    requires t == [] || (!IsSpace(t[0]) && !IsSpace(t[|t| - 1]))
    ensures Strip(t) == t
  {
    StripPadded([], t, []);
    assert [] + t + [] == t;
  }

  /** Stripping twice is stripping once. */
  lemma StripIdempotent(s: string)
    ensures Strip(Strip(s)) == Strip(s)
  {
    StripTrimmed(Strip(s));
  }

  /**
   * `int(s)` for a string: surrounding whitespace is ignored, then an optional
   * sign and at least one decimal digit; anything else is a `ValueError`
   * (`None` here). Python integers are unbounded.
   */
  function Int(s: string): (r: Option<int>)
    ensures r.Some? ==> Strip(s) != [] && IsDigit(Strip(s)[|Strip(s)| - 1])
    ensures r.Some? && r.value < 0 ==> Strip(s)[0] == '-'
  {
    IntOfTrimmed(Strip(s))
  }

  /** What `int` makes of the text once the whitespace is gone. */
  function IntOfTrimmed(t: string): (r: Option<int>)
  {
    if t == [] then None
    else if t[0] == '-' || t[0] == '+' then
      if |t| >= 2 && AllDigits(t[1..]) then
        var v: int := DigitsValue(t[1..]);
        Some(if t[0] == '-' then -v else v)
      else None
    else if AllDigits(t) then Some(DigitsValue(t))
    else None
  }

  /** No digit is whitespace. */
  lemma DigitsUnspaced(s: string)
    requires s != [] && AllDigits(s)
    ensures Strip(s) == s
  {
    assert IsDigit(s[0]) && IsDigit(s[|s| - 1]);
    StripTrimmed(s);
  }

  /** `int` reads back a string of digits, leading zeros included. */
  lemma IntDigits(s: string)
    requires s != [] && AllDigits(s)
    ensures Int(s) == Some(DigitsValue(s))
  {
    DigitsUnspaced(s);
    assert IsDigit(s[0]);
  }

  /** `int` reads back a minus sign and digits. */
  lemma IntNegative(s: string, v: int)
    requires s != [] && AllDigits(s) && DigitsValue(s) == v
    ensures Int("-" + s) == Some(-v)
  {
    var t := "-" + s;
    assert t[1..] == s;
    assert IsDigit(s[|s| - 1]);
    assert t[0] == '-' && t[|t| - 1] == s[|s| - 1];
    StripTrimmed(t);
  }

  /** `int` ignores the whitespace around the number. */
  lemma IntStrip(s: string)
    ensures Int(Strip(s)) == Int(s)
  {
    var t := Strip(s);
    StripIdempotent(s);
    assert Strip(t) == t;
  }

  /** `f"{n:02d}"`: at least two characters, zero-padded on the left; a negative number keeps its sign and needs no padding. */
  function Format02(n: int): (s: string)
    ensures |s| >= 2
    ensures 0 <= n < 100 ==> s == Pad2(n)
  {
    Pad2Of(n);
    if n < 0 then "-" + Decimal(-n)
    else if n < 10 then "0" + Decimal(n)
    else Decimal(n)
  }

  lemma Pad2Of(n: int)
    ensures 0 <= n < 100 ==> Pad2(n) == (if n < 10 then "0" + Decimal(n) else Decimal(n))
    ensures n >= 10 ==> |Decimal(n)| >= 2
  {
    if 0 <= n < 100 {
      Pad2Decimal(n);
    }
    if n >= 10 {
      assert Decimal(n) == Decimal(n / 10) + [DigitChar(n % 10)];
    }
  }

  /** `int` reads back what `{:02d}` prints, for every integer. */
  lemma FormatRoundTrip(n: int)
    ensures Int(Format02(n)) == Some(n)
  {
    if n < 0 {
      FormatNegative(n);
    } else if n < 100 {
      assert Format02(n) == Pad2(n);
      IntDigits(Pad2(n));
    } else {
      FormatLarge(n);
    }
  }

  lemma FormatNegative(n: int)
    requires n < 0
    ensures Int(Format02(n)) == Some(n)
  {
    IntNegativeDecimal(n);
  }

  lemma IntNegativeDecimal(n: int)
    requires n < 0
    ensures Int("-" + Decimal(-n)) == Some(n)
  {
    DecimalValue(-n);
    IntNegative(Decimal(-n), -n);
  }

  lemma FormatLarge(n: int)
    requires n >= 100
    ensures Int(Format02(n)) == Some(n)
  {
    var d := Decimal(n);
    assert Format02(n) == d;
    DecimalValue(n);
    IntDigits(d);
  }

  /** `sep.join(parts)`. */
  function Join(sep: string, parts: seq<string>): (r: string)
    ensures parts != [] ==> |parts[0]| <= |r| && r[..|parts[0]|] == parts[0]
    decreases |parts|
  {
    if parts == [] then []
    else if |parts| == 1 then parts[0]
    else parts[0] + sep + Join(sep, parts[1..])
  }

  /** Joining one part more adds the separator and that part at the end. */
  lemma {:induction false} JoinAppend(sep: string, parts: seq<string>, last: string)
    requires parts != []
    ensures Join(sep, parts + [last]) == Join(sep, parts) + sep + last
    decreases |parts|
  {
    if |parts| == 1 {
      assert (parts + [last])[1..] == [last];
    } else {
      assert (parts + [last])[1..] == parts[1..] + [last];
      JoinAppend(sep, parts[1..], last);
    }
  }

  /** The joined text is as long as the parts plus one separator between each two. */
  lemma {:induction false} JoinLength(sep: string, parts: seq<string>)
    requires parts != []
    ensures |Join(sep, parts)| == TotalLength(parts) + (|parts| - 1) * |sep|
    decreases |parts|
  {
    if |parts| > 1 {
      JoinLength(sep, parts[1..]);
    }
  }

  function TotalLength(parts: seq<string>): nat
    decreases |parts|
  {
    if parts == [] then 0 else |parts[0]| + TotalLength(parts[1..])
  }
}
