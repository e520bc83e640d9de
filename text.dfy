/** Characters, decimal digits and splitting on one separator character. */
module Text {

  predicate IsDigit(c: char) {
    '0' <= c <= '9'
  }

  function DigitValue(c: char): (d: nat)
    requires IsDigit(c)
    ensures d < 10
  {
    c as int - '0' as int
  }

  function DigitChar(d: nat): (c: char)
    requires d < 10
    ensures IsDigit(c) && DigitValue(c) == d
  {
    ('0' as int + d) as char
  }

  predicate AllDigits(s: string) {
    forall i :: 0 <= i < |s| ==> IsDigit(s[i])
  }

  /** The value of a string of decimal digits, most significant digit first. */
  function DigitsValue(s: string): nat
    requires AllDigits(s)
    decreases |s|
  {
    if s == [] then 0 else DigitsValue(s[..|s| - 1]) * 10 + DigitValue(s[|s| - 1])
  }

  /** The shortest decimal rendering of `n` (no leading zeros). */
  function Decimal(n: nat): (s: string)
    ensures |s| > 0 && AllDigits(s)
    decreases n
  {
    if n < 10 then [DigitChar(n)] else Decimal(n / 10) + [DigitChar(n % 10)]
  }

  lemma {:induction false} DecimalValue(n: nat)
    ensures DigitsValue(Decimal(n)) == n
    decreases n
  {
    if n >= 10 {
      var s := Decimal(n);
      assert s[..|s| - 1] == Decimal(n / 10);
      DecimalValue(n / 10);
    }
  }

  /** Two decimal digits with a leading zero, as the patterns `HH`, `mm` and `{:02d}` print 0..99. */
  function Pad2(n: nat): (s: string)
    requires n < 100
    ensures |s| == 2 && AllDigits(s) && DigitsValue(s) == n
  {
    var s := [DigitChar(n / 10), DigitChar(n % 10)];
    assert s[..1] == [DigitChar(n / 10)];
    assert s[..1][..0] == [];
    assert DigitsValue(s[..1]) == n / 10;
    s
  }

  /** Pad2 is the zero-padded form of Decimal. */
  lemma Pad2Decimal(n: nat)
    requires n < 100
    ensures Pad2(n) == (if n < 10 then "0" + Decimal(n) else Decimal(n))
  {
    if n >= 10 {
      assert Decimal(n / 10) == [DigitChar(n / 10)];
    }
  }

  /**
   * `s` with the ASCII letters A-Z turned into a-z and every other character kept:
   * Java's `toLowerCase()` under a default locale other than Turkish or Azerbaijani.
   */
  function ToLowerAscii(s: string): (r: string)
    ensures |r| == |s|
    ensures forall i :: 0 <= i < |s| ==> r[i] == (if 'A' <= s[i] <= 'Z' then (s[i] as int + 32) as char else s[i])
  {
    seq(|s|, i requires 0 <= i < |s| => if 'A' <= s[i] <= 'Z' then (s[i] as int + 32) as char else s[i])
  }

  /**
   * Every field of `s` between occurrences of `sep`, empty fields included:
   * Python's `str.split(sep)`, and the first stage of Java's `String.split`.
   */
  function SplitAll(s: string, sep: char): (fields: seq<string>)
    ensures |fields| > 0
    decreases |s|
  {
    if s == [] then [[]]
    else
      var rest := SplitAll(s[1..], sep);
      if s[0] == sep then [[]] + rest else [[s[0]] + rest[0]] + rest[1..]
  }

  /** The fields glued back together with `sep`: the inverse of SplitAll. */
  function JoinChar(fields: seq<string>, sep: char): string
    decreases |fields|
  {
    if fields == [] then []
    else if |fields| == 1 then fields[0]
    else fields[0] + [sep] + JoinChar(fields[1..], sep)
  }

  lemma {:induction false} SplitAllNoSeparator(s: string, sep: char)
    requires sep !in s
    ensures SplitAll(s, sep) == [s]
    decreases |s|
  {
    if s != [] {
      SplitAllNoSeparator(s[1..], sep);
      assert [s[0]] + s[1..] == s;
    }
  }

  /** A field free of `sep`, followed by `sep`, splits off as the first field. */
  lemma {:induction false} SplitAllFirstField(a: string, sep: char, b: string)
    requires sep !in a
    ensures SplitAll(a + [sep] + b, sep) == [a] + SplitAll(b, sep)
    decreases |a|
  {
    if a == [] {
      assert a + [sep] + b == [sep] + b;
      assert ([sep] + b)[1..] == b;
    } else {
      assert (a + [sep] + b)[1..] == a[1..] + [sep] + b;
      SplitAllFirstField(a[1..], sep, b);
      assert [a[0]] + a[1..] == a;
    }
  }

  /** A string that holds the separator splits into at least two fields. */
  lemma {:induction false} SplitAllSeparated(s: string, sep: char)
    requires sep in s
    ensures |SplitAll(s, sep)| >= 2
    decreases |s|
  {
    if s[0] != sep {
      assert sep in s[1..];
      SplitAllSeparated(s[1..], sep);
    }
  }

  /** A split gives one field, the whole string, exactly when the separator does not occur. */
  lemma SplitAllOneField(s: string, sep: char)
    ensures |SplitAll(s, sep)| == 1 <==> sep !in s
    ensures sep !in s ==> SplitAll(s, sep) == [s]
  {
    if sep in s {
      SplitAllSeparated(s, sep);
    } else {
      SplitAllNoSeparator(s, sep);
    }
  }

  /** No field of a split holds the separator. */
  lemma {:induction false} SplitAllFieldsFree(s: string, sep: char)
    ensures forall i :: 0 <= i < |SplitAll(s, sep)| ==> sep !in SplitAll(s, sep)[i]
    decreases |s|
  {
    if s != [] {
      SplitAllFieldsFree(s[1..], sep);
    }
  }

  /** Splitting loses nothing: joining the fields with the separator gives the string back. */
  lemma {:induction false} JoinSplitAll(s: string, sep: char)
    ensures JoinChar(SplitAll(s, sep), sep) == s
    decreases |s|
  {
    if s != [] {
      var rest := SplitAll(s[1..], sep);
      JoinSplitAll(s[1..], sep);
      if s[0] == sep {
        assert ([[]] + rest)[1..] == rest;
      } else {
        var f := [[s[0]] + rest[0]] + rest[1..];
        if |rest| == 1 {
          assert JoinChar(f, sep) == [s[0]] + rest[0];
        } else {
          assert f[1..] == rest[1..];
          assert JoinChar(rest, sep) == rest[0] + [sep] + JoinChar(rest[1..], sep);
        }
        assert [s[0]] + s[1..] == s;
      }
    }
  }
}
