/**
 * The two JDK string operations the time parser relies on:
 * `String.split` with a one-character separator and `Integer.parseInt`.
 */
module JavaLang {
  import opened Wrappers
  import opened Text

  const IntMin: int := -0x8000_0000
  const IntMax: int := 0x7fff_ffff

  function Repeat<T>(x: T, k: nat): (r: seq<T>)
    ensures |r| == k && forall i :: 0 <= i < k ==> r[i] == x
  {
    seq(k, _ => x)
  }

  /** `xs` without its trailing empty strings. */
  function DropTrailingEmpty(xs: seq<string>): (r: seq<string>)
    ensures |r| <= |xs| && r == xs[..|r|]
    ensures r != [] ==> r[|r| - 1] != []
    ensures forall i :: |r| <= i < |xs| ==> xs[i] == []
    decreases |xs|
  {
    if xs == [] then []
    else if xs[|xs| - 1] == [] then DropTrailingEmpty(xs[..|xs| - 1])
    else xs
  }

  /**
   * Java's `s.split(sep)` for a separator that is not a regular-expression
   * metacharacter: the whole string when `sep` does not occur, otherwise the
   * fields between separators with trailing empty fields removed.
   */
  function JavaSplit(s: string, sep: char): (fields: seq<string>)
    ensures forall i :: 0 <= i < |fields| ==> sep !in fields[i]
    ensures sep in s ==> fields == [] || fields[|fields| - 1] != []
  {
    SplitAllFieldsFree(s, sep);
    if sep !in s then [s] else DropTrailingEmpty(SplitAll(s, sep))
  }

  /**
   * Java's `Integer.parseInt(s)` in radix 10: an optional `+` or `-`, at least
   * one digit, and a value that fits in 32 bits; `None` stands for the
   * `NumberFormatException`.
   */
  function ParseInt(s: string): (r: Option<int>)
    ensures r.Some? ==> IntMin <= r.value <= IntMax
    ensures r.Some? ==> s != [] && forall i :: 0 <= i < |s| ==> s[i] != ':'
  {
    if s == [] then None
    else if s[0] == '-' || s[0] == '+' then
      if |s| == 1 || !AllDigits(s[1..]) then None
      else
        var v: int := if s[0] == '-' then 0 - (DigitsValue(s[1..]) as int) else DigitsValue(s[1..]);
        if IntMin <= v <= IntMax then Some(v) else None
    else if !AllDigits(s) then None
    else
      var v := DigitsValue(s);
      if v <= IntMax then Some(v) else None
  }

  /** An unsigned run of digits parses to its value (when it fits in an int). */
  lemma ParseIntDigits(s: string)
    requires s != [] && AllDigits(s) && DigitsValue(s) <= IntMax
    ensures ParseInt(s) == Some(DigitsValue(s))
  {
    assert IsDigit(s[0]);
  }

  lemma ParseIntDecimal(n: nat)
    requires n <= IntMax
    ensures ParseInt(Decimal(n)) == Some(n)
  {
    DecimalValue(n);
    ParseIntDigits(Decimal(n));
  }

  lemma ParseIntPad2(n: nat)
    requires n < 100
    ensures ParseInt(Pad2(n)) == Some(n)
  {
    ParseIntDigits(Pad2(n));
  }

  /** `s` is field `a`, one separator, field `b`, then nothing but separators. */
  predicate TwoFieldForm(s: string, a: string, sep: char, b: string) {
    |a| + 1 + |b| <= |s| && s == a + [sep] + b + Repeat(sep, |s| - |a| - 1 - |b|)
  }

  lemma {:induction false} SplitAllSeparators(sep: char, k: nat)
    ensures SplitAll(Repeat(sep, k), sep) == Repeat<string>([], k + 1)
    decreases k
  {
    if k > 0 {
      assert Repeat(sep, k)[1..] == Repeat(sep, k - 1);
      SplitAllSeparators(sep, k - 1);
      assert [""] + Repeat<string>([], k) == Repeat<string>([], k + 1);
    }
  }

  lemma {:induction false} DropTrailingEmpties(xs: seq<string>, k: nat)
    requires xs != [] && xs[|xs| - 1] != []
    ensures DropTrailingEmpty(xs + Repeat<string>([], k)) == xs
    decreases k
  {
    if k > 0 {
      assert (xs + Repeat<string>([], k))[..|xs| + k - 1] == xs + Repeat<string>([], k - 1);
      DropTrailingEmpties(xs, k - 1);
    } else {
      assert xs + Repeat<string>([], k) == xs;
    }
  }

  lemma {:induction false} JoinTrailingEmpties(b: string, sep: char, k: nat)
    ensures JoinChar([b] + Repeat<string>([], k), sep) == b + Repeat(sep, k)
    decreases k
  {
    if k == 0 {
      assert [b] + Repeat<string>([], k) == [b];
    } else {
      assert ([b] + Repeat<string>([], k))[1..] == [""] + Repeat<string>([], k - 1);
      JoinTrailingEmpties([], sep, k - 1);
      assert [] + Repeat(sep, k - 1) == Repeat(sep, k - 1);
      assert [sep] + Repeat(sep, k - 1) == Repeat(sep, k);
    }
  }

  /** The raw fields of `a`, a separator, `b` and `k` more separators. */
  lemma SplitAllTwoFields(a: string, sep: char, b: string, k: nat)
    requires sep !in a && sep !in b
    ensures SplitAll(a + [sep] + b + Repeat(sep, k), sep) == [a, b] + Repeat<string>([], k)
  {
    assert a + [sep] + b + Repeat(sep, k) == a + [sep] + (b + Repeat(sep, k));
    SplitAllFirstField(a, sep, b + Repeat(sep, k));
    if k == 0 {
      assert b + Repeat(sep, k) == b;
      SplitAllNoSeparator(b, sep);
    } else {
      assert b + Repeat(sep, k) == b + [sep] + Repeat(sep, k - 1);
      SplitAllFirstField(b, sep, Repeat(sep, k - 1));
      SplitAllSeparators(sep, k - 1);
      assert [b] + Repeat<string>([], k) == [b] + [""] + Repeat<string>([], k - 1);
    }
  }

  /** The two-field form splits into its two fields. */
  lemma JavaSplitOfTwoFieldForm(s: string, sep: char, a: string, b: string)
    requires sep !in a && sep !in b && b != [] && TwoFieldForm(s, a, sep, b)
    ensures JavaSplit(s, sep) == [a, b]
  {
    var k := |s| - |a| - 1 - |b|;
    assert s[|a|] == sep;
    SplitAllTwoFields(a, sep, b, k);
    DropTrailingEmpties([a, b], k);
  }

  /** Two fields only come from the two-field form. */
  lemma TwoFieldFormOfJavaSplit(s: string, sep: char, a: string, b: string)
    requires JavaSplit(s, sep) == [a, b]
    ensures sep !in a && sep !in b && b != [] && TwoFieldForm(s, a, sep, b)
  {
    assert sep in s;
    var fields := SplitAll(s, sep);
    var k := |fields| - 2;
    assert fields == [a, b] + Repeat<string>([], k);
    SplitAllFieldsFree(s, sep);
    assert sep !in fields[0] && sep !in fields[1];
    JoinSplitAll(s, sep);
    JoinTrailingEmpties(b, sep, k);
    assert fields[1..] == [b] + Repeat<string>([], k);
    assert s == a + [sep] + (b + Repeat(sep, k));
  }

  /**
   * Java's split yields exactly the two fields `a` and `b` if and only if the
   * string is `a`, the separator, a non-empty `b` and any number of further
   * separators, neither field holding the separator: `"05:30:"` splits into
   * two fields and `"05:"` into one.
   */
  lemma JavaSplitTwoFields(s: string, sep: char, a: string, b: string)
    ensures JavaSplit(s, sep) == [a, b] <==>
            sep !in a && sep !in b && b != [] && TwoFieldForm(s, a, sep, b)
  {
    if sep !in a && sep !in b && b != [] && TwoFieldForm(s, a, sep, b) {
      JavaSplitOfTwoFieldForm(s, sep, a, b);
    }
    if JavaSplit(s, sep) == [a, b] {
      TwoFieldFormOfJavaSplit(s, sep, a, b);
    }
  }
}
