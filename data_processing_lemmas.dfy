/** What the data-preparation script promises, and how its output meets the service's parser. */
module DataProcessingLemmas {
  import opened Wrappers
  import opened Text
  import opened PythonLang
  import opened DataProcessing
  import JavaLang
  import JavaTime
  import PrayerModel
  import Service
  import ServiceLemmas

  // ---------------------------------------------------------------------
  // Reading "h m"
  // ---------------------------------------------------------------------

  /** Decimal digits hold no space. */
  lemma DigitsUnspacedChars(d: string)
    requires d != [] && AllDigits(d)
    ensures ' ' !in d && !IsSpace(d[0]) && !IsSpace(d[|d| - 1])
  {
    forall k | 0 <= k < |d|
      ensures d[k] != ' ' && !IsSpace(d[k])
    {
      assert IsDigit(d[k]);
    }
  }

  lemma DecimalUnspaced(n: nat)
    ensures ' ' !in Decimal(n) && !IsSpace(Decimal(n)[0]) && !IsSpace(Decimal(n)[|Decimal(n)| - 1])
  {
    DigitsUnspacedChars(Decimal(n));
  }

  /** The first two space-separated fields of `d + " " + e + tail` are `d` and `e`. */
  lemma SplitDigitFields(d: string, e: string, tail: string)
    requires ' ' !in d && ' ' !in e
    requires tail == [] || tail[0] == ' '
    ensures var parts := SplitAll(d + " " + e + tail, ' ');
            |parts| >= 2 && parts[0] == d && parts[1] == e
  {
    assert d + " " + e + tail == d + [' '] + (e + tail);
    SplitAllFirstField(d, ' ', e + tail);
    if tail == [] {
      assert e + tail == e;
      SplitAllNoSeparator(e, ' ');
    } else {
      assert e + tail == e + [' '] + tail[1..];
      SplitAllFirstField(e, ' ', tail[1..]);
    }
  }

  lemma IntDecimal(n: nat)
    ensures Int(Decimal(n)) == Some(n)
  {
    DecimalValue(n);
    IntDigits(Decimal(n));
  }

  /** ReadHourMinute depends only on the fields of the stripped cell. */
  lemma ReadOfFields(s: string, h: int, m: int)
    requires var parts := SplitAll(Strip(s), ' ');
             |parts| >= 2 && Int(parts[0]) == Some(h) && Int(parts[1]) == Some(m)
    ensures ReadHourMinute(s) == Success((h, m))
  {
  }

  /** The cell `front + d + " " + e + tail + back`, digits `d` and `e` and whitespace around, reads as their values. */
  lemma ReadDigitFields(s: string, front: string, d: string, e: string, tail: string, back: string, h: int, m: int)
    requires s == front + d + " " + e + tail + back
    requires AllSpace(front) && AllSpace(back)
    requires d != [] && e != [] && AllDigits(d) && AllDigits(e) && DigitsValue(d) == h && DigitsValue(e) == m
    requires tail == [] || (tail[0] == ' ' && !IsSpace(tail[|tail| - 1]))
    ensures ReadHourMinute(s) == Success((h, m))
  {
    StripDigitCell(s, front, d, e, tail, back);
    DigitsUnspacedChars(d);
    DigitsUnspacedChars(e);
    SplitDigitFields(d, e, tail);
    IntDigits(d);
    IntDigits(e);
    ReadOfFields(s, h, m);
  }

  lemma StripDigitCell(s: string, front: string, d: string, e: string, tail: string, back: string)
    requires s == front + d + " " + e + tail + back
    requires AllSpace(front) && AllSpace(back)
    requires d != [] && e != [] && AllDigits(d) && AllDigits(e)
    requires tail == [] || (tail[0] == ' ' && !IsSpace(tail[|tail| - 1]))
    ensures Strip(s) == d + " " + e + tail
  {
    DigitsUnspacedChars(d);
    DigitsUnspacedChars(e);
    var core := d + " " + e + tail;
    assert core[0] == d[0];
    assert core[|core| - 1] == if tail == [] then e[|e| - 1] else tail[|tail| - 1];
    assert s == front + core + back;
    StripPadded(front, core, back);
  }

  /** The unpadded cell `d + " " + e` reads as the values of the two digit strings. */
  lemma ReadTwoFields(d: string, e: string, h: int, m: int)
    requires d != [] && e != [] && AllDigits(d) && AllDigits(e) && DigitsValue(d) == h && DigitsValue(e) == m
    ensures ReadHourMinute(d + " " + e) == Success((h, m))
  {
    var s := d + " " + e;
    DigitsUnspacedChars(d);
    DigitsUnspacedChars(e);
    assert s[0] == d[0] && s[|s| - 1] == e[|e| - 1];
    StripTrimmed(s);
    assert s == d + [' '] + e;
    SplitAllFirstField(d, ' ', e);
    SplitAllNoSeparator(e, ' ');
    IntDigits(d);
    IntDigits(e);
    ReadOfFields(s, h, m);
  }

  /**
   * Whitespace around the cell is stripped, the first two fields are read as
   * the hour and the minute, and any further space-separated fields are
   * ignored.
   */
  lemma ReadDecimalFields(front: string, h: nat, m: nat, tail: string, back: string)
    requires AllSpace(front) && AllSpace(back)
    requires tail == [] || (tail[0] == ' ' && !IsSpace(tail[|tail| - 1]))
    ensures ReadHourMinute(front + Decimal(h) + " " + Decimal(m) + tail + back) == Success((h, m))
  {
    DecimalValue(h);
    DecimalValue(m);
    ReadDigitFields(front + Decimal(h) + " " + Decimal(m) + tail + back, front, Decimal(h), Decimal(m), tail, back, h, m);
  }

  /** A cell holding one integer and no space: the hour is read, then `parts[1]` raises `IndexError`. */
  lemma OneField(s: string)
    requires ' ' !in Strip(s) && Int(s).Some?
    ensures ReadHourMinute(s) == Failure(IndexError)
  {
    SplitAllNoSeparator(Strip(s), ' ');
    IntStrip(s);
  }

  /** A cell whose first field is not an integer raises on the hour, whatever follows. */
  lemma HourReadFirst(a: string, rest: string)
    requires ' ' !in a && Int(a).None?
    requires Strip(a + " " + rest) == a + " " + rest
    ensures ReadHourMinute(a + " " + rest) == Failure(ValueError(a))
  {
    assert a + " " + rest == a + [' '] + rest;
    SplitAllFirstField(a, ' ', rest);
  }

  /** Two spaces in a row leave an empty minute field, which `int` rejects. */
  lemma DoubleSpace(d: string, e: string)
    requires d != [] && e != [] && AllDigits(d) && AllDigits(e)
    ensures ReadHourMinute(d + "  " + e) == Failure(ValueError(""))
  {
    var s := d + "  " + e;
    DoubleSpaceStrip(d, e);
    DoubleSpaceSplit(d, e);
    var parts := SplitAll(Strip(s), ' ');
    assert parts == [d, [], e];
    IntDigits(d);
    IntEmpty();
    assert parts[1] == [];
  }

  lemma IntEmpty()
    ensures Int([]) == None
  {
    assert Strip([]) == [];
  }

  lemma DoubleSpaceStrip(d: string, e: string)
    requires d != [] && e != [] && AllDigits(d) && AllDigits(e)
    ensures Strip(d + "  " + e) == d + "  " + e
  {
    var s := d + "  " + e;
    assert IsDigit(d[0]) && IsDigit(e[|e| - 1]);
    assert s[0] == d[0] && s[|s| - 1] == e[|e| - 1];
    StripTrimmed(s);
  }

  lemma DoubleSpaceSplit(d: string, e: string)
    requires AllDigits(d) && AllDigits(e)
    ensures SplitAll(d + "  " + e, ' ') == [d, [], e]
  {
    assert ' ' !in d by {
      forall k | 0 <= k < |d| ensures d[k] != ' ' { assert IsDigit(d[k]); }
    }
    assert ' ' !in e by {
      forall k | 0 <= k < |e| ensures e[k] != ' ' { assert IsDigit(e[k]); }
    }
    var b := [' '] + e;
    assert d + "  " + e == d + [' '] + b;
    SplitAllFirstField(d, ' ', b);
    assert b == [] + [' '] + e;
    SplitAllFirstField([], ' ', e);
    SplitAllNoSeparator(e, ' ');
  }

  // ---------------------------------------------------------------------
  // The two conversions
  // ---------------------------------------------------------------------

  /** `process_am_time` on "h m" (padded, with extra fields) writes `{h:02d}:{m:02d}`. */
  lemma AmConversion(front: string, h: nat, m: nat, tail: string, back: string)
    requires AllSpace(front) && AllSpace(back)
    requires tail == [] || (tail[0] == ' ' && !IsSpace(tail[|tail| - 1]))
    ensures ProcessAmTime(Text(front + Decimal(h) + " " + Decimal(m) + tail + back)) == Success(Text(Clock(h, m)))
  {
    ReadDecimalFields(front, h, m, tail, back);
  }

  /** `process_pm_time` on the same input writes the afternoon hour instead. */
  lemma PmConversion(front: string, h: nat, m: nat, tail: string, back: string)
    requires AllSpace(front) && AllSpace(back)
    requires tail == [] || (tail[0] == ' ' && !IsSpace(tail[|tail| - 1]))
    ensures ProcessPmTime(Text(front + Decimal(h) + " " + Decimal(m) + tail + back)) ==
            Success(Text(Clock(AfternoonHour(h), m)))
  {
    ReadDecimalFields(front, h, m, tail, back);
  }

  /** `process_am_time` on digit fields of any form, zero-padded or not, writes their values as `{h:02d}:{m:02d}`. */
  lemma AmDigitsConversion(front: string, d: string, e: string, tail: string, back: string)
    requires AllSpace(front) && AllSpace(back)
    requires d != [] && e != [] && AllDigits(d) && AllDigits(e)
    requires tail == [] || (tail[0] == ' ' && !IsSpace(tail[|tail| - 1]))
    ensures ProcessAmTime(Text(front + d + " " + e + tail + back)) ==
            Success(Text(Clock(DigitsValue(d), DigitsValue(e))))
  {
    var s := front + d + " " + e + tail + back;
    ReadDigitFields(s, front, d, e, tail, back, DigitsValue(d), DigitsValue(e));
  }

  /** `process_pm_time` on the same input writes the afternoon hour instead. */
  lemma PmDigitsConversion(front: string, d: string, e: string, tail: string, back: string)
    requires AllSpace(front) && AllSpace(back)
    requires d != [] && e != [] && AllDigits(d) && AllDigits(e)
    requires tail == [] || (tail[0] == ' ' && !IsSpace(tail[|tail| - 1]))
    ensures ProcessPmTime(Text(front + d + " " + e + tail + back)) ==
            Success(Text(Clock(AfternoonHour(DigitsValue(d)), DigitsValue(e))))
  {
    var s := front + d + " " + e + tail + back;
    ReadDigitFields(s, front, d, e, tail, back, DigitsValue(d), DigitsValue(e));
  }

  /** A morning cell already written as two zero-padded pairs, such as "05 07", keeps its digits: "05:07". */
  lemma PaddedMorningCell(h: nat, m: nat)
    requires h < 100 && m < 100
    ensures ProcessAmTime(Text(Pad2(h) + " " + Pad2(m))) == Success(Text(Pad2(h) + ":" + Pad2(m)))
  {
    assert Pad2(h) + " " + Pad2(m) == [] + Pad2(h) + " " + Pad2(m) + [] + [];
    AmDigitsConversion([], Pad2(h), Pad2(m), [], []);
    ClockTwoDigits(h, m);
  }

  /** Both conversions fail exactly as the reading of the fields does, and agree on the minute. */
  lemma ConversionsAgree(s: string)
    ensures ProcessAmTime(Text(s)).Failure? <==> ReadHourMinute(s).Failure?
    ensures ProcessPmTime(Text(s)).Failure? <==> ReadHourMinute(s).Failure?
    ensures ReadHourMinute(s).Failure? ==>
              ProcessAmTime(Text(s)).error == ReadHourMinute(s).error &&
              ProcessPmTime(Text(s)).error == ReadHourMinute(s).error
    ensures ReadHourMinute(s).Success? && ReadHourMinute(s).value.0 >= 12 ==>
              ProcessAmTime(Text(s)) == ProcessPmTime(Text(s))
  {
  }

  /** For values 0..99 each side of the colon is exactly two digits. */
  lemma ClockTwoDigits(h: nat, m: nat)
    requires h < 100 && m < 100
    ensures Clock(h, m) == Pad2(h) + ":" + Pad2(m) && |Clock(h, m)| == 5
  {
  }

  /** Morning hours 0..11 move to 12..23; 12 and later stay; so a day's hour always lands in 12..23. */
  lemma AfternoonRange(h: int)
    ensures 0 <= h < 12 ==> 12 <= AfternoonHour(h) < 24 && AfternoonHour(h) - 12 == h
    ensures 12 <= h ==> AfternoonHour(h) == h
    ensures 0 <= h ==> AfternoonHour(AfternoonHour(h)) == AfternoonHour(h)
  {
  }

  /** `{:02d}` writes digits and at most a minus sign, never a colon or a space. */
  lemma FormatPlain(n: int)
    ensures ':' !in Format02(n) && ' ' !in Format02(n)
  {
    var s := Format02(n);
    if n < 0 {
      assert s == "-" + Decimal(-n);
      DecimalUnspaced(-n);
      forall k | 0 <= k < |s|
        ensures s[k] != ':'
      {
        if k > 0 {
          assert s[k] == Decimal(-n)[k - 1];
          assert IsDigit(Decimal(-n)[k - 1]);
        }
      }
    } else {
      assert AllDigits(s) by {
        if n < 100 {
          assert s == Pad2(n);
        } else {
          assert s == Decimal(n);
        }
      }
      forall k | 0 <= k < |s|
        ensures s[k] != ':' && s[k] != ' '
      {
        assert IsDigit(s[k]);
      }
    }
  }

  /** What a conversion writes reads back: splitting at the colon and `int` give the hour and minute. */
  lemma ClockReadsBack(h: int, m: int)
    ensures SplitAll(Clock(h, m), ':') == [Format02(h), Format02(m)]
    ensures Int(Format02(h)) == Some(h) && Int(Format02(m)) == Some(m)
  {
    FormatPlain(h);
    FormatPlain(m);
    assert Clock(h, m) == Format02(h) + [':'] + Format02(m);
    SplitAllFirstField(Format02(h), ':', Format02(m));
    SplitAllNoSeparator(Format02(m), ':');
    FormatRoundTrip(h);
    FormatRoundTrip(m);
  }

  // ---------------------------------------------------------------------
  // The script's output read by the service
  // ---------------------------------------------------------------------

  /** An hour and minute in range, as written by either conversion, parse in the service to that time of day. */
  lemma ClockAccepted(h: nat, m: nat)
    requires h < 24 && m < 60
    ensures Service.ConvertTime(Clock(h, m)) == Success(JavaTime.Of(h, m))
  {
    JavaLang.ParseIntPad2(h);
    JavaLang.ParseIntPad2(m);
    assert Clock(h, m) == Pad2(h) + [':'] + Pad2(m) + JavaLang.Repeat(':', 0);
    ServiceLemmas.ConvertTimeOfFields(Pad2(h), Pad2(m), 0);
  }

  /** A morning cell "h m" with h in 0..23 and m in 0..59 is stored as a time the service reads as h:m. */
  lemma MorningStored(h: nat, m: nat)
    requires h < 24 && m < 60
    ensures ProcessAmTime(Text(Decimal(h) + " " + Decimal(m))).Success?
    ensures var out := ProcessAmTime(Text(Decimal(h) + " " + Decimal(m))).value;
            out.Text? && Service.ConvertTime(out.s) == Success(JavaTime.Of(h, m))
  {
    assert [] + Decimal(h) + " " + Decimal(m) + [] + [] == Decimal(h) + " " + Decimal(m);
    AmConversion([], h, m, [], []);
    ClockAccepted(h, m);
  }

  /** An afternoon cell "h m" with h in 0..23 and m in 0..59 is read by the service as an afternoon time. */
  lemma AfternoonStored(h: nat, m: nat)
    requires h < 24 && m < 60
    ensures ProcessPmTime(Text(Decimal(h) + " " + Decimal(m))).Success?
    ensures var out := ProcessPmTime(Text(Decimal(h) + " " + Decimal(m))).value;
            out.Text? && Service.ConvertTime(out.s) == Success(JavaTime.Of(AfternoonHour(h), m))
    ensures 12 <= AfternoonHour(h) < 24
  {
    var a := AfternoonHour(h);
    PmPlain(h, m);
    ClockAccepted(a, m);
  }

  lemma PmPlain(h: nat, m: nat)
    ensures ProcessPmTime(Text(Decimal(h) + " " + Decimal(m))) == Success(Text(Clock(AfternoonHour(h), m)))
  {
    ReadPlain(h, m);
  }

  lemma ReadPlain(h: nat, m: nat)
    ensures ReadHourMinute(Decimal(h) + " " + Decimal(m)) == Success((h, m))
  {
    DecimalValue(h);
    DecimalValue(m);
    ReadTwoFields(Decimal(h), Decimal(m), h, m);
  }

  /** The conversions check no range: "25 70" is written as "25:70", which the service then rejects. */
  lemma OutOfRangePassesThrough()
    ensures ProcessAmTime(Text(Decimal(25) + " " + Decimal(70))) == Success(Text(Pad2(25) + ":" + Pad2(70)))
    ensures Service.ConvertTime(Pad2(25) + ":" + Pad2(70)) == Failure(PrayerModel.InvalidHour)
  {
    assert [] + Decimal(25) + " " + Decimal(70) + [] + [] == Decimal(25) + " " + Decimal(70);
    AmConversion([], 25, 70, [], []);
    JavaLang.ParseIntPad2(25);
    assert Pad2(25) + ":" + Pad2(70) == Pad2(25) + [':'] + Pad2(70) + JavaLang.Repeat(':', 0);
    ServiceLemmas.ConvertTimeOfFields(Pad2(25), Pad2(70), 0);
  }

  // ---------------------------------------------------------------------
  // The SQL statement
  // ---------------------------------------------------------------------

  /** Reads one rendered value back: `NULL`, or the text between the outer single quotes. */
  function UnrenderValue(v: string): (cell: Option<Cell>)
  {
    if v == "NULL" then Some(NA)
    else if |v| >= 2 && v[0] == '\'' && v[|v| - 1] == '\'' then Some(Text(v[1..|v| - 1]))
    else None
  }

  /** Rendering loses no cell: the rendered value reads back as the cell it came from. */
  lemma RenderRoundTrip(cell: Cell)
    ensures UnrenderValue(RenderValue(cell)) == Some(cell)
  {
    match cell
    case NA =>
    case Text(s) =>
      var v := RenderValue(cell);
      assert v[0] == '\'' && v[|v| - 1] == '\'';
      assert v != "NULL" by {
        assert "NULL"[0] == 'N';
      }
      assert v[1..|v| - 1] == s;
  }

  /** A value renders as `NULL` exactly when the cell is missing; a text cell is never mistaken for it. */
  lemma RenderNull(cell: Cell)
    ensures RenderValue(cell) == "NULL" <==> cell.NA?
  {
    RenderRoundTrip(cell);
  }

  lemma JoinTwo(sep: string, a: string, b: string)
    ensures Join(sep, [a, b]) == a + sep + b
  {
    assert [a, b][1..] == [b];
  }

  /** The tuple of a two-cell text row. */
  lemma TupleOfTwo(a: string, b: string)
    ensures TupleText([Text(a), Text(b)]) == "\t(" + ("'" + a + "'" + ", " + "'" + b + "'") + ")"
  {
    assert RenderRow([Text(a), Text(b)]) == ["'" + a + "'", "'" + b + "'"];
    JoinTwo(", ", "'" + a + "'", "'" + b + "'");
  }

  /**
   * Quotes inside a value are not escaped, so two different rows can give
   * the same tuple: a quote, comma and space inside a value read as a
   * boundary between values.
   */
  lemma UnescapedQuotesCollide(x: string, y: string, z: string)
    ensures [Text(x + "', '" + y), Text(z)] != [Text(x), Text(y + "', '" + z)]
    ensures TupleText([Text(x + "', '" + y), Text(z)]) == TupleText([Text(x), Text(y + "', '" + z)])
  {
    assert |x + "', '" + y| > |x|;
    TupleOfTwo(x + "', '" + y, z);
    TupleOfTwo(x, y + "', '" + z);
    assert "'" + (x + "', '" + y) + "'" + ", " + "'" + z + "'" == "'" + x + "'" + ", " + "'" + (y + "', '" + z) + "'";
  }

  /** A row's tuple written out: its values in column order between `\t(` and `)`. */
  lemma TupleAppend(row: seq<Cell>, cell: Cell)
    requires row != []
    ensures TupleText(row + [cell]) == "\t(" + Join(", ", RenderRow(row)) + ", " + RenderValue(cell) + ")"
  {
    assert RenderRow(row + [cell]) == RenderRow(row) + [RenderValue(cell)];
    JoinAppend(", ", RenderRow(row), RenderValue(cell));
  }

  /** The column list grows by one quoted name, after a comma, for each further column. */
  lemma ColumnListAppend(columns: seq<string>, col: string)
    requires columns != []
    ensures ColumnList(columns + [col]) == ColumnList(columns) + ", " + "\"" + col + "\""
  {
    var quoted := seq(|columns|, i requires 0 <= i < |columns| => Quoted(columns[i]));
    assert seq(|columns + [col]|, i requires 0 <= i < |columns + [col]| => Quoted((columns + [col])[i])) == quoted + [Quoted(col)];
    JoinAppend(", ", quoted, Quoted(col));
  }

  /** The statement holds one tuple per row in row order: a further row adds `,\n` and its tuple before the final `;`. */
  lemma SqlAppendRow(df: DataFrame, row: seq<Cell>)
    requires df.rows != []
    ensures SqlText(DataFrame(df.columns, df.rows + [row])) ==
            InsertPrefix + ColumnList(df.columns) + ")\nVALUES\n" + Join(",\n", Tuples(df.rows)) + ",\n" + TupleText(row) + ";"
  {
    assert Tuples(df.rows + [row]) == Tuples(df.rows) + [TupleText(row)];
    JoinAppend(",\n", Tuples(df.rows), TupleText(row));
  }

  /** A table of one row is the header, `VALUES`, that row's tuple and `;`. */
  lemma SqlOneRow(columns: seq<string>, row: seq<Cell>)
    ensures SqlText(DataFrame(columns, [row])) == InsertPrefix + ColumnList(columns) + ")\nVALUES\n" + TupleText(row) + ";"
  {
    assert Tuples([row]) == [TupleText(row)];
  }

  /** A table without rows still gives a statement, with nothing between `VALUES` and `;`. */
  lemma SqlNoRows(columns: seq<string>)
    ensures SqlText(DataFrame(columns, [])) == InsertPrefix + ColumnList(columns) + ")\nVALUES\n;"
  {
    assert Tuples([]) == [];
  }
}
