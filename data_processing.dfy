/**
 * The data-preparation script: the timetable's "h m" cells are normalised
 * to `HH:MM` (adding 12 to afternoon hours), and the finished table is
 * written out as one SQL `INSERT` statement.
 */
module DataProcessing {
  import opened Wrappers
  import opened Text
  import opened PythonLang

  /** A table cell: pandas' missing value, or a string. */
  datatype Cell = NA | Text(s: string)

  /** The Python exceptions the conversions can raise. */
  datatype PyError =
    | ValueError(literal: string)   // `int()` of a field that is not an integer
    | IndexError                    // `parts[1]` of a one-field split

  // ---------------------------------------------------------------------
  // process_am_time / process_pm_time
  // ---------------------------------------------------------------------

  /**
   * The shared first half of both conversions: strip, split on every single
   * space, then `int(parts[0])` and `int(parts[1])` in that order. `split`
   * always yields at least one field, so the hour is read before the field
   * count can fail.
   */
  function ReadHourMinute(s: string): (r: Result<(int, int), PyError>)
    ensures r.Success? ==> ' ' in Strip(s)
    ensures r == Failure(IndexError) ==> ' ' !in Strip(s) && Int(Strip(s)).Some?
  {
    SplitAllOneField(Strip(s), ' ');
    IntStrip(s);
    var parts := SplitAll(Strip(s), ' ');
    match Int(parts[0])
    case None => Failure(ValueError(parts[0]))
    case Some(hour) =>
      if |parts| < 2 then Failure(IndexError)
      else
        match Int(parts[1])
        case None => Failure(ValueError(parts[1]))
        case Some(minute) => Success((hour, minute))
  }

  /** `f"{hour:02d}:{minute:02d}"`. */
  function Clock(hour: int, minute: int): (r: string)
    ensures |r| >= 5 && |Format02(hour)| < |r| && r[|Format02(hour)|] == ':'
  {
    Format02(hour) + ":" + Format02(minute)
  }

  /** `process_am_time`: a missing cell comes back unchanged, anything else is rewritten as `HH:MM`. */
  function ProcessAmTime(cell: Cell): (r: Result<Cell, PyError>)
    ensures (r.Success? && r.value.NA?) <==> cell.NA?
  {
    match cell
    case NA => Success(NA)
    case Text(s) =>
      var hm :- ReadHourMinute(s);
      Success(Text(Clock(hm.0, hm.1)))
  }

  /** The hour `process_pm_time` writes: 12 is added to hours below 12. */
  function AfternoonHour(hour: int): (h: int)
    ensures hour >= 0 ==> h >= 12
    ensures (h - hour) % 12 == 0
  {
    if hour < 12 then hour + 12 else hour
  }

  /** `process_pm_time`: as `process_am_time`, with the hour moved into the afternoon. */
  function ProcessPmTime(cell: Cell): (r: Result<Cell, PyError>)
    ensures (r.Success? && r.value.NA?) <==> cell.NA?
  {
    match cell
    case NA => Success(NA)
    case Text(s) =>
      var hm :- ReadHourMinute(s);
      Success(Text(Clock(AfternoonHour(hm.0), hm.1)))
  }

  // ---------------------------------------------------------------------
  // convert_to_sql
  // ---------------------------------------------------------------------

  /** A table: its column names and its rows, each row holding one cell per column. */
  datatype DataFrame = DataFrame(columns: seq<string>, rows: seq<seq<Cell>>)

  predicate WellFormed(df: DataFrame) {
    forall i :: 0 <= i < |df.rows| ==> |df.rows[i]| == |df.columns|
  }

  /** `f'"{col}"'`. */
  function Quoted(col: string): string {
    "\"" + col + "\""
  }

  /** The column list of the statement: every name quoted, in column order, joined by ", ". */
  function ColumnList(columns: seq<string>): string {
    Join(", ", seq(|columns|, i requires 0 <= i < |columns| => Quoted(columns[i])))
  }

  /** One value as SQL: `NULL` for a missing cell, otherwise the text in single quotes, unescaped. */
  function RenderValue(cell: Cell): string {
    match cell
    case NA => "NULL"
    case Text(s) => "'" + s + "'"
  }

  /** The rendered values of one row, in column order. */
  function RenderRow(row: seq<Cell>): (values: seq<string>)
    ensures |values| == |row|
  {
    seq(|row|, j requires 0 <= j < |row| => RenderValue(row[j]))
  }

  /** One row's tuple: a tab, then the values joined by ", " inside parentheses. */
  function TupleText(row: seq<Cell>): string {
    "\t(" + Join(", ", RenderRow(row)) + ")"
  }

  /** The tuples of all rows, in row order. */
  function Tuples(rows: seq<seq<Cell>>): (tuples: seq<string>)
    ensures |tuples| == |rows|
  {
    seq(|rows|, i requires 0 <= i < |rows| => TupleText(rows[i]))
  }

  const InsertPrefix: string := "INSERT INTO prayer_timings ("

  /** The statement `convert_to_sql` returns for a table. */
  function SqlText(df: DataFrame): (sql: string)
    ensures |sql| > |InsertPrefix| && sql[..|InsertPrefix|] == InsertPrefix && sql[|sql| - 1] == ';'
  {
    InsertPrefix + ColumnList(df.columns) + ")\nVALUES\n" + Join(",\n", Tuples(df.rows)) + ";"
  }

  /**
   * `convert_to_sql`: the outer loop walks the rows in order and the inner
   * loop the columns, collecting each tuple's values before they are joined.
   */
  method ConvertToSql(df: DataFrame) returns (sql: string)
    requires WellFormed(df)
    ensures sql == SqlText(df)
  {
    var columns := ColumnList(df.columns);
    var insertStatements: seq<string> := [];
    var i := 0;
    while i < |df.rows|
      invariant 0 <= i <= |df.rows|
      invariant insertStatements == Tuples(df.rows[..i])
    {
      var row := df.rows[i];
      var values: seq<string> := [];
      var j := 0;
      while j < |df.columns|
        invariant 0 <= j <= |df.columns|
        invariant values == RenderRow(row[..j])
      {
        var val := row[j];
        if val.NA? {
          values := values + ["NULL"];
        } else {
          values := values + ["'" + val.s + "'"];
        }
        assert row[..j + 1] == row[..j] + [val];
        j := j + 1;
      }
      assert row[..j] == row;
      var valuesStr := Join(", ", values);
      var statement := "\t(" + valuesStr + ")";
      insertStatements := insertStatements + [statement];
      assert df.rows[..i + 1] == df.rows[..i] + [row];
      i := i + 1;
    }
    assert df.rows[..i] == df.rows;
    sql := "INSERT INTO prayer_timings (" + columns + ")\nVALUES\n" + Join(",\n", insertStatements) + ";";
  }
}
