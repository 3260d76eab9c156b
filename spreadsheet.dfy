/**
  * The Apache POI view of an uploaded workbook that the import reads (the first sheet, its rows
  * and typed cells) and the service's coercions of a cell to text, to a number and to a date.
  */
module Spreadsheet {
  import opened Wrappers
  import opened Text
  import opened Dates
  import opened Entity

  /** The value a formula cell last evaluated to, as stored in the file. */
  datatype CachedResult = CachedNumber(number: real) | CachedText(text: string) | CachedBoolean(flag: bool) | CachedError

  /** A present cell, by `CellType`: STRING, NUMERIC, BOOLEAN, FORMULA, or BLANK/ERROR. */
  datatype CellValue =
    | StringCell(text: string)
    | NumericCell(number: real)
    | BooleanCell(flag: bool)
    | FormulaCell(formula: string, cached: CachedResult)
    | OtherCell

  /** `row.getCell(k)`: None for a cell the row does not define. */
  type Cell = Option<CellValue>

  datatype Row = Row(cells: seq<Cell>)

  /** The first sheet: entry `i` is `sheet.getRow(i)`, and `|sheet|` is `getLastRowNum() + 1`. */
  type Sheet = seq<Option<Row>>

  /**
    * What the import takes from outside: the current date, `Double.parseDouble` (None where it
    * throws `NumberFormatException`) and POI's conversion of a date serial number (None where
    * POI has no date for it).
    */
  datatype Env = Env(today: Date, parseDouble: string -> Option<real>, excelDate: real -> Option<Date>)

  function GetCell(row: Row, k: nat): (c: Cell)
    ensures k >= |row.cells| ==> c.None?
  {
    if k < |row.cells| then row.cells[k] else None
  }

  /** The Java `(int)` cast of a double in the int range: truncation toward zero. */
  function Truncate(x: real): (n: int)
    ensures x >= 0.0 ==> 0 <= n && n as real <= x < n as real + 1.0
    ensures x < 0.0 ==> n <= 0 && n as real - 1.0 < x <= n as real
  {
    if x >= 0.0 then x.Floor else -((-x).Floor)
  }

  /** Whole numbers pass through the cast unchanged. */
  lemma TruncateWhole(n: int)
    ensures Truncate(n as real) == n
  {
  }

  /**
    * `getCellStringValue(cell)`. The text of a string cell comes out trimmed, with no removable
    * char at either end; a number or a boolean never reads as a blank name, so only a missing,
    * string, formula or other cell can.
    */
  function CellStringValue(c: Cell): (s: string)
    ensures c.Some? && (c.value.NumericCell? || c.value.BooleanCell?) ==> !IsBlank(s)
    ensures c.Some? && c.value.StringCell? ==> Trim(s) == s && HasSolidEnds(s)
  {
    match c
    case None => ""
    case Some(StringCell(t)) => TrimmedText(t)
    case Some(NumericCell(v)) => WholeNumberText(v)
    case Some(BooleanCell(b)) => BooleanText(b)
    case Some(FormulaCell(formula, _)) => formula
    case Some(OtherCell) => ""
  }

  /** `text.trim()`: trimming it again changes nothing. */
  function TrimmedText(t: string): (r: string)
    ensures Trim(r) == r && HasSolidEnds(r)
  {
    TrimIdempotent(t);
    Trim(t)
  }

  /** `String.valueOf((int) v)`. */
  function WholeNumberText(v: real): (r: string)
    ensures !IsBlank(r)
  {
    IntToStringNotBlank(Truncate(v));
    IntToString(Truncate(v))
  }

  /** `String.valueOf(boolean)`. */
  function BooleanText(b: bool): (r: string)
    ensures !IsBlank(r)
  {
    var r := if b then "true" else "false";
    BlankIffAllTrimmable(r);
    r
  }

  /**
    * `getCellNumericValue(cell)`. A non-zero number can only come from a numeric cell, a
    * parsable string or a formula's cached number; every other cell reads as 0.
    */
  function CellNumericValue(c: Cell, env: Env): (v: real)
    ensures v != 0.0 ==>
      c.Some? && (c.value.NumericCell?
                  || (c.value.StringCell? && env.parseDouble(Trim(c.value.text)).Some?)
                  || (c.value.FormulaCell? && c.value.cached.CachedNumber?))
  {
    match c
    case None => 0.0
    case Some(NumericCell(v)) => v
    case Some(StringCell(t)) => env.parseDouble(Trim(t)).GetOr(0.0)
    case Some(FormulaCell(_, CachedNumber(v))) => v
    case Some(FormulaCell(_, _)) => 0.0
    case Some(_) => 0.0
  }

  /**
    * The date the import gives a row: a numeric cell through POI's date conversion, any other
    * cell read by `getStringCellValue` and `LocalDate.parse` with `yyyy-MM-dd`; a missing cell,
    * a cell whose text cannot be read, and any failed conversion give today. So any date other
    * than today was read from a number, or parsed from the cell's text.
    */
  function CellDate(c: Cell, env: Env): (d: Date)
    ensures d != env.today ==>
      c.Some? && ((c.value.NumericCell? && env.excelDate(c.value.number) == Some(d))
                  || (c.value.StringCell? && Parse(c.value.text) == Some(d))
                  || (c.value.FormulaCell? && c.value.cached.CachedText? && Parse(c.value.cached.text) == Some(d)))
  {
    match c
    case None => env.today
    case Some(NumericCell(v)) => env.excelDate(v).GetOr(env.today)
    case Some(StringCell(t)) => Parse(t).GetOr(env.today)
    case Some(FormulaCell(_, CachedText(t))) => Parse(t).GetOr(env.today)
    case Some(_) => env.today
  }

  /** A string cell holding a date written as `yyyy-MM-dd` yields exactly that date. */
  lemma FormattedDateCellRead(d: Date, env: Env)
    ensures CellDate(Some(StringCell(Format(d))), env) == d
  {
    FormatParse(d);
  }

  /** Within the modelled years, a text that is not ten characters long never parses, so the row is dated today. */
  lemma MisshapenDateTextGivesToday(t: string, env: Env)
    requires |t| != 10
    ensures CellDate(Some(StringCell(t)), env) == env.today
  {
  }

  /**
    * The entity the import builds from a row before validation: None when the name is blank
    * (the row is skipped); otherwise the name as read, the row's date, and the numeric columns
    * with the scores and task counts cast to `int`.
    */
  function Candidate(row: Row, env: Env): (f: Option<Fields>)
    ensures f.None? <==> IsBlank(CellStringValue(GetCell(row, 0)))
    ensures f.Some? ==>
      && HasAllColumns(f.value) && f.value.id.None?
      && f.value.studentName == Some(CellStringValue(GetCell(row, 0)))
      && f.value.assessmentDate == Some(CellDate(GetCell(row, 1), env))
      && f.value.disciplineScore == Some(Truncate(CellNumericValue(GetCell(row, 2), env)))
      && f.value.skillCompletionRate == Some(CellNumericValue(GetCell(row, 3), env))
      && f.value.tasksCompleted == Some(Truncate(CellNumericValue(GetCell(row, 4), env)))
      && f.value.totalTasks == Some(Truncate(CellNumericValue(GetCell(row, 5), env)))
  {
    var name := CellStringValue(GetCell(row, 0));
    if IsBlank(name) then None
    else Some(Fields(
      None,
      Some(name),
      Some(CellDate(GetCell(row, 1), env)),
      Some(Truncate(CellNumericValue(GetCell(row, 2), env))),
      Some(CellNumericValue(GetCell(row, 3), env)),
      Some(Truncate(CellNumericValue(GetCell(row, 4), env))),
      Some(Truncate(CellNumericValue(GetCell(row, 5), env)))))
  }

  /** A score written as text that `Double.parseDouble` refuses becomes 0 in the candidate. */
  lemma UnparsableScoreBecomesZero(row: Row, env: Env)
    requires Candidate(row, env).Some?
    requires GetCell(row, 2).Some? && GetCell(row, 2).value.StringCell?
    requires env.parseDouble(Trim(GetCell(row, 2).value.text)).None?
    ensures Candidate(row, env).value.disciplineScore == Some(0)
  {
  }
}
