/** The in-memory tables the pipeline passes between its stages: a data frame is a list of
    column names and a list of rows, each row a map from column name to cell. */
module Tables {
  import opened Strings

  /** One cell of a data frame. `Undef` is pandas' missing value (NaN, NA, NaT). */
  datatype Cell = Undef | Num(x: real) | Str(s: string) | Flag(b: bool) | Date(year: int, month: int, day: int)

  type Row = map<string, Cell>

  datatype Table = Table(columns: seq<string>, rows: seq<Row>)

  /** The errors the core raises; each names what was missing or wrong. */
  datatype Error =
    | MissingColumns(names: seq<string>)      // a list of exactly the absent columns, in request order
    | ColumnsRequired(names: seq<string>)     // a message naming every required column
    | MissingColumnSet(nameSet: set<string>)    // a set of exactly the absent columns
    | ConflictingScope                        // playoffs-only and regular-season-only together
    | NoEraForYear(year: int)
    | EmptyEraDefinitions
    | NotAnInteger(cell: Cell)                // `int(...)` of a value that is not a number
    | InvalidSummary(issueCount: nat)         // a summary that failed validation, with its issue count

  datatype Result<+T> = Success(value: T) | Failure(error: Error) {
    predicate IsFailure() { Failure? }
    function PropagateFailure<U>(): Result<U>
      requires Failure?
    {
      Failure(error)
    }
    function Extract(): T
      requires Success?
    {
      value
    }
  }

  /** The cell of `row` in column `c`; a row without that key reads as missing. */
  function Get(row: Row, c: string): (v: Cell)
    ensures c !in row ==> v == Undef
  {
    if c in row then row[c] else Undef
  }

  /** The numeric value pandas computes with: booleans count as 0 and 1; text, dates and
      missing values give no number. */
  function NumOf(c: Cell): (r: Option<real>)
    ensures c.Num? ==> r == Some(c.x)
    ensures (c.Undef? || c.Str? || c.Date?) ==> r == None
  {
    match c
    case Num(x) => Some(x)
    case Flag(b) => Some(if b then 1.0 else 0.0)
    case _ => None
  }

  predicate IsIntegral(x: real) {
    x.Floor as real == x
  }

  /** `str(value)` as `astype(str)` renders it, where the model can: text as itself, a missing
      value as "nan", booleans as "True"/"False", integral numbers as an integer column
      prints them. Other numbers and dates have no rendering in the model. */
  function AsText(c: Cell): (r: Option<string>)
    ensures c.Str? ==> r == Some(c.s)
    ensures c.Undef? ==> r == Some("nan")
  {
    match c
    case Str(s) => Some(s)
    case Undef => Some("nan")
    case Flag(b) => Some(if b then "True" else "False")
    case Num(x) => if IsIntegral(x) then Some(IntText(x.Floor)) else None
    case Date(_, _, _) => None
  }

  /** The required columns absent from `t`, in the order they were requested. */
  function Missing(t: Table, required: seq<string>): (m: seq<string>)
    ensures forall c :: c in m <==> c in required && c !in t.columns
    ensures m == [] <==> forall c :: c in required ==> c in t.columns
    ensures |m| <= |required|
  {
    if required == [] then []
    else if required[0] in t.columns then Missing(t, required[1..])
    else [required[0]] + Missing(t, required[1..])
  }

  /** The column list after assigning column `name`: an existing column keeps its place,
      a new one is appended. */
  function WithName(columns: seq<string>, name: string): (r: seq<string>)
    ensures name in r
    ensures forall c :: c in r <==> c in columns || c == name
    ensures name in columns ==> r == columns
  {
    if name in columns then columns else columns + [name]
  }

  /** `df[name] = values` on a copy: every row gets the new cell, nothing else changes. */
  function SetColumn(t: Table, name: string, values: seq<Cell>): (r: Table)
    requires |values| == |t.rows|
    ensures r.columns == WithName(t.columns, name)
    ensures |r.rows| == |t.rows|
    ensures forall i :: 0 <= i < |t.rows| ==> r.rows[i] == t.rows[i][name := values[i]]
  {
    Table(WithName(t.columns, name), seq(|t.rows|, i requires 0 <= i < |t.rows| => t.rows[i][name := values[i]]))
  }

  /** Every row has exactly the table's columns, and no column is listed twice. */
  predicate WellFormed(t: Table) {
    && (forall i, j :: 0 <= i < j < |t.columns| ==> t.columns[i] != t.columns[j])
    && (forall k :: 0 <= k < |t.rows| ==> t.rows[k].Keys == set c | c in t.columns)
  }

  lemma SetColumnWellFormed(t: Table, name: string, values: seq<Cell>)
    requires WellFormed(t) && |values| == |t.rows|
    ensures WellFormed(SetColumn(t, name, values))
  {
    var r := SetColumn(t, name, values);
    forall k | 0 <= k < |r.rows|
      ensures r.rows[k].Keys == set c | c in r.columns
    {
      assert r.rows[k] == t.rows[k][name := values[k]];
    }
  }

  // ---- arithmetic on possibly missing numbers: a missing operand gives a missing result ----

  function Add(a: Option<real>, b: Option<real>): (r: Option<real>)
    ensures r.Some? <==> a.Some? && b.Some?
    ensures r.Some? ==> r.value == a.value + b.value
  {
    if a.Some? && b.Some? then Some(a.value + b.value) else None
  }

  function Sub(a: Option<real>, b: Option<real>): (r: Option<real>)
    ensures r.Some? <==> a.Some? && b.Some?
    ensures r.Some? ==> r.value == a.value - b.value
  {
    if a.Some? && b.Some? then Some(a.value - b.value) else None
  }

  function Mul(a: Option<real>, b: Option<real>): (r: Option<real>)
    ensures r.Some? <==> a.Some? && b.Some?
    ensures r.Some? ==> r.value == a.value * b.value
  {
    if a.Some? && b.Some? then Some(a.value * b.value) else None
  }

  function Scale(k: real, a: Option<real>): (r: Option<real>)
    ensures r.Some? <==> a.Some?
    ensures r.Some? ==> r.value == k * a.value
  {
    if a.Some? then Some(k * a.value) else None
  }

  /** Division where a zero denominator gives a missing value: the source's
      `denominator.replace(0, pd.NA)`. */
  function Div(a: Option<real>, b: Option<real>): (r: Option<real>)
    ensures r.Some? <==> a.Some? && b.Some? && b.value != 0.0
    ensures r.Some? ==> r.value * b.value == a.value
  {
    if a.Some? && b.Some? && b.value != 0.0 then Some(a.value / b.value) else None
  }

  function NumCell(v: Option<real>): (c: Cell)
    ensures NumOf(c) == v
    ensures v.None? <==> c == Undef
  {
    if v.Some? then Num(v.value) else Undef
  }
}
