/** The range validator run on a team-season summary: each check inspects one derived metric
    and reports every row whose value is defined and outside the check's inclusive bounds. */
module Validation {
  import opened Strings
  import opened Tables

  /** Inclusive bounds, as `Series.between` tests them. */
  datatype Bounds = Bounds(lo: real, hi: real) {
    predicate Contains(x: real) {
      lo <= x <= hi
    }
  }

  const DefaultPace: Bounds := Bounds(40.0, 150.0)
  const DefaultEfficiency: Bounds := Bounds(70.0, 150.0)
  const DefaultPossessions: Bounds := Bounds(40.0, 150.0)

  /** The checks, in the order the validator runs them; `OutOfBounds` runs for three columns. */
  datatype Check =
    | OutOfBounds(column: string, bounds: Bounds)
    | AveragePossessions(bounds: Bounds)
    | NegativePossessions
    | WinPct

  /** How an issue names its row: team, season and the scope's word. */
  datatype Identifier = Identifier(team: Cell, season: Cell, scope: string)

  /** One reported issue: which check, which row, and the offending value. */
  datatype Issue = Issue(check: Check, ident: Identifier, value: real)

  const IdColumns: seq<string> := ["TEAM_ID", "SEASON_YEAR", "IS_PLAYOFFS"]

  /** Python truthiness of a cell: NaN counts as true, like any non-zero float. */
  predicate Truthy(c: Cell) {
    match c
    case Undef => true
    case Num(x) => x != 0.0
    case Str(s) => |s| > 0
    case Flag(b) => b
    case Date(_, _, _) => true
  }

  /** `_format_identifier`: `row.get` with the defaults "UNKNOWN", "N/A" and not-playoffs. */
  function FormatIdentifier(row: Row): (id: Identifier)
    ensures id.scope == "Playoffs" || id.scope == "Regular"
    ensures "TEAM_ID" in row ==> id.team == row["TEAM_ID"]
    ensures "TEAM_ID" !in row ==> id.team == Str("UNKNOWN")
    ensures "SEASON_YEAR" in row ==> id.season == row["SEASON_YEAR"]
    ensures "SEASON_YEAR" !in row ==> id.season == Str("N/A")
    ensures id.scope == "Playoffs" <==> "IS_PLAYOFFS" in row && Truthy(row["IS_PLAYOFFS"])
  {
    var team := if "TEAM_ID" in row then row["TEAM_ID"] else Str("UNKNOWN");
    var season := if "SEASON_YEAR" in row then row["SEASON_YEAR"] else Str("N/A");
    var playoffs := "IS_PLAYOFFS" in row && Truthy(row["IS_PLAYOFFS"]);
    Identifier(team, season, if playoffs then "Playoffs" else "Regular")
  }

  /** A check runs only when the columns it reads are present. */
  predicate Runs(t: Table, check: Check) {
    match check
    case OutOfBounds(c, _) => c in t.columns
    case AveragePossessions(_) => "TOTAL_EST_POSSESSIONS" in t.columns && "GAMES_PLAYED" in t.columns
    case NegativePossessions => "TOTAL_EST_POSSESSIONS" in t.columns && "GAMES_PLAYED" in t.columns
    case WinPct => "WIN_PCT" in t.columns
  }

  /** `TOTAL_EST_POSSESSIONS / GAMES_PLAYED.replace(0, NA)`: missing when either is missing
      or the games played are 0. */
  function AveragePossessionsOf(row: Row): Option<real> {
    match (NumOf(Get(row, "TOTAL_EST_POSSESSIONS")), NumOf(Get(row, "GAMES_PLAYED")))
    case (Some(total), Some(games)) => if games == 0.0 then None else Some(total / games)
    case _ => None
  }

  lemma AveragePossessionsValue(row: Row, total: real, games: real)
    requires Get(row, "TOTAL_EST_POSSESSIONS") == Num(total) && Get(row, "GAMES_PLAYED") == Num(games) && games != 0.0
    ensures AveragePossessionsOf(row) == Some(total / games)
  {
  }

  /** Outside the bounds, for a defined value; a missing value is never flagged. */
  function Outside(v: Option<real>, b: Bounds): Option<real> {
    match v
    case Some(x) => if b.Contains(x) then None else Some(x)
    case None => None
  }

  /** `< 0`, for a defined value. */
  function NegativeOf(v: Option<real>): Option<real> {
    match v
    case Some(x) => if x < 0.0 then Some(x) else None
    case None => None
  }

  /** The value a check flags in a row, if it flags the row at all (the mask of the source). */
  function Offense(check: Check, row: Row): Option<real> {
    match check
    case OutOfBounds(c, b) => Outside(NumOf(Get(row, c)), b)
    case AveragePossessions(b) => Outside(AveragePossessionsOf(row), b)
    case NegativePossessions => NegativeOf(NumOf(Get(row, "TOTAL_EST_POSSESSIONS")))
    case WinPct => Outside(NumOf(Get(row, "WIN_PCT")), Bounds(0.0, 1.0))
  }

  /** The issues one check reports over `rows`, in row order. */
  function Offenders(rows: seq<Row>, check: Check): (r: seq<Issue>)
    ensures |r| <= |rows|
  {
    if |rows| == 0 then []
    else
      var front := Offenders(rows[..|rows| - 1], check);
      var last := rows[|rows| - 1];
      match Offense(check, last)
      case Some(v) => front + [Issue(check, FormatIdentifier(last), v)]
      case None => front
  }

  /** One check on a table: skipped when its columns are absent; selecting the offenders'
      identifier columns fails, naming the absent ones, when there are offenders to select. */
  function RunCheck(t: Table, check: Check): (r: Result<seq<Issue>>)
  {
    if !Runs(t, check) then Success([])
    else
      var found := Offenders(t.rows, check);
      var missing := Missing(t, IdColumns);
      if |found| > 0 && |missing| > 0 then Failure(MissingColumns(missing)) else Success(found)
  }

  /** `summary.empty`: no rows or no columns. */
  predicate IsEmptyTable(t: Table) {
    |t.rows| == 0 || |t.columns| == 0
  }

  /** The issues found so far, followed by one more check's; an earlier failure stands. */
  function Continue(acc: Result<seq<Issue>>, t: Table, check: Check): (r: Result<seq<Issue>>)
    ensures r == Success([]) <==> acc == Success([]) && RunCheck(t, check) == Success([])
    ensures r.Failure? <==> acc.Failure? || RunCheck(t, check).Failure?
    ensures r.Failure? ==> r.error == (if acc.Failure? then acc.error else RunCheck(t, check).error)
  {
    if acc.Failure? then acc
    else
      match RunCheck(t, check)
      case Failure(e) => Failure(e)
      case Success(found) =>
        assert |acc.value + found| == |acc.value| + |found|;
        Success(acc.value + found)
  }

  /** `validate_team_summary`: every check's issues in check order; the first failing
      selection aborts the whole validation. */
  function Validate(t: Table, pace: Bounds, efficiency: Bounds, possessions: Bounds): (r: Result<seq<Issue>>)
  {
    if IsEmptyTable(t) then Success([])
    else
      var a := Continue(Success([]), t, OutOfBounds("PACE", pace));
      var b := Continue(a, t, OutOfBounds("OFF_EFF_PER_100", efficiency));
      var c := Continue(b, t, OutOfBounds("DEF_EFF_PER_100", efficiency));
      var d := Continue(c, t, AveragePossessions(possessions));
      var e := Continue(d, t, NegativePossessions);
      Continue(e, t, WinPct)
  }

  /** `_flag_out_of_bounds` and its inline siblings: append the offenders of one check to
      the issues found so far. */
  method FlagOffenders(t: Table, check: Check, issues: seq<Issue>) returns (r: Result<seq<Issue>>)
    ensures r == Continue(Success(issues), t, check)
  {
    if !Runs(t, check) {
      assert issues + [] == issues;
      return Success(issues);
    }
    var found: seq<Issue> := [];
    var i := 0;
    while i < |t.rows|
      invariant 0 <= i <= |t.rows|
      invariant found == Offenders(t.rows[..i], check)
    {
      assert t.rows[..i + 1][..i] == t.rows[..i];
      var off := Offense(check, t.rows[i]);
      if off.Some? {
        found := found + [Issue(check, FormatIdentifier(t.rows[i]), off.value)];
      }
      i := i + 1;
    }
    assert t.rows[..|t.rows|] == t.rows;
    var missing := Missing(t, IdColumns);
    if |found| > 0 && |missing| > 0 {
      assert RunCheck(t, check) == Failure(MissingColumns(missing));
      return Failure(MissingColumns(missing));
    }
    assert RunCheck(t, check) == Success(found);
    return Success(issues + found);
  }

  /** The validator, step by step as the source runs it. */
  method ValidateTeamSummary(t: Table, pace: Bounds, efficiency: Bounds, possessions: Bounds) returns (r: Result<seq<Issue>>)
    ensures r == Validate(t, pace, efficiency, possessions)
  {
    if IsEmptyTable(t) {
      return Success([]);
    }
    var issues: seq<Issue> := [];
    r := FlagOffenders(t, OutOfBounds("PACE", pace), issues);
    ghost var a := r;
    if r.Success? {
      r := FlagOffenders(t, OutOfBounds("OFF_EFF_PER_100", efficiency), r.value);
    }
    ghost var b := r;
    assert b == Continue(a, t, OutOfBounds("OFF_EFF_PER_100", efficiency));
    if r.Success? {
      r := FlagOffenders(t, OutOfBounds("DEF_EFF_PER_100", efficiency), r.value);
    }
    ghost var c := r;
    assert c == Continue(b, t, OutOfBounds("DEF_EFF_PER_100", efficiency));
    if r.Success? {
      r := FlagOffenders(t, AveragePossessions(possessions), r.value);
    }
    ghost var d := r;
    assert d == Continue(c, t, AveragePossessions(possessions));
    if r.Success? {
      r := FlagOffenders(t, NegativePossessions, r.value);
    }
    ghost var e := r;
    assert e == Continue(d, t, NegativePossessions);
    if r.Success? {
      r := FlagOffenders(t, WinPct, r.value);
    }
    assert r == Continue(e, t, WinPct);
  }

  /** `assert_team_summary_valid`: fails with the issue count iff there are issues. */
  method AssertTeamSummaryValid(t: Table, pace: Bounds, efficiency: Bounds, possessions: Bounds) returns (r: Result<()>)
    ensures Validate(t, pace, efficiency, possessions).Failure? ==> r == Failure(Validate(t, pace, efficiency, possessions).error)
    ensures Validate(t, pace, efficiency, possessions).Success? ==>
      (r.Success? <==> Validate(t, pace, efficiency, possessions).value == [])
    ensures Validate(t, pace, efficiency, possessions).Success? && r.Failure? ==>
      r.error == InvalidSummary(|Validate(t, pace, efficiency, possessions).value|)
  {
    var issues := ValidateTeamSummary(t, pace, efficiency, possessions);
    if issues.Failure? {
      return Failure(issues.error);
    }
    if |issues.value| > 0 {
      return Failure(InvalidSummary(|issues.value|));
    }
    return Success(());
  }

  // ----- properties -----

  /** The positions of the rows a check flags, ascending. */
  function OffenderIndices(rows: seq<Row>, check: Check): seq<int> {
    if |rows| == 0 then []
    else
      var front := OffenderIndices(rows[..|rows| - 1], check);
      if Offense(check, rows[|rows| - 1]).Some? then front + [|rows| - 1] else front
  }

  /** A check reports exactly the rows it flags, in row order, each with its identifier and
      flagged value. */
  lemma {:induction false} OffendersInRowOrder(rows: seq<Row>, check: Check)
    ensures |Offenders(rows, check)| == |OffenderIndices(rows, check)|
    ensures forall j :: 0 <= j < |OffenderIndices(rows, check)| ==> 0 <= OffenderIndices(rows, check)[j] < |rows|
    ensures forall j, k :: 0 <= j < k < |OffenderIndices(rows, check)| ==> OffenderIndices(rows, check)[j] < OffenderIndices(rows, check)[k]
    ensures forall i :: 0 <= i < |rows| ==> (Offense(check, rows[i]).Some? <==> i in OffenderIndices(rows, check))
    ensures forall j :: 0 <= j < |OffenderIndices(rows, check)| ==>
      0 <= OffenderIndices(rows, check)[j] < |rows| &&
      Offense(check, rows[OffenderIndices(rows, check)[j]]).Some? &&
      Offenders(rows, check)[j] == Issue(check, FormatIdentifier(rows[OffenderIndices(rows, check)[j]]), Offense(check, rows[OffenderIndices(rows, check)[j]]).value)
  {
    OffenderIndicesSelect(rows, check);
    OffendersMatch(rows, check);
  }

  /** The flagged positions are in range, strictly ascending, and are exactly the flagged rows. */
  lemma {:induction false} OffenderIndicesSelect(rows: seq<Row>, check: Check)
    ensures forall j :: 0 <= j < |OffenderIndices(rows, check)| ==> 0 <= OffenderIndices(rows, check)[j] < |rows|
    ensures forall j, k :: 0 <= j < k < |OffenderIndices(rows, check)| ==> OffenderIndices(rows, check)[j] < OffenderIndices(rows, check)[k]
    ensures forall i :: 0 <= i < |rows| ==> (Offense(check, rows[i]).Some? <==> i in OffenderIndices(rows, check))
  {
    if |rows| > 0 {
      var n := |rows| - 1;
      var init := rows[..n];
      OffenderIndicesSelect(init, check);
      var idx0, idx := OffenderIndices(init, check), OffenderIndices(rows, check);
      assert idx == if Offense(check, rows[n]).Some? then idx0 + [n] else idx0;
      forall i | 0 <= i < |rows|
        ensures Offense(check, rows[i]).Some? <==> i in idx
      {
        if i < n {
          assert rows[i] == init[i];
          assert i in idx <==> i in idx0;
        }
      }
    }
  }

  /** The j-th issue is the flagged value of the j-th flagged row. */
  lemma {:induction false} OffendersMatch(rows: seq<Row>, check: Check)
    ensures |Offenders(rows, check)| == |OffenderIndices(rows, check)|
    ensures forall j :: 0 <= j < |OffenderIndices(rows, check)| ==> IssueOf(rows, check, OffenderIndices(rows, check)[j], Offenders(rows, check)[j])
  {
    if |rows| > 0 {
      var n := |rows| - 1;
      var init := rows[..n];
      OffendersMatch(init, check);
      var out0, idx0 := Offenders(init, check), OffenderIndices(init, check);
      var out, idx := Offenders(rows, check), OffenderIndices(rows, check);
      var o := Offense(check, rows[n]);
      assert out == if o.Some? then out0 + [Issue(check, FormatIdentifier(rows[n]), o.value)] else out0;
      assert idx == if o.Some? then idx0 + [n] else idx0;
      forall j | 0 <= j < |idx|
        ensures IssueOf(rows, check, idx[j], out[j])
      {
        if j < |idx0| {
          assert IssueOf(init, check, idx0[j], out0[j]);
          assert idx[j] == idx0[j] && out[j] == out0[j] && init[idx0[j]] == rows[idx0[j]];
        }
      }
    }
  }

  /** Row i of `rows` is flagged, and `issue` reports it. */
  predicate IssueOf(rows: seq<Row>, check: Check, i: int, issue: Issue) {
    0 <= i < |rows| && Offense(check, rows[i]).Some? &&
    issue == Issue(check, FormatIdentifier(rows[i]), Offense(check, rows[i]).value)
  }

  /** A check reports nothing iff it flags no row. */
  lemma NoOffenders(rows: seq<Row>, check: Check)
    ensures Offenders(rows, check) == [] <==> forall i :: 0 <= i < |rows| ==> Offense(check, rows[i]).None?
  {
    OffendersInRowOrder(rows, check);
    if Offenders(rows, check) == [] {
      assert OffenderIndices(rows, check) == [];
    } else {
      var i := OffenderIndices(rows, check)[0];
      assert Offense(check, rows[i]).Some?;
    }
  }

  /** A check is clean on a table when it does not run or flags no row. */
  predicate Clean(t: Table, check: Check) {
    !Runs(t, check) || forall i :: 0 <= i < |t.rows| ==> Offense(check, t.rows[i]).None?
  }

  lemma RunCheckClean(t: Table, check: Check)
    ensures RunCheck(t, check) == Success([]) <==> Clean(t, check)
    ensures RunCheck(t, check).Failure? <==> !Clean(t, check) && Missing(t, IdColumns) != []
    ensures RunCheck(t, check).Failure? ==> RunCheck(t, check).error == MissingColumns(Missing(t, IdColumns))
  {
    NoOffenders(t.rows, check);
  }

  /** The validator reports no issue iff every check that runs flags no row. */
  lemma ValidIffClean(t: Table, pace: Bounds, efficiency: Bounds, possessions: Bounds)
    ensures Validate(t, pace, efficiency, possessions) == Success([]) <==>
      Clean(t, OutOfBounds("PACE", pace)) && Clean(t, OutOfBounds("OFF_EFF_PER_100", efficiency)) &&
      Clean(t, OutOfBounds("DEF_EFF_PER_100", efficiency)) && Clean(t, AveragePossessions(possessions)) &&
      Clean(t, NegativePossessions) && Clean(t, WinPct)
  {
    RunCheckClean(t, OutOfBounds("PACE", pace));
    RunCheckClean(t, OutOfBounds("OFF_EFF_PER_100", efficiency));
    RunCheckClean(t, OutOfBounds("DEF_EFF_PER_100", efficiency));
    RunCheckClean(t, AveragePossessions(possessions));
    RunCheckClean(t, NegativePossessions);
    RunCheckClean(t, WinPct);
  }

  /** The validator fails iff an identifier column is absent and some check that runs flags a
      row; the error names the absent identifier columns. */
  lemma ValidateFails(t: Table, pace: Bounds, efficiency: Bounds, possessions: Bounds)
    ensures Validate(t, pace, efficiency, possessions).Failure? <==>
      Missing(t, IdColumns) != [] &&
      !(Clean(t, OutOfBounds("PACE", pace)) && Clean(t, OutOfBounds("OFF_EFF_PER_100", efficiency)) &&
        Clean(t, OutOfBounds("DEF_EFF_PER_100", efficiency)) && Clean(t, AveragePossessions(possessions)) &&
        Clean(t, NegativePossessions) && Clean(t, WinPct))
    ensures Validate(t, pace, efficiency, possessions).Failure? ==>
      Validate(t, pace, efficiency, possessions).error == MissingColumns(Missing(t, IdColumns))
  {
    RunCheckClean(t, OutOfBounds("PACE", pace));
    RunCheckClean(t, OutOfBounds("OFF_EFF_PER_100", efficiency));
    RunCheckClean(t, OutOfBounds("DEF_EFF_PER_100", efficiency));
    RunCheckClean(t, AveragePossessions(possessions));
    RunCheckClean(t, NegativePossessions);
    RunCheckClean(t, WinPct);
  }

  /** An empty summary has no issues. */
  lemma EmptySummaryValid(t: Table, pace: Bounds, efficiency: Bounds, possessions: Bounds)
    requires IsEmptyTable(t)
    ensures Validate(t, pace, efficiency, possessions) == Success([])
  {
  }

  /** A value on either bound is inside: the bounds are inclusive. */
  lemma BoundsInclusive(c: string, b: Bounds, row: Row)
    requires b.lo <= b.hi
    requires Get(row, c) == Num(b.lo) || Get(row, c) == Num(b.hi)
    ensures Offense(OutOfBounds(c, b), row) == None
  {
  }

  /** A missing value is never flagged. */
  lemma MissingNotFlagged(c: string, b: Bounds, row: Row)
    requires Get(row, c) == Undef
    ensures Offense(OutOfBounds(c, b), row) == None
    ensures c == "WIN_PCT" ==> Offense(WinPct, row) == None
  {
  }

  /** Zero games played make the average undefined, so the row is not flagged. */
  lemma ZeroGamesNotFlagged(b: Bounds, row: Row)
    requires NumOf(Get(row, "GAMES_PLAYED")) == Some(0.0)
    ensures Offense(AveragePossessions(b), row) == None
  {
  }

  /** A negative total over a positive game count trips both possession checks when the
      average's lower bound is not negative. */
  lemma NegativeTotalFlaggedTwice(b: Bounds, row: Row, total: real, games: real)
    requires 0.0 <= b.lo
    requires NumOf(Get(row, "TOTAL_EST_POSSESSIONS")) == Some(total) && total < 0.0
    requires NumOf(Get(row, "GAMES_PLAYED")) == Some(games) && games > 0.0
    ensures Offense(AveragePossessions(b), row) == Some(total / games)
    ensures Offense(NegativePossessions, row) == Some(total)
  {
    assert total / games < 0.0;
  }

  lemma SingleRowOffenders(rows: seq<Row>, check: Check)
    requires |rows| == 1
    ensures Offense(check, rows[0]).None? ==> Offenders(rows, check) == []
    ensures Offense(check, rows[0]).Some? ==>
      Offenders(rows, check) == [Issue(check, FormatIdentifier(rows[0]), Offense(check, rows[0]).value)]
  {
    assert rows[..0] == [];
  }

  /** The summary row of the passing test case (pace 100, efficiencies 112.5 and 107.3,
      8200 possessions over 82 games, win pct 0.6) has no issues under the default bounds. */
  lemma InRangeExample(t: Table)
    requires |t.rows| == 1
    requires Get(t.rows[0], "PACE") == Num(100.0)
    requires Get(t.rows[0], "OFF_EFF_PER_100") == Num(112.5)
    requires Get(t.rows[0], "DEF_EFF_PER_100") == Num(107.3)
    requires Get(t.rows[0], "TOTAL_EST_POSSESSIONS") == Num(8200.0)
    requires Get(t.rows[0], "GAMES_PLAYED") == Num(82.0)
    requires Get(t.rows[0], "WIN_PCT") == Num(0.6)
    ensures Validate(t, DefaultPace, DefaultEfficiency, DefaultPossessions) == Success([])
  {
    ValidIffClean(t, DefaultPace, DefaultEfficiency, DefaultPossessions);
    OneRowClean(t, OutOfBounds("PACE", DefaultPace));
    OneRowClean(t, OutOfBounds("OFF_EFF_PER_100", DefaultEfficiency));
    OneRowClean(t, OutOfBounds("DEF_EFF_PER_100", DefaultEfficiency));
    AveragePossessionsValue(t.rows[0], 8200.0, 82.0);
    assert 8200.0 / 82.0 == 100.0;
    OneRowClean(t, AveragePossessions(DefaultPossessions));
    OneRowClean(t, NegativePossessions);
    OneRowClean(t, WinPct);
  }

  lemma OneRowClean(t: Table, check: Check)
    requires |t.rows| == 1 && Offense(check, t.rows[0]).None?
    ensures Clean(t, check)
  {
  }

  /** The summary row of the failing test case (pace 30, efficiencies 170 and 10, 100
      possessions over 1 game, win pct 1.2) yields four issues: pace, offensive and defensive
      efficiency, and win pct, in that order; the average of 100 possessions is in range. */
  lemma OutOfRangeExample(t: Table)
    requires |t.rows| == 1
    requires "TEAM_ID" in t.columns && "SEASON_YEAR" in t.columns && "IS_PLAYOFFS" in t.columns
    requires "PACE" in t.columns && "OFF_EFF_PER_100" in t.columns && "DEF_EFF_PER_100" in t.columns && "WIN_PCT" in t.columns
    requires "TEAM_ID" in t.rows[0] && t.rows[0]["TEAM_ID"] == Str("TEST")
    requires "SEASON_YEAR" in t.rows[0] && t.rows[0]["SEASON_YEAR"] == Num(2020.0)
    requires "IS_PLAYOFFS" in t.rows[0] && t.rows[0]["IS_PLAYOFFS"] == Flag(false)
    requires Get(t.rows[0], "PACE") == Num(30.0)
    requires Get(t.rows[0], "OFF_EFF_PER_100") == Num(170.0)
    requires Get(t.rows[0], "DEF_EFF_PER_100") == Num(10.0)
    requires Get(t.rows[0], "TOTAL_EST_POSSESSIONS") == Num(100.0)
    requires Get(t.rows[0], "GAMES_PLAYED") == Num(1.0)
    requires Get(t.rows[0], "WIN_PCT") == Num(1.2)
    ensures Validate(t, DefaultPace, DefaultEfficiency, DefaultPossessions) == Success([
      Issue(OutOfBounds("PACE", DefaultPace), Identifier(Str("TEST"), Num(2020.0), "Regular"), 30.0),
      Issue(OutOfBounds("OFF_EFF_PER_100", DefaultEfficiency), Identifier(Str("TEST"), Num(2020.0), "Regular"), 170.0),
      Issue(OutOfBounds("DEF_EFF_PER_100", DefaultEfficiency), Identifier(Str("TEST"), Num(2020.0), "Regular"), 10.0),
      Issue(WinPct, Identifier(Str("TEST"), Num(2020.0), "Regular"), 1.2)])
  {
    var row := t.rows[0];
    var id := Identifier(Str("TEST"), Num(2020.0), "Regular");
    assert FormatIdentifier(row) == id;
    assert Missing(t, IdColumns) == [];
    SingleRowOffenders(t.rows, OutOfBounds("PACE", DefaultPace));
    SingleRowOffenders(t.rows, OutOfBounds("OFF_EFF_PER_100", DefaultEfficiency));
    SingleRowOffenders(t.rows, OutOfBounds("DEF_EFF_PER_100", DefaultEfficiency));
    assert AveragePossessionsOf(row) == Some(100.0);
    SingleRowOffenders(t.rows, AveragePossessions(DefaultPossessions));
    SingleRowOffenders(t.rows, NegativePossessions);
    SingleRowOffenders(t.rows, WinPct);
    var pace := [Issue(OutOfBounds("PACE", DefaultPace), id, 30.0)];
    var off := [Issue(OutOfBounds("OFF_EFF_PER_100", DefaultEfficiency), id, 170.0)];
    var def := [Issue(OutOfBounds("DEF_EFF_PER_100", DefaultEfficiency), id, 10.0)];
    var win := [Issue(WinPct, id, 1.2)];
    assert RunCheck(t, OutOfBounds("PACE", DefaultPace)) == Success(pace);
    assert RunCheck(t, OutOfBounds("OFF_EFF_PER_100", DefaultEfficiency)) == Success(off);
    assert RunCheck(t, OutOfBounds("DEF_EFF_PER_100", DefaultEfficiency)) == Success(def);
    assert RunCheck(t, AveragePossessions(DefaultPossessions)) == Success([]);
    assert RunCheck(t, NegativePossessions) == Success([]);
    assert RunCheck(t, WinPct) == Success(win);
    var a := Continue(Success([]), t, OutOfBounds("PACE", DefaultPace));
    assert a == Success(pace);
    var b := Continue(a, t, OutOfBounds("OFF_EFF_PER_100", DefaultEfficiency));
    assert b == Success(pace + off);
    var c := Continue(b, t, OutOfBounds("DEF_EFF_PER_100", DefaultEfficiency));
    assert c == Success(pace + off + def);
    var d := Continue(c, t, AveragePossessions(DefaultPossessions));
    assert pace + off + def + [] == pace + off + def;
    assert d == c;
    var e := Continue(d, t, NegativePossessions);
    assert e == c;
    assert Continue(e, t, WinPct) == Success(pace + off + def + win);
    assert Validate(t, DefaultPace, DefaultEfficiency, DefaultPossessions) == Continue(e, t, WinPct);
    assert pace + off + def + win == [pace[0], off[0], def[0], win[0]];
  }
}
