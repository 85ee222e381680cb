/** The team-game pipeline: wide per-game rows become one row per team per game, which are
    then normalised, dated, and given possessions and the derived metrics. */
module SeasonSummary {
  import opened Strings
  import opened Tables
  import Ingest
  import Preprocess
  import Features
  import Aggregation
  import Era

  // ---------------------------------------------------------------- schema of the reshape

  /** Columns every game row carries into both of its team rows unchanged. */
  const BaseColumns: seq<string> := ["GAME_ID", "SEASON_ID", "SEASON_TYPE", "IS_REGULAR_SEASON", "IS_PLAYOFFS", "GAME_DATE"]

  /** Columns taken from the team's own side, in the order `_select_side` reads them. */
  const OwnColumns: seq<string> :=
    ["TEAM_ID", "TEAM_ABBREVIATION", "TEAM_NAME", "MATCHUP", "WL",
     "FGM", "FGA", "FG3M", "FG3A", "FTM", "FTA", "OREB", "DREB", "REB", "AST", "STL", "BLK", "TOV", "PF", "PTS"]

  /** The mirrored stats: taken from the other side and stored under `OPP_` names. */
  const OpponentStats: seq<string> :=
    ["TEAM_ID", "TEAM_ABBREVIATION", "PTS", "FGM", "FGA", "FG3M", "FG3A", "FTM", "FTA", "OREB", "DREB", "REB", "AST", "TOV"]

  /** Where each mirrored stat sits among the own-side columns. */
  const OpponentStatPosition: seq<nat> := [0, 1, 19, 5, 6, 7, 8, 9, 10, 11, 12, 13, 14, 17]

  function OpponentName(stat: string): string {
    "OPP_" + stat
  }

  predicate IsOpponentName(c: string) {
    |c| >= 4 && c[..4] == "OPP_"
  }

  function OpponentColumns(): (r: seq<string>)
    ensures |r| == |OpponentStats|
    ensures forall j :: 0 <= j < |r| ==> r[j] == OpponentName(OpponentStats[j])
  {
    seq(|OpponentStats|, j requires 0 <= j < |OpponentStats| => OpponentName(OpponentStats[j]))
  }

  /** The columns of the long table, in the order `_select_side` creates them. */
  function LongColumns(): seq<string> {
    BaseColumns + OwnColumns + OpponentColumns() + ["IS_HOME", "WIN", "OVERTIME_PERIODS"]
  }

  /** The columns the reshape coerces to numbers: the counting stats of the team, those of
      the opponent, and the overtime count, in the order of the source's list. */
  function NumericColumns(): seq<string> {
    OwnColumns[5..] + OpponentColumns()[2..] + ["OVERTIME_PERIODS"]
  }

  datatype Side = Home | Away

  function Suffix(side: Side): string {
    if side == Home then "_HOME" else "_AWAY"
  }

  function Other(side: Side): Side {
    if side == Home then Away else Home
  }

  /** The wide columns one side reads: its own columns, then the opponent's stats. */
  function SideColumns(side: Side): (r: seq<string>)
    ensures |r| == |OwnColumns| + |OpponentStats|
    ensures forall j :: 0 <= j < |OwnColumns| ==> r[j] == OwnColumns[j] + Suffix(side)
    ensures forall j :: 0 <= j < |OpponentStats| ==> r[|OwnColumns| + j] == OpponentStats[j] + Suffix(Other(side))
  {
    seq(|OwnColumns|, j requires 0 <= j < |OwnColumns| => OwnColumns[j] + Suffix(side))
      + seq(|OpponentStats|, j requires 0 <= j < |OpponentStats| => OpponentStats[j] + Suffix(Other(side)))
  }

  /** Every wide column, in the order the home side and then the away side read them. */
  function WideColumns(): seq<string> {
    SideColumns(Home) + SideColumns(Away)
  }

  // ---------------------------------------------------------------- one side of a game

  /** `astype(str)` of a matchup; a cell without a text rendering here is kept as it is. */
  function MatchupCell(c: Cell): Cell {
    match AsText(c)
    case Some(s) => Str(s)
    case None => c
  }

  /** The text the overtime heuristic reads. The renderings not modelled (non-integral
      numbers, timestamps) contain no "OT", so the empty text reads the same. */
  function MatchupText(c: Cell): string {
    match AsText(c)
    case Some(s) => s
    case None => ""
  }

  /** `(WL.str.upper() == "W").astype(int)`: a missing or non-text result counts as a loss. */
  function WinCell(wl: Cell): (r: Cell)
    ensures r == Num(1.0) || r == Num(0.0)
    ensures r == Num(1.0) <==> wl.Str? && Upper(wl.s) == "W"
  {
    Num(if wl.Str? && Upper(wl.s) == "W" then 1.0 else 0.0)
  }

  /** The value `_select_side` gives column `c` of the row for `side` of game `g`. */
  function SideValue(g: Row, side: Side, c: string): Cell {
    if IsOpponentName(c) then Get(g, c[4..] + Suffix(Other(side)))
    else if c == "MATCHUP" then MatchupCell(Get(g, "MATCHUP" + Suffix(side)))
    else if c == "IS_HOME" then Flag(side == Home)
    else if c == "WIN" then WinCell(Get(g, "WL" + Suffix(side)))
    else if c == "OVERTIME_PERIODS" then Num(ParseOvertime(MatchupText(Get(g, "MATCHUP" + Suffix(side)))) as real)
    else if c in BaseColumns then Get(g, c)
    else Get(g, c + Suffix(side))
  }

  /** `_select_side` on one game row, before the numeric coercion. */
  function SideRow(g: Row, side: Side): (r: Row)
    ensures r.Keys == set c | c in LongColumns()
  {
    map c | c in LongColumns() :: SideValue(g, side, c)
  }

  function SelectSide(games: Table, side: Side): (r: Table)
    ensures r.columns == LongColumns() && |r.rows| == |games.rows|
  {
    Table(LongColumns(), seq(|games.rows|, i requires 0 <= i < |games.rows| => SideRow(games.rows[i], side)))
  }

  // ---------------------------------------------------------------- numeric coercion

  /** `pd.to_numeric(errors="coerce")` on one cell: numbers and booleans stay, integer text
      is read, anything else becomes undefined. */
  function Coerce(c: Cell): (r: Cell)
    ensures r.Undef? || r.Num? || r.Flag?
    ensures c.Num? || c.Flag? ==> r == c
  {
    match c
    case Num(_) => c
    case Flag(_) => c
    case Str(s) => if ParseInt(s).Some? then Num(ParseInt(s).value as real) else Undef
    case _ => Undef
  }

  lemma CoerceIdempotent(c: Cell)
    ensures Coerce(Coerce(c)) == Coerce(c)
  {
  }

  /** The row after coercing the columns `cs` one after another. */
  function CoerceFold(r: Row, cs: seq<string>): Row {
    if cs == [] then r
    else
      var prev := CoerceFold(r, cs[..|cs| - 1]);
      prev[cs[|cs| - 1] := Coerce(Get(prev, cs[|cs| - 1]))]
  }

  /** Coercing a list of columns coerces exactly those columns, whatever their order or
      repetitions, and leaves every other cell alone. */
  lemma {:induction false} CoerceFoldCells(r: Row, cs: seq<string>, c: string)
    ensures Get(CoerceFold(r, cs), c) == if c in cs then Coerce(Get(r, c)) else Get(r, c)
    ensures CoerceFold(r, cs).Keys == r.Keys + set x | x in cs
  {
    if cs != [] {
      var init := cs[..|cs| - 1];
      CoerceFoldCells(r, init, c);
      CoerceFoldCells(r, init, cs[|cs| - 1]);
      assert forall x :: x in cs <==> x in init || x == cs[|cs| - 1] by {
        assert cs == init + [cs[|cs| - 1]];
      }
      if c in init && c == cs[|cs| - 1] {
        CoerceIdempotent(Get(r, c));
      }
    }
  }

  /** A team row of the long table. */
  function LongRow(g: Row, side: Side): Row {
    CoerceFold(SideRow(g, side), NumericColumns())
  }

  /** Each mirrored stat is an own-side column and none of the other kinds. */
  lemma OpponentStatKind(j: int)
    requires 0 <= j < |OpponentStats|
    ensures var x := OpponentStats[j]; var p := OpponentStatPosition[j];
      p < |OwnColumns| && OwnColumns[p] == x && (if j < 2 then p == j else p >= 5) &&
      x in OwnColumns && !IsOpponentName(x) && x !in BaseColumns &&
      x != "MATCHUP" && x != "IS_HOME" && x != "WIN" && x != "OVERTIME_PERIODS"
  {
    var x := OpponentStats[j];
    assert OwnColumns[OpponentStatPosition[j]] == x;
    assert !IsOpponentName(x) by {
      if |x| >= 4 {
        assert x[0] != 'O' || x[1] != 'P';
        assert x[..4][0] == x[0] && x[..4][1] == x[1];
      }
    }
  }

  /** An element at or after position `k` is in the suffix from `k`. */
  lemma InSuffix(s: seq<string>, k: nat, i: nat)
    requires k <= i < |s|
    ensures s[i] in s[k..]
  {
    assert s[i] == s[k..][i - k];
  }

  /** The mirrored counting stats have `OPP_` names of at most eight characters. */
  lemma OpponentStatNamesShort()
    ensures forall y :: y in OpponentColumns()[2..] ==> |y| <= 8
  {
    var opp := OpponentColumns()[2..];
    forall k | 0 <= k < |opp|
      ensures |opp[k]| <= 8
    {
      assert opp[k] == OpponentName(OpponentStats[k + 2]);
    }
  }

  /** A mirrored stat is coerced exactly when its `OPP_` partner is. */
  lemma OpponentStatNumeric(j: int)
    requires 0 <= j < |OpponentStats|
    ensures var x := OpponentStats[j];
      x in NumericColumns() <==> OpponentName(x) in NumericColumns()
  {
    var x := OpponentStats[j];
    OpponentStatKind(j);
    var opp := OpponentName(x);
    if j >= 2 {
      InSuffix(OwnColumns, 5, OpponentStatPosition[j]);
      assert OpponentColumns()[j] == opp;
      InSuffix(OpponentColumns(), 2, j);
    } else {
      NotStatName(x);
      NumericOwnNames(x);
      assert |opp| > 8 by {
        assert |x| > 4;
      }
      NotStatName(opp);
      OpponentStatNamesShort();
    }
  }

  /** Mirroring: the home row's `OPP_X` is the away row's `X`, and the other way round. */
  lemma MirroredStat(g: Row, j: int)
    requires 0 <= j < |OpponentStats|
    ensures var x := OpponentStats[j];
      Get(LongRow(g, Home), OpponentName(x)) == Get(LongRow(g, Away), x) &&
      Get(LongRow(g, Away), OpponentName(x)) == Get(LongRow(g, Home), x)
  {
    var x := OpponentStats[j];
    OpponentStatKind(j);
    OpponentStatNumeric(j);
    var opp := OpponentName(x);
    assert OpponentColumns()[j] == opp;
    assert opp in LongColumns() && x in LongColumns();
    assert IsOpponentName(opp) && opp[4..] == x;
    forall side | true
      ensures Get(LongRow(g, side), opp) == Get(LongRow(g, Other(side)), x)
    {
      CoerceFoldCells(SideRow(g, side), NumericColumns(), opp);
      CoerceFoldCells(SideRow(g, Other(side)), NumericColumns(), x);
      assert Other(Other(side)) == side;
    }
  }

  lemma NotOpponentName(c: string)
    requires |c| < 4 || c[0] != 'O' || c[1] != 'P'
    ensures !IsOpponentName(c)
  {
    if |c| >= 4 {
      assert c[..4][0] == c[0] && c[..4][1] == c[1];
    }
  }

  /** Outside the `OPP_` names, the coerced columns are the own counting stats and the
      overtime count. */
  lemma NumericOwnNames(c: string)
    requires !IsOpponentName(c)
    ensures c in NumericColumns() <==> c in OwnColumns[5..] || c == "OVERTIME_PERIODS"
  {
  }

  /** The base columns have long names starting with 'G', 'S' or 'I', none of them `IS_HOME`. */
  lemma BaseNamesShape()
    ensures forall x :: x in BaseColumns ==> |x| > 4 && (x[0] == 'G' || x[0] == 'S' || x[0] == 'I') && x != "IS_HOME"
  {
    forall k | 0 <= k < |BaseColumns|
      ensures var x := BaseColumns[k]; |x| > 4 && (x[0] == 'G' || x[0] == 'S' || x[0] == 'I') && x != "IS_HOME"
    {
    }
  }

  /** Each team row carries its game's base columns unchanged. */
  lemma LongRowBase(g: Row, side: Side, c: string)
    requires c in BaseColumns
    ensures Get(LongRow(g, side), c) == Get(g, c)
  {
    BaseNamesShape();
    NotOpponentName(c);
    NotStatName(c);
    NumericOwnNames(c);
    assert c != "MATCHUP" && c != "WIN" && c != "OVERTIME_PERIODS" by {
      assert c[0] != 'M' && c[0] != 'W' && c[0] != 'O';
    }
    assert c in LongColumns();
    CoerceFoldCells(SideRow(g, side), NumericColumns(), c);
  }

  /** The counting stats have short names, none starting with 'W' or "OP". */
  lemma StatNamesShort()
    ensures forall x :: x in OwnColumns[5..] ==> 0 < |x| <= 4 && x[0] != 'W' && (|x| < 4 || x[1] != 'P')
  {
    var stats := OwnColumns[5..];
    forall k | 0 <= k < |stats|
      ensures 0 < |stats[k]| <= 4 && stats[k][0] != 'W' && (|stats[k]| < 4 || stats[k][1] != 'P')
    {
    }
  }

  /** A name longer than four characters, or one starting with 'W', is not a counting stat. */
  lemma NotStatName(c: string)
    requires |c| > 4 || (|c| > 0 && c[0] == 'W')
    ensures c !in OwnColumns[5..]
  {
    StatNamesShort();
  }

  /** The identity columns of a side start with 'T', 'M' (only the matchup) or 'W' (only the
      two-letter result); the counting stats are short; no own column starts with "OP". */
  lemma OwnNamesShape(j: int)
    requires 0 <= j < |OwnColumns|
    ensures var c := OwnColumns[j];
      0 < |c| && (|c| < 4 || c[1] != 'P') &&
      if j < 5 then
        (c[0] == 'T' || c[0] == 'M' || c[0] == 'W') && (c[0] == 'M' <==> j == 3) &&
        (if c[0] == 'W' then |c| == 2 else |c| > 4)
      else |c| <= 4 && c[0] != 'W'
  {
    if j >= 5 {
      StatNamesShort();
      InSuffix(OwnColumns, 5, j);
    } else if j == 0 {
      assert OwnColumns[0] == "TEAM_ID";
    } else if j == 1 {
      assert OwnColumns[1] == "TEAM_ABBREVIATION";
    } else if j == 2 {
      assert OwnColumns[2] == "TEAM_NAME";
    } else if j == 3 {
      assert OwnColumns[3] == "MATCHUP";
    } else {
      assert OwnColumns[4] == "WL";
    }
  }

  /** The identity columns of a side are neither counting stats nor the overtime count. */
  lemma OwnIdentityNotStats(j: int)
    requires 0 <= j < 5
    ensures OwnColumns[j] !in OwnColumns[5..] && OwnColumns[j] != "OVERTIME_PERIODS"
  {
    OwnNamesShape(j);
    NotStatName(OwnColumns[j]);
  }

  lemma OwnInLongColumns(j: int)
    requires 0 <= j < |OwnColumns|
    ensures OwnColumns[j] in LongColumns()
  {
    assert OwnColumns[j] in OwnColumns;
  }

  /** An own column other than the matchup is none of the special kinds of long-table column. */
  lemma OwnNameKind(j: int)
    requires 0 <= j < |OwnColumns| && j != 3
    ensures var c := OwnColumns[j];
      !IsOpponentName(c) && c !in BaseColumns &&
      c != "MATCHUP" && c != "IS_HOME" && c != "WIN" && c != "OVERTIME_PERIODS"
  {
    var c := OwnColumns[j];
    OwnNamesShape(j);
    NotOpponentName(c);
    assert c !in BaseColumns by {
      BaseNamesShape();
    }
  }

  lemma SideRowOwn(g: Row, side: Side, j: int)
    requires 0 <= j < |OwnColumns| && j != 3
    ensures Get(SideRow(g, side), OwnColumns[j]) == Get(g, OwnColumns[j] + Suffix(side))
  {
    OwnInLongColumns(j);
    OwnNameKind(j);
  }

  /** Each own-side column other than the matchup comes from the row's own side, and only
      the counting stats among them are coerced. */
  /** Among the own columns, exactly the counting stats are coerced. */
  lemma OwnNumeric(j: int)
    requires 0 <= j < |OwnColumns| && j != 3
    ensures OwnColumns[j] in NumericColumns() <==> j >= 5
  {
    var c := OwnColumns[j];
    OwnNameKind(j);
    NumericOwnNames(c);
    if j >= 5 {
      InSuffix(OwnColumns, 5, j);
    } else {
      OwnIdentityNotStats(j);
    }
  }

  lemma LongRowOwn(g: Row, side: Side, j: int)
    requires 0 <= j < |OwnColumns| && j != 3
    ensures var c := OwnColumns[j]; var v := Get(g, c + Suffix(side));
      Get(LongRow(g, side), c) == if j >= 5 then Coerce(v) else v
  {
    SideRowOwn(g, side, j);
    OwnNumeric(j);
    CoerceFoldCells(SideRow(g, side), NumericColumns(), OwnColumns[j]);
  }

  lemma DerivedNotNumeric(c: string)
    requires c in ["IS_HOME", "WIN", "MATCHUP"]
    ensures !IsOpponentName(c) && c !in NumericColumns()
  {
    NotOpponentName(c);
    NumericOwnNames(c);
    NotStatName(c);
  }

  /** The side row before coercion holds each derived column's value. */
  lemma SideRowDerived(g: Row, side: Side)
    ensures var row := SideRow(g, side); var matchup := Get(g, "MATCHUP" + Suffix(side));
      Get(row, "IS_HOME") == Flag(side == Home) &&
      Get(row, "WIN") == WinCell(Get(g, "WL" + Suffix(side))) &&
      Get(row, "OVERTIME_PERIODS") == Num(ParseOvertime(MatchupText(matchup)) as real) &&
      Get(row, "MATCHUP") == MatchupCell(matchup)
  {
    DerivedNotNumeric("IS_HOME");
    DerivedNotNumeric("WIN");
    DerivedNotNumeric("MATCHUP");
    NotOpponentName("OVERTIME_PERIODS");
    DerivedInLongColumns();
  }

  lemma DerivedInLongColumns()
    ensures "MATCHUP" in LongColumns() && "IS_HOME" in LongColumns() && "WIN" in LongColumns() && "OVERTIME_PERIODS" in LongColumns()
  {
    assert OwnColumns[3] == "MATCHUP";
    OwnInLongColumns(3);
  }

  /** The derived columns: `IS_HOME`, the win flag, the overtime count and the matchup text. */
  lemma LongRowDerived(g: Row, side: Side)
    ensures Get(LongRow(g, side), "IS_HOME") == Flag(side == Home)
    ensures Get(LongRow(g, side), "WIN") == WinCell(Get(g, "WL" + Suffix(side)))
    ensures Get(LongRow(g, side), "OVERTIME_PERIODS") == Num(ParseOvertime(MatchupText(Get(g, "MATCHUP" + Suffix(side)))) as real)
    ensures Get(LongRow(g, side), "MATCHUP") == MatchupCell(Get(g, "MATCHUP" + Suffix(side)))
  {
    var row := SideRow(g, side);
    SideRowDerived(g, side);
    DerivedNotNumeric("IS_HOME");
    DerivedNotNumeric("WIN");
    DerivedNotNumeric("MATCHUP");
    assert "OVERTIME_PERIODS" in NumericColumns();
    CoerceFoldCells(row, NumericColumns(), "IS_HOME");
    CoerceFoldCells(row, NumericColumns(), "WIN");
    CoerceFoldCells(row, NumericColumns(), "MATCHUP");
    CoerceFoldCells(row, NumericColumns(), "OVERTIME_PERIODS");
  }

  // ---------------------------------------------------------------- the reshape

  /** `_reshape_games_to_long`: both sides of every game, home rows first, then each numeric
      column coerced in turn. Missing base columns fail together, as the column selection
      does; otherwise the first missing wide column, in the order they are read, fails. */
  method ReshapeGamesToLong(games: Table) returns (r: Result<Table>)
    ensures r.Success? <==> Missing(games, BaseColumns) == [] && Missing(games, WideColumns()) == []
    ensures Missing(games, BaseColumns) != [] ==> r == Failure(MissingColumns(Missing(games, BaseColumns)))
    ensures Missing(games, BaseColumns) == [] && Missing(games, WideColumns()) != [] ==>
      r == Failure(MissingColumns([Missing(games, WideColumns())[0]]))
    ensures r.Success? ==> r.value.columns == LongColumns() && |r.value.rows| == 2 * |games.rows|
    ensures r.Success? ==> forall i :: 0 <= i < |games.rows| ==>
      r.value.rows[i] == LongRow(games.rows[i], Home) && r.value.rows[|games.rows| + i] == LongRow(games.rows[i], Away)
    ensures r == Reshaped(games)
  {
    var missingBase := Missing(games, BaseColumns);
    if missingBase != [] {
      return Failure(MissingColumns(missingBase));
    }
    var missingWide := Missing(games, WideColumns());
    if missingWide != [] {
      return Failure(MissingColumns([missingWide[0]]));
    }
    var n := |games.rows|;
    var home := SelectSide(games, Home);
    var away := SelectSide(games, Away);
    var combined := Table(LongColumns(), home.rows + away.rows);
    NumericInLong();
    var coerced := CoerceColumns(combined, NumericColumns());
    assert forall i :: 0 <= i < n ==>
      combined.rows[i] == SideRow(games.rows[i], Home) && combined.rows[n + i] == SideRow(games.rows[i], Away);
    IsLongTable(games, coerced);
    return Success(coerced);
  }

  /** The long table of `games`: every game's home row, then every game's away row. */
  function LongTable(games: Table): Table {
    var n := |games.rows|;
    Table(LongColumns(),
          seq(n, i requires 0 <= i < n => LongRow(games.rows[i], Home)) +
          seq(n, i requires 0 <= i < n => LongRow(games.rows[i], Away)))
  }

  /** The reshape's outcome as a value: the two column errors, else the long table. */
  function Reshaped(games: Table): Result<Table> {
    if Missing(games, BaseColumns) != [] then Failure(MissingColumns(Missing(games, BaseColumns)))
    else if Missing(games, WideColumns()) != [] then Failure(MissingColumns([Missing(games, WideColumns())[0]]))
    else Success(LongTable(games))
  }

  /** A table with the long columns whose rows are the home rows, then the away rows, is the
      long table. */
  lemma IsLongTable(games: Table, t: Table)
    requires t.columns == LongColumns() && |t.rows| == 2 * |games.rows|
    requires forall i :: 0 <= i < |games.rows| ==>
      t.rows[i] == LongRow(games.rows[i], Home) && t.rows[|games.rows| + i] == LongRow(games.rows[i], Away)
    ensures t == LongTable(games)
  {
    var n := |games.rows|;
    var l := LongTable(games);
    forall k | 0 <= k < 2 * n
      ensures t.rows[k] == l.rows[k]
    {
      if k >= n {
        assert t.rows[n + (k - n)] == LongRow(games.rows[k - n], Away);
      }
    }
  }

  /** Every coerced column is a column of the long table. */
  lemma NumericInLong()
    ensures forall c :: c in NumericColumns() ==> c in LongColumns()
  {
    forall c | c in NumericColumns()
      ensures c in LongColumns()
    {
      if c in OwnColumns[5..] {
        var j :| 0 <= j < |OwnColumns[5..]| && OwnColumns[5..][j] == c;
        assert OwnColumns[5 + j] == c;
      } else if c in OpponentColumns()[2..] {
        var j :| 0 <= j < |OpponentColumns()[2..]| && OpponentColumns()[2..][j] == c;
        assert OpponentColumns()[2 + j] == c;
      }
    }
  }

  /** The coercion loop of the reshape: each listed column in turn is read as numbers. */
  method CoerceColumns(t: Table, cols: seq<string>) returns (r: Table)
    requires forall c :: c in cols ==> c in t.columns
    ensures r.columns == t.columns && |r.rows| == |t.rows|
    ensures forall i :: 0 <= i < |t.rows| ==> r.rows[i] == CoerceFold(t.rows[i], cols)
  {
    r := t;
    var k := 0;
    while k < |cols|
      invariant 0 <= k <= |cols|
      invariant r.columns == t.columns && |r.rows| == |t.rows|
      invariant forall i :: 0 <= i < |t.rows| ==> r.rows[i] == CoerceFold(t.rows[i], cols[..k])
    {
      var col, prev := cols[k], r;
      r := SetColumn(prev, col, seq(|prev.rows|, i requires 0 <= i < |prev.rows| => Coerce(Get(prev.rows[i], col))));
      assert cols[..k + 1][..k] == cols[..k];
      k := k + 1;
    }
    assert cols[..k] == cols;
  }

  // ---------------------------------------------------------------- mirrored possession inputs

  /** The team-side inputs of the possession estimate; each has an `OPP_` partner. */
  const PossessionStats: seq<string> := ["FGA", "FGM", "FTA", "TOV", "OREB", "DREB"]

  /** Where each possession input sits among the mirrored stats. */
  const PossessionStatPosition: seq<nat> := [4, 3, 8, 13, 9, 10]

  /** Row `b` is row `a` seen from the other side, as far as the possession inputs go. */
  predicate PossessionMirror(a: Row, b: Row) {
    forall x :: x in PossessionStats ==> Get(a, x) == Get(b, OpponentName(x)) && Get(a, OpponentName(x)) == Get(b, x)
  }

  lemma {:induction false} LongRowsMirror(g: Row)
    ensures PossessionMirror(LongRow(g, Home), LongRow(g, Away))
  {
    forall x | x in PossessionStats
      ensures Get(LongRow(g, Home), x) == Get(LongRow(g, Away), OpponentName(x))
      ensures Get(LongRow(g, Home), OpponentName(x)) == Get(LongRow(g, Away), x)
    {
      var k :| 0 <= k < |PossessionStats| && PossessionStats[k] == x;
      assert OpponentStats[PossessionStatPosition[k]] == x;
      MirroredStat(g, PossessionStatPosition[k]);
    }
  }

  /** Mirrored rows get the same possession estimate. */
  lemma MirroredPossessions(a: Row, b: Row)
    requires PossessionMirror(a, b)
    ensures Preprocess.Possessions(a) == Preprocess.Possessions(b)
  {
    assert OpponentName("FGA") == "OPP_FGA" && OpponentName("FGM") == "OPP_FGM" && OpponentName("FTA") == "OPP_FTA";
    assert OpponentName("TOV") == "OPP_TOV" && OpponentName("OREB") == "OPP_OREB" && OpponentName("DREB") == "OPP_DREB";
    assert "FGA" in PossessionStats && "FGM" in PossessionStats && "FTA" in PossessionStats;
    assert "TOV" in PossessionStats && "OREB" in PossessionStats && "DREB" in PossessionStats;
    Preprocess.PossessionsSymmetric(a, b);
  }

  // ---------------------------------------------------------------- overtime heuristic

  /** An "OT" starts at position `j` of `s`. */
  predicate OTAt(s: string, j: int) {
    0 <= j && j + 2 <= |s| && s[j] == 'O' && s[j + 1] == 'T'
  }

  predicate ContainsOT(s: string) {
    exists j :: 0 <= j < |s| && OTAt(s, j)
  }

  /** The position of the last "OT" in `s`, if any. */
  function LastOT(s: string): (r: Option<nat>)
    ensures r.Some? ==> OTAt(s, r.value) && forall j :: r.value < j ==> !OTAt(s, j)
    ensures r.None? <==> !ContainsOT(s)
  {
    if |s| < 2 then None
    else if OTAt(s, |s| - 2) then Some(|s| - 2)
    else
      var r := LastOT(s[..|s| - 1]);
      assert forall j :: OTAt(s, j) ==> OTAt(s[..|s| - 1], j);
      r
  }

  /** `_parse_overtime_from_matchup`: 0 without an "OT"; otherwise the text after the last
      "OT", stripped, read as an integer, with 1 for an empty or unreadable suffix. It never
      fails. (Splitting on "OT" and taking the last piece gives the text after the last
      occurrence, since two occurrences of "OT" cannot overlap.) */
  function ParseOvertime(matchup: string): (r: int)
    ensures !ContainsOT(matchup) ==> r == 0
  {
    match LastOT(matchup)
    case None => 0
    case Some(i) =>
      var suffix := Strip(matchup[i + 2..]);
      if suffix == [] then 1
      else match ParseInt(suffix)
        case Some(n) => n
        case None => 1
  }

  lemma {:induction false} LastOTOfPrefix(p: string, tail: string)
    requires forall j :: 0 <= j < |tail| ==> tail[j] != 'O' && tail[j] != 'T'
    ensures LastOT(p + "OT" + tail) == Some(|p|)
  {
    var s := p + "OT" + tail;
    if tail == [] {
      assert OTAt(s, |s| - 2);
    } else {
      assert s[|s| - 1] == tail[|tail| - 1];
      assert s[..|s| - 1] == p + "OT" + tail[..|tail| - 1];
      LastOTOfPrefix(p, tail[..|tail| - 1]);
    }
  }

  /** The heuristic reads what follows the last "OT". */
  lemma OvertimeAfterMarker(prefix: string, tail: string)
    requires forall j :: 0 <= j < |tail| ==> tail[j] != 'O' && tail[j] != 'T'
    ensures ParseOvertime(prefix + "OT" + tail) ==
      if Strip(tail) != [] && ParseInt(Strip(tail)).Some? then ParseInt(Strip(tail)).value else 1
  {
    LastOTOfPrefix(prefix, tail);
    var s := prefix + "OT" + tail;
    assert s[|prefix| + 2..] == tail;
  }

  /** A matchup ending in "OT" and a count yields that count. */
  lemma OvertimeCountSuffix(prefix: string, n: nat)
    ensures ParseOvertime(prefix + "OT" + NatText(n)) == n
  {
    var t := NatText(n);
    assert forall j :: 0 <= j < |t| ==> IsDigit(t[j]);
    OvertimeAfterMarker(prefix, t);
    assert !IsSpace(t[0]) && !IsSpace(t[|t| - 1]);
    StripOfNoSpaceEnds(t);
    assert IntText(n) == t;
    ParseIntText(n);
    assert ParseInt(Strip(t)) == Some(n as int);
  }

  /** A matchup ending in a bare "OT" (as in "2OT") is one overtime period. */
  lemma OvertimeBareMarker(prefix: string)
    ensures ParseOvertime(prefix + "OT") == 1
  {
    OvertimeAfterMarker(prefix, "");
    assert prefix + "OT" + "" == prefix + "OT";
  }

  /** A regulation game, a game marked "2OT" (read as one period), a game marked "OT3", and a
      game whose marker is followed by unreadable text. */
  lemma OvertimeRegulationExample(m: string)
    requires m == "LAL vs. BOS"
    ensures ParseOvertime(m) == 0
  {
    assert forall j :: 0 <= j < |m| ==> m[j] != 'T' by {
      assert m == ['L', 'A', 'L', ' ', 'v', 's', '.', ' ', 'B', 'O', 'S'];
    }
    assert !ContainsOT(m);
  }
  lemma OvertimeLeadingCountExample(m: string)
    requires m == "2OT"
    ensures ParseOvertime(m) == 1
  {
    OvertimeBareMarker("2");
    assert "2" + "OT" == m;
  }
  lemma OvertimeTrailingCountExample(m: string)
    requires m == "OT3"
    ensures ParseOvertime(m) == 3
  {
    OvertimeCountSuffix("", 3);
    TrailingCountText();
  }
  lemma OvertimeUnreadableExample(m: string)
    requires m == "OT x"
    ensures ParseOvertime(m) == 1
  {
    UnreadableTail();
    OvertimeAfterMarker("", " x");
    UnreadableText();
  }

  lemma TrailingCountText()
    ensures "" + "OT" + NatText(3) == "OT3"
  {
    assert NatText(3) == [DigitChar(3)];
  }

  lemma UnreadableText()
    ensures "" + "OT" + " x" == "OT x"
  {
  }

  /** " x" strips to "x", which is not an integer. */
  lemma UnreadableTail()
    ensures Strip(" x") == "x" && ParseInt("x").None?
  {
    var tail := " x";
    assert Strip(tail) == "x" by {
      assert tail[0] == ' ' && tail[1] == 'x';
      assert TrimStart(tail) == "x" by {
        assert tail[1..] == "x";
      }
    }
    var x := "x";
    StripOfNoSpaceEnds(x);
    SignedNonDigit(x);
  }

  /** No integer overtime count gives zero minutes, so pace never divides by zero here, and
      a non-negative count gives at least regulation time. */
  function MinutesPlayed(overtime: int): (r: int)
    ensures r != 0
    ensures overtime >= 0 ==> r >= 48
  {
    48 + 5 * overtime
  }

  // ---------------------------------------------------------------- the feature pipeline

  /** The two columns the pipeline passes through the alias map; `TEAM_ID` is not one. */
  const NormalizedColumns: seq<string> := ["TEAM_ABBREVIATION", "OPP_TEAM_ABBREVIATION"]

  /** `48 + 5 * OVERTIME_PERIODS` on a cell. */
  function MinutesCell(overtime: Cell): Cell {
    NumCell(Add(Some(48.0), Scale(5.0, NumOf(overtime))))
  }

  predicate ReshapeReady(games: Table) {
    Missing(games, BaseColumns) == [] && Missing(games, WideColumns()) == []
  }

  /** The columns the steps after the reshape read. */
  const PipelineInputs: seq<string> :=
    ["GAME_DATE", "OVERTIME_PERIODS", "PTS", "OPP_PTS", "FGM", "FGA", "FG3M", "FG3A", "AST", "TOV"] + Preprocess.PossessionInputs

  predicate HasColumns(t: Table, names: seq<string>) {
    forall c :: c in names ==> c in t.columns
  }

  /** Every column the steps after the reshape read is a column of the long table. */
  lemma PipelineInputsPresent(t: Table)
    requires t.columns == LongColumns()
    ensures HasColumns(t, PipelineInputs)
  {
    assert forall c :: c in OwnColumns ==> c in LongColumns();
    OpponentScoringNames();
    OpponentPossessionNames();
  }

  lemma OpponentScoringNames()
    ensures "OPP_PTS" in LongColumns() && "OPP_FGM" in LongColumns() && "OPP_FGA" in LongColumns()
  {
    var opp := OpponentColumns();
    assert forall c :: c in opp ==> c in LongColumns();
    assert opp[2] == "OPP_PTS" && opp[3] == "OPP_FGM" && opp[4] == "OPP_FGA";
  }

  lemma OpponentPossessionNames()
    ensures "OPP_FTA" in LongColumns() && "OPP_OREB" in LongColumns() && "OPP_DREB" in LongColumns() && "OPP_TOV" in LongColumns()
  {
    var opp := OpponentColumns();
    assert forall c :: c in opp ==> c in LongColumns();
    assert opp[8] == "OPP_FTA" && opp[9] == "OPP_OREB" && opp[10] == "OPP_DREB" && opp[13] == "OPP_TOV";
  }

  // Facts the pipeline establishes about its rows, grouped by the columns they read, so
  // that each later step can be shown to keep them.

  /** The columns the facts about the two rows of a game read. */
  predicate PairFactColumn(c: string) {
    c in ["IS_HOME", "TEAM_ID"] || c in PossessionStats || (IsOpponentName(c) && c[4..] in PossessionStats)
  }

  /** The columns the facts about every row read. */
  predicate GameFactColumn(c: string) {
    PairFactColumn(c) || c in ["TEAM_ABBREVIATION", "OPP_TEAM_ABBREVIATION", "OVERTIME_PERIODS"]
  }

  /** Rows `i` and `n + i` are the home and away views of game `g`. */
  predicate PairFacts(home: Row, away: Row, g: Row) {
    Get(home, "IS_HOME") == Flag(true) && Get(away, "IS_HOME") == Flag(false) &&
    Get(home, "TEAM_ID") == Get(g, "TEAM_ID_HOME") && Get(away, "TEAM_ID") == Get(g, "TEAM_ID_AWAY") &&
    PossessionMirror(home, away)
  }

  /** Every row has a numeric overtime count and upper-case abbreviations. */
  predicate RowFacts(row: Row) {
    Get(row, "OVERTIME_PERIODS").Num? && IsIntegral(Get(row, "OVERTIME_PERIODS").x) &&
    (Get(row, "TEAM_ABBREVIATION").Str? ==> IsUpper(Get(row, "TEAM_ABBREVIATION").s)) &&
    (Get(row, "OPP_TEAM_ABBREVIATION").Str? ==> IsUpper(Get(row, "OPP_TEAM_ABBREVIATION").s))
  }

  predicate GameFacts(t: Table, games: Table) {
    var n := |games.rows|;
    |t.rows| == 2 * n &&
    (forall i :: 0 <= i < n ==> PairFacts(t.rows[i], t.rows[n + i], games.rows[i])) &&
    (forall j :: 0 <= j < |t.rows| ==> RowFacts(t.rows[j]))
  }

  predicate PossessionsAgree(t: Table, n: int) {
    |t.rows| == 2 * n && forall i :: 0 <= i < n ==> Get(t.rows[i], "EST_POSSESSIONS") == Get(t.rows[n + i], "EST_POSSESSIONS")
  }

  predicate MinutesFacts(row: Row) {
    Get(row, "MINUTES_PLAYED").Num? && Get(row, "MINUTES_PLAYED").x != 0.0
  }

  predicate PaceFacts(row: Row) {
    Get(row, "PACE") == Undef <==> NumOf(Get(row, "EST_POSSESSIONS")).None?
  }

  /** `t2` has the rows of `t` with at most the columns `changed` rewritten. */
  ghost predicate Unchanged(t: Table, t2: Table, changed: set<string>) {
    |t2.rows| == |t.rows| &&
    forall j, c :: 0 <= j < |t.rows| && c !in changed ==> Get(t2.rows[j], c) == Get(t.rows[j], c)
  }

  lemma RowFactsKept(a: Row, a2: Row, changed: set<string>)
    requires RowFacts(a)
    requires forall c :: c !in changed ==> Get(a2, c) == Get(a, c)
    requires forall c :: c in changed ==> !GameFactColumn(c)
    ensures RowFacts(a2)
  {
    assert GameFactColumn("OVERTIME_PERIODS") && GameFactColumn("TEAM_ABBREVIATION") && GameFactColumn("OPP_TEAM_ABBREVIATION");
  }

  lemma PairFactsKept(a: Row, b: Row, a2: Row, b2: Row, g: Row, changed: set<string>)
    requires PairFacts(a, b, g)
    requires forall c :: c !in changed ==> Get(a2, c) == Get(a, c) && Get(b2, c) == Get(b, c)
    requires forall c :: c in changed ==> !PairFactColumn(c)
    ensures PairFacts(a2, b2, g)
  {
    assert PairFactColumn("IS_HOME") && PairFactColumn("TEAM_ID");
    forall x | x in PossessionStats
      ensures PairFactColumn(x) && PairFactColumn(OpponentName(x))
    {
      assert OpponentName(x)[..4] == "OPP_" && OpponentName(x)[4..] == x;
    }
  }

  /** None of the columns the season, possession, minutes and pace steps add is a column
      the facts about games read. */
  lemma SeasonYearFree() ensures !GameFactColumn("SEASON_YEAR") { NotOpponentName("SEASON_YEAR"); }
  lemma SeasonLabelFree() ensures !GameFactColumn("SEASON_LABEL") { NotOpponentName("SEASON_LABEL"); }
  lemma PossessionsFree() ensures !GameFactColumn("EST_POSSESSIONS") { NotOpponentName("EST_POSSESSIONS"); }
  lemma MinutesFree() ensures !GameFactColumn("MINUTES_PLAYED") { NotOpponentName("MINUTES_PLAYED"); }
  lemma PaceFree() ensures !GameFactColumn("PACE") { NotOpponentName("PACE"); }

  lemma GameFactsKept(t: Table, t2: Table, games: Table, changed: set<string>)
    requires GameFacts(t, games) && Unchanged(t, t2, changed)
    requires forall c :: c in changed ==> !GameFactColumn(c)
    ensures GameFacts(t2, games)
  {
    var n := |games.rows|;
    forall i | 0 <= i < n
      ensures PairFacts(t2.rows[i], t2.rows[n + i], games.rows[i])
    {
      PairFactsKept(t.rows[i], t.rows[n + i], t2.rows[i], t2.rows[n + i], games.rows[i], changed);
    }
    forall j | 0 <= j < |t2.rows|
      ensures RowFacts(t2.rows[j])
    {
      RowFactsKept(t.rows[j], t2.rows[j], changed);
    }
  }

  lemma FeatureFactsKept(t: Table, t2: Table, n: int, changed: set<string>)
    requires Unchanged(t, t2, changed)
    ensures PossessionsAgree(t, n) && "EST_POSSESSIONS" !in changed ==> PossessionsAgree(t2, n)
    ensures (forall j :: 0 <= j < |t.rows| ==> MinutesFacts(t.rows[j])) && "MINUTES_PLAYED" !in changed ==>
      forall j :: 0 <= j < |t2.rows| ==> MinutesFacts(t2.rows[j])
    ensures (forall j :: 0 <= j < |t.rows| ==> PaceFacts(t.rows[j])) && "PACE" !in changed && "EST_POSSESSIONS" !in changed ==>
      forall j :: 0 <= j < |t2.rows| ==> PaceFacts(t2.rows[j])
  {
  }

  /** The alias step rewrites only the abbreviation columns. */
  lemma NormalizedElsewhereUnchanged(long: Table, m: map<string, string>)
    ensures Unchanged(long, Preprocess.NormalizeAll(m, long, NormalizedColumns), set c | c in NormalizedColumns)
  {
    var t := Preprocess.NormalizeAll(m, long, NormalizedColumns);
    forall j, c | 0 <= j < |long.rows| && c !in set c | c in NormalizedColumns
      ensures Get(t.rows[j], c) == Get(long.rows[j], c)
    {
      Preprocess.NormalizeAllUntouched(m, long, NormalizedColumns, j, c);
    }
  }

  /** The two rows the reshape makes of a game have the per-game facts. */
  lemma LongPairFacts(g: Row)
    ensures PairFacts(LongRow(g, Home), LongRow(g, Away), g)
  {
    LongTeamIds(g);
    LongHomeFlags(g);
    LongRowsMirror(g);
  }

  lemma LongHomeFlags(g: Row)
    ensures Get(LongRow(g, Home), "IS_HOME") == Flag(true) && Get(LongRow(g, Away), "IS_HOME") == Flag(false)
  {
    LongRowDerived(g, Home);
    LongRowDerived(g, Away);
  }

  /** `TEAM_ID` is copied from the row's own side and never normalised. */
  lemma LongTeamIds(g: Row)
    ensures Get(LongRow(g, Home), "TEAM_ID") == Get(g, "TEAM_ID_HOME")
    ensures Get(LongRow(g, Away), "TEAM_ID") == Get(g, "TEAM_ID_AWAY")
  {
    TeamIdNames();
    LongTeamId(g, Home);
    LongTeamId(g, Away);
  }

  lemma LongTeamId(g: Row, side: Side)
    ensures Get(LongRow(g, side), OwnColumns[0]) == Get(g, OwnColumns[0] + Suffix(side))
  {
    LongRowOwn(g, side, 0);
  }

  lemma TeamIdNames()
    ensures OwnColumns[0] == "TEAM_ID"
    ensures OwnColumns[0] + Suffix(Home) == "TEAM_ID_HOME" && OwnColumns[0] + Suffix(Away) == "TEAM_ID_AWAY"
  {
  }

  /** What the pipeline needs of the reshaped table, stated without the row construction. */
  lemma LongTableFacts(games: Table, long: Table)
    requires |long.rows| == 2 * |games.rows|
    requires forall i :: 0 <= i < |games.rows| ==>
      long.rows[i] == LongRow(games.rows[i], Home) && long.rows[|games.rows| + i] == LongRow(games.rows[i], Away)
    ensures forall i :: 0 <= i < |games.rows| ==> PairFacts(long.rows[i], long.rows[|games.rows| + i], games.rows[i])
    ensures forall j :: 0 <= j < |long.rows| ==>
      Get(long.rows[j], "OVERTIME_PERIODS").Num? && IsIntegral(Get(long.rows[j], "OVERTIME_PERIODS").x)
  {
    var n := |games.rows|;
    forall i | 0 <= i < n
      ensures PairFacts(long.rows[i], long.rows[n + i], games.rows[i])
    {
      LongPairFacts(games.rows[i]);
    }
    forall j | 0 <= j < |long.rows|
      ensures Get(long.rows[j], "OVERTIME_PERIODS").Num? && IsIntegral(Get(long.rows[j], "OVERTIME_PERIODS").x)
    {
      if j < n {
        LongRowDerived(games.rows[j], Home);
      } else {
        assert long.rows[j] == long.rows[n + (j - n)];
        LongRowDerived(games.rows[j - n], Away);
      }
    }
  }

  /** The alias step keeps every column it is not given. */
  lemma NormalizedElsewhere(long: Table, m: map<string, string>, columns: seq<string>)
    ensures Unchanged(long, Preprocess.NormalizeAll(m, long, columns), set c | c in columns)
  {
    var t := Preprocess.NormalizeAll(m, long, columns);
    forall j, c | 0 <= j < |long.rows| && c !in set c | c in columns
      ensures Get(t.rows[j], c) == Get(long.rows[j], c)
    {
      Preprocess.NormalizeAllUntouched(m, long, columns, j, c);
    }
  }

  /** After the alias step the table has all the per-game facts, for any list of columns
      that covers both abbreviations and none of the columns the pair facts read. */
  lemma NormalizedGameFacts(games: Table, long: Table, m: map<string, string>, columns: seq<string>)
    requires |long.rows| == 2 * |games.rows| && long.columns == LongColumns()
    requires forall i :: 0 <= i < |games.rows| ==> PairFacts(long.rows[i], long.rows[|games.rows| + i], games.rows[i])
    requires forall j :: 0 <= j < |long.rows| ==>
      Get(long.rows[j], "OVERTIME_PERIODS").Num? && IsIntegral(Get(long.rows[j], "OVERTIME_PERIODS").x)
    requires forall k :: k in m ==> IsUpper(m[k])
    requires "TEAM_ABBREVIATION" in columns && "OPP_TEAM_ABBREVIATION" in columns && "OVERTIME_PERIODS" !in columns
    requires forall c :: c in columns ==> !PairFactColumn(c)
    ensures GameFacts(Preprocess.NormalizeAll(m, long, columns), games)
  {
    var t := Preprocess.NormalizeAll(m, long, columns);
    var n := |games.rows|;
    var changed := set c | c in columns;
    NormalizedElsewhere(long, m, columns);
    forall i | 0 <= i < n
      ensures PairFacts(t.rows[i], t.rows[n + i], games.rows[i])
    {
      PairFactsKept(long.rows[i], long.rows[n + i], t.rows[i], t.rows[n + i], games.rows[i], changed);
    }
    AbbreviationsInLongColumns();
    NormalizedRowFacts(long, m, columns);
  }

  lemma AbbreviationsInLongColumns()
    ensures "TEAM_ABBREVIATION" in LongColumns() && "OPP_TEAM_ABBREVIATION" in LongColumns()
  {
    assert OwnColumns[1] == "TEAM_ABBREVIATION";
    OwnInLongColumns(1);
    assert OpponentStats[1] == "TEAM_ABBREVIATION";
    OpponentAbbreviationName();
    assert OpponentColumns()[1] in OpponentColumns();
  }

  lemma OpponentAbbreviationName()
    ensures OpponentName("TEAM_ABBREVIATION") == "OPP_TEAM_ABBREVIATION"
  {
  }

  lemma NormalizedRowFacts(long: Table, m: map<string, string>, columns: seq<string>)
    requires "TEAM_ABBREVIATION" in long.columns && "OPP_TEAM_ABBREVIATION" in long.columns
    requires forall j :: 0 <= j < |long.rows| ==>
      Get(long.rows[j], "OVERTIME_PERIODS").Num? && IsIntegral(Get(long.rows[j], "OVERTIME_PERIODS").x)
    requires forall k :: k in m ==> IsUpper(m[k])
    requires "TEAM_ABBREVIATION" in columns && "OPP_TEAM_ABBREVIATION" in columns && "OVERTIME_PERIODS" !in columns
    ensures forall j :: 0 <= j < |long.rows| ==> RowFacts(Preprocess.NormalizeAll(m, long, columns).rows[j])
  {
    var t := Preprocess.NormalizeAll(m, long, columns);
    forall j | 0 <= j < |t.rows|
      ensures RowFacts(t.rows[j])
    {
      Preprocess.NormalizeAllUntouched(m, long, columns, j, "OVERTIME_PERIODS");
      Preprocess.NormalizedTextIsUpper(m, long, columns, j, "TEAM_ABBREVIATION");
      Preprocess.NormalizedTextIsUpper(m, long, columns, j, "OPP_TEAM_ABBREVIATION");
    }
  }

  lemma NormalizedColumnsFacts()
    ensures "TEAM_ABBREVIATION" in NormalizedColumns && "OPP_TEAM_ABBREVIATION" in NormalizedColumns
    ensures "OVERTIME_PERIODS" !in NormalizedColumns
    ensures forall c :: c in NormalizedColumns ==> !PairFactColumn(c)
  {
    NotOpponentName("TEAM_ABBREVIATION");
    assert "OPP_TEAM_ABBREVIATION"[4..] == "TEAM_ABBREVIATION";
  }

  // Each step of the feature pipeline succeeds on a table that has the pipeline's input
  // columns, and keeps the facts established so far.

  lemma SeasonStep(t: Table, games: Table)
    requires HasColumns(t, PipelineInputs) && GameFacts(t, games)
    ensures var r := Preprocess.AttachSeason(t, "GAME_DATE");
      r.Success? && HasColumns(r.value, PipelineInputs) && GameFacts(r.value, games)
  {
    var r := Preprocess.AttachSeason(t, "GAME_DATE");
    assert "GAME_DATE" in PipelineInputs;
    SeasonYearFree();
    SeasonLabelFree();
    GameFactsKept(t, r.value, games, {"SEASON_YEAR", "SEASON_LABEL"});
  }

  lemma PossessionStep(t: Table, games: Table)
    requires HasColumns(t, PipelineInputs) && GameFacts(t, games)
    ensures var r := Preprocess.EstimatePossessions(t);
      r.Success? && HasColumns(r.value, PipelineInputs) && "EST_POSSESSIONS" in r.value.columns &&
      GameFacts(r.value, games) && PossessionsAgree(r.value, |games.rows|)
  {
    var r := Preprocess.EstimatePossessions(t);
    assert forall c :: c in Preprocess.PossessionInputs ==> c in PipelineInputs;
    assert r.Success?;
    PossessionsFree();
    GameFactsKept(t, r.value, games, {"EST_POSSESSIONS"});
    PossessionsMirrored(t, games);
  }

  /** The two views of a game get the same possession estimate. */
  lemma PossessionsMirrored(t: Table, games: Table)
    requires Preprocess.EstimatePossessions(t).Success? && GameFacts(t, games)
    ensures PossessionsAgree(Preprocess.EstimatePossessions(t).value, |games.rows|)
  {
    var r := Preprocess.EstimatePossessions(t).value;
    var n := |games.rows|;
    forall i | 0 <= i < n
      ensures Get(r.rows[i], "EST_POSSESSIONS") == Get(r.rows[n + i], "EST_POSSESSIONS")
    {
      assert PairFacts(t.rows[i], t.rows[n + i], games.rows[i]);
      MirroredPossessions(t.rows[i], t.rows[n + i]);
    }
  }

  /** The `MINUTES_PLAYED` column: `48 + 5 * OVERTIME_PERIODS` row by row. */
  function MinutesColumn(t: Table): (r: seq<Cell>)
    ensures |r| == |t.rows|
    ensures forall j :: 0 <= j < |t.rows| ==> r[j] == MinutesCell(Get(t.rows[j], "OVERTIME_PERIODS"))
  {
    seq(|t.rows|, j requires 0 <= j < |t.rows| => MinutesCell(Get(t.rows[j], "OVERTIME_PERIODS")))
  }

  lemma MinutesStep(t: Table, games: Table)
    requires HasColumns(t, PipelineInputs) && "EST_POSSESSIONS" in t.columns
    requires GameFacts(t, games) && PossessionsAgree(t, |games.rows|)
    ensures var r := SetColumn(t, "MINUTES_PLAYED", MinutesColumn(t));
      HasColumns(r, PipelineInputs) && "EST_POSSESSIONS" in r.columns && "MINUTES_PLAYED" in r.columns &&
      GameFacts(r, games) && PossessionsAgree(r, |games.rows|) &&
      forall j :: 0 <= j < |r.rows| ==> MinutesFacts(r.rows[j])
  {
    var r := SetColumn(t, "MINUTES_PLAYED", MinutesColumn(t));
    MinutesFree();
    GameFactsKept(t, r, games, {"MINUTES_PLAYED"});
    FeatureFactsKept(t, r, |games.rows|, {"MINUTES_PLAYED"});
    forall j | 0 <= j < |r.rows|
      ensures MinutesFacts(r.rows[j])
    {
      assert RowFacts(t.rows[j]);
      var ot := Get(t.rows[j], "OVERTIME_PERIODS").x.Floor;
      assert 48.0 + 5.0 * (ot as real) == MinutesPlayed(ot) as real;
    }
  }

  /** Every fact the pipeline promises about its output. */
  predicate FeatureFacts(t: Table, games: Table) {
    GameFacts(t, games) && PossessionsAgree(t, |games.rows|) &&
    forall j :: 0 <= j < |t.rows| ==> MinutesFacts(t.rows[j]) && PaceFacts(t.rows[j])
  }

  lemma PaceStep(t: Table, games: Table)
    requires HasColumns(t, PipelineInputs) && "EST_POSSESSIONS" in t.columns && "MINUTES_PLAYED" in t.columns
    requires GameFacts(t, games) && PossessionsAgree(t, |games.rows|)
    requires forall j :: 0 <= j < |t.rows| ==> MinutesFacts(t.rows[j])
    ensures var r := Features.ComputePace(t, "EST_POSSESSIONS", "MINUTES_PLAYED");
      r.Success? && HasColumns(r.value, PipelineInputs) && "EST_POSSESSIONS" in r.value.columns && FeatureFacts(r.value, games)
  {
    var r := Features.ComputePace(t, "EST_POSSESSIONS", "MINUTES_PLAYED").value;
    PaceFree();
    GameFactsKept(t, r, games, {"PACE"});
    FeatureFactsKept(t, r, |games.rows|, {"PACE"});
    forall j | 0 <= j < |r.rows|
      ensures PaceFacts(r.rows[j])
    {
      assert MinutesFacts(t.rows[j]);
    }
  }

  /** The columns every fact about the output reads. */
  predicate FeatureFactColumn(c: string) {
    GameFactColumn(c) || c in ["EST_POSSESSIONS", "MINUTES_PLAYED", "PACE"]
  }

  /** A later step that rewrites only the columns `changed` keeps every fact. */
  lemma FeatureFactsKeptBy(t: Table, t2: Table, games: Table, changed: set<string>)
    requires FeatureFacts(t, games) && Unchanged(t, t2, changed)
    requires forall c :: c in changed ==> !FeatureFactColumn(c)
    ensures FeatureFacts(t2, games)
  {
    GameFactsKept(t, t2, games, changed);
    FeatureFactsKept(t, t2, |games.rows|, changed);
  }

  /** None of the efficiency, shot-profile and ball-security outputs is a column the facts
      read; one name at a time keeps each comparison small. */
  lemma ThreePointRateFree() ensures !FeatureFactColumn("THREE_POINT_RATE") { NotOpponentName("THREE_POINT_RATE"); }
  lemma ThreePointShareFree() ensures !FeatureFactColumn("THREE_POINT_SHARE_OF_PTS") { NotOpponentName("THREE_POINT_SHARE_OF_PTS"); }
  lemma EffectiveFgPctFree() ensures !FeatureFactColumn("EFFECTIVE_FG_PCT") { NotOpponentName("EFFECTIVE_FG_PCT"); }
  lemma AstTovRatioFree() ensures !FeatureFactColumn("AST_TOV_RATIO") { NotOpponentName("AST_TOV_RATIO"); }
  lemma TurnoverPctFree() ensures !FeatureFactColumn("TURNOVER_PCT") { NotOpponentName("TURNOVER_PCT"); }
  lemma OffEffName() ensures Features.EfficiencyColumn("OFF") == "OFF_EFF_PER_100" { }
  lemma DefEffName() ensures Features.EfficiencyColumn("DEF") == "DEF_EFF_PER_100" { }
  lemma OffEffFree() ensures !FeatureFactColumn("OFF_EFF_PER_100") { NotOpponentName("OFF_EFF_PER_100"); }
  lemma DefEffFree() ensures !FeatureFactColumn("DEF_EFF_PER_100") { NotOpponentName("DEF_EFF_PER_100"); }

  lemma EfficiencyStep(t: Table, games: Table, pointsCol: string, prefix: string)
    requires HasColumns(t, PipelineInputs) && "EST_POSSESSIONS" in t.columns && FeatureFacts(t, games)
    requires pointsCol in PipelineInputs && (prefix == "OFF" || prefix == "DEF")
    ensures var r := Features.ComputeEfficiency(t, pointsCol, "EST_POSSESSIONS", prefix);
      r.Success? && HasColumns(r.value, PipelineInputs) && "EST_POSSESSIONS" in r.value.columns && FeatureFacts(r.value, games)
  {
    var r := Features.ComputeEfficiency(t, pointsCol, "EST_POSSESSIONS", prefix).value;
    var name := Features.EfficiencyColumn(prefix);
    if prefix == "OFF" {
      OffEffName();
      OffEffFree();
    } else {
      DefEffName();
      DefEffFree();
    }
    FeatureFactsKeptBy(t, r, games, {name});
  }

  /** The shot profile rewrites its three columns and nothing else. */
  lemma ShotProfileUnchanged(t: Table)
    requires "FGM" in t.columns && "FGA" in t.columns && "FG3M" in t.columns && "FG3A" in t.columns
    ensures var r := Features.ComputeShotProfile(t, "FGM", "FGA", "FG3M", "FG3A");
      r.Success? && ("AST" in r.value.columns) == ("AST" in t.columns) && ("TOV" in r.value.columns) == ("TOV" in t.columns) &&
      Unchanged(t, r.value, {"THREE_POINT_RATE", "THREE_POINT_SHARE_OF_PTS", "EFFECTIVE_FG_PCT"})
  {
    assert Missing(t, ["FGM", "FGA", "FG3M", "FG3A"]) == [];
    var r := Features.ComputeShotProfile(t, "FGM", "FGA", "FG3M", "FG3A").value;
    var changed := {"THREE_POINT_RATE", "THREE_POINT_SHARE_OF_PTS", "EFFECTIVE_FG_PCT"};
    forall j, c | 0 <= j < |t.rows| && c !in changed
      ensures Get(r.rows[j], c) == Get(t.rows[j], c)
    {
    }
  }

  lemma ShotProfileStep(t: Table, games: Table)
    requires "FGM" in t.columns && "FGA" in t.columns && "FG3M" in t.columns && "FG3A" in t.columns
    requires "AST" in t.columns && "TOV" in t.columns && FeatureFacts(t, games)
    ensures var r := Features.ComputeShotProfile(t, "FGM", "FGA", "FG3M", "FG3A");
      r.Success? && "AST" in r.value.columns && "TOV" in r.value.columns && FeatureFacts(r.value, games)
  {
    ShotProfileUnchanged(t);
    var r := Features.ComputeShotProfile(t, "FGM", "FGA", "FG3M", "FG3A").value;
    ThreePointRateFree();
    ThreePointShareFree();
    EffectiveFgPctFree();
    FeatureFactsKeptBy(t, r, games, {"THREE_POINT_RATE", "THREE_POINT_SHARE_OF_PTS", "EFFECTIVE_FG_PCT"});
  }

  lemma BallSecurityStep(t: Table, games: Table)
    requires "AST" in t.columns && "TOV" in t.columns && FeatureFacts(t, games)
    ensures var r := Features.ComputeBallSecurity(t, "AST", "TOV");
      r.Success? && FeatureFacts(r.value, games)
  {
    assert Missing(t, ["AST", "TOV"]) == [];
    var r := Features.ComputeBallSecurity(t, "AST", "TOV").value;
    var changed := {"AST_TOV_RATIO", "TURNOVER_PCT"};
    forall j, c | 0 <= j < |t.rows| && c !in changed
      ensures Get(r.rows[j], c) == Get(t.rows[j], c)
    {
    }
    AstTovRatioFree();
    TurnoverPctFree();
    FeatureFactsKeptBy(t, r, games, changed);
  }

  /** `build_team_game_features`: scope check, read and classify the games, reshape,
      normalise the two abbreviation columns, attach the season, estimate possessions, add
      minutes played, then pace, offensive and defensive efficiency, shot profile and ball
      security. The raw games table stands for what the ingestor reads. Once the reshape
      succeeds every later step does: the reshape guarantees every column they read. */
  method BuildTeamGameFeatures(raw: Table, preprocessor: Preprocess.Preprocessor, playoffsOnly: bool, regularSeasonOnly: bool)
    returns (r: Result<Table>)
    requires preprocessor.Valid()
    ensures playoffsOnly && regularSeasonOnly ==> r == Failure(ConflictingScope)
    ensures r.Success? <==>
      Ingest.Games(raw, playoffsOnly, regularSeasonOnly).Success? && ReshapeReady(Ingest.Games(raw, playoffsOnly, regularSeasonOnly).value)
    ensures r.Success? ==> FeatureFacts(r.value, Ingest.Games(raw, playoffsOnly, regularSeasonOnly).value)
    ensures r == TeamGameFeatures(raw, preprocessor.aliasMap, playoffsOnly, regularSeasonOnly)
  {
    if playoffsOnly && regularSeasonOnly {
      return Failure(ConflictingScope);
    }
    var games :- Ingest.Games(raw, playoffsOnly, regularSeasonOnly);
    var long :- ReshapeGamesToLong(games);
    LongTableFacts(games, long);
    PipelineInputsPresent(long);
    var shaped := long;
    long := preprocessor.NormalizeTeamIds(long, NormalizedColumns);
    Preprocess.AliasMapValuesUpper(preprocessor.teamAliases);
    NormalizedColumnsFacts();
    NormalizedGameFacts(games, shaped, preprocessor.aliasMap, NormalizedColumns);

    // From here on no step can fail.
    var enriched := Enrich(long, games);
    r := Success(enriched);
  }

  /** The feature chain after the team-id normalisation, as a value: each step applied to
      the previous one's table, the first failure passed on. */
  function FeatureChain(long: Table): Result<Table> {
    var seasoned :- Preprocess.AttachSeason(long, "GAME_DATE");
    var possessions :- Preprocess.EstimatePossessions(seasoned);
    var timed := SetColumn(possessions, "MINUTES_PLAYED", MinutesColumn(possessions));
    var paced :- Features.ComputePace(timed, "EST_POSSESSIONS", "MINUTES_PLAYED");
    var offense :- Features.ComputeEfficiency(paced, "PTS", "EST_POSSESSIONS", "OFF");
    var defense :- Features.ComputeEfficiency(offense, "OPP_PTS", "EST_POSSESSIONS", "DEF");
    var shots :- Features.ComputeShotProfile(defense, "FGM", "FGA", "FG3M", "FG3A");
    Features.ComputeBallSecurity(shots, "AST", "TOV")
  }

  /** `build_team_game_features` as a value: the scope check, the ingest, the reshape, the
      normalisation through `aliasMap`, then the feature chain, the first failure passed on. */
  function TeamGameFeatures(raw: Table, aliasMap: map<string, string>, playoffsOnly: bool, regularSeasonOnly: bool)
    : Result<Table>
  {
    if playoffsOnly && regularSeasonOnly then Failure(ConflictingScope)
    else
      var games :- Ingest.Games(raw, playoffsOnly, regularSeasonOnly);
      var long :- Reshaped(games);
      FeatureChain(Preprocess.NormalizeAll(aliasMap, long, NormalizedColumns))
  }

  /** The steps after the team-id normalisation: season, possessions, minutes, pace, the two
      efficiencies, shot profile and ball security. None of them can fail on a table that has
      every pipeline input, so each result is taken directly. */
  method Enrich(long: Table, games: Table) returns (enriched: Table)
    requires HasColumns(long, PipelineInputs) && GameFacts(long, games)
    ensures FeatureChain(long) == Success(enriched)
    ensures FeatureFacts(enriched, games)
  {
    var t := long;
    SeasonStep(t, games);
    t := Preprocess.AttachSeason(t, "GAME_DATE").value;
    PossessionStep(t, games);
    enriched := Preprocess.EstimatePossessions(t).value;
    MinutesStep(enriched, games);
    enriched := SetColumn(enriched, "MINUTES_PLAYED", MinutesColumn(enriched));
    PaceStep(enriched, games);
    enriched := Features.ComputePace(enriched, "EST_POSSESSIONS", "MINUTES_PLAYED").value;
    EfficiencyStep(enriched, games, "PTS", "OFF");
    enriched := Features.ComputeEfficiency(enriched, "PTS", "EST_POSSESSIONS", "OFF").value;
    EfficiencyStep(enriched, games, "OPP_PTS", "DEF");
    enriched := Features.ComputeEfficiency(enriched, "OPP_PTS", "EST_POSSESSIONS", "DEF").value;
    assert "FGM" in PipelineInputs && "FGA" in PipelineInputs && "FG3M" in PipelineInputs && "FG3A" in PipelineInputs;
    assert "AST" in PipelineInputs && "TOV" in PipelineInputs;
    ShotProfileStep(enriched, games);
    enriched := Features.ComputeShotProfile(enriched, "FGM", "FGA", "FG3M", "FG3A").value;
    BallSecurityStep(enriched, games);
    enriched := Features.ComputeBallSecurity(enriched, "AST", "TOV").value;
  }

  // ---------------------------------------------------------------- season summary

  /** The default team-season aggregate has no `GAMES_PLAYED` column, and keeps the era
      rollup's grouping columns other than the era columns it has not been given yet. */
  lemma TeamSummaryColumns()
    ensures "GAMES_PLAYED" !in Aggregation.OutputColumns(Aggregation.TeamKeyColumns, Aggregation.TeamMetrics, true)
    ensures "SEASON_YEAR" in Aggregation.OutputColumns(Aggregation.TeamKeyColumns, Aggregation.TeamMetrics, true)
    ensures "IS_PLAYOFFS" in Aggregation.OutputColumns(Aggregation.TeamKeyColumns, Aggregation.TeamMetrics, true)
  {
    var cs := Aggregation.TeamKeyColumns + Aggregation.MetricColumns(Aggregation.TeamMetrics);
    assert cs == ["TEAM_ID", "SEASON_YEAR", "IS_PLAYOFFS", "PACE", "OFF_EFF_PER_100", "DEF_EFF_PER_100",
                  "THREE_POINT_RATE", "AST_TOV_RATIO", "WIN"];
    var out := Aggregation.OutputColumns(Aggregation.TeamKeyColumns, Aggregation.TeamMetrics, true);
    assert out[1] == "SEASON_YEAR" && out[2] == "IS_PLAYOFFS";
    forall i | 0 <= i < |out|
      ensures out[i] != "GAMES_PLAYED"
    {
      assert out[i] == Aggregation.OutputName(cs[i]);
    }
  }

  /** `aggregate_team_season` with its default keys and metrics. */
  function DefaultTeamAggregate(features: Table): Result<Table> {
    Aggregation.AggregateTeamSeason(features, Aggregation.TeamKeyColumns, Aggregation.TeamMetrics)
  }

  /** The stages of `generate_team_season_summary` after the features are built: aggregate
      per team season, annotate eras (the era definitions are checked to be non-empty only
      once the season column is known to exist), and roll up by era weighted by games
      played. The rollup needs a `GAMES_PLAYED` column the aggregate never has, so whenever
      the earlier stages succeed the rollup fails naming exactly that column. */
  method SummarizeTeamFeatures(features: Table, eras: seq<Era.EraDefinition>) returns (r: Result<(Table, Table)>)
    ensures r.Failure?
    ensures DefaultTeamAggregate(features).Failure? ==> r == Failure(DefaultTeamAggregate(features).error)
    ensures DefaultTeamAggregate(features).Success? && eras == [] ==> r == Failure(EmptyEraDefinitions)
    ensures DefaultTeamAggregate(features).Success? && eras != [] ==>
      (Era.AnnotateEra(DefaultTeamAggregate(features).value, "SEASON_YEAR", eras).Failure? ==>
         r == Failure(Era.AnnotateEra(DefaultTeamAggregate(features).value, "SEASON_YEAR", eras).error))
    ensures DefaultTeamAggregate(features).Success? && eras != [] ==>
      (Era.AnnotateEra(DefaultTeamAggregate(features).value, "SEASON_YEAR", eras).Success? ==> r == Failure(MissingColumnSet({"GAMES_PLAYED"})))
  {
    var summary :- DefaultTeamAggregate(features);
    TeamSummaryColumns();
    var checked :- Era.CheckEraDefinitions(eras);
    var annotated :- Era.AnnotateEra(summary, "SEASON_YEAR", checked);
    assert "GAMES_PLAYED" !in annotated.columns;
    assert Era.RequiredAbsent(annotated, "GAMES_PLAYED") == {"GAMES_PLAYED"};
    var eraSummary := Era.SummarizeByEra(annotated, "GAMES_PLAYED", Era.EraMetrics);
    r := match eraSummary
      case Failure(e) => Failure(e)
      case Success(s) => Success((annotated, s));
  }

  /** `generate_team_season_summary` without saving: the team summary and the era summary.
      It never returns one, because the era rollup always fails. */
  method GenerateTeamSeasonSummary(raw: Table, preprocessor: Preprocess.Preprocessor, playoffsOnly: bool, regularSeasonOnly: bool,
                                   eras: seq<Era.EraDefinition>)
    returns (r: Result<(Table, Table)>)
    requires preprocessor.Valid()
    ensures r.Failure?
    ensures playoffsOnly && regularSeasonOnly ==> r == Failure(ConflictingScope)
    ensures TeamGameFeatures(raw, preprocessor.aliasMap, playoffsOnly, regularSeasonOnly).Failure? ==>
      r == Failure(TeamGameFeatures(raw, preprocessor.aliasMap, playoffsOnly, regularSeasonOnly).error)
    ensures var features := TeamGameFeatures(raw, preprocessor.aliasMap, playoffsOnly, regularSeasonOnly);
      features.Success? && DefaultTeamAggregate(features.value).Success? && eras != [] &&
      Era.AnnotateEra(DefaultTeamAggregate(features.value).value, "SEASON_YEAR", eras).Success? ==>
        r == Failure(MissingColumnSet({"GAMES_PLAYED"}))
  {
    var features :- BuildTeamGameFeatures(raw, preprocessor, playoffsOnly, regularSeasonOnly);
    r := SummarizeTeamFeatures(features, eras);
  }
}
