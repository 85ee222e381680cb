/** `Preprocessor`: team-identifier harmonisation, season derivation and the possession
    estimate. */
module Preprocess {
  import opened Strings
  import opened Tables

  /** One alias record: the canonical team id and the spellings that stand for it. */
  datatype TeamAlias = TeamAlias(canonicalId: string, aliases: seq<string>)

  // ---------------------------------------------------------------- alias map

  /** The map after the inner loop has stored `names`, in order, for one canonical id. */
  function EntryInto(m: map<string, string>, names: seq<string>, canonical: string): map<string, string>
  {
    if names == [] then m
    else EntryInto(m, names[..|names| - 1], canonical)[Upper(names[|names| - 1]) := Upper(canonical)]
  }

  /** The map `_build_alias_map` builds: every alias record in order, later entries
      overwriting earlier ones. */
  function AliasMap(records: seq<TeamAlias>): map<string, string>
  {
    if records == [] then map[]
    else
      var last := records[|records| - 1];
      EntryInto(AliasMap(records[..|records| - 1]), last.aliases, last.canonicalId)
  }

  /** The upper-cased spellings one record contributes. */
  function UpperNames(record: TeamAlias): set<string> {
    set j | 0 <= j < |record.aliases| :: Upper(record.aliases[j])
  }

  lemma {:induction false} EntryIntoFacts(m: map<string, string>, names: seq<string>, canonical: string)
    ensures var r := EntryInto(m, names, canonical);
      && r.Keys == m.Keys + (set j | 0 <= j < |names| :: Upper(names[j]))
      && (forall j :: 0 <= j < |names| ==> r[Upper(names[j])] == Upper(canonical))
      && (forall k :: k in m && k !in (set j | 0 <= j < |names| :: Upper(names[j])) ==> r[k] == m[k])
  {
    if names != [] {
      var init := names[..|names| - 1];
      EntryIntoFacts(m, init, canonical);
      assert forall j :: 0 <= j < |init| ==> init[j] == names[j];
      assert (set j | 0 <= j < |names| :: Upper(names[j])) == (set j | 0 <= j < |init| :: Upper(init[j])) + {Upper(names[|names| - 1])};
    }
  }

  /** The keys of the alias map are exactly the upper-cased aliases of all records. */
  lemma {:induction false} AliasMapKeys(records: seq<TeamAlias>, k: string)
    ensures k in AliasMap(records) <==> exists i :: 0 <= i < |records| && k in UpperNames(records[i])
  {
    if records != [] {
      var init, last := records[..|records| - 1], records[|records| - 1];
      AliasMapKeys(init, k);
      EntryIntoFacts(AliasMap(init), last.aliases, last.canonicalId);
      assert forall i :: 0 <= i < |init| ==> init[i] == records[i];
      if k in AliasMap(records) && k !in UpperNames(last) {
        var i :| 0 <= i < |init| && k in UpperNames(init[i]);
        assert k in UpperNames(records[i]);
      }
    }
  }

  /** An alias maps to the upper-cased canonical id of the LAST record that lists it. */
  lemma {:induction false} AliasMapLastWins(records: seq<TeamAlias>, i: int, k: string)
    requires 0 <= i < |records| && k in UpperNames(records[i])
    requires forall i' :: i < i' < |records| ==> k !in UpperNames(records[i'])
    ensures k in AliasMap(records) && AliasMap(records)[k] == Upper(records[i].canonicalId)
  {
    var init, last := records[..|records| - 1], records[|records| - 1];
    EntryIntoFacts(AliasMap(init), last.aliases, last.canonicalId);
    if i < |records| - 1 {
      assert forall i' :: i < i' < |init| ==> init[i'] == records[i'];
      AliasMapLastWins(init, i, k);
    }
  }

  /** Every canonical id stored in the alias map is upper-case. */
  lemma {:induction false} AliasMapValuesUpper(records: seq<TeamAlias>)
    ensures forall k :: k in AliasMap(records) ==> IsUpper(AliasMap(records)[k])
  {
    if records != [] {
      var init, last := records[..|records| - 1], records[|records| - 1];
      AliasMapValuesUpper(init);
      EntryIntoFacts(AliasMap(init), last.aliases, last.canonicalId);
    }
  }

  // ---------------------------------------------------------------- identifier normalisation

  /** One identifier: `astype(str).str.upper()`, then the alias map, falling back to the
      upper-cased text. A cell the model cannot render is left as it is. */
  function NormalizeCell(m: map<string, string>, c: Cell): (r: Cell)
    ensures AsText(c).Some? ==> r.Str? && (Upper(AsText(c).value) in m ==> r.s == m[Upper(AsText(c).value)])
    ensures AsText(c).Some? && Upper(AsText(c).value) !in m ==> r == Str(Upper(AsText(c).value))
    ensures AsText(c).None? ==> r == c
  {
    match AsText(c)
    case Some(text) =>
      var u := Upper(text);
      Str(if u in m then m[u] else u)
    case None => c
  }

  /** One pass of the loop body: a listed column that the table lacks is skipped. */
  function NormalizeColumn(m: map<string, string>, t: Table, col: string): (r: Table)
    ensures r.columns == t.columns && |r.rows| == |t.rows|
  {
    if col !in t.columns then t
    else SetColumn(t, col, seq(|t.rows|, i requires 0 <= i < |t.rows| => NormalizeCell(m, Get(t.rows[i], col))))
  }

  /** The table after the loop has processed `columns` in order. */
  function NormalizeAll(m: map<string, string>, t: Table, columns: seq<string>): (r: Table)
    ensures r.columns == t.columns && |r.rows| == |t.rows|
  {
    if columns == [] then t
    else NormalizeColumn(m, NormalizeAll(m, t, columns[..|columns| - 1]), columns[|columns| - 1])
  }

  /** With distinct listed columns, each listed column present in the table is normalised
      once, and every other cell reads as before. */
  lemma {:induction false} NormalizeAllCells(m: map<string, string>, t: Table, columns: seq<string>, i: int, c: string)
    requires forall a, b :: 0 <= a < b < |columns| ==> columns[a] != columns[b]
    requires 0 <= i < |t.rows|
    ensures Get(NormalizeAll(m, t, columns).rows[i], c) ==
      if c in columns && c in t.columns then NormalizeCell(m, Get(t.rows[i], c)) else Get(t.rows[i], c)
  {
    if columns != [] {
      var init, last := columns[..|columns| - 1], columns[|columns| - 1];
      NormalizeAllCells(m, t, init, i, c);
      assert c in columns <==> c in init || c == last;
      assert last !in init;
    }
  }

  /** Whatever the listed columns (repeats included), every text cell in a normalised column
      is upper-case, provided the map's canonical ids are. Cells the model cannot render
      stay as they were and are not text. */
  lemma {:induction false} NormalizedTextIsUpper(m: map<string, string>, t: Table, columns: seq<string>, i: int, c: string)
    requires forall k :: k in m ==> IsUpper(m[k])
    requires 0 <= i < |t.rows| && c in columns && c in t.columns
    ensures Get(NormalizeAll(m, t, columns).rows[i], c).Str? ==> IsUpper(Get(NormalizeAll(m, t, columns).rows[i], c).s)
  {
    var init, last := columns[..|columns| - 1], columns[|columns| - 1];
    var prev := NormalizeAll(m, t, init);
    if c != last {
      assert c in init;
      NormalizedTextIsUpper(m, t, init, i, c);
    }
  }

  /** A column never listed keeps its cells. */
  lemma {:induction false} NormalizeAllUntouched(m: map<string, string>, t: Table, columns: seq<string>, i: int, c: string)
    requires 0 <= i < |t.rows| && c !in columns
    ensures Get(NormalizeAll(m, t, columns).rows[i], c) == Get(t.rows[i], c)
  {
    if columns != [] {
      NormalizeAllUntouched(m, t, columns[..|columns| - 1], i, c);
    }
  }

  /** A string cell renders as its own text, so text with no lower-case letter and no alias
      passes through unchanged. */
  lemma UnaliasedUpperPassesThrough(m: map<string, string>, s: string)
    requires IsUpper(s) && s !in m
    ensures NormalizeCell(m, Str(s)) == Str(s)
  {
    UpperOfUpper(s);
  }

  // ---------------------------------------------------------------- season

  /** The season year of a calendar date: October starts a new season. */
  function SeasonYear(year: int, month: int): int {
    if month >= 10 then year else year - 1
  }

  predicate DateBefore(y1: int, m1: int, d1: int, y2: int, m2: int, d2: int) {
    y1 < y2 || (y1 == y2 && (m1 < m2 || (m1 == m2 && d1 < d2)))
  }

  /** The season year is the one whose October 1 is on or before the date and whose
      successor's October 1 is after it. */
  lemma SeasonYearBrackets(year: int, month: int, day: int)
    requires 1 <= month <= 12 && 1 <= day <= 31
    ensures var s := SeasonYear(year, month);
      !DateBefore(year, month, day, s, 10, 1) && DateBefore(year, month, day, s + 1, 10, 1)
  {
  }

  /** `"<year>-<last two characters of year + 1>"` for an integer year column. */
  function SeasonLabel(year: int): string {
    IntText(year) + "-" + LastTwo(IntText(year + 1))
  }

  /** For four-digit years the label is the year, a dash and the two last digits of the
      next year. */
  lemma SeasonLabelFourDigits(year: int)
    requires 1000 <= year <= 9998
    ensures SeasonLabel(year) == NatText(year) + "-" + [DigitChar(((year + 1) / 10) % 10), DigitChar((year + 1) % 10)]
  {
    LastTwoOfNatText(year + 1);
  }

  lemma SeasonExamples()
    ensures SeasonYear(2015, 9) == 2014 && SeasonLabel(2014) == "2014-15"
    ensures SeasonYear(2015, 10) == 2015 && SeasonLabel(2015) == "2015-16"
    ensures SeasonLabel(1999) == "1999-00"
  {
    Label2014();
    Label2015();
    Label1999();
  }

  lemma Label2014()
    ensures SeasonLabel(2014) == "2014-15"
  {
    SeasonLabelFourDigits(2014);
    NatTextFourDigits(2014);
  }

  lemma Label2015()
    ensures SeasonLabel(2015) == "2015-16"
  {
    SeasonLabelFourDigits(2015);
    NatTextFourDigits(2015);
  }

  lemma Label1999()
    ensures SeasonLabel(1999) == "1999-00"
  {
    SeasonLabelFourDigits(1999);
    NatTextFourDigits(1999);
  }

  /** The label pandas produces when the year column holds floats (it does as soon as one
      date is missing): `str(2014.0)` is "2014.0", whose last two characters are ".0". */
  function FloatSeasonLabel(year: int): string {
    IntText(year) + ".0" + "-" + LastTwo(IntText(year + 1) + ".0")
  }

  /** `str(nan) + "-" + str(nan)[-2:]`. */
  const MissingDateLabel: string := "nan-an"

  predicate AnyMissingDate(t: Table, dateColumn: string) {
    exists i :: 0 <= i < |t.rows| && !Get(t.rows[i], dateColumn).Date?
  }

  function YearCell(c: Cell): Cell {
    if c.Date? then Num(SeasonYear(c.year, c.month) as real) else Undef
  }

  function LabelCell(c: Cell, floatYears: bool): Cell {
    if !c.Date? then Str(MissingDateLabel)
    else
      var s := SeasonYear(c.year, c.month);
      Str(if floatYears then FloatSeasonLabel(s) else SeasonLabel(s))
  }

  /** `attach_season`: adds `SEASON_YEAR` and `SEASON_LABEL`. A cell that is not a parsed date
      counts as a missing date. */
  function AttachSeason(t: Table, dateColumn: string): (r: Result<Table>)
    ensures r.Failure? <==> dateColumn !in t.columns
    ensures r.Failure? ==> r.error == MissingColumns([dateColumn])
    ensures r.Success? ==> r.value.columns == WithName(WithName(t.columns, "SEASON_YEAR"), "SEASON_LABEL")
    ensures r.Success? ==> |r.value.rows| == |t.rows| && forall i :: 0 <= i < |t.rows| ==>
      r.value.rows[i] == t.rows[i]["SEASON_YEAR" := YearCell(Get(t.rows[i], dateColumn))]
                                  ["SEASON_LABEL" := LabelCell(Get(t.rows[i], dateColumn), AnyMissingDate(t, dateColumn))]
  {
    if dateColumn !in t.columns then Failure(MissingColumns([dateColumn]))
    else
      var floatYears := AnyMissingDate(t, dateColumn);
      var withYear := SetColumn(t, "SEASON_YEAR", seq(|t.rows|, i requires 0 <= i < |t.rows| => YearCell(Get(t.rows[i], dateColumn))));
      Success(SetColumn(withYear, "SEASON_LABEL", seq(|t.rows|, i requires 0 <= i < |t.rows| => LabelCell(Get(t.rows[i], dateColumn), floatYears))))
  }

  /** When every date is present the labels have the integer form; one missing date turns
      every other label into the float form. */
  lemma AttachSeasonLabels(t: Table, dateColumn: string, i: int)
    requires dateColumn in t.columns && 0 <= i < |t.rows|
    requires Get(t.rows[i], dateColumn).Date?
    ensures var d := Get(t.rows[i], dateColumn);
      var row := AttachSeason(t, dateColumn).value.rows[i];
      && row["SEASON_YEAR"] == Num(SeasonYear(d.year, d.month) as real)
      && (!AnyMissingDate(t, dateColumn) ==> row["SEASON_LABEL"] == Str(SeasonLabel(SeasonYear(d.year, d.month))))
      && (AnyMissingDate(t, dateColumn) ==> row["SEASON_LABEL"] == Str(FloatSeasonLabel(SeasonYear(d.year, d.month))))
  {
  }

  /** A missing date next to 2015-10-01 gives the labels "2015.0-.0" and "nan-an". */
  lemma FloatLabelExample(t: Table)
    requires "GAME_DATE" in t.columns && |t.rows| == 2
    requires Get(t.rows[0], "GAME_DATE") == Date(2015, 10, 1) && Get(t.rows[1], "GAME_DATE") == Undef
    ensures AttachSeason(t, "GAME_DATE").Success?
    ensures AttachSeason(t, "GAME_DATE").value.rows[0]["SEASON_LABEL"] == Str("2015.0-.0")
    ensures AttachSeason(t, "GAME_DATE").value.rows[1]["SEASON_LABEL"] == Str("nan-an")
  {
    assert AnyMissingDate(t, "GAME_DATE") by {
      assert !Get(t.rows[1], "GAME_DATE").Date?;
    }
    AttachSeasonLabels(t, "GAME_DATE", 0);
    assert SeasonYear(2015, 10) == 2015;
    FloatLabel2015();
  }

  lemma FloatLabel2015()
    ensures FloatSeasonLabel(2015) == "2015.0-.0"
  {
    NatTextFourDigits(2015);
    NatTextFourDigits(2016);
  }

  // ---------------------------------------------------------------- possessions

  /** The columns `estimate_possessions` requires, in the order it checks them. */
  const PossessionInputs: seq<string> :=
    ["FGA", "FGM", "FTA", "TOV", "OREB", "DREB", "OPP_FGA", "OPP_FGM", "OPP_FTA", "OPP_TOV", "OPP_OREB", "OPP_DREB"]

  /** One side's possessions: `FGA + 0.4 FTA - 1.07 (OREB / (OREB + DREB)) (FGA - FGM) + TOV`,
      where an offensive-rebound denominator of zero makes the result missing. */
  function SideComponent(fga: Option<real>, fgm: Option<real>, fta: Option<real>, tov: Option<real>,
                         oreb: Option<real>, dreb: Option<real>): (r: Option<real>)
    ensures r.Some? <==> fga.Some? && fgm.Some? && fta.Some? && tov.Some? && oreb.Some? && dreb.Some?
                         && oreb.value + dreb.value != 0.0
  {
    var orbFactor := Div(oreb, Add(oreb, dreb));
    Add(Sub(Add(fga, Scale(0.4, fta)), Mul(Scale(1.07, orbFactor), Sub(fga, fgm))), tov)
  }

  function TeamComponent(row: Row): Option<real> {
    SideComponent(NumOf(Get(row, "FGA")), NumOf(Get(row, "FGM")), NumOf(Get(row, "FTA")),
                  NumOf(Get(row, "TOV")), NumOf(Get(row, "OREB")), NumOf(Get(row, "DREB")))
  }

  function OpponentComponent(row: Row): Option<real> {
    SideComponent(NumOf(Get(row, "OPP_FGA")), NumOf(Get(row, "OPP_FGM")), NumOf(Get(row, "OPP_FTA")),
                  NumOf(Get(row, "OPP_TOV")), NumOf(Get(row, "OPP_OREB")), NumOf(Get(row, "OPP_DREB")))
  }

  /** `EST_POSSESSIONS` of one row: the mean of the two sides' components. */
  function Possessions(row: Row): (r: Option<real>)
    ensures r.Some? <==> TeamComponent(row).Some? && OpponentComponent(row).Some?
    ensures r.Some? ==> r.value == (TeamComponent(row).value + OpponentComponent(row).value) / 2.0
  {
    Scale(0.5, Add(TeamComponent(row), OpponentComponent(row)))
  }

  /** A zero rebound total on either side leaves the estimate undefined. */
  lemma PossessionsUndefinedOnZeroRebounds(row: Row)
    requires NumOf(Get(row, "OREB")).Some? && NumOf(Get(row, "DREB")).Some?
    requires NumOf(Get(row, "OREB")).value + NumOf(Get(row, "DREB")).value == 0.0
    ensures Possessions(row).None?
  {
  }

  /** Two rows that see the same game from opposite sides get the same estimate. */
  lemma PossessionsSymmetric(a: Row, b: Row)
    requires Get(a, "FGA") == Get(b, "OPP_FGA") && Get(a, "OPP_FGA") == Get(b, "FGA")
    requires Get(a, "FGM") == Get(b, "OPP_FGM") && Get(a, "OPP_FGM") == Get(b, "FGM")
    requires Get(a, "FTA") == Get(b, "OPP_FTA") && Get(a, "OPP_FTA") == Get(b, "FTA")
    requires Get(a, "TOV") == Get(b, "OPP_TOV") && Get(a, "OPP_TOV") == Get(b, "TOV")
    requires Get(a, "OREB") == Get(b, "OPP_OREB") && Get(a, "OPP_OREB") == Get(b, "OREB")
    requires Get(a, "DREB") == Get(b, "OPP_DREB") && Get(a, "OPP_DREB") == Get(b, "DREB")
    ensures Possessions(a) == Possessions(b)
  {
    assert TeamComponent(a) == OpponentComponent(b);
    assert OpponentComponent(a) == TeamComponent(b);
  }

  /** `estimate_possessions`: fails naming exactly the absent inputs, in list order, before
      computing anything; otherwise adds `EST_POSSESSIONS`. */
  function EstimatePossessions(t: Table): (r: Result<Table>)
    ensures r.Failure? <==> Missing(t, PossessionInputs) != []
    ensures r.Failure? ==> r.error == MissingColumns(Missing(t, PossessionInputs))
    ensures r.Success? ==> r.value.columns == WithName(t.columns, "EST_POSSESSIONS") && |r.value.rows| == |t.rows|
    ensures r.Success? ==> forall i :: 0 <= i < |t.rows| ==>
      r.value.rows[i] == t.rows[i]["EST_POSSESSIONS" := NumCell(Possessions(t.rows[i]))]
  {
    var missing := Missing(t, PossessionInputs);
    if missing != [] then Failure(MissingColumns(missing))
    else Success(SetColumn(t, "EST_POSSESSIONS", seq(|t.rows|, i requires 0 <= i < |t.rows| => NumCell(Possessions(t.rows[i])))))
  }

  // ---------------------------------------------------------------- the preprocessor object

  class Preprocessor {
    var teamAliases: seq<TeamAlias>
    var aliasMap: map<string, string>

    /** The alias map is always the one built from the records. */
    ghost predicate Valid()
      reads this
    {
      aliasMap == AliasMap(teamAliases)
    }

    /** `Preprocessor(team_aliases=...)`: keeps the records and builds the alias map once. */
    constructor (records: seq<TeamAlias>)
      ensures teamAliases == records && aliasMap == AliasMap(records)
      ensures Valid()
    {
      teamAliases := records;
      aliasMap := map[];
      new;
      aliasMap := BuildAliasMap();
    }

    /** `_build_alias_map`: stores each alias, upper-cased, against the upper-cased
        canonical id, record by record. */
    method BuildAliasMap() returns (mapping: map<string, string>)
      ensures mapping == AliasMap(teamAliases)
    {
      mapping := map[];
      var i := 0;
      while i < |teamAliases|
        invariant 0 <= i <= |teamAliases|
        invariant mapping == AliasMap(teamAliases[..i])
      {
        var alias := teamAliases[i];
        var j := 0;
        while j < |alias.aliases|
          invariant 0 <= j <= |alias.aliases|
          invariant mapping == EntryInto(AliasMap(teamAliases[..i]), alias.aliases[..j], alias.canonicalId)
        {
          mapping := mapping[Upper(alias.aliases[j]) := Upper(alias.canonicalId)];
          assert alias.aliases[..j + 1][..j] == alias.aliases[..j];
          j := j + 1;
        }
        assert alias.aliases[..j] == alias.aliases;
        assert teamAliases[..i + 1][..i] == teamAliases[..i];
        i := i + 1;
      }
      assert teamAliases[..i] == teamAliases;
    }

    /** `normalize_team_ids`: each listed column, in turn, through the alias map. */
    method NormalizeTeamIds(t: Table, columns: seq<string>) returns (r: Table)
      ensures r == NormalizeAll(aliasMap, t, columns)
      ensures r.columns == t.columns && |r.rows| == |t.rows|
    {
      r := t;
      var k := 0;
      while k < |columns|
        invariant 0 <= k <= |columns|
        invariant r == NormalizeAll(aliasMap, t, columns[..k])
      {
        var col, m, prev := columns[k], aliasMap, r;
        if col in prev.columns {
          r := SetColumn(prev, col, seq(|prev.rows|, i requires 0 <= i < |prev.rows| => NormalizeCell(m, Get(prev.rows[i], col))));
        }
        assert columns[..k + 1][..k] == columns[..k];
        k := k + 1;
      }
      assert columns[..k] == columns;
    }
  }
}
