/** The part of `NBADataIngestor.games` that runs after the raw `game` table has been read:
    classify each game by the suffix of its id and filter to the requested scope. */
module Ingest {
  import opened Strings
  import opened Tables

  /** Which games a caller asks for; the source encodes it as two booleans. */
  datatype Scope = AllGames | PlayoffsOnly | RegularSeasonOnly

  /** `s[-3:]`: the last three characters, or the whole string when it is shorter. */
  function LastThree(s: string): (r: string)
    ensures |r| == if |s| < 3 then |s| else 3
    ensures |s| >= 3 ==> r == s[|s| - 3..]
  {
    if |s| < 3 then s else s[|s| - 3..]
  }

  /** The suffix of `str(GAME_ID)`, when the model can render the id. */
  function IdSuffix(id: Cell): Option<string> {
    match AsText(id)
    case Some(s) => Some(LastThree(s))
    case None => None
  }

  predicate IsRegularSeasonId(id: Cell) {
    IdSuffix(id) == Some("001")
  }

  predicate IsPlayoffId(id: Cell) {
    IdSuffix(id) == Some("004")
  }

  /** No id is both a regular-season and a playoff id. */
  lemma NotBothScopes(id: Cell)
    ensures !(IsRegularSeasonId(id) && IsPlayoffId(id))
  {
  }

  predicate Keeps(scope: Scope, row: Row) {
    match scope
    case AllGames => true
    case PlayoffsOnly => IsPlayoffId(Get(row, "GAME_ID"))
    case RegularSeasonOnly => IsRegularSeasonId(Get(row, "GAME_ID"))
  }

  /** A kept row with its two stage flags assigned. */
  function Tagged(row: Row): (r: Row)
    ensures r.Keys == row.Keys + {"IS_REGULAR_SEASON", "IS_PLAYOFFS"}
    ensures r["IS_REGULAR_SEASON"] == Flag(IsRegularSeasonId(Get(row, "GAME_ID")))
    ensures r["IS_PLAYOFFS"] == Flag(IsPlayoffId(Get(row, "GAME_ID")))
    ensures forall c :: c in row && c != "IS_REGULAR_SEASON" && c != "IS_PLAYOFFS" ==> r[c] == row[c]
  {
    var id := Get(row, "GAME_ID");
    row["IS_REGULAR_SEASON" := Flag(IsRegularSeasonId(id))]["IS_PLAYOFFS" := Flag(IsPlayoffId(id))]
  }

  /** The rows the scope keeps, in input order, tagged. */
  function ScopedRows(rows: seq<Row>, scope: Scope): (r: seq<Row>)
    ensures |r| <= |rows|
  {
    if rows == [] then []
    else
      var front := ScopedRows(rows[..|rows| - 1], scope);
      var last := rows[|rows| - 1];
      if Keeps(scope, last) then front + [Tagged(last)] else front
  }

  /** The positions of the kept rows, ascending. */
  function KeptIndices(rows: seq<Row>, scope: Scope): seq<int>
  {
    if rows == [] then []
    else
      var front := KeptIndices(rows[..|rows| - 1], scope);
      if Keeps(scope, rows[|rows| - 1]) then front + [|rows| - 1] else front
  }

  /** `games(playoffs_only=..., regular_season_only=...)` on an already-read table. */
  function Games(raw: Table, playoffsOnly: bool, regularSeasonOnly: bool): (r: Result<Table>)
    ensures playoffsOnly && regularSeasonOnly ==> r == Failure(ConflictingScope)
    ensures !(playoffsOnly && regularSeasonOnly) && "GAME_ID" !in raw.columns ==> r == Failure(MissingColumns(["GAME_ID"]))
    ensures r.Success? <==> !(playoffsOnly && regularSeasonOnly) && "GAME_ID" in raw.columns
    ensures r.Success? ==> r.value.columns == WithName(WithName(raw.columns, "IS_REGULAR_SEASON"), "IS_PLAYOFFS")
  {
    if playoffsOnly && regularSeasonOnly then Failure(ConflictingScope)
    else if "GAME_ID" !in raw.columns then Failure(MissingColumns(["GAME_ID"]))
    else
      var scope := if playoffsOnly then PlayoffsOnly else if regularSeasonOnly then RegularSeasonOnly else AllGames;
      Success(Table(WithName(WithName(raw.columns, "IS_REGULAR_SEASON"), "IS_PLAYOFFS"), ScopedRows(raw.rows, scope)))
  }

  function ScopeOf(playoffsOnly: bool, regularSeasonOnly: bool): Scope {
    if playoffsOnly then PlayoffsOnly else if regularSeasonOnly then RegularSeasonOnly else AllGames
  }

  lemma GamesRows(raw: Table, playoffsOnly: bool, regularSeasonOnly: bool)
    requires Games(raw, playoffsOnly, regularSeasonOnly).Success?
    ensures Games(raw, playoffsOnly, regularSeasonOnly).value.rows == ScopedRows(raw.rows, ScopeOf(playoffsOnly, regularSeasonOnly))
  {
  }

  /** The kept positions are in range, strictly ascending, and are exactly the positions of
      the rows the scope keeps. */
  lemma {:induction false} KeptIndicesSelect(rows: seq<Row>, scope: Scope)
    ensures forall j :: 0 <= j < |KeptIndices(rows, scope)| ==> 0 <= KeptIndices(rows, scope)[j] < |rows|
    ensures forall j, k :: 0 <= j < k < |KeptIndices(rows, scope)| ==> KeptIndices(rows, scope)[j] < KeptIndices(rows, scope)[k]
    ensures forall i :: 0 <= i < |rows| ==> (Keeps(scope, rows[i]) <==> i in KeptIndices(rows, scope))
  {
    if rows != [] {
      var n := |rows| - 1;
      var init := rows[..n];
      KeptIndicesSelect(init, scope);
      var idx0 := KeptIndices(init, scope);
      var idx := KeptIndices(rows, scope);
      assert idx == if Keeps(scope, rows[n]) then idx0 + [n] else idx0;
      forall i | 0 <= i < |rows|
        ensures Keeps(scope, rows[i]) <==> i in idx
      {
        if i < n {
          assert rows[i] == init[i];
          assert i in idx <==> i in idx0;
        }
      }
    }
  }

  /** The scoped rows are exactly the kept input rows, tagged, in their original order. */
  lemma {:induction false} ScopedIsOrderedSelection(rows: seq<Row>, scope: Scope)
    ensures |ScopedRows(rows, scope)| == |KeptIndices(rows, scope)|
    ensures forall j :: 0 <= j < |KeptIndices(rows, scope)| ==>
      0 <= KeptIndices(rows, scope)[j] < |rows| && ScopedRows(rows, scope)[j] == Tagged(rows[KeptIndices(rows, scope)[j]])
  {
    if rows != [] {
      var n := |rows| - 1;
      var init := rows[..n];
      ScopedIsOrderedSelection(init, scope);
      SelectionStep(rows, ScopedRows(init, scope), KeptIndices(init, scope),
                    ScopedRows(rows, scope), KeptIndices(rows, scope), Keeps(scope, rows[n]));
    }
  }

  /** One row appended to the input extends a tagged selection by that row or by nothing. */
  lemma SelectionStep(rows: seq<Row>, out0: seq<Row>, idx0: seq<int>, out: seq<Row>, idx: seq<int>, keep: bool)
    requires rows != [] && |out0| == |idx0|
    requires forall j :: 0 <= j < |idx0| ==> 0 <= idx0[j] < |rows| - 1 && out0[j] == Tagged(rows[..|rows| - 1][idx0[j]])
    requires out == if keep then out0 + [Tagged(rows[|rows| - 1])] else out0
    requires idx == if keep then idx0 + [|rows| - 1] else idx0
    ensures |out| == |idx|
    ensures forall j :: 0 <= j < |idx| ==> 0 <= idx[j] < |rows| && out[j] == Tagged(rows[idx[j]])
  {
    forall j | 0 <= j < |idx|
      ensures 0 <= idx[j] < |rows| && out[j] == Tagged(rows[idx[j]])
    {
      if j < |idx0| {
        assert idx[j] == idx0[j] && out[j] == out0[j];
      }
    }
  }

  /** Every kept row carries flags that are never both set. */
  lemma {:induction false} ScopedFlagsExclusive(rows: seq<Row>, scope: Scope)
    ensures forall j :: 0 <= j < |ScopedRows(rows, scope)| ==>
      !(Get(ScopedRows(rows, scope)[j], "IS_REGULAR_SEASON") == Flag(true) && Get(ScopedRows(rows, scope)[j], "IS_PLAYOFFS") == Flag(true))
  {
    ScopedIsOrderedSelection(rows, scope);
    KeptIndicesSelect(rows, scope);
    var out, idx := ScopedRows(rows, scope), KeptIndices(rows, scope);
    forall j | 0 <= j < |out|
      ensures !(Get(out[j], "IS_REGULAR_SEASON") == Flag(true) && Get(out[j], "IS_PLAYOFFS") == Flag(true))
    {
      NotBothScopes(Get(rows[idx[j]], "GAME_ID"));
    }
  }

  /** With a playoff scope every kept row is a playoff game; with a regular-season scope every
      kept row is a regular-season game; with neither every row is kept. */
  lemma ScopeFlags(rows: seq<Row>, scope: Scope)
    ensures scope == PlayoffsOnly ==> forall j :: 0 <= j < |ScopedRows(rows, scope)| ==> Get(ScopedRows(rows, scope)[j], "IS_PLAYOFFS") == Flag(true)
    ensures scope == RegularSeasonOnly ==> forall j :: 0 <= j < |ScopedRows(rows, scope)| ==> Get(ScopedRows(rows, scope)[j], "IS_REGULAR_SEASON") == Flag(true)
    ensures scope == AllGames ==> |ScopedRows(rows, scope)| == |rows|
  {
    ScopedIsOrderedSelection(rows, scope);
    KeptIndicesSelect(rows, scope);
    if scope == AllGames {
      AllGamesKeepsAll(rows);
    }
  }

  lemma {:induction false} AllGamesKeepsAll(rows: seq<Row>)
    ensures |ScopedRows(rows, AllGames)| == |rows|
    ensures forall i :: 0 <= i < |rows| ==> ScopedRows(rows, AllGames)[i] == Tagged(rows[i])
  {
    if rows != [] {
      var init := rows[..|rows| - 1];
      AllGamesKeepsAll(init);
      assert ScopedRows(rows, AllGames) == ScopedRows(init, AllGames) + [Tagged(rows[|rows| - 1])];
    }
  }
}
