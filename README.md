# nba-stats team-game pipeline, modelled in Dafny

This project models the analytical core of the nba-stats repository. That core turns wide
per-game box-score rows (one row per game, with `_HOME` and `_AWAY` column families) into
one row per team per game. It then adds the derived metrics and rolls the rows up to team
seasons and historical eras. The stages modelled are:

- **Game scope** (`Ingest`): classify each game by the last three characters of its
  `GAME_ID` (`001` regular season, `004` playoffs), keep the requested scope, and reject a
  request for both scopes.
- **Preprocessing** (`Preprocess`): the `Preprocessor` object, which builds its alias map
  once; identifier normalisation; season year and label from a game date with October as
  the cut-off; and the possession estimate.
- **Reshape and feature chain** (`SeasonSummary`): each game becomes a home row and an away
  row with mirrored `OPP_*` columns, the win flag and the overtime heuristic. Then the
  chain of normalisation, season, possessions, minutes played, pace, efficiency, shot
  profile and ball security runs, followed by the summary pipeline.
- **Row-wise metrics** (`Features`): pace, offensive and defensive efficiency, shot profile
  and ball security.
- **Aggregation** (`Aggregation`, with the shared group-by in `Grouping`): one row per
  distinct key, each metric reduced by its reducer, and `WIN` renamed to `WIN_PCT`.
- **Eras** (`Era`): interval membership, first-match resolution, the per-row annotation and
  the weighted era rollup sorted by era start and playoff flag.
- **Validation** (`Validation`): the ordered list of range issues, and the strict variant
  that fails when the list is non-empty.

A data frame is a `Table`: a list of column names and a list of rows, each row a
`map<string, Cell>`. A cell is `Undef` (pandas' missing value), a number (exact `real`),
text, a boolean or a parsed date. Reading a column a row lacks gives `Undef`. Arithmetic on
possibly missing numbers goes through `Option<real>`, and a missing operand gives a missing
result. Every error the source raises is a `Failure` of a `Result`, carrying the columns it
names.

Behaviour of the code worth noting:

- `annotate_era` gives a year that no era covers four missing era columns. It does not
  raise (src/era.py:74-81).
- The overtime heuristic reads the text after the last "OT", so "2OT" is one period
  (src/pipeline/season_summary.py:209-210).
- The default team aggregate has no `GAMES_PLAYED` column. The era rollup that
  `generate_team_season_summary` runs on it therefore always fails
  (src/aggregation.py:33-48, src/era.py:107-110). `SeasonSummary.GenerateTeamSeasonSummary`
  is proved never to succeed.
- Pace and efficiency divide without a zero guard (src/features.py:27, src/features.py:48).

## Model

| member | source | states |
|---|---|---|
| `Ingest.LastThree` | src/data_ingest.py:119 | the suffix is the last three characters, or the whole id when it is shorter |
| `Tables.AsText` | src/data_ingest.py:119 | `astype(str)`: text renders as itself and a missing value as "nan" |
| `Ingest.NotBothScopes` | src/data_ingest.py:119-121 | no game id is both a regular-season id (`IsRegularSeasonId`, suffix `001`) and a playoff id (`IsPlayoffId`, suffix `004`) |
| `Ingest.Tagged` | src/data_ingest.py:128-129 | a kept row gains `IS_REGULAR_SEASON` and `IS_PLAYOFFS` from its id suffix; every other cell is unchanged |
| `Ingest.ScopedRows` | src/data_ingest.py:123-126 | filtering never adds rows |
| `Ingest.Games` | src/data_ingest.py:107-130 | both scope flags fail with the conflict error; a table without `GAME_ID` fails; otherwise it succeeds and appends the two flag columns |
| `Ingest.GamesRows` | src/data_ingest.py:123-129 | the rows of a successful call are the scoped rows of the chosen scope |
| `Ingest.KeptIndicesSelect` | src/data_ingest.py:123-126 | the kept positions are in range, strictly ascending, and are exactly the rows the scope keeps |
| `Ingest.ScopedIsOrderedSelection` | src/data_ingest.py:123-129 | the output is the kept input rows, tagged, in their original order |
| `Ingest.ScopedFlagsExclusive` | src/data_ingest.py:119-129 | no output row has both flags set |
| `Ingest.ScopeFlags` | src/data_ingest.py:123-129 | playoffs-only keeps only playoff games; regular-season-only keeps only regular-season games; with neither flag every row is kept |
| `Ingest.AllGamesKeepsAll` | src/data_ingest.py:123-129 | with neither flag, row i of the output is input row i, tagged |
| `Preprocess.Preprocessor.constructor` | src/preprocess.py:33-37 | keeps the alias records and sets the alias map to the map built from them |
| `Preprocess.Preprocessor.BuildAliasMap` | src/preprocess.py:39-44 | the nested loops build exactly the map that stores the records in order |
| `Preprocess.EntryIntoFacts` | src/preprocess.py:42-43 | one record adds its upper-cased aliases, each mapped to its upper-cased canonical id, and keeps other keys |
| `Preprocess.AliasMapKeys` | src/preprocess.py:41-43 | a key is in the map iff it is the upper-cased form of an alias of some record |
| `Preprocess.AliasMapLastWins` | src/preprocess.py:41-43 | an alias maps to the upper-cased canonical id of the last record that lists it |
| `Preprocess.AliasMapValuesUpper` | src/preprocess.py:43 | every canonical id stored in the map is upper-case |
| `Preprocess.NormalizeCell` | src/preprocess.py:61 | a value becomes `map[upper(v)]` when that key exists, else `upper(v)` |
| `Preprocess.NormalizeColumn` | src/preprocess.py:58-61 | one loop pass keeps the column list and the row count; an absent column is skipped |
| `Preprocess.NormalizeAll` | src/preprocess.py:57-62 | the loop over all listed columns keeps the column list and the row count |
| `Preprocess.Preprocessor.NormalizeTeamIds` | src/preprocess.py:46-62 | the loop's result equals normalising each listed column in turn, with the same columns and row count |
| `Preprocess.NormalizeAllCells` | src/preprocess.py:57-61 | with distinct listed columns, a listed column that is present is normalised once, and every other cell reads as before |
| `Preprocess.NormalizedTextIsUpper` | src/preprocess.py:61 | every text value in a normalised column is upper-case when the map's ids are |
| `Preprocess.NormalizeAllUntouched` | src/preprocess.py:57-60 | a column that is not listed keeps its cells |
| `Preprocess.UnaliasedUpperPassesThrough` | src/preprocess.py:61 | upper-case text with no alias passes through unchanged |
| `Preprocess.SeasonYearBrackets` | src/preprocess.py:68-73 | `SeasonYear`: the season year is the one whose October 1 is on or before the date and whose successor's October 1 is after it |
| `Preprocess.SeasonLabelFourDigits` | src/preprocess.py:75 | `SeasonLabel`: a four-digit year's label is the year, a dash and the last two digits of the next year |
| `Preprocess.SeasonExamples` | src/preprocess.py:68-75 | 2015-09 gives 2014 and "2014-15"; 2015-10 gives 2015 and "2015-16"; 1999 gives "1999-00" |
| `Preprocess.AttachSeason` | src/preprocess.py:64-76 | an absent date column fails; otherwise every row gains its season year and label and nothing else changes |
| `Preprocess.AttachSeasonLabels` | src/preprocess.py:73-75 | with every date present the label has the integer form; one missing date turns every label into the float form |
| `Preprocess.FloatLabelExample` | src/preprocess.py:72-75 | 2015-10-01 next to a missing date is labelled "2015.0-.0", and the missing date "nan-an" |
| `Preprocess.SideComponent` | src/preprocess.py:104-107 | one side's component is defined iff all six inputs are and `OREB + DREB` is not zero |
| `Preprocess.Possessions` | src/preprocess.py:104-115 | the estimate is half the sum of the team and opponent components, and is defined iff both are |
| `Preprocess.PossessionsUndefinedOnZeroRebounds` | src/preprocess.py:104 | a zero rebound total leaves the estimate undefined |
| `Preprocess.PossessionsSymmetric` | src/preprocess.py:107-115 | two rows with team and opponent inputs swapped get the same estimate |
| `Preprocess.EstimatePossessions` | src/preprocess.py:78-116 | fails iff a required column is absent, naming exactly the absent ones in list order; otherwise adds `EST_POSSESSIONS` and changes nothing else |
| `SeasonSummary.OpponentColumns` | src/pipeline/season_summary.py:141-154 | the mirrored columns are the fourteen mirrored stats with the `OPP_` prefix |
| `SeasonSummary.SideColumns` | src/pipeline/season_summary.py:114-154 | one side reads its own columns with its suffix and the opponent stats with the other suffix |
| `SeasonSummary.WinCell` | src/pipeline/season_summary.py:157 | `WIN` is 1 iff the upper-cased `WL` is "W", else 0 |
| `SeasonSummary.SideRow` | src/pipeline/season_summary.py:118-158 | a side row has exactly the long table's columns |
| `SeasonSummary.SelectSide` | src/pipeline/season_summary.py:114-159 | a side table has the long columns and one row per game |
| `SeasonSummary.Coerce` | src/pipeline/season_summary.py:195-196 | coercion keeps numbers and booleans, and otherwise gives a number or undefined |
| `SeasonSummary.CoerceIdempotent` | src/pipeline/season_summary.py:195-196 | coercing twice is coercing once |
| `SeasonSummary.CoerceFoldCells` | src/pipeline/season_summary.py:195-196 | the coercion loop coerces exactly the listed columns and leaves every other cell alone |
| `SeasonSummary.CoerceColumns` | src/pipeline/season_summary.py:195-196 | the loop over the numeric columns keeps the columns and the row count, and leaves each row as coercing the listed columns in turn |
| `SeasonSummary.MirroredStat` | src/pipeline/season_summary.py:119-154 | for each mirrored stat X, the home row's `OPP_X` is the away row's X, and the other way round |
| `SeasonSummary.OpponentStatNumeric` | src/pipeline/season_summary.py:165-196 | a mirrored stat is in the coerced list iff its `OPP_` partner is |
| `SeasonSummary.OwnNumeric` | src/pipeline/season_summary.py:165-196 | among a side's own columns other than the matchup, exactly the counting stats are coerced |
| `SeasonSummary.LongRowBase` | src/pipeline/season_summary.py:112-118 | each team row carries its game's base columns unchanged |
| `SeasonSummary.LongRowOwn` | src/pipeline/season_summary.py:119-139 | each own column comes from the row's own side, coerced when it is a counting stat |
| `SeasonSummary.LongRowDerived` | src/pipeline/season_summary.py:122-158 | `IS_HOME`, `WIN`, `OVERTIME_PERIODS` and the matchup text of a team row |
| `SeasonSummary.ReshapeGamesToLong` | src/pipeline/season_summary.py:108-198 | fails on an absent input column; otherwise 2n rows, home rows first in input order, then the away rows, which is `LongTable` |
| `SeasonSummary.IsLongTable` | src/pipeline/season_summary.py:161-164 | a table with the long columns, each game's home row at i and away row at n+i, is the long table |
| `SeasonSummary.LongRowsMirror` | src/pipeline/season_summary.py:141-154 | the two rows of a game have their possession inputs mirrored |
| `SeasonSummary.MirroredPossessions` | src/pipeline/season_summary.py:141-154 | mirrored rows get equal possession estimates |
| `SeasonSummary.LastOT` | src/pipeline/season_summary.py:206-209 | finds the position of the last "OT", or reports that there is none |
| `SeasonSummary.ParseOvertime` | src/pipeline/season_summary.py:201-212 | no "OT" gives 0; the parser is total and never fails |
| `SeasonSummary.OvertimeAfterMarker` | src/pipeline/season_summary.py:209-212 | the heuristic gives the integer after the last "OT", or 1 when that text is empty or not an integer |
| `SeasonSummary.OvertimeCountSuffix` | src/pipeline/season_summary.py:209-210 | "…OT" followed by a count gives that count |
| `SeasonSummary.OvertimeBareMarker` | src/pipeline/season_summary.py:210 | a matchup ending in a bare "OT" is one period |
| `SeasonSummary.OvertimeRegulationExample` | src/pipeline/season_summary.py:206-207 | "LAL vs. BOS" is 0 periods |
| `SeasonSummary.OvertimeLeadingCountExample` | src/pipeline/season_summary.py:209-210 | "2OT" is 1 period |
| `SeasonSummary.OvertimeTrailingCountExample` | src/pipeline/season_summary.py:209-210 | "OT3" is 3 periods |
| `SeasonSummary.OvertimeUnreadableExample` | src/pipeline/season_summary.py:211-212 | "OT x" falls back to 1 period |
| `SeasonSummary.MinutesPlayed` | src/pipeline/season_summary.py:52 | `48 + 5·OT` is never 0, and is at least 48 when OT ≥ 0 |
| `SeasonSummary.MinutesColumn` | src/pipeline/season_summary.py:52 | every row's minutes are computed from its own overtime count |
| `SeasonSummary.PipelineInputsPresent` | src/pipeline/season_summary.py:46-64 | the reshaped table has every column the later steps read |
| `SeasonSummary.LongTeamIds` | src/pipeline/season_summary.py:119 | `TEAM_ID` comes from the row's own side |
| `SeasonSummary.LongTableFacts` | src/pipeline/season_summary.py:156-164 | the reshaped rows pair up per game and carry integral overtime counts |
| `SeasonSummary.NormalizedElsewhereUnchanged` | src/pipeline/season_summary.py:46 | normalisation rewrites only the two abbreviation columns, so `TEAM_ID` is untouched |
| `SeasonSummary.NormalizedGameFacts` | src/pipeline/season_summary.py:46 | after normalisation the pairing facts still hold and both abbreviation columns are upper-case |
| `SeasonSummary.SeasonStep` | src/pipeline/season_summary.py:47 | attaching the season succeeds and keeps the pairing facts |
| `SeasonSummary.PossessionStep` | src/pipeline/season_summary.py:51 | the possession step succeeds, and rows i and n+i get equal estimates |
| `SeasonSummary.MinutesStep` | src/pipeline/season_summary.py:52 | every row gets a nonzero `MINUTES_PLAYED` |
| `SeasonSummary.PaceStep` | src/pipeline/season_summary.py:54 | pace succeeds and is missing exactly where the estimate is |
| `SeasonSummary.EfficiencyStep` | src/pipeline/season_summary.py:55-56 | each efficiency step succeeds and keeps every earlier fact |
| `SeasonSummary.ShotProfileStep` | src/pipeline/season_summary.py:57-63 | the shot-profile step succeeds and keeps every earlier fact |
| `SeasonSummary.BallSecurityStep` | src/pipeline/season_summary.py:64 | the ball-security step succeeds and keeps every earlier fact |
| `SeasonSummary.Enrich` | src/pipeline/season_summary.py:47-64 | the result is `FeatureChain`'s: the season, possessions, minutes, pace, both efficiencies, shot profile and ball security in turn, each step succeeding; it pairs home and away rows with equal possession estimates, nonzero minutes, and pace missing exactly where the estimate is |
| `SeasonSummary.BuildTeamGameFeatures` | src/pipeline/season_summary.py:21-65 | equals `TeamGameFeatures`: the feature chain on the normalised long table of the scoped games, the first error passed on; both scope flags fail first; the chain succeeds iff scoping and the reshape do; its output pairs home and away rows, with equal possessions, nonzero minutes and upper-case abbreviations |
| `SeasonSummary.TeamSummaryColumns` | src/aggregation.py:30-48 | the default team aggregate has `SEASON_YEAR` and `IS_PLAYOFFS` but no `GAMES_PLAYED` |
| `SeasonSummary.SummarizeTeamFeatures` | src/pipeline/season_summary.py:89-91 | aggregate, annotate and roll up; the call always fails: the aggregate's or the annotation's error is passed on, no eras give the empty-definitions error, and otherwise the rollup names `GAMES_PLAYED` |
| `SeasonSummary.GenerateTeamSeasonSummary` | src/pipeline/season_summary.py:68-101 | the summary pipeline never returns a result; both scope flags fail with the conflict error; a failure to build the features is passed on; once the features, the aggregate and the era annotation succeed with non-empty eras, the error names `GAMES_PLAYED` (src/era.py:107-110) |
| `Features.PaceValue` | src/features.py:27 | pace · minutes = 48 · possessions, defined iff both inputs are and minutes are nonzero |
| `Features.Per100` | src/features.py:48 | efficiency · possessions = 100 · points, defined iff both inputs are and possessions are nonzero |
| `Features.ThreePointRate` | src/features.py:66 | `FG3A / FGA`, undefined when `FGA` is 0 |
| `Features.ThreePointShare` | src/features.py:67 | `3·FG3M / (2·FGM + FG3M)`, undefined when that denominator is 0 |
| `Features.EffectiveFgPct` | src/features.py:68 | `(FGM + 0.5·FG3M) / FGA`, undefined when `FGA` is 0 |
| `Features.AstTovRatio` | src/features.py:81 | `AST / TOV`, undefined when `TOV` is 0 |
| `Features.TurnoverPct` | src/features.py:82 | `TOV / (AST + TOV)`, undefined when the sum is 0 |
| `Features.NoAttemptsGiveMissing` | src/features.py:66-68 | zero attempts make the rate and the effective percentage undefined, without an error |
| `Features.ThreePointRateIsFraction` | src/features.py:66 | the rate lies in [0, 1] when threes are a subset of attempts |
| `Features.ThreePointShareIsFraction` | src/features.py:67 | the share lies in [0, 1] when made threes are a subset of made field goals |
| `Features.TurnoverPctIsFraction` | src/features.py:82 | for non-negative counts with a positive sum, the turnover percentage lies in [0, 1] |
| `Features.TurnoverPctFromRatio` | src/features.py:81-82 | the percentage and the ratio describe the same split: `TOV% · (1 + AST/TOV) = 1` |
| `Features.ComputePace` | src/features.py:10-28 | fails iff either column is absent; otherwise adds `PACE` only |
| `Features.ComputeEfficiency` | src/features.py:31-49 | fails iff either column is absent; otherwise adds `<prefix>_EFF_PER_100` only |
| `Features.ComputeShotProfile` | src/features.py:52-69 | fails naming the absent columns in the order fgm, fga, fg3m, fg3a; otherwise adds the three shooting columns only |
| `Features.ComputeBallSecurity` | src/features.py:72-83 | fails naming the absent columns in order; otherwise adds the two ball-security columns only |
| `Grouping.KeyOf` | src/aggregation.py:47 | a row's key is its cells in the grouping columns, with a missing cell as a key value |
| `Grouping.Distinct` | src/aggregation.py:47 | distinct keys: the same members, no repeats |
| `Grouping.GroupKeys` | src/aggregation.py:47 | one key per distinct row key, with no repeats |
| `Grouping.Group` | src/aggregation.py:47 | a group holds input rows with its key, and is non-empty for a key that occurs |
| `Grouping.RowInItsGroup` | src/aggregation.py:47 | every row lands in its own key's group and in no other |
| `Grouping.SingletonGroup` | src/aggregation.py:47 | when keys are unique, each group is its one row |
| `Grouping.UniqueGroupKeys` | src/aggregation.py:47 | when keys are unique, the groups come in row order |
| `Aggregation.MetricColumns` | src/aggregation.py:43 | the metric columns in mapping order |
| `Aggregation.Present` | src/aggregation.py:47 | a reducer sees no values iff every cell of the group is missing |
| `Aggregation.PresentBounds` | src/aggregation.py:47 | values within bounds in the rows stay within bounds among the reduced values |
| `Aggregation.TotalBounds` | src/aggregation.py:47 | a sum of values in [lo, hi] lies between n·lo and n·hi |
| `Aggregation.Least` | src/aggregation.py:47 | the minimum is a member of the values and no greater than any of them |
| `Aggregation.Greatest` | src/aggregation.py:47 | the maximum is a member of the values and no less than any of them |
| `Aggregation.Reduce` | src/aggregation.py:47 | mean, sum, count, min and max of a group's column, skipping missing values; an empty mean, min or max is undefined |
| `Aggregation.SingleRowReduce` | src/aggregation.py:47 | every reducer except count returns a one-row group's value |
| `Aggregation.MeanBounds` | src/aggregation.py:47 | a mean of values in [lo, hi] lies in [lo, hi] |
| `Aggregation.Renamed` | src/aggregation.py:48 | the rename changes only `WIN` to `WIN_PCT` |
| `Aggregation.AssignGet` | src/aggregation.py:47-48 | a later assignment of a name wins |
| `Aggregation.GroupBy` | src/aggregation.py:47-48 | one output row per group key, with the output columns |
| `Aggregation.GroupRowKey` | src/aggregation.py:47 | an output row's key columns hold its group's key |
| `Aggregation.GroupRowMetric` | src/aggregation.py:47 | an output row's metric column holds the metric reduced over its group |
| `Aggregation.AggregateTeamSeason` | src/aggregation.py:12-49 | absent metrics fail, named in mapping order; then an absent key fails; otherwise one row per key, with the key columns and the metrics and `WIN` renamed |
| `Aggregation.AggregatePlayerSeason` | src/aggregation.py:52-86 | fails when the player, season or playoff column is absent, naming the absent ones; otherwise groups by those three without renaming |
| `Aggregation.OneRowPerKey` | src/aggregation.py:47 | output keys are pairwise distinct, and every input row's key has an output row |
| `Aggregation.UniqueKeysKeepValues` | src/aggregation.py:47-48 | when every key occurs once, aggregation returns the input rows' keys and values in order |
| `Aggregation.WinPctInUnitInterval` | src/aggregation.py:39-48 | `WIN_PCT`, the mean of 0/1 flags, lies in [0, 1] or is undefined |
| `Aggregation.PlayerMetricsAreSums` | src/aggregation.py:63-74 | every default player metric is reduced by `sum` |
| `Aggregation.PlayerMetricColumns` | src/aggregation.py:63-74 | the default player metrics are `MIN`, `PTS`, `FGA`, `FGM`, `FG3A`, `FG3M`, `AST`, `TOV` and `REB`, in mapping order |
| `Era.FirstEra` | src/era.py:52-54 | the first era containing y (`EraDefinition.Contains`: start ≤ y ≤ end, or start ≤ y for an open era); none iff no era contains y |
| `Era.ResolveEraForYear` | src/era.py:47-55 | returns the first era in order that contains y, and fails naming y iff none does |
| `Era.CheckEraDefinitions` | src/era.py:42-43 | an empty era list is an error; a non-empty one passes unchanged |
| `Era.Trunc` | src/era.py:77 | `int()` of a float truncates toward zero |
| `Strings.ParseIntText` | src/era.py:77 | `ParseInt`, `int()` of text, reads back the decimal text of every integer |
| `Era.SeasonYearOf` | src/era.py:75-77 | a missing year has no era; a number is truncated; text that is not an integer fails |
| `Era.EraOf` | src/era.py:74-81 | no era for a missing year; otherwise the resolved era, or none where resolution would fail |
| `Era.RowYears` | src/era.py:84 | reads every row's year, or fails with the first row whose year cannot be read |
| `Era.AnnotateEra` | src/era.py:58-89 | an absent season column fails; otherwise each row gains the four era columns of its era and nothing else changes |
| `Era.AnnotateCovered` | src/era.py:77-88 | a covered year gets the first covering era's key, label and start; the end is missing iff the era is open |
| `Era.AnnotateUncovered` | src/era.py:74-88 | a missing or uncovered year gets four missing era columns and keeps every other cell |
| `Era.ContributingWeight` | src/era.py:132-135 | the weight of the contributing rows is non-negative, and positive when some row contributes |
| `Era.WeightedAverage` | src/era.py:125-137 | Σv·w / Σw over rows with v defined and w > 0; undefined iff no row contributes or the total weight is ≤ 0 |
| `Era.WeightedSumLower` | src/era.py:135 | Σv·w ≥ lo·Σw when every contributing value is ≥ lo |
| `Era.WeightedSumUpper` | src/era.py:135 | Σv·w ≤ hi·Σw when every contributing value is ≤ hi |
| `Era.SumsAsDot` | src/era.py:132-135 | the weighted sum is the dot product of the per-row values and contributing weights, and the total weight is the sum of those weights |
| `Weighted.DotLower` | src/era.py:135 | Σv·w ≥ lo·Σw when every term has lo·w ≤ v·w |
| `Weighted.DotUpper` | src/era.py:135 | Σv·w ≤ hi·Σw when every term has v·w ≤ hi·w |
| `Era.AverageWithin` | src/era.py:135 | a defined weighted average whose sum lies between lo and hi times the total weight lies in [lo, hi] |
| `Era.WeightedAverageBounds` | src/era.py:132-135 | a weighted average lies between the least and the greatest contributing value |
| `Era.WeightedPaceExample` | tests/test_era.py:21-45 | weights 10 and 20 with paces 100 and 110 give 320/3, not 105 |
| `Era.Insert` | src/era.py:153 | inserting one record keeps the multiset of records |
| `Era.InsertSorted` | src/era.py:153 | insertion keeps the records ordered by era start, then playoff flag |
| `Era.SortRecords` | src/era.py:151-153 | the sorted records are a permutation of the input, ordered by era start, then playoff flag |
| `Era.RequiredAbsent` | src/era.py:107-108 | the required columns that are absent is empty iff `ERA_KEY`, `ERA_LABEL` and the weight column all exist |
| `Era.SummarizeByEra` | src/era.py:92-154 | fails naming the absent required columns; otherwise gives one record per group, built by the per-metric loop and sorted |
| `Era.GroupRecord` | src/era.py:114-146 | the record built for one group is the group's era record: key cells, size and weight, each present metric's weighted average, total possessions and weighted win percentage |
| `Era.EraRecordFacts` | src/era.py:128-137 | a metric whose column exists gets its weighted average; an absent metric gets no entry |
| `Era.MetricEntriesAt` | src/era.py:128-137 | the per-metric loop records each present metric's weighted average |
| `Era.MetricEntriesAbsent` | src/era.py:129-130 | the per-metric loop skips a metric whose column is absent |
| `Era.EraRecordBase` | src/era.py:115-123 | `TOTAL_GAMES` is the sum of weights with missing as 0, and `TEAM_SEASONS` is the group size |
| `Validation.FormatIdentifier` | src/validation.py:12-17 | team, season and scope, with the defaults "UNKNOWN", "N/A" and regular season |
| `Validation.Continue` | src/validation.py:47-73 | appending one check's issues; an earlier failure stands |
| `Validation.Offenders` | src/validation.py:40-45 | a check reports at most one issue per row |
| `Validation.FlagOffenders` | src/validation.py:36-45 | the loop over offender rows appends exactly that check's issues, in row order |
| `Validation.ValidateTeamSummary` | src/validation.py:20-75 | the validator's loops equal `Validate`, the checks run in the order pace, offensive, defensive, average possessions, negative possessions, win pct |
| `Validation.AssertTeamSummaryValid` | src/validation.py:78-85 | fails iff the issue list is non-empty, carrying the issue count |
| `Validation.OffendersInRowOrder` | src/validation.py:40-45 | a check reports exactly the rows its `Offense` flags, in row order, each with its identifier and value |
| `Validation.NoOffenders` | src/validation.py:40-41 | a check reports nothing iff it flags no row |
| `Validation.RunCheckClean` | src/validation.py:36-45 | a check is clean iff it is skipped or flags nothing; it fails only on absent identifier columns when there are offenders |
| `Validation.ValidIffClean` | src/validation.py:47-73 | no issues iff every check that runs flags no row |
| `Validation.ValidateFails` | src/validation.py:42-70 | the validator fails iff an identifier column is absent and some check flags a row |
| `Validation.EmptySummaryValid` | src/validation.py:33-34 | an empty summary gives no issues |
| `Validation.BoundsInclusive` | src/validation.py:40 | values on either bound are not flagged |
| `Validation.MissingNotFlagged` | src/validation.py:40 | missing values are never flagged |
| `Validation.ZeroGamesNotFlagged` | src/validation.py:52-53 | zero games played make the average undefined, so the row is not flagged |
| `Validation.NegativeTotalFlaggedTwice` | src/validation.py:51-65 | a negative total trips both possession checks |
| `Validation.SingleRowOffenders` | src/validation.py:40-45 | a one-row table yields that row's issue, or none |
| `Validation.InRangeExample` | tests/test_validation.py:9-27 | the in-range test row yields no issues |
| `Validation.OutOfRangeExample` | tests/test_validation.py:30-48 | the out-of-range test row yields four issues: pace, offensive and defensive efficiency, and win pct, in that order |

## Left out

- Reading the tables from SQLite or CSV, the fallback between the two, and the path checks
  (src/data_ingest.py:30-104). These are file and database I/O. `Ingest.Games` is given
  the table that was read. In the source, the conflicting-flag error is raised after that
  read.
- The JSON loaders for team aliases and eras, and the `lru_cache` on the era loader. These
  are I/O. Alias records and era definitions are parameters, and only the non-empty check
  of the era list is kept (`Era.CheckEraDefinitions`).
- The era test cases that resolve 2015 and 2008 depend on the shipped era configuration
  file. That file is not part of this model.
- The command-line runner, console output, the `save` branch (`mkdir`, `to_csv`) and its
  file-name tag. These are I/O.
- `pd.to_datetime` parsing of date text. Dates are parsed `(year, month, day)` cells, and a
  cell that is not a date counts as a missing date.
- SeasonSummary.Coerce: reads only integer text (optional sign and ASCII digits, as
  Python's `int`). Decimal or exponent text, which `pd.to_numeric` would read, becomes
  undefined in the model.
- Features.PaceValue: a zero minutes value gives undefined, where floating point gives
  infinity or NaN. Exact reals replace IEEE floats throughout, so rounding is not
  modelled.
- Features.Per100: zero possessions give undefined, where floating point gives infinity or
  NaN.
- Tables.AsText: renders text, missing values, booleans and integral numbers. A
  non-integral number or a date has no text in the model. So
  `Preprocess.NormalizeCell` leaves such a cell as it is, and `Ingest.IdSuffix` gives such
  a game id no suffix, which makes it neither regular season nor playoffs.
- Ingest.Games: the stage flags of an id that is an integral number are computed from its
  integer text. pandas reads a numeric `GAME_ID` column that also holds a missing value as
  floats, renders 1001 as "1001.0", and so flags no row and keeps none under either
  scope; the model classifies such a column's ids by their integer text.
- Ingest.IdSuffix: renders each id on its own, so the float promotion of a numeric id
  column that holds a missing value is not modelled: for ids `[1001, missing]` with the
  regular-season scope the source keeps no row and the model keeps the first.
- SeasonSummary.WinCell: scores text only. When a side's `WL` column holds no text at all
  (every value missing or numeric), `.str.upper()` raises in the source; the model scores
  each such row as a loss and the reshape succeeds.
- Grouping.GroupKeys: groups come in order of first occurrence. pandas sorts the group
  keys, and its placement of missing keys is not modelled. So the team and player
  aggregates' row order differs, and so does the era rollup's order among records that tie
  on era start and playoff flag: its sort is stable, so pandas leaves such ties in key order,
  where the model leaves them in order of first occurrence (eras keyed B and A that both
  start in 2000, with B's rows first, come out B, A here and A, B in the source).
- Aggregation.Reduce: models the reducers `mean`, `sum`, `count`, `min` and `max`. Other
  pandas aggregation names are not modelled.
- The wording and `.2f`/`.3f` formatting of messages. Issues and errors are structured
  values (check, team, season, scope, value).
- Python's full `int` grammar (underscores, non-ASCII digits) and Unicode case mapping. Both
  are ASCII only.
- The package `__init__` modules, and the test that needs the real dataset
  (tests/test_validation.py:51-58).
