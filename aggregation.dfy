/** Season-level aggregation: group the game rows by key columns and reduce each metric
    column with its reducer, as `groupby(...).agg(...)` does. */
module Aggregation {
  import opened Strings
  import opened Tables
  import opened Grouping
  import Weighted

  datatype Reducer = Mean | Sum | Count | Min | Max

  /** One entry of the metrics mapping: a column and how to reduce it. */
  datatype Metric = Metric(column: string, reducer: Reducer)

  const TeamKeyColumns: seq<string> := ["TEAM_ID", "SEASON_YEAR", "IS_PLAYOFFS"]

  const TeamMetrics: seq<Metric> := [
    Metric("PACE", Mean), Metric("OFF_EFF_PER_100", Mean), Metric("DEF_EFF_PER_100", Mean),
    Metric("THREE_POINT_RATE", Mean), Metric("AST_TOV_RATIO", Mean), Metric("WIN", Mean)]

  const PlayerMetrics: seq<Metric> := [
    Metric("MIN", Sum), Metric("PTS", Sum), Metric("FGA", Sum), Metric("FGM", Sum), Metric("FG3A", Sum),
    Metric("FG3M", Sum), Metric("AST", Sum), Metric("TOV", Sum), Metric("REB", Sum)]

  function MetricColumns(ms: seq<Metric>): (cs: seq<string>)
    ensures |cs| == |ms|
    ensures forall i :: 0 <= i < |ms| ==> cs[i] == ms[i].column
  {
    seq(|ms|, i requires 0 <= i < |ms| => ms[i].column)
  }

  // ---- reducers over the cells of one column of a group ----

  /** The numbers in column `c` of the group, in row order; missing cells are skipped, as
      pandas' reducers skip NaN. */
  function Present(g: seq<Row>, c: string): (xs: seq<real>)
    ensures |xs| <= |g|
    ensures (forall r :: r in g ==> NumOf(Get(r, c)).None?) <==> xs == []
  {
    if |g| == 0 then []
    else
      var rest := Present(g[1..], c);
      assert forall r :: r in g <==> r == g[0] || r in g[1..];
      match NumOf(Get(g[0], c))
      case Some(x) => [x] + rest
      case None => rest
  }

  lemma {:induction false} PresentBounds(g: seq<Row>, c: string, lo: real, hi: real)
    requires forall r :: r in g ==> NumOf(Get(r, c)).Some? ==> lo <= NumOf(Get(r, c)).value <= hi
    ensures forall i :: 0 <= i < |Present(g, c)| ==> lo <= Present(g, c)[i] <= hi
  {
    if |g| > 0 {
      assert forall r :: r in g[1..] ==> r in g;
      PresentBounds(g[1..], c, lo, hi);
    }
  }

  function Total(xs: seq<real>): real {
    if |xs| == 0 then 0.0 else xs[0] + Total(xs[1..])
  }

  lemma {:induction false} TotalBounds(xs: seq<real>, lo: real, hi: real)
    requires forall i :: 0 <= i < |xs| ==> lo <= xs[i] <= hi
    ensures |xs| as real * lo <= Total(xs) <= |xs| as real * hi
  {
    if |xs| > 0 {
      TotalBounds(xs[1..], lo, hi);
    }
  }

  function Least(xs: seq<real>): (m: real)
    requires |xs| > 0
    ensures m in xs && forall i :: 0 <= i < |xs| ==> m <= xs[i]
  {
    if |xs| == 1 then xs[0]
    else
      var rest := Least(xs[1..]);
      assert forall i :: 1 <= i < |xs| ==> xs[i] == xs[1..][i - 1];
      if xs[0] <= rest then xs[0] else rest
  }

  function Greatest(xs: seq<real>): (m: real)
    requires |xs| > 0
    ensures m in xs && forall i :: 0 <= i < |xs| ==> xs[i] <= m
  {
    if |xs| == 1 then xs[0]
    else
      var rest := Greatest(xs[1..]);
      assert forall i :: 1 <= i < |xs| ==> xs[i] == xs[1..][i - 1];
      if rest <= xs[0] then xs[0] else rest
  }

  /** `count`: the cells that are not missing, whatever their kind. */
  function CountPresent(g: seq<Row>, c: string): (n: nat)
    ensures n <= |g|
  {
    if |g| == 0 then 0 else (if Get(g[0], c) != Undef then 1 else 0) + CountPresent(g[1..], c)
  }

  /** One reducer applied to column `c` of a group: the mean, minimum and maximum of no
      number are missing, the sum of none is 0. */
  function Reduce(red: Reducer, g: seq<Row>, c: string): (v: Cell)
    ensures red == Count ==> v == Num(CountPresent(g, c) as real)
    ensures red == Sum ==> v == Num(Total(Present(g, c)))
    ensures red != Count && red != Sum ==> (v == Undef <==> Present(g, c) == [])
    ensures red == Mean && |Present(g, c)| > 0 ==> v == Num(Total(Present(g, c)) / |Present(g, c)| as real)
    ensures red == Min && |Present(g, c)| > 0 ==> v.Num? && v.x in Present(g, c) && forall x :: x in Present(g, c) ==> v.x <= x
    ensures red == Max && |Present(g, c)| > 0 ==> v.Num? && v.x in Present(g, c) && forall x :: x in Present(g, c) ==> x <= v.x
  {
    var xs := Present(g, c);
    match red
    case Mean => if |xs| == 0 then Undef else Num(Total(xs) / |xs| as real)
    case Sum => Num(Total(xs))
    case Count => Num(CountPresent(g, c) as real)
    case Min => if |xs| == 0 then Undef else Num(Least(xs))
    case Max => if |xs| == 0 then Undef else Num(Greatest(xs))
  }

  /** Every reducer maps a one-row group to that row's number (or its absence). */
  lemma SingleRowReduce(red: Reducer, row: Row, c: string)
    requires red != Count
    ensures NumOf(Get(row, c)).Some? ==> Reduce(red, [row], c) == Num(NumOf(Get(row, c)).value)
    ensures NumOf(Get(row, c)).None? && red != Sum ==> Reduce(red, [row], c) == Undef
  {
    assert [row][1..] == [];
    var xs := Present([row], c);
    if NumOf(Get(row, c)).Some? {
      var x := NumOf(Get(row, c)).value;
      assert xs == [x];
      assert Total(xs) == x + Total([]);
    }
  }

  /** The mean of numbers in `[lo, hi]` lies in `[lo, hi]`. */
  lemma MeanBounds(xs: seq<real>, lo: real, hi: real)
    requires |xs| > 0 && forall i :: 0 <= i < |xs| ==> lo <= xs[i] <= hi
    ensures lo <= Total(xs) / |xs| as real <= hi
  {
    TotalBounds(xs, lo, hi);
    var n := |xs| as real;
    assert Weighted.Between(lo, hi, Total(xs), n);
    Weighted.DivBounds(Total(xs) / n, Total(xs), n, lo, hi);
  }

  // ---- building the aggregated rows ----

  /** `rename(columns={"WIN": "WIN_PCT"})` on one name. */
  function OutputName(c: string): string {
    if c == "WIN" then "WIN_PCT" else c
  }

  function Renamed(cs: seq<string>, rename: bool): (r: seq<string>)
    ensures |r| == |cs|
    ensures forall i :: 0 <= i < |cs| ==> r[i] == if rename then OutputName(cs[i]) else cs[i]
    ensures !rename ==> r == cs
  {
    seq(|cs|, i requires 0 <= i < |cs| => if rename then OutputName(cs[i]) else cs[i])
  }

  /** Cells assigned one after another; a later assignment to the same name wins. */
  function Assign(row: Row, names: seq<string>, cells: seq<Cell>): Row
    requires |names| == |cells|
    decreases |names|
  {
    if |names| == 0 then row else Assign(row[names[0] := cells[0]], names[1..], cells[1..])
  }

  lemma {:induction false} AssignGet(row: Row, names: seq<string>, cells: seq<Cell>, i: int)
    requires |names| == |cells| && 0 <= i < |names|
    requires forall j :: i < j < |names| ==> names[j] != names[i]
    ensures Get(Assign(row, names, cells), names[i]) == cells[i]
    decreases |names|
  {
    if i == 0 {
      AssignOther(row[names[0] := cells[0]], names[1..], cells[1..], names[0]);
    } else {
      AssignGet(row[names[0] := cells[0]], names[1..], cells[1..], i - 1);
    }
  }

  lemma {:induction false} AssignOther(row: Row, names: seq<string>, cells: seq<Cell>, c: string)
    requires |names| == |cells| && c !in names
    ensures Get(Assign(row, names, cells), c) == Get(row, c)
    decreases |names|
  {
    if |names| > 0 {
      AssignOther(row[names[0] := cells[0]], names[1..], cells[1..], c);
    }
  }

  predicate NoRepeats(cs: seq<string>) {
    forall i, j :: 0 <= i < j < |cs| ==> cs[i] != cs[j]
  }

  /** The output column names: the keys, then the metrics. */
  function OutputColumns(groupCols: seq<string>, metrics: seq<Metric>, rename: bool): seq<string> {
    Renamed(groupCols + MetricColumns(metrics), rename)
  }

  /** The cells of the row of the group with key `k`, in output-column order. */
  function GroupCells(t: Table, groupCols: seq<string>, metrics: seq<Metric>, k: Key): (cells: seq<Cell>)
    ensures |cells| == |k| + |metrics|
  {
    var g := Group(t.rows, groupCols, k);
    k + seq(|metrics|, j requires 0 <= j < |metrics| => Reduce(metrics[j].reducer, g, metrics[j].column))
  }

  /** The row of the group with key `k`: its key cells, then one reduced cell per metric. */
  function GroupRow(t: Table, groupCols: seq<string>, metrics: seq<Metric>, rename: bool, k: Key): Row
    requires |k| == |groupCols|
  {
    Assign(map[], OutputColumns(groupCols, metrics, rename), GroupCells(t, groupCols, metrics, k))
  }

  /** `groupby(groupCols, dropna=False).agg(metrics).reset_index()`, then the optional rename. */
  function GroupBy(t: Table, groupCols: seq<string>, metrics: seq<Metric>, rename: bool): (r: Table)
    ensures r.columns == OutputColumns(groupCols, metrics, rename)
    ensures |r.rows| == |GroupKeys(t.rows, groupCols)|
  {
    var keys := GroupKeys(t.rows, groupCols);
    Table(OutputColumns(groupCols, metrics, rename),
      seq(|keys|, i requires 0 <= i < |keys| => GroupRow(t, groupCols, metrics, rename, keys[i])))
  }

  /** In a row of the output, the key column `groupCols[p]` holds the group's key cell,
      provided no two output names clash. */
  lemma GroupRowKey(t: Table, groupCols: seq<string>, metrics: seq<Metric>, rename: bool, k: Key, p: int)
    requires |k| == |groupCols| && NoRepeats(OutputColumns(groupCols, metrics, rename)) && 0 <= p < |groupCols|
    ensures Get(GroupRow(t, groupCols, metrics, rename, k), OutputColumns(groupCols, metrics, rename)[p]) == k[p]
  {
    var cells := GroupCells(t, groupCols, metrics, k);
    assert GroupRow(t, groupCols, metrics, rename, k) == Assign(map[], OutputColumns(groupCols, metrics, rename), cells);
    assert cells[p] == k[p];
    AssignGet(map[], OutputColumns(groupCols, metrics, rename), cells, p);
  }

  /** In a row of the output, the column of metric `metrics[j]` holds that metric reduced
      over the group, provided no two output names clash. */
  lemma GroupRowMetric(t: Table, groupCols: seq<string>, metrics: seq<Metric>, rename: bool, k: Key, j: int)
    requires |k| == |groupCols| && NoRepeats(OutputColumns(groupCols, metrics, rename)) && 0 <= j < |metrics|
    ensures Get(GroupRow(t, groupCols, metrics, rename, k), OutputColumns(groupCols, metrics, rename)[|groupCols| + j]) ==
      Reduce(metrics[j].reducer, Group(t.rows, groupCols, k), metrics[j].column)
  {
    var cells := GroupCells(t, groupCols, metrics, k);
    var names := OutputColumns(groupCols, metrics, rename);
    assert cells[|groupCols| + j] == Reduce(metrics[j].reducer, Group(t.rows, groupCols, k), metrics[j].column) by {
      GroupCellsMetric(t, groupCols, metrics, k, j);
    }
    assert Get(GroupRow(t, groupCols, metrics, rename, k), names[|groupCols| + j]) == cells[|groupCols| + j] by {
      assert GroupRow(t, groupCols, metrics, rename, k) == Assign(map[], names, cells);
      AssignGet(map[], names, cells, |groupCols| + j);
    }
  }

  lemma GroupCellsMetric(t: Table, groupCols: seq<string>, metrics: seq<Metric>, k: Key, j: int)
    requires 0 <= j < |metrics|
    ensures GroupCells(t, groupCols, metrics, k)[|k| + j] == Reduce(metrics[j].reducer, Group(t.rows, groupCols, k), metrics[j].column)
  {
    var g := Group(t.rows, groupCols, k);
    var reduced := seq(|metrics|, j requires 0 <= j < |metrics| => Reduce(metrics[j].reducer, g, metrics[j].column));
    assert GroupCells(t, groupCols, metrics, k) == k + reduced;
    assert (k + reduced)[|k| + j] == reduced[j];
  }

  // ---- the two entry points ----

  /** `aggregate_team_season`: every absent metric column fails the call, named in mapping
      order; then an absent key column fails the group-by; otherwise one row per key with
      `WIN` renamed to `WIN_PCT`. */
  function AggregateTeamSeason(t: Table, groupCols: seq<string>, metrics: seq<Metric>): (r: Result<Table>)
    ensures Missing(t, MetricColumns(metrics)) != [] ==> r == Failure(MissingColumns(Missing(t, MetricColumns(metrics))))
    ensures Missing(t, MetricColumns(metrics)) == [] && Missing(t, groupCols) != [] ==>
      r == Failure(MissingColumns([Missing(t, groupCols)[0]]))
    ensures r.Success? <==> Missing(t, MetricColumns(metrics)) == [] && Missing(t, groupCols) == []
    ensures r.Success? ==> r.value.columns == OutputColumns(groupCols, metrics, true)
    ensures r.Success? ==> |r.value.rows| == |GroupKeys(t.rows, groupCols)|
  {
    var missingMetrics := Missing(t, MetricColumns(metrics));
    if missingMetrics != [] then Failure(MissingColumns(missingMetrics))
    else
      var missingKeys := Missing(t, groupCols);
      if missingKeys != [] then Failure(MissingColumns([missingKeys[0]]))
      else Success(GroupBy(t, groupCols, metrics, true))
  }

  /** `aggregate_player_season`: the player, season and playoff columns are required (the
      error names the absent ones as a set); an absent metric then fails the `agg` call. No
      rename. */
  function AggregatePlayerSeason(t: Table, playerCol: string, seasonCol: string, playoffCol: string, metrics: seq<Metric>)
    : (r: Result<Table>)
    ensures var absent := {playerCol, seasonCol, playoffCol} - set c | c in t.columns;
      absent != {} ==> r == Failure(MissingColumnSet(absent))
    ensures r.Success? <==>
      playerCol in t.columns && seasonCol in t.columns && playoffCol in t.columns && Missing(t, MetricColumns(metrics)) == []
    ensures r.Success? ==> r.value.columns == [playerCol, seasonCol, playoffCol] + MetricColumns(metrics)
    ensures r.Success? ==> |r.value.rows| == |GroupKeys(t.rows, [playerCol, seasonCol, playoffCol])|
  {
    var absent := {playerCol, seasonCol, playoffCol} - set c | c in t.columns;
    assert absent == {} <==> playerCol in t.columns && seasonCol in t.columns && playoffCol in t.columns by {
      if playerCol !in t.columns { assert playerCol in absent; }
      if seasonCol !in t.columns { assert seasonCol in absent; }
      if playoffCol !in t.columns { assert playoffCol in absent; }
    }
    if absent != {} then Failure(MissingColumnSet(absent))
    else
      var missingMetrics := Missing(t, MetricColumns(metrics));
      if missingMetrics != [] then Failure(MissingColumns(missingMetrics))
      else Success(GroupBy(t, [playerCol, seasonCol, playoffCol], metrics, false))
  }

  // ---- properties ----

  /** One output row per distinct key: row `i` carries the `i`-th key, so the keys of the
      output are pairwise distinct and every input row's key has its row. */
  lemma OneRowPerKey(t: Table, groupCols: seq<string>, metrics: seq<Metric>)
    requires AggregateTeamSeason(t, groupCols, metrics).Success?
    requires NoRepeats(OutputColumns(groupCols, metrics, true))
    ensures var out := AggregateTeamSeason(t, groupCols, metrics).value;
      var outKey := Renamed(groupCols, true);
      && (forall i, j :: 0 <= i < j < |out.rows| ==> KeyOf(out.rows[i], outKey) != KeyOf(out.rows[j], outKey))
      && (forall i :: 0 <= i < |t.rows| ==> exists j :: 0 <= j < |out.rows| && KeyOf(out.rows[j], outKey) == KeyOf(t.rows[i], groupCols))
  {
    var out := AggregateTeamSeason(t, groupCols, metrics).value;
    var outKey := Renamed(groupCols, true);
    var keys := GroupKeys(t.rows, groupCols);
    assert out == GroupBy(t, groupCols, metrics, true);
    forall j | 0 <= j < |out.rows|
      ensures KeyOf(out.rows[j], outKey) == keys[j]
    {
      var names := OutputColumns(groupCols, metrics, true);
      forall p | 0 <= p < |groupCols|
        ensures KeyOf(out.rows[j], outKey)[p] == keys[j][p]
      {
        assert outKey[p] == names[p];
        GroupRowKey(t, groupCols, metrics, true, keys[j], p);
      }
    }
    forall i | 0 <= i < |t.rows|
      ensures exists j :: 0 <= j < |out.rows| && KeyOf(out.rows[j], outKey) == KeyOf(t.rows[i], groupCols)
    {
      var k := KeyOf(t.rows[i], groupCols);
      assert k in keys;
      var j :| 0 <= j < |keys| && keys[j] == k;
      assert KeyOf(out.rows[j], outKey) == k;
    }
  }

  /** When every key occurs once, aggregation keeps the rows in order and reproduces each
      value: a mean, minimum or maximum of one cell is that cell's number (missing stays
      missing), a sum of one number is that number. */
  lemma UniqueKeysKeepValues(t: Table, groupCols: seq<string>, metrics: seq<Metric>, i: int, j: int)
    requires AggregateTeamSeason(t, groupCols, metrics).Success?
    requires NoRepeats(OutputColumns(groupCols, metrics, true))
    requires forall a, b :: 0 <= a < b < |t.rows| ==> KeyOf(t.rows[a], groupCols) != KeyOf(t.rows[b], groupCols)
    requires 0 <= i < |t.rows| && 0 <= j < |metrics| && metrics[j].reducer != Count
    ensures |AggregateTeamSeason(t, groupCols, metrics).value.rows| == |t.rows|
    ensures var out := AggregateTeamSeason(t, groupCols, metrics).value;
      var c := metrics[j].column;
      var v := Get(out.rows[i], OutputName(c));
      && KeyOf(out.rows[i], Renamed(groupCols, true)) == KeyOf(t.rows[i], groupCols)
      && (NumOf(Get(t.rows[i], c)).Some? ==> v == Num(NumOf(Get(t.rows[i], c)).value))
      && (NumOf(Get(t.rows[i], c)).None? && metrics[j].reducer != Sum ==> v == Undef)
  {
    var k := KeyOf(t.rows[i], groupCols);
    UniqueKeyRow(t, groupCols, metrics, i);
    SingleGroupRow(t, groupCols, metrics, k, t.rows[i], j);
  }

  /** With unique keys, output row `i` is the group row of input row `i`'s key, and that
      group holds input row `i` alone. */
  lemma UniqueKeyRow(t: Table, groupCols: seq<string>, metrics: seq<Metric>, i: int)
    requires AggregateTeamSeason(t, groupCols, metrics).Success?
    requires forall a, b :: 0 <= a < b < |t.rows| ==> KeyOf(t.rows[a], groupCols) != KeyOf(t.rows[b], groupCols)
    requires 0 <= i < |t.rows|
    ensures |AggregateTeamSeason(t, groupCols, metrics).value.rows| == |t.rows|
    ensures AggregateTeamSeason(t, groupCols, metrics).value.rows[i] == GroupRow(t, groupCols, metrics, true, KeyOf(t.rows[i], groupCols))
    ensures Group(t.rows, groupCols, KeyOf(t.rows[i], groupCols)) == [t.rows[i]]
  {
    UniqueGroupKeys(t.rows, groupCols);
    assert GroupKeys(t.rows, groupCols)[i] == KeyOf(t.rows[i], groupCols);
    SingletonGroup(t.rows, groupCols, i);
  }

  /** The output row of a group made of one row carries that row's key and values. */
  lemma SingleGroupRow(t: Table, groupCols: seq<string>, metrics: seq<Metric>, k: Key, row: Row, j: int)
    requires |k| == |groupCols| && k == KeyOf(row, groupCols) && Group(t.rows, groupCols, k) == [row]
    requires NoRepeats(OutputColumns(groupCols, metrics, true))
    requires 0 <= j < |metrics| && metrics[j].reducer != Count
    ensures var out := GroupRow(t, groupCols, metrics, true, k);
      var c := metrics[j].column;
      var v := Get(out, OutputName(c));
      && KeyOf(out, Renamed(groupCols, true)) == k
      && (NumOf(Get(row, c)).Some? ==> v == Num(NumOf(Get(row, c)).value))
      && (NumOf(Get(row, c)).None? && metrics[j].reducer != Sum ==> v == Undef)
  {
    var out := GroupRow(t, groupCols, metrics, true, k);
    var names := OutputColumns(groupCols, metrics, true);
    assert names[|groupCols| + j] == OutputName(metrics[j].column);
    GroupRowMetric(t, groupCols, metrics, true, k, j);
    SingleRowReduce(metrics[j].reducer, row, metrics[j].column);
    var outKey := Renamed(groupCols, true);
    forall p | 0 <= p < |groupCols|
      ensures KeyOf(out, outKey)[p] == k[p]
    {
      assert outKey[p] == names[p];
      GroupRowKey(t, groupCols, metrics, true, k, p);
    }
  }

  /** `WIN_PCT` is the mean of win flags, so it lies in `[0, 1]` (or is missing when a group
      has no win value). */
  lemma WinPctInUnitInterval(t: Table, groupCols: seq<string>, metrics: seq<Metric>, j: int, i: int)
    requires AggregateTeamSeason(t, groupCols, metrics).Success?
    requires NoRepeats(OutputColumns(groupCols, metrics, true))
    requires 0 <= j < |metrics| && metrics[j] == Metric("WIN", Mean)
    requires forall r :: r in t.rows ==> NumOf(Get(r, "WIN")).Some? ==> 0.0 <= NumOf(Get(r, "WIN")).value <= 1.0
    requires 0 <= i < |AggregateTeamSeason(t, groupCols, metrics).value.rows|
    ensures var v := Get(AggregateTeamSeason(t, groupCols, metrics).value.rows[i], "WIN_PCT");
      v == Undef || (v.Num? && 0.0 <= v.x <= 1.0)
  {
    var out := AggregateTeamSeason(t, groupCols, metrics).value;
    var k := GroupKeys(t.rows, groupCols)[i];
    assert out.rows[i] == GroupRow(t, groupCols, metrics, true, k);
    var names := OutputColumns(groupCols, metrics, true);
    assert names[|groupCols| + j] == "WIN_PCT";
    GroupRowMetric(t, groupCols, metrics, true, k, j);
    var g := Group(t.rows, groupCols, k);
    PresentBounds(g, "WIN", 0.0, 1.0);
    var xs := Present(g, "WIN");
    if |xs| > 0 {
      MeanBounds(xs, 0.0, 1.0);
    }
  }

  /** The default player metrics are all sums. */
  lemma PlayerMetricsAreSums()
    ensures forall m :: m in PlayerMetrics ==> m.reducer == Sum
  {
  }

  /** The default player metrics are the nine counting stats, in this order. */
  lemma PlayerMetricColumns()
    ensures MetricColumns(PlayerMetrics) == ["MIN", "PTS", "FGA", "FGM", "FG3A", "FG3M", "AST", "TOV", "REB"]
  {
  }
}
