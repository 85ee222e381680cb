/** Historical eras: membership of a season year in an era, first-match resolution, the
    per-row era annotation and the weighted era rollup of team-season summaries. */
module Era {
  import opened Strings
  import opened Tables
  import opened Grouping
  import opened Weighted

  /** An era spans its start year to its end year, both inclusive; no end year means the
      era is still open. */
  datatype EraDefinition = EraDefinition(key: string, labelText: string, startYear: int, endYear: Option<int>, description: Option<string>)
  {
    /** `EraDefinition.contains`. */
    predicate Contains(y: int) {
      startYear <= y && (endYear.Some? ==> y <= endYear.value)
    }
  }

  /** The index of the first era of `eras` that contains `y`. */
  function FirstEra(eras: seq<EraDefinition>, y: int): (r: Option<nat>)
    ensures r.Some? ==> r.value < |eras| && eras[r.value].Contains(y)
    ensures r.Some? ==> forall i :: 0 <= i < r.value ==> !eras[i].Contains(y)
    ensures r.None? <==> forall i :: 0 <= i < |eras| ==> !eras[i].Contains(y)
  {
    if |eras| == 0 then None
    else if eras[0].Contains(y) then Some(0)
    else
      match FirstEra(eras[1..], y)
      case None => (assert forall i :: 1 <= i < |eras| ==> eras[i] == eras[1..][i - 1]; None)
      case Some(i) => Some(i + 1)
  }

  /** `resolve_era_for_year`: the first era in the given order containing the year; a year
      no era contains is an error. */
  function ResolveEraForYear(y: int, eras: seq<EraDefinition>): (r: Result<EraDefinition>)
    ensures r.Success? <==> exists i :: 0 <= i < |eras| && eras[i].Contains(y)
    ensures r.Success? ==> exists i :: (0 <= i < |eras| && eras[i] == r.value && r.value.Contains(y) &&
      forall j :: 0 <= j < i ==> !eras[j].Contains(y))
    ensures r.Failure? ==> r.error == NoEraForYear(y)
  {
    match FirstEra(eras, y)
    case Some(i) => Success(eras[i])
    case None => Failure(NoEraForYear(y))
  }

  /** The non-empty check of `load_era_definitions`. */
  function CheckEraDefinitions(eras: seq<EraDefinition>): (r: Result<seq<EraDefinition>>)
    ensures r.Failure? <==> |eras| == 0
    ensures r.Failure? ==> r.error == EmptyEraDefinitions
    ensures r.Success? ==> r.value == eras
  {
    if |eras| == 0 then Failure(EmptyEraDefinitions) else Success(eras)
  }

  // ---- annotation ----

  /** Python's `int(x)` on a float: truncation toward zero. */
  function Trunc(x: real): (r: int)
    ensures x >= 0.0 ==> 0 <= r && r as real <= x < r as real + 1.0
    ensures x < 0.0 ==> r <= 0 && r as real - 1.0 < x <= r as real
  {
    if x >= 0.0 then x.Floor else -((-x).Floor)
  }

  /** The year `_resolve` works with: a missing value has none; otherwise `int(value)`,
      which truncates a number, reads a boolean as 0 or 1 and parses text, and fails on
      text that is not an integer and on a date. */
  function SeasonYearOf(c: Cell): (r: Result<Option<int>>)
    ensures c == Undef ==> r == Success(None)
    ensures c.Num? ==> r == Success(Some(Trunc(c.x)))
    ensures r.Failure? ==> r.error == NotAnInteger(c)
    ensures r.Failure? <==> c.Date? || (c.Str? && ParseInt(c.s).None?)
  {
    match c
    case Undef => Success(None)
    case Num(x) => Success(Some(Trunc(x)))
    case Flag(b) => Success(Some(if b then 1 else 0))
    case Str(s) => (match ParseInt(s) case Some(n) => Success(Some(n)) case None => Failure(NotAnInteger(c)))
    case Date(_, _, _) => Failure(NotAnInteger(c))
  }

  /** `_resolve`: no era for a missing year, else the first era containing it, or none. */
  function EraOf(eras: seq<EraDefinition>, year: Option<int>): (e: Option<EraDefinition>)
    ensures year.None? ==> e.None?
    ensures year.Some? ==> (e.None? <==> ResolveEraForYear(year.value, eras).Failure?)
    ensures year.Some? && e.Some? ==> e == Some(ResolveEraForYear(year.value, eras).value)
  {
    if year.None? then None
    else match FirstEra(eras, year.value)
      case Some(i) => Some(eras[i])
      case None => None
  }

  /** The four era columns of a row, all missing when there is no era. */
  function AnnotatedRow(row: Row, e: Option<EraDefinition>): Row {
    row["ERA_KEY" := if e.Some? then Str(e.value.key) else Undef]
       ["ERA_LABEL" := if e.Some? then Str(e.value.labelText) else Undef]
       ["ERA_START_YEAR" := if e.Some? then Num(e.value.startYear as real) else Undef]
       ["ERA_END_YEAR" := if e.Some? && e.value.endYear.Some? then Num(e.value.endYear.value as real) else Undef]
  }

  /** The years of all rows, or the error of the first row whose year cannot be read. */
  function RowYears(rows: seq<Row>, col: string): (r: Result<seq<Option<int>>>)
    ensures r.Success? <==> forall i :: 0 <= i < |rows| ==> SeasonYearOf(Get(rows[i], col)).Success?
    ensures r.Success? ==> |r.value| == |rows| && forall i :: 0 <= i < |rows| ==> r.value[i] == SeasonYearOf(Get(rows[i], col)).value
    ensures r.Failure? ==> exists i :: (0 <= i < |rows| && SeasonYearOf(Get(rows[i], col)) == Failure(r.error) &&
      forall j :: 0 <= j < i ==> SeasonYearOf(Get(rows[j], col)).Success?)
  {
    if |rows| == 0 then Success([])
    else
      var first := SeasonYearOf(Get(rows[0], col));
      var rest := RowYears(rows[1..], col);
      assert forall i :: 1 <= i < |rows| ==> rows[i] == rows[1..][i - 1];
      if first.Failure? then Failure(first.error)
      else if rest.Failure? then Failure(rest.error)
      else Success([first.value] + rest.value)
  }

  const EraColumns: seq<string> := ["ERA_KEY", "ERA_LABEL", "ERA_START_YEAR", "ERA_END_YEAR"]

  /** `annotate_era`: the season column is required; each row gets the four era columns of
      the first era containing its year. A missing year, and a year no era contains, give
      missing era columns rather than an error; only a year that is not an integer fails. */
  function AnnotateEra(t: Table, seasonCol: string, eras: seq<EraDefinition>): (r: Result<Table>)
    ensures seasonCol !in t.columns ==> r == Failure(MissingColumns([seasonCol]))
    ensures r.Success? <==> seasonCol in t.columns && RowYears(t.rows, seasonCol).Success?
    ensures seasonCol in t.columns && r.Failure? ==> r == Failure(RowYears(t.rows, seasonCol).error)
    ensures r.Success? ==>
      r.value.columns == WithName(WithName(WithName(WithName(t.columns, "ERA_KEY"), "ERA_LABEL"), "ERA_START_YEAR"), "ERA_END_YEAR")
    ensures r.Success? ==> |r.value.rows| == |t.rows| && forall i :: 0 <= i < |t.rows| ==>
      r.value.rows[i] == AnnotatedRow(t.rows[i], EraOf(eras, SeasonYearOf(Get(t.rows[i], seasonCol)).value))
  {
    if seasonCol !in t.columns then Failure(MissingColumns([seasonCol]))
    else
      match RowYears(t.rows, seasonCol)
      case Failure(e) => Failure(e)
      case Success(years) =>
        Success(Table(WithName(WithName(WithName(WithName(t.columns, "ERA_KEY"), "ERA_LABEL"), "ERA_START_YEAR"), "ERA_END_YEAR"),
          seq(|t.rows|, i requires 0 <= i < |t.rows| => AnnotatedRow(t.rows[i], EraOf(eras, years[i])))))
  }

  /** A row whose year is covered gets the first covering era's key, label and bounds; an
      open era leaves the end year missing. */
  lemma AnnotateCovered(t: Table, seasonCol: string, eras: seq<EraDefinition>, i: int, y: int)
    requires AnnotateEra(t, seasonCol, eras).Success? && 0 <= i < |t.rows|
    requires SeasonYearOf(Get(t.rows[i], seasonCol)) == Success(Some(y))
    requires ResolveEraForYear(y, eras).Success?
    ensures var e := ResolveEraForYear(y, eras).value;
      var row := AnnotateEra(t, seasonCol, eras).value.rows[i];
      && row["ERA_KEY"] == Str(e.key) && row["ERA_LABEL"] == Str(e.labelText)
      && row["ERA_START_YEAR"] == Num(e.startYear as real)
      && (row["ERA_END_YEAR"] == Undef <==> e.endYear.None?)
  {
  }

  /** A row whose year no era contains, or whose year is missing, gets four missing era
      columns, and keeps every other cell. */
  lemma AnnotateUncovered(t: Table, seasonCol: string, eras: seq<EraDefinition>, i: int)
    requires AnnotateEra(t, seasonCol, eras).Success? && 0 <= i < |t.rows|
    requires var y := SeasonYearOf(Get(t.rows[i], seasonCol)).value;
      y.None? || ResolveEraForYear(y.value, eras).Failure?
    ensures var row := AnnotateEra(t, seasonCol, eras).value.rows[i];
      && (forall c :: c in EraColumns ==> row[c] == Undef)
      && (forall c :: c !in EraColumns ==> Get(row, c) == Get(t.rows[i], c))
  {
  }

  // ---- the weighted era rollup ----

  const EraGroupColumns: seq<string> := ["ERA_KEY", "ERA_LABEL", "IS_PLAYOFFS", "ERA_START_YEAR", "ERA_END_YEAR"]

  const EraMetrics: seq<string> := ["PACE", "OFF_EFF_PER_100", "DEF_EFF_PER_100", "THREE_POINT_RATE", "AST_TOV_RATIO"]

  /** `fillna(0)` on a weight: a missing (or non-numeric) weight counts as 0. */
  function Weight(c: Cell): real {
    match NumOf(c)
    case Some(w) => w
    case None => 0.0
  }

  /** The sum of the weights of a group. */
  function TotalWeight(g: seq<Row>, w: string): real {
    if |g| == 0 then 0.0 else Weight(Get(g[0], w)) + TotalWeight(g[1..], w)
  }

  /** A row contributes to the weighted average of `c` when its value is present and its
      weight is positive. */
  predicate Contributes(row: Row, c: string, w: string) {
    NumOf(Get(row, c)).Some? && Weight(Get(row, w)) > 0.0
  }

  function Value(row: Row, c: string): real {
    match NumOf(Get(row, c))
    case Some(v) => v
    case None => 0.0
  }

  /** One row's share of the weighted sum: value·weight when it contributes. */
  function Term(row: Row, c: string, w: string): real {
    if Contributes(row, c, w) then Value(row, c) * Weight(Get(row, w)) else 0.0
  }

  /** One row's share of the contributing weight. */
  function TermWeight(row: Row, c: string, w: string): real {
    if Contributes(row, c, w) then Weight(Get(row, w)) else 0.0
  }

  /** Σ value·weight over the contributing rows. */
  function WeightedSum(g: seq<Row>, c: string, w: string): real {
    if |g| == 0 then 0.0 else Term(g[0], c, w) + WeightedSum(g[1..], c, w)
  }

  /** Σ weight over the contributing rows. */
  function ContributingWeight(g: seq<Row>, c: string, w: string): (s: real)
    ensures s >= 0.0
    ensures (exists i :: 0 <= i < |g| && Contributes(g[i], c, w)) ==> s > 0.0
  {
    if |g| == 0 then 0.0
    else
      assert forall i :: 1 <= i < |g| ==> g[i] == g[1..][i - 1];
      TermWeight(g[0], c, w) + ContributingWeight(g[1..], c, w)
  }

  predicate AnyContributes(g: seq<Row>, c: string, w: string) {
    exists i :: 0 <= i < |g| && Contributes(g[i], c, w)
  }

  /** The weighted average of `c` over a group: Σ v·w / Σ w over the contributing rows;
      missing when no row contributes or the group's total weight is not positive. */
  function WeightedAverage(g: seq<Row>, c: string, w: string): (v: Cell)
    ensures v != Undef <==> AnyContributes(g, c, w) && TotalWeight(g, w) > 0.0
    ensures v != Undef ==> v == Num(WeightedSum(g, c, w) / ContributingWeight(g, c, w))
  {
    if AnyContributes(g, c, w) && TotalWeight(g, w) > 0.0 then Num(WeightedSum(g, c, w) / ContributingWeight(g, c, w))
    else Undef
  }

  /** The contributing weight of each row of a group. */
  function Weights(g: seq<Row>, c: string, w: string): (xs: seq<real>)
    ensures |xs| == |g|
    ensures forall i :: 0 <= i < |g| ==> xs[i] == TermWeight(g[i], c, w)
  {
    seq(|g|, i requires 0 <= i < |g| => TermWeight(g[i], c, w))
  }

  /** The value of each row of a group (0 where it has none). */
  function Values(g: seq<Row>, c: string): (vs: seq<real>)
    ensures |vs| == |g|
    ensures forall i :: 0 <= i < |g| ==> vs[i] == Value(g[i], c)
  {
    seq(|g|, i requires 0 <= i < |g| => Value(g[i], c))
  }

  lemma TermAsProduct(row: Row, c: string, w: string)
    ensures Term(row, c, w) == Value(row, c) * TermWeight(row, c, w)
    ensures TermWeight(row, c, w) >= 0.0
    ensures TermWeight(row, c, w) > 0.0 ==> Contributes(row, c, w)
  {
  }

  /** The weighted sum is the dot product of values and contributing weights, and the
      contributing weight is the sum of the latter. */
  lemma {:induction false} SumsAsDot(g: seq<Row>, c: string, w: string)
    ensures WeightedSum(g, c, w) == Dot(Values(g, c), Weights(g, c, w))
    ensures ContributingWeight(g, c, w) == Sum(Weights(g, c, w))
  {
    if |g| > 0 {
      SumsAsDot(g[1..], c, w);
      assert Values(g, c)[1..] == Values(g[1..], c);
      assert Weights(g, c, w)[1..] == Weights(g[1..], c, w);
      TermAsProduct(g[0], c, w);
    }
  }

  /** Each row's term is at least `lo` times its contributing weight. */
  lemma TermsAbove(g: seq<Row>, c: string, w: string, lo: real)
    requires forall i :: 0 <= i < |g| && Contributes(g[i], c, w) ==> lo <= Value(g[i], c)
    ensures forall i :: 0 <= i < |g| ==> lo * Weights(g, c, w)[i] <= Values(g, c)[i] * Weights(g, c, w)[i]
  {
    var xs := Weights(g, c, w);
    forall i | 0 <= i < |g|
      ensures lo * xs[i] <= Values(g, c)[i] * xs[i]
    {
      TermAsProduct(g[i], c, w);
      if xs[i] > 0.0 {
        MulMonotone(lo, Values(g, c)[i], xs[i]);
      }
    }
  }

  /** Each row's term is at most `hi` times its contributing weight. */
  lemma TermsBelow(g: seq<Row>, c: string, w: string, hi: real)
    requires forall i :: 0 <= i < |g| && Contributes(g[i], c, w) ==> Value(g[i], c) <= hi
    ensures forall i :: 0 <= i < |g| ==> Values(g, c)[i] * Weights(g, c, w)[i] <= hi * Weights(g, c, w)[i]
  {
    var xs := Weights(g, c, w);
    forall i | 0 <= i < |g|
      ensures Values(g, c)[i] * xs[i] <= hi * xs[i]
    {
      TermAsProduct(g[i], c, w);
      if xs[i] > 0.0 {
        MulMonotone(Values(g, c)[i], hi, xs[i]);
      }
    }
  }

  /** Σ v·w is at least lo·Σw when every contributing value is at least lo. */
  lemma WeightedSumLower(g: seq<Row>, c: string, w: string, lo: real)
    requires forall i :: 0 <= i < |g| && Contributes(g[i], c, w) ==> lo <= Value(g[i], c)
    ensures lo * ContributingWeight(g, c, w) <= WeightedSum(g, c, w)
  {
    var xs := Weights(g, c, w);
    assert lo * Sum(xs) <= Dot(Values(g, c), xs) by {
      TermsAbove(g, c, w, lo);
      DotLower(Values(g, c), xs, lo);
    }
    SumsAsDot(g, c, w);
    MulEqual(lo, ContributingWeight(g, c, w), Sum(xs));
  }

  /** Σ v·w is at most hi·Σw when every contributing value is at most hi. */
  lemma WeightedSumUpper(g: seq<Row>, c: string, w: string, hi: real)
    requires forall i :: 0 <= i < |g| && Contributes(g[i], c, w) ==> Value(g[i], c) <= hi
    ensures WeightedSum(g, c, w) <= hi * ContributingWeight(g, c, w)
  {
    var xs := Weights(g, c, w);
    assert Dot(Values(g, c), xs) <= hi * Sum(xs) by {
      TermsBelow(g, c, w, hi);
      DotUpper(Values(g, c), xs, hi);
    }
    SumsAsDot(g, c, w);
    MulEqual(hi, ContributingWeight(g, c, w), Sum(xs));
  }

  /** A weighted average lies between the least and the greatest contributing value. */
  lemma WeightedAverageBounds(g: seq<Row>, c: string, w: string, lo: real, hi: real)
    requires forall i :: 0 <= i < |g| && Contributes(g[i], c, w) ==> lo <= Value(g[i], c) <= hi
    requires WeightedAverage(g, c, w) != Undef
    ensures lo <= WeightedAverage(g, c, w).x <= hi
  {
    WeightedSumLower(g, c, w, lo);
    WeightedSumUpper(g, c, w, hi);
    AverageWithin(g, c, w, lo, hi);
  }

  /** Bounds on Σ v·w relative to Σ w carry over to their quotient. */
  lemma AverageWithin(g: seq<Row>, c: string, w: string, lo: real, hi: real)
    requires WeightedAverage(g, c, w) != Undef
    requires Between(lo, hi, WeightedSum(g, c, w), ContributingWeight(g, c, w))
    ensures lo <= WeightedAverage(g, c, w).x <= hi
  {
    DivBounds(WeightedAverage(g, c, w).x, WeightedSum(g, c, w), ContributingWeight(g, c, w), lo, hi);
  }

  /** Two seasons of one era with 10 and 20 games and paces 100 and 110: the era pace is
      (100·10 + 110·20) / 30 = 320/3 ≈ 106.67, not the unweighted 105. */
  lemma WeightedPaceExample(g: seq<Row>)
    requires |g| == 2
    requires Get(g[0], "PACE") == Num(100.0) && Get(g[0], "GAMES_PLAYED") == Num(10.0)
    requires Get(g[1], "PACE") == Num(110.0) && Get(g[1], "GAMES_PLAYED") == Num(20.0)
    ensures WeightedAverage(g, "PACE", "GAMES_PLAYED") == Num(320.0 / 3.0)
    ensures WeightedAverage(g, "PACE", "GAMES_PLAYED") != Num(105.0)
  {
    assert Contributes(g[0], "PACE", "GAMES_PLAYED");
    var tail := g[1..];
    assert tail[0] == g[1] && tail[1..] == [];
    assert TotalWeight(tail, "GAMES_PLAYED") == 20.0;
    assert WeightedSum(tail, "PACE", "GAMES_PLAYED") == 2200.0;
    assert ContributingWeight(tail, "PACE", "GAMES_PLAYED") == 20.0;
    assert TotalWeight(g, "GAMES_PLAYED") == 30.0;
    assert WeightedSum(g, "PACE", "GAMES_PLAYED") == 3200.0;
    assert ContributingWeight(g, "PACE", "GAMES_PLAYED") == 30.0;
  }

  /** The fixed part of an era record: the group's key cells, its total weight and size. */
  function BaseRecord(g: seq<Row>, k: Key, w: string): Row
    requires |k| == |EraGroupColumns|
  {
    map["ERA_KEY" := k[0], "ERA_LABEL" := k[1], "ERA_START_YEAR" := k[3], "ERA_END_YEAR" := k[4],
        "IS_PLAYOFFS" := k[2], "TOTAL_GAMES" := Num(TotalWeight(g, w)), "TEAM_SEASONS" := Num(|g| as real)]
  }

  /** The entries the per-metric loop adds: a weighted average for every metric whose column
      exists, in order. */
  function MetricEntries(record: Row, g: seq<Row>, columns: seq<string>, metrics: seq<string>, w: string): Row
    decreases |metrics|
  {
    if |metrics| == 0 then record
    else
      var m := metrics[|metrics| - 1];
      var before := MetricEntries(record, g, columns, metrics[..|metrics| - 1], w);
      if m in columns then before[m := WeightedAverage(g, m, w)] else before
  }

  /** The whole record of one group: base, metrics, then the possession total and the
      weighted win percentage when their columns exist. */
  function EraRecord(t: Table, k: Key, w: string, metrics: seq<string>): Row
    requires |k| == |EraGroupColumns|
  {
    var g := Group(t.rows, EraGroupColumns, k);
    var withMetrics := MetricEntries(BaseRecord(g, k, w), g, t.columns, metrics, w);
    var withTotal := if "TOTAL_EST_POSSESSIONS" in t.columns
      then withMetrics["TOTAL_EST_POSSESSIONS" := Num(TotalWeight(g, "TOTAL_EST_POSSESSIONS"))] else withMetrics;
    if "WIN_PCT" in t.columns then withTotal["WEIGHTED_WIN_PCT" := WeightedAverage(g, "WIN_PCT", w)] else withTotal
  }

  /** The output columns, as `DataFrame.from_records` collects the record keys. */
  function SummaryColumns(columns: seq<string>, metrics: seq<string>): seq<string> {
    var base := ["ERA_KEY", "ERA_LABEL", "ERA_START_YEAR", "ERA_END_YEAR", "IS_PLAYOFFS", "TOTAL_GAMES", "TEAM_SEASONS"];
    var withMetrics := MetricNames(base, columns, metrics);
    var withTotal := if "TOTAL_EST_POSSESSIONS" in columns then WithName(withMetrics, "TOTAL_EST_POSSESSIONS") else withMetrics;
    if "WIN_PCT" in columns then WithName(withTotal, "WEIGHTED_WIN_PCT") else withTotal
  }

  function MetricNames(names: seq<string>, columns: seq<string>, metrics: seq<string>): seq<string>
    decreases |metrics|
  {
    if |metrics| == 0 then names
    else
      var before := MetricNames(names, columns, metrics[..|metrics| - 1]);
      if metrics[|metrics| - 1] in columns then WithName(before, metrics[|metrics| - 1]) else before
  }

  // ---- ordering by era start, then playoff flag ----

  /** Sort order on one key cell: numbers (booleans as 0 and 1) ascending, then every
      non-number, as `sort_values` puts NaN last. */
  predicate KeyLess(a: Option<real>, b: Option<real>) {
    a.Some? && (b.None? || a.value < b.value)
  }

  function SortKey(r: Row): (Option<real>, Option<real>) {
    (NumOf(Get(r, "ERA_START_YEAR")), NumOf(Get(r, "IS_PLAYOFFS")))
  }

  predicate RecordLess(a: Row, b: Row) {
    var (a1, a2) := SortKey(a);
    var (b1, b2) := SortKey(b);
    KeyLess(a1, b1) || (a1 == b1 && KeyLess(a2, b2))
  }

  lemma RecordLessTransitive(a: Row, b: Row, c: Row)
    requires RecordLess(a, b) && RecordLess(b, c)
    ensures RecordLess(a, c)
  {
  }

  predicate SortedRecords(s: seq<Row>) {
    forall i, j :: 0 <= i < j < |s| ==> !RecordLess(s[j], s[i])
  }

  /** Insert `x` after every record not greater than it: the step of a stable sort. */
  function Insert(x: Row, s: seq<Row>): (r: seq<Row>)
    ensures multiset(r) == multiset(s) + multiset{x}
  {
    if |s| == 0 then [x]
    else if RecordLess(x, s[0]) then [x] + s
    else
      assert s == [s[0]] + s[1..];
      [s[0]] + Insert(x, s[1..])
  }

  lemma {:induction false} InsertSorted(x: Row, s: seq<Row>)
    requires SortedRecords(s)
    ensures SortedRecords(Insert(x, s))
  {
    if |s| == 0 {
    } else if RecordLess(x, s[0]) {
      InsertFront(x, s);
    } else {
      var tail := s[1..];
      assert SortedRecords(tail) by {
        assert forall j :: 0 <= j < |tail| ==> tail[j] == s[j + 1];
      }
      InsertSorted(x, tail);
      assert forall j :: 0 <= j < |tail| ==> !RecordLess(tail[j], s[0]) by {
        assert forall j :: 0 <= j < |tail| ==> tail[j] == s[j + 1];
      }
      InsertNoneBelow(s[0], x, tail);
      var rest := Insert(x, tail);
      ConsSorted(s[0], rest);
    }
  }

  /** When neither `x` nor any record of `s` is below `h`, no record of `Insert(x, s)` is. */
  lemma InsertNoneBelow(h: Row, x: Row, s: seq<Row>)
    requires !RecordLess(x, h)
    requires forall j :: 0 <= j < |s| ==> !RecordLess(s[j], h)
    ensures forall j :: 0 <= j < |Insert(x, s)| ==> !RecordLess(Insert(x, s)[j], h)
  {
    var rest := Insert(x, s);
    forall j | 0 <= j < |rest|
      ensures !RecordLess(rest[j], h)
    {
      assert rest[j] in multiset(rest);
      if rest[j] != x {
        assert rest[j] in multiset(s);
        var k :| 0 <= k < |s| && s[k] == rest[j];
      }
    }
  }

  /** A record less than the head of a sorted list is less than none of its records. */
  lemma InsertFront(x: Row, s: seq<Row>)
    requires SortedRecords(s) && |s| > 0 && RecordLess(x, s[0])
    ensures SortedRecords([x] + s)
  {
    forall j | 0 <= j < |s|
      ensures !RecordLess(s[j], x)
    {
      if RecordLess(s[j], x) {
        RecordLessTransitive(s[j], x, s[0]);
      }
    }
    ConsSorted(x, s);
  }

  /** A sorted list stays sorted under a head that no record of it is less than. */
  lemma ConsSorted(h: Row, s: seq<Row>)
    requires SortedRecords(s)
    requires forall j :: 0 <= j < |s| ==> !RecordLess(s[j], h)
    ensures SortedRecords([h] + s)
  {
    var r := [h] + s;
    forall i, j | 0 <= i < j < |r|
      ensures !RecordLess(r[j], r[i])
    {
      assert r[j] == s[j - 1];
      if i > 0 {
        assert r[i] == s[i - 1];
      }
    }
  }

  /** `sort_values(["ERA_START_YEAR", "IS_PLAYOFFS"])`, stable. */
  function SortRecords(s: seq<Row>): (r: seq<Row>)
    ensures multiset(r) == multiset(s)
    ensures SortedRecords(r)
  {
    if |s| == 0 then []
    else
      assert s == s[..|s| - 1] + [s[|s| - 1]];
      var sorted := SortRecords(s[..|s| - 1]);
      InsertSorted(s[|s| - 1], sorted);
      Insert(s[|s| - 1], sorted)
  }

  /** The columns that must exist before grouping; those absent, as a set. */
  function RequiredAbsent(t: Table, w: string): (absent: set<string>)
    ensures absent == {} <==> "ERA_KEY" in t.columns && "ERA_LABEL" in t.columns && w in t.columns
  {
    var absent := {"ERA_KEY", "ERA_LABEL", w} - set c | c in t.columns;
    assert "ERA_KEY" !in t.columns ==> "ERA_KEY" in absent;
    assert "ERA_LABEL" !in t.columns ==> "ERA_LABEL" in absent;
    assert w !in t.columns ==> w in absent;
    absent
  }

  /** The record `summarize_by_era` builds for one group: its size and weight, then the
      weighted average of each metric present, the total possessions and the weighted win
      percentage. */
  method GroupRecord(t: Table, k: Key, weightCol: string, metrics: seq<string>) returns (record: Row)
    requires |k| == |EraGroupColumns|
    ensures record == EraRecord(t, k, weightCol, metrics)
  {
    var g := Group(t.rows, EraGroupColumns, k);
    record := BaseRecord(g, k, weightCol);
    var m := 0;
    while m < |metrics|
      invariant 0 <= m <= |metrics|
      invariant record == MetricEntries(BaseRecord(g, k, weightCol), g, t.columns, metrics[..m], weightCol)
    {
      assert metrics[..m + 1][..m] == metrics[..m];
      if metrics[m] in t.columns {
        record := record[metrics[m] := WeightedAverage(g, metrics[m], weightCol)];
      }
      m := m + 1;
    }
    assert metrics[..|metrics|] == metrics;
    if "TOTAL_EST_POSSESSIONS" in t.columns {
      record := record["TOTAL_EST_POSSESSIONS" := Num(TotalWeight(g, "TOTAL_EST_POSSESSIONS"))];
    }
    if "WIN_PCT" in t.columns {
      record := record["WEIGHTED_WIN_PCT" := WeightedAverage(g, "WIN_PCT", weightCol)];
    }
  }

  /** `summarize_by_era`. Fails when `ERA_KEY`, `ERA_LABEL` or the weight column is absent
      (naming the absent ones as a set), then when a grouping column is absent (naming the
      first). Otherwise one record per (era key, label, playoff flag, start, end) group,
      ordered by era start year, then playoff flag. */
  method SummarizeByEra(t: Table, weightCol: string, metrics: seq<string>) returns (r: Result<Table>)
    ensures RequiredAbsent(t, weightCol) != {} ==> r == Failure(MissingColumnSet(RequiredAbsent(t, weightCol)))
    ensures RequiredAbsent(t, weightCol) == {} && Missing(t, EraGroupColumns) != [] ==>
      r == Failure(MissingColumns([Missing(t, EraGroupColumns)[0]]))
    ensures r.Success? <==> RequiredAbsent(t, weightCol) == {} && Missing(t, EraGroupColumns) == []
    ensures r.Success? ==> var keys := GroupKeys(t.rows, EraGroupColumns);
      r.value == Table(if |keys| == 0 then [] else SummaryColumns(t.columns, metrics),
                       SortRecords(seq(|keys|, i requires 0 <= i < |keys| => EraRecord(t, keys[i], weightCol, metrics))))
  {
    var absent := RequiredAbsent(t, weightCol);
    if absent != {} {
      return Failure(MissingColumnSet(absent));
    }
    var absentKeys := Missing(t, EraGroupColumns);
    if absentKeys != [] {
      return Failure(MissingColumns([absentKeys[0]]));
    }
    var keys := GroupKeys(t.rows, EraGroupColumns);
    var records: seq<Row> := [];
    var i := 0;
    while i < |keys|
      invariant 0 <= i <= |keys|
      invariant records == seq(i, j requires 0 <= j < i => EraRecord(t, keys[j], weightCol, metrics))
    {
      var record := GroupRecord(t, keys[i], weightCol, metrics);
      records := records + [record];
      i := i + 1;
    }
    var columns := if |records| == 0 then [] else SummaryColumns(t.columns, metrics);
    return Success(Table(columns, SortRecords(records)));
  }

  /** The record of a group states its size, its total weight (missing weights as 0) and,
      for every metric whose column exists and that is not one of the record's own names,
      its weighted average; a metric with no column gets no entry. */
  lemma EraRecordFacts(t: Table, k: Key, w: string, metrics: seq<string>, j: int)
    requires |k| == |EraGroupColumns| && 0 <= j < |metrics|
    requires metrics[j] !in ["ERA_KEY", "ERA_LABEL", "ERA_START_YEAR", "ERA_END_YEAR", "IS_PLAYOFFS",
                             "TOTAL_GAMES", "TEAM_SEASONS", "TOTAL_EST_POSSESSIONS", "WEIGHTED_WIN_PCT"]
    requires forall j' :: j < j' < |metrics| ==> metrics[j'] != metrics[j]
    ensures var g := Group(t.rows, EraGroupColumns, k);
      var rec := EraRecord(t, k, w, metrics);
      && (metrics[j] in t.columns ==> Get(rec, metrics[j]) == WeightedAverage(g, metrics[j], w))
      && (metrics[j] !in t.columns ==> metrics[j] !in rec)
  {
    var g := Group(t.rows, EraGroupColumns, k);
    MetricEntriesAt(BaseRecord(g, k, w), g, t.columns, metrics, w, j);
  }

  lemma {:induction false} MetricEntriesAt(record: Row, g: seq<Row>, columns: seq<string>, metrics: seq<string>, w: string, j: int)
    requires 0 <= j < |metrics| && metrics[j] !in record
    requires forall j' :: j < j' < |metrics| ==> metrics[j'] != metrics[j]
    ensures metrics[j] in columns ==> Get(MetricEntries(record, g, columns, metrics, w), metrics[j]) == WeightedAverage(g, metrics[j], w)
    ensures metrics[j] !in columns ==> metrics[j] !in MetricEntries(record, g, columns, metrics, w)
    decreases |metrics|
  {
    var n := |metrics| - 1;
    var prefix := metrics[..n];
    if j < n {
      MetricEntriesAt(record, g, columns, prefix, w, j);
      assert prefix[j] == metrics[j];
    } else if metrics[j] !in columns {
      MetricEntriesAbsent(record, g, columns, prefix, w, metrics[j]);
    }
  }

  lemma {:induction false} MetricEntriesAbsent(record: Row, g: seq<Row>, columns: seq<string>, metrics: seq<string>, w: string, c: string)
    requires c !in columns && c !in record
    ensures c !in MetricEntries(record, g, columns, metrics, w)
    decreases |metrics|
  {
    if |metrics| > 0 {
      MetricEntriesAbsent(record, g, columns, metrics[..|metrics| - 1], w, c);
    }
  }

  lemma {:induction false} MetricEntriesOther(record: Row, g: seq<Row>, columns: seq<string>, metrics: seq<string>, w: string, c: string)
    requires c !in metrics
    ensures Get(MetricEntries(record, g, columns, metrics, w), c) == Get(record, c)
    ensures c !in record ==> c !in MetricEntries(record, g, columns, metrics, w)
    decreases |metrics|
  {
    if |metrics| > 0 {
      MetricEntriesOther(record, g, columns, metrics[..|metrics| - 1], w, c);
    }
  }

  /** Every record's fixed entries: its group's key cells, total games and team-season count. */
  lemma EraRecordBase(t: Table, k: Key, w: string, metrics: seq<string>)
    requires |k| == |EraGroupColumns|
    requires forall m :: m in metrics ==> m !in ["TOTAL_GAMES", "TEAM_SEASONS"]
    ensures var g := Group(t.rows, EraGroupColumns, k);
      var rec := EraRecord(t, k, w, metrics);
      && Get(rec, "TOTAL_GAMES") == Num(TotalWeight(g, w))
      && Get(rec, "TEAM_SEASONS") == Num(|g| as real)
  {
    var g := Group(t.rows, EraGroupColumns, k);
    assert "TOTAL_GAMES" !in metrics && "TEAM_SEASONS" !in metrics;
    MetricEntriesOther(BaseRecord(g, k, w), g, t.columns, metrics, w, "TOTAL_GAMES");
    MetricEntriesOther(BaseRecord(g, k, w), g, t.columns, metrics, w, "TEAM_SEASONS");
  }
}
