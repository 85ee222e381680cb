/** Row-wise metrics: pace, efficiency, shot profile and ball security. Each transform works
    on a copy and adds or overwrites only its named output columns. */
module Features {
  import opened Strings
  import opened Tables

  // ---------------------------------------------------------------- per-row formulas

  /** `possessions * 48 / minutes`. The source does not guard the division; the model gives a
      missing value where floating point would give an infinity or NaN. */
  function PaceValue(possessions: Option<real>, minutes: Option<real>): (r: Option<real>)
    ensures r.Some? <==> possessions.Some? && minutes.Some? && minutes.value != 0.0
    ensures r.Some? ==> r.value * minutes.value == 48.0 * possessions.value
  {
    Div(Scale(48.0, possessions), minutes)
  }

  /** `points * 100 / possessions`, unguarded in the source like pace. */
  function Per100(points: Option<real>, possessions: Option<real>): (r: Option<real>)
    ensures r.Some? <==> points.Some? && possessions.Some? && possessions.value != 0.0
    ensures r.Some? ==> r.value * possessions.value == 100.0 * points.value
  {
    Div(Scale(100.0, points), possessions)
  }

  /** `FG3A / FGA`, missing when there are no attempts. */
  function ThreePointRate(fg3a: Option<real>, fga: Option<real>): (r: Option<real>)
    ensures r.Some? <==> fg3a.Some? && fga.Some? && fga.value != 0.0
    ensures r.Some? ==> r.value == fg3a.value / fga.value
  {
    Div(fg3a, fga)
  }

  /** `3 FG3M / (2 FGM + FG3M)`, missing when that denominator is zero. */
  function ThreePointShare(fgm: Option<real>, fg3m: Option<real>): (r: Option<real>)
    ensures r.Some? <==> fgm.Some? && fg3m.Some? && 2.0 * fgm.value + fg3m.value != 0.0
    ensures r.Some? ==> r.value == 3.0 * fg3m.value / (2.0 * fgm.value + fg3m.value)
  {
    Div(Scale(3.0, fg3m), Add(Scale(2.0, fgm), fg3m))
  }

  /** `(FGM + 0.5 FG3M) / FGA`, missing when there are no attempts. */
  function EffectiveFgPct(fgm: Option<real>, fg3m: Option<real>, fga: Option<real>): (r: Option<real>)
    ensures r.Some? <==> fgm.Some? && fg3m.Some? && fga.Some? && fga.value != 0.0
    ensures r.Some? ==> r.value == (fgm.value + 0.5 * fg3m.value) / fga.value
  {
    Div(Add(fgm, Scale(0.5, fg3m)), fga)
  }

  /** `AST / TOV`, missing when there are no turnovers. */
  function AstTovRatio(ast: Option<real>, tov: Option<real>): (r: Option<real>)
    ensures r.Some? <==> ast.Some? && tov.Some? && tov.value != 0.0
    ensures r.Some? ==> r.value == ast.value / tov.value
  {
    Div(ast, tov)
  }

  /** `TOV / (AST + TOV)`, missing when both are zero (or sum to zero). */
  function TurnoverPct(ast: Option<real>, tov: Option<real>): (r: Option<real>)
    ensures r.Some? <==> ast.Some? && tov.Some? && ast.value + tov.value != 0.0
    ensures r.Some? ==> r.value == tov.value / (ast.value + tov.value)
  {
    Div(tov, Add(ast, tov))
  }

  // ---------------------------------------------------------------- properties of the formulas

  /** A share of a positive whole is a fraction. */
  lemma FractionOfWhole(part: real, whole: real)
    requires 0.0 <= part <= whole && whole > 0.0
    ensures 0.0 <= part / whole <= 1.0
  {
    var q := part / whole;
    assert q * whole == part;
  }

  /** With no field-goal attempts the rate and the effective percentage are missing, not an
      error and not an infinity. */
  lemma NoAttemptsGiveMissing(fgm: Option<real>, fg3m: Option<real>, fg3a: Option<real>)
    ensures ThreePointRate(fg3a, Some(0.0)).None?
    ensures EffectiveFgPct(fgm, fg3m, Some(0.0)).None?
  {
  }

  /** The rate is a fraction when threes are a subset of all attempts. */
  lemma ThreePointRateIsFraction(fg3a: real, fga: real)
    requires 0.0 <= fg3a <= fga && fga > 0.0
    ensures var r := ThreePointRate(Some(fg3a), Some(fga)); r.Some? && 0.0 <= r.value <= 1.0
  {
    FractionOfWhole(fg3a, fga);
  }

  /** The share of points from threes is a fraction when made threes are a subset of made
      field goals. */
  lemma ThreePointShareIsFraction(fgm: real, fg3m: real)
    requires 0.0 <= fg3m <= fgm && 2.0 * fgm + fg3m > 0.0
    ensures var r := ThreePointShare(Some(fgm), Some(fg3m)); r.Some? && 0.0 <= r.value <= 1.0
  {
    FractionOfWhole(3.0 * fg3m, 2.0 * fgm + fg3m);
  }

  /** For non-negative counts with a positive sum the turnover percentage lies in [0, 1]. */
  lemma TurnoverPctIsFraction(ast: real, tov: real)
    requires ast >= 0.0 && tov >= 0.0 && ast + tov > 0.0
    ensures var r := TurnoverPct(Some(ast), Some(tov)); r.Some? && 0.0 <= r.value <= 1.0
  {
    FractionOfWhole(tov, ast + tov);
  }

  /** Ratio and percentage describe the same split: `TOV% = 1 / (1 + AST/TOV)`. */
  lemma TurnoverPctFromRatio(ast: real, tov: real)
    requires tov > 0.0 && ast >= 0.0
    ensures var ratio := AstTovRatio(Some(ast), Some(tov)).value;
      TurnoverPct(Some(ast), Some(tov)).value * (1.0 + ratio) == 1.0
  {
    var ratio := ast / tov;
    assert ratio * tov == ast;
    var p := tov / (ast + tov);
    assert p * (ast + tov) == tov;
    calc {
      p * (1.0 + ratio) * tov;
      p * (tov + ratio * tov);
      p * (tov + ast);
      tov;
    }
  }

  // ---------------------------------------------------------------- table transforms

  function Column(t: Table, c: string, i: int): Option<real>
    requires 0 <= i < |t.rows|
  {
    NumOf(Get(t.rows[i], c))
  }

  /** `compute_pace`: needs both columns, then writes `PACE`. */
  function ComputePace(t: Table, possessionsCol: string, minutesCol: string): (r: Result<Table>)
    ensures r.Failure? <==> possessionsCol !in t.columns || minutesCol !in t.columns
    ensures r.Failure? ==> r.error == ColumnsRequired([possessionsCol, minutesCol])
    ensures r.Success? ==> r.value.columns == WithName(t.columns, "PACE") && |r.value.rows| == |t.rows|
    ensures r.Success? ==> forall i :: 0 <= i < |t.rows| ==>
      r.value.rows[i] == t.rows[i]["PACE" := NumCell(PaceValue(Column(t, possessionsCol, i), Column(t, minutesCol, i)))]
  {
    if possessionsCol !in t.columns || minutesCol !in t.columns then Failure(ColumnsRequired([possessionsCol, minutesCol]))
    else Success(SetColumn(t, "PACE", seq(|t.rows|, i requires 0 <= i < |t.rows| =>
      NumCell(PaceValue(Column(t, possessionsCol, i), Column(t, minutesCol, i))))))
  }

  function EfficiencyColumn(prefix: string): string {
    prefix + "_EFF_PER_100"
  }

  /** `compute_efficiency`: needs both columns, then writes `<prefix>_EFF_PER_100`. */
  function ComputeEfficiency(t: Table, pointsCol: string, possessionsCol: string, prefix: string): (r: Result<Table>)
    ensures r.Failure? <==> pointsCol !in t.columns || possessionsCol !in t.columns
    ensures r.Failure? ==> r.error == ColumnsRequired([pointsCol, possessionsCol])
    ensures r.Success? ==> r.value.columns == WithName(t.columns, EfficiencyColumn(prefix)) && |r.value.rows| == |t.rows|
    ensures r.Success? ==> forall i :: 0 <= i < |t.rows| ==>
      r.value.rows[i] == t.rows[i][EfficiencyColumn(prefix) := NumCell(Per100(Column(t, pointsCol, i), Column(t, possessionsCol, i)))]
  {
    if pointsCol !in t.columns || possessionsCol !in t.columns then Failure(ColumnsRequired([pointsCol, possessionsCol]))
    else Success(SetColumn(t, EfficiencyColumn(prefix), seq(|t.rows|, i requires 0 <= i < |t.rows| =>
      NumCell(Per100(Column(t, pointsCol, i), Column(t, possessionsCol, i))))))
  }

  /** `compute_shot_profile`: fails naming the absent inputs in the order fgm, fga, fg3m,
      fg3a; otherwise writes the three shooting columns. */
  function ComputeShotProfile(t: Table, fgmCol: string, fgaCol: string, fg3mCol: string, fg3aCol: string): (r: Result<Table>)
    ensures r.Failure? <==> Missing(t, [fgmCol, fgaCol, fg3mCol, fg3aCol]) != []
    ensures r.Failure? ==> r.error == MissingColumns(Missing(t, [fgmCol, fgaCol, fg3mCol, fg3aCol]))
    ensures r.Success? ==> r.value.columns == WithName(WithName(WithName(t.columns, "THREE_POINT_RATE"), "THREE_POINT_SHARE_OF_PTS"), "EFFECTIVE_FG_PCT")
    ensures r.Success? ==> |r.value.rows| == |t.rows| && forall i :: 0 <= i < |t.rows| ==>
      r.value.rows[i] == t.rows[i]
        ["THREE_POINT_RATE" := NumCell(ThreePointRate(Column(t, fg3aCol, i), Column(t, fgaCol, i)))]
        ["THREE_POINT_SHARE_OF_PTS" := NumCell(ThreePointShare(Column(t, fgmCol, i), Column(t, fg3mCol, i)))]
        ["EFFECTIVE_FG_PCT" := NumCell(EffectiveFgPct(Column(t, fgmCol, i), Column(t, fg3mCol, i), Column(t, fgaCol, i)))]
  {
    var missing := Missing(t, [fgmCol, fgaCol, fg3mCol, fg3aCol]);
    if missing != [] then Failure(MissingColumns(missing))
    else
      var n := |t.rows|;
      var t1 := SetColumn(t, "THREE_POINT_RATE", seq(n, i requires 0 <= i < n =>
        NumCell(ThreePointRate(Column(t, fg3aCol, i), Column(t, fgaCol, i)))));
      var t2 := SetColumn(t1, "THREE_POINT_SHARE_OF_PTS", seq(n, i requires 0 <= i < n =>
        NumCell(ThreePointShare(Column(t, fgmCol, i), Column(t, fg3mCol, i)))));
      Success(SetColumn(t2, "EFFECTIVE_FG_PCT", seq(n, i requires 0 <= i < n =>
        NumCell(EffectiveFgPct(Column(t, fgmCol, i), Column(t, fg3mCol, i), Column(t, fgaCol, i))))))
  }

  /** `compute_ball_security`: fails naming the absent inputs in the order assists,
      turnovers; otherwise writes `AST_TOV_RATIO` and `TURNOVER_PCT`. */
  function ComputeBallSecurity(t: Table, assistsCol: string, turnoversCol: string): (r: Result<Table>)
    ensures r.Failure? <==> Missing(t, [assistsCol, turnoversCol]) != []
    ensures r.Failure? ==> r.error == MissingColumns(Missing(t, [assistsCol, turnoversCol]))
    ensures r.Success? ==> r.value.columns == WithName(WithName(t.columns, "AST_TOV_RATIO"), "TURNOVER_PCT")
    ensures r.Success? ==> |r.value.rows| == |t.rows| && forall i :: 0 <= i < |t.rows| ==>
      r.value.rows[i] == t.rows[i]
        ["AST_TOV_RATIO" := NumCell(AstTovRatio(Column(t, assistsCol, i), Column(t, turnoversCol, i)))]
        ["TURNOVER_PCT" := NumCell(TurnoverPct(Column(t, assistsCol, i), Column(t, turnoversCol, i)))]
  {
    var missing := Missing(t, [assistsCol, turnoversCol]);
    if missing != [] then Failure(MissingColumns(missing))
    else
      var n := |t.rows|;
      var t1 := SetColumn(t, "AST_TOV_RATIO", seq(n, i requires 0 <= i < n =>
        NumCell(AstTovRatio(Column(t, assistsCol, i), Column(t, turnoversCol, i)))));
      Success(SetColumn(t1, "TURNOVER_PCT", seq(n, i requires 0 <= i < n =>
        NumCell(TurnoverPct(Column(t, assistsCol, i), Column(t, turnoversCol, i))))))
  }
}
