/** Output power (helpers/output_estimator.py): the Huld et al. (2010) empirical
    efficiency model with its guard against non-positive irradiance, the floor
    of the efficiency at 0, and the replacement of an undefined estimate by 0.
 */
module PowerOutput {
  import opened Floats
  import opened Transcendental
  import opened Frames
  import opened Installation

  /** The six calibrated constants of the Huld model. */
  const K1: real := -0.017162
  const K2: real := -0.040289
  const K3: real := -0.004681
  const K4: real := 0.000148
  const K5: real := 0.000169
  const K6: real := 0.000005

  /** Module temperature of the standard test conditions, Celsius. */
  const ReferenceTemp: real := 25.0

  /** The efficiency polynomial in `ln(nrad)` and `Tdiff = module_temp - 25`. */
  function Efficiency(lnNrad: real, tdiff: real): real {
    1.0 + K1 * lnNrad + K2 * (lnNrad * lnNrad)
      + tdiff * (K3 + K4 * lnNrad + K5 * (lnNrad * lnNrad))
      + K6 * (tdiff * tdiff)
  }

  /** `__estimate_output`: 0 when `nrad = absorbed / 1000` is at most 0 (whatever
      the module temperature), otherwise `rated_power_W * nrad * max(efficiency, 0)`,
      which is NaN exactly when an input is. */
  function EstimateOutput(m: Maths, cfg: Config, absorbed: Float, panelTemp: Float): (r: Float)
    ensures absorbed.Num? && absorbed.val <= 0.0 ==> r == Num(0.0)
    ensures r.NaN? <==> absorbed.NaN? || (absorbed.val > 0.0 && panelTemp.NaN?)
    ensures cfg.ratedPowerKw >= 0.0 && r.Num? ==> r.val >= 0.0
  {
    var nrad := Div(absorbed, Num(1000.0));
    if Le(nrad, Num(0.0)) then Num(0.0)
    else
      var lnNrad := Apply(m.ln, nrad);
      var tdiff := Sub(panelTemp, Num(ReferenceTemp));
      var ratedPower := cfg.ratedPowerKw * 1000.0;
      var efficiency := if lnNrad.Num? && tdiff.Num? then Num(Efficiency(lnNrad.val, tdiff.val)) else NaN;
      var floored := Max(efficiency, Num(0.0));
      assert cfg.ratedPowerKw >= 0.0 && floored.Num? ==> ratedPower * nrad.val * floored.val >= 0.0;
      Mul(Mul(Num(ratedPower), nrad), floored)
  }

  /** `max(e, 0)` on defined values: a defined efficiency floored at 0. */
  function FloorAtZero(e: real): real {
    Max(Num(e), Num(0.0)).val
  }

  /** For positive irradiance and a defined module temperature the output is
      the rated power in W scaled by `nrad` and the efficiency floored at 0;
      for a positive rated power it is 0 exactly when the efficiency polynomial
      is not positive. */
  lemma EfficiencyFloor(m: Maths, cfg: Config, absorbed: real, panelTemp: real)
    requires absorbed > 0.0
    ensures var nrad := absorbed / 1000.0;
            var e := Efficiency(m.ln(nrad), panelTemp - ReferenceTemp);
            EstimateOutput(m, cfg, Num(absorbed), Num(panelTemp)) == Num(cfg.ratedPowerKw * 1000.0 * nrad * FloorAtZero(e))
    ensures var e := Efficiency(m.ln(absorbed / 1000.0), panelTemp - ReferenceTemp);
            cfg.ratedPowerKw > 0.0 ==> (EstimateOutput(m, cfg, Num(absorbed), Num(panelTemp)) == Num(0.0) <==> e <= 0.0)
  {
    var nrad := absorbed / 1000.0;
    var e := Efficiency(m.ln(nrad), panelTemp - ReferenceTemp);
    var p := cfg.ratedPowerKw * 1000.0;
    if p > 0.0 {
      assert p * nrad > 0.0;
      if e > 0.0 {
        assert p * nrad * e > 0.0;
      }
    }
  }

  /** At 1000 W/m2 and 25 Celsius the efficiency is 1 and the output is the rated
      power converted from kW to W. */
  lemma RatedPowerAtStandardTestConditions(m: Maths, cfg: Config)
    requires m.Lawful()
    ensures EstimateOutput(m, cfg, Num(1000.0), Num(ReferenceTemp)) == Num(cfg.ratedPowerKw * 1000.0)
  {
    assert Efficiency(0.0, 0.0) == 1.0;
  }

  /** The efficiency at 1000 W/m2 (`ln(nrad) = 0`): `1 + k3 * Tdiff + k6 * Tdiff^2`. */
  function StandardIrradianceEfficiency(panelTemp: real): real {
    var x := panelTemp - ReferenceTemp;
    1.0 + K3 * x + K6 * (x * x)
  }

  /** At 1000 W/m2 the output depends on the module temperature only through
      the temperature terms of the efficiency, floored at 0. */
  lemma OutputAtStandardIrradiance(m: Maths, cfg: Config, panelTemp: real)
    requires m.Lawful()
    ensures EstimateOutput(m, cfg, Num(1000.0), Num(panelTemp))
         == Num(cfg.ratedPowerKw * 1000.0 * FloorAtZero(StandardIrradianceEfficiency(panelTemp)))
  {
    var x := panelTemp - ReferenceTemp;
    assert Efficiency(0.0, x) == StandardIrradianceEfficiency(panelTemp);
  }

  /** The temperature part of the efficiency at 1000 W/m2 decreases while the
      two module temperatures sum to at most 986 Celsius. */
  lemma TemperatureTermDecreasing(t1: real, t2: real)
    requires t1 <= t2 && t1 + t2 <= 986.0
    ensures StandardIrradianceEfficiency(t2) <= StandardIrradianceEfficiency(t1)
  {
    var x1, x2 := t1 - ReferenceTemp, t2 - ReferenceTemp;
    assert StandardIrradianceEfficiency(t2) - StandardIrradianceEfficiency(t1)
        == (x2 - x1) * (K3 + K6 * (x1 + x2));
    assert K3 + K6 * (x1 + x2) <= 0.0;
  }

  /** At 1000 W/m2 a hotter module never produces more, over the whole range
      where the temperature terms decrease (module temperatures summing to at
      most 986 Celsius). */
  lemma HotterModuleProducesLess(m: Maths, cfg: Config, t1: real, t2: real)
    requires m.Lawful()
    requires cfg.ratedPowerKw >= 0.0
    requires t1 <= t2 && t1 + t2 <= 986.0
    ensures EstimateOutput(m, cfg, Num(1000.0), Num(t2)).val <= EstimateOutput(m, cfg, Num(1000.0), Num(t1)).val
  {
    TemperatureTermDecreasing(t1, t2);
    var f1, f2 := FloorAtZero(StandardIrradianceEfficiency(t1)), FloorAtZero(StandardIrradianceEfficiency(t2));
    FloorAtZeroMonotone(StandardIrradianceEfficiency(t2), StandardIrradianceEfficiency(t1));
    var p := cfg.ratedPowerKw * 1000.0;
    MultiplyByNonNegative(p, f2, f1);
    OutputAtStandardIrradiance(m, cfg, t1);
    OutputAtStandardIrradiance(m, cfg, t2);
  }

  /** The floor at 0 preserves order. */
  lemma FloorAtZeroMonotone(x: real, y: real)
    requires x <= y
    ensures FloorAtZero(x) <= FloorAtZero(y)
  {
  }

  /** The floor matters: a 493 Celsius module at 1000 W/m2 has a negative
      efficiency polynomial, and the output is 0 rather than negative. */
  lemma NegativeEfficiencyGivesZero(m: Maths, cfg: Config)
    requires m.Lawful()
    ensures Efficiency(0.0, 468.0) < 0.0
    ensures EstimateOutput(m, cfg, Num(1000.0), Num(493.0)) == Num(0.0)
  {
    assert Efficiency(0.0, 468.0) == 1.0 + K3 * 468.0 + K6 * (468.0 * 468.0);
  }

  /** `helper_add_output`: an undefined estimate becomes 0, a defined one is kept. */
  function OutputOrZero(estimate: Float): (r: Float)
    ensures r.Num?
    ensures estimate.Num? ==> r == estimate
    ensures estimate.NaN? ==> r == Num(0.0)
  {
    if estimate.NaN? then Num(0.0) else estimate
  }

  /** One row of `add_output_to_df`: only `output` is written; it is always
      defined, non-negative for a non-negative rated power, and 0 when the
      absorbed irradiance is undefined or not positive. */
  function OutputRow(m: Maths, cfg: Config, r: Row): (o: Row)
    ensures Keeps(r, o, {Output}) && o.cells.Keys == r.cells.Keys + {Output}
    ensures Cell(o, Output).Num? && (cfg.ratedPowerKw >= 0.0 ==> Cell(o, Output).val >= 0.0)
    ensures Cell(r, PoaRefCor).NaN? || Cell(r, PoaRefCor).val <= 0.0 ==> Cell(o, Output) == Num(0.0)
  {
    Row(r.time, r.cells[Output := OutputOrZero(EstimateOutput(m, cfg, Cell(r, PoaRefCor), Cell(r, ModuleTemp)))])
  }

  /** `add_output_to_df`: fails when `poa_ref_cor`, then `module_temp`, is missing;
      otherwise writes `output` and nothing else, and every output is defined
      and, for a non-negative rated power, non-negative. */
  function AddOutput(m: Maths, cfg: Config, t: Table): (r: Result<Table>)
    ensures r.Ok? <==> PoaRefCor in t.columns && ModuleTemp in t.columns
    ensures r.Err? ==> r.error.MissingColumn? && IsFirstMissing(t, [PoaRefCor, ModuleTemp], r.error.col)
    ensures r.Ok? ==> && OnlyWrites(t, r.value, {Output})
                      && (t.WellFormed() ==> r.value.WellFormed())
                      && forall i :: 0 <= i < |t.rows| ==> r.value.rows[i] == OutputRow(m, cfg, t.rows[i])
    ensures r.Ok? ==> forall i :: 0 <= i < |t.rows| ==>
              var out := Cell(r.value.rows[i], Output);
              out.Num? && (cfg.ratedPowerKw >= 0.0 ==> out.val >= 0.0)
  {
    var _ :- FirstMissing(t, [PoaRefCor, ModuleTemp]);
    Ok(Table(t.columns + {Output},
             seq(|t.rows|, i requires 0 <= i < |t.rows| => OutputRow(m, cfg, t.rows[i]))))
  }
}
