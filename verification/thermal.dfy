/** Module temperature (helpers/panel_temperature_estimator.py): the King et al.
    (2004) open-rack model with a power-law wind-height correction, the
    air-temperature fallback for undefined estimates, and the dummy weather
    columns.
 */
module Thermal {
  import opened Floats
  import opened Transcendental
  import opened Frames
  import opened Installation

  /** The two empirical constants of the King model. */
  const ConstantA: real := -3.47
  const ConstantB: real := -0.0594
  /** Exponent of the wind-speed power-law profile. */
  const WindExponent: real := 0.1429

  /** The wind speed at module height: `(elevation / 10) ** 0.1429 * wind`. It
      is a real number only for a non-negative elevation; the temperature stage
      fails before using it for a negative one. */
  function WindSpeedAtHeight(m: Maths, elevation: real, wind: real): real {
    m.pow(elevation / 10.0, WindExponent) * wind
  }

  /** The same on a cell, which may be NaN. */
  function WindAtModuleHeight(m: Maths, elevation: real, wind: Float): (r: Float)
    ensures r.Num? <==> wind.Num?
  {
    if wind.Num? then Num(WindSpeedAtHeight(m, elevation, wind.val)) else NaN
  }

  /** At the 10 m reference height the wind speed is the measured one. */
  lemma WindAtReferenceHeight(m: Maths, wind: Float)
    requires m.Lawful()
    ensures WindAtModuleHeight(m, 10.0, wind) == wind
  {
  }

  /** `temperature_of_module`: `rad * e^(a + b * ws) + air`, defined exactly when
      all three inputs are. */
  function TemperatureOfModule(m: Maths, absorbed: Float, wind: Float, elevation: real, air: Float): (r: Float)
    ensures r.Num? <==> absorbed.Num? && wind.Num? && air.Num?
  {
    var ws := WindAtModuleHeight(m, elevation, wind);
    Add(Mul(absorbed, Apply(m.exp, Add(Num(ConstantA), Mul(Num(ConstantB), ws)))), air)
  }

  /** The heating factor `e^(a + b * ws)` for a defined wind speed. */
  function Gain(m: Maths, elevation: real, wind: real): real {
    m.exp(ConstantA + ConstantB * WindSpeedAtHeight(m, elevation, wind))
  }

  /** The estimate for defined inputs is `rad * gain + air`. */
  lemma ModuleTemperatureValue(m: Maths, absorbed: real, wind: real, elevation: real, air: real)
    ensures TemperatureOfModule(m, Num(absorbed), Num(wind), elevation, Num(air))
         == Num(absorbed * Gain(m, elevation, wind) + air)
  {
    var ws := WindSpeedAtHeight(m, elevation, wind);
    assert Apply(m.exp, Add(Num(ConstantA), Mul(Num(ConstantB), Num(ws)))) == Num(Gain(m, elevation, wind));
  }

  /** The heating factor is positive, and strictly smaller in a stronger wind
      when the module is above ground. */
  lemma GainProperties(m: Maths, elevation: real, w1: real, w2: real)
    requires m.Lawful()
    ensures Gain(m, elevation, w1) > 0.0
    ensures elevation > 0.0 && w1 < w2 ==> Gain(m, elevation, w2) < Gain(m, elevation, w1)
  {
    if elevation > 0.0 && w1 < w2 {
      var k := m.pow(elevation / 10.0, WindExponent);
      assert k > 0.0;
      MultiplyByPositive(k, w1, w2);
      assert WindSpeedAtHeight(m, elevation, w1) < WindSpeedAtHeight(m, elevation, w2);
    }
  }

  /** The heating term has the sign of the absorbed irradiance: the module is at
      least as warm as the air under non-negative irradiance, exactly as warm
      with none, and never warmer with a negative one. */
  lemma ModuleVersusAirTemperature(m: Maths, absorbed: real, wind: real, elevation: real, air: real)
    requires m.Lawful()
    ensures var r := TemperatureOfModule(m, Num(absorbed), Num(wind), elevation, Num(air));
            && r.Num?
            && (absorbed >= 0.0 ==> r.val >= air)
            && (absorbed == 0.0 ==> r.val == air)
            && (absorbed <= 0.0 ==> r.val <= air)
  {
    ModuleTemperatureValue(m, absorbed, wind, elevation, air);
    var gain := Gain(m, elevation, wind);
    GainProperties(m, elevation, wind, wind);
    if absorbed >= 0.0 {
      assert absorbed * gain >= 0.0;
    } else {
      assert absorbed * gain < 0.0;
    }
  }

  /** More wind cools an irradiated module above ground: the estimate falls
      strictly as the wind speed rises. */
  lemma WindCoolsModule(m: Maths, absorbed: real, w1: real, w2: real, elevation: real, air: real)
    requires m.Lawful()
    requires absorbed > 0.0 && elevation > 0.0 && w1 < w2
    ensures TemperatureOfModule(m, Num(absorbed), Num(w2), elevation, Num(air)).val
          < TemperatureOfModule(m, Num(absorbed), Num(w1), elevation, Num(air)).val
  {
    GainProperties(m, elevation, w1, w2);
    MultiplyByPositive(absorbed, Gain(m, elevation, w2), Gain(m, elevation, w1));
    ModuleTemperatureValue(m, absorbed, w1, elevation, air);
    ModuleTemperatureValue(m, absorbed, w2, elevation, air);
  }

  /** `helper_add_panel_temp`: the estimate, or the air temperature when the
      estimate is NaN. */
  function ModuleTempOrAir(m: Maths, cfg: Config, r: Row): (temp: Float)
    ensures var est := TemperatureOfModule(m, Cell(r, PoaRefCor), Cell(r, Wind), cfg.moduleElevation, Cell(r, T));
            && (est.NaN? ==> temp == Cell(r, T))
            && (est.Num? ==> temp == est)
    ensures temp.Num? <==> Cell(r, T).Num?
  {
    var est := TemperatureOfModule(m, Cell(r, PoaRefCor), Cell(r, Wind), cfg.moduleElevation, Cell(r, T));
    if est.NaN? then Cell(r, T) else est
  }

  /** One row of `add_estimated_panel_temperature`: only `module_temp` is
      written; it is the King estimate when the absorbed irradiance, the wind and
      the air temperature are all defined, the air temperature otherwise. */
  function PanelTemperatureRow(m: Maths, cfg: Config, r: Row): (h: Row)
    ensures Keeps(r, h, {ModuleTemp}) && h.cells.Keys == r.cells.Keys + {ModuleTemp}
    ensures Cell(r, PoaRefCor).Num? && Cell(r, Wind).Num? && Cell(r, T).Num? ==>
              Cell(h, ModuleTemp) == TemperatureOfModule(m, Cell(r, PoaRefCor), Cell(r, Wind), cfg.moduleElevation, Cell(r, T))
    ensures !(Cell(r, PoaRefCor).Num? && Cell(r, Wind).Num?) ==> Cell(h, ModuleTemp) == Cell(r, T)
  {
    Row(r.time, r.cells[ModuleTemp := ModuleTempOrAir(m, cfg, r)])
  }

  /** `add_estimated_panel_temperature`: returns the frame unchanged when `T`,
      `wind` or `poa_ref_cor` is missing. Otherwise, for a module below ground
      level, `(elevation / 10) ** 0.1429` is a complex number, every row's
      estimate is complex and the first row's `math.isnan` raises `TypeError`;
      for any other elevation it writes `module_temp` and nothing else. */
  function AddEstimatedPanelTemperature(m: Maths, cfg: Config, t: Table): (r: Result<Table>)
    ensures T !in t.columns || Wind !in t.columns || PoaRefCor !in t.columns ==> r == Ok(t)
    ensures T in t.columns && Wind in t.columns && PoaRefCor in t.columns ==>
              (r.Err? <==> cfg.moduleElevation < 0.0 && |t.rows| > 0)
    ensures r.Err? ==> r.error == ComplexTemperature
    ensures T in t.columns && Wind in t.columns && PoaRefCor in t.columns && r.Ok? ==>
              && OnlyWrites(t, r.value, {ModuleTemp})
              && (t.WellFormed() ==> r.value.WellFormed())
              && forall i :: 0 <= i < |t.rows| ==> r.value.rows[i] == PanelTemperatureRow(m, cfg, t.rows[i])
  {
    if T !in t.columns then Ok(t)
    else if Wind !in t.columns then Ok(t)
    else if PoaRefCor !in t.columns then Ok(t)
    else if cfg.moduleElevation < 0.0 && |t.rows| > 0 then Err(ComplexTemperature)
    else Ok(Table(t.columns + {ModuleTemp},
                  seq(|t.rows|, i requires 0 <= i < |t.rows| => PanelTemperatureRow(m, cfg, t.rows[i]))))
  }

  /** Sets column `c` to the same value in every row. */
  function SetConstantColumn(t: Table, c: Col, v: real): (r: Table)
    ensures OnlyWrites(t, r, {c})
    ensures t.WellFormed() ==> r.WellFormed()
    ensures forall i :: 0 <= i < |r.rows| ==> c in r.rows[i].cells && r.rows[i].cells[c] == Num(v)
  {
    Table(t.columns + {c},
          seq(|t.rows|, i requires 0 <= i < |t.rows| => Row(t.rows[i].time, t.rows[i].cells[c := Num(v)])))
  }

  /** `add_dummy_temperature`: every row's `T` becomes `temp`, overwriting. */
  function AddDummyTemperature(t: Table, temp: real): (r: Table)
    ensures OnlyWrites(t, r, {T})
    ensures forall i :: 0 <= i < |r.rows| ==> Cell(r.rows[i], T) == Num(temp)
  {
    SetConstantColumn(t, T, temp)
  }

  /** `add_dummy_wind`: every row's `wind` becomes `wind`, overwriting. */
  function AddDummyWind(t: Table, wind: real): (r: Table)
    ensures OnlyWrites(t, r, {Wind})
    ensures forall i :: 0 <= i < |r.rows| ==> Cell(r.rows[i], Wind) == Num(wind)
  {
    SetConstantColumn(t, Wind, wind)
  }

  /** `add_dummy_wind_and_temp`: adds a constant `T` column only when the frame
      has none, then a constant `wind` column only when the frame has none. */
  function AddDummyWindAndTemp(t: Table, wind: real, temp: real): (r: Table)
    ensures T in r.columns && Wind in r.columns
    ensures OnlyWrites(t, r, (if T in t.columns then {} else {T}) + (if Wind in t.columns then {} else {Wind}))
    ensures t.WellFormed() ==> r.WellFormed()
    ensures T !in t.columns ==> forall i :: 0 <= i < |r.rows| ==> Cell(r.rows[i], T) == Num(temp)
    ensures Wind !in t.columns ==> forall i :: 0 <= i < |r.rows| ==> Cell(r.rows[i], Wind) == Num(wind)
  {
    var withT := if T !in t.columns then AddDummyTemperature(t, temp) else t;
    var withWind := if Wind !in withT.columns then AddDummyWind(withT, wind) else withT;
    OnlyWritesCompose(t, withT, withWind,
                      if T in t.columns then {} else {T}, if Wind in t.columns then {} else {Wind});
    withWind
  }

  /** Adding the dummies never overwrites: a second application changes nothing. */
  lemma AddDummyWindAndTempIdempotent(t: Table, wind: real, temp: real)
    ensures AddDummyWindAndTemp(AddDummyWindAndTemp(t, wind, temp), wind, temp)
         == AddDummyWindAndTemp(t, wind, temp)
  {
  }
}
