/** The irradiance-to-power chain (`__process_irradiance_data` in main.py):
    projection, reflection components, reflection sum, dummy weather when the
    input lacks it, module temperature, output power — in that order, each stage
    writing its own columns of the same frame.
 */
module Pipeline {
  import opened Floats
  import opened Transcendental
  import opened Frames
  import opened Installation
  import opened Astronomy
  import opened Projection
  import opened Reflection
  import opened Thermal
  import opened PowerOutput

  /** The weather columns the dummy stage adds to `input`. */
  function DummyColumns(input: Table): set<Col> {
    (if T in input.columns then {} else {T}) + (if Wind in input.columns then {} else {Wind})
  }

  /** The air temperature a row ends up with: its own, or the configured dummy. */
  function AirTemperature(cfg: Config, input: Table, r: Row): Float {
    if T in input.columns then Cell(r, T) else Num(cfg.airTemp)
  }

  /** `__process_irradiance_data`. It fails with `KeyError` when the input lacks
      dni, dhi or ghi, and with `TypeError` when the module is below ground
      level and there is a row to estimate; otherwise it keeps every row and
      timestamp, writes the derived columns (and the missing weather columns)
      and nothing else, and every row ends with a defined output that is
      non-negative for a non-negative rated power. */
  function ProcessIrradianceData(m: Maths, lib: Pvlib, cfg: Config, input: Table): (r: Result<Table>)
    ensures r.Ok? <==> && Dni in input.columns && Dhi in input.columns && Ghi in input.columns
                       && (cfg.moduleElevation >= 0.0 || |input.rows| == 0)
    ensures r.Err? ==> || (r.error.MissingColumn? && IsFirstMissing(input, [Dni, Dhi, Ghi], r.error.col))
                       || (&& r.error == ComplexTemperature
                           && Dni in input.columns && Dhi in input.columns && Ghi in input.columns
                           && cfg.moduleElevation < 0.0)
    ensures r.Ok? ==> && OnlyWrites(input, r.value, Derived + DummyColumns(input))
                      && (input.WellFormed() ==> r.value.WellFormed())
    ensures r.Ok? ==> forall i :: 0 <= i < |r.value.rows| ==>
              var out := Cell(r.value.rows[i], Output);
              out.Num? && (cfg.ratedPowerKw >= 0.0 ==> out.val >= 0.0)
  {
    var projected :- IrradianceToPoa(m, lib, cfg, input);
    // the later stages find the columns the earlier ones wrote, so they cannot fail
    var components := AddReflectionCorrectedPoaComponents(m, lib, cfg, projected).value;
    var corrected := AddReflectionCorrectedPoa(m, lib, cfg, components).value;
    CorrectedKeepsWeather(m, lib, cfg, input);
    var weather := AddWeather(cfg, corrected);
    var heated :- AddEstimatedPanelTemperature(m, cfg, weather);
    var result := AddOutput(m, cfg, heated);
    ProcessFrame(input, corrected, weather, heated, result.value);
    result
  }

  /** Step 4.1: dummy wind and air temperature when the frame lacks either. The
      frame inspected is the one the earlier stages wrote into (they never touch
      the weather columns). */
  function AddWeather(cfg: Config, corrected: Table): (r: Table)
    ensures OnlyWrites(corrected, r, DummyColumns(corrected))
    ensures T in r.columns && Wind in r.columns
    ensures corrected.WellFormed() ==> r.WellFormed()
  {
    if T !in corrected.columns || Wind !in corrected.columns
    then AddDummyWindAndTemp(corrected, cfg.windSpeed, cfg.airTemp)
    else corrected
  }

  /** The frame bookkeeping of `ProcessIrradianceData`, stage by stage. */
  lemma ProcessFrame(input: Table, corrected: Table, weather: Table, heated: Table, output: Table)
    requires OnlyWrites(input, corrected, IrradianceColumns)
    requires T !in IrradianceColumns && Wind !in IrradianceColumns
    requires OnlyWrites(corrected, weather, DummyColumns(corrected))
    requires OnlyWrites(weather, heated, {ModuleTemp})
    requires OnlyWrites(heated, output, {Output})
    ensures OnlyWrites(input, output, Derived + DummyColumns(input))
  {
    assert DummyColumns(corrected) == DummyColumns(input);
    var w := IrradianceColumns + DummyColumns(input);
    OnlyWritesCompose(input, corrected, weather, IrradianceColumns, DummyColumns(input));
    OnlyWritesCompose(input, weather, heated, w, {ModuleTemp});
    OnlyWritesCompose(input, heated, output, w + {ModuleTemp}, {Output});
    assert w + {ModuleTemp} + {Output} == Derived + DummyColumns(input);
  }

  /** The guard in front of the dummy stage changes nothing: with both weather
      columns present the dummy stage is the identity. */
  lemma DummyGuardRedundant(t: Table, wind: real, temp: real)
    requires T in t.columns && Wind in t.columns
    ensures AddDummyWindAndTemp(t, wind, temp) == t
  {
  }

  /** A night-time row (ghi = dni = dhi = 0) ends with no irradiance on the
      panel, the module at air temperature and no output. It absorbs nothing
      on a tilted panel; on a flat panel the absorbed irradiance is undefined
      (the ground factor is 0 / 0), which leads to the same temperature and
      output through the fallbacks. */
  lemma ZeroIrradianceRow(m: Maths, lib: Pvlib, cfg: Config, input: Table, i: int)
    requires m.Lawful() && lib.Lawful() && cfg.Valid()
    requires input.WellFormed()
    requires Dni in input.columns && Dhi in input.columns && Ghi in input.columns
    requires 0 <= i < |input.rows|
    requires Cell(input.rows[i], Dni) == Num(0.0)
    requires Cell(input.rows[i], Dhi) == Num(0.0)
    requires Cell(input.rows[i], Ghi) == Num(0.0)
    requires Albedo in input.columns ==> Cell(input.rows[i], Albedo).Num?
    ensures ProcessIrradianceData(m, lib, cfg, input).Ok?
    ensures var out := ProcessIrradianceData(m, lib, cfg, input).value.rows[i];
            && Cell(out, Poa) == Num(0.0)
            && (cfg.tilt != 0.0 ==> Cell(out, PoaRefCor) == Num(0.0))
            && (cfg.tilt == 0.0 ==> Cell(out, PoaRefCor).NaN?)
            && Cell(out, ModuleTemp) == AirTemperature(cfg, input, input.rows[i])
            && Cell(out, Output) == Num(0.0)
  {
    var row := input.rows[i];
    var projected := IrradianceToPoa(m, lib, cfg, input).value;
    var components := AddReflectionCorrectedPoaComponents(m, lib, cfg, projected).value;
    var corrected := AddReflectionCorrectedPoa(m, lib, cfg, components).value;
    var weather := AddWeather(cfg, corrected);
    var heated := AddEstimatedPanelTemperature(m, cfg, weather).value;
    var output := AddOutput(m, cfg, heated).value;
    assert ProcessIrradianceData(m, lib, cfg, input) == Ok(output);
    ZeroRowReflected(m, lib, cfg, input, i);

    // weather: the row keeps its own T or receives the dummy one
    var w := weather.rows[i];
    CorrectedKeepsWeather(m, lib, cfg, input);
    WeatherRow(cfg, input, corrected, IrradianceColumns, i);

    assert heated.rows[i] == PanelTemperatureRow(m, cfg, w);
    assert output.rows[i] == OutputRow(m, cfg, heated.rows[i]);
    ZeroAbsorbedRow(m, cfg, w);
  }

  /** The columns the projection and reflection stages write. */
  const IrradianceColumns: set<Col> := ProjectionColumns + ComponentColumns + {PoaRefCor}

  /** The projection and reflection stages write only irradiance columns. */
  lemma CorrectedKeepsWeather(m: Maths, lib: Pvlib, cfg: Config, input: Table)
    requires Dni in input.columns && Dhi in input.columns && Ghi in input.columns
    ensures var projected := IrradianceToPoa(m, lib, cfg, input).value;
            var components := AddReflectionCorrectedPoaComponents(m, lib, cfg, projected).value;
            var corrected := AddReflectionCorrectedPoa(m, lib, cfg, components).value;
            OnlyWrites(input, corrected, IrradianceColumns)
    ensures T !in IrradianceColumns && Wind !in IrradianceColumns
  {
    var projected := IrradianceToPoa(m, lib, cfg, input).value;
    var components := AddReflectionCorrectedPoaComponents(m, lib, cfg, projected).value;
    var corrected := AddReflectionCorrectedPoa(m, lib, cfg, components).value;
    OnlyWritesCompose(input, projected, components, ProjectionColumns, ComponentColumns);
    OnlyWritesCompose(input, components, corrected, ProjectionColumns + ComponentColumns, {PoaRefCor});
  }

  /** The weather stage keeps a row's irradiance columns and leaves it with the
      air temperature of the input or the configured dummy. */
  lemma WeatherRow(cfg: Config, input: Table, corrected: Table, written: set<Col>, i: int)
    requires input.WellFormed()
    requires OnlyWrites(input, corrected, written) && T !in written && Wind !in written
    requires 0 <= i < |input.rows|
    ensures var w := AddWeather(cfg, corrected).rows[i];
            && Cell(w, T) == AirTemperature(cfg, input, input.rows[i])
            && Cell(w, PoaRefCor) == Cell(corrected.rows[i], PoaRefCor)
            && Cell(w, Poa) == Cell(corrected.rows[i], Poa)
  {
    var w := AddWeather(cfg, corrected).rows[i];
    assert Keeps(input.rows[i], corrected.rows[i], written);
    assert Keeps(corrected.rows[i], w, DummyColumns(corrected));
    if T !in input.columns {
      assert T !in corrected.columns;
    }
  }

  /** With nothing absorbed, or an undefined absorbed irradiance, the last two
      stages set the module to air temperature and produce nothing. */
  lemma ZeroAbsorbedRow(m: Maths, cfg: Config, w: Row)
    requires m.Lawful()
    requires Cell(w, PoaRefCor) == Num(0.0) || Cell(w, PoaRefCor).NaN?
    ensures var o := OutputRow(m, cfg, PanelTemperatureRow(m, cfg, w));
            && Cell(o, ModuleTemp) == Cell(w, T)
            && Cell(o, Output) == Num(0.0)
            && Cell(o, PoaRefCor) == Cell(w, PoaRefCor)
            && Cell(o, Poa) == Cell(w, Poa)
  {
    var h := PanelTemperatureRow(m, cfg, w);
    NoIrradianceNoHeating(m, cfg, w);
    assert Cell(h, PoaRefCor) == Cell(w, PoaRefCor);
    assert Cell(h, Poa) == Cell(w, Poa);
  }

  /** The first three stages on a night-time row: nothing reaches the panel, and
      nothing is absorbed unless the panel is flat, where the absorbed irradiance
      is undefined. */
  lemma ZeroRowReflected(m: Maths, lib: Pvlib, cfg: Config, input: Table, i: int)
    requires m.Lawful() && lib.Lawful() && cfg.Valid()
    requires Dni in input.columns && Dhi in input.columns && Ghi in input.columns
    requires 0 <= i < |input.rows|
    requires Cell(input.rows[i], Dni) == Num(0.0)
    requires Cell(input.rows[i], Dhi) == Num(0.0)
    requires Cell(input.rows[i], Ghi) == Num(0.0)
    requires Albedo in input.columns ==> Cell(input.rows[i], Albedo).Num?
    ensures var projected := IrradianceToPoa(m, lib, cfg, input).value;
            var components := AddReflectionCorrectedPoaComponents(m, lib, cfg, projected).value;
            var c := AddReflectionCorrectedPoa(m, lib, cfg, components).value.rows[i];
            && Cell(c, Poa) == Num(0.0)
            && (cfg.tilt != 0.0 ==> Cell(c, PoaRefCor) == Num(0.0))
            && (cfg.tilt == 0.0 ==> Cell(c, PoaRefCor).NaN?)
  {
    var projected := IrradianceToPoa(m, lib, cfg, input).value;
    var components := AddReflectionCorrectedPoaComponents(m, lib, cfg, projected).value;
    var corrected := AddReflectionCorrectedPoa(m, lib, cfg, components).value;
    var p := projected.rows[i];
    assert p == ProjectRow(m, lib, cfg, Albedo in input.columns, input.rows[i]);
    assert components.rows[i] == ReflectComponentsRow(m, lib, cfg, p);
    assert corrected.rows[i] == ReflectSumRow(m, lib, cfg, components.rows[i]);
    ZeroRowAbsorbsNothing(m, lib, cfg, Albedo in input.columns, input.rows[i]);
  }

  /** One night-time row through projection and reflection: zero on the panel,
      zero absorbed on a tilted panel, undefined absorbed on a flat one. */
  lemma ZeroRowAbsorbsNothing(m: Maths, lib: Pvlib, cfg: Config, albedoColumn: bool, row: Row)
    requires m.Lawful() && lib.Lawful() && cfg.Valid()
    requires Cell(row, Dni) == Num(0.0) && Cell(row, Dhi) == Num(0.0) && Cell(row, Ghi) == Num(0.0)
    requires albedoColumn ==> Cell(row, Albedo).Num?
    ensures var c := ReflectSumRow(m, lib, cfg, ReflectComponentsRow(m, lib, cfg, ProjectRow(m, lib, cfg, albedoColumn, row)));
            && Cell(c, Poa) == Num(0.0)
            && (cfg.tilt != 0.0 ==> Cell(c, PoaRefCor) == Num(0.0))
            && (cfg.tilt == 0.0 ==> Cell(c, PoaRefCor).NaN?)
  {
    var p := ProjectRow(m, lib, cfg, albedoColumn, row);
    ZeroRowProjects(m, lib, cfg, albedoColumn, row);
    ZeroComponentsRow(m, lib, cfg, p);
  }

  /** A row whose projected components are zero keeps its zero `poa`; its
      absorbed irradiance is zero on a tilted panel and undefined on a flat one. */
  lemma ZeroComponentsRow(m: Maths, lib: Pvlib, cfg: Config, p: Row)
    requires m.Lawful() && lib.Lawful() && cfg.Valid()
    requires Cell(p, DniPoa) == Num(0.0) && Cell(p, DhiPoa) == Num(0.0) && Cell(p, GhiPoa) == Num(0.0)
    requires Cell(p, Poa) == Num(0.0)
    ensures var c := ReflectSumRow(m, lib, cfg, ReflectComponentsRow(m, lib, cfg, p));
            && Cell(c, Poa) == Num(0.0)
            && (cfg.tilt != 0.0 ==> Cell(c, PoaRefCor) == Num(0.0))
            && (cfg.tilt == 0.0 ==> Cell(c, PoaRefCor).NaN?)
  {
    ReflectedCells(m, lib, cfg, p);
    ZeroComponentsAbsorbNothing(m, lib, cfg, p.time);
  }

  /** After both reflection stages a row keeps its projected cells, and its
      `poa_ref_cor` is the absorbed sum of those cells. */
  lemma ReflectedCells(m: Maths, lib: Pvlib, cfg: Config, p: Row)
    ensures var c := ReflectSumRow(m, lib, cfg, ReflectComponentsRow(m, lib, cfg, p));
            && Cell(c, Poa) == Cell(p, Poa)
            && Cell(c, PoaRefCor) == ComponentsToCorrectedPoa(m, lib, cfg, Cell(p, DniPoa), Cell(p, DhiPoa), Cell(p, GhiPoa), p.time)
  {
    var k := ReflectComponentsRow(m, lib, cfg, p);
    assert Cell(k, DniPoa) == Cell(p, DniPoa) && Cell(k, DhiPoa) == Cell(p, DhiPoa) && Cell(k, GhiPoa) == Cell(p, GhiPoa);
    assert Cell(k, Poa) == Cell(p, Poa);
  }

  /** The projection of a row with zero irradiance and a defined albedo is zero. */
  lemma ZeroRowProjects(m: Maths, lib: Pvlib, cfg: Config, albedoColumn: bool, row: Row)
    requires Cell(row, Dni) == Num(0.0) && Cell(row, Dhi) == Num(0.0) && Cell(row, Ghi) == Num(0.0)
    requires albedoColumn ==> Cell(row, Albedo).Num?
    ensures var p := ProjectRow(m, lib, cfg, albedoColumn, row);
            && Cell(p, DniPoa) == Num(0.0) && Cell(p, DhiPoa) == Num(0.0) && Cell(p, GhiPoa) == Num(0.0)
            && Cell(p, Poa) == Num(0.0)
  {
    ZeroComponentsProject(m, lib, cfg, row, RowAlbedo(cfg, albedoColumn, row));
    ProjectedCells(m, lib, cfg, albedoColumn, row);
  }

  /** The four cells a projection writes, component by component. */
  lemma ProjectedCells(m: Maths, lib: Pvlib, cfg: Config, albedoColumn: bool, row: Row)
    ensures var p := ProjectRow(m, lib, cfg, albedoColumn, row);
            var dniPoa := ProjectDniUsingTime(m, lib, cfg, Cell(row, Dni), row.time);
            var dhiPoa := DiffuseOnPanel(m, lib, cfg, row);
            var ghiPoa := ProjectGhi(m, cfg, Cell(row, Ghi), RowAlbedo(cfg, albedoColumn, row));
            && Cell(p, DniPoa) == dniPoa && Cell(p, DhiPoa) == dhiPoa && Cell(p, GhiPoa) == ghiPoa
            && Cell(p, Poa) == Add(Add(dhiPoa, dniPoa), ghiPoa)
  {
  }

  /** Each projected component of zero irradiance is zero. */
  lemma ZeroComponentsProject(m: Maths, lib: Pvlib, cfg: Config, row: Row, albedo: Float)
    requires Cell(row, Dhi) == Num(0.0) && albedo.Num?
    ensures ProjectDniUsingTime(m, lib, cfg, Num(0.0), row.time) == Num(0.0)
    ensures DiffuseOnPanel(m, lib, cfg, row) == Num(0.0)
    ensures ProjectGhi(m, cfg, Num(0.0), albedo) == Num(0.0)
  {
    var c := m.cosDeg(AngleOfIncidence(lib, cfg, row.time));
    assert 0.0 * c == 0.0;
    var sky := (1.0 + m.cosDeg(cfg.tilt)) / 2.0;
    assert 0.0 * sky == 0.0;
    var ground := (1.0 - m.cosDeg(cfg.tilt)) / 2.0;
    assert 0.0 * albedo.val == 0.0 && 0.0 * ground == 0.0;
  }

  /** Zero projected components absorb nothing on a tilted panel; on a flat
      panel the as-written ground factor makes the sum undefined. */
  lemma ZeroComponentsAbsorbNothing(m: Maths, lib: Pvlib, cfg: Config, time: Instant)
    requires m.Lawful() && lib.Lawful() && cfg.Valid()
    ensures cfg.tilt != 0.0 ==> ComponentsToCorrectedPoa(m, lib, cfg, Num(0.0), Num(0.0), Num(0.0), time) == Num(0.0)
    ensures cfg.tilt == 0.0 ==> ComponentsToCorrectedPoa(m, lib, cfg, Num(0.0), Num(0.0), Num(0.0), time).NaN?
  {
    if cfg.tilt != 0.0 {
      var alphaBN, alphaD, alphaDG := DniReflected(m, lib, cfg, time), DhiReflected(m, cfg), GhiReflectedAsWritten(m, cfg);
      assert alphaBN.Num? && alphaD.Num? && alphaDG.Num?;
      assert Absorbed(alphaBN, alphaD, alphaDG, Num(0.0), Num(0.0), Num(0.0)) == Num(0.0);
    }
  }

  /** With nothing absorbed, or an undefined absorbed irradiance, the module
      temperature is the air temperature, whether the estimate is defined (no
      heating) or NaN (the fallback). */
  lemma NoIrradianceNoHeating(m: Maths, cfg: Config, r: Row)
    requires m.Lawful()
    requires Cell(r, PoaRefCor) == Num(0.0) || Cell(r, PoaRefCor).NaN?
    ensures ModuleTempOrAir(m, cfg, r) == Cell(r, T)
  {
    var est := TemperatureOfModule(m, Cell(r, PoaRefCor), Cell(r, Wind), cfg.moduleElevation, Cell(r, T));
    if est.Num? {
      assert Cell(r, PoaRefCor) == Num(0.0);
      ModuleVersusAirTemperature(m, 0.0, Cell(r, Wind).val, cfg.moduleElevation, Cell(r, T).val);
    }
  }

  /** As written, a flat panel produces nothing at all: unless the module is
      below ground level (which fails), in every row the absorbed irradiance is
      undefined, the module sits at air temperature and the output is 0,
      whatever the irradiance. */
  lemma FlatPanelAsWrittenProducesNothing(m: Maths, lib: Pvlib, cfg: Config, input: Table, i: int)
    requires m.Lawful()
    requires cfg.tilt == 0.0
    requires input.WellFormed()
    requires Dni in input.columns && Dhi in input.columns && Ghi in input.columns
    requires 0 <= i < |input.rows|
    ensures ProcessIrradianceData(m, lib, cfg, input).Ok? <==> cfg.moduleElevation >= 0.0
    ensures cfg.moduleElevation >= 0.0 ==>
              var out := ProcessIrradianceData(m, lib, cfg, input).value.rows[i];
              && Cell(out, PoaRefCor).NaN?
              && Cell(out, ModuleTemp) == AirTemperature(cfg, input, input.rows[i])
              && Cell(out, Output) == Num(0.0)
  {
    if cfg.moduleElevation < 0.0 {
      return;
    }
    var projected := IrradianceToPoa(m, lib, cfg, input).value;
    var components := AddReflectionCorrectedPoaComponents(m, lib, cfg, projected).value;
    var corrected := AddReflectionCorrectedPoa(m, lib, cfg, components).value;
    var weather := AddWeather(cfg, corrected);
    var heated := AddEstimatedPanelTemperature(m, cfg, weather).value;
    var output := AddOutput(m, cfg, heated).value;
    assert ProcessIrradianceData(m, lib, cfg, input) == Ok(output);
    var k := components.rows[i];
    assert corrected.rows[i] == ReflectSumRow(m, lib, cfg, k);
    assert Cell(corrected.rows[i], PoaRefCor)
        == ComponentsToCorrectedPoa(m, lib, cfg, Cell(k, DniPoa), Cell(k, DhiPoa), Cell(k, GhiPoa), k.time);

    var w := weather.rows[i];
    CorrectedKeepsWeather(m, lib, cfg, input);
    WeatherRow(cfg, input, corrected, IrradianceColumns, i);

    assert heated.rows[i] == PanelTemperatureRow(m, cfg, w);
    assert output.rows[i] == OutputRow(m, cfg, heated.rows[i]);
    ZeroAbsorbedRow(m, cfg, w);
  }
}
