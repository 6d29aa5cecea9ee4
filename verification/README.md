# PV irradiance-to-power chain in Dafny

This project models the per-row simulation chain of a photovoltaic production
simulator. Starting from a frame of timestamped irradiance rows (`dni`, `dhi`,
`ghi`, and optionally `albedo`, `T`, `wind`), the chain runs these stages:

1. It projects the three irradiance components onto the tilted panel plane
   (`dni_poa`, `dhi_poa`, `ghi_poa`, `poa`).
2. It corrects each component for the light reflected off the panel surface
   (`dni_rc`, `dhi_rc`, `ghi_rc`).
3. It sums the corrected components into the absorbed irradiance (`poa_ref_cor`).
4. It adds dummy wind and air temperature columns when the input lacks them.
5. It estimates the module temperature with the King model (`module_temp`).
6. It estimates the power output with the Huld model (`output`).

The driver that chains these stages is `__process_irradiance_data` in `main.py`.

## Modelling choices

**Numbers.** A cell is a `Floats.Float`: either `Num(r)` for a real `r`, or `NaN`.
- NaN propagates through arithmetic.
- Division by zero yields NaN.
- Comparisons follow Python and are false on NaN.
- `Max` is Python's `max`: `max(NaN, 0)` is NaN.

**Transcendentals and pvlib.** The transcendental functions (`exp`, `ln`, cosine
and sine in degrees, `**`, π) are fields of the record `Transcendental.Maths`. The
pvlib calls are fields of `Astronomy.Pvlib`: solar position, angle of incidence,
relative air mass, extraterrestrial radiation and the Perez model. Both records
stay uninterpreted. The proofs assume only the laws in their `Lawful` predicates:
- exp is positive, strictly increasing, and exp(0) = 1;
- ln(1) = 0;
- cosine lies in [-1, 1], equals 1, 0 and -1 at 0, 90 and 180 degrees, and
  strictly decreases on [0, 180];
- sin(0) = 0;
- a positive base raised to any power is positive, and 1 to any power is 1;
- pvlib's angle of incidence lies in [0, 180].

`Transcendental.Witness` is a record that satisfies these laws, so the laws are
consistent.

**Frames.** A frame is a `Frames.Table`: a set of column names plus a sequence of
rows, each row a timestamp and a map from columns to cells.
- When a stage reads a column the frame lacks, pandas raises `KeyError`. The model
  returns `Err(MissingColumn(col))`, naming the first column the stage reads.
- The temperature stage instead checks its columns itself and returns the frame
  unchanged when one is missing.
- For a module below ground level (negative elevation), the wind-height factor
  `(elevation / 10) ** 0.1429` is a complex number in Python. Every row's
  estimate is then complex, and `math.isnan` raises `TypeError` on the first row.
  The model returns `Err(ComplexTemperature)` there.
- `Frames.OnlyWrites` is the frame property: the same rows and timestamps, only
  the named columns added or overwritten, and every other cell kept.

**Configuration.** The installation constants of `config.py` form the immutable
record `Installation.Config`. The values in `config.py:14-52` are
`Installation.Configured`. `Config.Valid` requires:
- a tilt in [0, 180);
- a non-negative rated power;
- an albedo in [0, 1];
- a non-negative module elevation (a panel at ground level is allowed).

**Diffuse sky model.** `irradiance_df_to_poa_df` hard-wires the Perez model at
`helpers/geometric_projections.py:80`. The isotropic alternative sits on the
commented-out line 81. Both are modelled, and the `diffuse` field of the
configuration selects one. `Installation.Configured` selects Perez, which is the
behaviour of the code.

**The code as written.** The model follows the code, including one defect: for
a flat panel (tilt 0) the ground loss factor of `__ghi_reflected` is 0 / 0, so
the pipeline's absorbed irradiance is undefined in every row and every output
is 0 (see "Findings"). The pipeline composes that as-written factor. The
evidently intended factor, `Reflection.GhiReflected`, and the absorbed sum built
on it, `Reflection.ComponentsToCorrectedPoaIntended`, sit beside it with their
properties proved.

**Three behaviours of the code worth noting:**
- The dummy-weather guard at `main.py:257` tests `meps_data.columns`. Every earlier
  stage mutates that same frame in place, so the guard sees the columns the
  earlier stages wrote. `Pipeline.AddWeather` therefore tests the frame those
  stages produced.
- `add_output_to_df` only prints a warning when `poa_ref_cor` or `module_temp` is
  missing. The row helper then fails with `KeyError`, and the model returns that
  error.
- `config.module_elevation` is used unchecked. A negative value makes the
  temperature stage, and so the whole chain, fail with `TypeError` on any
  non-empty frame.

## Model

| member | source | states |
|---|---|---|
| Astronomy.SolarAzimuthZenith | helpers/astronomical_calculations.py:65-88 | the pair is (azimuth, apparent zenith) of the solar position at the configured location and time, azimuth first |
| Astronomy.ClampAoi | helpers/astronomical_calculations.py:44-49 | the result never exceeds 90; an angle above 90 becomes exactly 90; an angle of at most 90 is returned unchanged |
| Astronomy.ClampAoiIdempotent | helpers/astronomical_calculations.py:46-49 | clamping twice is clamping once |
| Astronomy.ClampAoiMonotone | helpers/astronomical_calculations.py:46-49 | the clamp preserves order |
| Astronomy.AngleOfIncidence | helpers/astronomical_calculations.py:29-49 | the angle of incidence is pvlib's angle at the configured tilt and azimuth and the apparent zenith, clamped at 90; it is at most 90 and, for a lawful pvlib, at least 0 |
| Astronomy.AirMass | helpers/astronomical_calculations.py:52-61 | the air mass is computed from the apparent zenith, the second element of the solar-position pair |
| Projection.ProjectDniUsingAngle | helpers/geometric_projections.py:118-125 | `dni * cos(aoi)` is undefined exactly when dni is; for an angle in [0, 90] a non-negative dni projects into [0, dni], and to exactly 0 at 90 degrees |
| Projection.ProjectDniUsingTime | helpers/geometric_projections.py:106-125 | `dni_poa = abs(dni * cos(aoi))` is NaN exactly when dni is, and is never negative |
| Projection.DniProjectionBounds | helpers/geometric_projections.py:106-125 | for dni >= 0 the absolute value is a no-op, the projection is at most dni, and a raw angle of incidence of 90 or more gives exactly 0 |
| Projection.DniProjectionAtMostMagnitude | helpers/geometric_projections.py:106-125 | whatever the sign of dni, the projection is defined and at most abs(dni) |
| Projection.CosOfClampedAoi | helpers/astronomical_calculations.py:44-49 | the cosine of a clamped angle of incidence lies in [0, 1] |
| Projection.IsotropicDhiBounds | helpers/geometric_projections.py:128-135 | for dhi >= 0 the isotropic diffuse projection lies in [0, dhi], and a flat panel receives all of dhi |
| Projection.ProjectDhiIsotropic | helpers/geometric_projections.py:128-135 | the isotropic diffuse projection is undefined exactly when dhi is |
| Projection.PerezArguments | helpers/geometric_projections.py:137-159 | pvlib's Perez model receives the configured tilt and azimuth, the row's dhi and dni, the extraterrestrial radiation of the row's time, the apparent zenith and the azimuth from their places in the solar-position pair, and the air mass of the apparent zenith |
| Projection.DhiPoaPerez | helpers/geometric_projections.py:56-65 | a dhi equal to 0 gives exactly 0 without consulting the Perez model; any other dhi, NaN included, goes to the model |
| Projection.PerezNotConsultedAtZeroDhi | helpers/geometric_projections.py:62-65 | at dhi = 0 the result is the same whichever Perez implementation is used |
| Projection.DiffuseOnPanel | helpers/geometric_projections.py:79-81 | either sky model gives 0 for a dhi of exactly 0; the isotropic model is undefined exactly when dhi is and keeps a non-negative dhi in [0, dhi]; under Perez any other dhi goes to the model with the row's arguments |
| Projection.GhiProjectionBounds | helpers/geometric_projections.py:164-176 | for non-negative ghi and albedo the ground-reflected projection lies in [0, ghi * albedo], and is 0 for a flat panel |
| Projection.ProjectGhi | helpers/geometric_projections.py:164-176 | the ground-reflected projection is defined exactly when both ghi and the albedo are |
| Projection.RowAlbedo | helpers/geometric_projections.py:84-87 | with an `albedo` column the row's own albedo cell is used; without one the configured albedo, a fraction in [0, 1] for a valid configuration |
| Projection.ProjectRow | helpers/geometric_projections.py:47-90 | one projected row keeps its time and every other cell and gains exactly the four projection columns; `poa` is the sum of the three components; `dni_poa` is undefined exactly when dni is, and `ghi_poa` is defined exactly when ghi and the row's albedo are |
| Projection.IrradianceToPoa | helpers/geometric_projections.py:33-96 | fails exactly when dni, dhi or ghi is missing, naming the first missing one in the order the helpers read them (dni, dhi, ghi); otherwise it writes only `dni_poa`, `dhi_poa`, `ghi_poa` and `poa`; every row is projected with the row's albedo when the column exists and the configured albedo otherwise; `poa` is the sum of the three components |
| Projection.ProjectRowIdempotent | helpers/geometric_projections.py:79-90 | projecting a projected row again changes nothing, because the projection never writes a column it reads |
| Projection.ProjectionIdempotent | helpers/geometric_projections.py:79-90 | re-running the projection stage on its own output returns that output |
| Reflection.AlphaBeamDenominatorPositive | helpers/reflection_estimator.py:117 | the denominator `1 - e^(-1/a_r)` of alpha_BN is positive |
| Reflection.AlphaBeamEndpoints | helpers/reflection_estimator.py:110-122 | alpha_BN is 0 at normal incidence and 1 at an angle of 90 degrees |
| Reflection.AlphaBeamIncreasing | helpers/reflection_estimator.py:110-122 | alpha_BN rises strictly with the angle of incidence over [0, 90] |
| Reflection.AlphaBeamInUnitInterval | helpers/reflection_estimator.py:98-122 | alpha_BN is defined and lies in [0, 1] over [0, 90] |
| Reflection.DniReflected | helpers/reflection_estimator.py:98-122 | the direct-beam loss factor at the clamped angle of incidence is defined and lies in [0, 1] at every instant, and is exactly 1 when the sun is at or behind the panel plane |
| Reflection.LossFromPart1 | helpers/reflection_estimator.py:138-151 | the shared tail `e^((-1/a_r)(c1*part1 + c2*part1^2))` is defined exactly when part1 is |
| Reflection.LossFromPart1Positive | helpers/reflection_estimator.py:145-183 | a defined diffuse or ground loss factor is strictly positive |
| Reflection.GhiReflectedAsWritten | helpers/reflection_estimator.py:125-153 | as written, the ground loss factor is undefined (0 / 0) for a flat panel, and defined and positive for every tilt in (0, 180] |
| Reflection.GhiReflected | helpers/reflection_estimator.py:125-153 | the intended ground loss factor is defined and positive for every tilt in [0, 180]; it is 1 for a flat panel and equals the as-written factor at every other tilt |
| Reflection.DhiReflected | helpers/reflection_estimator.py:156-183 | the diffuse loss factor is defined and positive for every tilt in [0, 180), and undefined for a panel facing the ground (tilt 180) |
| Reflection.CorrectedComponent | helpers/reflection_estimator.py:74-84 | `abs(1 - alpha) * component` is defined exactly when both inputs are, and is non-negative for a non-negative component |
| Reflection.CorrectedComponentAbsorbsFraction | helpers/reflection_estimator.py:73-84 | for alpha in [0, 1] the corrected component equals the `(1 - alpha) * component` term of the absorbed sum whatever the component's sign, and a non-negative component stays in [0, component] |
| Reflection.AbsorbedIsSumOfCorrected | helpers/reflection_estimator.py:24-95 | for any loss factors in [0, 1] the absorbed sum equals `dni_rc + dhi_rc + ghi_rc` for components of any sign (the absolute values are then no-ops); for non-negative components it lies between 0 and the projected total |
| Reflection.ComponentsToCorrectedPoa | helpers/reflection_estimator.py:24-47 | the absorbed sum built on the as-written ground factor is undefined for a flat panel whatever the irradiance; at every other tilt up to 180 it equals the intended sum, and for a valid installation it is defined for defined components |
| Reflection.ComponentsToCorrectedPoaIntended | helpers/reflection_estimator.py:24-47 | with the intended ground factor, on a valid installation the absorbed irradiance is defined exactly when all three projected components are, a flat panel included |
| Reflection.AbsorbedDefined | helpers/reflection_estimator.py:24-47 | with the intended ground factor, the absorbed irradiance of defined components is defined for every valid installation, a flat one included |
| Reflection.FlatPanelIgnoresGround | helpers/reflection_estimator.py:24-47 | with the intended ground factor, a flat panel's absorbed irradiance does not depend on the ground-reflected component |
| Reflection.CorrectedPoaIsSumOfComponents | helpers/reflection_estimator.py:24-95 | when the diffuse and (as-written) ground loss factors lie in [0, 1], `poa_ref_cor` equals `dni_rc + dhi_rc + ghi_rc` for components of any sign, and for non-negative components lies between 0 and the projected total |
| Reflection.AbsorbedIsSumOfComponentColumns | helpers/reflection_estimator.py:50-95 | under the same condition, the `poa_ref_cor` cell written after the component stage is the sum of the `dni_rc`, `dhi_rc` and `ghi_rc` cells that stage wrote into the row, defined or not |
| Reflection.ReflectComponentsRow | helpers/reflection_estimator.py:74-93 | one row gains exactly `dni_rc`, `dhi_rc` and `ghi_rc` and keeps every other cell; `dni_rc` is the plain `(1 - alpha_BN) * dni_poa` and is 0 when the sun is at or behind the panel plane; `dhi_rc` is defined exactly when `dhi_poa` is (below tilt 180); `ghi_rc` is undefined for a flat panel and otherwise defined exactly when `ghi_poa` is |
| Reflection.ReflectSumRow | helpers/reflection_estimator.py:62-66 | one row gains exactly `poa_ref_cor` and keeps every other cell; it is undefined for a flat panel, and defined for defined components on a valid tilted installation |
| Reflection.AddReflectionCorrectedPoaComponents | helpers/reflection_estimator.py:73-95 | fails exactly when a projected component is missing, naming the first missing one of `dni_poa`, `dhi_poa`, `ghi_poa`; otherwise it writes only `dni_rc`, `dhi_rc` and `ghi_rc`, each row by `abs(1 - alpha) * component` with the as-written ground factor |
| Reflection.AddReflectionCorrectedPoa | helpers/reflection_estimator.py:50-70 | fails exactly when a projected component is missing, naming the first missing one of `dni_poa`, `dhi_poa`, `ghi_poa`; otherwise it writes only `poa_ref_cor`, each row by the as-written absorbed sum |
| Thermal.WindAtModuleHeight | helpers/panel_temperature_estimator.py:128 | the real-valued wind at module height is defined exactly when the measured wind is; the stage never uses it for a negative elevation, where Python's value is complex |
| Thermal.WindAtReferenceHeight | helpers/panel_temperature_estimator.py:128 | at an elevation of 10 m the wind at module height is the measured wind |
| Thermal.TemperatureOfModule | helpers/panel_temperature_estimator.py:108-132 | the real-valued estimate is defined exactly when the absorbed irradiance, the wind and the air temperature all are; the stage never uses it for a negative elevation, where Python's value is complex |
| Thermal.ModuleTemperatureValue | helpers/panel_temperature_estimator.py:121-130 | for defined inputs the estimate is `rad * e^(a + b * ws) + air` with a = -3.47 and b = -0.0594 |
| Thermal.GainProperties | helpers/panel_temperature_estimator.py:121-130 | the heating factor `e^(a + b * ws)` is positive, and strictly smaller in stronger wind above ground |
| Thermal.ModuleVersusAirTemperature | helpers/panel_temperature_estimator.py:121-130 | the module is at least as warm as the air under non-negative irradiance, exactly as warm with none, and not warmer under negative irradiance |
| Thermal.WindCoolsModule | helpers/panel_temperature_estimator.py:121-130 | under positive irradiance above ground, a stronger wind gives a strictly cooler module |
| Thermal.ModuleTempOrAir | helpers/panel_temperature_estimator.py:41-46 | an undefined estimate is replaced by the air temperature `T`, and a defined one is kept; the result is defined exactly when `T` is |
| Thermal.PanelTemperatureRow | helpers/panel_temperature_estimator.py:41-49 | one row gains only `module_temp`: the King estimate when the absorbed irradiance, the wind and `T` are all defined, and `T` when the absorbed irradiance or the wind is not |
| Thermal.AddEstimatedPanelTemperature | helpers/panel_temperature_estimator.py:14-51 | when `T`, `wind` or `poa_ref_cor` is missing the frame is returned unchanged; otherwise a negative module elevation with at least one row fails with the `TypeError` of `math.isnan` on a complex estimate (line 43), and any other elevation writes only `module_temp`, row by row |
| Thermal.SetConstantColumn | helpers/panel_temperature_estimator.py:72-79 | the column is written with the same constant in every row, and nothing else changes |
| Thermal.AddDummyTemperature | helpers/panel_temperature_estimator.py:72-74 | every row's `T` is the dummy temperature, and nothing else changes |
| Thermal.AddDummyWind | helpers/panel_temperature_estimator.py:77-79 | every row's `wind` is the dummy wind, and nothing else changes |
| Thermal.AddDummyWindAndTemp | helpers/panel_temperature_estimator.py:54-69 | afterwards both columns exist; only the missing ones are written, and those hold the dummy constants |
| Thermal.AddDummyWindAndTempIdempotent | helpers/panel_temperature_estimator.py:63-69 | adding the dummies twice is adding them once: existing values are never overwritten |
| PowerOutput.EstimateOutput | helpers/output_estimator.py:31-75 | the output is exactly 0 when `nrad <= 0`, whatever the module temperature; it is NaN exactly when the absorbed irradiance is NaN, or when it is positive and the module temperature is NaN; it is non-negative for a non-negative rated power |
| PowerOutput.EfficiencyFloor | helpers/output_estimator.py:54-73 | for positive irradiance the output is `rated_power * 1000 * nrad * max(efficiency, 0)` for any rated power; for a positive rated power it is 0 exactly when the efficiency polynomial is not positive |
| PowerOutput.RatedPowerAtStandardTestConditions | helpers/output_estimator.py:54-73 | at 1000 W/m2 and 25 Celsius the output is the rated power converted from kW to W |
| PowerOutput.OutputAtStandardIrradiance | helpers/output_estimator.py:61-73 | at 1000 W/m2 the module temperature enters only through `Tdiff = T - 25`, via `1 + k3 * Tdiff + k6 * Tdiff^2` floored at 0 |
| PowerOutput.TemperatureTermDecreasing | helpers/output_estimator.py:61-73 | with the given k3 and k6, that temperature term falls as the module warms, for module temperatures summing to at most 986 Celsius |
| PowerOutput.HotterModuleProducesLess | helpers/output_estimator.py:31-75 | at 1000 W/m2 a hotter module never produces more, over that range |
| PowerOutput.NegativeEfficiencyGivesZero | helpers/output_estimator.py:70-73 | at 493 Celsius and 1000 W/m2 the efficiency polynomial is negative and the output is 0, not negative |
| PowerOutput.OutputOrZero | helpers/output_estimator.py:18-23 | an undefined estimate becomes 0 and a defined one is kept, so the result is always defined |
| PowerOutput.OutputRow | helpers/output_estimator.py:18-26 | one row gains only `output`, which is always defined, non-negative for a non-negative rated power, and 0 when the absorbed irradiance is undefined or not positive |
| PowerOutput.AddOutput | helpers/output_estimator.py:7-28 | fails exactly when `poa_ref_cor` or `module_temp` is missing, naming `poa_ref_cor` when both are, the order the row helper reads them; otherwise it writes only `output`, which is defined in every row and non-negative for a non-negative rated power |
| Pipeline.ProcessIrradianceData | main.py:240-266 | fails with a missing-column error exactly when dni, dhi or ghi is missing, naming the first missing one in that order; with all three present it fails exactly when the module elevation is negative and the frame has a row, with the `TypeError` of the temperature stage; otherwise it keeps every row and timestamp and every input cell; it writes only the derived columns plus the missing weather columns; every row ends with a defined output, non-negative for a non-negative rated power; the reflection stages use the as-written ground factor, as the code does |
| Pipeline.AddWeather | main.py:256-258 | the weather columns are added only when one is missing, only the missing ones are written, and both exist afterwards |
| Pipeline.DummyGuardRedundant | main.py:257-258 | with both weather columns present, the dummy stage would change nothing |
| Pipeline.ProcessFrame | main.py:248-264 | the column sets written by the stages compose into the derived columns plus the dummy weather columns |
| Pipeline.CorrectedKeepsWeather | main.py:248-254 | projection and reflection write only irradiance columns, never `T` or `wind` |
| Pipeline.WeatherRow | main.py:256-258 | after the weather stage a row holds its own air temperature, or the configured dummy when the input had none, and keeps its irradiance cells |
| Pipeline.ZeroIrradianceRow | main.py:248-264 | a row with ghi = dni = dhi = 0 ends with `poa = 0`, the module at air temperature and output 0; `poa_ref_cor` is 0 on a tilted panel and undefined on a flat one |
| Pipeline.ZeroRowReflected | main.py:248-254 | after the first three stages such a row has zero projected irradiance, and zero absorbed irradiance on a tilted panel and undefined absorbed irradiance on a flat one |
| Pipeline.ZeroRowAbsorbsNothing | helpers/reflection_estimator.py:24-47 | a row with zero irradiance keeps `poa = 0` and absorbs nothing on a tilted panel; on a flat panel its absorbed irradiance is undefined |
| Pipeline.ZeroRowProjects | helpers/geometric_projections.py:79-90 | zero irradiance with a defined albedo projects to zero in every component and in `poa` |
| Pipeline.ZeroComponentsProject | helpers/geometric_projections.py:106-176 | each projection of zero irradiance is 0, the Perez branch through its short-circuit |
| Pipeline.ZeroComponentsRow | helpers/reflection_estimator.py:50-95 | zero projected components keep `poa` at 0 and give zero absorbed irradiance on a tilted panel, undefined on a flat one |
| Pipeline.ZeroComponentsAbsorbNothing | helpers/reflection_estimator.py:24-47 | zero components absorb nothing at every valid non-zero tilt, and give an undefined sum at tilt 0 |
| Pipeline.ZeroAbsorbedRow | helpers/panel_temperature_estimator.py:41-46 | with nothing absorbed, or an undefined absorbed irradiance, the module ends at air temperature and the output is 0 |
| Pipeline.NoIrradianceNoHeating | helpers/panel_temperature_estimator.py:41-132 | with nothing absorbed, or an undefined absorbed irradiance, the module temperature is the air temperature, whether the estimate is defined or falls back |
| Pipeline.FlatPanelAsWrittenProducesNothing | main.py:248-264 | as written, for a flat panel the pipeline succeeds exactly when the module elevation is non-negative, and then every row of its result has an undefined `poa_ref_cor`, the module at air temperature and output 0, whatever the irradiance |

## Left out

- Transcendental functions and pvlib internals stay uninterpreted: solar position, angle of incidence, Perez, extraterrestrial radiation and relative air mass. The proofs use only the laws listed above; IEEE rounding is not modelled.
- cos(90°) is exactly 0 here; in floating point it is about 6e-17. With that exact value, alpha_BN is exactly 1 at grazing incidence.
- Infinities are not modelled: a division by zero is NaN. This differs from the code only for a non-zero numerator over zero. The one case is the diffuse factor at tilt 180, which is infinite in floating point; `Config.Valid` excludes that tilt.
- Data acquisition is outside the model: network access, clear-sky generation, CSV files and the MEPS loader and parser. These are I/O and pandas reshaping outside the chain.
- `add_wind_and_temp_to_df1_from_df2` is not modelled; it is a pandas outer join plus interpolation outside the chain.
- `__debug_add_solar_angles_to_df` is not modelled; it is a debugging helper outside the chain.
- `plotter.py` and the scheduling, file writing and path handling in `main.py` are presentation and orchestration.
- The `set_params_*` functions of `config.py` bind only local names and have no effect, so the configuration is an immutable record.
- Column order, the index and pandas' behaviour on a frame with no rows are not modelled. On an empty frame the model still reports a missing column as an error.
- The `time` column is a mandatory field of every row rather than a column that could be missing.
- Console messages printed by the temperature and output stages are not modelled.
- Reflection.CorrectedPoaIsSumOfComponents: takes as preconditions that the diffuse and ground loss factors lie in [0, 1]. The code's comments promise this, but it does not follow from the laws above. The absolute value is a no-op only under that condition. Reflection.AbsorbedIsSumOfComponentColumns takes the same preconditions.
- Reflection.GhiReflectedAsWritten: proves the factor positive on (0, 180] but not the upper bound 1 that the docstring promises. The bound needs `0 <= part1 <= 4 / (3 pi 0.074)`, which rests on bounds of `(beta - sin beta) / (1 - cos beta)` beyond the laws above.
- Reflection.GhiReflected: proves the factor positive on [0, 180] and 1 for a flat panel, but not the upper bound 1 at other tilts, for the same reason.
- Reflection.DhiReflected: says only that the factor is undefined at tilt 180; the floating-point value there is +infinity. It proves the factor positive on [0, 180) but not the upper bound 1 that the docstring promises, for the same reason as the ground factor.
- Projection.IrradianceToPoa: lets the configuration choose the diffuse model; the code always uses Perez, which is what `Installation.Configured` selects.
- Thermal.WindAtModuleHeight: is real-valued and does not represent the complex number Python computes for a negative elevation. The temperature stage fails before such a value would be used.
- Thermal.TemperatureOfModule: is real-valued for the same reason. A negative elevation is handled by `Thermal.AddEstimatedPanelTemperature`, which returns `Err(ComplexTemperature)`.
- Pipeline.ZeroIrradianceRow: requires a defined albedo cell when the frame has an albedo column, because NaN times zero is NaN.

## Findings

| source | as written | input that shows it | evidently intended | confidence | as-written member | corrected member |
|---|---|---|---|---|---|---|
| helpers/reflection_estimator.py:146 | `part1` divides `(tilt - sin tilt)` by `(1 - cos tilt)`, which is 0 / 0 for a flat panel. The ground loss factor, `poa_ref_cor` and hence every output become NaN, and the output helper turns them into 0. | `config.tilt = 0`, which `config.py:28` names as the flat-roof case, with any irradiance: every row's output is 0 | the term `(beta - sin beta) / (1 - cos beta)` takes its limit 0 at beta = 0, so a flat panel gets a ground loss factor of 1 and sees no ground anyway | high for the NaN, which follows from numpy float64 0/0; not executed | Reflection.GhiReflectedAsWritten, Reflection.ComponentsToCorrectedPoa, Pipeline.FlatPanelAsWrittenProducesNothing | Reflection.GhiReflected, Reflection.ComponentsToCorrectedPoaIntended, Reflection.AbsorbedDefined, Reflection.FlatPanelIgnoresGround |
