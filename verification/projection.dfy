/** Plane-of-array projection (helpers/geometric_projections.py): the direct,
    diffuse and ground-reflected irradiance components projected onto the tilted
    panel, and their sum.
 */
module Projection {
  import opened Floats
  import opened Transcendental
  import opened Frames
  import opened Installation
  import opened Astronomy

  /** `dni * cos(aoi)`: undefined exactly when the DNI is; over the clamped range
      of angles a non-negative DNI projects into [0, dni], and to 0 at 90 degrees. */
  function ProjectDniUsingAngle(m: Maths, dni: Float, aoi: real): (r: Float)
    ensures r.NaN? <==> dni.NaN?
    ensures m.Lawful() && 0.0 <= aoi <= 90.0 && dni.Num? && dni.val >= 0.0 ==> 0.0 <= r.val <= dni.val
    ensures m.Lawful() && aoi == 90.0 && dni.Num? ==> r == Num(0.0)
  {
    var c := m.cosDeg(aoi);
    assert m.Lawful() && 0.0 <= aoi <= 90.0 && dni.Num? && dni.val >= 0.0 ==> 0.0 <= dni.val * c <= dni.val by {
      if m.Lawful() && 0.0 <= aoi <= 90.0 && dni.Num? && dni.val >= 0.0 {
        CosOfClampedAoi(m, aoi);
        ScaleByFraction(dni.val, c);
      }
    }
    var r := Mul(dni, Num(c));
    assert dni.Num? ==> r == Num(dni.val * c);
    r
  }

  /** `dni_poa`: the magnitude of the direct component on the panel at `time`. */
  function ProjectDniUsingTime(m: Maths, lib: Pvlib, cfg: Config, dni: Float, time: Instant): (r: Float)
    ensures r.NaN? <==> dni.NaN?
    ensures r.Num? ==> r.val >= 0.0
  {
    Abs(ProjectDniUsingAngle(m, dni, AngleOfIncidence(lib, cfg, time)))
  }

  /** The cosine of a clamped angle of incidence lies in [0, 1]. */
  lemma CosOfClampedAoi(m: Maths, aoi: real)
    requires m.Lawful()
    requires 0.0 <= aoi <= 90.0
    ensures 0.0 <= m.cosDeg(aoi) <= 1.0
  {
    if aoi < 90.0 {
      assert m.cosDeg(90.0) < m.cosDeg(aoi);
    }
  }

  /** For a non-negative DNI the absolute value is a no-op, the projection never
      exceeds the DNI, and a sun at or behind the panel plane contributes nothing. */
  lemma DniProjectionBounds(m: Maths, lib: Pvlib, cfg: Config, dni: real, time: Instant)
    requires m.Lawful() && lib.Lawful()
    requires dni >= 0.0
    ensures var r := ProjectDniUsingTime(m, lib, cfg, Num(dni), time);
            && r == Num(dni * m.cosDeg(AngleOfIncidence(lib, cfg, time)))
            && r.val <= dni
            && (RawAoi(lib, cfg, time) >= 90.0 ==> r == Num(0.0))
  {
    var aoi := AngleOfIncidence(lib, cfg, time);
    CosOfClampedAoi(m, aoi);
    var c := m.cosDeg(aoi);
    var p := dni * c;
    ScaleByFraction(dni, c);
    assert ProjectDniUsingAngle(m, Num(dni), aoi) == Num(p);
    assert ProjectDniUsingTime(m, lib, cfg, Num(dni), time) == Num(p);
    assert p <= dni;
  }

  /** Whatever the sign of the DNI, the projection is at most its magnitude. */
  lemma DniProjectionAtMostMagnitude(m: Maths, lib: Pvlib, cfg: Config, dni: real, time: Instant)
    requires m.Lawful()
    ensures var r := ProjectDniUsingTime(m, lib, cfg, Num(dni), time);
            r.Num? && r.val <= Magnitude(dni)
  {
    var aoi := AngleOfIncidence(lib, cfg, time);
    var c := m.cosDeg(aoi);
    assert -1.0 <= c <= 1.0;
    assert ProjectDniUsingTime(m, lib, cfg, Num(dni), time) == Abs(Num(dni * c));
    AbsOfScaledAtMost(dni, c);
  }

  /** The isotropic-sky diffuse component `dhi * (1 + cos(tilt)) / 2`, undefined
      exactly when the DHI is. */
  function ProjectDhiIsotropic(m: Maths, cfg: Config, dhi: Float): (r: Float)
    ensures r.NaN? <==> dhi.NaN?
  {
    Mul(dhi, Num((1.0 + m.cosDeg(cfg.tilt)) / 2.0))
  }

  /** The isotropic view factor is in [0, 1]: the panel sees at most the whole sky,
      and a flat panel sees all of it. */
  lemma IsotropicDhiBounds(m: Maths, cfg: Config, dhi: real)
    requires m.Lawful()
    requires dhi >= 0.0
    ensures var r := ProjectDhiIsotropic(m, cfg, Num(dhi));
            && r.Num? && 0.0 <= r.val <= dhi
            && (cfg.tilt == 0.0 ==> r == Num(dhi))
  {
    var f := (1.0 + m.cosDeg(cfg.tilt)) / 2.0;
    ScaleByFraction(dhi, f);
  }

  /** The arguments handed to `pvlib.irradiance.perez`: the configured tilt and
      azimuth, the row's DHI and DNI, the extraterrestrial radiation of `time`,
      the apparent zenith and the azimuth taken from their places in the
      solar-position pair, and the air mass computed from the apparent zenith. */
  function PerezArguments(lib: Pvlib, cfg: Config, time: Instant, dhi: Float, dni: Float): (r: PerezArgs)
    ensures var p := lib.solarPosition(cfg.latitude, cfg.longitude, cfg.timezone, time);
            && r.solarZenith == p.apparentZenith
            && r.solarAzimuth == p.azimuth
            && r.airmass == lib.relativeAirmass(p.apparentZenith)
            && r.dhi == dhi && r.dni == dni
            && r.surfaceTilt == cfg.tilt && r.surfaceAzimuth == cfg.azimuth
            && r.dniExtra == lib.extraRadiation(time)
  {
    var (solarAzimuth, solarZenith) := SolarAzimuthZenith(lib, cfg, time);
    PerezArgs(cfg.tilt, cfg.azimuth, dhi, dni, lib.extraRadiation(time),
              solarZenith, solarAzimuth, AirMass(lib, cfg, time))
  }

  /** The Perez-model diffuse component, short-circuited to 0 when DHI is exactly
      0 (a NaN DHI is not equal to 0 and goes to the model). */
  function DhiPoaPerez(lib: Pvlib, cfg: Config, time: Instant, dhi: Float, dni: Float): (r: Float)
    ensures Eq(dhi, Num(0.0)) ==> r == Num(0.0)
    ensures !Eq(dhi, Num(0.0)) ==> r == lib.perez(PerezArguments(lib, cfg, time, dhi, dni))
  {
    if Eq(dhi, Num(0.0)) then Num(0.0)
    else lib.perez(PerezArguments(lib, cfg, time, dhi, dni))
  }

  /** With a zero DHI the Perez model is never consulted: any two libraries give
      the same (zero) diffuse component. */
  lemma PerezNotConsultedAtZeroDhi(lib1: Pvlib, lib2: Pvlib, cfg: Config, time: Instant, dni: Float)
    ensures DhiPoaPerez(lib1, cfg, time, Num(0.0), dni) == DhiPoaPerez(lib2, cfg, time, Num(0.0), dni) == Num(0.0)
  {
  }

  /** The diffuse component under the configured sky model. Either model gives
      0 for a DHI of exactly 0; the isotropic one is undefined exactly when the
      DHI is and keeps a non-negative DHI in [0, dhi]; any other DHI goes to
      the Perez model with the row's arguments. */
  function DiffuseOnPanel(m: Maths, lib: Pvlib, cfg: Config, r: Row): (d: Float)
    ensures Eq(Cell(r, Dhi), Num(0.0)) ==> d == Num(0.0)
    ensures cfg.diffuse == Isotropic ==> (d.NaN? <==> Cell(r, Dhi).NaN?)
    ensures m.Lawful() && cfg.diffuse == Isotropic && Cell(r, Dhi).Num? && Cell(r, Dhi).val >= 0.0 ==>
              0.0 <= d.val <= Cell(r, Dhi).val
    ensures cfg.diffuse == Perez && !Eq(Cell(r, Dhi), Num(0.0)) ==>
              d == lib.perez(PerezArguments(lib, cfg, r.time, Cell(r, Dhi), Cell(r, Dni)))
  {
    assert m.Lawful() && cfg.diffuse == Isotropic && Cell(r, Dhi).Num? && Cell(r, Dhi).val >= 0.0 ==>
             0.0 <= ProjectDhiIsotropic(m, cfg, Cell(r, Dhi)).val <= Cell(r, Dhi).val by {
      if m.Lawful() && cfg.diffuse == Isotropic && Cell(r, Dhi).Num? && Cell(r, Dhi).val >= 0.0 {
        IsotropicDhiBounds(m, cfg, Cell(r, Dhi).val);
      }
    }
    match cfg.diffuse
    case Isotropic => ProjectDhiIsotropic(m, cfg, Cell(r, Dhi))
    case Perez => DhiPoaPerez(lib, cfg, r.time, Cell(r, Dhi), Cell(r, Dni))
  }

  /** The ground-reflected component `ghi * albedo * (1 - cos(tilt)) / 2`, defined
      exactly when both the GHI and the albedo are. */
  function ProjectGhi(m: Maths, cfg: Config, ghi: Float, albedo: Float): (r: Float)
    ensures r.Num? <==> ghi.Num? && albedo.Num?
  {
    Mul(Mul(ghi, albedo), Num((1.0 - m.cosDeg(cfg.tilt)) / 2.0))
  }

  /** The ground view factor is in [0, 1], and a flat panel sees no ground. */
  lemma GhiProjectionBounds(m: Maths, cfg: Config, ghi: real, albedo: real)
    requires m.Lawful()
    requires ghi >= 0.0 && albedo >= 0.0
    ensures var r := ProjectGhi(m, cfg, Num(ghi), Num(albedo));
            && r.Num? && 0.0 <= r.val <= ghi * albedo
            && (cfg.tilt == 0.0 ==> r == Num(0.0))
  {
    var f := (1.0 - m.cosDeg(cfg.tilt)) / 2.0;
    assert 0.0 <= f <= 1.0;
    var g := ghi * albedo;
    ScaleByFraction(g, f);
    assert ProjectGhi(m, cfg, Num(ghi), Num(albedo)) == Num(g * f);
  }

  /** The albedo of a row: its own `albedo` cell when the frame has that column,
      the configured constant (a fraction, for a valid configuration) otherwise. */
  function RowAlbedo(cfg: Config, albedoColumn: bool, r: Row): (a: Float)
    ensures albedoColumn && Albedo in r.cells ==> a == r.cells[Albedo]
    ensures !albedoColumn ==> a == Num(cfg.albedo) && (cfg.Valid() ==> 0.0 <= a.val <= 1.0)
  {
    if albedoColumn then Cell(r, Albedo) else Num(cfg.albedo)
  }

  /** The three projected components of one row and their sum: the row keeps its
      timestamp and every other cell, gains the four projection columns, and its
      `poa` is the sum of the three components. The direct component is undefined
      exactly when the row's DNI is, the ground component exactly when its GHI or
      albedo is. */
  function ProjectRow(m: Maths, lib: Pvlib, cfg: Config, albedoColumn: bool, r: Row): (p: Row)
    ensures Keeps(r, p, ProjectionColumns) && p.cells.Keys == r.cells.Keys + ProjectionColumns
    ensures Cell(p, Poa) == Add(Add(Cell(p, DhiPoa), Cell(p, DniPoa)), Cell(p, GhiPoa))
    ensures Cell(p, DniPoa).NaN? <==> Cell(r, Dni).NaN?
    ensures Cell(p, GhiPoa).Num? <==> Cell(r, Ghi).Num? && RowAlbedo(cfg, albedoColumn, r).Num?
  {
    var dniPoa := ProjectDniUsingTime(m, lib, cfg, Cell(r, Dni), r.time);
    var dhiPoa := DiffuseOnPanel(m, lib, cfg, r);
    var ghiPoa := ProjectGhi(m, cfg, Cell(r, Ghi), RowAlbedo(cfg, albedoColumn, r));
    Row(r.time, r.cells[DniPoa := dniPoa][DhiPoa := dhiPoa][GhiPoa := ghiPoa]
                       [Poa := Add(Add(dhiPoa, dniPoa), ghiPoa)])
  }

  const ProjectionColumns: set<Col> := {DniPoa, DhiPoa, GhiPoa, Poa}

  /** `irradiance_df_to_poa_df`: fails on the first of dni, dhi, ghi that is
      missing; otherwise writes the four projection columns and nothing else,
      with `poa` the sum of the three components in every row. */
  function IrradianceToPoa(m: Maths, lib: Pvlib, cfg: Config, t: Table): (r: Result<Table>)
    ensures r.Ok? <==> Dni in t.columns && Dhi in t.columns && Ghi in t.columns
    ensures r.Err? ==> r.error.MissingColumn? && IsFirstMissing(t, [Dni, Dhi, Ghi], r.error.col)
    ensures r.Ok? ==> && OnlyWrites(t, r.value, ProjectionColumns)
                      && (t.WellFormed() ==> r.value.WellFormed())
    ensures r.Ok? ==> forall i :: 0 <= i < |t.rows| ==>
              r.value.rows[i] == ProjectRow(m, lib, cfg, Albedo in t.columns, t.rows[i])
    ensures r.Ok? ==> forall i :: 0 <= i < |t.rows| ==>
              var row := r.value.rows[i];
              Cell(row, Poa) == Add(Add(Cell(row, DhiPoa), Cell(row, DniPoa)), Cell(row, GhiPoa))
  {
    var _ :- FirstMissing(t, [Dni, Dhi, Ghi]);
    var albedoColumn := Albedo in t.columns;
    Ok(Table(t.columns + ProjectionColumns,
             seq(|t.rows|, i requires 0 <= i < |t.rows| => ProjectRow(m, lib, cfg, albedoColumn, t.rows[i]))))
  }

  /** A row projected twice is the row projected once: the projection reads only
      columns it never writes. */
  lemma ProjectRowIdempotent(m: Maths, lib: Pvlib, cfg: Config, albedoColumn: bool, r: Row)
    ensures ProjectRow(m, lib, cfg, albedoColumn, ProjectRow(m, lib, cfg, albedoColumn, r))
         == ProjectRow(m, lib, cfg, albedoColumn, r)
  {
    var once := ProjectRow(m, lib, cfg, albedoColumn, r);
    var twice := ProjectRow(m, lib, cfg, albedoColumn, once);
    assert Cell(once, Dni) == Cell(r, Dni);
    assert Cell(once, Dhi) == Cell(r, Dhi);
    assert Cell(once, Ghi) == Cell(r, Ghi);
    assert Cell(once, Albedo) == Cell(r, Albedo);
    assert twice.cells.Keys == once.cells.Keys;
    assert forall c | c in twice.cells :: twice.cells[c] == once.cells[c];
  }

  /** Re-running the projection stage on its own output changes nothing. */
  lemma ProjectionIdempotent(m: Maths, lib: Pvlib, cfg: Config, t: Table)
    requires IrradianceToPoa(m, lib, cfg, t).Ok?
    ensures var once := IrradianceToPoa(m, lib, cfg, t).value;
            IrradianceToPoa(m, lib, cfg, once) == Ok(once)
  {
    var once := IrradianceToPoa(m, lib, cfg, t).value;
    var twice := IrradianceToPoa(m, lib, cfg, once);
    assert twice.Ok?;
    assert twice.value.columns == once.columns;
    assert (Albedo in once.columns) == (Albedo in t.columns);
    forall i | 0 <= i < |once.rows|
      ensures twice.value.rows[i] == once.rows[i]
    {
      ProjectRowIdempotent(m, lib, cfg, Albedo in t.columns, t.rows[i]);
    }
    assert twice.value.rows == once.rows;
  }
}
