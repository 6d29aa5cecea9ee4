/** Reflection-loss correction (helpers/reflection_estimator.py): the angular
    loss factors of the direct (alpha_BN), diffuse and ground-reflected light, the
    reflection-corrected components `|1 - alpha| * component`, and the absorbed
    irradiance `poa_ref_cor`.
 */
module Reflection {
  import opened Floats
  import opened Transcendental
  import opened Frames
  import opened Installation
  import opened Astronomy

  /** Angular-loss coefficient a_r of polycrystalline silicon modules. */
  const ReflectanceConstant: real := 0.159

  /** The direct-beam loss factor at an angle of incidence (degrees):
      `(e^(-cos(aoi) / a_r) - e^(-1 / a_r)) / (1 - e^(-1 / a_r))`. */
  function AlphaBeam(m: Maths, aoi: real): Float {
    var upper := m.exp(-m.cosDeg(aoi) / ReflectanceConstant) - m.exp(-1.0 / ReflectanceConstant);
    var lower := 1.0 - m.exp(-1.0 / ReflectanceConstant);
    Div(Num(upper), Num(lower))
  }

  /** The common denominator `1 - e^(-1 / a_r)` is positive. */
  lemma AlphaBeamDenominatorPositive(m: Maths)
    requires m.Lawful()
    ensures 0.0 < m.exp(-1.0 / ReflectanceConstant) < 1.0
  {
    assert -1.0 / ReflectanceConstant < 0.0;
  }

  /** No loss at normal incidence, total loss at grazing incidence. */
  lemma AlphaBeamEndpoints(m: Maths)
    requires m.Lawful()
    ensures AlphaBeam(m, 0.0) == Num(0.0)
    ensures AlphaBeam(m, 90.0) == Num(1.0)
  {
    AlphaBeamDenominatorPositive(m);
    var e1 := m.exp(-1.0 / ReflectanceConstant);
    var lower := 1.0 - e1;
    assert -m.cosDeg(0.0) / ReflectanceConstant == -1.0 / ReflectanceConstant;
    assert AlphaBeam(m, 0.0) == Num((e1 - e1) / lower);
    assert -m.cosDeg(90.0) / ReflectanceConstant == 0.0;
    assert m.exp(-m.cosDeg(90.0) / ReflectanceConstant) == 1.0;
    assert AlphaBeam(m, 90.0) == Num(lower / lower);
    DivideBySelf(lower);
  }

  /** The loss factor grows strictly with the angle of incidence over [0, 90]. */
  lemma AlphaBeamIncreasing(m: Maths, x: real, y: real)
    requires m.Lawful()
    requires 0.0 <= x < y <= 90.0
    ensures AlphaBeam(m, x).Num? && AlphaBeam(m, y).Num?
    ensures AlphaBeam(m, x).val < AlphaBeam(m, y).val
  {
    AlphaBeamDenominatorPositive(m);
    var lower := 1.0 - m.exp(-1.0 / ReflectanceConstant);
    var ex, ey := -m.cosDeg(x) / ReflectanceConstant, -m.cosDeg(y) / ReflectanceConstant;
    assert m.cosDeg(y) < m.cosDeg(x);
    assert ex < ey;
    assert m.exp(ex) < m.exp(ey);
    var ux := m.exp(ex) - m.exp(-1.0 / ReflectanceConstant);
    var uy := m.exp(ey) - m.exp(-1.0 / ReflectanceConstant);
    DivideByPositive(ux, uy, lower);
    assert AlphaBeam(m, x) == Num(ux / lower);
    assert AlphaBeam(m, y) == Num(uy / lower);
  }

  /** Over the clamped range of angles the loss factor is a fraction in [0, 1]. */
  lemma AlphaBeamInUnitInterval(m: Maths, aoi: real)
    requires m.Lawful()
    requires 0.0 <= aoi <= 90.0
    ensures AlphaBeam(m, aoi).Num?
    ensures 0.0 <= AlphaBeam(m, aoi).val <= 1.0
  {
    AlphaBeamEndpoints(m);
    if 0.0 < aoi {
      AlphaBeamIncreasing(m, 0.0, aoi);
    }
    if aoi < 90.0 {
      AlphaBeamIncreasing(m, aoi, 90.0);
    }
  }

  /** `__dni_reflected`: alpha_BN at the (clamped) angle of incidence of `time`.
      It is a fraction in [0, 1] at every instant, and exactly 1 (total loss)
      when the sun is at or behind the panel plane. */
  function DniReflected(m: Maths, lib: Pvlib, cfg: Config, time: Instant): (r: Float)
    ensures m.Lawful() && lib.Lawful() ==> r.Num? && 0.0 <= r.val <= 1.0
    ensures m.Lawful() && RawAoi(lib, cfg, time) >= 90.0 ==> r == Num(1.0)
  {
    var aoi := AngleOfIncidence(lib, cfg, time);
    assert m.Lawful() && lib.Lawful() ==> AlphaBeam(m, aoi).Num? && 0.0 <= AlphaBeam(m, aoi).val <= 1.0 by {
      if m.Lawful() && lib.Lawful() {
        AlphaBeamInUnitInterval(m, aoi);
      }
    }
    assert m.Lawful() && RawAoi(lib, cfg, time) >= 90.0 ==> AlphaBeam(m, aoi) == Num(1.0) by {
      if m.Lawful() && RawAoi(lib, cfg, time) >= 90.0 {
        AlphaBeamEndpoints(m);
      }
    }
    AlphaBeam(m, aoi)
  }

  const C2: real := -0.074

  /** `e^((-1 / a_r) * (c1 * part1 + c2 * part1^2))` with c1 = 4 / (3 pi): the
      common tail of the diffuse and ground-reflected loss factors. */
  function LossFromPart1(m: Maths, part1: Float): (r: Float)
    ensures r.Num? <==> part1.Num?
  {
    var c1 := 4.0 / (3.0 * m.pi);
    match part1
    case NaN => NaN
    case Num(p) =>
      var part2 := c1 * p + C2 * (p * p);
      var part3 := (-1.0 / ReflectanceConstant) * part2;
      Num(m.exp(part3))
  }

  /** A defined loss factor is strictly positive (it is an exponential). */
  lemma LossFromPart1Positive(m: Maths, part1: Float)
    requires m.Lawful()
    requires part1.Num?
    ensures LossFromPart1(m, part1).val > 0.0
  {
  }

  /** `__ghi_reflected` as written: part1 divides by `1 - cos(tilt)`, which is 0
      for a flat panel, so the factor is undefined (0 / 0) there; at every other
      tilt up to 180 it is defined and positive. */
  function GhiReflectedAsWritten(m: Maths, cfg: Config): (r: Float)
    ensures m.Lawful() && cfg.tilt == 0.0 ==> r.NaN?
    ensures m.Lawful() && 0.0 < cfg.tilt <= 180.0 ==> r.Num? && r.val > 0.0
  {
    var beta := m.Radians(cfg.tilt);
    var s := m.sinDeg(cfg.tilt);
    assert m.Lawful() && 0.0 < cfg.tilt <= 180.0 ==> m.cosDeg(cfg.tilt) < m.cosDeg(0.0);
    var part1 := Add(Num(s), Div(Num(beta - s), Num(1.0 - m.cosDeg(cfg.tilt))));
    LossFromPart1(m, part1)
  }

  /** `__ghi_reflected` with the flat-panel case replaced by its limit: the term
      `(beta - sin beta) / (1 - cos beta)` tends to 0 as beta tends to 0. The
      factor is then defined and positive for every tilt in [0, 180], 1 for a
      flat panel, and equal to the as-written factor at every other tilt. */
  function GhiReflected(m: Maths, cfg: Config): (r: Float)
    ensures m.Lawful() && 0.0 <= cfg.tilt <= 180.0 ==> r.Num? && r.val > 0.0
    ensures m.Lawful() && cfg.tilt == 0.0 ==> r == Num(1.0)
    ensures m.Lawful() && 0.0 < cfg.tilt <= 180.0 ==> r == GhiReflectedAsWritten(m, cfg)
  {
    var beta := m.Radians(cfg.tilt);
    var s := m.sinDeg(cfg.tilt);
    var fraction := if cfg.tilt == 0.0 then Num(0.0) else Div(Num(beta - s), Num(1.0 - m.cosDeg(cfg.tilt)));
    assert m.Lawful() && 0.0 < cfg.tilt <= 180.0 ==> m.cosDeg(cfg.tilt) < m.cosDeg(0.0);
    LossFromPart1(m, Add(Num(s), fraction))
  }

  /** `__dhi_reflected`: part1 divides by `1 + cos(tilt)`, which is 0 for a panel
      facing the ground. The factor is defined and positive for every tilt in
      [0, 180) and undefined at 180. */
  function DhiReflected(m: Maths, cfg: Config): (r: Float)
    ensures m.Lawful() && 0.0 <= cfg.tilt < 180.0 ==> r.Num? && r.val > 0.0
    ensures m.Lawful() && cfg.tilt == 180.0 ==> r.NaN?
  {
    var beta := m.Radians(cfg.tilt);
    var s := m.sinDeg(cfg.tilt);
    assert m.Lawful() && 0.0 <= cfg.tilt < 180.0 ==> m.cosDeg(180.0) < m.cosDeg(cfg.tilt);
    var part1 := Add(Num(s), Div(Num(m.pi - beta - s), Num(1.0 + m.cosDeg(cfg.tilt))));
    LossFromPart1(m, part1)
  }

  /** `|1 - alpha| * component`: one reflection-corrected component. */
  function CorrectedComponent(alpha: Float, component: Float): (r: Float)
    ensures r.Num? <==> alpha.Num? && component.Num?
    ensures r.Num? && component.val >= 0.0 ==> r.val >= 0.0
  {
    Mul(Abs(Sub(Num(1.0), alpha)), component)
  }

  /** With a loss factor in [0, 1] the corrected component is the plain
      `(1 - alpha) * component` of the absorbed sum, whatever the component's
      sign; a non-negative component stays in [0, component]. */
  lemma CorrectedComponentAbsorbsFraction(alpha: Float, component: real)
    requires alpha.Num? && 0.0 <= alpha.val <= 1.0
    ensures CorrectedComponent(alpha, Num(component)) == Mul(Sub(Num(1.0), alpha), Num(component))
    ensures CorrectedComponent(alpha, Num(component)).Num?
    ensures component >= 0.0 ==> 0.0 <= CorrectedComponent(alpha, Num(component)).val <= component
  {
    var f := 1.0 - alpha.val;
    assert Mul(Sub(Num(1.0), alpha), Num(component)) == Num(f * component);
    if component >= 0.0 {
      ScaleByFraction(component, f);
    }
  }

  /** The absorbed sum for given loss factors. */
  function Absorbed(alphaBN: Float, alphaD: Float, alphaDG: Float, dniPoa: Float, dhiPoa: Float, ghiPoa: Float): Float {
    Add(Add(Mul(Sub(Num(1.0), alphaBN), dniPoa), Mul(Sub(Num(1.0), alphaD), dhiPoa)),
        Mul(Sub(Num(1.0), alphaDG), ghiPoa))
  }

  /** `components_to_corrected_poa` with the evidently intended ground factor
      (`GhiReflected`, defined for a flat panel): on a valid installation the
      absorbed irradiance is defined exactly when all three components are. */
  function ComponentsToCorrectedPoaIntended(m: Maths, lib: Pvlib, cfg: Config,
                                            dniPoa: Float, dhiPoa: Float, ghiPoa: Float, time: Instant): (r: Float)
    ensures m.Lawful() && lib.Lawful() && cfg.Valid() ==> (r.Num? <==> dniPoa.Num? && dhiPoa.Num? && ghiPoa.Num?)
  {
    Absorbed(DniReflected(m, lib, cfg, time), DhiReflected(m, cfg), GhiReflected(m, cfg), dniPoa, dhiPoa, ghiPoa)
  }

  /** `components_to_corrected_poa`: the absorbed irradiance
      `(1 - alpha_BN) * dni_poa + (1 - alpha_d) * dhi_poa + (1 - alpha_dg) * ghi_poa`
      (no absolute value here), with the ground factor as written. A flat panel
      absorbs an undefined amount whatever the irradiance; at every other valid
      tilt the sum agrees with the intended one and is defined for defined
      components. */
  function ComponentsToCorrectedPoa(m: Maths, lib: Pvlib, cfg: Config,
                                    dniPoa: Float, dhiPoa: Float, ghiPoa: Float, time: Instant): (r: Float)
    ensures m.Lawful() && cfg.tilt == 0.0 ==> r.NaN?
    ensures m.Lawful() && 0.0 < cfg.tilt <= 180.0 ==>
              r == ComponentsToCorrectedPoaIntended(m, lib, cfg, dniPoa, dhiPoa, ghiPoa, time)
    ensures m.Lawful() && lib.Lawful() && cfg.Valid() && cfg.tilt != 0.0 ==>
              (dniPoa.Num? && dhiPoa.Num? && ghiPoa.Num? ==> r.Num?)
  {
    Absorbed(DniReflected(m, lib, cfg, time), DhiReflected(m, cfg), GhiReflectedAsWritten(m, cfg), dniPoa, dhiPoa, ghiPoa)
  }

  /** With the intended ground factor every valid installation absorbs a defined
      amount of defined irradiance, a flat panel included. */
  lemma AbsorbedDefined(m: Maths, lib: Pvlib, cfg: Config, dniPoa: real, dhiPoa: real, ghiPoa: real, time: Instant)
    requires m.Lawful() && lib.Lawful() && cfg.Valid()
    ensures ComponentsToCorrectedPoaIntended(m, lib, cfg, Num(dniPoa), Num(dhiPoa), Num(ghiPoa), time).Num?
  {
  }

  /** With the intended ground factor a flat panel absorbs nothing of the
      ground-reflected component: the absorbed amount does not depend on it. */
  lemma FlatPanelIgnoresGround(m: Maths, lib: Pvlib, cfg: Config, dniPoa: Float, dhiPoa: Float,
                               ghi1: real, ghi2: real, time: Instant)
    requires m.Lawful()
    requires cfg.tilt == 0.0
    ensures ComponentsToCorrectedPoaIntended(m, lib, cfg, dniPoa, dhiPoa, Num(ghi1), time)
         == ComponentsToCorrectedPoaIntended(m, lib, cfg, dniPoa, dhiPoa, Num(ghi2), time)
  {
    var alphaBN, alphaD := DniReflected(m, lib, cfg, time), DhiReflected(m, cfg);
    AbsorbedWithoutGround(alphaBN, alphaD, dniPoa, dhiPoa, ghi1, ghi2);
  }

  /** A ground factor of 1 cancels the ground-reflected term. */
  lemma AbsorbedWithoutGround(alphaBN: Float, alphaD: Float, dniPoa: Float, dhiPoa: Float, ghi1: real, ghi2: real)
    ensures Absorbed(alphaBN, alphaD, Num(1.0), dniPoa, dhiPoa, Num(ghi1))
         == Absorbed(alphaBN, alphaD, Num(1.0), dniPoa, dhiPoa, Num(ghi2))
  {
    assert Mul(Sub(Num(1.0), Num(1.0)), Num(ghi1)) == Num(0.0);
    assert Mul(Sub(Num(1.0), Num(1.0)), Num(ghi2)) == Num(0.0);
  }

  /** For any loss factors in [0, 1], the absorbed sum is the sum of the three
      corrected components, whatever the components' signs; for non-negative
      components it lies between 0 and the projected total. */
  lemma AbsorbedIsSumOfCorrected(alphaBN: real, alphaD: real, alphaDG: real,
                                 dniPoa: real, dhiPoa: real, ghiPoa: real)
    requires 0.0 <= alphaBN <= 1.0 && 0.0 <= alphaD <= 1.0 && 0.0 <= alphaDG <= 1.0
    ensures Absorbed(Num(alphaBN), Num(alphaD), Num(alphaDG), Num(dniPoa), Num(dhiPoa), Num(ghiPoa))
         == Add(Add(CorrectedComponent(Num(alphaBN), Num(dniPoa)),
                    CorrectedComponent(Num(alphaD), Num(dhiPoa))),
                CorrectedComponent(Num(alphaDG), Num(ghiPoa)))
    ensures dniPoa >= 0.0 && dhiPoa >= 0.0 && ghiPoa >= 0.0 ==>
              var total := Absorbed(Num(alphaBN), Num(alphaD), Num(alphaDG), Num(dniPoa), Num(dhiPoa), Num(ghiPoa));
              0.0 <= total.val <= dniPoa + dhiPoa + ghiPoa
  {
    CorrectedComponentAbsorbsFraction(Num(alphaBN), dniPoa);
    CorrectedComponentAbsorbsFraction(Num(alphaD), dhiPoa);
    CorrectedComponentAbsorbsFraction(Num(alphaDG), ghiPoa);
  }

  /** When every loss factor is in [0, 1], the absorbed irradiance is the sum of
      the three corrected components for components of any sign, and it is
      non-negative and at most the projected total for non-negative components. */
  lemma CorrectedPoaIsSumOfComponents(m: Maths, lib: Pvlib, cfg: Config,
                                      dniPoa: real, dhiPoa: real, ghiPoa: real, time: Instant)
    requires m.Lawful() && lib.Lawful()
    requires DhiReflected(m, cfg).Num? && 0.0 <= DhiReflected(m, cfg).val <= 1.0
    requires GhiReflectedAsWritten(m, cfg).Num? && 0.0 <= GhiReflectedAsWritten(m, cfg).val <= 1.0
    ensures ComponentsToCorrectedPoa(m, lib, cfg, Num(dniPoa), Num(dhiPoa), Num(ghiPoa), time)
         == Add(Add(CorrectedComponent(DniReflected(m, lib, cfg, time), Num(dniPoa)),
                    CorrectedComponent(DhiReflected(m, cfg), Num(dhiPoa))),
                CorrectedComponent(GhiReflectedAsWritten(m, cfg), Num(ghiPoa)))
    ensures dniPoa >= 0.0 && dhiPoa >= 0.0 && ghiPoa >= 0.0 ==>
              var total := ComponentsToCorrectedPoa(m, lib, cfg, Num(dniPoa), Num(dhiPoa), Num(ghiPoa), time);
              0.0 <= total.val <= dniPoa + dhiPoa + ghiPoa
  {
    AbsorbedIsSumOfCorrected(DniReflected(m, lib, cfg, time).val, DhiReflected(m, cfg).val, GhiReflectedAsWritten(m, cfg).val,
                             dniPoa, dhiPoa, ghiPoa);
  }

  /** Corrected components of one row: the row keeps its timestamp and every
      other cell and gains exactly `dni_rc`, `dhi_rc` and `ghi_rc`. Because
      alpha_BN is a fraction, the direct correction is the plain
      `(1 - alpha_BN) * dni_poa`, which is 0 when the sun is at or behind the
      panel plane. The diffuse correction is defined exactly when `dhi_poa` is
      (below tilt 180); the ground correction is undefined for a flat panel and
      otherwise defined exactly when `ghi_poa` is. */
  function ReflectComponentsRow(m: Maths, lib: Pvlib, cfg: Config, r: Row): (p: Row)
    ensures Keeps(r, p, ComponentColumns) && p.cells.Keys == r.cells.Keys + ComponentColumns
    ensures m.Lawful() && lib.Lawful() ==>
              Cell(p, DniRc) == Mul(Sub(Num(1.0), DniReflected(m, lib, cfg, r.time)), Cell(r, DniPoa))
    ensures m.Lawful() && RawAoi(lib, cfg, r.time) >= 90.0 && Cell(r, DniPoa).Num? ==> Cell(p, DniRc) == Num(0.0)
    ensures m.Lawful() && 0.0 <= cfg.tilt < 180.0 ==> (Cell(p, DhiRc).Num? <==> Cell(r, DhiPoa).Num?)
    ensures m.Lawful() && cfg.tilt == 0.0 ==> Cell(p, GhiRc).NaN?
    ensures m.Lawful() && 0.0 < cfg.tilt <= 180.0 ==> (Cell(p, GhiRc).Num? <==> Cell(r, GhiPoa).Num?)
  {
    var alphaBN := DniReflected(m, lib, cfg, r.time);
    assert m.Lawful() && lib.Lawful() && Cell(r, DniPoa).Num? ==>
             CorrectedComponent(alphaBN, Cell(r, DniPoa)) == Mul(Sub(Num(1.0), alphaBN), Cell(r, DniPoa)) by {
      if m.Lawful() && lib.Lawful() && Cell(r, DniPoa).Num? {
        CorrectedComponentAbsorbsFraction(alphaBN, Cell(r, DniPoa).val);
      }
    }
    Row(r.time, r.cells[DniRc := CorrectedComponent(alphaBN, Cell(r, DniPoa))]
                       [DhiRc := CorrectedComponent(DhiReflected(m, cfg), Cell(r, DhiPoa))]
                       [GhiRc := CorrectedComponent(GhiReflectedAsWritten(m, cfg), Cell(r, GhiPoa))])
  }

  const ComponentColumns: set<Col> := {DniRc, DhiRc, GhiRc}

  /** `add_reflection_corrected_poa_components_to_df`: fails on the first missing
      projected component; otherwise writes `dni_rc`, `dhi_rc`, `ghi_rc` and
      nothing else. */
  function AddReflectionCorrectedPoaComponents(m: Maths, lib: Pvlib, cfg: Config, t: Table): (r: Result<Table>)
    ensures r.Ok? <==> DniPoa in t.columns && DhiPoa in t.columns && GhiPoa in t.columns
    ensures r.Err? ==> r.error.MissingColumn? && IsFirstMissing(t, [DniPoa, DhiPoa, GhiPoa], r.error.col)
    ensures r.Ok? ==> && OnlyWrites(t, r.value, ComponentColumns)
                      && (t.WellFormed() ==> r.value.WellFormed())
    ensures r.Ok? ==> forall i :: 0 <= i < |t.rows| ==>
              r.value.rows[i] == ReflectComponentsRow(m, lib, cfg, t.rows[i])
  {
    var _ :- FirstMissing(t, [DniPoa, DhiPoa, GhiPoa]);
    Ok(Table(t.columns + ComponentColumns,
             seq(|t.rows|, i requires 0 <= i < |t.rows| => ReflectComponentsRow(m, lib, cfg, t.rows[i]))))
  }

  /** The absorbed irradiance of one row: the row keeps its timestamp and every
      other cell and gains exactly `poa_ref_cor`, which is undefined for a flat
      panel and, on a valid tilted installation, defined whenever the three
      projected components are. */
  function ReflectSumRow(m: Maths, lib: Pvlib, cfg: Config, r: Row): (p: Row)
    ensures Keeps(r, p, {PoaRefCor}) && p.cells.Keys == r.cells.Keys + {PoaRefCor}
    ensures m.Lawful() && cfg.tilt == 0.0 ==> Cell(p, PoaRefCor).NaN?
    ensures m.Lawful() && lib.Lawful() && cfg.Valid() && cfg.tilt != 0.0 ==>
              (Cell(r, DniPoa).Num? && Cell(r, DhiPoa).Num? && Cell(r, GhiPoa).Num? ==> Cell(p, PoaRefCor).Num?)
  {
    Row(r.time, r.cells[PoaRefCor := ComponentsToCorrectedPoa(m, lib, cfg, Cell(r, DniPoa), Cell(r, DhiPoa),
                                                              Cell(r, GhiPoa), r.time)])
  }

  /** The two reflection stages agree row by row: when the diffuse and ground
      loss factors are fractions, the `poa_ref_cor` written after the component
      stage is the sum of the `dni_rc`, `dhi_rc` and `ghi_rc` cells it wrote,
      defined or not. */
  lemma AbsorbedIsSumOfComponentColumns(m: Maths, lib: Pvlib, cfg: Config, r: Row)
    requires m.Lawful() && lib.Lawful()
    requires DhiReflected(m, cfg).Num? && 0.0 <= DhiReflected(m, cfg).val <= 1.0
    requires GhiReflectedAsWritten(m, cfg).Num? && 0.0 <= GhiReflectedAsWritten(m, cfg).val <= 1.0
    ensures var k := ReflectComponentsRow(m, lib, cfg, r);
            Cell(ReflectSumRow(m, lib, cfg, k), PoaRefCor) == Add(Add(Cell(k, DniRc), Cell(k, DhiRc)), Cell(k, GhiRc))
  {
    var k := ReflectComponentsRow(m, lib, cfg, r);
    assert Cell(k, DniPoa) == Cell(r, DniPoa);
    assert Cell(k, DhiPoa) == Cell(r, DhiPoa);
    assert Cell(k, GhiPoa) == Cell(r, GhiPoa);
    var dni, dhi, ghi := Cell(r, DniPoa), Cell(r, DhiPoa), Cell(r, GhiPoa);
    if dni.Num? && dhi.Num? && ghi.Num? {
      CorrectedPoaIsSumOfComponents(m, lib, cfg, dni.val, dhi.val, ghi.val, r.time);
    }
  }

  /** `add_reflection_corrected_poa_to_df`: fails on the first missing projected
      component; otherwise writes `poa_ref_cor` and nothing else. */
  function AddReflectionCorrectedPoa(m: Maths, lib: Pvlib, cfg: Config, t: Table): (r: Result<Table>)
    ensures r.Ok? <==> DniPoa in t.columns && DhiPoa in t.columns && GhiPoa in t.columns
    ensures r.Err? ==> r.error.MissingColumn? && IsFirstMissing(t, [DniPoa, DhiPoa, GhiPoa], r.error.col)
    ensures r.Ok? ==> && OnlyWrites(t, r.value, {PoaRefCor})
                      && (t.WellFormed() ==> r.value.WellFormed())
    ensures r.Ok? ==> forall i :: 0 <= i < |t.rows| ==>
              r.value.rows[i] == ReflectSumRow(m, lib, cfg, t.rows[i])
  {
    var _ :- FirstMissing(t, [DniPoa, DhiPoa, GhiPoa]);
    Ok(Table(t.columns + {PoaRefCor},
             seq(|t.rows|, i requires 0 <= i < |t.rows| => ReflectSumRow(m, lib, cfg, t.rows[i]))))
  }
}
