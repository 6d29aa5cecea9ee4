/** Solar geometry (helpers/astronomical_calculations.py).

    The solar-position algorithm, the incidence-angle formula, the air-mass
    model, the extraterrestrial radiation and the Perez sky model all come from
    pvlib; they are fields of the `Pvlib` record and stay uninterpreted. What the
    source adds around them is modelled exactly: the tuple order of the solar
    position and the saturation of the angle of incidence at 90 degrees.
 */
module Astronomy {
  import opened Floats
  import opened Frames
  import opened Installation

  /** One row of `Location.get_solarposition`: the columns the source reads. */
  datatype SolarPosition = SolarPosition(apparentZenith: real, azimuth: real)

  /** Arguments of `pvlib.irradiance.perez`, in the order the source passes them. */
  datatype PerezArgs = PerezArgs(
    surfaceTilt: real, surfaceAzimuth: real, dhi: Float, dni: Float,
    dniExtra: real, solarZenith: real, solarAzimuth: real, airmass: real)

  datatype Pvlib = Pvlib(
    // Location(latitude, longitude, tz).get_solarposition(time)
    solarPosition: (real, real, string, Instant) -> SolarPosition,
    // irradiance.aoi(surface_tilt, surface_azimuth, solar_zenith, solar_azimuth)
    aoi: (real, real, real, real) -> real,
    // atmosphere.get_relative_airmass(zenith)
    relativeAirmass: real -> real,
    // irradiance.get_extra_radiation(time)
    extraRadiation: Instant -> real,
    // irradiance.perez(..., return_components=False)
    perez: PerezArgs -> Float)
  {
    /** `irradiance.aoi` is an arc cosine in degrees, so it lies in [0, 180]. */
    ghost predicate Lawful() {
      forall a, b, c, d :: 0.0 <= aoi(a, b, c, d) <= 180.0
    }
  }

  /** `get_solar_azimuth_zenit`: the pair (azimuth, apparent zenith), azimuth first. */
  function SolarAzimuthZenith(lib: Pvlib, cfg: Config, time: Instant): (r: (real, real))
    ensures var p := lib.solarPosition(cfg.latitude, cfg.longitude, cfg.timezone, time);
            r.0 == p.azimuth && r.1 == p.apparentZenith
  {
    var p := lib.solarPosition(cfg.latitude, cfg.longitude, cfg.timezone, time);
    (p.azimuth, p.apparentZenith)
  }

  /** The saturation policy: an angle above 90 degrees becomes exactly 90. */
  function ClampAoi(aoi: real): (r: real)
    ensures r <= 90.0
    ensures aoi <= 90.0 ==> r == aoi
    ensures aoi > 90.0 ==> r == 90.0
  {
    if aoi > 90.0 then 90.0 else aoi
  }

  lemma ClampAoiIdempotent(aoi: real)
    ensures ClampAoi(ClampAoi(aoi)) == ClampAoi(aoi)
  {
  }

  lemma ClampAoiMonotone(x: real, y: real)
    requires x <= y
    ensures ClampAoi(x) <= ClampAoi(y)
  {
  }

  /** The raw (unclamped) angle of incidence from the panel orientation and the
      solar position at `time`. */
  function RawAoi(lib: Pvlib, cfg: Config, time: Instant): real {
    var (solarAzimuth, apparentZenith) := SolarAzimuthZenith(lib, cfg, time);
    lib.aoi(cfg.tilt, cfg.azimuth, apparentZenith, solarAzimuth)
  }

  /** `get_solar_angle_of_incidence`, in degrees. */
  function AngleOfIncidence(lib: Pvlib, cfg: Config, time: Instant): (r: real)
    ensures r <= 90.0
    ensures RawAoi(lib, cfg, time) <= 90.0 ==> r == RawAoi(lib, cfg, time)
    ensures RawAoi(lib, cfg, time) > 90.0 ==> r == 90.0
    ensures lib.Lawful() ==> 0.0 <= r
  {
    ClampAoi(RawAoi(lib, cfg, time))
  }

  /** `get_air_mass`: the relative air mass at the apparent zenith, the second
      element of the solar-position pair. */
  function AirMass(lib: Pvlib, cfg: Config, time: Instant): (r: real)
    ensures r == lib.relativeAirmass(lib.solarPosition(cfg.latitude, cfg.longitude, cfg.timezone, time).apparentZenith)
  {
    lib.relativeAirmass(SolarAzimuthZenith(lib, cfg, time).1)
  }
}
