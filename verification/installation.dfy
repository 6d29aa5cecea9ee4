/** The fixed installation every stage reads: location, panel orientation, rated
    power, ground albedo, module elevation and the dummy weather values. In the
    source these are module-level constants of `config.py`; here they are one
    immutable record passed to each stage.
 */
module Installation {

  /** The two interchangeable diffuse-sky models of the plane-of-array projection. */
  datatype DiffuseModel = Isotropic | Perez

  datatype Config = Config(
    latitude: real,
    longitude: real,
    timezone: string,
    tilt: real,            // degrees, 0 is flat, 90 is wall mounted
    azimuth: real,         // degrees clockwise from north
    ratedPowerKw: real,    // kW at standard test conditions
    albedo: real,          // ground reflectivity in [0, 1]
    moduleElevation: real, // metres above ground
    windSpeed: real,       // dummy wind speed, m/s
    airTemp: real,         // dummy air temperature, Celsius
    diffuse: DiffuseModel)
  {
    /** The ranges the configuration comments ask for; a tilt of 180 degrees
        (panel facing the ground) is excluded, and a panel at ground level
        (elevation 0) is allowed. */
    predicate Valid() {
      && 0.0 <= tilt < 180.0
      && 0.0 <= ratedPowerKw
      && 0.0 <= albedo <= 1.0
      && 0.0 <= moduleElevation
    }
  }

  /** The configured installation: the last assignments of `config.py` win
      (latitude and longitude are set twice, to the same values). */
  const Configured: Config :=
    Config(60.448, 22.297, "UTC", 20.0, 180.0, 142.0, 0.17, 25.0, 2.0, 20.0, Perez)
}
