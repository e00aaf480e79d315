/** The safety limits every component shares (tara_core/safety.py). */
module Safety {
  datatype Limits = Limits(
    minSeparation: real, designSeparation: real, maxVelocity: real, maxAccel: real, maxYawRate: real, maxAltitude: real)

  /** Metres below which the fleet aborts. */
  const MIN_SEPARATION_M := 1.5

  const DEFAULT_LIMITS := Limits(MIN_SEPARATION_M, 2.0, 6.0, 50.0, 300.0, 120.0)

  /** What SafetyLimits refuses to be built without: the design limit is never looser than the runtime one. */
  predicate ValidLimits(l: Limits) {
    && l.minSeparation > 0.0 && l.minSeparation <= l.designSeparation
    && l.maxVelocity > 0.0 && l.maxAccel > 0.0 && l.maxYawRate > 0.0 && l.maxAltitude > 0.0
  }
}
