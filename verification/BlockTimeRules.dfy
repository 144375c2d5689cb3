/**
  The controller in its own numbers: when it moves and where to, which reason it reports, and when the reported
  reason says that the bounds moved the interval.
 */
module BlockTimeRules {
  import opened Basics
  import opened BlockTime
  import opened BlockTimeConvergence

  /** Bounds the wrong way round mean the lower one. */
  lemma ClampedIff(cfg: Config, target: real)
    ensures Away(target, BoundClamp(cfg, target)) > CLAMP_SLACK
            <==> || target < cfg.minBlockTime as real - 0.001
                 || (target > cfg.maxBlockTime as real + 0.001 && target > cfg.minBlockTime as real + 0.001)
  {
  }

  lemma AtLeastMinimum(cfg: Config, shortened: real, k: int)
    requires cfg.minBlockTime <= k
    ensures var aimed := if shortened > cfg.adaptiveFloor then shortened else cfg.adaptiveFloor;
            Max(AdaptiveFloor(cfg), shortened) <= k as real + CEILING_SLACK <==> aimed <= k as real + CEILING_SLACK
  {
  }

  /** The reason is read off the validation time, the interval and the shortened interval. */
  lemma CauseIff(cfg: Config, validation: real, current: real)
    requires current > 0.0
    ensures CauseOf(cfg, validation, current) == Overloaded <==> validation > 0.8 * current
    ensures CauseOf(cfg, validation, current) == OptimalRange <==> 0.4 * current <= validation <= 0.8 * current
    ensures var shortened := current * (1.0 - cfg.rampUp);
            CauseOf(cfg, validation, current) == AtMinimum
            <==> validation < 0.4 * current && (shortened <= cfg.minBlockTime as real + 0.000001
                                                || shortened <= cfg.adaptiveFloor + 0.000001)
  {
    Quotient(validation, current, INCREASE_THRESHOLD);
    Quotient(validation, current, DECREASE_THRESHOLD);
    AtFloorIff(cfg, Scaled(current, 1.0 - cfg.rampUp));
  }

  lemma AtFloorIff(cfg: Config, shortened: real)
    ensures Max(AdaptiveFloor(cfg), shortened) <= AdaptiveFloor(cfg) + FLOOR_SLACK
            <==> shortened <= cfg.minBlockTime as real + 0.000001 || shortened <= cfg.adaptiveFloor + 0.000001
  {
  }

  lemma ClampAtMostIff(cfg: Config, target: real, k: int)
    requires cfg.minBlockTime <= k <= cfg.maxBlockTime
    ensures ClampBlockTime(cfg, target) <= k as real <==> k == cfg.maxBlockTime || target <= k as real + 0.000000001
  {
    CeilingLeast(BoundClamp(cfg, target) - CEILING_SLACK, k);
    assert UpperBound(cfg) == cfg.maxBlockTime && cfg.minBlockTime as real <= k as real;
    assert k < cfg.maxBlockTime ==> k as real + 1.0 <= cfg.maxBlockTime as real;
  }

  lemma TargetIs(cfg: Config, validation: real, current: real, longer: real, shorter: real, target: real)
    requires current > 0.0 && target == Target(cfg, validation, current)
    requires longer == Scaled(current, 1.0 + cfg.rampDown) && shorter == Scaled(current, 1.0 - cfg.rampUp)
    ensures validation > 0.8 * current ==> target == longer
    ensures 0.4 * current <= validation <= 0.8 * current ==> target == current
    ensures validation < 0.4 * current ==> target == Max(AdaptiveFloor(cfg), shorter)
  {
    Quotient(validation, current, INCREASE_THRESHOLD);
    Quotient(validation, current, DECREASE_THRESHOLD);
  }

  /**
    The new interval is the least whole number of seconds, a billionth less than one being rounded down, from the
    interval aimed at on, unless a bound comes first.
   */
  lemma StepIs(cfg: Config, validation: real, current: real, longer: real, shorter: real, k: int)
    requires current > 0.0 && cfg.minBlockTime <= k <= cfg.maxBlockTime
    requires longer == current * (1.0 + cfg.rampDown) && shorter == current * (1.0 - cfg.rampUp)
    ensures var aimed := if validation > 0.8 * current then longer
                         else if validation >= 0.4 * current then current
                         else if shorter > cfg.adaptiveFloor then shorter
                         else cfg.adaptiveFloor;
            Step(cfg, validation, current) <= k as real
            <==> k == cfg.maxBlockTime || aimed <= k as real + 0.000000001
  {
    var target := Target(cfg, validation, current);
    TargetIs(cfg, validation, current, longer, shorter, target);
    ClampAtMostIff(cfg, target, k);
    AtLeastMinimum(cfg, shorter, k);
  }
}
