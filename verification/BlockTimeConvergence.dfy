/**
  Under constant validation time the controller moves one way, never overshoots from one side of the
  dead band to the other, and settles.
 */
module BlockTimeConvergence {
  import opened BlockTime

  /** One adjustment of a whole-second interval. */
  ghost function NextInterval(cfg: Config, validation: real, k: int): int
    requires k != 0
  {
    Ceiling(BoundClamp(cfg, Target(cfg, validation, k as real)) - CEILING_SLACK)
  }

  lemma NextIntervalIsStep(cfg: Config, validation: real, k: int)
    requires k != 0
    ensures Step(cfg, validation, k as real) == NextInterval(cfg, validation, k) as real
  {
  }

  /** The lowest whole interval fast validation leads to. */
  function LowestInterval(cfg: Config): int { Ceiling(AdaptiveFloor(cfg) - CEILING_SLACK) }

  /** At the lowest interval already, a step is more than rounding and less than the dead band is wide. */
  ghost predicate Tuned(cfg: Config) {
    var low := LowestInterval(cfg) as real;
    && AdaptiveFloor(cfg) <= UpperBound(cfg) as real && low > 0.0
    && cfg.rampUp * low >= 1.0 && (1.0 - 2.0 * cfg.rampUp) * low >= 2.0 * CEILING_SLACK
    && cfg.rampDown * low > CEILING_SLACK && (1.0 - cfg.rampDown) * low >= 1.0
  }

  /** The default bounds, adaptive floor and steps qualify. */
  lemma DefaultsAreTuned()
    ensures Tuned(Config(15, 3600, 40.0, 0.05, 0.15))
  {
    CeilingLeast(40.0 - CEILING_SLACK, 40);
    CeilingLeast(40.0 - CEILING_SLACK, 39);
  }

  ghost predicate InRange(cfg: Config, k: int) {
    LowestInterval(cfg) <= k <= UpperBound(cfg)
  }

  // ----- arithmetic

  lemma Quotient(v: real, c: real, t: real)
    requires c > 0.0
    ensures (v / c > t <==> v > t * c) && (v / c < t <==> v < t * c)
  {
    assert v == v / c * c;
  }

  lemma Sides(validation: real, k: int)
    requires k > 0
    ensures Stressed(validation, k as real) <==> validation > 0.8 * k as real
    ensures Slack(validation, k as real) <==> validation < 0.4 * k as real
  {
    Quotient(validation, k as real, INCREASE_THRESHOLD);
    Quotient(validation, k as real, DECREASE_THRESHOLD);
  }

  lemma ScalesUp(p: real, low: real, k: real, least: real)
    requires 0.0 < low <= k && p * low >= least >= 0.0
    ensures p * k >= least && p >= 0.0
  {
    assert p < 0.0 ==> p * low < 0.0;
    assert p * k - p * low == p * (k - low);
  }

  lemma ScalesUpStrictly(p: real, low: real, k: real, least: real)
    requires 0.0 < low <= k && p * low > least >= 0.0
    ensures p * k > least
  {
    ScalesUp(p, low, k, p * low);
  }

  /** What tuning says at every interval in range. */
  lemma TunedAt(cfg: Config, k: int)
    requires Tuned(cfg) && InRange(cfg, k)
    ensures k > 0
    ensures Scaled(k as real, 1.0 - cfg.rampUp) <= k as real - 1.0
    ensures 2.0 * Scaled(k as real, 1.0 - cfg.rampUp) >= k as real + 2.0 * CEILING_SLACK
    ensures k as real + CEILING_SLACK < Scaled(k as real, 1.0 + cfg.rampDown) <= 2.0 * k as real - 1.0
  {
    var low, c := LowestInterval(cfg) as real, k as real;
    ScalesUp(cfg.rampUp, low, c, 1.0);
    ScalesUp(1.0 - 2.0 * cfg.rampUp, low, c, 2.0 * CEILING_SLACK);
    ScalesUpStrictly(cfg.rampDown, low, c, CEILING_SLACK);
    ScalesUp(1.0 - cfg.rampDown, low, c, 1.0);
    Expand(c, cfg.rampUp, cfg.rampDown);
  }

  lemma Expand(c: real, up: real, down: real)
    ensures Scaled(c, 1.0 - up) == c - up * c && (1.0 - 2.0 * up) * c == c - 2.0 * (up * c)
    ensures Scaled(c, 1.0 + down) == c + down * c && (1.0 - down) * c == c - down * c
  {
  }

  // ----- one step

  /** Under stress the interval grows until the maximum, and not so far that it becomes slack. */
  lemma StressStep(cfg: Config, validation: real, k: int)
    requires Tuned(cfg) && InRange(cfg, k) && k > 0 && Stressed(validation, k as real)
    ensures var next := NextInterval(cfg, validation, k);
            && InRange(cfg, next) && next > 0 && !Slack(validation, next as real)
            && (k < UpperBound(cfg) ==> next > k) && (k == UpperBound(cfg) ==> next == k)
  {
    TunedAt(cfg, k);
    var aim := BoundClamp(cfg, Target(cfg, validation, k as real)) - CEILING_SLACK;
    CeilingBounds(aim);
    CeilingLeast(aim, k);
    CeilingLeast(aim, k - 1);
    CeilingLeast(aim, UpperBound(cfg));
    Sides(validation, k);
    Sides(validation, NextInterval(cfg, validation, k));
  }

  /** In slack the interval shrinks until the floor, and not so far that it becomes stressed. */
  lemma SlackStep(cfg: Config, validation: real, k: int)
    requires Tuned(cfg) && InRange(cfg, k) && k > 0 && Slack(validation, k as real)
    ensures var next := NextInterval(cfg, validation, k);
            && InRange(cfg, next) && next > 0 && !Stressed(validation, next as real)
            && (k > LowestInterval(cfg) ==> next < k) && (k == LowestInterval(cfg) ==> next == k)
  {
    TunedAt(cfg, k);
    var aim := BoundClamp(cfg, Target(cfg, validation, k as real)) - CEILING_SLACK;
    CeilingBounds(aim);
    CeilingBounds(AdaptiveFloor(cfg) - CEILING_SLACK);
    CeilingLeast(aim, k - 1);
    CeilingLeast(aim, LowestInterval(cfg));
    CeilingLeast(aim, LowestInterval(cfg) - 1);
    Sides(validation, k);
    Sides(validation, NextInterval(cfg, validation, k));
  }

  lemma QuietStep(cfg: Config, validation: real, k: int)
    requires InRange(cfg, k) && k > 0 && !Stressed(validation, k as real) && !Slack(validation, k as real)
    ensures NextInterval(cfg, validation, k) == k
  {
    CeilingBounds(AdaptiveFloor(cfg) - CEILING_SLACK);
    CeilingLeast(k as real - CEILING_SLACK, k);
    CeilingLeast(k as real - CEILING_SLACK, k - 1);
  }

  /** The interval stays put exactly when nothing is left to do: bounded under stress, at the floor in slack. */
  lemma SettledIff(cfg: Config, validation: real, k: int)
    requires Tuned(cfg) && InRange(cfg, k) && k > 0
    ensures NextInterval(cfg, validation, k) == k
            <==> (Stressed(validation, k as real) ==> k == UpperBound(cfg))
                 && (Slack(validation, k as real) ==> k == LowestInterval(cfg))
  {
    if Stressed(validation, k as real) {
      StressStep(cfg, validation, k);
    } else if Slack(validation, k as real) {
      SlackStep(cfg, validation, k);
    } else {
      QuietStep(cfg, validation, k);
    }
  }

  lemma NextInRange(cfg: Config, validation: real, k: int)
    requires Tuned(cfg) && InRange(cfg, k)
    ensures k > 0 && InRange(cfg, NextInterval(cfg, validation, k))
  {
    TunedAt(cfg, k);
    if Stressed(validation, k as real) {
      StressStep(cfg, validation, k);
    } else if Slack(validation, k as real) {
      SlackStep(cfg, validation, k);
    } else {
      QuietStep(cfg, validation, k);
    }
  }

  // ----- whole runs

  /** The interval after `n` adjustments at constant validation time. */
  ghost function After(cfg: Config, validation: real, k: int, n: nat): (later: int)
    requires Tuned(cfg) && InRange(cfg, k)
    ensures InRange(cfg, later) && k > 0
    decreases n
  {
    NextInRange(cfg, validation, k);
    if n == 0 then k else After(cfg, validation, NextInterval(cfg, validation, k), n - 1)
  }

  /** How far the interval is from where the current side drives it. */
  ghost function Distance(cfg: Config, validation: real, k: int): (d: int)
    requires k != 0
  {
    if Stressed(validation, k as real) then UpperBound(cfg) - k
    else if Slack(validation, k as real) then k - LowestInterval(cfg)
    else 0
  }

  lemma StepGetsCloser(cfg: Config, validation: real, k: int)
    requires Tuned(cfg) && InRange(cfg, k) && k > 0
    ensures var next := NextInterval(cfg, validation, k);
            && InRange(cfg, next) && next > 0
            && (next != k ==> Distance(cfg, validation, next) < Distance(cfg, validation, k))
  {
    if Stressed(validation, k as real) {
      StressStep(cfg, validation, k);
    } else if Slack(validation, k as real) {
      SlackStep(cfg, validation, k);
    } else {
      QuietStep(cfg, validation, k);
    }
  }

  /** Once settled, settled for good. */
  lemma {:induction false} SettledStays(cfg: Config, validation: real, k: int, n: nat)
    requires Tuned(cfg) && InRange(cfg, k) && k > 0 && NextInterval(cfg, validation, k) == k
    ensures After(cfg, validation, k, n) == k
  {
    if n > 0 {
      SettledStays(cfg, validation, k, n - 1);
    }
  }

  /** The run settles within as many steps as there are seconds left to go. */
  lemma {:induction false} RunSettles(cfg: Config, validation: real, k: int, n: nat)
    requires Tuned(cfg) && InRange(cfg, k) && k > 0 && n >= Distance(cfg, validation, k)
    ensures var last := After(cfg, validation, k, n);
            last > 0 && NextInterval(cfg, validation, last) == last
    decreases n
  {
    StepGetsCloser(cfg, validation, k);
    var next := NextInterval(cfg, validation, k);
    if next == k {
      SettledStays(cfg, validation, k, n);
    } else if n == 0 {
      SettledIff(cfg, validation, k);
    } else {
      RunSettles(cfg, validation, next, n - 1);
    }
  }

  /** Whatever the start and the validation time, the width of the range is enough steps. */
  lemma EveryRunSettles(cfg: Config, validation: real, k: int, n: nat)
    requires Tuned(cfg) && InRange(cfg, k) && k > 0 && n >= UpperBound(cfg) - LowestInterval(cfg)
    ensures var last := After(cfg, validation, k, n);
            && last > 0 && NextInterval(cfg, validation, last) == last
            && (Stressed(validation, last as real) ==> last == UpperBound(cfg))
            && (Slack(validation, last as real) ==> last == LowestInterval(cfg))
  {
    RunSettles(cfg, validation, k, n);
    SettledIff(cfg, validation, After(cfg, validation, k, n));
  }

  /** From a start that is not slack the interval never shrinks and never becomes slack. */
  lemma {:induction false} StressRunsRise(cfg: Config, validation: real, k: int, n: nat)
    requires Tuned(cfg) && InRange(cfg, k) && k > 0 && !Slack(validation, k as real)
    ensures var later := After(cfg, validation, k, n);
            later > 0 && later >= k && !Slack(validation, later as real)
            && NextInterval(cfg, validation, later) >= later
    decreases n
  {
    if Stressed(validation, k as real) {
      StressStep(cfg, validation, k);
    } else {
      QuietStep(cfg, validation, k);
    }
    if n > 0 {
      StressRunsRise(cfg, validation, NextInterval(cfg, validation, k), n - 1);
    }
  }

  /** From a start that is not stressed the interval never grows and never becomes stressed. */
  lemma {:induction false} SlackRunsFall(cfg: Config, validation: real, k: int, n: nat)
    requires Tuned(cfg) && InRange(cfg, k) && k > 0 && !Stressed(validation, k as real)
    ensures var later := After(cfg, validation, k, n);
            later > 0 && later <= k && !Stressed(validation, later as real)
            && NextInterval(cfg, validation, later) <= later
    decreases n
  {
    if Slack(validation, k as real) {
      SlackStep(cfg, validation, k);
    } else {
      QuietStep(cfg, validation, k);
    }
    if n > 0 {
      SlackRunsFall(cfg, validation, NextInterval(cfg, validation, k), n - 1);
    }
  }

  // ----- why the steps must be large enough

  /** Fast validation shortens an interval above the floor exactly when the step makes up a whole second. */
  lemma ShortensIff(cfg: Config, validation: real, k: int)
    requires k > 0 && Slack(validation, k as real) && LowestInterval(cfg) < k <= UpperBound(cfg)
    ensures NextInterval(cfg, validation, k) < k <==> Scaled(k as real, cfg.rampUp) >= 1.0 - CEILING_SLACK
  {
    Sides(validation, k);
    Complement(k as real, cfg.rampUp);
    CeilingBounds(AdaptiveFloor(cfg) - CEILING_SLACK);
    CeilingLeast(BoundClamp(cfg, Target(cfg, validation, k as real)) - CEILING_SLACK, k - 1);
  }

  lemma Complement(c: real, p: real)
    ensures Scaled(c, 1.0 - p) == c - Scaled(c, p) && Scaled(c, 1.0 + p) == c + Scaled(c, p)
  {
  }

  /** Slow validation lengthens an interval below the maximum exactly when the step exceeds the ceiling's slack. */
  lemma LengthensIff(cfg: Config, validation: real, k: int)
    requires k > 0 && Stressed(validation, k as real) && cfg.minBlockTime <= k < UpperBound(cfg)
    ensures NextInterval(cfg, validation, k) > k <==> Scaled(k as real, cfg.rampDown) > CEILING_SLACK
  {
    Sides(validation, k);
    Complement(k as real, cfg.rampDown);
    CeilingLeast(BoundClamp(cfg, Target(cfg, validation, k as real)) - CEILING_SLACK, k);
  }
}
