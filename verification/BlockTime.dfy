/**
  The adaptive block-time controller: lengthen the interval when validation is slow, shorten it when
  validation is fast, stay inside the bounds, and settle.
 */
module BlockTime {

  import opened Basics

  const CEILING_SLACK := 0.000000001
  const FLOOR_SLACK := 0.000001
  const CLAMP_SLACK := 0.001
  const INCREASE_THRESHOLD := 0.8
  const DECREASE_THRESHOLD := 0.4

  /** The consensus bounds are whole seconds; the adaptive floor need not be. */
  datatype Config = Config(minBlockTime: int, maxBlockTime: int, adaptiveFloor: real, rampUp: real, rampDown: real)

  datatype Cause = Overloaded | AtMinimum | Underloaded | OptimalRange

  /** Why an interval was chosen, and whether the bounds then moved it. */
  datatype Reason = Reason(cause: Cause, clamped: bool)

  function Scaled(seconds: real, factor: real): real { seconds * factor }

  function UpperBound(cfg: Config): int {
    if cfg.maxBlockTime < cfg.minBlockTime then cfg.minBlockTime else cfg.maxBlockTime
  }

  function BoundClamp(cfg: Config, seconds: real): real {
    Max(cfg.minBlockTime as real, Min(seconds, UpperBound(cfg) as real))
  }

  function Ceiling(x: real): int { -(-x).Floor }

  function WholeSecondsCeil(seconds: real): real { Ceiling(seconds - CEILING_SLACK) as real }

  function ClampBlockTime(cfg: Config, seconds: real): real { WholeSecondsCeil(BoundClamp(cfg, seconds)) }

  /** The lowest interval that fast validation leads to. */
  function AdaptiveFloor(cfg: Config): real { Max(cfg.minBlockTime as real, cfg.adaptiveFloor) }

  predicate Stressed(validation: real, current: real)
    requires current != 0.0
  {
    validation / current > INCREASE_THRESHOLD
  }

  predicate Slack(validation: real, current: real)
    requires current != 0.0
  {
    validation / current < DECREASE_THRESHOLD
  }

  /** The interval aimed at, before bounds and whole seconds. */
  function Target(cfg: Config, validation: real, current: real): real
    requires current != 0.0
  {
    if Stressed(validation, current) then Scaled(current, 1.0 + cfg.rampDown)
    else if Slack(validation, current) then Max(AdaptiveFloor(cfg), Scaled(current, 1.0 - cfg.rampUp))
    else current
  }

  function Step(cfg: Config, validation: real, current: real): real
    requires current != 0.0
  {
    ClampBlockTime(cfg, Target(cfg, validation, current))
  }

  function Away(a: real, b: real): real { if a < b then b - a else a - b }

  function CauseOf(cfg: Config, validation: real, current: real): Cause
    requires current != 0.0
  {
    if Stressed(validation, current) then Overloaded
    else if !Slack(validation, current) then OptimalRange
    else if Target(cfg, validation, current) <= AdaptiveFloor(cfg) + FLOOR_SLACK then AtMinimum
    else Underloaded
  }

  /** What the reported cause says about the interval aimed at, shrinking ramps and positive intervals assumed. */
  lemma CauseTells(cfg: Config, validation: real, current: real)
    requires current > 0.0 && cfg.rampDown > 0.0 && 0.0 < cfg.rampUp < 1.0
    ensures var target := Target(cfg, validation, current);
            match CauseOf(cfg, validation, current)
            case Overloaded => target > current
            case OptimalRange => target == current
            case AtMinimum => AdaptiveFloor(cfg) <= target <= AdaptiveFloor(cfg) + FLOOR_SLACK
            case Underloaded => AdaptiveFloor(cfg) < target < current
  {
    RampMoves(current, cfg.rampDown, cfg.rampUp);
  }

  lemma RampMoves(current: real, longer: real, shorter: real)
    requires current > 0.0 && longer > 0.0 && 0.0 < shorter < 1.0
    ensures Scaled(current, 1.0 + longer) > current > Scaled(current, 1.0 - shorter)
  {
  }

  // ----- rounding and bounds

  lemma CeilingBounds(x: real)
    ensures x <= Ceiling(x) as real < x + 1.0
  {
  }

  lemma CeilingLeast(x: real, k: int)
    ensures Ceiling(x) <= k <==> x <= k as real
  {
    CeilingBounds(x);
  }

  /** Every clamped interval is a whole number of seconds inside the consensus bounds. */
  lemma ClampIsWholeAndBounded(cfg: Config, seconds: real)
    ensures ClampBlockTime(cfg, seconds) == Ceiling(BoundClamp(cfg, seconds) - CEILING_SLACK) as real
    ensures cfg.minBlockTime <= Ceiling(BoundClamp(cfg, seconds) - CEILING_SLACK) <= UpperBound(cfg)
  {
    CeilingLeast(BoundClamp(cfg, seconds) - CEILING_SLACK, UpperBound(cfg));
    CeilingLeast(BoundClamp(cfg, seconds) - CEILING_SLACK, cfg.minBlockTime - 1);
  }

  /** Clamping a whole interval inside the bounds changes nothing, so clamping twice is clamping once. */
  lemma ClampKeeps(cfg: Config, k: int)
    requires cfg.minBlockTime <= k <= UpperBound(cfg)
    ensures ClampBlockTime(cfg, k as real) == k as real
  {
    CeilingLeast(k as real - CEILING_SLACK, k);
    CeilingLeast(k as real - CEILING_SLACK, k - 1);
  }

  lemma ClampTwice(cfg: Config, seconds: real)
    ensures ClampBlockTime(cfg, ClampBlockTime(cfg, seconds)) == ClampBlockTime(cfg, seconds)
  {
    ClampIsWholeAndBounded(cfg, seconds);
    ClampKeeps(cfg, Ceiling(BoundClamp(cfg, seconds) - CEILING_SLACK));
  }

  class DynamicBlockTimeManager {
    const cfg: Config
    var currentBlockTimeSeconds: real

    constructor (cfg: Config, trainingBlockTimeMinutes: real)
      ensures this.cfg == cfg
      ensures currentBlockTimeSeconds == ClampBlockTime(cfg, WholeSecondsCeil(trainingBlockTimeMinutes * 60.0))
    {
      var initial := ClampBlockTime(cfg, WholeSecondsCeil(trainingBlockTimeMinutes * 60.0));
      ClampTwice(cfg, WholeSecondsCeil(trainingBlockTimeMinutes * 60.0));
      this.cfg := cfg;
      currentBlockTimeSeconds := ClampBlockTime(cfg, initial);
    }

    /** One adjustment; without a given interval it starts from the stored one. */
    method AdjustBlockTimeAdaptive(validation: real, given: Option<real>) returns (newBlockTime: real, reason: Reason)
      requires (if given.Some? then given.value else currentBlockTimeSeconds) != 0.0
      modifies `currentBlockTimeSeconds
      ensures newBlockTime == Step(cfg, validation, if given.Some? then given.value else old(currentBlockTimeSeconds))
      ensures currentBlockTimeSeconds == newBlockTime
      ensures var current := if given.Some? then given.value else old(currentBlockTimeSeconds);
              var target := Target(cfg, validation, current);
              reason == Reason(CauseOf(cfg, validation, current), Away(target, BoundClamp(cfg, target)) > CLAMP_SLACK)
    {
      var current := if given.Some? then given.value else currentBlockTimeSeconds;
      var cause;
      if validation / current > INCREASE_THRESHOLD {
        newBlockTime, cause := Scaled(current, 1.0 + cfg.rampDown), Overloaded;
      } else if validation / current < DECREASE_THRESHOLD {
        var floor := Max(cfg.minBlockTime as real, cfg.adaptiveFloor);
        newBlockTime := Max(floor, Scaled(current, 1.0 - cfg.rampUp));
        cause := if newBlockTime <= floor + FLOOR_SLACK then AtMinimum else Underloaded;
      } else {
        newBlockTime, cause := current, OptimalRange;
      }
      var bound := BoundClamp(cfg, newBlockTime);
      reason := Reason(cause, Away(newBlockTime, bound) > CLAMP_SLACK);
      newBlockTime := WholeSecondsCeil(bound);
      currentBlockTimeSeconds := newBlockTime;
    }
  }
}
