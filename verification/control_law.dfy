/** The intervention decision: one function whose gates come in a fixed order. */
module ControlLaw {
  import opened Sequences
  import opened ProcessState
  import opened Simulation

  datatype Arm = Open | Closed

  datatype Config = Config(
    enabled: bool,
    thresholds: Thresholds,
    cooldown: real,
    holdProbability: real,
    jitter: real)

  datatype Action = Intervene | Withhold | Skip

  datatype Reason =
    | InProductiveRegime
    | DwellBelowThreshold
    | InterventionsDisabled
    | CoolingDown
    | OpenArm
    | MrtHold
    | MrtIntervene
    | ThresholdReached

  datatype Decision = Decision(action: Action, reason: Reason)

  /** The configured threshold; a regime missing from the configuration has threshold zero. */
  function ThresholdFor(cfg: Config, regime: Regime): real {
    if regime in cfg.thresholds then cfg.thresholds[regime] else 0.0
  }

  /** The threshold in force: the spell's own under the randomised trial, else the configured one. */
  function InForce(cfg: Config, regime: Regime, mrtThreshold: Option<real>): real {
    if mrtThreshold.Some? then mrtThreshold.value else ThresholdFor(cfg, regime)
  }

  /** The cooldown check that the monitor repeats before assembling an intervention, on a clock reading
      of its own. */
  predicate ShouldTrigger(cfg: Config, last: Option<real>, now: real) {
    cfg.enabled && (last.Some? ==> now - last.value >= cfg.cooldown)
  }

  /** A cycle is a decision point exactly when the bad regime has lasted long enough and the monitor's
      repeated check would let it through. Up to there neither the arm nor the draw plays a part; from
      there on only they decide, and the arm comes first. */
  function ShouldIntervene(regime: ProcessRegime, dwell: real, arm: Arm, last: Option<real>, cfg: Config,
                           now: real, mrtThreshold: Option<real>, holdDraw: Option<real>): (d: Decision)
    ensures d.action != Skip <==>
              IsBad(regime) && dwell >= InForce(cfg, regime, mrtThreshold) && ShouldTrigger(cfg, last, now)
    ensures d.reason == InProductiveRegime <==> regime == Productive
    ensures d.reason == DwellBelowThreshold <==> IsBad(regime) && dwell < InForce(cfg, regime, mrtThreshold)
    ensures d.reason == InterventionsDisabled <==>
              IsBad(regime) && dwell >= InForce(cfg, regime, mrtThreshold) && !cfg.enabled
    ensures d.reason == CoolingDown <==>
              && IsBad(regime) && dwell >= InForce(cfg, regime, mrtThreshold)
              && cfg.enabled && !ShouldTrigger(cfg, last, now)
    ensures d.reason == OpenArm <==> d.action == Withhold && arm == Open
    ensures d.action != Skip && arm == Closed ==>
              (d.action == Withhold <==> holdDraw.Some? && holdDraw.value < cfg.holdProbability)
    ensures d.reason == MrtHold <==> d.action == Withhold && arm != Open
    ensures d.reason == MrtIntervene <==> d.action == Intervene && holdDraw.Some?
    ensures d.reason == ThresholdReached <==> d.action == Intervene && holdDraw == None
  {
    if !IsBad(regime) then Decision(Skip, InProductiveRegime)
    else if dwell < InForce(cfg, regime, mrtThreshold) then Decision(Skip, DwellBelowThreshold)
    else if !cfg.enabled then Decision(Skip, InterventionsDisabled)
    else if last.Some? && now - last.value < cfg.cooldown then Decision(Skip, CoolingDown)
    else if arm == Open then Decision(Withhold, OpenArm)
    else if holdDraw.Some? && holdDraw.value < cfg.holdProbability then Decision(Withhold, MrtHold)
    else Decision(Intervene, if holdDraw.Some? then MrtIntervene else ThresholdReached)
  }

  /** The repeated check can no longer fail once the control law has decided to intervene. */
  lemma SecondCooldownCheckPasses(
      regime: ProcessRegime, dwell: real, arm: Arm, last: Option<real>, cfg: Config, now: real,
      mrtThreshold: Option<real>, holdDraw: Option<real>, later: real)
    requires ShouldIntervene(regime, dwell, arm, last, cfg, now, mrtThreshold, holdDraw).action == Intervene
    requires now <= later
    ensures ShouldTrigger(cfg, last, later)
  {
  }
}
