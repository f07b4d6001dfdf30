/** The live control loop, cycle by cycle, and its agreement with the offline simulator. */
module LiveLoop {
  import opened Sequences
  import opened ProcessState
  import opened Simulation
  import opened ControlLaw

  /** What one analysis cycle decides on; `authorized` is the verdict of the act gates, should they be
      asked. */
  datatype Cycle = Cycle(ts: real, regime: ProcessRegime, dwell: real, authorized: bool)

  datatype EventKind = Intervention | WouldIntervene

  datatype Event = Event(ts: real, kind: EventKind)

  /** What the loop has done so far: the stamp its cooldown runs from, the cycles it acted on, and the
      behavioural events it wrote. */
  datatype Memory = Memory(last: Option<real>, acted: seq<nat>, events: seq<Event>)

  function Act(m: Memory, n: nat, ts: real, kind: EventKind): Memory {
    Memory(Some(ts), m.acted + [n], m.events + [Event(ts, kind)])
  }

  function Step(cfg: Config, arm: Arm, m: Memory, n: nat, c: Cycle): Memory {
    match ShouldIntervene(c.regime, c.dwell, arm, m.last, cfg, c.ts, None, None).action
    case Skip => m
    case Withhold => Act(m, n, c.ts, WouldIntervene)
    case Intervene => if c.authorized then Act(m, n, c.ts, Intervention) else m
  }

  function Live(cfg: Config, arm: Arm, cycles: seq<Cycle>): Memory {
    if cycles == [] then Memory(None, [], [])
    else
      var n := |cycles| - 1;
      Step(cfg, arm, Live(cfg, arm, cycles[..n]), n, cycles[n])
  }

  lemma LiveSnoc(cfg: Config, arm: Arm, cycles: seq<Cycle>, c: Cycle)
    ensures Live(cfg, arm, cycles + [c]) == Step(cfg, arm, Live(cfg, arm, cycles), |cycles|, c)
  {
    assert (cycles + [c])[..|cycles|] == cycles;
  }

  /** The cycles of a monitor whose act gates answer `verdicts`, dwell times as the tracker reports them. */
  function CyclesOf(obs: seq<Observation>, verdicts: seq<bool>): (cycles: seq<Cycle>)
    requires |obs| == |verdicts|
    ensures |cycles| == |obs|
  {
    if obs == [] then []
    else
      var n := |obs| - 1;
      CyclesOf(obs[..n], verdicts[..n]) + [Cycle(obs[n].ts, obs[n].regime, Dwell(obs, n), verdicts[n])]
  }

  lemma CyclesSnoc(obs: seq<Observation>, verdicts: seq<bool>, c: Cycle)
    requires |obs| == |verdicts|
    requires c.dwell == Dwell(obs + [Observation(c.ts, c.regime)], |obs|)
    ensures CyclesOf(obs + [Observation(c.ts, c.regime)], verdicts + [c.authorized]) == CyclesOf(obs, verdicts) + [c]
  {
    var longer := obs + [Observation(c.ts, c.regime)];
    assert longer[..|obs|] == obs && (verdicts + [c.authorized])[..|obs|] == verdicts;
  }

  /** What the loop has done over these observations. */
  ghost function Past(cfg: Config, arm: Arm, obs: seq<Observation>, verdicts: seq<bool>): Memory
    requires |obs| == |verdicts|
  {
    Live(cfg, arm, CyclesOf(obs, verdicts))
  }

  lemma OneMoreCycle(cfg: Config, arm: Arm, obs: seq<Observation>, verdicts: seq<bool>, c: Cycle)
    requires |obs| == |verdicts|
    requires c.dwell == Dwell(obs + [Observation(c.ts, c.regime)], |obs|)
    ensures Past(cfg, arm, obs + [Observation(c.ts, c.regime)], verdicts + [c.authorized])
            == Step(cfg, arm, Past(cfg, arm, obs, verdicts), |obs|, c)
  {
    CyclesSnoc(obs, verdicts, c);
    LiveSnoc(cfg, arm, CyclesOf(obs, verdicts), c);
  }

  class SessionMonitor {
    const cfg: Config
    const arm: Arm
    const tracker: DwellTracker
    var lastInterventionAt: Option<real>
    var events: seq<Event>
    ghost var verdicts: seq<bool>

    /** The monitor's state is the fold of the control law over everything it has observed. */
    ghost predicate Valid()
      reads this, tracker
    {
      && tracker.Valid()
      && |tracker.seen| == |verdicts|
      && lastInterventionAt == Past(cfg, arm, tracker.seen, verdicts).last
      && events == Past(cfg, arm, tracker.seen, verdicts).events
    }

    constructor (cfg: Config, arm: Arm)
      ensures Valid() && verdicts == [] && this.cfg == cfg && this.arm == arm && fresh(tracker)
    {
      this.cfg, this.arm := cfg, arm;
      tracker := new DwellTracker();
      lastInterventionAt, events, verdicts := None, [], [];
    }

    /** `later` is the clock when the intervention is assembled and the cooldown checked once more. */
    method RunAnalysis(regime: ProcessRegime, now: real, later: real, authorized: bool)
      requires Valid() && now <= later
      modifies this, tracker
      ensures Valid()
      ensures tracker.seen == old(tracker.seen) + [Observation(now, regime)]
      ensures verdicts == old(verdicts) + [authorized]
    {
      ghost var obs, m := tracker.seen, Past(cfg, arm, tracker.seen, verdicts);
      var dwell := tracker.Observe(regime, now);
      OneMoreCycle(cfg, arm, obs, verdicts, Cycle(now, regime, dwell, authorized));
      verdicts := verdicts + [authorized];
      Dispatch(regime, dwell, now, later, authorized, m, |obs|);
    }

    /** The decision and what follows from it; `m` is the run so far. */
    method Dispatch(regime: ProcessRegime, dwell: real, now: real, later: real, authorized: bool,
                    ghost m: Memory, ghost n: nat)
      requires lastInterventionAt == m.last && events == m.events && now <= later
      modifies this`lastInterventionAt, this`events
      ensures var next := Step(cfg, arm, m, n, Cycle(now, regime, dwell, authorized));
              lastInterventionAt == next.last && events == next.events
    {
      var decision := ShouldIntervene(regime, dwell, arm, lastInterventionAt, cfg, now, None, None);
      match decision.action {
        case Skip =>
        case Withhold =>
          events := events + [Event(now, WouldIntervene)];
          lastInterventionAt := Some(now);
        case Intervene =>
          SecondCooldownCheckPasses(regime, dwell, arm, lastInterventionAt, cfg, now, None, None, later);
          if ShouldTrigger(cfg, lastInterventionAt, later) && authorized {
            lastInterventionAt := Some(now);
            events := events + [Event(now, Intervention)];
          }
      }
    }
  }

  // ----- what the loop does, cycle by cycle

  /** The events are the acted cycles: one each, at its time, of the kind the arm calls for; and the
      cooldown runs from the last of them. */
  ghost predicate TellsOf(m: Memory, arm: Arm, cycles: seq<Cycle>) {
    && |m.events| == |m.acted|
    && (forall k | 0 <= k < |m.acted| ::
          && m.acted[k] < |cycles|
          && m.events[k].ts == cycles[m.acted[k]].ts
          && m.events[k].kind == if arm == Open then WouldIntervene else Intervention)
    && (forall j, k | 0 <= j < k < |m.acted| :: m.acted[j] < m.acted[k])
    && m.last == if m.acted == [] then None else Some(cycles[m.acted[|m.acted| - 1]].ts)
  }

  lemma StepTells(cfg: Config, arm: Arm, m: Memory, earlier: seq<Cycle>, c: Cycle)
    requires TellsOf(m, arm, earlier)
    ensures TellsOf(Step(cfg, arm, m, |earlier|, c), arm, earlier + [c])
  {
  }

  lemma {:induction false} EventsTellOfActs(cfg: Config, arm: Arm, cycles: seq<Cycle>)
    ensures TellsOf(Live(cfg, arm, cycles), arm, cycles)
  {
    if cycles != [] {
      var n := |cycles| - 1;
      EventsTellOfActs(cfg, arm, cycles[..n]);
      StepTells(cfg, arm, Live(cfg, arm, cycles[..n]), cycles[..n], cycles[n]);
      assert cycles == cycles[..n] + [cycles[n]];
    }
  }

  ghost predicate NotDecreasing(cycles: seq<Cycle>) {
    forall a, b | 0 <= a < b < |cycles| :: cycles[a].ts <= cycles[b].ts
  }

  /** Everything acted on before cycle `k` is a cooldown away. */
  ghost predicate CooldownOver(cfg: Config, cycles: seq<Cycle>, acted: seq<nat>, k: nat)
    requires k < |cycles|
  {
    forall j | j in acted && j < k :: cycles[k].ts - cycles[j].ts >= cfg.cooldown
  }

  /** Cycle `k` is due: a bad regime has lasted to its threshold, interventions are on, the cooldown is over,
      and in the closed arm the gates agree. */
  ghost predicate Due(cfg: Config, arm: Arm, cycles: seq<Cycle>, acted: seq<nat>, k: nat)
    requires k < |cycles|
  {
    var c := cycles[k];
    && c.regime in {StuckOnStep, RepeatingErrors, Idle, TrialAndError}
    && c.dwell >= (if c.regime in cfg.thresholds then cfg.thresholds[c.regime] else 0.0)
    && cfg.enabled
    && CooldownOver(cfg, cycles, acted, k)
    && (arm == Open || c.authorized)
  }

  lemma CooldownFromLast(cfg: Config, arm: Arm, cycles: seq<Cycle>, m: Memory, n: nat)
    requires NotDecreasing(cycles) && n < |cycles| && TellsOf(m, arm, cycles[..n])
    ensures CooldownOver(cfg, cycles, m.acted, n) <==> m.last == None || cycles[n].ts - m.last.value >= cfg.cooldown
  {
    if m.acted != [] {
      var last := m.acted[|m.acted| - 1];
      assert last in m.acted && last < n && m.last == Some(cycles[last].ts);
      forall j | j in m.acted
        ensures j < n && cycles[j].ts <= cycles[last].ts
      {
        var i :| 0 <= i < |m.acted| && m.acted[i] == j;
      }
    }
  }

  lemma StepActs(cfg: Config, arm: Arm, m: Memory, n: nat, c: Cycle, over: bool)
    requires over <==> m.last == None || c.ts - m.last.value >= cfg.cooldown
    ensures var due := && c.regime in {StuckOnStep, RepeatingErrors, Idle, TrialAndError}
                       && c.dwell >= (if c.regime in cfg.thresholds then cfg.thresholds[c.regime] else 0.0)
                       && cfg.enabled && over && (arm == Open || c.authorized);
            Step(cfg, arm, m, n, c).acted == m.acted + if due then [n] else []
  {
  }

  lemma SameBelow(cfg: Config, arm: Arm, cycles: seq<Cycle>, n: nat, a: seq<nat>, b: seq<nat>, k: nat)
    requires k < n <= |cycles| && forall j | j < k :: j in a <==> j in b
    ensures Due(cfg, arm, cycles, a, k) <==> Due(cfg, arm, cycles[..n], b, k)
  {
  }

  lemma LastCycleActs(cfg: Config, arm: Arm, cycles: seq<Cycle>)
    requires NotDecreasing(cycles) && cycles != []
    ensures var n := |cycles| - 1;
            var before := Live(cfg, arm, cycles[..n]).acted;
            && Live(cfg, arm, cycles).acted == before + (if Due(cfg, arm, cycles, before, n) then [n] else [])
            && forall j | j in before :: j < n
  {
    var n := |cycles| - 1;
    var m := Live(cfg, arm, cycles[..n]);
    EventsTellOfActs(cfg, arm, cycles[..n]);
    CooldownFromLast(cfg, arm, cycles, m, n);
    StepActs(cfg, arm, m, n, cycles[n], CooldownOver(cfg, cycles, m.acted, n));
  }

  /** On a clock that does not run back the loop acts on exactly the due cycles. */
  lemma {:induction false} ActsIffDue(cfg: Config, arm: Arm, cycles: seq<Cycle>, k: nat)
    requires NotDecreasing(cycles) && k < |cycles|
    ensures var acted := Live(cfg, arm, cycles).acted;
            k in acted <==> Due(cfg, arm, cycles, acted, k)
  {
    var n := |cycles| - 1;
    var before, after := Live(cfg, arm, cycles[..n]).acted, Live(cfg, arm, cycles).acted;
    LastCycleActs(cfg, arm, cycles);
    if k < n {
      ActsIffDue(cfg, arm, cycles[..n], k);
      SameBelow(cfg, arm, cycles, n, after, before, k);
    } else {
      SameBelow(cfg, arm, cycles, n + 1, before, after, n);
      assert cycles[..n + 1] == cycles;
    }
  }

  // ----- agreement with the simulator

  /** The log that these cycles leave behind for the offline tools. */
  function LogOf(cycles: seq<Cycle>): seq<Sample> {
    if cycles == [] then []
    else
      var c := cycles[|cycles| - 1];
      LogOf(cycles[..|cycles| - 1]) + [Sample(c.ts, c.regime, c.dwell)]
  }

  lemma {:induction false} LogIsTrace(obs: seq<Observation>, verdicts: seq<bool>)
    requires |obs| == |verdicts|
    ensures LogOf(CyclesOf(obs, verdicts)) == Trace(obs)
  {
    if obs != [] {
      var n := |obs| - 1;
      var earlier := CyclesOf(obs[..n], verdicts[..n]);
      LogIsTrace(obs[..n], verdicts[..n]);
      assert CyclesOf(obs, verdicts)[..|earlier|] == earlier;
    }
  }

  ghost predicate AllAuthorized(cycles: seq<Cycle>) {
    forall c | c in cycles :: c.authorized
  }

  /** The live law and the simulator look up thresholds alike: every bad regime has one, or, with
      interventions switched off, none has. */
  ghost predicate SameThresholds(cfg: Config) {
    forall r | IsBadRegime(r) :: r in cfg.thresholds <==> cfg.enabled
  }

  ghost predicate StampOfLast(last: Option<real>, fires: seq<real>) {
    last == if fires == [] then None else Some(fires[|fires| - 1])
  }

  lemma StepMatchesSimulator(cfg: Config, m: Memory, n: nat, c: Cycle, prior: seq<real>)
    requires SameThresholds(cfg) && c.authorized && StampOfLast(m.last, prior)
    ensures var fires := MayFire(Sample(c.ts, c.regime, c.dwell), prior, cfg.thresholds, cfg.cooldown);
            Step(cfg, Closed, m, n, c) == if fires then Act(m, n, c.ts, Intervention) else m
  {
    assert IsBad(c.regime) <==> IsBadRegime(c.regime);
  }

  lemma {:induction false} LiveMatchesSimulator(cfg: Config, cycles: seq<Cycle>)
    requires SameThresholds(cfg) && AllAuthorized(cycles)
    ensures |LogOf(cycles)| == |cycles|
    ensures Live(cfg, Closed, cycles).acted == FireIndices(LogOf(cycles), cfg.thresholds, cfg.cooldown)
    ensures StampOfLast(Live(cfg, Closed, cycles).last, Fires(LogOf(cycles), cfg.thresholds, cfg.cooldown))
  {
    if cycles != [] {
      var n := |cycles| - 1;
      var log := LogOf(cycles);
      LiveMatchesSimulator(cfg, cycles[..n]);
      assert log[..n] == LogOf(cycles[..n]);
      StepMatchesSimulator(cfg, Live(cfg, Closed, cycles[..n]), n, cycles[n],
                           Fires(log[..n], cfg.thresholds, cfg.cooldown));
    }
  }

  /** Every intervention of an always authorised live loop, and nothing else, is a firing of the
      simulator on the log. */
  ghost predicate Agree(cfg: Config, obs: seq<Observation>) {
    Live(cfg, Closed, CyclesOf(obs, Granted(|obs|))).acted == FireIndices(Trace(obs), cfg.thresholds, cfg.cooldown)
  }

  function Granted(n: nat): seq<bool> {
    seq(n, _ => true)
  }

  lemma {:induction false} GrantedAreAuthorized(obs: seq<Observation>)
    ensures AllAuthorized(CyclesOf(obs, Granted(|obs|)))
  {
    if obs != [] {
      var n := |obs| - 1;
      assert Granted(|obs|)[..n] == Granted(n);
      GrantedAreAuthorized(obs[..n]);
    }
  }

  /** With interventions on, a bad regime without a threshold: the live law falls back to zero and fires
      on the very first cycle, the simulator never does. */
  lemma UnregulatedRegimeParts(cfg: Config, regime: ProcessRegime)
    requires IsBadRegime(regime) && cfg.enabled && regime !in cfg.thresholds
    ensures !Agree(cfg, [Observation(0.0, regime)])
  {
    var obs := [Observation(0.0, regime)];
    var c := Cycle(0.0, regime, 0.0, true);
    CyclesSnoc([], [], c);
    LiveSnoc(cfg, Closed, [], c);
    assert [] + obs == obs && [] + [true] == Granted(1) && [] + [c] == [c];
    assert CyclesOf(obs, Granted(1)) == [c] && Live(cfg, Closed, [c]).acted == [0];
    TraceAt(obs, 0);
    assert !Eligible(Trace(obs)[0], cfg.thresholds);
    assert FireIndices(Trace(obs), cfg.thresholds, cfg.cooldown) == FireIndices(Trace(obs)[..0], cfg.thresholds, cfg.cooldown);
  }

  lemma {:induction false} DisabledNeverActs(cfg: Config, arm: Arm, cycles: seq<Cycle>)
    requires !cfg.enabled
    ensures Live(cfg, arm, cycles).acted == []
  {
    if cycles != [] {
      DisabledNeverActs(cfg, arm, cycles[..|cycles| - 1]);
    }
  }

  /** With interventions off, a bad regime with a threshold: the simulator fires once the regime has
      lasted that long. */
  lemma SimulatorIgnoresTheSwitch(cfg: Config, regime: ProcessRegime, wait: real)
    requires IsBadRegime(regime) && !cfg.enabled && regime in cfg.thresholds
    requires wait >= cfg.thresholds[regime]
    ensures !Agree(cfg, [Observation(0.0, regime), Observation(wait, regime)])
  {
    var obs := [Observation(0.0, regime), Observation(wait, regime)];
    DisabledNeverActs(cfg, Closed, CyclesOf(obs, Granted(2)));
    TraceAt(obs, 1);
    assert RunStart(obs, 1) == 0;
    assert Eligible(Trace(obs)[1], cfg.thresholds);
    SomeEligibleMeansSomeFire(Trace(obs), cfg.thresholds, cfg.cooldown, 1);
  }

  /** The simulator agrees with the live law on every run exactly when they look up thresholds alike.
      A single bad regime without a threshold is enough to part them: the live law falls back to
      zero and fires at once, the simulator never does. */
  lemma SimulatorAgreesIffSameThresholds(cfg: Config)
    ensures (forall obs | Clocked(obs) :: Agree(cfg, obs)) <==> SameThresholds(cfg)
  {
    if SameThresholds(cfg) {
      forall obs | Clocked(obs)
        ensures Agree(cfg, obs)
      {
        GrantedAreAuthorized(obs);
        LogIsTrace(obs, Granted(|obs|));
        LiveMatchesSimulator(cfg, CyclesOf(obs, Granted(|obs|)));
      }
    } else {
      var regime: Regime :| IsBadRegime(regime) && cfg.enabled != (regime in cfg.thresholds);
      if cfg.enabled {
        UnregulatedRegimeParts(cfg, regime);
        assert Clocked([Observation(0.0, regime)]);
      } else {
        var wait := if cfg.thresholds[regime] > 1.0 then cfg.thresholds[regime] else 1.0;
        SimulatorIgnoresTheSwitch(cfg, regime, wait);
        assert Clocked([Observation(0.0, regime), Observation(wait, regime)]);
      }
    }
  }

  /** Two runs that differ only in what the act gates answer. */
  ghost predicate SameCycles(a: seq<Cycle>, b: seq<Cycle>) {
    |a| == |b| && forall k | 0 <= k < |a| :: a[k].(authorized := true) == b[k].(authorized := true)
  }

  ghost predicate Shadows(open: Memory, closed: Memory) {
    && open.last == closed.last
    && open.acted == closed.acted
    && |open.events| == |closed.events|
    && forall k | 0 <= k < |open.events| ::
         open.events[k] == Event(closed.events[k].ts, WouldIntervene) && closed.events[k].kind == Intervention
  }

  lemma StepShadows(cfg: Config, open: Memory, closed: Memory, n: nat, a: Cycle, b: Cycle)
    requires Shadows(open, closed) && b.authorized && a.(authorized := true) == b
    ensures Shadows(Step(cfg, Open, open, n, a), Step(cfg, Closed, closed, n, b))
  {
  }

  /** The open arm records a would-be intervention on exactly the cycles on which the closed arm, always
      authorised, makes one; and it never makes one itself. */
  lemma {:induction false} OpenArmShadowsClosedArm(cfg: Config, cycles: seq<Cycle>, granted: seq<Cycle>)
    requires AllAuthorized(granted) && SameCycles(cycles, granted)
    ensures Shadows(Live(cfg, Open, cycles), Live(cfg, Closed, granted))
  {
    if cycles != [] {
      var n := |cycles| - 1;
      OpenArmShadowsClosedArm(cfg, cycles[..n], granted[..n]);
      StepShadows(cfg, Live(cfg, Open, cycles[..n]), Live(cfg, Closed, granted[..n]), n, cycles[n], granted[n]);
    }
  }

  lemma StepActsOnlyWhenDue(cfg: Config, m: Memory, n: nat, c: Cycle)
    requires cfg.enabled && SameThresholds(cfg)
    ensures var next := Step(cfg, Closed, m, n, c);
            next != m ==>
              && next == Act(m, n, c.ts, Intervention)
              && Eligible(Sample(c.ts, c.regime, c.dwell), cfg.thresholds)
              && (m.last.Some? ==> c.ts - m.last.value >= cfg.cooldown)
  {
    assert IsBad(c.regime) <==> IsBadRegime(c.regime);
  }

  lemma {:induction false} LiveIsASchedule(cfg: Config, cycles: seq<Cycle>)
    requires cfg.enabled && SameThresholds(cfg)
    ensures |LogOf(cycles)| == |cycles|
    ensures Schedule(LogOf(cycles), cfg.thresholds, cfg.cooldown, Live(cfg, Closed, cycles).acted)
    ensures var m := Live(cfg, Closed, cycles);
            m.last == if m.acted == [] then None else Some(LogOf(cycles)[m.acted[|m.acted| - 1]].ts)
  {
    if cycles != [] {
      var n := |cycles| - 1;
      var log := LogOf(cycles);
      LiveIsASchedule(cfg, cycles[..n]);
      assert log[..n] == LogOf(cycles[..n]);
      var m := Live(cfg, Closed, cycles[..n]);
      ScheduleExtends(log, cfg.thresholds, cfg.cooldown, m.acted, n);
      StepActsOnlyWhenDue(cfg, m, n, cycles[n]);
      assert (m.acted + [n])[..|m.acted|] == m.acted;
    }
  }

  /** Refusals by the act gates can shift the interventions of the live loop, but never let it make more
      of them than the simulator predicts. */
  lemma RefusalsOnlyLoseInterventions(cfg: Config, obs: seq<Observation>, verdicts: seq<bool>)
    requires cfg.enabled && SameThresholds(cfg)
    requires Clocked(obs) && |obs| == |verdicts|
    ensures |Live(cfg, Closed, CyclesOf(obs, verdicts)).acted| <= |Fires(Trace(obs), cfg.thresholds, cfg.cooldown)|
  {
    LogIsTrace(obs, verdicts);
    TraceIsTimeOrdered(obs);
    LiveIsASchedule(cfg, CyclesOf(obs, verdicts));
    GreedyIsOptimal(Trace(obs), cfg.thresholds, cfg.cooldown, Live(cfg, Closed, CyclesOf(obs, verdicts)).acted);
  }
}
