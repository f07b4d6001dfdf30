/** The offline evaluation of the identifier over labelled scenarios, and how its false alarms depend on
    the dwell threshold. */
module Harness {
  import opened Sequences
  import opened ProcessState

  /** `snapshots` carries the regime the identifier read off each snapshot's features. */
  datatype Scenario = Scenario(snapshots: seq<Observation>, truth: ProcessRegime, duration: real)

  predicate IsNormal(s: Scenario) {
    s.truth == Productive
  }

  datatype Detection = Detection(ts: real, regime: Regime)

  predicate Crosses(s: Sample, tK: real) {
    IsBadRegime(s.regime) && s.dwell >= tK
  }

  function FirstCrossing(trace: seq<Sample>, tK: real): Option<Detection> {
    if trace == [] then None
    else if Crosses(trace[0], tK) then Some(Detection(trace[0].ts, trace[0].regime))
    else FirstCrossing(trace[1..], tK)
  }

  method IdentifierTrace(scenario: Scenario) returns (trace: seq<Sample>)
    ensures trace == Trace(scenario.snapshots)
  {
    var tracker := new DwellTracker();
    trace := [];
    for i := 0 to |scenario.snapshots|
      invariant fresh(tracker) && tracker.Valid() && tracker.seen == scenario.snapshots[..i]
      invariant trace == Trace(scenario.snapshots[..i])
    {
      var snap := scenario.snapshots[i];
      var dwell := tracker.Observe(snap.regime, snap.ts);
      TakeOneMore(scenario.snapshots, i);
      trace := trace + [Sample(snap.ts, snap.regime, dwell)];
    }
    assert scenario.snapshots[..|scenario.snapshots|] == scenario.snapshots;
  }

  method RunIdentifier(scenario: Scenario, tK: real) returns (d: Option<Detection>)
    ensures d == FirstCrossing(Trace(scenario.snapshots), tK)
  {
    var trace := IdentifierTrace(scenario);
    for i := 0 to |trace|
      invariant FirstCrossing(trace[i..], tK) == FirstCrossing(trace, tK)
    {
      if Crosses(trace[i], tK) {
        return Some(Detection(trace[i].ts, trace[i].regime));
      }
    }
    return None;
  }

  /** The detection is the earliest sample that has been bad for at least `tK`. */
  lemma {:induction false} FirstCrossingIsEarliest(trace: seq<Sample>, tK: real)
    requires TimeOrdered(trace)
    ensures var d := FirstCrossing(trace, tK);
            if d.Some? then
              && (exists k | 0 <= k < |trace| :: Crosses(trace[k], tK) && d.value == Detection(trace[k].ts, trace[k].regime))
              && (forall k | 0 <= k < |trace| && Crosses(trace[k], tK) :: d.value.ts <= trace[k].ts)
            else forall k | 0 <= k < |trace| :: !Crosses(trace[k], tK)
  {
    if trace != [] && !Crosses(trace[0], tK) {
      var rest := trace[1..];
      FirstCrossingIsEarliest(rest, tK);
      assert forall k | 1 <= k < |trace| :: trace[k] == rest[k - 1];
    }
  }

  /** Whatever is detected at a higher threshold is detected, no later, at a lower one. */
  lemma DetectionIsAntitone(scenario: Scenario, low: real, high: real)
    requires TimeOrdered(Trace(scenario.snapshots)) && low <= high
    ensures var trace := Trace(scenario.snapshots);
            FirstCrossing(trace, high).Some? ==>
              && FirstCrossing(trace, low).Some?
              && FirstCrossing(trace, low).value.ts <= FirstCrossing(trace, high).value.ts
  {
    var trace := Trace(scenario.snapshots);
    FirstCrossingIsEarliest(trace, low);
    FirstCrossingIsEarliest(trace, high);
    if FirstCrossing(trace, high).Some? {
      var k :| 0 <= k < |trace| && Crosses(trace[k], high) && FirstCrossing(trace, high).value.ts == trace[k].ts;
      assert Crosses(trace[k], low);
    }
  }

  // ----- false alarms per hour

  function CountFalseAlarms(scenarios: seq<Scenario>, tK: real): nat {
    if scenarios == [] then 0
    else
      var s := scenarios[|scenarios| - 1];
      CountFalseAlarms(scenarios[..|scenarios| - 1], tK)
      + if IsNormal(s) && FirstCrossing(Trace(s.snapshots), tK).Some? then 1 else 0
  }

  function NormalSeconds(scenarios: seq<Scenario>): real {
    if scenarios == [] then 0.0
    else
      var s := scenarios[|scenarios| - 1];
      NormalSeconds(scenarios[..|scenarios| - 1]) + if IsNormal(s) then s.duration else 0.0
  }

  function FalsePerHour(scenarios: seq<Scenario>, tK: real): real {
    var hours := NormalSeconds(scenarios) / 3600.0;
    if hours > 0.0 then CountFalseAlarms(scenarios, tK) as real / hours else 0.0
  }

  /** A productive scenario in which some sample is bad for at least `tK`. */
  ghost predicate FalseAlarm(s: Scenario, tK: real) {
    && s.truth == Productive
    && exists k | 0 <= k < |s.snapshots| ::
         var sample := Trace(s.snapshots)[k];
         sample.regime in {StuckOnStep, RepeatingErrors, Idle, TrialAndError} && sample.dwell >= tK
  }

  lemma {:induction false} CrossingExists(trace: seq<Sample>, tK: real)
    ensures FirstCrossing(trace, tK).Some? <==>
              exists k | 0 <= k < |trace| ::
                trace[k].regime in {StuckOnStep, RepeatingErrors, Idle, TrialAndError} && trace[k].dwell >= tK
  {
    if trace != [] && !Crosses(trace[0], tK) {
      CrossingExists(trace[1..], tK);
      assert forall k | 1 <= k < |trace| :: trace[k] == trace[1..][k - 1];
    }
  }

  lemma {:induction false} FalseAlarmsAreCardinality(scenarios: seq<Scenario>, tK: real)
    ensures CountFalseAlarms(scenarios, tK) == |Indices(scenarios, (s: Scenario) => FalseAlarm(s, tK))|
  {
    if scenarios == [] {
      assert Indices(scenarios, (s: Scenario) => FalseAlarm(s, tK)) == {};
    } else {
      var front, last := scenarios[..|scenarios| - 1], scenarios[|scenarios| - 1];
      FalseAlarmsAreCardinality(front, tK);
      CrossingExists(Trace(last.snapshots), tK);
      IndicesSnoc(front, last, (s: Scenario) => FalseAlarm(s, tK));
      assert scenarios == front + [last];
    }
  }

  /** Only productive scenarios count as normal time. */
  lemma NormalSecondsSnoc(scenarios: seq<Scenario>, s: Scenario)
    ensures NormalSeconds([]) == 0.0
    ensures NormalSeconds(scenarios + [s]) == NormalSeconds(scenarios) + if s.truth == Productive then s.duration else 0.0
  {
    assert (scenarios + [s])[..|scenarios|] == scenarios;
  }

  ghost predicate IsHourlyRate(rate: real, seconds: real, count: nat) {
    rate * seconds == 3600.0 * count as real
  }

  /** Per hour: the rate times the normal seconds is 3600 times the number of false alarms. */
  lemma FalseRateIsPerHour(scenarios: seq<Scenario>, tK: real)
    ensures NormalSeconds(scenarios) > 0.0 ==>
              IsHourlyRate(FalsePerHour(scenarios, tK), NormalSeconds(scenarios),
                           |Indices(scenarios, (s: Scenario) => FalseAlarm(s, tK))|)
    ensures NormalSeconds(scenarios) <= 0.0 ==> FalsePerHour(scenarios, tK) == 0.0
  {
    FalseAlarmsAreCardinality(scenarios, tK);
    if NormalSeconds(scenarios) > 0.0 {
      RatePerHour(CountFalseAlarms(scenarios, tK), NormalSeconds(scenarios));
    }
  }

  lemma RatePerHour(count: nat, seconds: real)
    requires seconds > 0.0
    ensures IsHourlyRate(count as real / (seconds / 3600.0), seconds, count)
  {
    var hours := seconds / 3600.0;
    var rate := count as real / hours;
    assert rate * hours == count as real;
    assert rate * seconds == rate * (hours * 3600.0) == (rate * hours) * 3600.0;
  }

  method EvaluateFalsePerHour(scenarios: seq<Scenario>, tK: real) returns (rate: real)
    ensures rate == FalsePerHour(scenarios, tK)
  {
    var nFalse, seconds := 0, 0.0;
    for i := 0 to |scenarios|
      invariant nFalse == CountFalseAlarms(scenarios[..i], tK)
      invariant seconds == NormalSeconds(scenarios[..i])
    {
      assert scenarios[..i + 1][..i] == scenarios[..i];
      var d := RunIdentifier(scenarios[i], tK);
      if IsNormal(scenarios[i]) {
        seconds := seconds + scenarios[i].duration;
        if d.Some? {
          nFalse := nFalse + 1;
        }
      }
    }
    assert scenarios[..|scenarios|] == scenarios;
    var hours := seconds / 3600.0;
    rate := if hours > 0.0 then nFalse as real / hours else 0.0;
  }

  lemma {:induction false} FewerFalseAlarmsAtHigherThreshold(scenarios: seq<Scenario>, low: real, high: real)
    requires forall s | s in scenarios :: TimeOrdered(Trace(s.snapshots))
    requires low <= high
    ensures CountFalseAlarms(scenarios, high) <= CountFalseAlarms(scenarios, low)
  {
    if scenarios != [] {
      FewerFalseAlarmsAtHigherThreshold(scenarios[..|scenarios| - 1], low, high);
      DetectionIsAntitone(scenarios[|scenarios| - 1], low, high);
    }
  }

  lemma QuotientMonotone(x: nat, y: nat, d: real)
    requires x <= y && d > 0.0
    ensures x as real / d <= y as real / d
  {
  }

  lemma FalseRateIsAntitone(scenarios: seq<Scenario>, low: real, high: real)
    requires forall s | s in scenarios :: TimeOrdered(Trace(s.snapshots))
    requires low <= high
    ensures FalsePerHour(scenarios, high) <= FalsePerHour(scenarios, low)
  {
    FewerFalseAlarmsAtHigherThreshold(scenarios, low, high);
    var hours := NormalSeconds(scenarios) / 3600.0;
    if hours > 0.0 {
      QuotientMonotone(CountFalseAlarms(scenarios, high), CountFalseAlarms(scenarios, low), hours);
    }
  }

  /** The false-alarm rates of the operating curve, one per grid point; they never rise along an ascending
      grid. */
  method OperatingCurve(scenarios: seq<Scenario>, grid: seq<real>) returns (rates: seq<real>)
    requires forall s | s in scenarios :: TimeOrdered(Trace(s.snapshots))
    ensures |rates| == |grid|
    ensures forall i | 0 <= i < |grid| :: rates[i] == FalsePerHour(scenarios, grid[i])
    ensures Ascending(grid) ==> forall i, j | 0 <= i < j < |grid| :: rates[j] <= rates[i]
  {
    rates := [];
    for k := 0 to |grid|
      invariant |rates| == k
      invariant forall i | 0 <= i < k :: rates[i] == FalsePerHour(scenarios, grid[i])
    {
      var rate := EvaluateFalsePerHour(scenarios, grid[k]);
      rates := rates + [rate];
    }
    forall i, j | 0 <= i < j < |grid| && grid[i] <= grid[j]
      ensures rates[j] <= rates[i]
    {
      FalseRateIsAntitone(scenarios, grid[i], grid[j]);
    }
  }
}
