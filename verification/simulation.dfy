/** The offline simulator of the intervention policy, and why its greedy choice is the best one. */
module Simulation {
  import opened Sequences
  import opened ProcessState

  type Thresholds = map<Regime, real>

  predicate Eligible(s: Sample, thresholds: Thresholds) {
    IsBadRegime(s.regime) && s.regime in thresholds && s.dwell >= thresholds[s.regime]
  }

  predicate MayFire(s: Sample, prior: seq<real>, thresholds: Thresholds, cooldown: real) {
    Eligible(s, thresholds) && (prior == [] || s.ts - prior[|prior| - 1] >= cooldown)
  }

  /** The times at which the policy fires on a log. */
  function Fires(samples: seq<Sample>, thresholds: Thresholds, cooldown: real): seq<real> {
    if samples == [] then []
    else
      var s := samples[|samples| - 1];
      var prior := Fires(samples[..|samples| - 1], thresholds, cooldown);
      if MayFire(s, prior, thresholds, cooldown) then prior + [s.ts] else prior
  }

  /** The same firings as positions in the log. */
  function FireIndices(samples: seq<Sample>, thresholds: Thresholds, cooldown: real): (fires: seq<nat>)
    ensures forall k | 0 <= k < |fires| :: fires[k] < |samples|
  {
    if samples == [] then []
    else
      var n := |samples| - 1;
      var prior := FireIndices(samples[..n], thresholds, cooldown);
      if MayFire(samples[n], Fires(samples[..n], thresholds, cooldown), thresholds, cooldown)
      then prior + [n]
      else prior
  }

  lemma {:induction false} FiresAreStamps(samples: seq<Sample>, thresholds: Thresholds, cooldown: real)
    ensures var fires := Fires(samples, thresholds, cooldown);
            var indices := FireIndices(samples, thresholds, cooldown);
            |fires| == |indices| && forall k | 0 <= k < |fires| :: fires[k] == samples[indices[k]].ts
  {
    if samples != [] {
      FiresAreStamps(samples[..|samples| - 1], thresholds, cooldown);
    }
  }

  method SimulateInterventions(samples: seq<Sample>, thresholds: Thresholds, cooldown: real)
    returns (interventions: seq<real>)
    ensures interventions == Fires(samples, thresholds, cooldown)
  {
    interventions := [];
    var lastFire: Option<real> := None;
    for i := 0 to |samples|
      invariant interventions == Fires(samples[..i], thresholds, cooldown)
      invariant lastFire == if interventions == [] then None else Some(interventions[|interventions| - 1])
    {
      assert samples[..i + 1][..i] == samples[..i];
      var s := samples[i];
      if IsBadRegime(s.regime) && s.regime in thresholds && s.dwell >= thresholds[s.regime] {
        if lastFire == None || s.ts - lastFire.value >= cooldown {
          interventions := interventions + [s.ts];
          lastFire := Some(s.ts);
        }
      }
    }
    assert samples[..|samples|] == samples;
  }

  /** A schedule the policy would be allowed to follow: eligible samples in order, each at least a
      cooldown after the one before. */
  ghost predicate Schedule(samples: seq<Sample>, thresholds: Thresholds, cooldown: real, picks: seq<nat>) {
    picks != [] ==>
      var last := picks[|picks| - 1];
      var before := picks[..|picks| - 1];
      && last < |samples|
      && Eligible(samples[last], thresholds)
      && Schedule(samples, thresholds, cooldown, before)
      && (before != [] ==>
            && before[|before| - 1] < last
            && samples[last].ts - samples[before[|before| - 1]].ts >= cooldown)
  }

  lemma {:induction false} ScheduleInRange(
      samples: seq<Sample>, thresholds: Thresholds, cooldown: real, picks: seq<nat>, n: nat)
    requires Schedule(samples, thresholds, cooldown, picks)
    requires n <= |samples| && (picks != [] ==> picks[|picks| - 1] < n)
    ensures Schedule(samples[..n], thresholds, cooldown, picks)
  {
    if picks != [] {
      ScheduleInRange(samples, thresholds, cooldown, picks[..|picks| - 1], n);
    }
  }

  lemma {:induction false} ScheduleExtends(
      samples: seq<Sample>, thresholds: Thresholds, cooldown: real, picks: seq<nat>, n: nat)
    requires n <= |samples| && Schedule(samples[..n], thresholds, cooldown, picks)
    ensures Schedule(samples, thresholds, cooldown, picks)
  {
    if picks != [] {
      ScheduleExtends(samples, thresholds, cooldown, picks[..|picks| - 1], n);
    }
  }

  lemma {:induction false} FiringIsASchedule(samples: seq<Sample>, thresholds: Thresholds, cooldown: real)
    ensures Schedule(samples, thresholds, cooldown, FireIndices(samples, thresholds, cooldown))
  {
    if samples != [] {
      FiresAreStamps(samples[..|samples| - 1], thresholds, cooldown);
      var n := |samples| - 1;
      var prior := FireIndices(samples[..n], thresholds, cooldown);
      FiringIsASchedule(samples[..n], thresholds, cooldown);
      ScheduleExtends(samples, thresholds, cooldown, prior, n);
      assert (prior + [n])[..|prior|] == prior;
    }
  }

  /** Greedy stays ahead: at every length it has fired last no later than any other schedule. */
  lemma {:induction false} GreedyStaysAhead(
      samples: seq<Sample>, thresholds: Thresholds, cooldown: real, picks: seq<nat>)
    requires TimeOrdered(samples)
    requires Schedule(samples, thresholds, cooldown, picks)
    ensures var fires := Fires(samples, thresholds, cooldown);
            && |picks| <= |fires|
            && (0 < |picks| == |fires| ==> fires[|fires| - 1] <= samples[picks[|picks| - 1]].ts)
  {
    if picks != [] {
      var n := |samples| - 1;
      var last := picks[|picks| - 1];
      if last < n {
        ScheduleInRange(samples, thresholds, cooldown, picks, n);
        GreedyStaysAhead(samples[..n], thresholds, cooldown, picks);
      } else {
        var before := picks[..|picks| - 1];
        ScheduleInRange(samples, thresholds, cooldown, before, n);
        GreedyStaysAhead(samples[..n], thresholds, cooldown, before);
        var prior := Fires(samples[..n], thresholds, cooldown);
        if |before| == |prior| {
          assert MayFire(samples[n], prior, thresholds, cooldown);
        } else {
          FiresInRange(samples[..n], thresholds, cooldown);
          assert prior[|prior| - 1] in prior;
        }
      }
    }
  }

  lemma {:induction false} FiresInRange(samples: seq<Sample>, thresholds: Thresholds, cooldown: real)
    requires TimeOrdered(samples)
    ensures forall t | t in Fires(samples, thresholds, cooldown) :: t <= samples[|samples| - 1].ts
  {
    if |samples| > 1 {
      FiresInRange(samples[..|samples| - 1], thresholds, cooldown);
    }
  }

  /** The simulator fires as often as any admissible schedule can. */
  lemma GreedyIsOptimal(samples: seq<Sample>, thresholds: Thresholds, cooldown: real, picks: seq<nat>)
    requires TimeOrdered(samples)
    requires Schedule(samples, thresholds, cooldown, picks)
    ensures |picks| <= |Fires(samples, thresholds, cooldown)|
  {
    GreedyStaysAhead(samples, thresholds, cooldown, picks);
  }

  /** `high` regulates no bad regime that `low` does not, and never with a lower threshold. */
  ghost predicate Stricter(high: Thresholds, low: Thresholds) {
    forall r | r in high && IsBadRegime(r) :: r in low && low[r] <= high[r]
  }

  lemma {:induction false} ScheduleOfLaxerPolicy(
      samples: seq<Sample>, high: Thresholds, low: Thresholds, longer: real, shorter: real, picks: seq<nat>)
    requires Stricter(high, low) && shorter <= longer
    requires Schedule(samples, high, longer, picks)
    ensures Schedule(samples, low, shorter, picks)
  {
    if picks != [] {
      ScheduleOfLaxerPolicy(samples, high, low, longer, shorter, picks[..|picks| - 1]);
    }
  }

  /** Raising thresholds, dropping regimes or lengthening the cooldown never adds an intervention. */
  lemma StricterPolicyFiresLess(
      samples: seq<Sample>, high: Thresholds, low: Thresholds, longer: real, shorter: real)
    requires TimeOrdered(samples)
    requires Stricter(high, low) && shorter <= longer
    ensures |Fires(samples, high, longer)| <= |Fires(samples, low, shorter)|
  {
    var picks := FireIndices(samples, high, longer);
    FiringIsASchedule(samples, high, longer);
    FiresAreStamps(samples, high, longer);
    ScheduleOfLaxerPolicy(samples, high, low, longer, shorter, picks);
    GreedyIsOptimal(samples, low, shorter, picks);
  }

  /** The policy first fires on the first eligible sample, whatever the cooldown, and never earlier. */
  lemma {:induction false} FirstFireIsFirstEligible(
      samples: seq<Sample>, thresholds: Thresholds, cooldown: real)
    requires TimeOrdered(samples)
    ensures var fires := Fires(samples, thresholds, cooldown);
            if fires == [] then forall i | 0 <= i < |samples| :: !Eligible(samples[i], thresholds)
            else
              && (exists i | 0 <= i < |samples| :: fires[0] == samples[i].ts && Eligible(samples[i], thresholds))
              && (forall i | 0 <= i < |samples| && Eligible(samples[i], thresholds) :: fires[0] <= samples[i].ts)
              && (forall t | t in fires :: fires[0] <= t)
  {
    if samples != [] {
      var n := |samples| - 1;
      FirstFireIsFirstEligible(samples[..n], thresholds, cooldown);
      var prior := Fires(samples[..n], thresholds, cooldown);
      if prior != [] {
        var i :| 0 <= i < n && prior[0] == samples[i].ts && Eligible(samples[i], thresholds);
      }
    }
  }

  lemma {:induction false} SomeEligibleMeansSomeFire(
      samples: seq<Sample>, thresholds: Thresholds, cooldown: real, k: nat)
    requires k < |samples| && Eligible(samples[k], thresholds)
    ensures FireIndices(samples, thresholds, cooldown) != []
  {
    var n := |samples| - 1;
    FiresAreStamps(samples[..n], thresholds, cooldown);
    if k < n {
      SomeEligibleMeansSomeFire(samples[..n], thresholds, cooldown, k);
    }
  }
}
