/** The state variable of the controlled process: a regime, and how long it has lasted. */
module ProcessState {
  import opened Sequences

  /** `Other` stands for every label outside the five the identifier can report. */
  datatype Regime =
    | Productive
    | StuckOnStep
    | RepeatingErrors
    | Idle
    | TrialAndError
    | Other(name: string)

  type ProcessRegime = r: Regime | !r.Other? witness Productive

  const BAD_REGIMES: set<Regime> := {StuckOnStep, RepeatingErrors, Idle, TrialAndError}

  /** The offline test: membership in the configured set. */
  predicate IsBadRegime(r: Regime) {
    r in BAD_REGIMES
  }

  /** The live test: anything the identifier reports except productive. */
  predicate IsBad(r: ProcessRegime) {
    r != Productive
  }

  datatype Observation = Observation(ts: real, regime: ProcessRegime)

  datatype Sample = Sample(ts: real, regime: Regime, dwell: real)

  ghost predicate TimeOrdered(samples: seq<Sample>) {
    forall i, j | 0 <= i < j < |samples| :: samples[i].ts <= samples[j].ts
  }

  /** The clock readings of a run: one per cycle, strictly increasing. */
  ghost predicate Clocked(obs: seq<Observation>) {
    forall i, j | 0 <= i < j < |obs| :: obs[i].ts < obs[j].ts
  }

  /** Where the maximal run of equal regimes that contains `k` begins. */
  ghost predicate BeginsRunOf(obs: seq<Observation>, start: nat, k: nat)
    requires start <= k < |obs|
  {
    && (forall i | start <= i <= k :: obs[i].regime == obs[k].regime)
    && (start > 0 ==> obs[start - 1].regime != obs[k].regime)
  }

  function RunStart(obs: seq<Observation>, k: nat): (start: nat)
    requires k < |obs|
    ensures start <= k && BeginsRunOf(obs, start, k)
  {
    if k > 0 && obs[k - 1].regime == obs[k].regime then RunStart(obs, k - 1) else k
  }

  function Dwell(obs: seq<Observation>, k: nat): real
    requires k < |obs|
  {
    obs[k].ts - obs[RunStart(obs, k)].ts
  }

  /** The log the offline tools read: every observation with its dwell time. */
  function Trace(obs: seq<Observation>): (samples: seq<Sample>)
    ensures |samples| == |obs|
  {
    if obs == [] then []
    else
      var n := |obs| - 1;
      Trace(obs[..n]) + [Sample(obs[n].ts, obs[n].regime, Dwell(obs, n))]
  }

  lemma {:induction false} TraceAt(obs: seq<Observation>, k: nat)
    requires k < |obs|
    ensures Trace(obs)[k] == Sample(obs[k].ts, obs[k].regime, Dwell(obs, k))
  {
    var n := |obs| - 1;
    if k < n {
      TraceAt(obs[..n], k);
      RunStartPrefix(obs, n, k);
    }
  }

  lemma {:induction false} RunStartPrefix(obs: seq<Observation>, n: nat, k: nat)
    requires k < n <= |obs|
    ensures RunStart(obs[..n], k) == RunStart(obs, k)
  {
    if k > 0 {
      RunStartPrefix(obs, n, k - 1);
    }
  }

  lemma TraceIsTimeOrdered(obs: seq<Observation>)
    requires Clocked(obs)
    ensures TimeOrdered(Trace(obs))
  {
    forall i, j | 0 <= i < j < |obs|
      ensures Trace(obs)[i].ts <= Trace(obs)[j].ts
    {
      TraceAt(obs, i);
      TraceAt(obs, j);
    }
  }

  /** On a strictly increasing clock a zero dwell is exactly a change of regime, which is the test
      the randomised trial uses to close and open spells. */
  lemma ZeroDwellIsRegimeChange(obs: seq<Observation>, k: nat)
    requires Clocked(obs) && k < |obs|
    ensures Dwell(obs, k) >= 0.0
    ensures Dwell(obs, k) == 0.0 <==> k == 0 || obs[k - 1].regime != obs[k].regime
  {
  }

  class DwellTracker {
    var regime: Option<ProcessRegime>
    var since: real
    ghost var seen: seq<Observation>

    ghost predicate Valid()
      reads this
    {
      if seen == [] then regime == None
      else
        && regime == Some(seen[|seen| - 1].regime)
        && since == seen[RunStart(seen, |seen| - 1)].ts
    }

    constructor ()
      ensures Valid() && seen == []
    {
      regime := None;
      seen := [];
    }

    method Observe(r: ProcessRegime, now: real) returns (dwell: real)
      requires Valid()
      modifies this
      ensures Valid()
      ensures seen == old(seen) + [Observation(now, r)]
      ensures dwell == Dwell(seen, |seen| - 1)
      ensures regime == Some(r) && dwell == now - since
      ensures since == if old(regime) == Some(r) then old(since) else now
    {
      var changed := regime != Some(r);
      seen := seen + [Observation(now, r)];
      if |old(seen)| > 0 {
        RunStartPrefix(seen, |old(seen)|, |old(seen)| - 1);
        assert seen[..|old(seen)|] == old(seen);
      }
      if changed {
        regime := Some(r);
        since := now;
        return 0.0;
      }
      dwell := now - since;
    }
  }
}
