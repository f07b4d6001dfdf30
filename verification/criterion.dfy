/** The control criterion J: what a policy costs over a logged session. */
module Criterion {
  import opened Sequences
  import opened ProcessState

  datatype Costs = Costs(stuck: real, intervention: real, falseAlarm: real)

  datatype JResult = JResult(j: real, badDuration: real, nInterventions: nat, nFalse: nat)

  // ----- time spent in bad regimes

  /** Left-edge rule: a gap counts when the sample that opens it is bad. */
  function BadGap(left: Sample, right: Sample): real {
    if IsBadRegime(left.regime) then right.ts - left.ts else 0.0
  }

  function BadDuration(samples: seq<Sample>): real {
    var n := |samples|;
    if n <= 1 then 0.0 else BadDuration(samples[..n - 1]) + BadGap(samples[n - 2], samples[n - 1])
  }

  lemma BadDurationSnoc(samples: seq<Sample>, i: nat)
    requires i + 1 < |samples|
    ensures BadDuration(samples[..i + 2]) == BadDuration(samples[..i + 1]) + BadGap(samples[i], samples[i + 1])
  {
    assert samples[..i + 2][..i + 1] == samples[..i + 1];
  }

  // ----- bad spells

  /** A maximal run of bad samples: `first` is its opening sample, `exit` the sample that ends it,
      which is the first good one or else the last of the log. */
  datatype Run = Run(first: nat, exit: nat)

  ghost predicate MaximalBadRun(samples: seq<Sample>, r: Run) {
    && r.first < r.exit < |samples|
    && (forall k | r.first <= k < r.exit :: IsBadRegime(samples[k].regime))
    && (r.first > 0 ==> !IsBadRegime(samples[r.first - 1].regime))
    && (r.exit < |samples| - 1 ==> !IsBadRegime(samples[r.exit].regime))
  }

  function RunExit(samples: seq<Sample>, j: nat): (exit: nat)
    requires j < |samples|
    ensures j <= exit < |samples|
    ensures forall k | j <= k < exit :: IsBadRegime(samples[k].regime)
    ensures exit < |samples| - 1 ==> !IsBadRegime(samples[exit].regime)
    decreases |samples| - j
  {
    if j < |samples| - 1 && IsBadRegime(samples[j].regime) then RunExit(samples, j + 1) else j
  }

  function RunsFrom(samples: seq<Sample>, i: nat): seq<Run>
    decreases |samples| - i
  {
    if i + 1 >= |samples| then []
    else if IsBadRegime(samples[i].regime) then
      var exit := RunExit(samples, i + 1);
      [Run(i, exit)] + RunsFrom(samples, exit)
    else RunsFrom(samples, i + 1)
  }

  function BadRuns(samples: seq<Sample>): seq<Run> {
    RunsFrom(samples, 0)
  }

  ghost predicate InOrder(runs: seq<Run>) {
    forall a, b | 0 <= a < b < |runs| :: runs[a].exit <= runs[b].first
  }

  lemma {:induction false} RunsFromAreMaximal(samples: seq<Sample>, i: nat)
    requires 0 < i < |samples| && IsBadRegime(samples[i].regime) ==>
               i == |samples| - 1 || !IsBadRegime(samples[i - 1].regime)
    ensures forall r | r in RunsFrom(samples, i) :: i <= r.first && MaximalBadRun(samples, r)
    decreases |samples| - i
  {
    if i + 1 >= |samples| {
    } else if IsBadRegime(samples[i].regime) {
      RunsFromAreMaximal(samples, RunExit(samples, i + 1));
    } else {
      RunsFromAreMaximal(samples, i + 1);
    }
  }

  lemma {:induction false} RunsFromFindAll(samples: seq<Sample>, i: nat, r: Run)
    requires MaximalBadRun(samples, r) && i <= r.first
    ensures r in RunsFrom(samples, i)
    decreases |samples| - i
  {
    if IsBadRegime(samples[i].regime) {
      var exit := RunExit(samples, i + 1);
      if r.first == i {
        assert r.exit == exit;
      } else {
        assert r.first >= exit by {
          assert !IsBadRegime(samples[r.first - 1].regime);
        }
        RunsFromFindAll(samples, exit, r);
      }
    } else {
      RunsFromFindAll(samples, i + 1, r);
    }
  }

  lemma ConsInOrder(r: Run, rest: seq<Run>)
    requires InOrder(rest) && forall e | e in rest :: r.exit <= e.first
    ensures InOrder([r] + rest)
  {
    assert forall k | 0 <= k < |rest| :: rest[k] in rest;
  }

  lemma {:induction false} RunsFromAreInOrder(samples: seq<Sample>, i: nat)
    ensures InOrder(RunsFrom(samples, i))
    ensures forall r | r in RunsFrom(samples, i) :: i <= r.first
    decreases |samples| - i
  {
    if i + 1 >= |samples| {
    } else if IsBadRegime(samples[i].regime) {
      var rest := RunsFrom(samples, RunExit(samples, i + 1));
      RunsFromAreInOrder(samples, RunExit(samples, i + 1));
      ConsInOrder(Run(i, RunExit(samples, i + 1)), rest);
    } else {
      RunsFromAreInOrder(samples, i + 1);
    }
  }

  /** The scan finds the maximal bad runs that open before the last sample, all of them and nothing
      else, from left to right and without overlap. */
  lemma BadRunsAreTheMaximalRuns(samples: seq<Sample>)
    ensures forall r :: r in BadRuns(samples) <==> MaximalBadRun(samples, r)
    ensures InOrder(BadRuns(samples))
  {
    RunsFromAreMaximal(samples, 0);
    RunsFromAreInOrder(samples, 0);
    forall r | MaximalBadRun(samples, r)
      ensures r in BadRuns(samples)
    {
      RunsFromFindAll(samples, 0, r);
    }
  }

  predicate WithinLog(samples: seq<Sample>, r: Run) {
    r.first < |samples| && r.exit < |samples|
  }

  function RunDuration(samples: seq<Sample>, r: Run): real
    requires WithinLog(samples, r)
  {
    samples[r.exit].ts - samples[r.first].ts
  }

  function TotalDuration(samples: seq<Sample>, runs: seq<Run>): real
    requires forall r | r in runs :: WithinLog(samples, r)
  {
    if runs == [] then 0.0 else RunDuration(samples, runs[0]) + TotalDuration(samples, runs[1..])
  }

  lemma {:induction false} BadStretchTelescopes(samples: seq<Sample>, i: nat, j: nat)
    requires i <= j < |samples|
    requires forall k | i <= k < j :: IsBadRegime(samples[k].regime)
    ensures BadDuration(samples[..j + 1]) - BadDuration(samples[..i + 1]) == samples[j].ts - samples[i].ts
  {
    if i < j {
      BadStretchTelescopes(samples, i, j - 1);
      BadDurationSnoc(samples, j - 1);
    }
  }

  lemma {:induction false} RunsFromCoverBadTime(samples: seq<Sample>, i: nat)
    requires i < |samples|
    requires forall r | r in RunsFrom(samples, i) :: WithinLog(samples, r)
    ensures TotalDuration(samples, RunsFrom(samples, i)) == BadDuration(samples) - BadDuration(samples[..i + 1])
    decreases |samples| - i
  {
    if i + 1 >= |samples| {
      assert samples[..i + 1] == samples;
    } else if IsBadRegime(samples[i].regime) {
      var exit := RunExit(samples, i + 1);
      var runs := RunsFrom(samples, i);
      assert runs[1..] == RunsFrom(samples, exit);
      RunsFromCoverBadTime(samples, exit);
      BadStretchTelescopes(samples, i, exit);
    } else {
      RunsFromCoverBadTime(samples, i + 1);
      BadDurationSnoc(samples, i);
    }
  }

  /** The two independent loops over the same log agree: the spells last, together, as long as the
      left-edge sum says. */
  lemma SpellsSumToBadDuration(samples: seq<Sample>)
    ensures forall r | r in BadRuns(samples) :: WithinLog(samples, r)
    ensures TotalDuration(samples, BadRuns(samples)) == BadDuration(samples)
  {
    BadRunsAreTheMaximalRuns(samples);
    if samples != [] {
      RunsFromCoverBadTime(samples, 0);
    }
  }

  // ----- the spells as the source records them

  datatype Spell = Spell(start: real, end: real, duration: real, recovered: bool, hadIntervention: bool)

  predicate Inside(samples: seq<Sample>, r: Run, t: real) {
    WithinLog(samples, r) && samples[r.first].ts <= t < samples[r.exit].ts
  }

  predicate Hit(samples: seq<Sample>, interventions: seq<real>, r: Run) {
    exists t | t in interventions :: Inside(samples, r, t)
  }

  function SpellOf(samples: seq<Sample>, interventions: seq<real>, r: Run): Spell
    requires WithinLog(samples, r)
  {
    Spell(samples[r.first].ts, samples[r.exit].ts, RunDuration(samples, r),
          !IsBadRegime(samples[r.exit].regime),
          Hit(samples, interventions, r))
  }

  function SpellsFrom(samples: seq<Sample>, interventions: seq<real>, i: nat): seq<Spell>
    decreases |samples| - i
  {
    if i + 1 >= |samples| then []
    else if IsBadRegime(samples[i].regime) then
      var exit := RunExit(samples, i + 1);
      [SpellOf(samples, interventions, Run(i, exit))] + SpellsFrom(samples, interventions, exit)
    else SpellsFrom(samples, interventions, i + 1)
  }

  lemma {:induction false} SpellsFollowRuns(samples: seq<Sample>, interventions: seq<real>, i: nat)
    requires forall r | r in RunsFrom(samples, i) :: WithinLog(samples, r)
    ensures |SpellsFrom(samples, interventions, i)| == |RunsFrom(samples, i)|
    ensures forall k | 0 <= k < |RunsFrom(samples, i)| ::
              SpellsFrom(samples, interventions, i)[k] == SpellOf(samples, interventions, RunsFrom(samples, i)[k])
    decreases |samples| - i
  {
    if i + 1 >= |samples| {
    } else if IsBadRegime(samples[i].regime) {
      var exit := RunExit(samples, i + 1);
      assert RunsFrom(samples, i)[1..] == RunsFrom(samples, exit);
      SpellsFollowRuns(samples, interventions, exit);
    } else {
      SpellsFollowRuns(samples, interventions, i + 1);
    }
  }

  method ScanSpells(samples: seq<Sample>, interventions: seq<real>) returns (spells: seq<Spell>)
    ensures spells == SpellsFrom(samples, interventions, 0)
  {
    spells := [];
    var i, n := 0, |samples|;
    while i < n - 1
      invariant 0 <= i
      invariant spells + SpellsFrom(samples, interventions, i) == SpellsFrom(samples, interventions, 0)
    {
      if IsBadRegime(samples[i].regime) {
        var j := i;
        while j < n - 1 && IsBadRegime(samples[j].regime)
          invariant i <= j <= n - 1
          invariant j == i || RunExit(samples, j) == RunExit(samples, i + 1)
        {
          j := j + 1;
        }
        var hadIntervention := exists t | t in interventions :: samples[i].ts <= t < samples[j].ts;
        var spell := Spell(samples[i].ts, samples[j].ts, samples[j].ts - samples[i].ts,
                           !IsBadRegime(samples[j].regime), hadIntervention);
        assert spell == SpellOf(samples, interventions, Run(i, j));
        spells := spells + [spell];
        i := j;
      } else {
        i := i + 1;
      }
    }
  }

  // ----- false interventions

  /** `bisect_right`: how many stamps are at most `t`. On an ascending log this is the position after
      the last sample not later than `t`. */
  function SamplesUpTo(samples: seq<Sample>, t: real): (n: nat)
    ensures n <= |samples|
  {
    if samples == [] then 0
    else SamplesUpTo(samples[..|samples| - 1], t) + if samples[|samples| - 1].ts <= t then 1 else 0
  }

  lemma {:induction false} SamplesUpToIsPosition(samples: seq<Sample>, t: real)
    requires TimeOrdered(samples)
    ensures forall k | 0 <= k < |samples| :: samples[k].ts <= t <==> k < SamplesUpTo(samples, t)
  {
    if samples != [] {
      SamplesUpToIsPosition(samples[..|samples| - 1], t);
    }
  }

  /** An intervention that fell while the process was in no bad regime. */
  predicate OutsideBad(samples: seq<Sample>, t: real) {
    var n := SamplesUpTo(samples, t);
    n > 0 && !IsBadRegime(samples[n - 1].regime)
  }

  function CountOutside(samples: seq<Sample>, interventions: seq<real>): nat {
    if interventions == [] then 0
    else CountOutside(samples, interventions[..|interventions| - 1])
         + if OutsideBad(samples, interventions[|interventions| - 1]) then 1 else 0
  }

  method InterventionsOutsideBadRegime(samples: seq<Sample>, interventions: seq<real>) returns (n: nat)
    ensures n == CountOutside(samples, interventions)
  {
    n := 0;
    for k := 0 to |interventions|
      invariant n == CountOutside(samples, interventions[..k])
    {
      assert interventions[..k + 1][..k] == interventions[..k];
      var idx := SamplesUpTo(samples, interventions[k]) - 1;
      if idx >= 0 && !IsBadRegime(samples[idx].regime) {
        n := n + 1;
      }
    }
    assert interventions[..|interventions|] == interventions;
  }

  /** Durations of the spells that ended well on their own. */
  function CleanDurations(spells: seq<Spell>): seq<real> {
    if spells == [] then []
    else
      var sp := spells[|spells| - 1];
      CleanDurations(spells[..|spells| - 1]) + if !sp.hadIntervention && sp.recovered then [sp.duration] else []
  }

  function CountFast(spells: seq<Spell>, limit: real): nat {
    if spells == [] then 0
    else
      var sp := spells[|spells| - 1];
      CountFast(spells[..|spells| - 1], limit)
      + if sp.hadIntervention && sp.recovered && sp.duration < limit then 1 else 0
  }

  /** Kind (b): spells that an intervention cut shorter than the median clean recovery. */
  function CountHasty(spells: seq<Spell>): nat {
    var clean := CleanDurations(spells);
    if clean == [] then 0 else CountFast(spells, Median(clean))
  }

  function CountFalse(samples: seq<Sample>, interventions: seq<real>): nat {
    if interventions == [] then 0
    else
      var stamps := Sort(interventions);
      CountOutside(samples, stamps) + CountHasty(SpellsFrom(samples, stamps, 0))
  }

  method ComputeFalse(samples: seq<Sample>, interventions: seq<real>) returns (nFalse: nat)
    ensures nFalse == CountFalse(samples, interventions)
  {
    if interventions == [] {
      return 0;
    }
    var stamps := Sort(interventions);
    nFalse := InterventionsOutsideBadRegime(samples, stamps);
    var spells := ScanSpells(samples, stamps);
    var clean := CleanDurations(spells);
    if clean != [] {
      nFalse := nFalse + CountFast(spells, Median(clean));
    }
  }

  // ----- every false alarm is charged to an intervention of its own

  ghost function OutsideSet(samples: seq<Sample>, interventions: seq<real>): set<nat> {
    set k: nat | k < |interventions| && OutsideBad(samples, interventions[k])
  }

  lemma {:induction false} CountOutsideIsCardinality(samples: seq<Sample>, interventions: seq<real>)
    ensures CountOutside(samples, interventions) == |OutsideSet(samples, interventions)|
  {
    if interventions != [] {
      var n := |interventions| - 1;
      CountOutsideIsCardinality(samples, interventions[..n]);
      assert OutsideSet(samples, interventions) ==
             OutsideSet(samples, interventions[..n]) + if OutsideBad(samples, interventions[n]) then {n} else {};
    }
  }

  ghost predicate Covered(samples: seq<Sample>, runs: seq<Run>, t: real) {
    exists r | r in runs :: Inside(samples, r, t)
  }

  /** The interventions that fell inside one of the runs. */
  ghost function OwnedBy(samples: seq<Sample>, interventions: seq<real>, runs: seq<Run>): set<nat> {
    set k: nat | k < |interventions| && Covered(samples, runs, interventions[k])
  }

  ghost function CountHit(samples: seq<Sample>, interventions: seq<real>, runs: seq<Run>): nat {
    if runs == [] then 0
    else CountHit(samples, interventions, runs[..|runs| - 1])
         + if Hit(samples, interventions, runs[|runs| - 1]) then 1 else 0
  }

  lemma LaterRunCoversMore(samples: seq<Sample>, earlier: seq<Run>, r: Run, t: real)
    requires TimeOrdered(samples)
    requires forall e | e in earlier :: e.exit <= r.first
    ensures Covered(samples, earlier + [r], t) <==> Covered(samples, earlier, t) || Inside(samples, r, t)
    ensures !(Covered(samples, earlier, t) && Inside(samples, r, t))
  {
    assert forall e :: e in earlier + [r] <==> e in earlier || e == r;
  }

  lemma LaterRunOwnsMore(samples: seq<Sample>, interventions: seq<real>, earlier: seq<Run>, r: Run)
    requires TimeOrdered(samples)
    requires forall e | e in earlier :: e.exit <= r.first
    ensures var before, now := OwnedBy(samples, interventions, earlier), OwnedBy(samples, interventions, earlier + [r]);
            |before| + (if Hit(samples, interventions, r) then 1 else 0) <= |now|
  {
    var before, now := OwnedBy(samples, interventions, earlier), OwnedBy(samples, interventions, earlier + [r]);
    forall k | k in before
      ensures k in now
    {
      LaterRunCoversMore(samples, earlier, r, interventions[k]);
    }
    SubsetCardinality(before, now);
    if Hit(samples, interventions, r) {
      var t :| t in interventions && Inside(samples, r, t);
      var k: nat :| k < |interventions| && interventions[k] == t;
      LaterRunCoversMore(samples, earlier, r, t);
      SubsetCardinality(before + {k}, now);
    }
  }

  lemma {:induction false} EachHitRunOwnsAnIntervention(
      samples: seq<Sample>, interventions: seq<real>, runs: seq<Run>)
    requires TimeOrdered(samples) && InOrder(runs)
    ensures CountHit(samples, interventions, runs) <= |OwnedBy(samples, interventions, runs)|
  {
    if runs != [] {
      var earlier, r := runs[..|runs| - 1], runs[|runs| - 1];
      EachHitRunOwnsAnIntervention(samples, interventions, earlier);
      LaterRunOwnsMore(samples, interventions, earlier, r);
      assert runs == earlier + [r];
    }
  }

  lemma InsideMeansBad(samples: seq<Sample>, r: Run, t: real)
    requires TimeOrdered(samples) && MaximalBadRun(samples, r) && Inside(samples, r, t)
    ensures !OutsideBad(samples, t)
  {
    SamplesUpToIsPosition(samples, t);
    var n := SamplesUpTo(samples, t);
    assert r.first <= n - 1 < r.exit;
  }

  lemma {:induction false} RunsFromCover(samples: seq<Sample>, i: nat, k: nat)
    requires i <= k < |samples| - 1 && IsBadRegime(samples[k].regime)
    ensures exists r | r in RunsFrom(samples, i) :: r.first <= k < r.exit
    decreases |samples| - i
  {
    if !IsBadRegime(samples[i].regime) {
      RunsFromCover(samples, i + 1, k);
    } else {
      var head := Run(i, RunExit(samples, i + 1));
      var rest := RunsFrom(samples, head.exit);
      assert head in RunsFrom(samples, i) && forall r | r in rest :: r in RunsFrom(samples, i);
      if k >= head.exit {
        RunsFromCover(samples, head.exit, k);
      }
    }
  }

  /** The two kinds of false alarm split the session between them: while it lasts, an intervention falls
      inside a bad spell or counts as made outside any, never both. */
  lemma InsideASpellOrOutsideBad(samples: seq<Sample>, t: real)
    requires TimeOrdered(samples) && samples != []
    requires samples[0].ts <= t < samples[|samples| - 1].ts
    ensures Covered(samples, BadRuns(samples), t) <==> !OutsideBad(samples, t)
  {
    SamplesUpToIsPosition(samples, t);
    BadRunsAreTheMaximalRuns(samples);
    var k := SamplesUpTo(samples, t) - 1;
    assert 0 <= k < |samples| - 1 && samples[k].ts <= t < samples[k + 1].ts;
    if Covered(samples, BadRuns(samples), t) {
      var r :| r in BadRuns(samples) && Inside(samples, r, t);
      InsideMeansBad(samples, r, t);
    } else if IsBadRegime(samples[k].regime) {
      RunsFromCover(samples, 0, k);
      var r :| r in BadRuns(samples) && r.first <= k < r.exit;
      assert Inside(samples, r, t);
    }
  }

  lemma {:induction false} FastSpellsAreHit(
      samples: seq<Sample>, interventions: seq<real>, runs: seq<Run>, spells: seq<Spell>, limit: real)
    requires |runs| == |spells|
    requires forall k | 0 <= k < |runs| :: spells[k].hadIntervention == Hit(samples, interventions, runs[k])
    ensures CountFast(spells, limit) <= CountHit(samples, interventions, runs)
  {
    if spells != [] {
      FastSpellsAreHit(samples, interventions, runs[..|runs| - 1], spells[..|runs| - 1], limit);
    }
  }

  lemma HastySpellsAreHit(samples: seq<Sample>, interventions: seq<real>)
    ensures CountHasty(SpellsFrom(samples, interventions, 0))
            <= CountHit(samples, interventions, BadRuns(samples))
  {
    var runs, spells := BadRuns(samples), SpellsFrom(samples, interventions, 0);
    BadRunsAreTheMaximalRuns(samples);
    SpellsFollowRuns(samples, interventions, 0);
    assert forall k | 0 <= k < |runs| :: spells[k].hadIntervention == Hit(samples, interventions, runs[k]);
    var clean := CleanDurations(spells);
    if clean != [] {
      FastSpellsAreHit(samples, interventions, runs, spells, Median(clean));
    }
  }

  lemma OutsideAndHitAreDistinct(samples: seq<Sample>, interventions: seq<real>)
    requires TimeOrdered(samples)
    ensures CountOutside(samples, interventions) + CountHit(samples, interventions, BadRuns(samples))
            <= |interventions|
  {
    var runs := BadRuns(samples);
    BadRunsAreTheMaximalRuns(samples);
    var outside, owned := OutsideSet(samples, interventions), OwnedBy(samples, interventions, runs);
    CountOutsideIsCardinality(samples, interventions);
    EachHitRunOwnsAnIntervention(samples, interventions, runs);
    forall k | k in owned
      ensures k !in outside
    {
      var r :| r in runs && Inside(samples, r, interventions[k]);
      InsideMeansBad(samples, r, interventions[k]);
    }
    assert |outside + owned| == |outside| + |owned|;
    BoundedNats(|interventions|, outside + owned);
  }

  /** A policy is never charged more false interventions than it made. */
  lemma FalseAlarmsAreInterventions(samples: seq<Sample>, interventions: seq<real>)
    requires TimeOrdered(samples)
    ensures CountFalse(samples, interventions) <= |interventions|
  {
    var stamps := Sort(interventions);
    OutsideAndHitAreDistinct(samples, stamps);
    HastySpellsAreHit(samples, stamps);
  }

  // ----- the count itself, over samples and maximal runs

  /** The sample in force at `t` is a good one. */
  ghost predicate FellOnGood(samples: seq<Sample>, t: real) {
    exists k | 0 <= k < |samples| ::
      samples[k].ts <= t && (k == |samples| - 1 || t < samples[k + 1].ts) && !IsBadRegime(samples[k].regime)
  }

  lemma OutsideBadIsOnGood(samples: seq<Sample>, t: real)
    requires TimeOrdered(samples)
    ensures OutsideBad(samples, t) <==> FellOnGood(samples, t)
  {
    SamplesUpToIsPosition(samples, t);
    var n := SamplesUpTo(samples, t);
    if k :| 0 <= k < |samples| && samples[k].ts <= t && (k == |samples| - 1 || t < samples[k + 1].ts)
            && !IsBadRegime(samples[k].regime) {
      assert k == n - 1;
    }
    if OutsideBad(samples, t) {
      assert n < |samples| ==> t < samples[n].ts;
      assert 0 <= n - 1 < |samples| && samples[n - 1].ts <= t;
    }
  }

  /** An intervention fell inside the run. */
  ghost predicate Interrupted(samples: seq<Sample>, interventions: seq<real>, r: Run)
    requires WithinLog(samples, r)
  {
    exists t | t in interventions :: samples[r.first].ts <= t < samples[r.exit].ts
  }

  /** The uninterrupted runs that end on a good sample after a time that satisfies `p`. */
  ghost function SelfExits(samples: seq<Sample>, interventions: seq<real>, p: real -> bool): set<nat> {
    var runs := BadRuns(samples);
    set k: nat | k < |runs| && WithinLog(samples, runs[k]) && !Interrupted(samples, interventions, runs[k])
                 && !IsBadRegime(samples[runs[k].exit].regime)
                 && p(samples[runs[k].exit].ts - samples[runs[k].first].ts)
  }

  /** The interrupted runs that end on a good sample in less than `limit`. */
  ghost function CutShort(samples: seq<Sample>, interventions: seq<real>, limit: real): set<nat> {
    var runs := BadRuns(samples);
    set k: nat | k < |runs| && WithinLog(samples, runs[k]) && Interrupted(samples, interventions, runs[k])
                 && !IsBadRegime(samples[runs[k].exit].regime)
                 && samples[runs[k].exit].ts - samples[runs[k].first].ts < limit
  }

  /** Among the self-exits, `x` is the duration of that rank. */
  ghost predicate ExitRank(samples: seq<Sample>, interventions: seq<real>, x: real, rank: nat) {
    && SelfExits(samples, interventions, d => d == x) != {}
    && |SelfExits(samples, interventions, d => d < x)| <= rank < |SelfExits(samples, interventions, d => d <= x)|
  }

  ghost function ExitCount(samples: seq<Sample>, interventions: seq<real>): nat {
    |SelfExits(samples, interventions, d => true)|
  }

  ghost predicate MiddleExits(samples: seq<Sample>, interventions: seq<real>, lo: real, hi: real) {
    var n := ExitCount(samples, interventions);
    n > 0 && ExitRank(samples, interventions, lo, (n - 1) / 2) && ExitRank(samples, interventions, hi, n / 2)
  }

  ghost function CutsBetween(samples: seq<Sample>, interventions: seq<real>, lo: real, hi: real): nat {
    |CutShort(samples, interventions, Midpoint(lo, hi))|
  }

  /** `b` runs were cut shorter than the median self-exit; none if there is no self-exit to compare with. */
  ghost predicate CutsBelowMedian(samples: seq<Sample>, interventions: seq<real>, b: nat) {
    if ExitCount(samples, interventions) == 0 then b == 0
    else exists lo, hi :: MiddleExits(samples, interventions, lo, hi) && b == CutsBetween(samples, interventions, lo, hi)
  }

  lemma {:induction false} CountFastIsCardinality(spells: seq<Spell>, limit: real)
    ensures CountFast(spells, limit)
            == |Indices(spells, (sp: Spell) => sp.hadIntervention && sp.recovered && sp.duration < limit)|
  {
    var p := (sp: Spell) => sp.hadIntervention && sp.recovered && sp.duration < limit;
    if spells == [] {
      assert Indices(spells, p) == {};
    } else {
      var front, last := spells[..|spells| - 1], spells[|spells| - 1];
      CountFastIsCardinality(front, limit);
      IndicesSnoc(front, last, p);
      assert spells == front + [last];
    }
  }

  lemma {:induction false} CleanDurationsAreSelfExits(spells: seq<Spell>, p: real -> bool)
    ensures |Indices(CleanDurations(spells), p)|
            == |Indices(spells, (sp: Spell) => !sp.hadIntervention && sp.recovered && p(sp.duration))|
  {
    var q := (sp: Spell) => !sp.hadIntervention && sp.recovered && p(sp.duration);
    if spells == [] {
      assert Indices(spells, q) == {} && Indices(CleanDurations(spells), p) == {};
    } else {
      var front, last := spells[..|spells| - 1], spells[|spells| - 1];
      CleanDurationsAreSelfExits(front, p);
      IndicesSnoc(front, last, q);
      IndicesSnoc(CleanDurations(front), last.duration, p);
      assert CleanDurations(front) + [] == CleanDurations(front);
      assert spells == front + [last];
    }
  }

  lemma SpellsMatchRuns(samples: seq<Sample>, interventions: seq<real>, p: real -> bool, limit: real)
    ensures var spells := SpellsFrom(samples, interventions, 0);
            && Indices(spells, (sp: Spell) => !sp.hadIntervention && sp.recovered && p(sp.duration))
               == SelfExits(samples, interventions, p)
            && Indices(spells, (sp: Spell) => sp.hadIntervention && sp.recovered && sp.duration < limit)
               == CutShort(samples, interventions, limit)
  {
    var runs, spells := BadRuns(samples), SpellsFrom(samples, interventions, 0);
    BadRunsAreTheMaximalRuns(samples);
    SpellsFollowRuns(samples, interventions, 0);
    forall k | 0 <= k < |runs|
      ensures WithinLog(samples, runs[k])
      ensures spells[k].hadIntervention <==> Interrupted(samples, interventions, runs[k])
      ensures spells[k].recovered <==> !IsBadRegime(samples[runs[k].exit].regime)
      ensures spells[k].duration == samples[runs[k].exit].ts - samples[runs[k].first].ts
    {
      assert runs[k] in runs;
      SpellAtRun(samples, interventions, runs[k]);
    }
  }

  lemma SpellAtRun(samples: seq<Sample>, interventions: seq<real>, r: Run)
    requires WithinLog(samples, r)
    ensures SpellOf(samples, interventions, r).hadIntervention <==> Interrupted(samples, interventions, r)
  {
    if t :| t in interventions && samples[r.first].ts <= t < samples[r.exit].ts {
      assert Inside(samples, r, t);
    }
  }

  lemma CleanDurationsCount(samples: seq<Sample>, interventions: seq<real>, p: real -> bool)
    ensures |Indices(CleanDurations(SpellsFrom(samples, interventions, 0)), p)| == |SelfExits(samples, interventions, p)|
  {
    CleanDurationsAreSelfExits(SpellsFrom(samples, interventions, 0), p);
    SpellsMatchRuns(samples, interventions, p, 0.0);
  }

  lemma CleanRankIsExitRank(samples: seq<Sample>, interventions: seq<real>, x: real, rank: nat)
    requires Ranked(CleanDurations(SpellsFrom(samples, interventions, 0)), x, rank)
    ensures ExitRank(samples, interventions, x, rank)
  {
    var clean := CleanDurations(SpellsFrom(samples, interventions, 0));
    CleanDurationsCount(samples, interventions, d => d < x);
    CleanDurationsCount(samples, interventions, d => d <= x);
    CleanDurationsCount(samples, interventions, d => d == x);
    var k :| 0 <= k < |clean| && clean[k] == x;
    assert k in Indices(clean, d => d == x);
  }

  lemma CountFastIsCutShort(samples: seq<Sample>, interventions: seq<real>, limit: real)
    ensures CountFast(SpellsFrom(samples, interventions, 0), limit) == |CutShort(samples, interventions, limit)|
  {
    CountFastIsCardinality(SpellsFrom(samples, interventions, 0), limit);
    SpellsMatchRuns(samples, interventions, d => true, limit);
  }

  lemma ExitCountIsLength(samples: seq<Sample>, interventions: seq<real>)
    ensures ExitCount(samples, interventions) == |CleanDurations(SpellsFrom(samples, interventions, 0))|
  {
    CleanDurationsCount(samples, interventions, d => true);
    AllIndices(CleanDurations(SpellsFrom(samples, interventions, 0)));
  }

  lemma MiddleRanksAreMiddleExits(samples: seq<Sample>, interventions: seq<real>, lo: real, hi: real)
    requires MiddleRanks(CleanDurations(SpellsFrom(samples, interventions, 0)), lo, hi)
    ensures MiddleExits(samples, interventions, lo, hi)
  {
    var n := |CleanDurations(SpellsFrom(samples, interventions, 0))|;
    ExitCountIsLength(samples, interventions);
    CleanRankIsExitRank(samples, interventions, lo, (n - 1) / 2);
    CleanRankIsExitRank(samples, interventions, hi, n / 2);
  }

  lemma HastyAtMedian(samples: seq<Sample>, interventions: seq<real>, median: real)
    ensures var spells := SpellsFrom(samples, interventions, 0);
            CleanDurations(spells) != [] && median == Median(CleanDurations(spells)) ==>
              CountHasty(spells) == |CutShort(samples, interventions, median)|
  {
    CountFastIsCutShort(samples, interventions, median);
  }

  /** Kind (b), on the maximal runs: those an intervention cut shorter than the median self-exit. */
  lemma HastySpellsAreCutShort(samples: seq<Sample>, interventions: seq<real>)
    ensures CutsBelowMedian(samples, interventions, CountHasty(SpellsFrom(samples, interventions, 0)))
  {
    var clean := CleanDurations(SpellsFrom(samples, interventions, 0));
    ExitCountIsLength(samples, interventions);
    if clean != [] {
      MedianIsByRank(clean);
      var lo, hi :| MiddleRanks(clean, lo, hi) && Median(clean) == Midpoint(lo, hi);
      MiddleRanksAreMiddleExits(samples, interventions, lo, hi);
      HastyAtMedian(samples, interventions, Midpoint(lo, hi));
    }
  }

  ghost predicate SameMembers(a: seq<real>, b: seq<real>) {
    forall t :: t in a <==> t in b
  }

  lemma SameMembersSameRuns(samples: seq<Sample>, a: seq<real>, b: seq<real>, p: real -> bool, limit: real)
    requires SameMembers(a, b)
    ensures SelfExits(samples, a, p) == SelfExits(samples, b, p)
    ensures CutShort(samples, a, limit) == CutShort(samples, b, limit)
  {
    forall r | WithinLog(samples, r)
      ensures Interrupted(samples, a, r) <==> Interrupted(samples, b, r)
    {
    }
  }

  lemma SameMembersSameRank(samples: seq<Sample>, a: seq<real>, b: seq<real>, x: real, rank: nat)
    requires SameMembers(a, b)
    requires ExitRank(samples, a, x, rank)
    ensures ExitRank(samples, b, x, rank)
  {
    SameMembersSameRuns(samples, a, b, d => d < x, x);
    SameMembersSameRuns(samples, a, b, d => d <= x, x);
    SameMembersSameRuns(samples, a, b, d => d == x, x);
  }

  lemma SameMembersSameCounts(samples: seq<Sample>, a: seq<real>, b: seq<real>, lo: real, hi: real)
    requires SameMembers(a, b)
    ensures ExitCount(samples, a) == ExitCount(samples, b)
    ensures CutsBetween(samples, a, lo, hi) == CutsBetween(samples, b, lo, hi)
  {
    SameMembersSameRuns(samples, a, b, d => true, Midpoint(lo, hi));
  }

  lemma SameMembersSameMiddle(samples: seq<Sample>, a: seq<real>, b: seq<real>, lo: real, hi: real)
    requires SameMembers(a, b) && MiddleExits(samples, a, lo, hi)
    ensures MiddleExits(samples, b, lo, hi)
  {
    var n := ExitCount(samples, a);
    SameMembersSameCounts(samples, a, b, lo, hi);
    SameMembersSameRank(samples, a, b, lo, (n - 1) / 2);
    SameMembersSameRank(samples, a, b, hi, n / 2);
  }

  lemma SameMembersSameCuts(samples: seq<Sample>, a: seq<real>, b: seq<real>, n: nat)
    requires SameMembers(a, b)
    ensures CutsBelowMedian(samples, a, n) ==> CutsBelowMedian(samples, b, n)
  {
    SameMembersSameCounts(samples, a, b, 0.0, 0.0);
    if CutsBelowMedian(samples, a, n) && ExitCount(samples, a) > 0 {
      var lo, hi :| MiddleExits(samples, a, lo, hi) && n == CutsBetween(samples, a, lo, hi);
      SameMembersSameCounts(samples, a, b, lo, hi);
      SameMembersSameMiddle(samples, a, b, lo, hi);
    }
  }

  lemma OutsideCounted(samples: seq<Sample>, interventions: seq<real>)
    requires TimeOrdered(samples)
    ensures CountOutside(samples, Sort(interventions)) == |Indices(interventions, t => FellOnGood(samples, t))|
  {
    var stamps := Sort(interventions);
    forall t
      ensures OutsideBad(samples, t) <==> FellOnGood(samples, t)
    {
      OutsideBadIsOnGood(samples, t);
    }
    CountOutsideIsCardinality(samples, stamps);
    assert OutsideSet(samples, stamps) == Indices(stamps, t => FellOnGood(samples, t));
    SortKeepsCounts(interventions, t => FellOnGood(samples, t));
  }

  lemma CountFalseIsSum(samples: seq<Sample>, interventions: seq<real>)
    requires TimeOrdered(samples)
    ensures var stamps := Sort(interventions);
            CountFalse(samples, interventions) == CountOutside(samples, stamps) + CountHasty(SpellsFrom(samples, stamps, 0))
  {
    if interventions == [] {
      HastySpellsAreHit(samples, []);
      OutsideAndHitAreDistinct(samples, []);
    }
  }

  /** The false interventions are those that fell on a good sample and the runs cut shorter than the median
      self-exit. */
  lemma FalseAlarmsCounted(samples: seq<Sample>, interventions: seq<real>)
    requires TimeOrdered(samples)
    ensures exists b: nat ::
              && CutsBelowMedian(samples, interventions, b)
              && CountFalse(samples, interventions) == |Indices(interventions, t => FellOnGood(samples, t))| + b
  {
    var b := CountHasty(SpellsFrom(samples, Sort(interventions), 0));
    SortKeepsMembers(interventions);
    HastySpellsAreCutShort(samples, Sort(interventions));
    SameMembersSameCuts(samples, Sort(interventions), interventions, b);
    OutsideCounted(samples, interventions);
    CountFalseIsSum(samples, interventions);
  }

  lemma ExitRankIsUnique(samples: seq<Sample>, interventions: seq<real>, x: real, y: real, rank: nat)
    requires ExitRank(samples, interventions, x, rank) && ExitRank(samples, interventions, y, rank)
    ensures x == y
  {
    if x < y {
      SubsetCardinality(SelfExits(samples, interventions, d => d <= x), SelfExits(samples, interventions, d => d < y));
    } else if y < x {
      SubsetCardinality(SelfExits(samples, interventions, d => d <= y), SelfExits(samples, interventions, d => d < x));
    }
  }

  lemma CutsBelowMedianAreUnique(samples: seq<Sample>, interventions: seq<real>, a: nat, b: nat)
    ensures CutsBelowMedian(samples, interventions, a) && CutsBelowMedian(samples, interventions, b) ==> a == b
  {
    var n := ExitCount(samples, interventions);
    if n > 0 && CutsBelowMedian(samples, interventions, a) && CutsBelowMedian(samples, interventions, b) {
      var lo, hi :| MiddleExits(samples, interventions, lo, hi) && a == CutsBetween(samples, interventions, lo, hi);
      var lo', hi' :| MiddleExits(samples, interventions, lo', hi') && b == CutsBetween(samples, interventions, lo', hi');
      ExitRankIsUnique(samples, interventions, lo, lo', (n - 1) / 2);
      ExitRankIsUnique(samples, interventions, hi, hi', n / 2);
    }
  }

  // ----- the criterion

  function J(costs: Costs, badDuration: real, nInterventions: nat, nFalse: nat): real {
    costs.stuck * badDuration + costs.intervention * nInterventions as real + costs.falseAlarm * nFalse as real
  }

  /** What one more second, one more intervention and one more false alarm cost; nothing costs nothing. */
  lemma CostPerUnit(costs: Costs, bad: real, more: real, n: nat, f: nat)
    ensures J(costs, 0.0, 0, 0) == 0.0
    ensures J(costs, bad + more, n, f) - J(costs, bad, n, f) == costs.stuck * more
    ensures J(costs, bad, n + 1, f) - J(costs, bad, n, f) == costs.intervention
    ensures J(costs, bad, n, f + 1) - J(costs, bad, n, f) == costs.falseAlarm
  {
    assert costs.intervention * (n + 1) as real == costs.intervention * n as real + costs.intervention;
    assert costs.falseAlarm * (f + 1) as real == costs.falseAlarm * f as real + costs.falseAlarm;
    assert costs.stuck * (bad + more) == costs.stuck * bad + costs.stuck * more;
  }

  method ComputeJ(samples: seq<Sample>, interventions: seq<real>, costs: Costs,
                  badDurationSamples: Option<seq<Sample>>)
    returns (r: JResult)
    ensures var dur := if badDurationSamples.Some? then badDurationSamples.value else samples;
            r == JResult(J(costs, BadDuration(dur), |interventions|, CountFalse(samples, interventions)),
                         BadDuration(dur), |interventions|, CountFalse(samples, interventions))
  {
    var dur := if badDurationSamples.Some? then badDurationSamples.value else samples;
    var badDuration := 0.0;
    var i := 0;
    while i < |dur| - 1
      invariant 0 <= i && (dur != [] ==> i <= |dur| - 1) && (dur == [] ==> i == 0)
      invariant dur != [] ==> badDuration == BadDuration(dur[..i + 1])
      invariant dur == [] ==> badDuration == 0.0
    {
      BadDurationSnoc(dur, i);
      if IsBadRegime(dur[i].regime) {
        badDuration := badDuration + (dur[i + 1].ts - dur[i].ts);
      }
      i := i + 1;
    }
    if dur != [] {
      assert dur[..i + 1] == dur;
    }
    var nFalse := ComputeFalse(samples, interventions);
    r := JResult(J(costs, badDuration, |interventions|, nFalse), badDuration, |interventions|, nFalse);
  }
}
