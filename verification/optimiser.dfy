/** Offline choice of the dwell thresholds: counterfactual logs, the total criterion, and the
    coordinate descent over a grid of candidates. */
module Optimiser {
  import opened Sequences
  import opened ProcessState
  import opened Simulation
  import opened Criterion

  /** What the log would have looked like had the interventions been made. */
  type Counterfactual = (seq<Sample>, seq<real>) -> seq<Sample>

  function NoEffect(samples: seq<Sample>, interventions: seq<real>): seq<Sample> {
    samples
  }

  // ----- the stipulated counterfactual: an intervention ends the struggle

  predicate AnyUpTo(interventions: seq<real>, t: real) {
    exists iv | iv in interventions :: iv <= t
  }

  function Resolved(s: Sample, interventions: seq<real>): Sample {
    if IsBadRegime(s.regime) && AnyUpTo(interventions, s.ts) then s.(regime := Productive, dwell := 0.0) else s
  }

  function Truncate(samples: seq<Sample>, interventions: seq<real>): seq<Sample> {
    if samples == [] || interventions == [] then samples
    else Truncate(samples[..|samples| - 1], interventions) + [Resolved(samples[|samples| - 1], interventions)]
  }

  method TruncateAtInterventions(samples: seq<Sample>, interventions: seq<real>) returns (result: seq<Sample>)
    ensures result == Truncate(samples, interventions)
  {
    if interventions == [] {
      return samples;
    }
    var sorted := Sort(interventions);
    SortKeepsMembers(interventions);
    result := [];
    for i := 0 to |samples|
      invariant result == Truncate(samples[..i], interventions)
    {
      assert samples[..i + 1][..i] == samples[..i];
      var s := samples[i];
      if IsBadRegime(s.regime) && exists iv | iv in sorted :: iv <= s.ts {
        result := result + [Sample(s.ts, Productive, 0.0)];
      } else {
        result := result + [s];
      }
    }
    assert samples[..|samples|] == samples;
  }

  /** Sample by sample: bad samples at or after some intervention become productive ones of zero dwell, all
      others stay. */
  lemma {:induction false} TruncateAt(samples: seq<Sample>, interventions: seq<real>, k: nat)
    requires k < |samples|
    ensures |Truncate(samples, interventions)| == |samples|
    ensures var s := samples[k];
            Truncate(samples, interventions)[k]
            == if IsBadRegime(s.regime) && exists iv | iv in interventions :: iv <= s.ts then Sample(s.ts, Productive, 0.0)
               else s
  {
    var n := |samples| - 1;
    if interventions != [] {
      TruncateShape(samples, interventions);
      TruncateShape(samples[..n], interventions);
      if k < n {
        TruncateAt(samples[..n], interventions, k);
      } else {
        assert AnyUpTo(interventions, samples[n].ts) <==> exists iv | iv in interventions :: iv <= samples[n].ts;
      }
    }
  }

  function BadGapBefore(left: Sample, right: Sample, cut: real): real {
    if left.ts < cut then BadGap(left, right) else 0.0
  }

  /** Bad time whose gap opens strictly before `cut`. */
  function BadDurationBefore(samples: seq<Sample>, cut: real): real {
    var n := |samples|;
    if n <= 1 then 0.0
    else BadDurationBefore(samples[..n - 1], cut) + BadGapBefore(samples[n - 2], samples[n - 1], cut)
  }

  ghost predicate Earliest(first: real, interventions: seq<real>) {
    first in interventions && forall iv | iv in interventions :: first <= iv
  }

  lemma ResolvedGap(left: Sample, right: Sample, interventions: seq<real>, first: real)
    requires Earliest(first, interventions)
    ensures BadGap(Resolved(left, interventions), Resolved(right, interventions)) == BadGapBefore(left, right, first)
  {
    assert AnyUpTo(interventions, left.ts) <==> first <= left.ts;
  }

  lemma {:induction false} TruncateShape(samples: seq<Sample>, interventions: seq<real>)
    requires interventions != []
    ensures |Truncate(samples, interventions)| == |samples|
    ensures samples != [] ==> Truncate(samples, interventions)[|samples| - 1] == Resolved(samples[|samples| - 1], interventions)
  {
    if samples != [] {
      TruncateShape(samples[..|samples| - 1], interventions);
    }
  }

  /** Closed form of the stipulation: exactly the bad time before the first intervention is charged. */
  lemma {:induction false} TruncationClosedForm(samples: seq<Sample>, interventions: seq<real>, first: real)
    requires Earliest(first, interventions)
    ensures BadDuration(Truncate(samples, interventions)) == BadDurationBefore(samples, first)
  {
    var n := |samples|;
    TruncateShape(samples, interventions);
    if n > 1 {
      var earlier, truncated := Truncate(samples[..n - 1], interventions), Truncate(samples, interventions);
      TruncationClosedForm(samples[..n - 1], interventions, first);
      TruncateShape(samples[..n - 1], interventions);
      assert truncated[..n - 1] == earlier && truncated[n - 2] == earlier[n - 2];
      ResolvedGap(samples[n - 2], samples[n - 1], interventions, first);
    }
  }

  lemma {:induction false} LaterCutChargesMore(samples: seq<Sample>, early: real, late: real)
    requires TimeOrdered(samples) && early <= late
    ensures 0.0 <= BadDurationBefore(samples, early) <= BadDurationBefore(samples, late) <= BadDuration(samples)
  {
    if |samples| > 1 {
      LaterCutChargesMore(samples[..|samples| - 1], early, late);
    }
  }

  /** Under the stipulation, a stricter policy leaves the learner stuck at least as long, and no policy
      leaves the learner stuck longer than doing nothing. The policy may fire on one log (`firing`) and
      be charged on another (`samples`). */
  lemma StricterPolicyLeavesMoreBadTime(
      samples: seq<Sample>, firing: seq<Sample>, high: Thresholds, low: Thresholds, longer: real, shorter: real)
    requires TimeOrdered(samples) && TimeOrdered(firing)
    requires Stricter(high, low)
    ensures BadDuration(Truncate(samples, Fires(firing, low, shorter)))
            <= BadDuration(Truncate(samples, Fires(firing, high, longer)))
            <= BadDuration(samples)
  {
    var few, many := Fires(firing, high, longer), Fires(firing, low, shorter);
    FirstFireIsFirstEligible(firing, high, longer);
    FirstFireIsFirstEligible(firing, low, shorter);
    if few != [] {
      var i :| 0 <= i < |firing| && few[0] == firing[i].ts && Eligible(firing[i], high);
      assert Eligible(firing[i], low);
      TruncationClosedForm(samples, few, few[0]);
      TruncationClosedForm(samples, many, many[0]);
      LaterCutChargesMore(samples, many[0], few[0]);
    } else if many != [] {
      TruncationClosedForm(samples, many, many[0]);
      LaterCutChargesMore(samples, many[0], many[0]);
    }
  }

  // ----- the total criterion

  /** A logged session; `detections` is empty when firing is read off the labels themselves. */
  datatype Session = Session(samples: seq<Sample>, detections: seq<Sample>)

  function FiringLog(s: Session): seq<Sample> {
    if s.detections != [] then s.detections else s.samples
  }

  function SessionJ(s: Session, costs: Costs, thresholds: Thresholds, cooldown: real, cf: Counterfactual): real {
    var fires := Fires(FiringLog(s), thresholds, cooldown);
    J(costs, BadDuration(cf(s.samples, fires)), |fires|, CountFalse(s.samples, fires))
  }

  function TotalJ(sessions: seq<Session>, costs: Costs, thresholds: Thresholds, cooldown: real, cf: Counterfactual): real {
    if sessions == [] then 0.0
    else TotalJ(sessions[..|sessions| - 1], costs, thresholds, cooldown, cf)
         + SessionJ(sessions[|sessions| - 1], costs, thresholds, cooldown, cf)
  }

  /** Firing is read off the detections if there are any, else off the samples; false alarms and bad time
      always off the samples. */
  lemma SessionJReads(s: Session, costs: Costs, thresholds: Thresholds, cooldown: real, cf: Counterfactual)
    ensures var fires := Fires(if s.detections == [] then s.samples else s.detections, thresholds, cooldown);
            SessionJ(s, costs, thresholds, cooldown, cf)
            == J(costs, BadDuration(cf(s.samples, fires)), |fires|, CountFalse(s.samples, fires))
  {
  }

  /** The total is the sum over the sessions. */
  lemma TotalJSnoc(sessions: seq<Session>, s: Session, costs: Costs, thresholds: Thresholds, cooldown: real,
                   cf: Counterfactual)
    ensures TotalJ([], costs, thresholds, cooldown, cf) == 0.0
    ensures TotalJ(sessions + [s], costs, thresholds, cooldown, cf)
            == TotalJ(sessions, costs, thresholds, cooldown, cf) + SessionJ(s, costs, thresholds, cooldown, cf)
  {
    assert (sessions + [s])[..|sessions|] == sessions;
  }

  /** A policy that never fires pays for the bad time alone, under either counterfactual. */
  lemma SilenceCostsBadTime(s: Session, costs: Costs, thresholds: Thresholds, cooldown: real)
    requires Fires(FiringLog(s), thresholds, cooldown) == []
    ensures SessionJ(s, costs, thresholds, cooldown, NoEffect) == J(costs, BadDuration(s.samples), 0, 0)
    ensures SessionJ(s, costs, thresholds, cooldown, Truncate) == J(costs, BadDuration(s.samples), 0, 0)
  {
  }

  method ComputeTotalJ(sessions: seq<Session>, costs: Costs, thresholds: Thresholds, cooldown: real, cf: Counterfactual)
    returns (total: real)
    ensures total == TotalJ(sessions, costs, thresholds, cooldown, cf)
  {
    total := 0.0;
    for i := 0 to |sessions|
      invariant total == TotalJ(sessions[..i], costs, thresholds, cooldown, cf)
    {
      assert sessions[..i + 1][..i] == sessions[..i];
      var s := sessions[i];
      var interventions := SimulateInterventions(FiringLog(s), thresholds, cooldown);
      var r := ComputeJ(s.samples, interventions, costs, Some(cf(s.samples, interventions)));
      total := total + r.j;
    }
    assert sessions[..|sessions|] == sessions;
  }

  lemma InterventionsOnlyCost(costs: Costs, badDuration: real, n: nat, f: nat)
    requires costs.intervention >= 0.0 && costs.falseAlarm >= 0.0
    ensures J(costs, badDuration, 0, 0) <= J(costs, badDuration, n, f)
  {
    assert costs.intervention * n as real >= 0.0;
    assert costs.falseAlarm * f as real >= 0.0;
  }

  /** If interventions are assumed to change nothing, never intervening wins: without a counterfactual
      that depends on the thresholds there is nothing to optimise. */
  lemma {:induction false} NoEffectMakesSilenceOptimal(
      sessions: seq<Session>, costs: Costs, silent: Thresholds, thresholds: Thresholds, cooldown: real)
    requires costs.intervention >= 0.0 && costs.falseAlarm >= 0.0
    requires forall s | s in sessions :: Fires(FiringLog(s), silent, cooldown) == []
    ensures TotalJ(sessions, costs, silent, cooldown, NoEffect) <= TotalJ(sessions, costs, thresholds, cooldown, NoEffect)
  {
    if sessions != [] {
      NoEffectMakesSilenceOptimal(sessions[..|sessions| - 1], costs, silent, thresholds, cooldown);
      var s := sessions[|sessions| - 1];
      var fires := Fires(FiringLog(s), thresholds, cooldown);
      InterventionsOnlyCost(costs, BadDuration(s.samples), |fires|, CountFalse(s.samples, fires));
      assert SessionJ(s, costs, silent, cooldown, NoEffect) <= SessionJ(s, costs, thresholds, cooldown, NoEffect);
    }
  }

  // ----- coordinate descent

  datatype Axis = Axis(regime: Regime, candidates: seq<real>)

  /** The total criterion as a function of the thresholds alone. */
  type Price = Thresholds -> real

  function PriceOf(sessions: seq<Session>, costs: Costs, cooldown: real, cf: Counterfactual): Price {
    thresholds => TotalJ(sessions, costs, thresholds, cooldown, cf)
  }

  /** A grid is a dictionary, so no regime occurs twice. */
  ghost predicate IsGrid(grid: seq<Axis>) {
    forall a, b | 0 <= a < b < |grid| :: grid[a].regime != grid[b].regime
  }

  function FirstOfGrid(grid: seq<Axis>): Thresholds {
    if grid == [] then map[]
    else
      var axis := grid[|grid| - 1];
      var rest := FirstOfGrid(grid[..|grid| - 1]);
      if axis.candidates == [] then rest else rest[axis.regime := axis.candidates[0]]
  }

  /** The thresholds once the first `k` axes have been locked on their choices. */
  ghost function Locked(grid: seq<Axis>, choices: seq<real>, k: nat): Thresholds
    requires k <= |choices| <= |grid|
  {
    if k == 0 then FirstOfGrid(grid) else Locked(grid, choices, k - 1)[grid[k - 1].regime := choices[k - 1]]
  }

  ghost predicate BestAt(axis: Axis, price: Price, current: Thresholds, k: nat)
    requires k < |axis.candidates|
  {
    var best := price(current[axis.regime := axis.candidates[k]]);
    forall i | 0 <= i < |axis.candidates| ::
      var other := price(current[axis.regime := axis.candidates[i]]);
      best <= other && (i < k ==> best < other)
  }

  /** `choice` is the earliest of the cheapest candidates, all other thresholds left as they are. */
  ghost predicate FirstMinimiser(axis: Axis, price: Price, current: Thresholds, choice: real) {
    exists k | 0 <= k < |axis.candidates| :: axis.candidates[k] == choice && BestAt(axis, price, current, k)
  }

  /** The first `k` axes of a sweep: each choice the first minimiser given everything locked before it. */
  ghost predicate Descent(grid: seq<Axis>, price: Price, choices: seq<real>, k: nat)
    requires k <= |choices| <= |grid|
  {
    k > 0 ==>
      && Descent(grid, price, choices, k - 1)
      && FirstMinimiser(grid[k - 1], price, Locked(grid, choices, k - 1), choices[k - 1])
  }

  ghost predicate FirstLeast(prices: seq<real>, k: nat) {
    k < |prices| && forall i | 0 <= i < |prices| :: prices[k] <= prices[i] && (i < k ==> prices[k] < prices[i])
  }

  /** `prices` lists what the first candidates of an axis cost. */
  ghost predicate Priced(axis: Axis, price: Price, current: Thresholds, prices: seq<real>) {
    && |prices| <= |axis.candidates|
    && forall a | 0 <= a < |prices| :: prices[a] == price(current[axis.regime := axis.candidates[a]])
  }

  lemma FirstLeastIsBest(axis: Axis, price: Price, current: Thresholds, prices: seq<real>, k: nat)
    requires Priced(axis, price, current, prices) && |prices| == |axis.candidates| && FirstLeast(prices, k)
    ensures FirstMinimiser(axis, price, current, axis.candidates[k])
  {
    assert BestAt(axis, price, current, k);
  }

  lemma PriceOneMore(axis: Axis, price: Price, current: Thresholds, prices: seq<real>, j: real)
    requires Priced(axis, price, current, prices) && |prices| < |axis.candidates|
    requires j == price(current[axis.regime := axis.candidates[|prices|]])
    ensures Priced(axis, price, current, prices + [j])
  {
  }

  method BestCandidate(sessions: seq<Session>, costs: Costs, current: Thresholds, axis: Axis,
                       cooldown: real, cf: Counterfactual)
    returns (best: real)
    requires axis.candidates != []
    ensures FirstMinimiser(axis, PriceOf(sessions, costs, cooldown, cf), current, best)
  {
    best := axis.candidates[0];
    var bestJ: Option<real> := None;
    ghost var k, prices := 0, [];
    ghost var price := PriceOf(sessions, costs, cooldown, cf);
    for i := 0 to |axis.candidates|
      invariant |prices| == i && k < |axis.candidates| && best == axis.candidates[k]
      invariant if i == 0 then bestJ == None else FirstLeast(prices, k) && bestJ == Some(prices[k])
      invariant Priced(axis, price, current, prices)
    {
      var tk := axis.candidates[i];
      var j := ComputeTotalJ(sessions, costs, current[axis.regime := tk], cooldown, cf);
      PriceOneMore(axis, price, current, prices, j);
      prices := prices + [j];
      if bestJ == None || j < bestJ.value {
        bestJ := Some(j);
        best := tk;
        k := i;
      }
    }
    FirstLeastIsBest(axis, price, current, prices, k);
  }

  /** The thresholds, or None where the source raises IndexError on an empty candidate list. */
  method DeriveTk(sessions: seq<Session>, costs: Costs, grid: seq<Axis>, cooldown: real, cf: Counterfactual)
    returns (result: Option<Thresholds>, ghost choices: seq<real>)
    requires IsGrid(grid)
    ensures result.None? <==> exists k | 0 <= k < |grid| :: grid[k].candidates == []
    ensures result.Some? ==> IsAssignment(result.value, grid, choices)
    ensures result.Some? ==> Descent(grid, PriceOf(sessions, costs, cooldown, cf), choices, |grid|)
  {
    ghost var price := PriceOf(sessions, costs, cooldown, cf);
    var current := FirstOfGrid(grid);
    var chosen: Thresholds := map[];
    choices := [];
    for k := 0 to |grid|
      invariant |choices| == k
      invariant forall a | 0 <= a < k :: grid[a].candidates != []
      invariant Swept(grid, price, choices, current, chosen)
    {
      var axis := grid[k];
      if axis.candidates == [] {
        return None, [];
      }
      var best := BestCandidate(sessions, costs, current, axis, cooldown, cf);
      ExtendSweep(grid, price, choices, current, chosen, best);
      chosen := chosen[axis.regime := best];
      current := current[axis.regime := best];
      choices := choices + [best];
    }
    assert grid[..|grid|] == grid;
    result := Some(chosen);
  }

  /** How far a sweep has come: everything locked so far, and the dictionary of the choices made. */
  ghost predicate Swept(grid: seq<Axis>, price: Price, choices: seq<real>, current: Thresholds, chosen: Thresholds) {
    && |choices| <= |grid|
    && Descent(grid, price, choices, |choices|)
    && current == Locked(grid, choices, |choices|)
    && IsAssignment(chosen, grid[..|choices|], choices)
  }

  lemma ExtendSweep(grid: seq<Axis>, price: Price, choices: seq<real>, current: Thresholds, chosen: Thresholds, best: real)
    requires IsGrid(grid) && |choices| < |grid| && Swept(grid, price, choices, current, chosen)
    requires FirstMinimiser(grid[|choices|], price, current, best)
    ensures var regime := grid[|choices|].regime;
            Swept(grid, price, choices + [best], current[regime := best], chosen[regime := best])
  {
    ExtendDescent(grid, price, choices, best);
    ExtendAssignment(chosen, grid, choices, best);
  }

  /** The dictionary that sends every regime of the grid to its choice. */
  ghost predicate IsAssignment(thresholds: Thresholds, grid: seq<Axis>, choices: seq<real>) {
    && |choices| == |grid|
    && (forall k | 0 <= k < |grid| :: grid[k].regime in thresholds && thresholds[grid[k].regime] == choices[k])
    && (forall r | r in thresholds :: exists k | 0 <= k < |grid| :: grid[k].regime == r)
  }

  lemma ExtendAssignment(thresholds: Thresholds, grid: seq<Axis>, choices: seq<real>, best: real)
    requires IsGrid(grid) && |choices| < |grid|
    requires IsAssignment(thresholds, grid[..|choices|], choices)
    ensures IsAssignment(thresholds[grid[|choices|].regime := best], grid[..|choices| + 1], choices + [best])
  {
    var n := |choices|;
    var longer := grid[..n + 1];
    var extended := thresholds[grid[n].regime := best];
    forall r | r in extended
      ensures exists k | 0 <= k < |longer| :: longer[k].regime == r
    {
      if r == grid[n].regime {
        assert longer[n].regime == r;
      } else {
        var k :| 0 <= k < n && grid[..n][k].regime == r;
        assert longer[k].regime == r;
      }
    }
  }

  lemma {:induction false} PrefixOfSweep(grid: seq<Axis>, price: Price, choices: seq<real>, best: real, k: nat)
    requires k <= |choices| < |grid|
    ensures Locked(grid, choices + [best], k) == Locked(grid, choices, k)
    ensures Descent(grid, price, choices + [best], k) <==> Descent(grid, price, choices, k)
  {
    if k > 0 {
      PrefixOfSweep(grid, price, choices, best, k - 1);
    }
  }

  lemma ExtendDescent(grid: seq<Axis>, price: Price, choices: seq<real>, best: real)
    requires |choices| < |grid| && Descent(grid, price, choices, |choices|)
    requires FirstMinimiser(grid[|choices|], price, Locked(grid, choices, |choices|), best)
    ensures Descent(grid, price, choices + [best], |choices| + 1)
    ensures Locked(grid, choices + [best], |choices| + 1)
            == Locked(grid, choices, |choices|)[grid[|choices|].regime := best]
  {
    PrefixOfSweep(grid, price, choices, best, |choices|);
  }

  lemma {:induction false} FirstOfGridAt(grid: seq<Axis>, k: nat)
    requires IsGrid(grid) && k < |grid| && grid[k].candidates != []
    ensures grid[k].regime in FirstOfGrid(grid) && FirstOfGrid(grid)[grid[k].regime] == grid[k].candidates[0]
  {
    if k < |grid| - 1 {
      FirstOfGridAt(grid[..|grid| - 1], k);
    }
  }

  /** Axes not yet visited still sit on their first candidate. */
  lemma {:induction false} UnvisitedAxesStay(grid: seq<Axis>, choices: seq<real>, k: nat, a: nat)
    requires IsGrid(grid) && k <= a < |grid| && |choices| == |grid| && grid[a].candidates != []
    ensures grid[a].regime in Locked(grid, choices, k)
    ensures Locked(grid, choices, k)[grid[a].regime] == grid[a].candidates[0]
  {
    if k == 0 {
      FirstOfGridAt(grid, a);
    } else {
      UnvisitedAxesStay(grid, choices, k - 1, a);
    }
  }

  /** Every step of the sweep lowers the total criterion or leaves it, so the whole sweep does. */
  lemma {:induction false} DescentNeverLoses(grid: seq<Axis>, price: Price, choices: seq<real>, k: nat)
    requires IsGrid(grid) && k <= |choices| == |grid| && Descent(grid, price, choices, k)
    ensures price(Locked(grid, choices, k)) <= price(FirstOfGrid(grid))
  {
    if k > 0 {
      DescentNeverLoses(grid, price, choices, k - 1);
      var axis, current := grid[k - 1], Locked(grid, choices, k - 1);
      var best :| 0 <= best < |axis.candidates| && axis.candidates[best] == choices[k - 1]
                  && BestAt(axis, price, current, best);
      UnvisitedAxesStay(grid, choices, k - 1, k - 1);
      assert current[axis.regime := axis.candidates[0]] == current;
    }
  }

  lemma {:induction false} VisitedAxesHoldTheirChoice(grid: seq<Axis>, choices: seq<real>, k: nat, a: nat)
    requires IsGrid(grid) && a < k <= |grid| == |choices|
    ensures grid[a].regime in Locked(grid, choices, k) && Locked(grid, choices, k)[grid[a].regime] == choices[a]
  {
    if a < k - 1 {
      VisitedAxesHoldTheirChoice(grid, choices, k - 1, a);
    }
  }

  lemma {:induction false} LockedKeys(grid: seq<Axis>, choices: seq<real>, k: nat, r: Regime)
    requires k <= |grid| == |choices| && r in Locked(grid, choices, k)
    ensures exists a | 0 <= a < |grid| :: grid[a].regime == r
  {
    if k > 0 {
      if r != grid[k - 1].regime {
        LockedKeys(grid, choices, k - 1, r);
      }
    } else {
      FirstOfGridKeys(grid, r);
    }
  }

  lemma {:induction false} FirstOfGridKeys(grid: seq<Axis>, r: Regime)
    requires r in FirstOfGrid(grid)
    ensures exists a | 0 <= a < |grid| :: grid[a].regime == r
  {
    var n := |grid| - 1;
    if grid[n].regime != r {
      FirstOfGridKeys(grid[..n], r);
      var a :| 0 <= a < n && grid[..n][a].regime == r;
      assert grid[a].regime == r;
    }
  }

  /** What the sweep returns is where it arrived, and costs no more than the first candidate of every
      axis together. */
  lemma DerivedBeatsFirstOfGrid(grid: seq<Axis>, price: Price, choices: seq<real>, result: Thresholds)
    requires IsGrid(grid) && |choices| == |grid| && Descent(grid, price, choices, |grid|)
    requires IsAssignment(result, grid, choices)
    ensures result == Locked(grid, choices, |grid|)
    ensures price(result) <= price(FirstOfGrid(grid))
  {
    var reached := Locked(grid, choices, |grid|);
    forall r | r in reached
      ensures r in result && result[r] == reached[r]
    {
      LockedKeys(grid, choices, |grid|, r);
      var a :| 0 <= a < |grid| && grid[a].regime == r;
      VisitedAxesHoldTheirChoice(grid, choices, |grid|, a);
    }
    forall r | r in result
      ensures r in reached
    {
      var a :| 0 <= a < |grid| && grid[a].regime == r;
      VisitedAxesHoldTheirChoice(grid, choices, |grid|, a);
    }
    DescentNeverLoses(grid, price, choices, |grid|);
  }

  /** In terms of the total criterion itself. */
  lemma DerivedCostsNoMore(sessions: seq<Session>, costs: Costs, cooldown: real, cf: Counterfactual,
                           grid: seq<Axis>, choices: seq<real>, result: Thresholds)
    requires IsGrid(grid) && |choices| == |grid|
    requires Descent(grid, PriceOf(sessions, costs, cooldown, cf), choices, |grid|)
    requires IsAssignment(result, grid, choices)
    ensures TotalJ(sessions, costs, result, cooldown, cf) <= TotalJ(sessions, costs, FirstOfGrid(grid), cooldown, cf)
  {
    DerivedBeatsFirstOfGrid(grid, PriceOf(sessions, costs, cooldown, cf), choices, result);
  }
}
