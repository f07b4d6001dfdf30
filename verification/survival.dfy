/** Censored survival statistics: the Kaplan-Meier curve, its median, the reach rate and the restricted
    mean. */
module Survival {
  import opened Sequences

  /** One learner: how long they were observed, and whether they reached the goal then. */
  datatype Outcome = Outcome(duration: real, event: bool)

  /** Python's `zip`: as many pairs as the shorter list allows. */
  function Zip(durations: seq<real>, events: seq<bool>): seq<Outcome> {
    if durations == [] || events == [] then []
    else [Outcome(durations[0], events[0])] + Zip(durations[1..], events[1..])
  }

  // ----- counting

  /** Learners still under observation just before `t`. */
  function AtRisk(os: seq<Outcome>, t: real): nat {
    if os == [] then 0 else AtRisk(os[1..], t) + if os[0].duration >= t then 1 else 0
  }

  /** Learners whose observation ends at `t`, by reaching the goal or otherwise. */
  function ExitsAt(os: seq<Outcome>, t: real): nat {
    if os == [] then 0 else ExitsAt(os[1..], t) + if os[0].duration == t then 1 else 0
  }

  /** Learners who reach the goal at `t`. */
  function EventsAt(os: seq<Outcome>, t: real): nat {
    if os == [] then 0 else EventsAt(os[1..], t) + if os[0].duration == t && os[0].event then 1 else 0
  }

  /** Learners observed past `t`. */
  function Beyond(os: seq<Outcome>, t: real): nat {
    if os == [] then 0 else Beyond(os[1..], t) + if os[0].duration > t then 1 else 0
  }

  /** Every count is the size of a set of learners; only those who reached the goal are events. */
  lemma {:induction false} CountsAreCardinalities(os: seq<Outcome>, t: real)
    ensures AtRisk(os, t) == |Indices(os, (o: Outcome) => o.duration >= t)|
    ensures ExitsAt(os, t) == |Indices(os, (o: Outcome) => o.duration == t)|
    ensures EventsAt(os, t) == |Indices(os, (o: Outcome) => o.duration == t && o.event)|
    ensures Beyond(os, t) == |Indices(os, (o: Outcome) => o.duration > t)|
  {
    if os == [] {
      assert forall p: Outcome -> bool :: Indices(os, p) == {};
    } else {
      CountsAreCardinalities(os[1..], t);
      assert os == [os[0]] + os[1..];
      IndicesCons(os[0], os[1..], (o: Outcome) => o.duration >= t);
      IndicesCons(os[0], os[1..], (o: Outcome) => o.duration == t);
      IndicesCons(os[0], os[1..], (o: Outcome) => o.duration == t && o.event);
      IndicesCons(os[0], os[1..], (o: Outcome) => o.duration > t);
    }
  }

  lemma {:induction false} ZipAt(durations: seq<real>, events: seq<bool>, k: nat)
    ensures |Zip(durations, events)| == if |durations| <= |events| then |durations| else |events|
    ensures k < |Zip(durations, events)| ==> Zip(durations, events)[k] == Outcome(durations[k], events[k])
  {
    if durations != [] && events != [] {
      ZipAt(durations[1..], events[1..], if k == 0 then 0 else k - 1);
    }
  }

  lemma {:induction false} ExitsLeaveBeyond(os: seq<Outcome>, t: real)
    ensures AtRisk(os, t) == ExitsAt(os, t) + Beyond(os, t)
    ensures EventsAt(os, t) <= ExitsAt(os, t)
    ensures AtRisk(os, t) <= |os|
    ensures (exists o | o in os :: o.duration == t) ==> ExitsAt(os, t) > 0
    ensures (forall o | o in os :: o.event) ==> EventsAt(os, t) == ExitsAt(os, t)
  {
    if os != [] {
      ExitsLeaveBeyond(os[1..], t);
    }
  }

  /** Nobody leaves strictly between `t` and `next`. */
  lemma {:induction false} BeyondIsNextAtRisk(os: seq<Outcome>, t: real, next: real)
    requires t < next
    requires forall o | o in os :: o.duration <= t || next <= o.duration
    ensures Beyond(os, t) == AtRisk(os, next)
  {
    if os != [] {
      assert os[0] in os;
      BeyondIsNextAtRisk(os[1..], t, next);
    }
  }

  lemma {:induction false} EveryoneAtRisk(os: seq<Outcome>, t: real)
    requires forall o | o in os :: t <= o.duration
    ensures AtRisk(os, t) == |os|
  {
    if os != [] {
      assert os[0] in os;
      EveryoneAtRisk(os[1..], t);
    }
  }

  lemma {:induction false} NobodyBeyond(os: seq<Outcome>, t: real)
    requires forall o | o in os :: o.duration <= t
    ensures Beyond(os, t) == 0
  {
    if os != [] {
      assert os[0] in os;
      NobodyBeyond(os[1..], t);
    }
  }

  // ----- the curve

  function Durations(os: seq<Outcome>): seq<real> {
    if os == [] then [] else [os[0].duration] + Durations(os[1..])
  }

  /** The distinct exit times, ascending. */
  function Times(os: seq<Outcome>): (ts: seq<real>)
    ensures StrictlyAscending(ts)
  {
    SortedDistinct(Durations(os))
  }

  lemma {:induction false} DurationsAreExits(os: seq<Outcome>, d: real)
    ensures d in Durations(os) <==> exists o | o in os :: o.duration == d
  {
    if os != [] {
      DurationsAreExits(os[1..], d);
      assert forall o :: o in os <==> o == os[0] || o in os[1..];
    }
  }

  lemma TimesAreExits(os: seq<Outcome>, t: real)
    ensures t in Times(os) <==> exists o | o in os :: o.duration == t
  {
    DurationsAreExits(os, t);
  }

  /** Survival after `d` of the `n` at risk have had their event. */
  function Thin(s: real, d: nat, n: nat): real
    requires d <= n
  {
    if d > 0 then s * (1.0 - d as real / n as real) else s
  }

  /** The product-limit estimate after the exit times `ts`. */
  function Surv(os: seq<Outcome>, ts: seq<real>): real {
    if ts == [] then 1.0
    else
      var t := ts[|ts| - 1];
      ExitsLeaveBeyond(os, t);
      Thin(Surv(os, ts[..|ts| - 1]), EventsAt(os, t), AtRisk(os, t))
  }

  datatype Point = Point(t: real, s: real)

  function Curve(os: seq<Outcome>, ts: seq<real>): (steps: seq<Point>)
    ensures |steps| == |ts|
  {
    if ts == [] then [] else Curve(os, ts[..|ts| - 1]) + [Point(ts[|ts| - 1], Surv(os, ts))]
  }

  function Steps(os: seq<Outcome>): seq<Point> {
    Curve(os, Times(os))
  }

  /** Who is left once the first `k` exit times have passed. */
  function Remaining(os: seq<Outcome>, ts: seq<real>, k: nat): nat
    requires k <= |ts|
  {
    if k == 0 then |os| else Beyond(os, ts[k - 1])
  }

  lemma RemainingAreAtRisk(os: seq<Outcome>, k: nat)
    requires k < |Times(os)|
    ensures Remaining(os, Times(os), k) == AtRisk(os, Times(os)[k]) > 0
  {
    var ts := Times(os);
    var t := ts[k];
    TimesAreExits(os, t);
    ExitsLeaveBeyond(os, t);
    forall o | o in os
      ensures k > 0 ==> o.duration <= ts[k - 1] || t <= o.duration
      ensures k == 0 ==> t <= o.duration
    {
      TimesAreExits(os, o.duration);
    }
    if k == 0 {
      EveryoneAtRisk(os, t);
    } else {
      BeyondIsNextAtRisk(os, ts[k - 1], t);
    }
  }

  lemma CurveSnoc(os: seq<Outcome>, ts: seq<real>, k: nat)
    requires k < |ts|
    ensures EventsAt(os, ts[k]) <= AtRisk(os, ts[k])
    ensures Surv(os, ts[..k + 1]) == Thin(Surv(os, ts[..k]), EventsAt(os, ts[k]), AtRisk(os, ts[k]))
    ensures Curve(os, ts[..k + 1]) == Curve(os, ts[..k]) + [Point(ts[k], Surv(os, ts[..k + 1]))]
  {
    ExitsLeaveBeyond(os, ts[k]);
    assert ts[..k + 1][..k] == ts[..k];
  }

  method SurvivalSteps(durations: seq<real>, events: seq<bool>) returns (steps: seq<Point>)
    ensures steps == Steps(Zip(durations, events))
  {
    if durations == [] {
      return [];
    }
    var paired := Zip(durations, events);
    var atRisk, surv := |paired|, 1.0;
    steps := [];
    var times := Times(paired);
    for k := 0 to |times|
      invariant atRisk == Remaining(paired, times, k)
      invariant surv == Surv(paired, times[..k])
      invariant steps == Curve(paired, times[..k])
    {
      var t := times[k];
      RemainingAreAtRisk(paired, k);
      CurveSnoc(paired, times, k);
      ExitsLeaveBeyond(paired, t);
      var d, c := EventsAt(paired, t), ExitsAt(paired, t);
      if atRisk > 0 && d > 0 {
        surv := Thin(surv, d, atRisk);
      }
      steps := steps + [Point(t, surv)];
      atRisk := atRisk - c;
    }
    assert times[..|times|] == times;
  }

  lemma ThinOnlyLowers(s: real, d: nat, n: nat)
    requires d <= n && 0.0 <= s
    ensures 0.0 <= Thin(s, d, n) <= s
  {
    if d > 0 {
      var f := d as real / n as real;
      assert 0.0 <= f <= 1.0;
      ProductNonnegative(s, f);
      ProductNonnegative(s, 1.0 - f);
    }
  }

  lemma {:induction false} SurvInUnit(os: seq<Outcome>, ts: seq<real>)
    ensures 0.0 <= Surv(os, ts) <= 1.0
    ensures ts != [] ==> Surv(os, ts) <= Surv(os, ts[..|ts| - 1])
  {
    if ts != [] {
      var t := ts[|ts| - 1];
      SurvInUnit(os, ts[..|ts| - 1]);
      ExitsLeaveBeyond(os, t);
      ThinOnlyLowers(Surv(os, ts[..|ts| - 1]), EventsAt(os, t), AtRisk(os, t));
    }
  }

  /** A step curve: ascending times, survival in the unit interval and never rising. `top` bounds it. */
  ghost predicate StepCurve(steps: seq<Point>, top: real) {
    && 0.0 <= top <= 1.0
    && (forall i, j | 0 <= i < j < |steps| :: steps[i].t < steps[j].t && steps[j].s <= steps[i].s)
    && (forall i | 0 <= i < |steps| :: 0.0 <= steps[i].s <= top)
  }

  lemma {:induction false} CurveAt(os: seq<Outcome>, ts: seq<real>, k: nat)
    requires k < |ts|
    ensures Curve(os, ts)[k] == Point(ts[k], Surv(os, ts[..k + 1]))
  {
    if k < |ts| - 1 {
      CurveAt(os, ts[..|ts| - 1], k);
      assert ts[..|ts| - 1][..k + 1] == ts[..k + 1];
    } else {
      assert ts[..k + 1] == ts;
    }
  }

  lemma {:induction false} SurvNeverRises(os: seq<Outcome>, ts: seq<real>, j: nat, k: nat)
    requires j <= k <= |ts|
    ensures Surv(os, ts[..k]) <= Surv(os, ts[..j])
  {
    if j < k {
      SurvNeverRises(os, ts, j, k - 1);
      SurvInUnit(os, ts[..k]);
      assert ts[..k][..k - 1] == ts[..k - 1];
    }
  }

  /** The curve after the first `k` exit times. */
  ghost function Level(os: seq<Outcome>, k: nat): real
    requires k <= |Times(os)|
  {
    Surv(os, Times(os)[..k])
  }

  lemma StepAt(os: seq<Outcome>, k: nat)
    requires k < |Times(os)|
    ensures Steps(os)[k] == Point(Times(os)[k], Level(os, k + 1))
    ensures 0.0 <= Steps(os)[k].s <= 1.0
  {
    CurveAt(os, Times(os), k);
    SurvInUnit(os, Times(os)[..k + 1]);
  }

  /** The Kaplan-Meier estimate is a survival curve. */
  lemma StepsAreACurve(os: seq<Outcome>)
    ensures StepCurve(Steps(os), 1.0)
  {
    var steps := Steps(os);
    forall i | 0 <= i < |steps|
      ensures 0.0 <= steps[i].s <= 1.0
    {
      StepAt(os, i);
    }
    forall i, j | 0 <= i < j < |steps|
      ensures steps[i].t < steps[j].t && steps[j].s <= steps[i].s
    {
      StepAt(os, i);
      StepAt(os, j);
      SurvNeverRises(os, Times(os), i + 1, j + 1);
    }
  }

  /** What is left of `before` when `events` of those at risk have had theirs. */
  ghost function LeftAfter(before: real, events: nat, atRisk: nat): real
    requires atRisk > 0
  {
    if events == 0 then before else before * (1.0 - events as real / atRisk as real)
  }

  lemma ThinLeaves(s: real, d: nat, n: nat)
    requires d <= n && n > 0
    ensures Thin(s, d, n) == LeftAfter(s, d, n)
  {
  }

  /** With any censoring: across an exit time survival is multiplied by the share of those at risk who have
      no event there, so it stays flat where all exits are censored. */
  lemma SurvivalAcrossExit(os: seq<Outcome>, k: nat)
    requires k < |Times(os)|
    ensures var t := Times(os)[k];
            var before := if k == 0 then 1.0 else Steps(os)[k - 1].s;
            var events := |Indices(os, (o: Outcome) => o.duration == t && o.event)|;
            var atRisk := |Indices(os, (o: Outcome) => o.duration >= t)|;
            atRisk > 0 && Steps(os)[k] == Point(t, LeftAfter(before, events, atRisk))
  {
    var t := Times(os)[k];
    CountsAreCardinalities(os, t);
    LevelAcrossExit(os, k);
    StepAt(os, k);
    if k > 0 {
      StepAt(os, k - 1);
    }
  }

  lemma LevelAcrossExit(os: seq<Outcome>, k: nat)
    requires k < |Times(os)|
    ensures AtRisk(os, Times(os)[k]) > 0 && Level(os, 0) == 1.0
    ensures Level(os, k + 1) == LeftAfter(Level(os, k), EventsAt(os, Times(os)[k]), AtRisk(os, Times(os)[k]))
  {
    RemainingAreAtRisk(os, k);
    CurveSnoc(os, Times(os), k);
    ThinLeaves(Level(os, k), EventsAt(os, Times(os)[k]), AtRisk(os, Times(os)[k]));
    assert Times(os)[..0] == [];
  }

  // ----- the reach rate

  /** Survival at `h` on a curve that starts at `s`. */
  function SurvAt(steps: seq<Point>, s: real, h: real): real {
    if steps == [] || steps[0].t > h then s else SurvAt(steps[1..], steps[0].s, h)
  }

  function ReachRate(os: seq<Outcome>, h: real): real {
    1.0 - SurvAt(Steps(os), 1.0, h)
  }

  method ReachRateAt(durations: seq<real>, events: seq<bool>, horizon: real) returns (rate: real)
    ensures rate == ReachRate(Zip(durations, events), horizon)
  {
    var steps := SurvivalSteps(durations, events);
    if steps == [] {
      return 0.0;
    }
    var surv := 1.0;
    for i := 0 to |steps|
      invariant SurvAt(steps[i..], surv, horizon) == SurvAt(steps, 1.0, horizon)
    {
      if steps[i].t <= horizon {
        surv := steps[i].s;
      } else {
        return 1.0 - surv;
      }
    }
    rate := 1.0 - surv;
  }

  /** How many of the times are not later than `h`. */
  function UpTo(ts: seq<real>, h: real): (n: nat)
    ensures n <= |ts|
  {
    if ts == [] then 0 else if ts[|ts| - 1] <= h then |ts| else UpTo(ts[..|ts| - 1], h)
  }

  lemma {:induction false} UpToIsPosition(ts: seq<real>, h: real, k: nat)
    requires StrictlyAscending(ts) && k < |ts|
    ensures ts[k] <= h <==> k < UpTo(ts, h)
  {
    if k < |ts| - 1 {
      UpToIsPosition(ts[..|ts| - 1], h, k);
    }
  }

  lemma {:induction false} SurvAtIsLastStep(steps: seq<Point>, s: real, h: real, n: nat)
    requires n <= |steps| && forall k | 0 <= k < |steps| :: steps[k].t <= h <==> k < n
    ensures SurvAt(steps, s, h) == if n == 0 then s else steps[n - 1].s
  {
    if n > 0 {
      SurvAtIsLastStep(steps[1..], steps[0].s, h, n - 1);
    }
  }

  /** The reach rate at `h` is one minus the product of the factors of all exit times up to `h`. */
  lemma ReachRateIsProduct(os: seq<Outcome>, h: real)
    ensures ReachRate(os, h) == 1.0 - Level(os, UpTo(Times(os), h))
  {
    var steps, n := Steps(os), UpTo(Times(os), h);
    forall k | 0 <= k < |steps|
      ensures steps[k].t <= h <==> k < n
    {
      StepAt(os, k);
      UpToIsPosition(Times(os), h, k);
    }
    SurvAtIsLastStep(steps, 1.0, h, n);
    if n > 0 {
      StepAt(os, n - 1);
    }
  }

  lemma ReachRateAtStep(os: seq<Outcome>, k: nat)
    requires k < |Times(os)|
    ensures ReachRate(os, Times(os)[k]) == 1.0 - Steps(os)[k].s
  {
    ReachRateIsProduct(os, Times(os)[k]);
    StepAt(os, k);
    UpToIsPosition(Times(os), Times(os)[k], k);
    if k + 1 < |Times(os)| {
      UpToIsPosition(Times(os), Times(os)[k], k + 1);
    }
  }

  // ----- the median

  function CountTrue(events: seq<bool>): nat {
    if events == [] then 0 else CountTrue(events[1..]) + if events[0] then 1 else 0
  }

  /** The share of learners who reached the goal, taken from the caller when the caller knows better. */
  function ShareReached(events: seq<bool>, reachRate: Option<real>): real
    requires events != []
  {
    if reachRate.Some? then reachRate.value else CountTrue(events) as real / |events| as real
  }

  lemma {:induction false} CountTrueIsCardinality(events: seq<bool>)
    ensures CountTrue(events) == |Indices(events, (e: bool) => e)|
  {
    if events == [] {
      assert Indices(events, (e: bool) => e) == {};
    } else {
      CountTrueIsCardinality(events[1..]);
      assert events == [events[0]] + events[1..];
      IndicesCons(events[0], events[1..], (e: bool) => e);
    }
  }

  /** The caller's share if there is one, else that of the true flags among all. */
  lemma ShareReachedIsShare(events: seq<bool>, rate: real)
    requires events != []
    ensures ShareReached(events, Some(rate)) == rate
    ensures IsShare(ShareReached(events, None), |Indices(events, (e: bool) => e)|, |events|)
  {
    CountTrueIsCardinality(events);
    QuotientIsShare(CountTrue(events), |events|);
  }

  lemma QuotientIsShare(n: nat, total: nat)
    requires total > 0
    ensures IsShare(n as real / total as real, n, total)
  {
  }

  ghost predicate PastHalf(os: seq<Outcome>, t: real) {
    t in Times(os) && ReachRate(os, t) > 0.5
  }

  /** The least observed time by which more than half are estimated to have reached the goal. */
  method KaplanMeierMedian(durations: seq<real>, events: seq<bool>, reachRate: Option<real>)
    returns (median: Option<real>)
    ensures var os := Zip(durations, events);
            if events == [] || ShareReached(events, reachRate) < 0.5 then median == None
            else if median.Some? then
              PastHalf(os, median.value) && forall t | PastHalf(os, t) :: median.value <= t
            else forall t :: !PastHalf(os, t)
  {
    if events == [] {
      return None;
    }
    if ShareReached(events, reachRate) < 0.5 {
      return None;
    }
    ghost var os := Zip(durations, events);
    var steps := SurvivalSteps(durations, events);
    for k := 0 to |steps|
      invariant forall a | 0 <= a < k :: !PastHalf(os, Times(os)[a])
    {
      CurveAt(os, Times(os), k);
      ReachRateAtStep(os, k);
      if steps[k].s < 0.5 {
        return Some(steps[k].t);
      }
    }
    return None;
  }

  // ----- the restricted mean

  /** The area under a constant `s` between two times. */
  function Strip(s: real, from: real, to: real): real {
    s * (to - from)
  }

  /** Area under the curve from `from`, where it stands at `s`, to `h`. */
  function Area(steps: seq<Point>, from: real, s: real, h: real): real {
    if steps == [] || steps[0].t >= h then Strip(s, from, h)
    else Strip(s, from, steps[0].t) + Area(steps[1..], steps[0].t, steps[0].s, h)
  }

  function RestrictedMean(os: seq<Outcome>, h: real): real {
    if os == [] then 0.0 else Area(Steps(os), 0.0, 1.0, h)
  }

  lemma NoStepsMeansNobody(os: seq<Outcome>)
    ensures Steps(os) == [] <==> os == []
  {
    if os != [] {
      TimesAreExits(os, os[0].duration);
    }
  }

  method ComputeRestrictedMean(durations: seq<real>, events: seq<bool>, horizon: real) returns (area: real)
    ensures area == RestrictedMean(Zip(durations, events), horizon)
  {
    var steps := SurvivalSteps(durations, events);
    NoStepsMeansNobody(Zip(durations, events));
    if steps == [] {
      return 0.0;
    }
    area := 0.0;
    var prevT, prevS := 0.0, 1.0;
    for i := 0 to |steps|
      invariant area + Area(steps[i..], prevT, prevS, horizon) == Area(steps, 0.0, 1.0, horizon)
    {
      var segT := Min(steps[i].t, horizon);
      area := area + Strip(prevS, prevT, segT);
      if steps[i].t >= horizon {
        return;
      }
      prevT, prevS := segT, steps[i].s;
    }
    area := area + Strip(prevS, prevT, horizon);
  }

  /** Growth over an interval, at a rate between `low` and `high`. */
  ghost predicate GrowsBetween(low: real, high: real, width: real, growth: real) {
    low * width <= growth <= high * width
  }

  lemma FlatGrowth(low: real, s: real, from: real, h1: real, h2: real)
    requires low <= s && h1 <= h2
    ensures GrowsBetween(low, s, h2 - h1, Strip(s, from, h2) - Strip(s, from, h1))
  {
    ProductNonnegative(s - low, h2 - h1);
  }

  lemma StepGrowth(low: real, s': real, s: real, from: real, h1: real, t: real, h2: real, tail: real)
    requires low <= s' <= s && h1 <= t <= h2
    requires GrowsBetween(low, s', h2 - t, tail)
    ensures GrowsBetween(low, s, h2 - h1, Strip(s, from, t) + tail - Strip(s, from, h1))
  {
    ProductNonnegative(s - low, t - h1);
    ProductNonnegative(s - s', h2 - t);
  }

  lemma {:induction false} SurvAtBelowStart(steps: seq<Point>, s: real, h: real)
    requires StepCurve(steps, s)
    ensures 0.0 <= SurvAt(steps, s, h) <= s
  {
    if steps != [] && steps[0].t <= h {
      SurvAtBelowStart(steps[1..], steps[0].s, h);
    }
  }

  /** Between two horizons the area grows no faster than the survival at the first and no slower than the
      survival at the second. */
  lemma {:induction false} AreaGrowth(steps: seq<Point>, from: real, s: real, h1: real, h2: real)
    requires StepCurve(steps, s) && from <= h1 <= h2
    ensures GrowsBetween(SurvAt(steps, s, h2), SurvAt(steps, s, h1), h2 - h1,
                         Area(steps, from, s, h2) - Area(steps, from, s, h1))
  {
    SurvAtBelowStart(steps, s, h2);
    if h1 == h2 {
    } else if steps == [] || steps[0].t >= h2 {
      FlatGrowth(SurvAt(steps, s, h2), s, from, h1, h2);
    } else if steps[0].t < h1 {
      AreaGrowth(steps[1..], steps[0].t, steps[0].s, h1, h2);
    } else {
      GrowthAcrossStep(steps, from, s, h1, h2);
    }
  }

  /** The first step of the curve falls between the two horizons. */
  lemma {:induction false} GrowthAcrossStep(steps: seq<Point>, from: real, s: real, h1: real, h2: real)
    requires StepCurve(steps, s) && steps != [] && from <= h1 <= steps[0].t < h2
    ensures GrowsBetween(SurvAt(steps, s, h2), SurvAt(steps, s, h1), h2 - h1,
                         Area(steps, from, s, h2) - Area(steps, from, s, h1))
    decreases steps, from, s, h1, h2, 0
  {
    var t, rest, s' := steps[0].t, steps[1..], steps[0].s;
    assert StepCurve(rest, s');
    AreaGrowth(rest, t, s', t, h2);
    SurvAtBelowStart(rest, s', h2);
    assert SurvAt(rest, s', t) == s';
    assert Area(rest, t, s', t) == 0.0;
    StepGrowth(SurvAt(rest, s', h2), s', s, from, h1, t, h2, Area(rest, t, s', h2));
    if t == h1 {
      assert Strip(s, from, t) == Strip(s, from, h1);
    }
  }

  /** With any censoring, the restricted mean grows between horizons at a rate between the two survival
      probabilities. */
  lemma RestrictedMeanGrowth(os: seq<Outcome>, h1: real, h2: real)
    requires os != [] && 0.0 <= h1 <= h2
    ensures (1.0 - ReachRate(os, h2)) * (h2 - h1)
            <= RestrictedMean(os, h2) - RestrictedMean(os, h1)
            <= (1.0 - ReachRate(os, h1)) * (h2 - h1)
  {
    StepsAreACurve(os);
    AreaGrowth(Steps(os), 0.0, 1.0, h1, h2);
    assert GrowsBetween(1.0 - ReachRate(os, h2), 1.0 - ReachRate(os, h1), h2 - h1,
                        RestrictedMean(os, h2) - RestrictedMean(os, h1));
  }

  /** Where there is nobody, nobody reaches the goal and no time passes. */
  lemma NobodyReaches(h: real)
    ensures ReachRate([], h) == 0.0 && RestrictedMean([], h) == 0.0
  {
    NoStepsMeansNobody([]);
  }

  /** The growth is counted from nothing. */
  lemma RestrictedMeanStartsAtZero(os: seq<Outcome>)
    requires os != [] && forall o | o in os :: 0.0 <= o.duration
    ensures RestrictedMean(os, 0.0) == 0.0
  {
    NoStepsMeansNobody(os);
    StepAt(os, 0);
    TimesAreExits(os, Times(os)[0]);
  }

  // ----- without censoring

  ghost predicate Uncensored(os: seq<Outcome>) {
    forall o | o in os :: o.event
  }

  /** `s` is the share of `total` that `n` makes. */
  ghost predicate IsShare(s: real, n: nat, total: nat) {
    s * total as real == n as real
  }

  lemma ThinTelescopes(s: real, d: nat, n: nat, total: nat)
    requires d <= n && 0 < n && IsShare(s, n, total)
    ensures IsShare(Thin(s, d, n), n - d, total)
  {
    if d > 0 {
      var f := d as real / n as real;
      assert f * n as real == d as real;
      assert s * (1.0 - f) * total as real == (s * total as real) * (1.0 - f);
    }
  }

  /** Without censoring the product telescopes: survival is the share still under observation. */
  lemma {:induction false} UncensoredSurvivalIsShare(os: seq<Outcome>, k: nat)
    requires Uncensored(os) && k <= |Times(os)|
    ensures IsShare(Level(os, k), Remaining(os, Times(os), k), |os|)
  {
    if k > 0 {
      var ts := Times(os);
      UncensoredSurvivalIsShare(os, k - 1);
      RemainingAreAtRisk(os, k - 1);
      CurveSnoc(os, ts, k - 1);
      ExitsLeaveBeyond(os, ts[k - 1]);
      ThinTelescopes(Surv(os, ts[..k - 1]), EventsAt(os, ts[k - 1]), AtRisk(os, ts[k - 1]), |os|);
    }
  }

  /** The share of `total` that is left when `n` are taken away. */
  function ShareDone(n: nat, total: nat): real
    requires 0 < total
  {
    (total - n) as real / total as real
  }

  lemma ShareIsRatio(s: real, n: nat, total: nat)
    requires IsShare(s, n, total) && 0 < total
    ensures 1.0 - s == ShareDone(n, total)
  {
    var q := (total - n) as real / total as real;
    assert q * total as real == (total - n) as real;
    assert (1.0 - s - q) * total as real == 0.0;
    CancelFactor(1.0 - s - q, total as real);
  }

  lemma CancelFactor(x: real, y: real)
    requires x * y == 0.0 && y > 0.0
    ensures x == 0.0
  {
  }

  lemma {:induction false} BeyondIsConstantBetween(os: seq<Outcome>, t: real, h: real)
    requires t <= h && forall o | o in os :: o.duration <= t || h < o.duration
    ensures Beyond(os, t) == Beyond(os, h)
  {
    if os != [] {
      assert os[0] in os;
      BeyondIsConstantBetween(os[1..], t, h);
    }
  }

  lemma {:induction false} EveryoneBeyond(os: seq<Outcome>, h: real)
    requires forall o | o in os :: h < o.duration
    ensures Beyond(os, h) == |os|
  {
    if os != [] {
      assert os[0] in os;
      EveryoneBeyond(os[1..], h);
    }
  }

  /** Without censoring the reach rate is the plain share of learners done by the horizon. */
  lemma UncensoredReachRate(os: seq<Outcome>, h: real)
    requires Uncensored(os) && os != []
    ensures ReachRate(os, h) == ShareDone(Beyond(os, h), |os|)
  {
    var n := UpTo(Times(os), h);
    ReachRateIsProduct(os, h);
    UncensoredSurvivalIsShare(os, n);
    RemainingAtHorizon(os, h);
    ShareIsRatio(Level(os, n), Beyond(os, h), |os|);
  }

  lemma RemainingAtHorizon(os: seq<Outcome>, h: real)
    ensures Remaining(os, Times(os), UpTo(Times(os), h)) == Beyond(os, h)
  {
    var ts := Times(os);
    var n := UpTo(ts, h);
    forall o | o in os
      ensures if n == 0 then h < o.duration else o.duration <= ts[n - 1] || h < o.duration
    {
      TimesAreExits(os, o.duration);
      var k: nat :| k < |ts| && ts[k] == o.duration;
      UpToIsPosition(ts, h, k);
    }
    if n > 0 {
      UpToIsPosition(ts, h, n - 1);
    }
    if n == 0 {
      EveryoneBeyond(os, h);
    } else {
      BeyondIsConstantBetween(os, ts[n - 1], h);
    }
  }

  /** Total time, each learner counted up to `h`. */
  function SumMin(os: seq<Outcome>, h: real): real {
    if os == [] then 0.0 else Min(os[0].duration, h) + SumMin(os[1..], h)
  }

  lemma StripAddsUp(n: nat, from: real, to: real)
    ensures Strip((n + 1) as real, from, to) == Strip(n as real, from, to) + (to - from)
  {
    assert (n as real + 1.0) * (to - from) == n as real * (to - from) + (to - from);
  }

  /** Up to the next exit time, everyone still at risk adds the whole strip. */
  lemma {:induction false} SumMinGrows(os: seq<Outcome>, from: real, to: real, next: real)
    requires from <= to <= next
    requires forall o | o in os :: o.duration <= from || next <= o.duration
    requires from == next ==> forall o | o in os :: next <= o.duration
    ensures SumMin(os, to) - SumMin(os, from) == Strip(AtRisk(os, next) as real, from, to)
  {
    if os != [] {
      assert os[0] in os;
      SumMinGrows(os[1..], from, to, next);
      StripAddsUp(AtRisk(os[1..], next), from, to);
    }
  }

  lemma {:induction false} SumMinIsComplete(os: seq<Outcome>, from: real, to: real)
    requires from <= to && forall o | o in os :: o.duration <= from
    ensures SumMin(os, to) == SumMin(os, from)
  {
    if os != [] {
      assert os[0] in os;
      SumMinIsComplete(os[1..], from, to);
    }
  }

  lemma {:induction false} SumMinAtZero(os: seq<Outcome>)
    requires forall o | o in os :: 0.0 <= o.duration
    ensures SumMin(os, 0.0) == 0.0
  {
    if os != [] {
      assert os[0] in os;
      SumMinAtZero(os[1..]);
    }
  }

  /** `mean` is the average of `n` quantities that add up to `total`. */
  ghost predicate IsMean(mean: real, n: nat, total: real) {
    mean * n as real == total
  }

  lemma MeansJoin(first: real, rest: real, whole: real, n: nat, a: real, b: real, c: real)
    requires IsMean(first, n, b - a) && IsMean(rest, n, c - b) && whole == first + rest
    ensures IsMean(whole, n, c - a)
  {
  }

  lemma MeanIsQuotient(mean: real, n: nat, total: real)
    requires IsMean(mean, n, total) && n > 0
    ensures mean == total / n as real
  {
    var q := total / n as real;
    assert q * n as real == total;
    assert (mean - q) * n as real == 0.0;
    CancelFactor(mean - q, n as real);
  }

  lemma StripIsMean(s: real, n: nat, total: nat, from: real, to: real)
    requires IsShare(s, n, total)
    ensures IsMean(Strip(s, from, to), total, Strip(n as real, from, to))
  {
    assert s * (to - from) * total as real == s * total as real * (to - from);
  }

  /** The part of the restricted mean that lies past the first `k` exit times. */
  ghost function AreaPast(os: seq<Outcome>, k: nat, from: real, h: real): real
    requires k <= |Times(os)|
  {
    Area(Steps(os)[k..], from, Level(os, k), h)
  }

  lemma AreaPastSplits(os: seq<Outcome>, k: nat, from: real, h: real)
    requires k < |Times(os)|
    ensures var t := Times(os)[k];
            AreaPast(os, k, from, h) ==
            if t >= h then Strip(Level(os, k), from, h) else Strip(Level(os, k), from, t) + AreaPast(os, k + 1, t, h)
  {
    CurveAt(os, Times(os), k);
    assert Steps(os)[k..][1..] == Steps(os)[k + 1..];
  }

  /** It is the average of the time the learners still spend there before the horizon. */
  lemma {:induction false} UncensoredAreaPast(os: seq<Outcome>, k: nat, from: real, h: real)
    requires Uncensored(os) && os != [] && k <= |Times(os)|
    requires from <= h && from == if k == 0 then 0.0 else Times(os)[k - 1]
    requires forall o | o in os :: 0.0 <= o.duration
    ensures IsMean(AreaPast(os, k, from, h), |os|, SumMin(os, h) - SumMin(os, from))
    decreases |Times(os)| - k
  {
    if k == |Times(os)| {
      AreaAfterLastExit(os, from, h);
    } else {
      var t := Times(os)[k];
      FirstStripIsMean(os, k, from, h);
      AreaPastSplits(os, k, from, h);
      if t < h {
        UncensoredAreaPast(os, k + 1, t, h);
        MeansJoin(Strip(Level(os, k), from, t), AreaPast(os, k + 1, t, h), AreaPast(os, k, from, h), |os|,
                  SumMin(os, from), SumMin(os, t), SumMin(os, h));
      }
    }
  }

  lemma FirstStripIsMean(os: seq<Outcome>, k: nat, from: real, h: real)
    requires Uncensored(os) && k < |Times(os)|
    requires from <= h && from == if k == 0 then 0.0 else Times(os)[k - 1]
    requires forall o | o in os :: 0.0 <= o.duration
    ensures from <= Times(os)[k]
    ensures var to := Min(Times(os)[k], h);
            IsMean(Strip(Level(os, k), from, to), |os|, SumMin(os, to) - SumMin(os, from))
  {
    var t := Times(os)[k];
    UncensoredSurvivalIsShare(os, k);
    RemainingAreAtRisk(os, k);
    SplitAtNextExit(os, k, from);
    StripIsMean(Level(os, k), AtRisk(os, t), |os|, from, Min(t, h));
    SumMinGrows(os, from, Min(t, h), t);
  }

  lemma AreaAfterLastExit(os: seq<Outcome>, from: real, h: real)
    requires Uncensored(os) && os != [] && from <= h
    requires from == if |Times(os)| == 0 then 0.0 else Times(os)[|Times(os)| - 1]
    ensures IsMean(AreaPast(os, |Times(os)|, from, h), |os|, SumMin(os, h) - SumMin(os, from))
  {
    var k := |Times(os)|;
    NoStepsMeansNobody(os);
    UncensoredSurvivalIsShare(os, k);
    forall o | o in os
      ensures o.duration <= from
    {
      TimesAreExits(os, o.duration);
    }
    NobodyBeyond(os, from);
    SumMinIsComplete(os, from, h);
    StripIsMean(Level(os, k), 0, |os|, from, h);
  }

  lemma SplitAtNextExit(os: seq<Outcome>, k: nat, from: real)
    requires k < |Times(os)| && from == if k == 0 then 0.0 else Times(os)[k - 1]
    requires forall o | o in os :: 0.0 <= o.duration
    ensures from <= Times(os)[k]
    ensures forall o | o in os :: o.duration <= from || Times(os)[k] <= o.duration
    ensures from == Times(os)[k] ==> forall o | o in os :: Times(os)[k] <= o.duration
  {
    TimesAreExits(os, Times(os)[k]);
    forall o | o in os
      ensures o.duration <= from || Times(os)[k] <= o.duration
      ensures k == 0 ==> Times(os)[k] <= o.duration
    {
      TimesAreExits(os, o.duration);
    }
  }

  /** Without censoring the restricted mean is the plain average of the durations, each cut at the
      horizon. */
  lemma UncensoredRestrictedMean(os: seq<Outcome>, h: real)
    requires Uncensored(os) && os != [] && 0.0 <= h
    requires forall o | o in os :: 0.0 <= o.duration
    ensures RestrictedMean(os, h) == SumMin(os, h) / |os| as real
  {
    assert Times(os)[..0] == [] && Steps(os)[0..] == Steps(os);
    UncensoredAreaPast(os, 0, 0.0, h);
    SumMinAtZero(os);
    MeanIsQuotient(RestrictedMean(os, h), |os|, SumMin(os, h));
  }
}
