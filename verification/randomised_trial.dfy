/** The micro-randomised trial: bad spells, their jittered thresholds, and the table of decision points. */
module RandomisedTrial {
  import opened Sequences
  import opened ProcessState
  import opened ControlLaw

  /** One decision point as stored. `exitTs` is None until its spell ends. The last column is not in the
      source's table: whether an intervention reached the learner. */
  datatype Row = Row(
    id: nat,
    spell: nat,
    ts: real,
    regime: ProcessRegime,
    dwell: real,
    tK: real,
    assignment: Action,
    exitTs: Option<real>,
    censored: bool,
    delivered: bool)

  /** What a cycle is given: the clock, the regime, the two random draws (`factor` for the threshold of
      a spell that opens now, `draw` for the assignment), and whether a delivery succeeds. */
  datatype Input = Input(ts: real, regime: ProcessRegime, factor: real, draw: real, delivered: bool)

  /** The monitor and its table. `nextSpell` stands for the supply of fresh spell identifiers. */
  datatype TrialState = TrialState(
    regime: Option<ProcessRegime>,
    since: real,
    last: Option<real>,
    spell: Option<nat>,
    spellTk: Option<real>,
    openIds: seq<nat>,
    rows: seq<Row>,
    nextSpell: nat)

  // ----- the steps, on values

  function StampExit(rows: seq<Row>, ids: seq<nat>, now: real): (r: seq<Row>)
    ensures |r| == |rows|
    ensures forall i | 0 <= i < |rows| ::
              r[i] == if rows[i].id in ids then rows[i].(exitTs := Some(now)) else rows[i]
  {
    if rows == [] then []
    else
      var row := rows[|rows| - 1];
      StampExit(rows[..|rows| - 1], ids, now) + [if row.id in ids then row.(exitTs := Some(now)) else row]
  }

  function CloseSpell(s: TrialState, now: real): TrialState {
    s.(spell := None, spellTk := None, openIds := [], rows := StampExit(s.rows, s.openIds, now))
  }

  /** The jittered threshold of a new spell. */
  function SpellThreshold(cfg: Config, regime: ProcessRegime, factor: real): real {
    ThresholdFor(cfg, regime) * factor
  }

  function OpenSpell(s: TrialState, cfg: Config, regime: ProcessRegime, factor: real): TrialState {
    s.(spell := Some(s.nextSpell), spellTk := Some(SpellThreshold(cfg, regime, factor)), openIds := [],
       nextSpell := s.nextSpell + 1)
  }

  function Record(s: TrialState, regime: ProcessRegime, dwell: real, assignment: Action, now: real,
                  delivered: bool): TrialState
    requires s.spell.Some? && s.spellTk.Some?
  {
    var row := Row(|s.rows|, s.spell.value, now, regime, dwell, s.spellTk.value, assignment, None, false, delivered);
    s.(openIds := s.openIds + [row.id], rows := s.rows + [row])
  }

  /** The tracker's observation and, on a change of regime, the end of one spell and the start of the next. */
  function Observe(s: TrialState, cfg: Config, i: Input): TrialState {
    if s.regime == Some(i.regime) then s
    else
      var observed := s.(regime := Some(i.regime), since := i.ts);
      var closed := if observed.spell.Some? then CloseSpell(observed, i.ts) else observed;
      if IsBad(i.regime) then OpenSpell(closed, cfg, i.regime, i.factor) else closed
  }

  function Decide(s: TrialState, cfg: Config, arm: Arm, i: Input): TrialState {
    if s.spell == None || s.spellTk == None then s
    else
      var d := ShouldIntervene(i.regime, i.ts - s.since, arm, s.last, cfg, i.ts, s.spellTk, Some(i.draw));
      if d.action == Skip then s
      else
        var delivered := d.action == Intervene && i.delivered;
        var recorded := Record(s, i.regime, i.ts - s.since, d.action, i.ts, delivered);
        if d.action == Withhold || delivered then recorded.(last := Some(i.ts)) else recorded
  }

  function Next(s: TrialState, cfg: Config, arm: Arm, i: Input): TrialState {
    Decide(Observe(s, cfg, i), cfg, arm, i)
  }

  /** Session end: decision points whose spell never closed are right-censored. */
  function Censor(rows: seq<Row>): (r: seq<Row>)
    ensures |r| == |rows|
    ensures forall i | 0 <= i < |rows| :: r[i] == if rows[i].exitTs == None then rows[i].(censored := true) else rows[i]
  {
    if rows == [] then []
    else
      var row := rows[|rows| - 1];
      Censor(rows[..|rows| - 1]) + [if row.exitTs == None then row.(censored := true) else row]
  }

  // ----- the monitor

  class TrialMonitor {
    const cfg: Config
    const arm: Arm
    const tracker: DwellTracker
    var lastInterventionAt: Option<real>
    var spellId: Option<nat>
    var spellTk: Option<real>
    var openDecisionIds: seq<nat>
    var rows: seq<Row>
    var nextSpell: nat

    ghost function State(): TrialState
      reads this, tracker
    {
      TrialState(tracker.regime, tracker.since, lastInterventionAt, spellId, spellTk, openDecisionIds, rows, nextSpell)
    }

    constructor (cfg: Config, arm: Arm)
      ensures tracker.Valid() && tracker.seen == [] && fresh(tracker) && this.cfg == cfg && this.arm == arm
      ensures Initial(State())
    {
      this.cfg, this.arm := cfg, arm;
      tracker := new DwellTracker();
      lastInterventionAt, spellId, spellTk, openDecisionIds, rows, nextSpell := None, None, None, [], [], 0;
    }

    method MrtCloseSpell(now: real)
      modifies this
      ensures State() == CloseSpell(old(State()), now)
    {
      var ids := openDecisionIds;
      spellId, spellTk, openDecisionIds := None, None, [];
      NothingToStamp(rows, now);
      if ids == [] {
        return;
      }
      rows := StampExit(rows, ids, now);
    }

    method MrtOpenSpell(regime: ProcessRegime, factor: real)
      modifies this
      ensures State() == OpenSpell(old(State()), cfg, regime, factor)
    {
      spellTk := Some(SpellThreshold(cfg, regime, factor));
      spellId := Some(nextSpell);
      nextSpell := nextSpell + 1;
      openDecisionIds := [];
    }

    method MrtRecordDecision(regime: ProcessRegime, dwell: real, tK: real, assignment: Action, now: real,
                             delivered: bool)
      requires spellId.Some? && spellTk == Some(tK)
      modifies this
      ensures State() == Record(old(State()), regime, dwell, assignment, now, delivered)
    {
      var row := Row(|rows|, spellId.value, now, regime, dwell, tK, assignment, None, false, delivered);
      openDecisionIds := openDecisionIds + [row.id];
      rows := rows + [row];
    }

    /** One cycle: the tracker's observation, then the trial's own step. `later` is the clock when an
        intervention is assembled and the cooldown checked once more. */
    method RunCycle(i: Input, later: real)
      requires tracker.Valid() && i.ts <= later
      requires tracker.seen != [] ==> tracker.seen[|tracker.seen| - 1].ts < i.ts
      requires Clocked(tracker.seen)
      modifies this, tracker
      ensures tracker.Valid() && tracker.seen == old(tracker.seen) + [Observation(i.ts, i.regime)]
      ensures State() == Next(old(State()), cfg, arm, i)
    {
      ghost var before := State();
      var dwell := tracker.Observe(i.regime, i.ts);
      ZeroDwellIsRegimeChange(tracker.seen, |tracker.seen| - 1);
      if dwell == 0.0 {
        if spellId.Some? {
          MrtCloseSpell(i.ts);
        }
        if IsBad(i.regime) {
          MrtOpenSpell(i.regime, i.factor);
        }
      }
      assert State() == Observe(before, cfg, i);
      MrtStep(i, dwell, later);
    }

    method MrtStep(i: Input, dwell: real, later: real)
      requires dwell == i.ts - tracker.since && i.ts <= later
      modifies this
      ensures State() == Decide(old(State()), cfg, arm, i)
    {
      if spellId == None || spellTk == None {
        return;
      }
      var decision := ShouldIntervene(i.regime, dwell, arm, lastInterventionAt, cfg, i.ts, spellTk, Some(i.draw));
      if decision.action == Skip {
        return;
      }
      if decision.action == Intervene {
        SecondCooldownCheckPasses(i.regime, dwell, arm, lastInterventionAt, cfg, i.ts, spellTk, Some(i.draw), later);
      }
      var delivered := decision.action == Intervene && ShouldTrigger(cfg, lastInterventionAt, later) && i.delivered;
      MrtRecordDecision(i.regime, dwell, spellTk.value, decision.action, i.ts, delivered);
      if decision.action == Withhold || delivered {
        lastInterventionAt := Some(i.ts);
      }
    }

    method CensorOpenDecisions() returns (marked: nat)
      modifies this`rows
      ensures |rows| == |old(rows)|
      ensures forall k | 0 <= k < |rows| ::
                rows[k] == if old(rows)[k].exitTs == None then old(rows)[k].(censored := true) else old(rows)[k]
      ensures rows == Censor(old(rows))
      ensures marked == |OpenRows(old(rows))|
    {
      ghost var before := rows;
      marked := 0;
      for k := 0 to |rows|
        invariant |rows| == |before|
        invariant forall j | 0 <= j < |rows| ::
                    rows[j] == if j < k && before[j].exitTs == None then before[j].(censored := true) else before[j]
        invariant marked == |OpenRows(before[..k])|
      {
        OpenRowsSnoc(before, k);
        if rows[k].exitTs == None {
          rows := rows[k := rows[k].(censored := true)];
          marked := marked + 1;
        }
      }
      assert before[..|rows|] == before;
      CensorIsPointwise(before, rows);
    }
  }

  lemma OpenRowsSnoc(rows: seq<Row>, k: nat)
    requires k < |rows|
    ensures |OpenRows(rows[..k + 1])| == |OpenRows(rows[..k])| + if rows[k].exitTs == None then 1 else 0
  {
    assert OpenRows(rows[..k + 1]) == OpenRows(rows[..k]) + if rows[k].exitTs == None then {k} else {};
  }

  lemma CensorIsPointwise(before: seq<Row>, after: seq<Row>)
    requires |after| == |before|
    requires forall k | 0 <= k < |before| ::
               after[k] == if before[k].exitTs == None then before[k].(censored := true) else before[k]
    ensures after == Censor(before)
  {
  }

  lemma {:induction false} NothingToStamp(rows: seq<Row>, now: real)
    ensures StampExit(rows, [], now) == rows
  {
    if rows != [] {
      NothingToStamp(rows[..|rows| - 1], now);
    }
  }

  // ----- what every run keeps

  ghost predicate Initial(s: TrialState) {
    s.regime == None && s.last == None && s.spell == None && s.spellTk == None && s.openIds == [] && s.rows == []
  }

  /** What holds of one stored decision point while the monitor runs; `clock` is the last reading. */
  ghost predicate RowOk(arm: Arm, s: TrialState, clock: real, row: Row) {
    && IsBad(row.regime)
    && row.tK <= row.dwell
    && row.ts <= clock
    && row.assignment != Skip
    && (arm == Open ==> row.assignment == Withhold)
    && (row.delivered ==> row.assignment == Intervene)
    && (Spent(row) ==> s.last.Some? && row.ts <= s.last.value)
    && row.spell < s.nextSpell
    && (row.exitTs == None <==> row.id in s.openIds)
    && (row.exitTs == None <==> s.spell == Some(row.spell))
    && (row.exitTs == None ==> s.regime == Some(row.regime) && s.spellTk == Some(row.tK))
    && (row.exitTs.Some? ==> row.ts < row.exitTs.value <= clock)
  }

  /** Withheld or delivered: the cooldown runs from it. */
  predicate Spent(row: Row) {
    row.assignment == Withhold || row.delivered
  }

  /** What holds between an earlier row and a later one. */
  ghost predicate PairOk(cfg: Config, early: Row, late: Row) {
    && early.ts < late.ts
    && early.spell <= late.spell
    && (early.spell == late.spell ==>
          early.regime == late.regime && early.tK == late.tK && early.exitTs == late.exitTs)
    && (early.spell < late.spell ==> early.exitTs.Some? && early.exitTs.value <= late.ts)
    && (Spent(early) ==> late.ts - early.ts >= cfg.cooldown)
  }

  ghost predicate Bookkeeping(cfg: Config, arm: Arm, s: TrialState, clock: real) {
    && (s.spell.Some? <==> s.regime.Some? && IsBad(s.regime.value))
    && (s.spell.Some? <==> s.spellTk.Some?)
    && (s.spell == None ==> s.openIds == [])
    && (s.spell.Some? ==> s.spell.value < s.nextSpell)
    && (s.last.Some? ==> s.last.value <= clock)
    && (forall i | 0 <= i < |s.rows| :: s.rows[i].id == i && RowOk(arm, s, clock, s.rows[i]))
    && (forall i, j | 0 <= i < j < |s.rows| :: PairOk(cfg, s.rows[i], s.rows[j]))
    && (forall id | id in s.openIds :: id < |s.rows| && s.rows[id].exitTs == None)
    && (s.spell.Some? ==> forall i | 0 <= i < |s.rows| :: s.rows[i].spell <= s.spell.value)
  }

  /** A change of regime closes whatever was open, at the present instant. */
  lemma ChangeClosesRows(s: TrialState, cfg: Config, arm: Arm, clock: real, i: Input)
    requires Bookkeeping(cfg, arm, s, clock) && clock < i.ts && s.regime != Some(i.regime)
    ensures var t := Observe(s, cfg, i);
            && |t.rows| == |s.rows| && t.openIds == []
            && forall k | 0 <= k < |s.rows| ::
                 t.rows[k] == if s.rows[k].exitTs == None then s.rows[k].(exitTs := Some(i.ts)) else s.rows[k]
  {
    var t := Observe(s, cfg, i);
    forall k | 0 <= k < |s.rows|
      ensures t.rows[k] == if s.rows[k].exitTs == None then s.rows[k].(exitTs := Some(i.ts)) else s.rows[k]
    {
      assert RowOk(arm, s, clock, s.rows[k]);
    }
  }

  lemma ObserveKeepsBookkeeping(s: TrialState, cfg: Config, arm: Arm, clock: real, i: Input)
    requires Bookkeeping(cfg, arm, s, clock) && clock < i.ts
    ensures Bookkeeping(cfg, arm, Observe(s, cfg, i), i.ts)
    ensures Observe(s, cfg, i).regime == Some(i.regime)
    ensures forall row | row in Observe(s, cfg, i).rows :: row.ts < i.ts
  {
    var t := Observe(s, cfg, i);
    if s.regime != Some(i.regime) {
      ChangeClosesRows(s, cfg, arm, clock, i);
    }
    forall k | 0 <= k < |t.rows|
      ensures t.rows[k].id == k && RowOk(arm, t, i.ts, t.rows[k]) && t.rows[k].ts < i.ts
    {
      assert RowOk(arm, s, clock, s.rows[k]);
    }
    forall j, k | 0 <= j < k < |t.rows|
      ensures PairOk(cfg, t.rows[j], t.rows[k])
    {
      assert PairOk(cfg, s.rows[j], s.rows[k]);
      assert RowOk(arm, s, clock, s.rows[j]) && RowOk(arm, s, clock, s.rows[k]);
    }
  }

  /** A decision point is recorded only when it is due; in the open arm it is withheld whatever the draw,
      in the closed arm the draw decides; and the cooldown restarts unless an intervention failed. */
  lemma RecordsOnlyWhenDue(s: TrialState, cfg: Config, arm: Arm, i: Input)
    requires s.spell.Some? && s.spellTk.Some?
    ensures var t := Decide(s, cfg, arm, i);
            t != s ==>
              && |t.rows| == |s.rows| + 1
              && var row := t.rows[|s.rows|];
                 && t == Record(s, i.regime, i.ts - s.since, row.assignment, i.ts, row.delivered).(last := t.last)
                 && row.assignment != Skip
                 && (row.assignment == Withhold <==> arm == Open || i.draw < cfg.holdProbability)
                 && (row.delivered <==> row.assignment == Intervene && i.delivered)
                 && (t.last == if Spent(row) then Some(i.ts) else s.last)
                 && row.tK <= row.dwell
                 && (s.last.Some? ==> i.ts - s.last.value >= cfg.cooldown)
  {
  }

  lemma DecideKeepsBookkeeping(s: TrialState, cfg: Config, arm: Arm, i: Input)
    requires Bookkeeping(cfg, arm, s, i.ts) && s.regime == Some(i.regime)
    requires forall row | row in s.rows :: row.ts < i.ts
    ensures Bookkeeping(cfg, arm, Decide(s, cfg, arm, i), i.ts)
  {
    var t := Decide(s, cfg, arm, i);
    if t != s {
      var n := |s.rows|;
      RecordsOnlyWhenDue(s, cfg, arm, i);
      forall k | 0 <= k < |t.rows|
        ensures t.rows[k].id == k && RowOk(arm, t, i.ts, t.rows[k])
      {
        if k < n {
          assert RowOk(arm, s, i.ts, s.rows[k]);
        }
      }
      forall j, k | 0 <= j < k < |t.rows|
        ensures PairOk(cfg, t.rows[j], t.rows[k])
      {
        assert RowOk(arm, s, i.ts, s.rows[j]);
        if k < n {
          assert PairOk(cfg, s.rows[j], s.rows[k]);
        }
      }
    }
  }

  // ----- whole runs

  /** The clock readings of the cycles: after `clock`, and strictly increasing. */
  ghost predicate Follows(clock: real, inputs: seq<Input>) {
    && (inputs != [] ==> clock < inputs[0].ts)
    && (forall a, b | 0 <= a < b < |inputs| :: inputs[a].ts < inputs[b].ts)
  }

  function LastReading(clock: real, inputs: seq<Input>): real {
    if inputs == [] then clock else inputs[|inputs| - 1].ts
  }

  function Run(s: TrialState, cfg: Config, arm: Arm, inputs: seq<Input>): TrialState {
    if inputs == [] then s
    else Next(Run(s, cfg, arm, inputs[..|inputs| - 1]), cfg, arm, inputs[|inputs| - 1])
  }

  lemma {:induction false} EveryRunKeepsBookkeeping(s: TrialState, cfg: Config, arm: Arm, clock: real, inputs: seq<Input>)
    requires Bookkeeping(cfg, arm, s, clock) && Follows(clock, inputs)
    ensures Bookkeeping(cfg, arm, Run(s, cfg, arm, inputs), LastReading(clock, inputs))
    ensures inputs != [] ==> Run(s, cfg, arm, inputs).regime == Some(inputs[|inputs| - 1].regime)
  {
    if inputs != [] {
      var n := |inputs| - 1;
      var before, i := Run(s, cfg, arm, inputs[..n]), inputs[n];
      EveryRunKeepsBookkeeping(s, cfg, arm, clock, inputs[..n]);
      ObserveKeepsBookkeeping(before, cfg, arm, LastReading(clock, inputs[..n]), i);
      DecideKeepsBookkeeping(Observe(before, cfg, i), cfg, arm, i);
    }
  }

  lemma InitialIsBooked(s: TrialState, cfg: Config, arm: Arm, clock: real)
    requires Initial(s)
    ensures Bookkeeping(cfg, arm, s, clock)
  {
  }

  // ----- the table as a function of the inputs

  function ObsOf(inputs: seq<Input>): (obs: seq<Observation>)
    ensures |obs| == |inputs|
    ensures forall k | 0 <= k < |inputs| :: obs[k] == Observation(inputs[k].ts, inputs[k].regime)
  {
    if inputs == [] then []
    else ObsOf(inputs[..|inputs| - 1]) + [Observation(inputs[|inputs| - 1].ts, inputs[|inputs| - 1].regime)]
  }

  /** Where the current stretch of equal regimes began. */
  ghost function StretchStart(inputs: seq<Input>): (j: nat)
    requires inputs != []
    ensures j < |inputs| && BeginsRunOf(ObsOf(inputs), j, |inputs| - 1)
  {
    RunStart(ObsOf(inputs), |inputs| - 1)
  }

  lemma StretchStartStep(inputs: seq<Input>)
    requires inputs != []
    ensures var n := |inputs| - 1;
            StretchStart(inputs) == if n > 0 && inputs[n - 1].regime == inputs[n].regime then StretchStart(inputs[..n]) else n
  {
    var n := |inputs| - 1;
    assert ObsOf(inputs)[..n] == ObsOf(inputs[..n]);
    if n > 0 {
      RunStartPrefix(ObsOf(inputs), n, n - 1);
    }
  }

  /** The configured threshold, zero if there is none, times the factor drawn when the spell opened. */
  ghost function DrawnThreshold(cfg: Config, regime: Regime, factor: real): real {
    (if regime in cfg.thresholds then cfg.thresholds[regime] else 0.0) * factor
  }

  /** What the monitor knows about the present stretch. */
  ghost predicate Reflects(cfg: Config, s: TrialState, inputs: seq<Input>) {
    if inputs == [] then s.regime == None && s.spell == None && s.spellTk == None
    else
      var i, opening := inputs[|inputs| - 1], inputs[StretchStart(inputs)];
      && s.regime == Some(i.regime)
      && s.since == opening.ts
      && (s.spell == None <==> i.regime == Productive)
      && s.spellTk == if i.regime == Productive then None else Some(DrawnThreshold(cfg, i.regime, opening.factor))
  }

  lemma ObserveReflects(s: TrialState, cfg: Config, inputs: seq<Input>)
    requires inputs != [] && Reflects(cfg, s, inputs[..|inputs| - 1])
    ensures Reflects(cfg, Observe(s, cfg, inputs[|inputs| - 1]), inputs)
  {
    var i := inputs[|inputs| - 1];
    StretchStartStep(inputs);
    assert DrawnThreshold(cfg, i.regime, i.factor) == SpellThreshold(cfg, i.regime, i.factor);
  }

  lemma DecideKeepsStretch(s: TrialState, cfg: Config, arm: Arm, i: Input)
    ensures var t := Decide(s, cfg, arm, i);
            t.regime == s.regime && t.since == s.since && t.spell == s.spell && t.spellTk == s.spellTk
  {
  }

  lemma {:induction false} RunReflects(s: TrialState, cfg: Config, arm: Arm, inputs: seq<Input>)
    requires Initial(s)
    ensures Reflects(cfg, Run(s, cfg, arm, inputs), inputs)
  {
    if inputs != [] {
      var n := |inputs| - 1;
      var before := Run(s, cfg, arm, inputs[..n]);
      RunReflects(s, cfg, arm, inputs[..n]);
      ObserveReflects(before, cfg, inputs);
      DecideKeepsStretch(Observe(before, cfg, inputs[n]), cfg, arm, inputs[n]);
    }
  }

  /** The row a due cycle writes. */
  ghost function NewRow(s: TrialState, cfg: Config, arm: Arm, i: Input): Row
    requires s.spell.Some? && s.spellTk.Some?
  {
    var withheld := arm == Open || i.draw < cfg.holdProbability;
    Row(|s.rows|, s.spell.value, i.ts, i.regime, i.ts - s.since, s.spellTk.value,
        if withheld then Withhold else Intervene, None, false, !withheld && i.delivered)
  }

  /** For an open spell: one row if the cycle is due, none and no other effect if it is not. */
  lemma DecideRecordsIffDue(s: TrialState, cfg: Config, arm: Arm, i: Input)
    requires s.spell.Some? && s.spellTk.Some?
    ensures var due := && i.regime != Productive && i.ts - s.since >= s.spellTk.value && cfg.enabled
                       && (s.last == None || i.ts - s.last.value >= cfg.cooldown);
            var row := NewRow(s, cfg, arm, i);
            Decide(s, cfg, arm, i)
            == if !due then s
               else s.(rows := s.rows + [row], openIds := s.openIds + [row.id],
                       last := if row.assignment == Withhold || row.delivered then Some(i.ts) else s.last)
  {
  }

  /** The cooldown runs from the latest decision that was withheld or delivered. */
  ghost predicate LastIsSpent(s: TrialState) {
    s.last.Some? ==> exists k | 0 <= k < |s.rows| :: Spent(s.rows[k]) && s.rows[k].ts == s.last.value
  }

  lemma ObserveKeepsLast(s: TrialState, cfg: Config, i: Input)
    requires LastIsSpent(s)
    ensures LastIsSpent(Observe(s, cfg, i))
  {
    var seen := Observe(s, cfg, i);
    if s.last.Some? {
      var k :| 0 <= k < |s.rows| && Spent(s.rows[k]) && s.rows[k].ts == s.last.value;
      assert Spent(seen.rows[k]) && seen.rows[k].ts == seen.last.value;
    }
  }

  lemma DecideKeepsLast(s: TrialState, cfg: Config, arm: Arm, i: Input)
    requires LastIsSpent(s)
    ensures LastIsSpent(Decide(s, cfg, arm, i))
  {
    var t := Decide(s, cfg, arm, i);
    if t != s {
      DecideRecordsIffDue(s, cfg, arm, i);
      if s.last.Some? {
        var k :| 0 <= k < |s.rows| && Spent(s.rows[k]) && s.rows[k].ts == s.last.value;
        assert t.rows[k] == s.rows[k];
      }
      assert t.rows[|s.rows|] == NewRow(s, cfg, arm, i);
    }
  }

  lemma {:induction false} RunKeepsLast(s: TrialState, cfg: Config, arm: Arm, inputs: seq<Input>)
    requires Initial(s)
    ensures LastIsSpent(Run(s, cfg, arm, inputs))
  {
    if inputs != [] {
      RunKeepsLast(s, cfg, arm, inputs[..|inputs| - 1]);
      var before, i := Run(s, cfg, arm, inputs[..|inputs| - 1]), inputs[|inputs| - 1];
      ObserveKeepsLast(before, cfg, i);
      DecideKeepsLast(Observe(before, cfg, i), cfg, arm, i);
    }
  }

  /** The rows of the current spell are those written since the present stretch began. */
  ghost predicate SpellsByTime(s: TrialState, clock: real) {
    && (s.regime.Some? ==> s.since <= clock)
    && forall k | 0 <= k < |s.rows| :: s.spell == Some(s.rows[k].spell) <==> s.rows[k].ts >= s.since
  }

  lemma NextKeepsSpellsByTime(s: TrialState, cfg: Config, arm: Arm, clock: real, i: Input)
    requires Bookkeeping(cfg, arm, s, clock) && SpellsByTime(s, clock) && clock < i.ts
    ensures SpellsByTime(Next(s, cfg, arm, i), i.ts)
  {
    var seen := Observe(s, cfg, i);
    ObserveKeepsSpellsByTime(s, cfg, arm, clock, i);
    if seen.spell.Some? && seen.spellTk.Some? {
      DecideRecordsIffDue(seen, cfg, arm, i);
    }
  }

  lemma ObserveKeepsSpellsByTime(s: TrialState, cfg: Config, arm: Arm, clock: real, i: Input)
    requires Bookkeeping(cfg, arm, s, clock) && SpellsByTime(s, clock) && clock < i.ts
    ensures SpellsByTime(Observe(s, cfg, i), i.ts)
  {
    var seen := Observe(s, cfg, i);
    forall k | 0 <= k < |seen.rows|
      ensures seen.spell == Some(seen.rows[k].spell) <==> seen.rows[k].ts >= seen.since
    {
      assert RowOk(arm, s, clock, s.rows[k]);
    }
  }

  lemma {:induction false} RunKeepsSpellsByTime(s: TrialState, cfg: Config, arm: Arm, clock: real, inputs: seq<Input>)
    requires Initial(s) && Follows(clock, inputs)
    ensures SpellsByTime(Run(s, cfg, arm, inputs), LastReading(clock, inputs))
  {
    if inputs != [] {
      var n := |inputs| - 1;
      RunKeepsSpellsByTime(s, cfg, arm, clock, inputs[..n]);
      InitialIsBooked(s, cfg, arm, clock);
      EveryRunKeepsBookkeeping(s, cfg, arm, clock, inputs[..n]);
      NextKeepsSpellsByTime(Run(s, cfg, arm, inputs[..n]), cfg, arm, LastReading(clock, inputs[..n]), inputs[n]);
    }
  }

  /** The last cycle is due: its bad regime has lasted to the threshold drawn when it began, interventions
      are on, and every withheld or delivered decision so far is a cooldown away. */
  ghost predicate DueAfter(cfg: Config, rows: seq<Row>, inputs: seq<Input>)
    requires inputs != []
  {
    var i, opening := inputs[|inputs| - 1], inputs[StretchStart(inputs)];
    && i.regime != Productive
    && i.ts - opening.ts >= DrawnThreshold(cfg, i.regime, opening.factor)
    && cfg.enabled
    && AllCooled(cfg, rows, i.ts)
  }

  /** Every withheld or delivered decision is a cooldown away. */
  ghost predicate AllCooled(cfg: Config, rows: seq<Row>, now: real) {
    forall k | 0 <= k < |rows| ::
      rows[k].assignment == Withhold || rows[k].delivered ==> now - rows[k].ts >= cfg.cooldown
  }

  lemma CooldownFromRows(s: TrialState, cfg: Config, arm: Arm, clock: real, now: real)
    requires Bookkeeping(cfg, arm, s, clock) && LastIsSpent(s)
    ensures (s.last == None || now - s.last.value >= cfg.cooldown) <==> AllCooled(cfg, s.rows, now)
  {
    forall k | 0 <= k < |s.rows|
      ensures s.rows[k].assignment == Withhold || s.rows[k].delivered ==> s.last.Some? && s.rows[k].ts <= s.last.value
    {
      assert RowOk(arm, s, clock, s.rows[k]);
    }
  }

  /** The new row, field by field, from the inputs; it shares its spell with exactly the rows written since
      the present stretch began. */
  ghost predicate Tells(cfg: Config, arm: Arm, earlier: seq<Row>, row: Row, inputs: seq<Input>)
    requires inputs != []
  {
    var i, opening := inputs[|inputs| - 1], inputs[StretchStart(inputs)];
    var withheld := arm == Open || i.draw < cfg.holdProbability;
    && row.id == |earlier| && row.ts == i.ts && row.regime == i.regime
    && row.dwell == i.ts - opening.ts && row.tK == DrawnThreshold(cfg, i.regime, opening.factor)
    && row.assignment == (if withheld then Withhold else Intervene)
    && row.delivered == (!withheld && i.delivered)
    && row.exitTs == None && !row.censored
    && forall k | 0 <= k < |earlier| :: earlier[k].spell == row.spell <==> earlier[k].ts >= opening.ts
  }

  /** Rows already there: a cycle with another regime closes the open ones at its own time, and that is all. */
  ghost predicate Carried(before: seq<Row>, after: seq<Row>, inputs: seq<Input>)
    requires inputs != []
  {
    && |before| <= |after|
    && forall k | 0 <= k < |before| ::
         after[k] == if StretchStart(inputs) == |inputs| - 1 && before[k].exitTs == None
                     then before[k].(exitTs := Some(inputs[|inputs| - 1].ts))
                     else before[k]
  }

  lemma ObserveCarries(s: TrialState, cfg: Config, arm: Arm, clock: real, inputs: seq<Input>)
    requires inputs != [] && Reflects(cfg, s, inputs[..|inputs| - 1])
    requires Bookkeeping(cfg, arm, s, clock) && clock < inputs[|inputs| - 1].ts
    ensures var seen := Observe(s, cfg, inputs[|inputs| - 1]);
            Carried(s.rows, seen.rows, inputs) && |seen.rows| == |s.rows| && seen.last == s.last
  {
    StretchStartStep(inputs);
    if s.regime != Some(inputs[|inputs| - 1].regime) {
      ChangeClosesRows(s, cfg, arm, clock, inputs[|inputs| - 1]);
    }
  }

  lemma ObservedStretch(s: TrialState, cfg: Config, arm: Arm, clock: real, inputs: seq<Input>)
    requires Initial(s) && Follows(clock, inputs) && inputs != []
    ensures var n := |inputs| - 1;
            var before := Run(s, cfg, arm, inputs[..n]);
            var seen := Observe(before, cfg, inputs[n]);
            Carried(before.rows, seen.rows, inputs) && |seen.rows| == |before.rows| && Reflects(cfg, seen, inputs)
  {
    var n := |inputs| - 1;
    InitialIsBooked(s, cfg, arm, clock);
    EveryRunKeepsBookkeeping(s, cfg, arm, clock, inputs[..n]);
    RunReflects(s, cfg, arm, inputs[..n]);
    ObserveReflects(Run(s, cfg, arm, inputs[..n]), cfg, inputs);
    ObserveCarries(Run(s, cfg, arm, inputs[..n]), cfg, arm, LastReading(clock, inputs[..n]), inputs);
  }

  lemma ObservedSpells(s: TrialState, cfg: Config, arm: Arm, clock: real, inputs: seq<Input>)
    requires Initial(s) && Follows(clock, inputs) && inputs != []
    ensures var n := |inputs| - 1;
            SpellsByTime(Observe(Run(s, cfg, arm, inputs[..n]), cfg, inputs[n]), inputs[n].ts)
  {
    var n := |inputs| - 1;
    InitialIsBooked(s, cfg, arm, clock);
    EveryRunKeepsBookkeeping(s, cfg, arm, clock, inputs[..n]);
    RunKeepsSpellsByTime(s, cfg, arm, clock, inputs[..n]);
    ObserveKeepsSpellsByTime(Run(s, cfg, arm, inputs[..n]), cfg, arm, LastReading(clock, inputs[..n]), inputs[n]);
  }

  lemma ObservedCooldown(s: TrialState, cfg: Config, arm: Arm, clock: real, inputs: seq<Input>)
    requires Initial(s) && Follows(clock, inputs) && inputs != []
    ensures var n := |inputs| - 1;
            var before := Run(s, cfg, arm, inputs[..n]);
            before.last == None || inputs[n].ts - before.last.value >= cfg.cooldown <==>
            AllCooled(cfg, before.rows, inputs[n].ts)
  {
    var n := |inputs| - 1;
    InitialIsBooked(s, cfg, arm, clock);
    EveryRunKeepsBookkeeping(s, cfg, arm, clock, inputs[..n]);
    RunKeepsLast(s, cfg, arm, inputs[..n]);
    CooldownFromRows(Run(s, cfg, arm, inputs[..n]), cfg, arm, LastReading(clock, inputs[..n]), inputs[n].ts);
  }

  lemma DecideTells(earlier: seq<Row>, seen: TrialState, cfg: Config, arm: Arm, inputs: seq<Input>)
    requires inputs != []
    requires Carried(earlier, seen.rows, inputs) && |seen.rows| == |earlier|
    requires Reflects(cfg, seen, inputs) && SpellsByTime(seen, inputs[|inputs| - 1].ts)
    requires seen.last == None || inputs[|inputs| - 1].ts - seen.last.value >= cfg.cooldown <==>
             AllCooled(cfg, earlier, inputs[|inputs| - 1].ts)
    ensures var after := Decide(seen, cfg, arm, inputs[|inputs| - 1]).rows;
            && Carried(earlier, after, inputs)
            && |after| == |earlier| + (if DueAfter(cfg, earlier, inputs) then 1 else 0)
            && (DueAfter(cfg, earlier, inputs) ==> Tells(cfg, arm, earlier, after[|earlier|], inputs))
  {
    if inputs[|inputs| - 1].regime != Productive {
      DecideRecordsIffDue(seen, cfg, arm, inputs[|inputs| - 1]);
      assert forall k | 0 <= k < |earlier| :: seen.rows[k].spell == earlier[k].spell && seen.rows[k].ts == earlier[k].ts;
    }
  }

  /** The table after a run, from the table before its last cycle: one row more if and only if the cycle is
      due, with every field told by the inputs. */
  lemma RecordedIffDue(s: TrialState, cfg: Config, arm: Arm, clock: real, inputs: seq<Input>)
    requires Initial(s) && Follows(clock, inputs) && inputs != []
    ensures var before, after := Run(s, cfg, arm, inputs[..|inputs| - 1]).rows, Run(s, cfg, arm, inputs).rows;
            && Carried(before, after, inputs)
            && |after| == |before| + (if DueAfter(cfg, before, inputs) then 1 else 0)
            && (DueAfter(cfg, before, inputs) ==> Tells(cfg, arm, before, after[|before|], inputs))
  {
    var n := |inputs| - 1;
    var before := Run(s, cfg, arm, inputs[..n]);
    ObservedStretch(s, cfg, arm, clock, inputs);
    ObservedSpells(s, cfg, arm, clock, inputs);
    ObservedCooldown(s, cfg, arm, clock, inputs);
    DecideTells(before.rows, Observe(before, cfg, inputs[n]), cfg, arm, inputs);
  }

  // ----- the band of the jittered thresholds

  function Abs(x: real): real {
    if x < 0.0 then -x else x
  }

  ghost predicate Jittered(cfg: Config, i: Input) {
    Abs(i.factor - 1.0) <= Abs(cfg.jitter)
  }

  /** The threshold lies within the configured jitter of its regime's base. */
  ghost predicate InBand(cfg: Config, regime: ProcessRegime, tK: real) {
    Near(tK, ThresholdFor(cfg, regime), Abs(cfg.jitter))
  }

  ghost predicate Near(x: real, base: real, width: real) {
    Abs(x - base) <= Abs(base) * width
  }

  /** Whatever the configuration: base and jitter fraction may even be negative. */
  lemma JitterStaysInBand(cfg: Config, regime: ProcessRegime, i: Input)
    requires Jittered(cfg, i)
    ensures InBand(cfg, regime, SpellThreshold(cfg, regime, i.factor))
  {
    ScaledStaysNear(ThresholdFor(cfg, regime), i.factor, Abs(cfg.jitter));
  }

  lemma ScaledStaysNear(base: real, factor: real, width: real)
    requires Abs(factor - 1.0) <= width
    ensures Near(base * factor, base, width)
  {
    ProductNonnegative(Abs(base), width - (factor - 1.0));
    ProductNonnegative(Abs(base), width + (factor - 1.0));
    assert base * factor - base == base * (factor - 1.0);
    Spread(Abs(base), width, factor - 1.0);
  }

  lemma Spread(x: real, y: real, z: real)
    ensures x * (y - z) == x * y - x * z && x * (y + z) == x * y + x * z
  {
  }

  ghost predicate KeepsTheBand(cfg: Config, s: TrialState) {
    && (s.regime.Some? && s.spellTk.Some? ==> InBand(cfg, s.regime.value, s.spellTk.value))
    && (s.spell.Some? <==> s.spellTk.Some?)
    && (forall row | row in s.rows :: InBand(cfg, row.regime, row.tK))
  }

  lemma {:induction false} EveryRunKeepsTheBand(s: TrialState, cfg: Config, arm: Arm, inputs: seq<Input>)
    requires Initial(s) && forall i | i in inputs :: Jittered(cfg, i)
    ensures KeepsTheBand(cfg, Run(s, cfg, arm, inputs))
  {
    if inputs != [] {
      var n := |inputs| - 1;
      var before, i := Run(s, cfg, arm, inputs[..n]), inputs[n];
      EveryRunKeepsTheBand(s, cfg, arm, inputs[..n]);
      JitterStaysInBand(cfg, i.regime, i);
      var seen := Observe(before, cfg, i);
      forall row | row in seen.rows
        ensures InBand(cfg, row.regime, row.tK)
      {
        var k :| 0 <= k < |seen.rows| && seen.rows[k] == row;
        assert before.rows[k] in before.rows;
      }
      assert KeepsTheBand(cfg, seen);
      if Decide(seen, cfg, arm, i) != seen {
        RecordsOnlyWhenDue(seen, cfg, arm, i);
      }
    }
  }

  // ----- censoring

  ghost function OpenRows(rows: seq<Row>): set<nat> {
    set k: nat | k < |rows| && rows[k].exitTs == None
  }

  /** Exactly one of an exit time and the censored flag. */
  ghost predicate Accounted(rows: seq<Row>) {
    forall k | 0 <= k < |rows| :: rows[k].censored <==> rows[k].exitTs == None
  }

  ghost predicate Unflagged(rows: seq<Row>) {
    forall k | 0 <= k < |rows| :: !rows[k].censored
  }

  lemma NextKeepsFlags(s: TrialState, cfg: Config, arm: Arm, i: Input)
    requires s.spell.Some? <==> s.spellTk.Some?
    ensures var t := Next(s, cfg, arm, i);
            && |s.rows| <= |t.rows|
            && (forall k | 0 <= k < |s.rows| :: t.rows[k].censored == s.rows[k].censored)
            && (forall k | |s.rows| <= k < |t.rows| :: !t.rows[k].censored)
  {
    var seen := Observe(s, cfg, i);
    if Decide(seen, cfg, arm, i) != seen {
      RecordsOnlyWhenDue(seen, cfg, arm, i);
    }
  }

  /** The monitor never touches the flag, and never sets it. */
  lemma {:induction false} RunKeepsFlags(s: TrialState, cfg: Config, arm: Arm, clock: real, inputs: seq<Input>)
    requires Bookkeeping(cfg, arm, s, clock) && Follows(clock, inputs)
    ensures var e := Run(s, cfg, arm, inputs);
            && |s.rows| <= |e.rows|
            && (forall k | 0 <= k < |s.rows| :: e.rows[k].censored == s.rows[k].censored)
            && (forall k | |s.rows| <= k < |e.rows| :: !e.rows[k].censored)
  {
    if inputs != [] {
      var n := |inputs| - 1;
      RunKeepsFlags(s, cfg, arm, clock, inputs[..n]);
      EveryRunKeepsBookkeeping(s, cfg, arm, clock, inputs[..n]);
      NextKeepsFlags(Run(s, cfg, arm, inputs[..n]), cfg, arm, inputs[n]);
    }
  }

  lemma CensoringAccounts(end: TrialState, cfg: Config, arm: Arm, clock: real, k: nat)
    requires Bookkeeping(cfg, arm, end, clock) && k < |end.rows| && !end.rows[k].censored
    ensures var row := Censor(end.rows)[k];
            && (row.censored <==> row.exitTs == None)
            && (row.censored <==> end.spell == Some(row.spell))
            && (row.exitTs.Some? ==> row.ts < row.exitTs.value)
  {
    assert RowOk(arm, end, clock, end.rows[k]);
  }

  /** If the monitor is stopped before censoring, every decision point ends up either closed or censored,
      never both and never neither, and the censored ones are exactly those of the spell that was still
      open. */
  lemma EveryFinishedRunIsAccountedFor(s: TrialState, cfg: Config, arm: Arm, clock: real, inputs: seq<Input>)
    requires Initial(s) && Follows(clock, inputs)
    ensures var end := Run(s, cfg, arm, inputs);
            && Accounted(Censor(end.rows))
            && forall k | 0 <= k < |end.rows| ::
                 var row := Censor(end.rows)[k];
                 && (row.censored <==> end.spell == Some(row.spell))
                 && (row.exitTs.Some? ==> row.ts < row.exitTs.value)
  {
    var end := Run(s, cfg, arm, inputs);
    InitialIsBooked(s, cfg, arm, clock);
    EveryRunKeepsBookkeeping(s, cfg, arm, clock, inputs);
    RunKeepsFlags(s, cfg, arm, clock, inputs);
    forall k | 0 <= k < |end.rows|
      ensures var row := Censor(end.rows)[k];
              && (row.censored <==> row.exitTs == None)
              && (row.censored <==> end.spell == Some(row.spell))
              && (row.exitTs.Some? ==> row.ts < row.exitTs.value)
    {
      CensoringAccounts(end, cfg, arm, LastReading(clock, inputs), k);
    }
  }

  function Censored(s: TrialState): TrialState {
    s.(rows := Censor(s.rows))
  }

  lemma CensoringKeepsBookkeeping(s: TrialState, cfg: Config, arm: Arm, clock: real)
    requires Bookkeeping(cfg, arm, s, clock)
    ensures Bookkeeping(cfg, arm, Censored(s), clock)
  {
    var c := Censored(s);
    forall k | 0 <= k < |c.rows|
      ensures c.rows[k].id == k && RowOk(arm, c, clock, c.rows[k])
    {
      assert RowOk(arm, s, clock, s.rows[k]);
    }
    forall j, k | 0 <= j < k < |c.rows|
      ensures PairOk(cfg, c.rows[j], c.rows[k])
    {
      assert PairOk(cfg, s.rows[j], s.rows[k]);
    }
  }

  /** The orphan sweep censors without stopping the monitor. The table is still in order at the end exactly
      if the monitor's list of open decisions is then what it was at censoring. */
  lemma MonitorOutlivingCensoring(s: TrialState, cfg: Config, arm: Arm, clock: real, more: seq<Input>)
    requires Bookkeeping(cfg, arm, s, clock) && Unflagged(s.rows) && Follows(clock, more)
    ensures var end := Run(Censored(s), cfg, arm, more);
            Accounted(end.rows) <==> forall id :: id in end.openIds <==> id in s.openIds
  {
    var c := Censored(s);
    var end := Run(c, cfg, arm, more);
    CensoringKeepsBookkeeping(s, cfg, arm, clock);
    EveryRunKeepsBookkeeping(c, cfg, arm, clock, more);
    RunKeepsFlags(c, cfg, arm, clock, more);
    forall k: nat
      ensures k in end.openIds <==> k < |end.rows| && end.rows[k].exitTs == None
    {
      OpenIffNoExit(end, cfg, arm, LastReading(clock, more), k);
    }
    forall k: nat
      ensures k in s.openIds <==> k < |end.rows| && end.rows[k].censored
    {
      OpenIffNoExit(s, cfg, arm, clock, k);
    }
    AccountedIffSameIds(end.rows, end.openIds, s.openIds);
  }

  lemma AccountedIffSameIds(rows: seq<Row>, open: seq<nat>, marked: seq<nat>)
    requires forall k: nat :: k in open <==> k < |rows| && rows[k].exitTs == None
    requires forall k: nat :: k in marked <==> k < |rows| && rows[k].censored
    ensures Accounted(rows) <==> forall k :: k in open <==> k in marked
  {
    if forall k :: k in open <==> k in marked {
      forall k | 0 <= k < |rows|
        ensures rows[k].censored <==> rows[k].exitTs == None
      {
        assert k in open <==> k in marked;
      }
    }
  }

  lemma OpenIffNoExit(s: TrialState, cfg: Config, arm: Arm, clock: real, k: nat)
    requires Bookkeeping(cfg, arm, s, clock)
    ensures k in s.openIds <==> k < |s.rows| && s.rows[k].exitTs == None
  {
    if k < |s.rows| {
      assert RowOk(arm, s, clock, s.rows[k]);
    }
  }

  /** No cycle saw another regime than the one at hand when the session was censored. */
  ghost predicate SameRegime(s: TrialState, more: seq<Input>) {
    forall i | i in more :: s.regime == Some(i.regime)
  }

  /** The decisions open after some more cycles: those from before and all new ones, or, once the regime
      has changed, new ones only. */
  ghost predicate OpenSince(c: TrialState, end: TrialState, stayed: bool) {
    && |c.rows| <= |end.rows|
    && if stayed
       then end.regime == c.regime && forall id :: id in end.openIds <==> id in c.openIds || |c.rows| <= id < |end.rows|
       else forall id | id in end.openIds :: |c.rows| <= id
  }

  ghost predicate OpensNew(s: TrialState, t: TrialState, stayed: bool) {
    && |s.rows| <= |t.rows|
    && forall id :: id in t.openIds <==> (stayed && id in s.openIds) || |s.rows| <= id < |t.rows|
  }

  lemma NextOpens(s: TrialState, cfg: Config, arm: Arm, clock: real, i: Input)
    requires Bookkeeping(cfg, arm, s, clock) && clock < i.ts
    ensures Next(s, cfg, arm, i).regime == Some(i.regime)
    ensures OpensNew(s, Next(s, cfg, arm, i), s.regime == Some(i.regime))
  {
    var seen := Observe(s, cfg, i);
    if s.regime != Some(i.regime) {
      ChangeClosesRows(s, cfg, arm, clock, i);
    }
    if Decide(seen, cfg, arm, i) != seen {
      RecordsOnlyWhenDue(seen, cfg, arm, i);
    }
  }

  lemma OpenSinceStep(c: TrialState, s: TrialState, t: TrialState, earlier: seq<Input>, i: Input)
    requires OpenSince(c, s, SameRegime(c, earlier))
    requires OpensNew(s, t, s.regime == Some(i.regime)) && t.regime == Some(i.regime)
    ensures OpenSince(c, t, SameRegime(c, earlier + [i]))
  {
    SameRegimeSnoc(c, earlier, i);
  }

  lemma {:induction false} RunOpens(c: TrialState, cfg: Config, arm: Arm, clock: real, more: seq<Input>)
    requires Bookkeeping(cfg, arm, c, clock) && Follows(clock, more)
    ensures OpenSince(c, Run(c, cfg, arm, more), SameRegime(c, more))
  {
    if more != [] {
      var earlier, i := more[..|more| - 1], more[|more| - 1];
      assert more == earlier + [i];
      RunOpens(c, cfg, arm, clock, earlier);
      RunThenNextOpens(c, cfg, arm, clock, earlier, i);
      OpenSinceStep(c, Run(c, cfg, arm, earlier), Run(c, cfg, arm, more), earlier, i);
    }
  }

  lemma RunThenNextOpens(c: TrialState, cfg: Config, arm: Arm, clock: real, more: seq<Input>, i: Input)
    requires Bookkeeping(cfg, arm, c, clock) && Follows(clock, more) && LastReading(clock, more) < i.ts
    ensures var s := Run(c, cfg, arm, more);
            && Next(s, cfg, arm, i).regime == Some(i.regime)
            && OpensNew(s, Next(s, cfg, arm, i), s.regime == Some(i.regime))
  {
    EveryRunKeepsBookkeeping(c, cfg, arm, clock, more);
    NextOpens(Run(c, cfg, arm, more), cfg, arm, LastReading(clock, more), i);
  }

  lemma SameRegimeSnoc(c: TrialState, more: seq<Input>, i: Input)
    ensures SameRegime(c, more + [i]) <==> SameRegime(c, more) && c.regime == Some(i.regime)
  {
  }

  /** What that comes to: while the regime stays, any further decision spoils the table; once it changes, a
      decision that was open at censoring does, and so does any new one that is open at the end. */
  lemma AccountedIffNothingHappens(s: TrialState, cfg: Config, arm: Arm, clock: real, more: seq<Input>)
    requires Bookkeeping(cfg, arm, s, clock) && Unflagged(s.rows) && Follows(clock, more)
    ensures var end := Run(Censored(s), cfg, arm, more);
            Accounted(end.rows) <==>
              if SameRegime(s, more) then |end.rows| == |s.rows| else s.openIds == [] && end.openIds == []
  {
    MonitorOutlivingCensoring(s, cfg, arm, clock, more);
    CensoringKeepsBookkeeping(s, cfg, arm, clock);
    RunOpens(Censored(s), cfg, arm, clock, more);
    var end := Run(Censored(s), cfg, arm, more);
    if SameRegime(s, more) {
      if |s.rows| < |end.rows| {
        assert |s.rows| in end.openIds && |s.rows| !in s.openIds;
      }
    } else {
      if s.openIds != [] {
        assert s.openIds[0] in s.openIds && s.openIds[0] !in end.openIds;
      }
      if end.openIds != [] {
        assert end.openIds[0] in end.openIds && end.openIds[0] !in s.openIds;
      }
    }
  }
}
