/** What every run of the slot protocol keeps: slots are conserved, caps hold, and no learner gets a
    second session on a lab or more sessions than allowed. */
module SlotSafety {
  import opened Sequences
  import opened Queue
  import opened SlotProtocol

  // ----- counting

  function One(b: bool): nat {
    if b then 1 else 0
  }

  lemma MatchingUpdate<T>(m: map<nat, T>, p: T -> bool, k: nat, v: T)
    ensures |Matching(m[k := v], p)| + One(k in m && p(m[k])) == |Matching(m, p)| + One(p(v))
  {
    var before, after := Matching(m, p), Matching(m[k := v], p);
    SameElsewhere(before, after, k, m, m[k := v], p);
    CountWithout(before, k);
    CountWithout(after, k);
  }

  lemma SameElsewhere<T>(a: set<nat>, b: set<nat>, k: nat, m: map<nat, T>, n: map<nat, T>, p: T -> bool)
    requires a == Matching(m, p) && b == Matching(n, p)
    requires forall i | i != k :: (i in m <==> i in n) && (i in m ==> m[i] == n[i])
    ensures a - {k} == b - {k}
  {
  }

  lemma CountWithout<T>(s: set<T>, x: T)
    ensures |s - {x}| + One(x in s) == |s|
  {
    if x !in s {
      assert s - {x} == s;
    }
  }

  ghost predicate HeldBy(s: State, id: nat, lab: Lab) {
    id in s.reqs && s.reqs[id].lab == lab && Holds(s.reqs[id])
  }

  ghost predicate HeldByRow(s: State, row: nat, lab: Lab) {
    row in s.rows && s.rows[row].lab == lab && (Live(s.rows[row]) || s.rows[row].owed)
  }

  lemma SlotsAfterRequest(s: State, id: nat, r: Request, lab: Lab)
    ensures var t := SetRequest(s, id, r);
            SlotsInUse(t, lab) + One(HeldBy(s, id, lab)) == SlotsInUse(s, lab) + One(HeldBy(t, id, lab))
  {
    MatchingUpdate(s.reqs, HoldingRequest(lab), id, r);
  }

  lemma SlotsAfterRow(s: State, row: nat, session: Session, lab: Lab)
    ensures var t := SetRow(s, row, session);
            SlotsInUse(t, lab) + One(HeldByRow(s, row, lab)) == SlotsInUse(s, lab) + One(HeldByRow(t, row, lab))
  {
    MatchingUpdate(s.rows, HoldingRow(lab), row, session);
  }

  lemma HolderMeansSlot(s: State, id: nat, lab: Lab)
    ensures HeldBy(s, id, lab) ==> SlotsInUse(s, lab) > 0
  {
    assert HeldBy(s, id, lab) ==> id in Matching(s.reqs, HoldingRequest(lab));
  }

  lemma RowMeansSlot(s: State, row: nat, lab: Lab)
    ensures HeldByRow(s, row, lab) ==> SlotsInUse(s, lab) > 0
  {
    assert HeldByRow(s, row, lab) ==> row in Matching(s.rows, HoldingRow(lab));
  }

  // ----- conservation

  /** The clamp at zero is never reached: whoever releases a slot finds both counters positive. */
  lemma ReleaseNeverClamps(s: State, step: Step)
    requires WellFormed(s) && Conserved(s) && Enabled(s, step)
    ensures step.GiveBack? ==> s.store.Active(s.reqs[step.id].lab) > 0 && s.store.total > 0
    ensures step.ReleaseEnded? ==> s.store.Active(s.rows[step.row].lab) > 0 && s.store.total > 0
  {
    if step.GiveBack? {
      var lab := s.reqs[step.id].lab;
      HolderMeansSlot(s, step.id, lab);
      assert s.store.Active(lab) == SlotsInUse(s, lab);
      SumActiveSplit(s.store.active, lab);
    } else if step.ReleaseEnded? {
      var lab := s.rows[step.row].lab;
      RowMeansSlot(s, step.row, lab);
      assert s.store.Active(lab) == SlotsInUse(s, lab);
      SumActiveSplit(s.store.active, lab);
    }
  }

  /** Steps that only move a request along. */
  predicate MovesRequestOnly(s: State, step: Step)
    requires Enabled(s, step)
  {
    match step
    case InsertRow(id, _) => HasLive(s.rows, s.reqs[id].user, s.reqs[id].lab)
    case Finalize(_) => false
    case MarkEnded(_) => false
    case ReleaseEnded(_) => false
    case _ => true
  }

  lemma QuietStepBalances(s: State, lim: Limits, step: Step, lab: Lab)
    requires WellFormed(s) && Conserved(s) && Enabled(s, step) && MovesRequestOnly(s, step)
    requires !step.TakeSlot? && !step.GiveBack?
    ensures Next(s, lim, step).store.Active(lab) == SlotsInUse(Next(s, lim, step), lab)
  {
    var t := Next(s, lim, step);
    assert s.store.Active(lab) == SlotsInUse(s, lab);
    SlotsAfterRequest(s, step.id, t.reqs[step.id], lab);
    if step.id in s.reqs {
      assert RequestOk(s, s.reqs[step.id]);
    }
  }

  lemma SlotStepBalances(s: State, lim: Limits, step: Step, lab: Lab)
    requires WellFormed(s) && Conserved(s) && Enabled(s, step)
    requires step.TakeSlot? || step.GiveBack?
    ensures Next(s, lim, step).store.Active(lab) == SlotsInUse(Next(s, lim, step), lab)
  {
    var t := Next(s, lim, step);
    assert RequestOk(s, s.reqs[step.id]);
    assert s.store.Active(lab) == SlotsInUse(s, lab);
    ReleaseNeverClamps(s, step);
    SlotsAfterRequest(s, step.id, t.reqs[step.id], lab);
  }

  lemma InsertBalances(s: State, lim: Limits, id: nat, row: nat, lab: Lab)
    requires WellFormed(s) && Conserved(s) && Enabled(s, InsertRow(id, row))
    requires !HasLive(s.rows, s.reqs[id].user, s.reqs[id].lab)
    ensures Next(s, lim, InsertRow(id, row)).store.Active(lab) == SlotsInUse(Next(s, lim, InsertRow(id, row)), lab)
  {
    var t := Next(s, lim, InsertRow(id, row));
    assert RequestOk(s, s.reqs[id]);
    SlotsAfterRequest(s, id, t.reqs[id], lab);
    SlotsAfterRow(SetRequest(s, id, t.reqs[id]), row, t.rows[row], lab);
    assert s.store.Active(lab) == SlotsInUse(s, lab);
  }

  lemma FinalizeBalances(s: State, lim: Limits, id: nat, lab: Lab)
    requires WellFormed(s) && Conserved(s) && Enabled(s, Finalize(id))
    ensures Next(s, lim, Finalize(id)).store.Active(lab) == SlotsInUse(Next(s, lim, Finalize(id)), lab)
  {
    var t := Next(s, lim, Finalize(id));
    var row := s.reqs[id].pc.row;
    assert RequestOk(s, s.reqs[id]);
    SlotsAfterRequest(s, id, t.reqs[id], lab);
    SlotsAfterRow(SetRequest(s, id, t.reqs[id]), row, t.rows[row], lab);
    assert s.store.Active(lab) == SlotsInUse(s, lab);
  }

  lemma EndBalances(s: State, lim: Limits, step: Step, lab: Lab)
    requires WellFormed(s) && Conserved(s) && Enabled(s, step)
    requires step.MarkEnded? || step.ReleaseEnded?
    ensures Next(s, lim, step).store.Active(lab) == SlotsInUse(Next(s, lim, step), lab)
  {
    ReleaseNeverClamps(s, step);
    SlotsAfterRow(s, step.row, Next(s, lim, step).rows[step.row], lab);
    assert s.store.Active(lab) == SlotsInUse(s, lab);
  }

  /** Every step changes a lab's counter and its holders by the same amount. */
  lemma StepBalances(s: State, lim: Limits, step: Step, lab: Lab)
    requires WellFormed(s) && Conserved(s) && Enabled(s, step)
    ensures Next(s, lim, step).store.Active(lab) == SlotsInUse(Next(s, lim, step), lab)
  {
    if step.TakeSlot? || step.GiveBack? {
      SlotStepBalances(s, lim, step, lab);
    } else if MovesRequestOnly(s, step) {
      QuietStepBalances(s, lim, step, lab);
    } else if step.InsertRow? {
      InsertBalances(s, lim, step.id, step.row, lab);
    } else if step.Finalize? {
      FinalizeBalances(s, lim, step.id, lab);
    } else {
      EndBalances(s, lim, step, lab);
    }
  }

  lemma StepKeepsCounters(s: State, lim: Limits, step: Step)
    requires WellFormed(s) && Conserved(s) && WithinCaps(s.store, lim.caps) && Enabled(s, step)
    ensures Balanced(Next(s, lim, step).store) && WithinCaps(Next(s, lim, step).store, lim.caps)
  {
    ReleaseNeverClamps(s, step);
    match step
    case TakeSlot(id) => AcquireKeepsCounters(s.store, lim.caps, s.reqs[id].lab);
    case GiveBack(id) => ReleaseKeepsCounters(s.store, lim.caps, s.reqs[id].lab);
    case ReleaseEnded(row) => ReleaseKeepsCounters(s.store, lim.caps, s.rows[row].lab);
    case LeaveQueue(id) => QueuesLeaveCounters(s.store, lim.caps, s.reqs[id].lab, s.reqs[id].user);
    case JoinQueue(id) => QueuesLeaveCounters(s.store, lim.caps, s.reqs[id].lab, s.reqs[id].user);
    case _ => assert Next(s, lim, step).store == s.store;
  }

  lemma QueuesLeaveCounters(s: Store, caps: Caps, lab: Lab, user: User)
    requires WithinCaps(s, caps)
    ensures WithinCaps(Enqueue(s, lab, user), caps) && WithinCaps(Dequeue(s, lab, user), caps)
  {
    assert forall l :: Enqueue(s, lab, user).Active(l) == s.Active(l) == Dequeue(s, lab, user).Active(l);
  }

  /** Conservation survives every step of every interleaving. */
  lemma StepConserves(s: State, lim: Limits, step: Step)
    requires WellFormed(s) && Conserved(s) && WithinCaps(s.store, lim.caps) && Enabled(s, step)
    ensures Conserved(Next(s, lim, step)) && WithinCaps(Next(s, lim, step).store, lim.caps)
  {
    StepKeepsCounters(s, lim, step);
    forall lab
      ensures Next(s, lim, step).store.Active(lab) == SlotsInUse(Next(s, lim, step), lab)
    {
      StepBalances(s, lim, step, lab);
    }
  }

  // ----- ownership of rows

  lemma RequestStepKeepsWellFormed(s: State, lim: Limits, step: Step)
    requires WellFormed(s) && Enabled(s, step) && MovesRequestOnly(s, step)
    ensures WellFormed(Next(s, lim, step))
  {
    var t := Next(s, lim, step);
    forall id | id in t.reqs
      ensures RequestOk(t, t.reqs[id])
      ensures forall row :: Owns(t.reqs[id], row) ==> id in s.reqs && Owns(s.reqs[id], row)
    {
      if id in s.reqs {
        assert RequestOk(s, s.reqs[id]);
      }
    }
  }

  lemma InsertKeepsWellFormed(s: State, lim: Limits, id: nat, row: nat)
    requires WellFormed(s) && Enabled(s, InsertRow(id, row))
    ensures WellFormed(Next(s, lim, InsertRow(id, row)))
  {
    var t := Next(s, lim, InsertRow(id, row));
    forall i | i in t.reqs
      ensures RequestOk(t, t.reqs[i])
      ensures forall k :: Owns(t.reqs[i], k) ==> Owns(s.reqs[i], k) || (i == id && k == row)
      ensures !Owns(s.reqs[i], row)
    {
      assert RequestOk(s, s.reqs[i]);
    }
  }

  lemma FinalizeKeepsWellFormed(s: State, lim: Limits, id: nat)
    requires WellFormed(s) && Enabled(s, Finalize(id))
    ensures WellFormed(Next(s, lim, Finalize(id)))
  {
    var t := Next(s, lim, Finalize(id));
    assert Owns(s.reqs[id], s.reqs[id].pc.row);
    forall i | i in t.reqs
      ensures RequestOk(t, t.reqs[i])
      ensures forall k :: Owns(t.reqs[i], k) ==> Owns(s.reqs[i], k)
    {
      assert RequestOk(s, s.reqs[i]);
      if HasRow(s.reqs[i].pc) {
        assert Owns(s.reqs[i], s.reqs[i].pc.row);
      }
    }
  }

  lemma EndKeepsWellFormed(s: State, lim: Limits, step: Step)
    requires WellFormed(s) && Enabled(s, step)
    requires step.MarkEnded? || step.ReleaseEnded?
    ensures WellFormed(Next(s, lim, step))
  {
    var t := Next(s, lim, step);
    forall i | i in t.reqs
      ensures RequestOk(t, t.reqs[i])
    {
      assert RequestOk(s, s.reqs[i]);
      if HasRow(s.reqs[i].pc) {
        assert Owns(s.reqs[i], s.reqs[i].pc.row);
      }
    }
  }

  lemma StepKeepsWellFormed(s: State, lim: Limits, step: Step)
    requires WellFormed(s) && Enabled(s, step)
    ensures WellFormed(Next(s, lim, step))
  {
    if step.InsertRow? {
      InsertKeepsWellFormed(s, lim, step.id, step.row);
    } else if step.Finalize? {
      FinalizeKeepsWellFormed(s, lim, step.id);
    } else if step.MarkEnded? || step.ReleaseEnded? {
      EndKeepsWellFormed(s, lim, step);
    } else {
      RequestStepKeepsWellFormed(s, lim, step);
    }
  }

  // ----- queues

  lemma SameQueuesAreFair(s: Store, t: Store)
    requires Tidy(s) && s.queues == t.queues
    ensures Tidy(t) && forall lab :: NobodyOvertaken(s.Waiting(lab), t.Waiting(lab))
  {
    assert forall lab :: t.Waiting(lab) == s.Waiting(lab);
  }

  lemma StepKeepsTidy(s: State, lim: Limits, step: Step)
    requires Tidy(s.store) && Enabled(s, step)
    ensures Tidy(Next(s, lim, step).store)
    ensures forall lab :: NobodyOvertaken(s.store.Waiting(lab), Next(s, lim, step).store.Waiting(lab))
  {
    match step
    case LeaveQueue(id) => OpsKeepQueuesFair(s.store, lim.caps, OpDequeue(s.reqs[id].lab, s.reqs[id].user));
    case JoinQueue(id) => OpsKeepQueuesFair(s.store, lim.caps, OpEnqueue(s.reqs[id].lab, s.reqs[id].user));
    case _ => SameQueuesAreFair(s.store, Next(s, lim, step).store);
  }

  /** A learner comes off a list only when a request of theirs has got the slot, and on it only when one has
      not. */
  lemma WhoWaitsAfterStep(s: State, lim: Limits, step: Step, lab: Lab, user: User)
    requires Enabled(s, step)
    ensures var before, after := ListOf(s.store.queues, lab), ListOf(Next(s, lim, step).store.queues, lab);
            && (user in before && user !in after ==>
                  step.LeaveQueue? && s.reqs[step.id].user == user && s.reqs[step.id].lab == lab)
            && (user !in before && user in after ==>
                  step.JoinQueue? && s.reqs[step.id].user == user && s.reqs[step.id].lab == lab)
  {
    match step
    case LeaveQueue(id) => WhoWaitsAfter(s.store, lim.caps, OpDequeue(s.reqs[id].lab, s.reqs[id].user), lab, user);
    case JoinQueue(id) => WhoWaitsAfter(s.store, lim.caps, OpEnqueue(s.reqs[id].lab, s.reqs[id].user), lab, user);
    case _ => assert Next(s, lim, step).store.queues == s.store.queues;
  }

  // ----- one live row per learner and lab

  lemma StepKeepsOneLiveRow(s: State, lim: Limits, step: Step)
    requires WellFormed(s) && OneLiveRow(s) && Enabled(s, step)
    ensures OneLiveRow(Next(s, lim, step))
  {
    var t := Next(s, lim, step);
    if step.Finalize? {
      assert RequestOk(s, s.reqs[step.id]);
    }
    if step.InsertRow? && !MovesRequestOnly(s, step) {
      var r := s.reqs[step.id];
      assert forall k | k in s.rows && Live(s.rows[k]) :: !(s.rows[k].user == r.user && s.rows[k].lab == r.lab);
    } else {
      assert forall k | k in t.rows :: k in s.rows && (Live(t.rows[k]) ==> Live(s.rows[k]))
                                       && t.rows[k].user == s.rows[k].user && t.rows[k].lab == s.rows[k].lab;
    }
  }

  // ----- the cap per learner

  lemma LiveAfterRow(s: State, row: nat, session: Session, user: User)
    ensures var t := SetRow(s, row, session);
            CountLive(t.rows, user) + One(row in s.rows && s.rows[row].user == user && Live(s.rows[row]))
            == CountLive(s.rows, user) + One(session.user == user && Live(session))
  {
    MatchingUpdate(s.rows, LiveOf(user), row, session);
  }

  /** Only the commit of a new row adds a live one, and only for the learner whose lock is held. */
  lemma LiveAfterStep(s: State, lim: Limits, step: Step, user: User)
    requires WellFormed(s) && Enabled(s, step)
    ensures CountLive(Next(s, lim, step).rows, user)
            <= CountLive(s.rows, user) + One(step.InsertRow? && s.reqs[step.id].user == user)
  {
    var t := Next(s, lim, step);
    match step
    case InsertRow(id, row) =>
      if row in t.rows {
        LiveAfterRow(s, row, t.rows[row], user);
      }
    case Finalize(id) =>
      assert RequestOk(s, s.reqs[id]);
      LiveAfterRow(s, s.reqs[id].pc.row, t.rows[s.reqs[id].pc.row], user);
    case MarkEnded(row) => LiveAfterRow(s, row, t.rows[row], user);
    case ReleaseEnded(row) => LiveAfterRow(s, row, t.rows[row], user);
    case _ =>
  }

  /** Whoever holds a learner's lock held it before, or has just found it free and room below the cap. */
  lemma LockAfterStep(s: State, lim: Limits, step: Step, id: nat)
    requires Enabled(s, step)
    requires id in Next(s, lim, step).reqs && Next(s, lim, step).reqs[id].pc == Inserting
    ensures id in s.reqs && Next(s, lim, step).reqs[id].user == s.reqs[id].user
    ensures if step == LockAndRecount(id) then
              CountLive(s.rows, s.reqs[id].user) < lim.perUser && LockFree(s.reqs, s.reqs[id].user)
            else
              s.reqs[id].pc == Inserting && !(step.InsertRow? && step.id == id)
  {
  }

  lemma StepKeepsRoom(s: State, lim: Limits, step: Step, id: nat)
    requires WellFormed(s) && UserCapKept(s, lim) && Enabled(s, step)
    requires id in Next(s, lim, step).reqs && Next(s, lim, step).reqs[id].pc == Inserting
    ensures CountLive(Next(s, lim, step).rows, s.reqs[id].user) < lim.perUser
  {
    LockAfterStep(s, lim, step, id);
    LiveAfterStep(s, lim, step, s.reqs[id].user);
  }

  lemma StepKeepsUserCap(s: State, lim: Limits, step: Step)
    requires WellFormed(s) && UserCapKept(s, lim) && Enabled(s, step)
    ensures UserCapKept(Next(s, lim, step), lim)
  {
    var t := Next(s, lim, step);
    forall user
      ensures CountLive(t.rows, user) <= lim.perUser
    {
      LiveAfterStep(s, lim, step, user);
    }
    forall id | id in t.reqs && t.reqs[id].pc == Inserting
      ensures CountLive(t.rows, t.reqs[id].user) < lim.perUser
    {
      LockAfterStep(s, lim, step, id);
      StepKeepsRoom(s, lim, step, id);
    }
    forall a, b | a in t.reqs && b in t.reqs && t.reqs[a].pc == Inserting && t.reqs[b].pc == Inserting
                  && t.reqs[a].user == t.reqs[b].user
      ensures a == b
    {
      LockAfterStep(s, lim, step, a);
      LockAfterStep(s, lim, step, b);
    }
  }

  // ----- runs

  lemma StepKeepsInvariant(s: State, lim: Limits, step: Step)
    requires Invariant(s, lim) && Enabled(s, step)
    ensures Invariant(Next(s, lim, step), lim)
  {
    StepKeepsWellFormed(s, lim, step);
    StepConserves(s, lim, step);
    StepKeepsTidy(s, lim, step);
    StepKeepsOneLiveRow(s, lim, step);
    StepKeepsUserCap(s, lim, step);
  }

  /** Whatever is reached from a safe state is safe. */
  lemma {:induction false} ReachingIsSafe(s: State, lim: Limits, steps: seq<Step>)
    requires Invariant(s, lim) && After(s, lim, steps).Some?
    ensures Invariant(After(s, lim, steps).value, lim)
  {
    if steps != [] {
      ReachingIsSafe(s, lim, steps[..|steps| - 1]);
      StepKeepsInvariant(After(s, lim, steps[..|steps| - 1]).value, lim, steps[|steps| - 1]);
    }
  }

  const INITIAL := State(Store(map[], 0, map[]), map[], map[])

  /** Every state of every interleaving is safe. */
  lemma EveryRunIsSafe(lim: Limits, steps: seq<Step>)
    requires After(INITIAL, lim, steps).Some?
    ensures Invariant(After(INITIAL, lim, steps).value, lim)
  {
    InitialIsSafe(lim);
    ReachingIsSafe(INITIAL, lim, steps);
  }

  lemma InitialIsSafe(lim: Limits)
    ensures Invariant(INITIAL, lim)
  {
    forall lab
      ensures SlotsInUse(INITIAL, lab) == 0
    {
      assert Matching(INITIAL.reqs, HoldingRequest(lab)) == {} && Matching(INITIAL.rows, HoldingRow(lab)) == {};
    }
    forall user
      ensures CountLive(INITIAL.rows, user) == 0
    {
      assert Matching(INITIAL.rows, LiveOf(user)) == {};
    }
  }

  /** Nothing in flight: every request has been answered or lost, and every ended row has released its
      slot. */
  ghost predicate AtRest(s: State) {
    && (forall id | id in s.reqs :: s.reqs[id].pc == Finished)
    && (forall k | k in s.rows :: !s.rows[k].owed)
  }

  function In(lab: Lab, status: Status): Session -> bool {
    (row: Session) => row.lab == lab && row.status == status
  }

  lemma SlotsAtRest(s: State, lab: Lab)
    requires AtRest(s)
    ensures SlotsInUse(s, lab) == |Matching(s.rows, In(lab, Active))| + |Matching(s.rows, In(lab, Provisioning))|
  {
    var held, active, leftBehind :=
      Matching(s.rows, HoldingRow(lab)), Matching(s.rows, In(lab, Active)), Matching(s.rows, In(lab, Provisioning));
    assert Matching(s.reqs, HoldingRequest(lab)) == {};
    forall k: nat
      ensures k in held <==> k in active || k in leftBehind
      ensures !(k in active && k in leftBehind)
    {
    }
    assert held == active + leftBehind && active !! leftBehind;
  }

  /** At rest the counter of a lab is the number of its active sessions and of the provisioning rows that
      crashed launches have left behind. Each of those can be ended, which is how its slot comes back. */
  lemma NothingLeaks(lim: Limits, steps: seq<Step>, lab: Lab)
    requires After(INITIAL, lim, steps).Some? && AtRest(After(INITIAL, lim, steps).value)
    ensures var s := After(INITIAL, lim, steps).value;
            && s.store.Active(lab) == |Matching(s.rows, In(lab, Active))| + |Matching(s.rows, In(lab, Provisioning))|
            && forall k | k in Matching(s.rows, In(lab, Provisioning)) :: Enabled(s, MarkEnded(k)) && !s.rows[k].ended
  {
    EveryRunIsSafe(lim, steps);
    var s := After(INITIAL, lim, steps).value;
    SlotsAtRest(s, lab);
    assert s.store.Active(lab) == SlotsInUse(s, lab);
  }

  // ----- crashes

  /** A launch may be lost at any point without harm except while the request itself holds the slot: no
      row accounts for that slot, and nothing in the source ever gives it back. */
  lemma CrashIsSafeIff(s: State, lim: Limits, id: nat)
    requires Invariant(s, lim) && id in s.reqs
    ensures Invariant(Goto(s, id, Finished), lim) <==> !Holds(s.reqs[id])
  {
    var r := s.reqs[id];
    if Holds(r) {
      SlotsAfterRequest(s, id, r.(pc := Finished), r.lab);
      assert s.store.Active(r.lab) == SlotsInUse(s, r.lab);
      assert !Conserved(Goto(s, id, Finished));
    } else {
      StepKeepsInvariant(s, lim, Crash(id));
    }
  }
}
