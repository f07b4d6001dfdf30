/** One launch request carried through from arrival to answer, with no other step in between: the control
    flow of the endpoint as a sequence of effects on the shared state. */
module Launch {
  import opened Sequences
  import opened Queue
  import opened SlotProtocol
  import opened SlotSafety

  /** What the endpoint answers. */
  datatype Outcome =
    | Queued
    | Resumed
    | LimitReached
    | LabUnusable
    | AlreadyLaunching
    | ProvisioningFailed
    | Created

  method Perform(ghost s: State, mid: State, lim: Limits, ghost steps: seq<Step>, step: Step)
    returns (t: State, ghost longer: seq<Step>)
    requires After(s, lim, steps) == Some(mid) && Enabled(mid, step)
    ensures After(s, lim, longer) == Some(t) && t == Next(mid, lim, step)
  {
    t, longer := Next(mid, lim, step), steps + [step];
    assert longer[..|steps|] == steps;
  }

  /** `launch_session` up to its own transactions, for a request that holds a slot. */
  method Vet(ghost origin: State, ghost before: seq<Step>, s: State, lim: Limits, id: nat, labUsable: bool)
    returns (t: State, refusal: Option<Outcome>, ghost steps: seq<Step>)
    requires After(origin, lim, before) == Some(s)
    requires At(s, id, Resolving) && s.reqs[id].isNew
    ensures After(origin, lim, steps) == Some(t)
    ensures t == Goto(s, id, if refusal == None then Recounting else GivingBack)
    ensures var r := s.reqs[id];
            refusal == if HasActive(s.rows, r.user, r.lab) then Some(Resumed)
                       else if CountLive(s.rows, r.user) >= lim.perUser then Some(LimitReached)
                       else if !labUsable then Some(LabUnusable)
                       else None
  {
    t, steps := Perform(origin, s, lim, before, Resolve(id));
    if t.reqs[id].pc != Checking {
      return t, Some(Resumed), steps;
    }
    refusal := if CountLive(t.rows, t.reqs[id].user) >= lim.perUser then Some(LimitReached)
               else if !labUsable then Some(LabUnusable)
               else None;
    assert t == Goto(s, id, Checking);
    t, steps := Perform(origin, t, lim, steps, Check(id, labUsable));
  }

  /** The transaction that recounts under the lock and commits the provisioning row. */
  method Commit(ghost origin: State, ghost before: seq<Step>, s: State, lim: Limits, id: nat, row: nat)
    returns (t: State, refusal: Option<Outcome>, ghost steps: seq<Step>)
    requires After(origin, lim, before) == Some(s)
    requires At(s, id, Recounting) && s.reqs[id].isNew && row !in s.rows && LockFree(s.reqs, s.reqs[id].user)
    ensures After(origin, lim, steps) == Some(t)
    ensures var r := s.reqs[id];
            && refusal == (if CountLive(s.rows, r.user) >= lim.perUser then Some(LimitReached)
                           else if HasLive(s.rows, r.user, r.lab) then Some(AlreadyLaunching)
                           else None)
            && t == if refusal == None then Registered(s, id, row) else Goto(s, id, GivingBack)
  {
    t, steps := Perform(origin, s, lim, before, LockAndRecount(id));
    if t.reqs[id].pc != Inserting {
      return t, Some(LimitReached), steps;
    }
    assert t == Goto(s, id, Inserting);
    t, steps := Perform(origin, t, lim, steps, InsertRow(id, row));
    refusal := if t.reqs[id].pc == CallingGns3(row) then None else Some(AlreadyLaunching);
  }

  /** The GNS3 call and the update of the row that it leads to. */
  method Provision(ghost origin: State, ghost before: seq<Step>, s: State, lim: Limits, id: nat, row: nat, gns3Ok: bool)
    returns (t: State, outcome: Outcome, ghost steps: seq<Step>)
    requires After(origin, lim, before) == Some(s)
    requires At(s, id, CallingGns3(row)) && s.reqs[id].isNew && row in s.rows
    ensures After(origin, lim, steps) == Some(t)
    ensures outcome == if gns3Ok then Created else ProvisioningFailed
    ensures t == Provisioned(s, id, row, gns3Ok)
  {
    t, steps := Perform(origin, s, lim, before, CallGns3(id, gns3Ok));
    t, steps := Perform(origin, t, lim, steps, Finalize(id));
    outcome := if t.rows[row].status == Active then Created else ProvisioningFailed;
  }

  /** The endpoint's first lookup: a request that finds its session active needs no slot. */
  method FirstLook(s: State, lim: Limits, id: nat, user: User, lab: Lab) returns (t: State, ghost steps: seq<Step>)
    requires id !in s.reqs
    ensures After(s, lim, steps) == Some(t)
    ensures var active := HasActive(s.rows, user, lab);
            t == SetRequest(s, id, Request(user, lab, !active, if active then Resolving else Acquiring))
  {
    t, steps := Perform(s, s, lim, [], Arrive(id, user, lab));
    t, steps := Perform(s, t, lim, steps, LookUp(id));
  }

  /** The session is still active at the second lookup, inside the launch. */
  method Resume(ghost origin: State, ghost before: seq<Step>, s: State, lim: Limits, id: nat)
    returns (t: State, ghost steps: seq<Step>)
    requires After(origin, lim, before) == Some(s)
    requires At(s, id, Resolving) && !s.reqs[id].isNew && HasActive(s.rows, s.reqs[id].user, s.reqs[id].lab)
    ensures After(origin, lim, steps) == Some(t)
    ensures t == Goto(s, id, Finished)
  {
    t, steps := Perform(origin, s, lim, before, Resolve(id));
  }

  function Seated(s: State, lim: Limits, id: nat): State
    requires id in s.reqs
  {
    var r := s.reqs[id];
    Goto(s, id, Resolving).(store := Dequeue(Acquire(s.store, lim.caps, r.lab), r.lab, r.user))
  }

  function Parked(s: State, id: nat): State
    requires id in s.reqs
  {
    Goto(s, id, Finished).(store := Enqueue(s.store, s.reqs[id].lab, s.reqs[id].user))
  }

  lemma SlotOrQueue(s: State, lim: Limits, id: nat)
    requires At(s, id, Acquiring)
    ensures var t := Next(s, lim, TakeSlot(id));
            if HasFreeSlot(s.store, lim.caps, s.reqs[id].lab)
            then At(t, id, LeavingQueue) && Next(t, lim, LeaveQueue(id)) == Seated(s, lim, id)
            else At(t, id, JoiningQueue) && Next(t, lim, JoinQueue(id)) == Parked(s, id)
  {
  }

  /** Take a slot and leave the waiting list, or join it and be answered. */
  method TakeSlotOrQueue(ghost origin: State, ghost before: seq<Step>, s: State, lim: Limits, id: nat)
    returns (t: State, acquired: bool, ghost steps: seq<Step>)
    requires After(origin, lim, before) == Some(s) && At(s, id, Acquiring)
    ensures After(origin, lim, steps) == Some(t)
    ensures acquired == HasFreeSlot(s.store, lim.caps, s.reqs[id].lab)
    ensures t == if acquired then Seated(s, lim, id) else Parked(s, id)
  {
    SlotOrQueue(s, lim, id);
    t, steps := Perform(origin, s, lim, before, TakeSlot(id));
    acquired := t.reqs[id].pc == LeavingQueue;
    if acquired {
      t, steps := Perform(origin, t, lim, steps, LeaveQueue(id));
    } else {
      t, steps := Perform(origin, t, lim, steps, JoinQueue(id));
    }
  }

  method Refund(ghost origin: State, ghost before: seq<Step>, s: State, lim: Limits, id: nat)
    returns (t: State, ghost steps: seq<Step>)
    requires After(origin, lim, before) == Some(s) && At(s, id, GivingBack)
    ensures After(origin, lim, steps) == Some(t)
    ensures t.rows == s.rows && t.store == Release(s.store, s.reqs[id].lab)
    ensures t.reqs == s.reqs[id := s.reqs[id].(pc := Finished)]
  {
    t, steps := Perform(origin, s, lim, before, GiveBack(id));
  }

  /** When a launch that holds a slot is refused before it reaches GNS3, and why. */
  function Refusal(rows: map<nat, Session>, lim: Limits, user: User, lab: Lab, labUsable: bool): Option<Outcome> {
    if HasActive(rows, user, lab) then Some(Resumed)
    else if CountLive(rows, user) >= lim.perUser then Some(LimitReached)
    else if !labUsable then Some(LabUnusable)
    else if HasLive(rows, user, lab) then Some(AlreadyLaunching)
    else None
  }

  function Answer(s: State, lim: Limits, user: User, lab: Lab, labUsable: bool, gns3Ok: bool): Outcome {
    if HasActive(s.rows, user, lab) then Resumed
    else if !HasFreeSlot(s.store, lim.caps, lab) then Queued
    else Landed(Refusal(s.rows, lim, user, lab, labUsable), gns3Ok)
  }

  function Landed(refusal: Option<Outcome>, gns3Ok: bool): Outcome {
    if refusal.Some? then refusal.value else if gns3Ok then Created else ProvisioningFailed
  }

  /** Only a launch that got as far as GNS3 leaves a row behind. */
  function RowsAfter(rows: map<nat, Session>, row: nat, user: User, lab: Lab, outcome: Outcome): map<nat, Session> {
    if outcome == Created then rows[row := Session(user, lab, Active, false, false)]
    else if outcome == ProvisioningFailed then rows[row := Session(user, lab, Failed, false, false)]
    else rows
  }

  /** `launch_session` for a request that holds a slot. */
  method LaunchSession(ghost origin: State, ghost before: seq<Step>, s: State, lim: Limits, id: nat, row: nat,
                       labUsable: bool, gns3Ok: bool)
    returns (t: State, outcome: Outcome, ghost steps: seq<Step>)
    requires After(origin, lim, before) == Some(s)
    requires At(s, id, Resolving) && s.reqs[id].isNew && row !in s.rows && LockFree(s.reqs, s.reqs[id].user)
    ensures After(origin, lim, steps) == Some(t)
    ensures outcome == Landed(Refusal(s.rows, lim, s.reqs[id].user, s.reqs[id].lab, labUsable), gns3Ok)
    ensures t == Launched(s, id, row, outcome)
  {
    var refusal;
    t, refusal, steps := Vet(origin, before, s, lim, id, labUsable);
    if refusal.Some? {
      return t, refusal.value, steps;
    }
    t, refusal, steps := Commit(origin, steps, t, lim, id, row);
    CommitAfterVet(s, id, row);
    if refusal.Some? {
      return t, refusal.value, steps;
    }
    t, outcome, steps := Provision(origin, steps, t, lim, id, row, gns3Ok);
    ProvisionAfterCommit(s, id, row, gns3Ok);
  }

  function Registered(s: State, id: nat, row: nat): State
    requires id in s.reqs
  {
    SetRow(Goto(s, id, CallingGns3(row)), row, Session(s.reqs[id].user, s.reqs[id].lab, Provisioning, false, false))
  }

  function Provisioned(s: State, id: nat, row: nat, ok: bool): State
    requires id in s.reqs && row in s.rows
  {
    SetRow(Goto(s, id, if ok then Finished else GivingBack), row, s.rows[row].(status := if ok then Active else Failed))
  }

  function Launched(s: State, id: nat, row: nat, outcome: Outcome): State
    requires id in s.reqs
  {
    Goto(s, id, if outcome == Created then Finished else GivingBack)
      .(rows := RowsAfter(s.rows, row, s.reqs[id].user, s.reqs[id].lab, outcome))
  }

  lemma CommitAfterVet(s: State, id: nat, row: nat)
    requires id in s.reqs
    ensures var vetted := Goto(s, id, Recounting);
            && Registered(vetted, id, row) == Registered(s, id, row)
            && Goto(vetted, id, GivingBack) == Goto(s, id, GivingBack)
  {
  }

  lemma ProvisionAfterCommit(s: State, id: nat, row: nat, ok: bool)
    requires id in s.reqs
    ensures Provisioned(Registered(s, id, row), id, row, ok)
            == Launched(s, id, row, if ok then Created else ProvisioningFailed)
  {
    var t := Provisioned(Registered(s, id, row), id, row, ok);
    assert t.rows == RowsAfter(s.rows, row, s.reqs[id].user, s.reqs[id].lab, if ok then Created else ProvisioningFailed);
  }

  /** A release undoes an acquisition, whatever happened to the waiting list in between; joining the list
      touches no counter. */
  lemma ReleaseUndoesAcquire(s: Store, caps: Caps, lab: Lab, user: User)
    ensures var t := Enqueue(s, lab, user); t.total == s.total && forall l :: t.Active(l) == s.Active(l)
    ensures HasFreeSlot(s, caps, lab) ==>
              var t := Dequeue(Acquire(s, caps, lab), lab, user);
              && t.queues == Dequeue(s, lab, user).queues
              && t.total == s.total + 1 && (forall l :: t.Active(l) == s.Active(l) + One(l == lab))
              && Release(t, lab).total == s.total && forall l :: Release(t, lab).Active(l) == s.Active(l)
    ensures user !in Dequeue(s, lab, user).Waiting(lab)
  {
    WithoutShrinks(s.Waiting(lab), user);
  }

  /** The rest of the endpoint for a request that holds a slot: the slot stays with the created session or
      is given back. */
  method LaunchHoldingSlot(ghost origin: State, ghost before: seq<Step>, s: State, lim: Limits, id: nat, row: nat,
                           labUsable: bool, gns3Ok: bool)
    returns (t: State, outcome: Outcome, ghost steps: seq<Step>)
    requires After(origin, lim, before) == Some(s)
    requires At(s, id, Resolving) && s.reqs[id].isNew && row !in s.rows && LockFree(s.reqs, s.reqs[id].user)
    ensures After(origin, lim, steps) == Some(t)
    ensures var r := s.reqs[id];
            && outcome == Landed(Refusal(s.rows, lim, r.user, r.lab, labUsable), gns3Ok)
            && t.store == (if outcome == Created then s.store else Release(s.store, r.lab))
            && t.reqs == s.reqs[id := r.(pc := Finished)]
            && t.rows == RowsAfter(s.rows, row, r.user, r.lab, outcome)
  {
    t, outcome, steps := LaunchSession(origin, before, s, lim, id, row, labUsable, gns3Ok);
    if t.reqs[id].pc == GivingBack {
      t, steps := Refund(origin, steps, t, lim, id);
    }
  }

  /** Some row of this learner on this lab has one of these statuses. */
  ghost predicate Row(rows: map<nat, Session>, user: User, lab: Lab, statuses: set<Status>) {
    exists k | k in rows :: rows[k].user == user && rows[k].lab == lab && rows[k].status in statuses
  }

  ghost function LiveRows(rows: map<nat, Session>, user: User): set<nat> {
    set k | k in rows && rows[k].user == user && rows[k].status in {Active, Provisioning}
  }

  /** Which answer the tables call for: the first gate that stops the launch, in the order of the source. */
  ghost predicate CalledFor(s: State, lim: Limits, user: User, lab: Lab, labUsable: bool, gns3Ok: bool, outcome: Outcome) {
    var active := Row(s.rows, user, lab, {Active});
    var slot := !active && RoomFor(s.store, lim.caps, lab);
    var allowed := slot && |LiveRows(s.rows, user)| < lim.perUser;
    var alone := allowed && labUsable && !Row(s.rows, user, lab, {Active, Provisioning});
    && (outcome == Resumed <==> active)
    && (outcome == Queued <==> !active && !slot)
    && (outcome == LimitReached <==> slot && !allowed)
    && (outcome == LabUnusable <==> allowed && !labUsable)
    && (outcome == AlreadyLaunching <==> allowed && labUsable && !alone)
    && (outcome == ProvisioningFailed <==> alone && !gns3Ok)
    && (outcome == Created <==> alone && gns3Ok)
  }

  lemma AnswerIsCalledFor(s: State, lim: Limits, user: User, lab: Lab, labUsable: bool, gns3Ok: bool)
    ensures CalledFor(s, lim, user, lab, labUsable, gns3Ok, Answer(s, lim, user, lab, labUsable, gns3Ok))
  {
    SlotOpsByKey(s.store, lim.caps, lab, lab);
    assert Matching(s.rows, LiveOf(user)) == LiveRows(s.rows, user);
    assert HasActive(s.rows, user, lab) <==> Row(s.rows, user, lab, {Active});
    assert HasLive(s.rows, user, lab) <==> Row(s.rows, user, lab, {Active, Provisioning});
  }

  /** Rows of other learners and of other labs matter only through the free slots and through how many live
      sessions the learner has. */
  lemma AnswerDependsOn(s: State, t: State, lim: Limits, user: User, lab: Lab, labUsable: bool, gns3Ok: bool)
    requires forall k: nat, row: Session | row.user == user && row.lab == lab ::
               (k in s.rows && s.rows[k] == row) <==> (k in t.rows && t.rows[k] == row)
    requires |LiveRows(s.rows, user)| == |LiveRows(t.rows, user)|
    requires RoomFor(s.store, lim.caps, lab) <==> RoomFor(t.store, lim.caps, lab)
    ensures Answer(s, lim, user, lab, labUsable, gns3Ok) == Answer(t, lim, user, lab, labUsable, gns3Ok)
  {
    AnswerIsCalledFor(s, lim, user, lab, labUsable, gns3Ok);
    AnswerIsCalledFor(t, lim, user, lab, labUsable, gns3Ok);
    SameRow(s.rows, t.rows, user, lab, {Active});
    SameRow(s.rows, t.rows, user, lab, {Active, Provisioning});
  }

  lemma SameRow(a: map<nat, Session>, b: map<nat, Session>, user: User, lab: Lab, statuses: set<Status>)
    requires forall k: nat, row: Session | row.user == user && row.lab == lab ::
               (k in a && a[k] == row) <==> (k in b && b[k] == row)
    ensures Row(a, user, lab, statuses) <==> Row(b, user, lab, statuses)
  {
    if k :| k in a && a[k].user == user && a[k].lab == lab && a[k].status in statuses {
      assert k in b && b[k] == a[k];
    }
    if k :| k in b && b[k].user == user && b[k].lab == lab && b[k].status in statuses {
      assert k in a && a[k] == b[k];
    }
  }

  /** How `t` differs from `s` once the request has been answered: one slot more if a session was created
      and no other difference in any counter, a new row only from a launch that reached GNS3, and the
      waiting list joined, left or untouched. */
  ghost predicate Answered(s: State, t: State, id: nat, row: nat, user: User, lab: Lab, outcome: Outcome) {
    && t.store.total == s.store.total + One(outcome == Created)
    && (forall l :: Reading(t.store.active, l) == Reading(s.store.active, l) + One(outcome == Created && l == lab))
    && t.rows == (match outcome
                  case Created => s.rows[row := Session(user, lab, Active, false, false)]
                  case ProvisioningFailed => s.rows[row := Session(user, lab, Failed, false, false)]
                  case _ => s.rows)
    && t.reqs == s.reqs[id := Request(user, lab, outcome != Resumed, Finished)]
    && (forall l | l != lab :: ListOf(t.store.queues, l) == ListOf(s.store.queues, l))
    && var list := ListOf(s.store.queues, lab);
       ListOf(t.store.queues, lab) == match outcome
                                      case Resumed => list
                                      case Queued => if user in list then list else list + [user]
                                      case _ => Without(list, user)
  }

  lemma QueuedIsAnswered(s: State, t: State, id: nat, row: nat, user: User, lab: Lab)
    requires t == State(Enqueue(s.store, lab, user), s.reqs[id := Request(user, lab, true, Finished)], s.rows)
    ensures Answered(s, t, id, row, user, lab, Queued)
  {
  }

  lemma LandedIsAnswered(s: State, t: State, lim: Limits, id: nat, row: nat, user: User, lab: Lab, outcome: Outcome)
    requires HasFreeSlot(s.store, lim.caps, lab) && outcome != Resumed && outcome != Queued
    requires var held := Dequeue(Acquire(s.store, lim.caps, lab), lab, user);
             t.store == if outcome == Created then held else Release(held, lab)
    requires t.reqs == s.reqs[id := Request(user, lab, true, Finished)]
    requires t.rows == RowsAfter(s.rows, row, user, lab, outcome)
    ensures Answered(s, t, id, row, user, lab, outcome)
  {
    ReleaseUndoesAcquire(s.store, lim.caps, lab, user);
  }

  /** The first lookup and, if a slot is needed, the attempt to get one; an answer here is final. */
  method Enter(s: State, lim: Limits, id: nat, row: nat, user: User, lab: Lab)
    returns (t: State, answer: Option<Outcome>, ghost steps: seq<Step>)
    requires id !in s.reqs
    ensures After(s, lim, steps) == Some(t)
    ensures answer == if HasActive(s.rows, user, lab) then Some(Resumed)
                      else if HasFreeSlot(s.store, lim.caps, lab) then None
                      else Some(Queued)
    ensures if answer.Some? then Answered(s, t, id, row, user, lab, answer.value)
            else t == State(Dequeue(Acquire(s.store, lim.caps, lab), lab, user),
                            s.reqs[id := Request(user, lab, true, Resolving)], s.rows)
  {
    t, steps := FirstLook(s, lim, id, user, lab);
    if !t.reqs[id].isNew {
      t, steps := Resume(s, steps, t, lim, id);
      return t, Some(Resumed), steps;
    }
    var acquired;
    t, acquired, steps := TakeSlotOrQueue(s, steps, t, lim, id);
    if !acquired {
      QueuedIsAnswered(s, t, id, row, user, lab);
      return t, Some(Queued), steps;
    }
    return t, None, steps;
  }

  /** Run on its own, a launch takes exactly one slot if it creates a session and none otherwise: queued,
      resumed and failed launches leave every counter and every existing row as they found them. */
  method LaunchEndpoint(s: State, lim: Limits, id: nat, row: nat, user: User, lab: Lab, labUsable: bool, gns3Ok: bool)
    returns (t: State, outcome: Outcome, ghost steps: seq<Step>)
    requires id !in s.reqs && row !in s.rows
    requires forall k | k in s.reqs && s.reqs[k].user == user :: s.reqs[k].pc != Inserting
    ensures After(s, lim, steps) == Some(t)
    ensures outcome == Answer(s, lim, user, lab, labUsable, gns3Ok)
    ensures CalledFor(s, lim, user, lab, labUsable, gns3Ok, outcome)
    ensures Answered(s, t, id, row, user, lab, outcome)
  {
    AnswerIsCalledFor(s, lim, user, lab, labUsable, gns3Ok);
    var answer;
    t, answer, steps := Enter(s, lim, id, row, user, lab);
    if answer.Some? {
      return t, answer.value, steps;
    }
    t, outcome, steps := LaunchHoldingSlot(s, steps, t, lim, id, row, labUsable, gns3Ok);
    LandedIsAnswered(s, t, lim, id, row, user, lab, outcome);
  }
}
