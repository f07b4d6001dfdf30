/** The session-slot protocol as a state machine: any number of launch requests, each with a program
    counter, interleaved with session ends. Every Redis script and every committed transaction is one
    step. */
module SlotProtocol {
  import opened Sequences
  import opened Queue

  datatype Status = Provisioning | Active | Ended | Failed

  /** A row of `learning_sessions`. `ended` says that `ended_at` is set; `owed` that the row was ended but
      its slot has not been given back yet. */
  datatype Session = Session(user: User, lab: Lab, status: Status, ended: bool, owed: bool)

  predicate Live(row: Session) {
    row.status == Active || row.status == Provisioning
  }

  /** Where a launch request stands. */
  datatype Pc =
    | LookingUp               // is a session already active?
    | Acquiring               // try to take a slot
    | LeavingQueue            // slot taken, drop out of the waiting list
    | JoiningQueue            // no slot free
    | Resolving               // look again, inside the launch
    | Checking                // user cap, lab present and enabled
    | Recounting              // take the user's lock and count again
    | Inserting               // lock held, row about to be committed
    | CallingGns3(row: nat)
    | Finalizing(row: nat, ok: bool)
    | GivingBack              // the slot is to be released
    | Finished

  /** `isNew` is what the first lookup found out: no active session, so a slot is needed. */
  datatype Request = Request(user: User, lab: Lab, isNew: bool, pc: Pc)

  datatype State = State(store: Store, reqs: map<nat, Request>, rows: map<nat, Session>)

  datatype Limits = Limits(caps: Caps, perUser: nat)

  datatype Step =
    | Arrive(id: nat, user: User, lab: Lab)
    | LookUp(id: nat)
    | TakeSlot(id: nat)
    | LeaveQueue(id: nat)
    | JoinQueue(id: nat)
    | Resolve(id: nat)
    | Check(id: nat, labUsable: bool)
    | LockAndRecount(id: nat)
    | InsertRow(id: nat, row: nat)
    | CallGns3(id: nat, ok: bool)
    | Finalize(id: nat)
    | GiveBack(id: nat)
    | Crash(id: nat)
    | MarkEnded(row: nat)
    | ReleaseEnded(row: nat)

  // ----- what steps look at

  predicate HasActive(rows: map<nat, Session>, user: User, lab: Lab) {
    exists k | k in rows :: rows[k].user == user && rows[k].lab == lab && rows[k].status == Active
  }

  predicate HasLive(rows: map<nat, Session>, user: User, lab: Lab) {
    exists k | k in rows :: rows[k].user == user && rows[k].lab == lab && Live(rows[k])
  }

  function Matching<T>(m: map<nat, T>, p: T -> bool): set<nat> {
    set k | k in m && p(m[k])
  }

  function LiveOf(user: User): Session -> bool {
    (row: Session) => row.user == user && Live(row)
  }

  function CountLive(rows: map<nat, Session>, user: User): nat {
    |Matching(rows, LiveOf(user))|
  }

  predicate HasRow(pc: Pc) {
    pc.CallingGns3? || pc.Finalizing?
  }

  predicate Owns(r: Request, row: nat) {
    HasRow(r.pc) && r.pc.row == row
  }

  predicate Launching(reqs: map<nat, Request>, row: nat) {
    exists id | id in reqs :: Owns(reqs[id], row)
  }

  /** The advisory lock of a user is held by whoever is between the recount and the commit. */
  predicate LockFree(reqs: map<nat, Request>, user: User) {
    forall id | id in reqs :: !(reqs[id].user == user && reqs[id].pc == Inserting)
  }

  // ----- the steps

  predicate At(s: State, id: nat, pc: Pc) {
    id in s.reqs && s.reqs[id].pc == pc
  }

  /** When a step can fire. Three guards are assumptions about the environment, not checks the source
      makes: the last conjunct of `Resolve`, the condition that `MarkEnded` puts on rows that have not
      ended yet, and that no crash hits a request while it holds a slot. */
  predicate Enabled(s: State, step: Step) {
    match step
    case Arrive(id, _, _) => id !in s.reqs
    case LookUp(id) => At(s, id, LookingUp)
    case TakeSlot(id) => At(s, id, Acquiring)
    case LeaveQueue(id) => At(s, id, LeavingQueue)
    case JoinQueue(id) => At(s, id, JoiningQueue)
    case Resolve(id) => At(s, id, Resolving) && (s.reqs[id].isNew || HasActive(s.rows, s.reqs[id].user, s.reqs[id].lab))
    case Check(id, _) => At(s, id, Checking)
    case LockAndRecount(id) => At(s, id, Recounting) && LockFree(s.reqs, s.reqs[id].user)
    case InsertRow(id, row) => At(s, id, Inserting) && row !in s.rows
    case CallGns3(id, _) => id in s.reqs && s.reqs[id].pc.CallingGns3?
    case Finalize(id) => id in s.reqs && s.reqs[id].pc.Finalizing? && s.reqs[id].pc.row in s.rows
    case GiveBack(id) => At(s, id, GivingBack)
    case Crash(id) => id in s.reqs && !Holds(s.reqs[id])
    case MarkEnded(row) => row in s.rows && (s.rows[row].ended || (Live(s.rows[row]) && !Launching(s.reqs, row)))
    case ReleaseEnded(row) => row in s.rows && s.rows[row].owed
  }

  function SetRequest(s: State, id: nat, r: Request): State {
    s.(reqs := s.reqs[id := r])
  }

  function Goto(s: State, id: nat, pc: Pc): State
    requires id in s.reqs
  {
    SetRequest(s, id, s.reqs[id].(pc := pc))
  }

  /** Where a failing launch goes: back to the endpoint, which releases the slot if it took one. */
  function OnFailure(r: Request): Pc {
    if r.isNew then GivingBack else Finished
  }

  function SetRow(s: State, row: nat, session: Session): State {
    s.(rows := s.rows[row := session])
  }

  function Inserted(s: State, id: nat, row: nat): State
    requires id in s.reqs
  {
    var r := s.reqs[id];
    if HasLive(s.rows, r.user, r.lab) then Goto(s, id, OnFailure(r))
    else SetRow(Goto(s, id, CallingGns3(row)), row, Session(r.user, r.lab, Provisioning, false, false))
  }

  /** `_mark_ended_and_finalize` up to its commit: a row that has ended before is left alone. */
  function Marked(s: State, row: nat): State
    requires row in s.rows
  {
    if s.rows[row].ended then s
    else SetRow(s, row, s.rows[row].(status := Ended, ended := true, owed := true))
  }

  function Next(s: State, lim: Limits, step: Step): State
    requires Enabled(s, step)
  {
    match step
    case Arrive(id, user, lab) => SetRequest(s, id, Request(user, lab, false, LookingUp))
    case LookUp(id) =>
      var r := s.reqs[id];
      var found := HasActive(s.rows, r.user, r.lab);
      SetRequest(s, id, r.(isNew := !found, pc := if found then Resolving else Acquiring))
    case TakeSlot(id) =>
      var lab := s.reqs[id].lab;
      if HasFreeSlot(s.store, lim.caps, lab)
      then Goto(s, id, LeavingQueue).(store := Acquire(s.store, lim.caps, lab))
      else Goto(s, id, JoiningQueue)
    case LeaveQueue(id) => Goto(s, id, Resolving).(store := Dequeue(s.store, s.reqs[id].lab, s.reqs[id].user))
    case JoinQueue(id) => Goto(s, id, Finished).(store := Enqueue(s.store, s.reqs[id].lab, s.reqs[id].user))
    case Resolve(id) =>
      var r := s.reqs[id];
      Goto(s, id, if HasActive(s.rows, r.user, r.lab) then OnFailure(r) else Checking)
    case Check(id, labUsable) =>
      var r := s.reqs[id];
      Goto(s, id, if CountLive(s.rows, r.user) >= lim.perUser || !labUsable then OnFailure(r) else Recounting)
    case LockAndRecount(id) =>
      var r := s.reqs[id];
      Goto(s, id, if CountLive(s.rows, r.user) >= lim.perUser then OnFailure(r) else Inserting)
    case InsertRow(id, row) => Inserted(s, id, row)
    case CallGns3(id, ok) => Goto(s, id, Finalizing(s.reqs[id].pc.row, ok))
    case Finalize(id) =>
      var r := s.reqs[id];
      var row := r.pc.row;
      SetRow(Goto(s, id, if r.pc.ok then Finished else OnFailure(r)), row,
             s.rows[row].(status := if r.pc.ok then Active else Failed))
    case GiveBack(id) => Goto(s, id, Finished).(store := Release(s.store, s.reqs[id].lab))
    case Crash(id) => Goto(s, id, Finished)
    case MarkEnded(row) => Marked(s, row)
    case ReleaseEnded(row) =>
      SetRow(s, row, s.rows[row].(owed := false)).(store := Release(s.store, s.rows[row].lab))
  }

  /** The state after these steps, if each of them can fire in its turn. */
  ghost function After(s: State, lim: Limits, steps: seq<Step>): Option<State> {
    if steps == [] then Some(s)
    else
      var mid := After(s, lim, steps[..|steps| - 1]);
      var step := steps[|steps| - 1];
      if mid.Some? && Enabled(mid.value, step) then Some(Next(mid.value, lim, step)) else None
  }

  lemma AfterSnoc(s: State, lim: Limits, steps: seq<Step>, step: Step)
    requires After(s, lim, steps).Some? && Enabled(After(s, lim, steps).value, step)
    ensures After(s, lim, steps + [step]) == Some(Next(After(s, lim, steps).value, lim, step))
  {
    assert (steps + [step])[..|steps|] == steps;
  }

  lemma {:induction false} AfterBoth(s: State, lim: Limits, first: seq<Step>, second: seq<Step>)
    requires After(s, lim, first).Some?
    ensures After(s, lim, first + second) == After(After(s, lim, first).value, lim, second)
  {
    if second == [] {
      assert first + second == first;
    } else {
      AfterBoth(s, lim, first, second[..|second| - 1]);
      assert (first + second)[..|first + second| - 1] == first + second[..|second| - 1];
    }
  }

  // ----- who holds a slot

  /** A request between taking a slot and handing it to a row or giving it back. */
  predicate Holds(r: Request) {
    r.isNew && (r.pc == LeavingQueue || r.pc == Resolving || r.pc == Checking || r.pc == Recounting
                || r.pc == Inserting || r.pc == GivingBack)
  }

  function HoldingRequest(lab: Lab): Request -> bool {
    (r: Request) => r.lab == lab && Holds(r)
  }

  /** A live row holds a slot, and so does an ended one until its slot is released. */
  function HoldingRow(lab: Lab): Session -> bool {
    (row: Session) => row.lab == lab && (Live(row) || row.owed)
  }

  ghost function SlotsInUse(s: State, lab: Lab): nat {
    |Matching(s.reqs, HoldingRequest(lab))| + |Matching(s.rows, HoldingRow(lab))|
  }

  /** Each lab counter equals the slots in use there, and the lab counters add up to the global one. */
  ghost predicate Conserved(s: State) {
    && Balanced(s.store)
    && forall lab :: s.store.Active(lab) == SlotsInUse(s, lab)
  }

  // ----- what every reachable state satisfies

  /** Only new launches get past the second lookup, and a launch in GNS3 owns a provisioning row. */
  ghost predicate RequestOk(s: State, r: Request) {
    && (r.pc != LookingUp && r.pc != JoiningQueue && r.pc != Resolving && r.pc != Finished ==> r.isNew)
    && (HasRow(r.pc) ==> r.pc.row in s.rows && s.rows[r.pc.row] == Session(r.user, r.lab, Provisioning, false, false))
  }

  ghost predicate WellFormed(s: State) {
    && (forall id | id in s.reqs :: RequestOk(s, s.reqs[id]))
    && (forall a, b, row | a in s.reqs && b in s.reqs && Owns(s.reqs[a], row) && Owns(s.reqs[b], row) :: a == b)
    && (forall k | k in s.rows :: (s.rows[k].owed ==> s.rows[k].ended) && (s.rows[k].ended ==> s.rows[k].status == Ended))
  }

  /** Never two live rows for one learner and lab. */
  ghost predicate OneLiveRow(s: State) {
    forall a, b | a in s.rows && b in s.rows && Live(s.rows[a]) && Live(s.rows[b])
                  && s.rows[a].user == s.rows[b].user && s.rows[a].lab == s.rows[b].lab :: a == b
  }

  /** Never more live rows than the cap, with room for one more while the lock is held. */
  ghost predicate UserCapKept(s: State, lim: Limits) {
    && (forall user :: CountLive(s.rows, user) <= lim.perUser)
    && (forall id | id in s.reqs && s.reqs[id].pc == Inserting :: CountLive(s.rows, s.reqs[id].user) < lim.perUser)
    && (forall a, b | a in s.reqs && b in s.reqs && s.reqs[a].pc == Inserting && s.reqs[b].pc == Inserting
                      && s.reqs[a].user == s.reqs[b].user :: a == b)
  }

  ghost predicate Invariant(s: State, lim: Limits) {
    && WellFormed(s)
    && Conserved(s)
    && WithinCaps(s.store, lim.caps)
    && Tidy(s.store)
    && OneLiveRow(s)
    && UserCapKept(s, lim)
  }
}
