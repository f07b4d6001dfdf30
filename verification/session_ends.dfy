/** Ending sessions: what the single finalization point does to the slots, exactly when that is safe, and
    the reaper that drives it over a stale selection of rows. */
module SessionEnds {
  import opened Sequences
  import opened Queue
  import opened SlotProtocol
  import opened SlotSafety

  /** `_mark_ended_and_finalize` as it stands: it asks only whether the row has ended before. */
  function EndSession(s: State, row: nat): State
    requires row in s.rows
  {
    if s.rows[row].ended then s
    else SetRow(s, row, s.rows[row].(status := Ended, ended := true)).(store := Release(s.store, s.rows[row].lab))
  }

  lemma EndIsMarkThenRelease(s: State, lim: Limits, row: nat)
    requires Invariant(s, lim) && Enabled(s, MarkEnded(row)) && !s.rows[row].ended
    ensures Enabled(Next(s, lim, MarkEnded(row)), ReleaseEnded(row))
    ensures EndSession(s, row) == Next(Next(s, lim, MarkEnded(row)), lim, ReleaseEnded(row))
  {
    var marked := s.rows[row].(status := Ended, ended := true, owed := true);
    assert s.rows[row := marked][row := marked.(owed := false)] == s.rows[row := marked.(owed := false)];
  }

  lemma EndingSettledRowIsSafe(s: State, lim: Limits, row: nat)
    requires Invariant(s, lim) && Enabled(s, MarkEnded(row))
    ensures Invariant(EndSession(s, row), lim)
  {
    if !s.rows[row].ended {
      EndIsMarkThenRelease(s, lim, row);
      StepKeepsInvariant(s, lim, MarkEnded(row));
      StepKeepsInvariant(Next(s, lim, MarkEnded(row)), lim, ReleaseEnded(row));
    }
  }

  // ----- what can go wrong

  /** What the platform relies on in a single state: no word on which request is responsible for what. */
  ghost predicate Sound(s: State, lim: Limits) {
    && Conserved(s)
    && WithinCaps(s.store, lim.caps)
    && Tidy(s.store)
    && OneLiveRow(s)
    && forall user :: CountLive(s.rows, user) <= lim.perUser
  }

  /** Sound now and after whatever the protocol may still do. */
  ghost predicate StaysSound(s: State, lim: Limits) {
    forall steps | After(s, lim, steps).Some? :: Sound(After(s, lim, steps).value, lim)
  }

  lemma InvariantStaysSound(s: State, lim: Limits)
    requires Invariant(s, lim)
    ensures StaysSound(s, lim)
  {
    forall steps | After(s, lim, steps).Some?
      ensures Sound(After(s, lim, steps).value, lim)
    {
      ReachingIsSafe(s, lim, steps);
    }
  }

  /** Ending a live row never does any harm at once, not even under a launch that is still at work. */
  lemma EndingLiveRowLooksSound(s: State, lim: Limits, row: nat)
    requires Sound(s, lim) && row in s.rows && Live(s.rows[row]) && !s.rows[row].ended && !s.rows[row].owed
    ensures Sound(EndSession(s, row), lim)
  {
    var t := EndSession(s, row);
    var lab := s.rows[row].lab;
    assert HeldByRow(s, row, lab);
    RowMeansSlot(s, row, lab);
    assert s.store.Active(lab) == SlotsInUse(s, lab);
    ReleaseKeepsCounters(s.store, lim.caps, lab);
    forall l
      ensures t.store.Active(l) == SlotsInUse(t, l)
    {
      SlotsAfterRow(s, row, t.rows[row], l);
      assert s.store.Active(l) == SlotsInUse(s, l);
    }
    forall l
      ensures NoDuplicates(t.store.Waiting(l))
    {
      assert t.store.Waiting(l) == s.store.Waiting(l);
    }
    forall user
      ensures CountLive(t.rows, user) <= lim.perUser
    {
      LiveAfterRow(s, row, t.rows[row], user);
    }
  }

  /** A row that was ended under a launch: the launch still owns it. */
  ghost predicate EndedUnder(t: State, row: nat, id: nat) {
    && row in t.rows && t.rows[row].ended && !Live(t.rows[row]) && !t.rows[row].owed
    && id in t.reqs && t.reqs[id].isNew && Owns(t.reqs[id], row) && t.reqs[id].lab == t.rows[row].lab
  }

  /** The launch's next transaction overwrites the status of the ended row: one slot too few is counted,
      for a session that came back to life or for a failed launch about to release a second time. */
  lemma FinalizingEndedRow(t: State, lim: Limits, row: nat, id: nat)
    requires Conserved(t) && EndedUnder(t, row, id) && t.reqs[id].pc.Finalizing?
    ensures var u := Next(t, lim, Finalize(id));
            u.store.Active(u.rows[row].lab) + 1 == SlotsInUse(u, u.rows[row].lab)
  {
    var u := Next(t, lim, Finalize(id));
    var lab := t.rows[row].lab;
    SlotsAfterRequest(t, id, u.reqs[id], lab);
    SlotsAfterRow(SetRequest(t, id, u.reqs[id]), row, u.rows[row], lab);
    assert t.store.Active(lab) == SlotsInUse(t, lab);
  }

  lemma EndedUnderIsUnsafe(t: State, lim: Limits, row: nat, id: nat)
    requires Conserved(t) && EndedUnder(t, row, id)
    ensures !StaysSound(t, lim)
  {
    var u, steps := t, [];
    if t.reqs[id].pc.CallingGns3? {
      AfterSnoc(t, lim, [], CallGns3(id, true));
      u, steps := Next(t, lim, CallGns3(id, true)), [] + [CallGns3(id, true)];
      forall lab
        ensures u.store.Active(lab) == SlotsInUse(u, lab)
      {
        SlotsAfterRequest(t, id, u.reqs[id], lab);
        assert t.store.Active(lab) == SlotsInUse(t, lab);
      }
    }
    FinalizingEndedRow(u, lim, row, id);
    AfterSnoc(t, lim, steps, Finalize(id));
    assert !Sound(After(t, lim, steps + [Finalize(id)]).value, lim);
  }

  /** GNS3 succeeded: the session is active again, holds no slot, and can never be ended any more. */
  lemma EndedLaunchComesBackForGood(s: State, lim: Limits, row: nat, id: nat)
    requires Invariant(s, lim) && id in s.reqs && s.reqs[id].pc == Finalizing(row, true)
    ensures var t := Next(EndSession(s, row), lim, Finalize(id));
            && t.rows[row].status == Active
            && t.store.Active(t.rows[row].lab) + 1 == SlotsInUse(t, t.rows[row].lab)
            && EndSession(t, row) == t
  {
    OwnedRowIsLive(s, lim, row, id);
    EndingLiveRowLooksSound(s, lim, row);
    FinalizingEndedRow(EndSession(s, row), lim, row, id);
  }

  lemma OwnedRowIsLive(s: State, lim: Limits, row: nat, id: nat)
    requires Invariant(s, lim) && id in s.reqs && Owns(s.reqs[id], row)
    ensures row in s.rows && s.rows[row].status == Provisioning && !s.rows[row].ended && !s.rows[row].owed
    ensures EndedUnder(EndSession(s, row), row, id)
  {
    assert RequestOk(s, s.reqs[id]);
  }

  /** One release more than there are slots to give back goes unnoticed only if none is taken. */
  lemma SpareRelease(s: State, t: State, lab: Lab)
    requires Conserved(s) && t.store == Release(s.store, lab)
    requires forall l :: SlotsInUse(t, l) == SlotsInUse(s, l)
    ensures Conserved(t) <==> s.store.total == 0
  {
    assert s.store.Active(lab) == SlotsInUse(s, lab);
    if s.store.Active(lab) > 0 {
      SumActiveSplit(s.store.active, lab);
      assert t.store.Active(lab) != SlotsInUse(t, lab);
    } else {
      assert t.store.active == s.store.active;
      assert forall l :: s.store.Active(l) == SlotsInUse(s, l) == SlotsInUse(t, l);
    }
  }

  lemma FailingLeavesSlots(e: State, row: nat, id: nat, lab: Lab)
    requires EndedUnder(e, row, id)
    ensures SlotsInUse(Goto(SetRow(Goto(e, id, GivingBack), row, e.rows[row].(status := Failed)), id, Finished), lab)
            == SlotsInUse(e, lab)
  {
    var a := Goto(e, id, GivingBack);
    var f := SetRow(a, row, e.rows[row].(status := Failed));
    SlotsAfterRequest(e, id, a.reqs[id], lab);
    SlotsAfterRow(a, row, f.rows[row], lab);
    SlotsAfterRequest(f, id, f.reqs[id].(pc := Finished), lab);
  }

  /** GNS3 failed: the launch gives back a slot that ending its row had given back before. Some other
      session pays for it, unless there was none. */
  lemma EndedLaunchReleasesTwice(s: State, lim: Limits, row: nat, id: nat)
    requires Invariant(s, lim) && id in s.reqs && s.reqs[id].pc == Finalizing(row, false)
    ensures var failed := Next(EndSession(s, row), lim, Finalize(id));
            && Enabled(failed, GiveBack(id))
            && (Conserved(Next(failed, lim, GiveBack(id))) <==> s.store.total == 1)
  {
    OwnedRowIsLive(s, lim, row, id);
    EndingLiveRowLooksSound(s, lim, row);
    HeldRowCounts(s, row);
    SecondRelease(EndSession(s, row), lim, row, id);
  }

  lemma SecondRelease(e: State, lim: Limits, row: nat, id: nat)
    requires Conserved(e) && EndedUnder(e, row, id) && e.reqs[id].pc == Finalizing(row, false)
    ensures var failed := Next(e, lim, Finalize(id));
            && Enabled(failed, GiveBack(id))
            && (Conserved(Next(failed, lim, GiveBack(id))) <==> e.store.total == 0)
  {
    var f := SetRow(Goto(e, id, GivingBack), row, e.rows[row].(status := Failed));
    assert Next(e, lim, Finalize(id)) == f;
    var g := Next(f, lim, GiveBack(id));
    forall l
      ensures SlotsInUse(g, l) == SlotsInUse(e, l)
    {
      FailingLeavesSlots(e, row, id, l);
      assert SlotsInUse(g, l) == SlotsInUse(Goto(f, id, Finished), l);
    }
    SpareRelease(e, g, e.rows[row].lab);
  }

  lemma HeldRowCounts(s: State, row: nat)
    requires Conserved(s) && row in s.rows && Live(s.rows[row])
    ensures s.store.total > 0
  {
    var lab := s.rows[row].lab;
    assert HeldByRow(s, row, lab);
    RowMeansSlot(s, row, lab);
    assert s.store.Active(lab) == SlotsInUse(s, lab);
    SumActiveSplit(s.store.active, lab);
  }

  lemma EndingDeadRow(s: State, lim: Limits, row: nat)
    requires Invariant(s, lim) && row in s.rows && !s.rows[row].ended && !Live(s.rows[row])
    ensures Conserved(EndSession(s, row)) <==> s.store.total == 0
  {
    var t := EndSession(s, row);
    forall l
      ensures SlotsInUse(t, l) == SlotsInUse(s, l)
    {
      SlotsAfterRow(s, row, t.rows[row], l);
    }
    SpareRelease(s, t, s.rows[row].lab);
  }

  lemma EndingDeadRowKeepsTheRest(s: State, lim: Limits, row: nat)
    requires Invariant(s, lim) && row in s.rows && !s.rows[row].ended && !Live(s.rows[row])
    requires s.store.total == 0
    ensures Invariant(EndSession(s, row), lim)
  {
    var t := EndSession(s, row);
    EndingDeadRow(s, lim, row);
    assert s.store.Active(s.rows[row].lab) == 0 by {
      if s.store.Active(s.rows[row].lab) > 0 {
        SumActiveSplit(s.store.active, s.rows[row].lab);
      }
    }
    assert t.store == s.store;
    forall id | id in t.reqs
      ensures RequestOk(t, t.reqs[id])
    {
      assert RequestOk(s, s.reqs[id]);
    }
    forall user
      ensures CountLive(t.rows, user) == CountLive(s.rows, user)
    {
      LiveAfterRow(s, row, t.rows[row], user);
    }
  }

  // ----- exactly when it does not

  /** The source lets any row be ended that has not ended before. That is safe for good exactly when the
      row is live and no launch is still working on it; the one other case is a row that never got its
      session while no slot at all is taken. */
  lemma EndIsSafeIff(s: State, lim: Limits, row: nat)
    requires Invariant(s, lim) && row in s.rows && !s.rows[row].ended
    ensures StaysSound(EndSession(s, row), lim)
            <==> if Live(s.rows[row]) then !Launching(s.reqs, row) else s.store.total == 0
  {
    if Live(s.rows[row]) && Launching(s.reqs, row) {
      var id :| id in s.reqs && Owns(s.reqs[id], row);
      OwnedRowIsLive(s, lim, row, id);
      EndingLiveRowLooksSound(s, lim, row);
      EndedUnderIsUnsafe(EndSession(s, row), lim, row, id);
    } else if Live(s.rows[row]) {
      EndingSettledRowIsSafe(s, lim, row);
      InvariantStaysSound(EndSession(s, row), lim);
    } else if s.store.total == 0 {
      EndingDeadRowKeepsTheRest(s, lim, row);
      InvariantStaysSound(EndSession(s, row), lim);
    } else {
      EndingDeadRow(s, lim, row);
      assert After(EndSession(s, row), lim, []) == Some(EndSession(s, row));
    }
  }

  /** Nothing stored tells the two kinds of provisioning rows apart: lose the launch and the tables stay
      as they are, but ending the row turns from unsafe to safe. */
  lemma NoCheckOnTheRowSuffices(s: State, lim: Limits, row: nat, id: nat)
    requires Invariant(s, lim) && id in s.reqs && Owns(s.reqs[id], row)
    ensures Enabled(s, Crash(id))
    ensures var lost := Next(s, lim, Crash(id));
            && lost.rows == s.rows && lost.store == s.store
            && !StaysSound(EndSession(s, row), lim)
            && StaysSound(EndSession(lost, row), lim)
  {
    var lost := Next(s, lim, Crash(id));
    OwnedRowIsLive(s, lim, row, id);
    StepKeepsInvariant(s, lim, Crash(id));
    EndIsSafeIff(s, lim, row);
    EndIsSafeIff(lost, lim, row);
  }

  ghost predicate EveryProvisioningRowIsOwned(s: State) {
    forall k | k in s.rows && s.rows[k].status == Provisioning :: Launching(s.reqs, k)
  }

  lemma StepKeepsOwners(s: State, lim: Limits, step: Step)
    requires EveryProvisioningRowIsOwned(s) && Enabled(s, step) && !step.Crash?
    ensures EveryProvisioningRowIsOwned(Next(s, lim, step))
  {
    var t := Next(s, lim, step);
    forall k | k in t.rows && t.rows[k].status == Provisioning
      ensures Launching(t.reqs, k)
    {
      if k in s.rows && s.rows[k].status == Provisioning {
        var id :| id in s.reqs && Owns(s.reqs[id], k);
        assert Owns(t.reqs[id], k);
      } else {
        assert Owns(t.reqs[step.id], k);
      }
    }
  }

  lemma {:induction false} NoCrashNoDebris(lim: Limits, steps: seq<Step>)
    requires After(INITIAL, lim, steps).Some? && forall step | step in steps :: !step.Crash?
    ensures EveryProvisioningRowIsOwned(After(INITIAL, lim, steps).value)
  {
    if steps != [] {
      NoCrashNoDebris(lim, steps[..|steps| - 1]);
      StepKeepsOwners(After(INITIAL, lim, steps[..|steps| - 1]).value, lim, steps[|steps| - 1]);
    }
  }

  /** As long as no launch has been lost the status of the row decides: an active row may be ended, a
      provisioning one may not. */
  lemma EndIsSafeIffActive(lim: Limits, steps: seq<Step>, row: nat)
    requires After(INITIAL, lim, steps).Some? && forall step | step in steps :: !step.Crash?
    requires var s := After(INITIAL, lim, steps).value; row in s.rows && !s.rows[row].ended
    ensures var s := After(INITIAL, lim, steps).value;
            StaysSound(EndSession(s, row), lim)
            <==> s.rows[row].status == Active || (s.rows[row].status != Provisioning && s.store.total == 0)
  {
    var s := After(INITIAL, lim, steps).value;
    EveryRunIsSafe(lim, steps);
    NoCrashNoDebris(lim, steps);
    EndIsSafeIff(s, lim, row);
    if Launching(s.reqs, row) {
      var id :| id in s.reqs && Owns(s.reqs[id], row);
      OwnedRowIsLive(s, lim, row, id);
    }
  }

  /** A launch that took no slot, because it saw an active session at first, must still see one at its
      second lookup: otherwise the row it commits breaks conservation, unless another live row of the
      same learner and lab stops it. */
  lemma SlotlessInsertIsSafeIff(s: State, id: nat, row: nat)
    requires Conserved(s) && At(s, id, Inserting) && row !in s.rows
    ensures Conserved(Inserted(s, id, row)) <==> s.reqs[id].isNew || HasLive(s.rows, s.reqs[id].user, s.reqs[id].lab)
  {
    var r, t := s.reqs[id], Inserted(s, id, row);
    forall lab
      ensures SlotsInUse(t, lab) == SlotsInUse(s, lab)
              + One(lab == r.lab && !r.isNew && !HasLive(s.rows, r.user, r.lab))
    {
      SlotsAfterRequest(s, id, t.reqs[id], lab);
      if row in t.rows {
        SlotsAfterRow(SetRequest(s, id, t.reqs[id]), row, t.rows[row], lab);
      }
    }
    assert s.store.Active(r.lab) == SlotsInUse(s, r.lab);
    assert forall lab :: t.store.Active(lab) == s.store.Active(lab) == SlotsInUse(s, lab);
  }

  // ----- the reaper

  function EndIfPresent(s: State, row: nat): State {
    if row in s.rows then EndSession(s, row) else s
  }

  /** One pass over the rows that the query selected, whatever has become of them since. */
  function Reap(s: State, selected: seq<nat>): State {
    if selected == [] then s else EndIfPresent(Reap(s, selected[..|selected| - 1]), selected[|selected| - 1])
  }

  /** The count the pass reports includes rows that had ended already or are gone; the slots it frees do
      not. */
  method ReapExpiredSessions(s: State, selected: seq<nat>) returns (t: State, ended: nat)
    ensures t == Reap(s, selected)
    ensures ended == |selected|
  {
    t, ended := s, 0;
    for i := 0 to |selected|
      invariant t == Reap(s, selected[..i])
      invariant ended == i
    {
      TakeOneMore(selected, i);
      if selected[i] in t.rows {
        t := EndSession(t, selected[i]);
      }
      ended := ended + 1;
    }
    assert selected[..|selected|] == selected;
  }

  /** The rows that the pass ends: selected, still there, and not ended before. */
  ghost function Reaped(s: State, selected: seq<nat>): set<nat> {
    set k | k in s.rows && k in selected && !s.rows[k].ended
  }

  ghost function ReapedIn(s: State, selected: seq<nat>, lab: Lab): set<nat> {
    set k | k in Reaped(s, selected) && s.rows[k].lab == lab
  }

  function Less(n: nat, m: nat): nat {
    if m <= n then n - m else 0
  }

  lemma ReapedSnoc(s: State, selected: seq<nat>, row: nat)
    ensures Reaped(s, selected + [row]) == Reaped(s, selected) + if row in s.rows && !s.rows[row].ended then {row} else {}
  {
    assert forall k :: k in selected + [row] <==> k in selected || k == row;
  }

  lemma ReapedInSnoc(s: State, selected: seq<nat>, row: nat, lab: Lab)
    ensures ReapedIn(s, selected + [row], lab) == ReapedIn(s, selected, lab)
            + if row in s.rows && !s.rows[row].ended && s.rows[row].lab == lab then {row} else {}
  {
    ReapedSnoc(s, selected, row);
  }

  lemma ReapSnoc(s: State, selected: seq<nat>, row: nat)
    ensures Reap(s, selected + [row]) == EndIfPresent(Reap(s, selected), row)
  {
    assert (selected + [row])[..|selected|] == selected;
  }

  lemma {:induction false} ReapEndsRows(s: State, selected: seq<nat>)
    ensures var t := Reap(s, selected);
            && t.reqs == s.reqs && t.store.queues == s.store.queues
            && t.rows.Keys == s.rows.Keys
            && forall k | k in s.rows ::
                 t.rows[k] == if k in Reaped(s, selected) then s.rows[k].(status := Ended, ended := true) else s.rows[k]
  {
    if selected != [] {
      var earlier, row := selected[..|selected| - 1], selected[|selected| - 1];
      assert selected == earlier + [row];
      ReapEndsRows(s, earlier);
      ReapSnoc(s, earlier, row);
      ReapedSnoc(s, earlier, row);
    }
  }

  lemma EndLowersCounters(s: State, row: nat, lab: Lab)
    requires row in s.rows && !s.rows[row].ended
    ensures var t := EndSession(s, row);
            && t.store.Active(lab) == Less(s.store.Active(lab), One(s.rows[row].lab == lab))
            && t.store.total == Less(s.store.total, 1)
  {
  }

  lemma ReapedGrows(s: State, selected: seq<nat>, row: nat, lab: Lab)
    ensures var newly := row in s.rows && !s.rows[row].ended && row !in selected;
            && |Reaped(s, selected + [row])| == |Reaped(s, selected)| + One(newly)
            && |ReapedIn(s, selected + [row], lab)| == |ReapedIn(s, selected, lab)| + One(newly && s.rows[row].lab == lab)
  {
    var fits := row in s.rows && !s.rows[row].ended;
    ReapedSnoc(s, selected, row);
    ReapedInSnoc(s, selected, row, lab);
    OneMore(Reaped(s, selected), row, fits);
    OneMore(ReapedIn(s, selected, lab), row, fits && s.rows[row].lab == lab);
  }

  lemma OneMore(a: set<nat>, x: nat, added: bool)
    ensures |a + if added then {x} else {}| == |a| + One(added && x !in a)
  {
    if added && x in a {
      assert a + {x} == a;
    }
  }

  lemma {:induction false} ReapLowersCounters(s: State, selected: seq<nat>, lab: Lab)
    ensures var t := Reap(s, selected);
            && t.store.Active(lab) == Less(s.store.Active(lab), |ReapedIn(s, selected, lab)|)
            && t.store.total == Less(s.store.total, |Reaped(s, selected)|)
  {
    if selected != [] {
      var earlier, row := selected[..|selected| - 1], selected[|selected| - 1];
      assert selected == earlier + [row];
      ReapLowersCounters(s, earlier, lab);
      ReapEndsRows(s, earlier);
      ReapSnoc(s, earlier, row);
      ReapedGrows(s, earlier, row, lab);
      var mid := Reap(s, earlier);
      if row in s.rows && !mid.rows[row].ended {
        EndLowersCounters(mid, row, lab);
      }
    }
  }

  /** What a pass does, whatever was selected: every row it ends is ended once and lowers its own lab's
      counter and the global one, down to zero at worst; nothing else changes. */
  lemma ReapEndsEachRowOnce(s: State, selected: seq<nat>, lab: Lab)
    ensures var t := Reap(s, selected);
            && t.reqs == s.reqs && t.store.queues == s.store.queues
            && t.rows.Keys == s.rows.Keys
            && (forall k | k in s.rows ::
                  t.rows[k] == if k in Reaped(s, selected) then s.rows[k].(status := Ended, ended := true) else s.rows[k])
            && t.store.Active(lab) == Less(s.store.Active(lab), |ReapedIn(s, selected, lab)|)
            && t.store.total == Less(s.store.total, |Reaped(s, selected)|)
  {
    ReapEndsRows(s, selected);
    ReapLowersCounters(s, selected, lab);
  }

  /** The rows the query is after: live ones, some of which others have ended since. */
  ghost predicate LiveOrEnded(s: State, selected: seq<nat>) {
    forall k | k in selected && k in s.rows :: s.rows[k].ended || Live(s.rows[k])
  }

  /** No lab's counter is clamped: it falls by exactly the number of the lab's rows that the pass ends. */
  lemma ReapReleasesEachSlotOnce(s: State, lim: Limits, selected: seq<nat>, lab: Lab)
    requires Invariant(s, lim) && LiveOrEnded(s, selected)
    ensures Reap(s, selected).store.Active(lab) + |ReapedIn(s, selected, lab)| == s.store.Active(lab)
  {
    ReapLowersCounters(s, selected, lab);
    var gone, holding := ReapedIn(s, selected, lab), Matching(s.rows, HoldingRow(lab));
    assert gone <= holding;
    assert holding == gone + (holding - gone);
    assert s.store.Active(lab) == SlotsInUse(s, lab);
  }

  lemma {:induction false} ReapLooksSound(s: State, lim: Limits, selected: seq<nat>)
    requires Invariant(s, lim) && LiveOrEnded(s, selected)
    ensures Sound(Reap(s, selected), lim)
  {
    if selected != [] {
      var earlier, row := selected[..|selected| - 1], selected[|selected| - 1];
      assert selected == earlier + [row];
      ReapSnoc(s, earlier, row);
      ReapLooksSound(s, lim, earlier);
      var mid := Reap(s, earlier);
      assert Reap(s, selected) == EndIfPresent(mid, row);
      ReapEndsRows(s, earlier);
      if row in s.rows && !mid.rows[row].ended {
        EndingLiveRowLooksSound(mid, lim, row);
      }
    }
  }

  lemma {:induction false} ReapKeepsInvariant(s: State, lim: Limits, selected: seq<nat>)
    requires Invariant(s, lim) && LiveOrEnded(s, selected)
    requires forall k | k in selected :: !Launching(s.reqs, k)
    ensures Invariant(Reap(s, selected), lim)
  {
    if selected != [] {
      var earlier, row := selected[..|selected| - 1], selected[|selected| - 1];
      assert selected == earlier + [row];
      ReapSnoc(s, earlier, row);
      ReapKeepsInvariant(s, lim, earlier);
      var mid := Reap(s, earlier);
      assert Reap(s, selected) == EndIfPresent(mid, row);
      ReapEndsRows(s, earlier);
      if row in s.rows {
        EndingSettledRowIsSafe(mid, lim, row);
      }
    }
  }

  /** A pass over live rows is safe for good exactly when no launch is still working on any of them. */
  lemma ReapIsSafeIff(s: State, lim: Limits, selected: seq<nat>)
    requires Invariant(s, lim) && LiveOrEnded(s, selected)
    ensures StaysSound(Reap(s, selected), lim) <==> forall k | k in selected :: !Launching(s.reqs, k)
  {
    if k :| k in selected && Launching(s.reqs, k) {
      var id :| id in s.reqs && Owns(s.reqs[id], k);
      OwnedRowIsLive(s, lim, k, id);
      ReapLooksSound(s, lim, selected);
      ReapEndsRows(s, selected);
      EndedUnderIsUnsafe(Reap(s, selected), lim, k, id);
    } else {
      ReapKeepsInvariant(s, lim, selected);
      InvariantStaysSound(Reap(s, selected), lim);
    }
  }
}
