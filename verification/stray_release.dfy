/** A run of the protocol after which the source lets a learner lose a slot that is still in use. */
module StrayRelease {
  import opened Sequences
  import opened Queue
  import opened SlotProtocol
  import opened SlotSafety
  import opened SessionEnds
  import opened Launch

  const ROOM_FOR_TWO := Limits(Caps(map[], 2), 1)

  const RUNNING := Session("ann", "lab", Active, false, false)
  const FAILED := Session("bob", "lab", Failed, false, false)

  method OneSessionRunning() returns (s: State, ghost steps: seq<Step>)
    ensures After(INITIAL, ROOM_FOR_TWO, steps) == Some(s)
    ensures s.rows == map[0 := RUNNING] && s.store.Active("lab") == 1 && s.store.total == 1
    ensures s.reqs == map[0 := Request("ann", "lab", true, Finished)]
  {
    assert Matching(INITIAL.rows, LiveOf("ann")) == {};
    var outcome;
    s, outcome, steps := LaunchEndpoint(INITIAL, ROOM_FOR_TWO, 0, 0, "ann", "lab", true, true);
    assert outcome == Created;
  }

  method AnotherLaunchFails(s: State) returns (t: State, ghost steps: seq<Step>)
    requires s.rows == map[0 := RUNNING] && s.store.Active("lab") == 1 && s.store.total == 1
    requires s.reqs == map[0 := Request("ann", "lab", true, Finished)]
    ensures After(s, ROOM_FOR_TWO, steps) == Some(t)
    ensures t.rows == map[0 := RUNNING, 1 := FAILED] && t.store.Active("lab") == 1 && AtRest(t)
  {
    assert Matching(s.rows, LiveOf("bob")) == {};
    var outcome;
    t, outcome, steps := LaunchEndpoint(s, ROOM_FOR_TWO, 1, 1, "bob", "lab", true, false);
    assert outcome == ProvisioningFailed;
  }

  lemma EndingTheFailedRow(s: State)
    requires Conserved(s) && s.rows == map[0 := RUNNING, 1 := FAILED] && s.store.Active("lab") == 1
    ensures SlotsInUse(s, "lab") == 1
    ensures EndSession(s, 1).store.Active("lab") == 0 && SlotsInUse(EndSession(s, 1), "lab") == 1
  {
    assert s.store.Active("lab") == SlotsInUse(s, "lab");
    SlotsAfterRow(s, 1, EndSession(s, 1).rows[1], "lab");
  }

  /** One learner's session is created, another's launch fails in GNS3, both are answered and everything is
      as it should be. Then the failed row is ended, and the slot of the running session is free. */
  method EndingAFailedLaunchFreesAnotherSlot() returns (s: State, ghost steps: seq<Step>)
    ensures After(INITIAL, ROOM_FOR_TWO, steps) == Some(s) && Invariant(s, ROOM_FOR_TWO) && AtRest(s)
    ensures s.rows == map[0 := RUNNING, 1 := FAILED]
    ensures s.store.Active("lab") == SlotsInUse(s, "lab") == 1
    ensures EndSession(s, 1).store.Active("lab") == 0 && SlotsInUse(EndSession(s, 1), "lab") == 1
  {
    ghost var more;
    s, steps := OneSessionRunning();
    s, more := AnotherLaunchFails(s);
    AfterBoth(INITIAL, ROOM_FOR_TWO, steps, more);
    steps := steps + more;
    EveryRunIsSafe(ROOM_FOR_TWO, steps);
    EndingTheFailedRow(s);
  }
}
