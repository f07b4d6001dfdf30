/** The slot counters and the waiting queues, one Lua script or Redis command per step. */
module Queue {
  import opened Sequences

  type Lab = string
  type User = string

  /** `perLab` overrides the global cap for single labs. */
  datatype Caps = Caps(perLab: map<Lab, nat>, global: nat) {
    function LabCap(lab: Lab): nat {
      if lab in perLab then perLab[lab] else global
    }
  }

  /** The keys held in Redis; a missing counter reads as zero, a missing list as empty. */
  datatype Store = Store(active: map<Lab, nat>, total: nat, queues: map<Lab, seq<User>>) {
    function Active(lab: Lab): nat {
      if lab in active then active[lab] else 0
    }

    function Waiting(lab: Lab): seq<User> {
      if lab in queues then queues[lab] else []
    }
  }

  // ----- the scripts, on values

  predicate HasFreeSlot(s: Store, caps: Caps, lab: Lab) {
    s.Active(lab) < caps.LabCap(lab) && s.total < caps.global
  }

  function Acquire(s: Store, caps: Caps, lab: Lab): Store {
    if HasFreeSlot(s, caps, lab) then s.(active := s.active[lab := s.Active(lab) + 1], total := s.total + 1) else s
  }

  function Decremented(n: nat): nat {
    if n > 0 then n - 1 else 0
  }

  function Release(s: Store, lab: Lab): Store {
    s.(active := if s.Active(lab) > 0 then s.active[lab := s.Active(lab) - 1] else s.active,
       total := Decremented(s.total))
  }

  /** One-based position, zero when absent. */
  function Place(q: seq<User>, user: User): nat {
    if q == [] then 0
    else if q[0] == user then 1
    else if Place(q[1..], user) == 0 then 0
    else 1 + Place(q[1..], user)
  }

  function Enqueue(s: Store, lab: Lab, user: User): Store {
    if user in s.Waiting(lab) then s else s.(queues := s.queues[lab := s.Waiting(lab) + [user]])
  }

  function Without(q: seq<User>, user: User): seq<User> {
    if q == [] then [] else (if q[0] == user then [] else [q[0]]) + Without(q[1..], user)
  }

  function Dequeue(s: Store, lab: Lab, user: User): Store {
    s.(queues := s.queues[lab := Without(s.Waiting(lab), user)])
  }

  // ----- what the keys say

  ghost function Reading(active: map<Lab, nat>, lab: Lab): nat {
    if lab in active then active[lab] else 0
  }

  ghost function ListOf(queues: map<Lab, seq<User>>, lab: Lab): seq<User> {
    if lab in queues then queues[lab] else []
  }

  ghost predicate RoomFor(s: Store, caps: Caps, lab: Lab) {
    && Reading(s.active, lab) < (if lab in caps.perLab then caps.perLab[lab] else caps.global)
    && s.total < caps.global
  }

  /** What acquiring and releasing do, key by key: `lab` is the key that is read, `l` any other or the same. */
  lemma SlotOpsByKey(s: Store, caps: Caps, lab: Lab, l: Lab)
    ensures HasFreeSlot(s, caps, lab) <==> RoomFor(s, caps, lab)
    ensures var t := Acquire(s, caps, lab);
            var taken := if RoomFor(s, caps, lab) then 1 else 0;
            && Reading(t.active, l) == Reading(s.active, l) + (if l == lab then taken else 0)
            && t.total == s.total + taken && t.queues == s.queues
    ensures var t := Release(s, lab);
            && Reading(t.active, l) == (if l == lab && Reading(s.active, l) > 0 then Reading(s.active, l) - 1
                                        else Reading(s.active, l))
            && t.total == (if s.total > 0 then s.total - 1 else 0) && t.queues == s.queues
  {
  }

  // ----- the service

  class SessionQueueService {
    const caps: Caps
    var active: map<Lab, nat>
    var total: nat
    var queues: map<Lab, seq<User>>

    function Contents(): Store
      reads this
    {
      Store(active, total, queues)
    }

    constructor (caps: Caps)
      ensures this.caps == caps && Contents() == Store(map[], 0, map[])
    {
      this.caps := caps;
      active, total, queues := map[], 0, map[];
    }

    method LuaTryAcquire(lab: Lab) returns (ok: bool)
      modifies this`active, this`total
      ensures ok <==> HasFreeSlot(old(Contents()), caps, lab)
      ensures ok <==> RoomFor(old(Contents()), caps, lab)
      ensures Contents() == Acquire(old(Contents()), caps, lab)
    {
      var currLab := Contents().Active(lab);
      if currLab >= caps.LabCap(lab) || total >= caps.global {
        return false;
      }
      active := active[lab := currLab + 1];
      total := total + 1;
      return true;
    }

    method TryAcquire(user: User, lab: Lab) returns (acquired: bool)
      modifies this
      ensures acquired <==> HasFreeSlot(old(Contents()), caps, lab)
      ensures Contents() == if acquired then Dequeue(Acquire(old(Contents()), caps, lab), lab, user)
                            else old(Contents())
    {
      acquired := LuaTryAcquire(lab);
      if acquired {
        var _ := DequeueUser(user, lab);
      }
    }

    method ReleaseSlot(lab: Lab)
      modifies this`active, this`total
      ensures Contents() == Release(old(Contents()), lab)
    {
      if Contents().Active(lab) > 0 {
        active := active[lab := active[lab] - 1];
      }
      if total > 0 {
        total := total - 1;
      }
    }

    method EnqueueUser(user: User, lab: Lab) returns (place: nat)
      modifies this`queues
      ensures Contents() == Enqueue(old(Contents()), lab, user)
      ensures ListOf(queues, lab) == ListOf(old(queues), lab) + if user in ListOf(old(queues), lab) then [] else [user]
      ensures forall l | l != lab :: ListOf(queues, l) == ListOf(old(queues), l)
      ensures 0 < place <= |ListOf(queues, lab)|
      ensures ListOf(queues, lab)[place - 1] == user && user !in ListOf(queues, lab)[..place - 1]
      ensures place == Place(Contents().Waiting(lab), user)
    {
      var items := Contents().Waiting(lab);
      var i := 0;
      while i < |items|
        invariant i <= |items|
        invariant user !in items[..i]
      {
        if items[i] == user {
          PlaceAt(items, user, i);
          return i + 1;
        }
        i := i + 1;
      }
      assert items[..i] == items;
      queues := queues[lab := items + [user]];
      PlaceAt(items + [user], user, |items|);
      return |items| + 1;
    }

    method DequeueUser(user: User, lab: Lab) returns (removed: nat)
      modifies this`queues
      ensures Contents() == Dequeue(old(Contents()), lab, user)
      ensures multiset(ListOf(queues, lab)) == multiset(ListOf(old(queues), lab))[user := 0]
      ensures forall l | l != lab :: ListOf(queues, l) == ListOf(old(queues), l)
      ensures removed == |old(Contents()).Waiting(lab)| - |Contents().Waiting(lab)|
    {
      var items := Contents().Waiting(lab);
      WithoutShrinks(items, user);
      WithoutIsFilter(items, user);
      removed := |items| - |Without(items, user)|;
      queues := queues[lab := Without(items, user)];
    }

    method Position(user: User, lab: Lab) returns (place: Option<nat>)
      ensures place == if user in Contents().Waiting(lab) then Some(Place(Contents().Waiting(lab), user)) else None
    {
      var items := Contents().Waiting(lab);
      for i := 0 to |items|
        invariant user !in items[..i]
      {
        if items[i] == user {
          PlaceAt(items, user, i);
          return Some(i + 1);
        }
      }
      assert items[..|items|] == items;
      return None;
    }
  }

  lemma {:induction false} PlaceAt(q: seq<User>, user: User, i: nat)
    requires i < |q| && q[i] == user && user !in q[..i]
    ensures Place(q, user) == i + 1
  {
    if i > 0 {
      assert q[0] in q[..i];
      assert q[1..][..i - 1] == q[..i][1..];
      PlaceAt(q[1..], user, i - 1);
    }
  }

  lemma {:induction false} WithoutShrinks(q: seq<User>, user: User)
    ensures |Without(q, user)| <= |q|
    ensures forall u :: u in Without(q, user) <==> u in q && u != user
  {
    if q != [] {
      WithoutShrinks(q[1..], user);
    }
  }

  /** Exactly the entries of the user go. */
  lemma {:induction false} WithoutIsFilter(q: seq<User>, user: User)
    ensures multiset(Without(q, user)) == multiset(q)[user := 0]
  {
    if q != [] {
      WithoutIsFilter(q[1..], user);
      assert q == [q[0]] + q[1..];
    }
  }

  /** The others keep their order: removal works entry by entry. */
  lemma {:induction false} WithoutSnoc(q: seq<User>, last: User, user: User)
    ensures Without(q + [last], user) == Without(q, user) + if last == user then [] else [last]
  {
    if q == [] {
      assert q + [last] == [last];
    } else {
      WithoutSnoc(q[1..], last, user);
      assert (q + [last])[1..] == q[1..] + [last];
    }
  }

  lemma {:induction false} PlaceIffWaiting(q: seq<User>, user: User)
    ensures Place(q, user) > 0 <==> user in q
    ensures Place(q, user) <= |q|
  {
    if q != [] {
      PlaceIffWaiting(q[1..], user);
    }
  }

  // ----- counters

  /** The sum of all lab counters. */
  ghost function SumActive(active: map<Lab, nat>): nat {
    if active == map[] then 0
    else
      var lab :| lab in active;
      active[lab] + SumActive(active - {lab})
  }

  lemma {:induction false} SumActiveSplit(active: map<Lab, nat>, lab: Lab)
    requires lab in active
    ensures SumActive(active) == active[lab] + SumActive(active - {lab})
    decreases |active|
  {
    var first :| first in active && SumActive(active) == active[first] + SumActive(active - {first});
    if first != lab {
      SumActiveSplit(active - {first}, lab);
      SumActiveSplit(active - {lab}, first);
      assert active - {first} - {lab} == active - {lab} - {first};
    }
  }

  lemma SumActiveUpdate(active: map<Lab, nat>, lab: Lab, n: nat)
    ensures SumActive(active[lab := n]) == SumActive(active) - (if lab in active then active[lab] else 0) + n
  {
    SumActiveSplit(active[lab := n], lab);
    if lab in active {
      SumActiveSplit(active, lab);
      assert active[lab := n] - {lab} == active - {lab};
    } else {
      assert active[lab := n] - {lab} == active;
    }
  }

  ghost predicate WithinCaps(s: Store, caps: Caps) {
    s.total <= caps.global && forall lab :: s.Active(lab) <= caps.LabCap(lab)
  }

  ghost predicate Balanced(s: Store) {
    s.total == SumActive(s.active)
  }

  lemma AcquireKeepsCounters(s: Store, caps: Caps, lab: Lab)
    requires WithinCaps(s, caps) && Balanced(s)
    ensures WithinCaps(Acquire(s, caps, lab), caps) && Balanced(Acquire(s, caps, lab))
  {
    SumActiveUpdate(s.active, lab, s.Active(lab) + 1);
  }

  /** A release that gives back a slot of the lab keeps the sum; the clamp is not reached. */
  lemma ReleaseKeepsCounters(s: Store, caps: Caps, lab: Lab)
    requires WithinCaps(s, caps) && Balanced(s) && s.Active(lab) > 0
    ensures s.total > 0
    ensures WithinCaps(Release(s, lab), caps) && Balanced(Release(s, lab))
  {
    SumActiveSplit(s.active, lab);
    SumActiveUpdate(s.active, lab, s.Active(lab) - 1);
  }

  // ----- queues

  ghost predicate NoDuplicates(q: seq<User>) {
    forall i, j | 0 <= i < j < |q| :: q[i] != q[j]
  }

  ghost predicate Tidy(s: Store) {
    forall lab :: NoDuplicates(s.Waiting(lab))
  }

  /** Between `now` and `later` nobody who stayed fell back, lost their lead over another, or was passed
      by a newcomer. */
  ghost predicate NobodyOvertaken(now: seq<User>, later: seq<User>) {
    && (forall u | u in now && u in later :: Place(later, u) <= Place(now, u))
    && (forall u, v | u in now && v in now && u in later && v in later ::
          Place(now, u) < Place(now, v) ==> Place(later, u) < Place(later, v))
    && (forall u, w | u in now && u in later && w in later :: w !in now ==> Place(later, u) < Place(later, w))
  }

  lemma {:induction false} WithoutKeepsOrder(q: seq<User>, gone: User, u: User)
    requires u in q && u != gone
    ensures 0 < Place(Without(q, gone), u) <= Place(q, u)
  {
    PlaceIffWaiting(q[1..], u);
    if q[0] == u {
    } else {
      WithoutKeepsOrder(q[1..], gone, u);
      var rest := Without(q[1..], gone);
      if q[0] != gone {
        assert ([q[0]] + rest)[1..] == rest;
      } else {
        assert [] + rest == rest;
      }
    }
  }

  lemma {:induction false} AppendKeepsPlaces(q: seq<User>, last: User, u: User)
    requires u in q
    ensures Place(q + [last], u) == Place(q, u)
  {
    if q[0] != u {
      AppendKeepsPlaces(q[1..], last, u);
      PlaceIffWaiting(q[1..], u);
      assert (q + [last])[1..] == q[1..] + [last];
    }
  }

  lemma {:induction false} WithoutKeepsDistinct(q: seq<User>, gone: User)
    requires NoDuplicates(q)
    ensures NoDuplicates(Without(q, gone))
  {
    if q != [] {
      var rest := Without(q[1..], gone);
      WithoutKeepsDistinct(q[1..], gone);
      WithoutShrinks(q[1..], gone);
      assert forall j | 0 <= j < |rest| :: rest[j] in rest;
    }
  }

  /** What one step of the protocol may do to the store. */
  datatype Op =
    | OpAcquire(lab: Lab)
    | OpRelease(lab: Lab)
    | OpEnqueue(lab: Lab, user: User)
    | OpDequeue(lab: Lab, user: User)

  function Apply(s: Store, caps: Caps, op: Op): Store {
    match op
    case OpAcquire(lab) => Acquire(s, caps, lab)
    case OpRelease(lab) => Release(s, lab)
    case OpEnqueue(lab, user) => Enqueue(s, lab, user)
    case OpDequeue(lab, user) => Dequeue(s, lab, user)
  }

  lemma AppendIsFair(q: seq<User>, user: User)
    requires NoDuplicates(q) && user !in q
    ensures NoDuplicates(q + [user]) && NobodyOvertaken(q, q + [user])
  {
    PlaceAt(q + [user], user, |q|);
    forall u | u in q
      ensures Place(q + [user], u) == Place(q, u) <= |q|
    {
      AppendKeepsPlaces(q, user, u);
      PlaceIffWaiting(q, u);
    }
  }

  lemma {:induction false} WithoutKeepsLeads(q: seq<User>, gone: User, u: User, v: User)
    requires u in q && v in q && u != gone && v != gone && Place(q, u) < Place(q, v)
    ensures Place(Without(q, gone), u) < Place(Without(q, gone), v)
  {
    PlaceIffWaiting(q[1..], u);
    PlaceIffWaiting(q[1..], v);
    var rest := Without(q[1..], gone);
    WithoutShrinks(q[1..], gone);
    PlaceIffWaiting(rest, v);
    if q[0] == u {
      assert ([q[0]] + rest)[1..] == rest;
    } else {
      WithoutKeepsLeads(q[1..], gone, u, v);
      PlaceIffWaiting(rest, u);
      if q[0] != gone {
        assert ([q[0]] + rest)[1..] == rest;
      } else {
        assert [] + rest == rest;
      }
    }
  }

  lemma RemovalIsFair(q: seq<User>, user: User)
    requires NoDuplicates(q)
    ensures NoDuplicates(Without(q, user)) && NobodyOvertaken(q, Without(q, user))
  {
    WithoutKeepsDistinct(q, user);
    WithoutShrinks(q, user);
    forall u | u in q && u != user
      ensures Place(Without(q, user), u) <= Place(q, u)
    {
      WithoutKeepsOrder(q, user, u);
    }
    forall u, v | u in q && v in q && u != user && v != user && Place(q, u) < Place(q, v)
      ensures Place(Without(q, user), u) < Place(Without(q, user), v)
    {
      WithoutKeepsLeads(q, user, u, v);
    }
  }

  /** A list gains only the user who joins it and loses only the user who is dropped from it. */
  lemma WhoWaitsAfter(s: Store, caps: Caps, op: Op, lab: Lab, user: User)
    ensures user in ListOf(Apply(s, caps, op).queues, lab) <==>
              op == OpEnqueue(lab, user) || (user in ListOf(s.queues, lab) && op != OpDequeue(lab, user))
  {
    if op.OpDequeue? {
      WithoutShrinks(s.Waiting(op.lab), op.user);
    }
  }

  lemma OpIsFair(s: Store, caps: Caps, op: Op, lab: Lab)
    requires NoDuplicates(s.Waiting(lab))
    ensures NoDuplicates(Apply(s, caps, op).Waiting(lab))
    ensures NobodyOvertaken(s.Waiting(lab), Apply(s, caps, op).Waiting(lab))
  {
    if op.OpEnqueue? && op.lab == lab && op.user !in s.Waiting(lab) {
      AppendIsFair(s.Waiting(lab), op.user);
    } else if op.OpDequeue? && op.lab == lab {
      RemovalIsFair(s.Waiting(lab), op.user);
    } else {
      assert Apply(s, caps, op).Waiting(lab) == s.Waiting(lab);
    }
  }

  lemma OpsKeepQueuesFair(s: Store, caps: Caps, op: Op)
    requires Tidy(s)
    ensures Tidy(Apply(s, caps, op))
    ensures forall lab :: NobodyOvertaken(s.Waiting(lab), Apply(s, caps, op).Waiting(lab))
  {
    forall lab
      ensures NoDuplicates(Apply(s, caps, op).Waiting(lab))
      ensures NobodyOvertaken(s.Waiting(lab), Apply(s, caps, op).Waiting(lab))
    {
      OpIsFair(s, caps, op, lab);
    }
  }

  function Run(s: Store, caps: Caps, ops: seq<Op>): Store {
    if ops == [] then s else Apply(Run(s, caps, ops[..|ops| - 1]), caps, ops[|ops| - 1])
  }

  /** Whatever is acquired and released in whatever order, matched or not, no counter passes its cap. */
  lemma {:induction false} RunsStayWithinCaps(s: Store, caps: Caps, ops: seq<Op>)
    requires WithinCaps(s, caps)
    ensures WithinCaps(Run(s, caps, ops), caps)
  {
    if ops != [] {
      var before, op := Run(s, caps, ops[..|ops| - 1]), ops[|ops| - 1];
      RunsStayWithinCaps(s, caps, ops[..|ops| - 1]);
      forall lab
        ensures Apply(before, caps, op).Active(lab) <= caps.LabCap(lab)
      {
        assert before.Active(lab) <= caps.LabCap(lab);
      }
    }
  }

  /** Over any run a user's place never grows while they keep waiting. */
  lemma {:induction false} WaitersNeverMoveBack(s: Store, caps: Caps, ops: seq<Op>, lab: Lab, user: User)
    requires Tidy(s)
    requires forall n | 0 <= n <= |ops| :: user in Run(s, caps, ops[..n]).Waiting(lab)
    ensures Tidy(Run(s, caps, ops))
    ensures 0 < Place(Run(s, caps, ops).Waiting(lab), user) <= Place(s.Waiting(lab), user)
  {
    assert user in Run(s, caps, ops[..0]).Waiting(lab) && ops[..|ops|] == ops;
    PlaceIffWaiting(Run(s, caps, ops).Waiting(lab), user);
    if ops != [] {
      var n := |ops| - 1;
      forall m | 0 <= m <= n
        ensures user in Run(s, caps, ops[..n][..m]).Waiting(lab)
      {
        assert ops[..n][..m] == ops[..m];
      }
      WaitersNeverMoveBack(s, caps, ops[..n], lab, user);
      OpsKeepQueuesFair(Run(s, caps, ops[..n]), caps, ops[n]);
      assert NobodyOvertaken(Run(s, caps, ops[..n]).Waiting(lab), Run(s, caps, ops).Waiting(lab));
    }
  }

  /** Whoever waits and is never dropped still waits, no further back. */
  lemma {:induction false} NeverDroppedNeverLost(s: Store, caps: Caps, ops: seq<Op>, lab: Lab, user: User)
    requires user in ListOf(s.queues, lab) && OpDequeue(lab, user) !in ops
    ensures user in ListOf(Run(s, caps, ops).queues, lab)
    ensures Tidy(s) ==> 0 < Place(ListOf(Run(s, caps, ops).queues, lab), user) <= Place(ListOf(s.queues, lab), user)
  {
    forall n | 0 <= n <= |ops|
      ensures user in Run(s, caps, ops[..n]).Waiting(lab)
    {
      StillWaits(s, caps, ops[..n], lab, user);
    }
    assert ops[..|ops|] == ops;
    if Tidy(s) {
      WaitersNeverMoveBack(s, caps, ops, lab, user);
    }
  }

  lemma {:induction false} StillWaits(s: Store, caps: Caps, ops: seq<Op>, lab: Lab, user: User)
    requires user in ListOf(s.queues, lab) && OpDequeue(lab, user) !in ops
    ensures user in ListOf(Run(s, caps, ops).queues, lab)
  {
    if ops != [] {
      StillWaits(s, caps, ops[..|ops| - 1], lab, user);
      WhoWaitsAfter(Run(s, caps, ops[..|ops| - 1]), caps, ops[|ops| - 1], lab, user);
    }
  }

  /** Over any run two users who keep waiting keep their order. */
  lemma {:induction false} WaitersKeepTheirOrder(s: Store, caps: Caps, ops: seq<Op>, lab: Lab, u: User, v: User)
    requires Tidy(s) && Place(s.Waiting(lab), u) < Place(s.Waiting(lab), v)
    requires forall n | 0 <= n <= |ops| :: u in Run(s, caps, ops[..n]).Waiting(lab) && v in Run(s, caps, ops[..n]).Waiting(lab)
    ensures Place(Run(s, caps, ops).Waiting(lab), u) < Place(Run(s, caps, ops).Waiting(lab), v)
  {
    assert ops[..|ops|] == ops;
    if ops != [] {
      var n := |ops| - 1;
      forall m | 0 <= m <= n
        ensures u in Run(s, caps, ops[..n][..m]).Waiting(lab) && v in Run(s, caps, ops[..n][..m]).Waiting(lab)
      {
        assert ops[..n][..m] == ops[..m];
      }
      WaitersKeepTheirOrder(s, caps, ops[..n], lab, u, v);
      WaitersNeverMoveBack(s, caps, ops[..n], lab, u);
      OpsKeepQueuesFair(Run(s, caps, ops[..n]), caps, ops[n]);
      assert NobodyOvertaken(Run(s, caps, ops[..n]).Waiting(lab), Run(s, caps, ops).Waiting(lab));
    }
  }
}
