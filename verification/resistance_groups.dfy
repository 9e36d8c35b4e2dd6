/** The resistance side of the counter-espionage simulation
    (`resistance_group_manager` and the exits of `resistance_member_thread`,
    Project_Three/simulation.c:86-221 and 237-445): creating groups into the
    bounded registry, registering infiltrated spies, topping groups up, and
    what a departing member does to the shared record. */
module ResistanceGroups {
  import opened CLib
  import opened IdArrays
  import opened SharedData
  import AgencyConfig

  /** Registering a new group (simulation.c:103-116): a record with no spy
      time and `groupSize` members is appended while the registry has room;
      a full registry is left as it is. */
  function CreateGroup(s: Shared, groupId: int, hasSpy: int, isMilitary: int, groupSize: int): (r: Shared)
    requires SharedData.Wf(s)
    ensures SharedData.Wf(r)
    ensures |s.groups| < MAX_GROUPS ==>
              r.groups == s.groups + [Group(groupId, hasSpy, isMilitary, 0, groupSize)]
    ensures |s.groups| == MAX_GROUPS ==> r == s
    ensures r == s.(groups := r.groups)
  {
    if |s.groups| < MAX_GROUPS then
      s.(groups := s.groups + [Group(groupId, hasSpy, isMilitary, 0, groupSize)])
    else
      s
  }

  /** A run of creations, first to last. */
  function CreateAll(s: Shared, created: seq<Group>): (r: Shared)
    requires SharedData.Wf(s)
    ensures SharedData.Wf(r)
    decreases |created|
  {
    if created == [] then s
    else
      var g := created[0];
      CreateAll(CreateGroup(s, g.groupId, g.hasSpy, g.isMilitary, g.memberCount), created[1..])
  }

  /** The registry keeps every group it had, gains the created groups in
      order, and saturates at MAX_GROUPS. */
  lemma {:induction false} CreateAllSaturates(s: Shared, created: seq<Group>)
    requires SharedData.Wf(s)
    requires forall g :: g in created ==> g.spyTime == 0
    ensures var r := CreateAll(s, created);
            && |r.groups| == (if |s.groups| + |created| <= MAX_GROUPS then |s.groups| + |created| else MAX_GROUPS)
            && r.groups == s.groups + created[..|r.groups| - |s.groups|]
    decreases |created|
  {
    if created != [] {
      var g := created[0];
      var s1 := CreateGroup(s, g.groupId, g.hasSpy, g.isMilitary, g.memberCount);
      CreateAllSaturates(s1, created[1..]);
      if |s.groups| < MAX_GROUPS {
        assert s1.groups == s.groups + [g];
        var n := |CreateAll(s1, created[1..]).groups| - |s1.groups|;
        assert created[..n + 1] == [g] + created[1..][..n];
      } else {
        assert s1 == s;
        assert created[..0] == [];
      }
    }
  }

  /** Adding an infiltrated spy's id to the spy-id list (simulation.c:143-147),
      only while the list has room. */
  function RegisterSpy(s: Shared, memberId: int): (r: Shared)
    requires SharedData.Wf(s)
    ensures SharedData.Wf(r)
    ensures s.spyIds.count < MAX_SPYS ==> Live(r.spyIds) == Live(s.spyIds) + [memberId]
    ensures s.spyIds.count == MAX_SPYS ==> r == s
    ensures r == s.(spyIds := r.spyIds)
  {
    if s.spyIds.count < MAX_SPYS then s.(spyIds := Append(s.spyIds, memberId)) else s
  }

  /** The random decisions of one manager iteration (simulation.c:90-96),
      from the three `rand()` draws: the size `min + draw % (max - min + 1)`,
      military when `draw % 100` is below the military percentage, and
      infiltrated when `draw % 100` is below the spy probability (an `int`
      compared with a `double`). A size range with `max = min - 1` is C's division
      trap; any other empty range draws without trapping. */
  datatype Draws = Draws(size: nat, military: nat, spy: nat)

  /** The group is military: `rand() % 100` below the military percentage. */
  predicate Military(cfg: AgencyConfig.Config, d: Draws)
  {
    CRem(d.military, 100) < cfg.militaryGroupPercentage
  }

  /** The group is infiltrated: `rand() % 100`, an `int`, below the `double`
      spy probability. */
  predicate Infiltrated(cfg: AgencyConfig.Config, d: Draws)
  {
    (CRem(d.spy, 100) as real) < cfg.spyInfiltrationProbability
  }

  /** The part of one manager iteration after the size is drawn: append
      the group (while the registry has room), register its first member as
      the spy when it is infiltrated and has a member (while the spy list
      has room), and count the group. */
  function Enter(s: Shared, groupId: int, infiltrated: bool, military: bool, groupSize: int): (r: Shared)
    requires SharedData.Wf(s)
    ensures SharedData.Wf(r)
    ensures r == s.(groups := r.groups, spyIds := r.spyIds, totalResistanceGroups := r.totalResistanceGroups)
    ensures r.totalResistanceGroups == s.totalResistanceGroups + 1
    ensures |s.groups| < MAX_GROUPS ==>
              r.groups == s.groups + [Group(groupId, if infiltrated then 1 else 0, if military then 1 else 0, 0, groupSize)]
    ensures |s.groups| == MAX_GROUPS ==> r.groups == s.groups
    ensures infiltrated && groupSize > 0 && s.spyIds.count < MAX_SPYS ==>
              Live(r.spyIds) == Live(s.spyIds) + [MemberId(groupId, 0)]
    ensures !(infiltrated && groupSize > 0 && s.spyIds.count < MAX_SPYS) ==> r.spyIds == s.spyIds
  {
    var created := CreateGroup(s, groupId, if infiltrated then 1 else 0, if military then 1 else 0, groupSize);
    var registered := if infiltrated && groupSize > 0 then RegisterSpy(created, MemberId(groupId, 0)) else created;
    registered.(totalResistanceGroups := registered.totalResistanceGroups + 1)
  }

  /** One iteration of the group manager's creation loop (simulation.c:88-180):
      create group `groupId`, register its first member as the spy when the
      group is infiltrated, and count the group. Nothing else in the shared
      record changes. */
  function ManagerIteration(s: Shared, cfg: AgencyConfig.Config, groupId: int, d: Draws): (r: Option<Shared>)
    requires SharedData.Wf(s)
    ensures r.None? <==> cfg.groupSizeMax - cfg.groupSizeMin + 1 == 0
    ensures r.Some? ==> SharedData.Wf(r.value)
    ensures r.Some? ==> r.value.totalResistanceGroups == s.totalResistanceGroups + 1
    ensures r.Some? ==> |r.value.groups| == (if |s.groups| < MAX_GROUPS then |s.groups| + 1 else MAX_GROUPS)
    ensures r.Some? ==> Live(s.spyIds) <= Live(r.value.spyIds) && |Live(r.value.spyIds)| <= |Live(s.spyIds)| + 1
    ensures r.Some? && |Live(r.value.spyIds)| > |Live(s.spyIds)| ==>
              Live(r.value.spyIds)[|Live(s.spyIds)|] == MemberId(groupId, 0)
    ensures r.Some? && cfg.groupSizeMin <= cfg.groupSizeMax && cfg.groupSizeMin >= 1
            && s.spyIds.count < MAX_SPYS && Infiltrated(cfg, d) ==>
              Live(r.value.spyIds) == Live(s.spyIds) + [MemberId(groupId, 0)]
    ensures r.Some? && !Infiltrated(cfg, d) ==> r.value.spyIds == s.spyIds
    ensures r.Some? && |s.groups| == MAX_GROUPS ==> r.value.groups == s.groups
    ensures r.Some? && |s.groups| < MAX_GROUPS ==>
              && r.value.groups[..|s.groups|] == s.groups
              && var g := r.value.groups[|s.groups|];
                 && g.groupId == groupId && g.spyTime == 0
                 && (g.hasSpy == 1 <==> Infiltrated(cfg, d)) && (g.hasSpy == 0 <==> !Infiltrated(cfg, d))
                 && (g.isMilitary == 1 <==> Military(cfg, d)) && (g.isMilitary == 0 <==> !Military(cfg, d))
                 && (cfg.groupSizeMin <= cfg.groupSizeMax ==> cfg.groupSizeMin <= g.memberCount <= cfg.groupSizeMax)
    ensures r.Some? ==>
              r.value == s.(groups := r.value.groups, spyIds := r.value.spyIds,
                            totalResistanceGroups := r.value.totalResistanceGroups)
  {
    match RangeDraw(cfg.groupSizeMin, cfg.groupSizeMax, d.size)
    case None => None
    case Some(groupSize) => Some(Enter(s, groupId, Infiltrated(cfg, d), Military(cfg, d), groupSize))
  }

  /** The agency's guess that a group's spy is its first member is right: a
      spy the manager registers for a non-negative group id is the member
      id `group_id * 1000 + 1`, and `/ 1000` leads back to its group. */
  lemma RegisteredSpyFoundByAgency(s: Shared, cfg: AgencyConfig.Config, groupId: int, d: Draws)
    requires SharedData.Wf(s) && groupId >= 0
    requires ManagerIteration(s, cfg, groupId, d).Some?
    requires |Live(ManagerIteration(s, cfg, groupId, d).value.spyIds)| > |Live(s.spyIds)|
    ensures var spy := Live(ManagerIteration(s, cfg, groupId, d).value.spyIds)[|Live(s.spyIds)|];
            CDiv(spy, 1000) == groupId && CRem(spy, 1000) == 1
  {
    MemberIdRoundTrip(groupId, 0);
  }

  /** The number of successful spawns among the first `n` attempts. */
  function Spawns(spawned: int -> bool, n: int): (c: nat)
    ensures n <= 0 ==> c == 0
    ensures n > 0 ==> c <= n
    ensures n > 0 && (forall j :: 0 <= j < n ==> spawned(j)) ==> c == n
    decreases n
  {
    if n <= 0 then 0 else Spawns(spawned, n - 1) + (if spawned(n - 1) then 1 else 0)
  }

  /** Topping one group up (simulation.c:190-218): a group below `sizeMax`
      tries `sizeMax - count` spawns, and each spawn that succeeds
      (`spawned(j)` for attempt `j`) adds one member. A group at or above
      the maximum is left alone, and no other field changes. */
  function TopUp(g: Group, sizeMax: int, spawned: int -> bool): (r: Group)
    ensures r == g.(memberCount := r.memberCount)
    ensures g.memberCount >= sizeMax ==> r == g
    ensures g.memberCount < sizeMax ==> g.memberCount <= r.memberCount <= sizeMax
    ensures g.memberCount < sizeMax && (forall j :: 0 <= j < sizeMax - g.memberCount ==> spawned(j)) ==>
              r.memberCount == sizeMax
  {
    if g.memberCount < sizeMax then
      g.(memberCount := g.memberCount + Spawns(spawned, sizeMax - g.memberCount))
    else
      g
  }

  /** The replenishment pass over the whole registry (simulation.c:187-220);
      `spawned(i, j)` says whether attempt `j` for the group at index `i`
      succeeds. The manager thread never reaches this pass: it follows a
      creation loop that only ends once `simulation_running` is 0, and the
      pass runs only while that flag is 1. */
  function Replenish(s: Shared, cfg: AgencyConfig.Config, spawned: (int, int) -> bool): (r: Shared)
    ensures r == s.(groups := r.groups)
    ensures |r.groups| == |s.groups|
    ensures forall i :: 0 <= i < |s.groups| ==> r.groups[i] == TopUp(s.groups[i], cfg.groupSizeMax, j => spawned(i, j))
  {
    s.(groups := seq(|s.groups|, i requires 0 <= i < |s.groups| => TopUp(s.groups[i], cfg.groupSizeMax, j => spawned(i, j))))
  }

  /** When every spawn succeeds, replenishment brings every group below the
      maximum exactly to it and leaves the others as they were. */
  lemma ReplenishAllSpawned(s: Shared, cfg: AgencyConfig.Config, spawned: (int, int) -> bool)
    requires forall i, j :: spawned(i, j)
    ensures forall i :: 0 <= i < |s.groups| ==>
              Replenish(s, cfg, spawned).groups[i].memberCount == Max(s.groups[i].memberCount, cfg.groupSizeMax)
  {
    var r := Replenish(s, cfg, spawned);
    forall i | 0 <= i < |s.groups|
      ensures r.groups[i].memberCount == Max(s.groups[i].memberCount, cfg.groupSizeMax)
    {
      var g := s.groups[i];
      assert r.groups[i] == TopUp(g, cfg.groupSizeMax, j => spawned(i, j));
      if g.memberCount < cfg.groupSizeMax {
        var sp := j => spawned(i, j);
        assert forall j :: 0 <= j < cfg.groupSizeMax - g.memberCount ==> sp(j);
      }
    }
  }

  /** Why a member thread leaves its loop: arrested as a suspected spy, killed,
      severely injured or caught by the enemy, or stopped because the
      simulation is no longer running. */
  datatype Exit = Arrested | Killed | SeverelyInjured | Caught | Stopped

  /** The casualty step inside the exit paths (e.g. simulation.c:357-370):
      the first group with the member's id loses one member and, while there
      is room, one more position is recorded. */
  function GroupCasualty(s: Shared, groupId: int): (r: Shared)
    requires SharedData.Wf(s)
    ensures SharedData.Wf(r)
    ensures r == s.(groups := r.groups, caughtResistancePositionsCount := r.caughtResistancePositionsCount)
    ensures |r.groups| == |s.groups|
    ensures var k := GroupIndex(s.groups, groupId);
            && (k < 0 ==> r == s)
            && (k >= 0 ==> r.groups == s.groups[k := s.groups[k].(memberCount := s.groups[k].memberCount - 1)])
  {
    var k := GroupIndex(s.groups, groupId);
    if k < 0 then s
    else
      var positions := if s.caughtResistancePositionsCount < MAX_CAUGHT_RESISTANCE
                       then s.caughtResistancePositionsCount + 1 else s.caughtResistancePositionsCount;
      s.(groups := s.groups[k := s.groups[k].(memberCount := s.groups[k].memberCount - 1)],
         caughtResistancePositionsCount := positions)
  }

  /** The decrement after the member loop (simulation.c:437-445), on every
      way out of the loop. */
  function FinalDecrement(s: Shared, groupId: int): (r: Shared)
    ensures r == s.(groups := r.groups)
    ensures |r.groups| == |s.groups|
    ensures var k := GroupIndex(s.groups, groupId);
            && (k < 0 ==> r == s)
            && (k >= 0 ==> r.groups == s.groups[k := s.groups[k].(memberCount := s.groups[k].memberCount - 1)])
  {
    var k := GroupIndex(s.groups, groupId);
    if k < 0 then s else s.(groups := s.groups[k := s.groups[k].(memberCount := s.groups[k].memberCount - 1)])
  }

  /** The counter and list effects of an exit, before the group count is touched:
      an arrested spy counts as caught and leaves both the spy-id and the
      suspect lists (simulation.c:241-263); the other casualties bump their
      own counter. */
  function ExitCounters(s: Shared, memberId: int, why: Exit): (r: Shared)
    requires SharedData.Wf(s)
    ensures SharedData.Wf(r) && r.groups == s.groups
    ensures why.Arrested? ==>
              r == s.(caughtResistance := s.caughtResistance + 1,
                      spyIds := RemoveFirst(s.spyIds, memberId), suspects := RemoveFirst(s.suspects, memberId))
    ensures why.Arrested? && NoDuplicates(Live(s.suspects)) ==> IsMemberSuspected(r, memberId) == 0
    ensures why.Killed? ==> r == s.(killedResistance := s.killedResistance + 1)
    ensures why.SeverelyInjured? ==> r == s.(injuredResistance := s.injuredResistance + 1)
    ensures why.Caught? ==> r == s.(caughtResistance := s.caughtResistance + 1)
    ensures why.Stopped? ==> r == s
  {
    match why
    case Arrested =>
      ArrestRemoves(s, memberId);
      s.(caughtResistance := s.caughtResistance + 1,
         spyIds := RemoveFirst(s.spyIds, memberId), suspects := RemoveFirst(s.suspects, memberId))
    case Killed => s.(killedResistance := s.killedResistance + 1)
    case SeverelyInjured => s.(injuredResistance := s.injuredResistance + 1)
    case Caught => s.(caughtResistance := s.caughtResistance + 1)
    case Stopped => s
  }

  /** An arrest keeps the record well formed and, when no one is listed
      twice, leaves the arrested member no longer suspected. */
  lemma ArrestRemoves(s: Shared, memberId: int)
    requires SharedData.Wf(s)
    ensures var r := s.(caughtResistance := s.caughtResistance + 1,
                        spyIds := RemoveFirst(s.spyIds, memberId), suspects := RemoveFirst(s.suspects, memberId));
            SharedData.Wf(r) && (NoDuplicates(Live(s.suspects)) ==> IsMemberSuspected(r, memberId) == 0)
  {
    var r := s.(caughtResistance := s.caughtResistance + 1,
                spyIds := RemoveFirst(s.spyIds, memberId), suspects := RemoveFirst(s.suspects, memberId));
    if NoDuplicates(Live(s.suspects)) {
      assert memberId !in Live(r.suspects);
      forall i | 0 <= i < r.suspects.count ensures r.suspects.cells[i] != memberId {
        assert Live(r.suspects)[i] == r.suspects.cells[i];
      }
    }
  }

  /** A member's exit as the source writes it: every casualty path lowers its
      group's count inside the path, then leaves the loop and reaches the
      common decrement as well. */
  function MemberExitAsWritten(s: Shared, memberId: int, groupId: int, why: Exit): (r: Shared)
    requires SharedData.Wf(s)
    ensures SharedData.Wf(r)
    ensures |r.groups| == |s.groups|
  {
    var counted := ExitCounters(s, memberId, why);
    if why.Stopped? then FinalDecrement(counted, groupId)
    else FinalDecrement(GroupCasualty(counted, groupId), groupId)
  }

  /** As written, a casualty takes two members off its group, and only a
      stopped member takes one; no other group changes. */
  lemma ExitAsWrittenDecrements(s: Shared, memberId: int, groupId: int, why: Exit)
    requires SharedData.Wf(s)
    requires GroupIndex(s.groups, groupId) >= 0
    ensures var k := GroupIndex(s.groups, groupId);
            var r := MemberExitAsWritten(s, memberId, groupId, why);
            && r.groups[k].memberCount == s.groups[k].memberCount - (if why.Stopped? then 1 else 2)
            && forall j :: 0 <= j < |s.groups| && j != k ==> r.groups[j] == s.groups[j]
  {
    var counted := ExitCounters(s, memberId, why);
    assert counted.groups == s.groups;
    if !why.Stopped? {
      var hit := GroupCasualty(counted, groupId);
      assert GroupIndex(hit.groups, groupId) == GroupIndex(s.groups, groupId) by {
        GroupIndexAfterCountChange(s.groups, groupId, GroupIndex(s.groups, groupId));
      }
    }
  }

  /** Changing a group's member count does not move any id lookup. */
  lemma GroupIndexAfterCountChange(groups: seq<Group>, groupId: int, k: int)
    requires 0 <= k < |groups|
    ensures forall c :: GroupIndex(groups[k := groups[k].(memberCount := c)], groupId) == GroupIndex(groups, groupId)
  {
    forall c ensures GroupIndex(groups[k := groups[k].(memberCount := c)], groupId) == GroupIndex(groups, groupId) {
      var g2 := groups[k := groups[k].(memberCount := c)];
      assert forall j :: 0 <= j < |groups| ==> g2[j].groupId == groups[j].groupId;
      SameIdsSameIndex(groups, g2, groupId);
    }
  }

  lemma {:induction false} SameIdsSameIndex(a: seq<Group>, b: seq<Group>, groupId: int)
    requires |a| == |b|
    requires forall j :: 0 <= j < |a| ==> a[j].groupId == b[j].groupId
    ensures GroupIndex(a, groupId) == GroupIndex(b, groupId)
    decreases |a|
  {
    if a != [] {
      SameIdsSameIndex(a[1..], b[1..], groupId);
    }
  }

  /** A three-member group whose member is killed is left with one member. */
  lemma KilledMemberCountedTwice()
    ensures var s := InitSharedData().(groups := [Group(1, 0, 0, 0, 3)]);
            MemberExitAsWritten(s, MemberId(1, 1), 1, Killed).groups[0].memberCount == 1
  {
    var s := InitSharedData().(groups := [Group(1, 0, 0, 0, 3)]);
    ExitAsWrittenDecrements(s, MemberId(1, 1), 1, Killed);
  }

  /** A member's exit with the common decrement reserved for the normal way
      out, as the comment at simulation.c:437 describes it. */
  function MemberExit(s: Shared, memberId: int, groupId: int, why: Exit): (r: Shared)
    requires SharedData.Wf(s)
    ensures SharedData.Wf(r)
    ensures |r.groups| == |s.groups|
  {
    var counted := ExitCounters(s, memberId, why);
    if why.Stopped? then FinalDecrement(counted, groupId) else GroupCasualty(counted, groupId)
  }

  /** Corrected, every exit takes exactly one member off the member's group
      and leaves every other group alone. */
  lemma ExitDecrementsOnce(s: Shared, memberId: int, groupId: int, why: Exit)
    requires SharedData.Wf(s)
    ensures var k := GroupIndex(s.groups, groupId);
            var r := MemberExit(s, memberId, groupId, why);
            && (k < 0 ==> r.groups == s.groups)
            && (k >= 0 ==> r.groups[k].memberCount == s.groups[k].memberCount - 1)
            && forall j :: 0 <= j < |s.groups| && j != k ==> r.groups[j] == s.groups[j]
  {
    assert ExitCounters(s, memberId, why).groups == s.groups;
  }
}
