/** The counter-espionage simulation's shared record (Project_Three/shared.h):
    casualty and arrest counters, the spy-id and suspect lists, the group
    registry and the counts of recorded positions. The semaphores are not
    modelled: every locked region is one atomic step over this record.
    Coordinates are not modelled either; only the counts that bound them are. */
module SharedData {
  import opened CLib
  import opened IdArrays

  const MAX_SUSPECTS: nat := 100
  const MAX_SPYS: nat := 100
  const MAX_GROUPS: nat := 1000
  const MAX_AGENCY_MEMBERS: nat := 100
  const MAX_CAUGHT_RESISTANCE: nat := 1000
  const MAX_CAUGHT_AGENCY: nat := 100

  /** A registered resistance group; `hasSpy` and `isMilitary` are C flags. */
  datatype Group = Group(groupId: int, hasSpy: int, isMilitary: int, spyTime: int, memberCount: int)

  datatype Shared = Shared(
    killedResistance: int,
    injuredResistance: int,
    caughtResistance: int,
    killedAgency: int,
    injuredAgency: int,
    caughtAgency: int,
    totalArrests: int,
    totalImprisoned: int,
    totalReleased: int,
    currentAgencyMembers: int,
    totalResistanceGroups: int,
    dataShared: int,
    spyIds: IdArray,
    suspects: IdArray,
    /** The registered groups, `resistance_groups[0 .. resistance_groups_count)`;
        the registry only ever grows, so the cells past the count are never
        written or read and are not kept. */
    groups: seq<Group>,
    agencyPositionsCount: int,
    caughtResistancePositionsCount: int,
    caughtAgencyPositionsCount: int)

  /** Every count lies within its array's capacity. */
  predicate Wf(s: Shared)
  {
    IdArrays.Wf(s.spyIds, MAX_SPYS) && IdArrays.Wf(s.suspects, MAX_SUSPECTS)
    && |s.groups| <= MAX_GROUPS
    && 0 <= s.agencyPositionsCount
    && 0 <= s.caughtResistancePositionsCount <= MAX_CAUGHT_RESISTANCE
    && 0 <= s.caughtAgencyPositionsCount <= MAX_CAUGHT_AGENCY
  }

  /** The record after `memset(shared, 0, sizeof(SharedData))` in `init_shared_data`. */
  function InitSharedData(): (s: Shared)
    ensures Wf(s)
    ensures s.killedResistance == s.injuredResistance == s.caughtResistance == 0
    ensures s.killedAgency == s.injuredAgency == s.caughtAgency == 0
    ensures s.totalArrests == s.totalImprisoned == s.totalReleased == 0
    ensures s.currentAgencyMembers == s.totalResistanceGroups == s.dataShared == 0
    ensures Live(s.spyIds) == [] && Live(s.suspects) == [] && s.groups == []
    ensures s.agencyPositionsCount == s.caughtResistancePositionsCount == s.caughtAgencyPositionsCount == 0
  {
    Shared(0, 0, 0, 0, 0, 0, 0, 0, 0, 0, 0, 0,
           IdArrays.Zeroed(MAX_SPYS), IdArrays.Zeroed(MAX_SUSPECTS), [], 0, 0, 0)
  }

  /** `is_member_suspected`: 1 when `memberId` is one of the suspects, else 0. */
  function IsMemberSuspected(s: Shared, memberId: int): (r: int)
    requires Counted(s.suspects)
    ensures r == 0 || r == 1
    ensures r == 1 <==> exists i :: 0 <= i < s.suspects.count && s.suspects.cells[i] == memberId
  {
    if Contains(s.suspects, memberId) then
      var i := Find(s.suspects, memberId, 0);
      assert s.suspects.cells[i] == memberId;
      1
    else
      0
  }

  /** The lookup reads only the live prefix: cells at or past the count, and
      every other field, have no effect on its answer. */
  lemma SuspectedIgnoresStaleCells(s: Shared, t: Shared, memberId: int)
    requires Counted(s.suspects) && Counted(t.suspects)
    requires Live(s.suspects) == Live(t.suspects)
    ensures IsMemberSuspected(s, memberId) == IsMemberSuspected(t, memberId)
  {
    assert Contains(s.suspects, memberId) == Contains(t.suspects, memberId);
  }

  /** With no suspects nobody is suspected, whatever the cells hold. */
  lemma EmptySuspectsNoneSuspected(s: Shared, memberId: int)
    requires Counted(s.suspects) && s.suspects.count == 0
    ensures IsMemberSuspected(s, memberId) == 0
  {
  }

  /** Right after initialisation nobody is suspected. */
  lemma InitNoneSuspected(memberId: int)
    ensures IsMemberSuspected(InitSharedData(), memberId) == 0
  {
  }

  /** The index of the first registered group with id `groupId` (the
      `for ... if (group_id == ...) break;` scans), or -1. */
  function GroupIndex(groups: seq<Group>, groupId: int): (k: int)
    ensures -1 <= k < |groups|
    ensures k >= 0 ==> groups[k].groupId == groupId
    ensures k >= 0 ==> forall j :: 0 <= j < k ==> groups[j].groupId != groupId
    ensures k == -1 <==> forall j :: 0 <= j < |groups| ==> groups[j].groupId != groupId
    decreases |groups|
  {
    if groups == [] then -1
    else if groups[0].groupId == groupId then 0
    else
      var k := GroupIndex(groups[1..], groupId);
      if k < 0 then -1 else k + 1
  }

  /** The id of the `i`-th member (from 0) of group `groupId`:
      `group_id * 1000 + (i + 1)`. */
  function MemberId(groupId: int, i: int): int
  {
    groupId * 1000 + (i + 1)
  }

  /** For a non-negative group id and fewer than 1000 members, C's `/ 1000`
      and `% 1000` take a member id apart again. */
  lemma MemberIdRoundTrip(groupId: int, i: int)
    requires groupId >= 0 && 0 <= i < 999
    ensures CDiv(MemberId(groupId, i), 1000) == groupId
    ensures CRem(MemberId(groupId, i), 1000) == i + 1
  {
    var id := MemberId(groupId, i);
    CDivAgreesOnNaturals(id, 1000);
    assert id == groupId * 1000 + (i + 1);
  }

  /** Distinct positions in one group, or the same position in two groups,
      give distinct member ids. */
  lemma MemberIdInjective(g1: int, i1: int, g2: int, i2: int)
    requires 0 <= i1 < 999 && 0 <= i2 < 999
    requires g1 >= 0 && g2 >= 0
    requires MemberId(g1, i1) == MemberId(g2, i2)
    ensures g1 == g2 && i1 == i2
  {
    MemberIdRoundTrip(g1, i1);
    MemberIdRoundTrip(g2, i2);
  }
}
