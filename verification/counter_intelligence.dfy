/** The counter-espionage agency's analysis pass (`agency_member_thread`,
    Project_Three/simulation.c:557-646): flag the spies of suspicious groups,
    decide each suspect's fate, then reset every group's spy time. */
module CounterIntelligence {
  import opened CLib
  import opened IdArrays
  import opened SharedData
  import AgencyConfig

  /** The C `double` quotient `(double)n / d` of two `int`s, including IEEE
      division by zero: a positive numerator gives +inf, a negative one -inf,
      and 0/0 is NaN. */
  datatype Ratio = Finite(v: real) | PosInf | NegInf | NaN

  function Quotient(n: int, d: int): (q: Ratio)
    ensures q.NaN? <==> n == 0 && d == 0
    ensures q.Finite? <==> d != 0
    ensures q.Finite? ==> q.v * d as real == n as real
  {
    if d != 0 then Finite(n as real / d as real)
    else if n > 0 then PosInf
    else if n < 0 then NegInf
    else NaN
  }

  /** `q > t`: false for NaN, as every IEEE comparison with NaN is. */
  predicate Above(q: Ratio, t: real)
  {
    match q
    case Finite(v) => v > t
    case PosInf => true
    case NegInf => false
    case NaN => false
  }

  /** `q < t`. */
  predicate Below(q: Ratio, t: real)
  {
    match q
    case Finite(v) => v < t
    case PosInf => false
    case NegInf => true
    case NaN => false
  }

  /** For a positive time limit the suspicion comparisons are plain integer
      comparisons scaled by the limit. */
  lemma QuotientComparisons(n: int, d: int, t: real)
    requires d > 0
    ensures Above(Quotient(n, d), t) <==> n as real > t * d as real
    ensures Below(Quotient(n, d), t) <==> n as real < t * d as real
  {
    var v := n as real / d as real;
    assert v * d as real == n as real;
    if v > t {
      assert v * d as real > t * d as real;
    } else {
      assert v * d as real <= t * d as real;
    }
    if v < t {
      assert v * d as real < t * d as real;
    } else {
      assert v * d as real >= t * d as real;
    }
  }

  /** The id the agency takes for a group's spy: its first member,
      `group_id * 1000 + 1`. */
  function SpyIdOf(groupId: int): int
  {
    MemberId(groupId, 0)
  }

  /** `suspect_id / 1000` recovers the group of a spy id, for the non-negative
      group ids the manager hands out. */
  lemma SpyIdGroupRoundTrip(groupId: int)
    requires groupId >= 0
    ensures CDiv(SpyIdOf(groupId), 1000) == groupId
  {
    MemberIdRoundTrip(groupId, 0);
  }

  /** A group the flag pass suspects: its spy time over the time limit
      exceeds the suspicion threshold, and it does hold a spy. */
  predicate Flagged(g: Group, cfg: AgencyConfig.Config)
  {
    Above(Quotient(g.spyTime, cfg.agencyTimeLimit), cfg.suspicionThreshold) && g.hasSpy != 0
  }

  /** Adding one suspect (simulation.c:569-581): only when it is not yet a
      suspect and the list has room; an append counts one arrest. */
  function AddSuspect(s: Shared, id: int): (r: Shared)
    requires SharedData.Wf(s)
    ensures SharedData.Wf(r)
    ensures id in Live(s.suspects) || s.suspects.count == MAX_SUSPECTS ==> r == s
    ensures id !in Live(s.suspects) && s.suspects.count < MAX_SUSPECTS ==>
              Live(r.suspects) == Live(s.suspects) + [id] && r.totalArrests == s.totalArrests + 1
    ensures r == s.(suspects := r.suspects, totalArrests := r.totalArrests)
    ensures r.totalArrests - s.totalArrests == r.suspects.count - s.suspects.count
    ensures NoDuplicates(Live(s.suspects)) ==> NoDuplicates(Live(r.suspects))
  {
    if Contains(s.suspects, id) || s.suspects.count >= MAX_SUSPECTS then s
    else s.(suspects := Append(s.suspects, id), totalArrests := s.totalArrests + 1)
  }

  /** The flag loop over the registered groups `gs`, first group first. The
      suspect list only grows at its end, one arrest per append; every new
      suspect is the spy id of a flagged group; and every flagged group's spy
      ends up a suspect unless the list is full. */
  function FlagGroups(s: Shared, cfg: AgencyConfig.Config, gs: seq<Group>): (r: Shared)
    requires SharedData.Wf(s)
    ensures SharedData.Wf(r)
    ensures r == s.(suspects := r.suspects, totalArrests := r.totalArrests)
    ensures r.totalArrests - s.totalArrests == r.suspects.count - s.suspects.count
    ensures Live(s.suspects) <= Live(r.suspects)
    ensures NoDuplicates(Live(s.suspects)) ==> NoDuplicates(Live(r.suspects))
    ensures forall x :: x in Live(r.suspects) ==>
              x in Live(s.suspects) || exists g :: g in gs && Flagged(g, cfg) && x == SpyIdOf(g.groupId)
    ensures forall g :: g in gs && Flagged(g, cfg) ==>
              SpyIdOf(g.groupId) in Live(r.suspects) || r.suspects.count == MAX_SUSPECTS
    decreases |gs|
  {
    if gs == [] then s
    else
      var s1 := if Flagged(gs[0], cfg) then AddSuspect(s, SpyIdOf(gs[0].groupId)) else s;
      var r := FlagGroups(s1, cfg, gs[1..]);
      assert forall g :: g in gs ==> g == gs[0] || g in gs[1..];
      assert Flagged(gs[0], cfg) ==>
        SpyIdOf(gs[0].groupId) in Live(s1.suspects) || s1.suspects.count == MAX_SUSPECTS;
      assert |Live(s1.suspects)| <= |Live(r.suspects)|;
      r
  }

  /** A registry in which no group has spy time flags nothing against a
      non-negative threshold: the pass leaves the record unchanged. */
  lemma {:induction false} NoFlagsWithoutSpyTime(s: Shared, cfg: AgencyConfig.Config, gs: seq<Group>)
    requires SharedData.Wf(s)
    requires cfg.suspicionThreshold >= 0.0
    requires forall g :: g in gs ==> g.spyTime == 0
    ensures FlagGroups(s, cfg, gs) == s
    decreases |gs|
  {
    if gs != [] {
      assert !Flagged(gs[0], cfg);
      NoFlagsWithoutSpyTime(s, cfg, gs[1..]);
    }
  }

  datatype Verdict = Release | Imprison | Maintain

  /** The three-way decision on a suspicion level (simulation.c:605-637):
      release below the release threshold, otherwise imprison above the
      imprison threshold, otherwise keep the suspect. */
  function Classify(q: Ratio, release: real, imprison: real): (v: Verdict)
    ensures q.Finite? ==> (v == Release <==> q.v < release)
    ensures q.Finite? ==> (v == Imprison <==> release <= q.v && q.v > imprison)
    ensures q.NaN? ==> v == Maintain
    ensures q.PosInf? ==> v == Imprison
    ensures q.NegInf? ==> v == Release
  {
    if Below(q, release) then Release
    else if Above(q, imprison) then Imprison
    else Maintain
  }

  function Severity(v: Verdict): nat
  {
    match v
    case Release => 0
    case Maintain => 1
    case Imprison => 2
  }

  /** A higher suspicion never earns a milder verdict, whatever the two
      thresholds are. */
  lemma ClassifyMonotone(a: real, b: real, release: real, imprison: real)
    requires a <= b
    ensures Severity(Classify(Finite(a), release, imprison)) <= Severity(Classify(Finite(b), release, imprison))
  {
  }

  /** The suspicion the decision loop computes for a suspect: its group's
      spy time over the time limit, or 0.0 when no group has the id
      `suspect_id / 1000` (simulation.c:593-603). */
  function SuspicionOf(groups: seq<Group>, cfg: AgencyConfig.Config, suspectId: int): (q: Ratio)
    ensures GroupIndex(groups, CDiv(suspectId, 1000)) < 0 ==> q == Finite(0.0)
  {
    var k := GroupIndex(groups, CDiv(suspectId, 1000));
    if k < 0 then Finite(0.0) else Quotient(groups[k].spyTime, cfg.agencyTimeLimit)
  }

  function VerdictOf(groups: seq<Group>, cfg: AgencyConfig.Config, suspectId: int): Verdict
  {
    Classify(SuspicionOf(groups, cfg, suspectId), cfg.arrestReleaseThreshold, cfg.arrestImprisonThreshold)
  }

  /** The spy the flag pass derives from a registered group is judged on that
      same group's spy time, when the group is the first registered with its id. */
  lemma FlaggedSpyJudgedOnOwnGroup(groups: seq<Group>, cfg: AgencyConfig.Config, k: int)
    requires 0 <= k < |groups| && groups[k].groupId >= 0
    requires forall j :: 0 <= j < k ==> groups[j].groupId != groups[k].groupId
    ensures SuspicionOf(groups, cfg, SpyIdOf(groups[k].groupId)) == Quotient(groups[k].spyTime, cfg.agencyTimeLimit)
  {
    SpyIdGroupRoundTrip(groups[k].groupId);
  }

  /** When both arrest thresholds lie at or below the suspicion threshold,
      a group flagged in this pass has its spy imprisoned in this pass. */
  lemma FlaggedSpyImprisoned(groups: seq<Group>, cfg: AgencyConfig.Config, k: int)
    requires 0 <= k < |groups| && groups[k].groupId >= 0
    requires forall j :: 0 <= j < k ==> groups[j].groupId != groups[k].groupId
    requires cfg.arrestReleaseThreshold <= cfg.suspicionThreshold
    requires cfg.arrestImprisonThreshold <= cfg.suspicionThreshold
    requires Flagged(groups[k], cfg)
    ensures VerdictOf(groups, cfg, SpyIdOf(groups[k].groupId)) == Imprison
  {
    FlaggedSpyJudgedOnOwnGroup(groups, cfg, k);
  }

  /** The suspects the decision loop keeps, in their original order. */
  function Kept(groups: seq<Group>, cfg: AgencyConfig.Config, ids: seq<int>): (r: seq<int>)
    ensures |r| <= |ids|
    ensures forall x :: x in r <==> x in ids && VerdictOf(groups, cfg, x) == Maintain
    ensures NoDuplicates(ids) ==> NoDuplicates(r)
    decreases |ids|
  {
    if ids == [] then []
    else
      var init := ids[..|ids| - 1];
      var last := ids[|ids| - 1];
      assert ids == init + [last];
      var p := Kept(groups, cfg, init);
      assert NoDuplicates(ids) ==> NoDuplicates(init) && last !in init;
      if VerdictOf(groups, cfg, last) == Maintain then p + [last] else p
  }

  /** The number of suspects among `ids` with verdict `v`. */
  function Tally(groups: seq<Group>, cfg: AgencyConfig.Config, ids: seq<int>, v: Verdict): nat
    decreases |ids|
  {
    if ids == [] then 0
    else Tally(groups, cfg, ids[..|ids| - 1], v) + (if VerdictOf(groups, cfg, ids[|ids| - 1]) == v then 1 else 0)
  }

  /** The suspects the decision loop imprisons, in order. */
  function Imprisoned(groups: seq<Group>, cfg: AgencyConfig.Config, ids: seq<int>): seq<int>
    decreases |ids|
  {
    if ids == [] then []
    else
      var p := Imprisoned(groups, cfg, ids[..|ids| - 1]);
      if VerdictOf(groups, cfg, ids[|ids| - 1]) == Imprison then p + [ids[|ids| - 1]] else p
  }

  /** Every suspect is released, imprisoned or kept, and exactly one of them. */
  lemma {:induction false} VerdictPartition(groups: seq<Group>, cfg: AgencyConfig.Config, ids: seq<int>)
    ensures |Kept(groups, cfg, ids)| + Tally(groups, cfg, ids, Release) + Tally(groups, cfg, ids, Imprison) == |ids|
    ensures |Imprisoned(groups, cfg, ids)| == Tally(groups, cfg, ids, Imprison)
    decreases |ids|
  {
    if ids != [] {
      VerdictPartition(groups, cfg, ids[..|ids| - 1]);
    }
  }

  /** The parts of the record the decision loop touches, and its index. */
  datatype Ledger = Ledger(suspects: IdArray, spyIds: IdArray, released: int, imprisoned: int, index: int)

  /** One turn's effect on the ledger, given the turn's verdict. */
  predicate Decided(l: Ledger, v: Verdict, l': Ledger)
    requires Counted(l.suspects) && Counted(l'.suspects) && Counted(l.spyIds)
    requires 0 <= l.index < l.suspects.count
  {
    match v
    case Release =>
      Live(l'.suspects) == Live(l.suspects)[..l.index] + Live(l.suspects)[l.index + 1..]
      && l' == l.(suspects := l'.suspects, released := l.released + 1)
    case Imprison =>
      Live(l'.suspects) == Live(l.suspects)[..l.index] + Live(l.suspects)[l.index + 1..]
      && l' == l.(suspects := l'.suspects, spyIds := RemoveFirst(l.spyIds, l.suspects.cells[l.index]),
                  imprisoned := l.imprisoned + 1)
    case Maintain =>
      l' == l.(index := l.index + 1)
  }

  /** One turn of the decision loop on the suspect at the ledger's index: a
      released suspect leaves the list and counts one release, with the
      spy-id list untouched; an imprisoned one leaves the list, counts one
      imprisonment and loses its first entry in the spy-id list; a maintained
      one stays, and only the index moves on. */
  method DecideAt(groups: seq<Group>, cfg: AgencyConfig.Config, l: Ledger) returns (l': Ledger)
    requires IdArrays.Wf(l.suspects, MAX_SUSPECTS) && IdArrays.Wf(l.spyIds, MAX_SPYS)
    requires 0 <= l.index < l.suspects.count
    ensures IdArrays.Wf(l'.suspects, MAX_SUSPECTS) && IdArrays.Wf(l'.spyIds, MAX_SPYS)
    ensures Decided(l, VerdictOf(groups, cfg, l.suspects.cells[l.index]), l')
  {
    var suspectId := l.suspects.cells[l.index];
    var suspicion := SuspicionOf(groups, cfg, suspectId);
    if Below(suspicion, cfg.arrestReleaseThreshold) {
      var remaining := ShiftRemove(l.suspects, l.index);
      l' := l.(suspects := remaining, released := l.released + 1);
    } else if Above(suspicion, cfg.arrestImprisonThreshold) {
      var remaining := ShiftRemove(l.suspects, l.index);
      l' := l.(suspects := remaining, spyIds := RemoveFirst(l.spyIds, suspectId),
               imprisoned := l.imprisoned + 1);
    } else {
      l' := l.(index := l.index + 1);
    }
  }

  /** The decision loop's invariant after the first `k` of the original
      suspects `ids` have been judged, starting from ledger `l0`. */
  predicate Progress(groups: seq<Group>, cfg: AgencyConfig.Config, l0: Ledger, ids: seq<int>, k: int, l: Ledger)
  {
    0 <= k <= |ids| && Counted(l0.spyIds)
    && IdArrays.Wf(l.suspects, MAX_SUSPECTS) && IdArrays.Wf(l.spyIds, MAX_SPYS)
    && Live(l.suspects) == Kept(groups, cfg, ids[..k]) + ids[k..]
    && l.index == |Kept(groups, cfg, ids[..k])|
    && l.released == l0.released + Tally(groups, cfg, ids[..k], Release)
    && l.imprisoned == l0.imprisoned + Tally(groups, cfg, ids[..k], Imprison)
    && l.spyIds == RemoveEach(l0.spyIds, Imprisoned(groups, cfg, ids[..k]))
  }

  /** One turn keeps the invariant, one more original suspect judged. */
  lemma DecisionAdvance(groups: seq<Group>, cfg: AgencyConfig.Config, l0: Ledger, ids: seq<int>, k: int,
                        l: Ledger, l': Ledger)
    requires Progress(groups, cfg, l0, ids, k, l) && l.index < l.suspects.count
    requires Counted(l'.suspects)
    requires Decided(l, VerdictOf(groups, cfg, l.suspects.cells[l.index]), l')
    requires IdArrays.Wf(l'.suspects, MAX_SUSPECTS) && IdArrays.Wf(l'.spyIds, MAX_SPYS)
    ensures k < |ids| && Progress(groups, cfg, l0, ids, k + 1, l')
  {
    var live := Live(l.suspects);
    var i := l.index;
    DecisionStep(groups, cfg, ids, k, live, i);
    var id := ids[k];
    assert l.suspects.cells[i] == live[i] == id;
    var kept, rest := Kept(groups, cfg, ids[..k]), ids[k + 1..];
    var done := Imprisoned(groups, cfg, ids[..k]);
    RemoveEachSnoc(l0.spyIds, done, id);
    var kept', done' := Kept(groups, cfg, ids[..k + 1]), Imprisoned(groups, cfg, ids[..k + 1]);
    match VerdictOf(groups, cfg, id)
    case Release =>
      assert kept' == kept && done' == done;
      assert Live(l'.suspects) == kept' + rest;
      assert l'.spyIds == RemoveEach(l0.spyIds, done');
    case Imprison =>
      assert kept' == kept && done' == done + [id];
      assert Live(l'.suspects) == kept' + rest;
      assert l'.spyIds == RemoveFirst(l.spyIds, id) == RemoveEach(l0.spyIds, done');
    case Maintain =>
      assert kept' == kept + [id] && done' == done;
      assert Live(l'.suspects) == kept' + rest;
      assert l'.spyIds == RemoveEach(l0.spyIds, done');
  }

  /** The release/imprison/maintain loop of simulation.c:589-639. The suspects
      that stay are those with verdict Maintain, in their order; each release
      and each imprisonment counts once; imprisoned suspects leave the spy-id
      list, first match each, and nothing else in the record changes. */
  method DecisionPass(s: Shared, cfg: AgencyConfig.Config) returns (r: Shared)
    requires SharedData.Wf(s)
    ensures SharedData.Wf(r)
    ensures r == s.(suspects := r.suspects, spyIds := r.spyIds,
                    totalReleased := r.totalReleased, totalImprisoned := r.totalImprisoned)
    ensures Live(r.suspects) == Kept(s.groups, cfg, Live(s.suspects))
    ensures r.totalReleased == s.totalReleased + Tally(s.groups, cfg, Live(s.suspects), Release)
    ensures r.totalImprisoned == s.totalImprisoned + Tally(s.groups, cfg, Live(s.suspects), Imprison)
    ensures r.spyIds == RemoveEach(s.spyIds, Imprisoned(s.groups, cfg, Live(s.suspects)))
  {
    ghost var ids := Live(s.suspects);
    ghost var k := 0;
    var l := Ledger(s.suspects, s.spyIds, s.totalReleased, s.totalImprisoned, 0);
    ghost var l0 := l;
    DecisionStart(s.groups, cfg, l0);
    while l.index < l.suspects.count
      invariant Progress(s.groups, cfg, l0, ids, k, l)
      decreases l.suspects.count - l.index
    {
      var l' := DecideAt(s.groups, cfg, l);
      DecisionAdvance(s.groups, cfg, l0, ids, k, l, l');
      l := l';
      k := k + 1;
    }
    DecisionDone(s.groups, cfg, l0, ids, k, l);
    r := s.(suspects := l.suspects, spyIds := l.spyIds, totalReleased := l.released, totalImprisoned := l.imprisoned);
  }

  /** Before the first turn nothing has been judged. */
  lemma DecisionStart(groups: seq<Group>, cfg: AgencyConfig.Config, l0: Ledger)
    requires IdArrays.Wf(l0.suspects, MAX_SUSPECTS) && IdArrays.Wf(l0.spyIds, MAX_SPYS)
    requires l0.index == 0
    ensures Progress(groups, cfg, l0, Live(l0.suspects), 0, l0)
  {
    var ids := Live(l0.suspects);
    assert ids[..0] == [] && ids[0..] == ids;
  }

  /** When the index reaches the end of the list, every original suspect
      has been judged. */
  lemma DecisionDone(groups: seq<Group>, cfg: AgencyConfig.Config, l0: Ledger, ids: seq<int>, k: int, l: Ledger)
    requires Progress(groups, cfg, l0, ids, k, l) && l.index >= l.suspects.count
    ensures k == |ids| && ids[..k] == ids
  {
    assert |Live(l.suspects)| == l.suspects.count;
  }

  /** One turn of the decision loop, on the sequences: the suspect at the
      loop index is the next unprocessed one, and the three summaries of the
      processed prefix grow by that suspect's verdict. */
  lemma DecisionStep(groups: seq<Group>, cfg: AgencyConfig.Config, ids: seq<int>, k: int, live: seq<int>, i: int)
    requires 0 <= k <= |ids|
    requires live == Kept(groups, cfg, ids[..k]) + ids[k..]
    requires i == |Kept(groups, cfg, ids[..k])| && i < |live|
    ensures k < |ids| && live[i] == ids[k]
    ensures live[..i] == Kept(groups, cfg, ids[..k]) && live[i + 1..] == ids[k + 1..]
    ensures live == Kept(groups, cfg, ids[..k]) + [ids[k]] + ids[k + 1..]
    ensures var v := VerdictOf(groups, cfg, ids[k]);
            && Kept(groups, cfg, ids[..k + 1]) == Kept(groups, cfg, ids[..k]) + (if v == Maintain then [ids[k]] else [])
            && Tally(groups, cfg, ids[..k + 1], Release) == Tally(groups, cfg, ids[..k], Release) + (if v == Release then 1 else 0)
            && Tally(groups, cfg, ids[..k + 1], Imprison) == Tally(groups, cfg, ids[..k], Imprison) + (if v == Imprison then 1 else 0)
            && Imprisoned(groups, cfg, ids[..k + 1]) == Imprisoned(groups, cfg, ids[..k]) + (if v == Imprison then [ids[k]] else [])
  {
    var kept := Kept(groups, cfg, ids[..k]);
    assert ids[k..] == [ids[k]] + ids[k + 1..];
    SplitAtLength(kept, [ids[k]], ids[k + 1..], live);
    SummariesGrow(groups, cfg, ids, k);
  }

  /** A sequence made of three parts splits back into them at the first
      part's length. */
  lemma SplitAtLength(a: seq<int>, b: seq<int>, c: seq<int>, s: seq<int>)
    requires s == a + (b + c) && |b| == 1
    ensures s[|a|] == b[0] && s[..|a|] == a && s[|a| + 1..] == c && s == a + b + c
  {
    assert s[..|a|] == a;
    assert s[|a| + 1..] == c;
  }

  /** The summaries of a prefix grow by the verdict of the next suspect. */
  lemma SummariesGrow(groups: seq<Group>, cfg: AgencyConfig.Config, ids: seq<int>, k: int)
    requires 0 <= k < |ids|
    ensures var v := VerdictOf(groups, cfg, ids[k]);
            && Kept(groups, cfg, ids[..k + 1]) == Kept(groups, cfg, ids[..k]) + (if v == Maintain then [ids[k]] else [])
            && Tally(groups, cfg, ids[..k + 1], Release) == Tally(groups, cfg, ids[..k], Release) + (if v == Release then 1 else 0)
            && Tally(groups, cfg, ids[..k + 1], Imprison) == Tally(groups, cfg, ids[..k], Imprison) + (if v == Imprison then 1 else 0)
            && Imprisoned(groups, cfg, ids[..k + 1]) == Imprisoned(groups, cfg, ids[..k]) + (if v == Imprison then [ids[k]] else [])
  {
    var p := ids[..k + 1];
    assert p[..|p| - 1] == ids[..k] && p[|p| - 1] == ids[k];
  }

  /** The reset loop of simulation.c:642-646: every registered group's spy
      time becomes 0 and nothing else changes. */
  method ResetSpyTimes(s: Shared) returns (r: Shared)
    ensures r == s.(groups := r.groups)
    ensures |r.groups| == |s.groups|
    ensures forall i :: 0 <= i < |r.groups| ==> r.groups[i].spyTime == 0
    ensures forall i :: 0 <= i < |r.groups| ==>
              r.groups[i].groupId == s.groups[i].groupId && r.groups[i].hasSpy == s.groups[i].hasSpy
              && r.groups[i].isMilitary == s.groups[i].isMilitary
              && r.groups[i].memberCount == s.groups[i].memberCount
  {
    var groups := s.groups;
    var i := 0;
    while i < |groups|
      invariant 0 <= i <= |groups| && |groups| == |s.groups|
      invariant forall j :: 0 <= j < i ==> groups[j] == s.groups[j].(spyTime := 0)
      invariant forall j :: i <= j < |groups| ==> groups[j] == s.groups[j]
    {
      groups := groups[i := groups[i].(spyTime := 0)];
      i := i + 1;
    }
    r := s.(groups := groups);
  }

  /** One analysis round of an agency member: flag, decide, reset. The
      suspect list stays duplicate-free, arrests grow by exactly the suspects
      the flag step added, no group keeps any spy time, and so an immediate
      second flag step against a non-negative threshold adds nobody. */
  method AnalysisRound(s: Shared, cfg: AgencyConfig.Config) returns (r: Shared)
    requires SharedData.Wf(s)
    ensures SharedData.Wf(r)
    ensures NoDuplicates(Live(s.suspects)) ==> NoDuplicates(Live(r.suspects))
    ensures r.totalArrests == FlagGroups(s, cfg, s.groups).totalArrests
    ensures |r.groups| == |s.groups|
    ensures forall i :: 0 <= i < |r.groups| ==> r.groups[i].spyTime == 0
    ensures cfg.suspicionThreshold >= 0.0 ==> FlagGroups(r, cfg, r.groups) == r
  {
    var flagged := FlagGroups(s, cfg, s.groups);
    var decided := DecisionPass(flagged, cfg);
    r := ResetSpyTimes(decided);
    if cfg.suspicionThreshold >= 0.0 {
      assert forall g :: g in r.groups ==> g.spyTime == 0;
      NoFlagsWithoutSpyTime(r, cfg, r.groups);
    }
  }
}
