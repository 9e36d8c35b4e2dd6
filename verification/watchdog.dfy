/** The parent process's termination watchdog in the counter-espionage
    simulation (Project_Three/simulation.c:866-896), and the agency-side
    casualty step whose counters it reads (simulation.c:491-554). Elapsed
    time is a parameter: whole seconds since the start. */
module Watchdog {
  import opened SharedData
  import AgencyConfig

  /** The stop condition: too many resistance members killed, or too many
      injured, or the agency's time is up and all of its members have been
      killed or caught. */
  predicate TerminationDue(s: Shared, cfg: AgencyConfig.Config, elapsed: int)
  {
    s.killedResistance >= cfg.maxKilled
    || s.injuredResistance >= cfg.maxInjured
    || (elapsed >= cfg.agencyTimeLimit && s.killedAgency + s.caughtAgency >= cfg.agencyMembers)
  }

  /** One check of the watchdog loop: three independent tests raise a local
      flag, and a raised flag clears the running flag. A clear flag leaves
      the running flag as it was. */
  method WatchdogCheck(s: Shared, cfg: AgencyConfig.Config, elapsed: int, running: bool) returns (running': bool)
    ensures running' <==> running && !TerminationDue(s, cfg, elapsed)
  {
    var terminate := false;
    if s.killedResistance >= cfg.maxKilled {
      terminate := true;
    }
    if s.injuredResistance >= cfg.maxInjured {
      terminate := true;
    }
    if elapsed >= cfg.agencyTimeLimit {
      if s.killedAgency + s.caughtAgency >= cfg.agencyMembers {
        terminate := true;
      }
    }
    running' := running;
    if terminate {
      running' := false;
    }
  }

  /** Once due, termination stays due: more casualties and more time never
      withdraw it. */
  lemma TerminationMonotone(s: Shared, t: Shared, cfg: AgencyConfig.Config, elapsed: int, later: int)
    requires TerminationDue(s, cfg, elapsed)
    requires elapsed <= later
    requires s.killedResistance <= t.killedResistance && s.injuredResistance <= t.injuredResistance
    requires s.killedAgency + s.caughtAgency <= t.killedAgency + t.caughtAgency
    ensures TerminationDue(t, cfg, later)
  {
  }

  /** What happens to an agency member once targeted (simulation.c:490-554). */
  datatype AgencyHit = AgencyKilled | LightlyInjured | AgencySeverelyInjured | AgencyCaught

  /** Recording a departing agency member's position (e.g. simulation.c:498-505):
      one more caught-agency position when the member had a position slot
      and the caught-agency array has room. */
  function RecordAgencyPosition(s: Shared, agencyId: int): (r: Shared)
    ensures r == s.(caughtAgencyPositionsCount := r.caughtAgencyPositionsCount)
    ensures r.caughtAgencyPositionsCount ==
              s.caughtAgencyPositionsCount
              + (if agencyId - 1 < s.agencyPositionsCount && s.caughtAgencyPositionsCount < MAX_CAUGHT_AGENCY then 1 else 0)
  {
    if agencyId - 1 < s.agencyPositionsCount && s.caughtAgencyPositionsCount < MAX_CAUGHT_AGENCY then
      s.(caughtAgencyPositionsCount := s.caughtAgencyPositionsCount + 1)
    else
      s
  }

  /** The effect of a targeted agency member `agencyId` as one step. A light
      injury is counted while the member recovers and uncounted afterwards,
      so its net effect is nil; a caught member is counted as killed. */
  function AgencyCasualty(s: Shared, agencyId: int, hit: AgencyHit): (r: Shared)
    ensures r.caughtAgency == s.caughtAgency
    ensures r.killedAgency == s.killedAgency + (if hit.AgencyKilled? || hit.AgencyCaught? then 1 else 0)
    ensures r.injuredAgency == s.injuredAgency + (if hit.AgencySeverelyInjured? then 1 else 0)
    ensures r.currentAgencyMembers == s.currentAgencyMembers - (if hit.LightlyInjured? then 0 else 1)
    ensures r.groups == s.groups && r.suspects == s.suspects && r.spyIds == s.spyIds
    ensures hit.LightlyInjured? ==> r == s
  {
    match hit
    case AgencyKilled =>
      RecordAgencyPosition(s.(killedAgency := s.killedAgency + 1, currentAgencyMembers := s.currentAgencyMembers - 1), agencyId)
    case LightlyInjured => s
    case AgencySeverelyInjured =>
      RecordAgencyPosition(s.(injuredAgency := s.injuredAgency + 1, currentAgencyMembers := s.currentAgencyMembers - 1), agencyId)
    case AgencyCaught =>
      RecordAgencyPosition(s.(killedAgency := s.killedAgency + 1, currentAgencyMembers := s.currentAgencyMembers - 1), agencyId)
  }

  /** A sequence of hits, each on its own agency member. */
  function AgencyCasualties(s: Shared, hits: seq<(int, AgencyHit)>): Shared
    decreases |hits|
  {
    if hits == [] then s else AgencyCasualties(AgencyCasualty(s, hits[0].0, hits[0].1), hits[1..])
  }

  /** The number of hits that take an agency member out for good as killed. */
  function Fatal(hits: seq<(int, AgencyHit)>): nat
    decreases |hits|
  {
    if hits == [] then 0 else (if hits[0].1.AgencyKilled? || hits[0].1.AgencyCaught? then 1 else 0) + Fatal(hits[1..])
  }

  /** Nothing ever counts an agency member as caught, so `caught_agency`
      keeps its initial value and `killed_agency` counts both the killed and
      the caught: the agency part of the stop condition only ever sees kills. */
  lemma {:induction false} CaughtAgencyNeverCounted(s: Shared, hits: seq<(int, AgencyHit)>)
    ensures AgencyCasualties(s, hits).caughtAgency == s.caughtAgency
    ensures AgencyCasualties(s, hits).killedAgency == s.killedAgency + Fatal(hits)
    decreases |hits|
  {
    if hits != [] {
      CaughtAgencyNeverCounted(AgencyCasualty(s, hits[0].0, hits[0].1), hits[1..]);
    }
  }

  lemma {:induction false} AllFatal(hits: seq<(int, AgencyHit)>)
    requires forall i :: 0 <= i < |hits| ==> hits[i].1.AgencyKilled? || hits[i].1.AgencyCaught?
    ensures Fatal(hits) == |hits|
    decreases |hits|
  {
    if hits != [] {
      AllFatal(hits[1..]);
    }
  }

  /** With the whole agency killed or caught after the time limit, the
      watchdog stops the simulation. */
  lemma AgencyWipedOutStops(s: Shared, cfg: AgencyConfig.Config, hits: seq<(int, AgencyHit)>, elapsed: int)
    requires s.caughtAgency == 0 && s.killedAgency == 0
    requires elapsed >= cfg.agencyTimeLimit
    requires |hits| >= cfg.agencyMembers
    requires forall i :: 0 <= i < |hits| ==> hits[i].1.AgencyKilled? || hits[i].1.AgencyCaught?
    ensures TerminationDue(AgencyCasualties(s, hits), cfg, elapsed)
  {
    CaughtAgencyNeverCounted(s, hits);
    AllFatal(hits);
  }
}
