/** The file-processing supervisor (Project_Tow/main.c:64-237): the slots
    it reserves for its children's pids, how many of them it fills, and the
    once-a-second termination test. Forking, `execl`, signals and the wall
    clock are left out; the fork outcomes and the elapsed seconds are
    parameters. */
module Supervisor {
  import opened CLib
  import TowConfig
  import opened TowShared

  /** The five worker role counts in the order they are started. */
  function Roles(cfg: TowConfig.Config): (roles: seq<int>)
    ensures |roles| == 5
  {
    [cfg.numGenerators, cfg.numCalculators, cfg.inspectorsType1, cfg.inspectorsType2, cfg.inspectorsType3]
  }

  /** The number of forks the worker loops attempt: a `for` over a
      non-positive count runs no iteration. */
  function Attempts(roles: seq<int>): (n: nat)
    decreases |roles|
  {
    if roles == [] then 0 else Max(0, roles[0]) + Attempts(roles[1..])
  }

  /** The plain sum of the role counts, as `total_children` computes it. */
  function Sum(roles: seq<int>): int
    decreases |roles|
  {
    if roles == [] then 0 else roles[0] + Sum(roles[1..])
  }

  lemma {:induction false} AttemptsOfNonNegative(roles: seq<int>)
    requires forall i :: 0 <= i < |roles| ==> roles[i] >= 0
    ensures Attempts(roles) == Sum(roles)
    decreases |roles|
  {
    if roles != [] {
      AttemptsOfNonNegative(roles[1..]);
    }
  }

  lemma SumOfRoles(cfg: TowConfig.Config)
    ensures Sum(Roles(cfg)) == TowConfig.RoleCount(cfg)
  {
    var r := Roles(cfg);
    assert r[1..][1..][1..][1..][1..] == [];
    assert Sum(r[1..][1..][1..][1..]) == cfg.inspectorsType3;
    assert Sum(r[1..][1..][1..]) == cfg.inspectorsType2 + cfg.inspectorsType3;
    assert Sum(r[1..][1..]) == cfg.inspectorsType1 + cfg.inspectorsType2 + cfg.inspectorsType3;
  }

  /** The number of `true`s in `s`. */
  function CountTrue(s: seq<bool>): (n: nat)
    ensures n <= |s|
    decreases |s|
  {
    if s == [] then 0 else (if s[0] then 1 else 0) + CountTrue(s[1..])
  }

  lemma {:induction false} CountTrueAppend(a: seq<bool>, b: seq<bool>)
    ensures CountTrue(a + b) == CountTrue(a) + CountTrue(b)
    decreases |a|
  {
    if a == [] {
      assert a + b == b;
    } else {
      assert (a + b)[0] == a[0];
      assert (a + b)[1..] == a[1..] + b;
      CountTrueAppend(a[1..], b);
    }
  }

  lemma {:induction false} CountTrueAll(s: seq<bool>)
    requires forall i :: 0 <= i < |s| ==> s[i]
    ensures CountTrue(s) == |s|
    decreases |s|
  {
    if s != [] {
      CountTrueAll(s[1..]);
    }
  }

  /** After the first `fork` forks, `stored` lists in order exactly those
      whose pid was stored. */
  predicate Recorded(forkOk: seq<bool>, fork: nat, stored: seq<nat>)
    requires fork <= |forkOk|
  {
    && |stored| == CountTrue(forkOk[..fork])
    && (forall k :: 0 <= k < |stored| ==> stored[k] < fork && forkOk[stored[k]])
    && (forall k, l :: 0 <= k < l < |stored| ==> stored[k] < stored[l])
    && (forall i :: 0 <= i < fork && forkOk[i] ==> i in stored)
  }

  /** One fork: on success its pid goes into the next slot
      (`children_pids[child_index++] = pid`), on failure nothing is stored. */
  method Fork(forkOk: seq<bool>, fork: nat, stored: seq<nat>) returns (stored': seq<nat>)
    requires fork < |forkOk| && Recorded(forkOk, fork, stored)
    ensures Recorded(forkOk, fork + 1, stored')
    ensures |stored'| == |stored| + (if forkOk[fork] then 1 else 0)
  {
    CountTrueAppend(forkOk[..fork], [forkOk[fork]]);
    assert forkOk[..fork + 1] == forkOk[..fork] + [forkOk[fork]];
    if forkOk[fork] {
      stored' := stored + [fork];
    } else {
      stored' := stored;
    }
  }

  /** Starting the workers and then the visualization (main.c:87-201).
      `forkOk[i]` says whether the `i`-th fork, counted over all roles and
      then the visualization, succeeded; a failed fork stores nothing. The
      result lists, in order, which forks had their pid stored, and
      `childIndex` is how many slots were written. */
  method SpawnChildren(roles: seq<int>, forkOk: seq<bool>) returns (stored: seq<nat>, childIndex: nat)
    requires |forkOk| == Attempts(roles) + 1
    ensures childIndex == |stored| == CountTrue(forkOk)
    ensures forall k :: 0 <= k < |stored| ==> stored[k] < |forkOk| && forkOk[stored[k]]
    ensures forall k, l :: 0 <= k < l < |stored| ==> stored[k] < stored[l]
    ensures forall i :: 0 <= i < |forkOk| && forkOk[i] ==> i in stored
  {
    stored := [];
    var fork := 0;
    var r := 0;
    while r < |roles|
      invariant 0 <= r <= |roles|
      invariant fork == Attempts(roles) - Attempts(roles[r..])
      invariant Recorded(forkOk, fork, stored)
    {
      assert roles[r..][1..] == roles[r + 1..];
      var i := 0;
      while i < roles[r]
        invariant 0 <= i <= Max(0, roles[r])
        invariant fork == Attempts(roles) - Attempts(roles[r..]) + i
        invariant Recorded(forkOk, fork, stored)
      {
        stored := Fork(forkOk, fork, stored);
        fork := fork + 1;
        i := i + 1;
      }
      r := r + 1;
    }
    assert fork == Attempts(roles) by {
      assert roles[|roles|..] == [];
    }
    stored := Fork(forkOk, fork, stored);
    assert forkOk[..fork + 1] == forkOk;
    childIndex := |stored|;
  }

  /** The slots `malloc` reserves as written (main.c:78-80): one per worker,
      none for the visualization whose pid is stored at main.c:198. */
  function PidSlotsAsWritten(cfg: TowConfig.Config): int
  {
    TowConfig.RoleCount(cfg)
  }

  /** With non-negative role counts and every fork succeeding, the number of
      pids stored is one more than the slots reserved, so the
      visualization's pid is written past the end of the array. */
  lemma VisualizationSlotOverflows(cfg: TowConfig.Config, forkOk: seq<bool>)
    requires forall i :: 0 <= i < 5 ==> Roles(cfg)[i] >= 0
    requires |forkOk| == Attempts(Roles(cfg)) + 1
    requires forall i :: 0 <= i < |forkOk| ==> forkOk[i]
    ensures CountTrue(forkOk) == PidSlotsAsWritten(cfg) + 1
  {
    AttemptsOfNonNegative(Roles(cfg));
    SumOfRoles(cfg);
    CountTrueAll(forkOk);
  }

  /** The default configuration reserves 13 slots and stores 14 pids. */
  lemma DefaultsOverflow(forkOk: seq<bool>)
    requires |forkOk| == Attempts(Roles(TowConfig.Defaults())) + 1
    requires forall i :: 0 <= i < |forkOk| ==> forkOk[i]
    ensures PidSlotsAsWritten(TowConfig.Defaults()) == 13 && CountTrue(forkOk) == 14
  {
    VisualizationSlotOverflows(TowConfig.Defaults(), forkOk);
  }

  /** The reservation the code evidently intends: one slot per fork it may
      attempt, the visualization included. */
  function PidSlots(cfg: TowConfig.Config): (n: nat)
    ensures n >= 1
  {
    Attempts(Roles(cfg)) + 1
  }

  /** Whatever the forks do, every stored pid lands inside the corrected
      reservation. */
  lemma StoredPidsFit(cfg: TowConfig.Config, forkOk: seq<bool>)
    requires |forkOk| == Attempts(Roles(cfg)) + 1
    ensures CountTrue(forkOk) <= PidSlots(cfg)
    ensures (forall i :: 0 <= i < 5 ==> Roles(cfg)[i] >= 0) ==> PidSlots(cfg) == TowConfig.RoleCount(cfg) + 1
  {
    if forall i :: 0 <= i < 5 ==> Roles(cfg)[i] >= 0 {
      AttemptsOfNonNegative(Roles(cfg));
      SumOfRoles(cfg);
    }
  }

  /** The counters the supervisor reads under the semaphore (main.c:213-218). */
  datatype Snapshot = Snapshot(processed: int, notProcessed: int, backup: int, deleted: int)

  /** Files generated but not yet processed (main.c:215). */
  function ReadSnapshot(c: Counters): (s: Snapshot)
    ensures s.processed + s.notProcessed == c.filesGenerated
    ensures s.processed == c.filesProcessed && s.backup == c.filesMovedToBackup && s.deleted == c.filesDeleted
  {
    Snapshot(c.filesProcessed, c.filesGenerated - c.filesProcessed, c.filesMovedToBackup, c.filesDeleted)
  }

  /** Elapsed minutes, `difftime / 60.0`, for whole elapsed seconds (main.c:210). */
  function ElapsedMinutes(seconds: int): real
  {
    seconds as real / 60.0
  }

  /** The termination test (main.c:221-225): any counter strictly above its
      threshold, or the elapsed minutes strictly above the runtime limit. */
  predicate ShouldTerminate(cfg: TowConfig.Config, s: Snapshot, seconds: int)
  {
    || s.processed > cfg.thresholdFilesProcessed
    || s.notProcessed > cfg.thresholdFilesNotProcessed
    || s.backup > cfg.thresholdFilesBackup
    || s.deleted > cfg.thresholdFilesDeleted
    || ElapsedMinutes(seconds) > cfg.runtimeLimitMinutes as real
  }

  /** The minute test on whole seconds is the integer test against
      `60 * runtime_limit_minutes`. */
  lemma MinutesTest(seconds: int, limit: int)
    ensures ElapsedMinutes(seconds) > limit as real <==> seconds > 60 * limit
  {
    if seconds > 60 * limit {
      assert seconds as real > (60 * limit) as real;
    } else {
      assert seconds as real <= (60 * limit) as real;
    }
  }

  /** The supervisor's test as a list of (value, bound) pairs, all in
      integers: the four counters and the elapsed seconds. */
  function Checks(cfg: TowConfig.Config, s: Snapshot, seconds: int): (cs: seq<(int, int)>)
    ensures |cs| == 5
  {
    [(s.processed, cfg.thresholdFilesProcessed), (s.notProcessed, cfg.thresholdFilesNotProcessed),
     (s.backup, cfg.thresholdFilesBackup), (s.deleted, cfg.thresholdFilesDeleted),
     (seconds, 60 * cfg.runtimeLimitMinutes)]
  }

  /** Termination happens exactly when some check's value exceeds its bound. */
  lemma TerminateIffSomeCheckExceeded(cfg: TowConfig.Config, s: Snapshot, seconds: int)
    ensures ShouldTerminate(cfg, s, seconds) <==>
              exists i :: 0 <= i < 5 && Checks(cfg, s, seconds)[i].0 > Checks(cfg, s, seconds)[i].1
  {
    MinutesTest(seconds, cfg.runtimeLimitMinutes);
    var cs := Checks(cfg, s, seconds);
    if ShouldTerminate(cfg, s, seconds) {
      if s.processed > cfg.thresholdFilesProcessed { assert cs[0].0 > cs[0].1; }
      else if s.notProcessed > cfg.thresholdFilesNotProcessed { assert cs[1].0 > cs[1].1; }
      else if s.backup > cfg.thresholdFilesBackup { assert cs[2].0 > cs[2].1; }
      else if s.deleted > cfg.thresholdFilesDeleted { assert cs[3].0 > cs[3].1; }
      else { assert cs[4].0 > cs[4].1; }
    }
  }

  /** A counter that has only reached its threshold, with the others below
      theirs and time not up, does not stop the run. */
  lemma ThresholdReachedIsNotEnough(cfg: TowConfig.Config, seconds: int)
    requires seconds <= 60 * cfg.runtimeLimitMinutes
    ensures !ShouldTerminate(cfg, Snapshot(cfg.thresholdFilesProcessed, cfg.thresholdFilesNotProcessed,
                                           cfg.thresholdFilesBackup, cfg.thresholdFilesDeleted), seconds)
  {
    MinutesTest(seconds, cfg.runtimeLimitMinutes);
  }

  /** Once met, the test stays met as the processed, backup and deleted
      counts, the backlog and the clock only grow. */
  lemma TerminationMonotone(cfg: TowConfig.Config, s: Snapshot, seconds: int, t: Snapshot, later: int)
    requires ShouldTerminate(cfg, s, seconds)
    requires s.processed <= t.processed && s.notProcessed <= t.notProcessed
    requires s.backup <= t.backup && s.deleted <= t.deleted && seconds <= later
    ensures ShouldTerminate(cfg, t, later)
  {
    MinutesTest(seconds, cfg.runtimeLimitMinutes);
    MinutesTest(later, cfg.runtimeLimitMinutes);
  }

  /** The monitor loop (main.c:204-237) over the counters and elapsed seconds
      it observes on successive wake-ups: the first observation that meets
      the test, where the supervisor signals its children and exits, or
      `None` if none does. */
  method Monitor(cfg: TowConfig.Config, observations: seq<(Counters, int)>) returns (stop: Option<nat>)
    ensures stop.Some? ==>
              && stop.value < |observations|
              && ShouldTerminate(cfg, ReadSnapshot(observations[stop.value].0), observations[stop.value].1)
              && forall j :: 0 <= j < stop.value ==>
                   !ShouldTerminate(cfg, ReadSnapshot(observations[j].0), observations[j].1)
    ensures stop.None? ==>
              forall j :: 0 <= j < |observations| ==>
                !ShouldTerminate(cfg, ReadSnapshot(observations[j].0), observations[j].1)
  {
    var k := 0;
    while k < |observations|
      invariant 0 <= k <= |observations|
      invariant forall j :: 0 <= j < k ==> !ShouldTerminate(cfg, ReadSnapshot(observations[j].0), observations[j].1)
    {
      if ShouldTerminate(cfg, ReadSnapshot(observations[k].0), observations[k].1) {
        return Some(k);
      }
      k := k + 1;
    }
    return None;
  }
}
