/** A player of the rope-pulling game (`player_process` and
    `initialize_game`, Project_One/main.c:71-163). The pipe protocol is
    modelled as already-parsed messages: a command's first word, and the
    replies a player writes back. `rand()` is a parameter. */
module PlayerProcess {
  import opened CLib
  import GameSettings

  const NUM_TEAMS: nat := 3
  const NUM_PLAYERS: nat := 3

  /** A message's first word: `JUMP`, `PULL`, or any other word (ignored). */
  datatype Command = Jump | Pull | Other

  /** A reply written back to the referee; `Inactive` carries `player_id + 1`. */
  datatype Reply = Stabilized(time: int, energy: int) | Pulled(time: int, energy: int) | Inactive(playerNumber: int)

  /** The time a jump or pull takes (main.c:110 and :133): `rand() % dec + 1`
      for a positive energy decrease, otherwise 1. */
  function EffortTime(dec: int, draw: nat): (t: int)
    ensures dec > 0 ==> 1 <= t <= dec
    ensures dec <= 0 ==> t == 1
  {
    if dec > 0 then CRem(draw, dec) + 1 else 1
  }

  /** Energy after spending `dec`, clamped at 0 (main.c:114-115 and :136-137). */
  function Spend(energy: int, dec: int): (e: int)
    ensures e >= 0
    ensures e == Max(0, energy - dec)
    ensures dec >= 0 ==> e <= Max(0, energy)
  {
    var e := energy - dec;
    if e < 0 then 0 else e
  }

  /** The effect of one command: the replies written, the new energy, and
      whether the player leaves its loop. */
  datatype Outcome = Outcome(replies: seq<Reply>, energy: int, stopped: bool)

  /** Handling one command (main.c:102-148). A JUMP or PULL reaching an
      exhausted player (energy <= 0) is answered INACTIVE with energy
      unchanged, and the player keeps reading. Otherwise the effort takes
      its time, energy drops by the command's decrease down to 0 at the
      lowest, the result is reported, and a player left with no energy
      also reports INACTIVE and stops. Any other word is ignored. */
  function HandleCommand(cfg: GameSettings.Settings, playerId: int, energy: int, cmd: Command, draw: nat): (o: Outcome)
    ensures cmd.Other? ==> o == Outcome([], energy, false)
    ensures !cmd.Other? && energy <= 0 ==> o == Outcome([Inactive(playerId + 1)], energy, false)
    ensures !cmd.Other? && energy > 0 ==>
              var dec := if cmd.Jump? then cfg.energyDecreaseJump else cfg.energyDecreasePull;
              var t := EffortTime(dec, draw);
              && o.energy == Max(0, energy - dec)
              && |o.replies| >= 1
              && o.replies[0] == (if cmd.Jump? then Stabilized(t, o.energy) else Pulled(t, o.energy))
              && (o.stopped <==> o.energy == 0)
              && (o.stopped ==> o.replies == [o.replies[0], Inactive(playerId + 1)])
              && (!o.stopped ==> |o.replies| == 1)
  {
    match cmd
    case Other => Outcome([], energy, false)
    case Jump =>
      if energy <= 0 then Outcome([Inactive(playerId + 1)], energy, false)
      else
        var t := EffortTime(cfg.energyDecreaseJump, draw);
        var e := Spend(energy, cfg.energyDecreaseJump);
        var result := Stabilized(t, e);
        if e <= 0 then Outcome([result, Inactive(playerId + 1)], e, true) else Outcome([result], e, false)
    case Pull =>
      if energy <= 0 then Outcome([Inactive(playerId + 1)], energy, false)
      else
        var t := EffortTime(cfg.energyDecreasePull, draw);
        var e := Spend(energy, cfg.energyDecreasePull);
        var result := Pulled(t, e);
        if e <= 0 then Outcome([result, Inactive(playerId + 1)], e, true) else Outcome([result], e, false)
  }

  /** A whole session: the commands a player reads, each with its `rand()`
      draw, until one stops it or the pipe is closed (end of the sequence). */
  function Session(cfg: GameSettings.Settings, playerId: int, energy: int, cmds: seq<(Command, nat)>): (o: Outcome)
    decreases |cmds|
  {
    if cmds == [] then Outcome([], energy, false)
    else
      var first := HandleCommand(cfg, playerId, energy, cmds[0].0, cmds[0].1);
      if first.stopped then first
      else
        var rest := Session(cfg, playerId, first.energy, cmds[1..]);
        Outcome(first.replies + rest.replies, rest.energy, rest.stopped)
  }

  /** The number of effort replies (STABILIZED or PULLED) among `rs`. */
  function Efforts(rs: seq<Reply>): nat
    decreases |rs|
  {
    if rs == [] then 0 else (if rs[0].Inactive? then 0 else 1) + Efforts(rs[1..])
  }

  lemma {:induction false} EffortsAppend(a: seq<Reply>, b: seq<Reply>)
    ensures Efforts(a + b) == Efforts(a) + Efforts(b)
    decreases |a|
  {
    if a == [] {
      assert a + b == b;
    } else {
      assert (a + b)[0] == a[0];
      assert (a + b)[1..] == a[1..] + b;
      EffortsAppend(a[1..], b);
    }
  }

  /** With positive energy decreases, a player starting with energy `e`
      performs at most `e` jumps and pulls in any session, its energy never
      goes up, and a session that stops leaves it at 0 with INACTIVE as its
      last reply. */
  lemma {:induction false} SessionBounded(cfg: GameSettings.Settings, playerId: int, energy: int, cmds: seq<(Command, nat)>)
    requires cfg.energyDecreaseJump >= 1 && cfg.energyDecreasePull >= 1
    ensures var o := Session(cfg, playerId, energy, cmds);
            && Efforts(o.replies) <= Max(0, energy)
            && o.energy <= Max(energy, 0) && (energy >= 0 ==> o.energy >= 0)
            && (o.stopped ==> o.energy == 0 && |o.replies| > 0 && o.replies[|o.replies| - 1] == Inactive(playerId + 1))
    decreases |cmds|
  {
    if cmds != [] {
      var first := HandleCommand(cfg, playerId, energy, cmds[0].0, cmds[0].1);
      assert Efforts(first.replies) <= 1 && (energy <= 0 ==> Efforts(first.replies) == 0) by {
        var rs := first.replies;
        if |rs| == 2 {
          assert rs[1].Inactive? && rs[1..][1..] == [];
          assert Efforts(rs[1..]) == 0;
        } else if |rs| == 1 {
          assert rs[1..] == [];
        }
      }
      if !first.stopped {
        SessionBounded(cfg, playerId, first.energy, cmds[1..]);
        var rest := Session(cfg, playerId, first.energy, cmds[1..]);
        EffortsAppend(first.replies, rest.replies);
        assert energy > 0 && !cmds[0].0.Other? ==> first.energy <= energy - 1;
      }
    }
  }

  /** Once a command stops the player, nothing after it is handled. */
  lemma StoppedIgnoresRest(cfg: GameSettings.Settings, playerId: int, energy: int,
                           cmds: seq<(Command, nat)>, more: seq<(Command, nat)>)
    requires cmds != []
    requires HandleCommand(cfg, playerId, energy, cmds[0].0, cmds[0].1).stopped
    ensures Session(cfg, playerId, energy, cmds + more) == Session(cfg, playerId, energy, cmds)
  {
    assert (cmds + more)[0] == cmds[0];
  }

  datatype Player = Player(teamId: int, playerId: int, energy: int, pid: int)
  datatype Team = Team(teamId: int, players: seq<Player>, score: int)

  /** `initialize_game` (main.c:71-82): every team numbered by its index with
      score 0, and every player numbered by team and index, with the initial
      energy and no process yet (`pid = -1`). */
  method InitializeGame(initialEnergy: int) returns (teams: seq<Team>)
    ensures |teams| == NUM_TEAMS
    ensures forall i :: 0 <= i < NUM_TEAMS ==>
              teams[i].teamId == i && teams[i].score == 0 && |teams[i].players| == NUM_PLAYERS
    ensures forall i, j :: 0 <= i < NUM_TEAMS && 0 <= j < NUM_PLAYERS ==>
              teams[i].players[j] == Player(i, j, initialEnergy, -1)
  {
    teams := [];
    var i := 0;
    while i < NUM_TEAMS
      invariant 0 <= i <= NUM_TEAMS && |teams| == i
      invariant forall a :: 0 <= a < i ==>
                  teams[a].teamId == a && teams[a].score == 0 && |teams[a].players| == NUM_PLAYERS
      invariant forall a, b :: 0 <= a < i && 0 <= b < NUM_PLAYERS ==>
                  teams[a].players[b] == Player(a, b, initialEnergy, -1)
    {
      var players := [];
      var j := 0;
      while j < NUM_PLAYERS
        invariant 0 <= j <= NUM_PLAYERS && |players| == j
        invariant forall b :: 0 <= b < j ==> players[b] == Player(i, b, initialEnergy, -1)
      {
        players := players + [Player(i, j, initialEnergy, -1)];
        j := j + 1;
      }
      teams := teams + [Team(i, players, 0)];
      i := i + 1;
    }
  }
}
