/** The referee's per-frame logic of the rope-pulling game (`updateGameLogic`,
    Project_One/opengl_renderer.c:322-476), taken apart from pipes, physics
    and drawing. The three `static` locals and the per-player jump trackers,
    scores and displayed energies form the state; the clock readings, the
    `rand()` draw and the replies read from the players are the inputs of
    one call. A reply is `None` when nothing usable was read (end of file, a
    read error, or fewer than two scanned tokens). */
module Referee {
  import opened CLib
  import GameSettings
  import opened PlayerProcess

  /** A command written to player `player` of team `team`. */
  datatype Order = Order(cmd: Command, team: int, player: int)

  /** One team as the referee sees it: its score, and per player the
      `has_jumped` tracker and the energy the display shows
      (`visualTeams[t][p].energy`). */
  datatype TeamView = TeamView(score: int, hasJumped: seq<bool>, shownEnergy: seq<int>)

  datatype State = State(
    /** `start_time`, with 0.0 meaning "not yet taken". */
    startTime: real,
    /** `current_player_index`: whose turn it is to jump in every team. */
    index: int,
    /** `last_command_time`, elapsed seconds; 0.0 means "never". */
    lastCommandTime: real,
    teams: seq<TeamView>,
    gameOver: bool)

  predicate ViewWf(v: TeamView)
  {
    |v.hasJumped| == NUM_PLAYERS && |v.shownEnergy| == NUM_PLAYERS
  }

  predicate Wf(r: State)
  {
    |r.teams| == NUM_TEAMS && (forall t :: 0 <= t < NUM_TEAMS ==> ViewWf(r.teams[t]))
    && 0 <= r.index < NUM_PLAYERS
  }

  /** The state before the first call: statics and trackers zeroed, scores 0. */
  function Initial(initialEnergy: int): (r: State)
    ensures Wf(r) && !r.gameOver && r.index == 0
    ensures forall t :: 0 <= t < NUM_TEAMS ==> r.teams[t].score == 0
    ensures forall t, p :: 0 <= t < NUM_TEAMS && 0 <= p < NUM_PLAYERS ==>
              !r.teams[t].hasJumped[p] && r.teams[t].shownEnergy[p] == initialEnergy
  {
    var v := TeamView(0, seq(NUM_PLAYERS, p => false), seq(NUM_PLAYERS, p => initialEnergy));
    State(0.0, 0, 0.0, seq(NUM_TEAMS, t => v), false)
  }

  /** What one call reads about one team: `measured` is the jumper's
      stabilization time (the clock when its reply is read less the clock
      when its JUMP was sent), then the jumper's reply and every player's
      reply to PULL (the jumper's entry is not read). */
  datatype TeamInputs = TeamInputs(measured: real, jumpReply: Option<Reply>, pullReplies: seq<Option<Reply>>)

  /** What one call reads from outside: `startClock` is the
      `get_current_time()` that becomes `start_time` on the first call
      (opengl_renderer.c:328, unused later), `clock` the reading the
      elapsed time is taken from (:331), and `draw` the `rand()` behind the
      preparation delay. */
  datatype Inputs = Inputs(startClock: real, clock: real, draw: nat, teams: seq<TeamInputs>)

  predicate InputsWf(i: Inputs)
  {
    |i.teams| == NUM_TEAMS && forall t :: 0 <= t < NUM_TEAMS ==> |i.teams[t].pullReplies| == NUM_PLAYERS
  }

  /** The score for a jump stabilized in `m` seconds: `(int)(100.0 / m)`,
      raised to 1 when that is smaller. */
  function ScoreIncrement(m: real): (inc: int)
    requires m > 0.0
    ensures inc >= 1
    ensures inc == 1 || (inc as real <= 100.0 / m < (inc + 1) as real)
    ensures 100.0 / m >= 1.0 ==> inc as real <= 100.0 / m < (inc + 1) as real
  {
    var k := (100.0 / m).Floor;
    if k < 1 then 1 else k
  }

  /** A quicker stabilization never scores less. */
  lemma QuickerScoresMore(m1: real, m2: real)
    requires 0.0 < m1 <= m2
    ensures ScoreIncrement(m1) >= ScoreIncrement(m2)
  {
    var a := 100.0 / m2;
    var q := m2 / m1;
    assert q >= 1.0;
    assert 100.0 / m1 == a * q;
    assert a * q >= a;
  }

  /** One jump reply against the jumper's tracker and display
      (opengl_renderer.c:386-409): `(score, hasJumped, shownEnergy)` after it. */
  function JudgeJump(score: int, jumped: bool, shown: int, reply: Option<Reply>, m: real): (r: (int, bool, int))
    ensures r.0 >= score
    ensures r.0 > score ==> jumped && reply.Some? && reply.value.Stabilized? && m > 0.0
    ensures jumped && reply.Some? && reply.value.Stabilized? && m > 0.0 ==> r.0 == score + ScoreIncrement(m)
    ensures reply.Some? && reply.value.Stabilized? ==> !r.1 && r.2 == reply.value.energy
    ensures !(reply.Some? && reply.value.Stabilized?) ==> r.0 == score && r.1 == jumped
    ensures reply.Some? && reply.value.Inactive? ==> r.2 == 0
    ensures (reply.None? || reply.value.Pulled?) ==> r.2 == shown
  {
    match reply
    case None => (score, jumped, shown)
    case Some(Stabilized(_, e)) =>
      if jumped then
        (if m > 0.0 then score + ScoreIncrement(m) else score, false, e)
      else
        (score, jumped, e)
    case Some(Inactive(_)) => (score, jumped, 0)
    case Some(Pulled(_, _)) => (score, jumped, shown)
  }

  /** A jump is scored at most once: once its STABILIZED reply has been
      judged, a further reply judged against the same tracker adds nothing. */
  lemma JumpScoredOnce(score: int, jumped: bool, shown: int, first: Reply, m: real,
                       second: Option<Reply>, m': real)
    requires first.Stabilized?
    ensures var r := JudgeJump(score, jumped, shown, Some(first), m);
            JudgeJump(r.0, r.1, r.2, second, m').0 == r.0
  {
  }

  /** One pull reply against a puller's display (opengl_renderer.c:449-458). */
  function PullShown(shown: int, reply: Option<Reply>): (e: int)
    ensures reply.Some? && reply.value.Pulled? ==> e == reply.value.energy
    ensures reply.Some? && reply.value.Inactive? ==> e == 0
    ensures (reply.None? || reply.value.Stabilized?) ==> e == shown
  {
    match reply
    case Some(Pulled(_, e)) => e
    case Some(Inactive(_)) => 0
    case _ => shown
  }

  /** The PULL orders of the loop at opengl_renderer.c:424-435 from team `t`,
      player `j` on: every player but the jumper `k`, team by team. */
  function PullOrders(k: int, t: nat, j: nat): (os: seq<Order>)
    ensures forall o :: o in os <==>
              && o.cmd == Pull && o.player != k
              && ((o.team == t < NUM_TEAMS && j <= o.player < NUM_PLAYERS)
                  || (t < o.team < NUM_TEAMS && 0 <= o.player < NUM_PLAYERS))
    decreases NUM_TEAMS - t, NUM_PLAYERS - j
  {
    if t >= NUM_TEAMS then []
    else if j >= NUM_PLAYERS then PullOrders(k, t + 1, 0)
    else (if j != k then [Order(Pull, t, j)] else []) + PullOrders(k, t, j + 1)
  }

  /** The JUMP orders of the loop at opengl_renderer.c:357-373 from team
      `t` on: player `k` of each team. */
  function JumpOrders(k: int, t: nat): (os: seq<Order>)
    ensures forall o :: o in os <==> o.cmd == Jump && o.player == k && t <= o.team < NUM_TEAMS
    decreases NUM_TEAMS - t
  {
    if t >= NUM_TEAMS then [] else [Order(Jump, t, k)] + JumpOrders(k, t + 1)
  }

  lemma RoundMember(k: int, o: Order)
    requires 0 <= k < NUM_PLAYERS
    ensures o in JumpOrders(k, 0) + PullOrders(k, 0, 0) <==>
              && 0 <= o.team < NUM_TEAMS && 0 <= o.player < NUM_PLAYERS
              && ((o.cmd == Jump && o.player == k) || (o.cmd == Pull && o.player != k))
  {
    var jumps, pulls := JumpOrders(k, 0), PullOrders(k, 0, 0);
    assert o in jumps + pulls <==> o in jumps || o in pulls;
  }

  /** The commands of a round with jumper `k`: JUMP to player `k` of every
      team, then PULL to every other player of every team, and nothing else. */
  function RoundOrders(k: int): (os: seq<Order>)
    requires 0 <= k < NUM_PLAYERS
    ensures forall o :: o in os <==>
              && 0 <= o.team < NUM_TEAMS && 0 <= o.player < NUM_PLAYERS
              && ((o.cmd == Jump && o.player == k) || (o.cmd == Pull && o.player != k))
    ensures Order(Jump, 0, k) in os
  {
    var os := JumpOrders(k, 0) + PullOrders(k, 0, 0);
    forall o
      ensures o in os <==>
                && 0 <= o.team < NUM_TEAMS && 0 <= o.player < NUM_PLAYERS
                && ((o.cmd == Jump && o.player == k) || (o.cmd == Pull && o.player != k))
    {
      RoundMember(k, o);
    }
    os
  }

  /** Whether a new command round is due (opengl_renderer.c:353). */
  predicate CommandDue(elapsed: real, last: real, prepDelay: int, draw: nat)
  {
    elapsed - last >= (prepDelay + (CRem(draw, 3) + 1)) as real || last == 0.0
  }

  /** Some team has reached the winning score (opengl_renderer.c:340-347). */
  predicate ScoreReached(teams: seq<TeamView>, maxScore: int)
  {
    exists t :: 0 <= t < |teams| && teams[t].score >= maxScore
  }

  /** One team in a command round with jumper `k`: the JUMP sets the
      jumper's tracker, its reply is judged, and every other player's reply
      to PULL updates that player's display. */
  function TeamRound(v: TeamView, k: int, ti: TeamInputs): (w: TeamView)
    requires ViewWf(v) && |ti.pullReplies| == NUM_PLAYERS && 0 <= k < NUM_PLAYERS
    ensures ViewWf(w)
    ensures var stabilized := ti.jumpReply.Some? && ti.jumpReply.value.Stabilized?;
            && w.score == v.score + (if stabilized && ti.measured > 0.0 then ScoreIncrement(ti.measured) else 0)
            && w.hasJumped[k] == !stabilized
            && (stabilized ==> w.shownEnergy[k] == ti.jumpReply.value.energy)
            && (ti.jumpReply.Some? && ti.jumpReply.value.Inactive? ==> w.shownEnergy[k] == 0)
            && (ti.jumpReply.None? || ti.jumpReply.value.Pulled? ==> w.shownEnergy[k] == v.shownEnergy[k])
    ensures forall p :: 0 <= p < NUM_PLAYERS && p != k ==>
              && w.hasJumped[p] == v.hasJumped[p]
              && w.shownEnergy[p] == PullShown(v.shownEnergy[p], ti.pullReplies[p])
  {
    var judged := JudgeJump(v.score, true, v.shownEnergy[k], ti.jumpReply, ti.measured);
    TeamView(
      judged.0,
      v.hasJumped[k := judged.1],
      seq(NUM_PLAYERS, p requires 0 <= p < NUM_PLAYERS =>
        if p == k then judged.2 else PullShown(v.shownEnergy[p], ti.pullReplies[p])))
  }

  /** One command round with every team's view. */
  function CommandRound(r: State, i: Inputs, elapsed: real): (s: State)
    requires Wf(r) && InputsWf(i)
    ensures Wf(s)
    ensures s == r.(index := (r.index + 1) % NUM_PLAYERS, lastCommandTime := elapsed, teams := s.teams)
    ensures forall t :: 0 <= t < NUM_TEAMS ==> s.teams[t] == TeamRound(r.teams[t], r.index, i.teams[t])
  {
    var teams := seq(NUM_TEAMS, t requires 0 <= t < NUM_TEAMS => TeamRound(r.teams[t], r.index, i.teams[t]));
    r.(index := (r.index + 1) % NUM_PLAYERS, lastCommandTime := elapsed, teams := teams)
  }

  datatype Step = Step(state: State, sent: seq<Order>)

  /** `start_time` once the call has passed opengl_renderer.c:327-329. */
  function StartTime(r: State, i: Inputs): real
  {
    if r.startTime == 0.0 then i.startClock else r.startTime
  }

  /** `elapsed_time` (opengl_renderer.c:331). */
  function Elapsed(r: State, i: Inputs): real
  {
    i.clock - StartTime(r, i)
  }

  /** `updateGameLogic`. The game ends, with nothing sent, once `MAX_TIME`
      seconds have elapsed or a team has reached `MAX_SCORE`. Otherwise a
      command round runs when due: the jumper of every team gets JUMP and
      everybody else PULL, and the turn passes to the next player; when no
      round is due nothing happens. Team scores never go down. */
  function UpdateGameLogic(r: State, cfg: GameSettings.Settings, i: Inputs): (o: Step)
    requires Wf(r) && InputsWf(i)
    ensures Wf(o.state) && o.state.startTime == StartTime(r, i)
    ensures Elapsed(r, i) >= cfg.maxTime as real || ScoreReached(r.teams, cfg.maxScore) ==>
              o.state == r.(startTime := StartTime(r, i), gameOver := true) && o.sent == []
    ensures Elapsed(r, i) < cfg.maxTime as real && !ScoreReached(r.teams, cfg.maxScore)
            && !CommandDue(Elapsed(r, i), r.lastCommandTime, cfg.jumpPrepDelay, i.draw) ==>
              o.state == r.(startTime := StartTime(r, i)) && o.sent == []
    ensures Elapsed(r, i) < cfg.maxTime as real && !ScoreReached(r.teams, cfg.maxScore)
            && CommandDue(Elapsed(r, i), r.lastCommandTime, cfg.jumpPrepDelay, i.draw) ==>
              && o.state.gameOver == r.gameOver
              && o.state.index == (r.index + 1) % NUM_PLAYERS
              && o.state.lastCommandTime == Elapsed(r, i)
              && o.sent == RoundOrders(r.index)
              && forall t :: 0 <= t < NUM_TEAMS ==> o.state.teams[t] == TeamRound(r.teams[t], r.index, i.teams[t])
    ensures forall t :: 0 <= t < NUM_TEAMS ==> o.state.teams[t].score >= r.teams[t].score
  {
    var r0 := r.(startTime := StartTime(r, i));
    var elapsed := Elapsed(r, i);
    if elapsed >= cfg.maxTime as real then
      Step(r0.(gameOver := true), [])
    else if ScoreReached(r.teams, cfg.maxScore) then
      Step(r0.(gameOver := true), [])
    else if CommandDue(elapsed, r.lastCommandTime, cfg.jumpPrepDelay, i.draw) then
      Step(CommandRound(r0, i, elapsed), RoundOrders(r.index))
    else
      Step(r0, [])
  }

  /** A call passes the turn on exactly when it sends commands. */
  lemma StepTurn(r: State, cfg: GameSettings.Settings, i: Inputs)
    requires Wf(r) && InputsWf(i)
    ensures var o := UpdateGameLogic(r, cfg, i);
            o.state.index == (r.index + (if o.sent == [] then 0 else 1)) % NUM_PLAYERS
  {
    var o := UpdateGameLogic(r, cfg, i);
    var elapsed := Elapsed(r, i);
    assert r.index % NUM_PLAYERS == r.index;
    if elapsed < cfg.maxTime as real && !ScoreReached(r.teams, cfg.maxScore)
       && CommandDue(elapsed, r.lastCommandTime, cfg.jumpPrepDelay, i.draw) {
      assert Order(Jump, 0, r.index) in o.sent;
    }
  }

  /** The first call of a game sends the first round, whatever the
      preparation delay and the draw, and records as the time of that
      round the gap between the two clock readings it takes. */
  lemma FirstRound(initialEnergy: int, cfg: GameSettings.Settings, i: Inputs)
    requires InputsWf(i) && cfg.maxScore > 0
    requires i.clock - i.startClock < cfg.maxTime as real
    ensures var o := UpdateGameLogic(Initial(initialEnergy), cfg, i);
            o.sent == RoundOrders(0) && o.state.lastCommandTime == i.clock - i.startClock
  {
    var r := Initial(initialEnergy);
    assert !ScoreReached(r.teams, cfg.maxScore) by {
      forall t | 0 <= t < |r.teams|
        ensures r.teams[t].score < cfg.maxScore
      {
        assert r.teams[t].score == 0;
      }
    }
  }

  /** What one tick of the 16 ms `timer` callback does
      (opengl_renderer.c:290-301): a game already over is cleaned up and
      the program exits; otherwise `updateGameLogic` runs. */
  datatype Tick = Exit | Continue(step: Step)

  function Timer(r: State, cfg: GameSettings.Settings, i: Inputs): (t: Tick)
    requires Wf(r) && InputsWf(i)
    ensures t.Exit? <==> r.gameOver
    ensures t.Continue? ==> Wf(t.step.state) && t.step.state.startTime == StartTime(r, i)
  {
    if r.gameOver then Exit else Continue(UpdateGameLogic(r, cfg, i))
  }

  /** The call that ends the game sends nothing, and it is the last one:
      the next tick exits without calling `updateGameLogic` again. A call
      that does not end the game leaves the next tick running. */
  lemma GameEndsAtNextTick(r: State, cfg: GameSettings.Settings, i: Inputs, next: Inputs)
    requires Wf(r) && InputsWf(i) && InputsWf(next) && Timer(r, cfg, i).Continue?
    ensures var o := Timer(r, cfg, i).step;
            && (o.state.gameOver ==> o.sent == [] && Timer(o.state, cfg, next).Exit?)
            && (!o.state.gameOver ==> Timer(o.state, cfg, next).Continue?)
  {
    var o := UpdateGameLogic(r, cfg, i);
    assert !r.gameOver;
    if o.state.gameOver {
      assert Elapsed(r, i) >= cfg.maxTime as real || ScoreReached(r.teams, cfg.maxScore);
    }
  }
}
