/** The match events the game code raises outside the AI: a catch, the disc
    landing, and a turnover. */
module GameFunctions {
  import opened Wrappers
  import opened Catalog
  import opened Factories
  import opened Players
  import opened Routing
  import opened PlayerAi
  import Engine
  import opened Handler
  import opened MatchState
  import LuaCallbacks

  datatype DiscState = InAir | WithPlayer | OnGround | OutOfBounds

  /** Player `player` of team `team`. */
  datatype PlayerRef = PlayerRef(team: nat, player: nat)

  /** The disc's state and the players it was last thrown by and is held by. */
  datatype Disc = Disc(state: DiscState, thrower: Option<PlayerRef>, holder: Option<PlayerRef>)

  /** catch_disc: the catcher stops in the plane (its vertical velocity is
      kept), holds the disc and leaves AI control; the disc is with that
      player. Nothing else of either changes. */
  function CatchDisc(p: Player, who: PlayerRef, d: Disc): (r: (Player, Disc))
    ensures r.0.velocity == Vec3(0, 0, p.velocity.z)
    ensures r.0.hasDisc && !r.0.isAiManaged
    ensures r.0.(velocity := p.velocity, hasDisc := p.hasDisc, isAiManaged := p.isAiManaged) == p
    ensures r.1.state == WithPlayer && r.1.holder == Some(who) && r.1.thrower == d.thrower
  {
    (p.(velocity := p.velocity.(x := 0, y := 0), hasDisc := true, isAiManaged := false),
     d.(state := WithPlayer, holder := Some(who)))
  }

  /** Catching twice is catching once. */
  lemma CatchDiscIdempotent(p: Player, who: PlayerRef, d: Disc)
    ensures var (q, e) := CatchDisc(p, who, d); CatchDisc(q, who, e) == (q, e)
  {
  }

  /** The catcher, now under the user's control, is skipped by the AI tick:
      a match that was ready stays ready, and the tick leaves the catcher
      exactly as the catch left it. */
  lemma CatcherSkippedByTick(sets: Sets, oracle: Engine.Oracle, n: nat, teams: seq<Team>, ppt: nat,
                             g: LuaCallbacks.Globals, dt: nat, j: nat, i: nat, d: Disc)
    requires AllReady(sets, n, teams, ppt) && j < 2 && i < |teams[j].players|
    ensures var caught := SetPlayer(teams, j, i, CatchDisc(teams[j].players[i], PlayerRef(j, i), d).0);
      && AllReady(sets, n, caught, ppt)
      && ProcessAll(sets, oracle, n, caught, ppt, g, dt).teams[j].players[i] == caught[j].players[i]
  {
    var caught := SetPlayer(teams, j, i, CatchDisc(teams[j].players[i], PlayerRef(j, i), d).0);
    assert AllReady(sets, n, caught, ppt);
    ProcessAllDrainsQueues(sets, oracle, n, caught, ppt, g, dt, j, i);
  }

  /** disc_lands: the disc is on the ground and DISC_HIT_FLOOR, looked up in
      the offensive set's start automaton, is thrown to every player. */
  function DiscLands(m: Match, d: Disc): (r: (seq<Team>, Disc))
    requires TeamsOk(m.teams, m.playersPerTeam) && HasStart(m.handler.offensive)
    ensures r.1 == d.(state := OnGround)
    ensures TeamsOk(r.0, m.playersPerTeam)
    ensures var a := m.handler.offensive.automatons[m.handler.offensive.start.value];
      FindEvent(a, EventDiscHitFloor).None? ==> r.0 == m.teams
  {
    var a := m.handler.offensive.automatons[m.handler.offensive.start.value];
    (ThrowMultiByName(m.teams, m.playersPerTeam, a, EventDiscHitFloor), d.(state := OnGround))
  }

  /** With the game's event catalog, every player of both teams among the
      first `playersPerTeam` is told the disc hit the floor (event 5), once,
      after whatever it already had queued; no one else is told. */
  lemma DiscLandsNotifiesAll(m: Match, d: Disc, j: nat, i: nat)
    requires TeamsOk(m.teams, m.playersPerTeam) && HasStart(m.handler.offensive)
    requires m.handler.offensive.automatons[m.handler.offensive.start.value].events == CreateAutomatonEvents()
    requires j < 2 && i < |m.teams[j].players|
    ensures var r := DiscLands(m, d).0;
      r[j].players[i].queue ==
        if i < m.playersPerTeam then m.teams[j].players[i].queue + [Event(5, EventDiscHitFloor)]
        else m.teams[j].players[i].queue
  {
    var a := m.handler.offensive.automatons[m.handler.offensive.start.value];
    EventNamesDistinct(a, 5);
    assert FindEvent(a, EventDiscHitFloor) == Some(5);
    assert a.events[5] == Event(5, EventDiscHitFloor);
  }

  /** turnover: the two teams swap offence and defence; the players, and the
      automatons they are in, are left as they were. */
  function Turnover(teams: seq<Team>): (r: seq<Team>)
    requires |teams| == 2
    ensures |r| == 2
    ensures forall j :: 0 <= j < 2 ==>
              r[j].isOffense != teams[j].isOffense && r[j].(isOffense := teams[j].isOffense) == teams[j]
  {
    [teams[0].(isOffense := !teams[0].isOffense), teams[1].(isOffense := !teams[1].isOffense)]
  }

  /** Two turnovers restore the teams. */
  lemma TurnoverTwice(teams: seq<Team>)
    requires |teams| == 2
    ensures Turnover(Turnover(teams)) == teams
  {
    var r := Turnover(teams);
    var rr := Turnover(r);
    assert rr[0] == teams[0] && rr[1] == teams[1];
  }
}
