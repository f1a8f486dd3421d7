/** Players and teams: the per-player record the AI works on. Coordinates,
    floating point in the game, are modelled as integers; speeds, which the
    Lua callbacks clamp, as reals. */
module Players {
  import opened Wrappers
  import opened Catalog

  const PlayersPerTeam: nat := 7

  datatype Vec3 = Vec3(x: int, y: int, z: int)

  const Origin: Vec3 := Vec3(0, 0, 0)

  datatype AnimationChoice = RunningAnimation | StandingAnimation | JumpingAnimation

  datatype Direction =
    | AnimateAway | AnimateAwayRight | AnimateRight | AnimateRightTowards
    | AnimateTowards | AnimateLeftTowards | AnimateLeft | AnimateAwayLeft

  /** Which of the match's two automaton sets an automaton belongs to. */
  datatype Side = Offensive | Defensive

  /** A player's automaton: its set and its index there. */
  datatype AutRef = AutRef(side: Side, idx: nat)

  /** `queue` is the player's event queue, oldest event first; `state` refers
      into the automaton set named by `automaton`. */
  datatype Player = Player(
    playerId: nat, teamId: nat,
    position: Vec3, newPosition: Vec3, velocity: Vec3, desiredPosition: Vec3,
    maxSpeed: real, speedPercent: real,
    animation: AnimationChoice, currFrame: int, direction: Direction,
    queue: seq<Event>, automaton: Option<AutRef>, state: Option<Ref>,
    hasDisc: bool, isAiManaged: bool, markedPlayer: int)

  datatype Team = Team(players: seq<Player>, isOffense: bool, attackingLeftToRight: bool)

  /** create_player: given ids, no automaton yet, an empty event queue, all
      vectors zero, standing still facing away, full speed, and under AI
      control. `has_disc` is never written, so its value is given. */
  function CreatePlayer(id: nat, team: nat, hasDisc: bool): (p: Player)
    ensures p.playerId == id && p.teamId == team && p.hasDisc == hasDisc
    ensures p.automaton.None? && p.state.None? && p.queue == []
    ensures p.position == p.newPosition == p.velocity == p.desiredPosition == Origin
    ensures p.animation == StandingAnimation && p.currFrame == 0 && p.direction == AnimateAway
    ensures p.maxSpeed == 10.0 && p.speedPercent == 100.0 && p.isAiManaged
  {
    Player(id, team, Origin, Origin, Origin, Origin, 10.0, 100.0,
           StandingAnimation, 0, AnimateAway, [], None, None, hasDisc, true, 0)
  }

  /** complete_player_coords_update: accept the proposed position. */
  function CompleteCoords(p: Player): (r: Player)
    ensures r.position == p.newPosition && r == p.(position := p.newPosition)
  {
    p.(position := p.newPosition)
  }

  /** revert_player_coords_update: discard the proposed position. */
  function RevertCoords(p: Player): (r: Player)
    ensures r.newPosition == p.position && r == p.(newPosition := p.position)
  {
    p.(newPosition := p.position)
  }

  /** Both updates leave the two positions equal, so applying either after
      the other changes nothing. */
  lemma CoordsUpdatesSettle(p: Player)
    ensures CompleteCoords(p).position == CompleteCoords(p).newPosition
    ensures RevertCoords(p).position == RevertCoords(p).newPosition
    ensures RevertCoords(CompleteCoords(p)) == CompleteCoords(p)
    ensures CompleteCoords(RevertCoords(p)) == RevertCoords(p)
  {
  }

  /** can_catch_disc: not implemented in the game; no player can catch. */
  function CanCatchDisc(p: Player): (r: bool)
    ensures !r
  {
    false
  }

  /** Two teams, each holding at least `ppt` players. */
  predicate TeamsOk(teams: seq<Team>, ppt: nat) {
    |teams| == 2 && ppt <= |teams[0].players| && ppt <= |teams[1].players|
  }

  /** The teams with player `i` of team `j` replaced by `p`. */
  function SetPlayer(teams: seq<Team>, j: nat, i: nat, p: Player): (r: seq<Team>)
    requires j < |teams| && i < |teams[j].players|
    ensures |r| == |teams|
    ensures forall k :: 0 <= k < |r| ==>
              |r[k].players| == |teams[k].players|
              && r[k].isOffense == teams[k].isOffense
              && r[k].attackingLeftToRight == teams[k].attackingLeftToRight
    ensures forall k, m :: 0 <= k < |r| && 0 <= m < |r[k].players| ==>
              r[k].players[m] == (if k == j && m == i then p else teams[k].players[m])
  {
    teams[j := teams[j].(players := teams[j].players[i := p])]
  }
}
