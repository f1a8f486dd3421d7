/** How game events reach the players' queues: to one player, or to every
    player of both teams, either directly or by event name. */
module Routing {
  import opened Wrappers
  import opened Catalog
  import opened Players

  /** The player with `e` appended to its event queue. */
  function Enqueue(p: Player, e: Event): (r: Player)
    ensures |r.queue| == |p.queue| + 1 && r.queue[..|p.queue|] == p.queue && r.queue[|p.queue|] == e
    ensures r.(queue := p.queue) == p
  {
    p.(queue := p.queue + [e])
  }

  /** throw_single_player_ai_event: exactly one event is appended to exactly
      one player's queue. */
  function ThrowSingle(teams: seq<Team>, j: nat, i: nat, e: Event): (r: seq<Team>)
    requires j < |teams| && i < |teams[j].players|
    ensures |r| == |teams|
    ensures forall k :: 0 <= k < |r| ==>
              |r[k].players| == |teams[k].players|
              && r[k].isOffense == teams[k].isOffense
              && r[k].attackingLeftToRight == teams[k].attackingLeftToRight
    ensures r[j].players[i] == teams[j].players[i].(queue := teams[j].players[i].queue + [e])
    ensures forall k, m :: 0 <= k < |r| && 0 <= m < |r[k].players| && (k, m) != (j, i) ==>
              r[k].players[m] == teams[k].players[m]
  {
    SetPlayer(teams, j, i, Enqueue(teams[j].players[i], e))
  }

  /** throw_single_player_ai_event_by_name: the name is looked up in the given
      automaton; an unknown name changes nothing. */
  function ThrowSingleByName(teams: seq<Team>, j: nat, i: nat, a: Automaton, name: string): (r: seq<Team>)
    requires j < |teams| && i < |teams[j].players|
    ensures FindEvent(a, name).None? ==> r == teams
    ensures FindEvent(a, name).Some? ==>
              r == ThrowSingle(teams, j, i, a.events[FindEvent(a, name).value])
  {
    match FindEvent(a, name)
    case None => teams
    case Some(k) => ThrowSingle(teams, j, i, a.events[k])
  }

  /** The loop of throw_multi_player_ai_event from player index `ii` on: for
      each index, the player of team 0 and then the player of team 1 get the
      event. */
  function MultiLoop(teams: seq<Team>, ppt: nat, e: Event, ii: nat): (r: seq<Team>)
    requires TeamsOk(teams, ppt)
    ensures TeamsOk(r, ppt)
    ensures forall k :: 0 <= k < 2 ==>
              |r[k].players| == |teams[k].players|
              && r[k].isOffense == teams[k].isOffense
              && r[k].attackingLeftToRight == teams[k].attackingLeftToRight
    ensures forall k, m :: 0 <= k < 2 && 0 <= m < |r[k].players| ==>
              r[k].players[m] == (if ii <= m < ppt then Enqueue(teams[k].players[m], e)
                                  else teams[k].players[m])
    decreases ppt - ii
  {
    if ii >= ppt then teams
    else
      var t0 := SetPlayer(teams, 0, ii, Enqueue(teams[0].players[ii], e));
      var t1 := SetPlayer(t0, 1, ii, Enqueue(t0[1].players[ii], e));
      MultiLoop(t1, ppt, e, ii + 1)
  }

  /** throw_multi_player_ai_event: each of the 2 * ppt players' queues gets
      exactly one copy of the event; nothing else changes. */
  function ThrowMulti(teams: seq<Team>, ppt: nat, e: Event): (r: seq<Team>)
    requires TeamsOk(teams, ppt)
    ensures TeamsOk(r, ppt)
    ensures forall k :: 0 <= k < 2 ==>
              |r[k].players| == |teams[k].players|
              && r[k].isOffense == teams[k].isOffense
              && r[k].attackingLeftToRight == teams[k].attackingLeftToRight
    ensures forall k, m :: 0 <= k < 2 && 0 <= m < ppt ==>
              r[k].players[m] == teams[k].players[m].(queue := teams[k].players[m].queue + [e])
    ensures forall k, m :: 0 <= k < 2 && ppt <= m < |r[k].players| ==>
              r[k].players[m] == teams[k].players[m]
  {
    MultiLoop(teams, ppt, e, 0)
  }

  /** throw_multi_player_ai_event_by_name: the event is resolved once, in the
      given automaton, not per player; an unknown name reaches nobody. */
  function ThrowMultiByName(teams: seq<Team>, ppt: nat, a: Automaton, name: string): (r: seq<Team>)
    requires TeamsOk(teams, ppt)
    ensures FindEvent(a, name).None? ==> r == teams
    ensures FindEvent(a, name).Some? ==>
              r == ThrowMulti(teams, ppt, a.events[FindEvent(a, name).value])
  {
    match FindEvent(a, name)
    case None => teams
    case Some(k) => ThrowMulti(teams, ppt, a.events[k])
  }
}
