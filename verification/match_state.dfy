/** The AI side of a match: the automaton handler, the two teams and the
    players in them, and how a new match places every player in the start
    state of its team's start automaton. */
module MatchState {
  import opened Wrappers
  import opened Catalog
  import opened Factories
  import opened XmlLoader
  import opened Handler
  import opened Players
  import opened PlayerAi
  import LuaCallbacks

  /** `playersPerTeam` players of each team take part. */
  datatype Match = Match(handler: AutomatonHandler, teams: seq<Team>, playersPerTeam: nat)

  /** The match's two sets as the tick driver sees them. */
  function SetsOf(h: AutomatonHandler): Sets {
    Sets(h.offensive.automatons, h.defensive.automatons)
  }

  /** A set new players can be placed in: it names a start automaton, and
      that automaton names a start state. */
  predicate HasStart(s: AutomatonSet) {
    && s.start.Some? && s.start.value < |s.automatons|
    && s.automatons[s.start.value].startState.Some?
  }

  function AutomatonSetOf(h: AutomatonHandler, side: Side): AutomatonSet {
    match side
    case Offensive => h.offensive
    case Defensive => h.defensive
  }

  /** The set team `j` starts in: team 0 takes the offensive set exactly when
      it is on offence, and team 1 takes the other one. */
  function StartSide(team0Offense: bool, j: nat): Side {
    if (j == 0) == team0Offense then Offensive else Defensive
  }

  /** create_team: the players are filled in by create_players; the two flags
      come from memory the constructor leaves uninitialised, so they are
      given. */
  function CreateTeam(isOffense: bool, attackingLeftToRight: bool): (r: Team)
    ensures |r.players| == 0
    ensures r.isOffense == isOffense && r.attackingLeftToRight == attackingLeftToRight
  {
    Team([], isOffense, attackingLeftToRight)
  }

  /** Player `i` of team `j`, placed in the start state of the start
      automaton of `side`'s set. */
  function StartPlayer(h: AutomatonHandler, side: Side, i: nat, j: nat, hasDisc: bool): Player
    requires HasStart(AutomatonSetOf(h, side))
  {
    var s := AutomatonSetOf(h, side);
    CreatePlayer(i, j, hasDisc).(automaton := Some(AutRef(side, s.start.value)),
                        state := Some(Ref(s.start.value, s.automatons[s.start.value].startState.value)))
  }

  /** create_players: `ppt` players per team, player `i` of team `j` created
      with ids `i` and `j` and placed in the start state of its team's start
      automaton; the teams' flags are untouched. `create_player` never writes
      `has_disc`, so the value left in player `i` of team `j` is
      `discs(j, i)`. */
  function CreatePlayers(teams: seq<Team>, ppt: nat, h: AutomatonHandler, discs: (nat, nat) -> bool): (r: seq<Team>)
    requires |teams| == 2
    requires HasStart(h.offensive) && HasStart(h.defensive)
    ensures TeamsOk(r, ppt)
    ensures forall j :: 0 <= j < 2 ==>
              && |r[j].players| == ppt
              && r[j].isOffense == teams[j].isOffense
              && r[j].attackingLeftToRight == teams[j].attackingLeftToRight
    ensures forall j, i :: 0 <= j < 2 && 0 <= i < ppt ==>
              var p := r[j].players[i];
              var side := StartSide(teams[0].isOffense, j);
              var s := AutomatonSetOf(h, side);
              && p.playerId == i && p.teamId == j
              && p.automaton == Some(AutRef(side, s.start.value))
              && p.state == Some(Ref(s.start.value, s.automatons[s.start.value].startState.value))
              && p.queue == [] && p.isAiManaged && p.hasDisc == discs(j, i)
              && (side == Offensive <==> (j == 0) == teams[0].isOffense)
  {
    var side0 := StartSide(teams[0].isOffense, 0);
    var side1 := StartSide(teams[0].isOffense, 1);
    var r := [teams[0].(players := seq(ppt, i requires 0 <= i < ppt => StartPlayer(h, side0, i, 0, discs(0, i)))),
              teams[1].(players := seq(ppt, i requires 0 <= i < ppt => StartPlayer(h, side1, i, 1, discs(1, i))))];
    assert forall j, i :: 0 <= j < 2 && 0 <= i < ppt ==> r[j].players[i].hasDisc == discs(j, i) by {
      forall j, i | 0 <= j < 2 && 0 <= i < ppt ensures r[j].players[i].hasDisc == discs(j, i) {
        if j == 0 { assert r[j].players[i] == StartPlayer(h, side0, i, 0, discs(0, i)); }
        else { assert r[j].players[i] == StartPlayer(h, side1, i, 1, discs(1, i)); }
      }
    }
    r
  }

  /** The two teams always start in different sets, whatever team 1's own
      flag says: team 1's set is decided by team 0's flag alone. */
  lemma TeamsStartApart(teams: seq<Team>, ppt: nat, h: AutomatonHandler, discs: (nat, nat) -> bool, i: nat)
    requires |teams| == 2 && i < ppt
    requires HasStart(h.offensive) && HasStart(h.defensive)
    ensures var r := CreatePlayers(teams, ppt, h, discs);
      r[0].players[i].automaton.value.side != r[1].players[i].automaton.value.side
    ensures var r := CreatePlayers(teams, ppt, h, discs);
      r[0].players[i].automaton.value.side == Offensive <==> teams[0].isOffense
  {
  }

  /** The fresh teams' flags, which the C leaves to whatever was in memory. */
  datatype TeamFlags = TeamFlags(isOffense: bool, attackingLeftToRight: bool)

  /** create_match_state, AI part: no handler means no match (the partly
      built match is torn down); otherwise two teams of PLAYERS_PER_TEAM
      players each are created from the handler's start automatons. A match
      built from factories that make runnable states is ready for the tick
      driver: every player sits in a valid state of a runnable set with an
      empty queue. `discs` gives each player's `has_disc`, which
      `create_player` leaves uninitialised. */
  function CreateMatchState(offDoc: Option<Element>, defDoc: Option<Element>, src: Sources,
                            g: LuaCallbacks.Globals, flags0: TeamFlags, flags1: TeamFlags,
                            discs: (nat, nat) -> bool)
    : (r: (Option<Match>, LuaCallbacks.Globals))
    requires CsvLoaderFits(src)
    ensures r.0.Some? <==> CreateAutomatonHandler(offDoc, defDoc, src, g).0.Some?
    ensures r.1 == CreateAutomatonHandler(offDoc, defDoc, src, g).1
    ensures r.0.None? ==> r.1.references <= g.references
    ensures r.0.Some? ==>
              && r.0.value.handler == CreateAutomatonHandler(offDoc, defDoc, src, g).0.value
              && r.0.value.playersPerTeam == PlayersPerTeam
              && TeamsOk(r.0.value.teams, PlayersPerTeam)
              && r.0.value.teams[0].isOffense == flags0.isOffense
              && r.0.value.teams[1].isOffense == flags1.isOffense
    ensures r.0.Some? && FactoryFits(src.events, src.states) && FactoryRunnable(src.events, src.states) ==>
              AllReady(SetsOf(r.0.value.handler), |src.events()|, r.0.value.teams, r.0.value.playersPerTeam)
  {
    var (h, g1) := CreateAutomatonHandler(offDoc, defDoc, src, g);
    match h
    case None => (None, g1)
    case Some(handler) =>
      var teams := [CreateTeam(flags0.isOffense, flags0.attackingLeftToRight),
                    CreateTeam(flags1.isOffense, flags1.attackingLeftToRight)];
      ReadyWhenRunnable(teams, handler, CreateAutomaton(src.events, src.states), discs);
      (Some(Match(handler, CreatePlayers(teams, PlayersPerTeam, handler, discs), PlayersPerTeam)), g1)
  }

  /** Every state the factories build has a slot for each of their events
      and a per-tick function. */
  predicate FactoryRunnable(events: () -> seq<Event>, states: nat -> seq<State>) {
    StatesRunnable(CreateAutomaton(events, states))
  }

  predicate StatesRunnable(f: Automaton) {
    forall s :: 0 <= s < |f.states| ==> |f.events| <= |f.states[s].slots| && f.states[s].stateFn.Some?
  }

  /** Loading keeps the factory's states apart from their bound slots, so a
      loaded set whose references are valid is as runnable as the factory. */
  lemma LoadedRunnable(f: Automaton, auts: seq<Automaton>)
    requires SetOk(auts) && StatesRunnable(f)
    requires forall k :: 0 <= k < |auts| ==> SameStates(f, auts[k])
    ensures Runnable(auts, |f.events|)
  {
    forall a, s | 0 <= a < |auts| && 0 <= s < |auts[a].states|
      ensures |f.events| <= |auts[a].states[s].slots| && auts[a].states[s].stateFn.Some?
    {
      assert SameStates(f, auts[a]);
      assert auts[a].states[s] == f.states[s].(slots := auts[a].states[s].slots);
    }
  }

  /** Players placed by create_players in runnable sets are ready for the
      tick driver. */
  lemma StartPlayersReady(teams: seq<Team>, ppt: nat, h: AutomatonHandler, discs: (nat, nat) -> bool, n: nat)
    requires |teams| == 2
    requires HasStart(h.offensive) && HasStart(h.defensive)
    requires Runnable(h.offensive.automatons, n) && Runnable(h.defensive.automatons, n)
    ensures AllReady(SetsOf(h), n, CreatePlayers(teams, ppt, h, discs), ppt)
  {
    var r := CreatePlayers(teams, ppt, h, discs);
    var sets := SetsOf(h);
    forall j, i | 0 <= j < 2 && 0 <= i < ppt && r[j].players[i].isAiManaged
      ensures PlayerReady(sets, n, r[j].players[i])
    {
      var side := StartSide(teams[0].isOffense, j);
      var s := AutomatonSetOf(h, side);
      assert SetOf(sets, side) == s.automatons;
      assert AutomatonOk(s.automatons, s.automatons[s.start.value]);
    }
  }

  /** A loaded set has a start state. */
  lemma LoadedHasStart(s: AutomatonSet, f: Automaton)
    requires LoadedFrom(s, f)
    ensures HasStart(s)
  {
    assert Ready(s.automatons[s.start.value]);
  }

  /** Players placed in the sets of a created handler are ready once the
      factory automaton `f` is runnable and the sets hold valid references. */
  lemma ReadyWhenRunnable(teams: seq<Team>, h: AutomatonHandler, f: Automaton, discs: (nat, nat) -> bool)
    requires |teams| == 2 && LoadedFrom(h.offensive, f) && LoadedFrom(h.defensive, f)
    ensures HasStart(h.offensive) && HasStart(h.defensive)
    ensures StatesRunnable(f) && SetOk(h.offensive.automatons) && SetOk(h.defensive.automatons) ==>
              AllReady(SetsOf(h), |f.events|, CreatePlayers(teams, PlayersPerTeam, h, discs), PlayersPerTeam)
  {
    LoadedHasStart(h.offensive, f);
    LoadedHasStart(h.defensive, f);
    if StatesRunnable(f) && SetOk(h.offensive.automatons) && SetOk(h.defensive.automatons) {
      LoadedRunnable(f, h.offensive.automatons);
      LoadedRunnable(f, h.defensive.automatons);
      StartPlayersReady(teams, PlayersPerTeam, h, discs, |f.events|);
    }
  }

  /** The game's own factories build runnable states for its eight events. */
  lemma GameFactoriesRunnable()
    ensures FactoryRunnable(CreateAutomatonEvents, CreateOAutomatonStates)
    ensures |CreateAutomatonEvents()| == NumAutomatonEvents
  {
    GameAutomatonShape();
    OStateCallbacks(NumAutomatonEvents);
  }
}
