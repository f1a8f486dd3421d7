/** The event and state catalogs that every automaton of the game is built
    from, and the automaton constructor that combines them. */
module Factories {
  import opened Wrappers
  import opened Catalog

  const NumAutomatonEvents: nat := 8
  const NumOAutomatonStates: nat := 8

  /** The event names in id order. */
  const EventNameTable: seq<string> := [
    "event_pull_thrown", "event_pull_dropped", "event_pull_caught",
    "event_disc_picked_up", "event_arrived_at_location", "event_disc_hit_floor",
    "event_disc_released", "event_disc_caught"]

  const EventDiscHitFloor: string := "event_disc_hit_floor"

  /** create_automaton_events: one event per table entry, its id its index. */
  function CreateAutomatonEvents(): (r: seq<Event>)
    ensures |r| == NumAutomatonEvents
    ensures forall i :: 0 <= i < |r| ==> r[i].id == i && r[i].name == EventNameTable[i]
  {
    seq(NumAutomatonEvents, i requires 0 <= i < NumAutomatonEvents => Event(i, EventNameTable[i]))
  }

  /** The eight event names are pairwise distinct, so a lookup by name finds
      exactly the event of that index. */
  lemma EventNamesDistinct(a: Automaton, k: nat)
    requires a.events == CreateAutomatonEvents() && k < NumAutomatonEvents
    ensures FindEvent(a, EventNameTable[k]) == Some(k)
  {
    assert a.events[k].name == EventNameTable[k];
  }

  /** One row of the O automaton's state table: name and the C callbacks. */
  datatype StateSpec = StateSpec(name: string, stateFn: string,
                                 entrance: Option<string>, exit: Option<string>)

  const OStateTable: seq<StateSpec> := [
    StateSpec("state_waiting", "state_waiting_function",
              Some("state_waiting_entrance_function"), None),
    StateSpec("state_catching_pull", "state_catching_pull_function", None, None),
    StateSpec("state_picking_up_disc", "state_picking_up_disc_function", None, None),
    StateSpec("state_move_disc_to_brick", "state_move_disc_to_brick_function", None, None),
    StateSpec("state_move_disc_to_sideline", "state_move_disc_to_sideline_function", None, None),
    StateSpec("state_running", "state_running_function",
              Some("state_running_entrance_function"), Some("state_running_exit_function")),
    StateSpec("state_intercept_disc", "state_intercept_disc_function",
              None, Some("state_intercept_disc_exit_function")),
    StateSpec("state_follow_player", "state_follow_player_function",
              Some("state_follow_player_start_function"), Some("state_follow_player_exit_function"))]

  /** create_o_automaton_states: state i is a fresh state with `numEvents`
      empty slots, id i, and the name and callbacks of table row i. */
  function CreateOAutomatonStates(numEvents: nat): (r: seq<State>)
    ensures |r| == NumOAutomatonStates
    ensures forall i :: 0 <= i < |r| ==>
              && r[i].id == i
              && r[i].name == OStateTable[i].name
              && |r[i].slots| == numEvents
              && (forall e :: 0 <= e < numEvents ==> r[i].slots[e].None?)
              && r[i].stateFn == Some(OStateTable[i].stateFn)
              && r[i].entrance == OStateTable[i].entrance
              && r[i].exit == OStateTable[i].exit
  {
    seq(NumOAutomatonStates, i requires 0 <= i < NumOAutomatonStates =>
      CreateState(numEvents).(id := i, name := OStateTable[i].name,
                              stateFn := Some(OStateTable[i].stateFn),
                              entrance := OStateTable[i].entrance,
                              exit := OStateTable[i].exit))
  }

  /** Which callbacks each O state has: running and follow player have
      both, waiting has only an entrance, intercept only an exit, and the
      four states in between have neither. Every state has a per-tick
      function. */
  lemma OStateCallbacks(numEvents: nat)
    ensures var s := CreateOAutomatonStates(numEvents);
      && (forall i :: 0 <= i < |s| ==> s[i].stateFn.Some?)
      && s[5].entrance.Some? && s[5].exit.Some?
      && s[0].entrance.Some? && s[0].exit.None?
      && s[6].entrance.None? && s[6].exit.Some?
      && s[7].entrance.Some? && s[7].exit.Some?
      && (forall i :: 1 <= i <= 4 ==> s[i].entrance.None? && s[i].exit.None?)
  {
  }

  /** create_automaton: a zeroed automaton whose events come from the event
      factory and whose states come from the state factory, which is handed
      the number of events so that every state gets one slot per event. */
  function CreateAutomaton(events: () -> seq<Event>, states: nat -> seq<State>): (a: Automaton)
    ensures a.events == events() && a.states == states(|a.events|)
    ensures a.name == "" && a.transitions == [] && a.startState.None? && !a.luaLoaded
  {
    var evs := events();
    Automaton("", evs, states(|evs|), [], None, false)
  }

  /** The automaton the game builds: eight events and eight O states, every
      state with exactly one empty slot per event. */
  lemma GameAutomatonShape()
    ensures var a := CreateAutomaton(CreateAutomatonEvents, CreateOAutomatonStates);
      && |a.events| == 8 && |a.states| == 8
      && forall i :: 0 <= i < 8 ==> |a.states[i].slots| == 8
  {
  }
}
