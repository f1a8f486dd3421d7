/** The automaton data structures (events, states, transitions, automatons and
    automaton sets) and the linear name lookups over them.

    Pointers between structures are modelled arena style: a state or a
    transition is named by a `Ref` into a sequence of automatons, an automaton
    by its index in that sequence, and a state's transition slot by an index
    into its own automaton's transitions. */
module Catalog {
  import opened Wrappers

  /** `strncpy` copies at most this many characters of an automaton's name. */
  const MaxAutomatonNameLen: nat := 100

  /** The `idx`-th state (or transition) of the `aut`-th automaton of a set. */
  datatype Ref = Ref(aut: nat, idx: nat)

  datatype Event = Event(id: nat, name: string)

  /** One outcome of a transition: a target state, a chained transition and a
      switch of automaton, each of which may be absent (NULL). */
  datatype Branch = Branch(state: Option<Ref>, trans: Option<Ref>, automaton: Option<nat>)

  /** A transition as created before the link pass fills it in. */
  const Unlinked: Branch := Branch(None, None, None)

  /** `luaFn` names the Lua predicate that chooses between the two branches. */
  datatype Transition = Transition(id: nat, name: string, luaFn: string,
                                   onTrue: Branch, onFalse: Branch)

  /** `slots[e]` is the transition the state follows on the event with id `e`
      (an index into the owning automaton's transitions), or None. The three
      callbacks are the names of C functions; None is a NULL pointer. */
  datatype State = State(id: nat, name: string, slots: seq<Option<nat>>,
                         stateFn: Option<string>, entrance: Option<string>,
                         exit: Option<string>)

  /** `luaLoaded` records that the automaton's Lua state has been opened. */
  datatype Automaton = Automaton(name: string, events: seq<Event>, states: seq<State>,
                                 transitions: seq<Transition>, startState: Option<nat>,
                                 luaLoaded: bool)

  /** The automatons of one XML file and the one new players start in. */
  datatype AutomatonSet = AutomatonSet(automatons: seq<Automaton>, start: Option<nat>)

  /** Index of the first entry equal to `name` (a `strcmp` scan), or None. */
  function IndexOf(names: seq<string>, name: string): (r: Option<nat>)
    ensures r.Some? ==> r.value < |names| && names[r.value] == name
    ensures r.Some? ==> forall j :: 0 <= j < r.value ==> names[j] != name
    ensures r.None? ==> forall j :: 0 <= j < |names| ==> names[j] != name
  {
    if |names| == 0 then None
    else if names[0] == name then Some(0)
    else
      match IndexOf(names[1..], name)
      case None => None
      case Some(k) => Some(k + 1)
  }

  /** `q` is a prefix of `s`: what `strncmp(s, q, strlen(q)) == 0` tests. */
  predicate IsPrefix(q: string, s: string) {
    |q| <= |s| && s[..|q|] == q
  }

  /** Index of the first entry that `q` is a prefix of, or None. */
  function IndexOfPrefix(names: seq<string>, q: string): (r: Option<nat>)
    ensures r.Some? ==> r.value < |names| && IsPrefix(q, names[r.value])
    ensures r.Some? ==> forall j :: 0 <= j < r.value ==> !IsPrefix(q, names[j])
    ensures r.None? ==> forall j :: 0 <= j < |names| ==> !IsPrefix(q, names[j])
  {
    if |names| == 0 then None
    else if IsPrefix(q, names[0]) then Some(0)
    else
      match IndexOfPrefix(names[1..], q)
      case None => None
      case Some(k) => Some(k + 1)
  }

  function StateNames(a: Automaton): (r: seq<string>)
    ensures |r| == |a.states| && forall i :: 0 <= i < |r| ==> r[i] == a.states[i].name
  {
    seq(|a.states|, i requires 0 <= i < |a.states| => a.states[i].name)
  }

  function EventNames(a: Automaton): (r: seq<string>)
    ensures |r| == |a.events| && forall i :: 0 <= i < |r| ==> r[i] == a.events[i].name
  {
    seq(|a.events|, i requires 0 <= i < |a.events| => a.events[i].name)
  }

  function TransitionNames(a: Automaton): (r: seq<string>)
    ensures |r| == |a.transitions| && forall i :: 0 <= i < |r| ==> r[i] == a.transitions[i].name
  {
    seq(|a.transitions|, i requires 0 <= i < |a.transitions| => a.transitions[i].name)
  }

  function AutomatonNames(auts: seq<Automaton>): (r: seq<string>)
    ensures |r| == |auts| && forall i :: 0 <= i < |r| ==> r[i] == auts[i].name
  {
    seq(|auts|, i requires 0 <= i < |auts| => auts[i].name)
  }

  /** find_automaton_state_by_name: the first state with exactly this name. */
  function FindState(a: Automaton, name: string): (r: Option<nat>)
    ensures r.Some? ==> r.value < |a.states| && a.states[r.value].name == name
    ensures r.Some? ==> forall j :: 0 <= j < r.value ==> a.states[j].name != name
    ensures r.None? <==> forall j :: 0 <= j < |a.states| ==> a.states[j].name != name
  {
    IndexOf(StateNames(a), name)
  }

  /** find_automaton_event_by_name: the first event with exactly this name. */
  function FindEvent(a: Automaton, name: string): (r: Option<nat>)
    ensures r.Some? ==> r.value < |a.events| && a.events[r.value].name == name
    ensures r.Some? ==> forall j :: 0 <= j < r.value ==> a.events[j].name != name
    ensures r.None? <==> forall j :: 0 <= j < |a.events| ==> a.events[j].name != name
  {
    IndexOf(EventNames(a), name)
  }

  /** find_automaton_transition_by_name: the first transition with this name. */
  function FindTransition(a: Automaton, name: string): (r: Option<nat>)
    ensures r.Some? ==> r.value < |a.transitions| && a.transitions[r.value].name == name
    ensures r.Some? ==> forall j :: 0 <= j < r.value ==> a.transitions[j].name != name
    ensures r.None? <==> forall j :: 0 <= j < |a.transitions| ==> a.transitions[j].name != name
  {
    IndexOf(TransitionNames(a), name)
  }

  /** get_automaton_by_name: the first automaton, in array order, whose name
      starts with `q`; the comparison covers only `strlen(q)` characters. */
  function GetAutomatonByName(auts: seq<Automaton>, q: string): (r: Option<nat>)
    ensures r.Some? ==> r.value < |auts| && IsPrefix(q, auts[r.value].name)
    ensures r.Some? ==> forall j :: 0 <= j < r.value ==> !IsPrefix(q, auts[j].name)
    ensures r.None? <==> forall j :: 0 <= j < |auts| ==> !IsPrefix(q, auts[j].name)
  {
    IndexOfPrefix(AutomatonNames(auts), q)
  }

  /** Because the match is by prefix, the empty name selects the first
      automaton of any non-empty set. */
  lemma EmptyNameSelectsFirst(auts: seq<Automaton>)
    requires |auts| > 0
    ensures GetAutomatonByName(auts, "") == Some(0)
  {
    assert IsPrefix("", auts[0].name);
  }

  /** A query that is a strict prefix of an earlier automaton's name selects
      that automaton even when a later one carries the query as its exact name. */
  lemma PrefixShadowsExactName(auts: seq<Automaton>, i: nat, j: nat)
    requires i < j < |auts| && IsPrefix(auts[j].name, auts[i].name)
    ensures GetAutomatonByName(auts, auts[j].name) != Some(j)
  {
  }

  /** create_automaton_state: `numEvents` transition slots, all NULL, and no
      entrance or exit callback. The id, the name and the per-tick function
      are left for the state factory to set. */
  function CreateState(numEvents: nat): (s: State)
    ensures |s.slots| == numEvents
    ensures forall e :: 0 <= e < |s.slots| ==> s.slots[e].None?
    ensures s.entrance.None? && s.exit.None?
  {
    State(0, "", seq(numEvents, _ => None), None, None, None)
  }

  // Well-formedness: every reference points inside the set.

  predicate StateRefOk(auts: seq<Automaton>, r: Ref) {
    r.aut < |auts| && r.idx < |auts[r.aut].states|
  }

  predicate TransRefOk(auts: seq<Automaton>, r: Ref) {
    r.aut < |auts| && r.idx < |auts[r.aut].transitions|
  }

  predicate BranchOk(auts: seq<Automaton>, b: Branch) {
    && (b.state.Some? ==> StateRefOk(auts, b.state.value))
    && (b.trans.Some? ==> TransRefOk(auts, b.trans.value))
    && (b.automaton.Some? ==> b.automaton.value < |auts|)
  }

  predicate SlotsOk(a: Automaton, s: State) {
    forall e :: 0 <= e < |s.slots| && s.slots[e].Some? ==> s.slots[e].value < |a.transitions|
  }

  predicate AutomatonOk(auts: seq<Automaton>, a: Automaton) {
    && (forall i :: 0 <= i < |a.transitions| ==>
          BranchOk(auts, a.transitions[i].onTrue) && BranchOk(auts, a.transitions[i].onFalse))
    && (forall i :: 0 <= i < |a.states| ==> SlotsOk(a, a.states[i]))
    && (a.startState.Some? ==> a.startState.value < |a.states|)
  }

  /** Every reference held anywhere in the set points inside the set. */
  predicate SetOk(auts: seq<Automaton>) {
    forall k :: 0 <= k < |auts| ==> AutomatonOk(auts, auts[k])
  }

  function StateAt(auts: seq<Automaton>, r: Ref): State
    requires StateRefOk(auts, r)
  {
    auts[r.aut].states[r.idx]
  }

  function TransitionAt(auts: seq<Automaton>, r: Ref): Transition
    requires TransRefOk(auts, r)
  {
    auts[r.aut].transitions[r.idx]
  }
}
