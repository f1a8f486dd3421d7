/** The automaton handler: the timed event queue and the offensive and
    defensive automaton sets of a match, and their teardown. The callback
    globals are threaded through as a value: every automaton initialised
    takes a reference, and every automaton destroyed drops one. */
module Handler {
  import opened Wrappers
  import opened Catalog
  import opened Factories
  import opened CsvLoader
  import opened XmlLoader
  import LuaCallbacks
  import TimedQueue

  datatype AutomatonHandler = AutomatonHandler(timedQueue: seq<TimedQueue.TimedNode>,
                                               offensive: AutomatonSet, defensive: AutomatonSet)

  /** destroy_automaton_set: every automaton of the set is destroyed, and
      destroying an automaton drops a reference to the callback globals
      whether or not that automaton ever set them up. */
  function DestroyAutomatonSet(s: AutomatonSet, g: LuaCallbacks.Globals): (r: LuaCallbacks.Globals)
    ensures r.references == if g.references >= |s.automatons| then g.references - |s.automatons| else 0
    ensures r.matchState == g.matchState
  {
    LuaCallbacks.DestroysCount(g, |s.automatons|);
    LuaCallbacks.Destroys(g, |s.automatons|)
  }

  /** The inputs both sets are loaded with: the factories, the files the XML
      names, and the match. */
  datatype Sources = Sources(events: () -> seq<Event>, states: nat -> seq<State>,
                             files: map<string, seq<string>>, matchState: nat)

  /** create_automaton_set: the parsed set, or NULL after the partial set has
      been destroyed. */
  function CreateAutomatonSet(doc: Option<Element>, src: Sources, g: LuaCallbacks.Globals)
    : (r: (Option<AutomatonSet>, LuaCallbacks.Globals))
    requires CsvLoaderFits(src)
    ensures r.0.Some? <==> ParseAutomatonSetXml(doc, src.events, src.states, src.files, g, src.matchState).error.None?
    ensures r.0.Some? ==>
              && r.1.references == g.references + |r.0.value.automatons|
              && r.0.value.start.Some? && r.0.value.start.value < |r.0.value.automatons|
              && (forall k :: 0 <= k < |r.0.value.automatons| ==> Ready(r.0.value.automatons[k]))
    ensures r.0.Some? && FactoryFits(src.events, src.states) ==> SetOk(r.0.value.automatons)
    ensures r.0.Some? ==> forall k :: 0 <= k < |r.0.value.automatons| ==>
              SameStates(CreateAutomaton(src.events, src.states), r.0.value.automatons[k])
    ensures r.0.None? ==> r.1.references <= g.references
  {
    var o := ParseAutomatonSetXml(doc, src.events, src.states, src.files, g, src.matchState);
    if o.error.Some? then (None, DestroyAutomatonSet(o.loaded, o.globals))
    else (Some(o.loaded), o.globals)
  }

  /** Every event id has a slot in every state the factory builds, which
      the CSV loader relies on when it binds a slot. */
  predicate CsvLoaderFits(src: Sources) {
    IdsFit(CreateAutomaton(src.events, src.states))
  }

  /** What a created set guarantees, given the automaton `f` the factories
      build: a start automaton, every automaton initialised with a start
      state, and every state as the factory built it apart from its bound
      slots. */
  predicate LoadedFrom(s: AutomatonSet, f: Automaton) {
    && s.start.Some? && s.start.value < |s.automatons|
    && (forall k :: 0 <= k < |s.automatons| ==> Ready(s.automatons[k]) && SameStates(f, s.automatons[k]))
  }

  /** destroy_automaton_handler: both sets that exist, then the timed queue. */
  function DestroyAutomatonHandler(off: Option<AutomatonSet>, def: Option<AutomatonSet>,
                                   g: LuaCallbacks.Globals): (r: LuaCallbacks.Globals)
    ensures r.references <= g.references
    ensures r.matchState == g.matchState
  {
    var g1 := if off.Some? then DestroyAutomatonSet(off.value, g) else g;
    if def.Some? then DestroyAutomatonSet(def.value, g1) else g1
  }

  /** create_automaton_handler: both sets are always attempted, and if either
      fails the other is destroyed and there is no handler. */
  function CreateAutomatonHandler(offDoc: Option<Element>, defDoc: Option<Element>, src: Sources,
                                  g: LuaCallbacks.Globals): (r: (Option<AutomatonHandler>, LuaCallbacks.Globals))
    requires CsvLoaderFits(src)
    ensures r.0.Some? <==> CreateAutomatonSet(offDoc, src, g).0.Some? &&
                           CreateAutomatonSet(defDoc, src, CreateAutomatonSet(offDoc, src, g).1).0.Some?
    ensures r.0.Some? ==>
              && r.0.value.timedQueue == []
              && r.1.references == g.references + |r.0.value.offensive.automatons|
                                                + |r.0.value.defensive.automatons|
    ensures r.0.Some? && FactoryFits(src.events, src.states) ==>
              SetOk(r.0.value.offensive.automatons) && SetOk(r.0.value.defensive.automatons)
    ensures r.0.Some? ==>
              && LoadedFrom(r.0.value.offensive, CreateAutomaton(src.events, src.states))
              && LoadedFrom(r.0.value.defensive, CreateAutomaton(src.events, src.states))
    ensures r.0.None? ==> r.1.references <= g.references
  {
    var (off, g1) := CreateAutomatonSet(offDoc, src, g);
    var (def, g2) := CreateAutomatonSet(defDoc, src, g1);
    if off.None? || def.None? then (None, DestroyAutomatonHandler(off, def, g2))
    else (Some(AutomatonHandler(TimedQueue.Create(), off.value, def.value)), g2)
  }

  /** A handler that was created and then destroyed leaves the reference
      count where it found it. */
  lemma CreateThenDestroy(offDoc: Option<Element>, defDoc: Option<Element>, src: Sources,
                          g: LuaCallbacks.Globals)
    requires CsvLoaderFits(src)
    ensures var (h, g2) := CreateAutomatonHandler(offDoc, defDoc, src, g);
      h.Some? ==>
        DestroyAutomatonHandler(Some(h.value.offensive), Some(h.value.defensive), g2).references == g.references
  {
  }
}
