/** The transition-resolution engine: how an event moves a player from one
    automaton state to the next.

    The Lua predicate that decides each transition is an oracle: given the
    automaton whose Lua state runs it, the function name, and the team and
    player ids pushed as its two arguments, it yields the number the function
    returned, truncated to an int as the C's `(int)` cast does, or None when
    the call failed or returned something that is not a number. */
module Engine {
  import opened Wrappers
  import opened Catalog

  /** Resolution gives up at this depth of chained transitions. */
  const MaxCallDepth: nat := 5

  type Oracle = (nat, string, nat, nat) -> Option<int>

  /** The result of resolving a transition: the player's automaton afterwards
      (switches are written to the player as they are taken), the state found
      (None is a NULL result), and how many predicates were evaluated. */
  datatype Resolution = Resolution(automaton: nat, state: Option<Ref>, calls: nat)

  /** The branch a predicate result selects: 0 is false, anything else true. */
  function Select(t: Transition, v: int): (b: Branch)
  {
    if v == 0 then t.onFalse else t.onTrue
  }

  /** get_state_from_transition. `aut` is the player's current automaton (in
      whose Lua state the predicate runs), `t` the transition, `current` the
      name of the state the player is in, `depth` the call depth so far. */
  function Resolve(auts: seq<Automaton>, oracle: Oracle, aut: nat, t: Ref,
                   team: nat, player: nat, current: string, depth: nat): (r: Resolution)
    requires SetOk(auts) && aut < |auts| && TransRefOk(auts, t)
    ensures r.automaton < |auts|
    ensures r.state.Some? ==> StateRefOk(auts, r.state.value)
    ensures depth >= MaxCallDepth ==> r == Resolution(aut, None, 0)
    ensures depth < MaxCallDepth ==> 1 <= r.calls <= MaxCallDepth - depth
    decreases MaxCallDepth - depth
  {
    if depth >= MaxCallDepth then Resolution(aut, None, 0)
    else
      var tr := TransitionAt(auts, t);
      match oracle(aut, tr.luaFn, team, player)
      case None => Resolution(aut, None, 1)
      case Some(v) =>
        var b := Select(tr, v);
        var next := b.automaton.GetOr(aut);
        if b.state.None? && b.trans.None? then
          match FindState(auts[next], current)
          case None => Resolution(next, None, 1)
          case Some(k) => Resolution(next, Some(Ref(next, k)), 1)
        else if b.state.None? then
          var sub := Resolve(auts, oracle, next, b.trans.value, team, player, current, depth + 1);
          Resolution(sub.automaton, sub.state, sub.calls + 1)
        else
          Resolution(next, b.state, 1)
  }

  /** A callback run by the engine, by state and C function name. */
  datatype Callback =
    | Exit(state: Ref, fn: string)
    | Entrance(state: Ref, fn: string)
    | Tick(state: Ref, fn: string, dt: nat)

  function ExitCall(auts: seq<Automaton>, s: Ref): seq<Callback>
    requires StateRefOk(auts, s)
  {
    match StateAt(auts, s).exit
    case None => []
    case Some(f) => [Exit(s, f)]
  }

  function EntranceCall(auts: seq<Automaton>, s: Ref): seq<Callback>
    requires StateRefOk(auts, s)
  {
    match StateAt(auts, s).entrance
    case None => []
    case Some(f) => [Entrance(s, f)]
  }

  /** The outcome of one event: the player's automaton and state afterwards and
      the callbacks run, in order. */
  datatype Step = Step(automaton: nat, state: Ref, trace: seq<Callback>)

  /** The transition slot of state `cur` for event `eventId`. */
  function SlotOf(auts: seq<Automaton>, cur: Ref, eventId: nat): Option<nat>
    requires StateRefOk(auts, cur) && eventId < |StateAt(auts, cur).slots|
  {
    StateAt(auts, cur).slots[eventId]
  }

  /** move_to_next_state. */
  function Advance(auts: seq<Automaton>, oracle: Oracle, aut: nat, cur: Ref,
                   eventId: nat, team: nat, player: nat): (r: Step)
    requires SetOk(auts) && aut < |auts| && StateRefOk(auts, cur)
    requires eventId < |StateAt(auts, cur).slots|
    ensures r.automaton < |auts| && StateRefOk(auts, r.state)
    ensures SlotOf(auts, cur, eventId).None? ==> r == Step(aut, cur, [])
    ensures SlotOf(auts, cur, eventId).Some? ==>
              r.trace == ExitCall(auts, cur) + EntranceCall(auts, r.state)
    ensures SlotOf(auts, cur, eventId).Some? ==>
              var res := Resolve(auts, oracle, aut, Ref(cur.aut, SlotOf(auts, cur, eventId).value),
                                 team, player, StateAt(auts, cur).name, 0);
              r.automaton == res.automaton && r.state == res.state.GetOr(cur)
  {
    match SlotOf(auts, cur, eventId)
    case None => Step(aut, cur, [])
    case Some(ti) =>
      assert SlotsOk(auts[cur.aut], StateAt(auts, cur));
      var res := Resolve(auts, oracle, aut, Ref(cur.aut, ti), team, player,
                         StateAt(auts, cur).name, 0);
      var next := res.state.GetOr(cur);
      Step(res.automaton, next, ExitCall(auts, cur) + EntranceCall(auts, next))
  }

  /** When resolution finds no state the player stays where it was, and the
      entrance callback of that same state still runs; an automaton switch
      taken on the way is kept. */
  lemma FailedResolutionStays(auts: seq<Automaton>, oracle: Oracle, aut: nat, cur: Ref,
                              eventId: nat, team: nat, player: nat)
    requires SetOk(auts) && aut < |auts| && StateRefOk(auts, cur)
    requires eventId < |StateAt(auts, cur).slots|
    requires SlotOf(auts, cur, eventId).Some?
    requires SlotOf(auts, cur, eventId).value < |auts[cur.aut].transitions|
    requires Resolve(auts, oracle, aut, Ref(cur.aut, SlotOf(auts, cur, eventId).value),
                     team, player, StateAt(auts, cur).name, 0).state.None?
    ensures var r := Advance(auts, oracle, aut, cur, eventId, team, player);
      && r.state == cur
      && r.automaton == Resolve(auts, oracle, aut, Ref(cur.aut, SlotOf(auts, cur, eventId).value),
                                team, player, StateAt(auts, cur).name, 0).automaton
      && r.trace == ExitCall(auts, cur) + EntranceCall(auts, cur)
  {
  }

  /** A predicate that fails (a Lua error or a non-number) yields no state and
      leaves the automaton alone; the call receives exactly the team and player
      ids. */
  lemma PredicateFailureYieldsNoState(auts: seq<Automaton>, oracle: Oracle, aut: nat, t: Ref,
                                      team: nat, player: nat, current: string, depth: nat)
    requires SetOk(auts) && aut < |auts| && TransRefOk(auts, t) && depth < MaxCallDepth
    requires oracle(aut, TransitionAt(auts, t).luaFn, team, player).None?
    ensures Resolve(auts, oracle, aut, t, team, player, current, depth) == Resolution(aut, None, 1)
  {
  }

  /** The state of the selected branch takes precedence over its chained
      transition, and the branch's automaton switch is taken as well. */
  lemma BranchStateWins(auts: seq<Automaton>, oracle: Oracle, aut: nat, t: Ref,
                        team: nat, player: nat, current: string, depth: nat, v: int)
    requires SetOk(auts) && aut < |auts| && TransRefOk(auts, t) && depth < MaxCallDepth
    requires oracle(aut, TransitionAt(auts, t).luaFn, team, player) == Some(v)
    requires Select(TransitionAt(auts, t), v).state.Some?
    ensures var b := Select(TransitionAt(auts, t), v);
      Resolve(auts, oracle, aut, t, team, player, current, depth)
        == Resolution(b.automaton.GetOr(aut), b.state, 1)
  {
  }

  /** A branch with neither state nor transition resolves to the state of the
      same name as the player's current one in the (possibly switched)
      automaton. */
  lemma EmptyBranchKeepsStateName(auts: seq<Automaton>, oracle: Oracle, aut: nat, t: Ref,
                                  team: nat, player: nat, current: string, depth: nat, v: int)
    requires SetOk(auts) && aut < |auts| && TransRefOk(auts, t) && depth < MaxCallDepth
    requires oracle(aut, TransitionAt(auts, t).luaFn, team, player) == Some(v)
    requires Select(TransitionAt(auts, t), v).state.None?
    requires Select(TransitionAt(auts, t), v).trans.None?
    ensures var b := Select(TransitionAt(auts, t), v);
      var r := Resolve(auts, oracle, aut, t, team, player, current, depth);
      && r.automaton == b.automaton.GetOr(aut)
      && (r.state.Some? ==> r.state.value.aut == r.automaton
                            && StateAt(auts, r.state.value).name == current)
      && (r.state.None? <==> forall j :: 0 <= j < |auts[r.automaton].states| ==>
                                          auts[r.automaton].states[j].name != current)
  {
  }

  /** A transition whose chosen branch always chains back to itself (a loop in
      the automaton) is cut off after exactly MaxCallDepth predicate calls, and
      yields no state. */
  lemma {:induction false} SelfLoopCutOff(auts: seq<Automaton>, oracle: Oracle, aut: nat, t: Ref,
                                          team: nat, player: nat, current: string, depth: nat)
    requires SetOk(auts) && aut < |auts| && TransRefOk(auts, t) && depth <= MaxCallDepth
    requires TransitionAt(auts, t).onTrue == Branch(None, Some(t), None)
    requires forall d :: oracle(aut, TransitionAt(auts, t).luaFn, team, player) == Some(d) ==> d != 0
    requires oracle(aut, TransitionAt(auts, t).luaFn, team, player).Some?
    ensures Resolve(auts, oracle, aut, t, team, player, current, depth)
              == Resolution(aut, None, MaxCallDepth - depth)
    decreases MaxCallDepth - depth
  {
    if depth < MaxCallDepth {
      SelfLoopCutOff(auts, oracle, aut, t, team, player, current, depth + 1);
    }
  }

  /** The branch the predicate of `t` selects, when the call succeeds. */
  function Chosen(auts: seq<Automaton>, oracle: Oracle, aut: nat, t: Ref, team: nat, player: nat): (b: Option<Branch>)
    requires TransRefOk(auts, t)
    ensures b.Some? <==> oracle(aut, TransitionAt(auts, t).luaFn, team, player).Some?
  {
    match oracle(aut, TransitionAt(auts, t).luaFn, team, player)
    case None => None
    case Some(v) => Some(Select(TransitionAt(auts, t), v))
  }

  /** `ts` is a chain of transitions in automaton `aut`: each predicate call
      succeeds, each selected branch but the last leads on to the next
      transition with no state and no switch, and the last names the state
      `s` without a switch. */
  predicate ChainsTo(auts: seq<Automaton>, oracle: Oracle, aut: nat, ts: seq<Ref>, team: nat, player: nat, s: Ref) {
    && |ts| > 0
    && (forall i :: 0 <= i < |ts| ==> TransRefOk(auts, ts[i]) && Chosen(auts, oracle, aut, ts[i], team, player).Some?)
    && (forall i :: 0 <= i < |ts| - 1 ==>
          Chosen(auts, oracle, aut, ts[i], team, player) == Some(Branch(None, Some(ts[i + 1]), None)))
    && Chosen(auts, oracle, aut, ts[|ts| - 1], team, player).value.state == Some(s)
    && Chosen(auts, oracle, aut, ts[|ts| - 1], team, player).value.automaton.None?
  }

  lemma ChainsToTail(auts: seq<Automaton>, oracle: Oracle, aut: nat, ts: seq<Ref>, team: nat, player: nat, s: Ref)
    requires ChainsTo(auts, oracle, aut, ts, team, player, s) && |ts| > 1
    ensures ChainsTo(auts, oracle, aut, ts[1..], team, player, s)
  {
    var tail := ts[1..];
    assert forall i :: 0 <= i < |tail| ==> tail[i] == ts[i + 1];
  }

  /** A chain short enough for the depth left resolves to its final state,
      one predicate call per transition. */
  lemma {:induction false} ChainResolves(auts: seq<Automaton>, oracle: Oracle, aut: nat, ts: seq<Ref>,
                                         team: nat, player: nat, current: string, depth: nat, s: Ref)
    requires SetOk(auts) && aut < |auts| && ChainsTo(auts, oracle, aut, ts, team, player, s)
    requires depth + |ts| <= MaxCallDepth
    ensures Resolve(auts, oracle, aut, ts[0], team, player, current, depth) == Resolution(aut, Some(s), |ts|)
    decreases |ts|
  {
    if |ts| > 1 {
      ChainsToTail(auts, oracle, aut, ts, team, player, s);
      ChainResolves(auts, oracle, aut, ts[1..], team, player, current, depth + 1, s);
    }
  }

  /** A chain longer than the depth left is cut off: no state, after exactly
      as many calls as the depth allows. */
  lemma {:induction false} ChainCutOff(auts: seq<Automaton>, oracle: Oracle, aut: nat, ts: seq<Ref>,
                                       team: nat, player: nat, current: string, depth: nat, s: Ref)
    requires SetOk(auts) && aut < |auts| && ChainsTo(auts, oracle, aut, ts, team, player, s)
    requires depth <= MaxCallDepth < depth + |ts|
    ensures Resolve(auts, oracle, aut, ts[0], team, player, current, depth)
              == Resolution(aut, None, MaxCallDepth - depth)
    decreases |ts|
  {
    if depth < MaxCallDepth {
      ChainsToTail(auts, oracle, aut, ts, team, player, s);
      ChainCutOff(auts, oracle, aut, ts[1..], team, player, current, depth + 1, s);
    }
  }

  /** Hence an event bound to such a transition leaves the player where it was. */
  lemma SelfLoopStaysPut(auts: seq<Automaton>, oracle: Oracle, aut: nat, cur: Ref,
                         eventId: nat, team: nat, player: nat)
    requires SetOk(auts) && aut < |auts| && StateRefOk(auts, cur)
    requires eventId < |StateAt(auts, cur).slots|
    requires SlotOf(auts, cur, eventId).Some?
    requires SlotOf(auts, cur, eventId).value < |auts[cur.aut].transitions|
    requires var t := Ref(cur.aut, SlotOf(auts, cur, eventId).value);
      && TransitionAt(auts, t).onTrue == Branch(None, Some(t), None)
      && oracle(aut, TransitionAt(auts, t).luaFn, team, player).Some?
      && oracle(aut, TransitionAt(auts, t).luaFn, team, player).value != 0
    ensures Advance(auts, oracle, aut, cur, eventId, team, player).state == cur
    ensures Advance(auts, oracle, aut, cur, eventId, team, player).automaton == aut
  {
    var t := Ref(cur.aut, SlotOf(auts, cur, eventId).value);
    SelfLoopCutOff(auts, oracle, aut, t, team, player, StateAt(auts, cur).name, 0);
  }

  /** A state straight from create_automaton_state has no transitions, so no
      event moves it and no callback runs. */
  lemma FreshStateIgnoresEvents(auts: seq<Automaton>, oracle: Oracle, aut: nat, cur: Ref,
                                eventId: nat, team: nat, player: nat)
    requires SetOk(auts) && aut < |auts| && StateRefOk(auts, cur)
    requires StateAt(auts, cur) == CreateState(|StateAt(auts, cur).slots|)
    requires eventId < |StateAt(auts, cur).slots|
    ensures Advance(auts, oracle, aut, cur, eventId, team, player) == Step(aut, cur, [])
  {
  }
}
