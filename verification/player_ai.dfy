/** The per-tick driver: every AI-managed player drains its event queue
    through the engine and then runs its state's per-tick function. */
module PlayerAi {
  import opened Wrappers
  import opened Catalog
  import opened Players
  import opened Engine
  import opened LuaCallbacks
  import EventQueue

  /** The match's two automaton sets. */
  datatype Sets = Sets(offensive: seq<Automaton>, defensive: seq<Automaton>)

  function SetOf(sets: Sets, side: Side): seq<Automaton> {
    match side
    case Offensive => sets.offensive
    case Defensive => sets.defensive
  }

  /** Every state of the set has a slot for each of the `n` events and a
      per-tick function (the state factory sets one for every state). */
  predicate Runnable(auts: seq<Automaton>, n: nat) {
    SetOk(auts) &&
    forall a, s :: 0 <= a < |auts| && 0 <= s < |auts[a].states| ==>
      n <= |auts[a].states[s].slots| && auts[a].states[s].stateFn.Some?
  }

  predicate EventsFit(events: seq<Event>, n: nat) {
    forall i :: 0 <= i < |events| ==> events[i].id < n
  }

  /** A player the driver can process: it sits in a valid state of a valid
      automaton of a runnable set, and its queued events are known ids. */
  predicate PlayerReady(sets: Sets, n: nat, p: Player) {
    && p.automaton.Some? && p.state.Some?
    && Runnable(SetOf(sets, p.automaton.value.side), n)
    && p.automaton.value.idx < |SetOf(sets, p.automaton.value.side)|
    && StateRefOk(SetOf(sets, p.automaton.value.side), p.state.value)
    && EventsFit(p.queue, n)
  }

  lemma EventsFitTail(events: seq<Event>, n: nat, i: nat)
    requires EventsFit(events, n) && i <= |events|
    ensures EventsFit(events[i..], n)
  {
    assert forall k :: 0 <= k < |events[i..]| ==> events[i..][k] == events[i + k];
  }

  lemma EventsFitAppend(q1: seq<Event>, q2: seq<Event>, n: nat)
    requires EventsFit(q1, n) && EventsFit(q2, n)
    ensures EventsFit(q1 + q2, n)
  {
    assert forall k :: 0 <= k < |q1 + q2| ==> (q1 + q2)[k] == if k < |q1| then q1[k] else q2[k - |q1|];
  }

  /** One step after another: the later step's position, both traces. */
  function Then(a: Step, b: Step): Step {
    Step(b.automaton, b.state, a.trace + b.trace)
  }

  /** The events of a queue applied in order, each against the automaton and
      state the previous one left. */
  function Drain(auts: seq<Automaton>, oracle: Oracle, n: nat, aut: nat, cur: Ref,
                 events: seq<Event>, team: nat, player: nat): (r: Step)
    requires Runnable(auts, n) && aut < |auts| && StateRefOk(auts, cur)
    requires EventsFit(events, n)
    ensures r.automaton < |auts| && StateRefOk(auts, r.state)
    ensures forall c :: c in r.trace ==> !c.Tick?
    decreases |events|
  {
    if |events| == 0 then Step(aut, cur, [])
    else
      var s := Advance(auts, oracle, aut, cur, events[0].id, team, player);
      Then(s, Drain(auts, oracle, n, s.automaton, s.state, events[1..], team, player))
  }

  /** Draining two queues one after the other is draining their
      concatenation: the second starts from where the first left the player,
      automaton switches included. */
  lemma {:induction false} DrainAppend(auts: seq<Automaton>, oracle: Oracle, n: nat, aut: nat, cur: Ref,
                                       q1: seq<Event>, q2: seq<Event>, team: nat, player: nat)
    requires Runnable(auts, n) && aut < |auts| && StateRefOk(auts, cur)
    requires EventsFit(q1, n) && EventsFit(q2, n)
    ensures EventsFit(q1 + q2, n)
    ensures var d1 := Drain(auts, oracle, n, aut, cur, q1, team, player);
      Drain(auts, oracle, n, aut, cur, q1 + q2, team, player)
        == Then(d1, Drain(auts, oracle, n, d1.automaton, d1.state, q2, team, player))
    decreases |q1|
  {
    EventsFitAppend(q1, q2, n);
    if |q1| == 0 {
      assert q1 + q2 == q2;
    } else {
      var s := Advance(auts, oracle, aut, cur, q1[0].id, team, player);
      assert (q1 + q2)[0] == q1[0];
      assert (q1 + q2)[1..] == q1[1..] + q2;
      EventsFitTail(q1, n, 1);
      DrainAppend(auts, oracle, n, s.automaton, s.state, q1[1..], q2, team, player);
      var d1' := Drain(auts, oracle, n, s.automaton, s.state, q1[1..], team, player);
      var x := Drain(auts, oracle, n, d1'.automaton, d1'.state, q2, team, player);
      assert (s.trace + d1'.trace) + x.trace == s.trace + (d1'.trace + x.trace);
    }
  }

  /** Draining from position i is one engine step followed by draining from
      position i + 1. */
  lemma DrainStep(auts: seq<Automaton>, oracle: Oracle, n: nat, aut: nat, cur: Ref,
                  q: seq<Event>, i: nat, team: nat, player: nat)
    requires Runnable(auts, n) && aut < |auts| && StateRefOk(auts, cur)
    requires EventsFit(q, n) && i < |q|
    ensures EventsFit(q[i..], n) && EventsFit(q[i + 1..], n)
    ensures var s := Advance(auts, oracle, aut, cur, q[i].id, team, player);
      Drain(auts, oracle, n, aut, cur, q[i..], team, player)
        == Then(s, Drain(auts, oracle, n, s.automaton, s.state, q[i + 1..], team, player))
  {
    EventsFitTail(q, n, i);
    EventsFitTail(q, n, i + 1);
    assert q[i..][1..] == q[i + 1..];
  }

  lemma ThenAssoc(a: Step, b: Step, c: Step)
    ensures Then(Then(a, b), c) == Then(a, Then(b, c))
  {
    assert (a.trace + b.trace) + c.trace == a.trace + (b.trace + c.trace);
  }

  /** An event with no transition from the current state leaves the player
      where it is and runs no callback. */
  lemma UnboundEventIgnored(auts: seq<Automaton>, oracle: Oracle, n: nat, aut: nat, cur: Ref,
                            e: Event, team: nat, player: nat)
    requires Runnable(auts, n) && aut < |auts| && StateRefOk(auts, cur) && e.id < n
    requires StateAt(auts, cur).slots[e.id].None?
    ensures Drain(auts, oracle, n, aut, cur, [e], team, player) == Step(aut, cur, [])
  {
    assert [e][1..] == [];
  }

  /** The per-tick call of the state a player is in. */
  function TickCall(auts: seq<Automaton>, n: nat, s: Ref, dt: nat): Callback
    requires Runnable(auts, n) && StateRefOk(auts, s)
  {
    Tick(s, StateAt(auts, s).stateFn.value, dt)
  }

  /** process_player_ai: drain the whole queue, then run the per-tick function
      of the state reached, once. The predicate receives the player's team
      and player ids. */
  function ProcessPlayer(sets: Sets, oracle: Oracle, n: nat, p: Player, dt: nat): (r: (Player, seq<Callback>))
    requires PlayerReady(sets, n, p)
    ensures PlayerReady(sets, n, r.0)
    ensures r.0.queue == []
    ensures r.0.automaton.value.side == p.automaton.value.side
    ensures r.0.(automaton := p.automaton, state := p.state, queue := p.queue) == p
    ensures |r.1| > 0 && r.1[|r.1| - 1] == TickCall(SetOf(sets, p.automaton.value.side), n, r.0.state.value, dt)
    ensures forall i :: 0 <= i < |r.1| - 1 ==> !r.1[i].Tick?
  {
    var side := p.automaton.value.side;
    var auts := SetOf(sets, side);
    var d := Drain(auts, oracle, n, p.automaton.value.idx, p.state.value, p.queue, p.teamId, p.playerId);
    var q := p.(queue := [], automaton := Some(AutRef(side, d.automaton)), state := Some(d.state));
    assert forall i :: 0 <= i < |d.trace| ==> d.trace[i] in d.trace;
    (q, d.trace + [TickCall(auts, n, d.state, dt)])
  }

  /** process_player_ai over the player's linked event queue `l`, whose
      events, oldest first, are the player's queue, with the take as
      written: the drain faults as soon as two or more events are queued,
      and otherwise computes exactly what ProcessPlayer states. */
  function ProcessPlayerAsWritten(sets: Sets, oracle: Oracle, n: nat, p: Player,
                                  l: EventQueue.Linked<Event>, ghost ids: seq<nat>, dt: nat)
    : (r: Result<(Player, seq<Callback>), EventQueue.Fault>)
    requires PlayerReady(sets, n, p)
    requires EventQueue.Repr(l, ids) && EventQueue.Contents(l, ids) == p.queue
    ensures r.Ok? <==> |p.queue| <= 1
    ensures r.Ok? ==> r.value == ProcessPlayer(sets, oracle, n, p, dt)
    ensures r.Err? ==> r.error == EventQueue.UseAfterFree
  {
    EventQueue.TakeAllAsWrittenAgrees(l, ids);
    match EventQueue.TakeAllAsWritten(l)
    case Err(f) => Err(f)
    case Ok(evs) => Ok(ProcessPlayer(sets, oracle, n, p.(queue := evs), dt))
  }

  /** The player ends where draining its queue leads. */
  lemma ProcessPlayerFollowsDrain(sets: Sets, oracle: Oracle, n: nat, p: Player, dt: nat)
    requires PlayerReady(sets, n, p)
    ensures var auts := SetOf(sets, p.automaton.value.side);
      var d := Drain(auts, oracle, n, p.automaton.value.idx, p.state.value, p.queue, p.teamId, p.playerId);
      var r := ProcessPlayer(sets, oracle, n, p, dt);
      r.0.state == Some(d.state) && r.0.automaton.value.idx == d.automaton
      && r.1 == d.trace + [TickCall(auts, n, d.state, dt)]
  {
  }

  /** One turn of the driver's loop keeps "what is done, then what is left"
      equal to draining the whole queue. */
  lemma LoopStep(auts: seq<Automaton>, oracle: Oracle, n: nat, aut: nat, cur: Ref,
                 q: seq<Event>, i: nat, team: nat, player: nat, trace: seq<Callback>)
    requires Runnable(auts, n) && aut < |auts| && StateRefOk(auts, cur)
    requires EventsFit(q, n) && i < |q|
    ensures EventsFit(q[i + 1..], n)
    ensures var s := Advance(auts, oracle, aut, cur, q[i].id, team, player);
      Then(Step(s.automaton, s.state, trace + s.trace),
           Drain(auts, oracle, n, s.automaton, s.state, q[i + 1..], team, player))
      == Then(Step(aut, cur, trace), Drain(auts, oracle, n, aut, cur, q[i..], team, player))
  {
    var s := Advance(auts, oracle, aut, cur, q[i].id, team, player);
    DrainStep(auts, oracle, n, aut, cur, q, i, team, player);
    ThenAssoc(Step(aut, cur, trace), s, Drain(auts, oracle, n, s.automaton, s.state, q[i + 1..], team, player));
  }

  /** process_player_ai as the C loop runs it: take events one at a time
      until the queue is empty, then tick. */
  method RunPlayer(sets: Sets, oracle: Oracle, n: nat, p: Player, dt: nat) returns (q: Player, trace: seq<Callback>)
    requires PlayerReady(sets, n, p)
    ensures (q, trace) == ProcessPlayer(sets, oracle, n, p, dt)
  {
    var side := p.automaton.value.side;
    var auts := SetOf(sets, side);
    var aut: nat := p.automaton.value.idx;
    var cur := p.state.value;
    ghost var whole := Drain(auts, oracle, n, aut, cur, p.queue, p.teamId, p.playerId);
    trace := [];
    var i := 0;
    assert p.queue[0..] == p.queue;
    while i < |p.queue|
      invariant 0 <= i <= |p.queue|
      invariant aut < |auts| && StateRefOk(auts, cur)
      invariant Then(Step(aut, cur, trace), Drain(auts, oracle, n, aut, cur, p.queue[i..], p.teamId, p.playerId)) == whole
      decreases |p.queue| - i
    {
      LoopStep(auts, oracle, n, aut, cur, p.queue, i, p.teamId, p.playerId, trace);
      var s := Advance(auts, oracle, aut, cur, p.queue[i].id, p.teamId, p.playerId);
      aut, cur, trace := s.automaton, s.state, trace + s.trace;
      i := i + 1;
    }
    assert p.queue[i..] == [];
    assert trace == whole.trace;
    q := p.(queue := [], automaton := Some(AutRef(side, aut)), state := Some(cur));
    trace := trace + [TickCall(auts, n, cur, dt)];
  }

  /** Every AI-managed player among the first `ppt` of each team is ready. */
  predicate AllReady(sets: Sets, n: nat, teams: seq<Team>, ppt: nat) {
    TeamsOk(teams, ppt) &&
    forall j, i :: 0 <= j < 2 && 0 <= i < ppt && teams[j].players[i].isAiManaged ==>
      PlayerReady(sets, n, teams[j].players[i])
  }

  /** A player visited by the driver: the set_lua_player call that precedes
      its processing, and the callbacks its processing ran. */
  datatype Visit = Visit(team: nat, player: nat, trace: seq<Callback>)

  datatype TickResult = TickResult(teams: seq<Team>, globals: Globals, visits: seq<Visit>)

  /** Position (i, j) comes before (ii, jj) in the driver's order: player
      index outer, team inner. */
  predicate Before(i: nat, j: nat, ii: nat, jj: nat) {
    i < ii || (i == ii && j < jj)
  }

  /** The position after (ii, jj) in the driver's order. */
  function NextPos(ii: nat, jj: nat): (r: (nat, nat))
    requires jj <= 1
    ensures r.1 <= 1
    ensures forall i, j :: j <= 1 ==>
              (Before(i, j, r.0, r.1) <==> Before(i, j, ii, jj) || (i == ii && j == jj))
  {
    if jj == 0 then (ii, 1) else (ii + 1, 0)
  }

  /** The loops of process_all_player_ai from position (ii, jj) on, with the
      processing of one player given as `proc`. */
  function AllFrom(proc: Player -> (Player, seq<Callback>), teams: seq<Team>, ppt: nat,
                   g: Globals, ii: nat, jj: nat): (r: TickResult)
    requires TeamsOk(teams, ppt) && ii <= ppt && jj <= 1
    ensures TeamsOk(r.teams, ppt)
    ensures forall k :: 0 <= k < 2 ==> |r.teams[k].players| == |teams[k].players|
    decreases ppt - ii, 2 - jj
  {
    if ii == ppt then TickResult(teams, g, [])
    else
      var ni, nj := NextPos(ii, jj).0, NextPos(ii, jj).1;
      var p := teams[jj].players[ii];
      if !p.isAiManaged then AllFrom(proc, teams, ppt, g, ni, nj)
      else
        var g2 := SetLuaPlayer(g, jj, ii);
        var t2 := SetPlayer(teams, jj, ii, proc(p).0);
        var rest := AllFrom(proc, t2, ppt, g2, ni, nj);
        TickResult(rest.teams, rest.globals, [Visit(jj, ii, proc(p).1)] + rest.visits)
  }

  /** The players after the pass from (ii, jj): each AI-managed one among
      the first `ppt`, at or after (ii, jj), replaced by its processing. */
  predicate PlayersAfter(proc: Player -> (Player, seq<Callback>), teams: seq<Team>, ppt: nat,
                         ii: nat, jj: nat, after: seq<Team>)
    requires |teams| == 2 && |after| == 2
  {
    forall j, i :: 0 <= j < 2 && 0 <= i < |teams[j].players| ==>
      i < |after[j].players| &&
      after[j].players[i] ==
        (if i < ppt && !Before(i, j, ii, jj) && teams[j].players[i].isAiManaged
         then proc(teams[j].players[i]).0
         else teams[j].players[i])
  }

  /** Every visit is of an AI-managed player among the first `ppt`, not
      before (ii, jj), and carries the callbacks of processing it. */
  predicate VisitsManaged(proc: Player -> (Player, seq<Callback>), teams: seq<Team>, ppt: nat,
                          ii: nat, jj: nat, vs: seq<Visit>)
    requires TeamsOk(teams, ppt)
  {
    forall x :: 0 <= x < |vs| ==>
      vs[x].team < 2 && vs[x].player < ppt && !Before(vs[x].player, vs[x].team, ii, jj)
      && teams[vs[x].team].players[vs[x].player].isAiManaged
      && vs[x].trace == proc(teams[vs[x].team].players[vs[x].player]).1
  }

  /** Visits come in the driver's order. */
  predicate VisitsOrdered(vs: seq<Visit>) {
    forall x, y :: 0 <= x < y < |vs| ==> Before(vs[x].player, vs[x].team, vs[y].player, vs[y].team)
  }

  /** Every AI-managed player among the first `ppt`, not before (ii, jj), is
      visited. */
  predicate VisitsComplete(teams: seq<Team>, ppt: nat, ii: nat, jj: nat, vs: seq<Visit>)
    requires TeamsOk(teams, ppt)
  {
    forall j, i :: 0 <= j < 2 && 0 <= i < ppt && !Before(i, j, ii, jj)
                   && teams[j].players[i].isAiManaged ==>
      exists x :: 0 <= x < |vs| && vs[x].team == j && vs[x].player == i
  }

  /** The callback globals after a pass that made the visits `vs`. */
  predicate GlobalsAfter(g: Globals, vs: seq<Visit>, after: Globals) {
    if |vs| == 0 then after == g
    else after == SetLuaPlayer(g, vs[|vs| - 1].team, vs[|vs| - 1].player)
  }

  /** From (ii, jj) on, each AI-managed player among the first `ppt` is
      replaced by the result of processing it; every other player stays. */
  lemma {:induction false} AllFromPlayers(proc: Player -> (Player, seq<Callback>), teams: seq<Team>, ppt: nat,
                                          g: Globals, ii: nat, jj: nat)
    requires TeamsOk(teams, ppt) && ii <= ppt && jj <= 1
    ensures PlayersAfter(proc, teams, ppt, ii, jj, AllFrom(proc, teams, ppt, g, ii, jj).teams)
    decreases ppt - ii, 2 - jj
  {
    if ii < ppt {
      var ni, nj := NextPos(ii, jj).0, NextPos(ii, jj).1;
      var p := teams[jj].players[ii];
      if !p.isAiManaged {
        AllFromPlayers(proc, teams, ppt, g, ni, nj);
      } else {
        var t2 := SetPlayer(teams, jj, ii, proc(p).0);
        AllFromPlayers(proc, t2, ppt, SetLuaPlayer(g, jj, ii), ni, nj);
      }
    }
  }

  /** From (ii, jj) on, every visit is of an AI-managed player among the
      first `ppt`, not before (ii, jj), and carries the callbacks of
      processing that player as it was. */
  lemma {:induction false} AllFromVisitsManaged(proc: Player -> (Player, seq<Callback>), teams: seq<Team>, ppt: nat,
                                                g: Globals, ii: nat, jj: nat)
    requires TeamsOk(teams, ppt) && ii <= ppt && jj <= 1
    ensures VisitsManaged(proc, teams, ppt, ii, jj, AllFrom(proc, teams, ppt, g, ii, jj).visits)
    decreases ppt - ii, 2 - jj
  {
    if ii < ppt {
      var ni, nj := NextPos(ii, jj).0, NextPos(ii, jj).1;
      var p := teams[jj].players[ii];
      var r := AllFrom(proc, teams, ppt, g, ii, jj);
      if !p.isAiManaged {
        AllFromVisitsManaged(proc, teams, ppt, g, ni, nj);
        assert r == AllFrom(proc, teams, ppt, g, ni, nj);
      } else {
        var t2 := SetPlayer(teams, jj, ii, proc(p).0);
        var g2 := SetLuaPlayer(g, jj, ii);
        AllFromVisitsManaged(proc, t2, ppt, g2, ni, nj);
        var rest := AllFrom(proc, t2, ppt, g2, ni, nj);
        assert r.visits == [Visit(jj, ii, proc(p).1)] + rest.visits;
        forall x | 1 <= x < |r.visits|
          ensures r.visits[x].team < 2 && r.visits[x].player < ppt
          ensures !Before(r.visits[x].player, r.visits[x].team, ii, jj)
          ensures teams[r.visits[x].team].players[r.visits[x].player].isAiManaged
          ensures r.visits[x].trace == proc(teams[r.visits[x].team].players[r.visits[x].player]).1
        {
          var v := rest.visits[x - 1];
          assert r.visits[x] == v;
          assert !Before(v.player, v.team, ni, nj);
          assert t2[v.team].players[v.player] == teams[v.team].players[v.player];
        }
      }
    }
  }

  /** The visits come in the driver's order: player index outer, team inner. */
  lemma {:induction false} AllFromVisitsOrdered(proc: Player -> (Player, seq<Callback>), teams: seq<Team>, ppt: nat,
                                                g: Globals, ii: nat, jj: nat)
    requires TeamsOk(teams, ppt) && ii <= ppt && jj <= 1
    ensures VisitsOrdered(AllFrom(proc, teams, ppt, g, ii, jj).visits)
    decreases ppt - ii, 2 - jj
  {
    if ii < ppt {
      var ni, nj := NextPos(ii, jj).0, NextPos(ii, jj).1;
      var p := teams[jj].players[ii];
      if !p.isAiManaged {
        AllFromVisitsOrdered(proc, teams, ppt, g, ni, nj);
        assert AllFrom(proc, teams, ppt, g, ii, jj) == AllFrom(proc, teams, ppt, g, ni, nj);
      } else {
        var t2 := SetPlayer(teams, jj, ii, proc(p).0);
        var g2 := SetLuaPlayer(g, jj, ii);
        AllFromVisitsOrdered(proc, t2, ppt, g2, ni, nj);
        AllFromVisitsManaged(proc, t2, ppt, g2, ni, nj);
        var rest := AllFrom(proc, t2, ppt, g2, ni, nj);
        var r := AllFrom(proc, teams, ppt, g, ii, jj);
        assert r.visits == [Visit(jj, ii, proc(p).1)] + rest.visits;
        forall x, y | 0 <= x < y < |r.visits|
          ensures Before(r.visits[x].player, r.visits[x].team, r.visits[y].player, r.visits[y].team)
        {
          assert r.visits[y] == rest.visits[y - 1];
          if x == 0 {
            assert !Before(rest.visits[y - 1].player, rest.visits[y - 1].team, ni, nj);
          } else {
            assert r.visits[x] == rest.visits[x - 1];
          }
        }
      }
    }
  }

  /** Every AI-managed player among the first `ppt`, from (ii, jj) on, is
      visited. */
  lemma {:induction false} AllFromVisitsComplete(proc: Player -> (Player, seq<Callback>), teams: seq<Team>, ppt: nat,
                                                 g: Globals, ii: nat, jj: nat)
    requires TeamsOk(teams, ppt) && ii <= ppt && jj <= 1
    ensures VisitsComplete(teams, ppt, ii, jj, AllFrom(proc, teams, ppt, g, ii, jj).visits)
    decreases ppt - ii, 2 - jj
  {
    if ii < ppt {
      var ni, nj := NextPos(ii, jj).0, NextPos(ii, jj).1;
      var p := teams[jj].players[ii];
      if !p.isAiManaged {
        AllFromVisitsComplete(proc, teams, ppt, g, ni, nj);
      } else {
        var t2 := SetPlayer(teams, jj, ii, proc(p).0);
        var g2 := SetLuaPlayer(g, jj, ii);
        AllFromVisitsComplete(proc, t2, ppt, g2, ni, nj);
        var rest := AllFrom(proc, t2, ppt, g2, ni, nj);
        var r := AllFrom(proc, teams, ppt, g, ii, jj);
        assert r.visits == [Visit(jj, ii, proc(p).1)] + rest.visits;
        forall j, i | 0 <= j < 2 && 0 <= i < ppt && !Before(i, j, ii, jj) && teams[j].players[i].isAiManaged
          ensures exists x :: 0 <= x < |r.visits| && r.visits[x].team == j && r.visits[x].player == i
        {
          if i == ii && j == jj {
            assert r.visits[0].team == j && r.visits[0].player == i;
          } else {
            assert t2[j].players[i] == teams[j].players[i];
            var x :| 0 <= x < |rest.visits| && rest.visits[x].team == j && rest.visits[x].player == i;
            assert r.visits[x + 1] == rest.visits[x];
          }
        }
      }
    }
  }

  /** After the pass the callback globals name the last player visited, or
      are untouched if no player was visited. */
  lemma {:induction false} AllFromGlobals(proc: Player -> (Player, seq<Callback>), teams: seq<Team>, ppt: nat,
                                          g: Globals, ii: nat, jj: nat)
    requires TeamsOk(teams, ppt) && ii <= ppt && jj <= 1
    ensures GlobalsAfter(g, AllFrom(proc, teams, ppt, g, ii, jj).visits, AllFrom(proc, teams, ppt, g, ii, jj).globals)
    decreases ppt - ii, 2 - jj
  {
    if ii < ppt {
      var ni, nj := NextPos(ii, jj).0, NextPos(ii, jj).1;
      var p := teams[jj].players[ii];
      if !p.isAiManaged {
        AllFromGlobals(proc, teams, ppt, g, ni, nj);
      } else {
        var t2 := SetPlayer(teams, jj, ii, proc(p).0);
        AllFromGlobals(proc, t2, ppt, SetLuaPlayer(g, jj, ii), ni, nj);
      }
    }
  }

  /** Processing of one player as the driver applies it; players that are
      not ready are never handed to it. */
  function Processor(sets: Sets, oracle: Oracle, n: nat, dt: nat): Player -> (Player, seq<Callback>) {
    p => if PlayerReady(sets, n, p) then ProcessPlayer(sets, oracle, n, p, dt) else (p, [])
  }

  /** The processor is process_player_ai on every player the driver hands it. */
  lemma ProcessorIsProcessPlayer(sets: Sets, oracle: Oracle, n: nat, dt: nat, p: Player)
    requires PlayerReady(sets, n, p)
    ensures Processor(sets, oracle, n, dt)(p) == ProcessPlayer(sets, oracle, n, p, dt)
  {
  }

  /** process_all_player_ai: each AI-managed player among the first `ppt` of
      each team is processed once, in player-index-major order with team 0
      first, right after set_lua_player names it; players not under AI
      control, and their queues, are left alone. */
  function ProcessAll(sets: Sets, oracle: Oracle, n: nat, teams: seq<Team>, ppt: nat,
                      g: Globals, dt: nat): (r: TickResult)
    requires AllReady(sets, n, teams, ppt)
    ensures TeamsOk(r.teams, ppt)
    ensures PlayersAfter(Processor(sets, oracle, n, dt), teams, ppt, 0, 0, r.teams)
    ensures VisitsManaged(Processor(sets, oracle, n, dt), teams, ppt, 0, 0, r.visits)
    ensures VisitsOrdered(r.visits)
    ensures VisitsComplete(teams, ppt, 0, 0, r.visits)
    ensures GlobalsAfter(g, r.visits, r.globals)
  {
    var proc := Processor(sets, oracle, n, dt);
    AllFromPlayers(proc, teams, ppt, g, 0, 0);
    AllFromVisitsManaged(proc, teams, ppt, g, 0, 0);
    AllFromVisitsOrdered(proc, teams, ppt, g, 0, 0);
    AllFromVisitsComplete(proc, teams, ppt, g, 0, 0);
    AllFromGlobals(proc, teams, ppt, g, 0, 0);
    AllFrom(proc, teams, ppt, g, 0, 0)
  }

  /** After the pass every AI-managed player has been through
      process_player_ai, has an empty queue and is ready for the next tick;
      every other player is unchanged. */
  lemma ProcessAllDrainsQueues(sets: Sets, oracle: Oracle, n: nat, teams: seq<Team>, ppt: nat,
                               g: Globals, dt: nat, j: nat, i: nat)
    requires AllReady(sets, n, teams, ppt) && j < 2 && i < |teams[j].players|
    ensures var r := ProcessAll(sets, oracle, n, teams, ppt, g, dt);
      r.teams[j].players[i] ==
        if i < ppt && teams[j].players[i].isAiManaged
        then ProcessPlayer(sets, oracle, n, teams[j].players[i], dt).0
        else teams[j].players[i]
    ensures var r := ProcessAll(sets, oracle, n, teams, ppt, g, dt);
      i < ppt && teams[j].players[i].isAiManaged ==>
        r.teams[j].players[i].queue == [] && PlayerReady(sets, n, r.teams[j].players[i])
        && r.teams[j].players[i].isAiManaged
  {
    var r := ProcessAll(sets, oracle, n, teams, ppt, g, dt);
    var p := teams[j].players[i];
    assert PlayersAfter(Processor(sets, oracle, n, dt), teams, ppt, 0, 0, r.teams);
    if i < ppt && p.isAiManaged {
      ProcessorIsProcessPlayer(sets, oracle, n, dt, p);
      var q := ProcessPlayer(sets, oracle, n, p, dt).0;
      assert q.(automaton := p.automaton, state := p.state, queue := p.queue).isAiManaged == q.isAiManaged;
    }
  }
}
