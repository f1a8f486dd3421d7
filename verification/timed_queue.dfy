/** The match-wide queue of delayed events, kept sorted by the time each
    event falls due (`start + length`, a 32-bit unsigned sum). */
module TimedQueue {
  import opened Wrappers
  import opened Catalog
  import opened Players
  import Routing

  const Uint32Modulus: nat := 0x1_0000_0000

  predicate IsUint32(v: nat) { v < Uint32Modulus }

  /** A queued event: for one player, or for all players when `allPlayers`. */
  datatype TimedNode = TimedNode(event: Event, length: nat, start: nat,
                                 playerId: nat, teamId: nat, allPlayers: bool)

  /** The time the node falls due, wrapping as the C `Uint32` sum does. */
  function PopTime(n: TimedNode): (t: nat)
    ensures IsUint32(t)
    ensures n.start + n.length < Uint32Modulus ==> t == n.start + n.length
  {
    (n.start + n.length) % Uint32Modulus
  }

  predicate Sorted(q: seq<TimedNode>) {
    forall i, j :: 0 <= i < j < |q| ==> PopTime(q[i]) <= PopTime(q[j])
  }

  /** create_automaton_timed_event_queue: a new queue is empty. */
  function Create(): (q: seq<TimedNode>)
    ensures |q| == 0 && Sorted(q)
  {
    []
  }

  /** The index of the first node that falls due strictly after `t`, or the
      length of the queue if there is none. */
  function FirstLater(q: seq<TimedNode>, t: nat): (k: nat)
    ensures k <= |q|
    ensures forall i :: 0 <= i < k ==> PopTime(q[i]) <= t
    ensures k < |q| ==> PopTime(q[k]) > t
  {
    if |q| == 0 || PopTime(q[0]) > t then 0 else 1 + FirstLater(q[1..], t)
  }

  /** insert_timed_event_queue_node as intended: the node goes before the
      first node that falls due strictly later, so after every node due at the
      same time or earlier; at the end if there is none. */
  function Insert(q: seq<TimedNode>, n: TimedNode): (r: seq<TimedNode>)
    ensures var k := FirstLater(q, PopTime(n)); r == q[..k] + [n] + q[k..]
    ensures |q| == 0 ==> r == [n]
    ensures |q| > 0 && PopTime(q[0]) > PopTime(n) ==> r == [n] + q
  {
    if |q| == 0 then [n]
    else if PopTime(q[0]) > PopTime(n) then [n] + q
    else
      assert q == [q[0]] + q[1..];
      [q[0]] + Insert(q[1..], n)
  }

  /** Insertion adds exactly the one node. */
  lemma InsertMultiset(q: seq<TimedNode>, n: TimedNode)
    ensures multiset(Insert(q, n)) == multiset(q) + multiset{n}
  {
    var k := FirstLater(q, PopTime(n));
    assert q == q[..k] + q[k..];
  }

  lemma SortedTail(q: seq<TimedNode>)
    requires |q| > 0 && Sorted(q)
    ensures Sorted(q[1..])
    ensures forall x :: x in q[1..] ==> PopTime(q[0]) <= PopTime(x)
  {
    forall i, j | 0 <= i < j < |q[1..]| ensures PopTime(q[1..][i]) <= PopTime(q[1..][j]) {
      assert q[1..][i] == q[i + 1] && q[1..][j] == q[j + 1];
    }
  }

  /** Prepending a node due no later than everything in a sorted queue keeps
      it sorted. */
  lemma SortedCons(x: TimedNode, tail: seq<TimedNode>)
    requires Sorted(tail)
    requires forall y :: y in tail ==> PopTime(x) <= PopTime(y)
    ensures Sorted([x] + tail)
  {
    var r := [x] + tail;
    forall i, j | 0 <= i < j < |r| ensures PopTime(r[i]) <= PopTime(r[j]) {
      assert r[j] == tail[j - 1];
      if i > 0 {
        assert r[i] == tail[i - 1];
      } else {
        assert r[j] in tail;
      }
    }
  }

  /** Insertion keeps the queue sorted and adds exactly the one node. */
  lemma {:induction false} InsertSorted(q: seq<TimedNode>, n: TimedNode)
    requires Sorted(q)
    ensures Sorted(Insert(q, n))
    ensures multiset(Insert(q, n)) == multiset(q) + multiset{n}
    decreases |q|
  {
    InsertMultiset(q, n);
    if |q| == 0 {
    } else if PopTime(q[0]) > PopTime(n) {
      SortedCons(n, q);
    } else {
      SortedTail(q);
      InsertSorted(q[1..], n);
      var tail := Insert(q[1..], n);
      forall y | y in tail ensures PopTime(q[0]) <= PopTime(y) {
        InsertMultiset(q[1..], n);
        assert y in multiset(tail);
      }
      SortedCons(q[0], tail);
    }
  }

  /** insert_timed_event_queue_node as written. Once the queue holds two nodes
      and the new node does not go first, the scan loop neither advances nor
      breaks and never returns (None). */
  function InsertAsWritten(q: seq<TimedNode>, n: TimedNode): (r: Option<seq<TimedNode>>)
    ensures r.None? <==> |q| >= 2 && PopTime(q[0]) <= PopTime(n)
    ensures r.Some? ==> multiset(r.value) == multiset(q) + multiset{n}
  {
    if |q| == 0 then Some([n])
    else if PopTime(q[0]) > PopTime(n) then Some([n] + q)
    else if |q| == 1 then Some(q + [n])
    else None
  }

  /** Where the written code returns, it agrees with the intended insert;
      it fails to return exactly in the scanning case. */
  lemma InsertAsWrittenAgrees(q: seq<TimedNode>, n: TimedNode)
    ensures InsertAsWritten(q, n).Some? ==> InsertAsWritten(q, n).value == Insert(q, n)
    ensures InsertAsWritten(q, n).None? <==> |q| >= 2 && PopTime(q[0]) <= PopTime(n)
  {
    if |q| == 1 && PopTime(q[0]) <= PopTime(n) {
      assert Insert(q[1..], n) == [n];
    }
  }

  /** Concrete instance: two queued nodes due at 1 and 2, a third due at 3. */
  lemma InsertAsWrittenHangs(e: Event)
    ensures var a := TimedNode(e, 1, 0, 0, 0, true);
      var b := TimedNode(e, 2, 0, 0, 0, true);
      var c := TimedNode(e, 3, 0, 0, 0, true);
      InsertAsWritten([a, b], c).None? && Insert([a, b], c) == [a, b, c]
  {
    var a := TimedNode(e, 1, 0, 0, 0, true);
    var b := TimedNode(e, 2, 0, 0, 0, true);
    var c := TimedNode(e, 3, 0, 0, 0, true);
    assert [a, b][1..] == [b];
    assert [b][1..] == [];
  }

  /** The events due at time `t`: the leading nodes with pop time at most `t`,
      and the queue that remains. */
  function PopDue(q: seq<TimedNode>, t: nat): (r: (seq<TimedNode>, seq<TimedNode>))
    ensures r.0 + r.1 == q
    ensures forall i :: 0 <= i < |r.0| ==> PopTime(r.0[i]) <= t
    ensures |r.1| > 0 ==> PopTime(r.1[0]) > t
  {
    var k := FirstLater(q, t);
    assert q == q[..k] + q[k..];
    (q[..k], q[k..])
  }

  /** On a sorted queue the pop takes every due node and leaves only nodes
      that are not yet due. */
  lemma PopDueExact(q: seq<TimedNode>, t: nat)
    requires Sorted(q)
    ensures forall i :: 0 <= i < |PopDue(q, t).1| ==> PopTime(PopDue(q, t).1[i]) > t
    ensures Sorted(PopDue(q, t).1)
  {
    var rest := PopDue(q, t).1;
    var k := |q| - |rest|;
    forall i | 0 <= i < |rest| ensures PopTime(rest[i]) > t {
      assert rest[i] == q[k + i] && rest[0] == q[k];
    }
  }

  /** Whether node `n` is for player `i` of team `k`: a node for all
      players reaches the first `ppt` players of both teams, any other node
      the one player it names. */
  predicate ForPlayer(n: TimedNode, k: nat, i: nat, ppt: nat) {
    if n.allPlayers then k < 2 && i < ppt else n.teamId == k && n.playerId == i
  }

  /** The events of `ns` that are for player `i` of team `k`, in queue order. */
  function EventsFor(ns: seq<TimedNode>, k: nat, i: nat, ppt: nat): seq<Event>
    decreases |ns|
  {
    if |ns| == 0 then []
    else (if ForPlayer(ns[0], k, i, ppt) then [ns[0].event] else []) + EventsFor(ns[1..], k, i, ppt)
  }

  /** process_timed_event_node: the node's event is appended to the queue of
      every player it is for, and nothing else about the teams changes. */
  function Deliver(teams: seq<Team>, ppt: nat, n: TimedNode): (r: seq<Team>)
    requires TeamsOk(teams, ppt)
    requires !n.allPlayers ==> n.teamId < 2 && n.playerId < |teams[n.teamId].players|
    ensures TeamsOk(r, ppt)
    ensures forall k :: 0 <= k < 2 ==>
              |r[k].players| == |teams[k].players|
              && r[k].isOffense == teams[k].isOffense
              && r[k].attackingLeftToRight == teams[k].attackingLeftToRight
    ensures forall k, m :: 0 <= k < 2 && 0 <= m < |r[k].players| ==>
              r[k].players[m] == teams[k].players[m].(queue := teams[k].players[m].queue
                                   + if ForPlayer(n, k, m, ppt) then [n.event] else [])
  {
    if n.allPlayers then Routing.ThrowMulti(teams, ppt, n.event)
    else Routing.ThrowSingle(teams, n.teamId, n.playerId, n.event)
  }

  /** Every node of `q` names a player that exists, unless it is for all. */
  predicate Addressable(teams: seq<Team>, q: seq<TimedNode>) {
    |teams| == 2 &&
    forall i :: 0 <= i < |q| && !q[i].allPlayers ==>
      q[i].teamId < 2 && q[i].playerId < |teams[q[i].teamId].players|
  }

  /** `r` is `teams` with each player's queue extended by the events of
      `ns` that are for it, in queue order; nothing else differs. */
  predicate Received(teams: seq<Team>, r: seq<Team>, ppt: nat, ns: seq<TimedNode>) {
    && |teams| == 2 && |r| == 2
    && (forall k :: 0 <= k < 2 ==>
          |r[k].players| == |teams[k].players|
          && r[k].isOffense == teams[k].isOffense
          && r[k].attackingLeftToRight == teams[k].attackingLeftToRight)
    && (forall k, m :: 0 <= k < 2 && 0 <= m < |r[k].players| ==>
          r[k].players[m] == teams[k].players[m].(queue := teams[k].players[m].queue
                               + EventsFor(ns, k, m, ppt)))
  }

  lemma DeliverReceived(teams: seq<Team>, ppt: nat, n: TimedNode)
    requires TeamsOk(teams, ppt)
    requires !n.allPlayers ==> n.teamId < 2 && n.playerId < |teams[n.teamId].players|
    ensures Received(teams, Deliver(teams, ppt, n), ppt, [n])
  {
    assert [n][1..] == [];
  }

  /** Delivering the first node and then the rest is delivering them all. */
  lemma ReceivedStep(teams: seq<Team>, t: seq<Team>, r: seq<Team>, ppt: nat, ns: seq<TimedNode>)
    requires |ns| > 0
    requires Received(teams, t, ppt, [ns[0]]) && Received(t, r, ppt, ns[1..])
    ensures Received(teams, r, ppt, ns)
  {
    assert [ns[0]][1..] == [];
    forall k, m | 0 <= k < 2 && 0 <= m < |r[k].players|
      ensures r[k].players[m] == teams[k].players[m].(queue := teams[k].players[m].queue
                                   + EventsFor(ns, k, m, ppt))
    {
      var head := EventsFor([ns[0]], k, m, ppt);
      assert head == (if ForPlayer(ns[0], k, m, ppt) then [ns[0].event] else []) + EventsFor([ns[0]][1..], k, m, ppt);
      assert EventsFor(ns, k, m, ppt) == head + EventsFor(ns[1..], k, m, ppt);
      assert teams[k].players[m].queue + head + EventsFor(ns[1..], k, m, ppt)
          == teams[k].players[m].queue + EventsFor(ns, k, m, ppt);
    }
  }

  /** The nodes `ns` processed in order: each player's queue gains exactly
      the events of the nodes that are for it, in queue order. */
  function DeliverAll(teams: seq<Team>, ppt: nat, ns: seq<TimedNode>): (r: seq<Team>)
    requires TeamsOk(teams, ppt) && Addressable(teams, ns)
    ensures TeamsOk(r, ppt)
    ensures Received(teams, r, ppt, ns)
    decreases |ns|
  {
    if |ns| == 0 then
      assert forall k, m :: 0 <= k < 2 && 0 <= m < |teams[k].players| ==>
        teams[k].players[m].queue + EventsFor(ns, k, m, ppt) == teams[k].players[m].queue;
      teams
    else
      var t := Deliver(teams, ppt, ns[0]);
      DeliverReceived(teams, ppt, ns[0]);
      assert Addressable(t, ns[1..]) by {
        forall i | 0 <= i < |ns[1..]| && !ns[1..][i].allPlayers
          ensures ns[1..][i].teamId < 2 && ns[1..][i].playerId < |t[ns[1..][i].teamId].players|
        {
          assert ns[1..][i] == ns[i + 1];
        }
      }
      var r := DeliverAll(t, ppt, ns[1..]);
      ReceivedStep(teams, t, r, ppt, ns);
      r
  }

  /** pop_all_timed_events as intended: deliver, in queue order, every node
      that is due at `t`, and keep the rest. */
  function PopAll(q: seq<TimedNode>, t: nat, teams: seq<Team>, ppt: nat): (r: (seq<TimedNode>, seq<Team>))
    requires TeamsOk(teams, ppt) && Addressable(teams, q)
    ensures r.0 == PopDue(q, t).1
    ensures TeamsOk(r.1, ppt)
    ensures Received(teams, r.1, ppt, PopDue(q, t).0)
  {
    var (due, rest) := PopDue(q, t);
    assert forall i :: 0 <= i < |due| ==> due[i] == q[i];
    (rest, DeliverAll(teams, ppt, due))
  }

  /** The events for player `i` of team `k` of every node of `q` that is due
      at `t`, wherever it stands in the queue. */
  function DueEventsFor(q: seq<TimedNode>, t: nat, k: nat, i: nat, ppt: nat): seq<Event>
    decreases |q|
  {
    if |q| == 0 then []
    else (if PopTime(q[0]) <= t && ForPlayer(q[0], k, i, ppt) then [q[0].event] else [])
         + DueEventsFor(q[1..], t, k, i, ppt)
  }

  lemma {:induction false} NoneDue(q: seq<TimedNode>, t: nat, k: nat, i: nat, ppt: nat)
    requires forall j :: 0 <= j < |q| ==> PopTime(q[j]) > t
    ensures DueEventsFor(q, t, k, i, ppt) == []
    decreases |q|
  {
    if |q| > 0 {
      assert forall j :: 0 <= j < |q[1..]| ==> q[1..][j] == q[j + 1];
      NoneDue(q[1..], t, k, i, ppt);
    }
  }

  /** On a sorted queue the due prefix holds every due node. */
  lemma {:induction false} DuePrefix(q: seq<TimedNode>, t: nat, k: nat, i: nat, ppt: nat)
    requires Sorted(q)
    ensures EventsFor(PopDue(q, t).0, k, i, ppt) == DueEventsFor(q, t, k, i, ppt)
    decreases |q|
  {
    if |q| == 0 {
    } else if PopTime(q[0]) > t {
      forall j | 0 <= j < |q| ensures PopTime(q[j]) > t {
        if j > 0 { assert PopTime(q[0]) <= PopTime(q[j]); }
      }
      NoneDue(q, t, k, i, ppt);
    } else {
      SortedTail(q);
      DuePrefix(q[1..], t, k, i, ppt);
      var d := PopDue(q, t).0;
      var d1 := PopDue(q[1..], t).0;
      assert FirstLater(q, t) == 1 + FirstLater(q[1..], t);
      assert d == [q[0]] + d1;
      assert d[1..] == d1;
    }
  }

  /** The pop on a sorted queue hands each player exactly the due events for
      it, in queue order, and keeps exactly the nodes not yet due. */
  lemma PopAllDeliversDue(q: seq<TimedNode>, t: nat, teams: seq<Team>, ppt: nat, k: nat, m: nat)
    requires TeamsOk(teams, ppt) && Addressable(teams, q) && Sorted(q)
    requires k < 2 && m < |teams[k].players|
    ensures PopAll(q, t, teams, ppt).1[k].players[m]
            == teams[k].players[m].(queue := teams[k].players[m].queue + DueEventsFor(q, t, k, m, ppt))
    ensures forall j :: 0 <= j < |PopAll(q, t, teams, ppt).0| ==> PopTime(PopAll(q, t, teams, ppt).0[j]) > t
  {
    DuePrefix(q, t, k, m, ppt);
    PopDueExact(q, t);
  }

  /** The outcome of the pop as written: either the queue left behind, or a
      read of a freed node after the listed nodes were delivered. */
  datatype PopOutcome =
    | Popped(delivered: seq<TimedNode>, rest: seq<TimedNode>)
    | FaultAfter(delivered: seq<TimedNode>)

  /** pop_all_timed_events as written: the loop runs while the head is NOT yet
      due, and after freeing the head it tests the same, now freed, node. */
  function PopAsWritten(q: seq<TimedNode>, t: nat): (r: PopOutcome)
    ensures r.Popped? ==> r.delivered == [] && r.rest == q
    ensures r.FaultAfter? ==> |q| > 0 && r.delivered == [q[0]] && PopTime(q[0]) > t
  {
    if |q| == 0 || PopTime(q[0]) <= t then Popped([], q)
    else FaultAfter([q[0]])
  }

  /** The written pop never delivers a due event, and whenever it delivers
      anything it delivers an event that is not yet due and then faults. */
  lemma PopAsWrittenInverted(q: seq<TimedNode>, t: nat)
    ensures PopAsWritten(q, t).Popped? ==> PopAsWritten(q, t).delivered == []
    ensures PopAsWritten(q, t).FaultAfter? ==>
              |q| > 0 && PopTime(q[0]) > t && PopDue(q, t).0 == []
    ensures |q| > 0 && PopTime(q[0]) <= t ==>
              PopAsWritten(q, t) == Popped([], q) && |PopDue(q, t).0| > 0
  {
  }
}
