/** The per-player event queue: a doubly linked list that events are added to
    at the top and taken from at the bottom.

    The list is modelled at pointer level: `nodes` is the set of allocated
    nodes by address, freeing a node removes it from the map, and touching a
    node that is not in the map is a use-after-free. Its meaning is the FIFO
    sequence of events from bottom (oldest) to top (newest). */
module EventQueue {
  import opened Wrappers

  datatype Fault = UseAfterFree

  /** `next` points towards the bottom (older events), `prev` towards the top. */
  datatype Node<T> = Node(event: T, next: Option<nat>, prev: Option<nat>)

  datatype Linked<T> = Linked(nodes: map<nat, Node<T>>, top: Option<nat>, bottom: Option<nat>)

  ghost predicate Distinct(ids: seq<nat>) {
    forall i, j :: 0 <= i < j < |ids| ==> ids[i] != ids[j]
  }

  /** Exactly the nodes in `ids` are allocated. */
  ghost predicate Allocated<T>(nodes: map<nat, Node<T>>, ids: seq<nat>) {
    && (forall i :: 0 <= i < |ids| ==> ids[i] in nodes)
    && (forall n :: n in nodes ==> n in ids)
  }

  ghost predicate Ends<T>(l: Linked<T>, ids: seq<nat>) {
    && (|ids| == 0 ==> l.top.None? && l.bottom.None?)
    && (|ids| > 0 ==> l.bottom == Some(ids[0]) && l.top == Some(ids[|ids| - 1]))
  }

  ghost predicate PrevLinks<T>(nodes: map<nat, Node<T>>, ids: seq<nat>)
    requires forall i :: 0 <= i < |ids| ==> ids[i] in nodes
  {
    forall i :: 0 <= i < |ids| ==>
      nodes[ids[i]].prev == (if i + 1 < |ids| then Some(ids[i + 1]) else None)
  }

  ghost predicate NextLinks<T>(nodes: map<nat, Node<T>>, ids: seq<nat>)
    requires forall i :: 0 <= i < |ids| ==> ids[i] in nodes
  {
    forall i :: 0 <= i < |ids| ==>
      nodes[ids[i]].next == (if i > 0 then Some(ids[i - 1]) else None)
  }

  /** `ids` lists the queue's nodes from bottom to top, correctly linked, and
      no other node is allocated. */
  ghost predicate Repr<T>(l: Linked<T>, ids: seq<nat>) {
    && Distinct(ids)
    && Allocated(l.nodes, ids)
    && Ends(l, ids)
    && PrevLinks(l.nodes, ids)
    && NextLinks(l.nodes, ids)
  }

  /** The events of the queue, oldest first. */
  ghost function Contents<T>(l: Linked<T>, ids: seq<nat>): seq<T>
    requires forall i :: 0 <= i < |ids| ==> ids[i] in l.nodes
  {
    seq(|ids|, i requires 0 <= i < |ids| => l.nodes[ids[i]].event)
  }

  /** create_event_queue. */
  function Create<T>(): (l: Linked<T>)
    ensures Repr(l, []) && l.top.None? && l.bottom.None?
  {
    Linked(map[], None, None)
  }

  /** add_event_to_queue, with `addr` the address of the newly allocated node. */
  function Add<T>(l: Linked<T>, e: T, addr: nat): (r: Result<Linked<T>, Fault>)
    requires addr !in l.nodes
    ensures r.Err? <==> l.top.Some? && l.top.value !in l.nodes
    ensures r.Ok? ==>
              && r.value.top == Some(addr) && r.value.nodes.Keys == l.nodes.Keys + {addr}
              && r.value.nodes[addr] == Node(e, l.top, None)
              && r.value.bottom == (if l.top.None? then Some(addr) else l.bottom)
  {
    match l.top
    case None => Ok(Linked(l.nodes[addr := Node(e, None, None)], Some(addr), Some(addr)))
    case Some(t) =>
      if t !in l.nodes then Err(UseAfterFree)
      else
        var nodes := l.nodes[t := l.nodes[t].(prev := Some(addr))];
        Ok(Linked(nodes[addr := Node(e, Some(t), None)], Some(addr), l.bottom))
  }

  /** get_event_from_queue as written: the bottom pointer is moved up before
      the node is freed, so the NEW bottom is freed and then written to. */
  function TakeAsWritten<T>(l: Linked<T>): (r: Result<(Option<T>, Linked<T>), Fault>)
    ensures l.bottom.None? ==> r == Ok((None, l))
    ensures l.bottom.Some? && l.bottom.value in l.nodes && l.nodes[l.bottom.value].prev.Some? ==> r.Err?
    ensures r.Ok? ==> r.value.1.nodes == l.nodes
    ensures r.Ok? && r.value.0.Some? ==>
              && l.bottom.Some? && l.bottom.value in l.nodes
              && r.value.0 == Some(l.nodes[l.bottom.value].event)
              && r.value.1.top.None? && r.value.1.bottom.None?
  {
    match l.bottom
    case None => Ok((None, l))
    case Some(b) =>
      if b !in l.nodes then Err(UseAfterFree)
      else
        var ev := l.nodes[b].event;
        match l.nodes[b].prev
        // freeing a NULL new bottom does nothing; the old bottom is never freed
        case None => Ok((Some(ev), Linked(l.nodes, None, None)))
        // the new bottom has just been freed, so `bottom->next = NULL` faults
        case Some(n) => Err(UseAfterFree)
  }

  /** get_event_from_queue as intended: the removed bottom node is freed. */
  function Take<T>(l: Linked<T>): (r: Result<(Option<T>, Linked<T>), Fault>)
    ensures l.bottom.None? ==> r == Ok((None, l))
    ensures r.Ok? && l.bottom.Some? ==>
              && l.bottom.value in l.nodes
              && r.value.0 == Some(l.nodes[l.bottom.value].event)
              && r.value.1.nodes.Keys == l.nodes.Keys - {l.bottom.value}
              && r.value.1.bottom == l.nodes[l.bottom.value].prev
              && (r.value.1.bottom.None? ==> r.value.1.top.None?)
  {
    match l.bottom
    case None => Ok((None, l))
    case Some(b) =>
      if b !in l.nodes then Err(UseAfterFree)
      else
        var ev := l.nodes[b].event;
        var nb := l.nodes[b].prev;
        var nodes := l.nodes - {b};
        match nb
        case None => Ok((Some(ev), Linked(nodes, None, None)))
        case Some(n) =>
          if n !in nodes then Err(UseAfterFree)
          else Ok((Some(ev), Linked(nodes[n := nodes[n].(next := None)], l.top, nb)))
  }

  /** The C's `while (get_event_from_queue(queue, &event))` loop with the
      take as written: the events it hands out, oldest first, or the fault
      that ends it. After one event both ends are NULL, so the loop never
      hands out a second one. */
  function TakeAllAsWritten<T>(l: Linked<T>): (r: Result<seq<T>, Fault>)
    ensures l.bottom.None? ==> r == Ok([])
    ensures r.Ok? ==> |r.value| <= 1
    decreases if l.bottom.Some? then 1 else 0
  {
    match TakeAsWritten(l)
    case Err(f) => Err(f)
    case Ok((None, _)) => Ok([])
    case Ok((Some(e), l')) =>
      match TakeAllAsWritten(l')
      case Err(f) => Err(f)
      case Ok(rest) => Ok([e] + rest)
  }

  /** The same loop with the intended take, which frees one node per event. */
  function TakeAll<T>(l: Linked<T>): (r: Result<seq<T>, Fault>)
    ensures l.bottom.None? ==> r == Ok([])
    ensures r.Ok? ==> |r.value| <= |l.nodes|
    decreases |l.nodes|
  {
    match Take(l)
    case Err(f) => Err(f)
    case Ok((None, _)) => Ok([])
    case Ok((Some(e), l')) =>
      assert l.bottom.value in l.nodes.Keys && l'.nodes.Keys == l.nodes.Keys - {l.bottom.value};
      assert |l'.nodes.Keys| < |l.nodes.Keys|;
      match TakeAll(l')
      case Err(f) => Err(f)
      case Ok(rest) => Ok([e] + rest)
  }

  /** The intended loop hands out every queued event, oldest first. */
  lemma {:induction false} TakeAllYieldsContents<T>(l: Linked<T>, ids: seq<nat>)
    requires Repr(l, ids)
    ensures TakeAll(l) == Ok(Contents(l, ids))
    decreases |ids|
  {
    if |ids| == 0 {
      assert l.bottom.None?;
    } else {
      TakeRemovesOldest(l, ids);
      var (ev, l') := Take(l).value;
      TakeAllYieldsContents(l', ids[1..]);
      assert Contents(l, ids) == [Contents(l, ids)[0]] + Contents(l, ids)[1..];
    }
  }

  /** The loop as written agrees with the intended one exactly when at most
      one event is queued; with two or more the first take faults. */
  lemma TakeAllAsWrittenAgrees<T>(l: Linked<T>, ids: seq<nat>)
    requires Repr(l, ids)
    ensures TakeAllAsWritten(l).Ok? <==> |ids| <= 1
    ensures |ids| <= 1 ==> TakeAllAsWritten(l) == TakeAll(l) == Ok(Contents(l, ids))
    ensures |ids| >= 2 ==> TakeAllAsWritten(l) == Err(UseAfterFree)
  {
    TakeAllYieldsContents(l, ids);
    if |ids| >= 2 {
      TakeAsWrittenFaults(l, ids);
    } else if |ids| == 1 {
      assert l.bottom == Some(ids[0]) && l.nodes[ids[0]].prev.None?;
      var l' := TakeAsWritten(l).value.1;
      assert TakeAllAsWritten(l') == Ok([]);
    }
  }

  /** Adding puts the event at the top and leaves the older events in place. */
  lemma AddAppends<T>(l: Linked<T>, ids: seq<nat>, e: T, addr: nat)
    requires Repr(l, ids) && addr !in l.nodes
    ensures Add(l, e, addr).Ok?
    ensures var l' := Add(l, e, addr).value;
      && Repr(l', ids + [addr])
      && Contents(l', ids + [addr]) == Contents(l, ids) + [e]
      && l'.top == Some(addr)
      && (|ids| == 0 ==> l'.bottom == Some(addr))
  {
    AddKeepsOlder(l, ids, e, addr);
    AddLinks(l, ids, e, addr);
    AddAllocated(l, ids, e, addr);
    var l' := Add(l, e, addr).value;
    var ids' := ids + [addr];
    assert Contents(l', ids') == Contents(l, ids) + [e];
  }

  lemma AddAllocated<T>(l: Linked<T>, ids: seq<nat>, e: T, addr: nat)
    requires Repr(l, ids) && addr !in l.nodes
    ensures Add(l, e, addr).Ok?
    ensures Distinct(ids + [addr]) && Allocated(Add(l, e, addr).value.nodes, ids + [addr])
  {
    AddKeepsOlder(l, ids, e, addr);
    var ids' := ids + [addr];
    forall i | 0 <= i < |ids| ensures ids'[i] != addr {
    }
    forall n | n in Add(l, e, addr).value.nodes ensures n in ids' {
      if n != addr {
        assert n in ids;
        var k :| 0 <= k < |ids| && ids[k] == n;
        assert ids'[k] == n;
      }
    }
  }

  lemma AddLinks<T>(l: Linked<T>, ids: seq<nat>, e: T, addr: nat)
    requires Repr(l, ids) && addr !in l.nodes
    ensures Add(l, e, addr).Ok?
    ensures var l' := Add(l, e, addr).value;
      && (forall i :: 0 <= i < |ids| + 1 ==> (ids + [addr])[i] in l'.nodes)
      && PrevLinks(l'.nodes, ids + [addr]) && NextLinks(l'.nodes, ids + [addr])
      && Ends(l', ids + [addr])
  {
    AddKeepsOlder(l, ids, e, addr);
    var l' := Add(l, e, addr).value;
    var ids' := ids + [addr];
    forall i | 0 <= i < |ids'|
      ensures ids'[i] in l'.nodes
      ensures l'.nodes[ids'[i]].prev == (if i + 1 < |ids'| then Some(ids'[i + 1]) else None)
      ensures l'.nodes[ids'[i]].next == (if i > 0 then Some(ids'[i - 1]) else None)
    {
      if i < |ids| {
        PrevAt(l.nodes, ids, i);
        NextAt(l.nodes, ids, i);
      } else {
        assert ids'[i] == addr;
        assert i > 0 ==> ids'[i - 1] == ids[|ids| - 1];
      }
    }
    assert NextLinks(l'.nodes, ids');
  }

  /** The nodes below the old top are untouched by an add; the old top only
      gains its `prev` link. */
  lemma AddKeepsOlder<T>(l: Linked<T>, ids: seq<nat>, e: T, addr: nat)
    requires Repr(l, ids) && addr !in l.nodes
    ensures Add(l, e, addr).Ok?
    ensures var l' := Add(l, e, addr).value;
      && var ids' := ids + [addr];
      && (forall i :: 0 <= i < |ids| ==> ids'[i] == ids[i])
      && ids'[|ids|] == addr
      && (forall i :: 0 <= i < |ids| - 1 ==> l'.nodes[ids[i]] == l.nodes[ids[i]])
      && (|ids| > 0 ==> l'.nodes[ids[|ids| - 1]] == l.nodes[ids[|ids| - 1]].(prev := Some(addr)))
      && l'.nodes[addr] == Node(e, if |ids| > 0 then Some(ids[|ids| - 1]) else None, None)
      && l'.nodes.Keys == l.nodes.Keys + {addr}
  {
    if |ids| > 0 {
      var t := ids[|ids| - 1];
      forall i | 0 <= i < |ids| - 1 ensures ids[i] != t {
      }
    }
  }

  /** Taking from an empty queue yields no event and changes nothing. */
  lemma TakeEmpty<T>(l: Linked<T>)
    requires Repr(l, [])
    ensures Take(l) == Ok((None, l))
  {
  }

  /** Taking yields the oldest event, frees exactly its node and leaves the
      rest of the queue in order; taking the only event empties the queue. */
  lemma TakeRemovesOldest<T>(l: Linked<T>, ids: seq<nat>)
    requires Repr(l, ids) && |ids| > 0
    ensures Take(l).Ok?
    ensures var (ev, l') := Take(l).value;
      && ev == Some(Contents(l, ids)[0])
      && Repr(l', ids[1..])
      && Contents(l', ids[1..]) == Contents(l, ids)[1..]
      && ids[0] !in l'.nodes
      && (|ids| == 1 ==> l'.top.None? && l'.bottom.None?)
  {
    TakeKeepsRest(l, ids);
    TakeLinks(l, ids);
    TakeAllocated(l, ids);
    TakeContents(l, ids);
  }

  /** The events left after a take are the ones after the oldest. */
  lemma TakeContents<T>(l: Linked<T>, ids: seq<nat>)
    requires Repr(l, ids) && |ids| > 0
    ensures Take(l).Ok?
    ensures var l' := Take(l).value.1;
      && (forall i :: 0 <= i < |ids| - 1 ==> ids[1..][i] in l'.nodes)
      && Contents(l', ids[1..]) == Contents(l, ids)[1..]
  {
    TakeKeepsRest(l, ids);
    TakeLinks(l, ids);
    var l' := Take(l).value.1;
    var rest := ids[1..];
    forall i | 0 <= i < |rest| ensures l'.nodes[rest[i]].event == l.nodes[ids[i + 1]].event {
      assert rest[i] == ids[i + 1];
      if i == 0 {
        assert l'.nodes[ids[1]] == l.nodes[ids[1]].(next := None);
      }
    }
    assert Contents(l', rest) == Contents(l, ids)[1..];
  }

  /** Taking frees the bottom node, clears the new bottom's `next` link and
      touches no other node. */
  lemma TakeKeepsRest<T>(l: Linked<T>, ids: seq<nat>)
    requires Repr(l, ids) && |ids| > 0
    ensures Take(l).Ok?
    ensures var l' := Take(l).value.1;
      && Take(l).value.0 == Some(l.nodes[ids[0]].event)
      && l'.nodes.Keys == l.nodes.Keys - {ids[0]}
      && (forall i :: 2 <= i < |ids| ==> l'.nodes[ids[i]] == l.nodes[ids[i]])
      && (|ids| > 1 ==> l'.nodes[ids[1]] == l.nodes[ids[1]].(next := None))
      && Ends(l', ids[1..])
  {
    PrevAt(l.nodes, ids, 0);
    if |ids| > 1 {
      forall i | 2 <= i < |ids| ensures ids[i] != ids[1] && ids[i] != ids[0] {
      }
      assert ids[1] != ids[0];
    }
  }

  lemma TakeAllocated<T>(l: Linked<T>, ids: seq<nat>)
    requires Repr(l, ids) && |ids| > 0
    ensures Take(l).Ok?
    ensures Distinct(ids[1..]) && Allocated(Take(l).value.1.nodes, ids[1..])
  {
    TakeKeepsRest(l, ids);
    var rest := ids[1..];
    forall i | 0 <= i < |rest| ensures rest[i] == ids[i + 1] && rest[i] != ids[0] {
    }
    forall n | n in Take(l).value.1.nodes ensures n in rest {
      var k :| 0 <= k < |ids| && ids[k] == n;
      assert k != 0;
      assert rest[k - 1] == n;
    }
  }

  lemma TakeLinks<T>(l: Linked<T>, ids: seq<nat>)
    requires Repr(l, ids) && |ids| > 0
    ensures Take(l).Ok?
    ensures var l' := Take(l).value.1;
      && (forall i :: 0 <= i < |ids| - 1 ==> ids[1..][i] in l'.nodes)
      && PrevLinks(l'.nodes, ids[1..]) && NextLinks(l'.nodes, ids[1..])
  {
    TakeKeepsRest(l, ids);
    var l' := Take(l).value.1;
    var rest := ids[1..];
    forall i | 0 <= i < |rest|
      ensures rest[i] == ids[i + 1] && rest[i] in l'.nodes
      ensures l'.nodes[rest[i]].prev == (if i + 1 < |rest| then Some(rest[i + 1]) else None)
      ensures l'.nodes[rest[i]].next == (if i > 0 then Some(rest[i - 1]) else None)
    {
      assert ids[i + 1] != ids[0];
      PrevAt(l.nodes, ids, i + 1);
      NextAt(l.nodes, ids, i + 1);
    }
    assert PrevLinks(l'.nodes, rest);
    assert NextLinks(l'.nodes, rest);
  }

  /** The defect: as soon as the queue holds two events, taking one frees the
      node that becomes the new bottom and then writes into it. */
  lemma TakeAsWrittenFaults<T>(l: Linked<T>, ids: seq<nat>)
    requires Repr(l, ids) && |ids| >= 2
    ensures TakeAsWritten(l) == Err(UseAfterFree)
  {
    assert l.nodes[ids[0]].prev == Some(ids[1]);
  }

  /** Concrete instance: two adds to a new queue, then one take. */
  lemma TwoAddsThenTakeAsWritten()
    ensures var l1 := Add(Create<int>(), 10, 1).value;
      var l2 := Add(l1, 20, 2).value;
      TakeAsWritten(l2) == Err(UseAfterFree) && Take(l2).Ok? && Take(l2).value.0 == Some(10)
  {
    var l1 := Add(Create<int>(), 10, 1).value;
    var l2 := Add(l1, 20, 2).value;
    assert l2.bottom == Some(1) && l2.nodes[1].prev == Some(2);
  }

  /** Two adds followed by two takes give the events back in insertion order. */
  lemma FifoOrder<T>(a: T, b: T, p: nat, q: nat)
    requires p != q
    ensures var l1 := Add(Create<T>(), a, p);
      && l1.Ok? && Add(l1.value, b, q).Ok?
      && var l2 := Add(l1.value, b, q).value;
      && Take(l2).Ok? && Take(l2).value.0 == Some(a)
      && Take(Take(l2).value.1).Ok? && Take(Take(l2).value.1).value.0 == Some(b)
      && Take(Take(l2).value.1).value.1 == Create<T>()
  {
    var l0 := Create<T>();
    AddAppends(l0, [], a, p);
    var l1 := Add(l0, a, p).value;
    AddAppends(l1, [p], b, q);
    var l2 := Add(l1, b, q).value;
    assert [p] + [q] == [p, q];
    TakeRemovesOldest(l2, [p, q]);
    var l3 := Take(l2).value.1;
    assert [p, q][1..] == [q];
    TakeRemovesOldest(l3, [q]);
    var l4 := Take(l3).value.1;
    assert Repr(l4, []);
    assert l4.nodes == map[];
  }

  /** destroy_event_queue: from the top, read each node's `next`, free the
      node and move on. The result lists the freed addresses in order. */
  function Destroy<T>(nodes: map<nat, Node<T>>, cur: Option<nat>): (r: Result<seq<nat>, Fault>)
    ensures cur.None? ==> r == Ok([])
    ensures r.Ok? && cur.Some? ==> |r.value| > 0 && r.value[0] == cur.value
    ensures r.Ok? ==> Distinct(r.value) && forall i :: 0 <= i < |r.value| ==> r.value[i] in nodes
    decreases |nodes|
  {
    match cur
    case None => Ok([])
    case Some(c) =>
      if c !in nodes then Err(UseAfterFree)
      else
        match Destroy(nodes - {c}, nodes[c].next)
        case Err(f) => Err(f)
        case Ok(rest) => Ok([c] + rest)
  }

  /** `ids` is linked through `next` from its last element back to its first. */
  lemma PrevAt<T>(nodes: map<nat, Node<T>>, ids: seq<nat>, i: int)
    requires forall k :: 0 <= k < |ids| ==> ids[k] in nodes
    requires PrevLinks(nodes, ids) && 0 <= i < |ids|
    ensures nodes[ids[i]].prev == (if i + 1 < |ids| then Some(ids[i + 1]) else None)
  {
  }

  lemma NextAt<T>(nodes: map<nat, Node<T>>, ids: seq<nat>, i: int)
    requires forall k :: 0 <= k < |ids| ==> ids[k] in nodes
    requires NextLinks(nodes, ids) && 0 <= i < |ids|
    ensures nodes[ids[i]].next == (if i > 0 then Some(ids[i - 1]) else None)
  {
  }

  ghost predicate NextChain<T>(nodes: map<nat, Node<T>>, ids: seq<nat>) {
    && Distinct(ids)
    && (forall i :: 0 <= i < |ids| ==> ids[i] in nodes)
    && NextLinks(nodes, ids)
  }

  lemma {:induction false} DestroyWalksChain<T>(nodes: map<nat, Node<T>>, ids: seq<nat>)
    requires NextChain(nodes, ids)
    ensures var r := Destroy(nodes, if |ids| == 0 then None else Some(ids[|ids| - 1]));
      && r.Ok? && |r.value| == |ids|
      && forall i :: 0 <= i < |ids| ==> r.value[i] == ids[|ids| - 1 - i]
    decreases |ids|
  {
    if |ids| > 0 {
      var c := ids[|ids| - 1];
      var front := ids[..|ids| - 1];
      var rest := nodes - {c};
      assert NextLinks(nodes, ids);
      forall i | 0 <= i < |front|
        ensures front[i] == ids[i] && front[i] in rest && rest[front[i]] == nodes[ids[i]]
      {
        assert ids[i] != c;
      }
      forall i | 0 <= i < |front|
        ensures rest[front[i]].next == (if i > 0 then Some(front[i - 1]) else None)
      {
        NextAt(nodes, ids, i);
      }
      assert NextChain(rest, front);
      DestroyWalksChain(rest, front);
      NextAt(nodes, ids, |ids| - 1);
    }
  }

  /** Destroying a well-formed queue frees every node exactly once, newest
      first. */
  lemma DestroyFreesEachOnce<T>(l: Linked<T>, ids: seq<nat>)
    requires Repr(l, ids)
    ensures var r := Destroy(l.nodes, l.top);
      && r.Ok? && |r.value| == |ids|
      && (forall i :: 0 <= i < |ids| ==> r.value[i] == ids[|ids| - 1 - i])
  {
    DestroyWalksChain(l.nodes, ids);
  }
}
