/** Message queues (ipc.c).  Messages are copied into and out of their nodes with interrupts enabled, so any
    number of senders and receivers can be in the middle of a copy; every critical section and every copy is
    one step. */
module MessageQueues {
  import opened Sequences
  import opened WaitLists
  import opened Words

  const NIL: int := -1

  // ------------------------------------------------------- linked lists

  ghost predicate NodeOk(next: seq<int>, s: seq<nat>, i: nat)
    requires i < |s|
  {
    s[i] < |next| && next[s[i]] == if i + 1 < |s| then s[i + 1] else NIL
  }

  /** `from` is the head of the list of nodes `s`, linked by `next`. */
  ghost predicate Chain(next: seq<int>, from: int, s: seq<nat>) {
    && NoRepeats(s) && from == (if s == [] then NIL else s[0])
    && forall i: nat | i < |s| :: NodeOk(next, s, i)
  }

  lemma ChainPushed(next: seq<int>, from: int, s: seq<nat>, x: nat)
    requires Chain(next, from, s) && x !in s && x < |next|
    ensures Chain(next[x := from], x, [x] + s)
  {
    var s', next' := [x] + s, next[x := from];
    forall i: nat | i < |s'| ensures NodeOk(next', s', i) {
      if i > 0 { assert NodeOk(next, s, i - 1) && s'[i] == s[i - 1]; }
    }
  }

  lemma ChainPopped(next: seq<int>, from: int, s: seq<nat>)
    requires Chain(next, from, s) && s != []
    ensures from == s[0] && s[0] < |next| && Chain(next, next[s[0]], s[1..])
  {
    assert NodeOk(next, s, 0);
    forall i: nat | i < |s| - 1 ensures NodeOk(next, s[1..], i) {
      assert NodeOk(next, s, i + 1);
    }
  }

  lemma ChainFrame(next: seq<int>, from: int, s: seq<nat>, x: nat, v: int)
    requires Chain(next, from, s) && x !in s && x < |next|
    ensures Chain(next[x := v], from, s)
  {
    var next' := next[x := v];
    forall i: nat | i < |s| ensures NodeOk(next', s, i) {
      assert NodeOk(next, s, i);
    }
  }

  lemma ChainAppended(next: seq<int>, from: int, s: seq<nat>, x: nat)
    requires Chain(next, from, s) && x !in s && x < |next| && next[x] == NIL
    ensures s == [] ==> Chain(next, x, s + [x])
    ensures s != [] ==> s[|s| - 1] < |next| && Chain(next[s[|s| - 1] := x], from, s + [x])
  {
    if s == [] {
      assert NodeOk(next, [x], 0);
    } else {
      var last := s[|s| - 1];
      assert NodeOk(next, s, |s| - 1);
      var next', s' := next[last := x], s + [x];
      forall i: nat | i < |s'| ensures NodeOk(next', s', i) {
        if i < |s| { assert NodeOk(next, s, i) && s'[i] == s[i]; }
      }
    }
  }

  // ---------------------------------------------------------- the state

  type Bytes = seq<int>

  /** Where a node is: in one of the two lists, or in the hands of a thread. */
  datatype Place = InFree | InQueue | With(t: nat)

  /** What a thread does with the node it holds: about to copy in, about to link, or copying out. */
  datatype Flight =
    | Filling(node: nat)
    | Filled(node: nat, payload: Bytes, urgent: bool)
    | Draining(node: nat, payload: Bytes)

  /** The pool and the list heads: next pointers and message buffers of all nodes. */
  datatype Pool = Pool(next: seq<int>, data: seq<Bytes>, head: int, tail: int, free: int, entry: nat)

  /** The abstract side: the two lists, the payloads in the queue, the threads in mid-copy, and the place of every
      node. */
  datatype View = View(freeList: seq<nat>, queue: seq<nat>, msgs: seq<Bytes>, flights: map<nat, Flight>,
    places: seq<Place>)

  /** Free list, queue and nodes in flight are disjoint and together are all nodes. */
  ghost predicate Conserved(v: View) {
    && (forall n: nat :: n in v.freeList <==> n < |v.places| && v.places[n] == InFree)
    && (forall n: nat :: n in v.queue <==> n < |v.places| && v.places[n] == InQueue)
    && (forall t :: t in v.flights ==> v.flights[t].node < |v.places| && v.places[v.flights[t].node] == With(t))
    && (forall n: nat :: n < |v.places| && v.places[n].With? ==>
        v.places[n].t in v.flights && v.flights[v.places[n].t].node == n)
  }

  ghost predicate FlightOk(p: Pool, f: Flight, msgSize: nat) {
    && f.node < |p.next| == |p.data|
    && (f.Filled? ==> f.payload <= p.data[f.node] && (!f.urgent ==> p.next[f.node] == NIL))
    && (f.Draining? ==> f.payload <= p.data[f.node])
  }

  /** The buffer of each queued node starts with its payload. */
  ghost predicate MsgAt(p: Pool, v: View, i: nat)
    requires i < |v.queue| == |v.msgs|
  {
    v.queue[i] < |p.data| && v.msgs[i] <= p.data[v.queue[i]]
  }

  ghost predicate PoolOk(p: Pool, v: View, msgSize: nat) {
    && |p.next| == |p.data| == |v.places| && (forall n :: 0 <= n < |p.data| ==> |p.data[n]| == msgSize)
    && Chain(p.next, p.free, v.freeList) && Chain(p.next, p.head, v.queue)
    && p.tail == (if v.queue == [] then NIL else v.queue[|v.queue| - 1])
    && p.entry == |v.queue| == |v.msgs|
    && (forall i: nat | i < |v.queue| :: MsgAt(p, v, i))
    && Conserved(v)
    && (forall t :: t in v.flights ==> FlightOk(p, v.flights[t], msgSize))
  }

  // ---------------------------------------------- the steps, one by one

  function Alloc(p: Pool): Pool
    requires 0 <= p.free < |p.next|
  {
    p.(free := p.next[p.free])
  }

  ghost function AllocView(v: View, t: nat): View
    requires v.freeList != [] && v.freeList[0] < |v.places|
  {
    var n := v.freeList[0];
    v.(freeList := v.freeList[1..], flights := v.flights[t := Filling(n)], places := v.places[n := With(t)])
  }

  lemma AllocConserved(v: View, t: nat)
    requires Conserved(v) && NoRepeats(v.freeList) && v.freeList != [] && t !in v.flights
    ensures v.freeList[0] < |v.places| && Conserved(AllocView(v, t))
  {
    assert v.freeList[0] in v.freeList;
    HeadGone(v.freeList);
    hide NoRepeats;
  }

  lemma AllocOk(p: Pool, v: View, msgSize: nat, t: nat)
    requires PoolOk(p, v, msgSize) && p.free != NIL && t !in v.flights
    ensures 0 <= p.free < |p.next| && v.freeList != [] && p.free == v.freeList[0] && v.freeList[0] < |v.places|
    ensures PoolOk(Alloc(p), AllocView(v, t), msgSize)
  {
    ChainPopped(p.next, p.free, v.freeList);
    AllocConserved(v, t);
    hide Chain, Conserved, NoRepeats;
    var v' := AllocView(v, t);
    forall i: nat | i < |v'.queue| ensures MsgAt(Alloc(p), v', i) { assert MsgAt(p, v, i); }
  }

  /** The copy into a node in the hands of a sender. */
  function Fill(p: Pool, n: nat, payload: Bytes, urgent: bool): Pool
    requires n < |p.next| == |p.data| && |payload| <= |p.data[n]|
  {
    p.(next := if urgent then p.next else p.next[n := NIL], data := p.data[n := payload + p.data[n][|payload|..]])
  }

  ghost function FillView(v: View, t: nat, n: nat, payload: Bytes, urgent: bool): View {
    v.(flights := v.flights[t := Filled(n, payload, urgent)])
  }

  /** A node in flight is in neither list, and in nobody else's hands. */
  lemma InFlight(v: View, t: nat)
    requires Conserved(v) && t in v.flights
    ensures var n := v.flights[t].node;
      n !in v.freeList && n !in v.queue && forall u :: u in v.flights && u != t ==> v.flights[u].node != n
  {
  }

  lemma FillOk(p: Pool, v: View, msgSize: nat, t: nat, n: nat, payload: Bytes, urgent: bool)
    requires PoolOk(p, v, msgSize) && t in v.flights && v.flights[t] == Filling(n) && |payload| <= msgSize
    ensures n < |p.next| && PoolOk(Fill(p, n, payload, urgent), FillView(v, t, n, payload, urgent), msgSize)
  {
    InFlight(v, t);
    assert FlightOk(p, v.flights[t], msgSize);
    ChainFrame(p.next, p.free, v.freeList, n, NIL);
    ChainFrame(p.next, p.head, v.queue, n, NIL);
    FillConserved(v, t, n, payload, urgent);
    hide Chain, Conserved;
    var p', v' := Fill(p, n, payload, urgent), FillView(v, t, n, payload, urgent);
    forall i: nat | i < |v'.queue| ensures MsgAt(p', v', i) {
      assert MsgAt(p, v, i) && v.queue[i] in v.queue;
    }
    forall u | u in v'.flights ensures FlightOk(p', v'.flights[u], msgSize) {
      if u != t { assert FlightOk(p, v.flights[u], msgSize); }
    }
  }

  lemma FillConserved(v: View, t: nat, n: nat, payload: Bytes, urgent: bool)
    requires Conserved(v) && t in v.flights && v.flights[t].node == n
    ensures Conserved(FillView(v, t, n, payload, urgent))
  {
  }

  /** The link at the tail. */
  function LinkBack(p: Pool, n: nat): Pool
    requires p.tail == NIL || 0 <= p.tail < |p.next|
  {
    p.(next := if p.tail != NIL then p.next[p.tail := n] else p.next, tail := n,
       head := if p.head == NIL then n else p.head, entry := p.entry + 1)
  }

  /** The link at the head, for urgent messages. */
  function LinkFront(p: Pool, n: nat): Pool
    requires n < |p.next|
  {
    p.(next := p.next[n := p.head], head := n, tail := if p.tail == NIL then n else p.tail, entry := p.entry + 1)
  }

  ghost function LinkView(v: View, t: nat, n: nat, payload: Bytes, urgent: bool): View
    requires n < |v.places|
  {
    v.(queue := if urgent then [n] + v.queue else v.queue + [n],
       msgs := if urgent then [payload] + v.msgs else v.msgs + [payload],
       flights := v.flights - {t}, places := v.places[n := InQueue])
  }

  lemma LinkConserved(v: View, t: nat, n: nat, payload: Bytes, urgent: bool)
    requires Conserved(v) && t in v.flights && v.flights[t].node == n
    ensures n < |v.places| && Conserved(LinkView(v, t, n, payload, urgent))
  {
  }

  lemma TailIs(p: Pool, v: View, msgSize: nat)
    requires PoolOk(p, v, msgSize)
    ensures p.tail == NIL || 0 <= p.tail < |p.next|
    ensures p.head == NIL <==> v.queue == []
    ensures p.tail == NIL <==> v.queue == []
    ensures p.head == NIL || 0 <= p.head < |p.next|
    ensures p.free == NIL <==> v.freeList == []
    ensures p.free == NIL || 0 <= p.free < |p.next|
  {
    if v.queue != [] {
      assert NodeOk(p.next, v.queue, |v.queue| - 1) && NodeOk(p.next, v.queue, 0);
    }
    if v.freeList != [] { assert NodeOk(p.next, v.freeList, 0); }
  }

  lemma LinkBackOk(p: Pool, v: View, msgSize: nat, t: nat, n: nat, payload: Bytes)
    requires PoolOk(p, v, msgSize) && t in v.flights && v.flights[t] == Filled(n, payload, false)
    ensures n < |v.places| && (p.tail == NIL || 0 <= p.tail < |p.next|)
    ensures PoolOk(LinkBack(p, n), LinkView(v, t, n, payload, false), msgSize)
  {
    TailIs(p, v, msgSize);
    InFlight(v, t);
    assert FlightOk(p, v.flights[t], msgSize);
    LinkConserved(v, t, n, payload, false);
    ChainAppended(p.next, p.head, v.queue, n);
    if v.queue != [] {
      QueueNotFree(v, |v.queue| - 1);
      ChainFrame(p.next, p.free, v.freeList, v.queue[|v.queue| - 1], n);
    }
    hide Chain, Conserved;
    var p', v' := LinkBack(p, n), LinkView(v, t, n, payload, false);
    forall i: nat | i < |v'.queue| ensures MsgAt(p', v', i) {
      if i < |v.queue| { assert MsgAt(p, v, i); }
    }
    forall u | u in v'.flights ensures FlightOk(p', v'.flights[u], msgSize) {
      assert FlightOk(p, v.flights[u], msgSize);
      if v.queue != [] { QueueNotFlying(v, |v.queue| - 1, u); }
    }
  }

  lemma QueueNotFree(v: View, i: nat)
    requires Conserved(v) && i < |v.queue|
    ensures v.queue[i] !in v.freeList && v.queue[i] < |v.places|
  {
    assert v.queue[i] in v.queue;
  }

  lemma QueueNotFlying(v: View, i: nat, u: nat)
    requires Conserved(v) && i < |v.queue| && u in v.flights
    ensures v.flights[u].node != v.queue[i]
  {
    assert v.queue[i] in v.queue;
  }

  lemma LinkFrontOk(p: Pool, v: View, msgSize: nat, t: nat, n: nat, payload: Bytes)
    requires PoolOk(p, v, msgSize) && t in v.flights && v.flights[t] == Filled(n, payload, true)
    ensures n < |v.places| && n < |p.next|
    ensures PoolOk(LinkFront(p, n), LinkView(v, t, n, payload, true), msgSize)
  {
    TailIs(p, v, msgSize);
    InFlight(v, t);
    assert FlightOk(p, v.flights[t], msgSize);
    LinkConserved(v, t, n, payload, true);
    ChainPushed(p.next, p.head, v.queue, n);
    ChainFrame(p.next, p.free, v.freeList, n, p.head);
    hide Chain, Conserved;
    var p', v' := LinkFront(p, n), LinkView(v, t, n, payload, true);
    forall i: nat | i < |v'.queue| ensures MsgAt(p', v', i) {
      if i > 0 { assert MsgAt(p, v, i - 1); }
    }
    forall u | u in v'.flights ensures FlightOk(p', v'.flights[u], msgSize) {
      assert FlightOk(p, v.flights[u], msgSize);
    }
  }

  /** The first message out of the queue. */
  function Pop(p: Pool): Pool
    requires 0 <= p.head < |p.next| && p.entry > 0
  {
    p.(head := p.next[p.head], tail := if p.tail == p.head then NIL else p.tail, entry := p.entry - 1)
  }

  ghost function PopView(v: View, t: nat): View
    requires v.queue != [] && |v.msgs| == |v.queue| && v.queue[0] < |v.places|
  {
    var n := v.queue[0];
    v.(queue := v.queue[1..], msgs := v.msgs[1..], flights := v.flights[t := Draining(n, v.msgs[0])],
       places := v.places[n := With(t)])
  }

  lemma PopConserved(v: View, t: nat)
    requires Conserved(v) && NoRepeats(v.queue) && v.queue != [] && |v.msgs| == |v.queue| && t !in v.flights
    ensures v.queue[0] < |v.places| && Conserved(PopView(v, t))
  {
    assert v.queue[0] in v.queue;
    HeadGone(v.queue);
    hide NoRepeats;
  }

  lemma PopOk(p: Pool, v: View, msgSize: nat, t: nat)
    requires PoolOk(p, v, msgSize) && p.entry > 0 && t !in v.flights
    ensures v.queue != [] && |v.msgs| == |v.queue| && 0 <= p.head < |p.next| && p.head == v.queue[0] < |v.places|
    ensures PoolOk(Pop(p), PopView(v, t), msgSize)
  {
    ChainPopped(p.next, p.head, v.queue);
    PopConserved(v, t);
    assert MsgAt(p, v, 0);
    assert p.tail == p.head <==> |v.queue| == 1;
    hide Chain, Conserved, NoRepeats;
    var p', v' := Pop(p), PopView(v, t);
    forall i: nat | i < |v'.queue| ensures MsgAt(p', v', i) { assert MsgAt(p, v, i + 1); }
    forall u | u in v'.flights ensures FlightOk(p', v'.flights[u], msgSize) {
      if u != t { assert FlightOk(p, v.flights[u], msgSize); }
    }
  }

  /** A node goes back to the free list. */
  function Return(p: Pool, n: nat): Pool
    requires n < |p.next|
  {
    p.(next := p.next[n := p.free], free := n)
  }

  ghost function ReturnView(v: View, t: nat, n: nat): View
    requires n < |v.places|
  {
    v.(freeList := [n] + v.freeList, flights := v.flights - {t}, places := v.places[n := InFree])
  }

  lemma ReturnConserved(v: View, t: nat, n: nat)
    requires Conserved(v) && t in v.flights && v.flights[t].node == n
    ensures n < |v.places| && Conserved(ReturnView(v, t, n))
  {
  }

  lemma ReturnOk(p: Pool, v: View, msgSize: nat, t: nat, n: nat)
    requires PoolOk(p, v, msgSize) && t in v.flights && v.flights[t].node == n
    ensures n < |v.places| && n < |p.next|
    ensures PoolOk(Return(p, n), ReturnView(v, t, n), msgSize)
  {
    InFlight(v, t);
    assert FlightOk(p, v.flights[t], msgSize);
    ReturnConserved(v, t, n);
    ChainPushed(p.next, p.free, v.freeList, n);
    ChainFrame(p.next, p.head, v.queue, n, p.free);
    hide Chain, Conserved;
    var p', v' := Return(p, n), ReturnView(v, t, n);
    forall i: nat | i < |v'.queue| ensures MsgAt(p', v', i) { assert MsgAt(p, v, i); }
    forall u | u in v'.flights ensures FlightOk(p', v'.flights[u], msgSize) {
      assert FlightOk(p, v.flights[u], msgSize);
    }
  }

  /** One turn of the loop of a reset: the first message goes to the free list. */
  function Drain(p: Pool): Pool
    requires 0 <= p.head < |p.next| && p.entry > 0
  {
    Return(Pop(p), p.head)
  }

  ghost function DrainView(v: View): View
    requires v.queue != [] && |v.msgs| == |v.queue| && v.queue[0] < |v.places|
  {
    v.(queue := v.queue[1..], msgs := v.msgs[1..], freeList := [v.queue[0]] + v.freeList,
       places := v.places[v.queue[0] := InFree])
  }

  lemma {:induction false} Unused(s: set<nat>) returns (t: nat)
    ensures forall x :: x in s ==> x < t
  {
    if s == {} {
      t := 0;
    } else {
      var x :| x in s;
      t := Unused(s - {x});
      assert forall y :: y in s ==> y == x || y in s - {x};
      if t <= x { t := x + 1; }
    }
  }

  lemma DrainOk(p: Pool, v: View, msgSize: nat)
    requires PoolOk(p, v, msgSize) && p.entry > 0
    ensures v.queue != [] && |v.msgs| == |v.queue| && 0 <= p.head < |p.next| && v.queue[0] < |v.places|
    ensures PoolOk(Drain(p), DrainView(v), msgSize)
  {
    hide PoolOk;
    var t := Unused(v.flights.Keys);
    PopOk(p, v, msgSize, t);
    ReturnOk(Pop(p), PopView(v, t), msgSize, t, v.queue[0]);
    var v' := ReturnView(PopView(v, t), t, v.queue[0]);
    assert v'.flights == v.flights;
    assert v'.places == v.places[v.queue[0] := InFree];
    assert v' == DrainView(v);
  }

  /** `h` are the nodes in the hands of the threads of `flights`. */
  ghost predicate Hands(flights: map<nat, Flight>, h: set<nat>, places: seq<Place>) {
    && (forall t :: t in flights ==>
        flights[t].node in h && flights[t].node < |places| && places[flights[t].node] == With(t))
    && (forall n :: n in h ==>
        n < |places| && places[n].With? && places[n].t in flights && flights[places[n].t].node == n)
  }

  lemma HandsWithout(flights: map<nat, Flight>, h: set<nat>, places: seq<Place>, u: nat)
    requires Hands(flights, h, places) && u in flights
    ensures flights[u].node in h && Hands(flights - {u}, h - {flights[u].node}, places)
  {
  }

  lemma {:induction false} HandsCard(flights: map<nat, Flight>, h: set<nat>, places: seq<Place>)
    requires Hands(flights, h, places)
    ensures |h| == |flights|
    decreases |h|
  {
    if h == {} {
      assert flights == map[];
    } else {
      var n :| n in h;
      var u := places[n].t;
      HandsWithout(flights, h, places, u);
      hide Hands;
      HandsCard(flights - {u}, h - {n}, places);
      assert flights.Keys == (flights - {u}).Keys + {u};
      assert |flights.Keys| == |(flights - {u}).Keys| + 1;
    }
  }

  lemma HeldNodes(v: View) returns (h: set<nat>)
    requires Conserved(v)
    ensures Hands(v.flights, h, v.places)
    ensures forall n: nat :: n < |v.places| <==> n in v.freeList || n in v.queue || n in h
    ensures forall n :: n in v.freeList ==> n !in v.queue && n !in h
    ensures forall n :: n in v.queue ==> n !in h
  {
    h := set n: nat | n < |v.places| && v.places[n].With?;
  }

  /** Conservation in numbers: free, queued and in flight make up the pool. */
  lemma NodesConserved(v: View)
    requires Conserved(v) && NoRepeats(v.freeList) && NoRepeats(v.queue)
    ensures |v.freeList| + |v.queue| + |v.flights| == |v.places|
  {
    hide Conserved, Elements, Hands, NoRepeats;
    var h := HeldNodes(v);
    HandsCard(v.flights, h, v.places);
    NoRepeatsCard(v.freeList);
    NoRepeatsCard(v.queue);
    var f, q := Elements(v.freeList), Elements(v.queue);
    assert f !! q;
    assert |f + q| == |f| + |q|;
    SplitCard(f + q, h, |v.places|);
  }

  // ---------------------------------------------------------- receivers

  /** While a receiver is suspended, every queued message has a woken receiver on its way. */
  ghost predicate WakeOk(entry: nat, receivers: seq<nat>, woken: set<nat>) {
    && NoRepeats(receivers) && (forall t :: t in receivers ==> t !in woken)
    && (receivers != [] ==> entry <= |woken|)
  }

  lemma WakeOnLink(entry: nat, receivers: seq<nat>, woken: set<nat>)
    requires WakeOk(entry, receivers, woken)
    ensures receivers == [] ==> WakeOk(entry + 1, [], woken)
    ensures receivers != [] ==> WakeOk(entry + 1, receivers[1..], woken + {receivers[0]})
  {
    if receivers != [] {
      assert receivers[0] in receivers;
      HeadGone(receivers);
    }
  }

  lemma WakeOnPop(entry: nat, receivers: seq<nat>, woken: set<nat>, t: nat)
    requires WakeOk(entry, receivers, woken) && entry > 0
    ensures WakeOk(entry - 1, receivers, woken - {t})
  {
    if t !in woken { assert woken - {t} == woken; }
  }

  lemma WakeOnWait(receivers: seq<nat>, woken: set<nat>, flag: Flag, t: nat, prio: seq<int>)
    requires WakeOk(0, receivers, woken) && t !in receivers
    ensures WakeOk(0, receivers, woken - {t}) && WakeOk(0, Enqueue(flag, receivers, t, prio), woken - {t})
  {
    EnqueueMembers(flag, receivers, t, prio);
  }

  // ------------------------------------------------- the steps of a queue

  /** Everything a step of a queue works on: pool, abstract side, suspended receivers, and the receivers that were
      woken and have not looked again yet. */
  datatype Queue = Queue(p: Pool, v: View, receivers: seq<nat>, woken: set<nat>)

  ghost predicate QueueOk(q: Queue, msgSize: nat) {
    PoolOk(q.p, q.v, msgSize) && WakeOk(q.p.entry, q.receivers, q.woken)
  }

  /** Every node free, nobody in mid-copy, nobody suspended. */
  ghost predicate Started(q: Queue, msgSize: nat) {
    && QueueOk(q, msgSize) && q.v.queue == [] && q.v.msgs == [] && q.v.flights == map[]
    && q.receivers == [] && q.woken == {} && |q.v.freeList| == |q.v.places|
  }

  /** There is a node to take: for a sound pool, the free list has a head. */
  ghost predicate CanTake(q: Queue) {
    q.p.free != NIL && 0 <= q.p.free < |q.p.next| && q.v.freeList != [] && q.v.freeList[0] < |q.v.places|
  }

  /** There is a message to pop: for a sound pool, the entry count is not 0. */
  ghost predicate CanPop(q: Queue) {
    && q.p.entry > 0 && 0 <= q.p.head < |q.p.next|
    && q.v.queue != [] && |q.v.msgs| == |q.v.queue| && q.v.queue[0] < |q.v.places|
  }

  /** Thread `t` holds a node that all the tables know. */
  ghost predicate Holds(q: Queue, t: nat) {
    t in q.v.flights && q.v.flights[t].node < |q.p.next| == |q.p.data| == |q.v.places|
  }

  /** First critical section of a send. */
  ghost function AfterBegin(q: Queue, t: nat): Queue {
    if CanTake(q) then q.(p := Alloc(q.p), v := AllocView(q.v, t)) else q
  }

  ghost function AfterCopyIn(q: Queue, t: nat, payload: Bytes, urgent: bool): Queue {
    if Holds(q, t) && |payload| <= |q.p.data[q.v.flights[t].node]| then
      var n := q.v.flights[t].node;
      q.(p := Fill(q.p, n, payload, urgent), v := FillView(q.v, t, n, payload, urgent))
    else q
  }

  /** Last critical section of a send. */
  ghost function AfterLink(q: Queue, t: nat): Queue {
    if Holds(q, t) && q.v.flights[t].Filled? && (q.p.tail == NIL || 0 <= q.p.tail < |q.p.next|) then
      var f := q.v.flights[t];
      Queue(if f.urgent then LinkFront(q.p, f.node) else LinkBack(q.p, f.node),
            LinkView(q.v, t, f.node, f.payload, f.urgent),
            if q.receivers == [] then [] else q.receivers[1..],
            if q.receivers == [] then q.woken else q.woken + {q.receivers[0]})
    else q
  }

  /** One look of a receiver at the queue. */
  ghost function AfterLook(q: Queue, flag: Flag, t: nat, wait: bool, prio: seq<int>): Queue {
    if CanPop(q) then q.(p := Pop(q.p), v := PopView(q.v, t), woken := q.woken - {t})
    else q.(woken := q.woken - {t}, receivers := if wait then Enqueue(flag, q.receivers, t, prio) else q.receivers)
  }

  /** The bytes a receiver copies out of node `n`. */
  function BytesOut(p: Pool, n: nat, size: nat, msgSize: nat): Bytes {
    var k := if size > msgSize then msgSize else size;
    if n < |p.data| && k <= |p.data[n]| then p.data[n][..k] else []
  }

  /** Last critical section of a receive. */
  ghost function AfterReturn(q: Queue, t: nat): Queue {
    if Holds(q, t) then
      var n := q.v.flights[t].node;
      q.(p := Return(q.p, n), v := ReturnView(q.v, t, n))
    else q
  }

  ghost function AfterTimeout(q: Queue, t: nat): Queue {
    q.(receivers := Without(q.receivers, t))
  }

  /** One turn of the loop of a reset. */
  ghost function AfterDrain(q: Queue): Queue
    requires CanPop(q)
  {
    q.(p := Drain(q.p), v := DrainView(q.v))
  }

  ghost function Drained(q: Queue): Queue
    decreases |q.v.queue|
  {
    if CanPop(q) then Drained(AfterDrain(q)) else q
  }

  ghost function AfterReset(q: Queue): Queue {
    Drained(q.(receivers := []))
  }

  lemma Guards(q: Queue, msgSize: nat)
    requires QueueOk(q, msgSize)
    ensures CanTake(q) <==> q.p.free != NIL
    ensures CanTake(q) <==> q.v.freeList != []
    ensures CanPop(q) <==> q.p.entry > 0
    ensures CanPop(q) <==> q.v.queue != []
    ensures forall t :: t in q.v.flights ==> Holds(q, t) && |q.p.data[q.v.flights[t].node]| == msgSize
    ensures q.p.tail == NIL || 0 <= q.p.tail < |q.p.next|
  {
    TailIs(q.p, q.v, msgSize);
    if q.v.freeList != [] { assert q.v.freeList[0] in q.v.freeList; }
    if q.v.queue != [] { assert q.v.queue[0] in q.v.queue; }
    hide Chain, NoRepeats, WakeOk;
  }

  lemma BeginOk(q: Queue, msgSize: nat, t: nat)
    requires QueueOk(q, msgSize) && t !in q.v.flights
    ensures QueueOk(AfterBegin(q, t), msgSize)
  {
    hide PoolOk, WakeOk;
    if CanTake(q) { AllocOk(q.p, q.v, msgSize, t); }
  }

  lemma CopyInOk(q: Queue, msgSize: nat, t: nat, payload: Bytes, urgent: bool)
    requires QueueOk(q, msgSize) && t in q.v.flights && q.v.flights[t].Filling? && |payload| <= msgSize
    ensures QueueOk(AfterCopyIn(q, t, payload, urgent), msgSize)
  {
    hide PoolOk, WakeOk;
    FillOk(q.p, q.v, msgSize, t, q.v.flights[t].node, payload, urgent);
  }

  lemma LinkOk(q: Queue, msgSize: nat, t: nat)
    requires QueueOk(q, msgSize) && t in q.v.flights && q.v.flights[t].Filled?
    ensures QueueOk(AfterLink(q, t), msgSize)
  {
    hide PoolOk, WakeOk;
    var f := q.v.flights[t];
    WakeOnLink(q.p.entry, q.receivers, q.woken);
    if f.urgent {
      LinkFrontOk(q.p, q.v, msgSize, t, f.node, f.payload);
    } else {
      LinkBackOk(q.p, q.v, msgSize, t, f.node, f.payload);
    }
  }

  lemma LookOk(q: Queue, msgSize: nat, flag: Flag, t: nat, wait: bool, prio: seq<int>)
    requires QueueOk(q, msgSize) && t !in q.v.flights && t !in q.receivers
    ensures QueueOk(AfterLook(q, flag, t, wait, prio), msgSize)
  {
    Guards(q, msgSize);
    hide PoolOk, WakeOk, Enqueue;
    if CanPop(q) {
      PopOk(q.p, q.v, msgSize, t);
      WakeOnPop(q.p.entry, q.receivers, q.woken, t);
    } else {
      WakeOnWait(q.receivers, q.woken, flag, t, prio);
    }
  }

  lemma GiveBackOk(q: Queue, msgSize: nat, t: nat)
    requires QueueOk(q, msgSize) && t in q.v.flights
    ensures QueueOk(AfterReturn(q, t), msgSize)
  {
    hide PoolOk, WakeOk;
    ReturnOk(q.p, q.v, msgSize, t, q.v.flights[t].node);
  }

  lemma TimeoutOk(q: Queue, msgSize: nat, t: nat)
    requires QueueOk(q, msgSize)
    ensures QueueOk(AfterTimeout(q, t), msgSize)
  {
    WithoutFacts(q.receivers, t);
    hide PoolOk, NoRepeats;
  }

  lemma AfterDrainOk(q: Queue, msgSize: nat)
    requires QueueOk(q, msgSize) && q.receivers == [] && CanPop(q)
    ensures QueueOk(AfterDrain(q), msgSize)
  {
    hide PoolOk;
    DrainOk(q.p, q.v, msgSize);
  }

  // ------------------------------------------------------------ the queue

  datatype Reply = Begun | TooBig | Full | Empty | Waits

  class MessageQueue {
    const flag: Flag
    const msgSize: nat
    const maxMsgs: nat
    var m: Pool
    var receivers: seq<nat>
    ghost var view: View
    ghost var woken: set<nat>

    ghost predicate Valid()
      reads this
    {
      PoolOk(m, view, msgSize) && |view.places| == maxMsgs && WakeOk(m.entry, receivers, woken)
    }

    ghost function Now(): Queue
      reads this
    {
      Queue(m, view, receivers, woken)
    }

    /** rt_mq_init: every node starts in the free list. */
    constructor (flag: Flag, msgSize: nat, poolSize: nat)
      ensures Valid() && Started(Now(), this.msgSize) && this.flag == flag && this.msgSize == RtAlign(msgSize)
      ensures maxMsgs == poolSize / (RtAlign(msgSize) + 4) && |view.freeList| == maxMsgs
      ensures view.queue == [] && view.msgs == [] && view.flights == map[] && receivers == [] && woken == {}
    {
      var size := RtAlign(msgSize);
      var max := poolSize / (size + 4);
      var next := seq(max, _ => NIL);
      ghost var list: seq<nat> := [];
      var free := NIL;
      var temp := 0;
      while temp < max
        invariant 0 <= temp <= max && |next| == max && |list| == temp && Chain(next, free, list)
        invariant forall n: nat :: n in list <==> n < temp
      {
        ChainPushed(next, free, list, temp);
        PushedList(list, temp);
        next := next[temp := free];
        free := temp;
        list := [temp] + list;
        temp := temp + 1;
      }
      this.flag, this.msgSize, maxMsgs := flag, size, max;
      m := Pool(next, seq(max, _ => seq(size, _ => 0)), NIL, NIL, free, 0);
      receivers, woken := [], {};
      view := View(list, [], [], map[], seq(max, _ => InFree));
    }

    /** The first critical section of a send: a node off the free list. */
    method SendBegin(t: nat, size: nat) returns (r: Reply, n: int)
      requires Valid() && t !in view.flights && t !in receivers && t !in woken
      modifies this
      ensures Valid() && (r == TooBig <==> size > msgSize)
        && (r == Full <==> size <= msgSize && old(view).freeList == [])
      ensures r != Begun ==> m == old(m) && view == old(view)
      ensures r == Begun ==> (
        && n >= 0 && old(view).freeList != [] && old(view).freeList[0] < |old(view).places|
        && view == AllocView(old(view), t) && view.flights[t] == Filling(n))
      ensures receivers == old(receivers) && woken == old(woken) && r != Empty && r != Waits
      ensures Now() == if size > msgSize then old(Now()) else AfterBegin(old(Now()), t)
    {
      Guards(Now(), msgSize);
      hide PoolOk, WakeOk;
      TailIs(m, view, msgSize);
      if size > msgSize {
        return TooBig, NIL;
      }
      if m.free == NIL {
        return Full, NIL;
      }
      AllocOk(m, view, msgSize, t);
      n := m.free;
      m := m.(free := m.next[n]);
      view := AllocView(view, t);
      r := Begun;
    }

    /** The copy, with interrupts enabled; a normal send also ends the node. */
    method CopyIn(t: nat, n: nat, payload: Bytes, urgent: bool)
      requires Valid() && t in view.flights && view.flights[t] == Filling(n) && |payload| <= msgSize
      modifies this`m, this`view
      ensures Valid() && view == FillView(old(view), t, n, payload, urgent)
      ensures Now() == AfterCopyIn(old(Now()), t, payload, urgent)
    {
      Guards(Now(), msgSize);
      hide PoolOk, WakeOk;
      FillOk(m, view, msgSize, t, n, payload, urgent);
      Buffers(m, view, msgSize);
      if !urgent {
        m := m.(next := m.next[n := NIL]);
      }
      m := m.(data := m.data[n := payload + m.data[n][|payload|..]]);
      view := FillView(view, t, n, payload, urgent);
    }

    /** The last critical section of a send: the node is linked and a receiver woken. */
    method Link(t: nat, n: nat, ghost payload: Bytes, urgent: bool)
      requires Valid() && t in view.flights && view.flights[t] == Filled(n, payload, urgent)
      modifies this
      ensures Valid() && n < |old(view).places| && view == LinkView(old(view), t, n, payload, urgent)
      ensures old(receivers) == [] ==> receivers == [] && woken == old(woken)
      ensures old(receivers) != [] ==> receivers == old(receivers)[1..] && woken == old(woken) + {old(receivers)[0]}
      ensures Now() == AfterLink(old(Now()), t)
    {
      Guards(Now(), msgSize);
      LinkOk(Now(), msgSize, t);
      hide PoolOk, WakeOk, LinkFront, LinkBack;
      LinkWrites(n, urgent);
      view := LinkView(view, t, n, payload, urgent);
      if receivers != [] {
        woken := woken + {receivers[0]};
        receivers := receivers[1..];
      }
    }

    /** The writes that link node `n`. */
    method LinkWrites(n: nat, urgent: bool)
      requires n < |m.next| && (m.tail == NIL || 0 <= m.tail < |m.next|)
      modifies this`m
      ensures m == if urgent then LinkFront(old(m), n) else LinkBack(old(m), n)
    {
      if urgent {
        m := m.(next := m.next[n := m.head]);
        m := m.(head := n);
        if m.tail == NIL {
          m := m.(tail := n);
        }
      } else {
        if m.tail != NIL {
          m := m.(next := m.next[m.tail := n]);
        }
        m := m.(tail := n);
        if m.head == NIL {
          m := m.(head := n);
        }
      }
      m := m.(entry := m.entry + 1);
    }

    /** One look of rt_mq_recv at the queue, for the first time or after the thread was woken. */
    method RecvBegin(t: nat, wait: bool, prio: seq<int>) returns (r: Reply, n: int)
      requires Valid() && t !in view.flights && t !in receivers
      modifies this
      ensures Valid() && woken == old(woken) - {t}
      ensures r == Begun <==> old(view).msgs != []
      ensures r == Begun ==> (
        && n >= 0 && |old(view).msgs| == |old(view).queue| && old(view).queue[0] < |old(view).places|
        && view == PopView(old(view), t) && view.flights[t] == Draining(n, old(view).msgs[0])
          && receivers == old(receivers))
      ensures r != Begun ==> (
        && m == old(m) && view == old(view) && r == (if wait then Waits else Empty)
        && receivers == if wait then Enqueue(flag, old(receivers), t, prio) else old(receivers))
      ensures Now() == AfterLook(old(Now()), flag, t, wait, prio)
    {
      Guards(Now(), msgSize);
      hide PoolOk, WakeOk, Enqueue;
      EntryIs(m, view, msgSize);
      if m.entry == 0 {
        WakeOnWait(receivers, woken, flag, t, prio);
        woken := woken - {t};
        if !wait {
          return Empty, NIL;
        }
        receivers := SuspendOn(flag, receivers, t, prio);
        return Waits, NIL;
      }
      PopOk(m, view, msgSize, t);
      WakeOnPop(m.entry, receivers, woken, t);
      n := m.head;
      m := m.(head := m.next[n]);
      if m.tail == n {
        m := m.(tail := NIL);
      }
      m := m.(entry := m.entry - 1);
      view := PopView(view, t);
      woken := woken - {t};
      r := Begun;
    }

    /** The copy out, with interrupts enabled: the receiver gets what the sender copied in, as far as its buffer
        goes. */
    method CopyOut(t: nat, n: nat, size: nat) returns (r: Bytes)
      requires Valid() && t in view.flights && view.flights[t].Draining? && view.flights[t].node == n
      ensures var payload := view.flights[t].payload;
        (|payload| <= size ==> payload <= r) && (size < |payload| ==> r == payload[..size])
      ensures |r| == (if size > msgSize then msgSize else size) && r == BytesOut(m, n, size, msgSize)
    {
      hide WakeOk, Chain, Conserved;
      assert FlightOk(m, view.flights[t], msgSize);
      var k := if size > msgSize then msgSize else size;
      r := m.data[n][..k];
    }

    /** The last critical section of a receive: the node back to the free list. */
    method RecvEnd(t: nat, n: nat)
      requires Valid() && t in view.flights && view.flights[t].Draining? && view.flights[t].node == n
      modifies this`m, this`view
      ensures Valid() && n < |old(view).places| && view == ReturnView(old(view), t, n)
      ensures Now() == AfterReturn(old(Now()), t)
    {
      Guards(Now(), msgSize);
      hide PoolOk, WakeOk;
      ReturnOk(m, view, msgSize, t, n);
      m := m.(next := m.next[n := m.free]);
      m := m.(free := n);
      view := ReturnView(view, t, n);
    }

    /** rt_thread_timeout for a suspended receiver. */
    method TimeoutOf(t: nat)
      requires Valid()
      modifies this`receivers
      ensures Valid() && receivers == Without(old(receivers), t) && Now() == AfterTimeout(old(Now()), t)
    {
      WithoutFacts(receivers, t);
      hide PoolOk, NoRepeats;
      receivers := Without(receivers, t);
    }

    /** RT_IPC_CMD_RESET: receivers are sent away and the queue is emptied; copies in progress go on. */
    method ResetAll()
      requires Valid()
      modifies this
      ensures Valid() && receivers == [] && view.queue == [] && view.msgs == [] && view.flights == old(view).flights
      ensures woken == old(woken) && Now() == AfterReset(old(Now()))
    {
      hide PoolOk, DrainView;
      receivers := [];
      EntryIs(m, view, msgSize);
      while m.head != NIL
        invariant PoolOk(m.(entry := |view.queue|), view, msgSize) && |view.places| == maxMsgs
        invariant view.flights == old(view).flights && woken == old(woken) && receivers == []
        invariant Drained(Queue(m.(entry := |view.queue|), view, [], woken)) == AfterReset(old(Now()))
        decreases |view.queue|
      {
        TailIs(m.(entry := |view.queue|), view, msgSize);
        DrainOk(m.(entry := |view.queue|), view, msgSize);
        DrainShape(view);
        var msg := m.head;
        m := m.(head := m.next[msg]);
        if m.tail == msg {
          m := m.(tail := NIL);
        }
        m := m.(next := m.next[msg := m.free]);
        m := m.(free := msg);
        view := DrainView(view);
      }
      TailIs(m.(entry := |view.queue|), view, msgSize);
      EntryIs(m.(entry := |view.queue|), view, msgSize);
      m := m.(entry := 0);
    }
  }

  lemma DrainShape(v: View)
    requires v.queue != [] && |v.msgs| == |v.queue| && v.queue[0] < |v.places|
    ensures DrainView(v).queue == v.queue[1..] && DrainView(v).flights == v.flights
      && |DrainView(v).places| == |v.places|
  {
  }

  lemma EntryIs(p: Pool, v: View, msgSize: nat)
    requires PoolOk(p, v, msgSize)
    ensures p.entry == |v.queue| == |v.msgs|
  {
  }

  lemma Buffers(p: Pool, v: View, msgSize: nat)
    requires PoolOk(p, v, msgSize)
    ensures |p.next| == |p.data| == |v.places| && forall n :: 0 <= n < |p.data| ==> |p.data[n]| == msgSize
  {
  }
}
