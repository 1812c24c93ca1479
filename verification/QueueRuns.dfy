/** Whole runs of a message queue (ipc.c): any interleaving of the critical sections and of the copies that senders
    and receivers make with interrupts enabled.  A log follows every message from the copy in to the copy out. */
module QueueRuns {
  import opened MessageQueues
  import opened Sequences
  import opened WaitLists

  /** Where message number `id` is: in a node, copied out as entry `k` of the log, or thrown away by a reset. */
  datatype Where = InNode(n: nat) | Delivered(k: nat) | Dropped

  /** What thread `t` copied out: the number of the message that the node held, and the bytes it got. */
  datatype Out = Out(id: nat, t: nat, size: nat, bytes: Bytes)

  /** Message `id` is the one whose payload is `filled[id]`; `tag[n]` is the message last copied into node `n`;
      `linked` and `left` are the messages in the order of linking and of leaving the queue; `copied[t]` is the entry
      in `outs` of a thread that has copied out but still holds its node; `urgent[id]` is what the sender asked for;
      `gone[j]` is how many messages had left when the one at `linked[j]` was linked. */
  datatype Log = Log(filled: seq<Bytes>, tag: seq<int>, where: seq<Where>, linked: seq<nat>, left: seq<nat>,
                     copied: map<nat, nat>, outs: seq<Out>, urgent: seq<bool>, gone: seq<nat>)

  datatype State = State(q: Queue, g: Log)

  datatype Op =
    | BeginSend(t: nat, size: nat)
    | CopyIn(t: nat, payload: Bytes, urgent: bool)
    | LinkNode(t: nat)
    | BeginRecv(t: nat, wait: bool, prio: seq<int>)
    | CopyOut(t: nat, size: nat)
    | EndRecv(t: nat)
    | Timeout(t: nat)
    | Reset

  // ------------------------------------------------------------ the log

  function Put<T>(s: seq<T>, i: nat, x: T): seq<T> {
    if i < |s| then s[i := x] else s
  }

  /** The message in node `n`. */
  function TagOf(g: Log, n: nat): nat {
    if n < |g.tag| && g.tag[n] >= 0 then g.tag[n] else 0
  }

  ghost function LogCopyIn(v: View, g: Log, t: nat, payload: Bytes, urgent: bool): Log
    requires t in v.flights
  {
    var n := v.flights[t].node;
    g.(filled := g.filled + [payload], tag := Put(g.tag, n, |g.filled|), where := g.where + [InNode(n)],
       urgent := g.urgent + [urgent])
  }

  ghost function LogLink(v: View, g: Log, t: nat): Log
    requires t in v.flights
  {
    g.(linked := g.linked + [TagOf(g, v.flights[t].node)], gone := g.gone + [|g.left|])
  }

  ghost function LogPop(v: View, g: Log): Log
    requires v.queue != []
  {
    g.(left := g.left + [TagOf(g, v.queue[0])])
  }

  ghost function LogCopyOut(q: Queue, g: Log, t: nat, size: nat, msgSize: nat): Log
    requires t in q.v.flights
  {
    var n := q.v.flights[t].node;
    g.(copied := g.copied[t := |g.outs|], outs := g.outs + [Out(TagOf(g, n), t, size, BytesOut(q.p, n, size, msgSize))])
  }

  ghost function LogEnd(v: View, g: Log, t: nat): Log
    requires t in v.flights && t in g.copied
  {
    g.(where := Put(g.where, TagOf(g, v.flights[t].node), Delivered(g.copied[t])), copied := g.copied - {t})
  }

  ghost function LogDrop(v: View, g: Log): Log
    requires v.queue != []
  {
    g.(where := Put(g.where, TagOf(g, v.queue[0]), Dropped), left := g.left + [TagOf(g, v.queue[0])])
  }

  ghost function LogReset(q: Queue, g: Log): Log
    decreases |q.v.queue|
  {
    if CanPop(q) then LogReset(AfterDrain(q), LogDrop(q.v, g)) else g
  }

  // --------------------------------------------------------------- runs

  /** What the calls of the threads allow: each thread is in one call at a time, a suspended thread does nothing, a
      woken one looks again, and a sender passed the size test. */
  ghost predicate Enabled(s: State, msgSize: nat, op: Op) {
    var f := s.q.v.flights;
    match op
    case BeginSend(t, _) => t !in f && t !in s.q.receivers && t !in s.q.woken
    case CopyIn(t, payload, _) => t in f && f[t].Filling? && |payload| <= msgSize
    case LinkNode(t) => t in f && f[t].Filled?
    case BeginRecv(t, _, _) => t !in f && t !in s.q.receivers
    case CopyOut(t, _) => t in f && f[t].Draining? && t !in s.g.copied
    case EndRecv(t) => t in f && f[t].Draining? && t in s.g.copied
    case Timeout(_) => true
    case Reset => true
  }

  /** The step of the queue is the one its methods are proved to take; the log only watches. */
  ghost function Next(s: State, flag: Flag, msgSize: nat, op: Op): State
    requires Enabled(s, msgSize, op)
  {
    match op
    case BeginSend(t, size) => s.(q := if size > msgSize then s.q else AfterBegin(s.q, t))
    case CopyIn(t, payload, urgent) =>
      State(AfterCopyIn(s.q, t, payload, urgent), LogCopyIn(s.q.v, s.g, t, payload, urgent))
    case LinkNode(t) => State(AfterLink(s.q, t), LogLink(s.q.v, s.g, t))
    case BeginRecv(t, wait, prio) =>
      State(AfterLook(s.q, flag, t, wait, prio), if CanPop(s.q) then LogPop(s.q.v, s.g) else s.g)
    case CopyOut(t, size) => s.(g := LogCopyOut(s.q, s.g, t, size, msgSize))
    case EndRecv(t) => State(AfterReturn(s.q, t), LogEnd(s.q.v, s.g, t))
    case Timeout(t) => s.(q := AfterTimeout(s.q, t))
    case Reset => State(AfterReset(s.q), LogReset(s.q.(receivers := []), s.g))
  }

  ghost predicate Reaches(s: State, flag: Flag, msgSize: nat, run: seq<Op>, r: State)
    decreases |run|
  {
    if run == [] then r == s
    else Enabled(s, msgSize, run[0]) && Reaches(Next(s, flag, msgSize, run[0]), flag, msgSize, run[1..], r)
  }

  /** A queue as rt_mq_init leaves it, with an empty log. */
  ghost predicate Initial(s: State, msgSize: nat) {
    Started(s.q, msgSize) && s.g == Log([], seq(|s.q.v.places|, _ => -1), [], [], [], map[], [], [], [])
  }

  // ------------------------------------------------------- the invariant

  /** Node `n` holds a message: it is queued, or a sender has filled it, or a receiver has taken it. */
  ghost predicate Live(v: View, n: nat) {
    && n < |v.places|
    && (v.places[n] == InQueue
        || (v.places[n].With? && v.places[n].t in v.flights && !v.flights[v.places[n].t].Filling?))
  }

  /** Message `id` is where the log says. */
  ghost predicate Kept(v: View, g: Log, id: nat)
    requires id < |g.where|
  {
    match g.where[id]
    case InNode(n) => Live(v, n) && n < |g.tag| && g.tag[n] == id
    case Delivered(k) => k < |g.outs| && g.outs[k].id == id
    case Dropped => true
  }

  /** A node that holds a message is where the log keeps that message. */
  ghost predicate Tagged(v: View, g: Log, n: nat) {
    Live(v, n) ==> n < |g.tag| && 0 <= g.tag[n] < |g.where| && g.where[g.tag[n]] == InNode(n)
  }

  ghost predicate QueuedAs(v: View, g: Log, i: nat)
    requires i < |v.queue|
  {
    && |v.msgs| == |v.queue| && v.queue[i] < |g.tag| && 0 <= g.tag[v.queue[i]] < |g.filled|
    && v.msgs[i] == g.filled[g.tag[v.queue[i]]]
  }

  ghost predicate FlightAs(v: View, g: Log, t: nat)
    requires t in v.flights
  {
    var f := v.flights[t];
    !f.Filling? ==> f.node < |g.tag| && 0 <= g.tag[f.node] < |g.filled| && f.payload == g.filled[g.tag[f.node]]
  }

  ghost predicate CopiedAs(v: View, g: Log, t: nat)
    requires t in g.copied
  {
    && t in v.flights && v.flights[t].Draining? && g.copied[t] < |g.outs|
    && v.flights[t].node < |g.tag| && g.outs[g.copied[t]].id == g.tag[v.flights[t].node]
  }

  /** The bytes a receiver gets of a payload: all of it, or as much as its buffer takes. */
  ghost predicate Got(payload: Bytes, size: nat, bytes: Bytes) {
    if |payload| <= size then payload <= bytes else bytes == payload[..size]
  }

  /** Entry `k` of the log: the bytes are those of its message, which is delivered or still in the reader's hands. */
  ghost predicate OutAs(v: View, g: Log, k: nat)
    requires k < |g.outs|
  {
    var o := g.outs[k];
    && o.id < |g.filled| == |g.where| && Got(g.filled[o.id], o.size, o.bytes)
    && (g.where[o.id] == Delivered(k)
        || (o.t in g.copied && g.copied[o.t] == k && o.t in v.flights && g.where[o.id] == InNode(v.flights[o.t].node)))
  }

  ghost predicate LogOk(v: View, g: Log) {
    && |g.tag| == |v.places| && |g.filled| == |g.where|
    && (forall id: nat | id < |g.where| :: Kept(v, g, id))
    && (forall n: nat :: Tagged(v, g, n))
    && (forall i: nat | i < |v.queue| :: QueuedAs(v, g, i))
    && (forall t: nat | t in v.flights :: FlightAs(v, g, t))
    && (forall t: nat | t in g.copied :: CopiedAs(v, g, t))
    && (forall k: nat | k < |g.outs| :: OutAs(v, g, k))
  }

  // ----------------------------------------------- each step keeps the log

  lemma BeginKeepsLog(v: View, g: Log, t: nat)
    requires Conserved(v) && LogOk(v, g) && t !in v.flights
    requires v.freeList != [] && v.freeList[0] < |v.places|
    ensures LogOk(AllocView(v, t), g)
  {
    var v' := AllocView(v, t);
    assert v.freeList[0] in v.freeList;
    assert forall n: nat :: Live(v', n) <==> Live(v, n);
    hide Live, Conserved;
    forall id: nat | id < |g.where| ensures Kept(v', g, id) { assert Kept(v, g, id); }
    forall n: nat ensures Tagged(v', g, n) { assert Tagged(v, g, n); }
    forall i: nat | i < |v'.queue| ensures QueuedAs(v', g, i) { assert QueuedAs(v, g, i); }
    forall u | u in v'.flights ensures FlightAs(v', g, u) { if u != t { assert FlightAs(v, g, u); } }
    forall u | u in g.copied ensures CopiedAs(v', g, u) { assert CopiedAs(v, g, u); }
    forall k: nat | k < |g.outs| ensures OutAs(v', g, k) { assert OutAs(v, g, k); }
  }

  lemma CopyInKeepsLog(v: View, g: Log, t: nat, payload: Bytes, urgent: bool)
    requires Conserved(v) && LogOk(v, g) && t in v.flights && v.flights[t].Filling?
    ensures LogOk(FillView(v, t, v.flights[t].node, payload, urgent), LogCopyIn(v, g, t, payload, urgent))
  {
    var n := v.flights[t].node;
    var v', g' := FillView(v, t, n, payload, urgent), LogCopyIn(v, g, t, payload, urgent);
    InFlight(v, t);
    assert n < |v.places| && !Live(v, n);
    assert forall m: nat :: Live(v', m) <==> Live(v, m) || m == n;
    hide Live, Conserved;
    forall id: nat | id < |g'.where| ensures Kept(v', g', id) { if id < |g.where| { assert Kept(v, g, id); } }
    forall m: nat ensures Tagged(v', g', m) { assert Tagged(v, g, m); }
    forall i: nat | i < |v'.queue| ensures QueuedAs(v', g', i) { assert QueuedAs(v, g, i) && v.queue[i] in v.queue; }
    forall u | u in v'.flights ensures FlightAs(v', g', u) { if u != t { assert FlightAs(v, g, u); } }
    forall u | u in g'.copied ensures CopiedAs(v', g', u) { assert CopiedAs(v, g, u); }
    forall k: nat | k < |g'.outs| ensures OutAs(v', g', k) { assert OutAs(v, g, k); }
  }

  lemma LinkKeepsLog(v: View, g: Log, t: nat)
    requires Conserved(v) && LogOk(v, g) && t in v.flights && v.flights[t].Filled? && |v.msgs| == |v.queue|
    ensures var f := v.flights[t];
      f.node < |v.places| && LogOk(LinkView(v, t, f.node, f.payload, f.urgent), LogLink(v, g, t))
  {
    var f := v.flights[t];
    var v', g' := LinkView(v, t, f.node, f.payload, f.urgent), LogLink(v, g, t);
    assert FlightAs(v, g, t);
    assert forall m: nat :: Live(v', m) <==> Live(v, m);
    hide Live, Conserved;
    forall id: nat | id < |g'.where| ensures Kept(v', g', id) { assert Kept(v, g, id); }
    forall m: nat ensures Tagged(v', g', m) { assert Tagged(v, g, m); }
    forall i: nat | i < |v'.queue| ensures QueuedAs(v', g', i) {
      if f.urgent {
        if i > 0 { assert QueuedAs(v, g, i - 1); }
      } else if i < |v.queue| {
        assert QueuedAs(v, g, i);
      }
    }
    forall u | u in v'.flights ensures FlightAs(v', g', u) { assert FlightAs(v, g, u); }
    forall u | u in g'.copied ensures CopiedAs(v', g', u) { assert CopiedAs(v, g, u); }
    forall k: nat | k < |g'.outs| ensures OutAs(v', g', k) { assert OutAs(v, g, k); }
  }

  lemma PopKeepsLog(v: View, g: Log, t: nat)
    requires Conserved(v) && LogOk(v, g) && NoRepeats(v.queue) && t !in v.flights
    requires v.queue != [] && |v.msgs| == |v.queue| && v.queue[0] < |v.places|
    ensures LogOk(PopView(v, t), LogPop(v, g))
  {
    var v', g' := PopView(v, t), LogPop(v, g);
    assert v.queue[0] in v.queue;
    assert QueuedAs(v, g, 0);
    assert forall m: nat :: Live(v', m) <==> Live(v, m);
    hide Live, Conserved, NoRepeats;
    forall id: nat | id < |g'.where| ensures Kept(v', g', id) { assert Kept(v, g, id); }
    forall m: nat ensures Tagged(v', g', m) { assert Tagged(v, g, m); }
    forall i: nat | i < |v'.queue| ensures QueuedAs(v', g', i) { assert QueuedAs(v, g, i + 1); }
    forall u | u in v'.flights ensures FlightAs(v', g', u) { if u != t { assert FlightAs(v, g, u); } }
    forall u | u in g'.copied ensures CopiedAs(v', g', u) { assert CopiedAs(v, g, u); }
    forall k: nat | k < |g'.outs| ensures OutAs(v', g', k) { assert OutAs(v, g, k); }
  }

  lemma Facts(q: Queue, msgSize: nat)
    requires QueueOk(q, msgSize)
    ensures Conserved(q.v) && NoRepeats(q.v.queue) && |q.v.msgs| == |q.v.queue|
  {
  }

  /** The bytes in the buffer of a held node are those of its message. */
  lemma BytesAreTheMessage(q: Queue, t: nat, size: nat, msgSize: nat)
    requires QueueOk(q, msgSize) && t in q.v.flights && q.v.flights[t].Draining?
    ensures Got(q.v.flights[t].payload, size, BytesOut(q.p, q.v.flights[t].node, size, msgSize))
  {
    hide WakeOk, Chain, Conserved;
    assert FlightOk(q.p, q.v.flights[t], msgSize);
  }

  lemma CopyOutKeepsLog(q: Queue, g: Log, t: nat, size: nat, msgSize: nat)
    requires QueueOk(q, msgSize) && LogOk(q.v, g) && t in q.v.flights && q.v.flights[t].Draining? && t !in g.copied
    ensures LogOk(q.v, LogCopyOut(q, g, t, size, msgSize))
  {
    hide LogOk, PoolOk, WakeOk, BytesOut, Got, Conserved;
    BytesAreTheMessage(q, t, size, msgSize);
    Facts(q, msgSize);
    OutKeepsLog(q.v, g, t, size, BytesOut(q.p, q.v.flights[t].node, size, msgSize));
  }

  lemma OutKeepsLog(v: View, g: Log, t: nat, size: nat, bytes: Bytes)
    requires Conserved(v) && LogOk(v, g) && t in v.flights && v.flights[t].Draining? && t !in g.copied
    requires Got(v.flights[t].payload, size, bytes)
    ensures var out := Out(TagOf(g, v.flights[t].node), t, size, bytes);
      LogOk(v, g.(copied := g.copied[t := |g.outs|], outs := g.outs + [out]))
  {
    var n := v.flights[t].node;
    var g' := g.(copied := g.copied[t := |g.outs|], outs := g.outs + [Out(TagOf(g, n), t, size, bytes)]);
    HeldIsLive(v, t);
    hide Conserved, Got, Live;
    assert FlightAs(v, g, t) && Tagged(v, g, n);
    forall id: nat | id < |g'.where| ensures Kept(v, g', id) { assert Kept(v, g, id); }
    forall m: nat ensures Tagged(v, g', m) { assert Tagged(v, g, m); }
    forall i: nat | i < |v.queue| ensures QueuedAs(v, g', i) { assert QueuedAs(v, g, i); }
    forall u | u in v.flights ensures FlightAs(v, g', u) { assert FlightAs(v, g, u); }
    forall u | u in g'.copied ensures CopiedAs(v, g', u) { if u != t { assert CopiedAs(v, g, u); } }
    forall k: nat | k < |g'.outs| ensures OutAs(v, g', k) { if k < |g.outs| { assert OutAs(v, g, k); } }
  }

  lemma HeldIsLive(v: View, t: nat)
    requires Conserved(v) && t in v.flights && !v.flights[t].Filling?
    ensures Live(v, v.flights[t].node)
  {
  }

  lemma EndKeepsLog(v: View, g: Log, t: nat)
    requires Conserved(v) && LogOk(v, g) && t in v.flights && v.flights[t].Draining? && t in g.copied
    ensures var n := v.flights[t].node;
      n < |v.places| && LogOk(ReturnView(v, t, n), LogEnd(v, g, t))
  {
    var n := v.flights[t].node;
    var v', g' := ReturnView(v, t, n), LogEnd(v, g, t);
    InFlight(v, t);
    HeldIsLive(v, t);
    assert FlightAs(v, g, t) && CopiedAs(v, g, t) && Tagged(v, g, n);
    assert forall m: nat :: Live(v', m) <==> Live(v, m) && m != n;
    hide Live, Conserved, Got;
    forall id: nat | id < |g'.where| ensures Kept(v', g', id) { assert Kept(v, g, id); }
    forall m: nat ensures Tagged(v', g', m) { assert Tagged(v, g, m); }
    forall i: nat | i < |v'.queue| ensures QueuedAs(v', g', i) { assert QueuedAs(v, g, i); }
    forall u | u in v'.flights ensures FlightAs(v', g', u) { assert FlightAs(v, g, u); }
    forall u | u in g'.copied ensures CopiedAs(v', g', u) { assert CopiedAs(v, g, u); }
    forall k: nat | k < |g'.outs| ensures OutAs(v', g', k) { assert OutAs(v, g, k); }
  }

  lemma DropKeepsLog(v: View, g: Log)
    requires Conserved(v) && LogOk(v, g) && NoRepeats(v.queue)
    requires v.queue != [] && |v.msgs| == |v.queue| && v.queue[0] < |v.places|
    ensures LogOk(DrainView(v), LogDrop(v, g))
  {
    var v', g' := DrainView(v), LogDrop(v, g);
    var n := v.queue[0];
    assert n in v.queue && Live(v, n);
    assert QueuedAs(v, g, 0) && Tagged(v, g, n);
    assert forall m: nat :: Live(v', m) <==> Live(v, m) && m != n;
    assert forall u :: u in v.flights ==> v.flights[u].node != n;
    hide Live, Conserved, NoRepeats, Got;
    forall id: nat | id < |g'.where| ensures Kept(v', g', id) { assert Kept(v, g, id); }
    forall m: nat ensures Tagged(v', g', m) { assert Tagged(v, g, m); }
    forall i: nat | i < |v'.queue| ensures QueuedAs(v', g', i) { assert QueuedAs(v, g, i + 1); }
    forall u | u in v'.flights ensures FlightAs(v', g', u) { assert FlightAs(v, g, u); }
    forall u | u in g'.copied ensures CopiedAs(v', g', u) { assert CopiedAs(v, g, u); }
    forall k: nat | k < |g'.outs| ensures OutAs(v', g', k) { assert OutAs(v, g, k); }
  }

  // ---------------------------------------------------------- whole runs

  ghost predicate StateOk(s: State, msgSize: nat) {
    QueueOk(s.q, msgSize) && LogOk(s.q.v, s.g)
  }

  lemma {:induction false} ResetOk(q: Queue, g: Log, msgSize: nat)
    requires QueueOk(q, msgSize) && LogOk(q.v, g) && q.receivers == []
    ensures var q', g' := Drained(q), LogReset(q, g);
      QueueOk(q', msgSize) && LogOk(q'.v, g') && q'.v.queue == [] && q'.v.flights == q.v.flights && q'.receivers == []
    decreases |q.v.queue|
  {
    Guards(q, msgSize);
    Facts(q, msgSize);
    hide QueueOk, LogOk, Conserved, NoRepeats;
    if CanPop(q) {
      AfterDrainOk(q, msgSize);
      DropKeepsLog(q.v, g);
      ResetOk(AfterDrain(q), LogDrop(q.v, g), msgSize);
    }
  }

  lemma SendStepOk(s: State, flag: Flag, msgSize: nat, op: Op)
    requires StateOk(s, msgSize) && Enabled(s, msgSize, op) && (op.BeginSend? || op.CopyIn? || op.LinkNode?)
    ensures StateOk(Next(s, flag, msgSize, op), msgSize)
  {
    Guards(s.q, msgSize);
    Facts(s.q, msgSize);
    hide QueueOk, LogOk, Conserved, NoRepeats;
    match op
    case BeginSend(t, _) =>
      BeginOk(s.q, msgSize, t);
      if CanTake(s.q) { BeginKeepsLog(s.q.v, s.g, t); }
    case CopyIn(t, payload, urgent) =>
      CopyInOk(s.q, msgSize, t, payload, urgent);
      CopyInKeepsLog(s.q.v, s.g, t, payload, urgent);
    case LinkNode(t) =>
      LinkOk(s.q, msgSize, t);
      LinkKeepsLog(s.q.v, s.g, t);
  }

  lemma RecvStepOk(s: State, flag: Flag, msgSize: nat, op: Op)
    requires StateOk(s, msgSize) && Enabled(s, msgSize, op) && (op.BeginRecv? || op.CopyOut? || op.EndRecv?)
    ensures StateOk(Next(s, flag, msgSize, op), msgSize)
  {
    Guards(s.q, msgSize);
    Facts(s.q, msgSize);
    hide QueueOk, LogOk, Conserved, NoRepeats;
    match op
    case BeginRecv(t, wait, prio) =>
      LookOk(s.q, msgSize, flag, t, wait, prio);
      if CanPop(s.q) { PopKeepsLog(s.q.v, s.g, t); }
    case CopyOut(t, size) =>
      CopyOutKeepsLog(s.q, s.g, t, size, msgSize);
    case EndRecv(t) =>
      GiveBackOk(s.q, msgSize, t);
      EndKeepsLog(s.q.v, s.g, t);
  }

  lemma StepOk(s: State, flag: Flag, msgSize: nat, op: Op)
    requires StateOk(s, msgSize) && Enabled(s, msgSize, op)
    ensures StateOk(Next(s, flag, msgSize, op), msgSize)
  {
    hide PoolOk, LogOk, Drained, LogReset;
    match op {
      case Timeout(t) =>
        TimeoutOk(s.q, msgSize, t);
      case Reset =>
        ResetOk(s.q.(receivers := []), s.g, msgSize);
      case _ =>
        if op.BeginSend? || op.CopyIn? || op.LinkNode? {
          SendStepOk(s, flag, msgSize, op);
        } else {
          RecvStepOk(s, flag, msgSize, op);
        }
    }
  }

  /** Pool, wake-ups and log stay sound over every interleaving, with timeouts and resets in between. */
  lemma {:induction false} RunOk(s: State, flag: Flag, msgSize: nat, run: seq<Op>, r: State)
    requires StateOk(s, msgSize) && Reaches(s, flag, msgSize, run, r)
    ensures StateOk(r, msgSize)
    decreases |run|
  {
    hide StateOk, Next, Enabled;
    if run != [] {
      StepOk(s, flag, msgSize, run[0]);
      RunOk(Next(s, flag, msgSize, run[0]), flag, msgSize, run[1..], r);
    }
  }

  lemma InitialOk(s: State, msgSize: nat)
    requires Initial(s, msgSize)
    ensures StateOk(s, msgSize)
  {
    NoneInUse(s.q, msgSize);
    hide QueueOk;
  }

  /** With every node in the free list none holds a message. */
  lemma NoneInUse(q: Queue, msgSize: nat)
    requires Started(q, msgSize)
    ensures forall n: nat :: !Live(q.v, n)
  {
    hide Chain, WakeOk;
  }

  // -------------------------------------------------------- every message

  /** Node `n` holds message `id`. */
  ghost predicate Carries(s: State, n: nat, id: nat) {
    Live(s.q.v, n) && n < |s.g.tag| && s.g.tag[n] == id
  }

  /** Node `n` is in the queue or in the hands of exactly one thread, and its buffer starts with `payload`. */
  ghost predicate Safe(q: Queue, n: nat, payload: Bytes) {
    && n < |q.p.data| && payload <= q.p.data[n]
    && (n in q.v.queue || exists t :: HeldBy(q.v, n, t) && forall u :: HeldBy(q.v, n, u) ==> u == t)
  }

  ghost predicate HeldBy(v: View, n: nat, t: nat) {
    t in v.flights && v.flights[t].node == n
  }

  lemma LiveIsSafe(q: Queue, g: Log, n: nat, msgSize: nat)
    requires QueueOk(q, msgSize) && LogOk(q.v, g) && Live(q.v, n)
    ensures n < |g.tag| && 0 <= g.tag[n] < |g.filled| && Safe(q, n, g.filled[g.tag[n]])
  {
    assert Tagged(q.v, g, n);
    if q.v.places[n] == InQueue {
      assert n in q.v.queue;
      var i :| 0 <= i < |q.v.queue| && q.v.queue[i] == n;
      assert MsgAt(q.p, q.v, i) && QueuedAs(q.v, g, i);
    } else {
      var t := q.v.places[n].t;
      assert HeldBy(q.v, n, t) && FlightAs(q.v, g, t) && FlightOk(q.p, q.v.flights[t], msgSize);
      hide Chain, WakeOk;
    }
  }

  /** Over every run: a message that was copied in is in one node, which nobody overwrites, or was copied out, or was
      thrown away by a reset; it is never in two places. */
  lemma EveryMessageOnce(s: State, flag: Flag, msgSize: nat, run: seq<Op>, r: State, id: nat)
    requires Initial(s, msgSize) && Reaches(s, flag, msgSize, run, r) && id < |r.g.filled|
    ensures |r.g.where| == |r.g.filled|
    ensures forall n :: r.g.where[id] == InNode(n) <==> Carries(r, n, id)
    ensures forall n :: Carries(r, n, id) ==> Safe(r.q, n, r.g.filled[id])
    ensures forall k: nat :: r.g.where[id] == Delivered(k) ==> k < |r.g.outs| && r.g.outs[k].id == id
    ensures r.g.where[id] == Dropped ==> forall k :: 0 <= k < |r.g.outs| ==> r.g.outs[k].id != id
  {
    InitialOk(s, msgSize);
    RunOk(s, flag, msgSize, run, r);
    hide QueueOk, Initial, Reaches;
    assert Kept(r.q.v, r.g, id);
    forall n | Carries(r, n, id) ensures r.g.where[id] == InNode(n) && Safe(r.q, n, r.g.filled[id]) {
      assert Tagged(r.q.v, r.g, n);
      LiveIsSafe(r.q, r.g, n, msgSize);
    }
    hide Live, Safe;
    forall k: nat | k < |r.g.outs| ensures r.g.outs[k].id == id ==> r.g.where[id] != Dropped {
      assert OutAs(r.q.v, r.g, k);
    }
  }

  /** Over every run: what is copied out is what was copied in, and no message is copied out twice. */
  lemma CopiedOutOnce(s: State, flag: Flag, msgSize: nat, run: seq<Op>, r: State, j: nat, k: nat)
    requires Initial(s, msgSize) && Reaches(s, flag, msgSize, run, r) && j < k < |r.g.outs|
    ensures r.g.outs[j].id < |r.g.filled| && r.g.outs[k].id < |r.g.filled| && r.g.outs[j].id != r.g.outs[k].id
    ensures Got(r.g.filled[r.g.outs[j].id], r.g.outs[j].size, r.g.outs[j].bytes)
    ensures Got(r.g.filled[r.g.outs[k].id], r.g.outs[k].size, r.g.outs[k].bytes)
  {
    InitialOk(s, msgSize);
    RunOk(s, flag, msgSize, run, r);
    Facts(r.q, msgSize);
    hide QueueOk, Initial, Reaches, Got;
    assert OutAs(r.q.v, r.g, j) && OutAs(r.q.v, r.g, k);
  }

  /** No wake-up is lost: while a receiver is suspended, every queued message has a woken receiver on its way. */
  lemma NoLostWakeup(s: State, flag: Flag, msgSize: nat, run: seq<Op>, r: State)
    requires Initial(s, msgSize) && Reaches(s, flag, msgSize, run, r)
    ensures r.q.receivers != [] ==> |r.q.v.queue| <= |r.q.woken|
    ensures |r.q.v.freeList| + |r.q.v.queue| + |r.q.v.flights| == |r.q.v.places|
  {
    InitialOk(s, msgSize);
    RunOk(s, flag, msgSize, run, r);
    NodesConserved(r.q.v);
  }

  // --------------------------------------------------------------- order

  ghost function Tags(g: Log, nodes: seq<nat>): seq<nat> {
    seq(|nodes|, i requires 0 <= i < |nodes| => TagOf(g, nodes[i]))
  }

  /** The messages that have left, and then those in the queue. */
  ghost function Leaving(v: View, g: Log): seq<nat> {
    g.left + Tags(g, v.queue)
  }

  /** Of `linked[i]` and the later `linked[j]` an urgent `linked[j]` goes first, unless `linked[i]` had left before it
      came; else the earlier one goes first. */
  ghost predicate Pair(order: seq<nat>, g: Log, i: nat, j: nat)
    requires i < j < |g.linked| == |g.gone| && g.gone[j] <= |g.left| && g.linked[j] < |g.urgent|
  {
    if g.urgent[g.linked[j]] && g.linked[i] !in g.left[..g.gone[j]] then Before(order, g.linked[j], g.linked[i])
    else Before(order, g.linked[i], g.linked[j])
  }

  ghost predicate LineOk(order: seq<nat>, g: Log) {
    && |g.gone| == |g.linked| && |g.urgent| == |g.filled| && g.left <= order
    && NoRepeats(order) && NoRepeats(g.linked)
    && (forall x :: x in order <==> x in g.linked)
    && (forall j: nat | j < |g.linked| :: g.linked[j] < |g.urgent|)
    && (forall j: nat | j < |g.gone| :: g.gone[j] <= |g.left|)
    && (forall i: nat, j: nat | i < j < |g.linked| :: Pair(order, g, i, j))
  }

  /** Thread `t` has filled a node, and is to link a message that was not linked before. */
  ghost predicate Marked(v: View, g: Log, t: nat)
    requires t in v.flights
  {
    var f := v.flights[t];
    f.Filled? ==>
      var id := TagOf(g, f.node);
      id < |g.urgent| && g.urgent[id] == f.urgent && id !in g.linked
  }

  ghost predicate OrderOk(v: View, g: Log) {
    LineOk(Leaving(v, g), g) && forall t: nat | t in v.flights :: Marked(v, g, t)
  }

  /** A newcomer anywhere changes nothing for the others. */
  lemma InsertedBefore(x: seq<nat>, y: seq<nat>, c: nat, a: nat, b: nat)
    requires Before(x + y, a, b)
    ensures Before(x + [c] + y, a, b)
  {
    var s, r := x + y, x + [c] + y;
    var i, j :| 0 <= i < j < |s| && s[i] == a && s[j] == b;
    var i', j' := if i < |x| then i else i + 1, if j < |x| then j else j + 1;
    assert r[i'] == a && r[j'] == b;
  }

  lemma Inserted(x: seq<nat>, y: seq<nat>, c: nat)
    requires NoRepeats(x + y) && c !in x + y
    ensures var r := x + [c] + y;
      && NoRepeats(r) && (forall z :: z in r <==> z == c || z in x + y)
      && (forall z :: z in x ==> Before(r, z, c)) && (forall z :: z in y ==> Before(r, c, z))
  {
    var r := x + [c] + y;
    assert forall z :: z in x + y <==> z in x || z in y;
    forall z | z in x ensures Before(r, z, c) {
      var i :| 0 <= i < |x| && x[i] == z;
      assert r[i] == z && r[|x|] == c;
    }
    forall z | z in y ensures Before(r, c, z) {
      var i :| 0 <= i < |y| && y[i] == z;
      assert r[|x|] == c && r[|x| + 1 + i] == z;
    }
    forall i, j | 0 <= i < j < |r| ensures r[i] != r[j] {
      var s := x + y;
      assert i != |x| ==> r[i] == s[if i < |x| then i else i - 1];
      assert j != |x| ==> r[j] == s[if j < |x| then j else j - 1];
    }
  }

  /** The message `b` is linked behind `x`, before `y`. */
  lemma LinkedLine(x: seq<nat>, y: seq<nat>, g: Log, b: nat)
    requires LineOk(x + y, g) && b < |g.urgent| && b !in g.linked
    requires if g.urgent[b] then x == g.left else y == []
    ensures LineOk(x + [b] + y, g.(linked := g.linked + [b], gone := g.gone + [|g.left|]))
  {
    var order, g' := x + [b] + y, g.(linked := g.linked + [b], gone := g.gone + [|g.left|]);
    Inserted(x, y, b);
    AppendedList(g.linked, b);
    assert g.left <= order;
    assert g.left[..|g.left|] == g.left;
    forall i: nat, j: nat | i < j < |g'.linked| ensures Pair(order, g', i, j) {
      if j < |g.linked| {
        assert Pair(x + y, g, i, j);
        var a, c := g.linked[i], g.linked[j];
        if Before(x + y, a, c) { InsertedBefore(x, y, b, a, c); }
        if Before(x + y, c, a) { InsertedBefore(x, y, b, c, a); }
      } else {
        assert g.linked[i] in x + y;
      }
    }
  }

  lemma LinkOrder(v: View, g: Log, t: nat)
    requires Conserved(v) && LogOk(v, g) && OrderOk(v, g) && t in v.flights && v.flights[t].Filled?
    ensures var f := v.flights[t];
      f.node < |v.places| && OrderOk(LinkView(v, t, f.node, f.payload, f.urgent), LogLink(v, g, t))
  {
    var f := v.flights[t];
    var v', g' := LinkView(v, t, f.node, f.payload, f.urgent), LogLink(v, g, t);
    var b := TagOf(g, f.node);
    var rest := Tags(g, v.queue);
    assert Marked(v, g, t);
    assert Tags(g', v.queue) == rest;
    if f.urgent {
      LinkedLine(g.left, rest, g, b);
      assert Leaving(v', g') == g.left + [b] + rest;
    } else {
      assert g.left + rest + [] == g.left + rest;
      LinkedLine(g.left + rest, [], g, b);
      assert Leaving(v', g') == g.left + rest + [b] + [];
    }
    hide LineOk;
    forall u: nat | u in v'.flights ensures Marked(v', g', u) {
      assert Marked(v, g, u);
      if v.flights[u].Filled? { OtherTag(v, g, t, u); }
    }
  }

  /** Two threads that have filled their nodes are to link different messages. */
  lemma OtherTag(v: View, g: Log, t: nat, u: nat)
    requires Conserved(v) && LogOk(v, g) && t in v.flights && u in v.flights && t != u
    requires v.flights[t].Filled? && v.flights[u].Filled?
    ensures TagOf(g, v.flights[t].node) != TagOf(g, v.flights[u].node)
  {
    HeldIsLive(v, t);
    HeldIsLive(v, u);
    InFlight(v, t);
    assert Tagged(v, g, v.flights[t].node) && Tagged(v, g, v.flights[u].node);
  }

  lemma CopyInOrder(v: View, g: Log, t: nat, payload: Bytes, urgent: bool)
    requires Conserved(v) && |g.tag| == |v.places| && OrderOk(v, g) && t in v.flights
    ensures OrderOk(FillView(v, t, v.flights[t].node, payload, urgent), LogCopyIn(v, g, t, payload, urgent))
  {
    var n := v.flights[t].node;
    var v', g' := FillView(v, t, n, payload, urgent), LogCopyIn(v, g, t, payload, urgent);
    InFlight(v, t);
    assert n < |g.tag|;
    hide Conserved;
    forall i: nat | i < |v.queue| ensures TagOf(g', v.queue[i]) == TagOf(g, v.queue[i]) {
      assert v.queue[i] in v.queue;
    }
    assert Leaving(v', g') == Leaving(v, g);
    LineWith(Leaving(v, g), g, payload, urgent, g'.tag, g'.where);
    forall u: nat | u in v'.flights ensures Marked(v', g', u) {
      if u != t { assert Marked(v, g, u); }
    }
  }

  lemma LineWith(order: seq<nat>, g: Log, payload: Bytes, urgent: bool, tag: seq<int>, where: seq<Where>)
    requires LineOk(order, g)
    ensures LineOk(order, g.(filled := g.filled + [payload], tag := tag, where := where, urgent := g.urgent + [urgent]))
  {
    var g' := g.(filled := g.filled + [payload], tag := tag, where := where, urgent := g.urgent + [urgent]);
    hide NoRepeats;
    forall i: nat, j: nat | i < j < |g'.linked| ensures Pair(order, g', i, j) {
      assert Pair(order, g, i, j) && g.linked[j] in g.linked;
    }
  }

  /** The head of the queue leaves. */
  lemma LeaveOrder(v: View, g: Log, v': View, g': Log)
    requires OrderOk(v, g) && v.queue != [] && v'.queue == v.queue[1..]
    requires exists where :: g' == g.(left := g.left + [TagOf(g, v.queue[0])], where := where)
    requires forall t: nat | t in v'.flights && v'.flights[t].Filled? :: t in v.flights && v'.flights[t] == v.flights[t]
    ensures OrderOk(v', g')
  {
    var order := Leaving(v, g);
    assert Leaving(v', g') == order;
    hide NoRepeats;
    assert LineOk(order, g') by {
      forall i: nat, j: nat | i < j < |g'.linked| ensures Pair(order, g', i, j) {
        assert Pair(order, g, i, j);
        assert g'.left[..g.gone[j]] == g.left[..g.gone[j]];
      }
    }
    hide LineOk;
    forall t: nat | t in v'.flights ensures Marked(v', g', t) {
      if v'.flights[t].Filled? { assert Marked(v, g, t); }
    }
  }

  lemma {:induction false} ResetOrder(q: Queue, g: Log)
    requires OrderOk(q.v, g)
    ensures OrderOk(Drained(q).v, LogReset(q, g))
    decreases |q.v.queue|
  {
    hide OrderOk;
    if CanPop(q) {
      LeaveOrder(q.v, g, DrainView(q.v), LogDrop(q.v, g));
      ResetOrder(AfterDrain(q), LogDrop(q.v, g));
    }
  }

  /** The other steps change neither the queue nor its part of the log. */
  lemma SameOrder(v: View, g: Log, v': View, g': Log)
    requires OrderOk(v, g) && v'.queue == v.queue
    requires exists where, copied, outs :: g' == g.(where := where, copied := copied, outs := outs)
    requires forall t: nat | t in v'.flights && v'.flights[t].Filled? :: t in v.flights && v'.flights[t] == v.flights[t]
    ensures OrderOk(v', g')
  {
    hide NoRepeats;
    assert Leaving(v', g') == Leaving(v, g);
    forall i: nat, j: nat | i < j < |g'.linked| ensures Pair(Leaving(v', g'), g', i, j) {
      assert Pair(Leaving(v, g), g, i, j);
    }
    assert LineOk(Leaving(v', g'), g');
    hide LineOk;
    forall t: nat | t in v'.flights ensures Marked(v', g', t) {
      if v'.flights[t].Filled? { assert Marked(v, g, t); }
    }
  }

  lemma StepOrder(s: State, flag: Flag, msgSize: nat, op: Op)
    requires StateOk(s, msgSize) && Enabled(s, msgSize, op) && OrderOk(s.q.v, s.g)
    ensures var s' := Next(s, flag, msgSize, op); OrderOk(s'.q.v, s'.g)
  {
    Guards(s.q, msgSize);
    Facts(s.q, msgSize);
    assert |s.g.tag| == |s.q.v.places|;
    hide QueueOk, LogOk, Enqueue, Conserved, NoRepeats, OrderOk;
    match op {
      case CopyIn(t, payload, urgent) => CopyInOrder(s.q.v, s.g, t, payload, urgent);
      case LinkNode(t) => LinkOrder(s.q.v, s.g, t);
      case BeginRecv(t, _, _) =>
        if CanPop(s.q) {
          LeaveOrder(s.q.v, s.g, PopView(s.q.v, t), LogPop(s.q.v, s.g));
        } else {
          SameOrder(s.q.v, s.g, Next(s, flag, msgSize, op).q.v, s.g);
        }
      case Reset => ResetOrder(s.q.(receivers := []), s.g);
      case _ => SameOrder(s.q.v, s.g, Next(s, flag, msgSize, op).q.v, Next(s, flag, msgSize, op).g);
    }
  }

  lemma {:induction false} RunOrder(s: State, flag: Flag, msgSize: nat, run: seq<Op>, r: State)
    requires StateOk(s, msgSize) && Reaches(s, flag, msgSize, run, r) && OrderOk(s.q.v, s.g)
    ensures OrderOk(r.q.v, r.g)
    decreases |run|
  {
    hide StateOk, Next, Enabled, OrderOk;
    if run != [] {
      StepOk(s, flag, msgSize, run[0]);
      StepOrder(s, flag, msgSize, run[0]);
      RunOrder(Next(s, flag, msgSize, run[0]), flag, msgSize, run[1..], r);
    }
  }

  /** What comes before an element of a prefix is in the prefix. */
  lemma BeforeInPrefix(s: seq<nat>, rest: seq<nat>, a: nat, b: nat)
    requires NoRepeats(s + rest) && Before(s + rest, a, b) && b in s
    ensures Before(s, a, b)
  {
    var r := s + rest;
    var i, j :| 0 <= i < j < |r| && r[i] == a && r[j] == b;
    var k :| 0 <= k < |s| && s[k] == b;
    assert r[k] == b;
    assert s[i] == a && s[j] == b;
  }

  /** Over every run, for a message and one linked after it: if the later one is urgent and the earlier was still in the
      queue when it was linked, then the earlier leaves only after the later.  If the later one is not urgent, it
      leaves only after the earlier. */
  lemma UrgentFirst(s: State, flag: Flag, msgSize: nat, run: seq<Op>, r: State, i: nat, j: nat)
    requires Initial(s, msgSize) && Reaches(s, flag, msgSize, run, r) && i < j < |r.g.linked|
    ensures |r.g.gone| == |r.g.linked| && r.g.gone[j] <= |r.g.left| && r.g.linked[j] < |r.g.urgent|
    ensures var a, b := r.g.linked[i], r.g.linked[j];
      && a != b
      && (r.g.urgent[b] && a !in r.g.left[..r.g.gone[j]] ==> a in r.g.left ==> Before(r.g.left, b, a))
      && (!r.g.urgent[b] ==> b in r.g.left ==> Before(r.g.left, a, b))
  {
    InitialOk(s, msgSize);
    RunOrder(s, flag, msgSize, run, r);
    hide Initial, Reaches, StateOk;
    var order, rest := Leaving(r.q.v, r.g), Tags(r.g, r.q.v.queue);
    assert Pair(order, r.g, i, j) && r.g.linked[j] in r.g.linked;
    var a, b := r.g.linked[i], r.g.linked[j];
    if r.g.urgent[b] && a !in r.g.left[..r.g.gone[j]] && a in r.g.left { BeforeInPrefix(r.g.left, rest, b, a); }
    if !r.g.urgent[b] && b in r.g.left { BeforeInPrefix(r.g.left, rest, a, b); }
  }

  /** Over every run: what was linked has left or is in the queue, once; and the queue is in the order in which its
      messages are to leave: an urgent one before those linked earlier, any other behind everything linked earlier. */
  lemma QueueIsInOrder(s: State, flag: Flag, msgSize: nat, run: seq<Op>, r: State)
    requires Initial(s, msgSize) && Reaches(s, flag, msgSize, run, r)
    ensures var queue := Tags(r.g, r.q.v.queue);
      && NoRepeats(r.g.left + queue) && (forall x :: x in r.g.linked <==> x in r.g.left + queue)
      && (forall i: nat, j: nat | i < j < |r.g.linked| && r.g.linked[i] in queue && r.g.linked[j] in queue ::
          r.g.linked[j] < |r.g.urgent| &&
          if r.g.urgent[r.g.linked[j]] then Before(queue, r.g.linked[j], r.g.linked[i])
          else Before(queue, r.g.linked[i], r.g.linked[j]))
  {
    InitialOk(s, msgSize);
    RunOrder(s, flag, msgSize, run, r);
    hide Initial, Reaches, StateOk;
    var left, queue := r.g.left, Tags(r.g, r.q.v.queue);
    forall i: nat, j: nat | i < j < |r.g.linked| && r.g.linked[i] in queue && r.g.linked[j] in queue
      ensures r.g.linked[j] < |r.g.urgent|
      ensures if r.g.urgent[r.g.linked[j]] then Before(queue, r.g.linked[j], r.g.linked[i])
        else Before(queue, r.g.linked[i], r.g.linked[j])
    {
      assert Pair(left + queue, r.g, i, j) && r.g.linked[j] in r.g.linked;
      StillQueued(left, queue, r.g.linked[i], r.g.linked[j], r.g.gone[j]);
    }
  }

  /** Of two in the queue, neither has left, and their order is the one in the queue. */
  lemma StillQueued(left: seq<nat>, queue: seq<nat>, a: nat, b: nat, k: nat)
    requires NoRepeats(left + queue) && a in queue && b in queue && k <= |left|
    ensures a !in left[..k]
    ensures Before(left + queue, a, b) ==> Before(queue, a, b)
    ensures Before(left + queue, b, a) ==> Before(queue, b, a)
  {
    var s := left + queue;
    var m :| 0 <= m < |queue| && queue[m] == a;
    var n :| 0 <= n < |queue| && queue[n] == b;
    assert s[|left| + m] == a && s[|left| + n] == b;
    assert forall i :: 0 <= i < |left| ==> s[i] == left[i];
  }

  lemma HasMember(s: seq<nat>)
    requires s != []
    ensures exists x :: x in s
  {
    assert s[0] in s;
  }

  /** Two lists of the same elements in the same order are one. */
  lemma {:induction false} SameList(s: seq<nat>, r: seq<nat>)
    requires NoRepeats(s) && NoRepeats(r) && (forall x :: x in s <==> x in r)
    requires forall i: nat, j: nat | i < j < |r| :: Before(s, r[i], r[j])
    ensures s == r
  {
    if s == [] {
      if r != [] { HasMember(r); }
    } else {
      assert s[0] in s;
      var k: nat :| k < |r| && r[k] == s[0];
      if k > 0 { NotBoth(s, r[0], r[k]); }
      HeadGone(s);
      HeadGone(r);
      forall i: nat, j: nat | i < j < |r| - 1 ensures Before(s[1..], r[1..][i], r[1..][j]) {
        assert Before(s, r[i + 1], r[j + 1]);
        var m, n :| 0 <= m < n < |s| && s[m] == r[i + 1] && s[n] == r[j + 1];
        assert m > 0 && s[1..][m - 1] == r[i + 1] && s[1..][n - 1] == r[j + 1];
      }
      SameList(s[1..], r[1..]);
    }
  }

  /** When no urgent message was linked, messages leave the queue in the order in which they were linked. */
  lemma FirstInFirstOut(s: State, flag: Flag, msgSize: nat, run: seq<Op>, r: State)
    requires Initial(s, msgSize) && Reaches(s, flag, msgSize, run, r)
    requires forall x :: x in r.g.linked && x < |r.g.urgent| ==> !r.g.urgent[x]
    ensures r.g.left + Tags(r.g, r.q.v.queue) == r.g.linked
  {
    InitialOk(s, msgSize);
    RunOrder(s, flag, msgSize, run, r);
    hide Initial, Reaches, StateOk, NoRepeats;
    var order := Leaving(r.q.v, r.g);
    forall i: nat, j: nat | i < j < |r.g.linked| ensures Before(order, r.g.linked[i], r.g.linked[j]) {
      assert Pair(order, r.g, i, j) && r.g.linked[j] in r.g.linked;
    }
    SameList(order, r.g.linked);
  }

  // ------------------------------------------------- the order of waking

  /** The suspended receivers in the order of their arrival: who finds the queue empty joins, if it may wait, and a
      message that is linked takes the next one out. */
  ghost function NoteLine(line: seq<nat>, flag: Flag, prio: seq<int>, s: State, op: Op): seq<nat> {
    match op
    case LinkNode(_) => if line == [] then [] else Without(line, NextInLine(flag, line, prio))
    case BeginRecv(t, wait, _) => if s.q.v.queue == [] && wait then line + [t] else line
    case Timeout(t) => Without(line, t)
    case Reset => []
    case _ => line
  }

  ghost function NotesLine(line: seq<nat>, flag: Flag, prio: seq<int>, s: State, msgSize: nat, run: seq<Op>, r: State)
    : seq<nat>
    requires Reaches(s, flag, msgSize, run, r)
    decreases |run|
  {
    if run == [] then line else
      NotesLine(NoteLine(line, flag, prio, s, run[0]), flag, prio, Next(s, flag, msgSize, run[0]), msgSize, run[1..], r)
  }

  ghost predicate Steady(run: seq<Op>, prio: seq<int>) {
    forall i :: 0 <= i < |run| && run[i].BeginRecv? ==> run[i].prio == prio
  }

  lemma DrainedReceivers(q: Queue)
    ensures Drained(q).receivers == q.receivers
    decreases |q.v.queue|
  {
    if CanPop(q) { DrainedReceivers(AfterDrain(q)); }
  }

  lemma LineStep(s: State, flag: Flag, msgSize: nat, op: Op, line: seq<nat>, prio: seq<int>)
    requires StateOk(s, msgSize) && Enabled(s, msgSize, op) && (op.BeginRecv? ==> op.prio == prio)
    requires Ranked(s.q.receivers, flag, line, prio)
    ensures Ranked(Next(s, flag, msgSize, op).q.receivers, flag, NoteLine(line, flag, prio, s, op), prio)
  {
    Guards(s.q, msgSize);
    hide QueueOk, LogOk, Enqueue, LogReset, Drained;
    match op {
      case LinkNode(t) =>
        if s.q.receivers != [] { RankedServe(s.q.receivers, flag, line, prio); }
        if line != [] { SomeoneWaits(s.q.receivers, flag, line, prio); }
        hide Ranked;
      case BeginRecv(t, wait, _) =>
        if s.q.v.queue == [] && wait { RankedArrival(s.q.receivers, flag, line, prio, t); }
        hide Ranked;
      case Timeout(t) =>
        RankedLeave(s.q.receivers, flag, line, prio, t);
        hide Ranked;
      case Reset =>
        DrainedReceivers(s.q.(receivers := []));
      case _ =>
        hide Ranked;
    }
  }

  lemma {:induction false} LineRun(s: State, flag: Flag, msgSize: nat, run: seq<Op>, r: State, line: seq<nat>,
                                   prio: seq<int>)
    requires StateOk(s, msgSize) && Reaches(s, flag, msgSize, run, r) && Steady(run, prio)
    requires Ranked(s.q.receivers, flag, line, prio)
    ensures Ranked(r.q.receivers, flag, NotesLine(line, flag, prio, s, msgSize, run, r), prio)
    decreases |run|
  {
    hide StateOk, Next, Enabled, Ranked, NoteLine;
    if run != [] {
      StepOk(s, flag, msgSize, run[0]);
      LineStep(s, flag, msgSize, run[0], line, prio);
      LineRun(Next(s, flag, msgSize, run[0]), flag, msgSize, run[1..], r, NoteLine(line, flag, prio, s, run[0]), prio);
    }
  }

  /** Over every run with steady priorities the suspended receivers are those in the line, and the first to be woken is
      the next in line: the first to arrive or, with the PRIO flag, the first of the most urgent. */
  lemma WokenInOrder(s: State, flag: Flag, msgSize: nat, run: seq<Op>, r: State, prio: seq<int>)
    requires Initial(s, msgSize) && Reaches(s, flag, msgSize, run, r) && Steady(run, prio)
    ensures var line := NotesLine([], flag, prio, s, msgSize, run, r);
      && (forall t :: t in r.q.receivers <==> t in line)
      && (r.q.receivers != [] ==> line != [] && r.q.receivers[0] == NextInLine(flag, line, prio))
  {
    InitialOk(s, msgSize);
    hide QueueOk, LogOk, Reaches;
    LineRun(s, flag, msgSize, run, r, [], prio);
    if r.q.receivers != [] {
      HeadIsNext(r.q.receivers, flag, NotesLine([], flag, prio, s, msgSize, run, r), prio);
    }
  }
}
