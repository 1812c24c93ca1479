/** The scheduler (scheduler.c) and the thread operations that move threads in and out of it (thread.c, clock.c). */
module Schedulers {
  import opened Bits
  import opened ReadyMaps
  import opened RoundRobin
  import opened Sequences
  import opened Words

  const NONE: int := -1        // RT_NULL for rt_current_thread

  datatype Stat = Init | Ready | Suspend | Close

  datatype Thread = Thread(stat: Stat, initPriority: nat, currentPriority: nat, attr: Attr,
                           initTick: nat, remainingTick: nat, timedOut: bool)

  /** Priorities are in range; a thread that was started carries the masks of its current priority. */
  ghost predicate ThreadOk(x: Thread, levels: nat, flat: bool) {
    && x.initPriority < levels && x.currentPriority < levels && x.initTick < U32 && x.remainingTick < U32
    && (x.stat == Ready || x.stat == Suspend ==> x.attr == AttrOf(x.currentPriority, flat))
  }

  /** Queue `p` holds exactly the ready threads whose current priority is `p`, each once. */
  ghost predicate QueueOk(threads: seq<Thread>, queue: seq<nat>, p: nat) {
    && NoRepeats(queue)
    && forall t: nat :: t in queue <==> t < |threads| && threads[t].stat == Ready && threads[t].currentPriority == p
  }

  /** The ready structure agrees with the states of the threads, and the bitmap with the queues. */
  ghost predicate Coherent(threads: seq<Thread>, queues: seq<seq<nat>>, map': ReadyMap) {
    && (map'.Flat? <==> |queues| <= 32)
    && (forall t :: 0 <= t < |threads| ==> ThreadOk(threads[t], |queues|, map'.Flat?))
    && (forall p :: 0 <= p < |queues| ==> QueueOk(threads, queues[p], p))
    && MapOk(map', queues)
  }

  ghost predicate SomeReady(threads: seq<Thread>) {
    exists t :: 0 <= t < |threads| && threads[t].stat == Ready
  }

  /** `t` heads the most urgent queue that is not empty. */
  ghost predicate Chosen(queues: seq<seq<nat>>, t: int) {
    exists p :: IsTop(queues, p) && queues[p][0] == t
  }

  lemma QueueFacts(threads: seq<Thread>, queues: seq<seq<nat>>, m: ReadyMap, t: nat)
    requires Coherent(threads, queues, m) && t < |threads|
    ensures threads[t].currentPriority < |queues| && threads[t].initPriority < |queues|
    ensures m.TwoLevel? ==> |m.table| == 32
    ensures |queues| <= 256
    ensures threads[t].stat == Ready || threads[t].stat == Suspend ==>
      threads[t].attr == AttrOf(threads[t].currentPriority, m.Flat?) && (m.TwoLevel? ==> threads[t].attr.number < 32)
    ensures t in queues[threads[t].currentPriority] <==> threads[t].stat == Ready
  {
    hide MapOk;
    assert ThreadOk(threads[t], |queues|, m.Flat?);
    assert QueueOk(threads, queues[threads[t].currentPriority], threads[t].currentPriority);
    MapSizes(m, queues);
  }

  lemma MapSizes(m: ReadyMap, queues: seq<seq<nat>>)
    requires MapOk(m, queues)
    ensures |queues| <= 256 && (m.TwoLevel? ==> |m.table| == 32)
  {
  }

  /** The chosen thread runs at a priority at least as urgent as every ready thread's. */
  lemma ChosenIsMostUrgent(threads: seq<Thread>, queues: seq<seq<nat>>, m: ReadyMap, t: int)
    requires Coherent(threads, queues, m) && Chosen(queues, t)
    ensures 0 <= t < |threads| && threads[t].stat == Ready
    ensures forall u :: 0 <= u < |threads| && threads[u].stat == Ready ==>
      threads[t].currentPriority <= threads[u].currentPriority
  {
    hide MapOk;
    var p :| IsTop(queues, p) && queues[p][0] == t;
    assert QueueOk(threads, queues[p], p) && queues[p][0] in queues[p];
    forall u | 0 <= u < |threads| && threads[u].stat == Ready ensures p <= threads[u].currentPriority {
      var q := threads[u].currentPriority;
      assert ThreadOk(threads[u], |queues|, m.Flat?);
      assert QueueOk(threads, queues[q], q);
      assert u in queues[q];
    }
  }

  lemma HighestFacts(threads: seq<Thread>, queues: seq<seq<nat>>, m: ReadyMap)
    requires Coherent(threads, queues, m) && SomeReady(threads)
    ensures m.group < 0x1_0000_0000 && (m.TwoLevel? ==> 0 < Ffs(m.group) <= 32 && |m.table| == 32)
    ensures m.TwoLevel? ==> forall n: nat :: n < 32 ==> m.table[n] < 256
    ensures IsTop(queues, Highest(m))
  {
    var t :| 0 <= t < |threads| && threads[t].stat == Ready;
    var p := threads[t].currentPriority;
    assert ThreadOk(threads[t], |queues|, m.Flat?) && QueueOk(threads, queues[p], p);
    assert t in queues[p];
    HighestIsTop(m, queues, p);
  }

  // --------------------------------------------------- moving one thread

  function Removed(queues: seq<seq<nat>>, t: nat, p: nat): seq<seq<nat>>
    requires p < |queues|
  {
    queues[p := Without(queues[p], t)]
  }

  function MapRemoved(m: ReadyMap, queue: seq<nat>, a: Attr): ReadyMap
    requires m.TwoLevel? ==> a.number < |m.table|
  {
    if queue == [] then ClearBits(m, a) else m
  }

  /** A ready thread taken out of its queue is in none; its new state must not be Ready. */
  lemma RemovedOk(threads: seq<Thread>, queues: seq<seq<nat>>, m: ReadyMap, t: nat, x: Thread)
    requires Coherent(threads, queues, m) && t < |threads| && threads[t].stat == Ready
    requires x.stat != Ready && ThreadOk(x, |queues|, m.Flat?)
    ensures var p := threads[t].currentPriority;
      && p < |queues| && (m.TwoLevel? ==> threads[t].attr.number < |m.table|)
      && Coherent(threads[t := x], Removed(queues, t, p), MapRemoved(m, Without(queues[p], t), threads[t].attr))
  {
    QueueFacts(threads, queues, m, t);
    var p := threads[t].currentPriority;
    var queues' := Removed(queues, t, p);
    assert QueueOk(threads, queues[p], p);
    WithoutFacts(queues[p], t);
    assert OnlyQueue(queues, queues', p);
    RemovedMap(m, queues, queues', p);
    hide MapOk, NoRepeats, OnlyQueue, Without, AttrOf, MapRemoved;
    var threads' := threads[t := x];
    forall u | 0 <= u < |threads| ensures ThreadOk(threads'[u], |queues'|, m.Flat?) {
      assert ThreadOk(threads[u], |queues|, m.Flat?);
    }
    forall q | 0 <= q < |queues'| ensures QueueOk(threads[t := x], queues'[q], q) {
      assert QueueOk(threads, queues[q], q);
    }
  }

  lemma RemovedMap(m: ReadyMap, queues: seq<seq<nat>>, queues': seq<seq<nat>>, p: nat)
    requires MapOk(m, queues) && OnlyQueue(queues, queues', p) && queues[p] != []
    ensures m.TwoLevel? ==> AttrOf(p, m.Flat?).number < |m.table|
    ensures MapOk(MapRemoved(m, queues'[p], AttrOf(p, m.Flat?)), queues')
    ensures MapRemoved(m, queues'[p], AttrOf(p, m.Flat?)).Flat? == m.Flat?
  {
    MapSizes(m, queues);
    hide MapOk;
    if queues'[p] == [] { ClearBitsOk(m, queues, queues', p); } else { SameQueues(m, queues, queues'); }
  }

  /** A suspended thread appended to the queue of its priority and marked ready. */
  lemma InsertedOk(threads: seq<Thread>, queues: seq<seq<nat>>, m: ReadyMap, t: nat)
    requires Coherent(threads, queues, m) && t < |threads| && threads[t].stat == Suspend
    ensures var p := threads[t].currentPriority;
      && p < |queues| && (m.TwoLevel? ==> threads[t].attr.number < |m.table|)
      && Coherent(threads[t := threads[t].(stat := Ready)], queues[p := queues[p] + [t]], SetBits(m, threads[t].attr))
  {
    QueueFacts(threads, queues, m, t);
    var p := threads[t].currentPriority;
    var queues' := queues[p := queues[p] + [t]];
    var threads' := threads[t := threads[t].(stat := Ready)];
    AppendedList(queues[p], t);
    assert OnlyQueue(queues, queues', p);
    SetBitsOk(m, queues, queues', p);
    hide MapOk, NoRepeats, OnlyQueue, AttrOf;
    forall u | 0 <= u < |threads| ensures ThreadOk(threads'[u], |queues'|, m.Flat?) {
      assert ThreadOk(threads[u], |queues|, m.Flat?);
    }
    forall q | 0 <= q < |queues'| ensures QueueOk(threads', queues'[q], q) {
      assert QueueOk(threads, queues[q], q);
    }
  }

  /** The thread `t` is in no queue, though its state may not say so yet; all else agrees. */
  ghost predicate Detached(threads: seq<Thread>, queues: seq<seq<nat>>, m: ReadyMap, t: nat) {
    t < |threads| && Coherent(threads[t := threads[t].(stat := Suspend)], queues, m)
  }

  /** The thread `t` is in its queue, though its state may already say otherwise; all else agrees. */
  ghost predicate Attached(threads: seq<Thread>, queues: seq<seq<nat>>, m: ReadyMap, t: nat) {
    t < |threads| && Coherent(threads[t := threads[t].(stat := Ready)], queues, m)
  }

  lemma Placed(threads: seq<Thread>, queues: seq<seq<nat>>, m: ReadyMap, t: nat)
    requires Coherent(threads, queues, m) && t < |threads|
    ensures threads[t].stat == Suspend ==> Detached(threads, queues, m, t)
    ensures threads[t].stat == Ready ==> Attached(threads, queues, m, t)
  {
    hide Coherent;
    assert threads[t := threads[t]] == threads;
  }

  /** Attaching a detached thread: exactly what rt_schedule_insert_thread does. */
  lemma AttachOk(threads: seq<Thread>, queues: seq<seq<nat>>, m: ReadyMap, t: nat)
    requires Detached(threads, queues, m, t)
    ensures t < |threads|
    ensures var p := threads[t].currentPriority;
      && p < |queues| && (m.TwoLevel? ==> threads[t].attr.number < |m.table|)
      && Coherent(threads[t := threads[t].(stat := Ready)], queues[p := queues[p] + [t]], SetBits(m, threads[t].attr))
  {
    hide Coherent, SetBits;
    var threads1 := threads[t := threads[t].(stat := Suspend)];
    InsertedOk(threads1, queues, m, t);
    assert threads1[t := threads1[t].(stat := Ready)] == threads[t := threads[t].(stat := Ready)];
  }

  lemma DetachOk(threads: seq<Thread>, queues: seq<seq<nat>>, m: ReadyMap, t: nat)
    requires Attached(threads, queues, m, t)
    ensures t < |threads|
    ensures var p := threads[t].currentPriority;
      && p < |queues| && (m.TwoLevel? ==> threads[t].attr.number < |m.table|)
      && Detached(threads, Removed(queues, t, p), MapRemoved(m, Without(queues[p], t), threads[t].attr), t)
  {
    hide Coherent, MapRemoved, Removed, AttrOf;
    var threads1 := threads[t := threads[t].(stat := Ready)];
    ThreadIs(threads1, queues, m, t);
    RemovedOk(threads1, queues, m, t, threads1[t].(stat := Suspend));
    assert threads1[t := threads1[t].(stat := Suspend)] == threads[t := threads[t].(stat := Suspend)];
  }

  /** The fields of a detached thread may change, within the rules for a thread. */
  lemma StillDetached(threads: seq<Thread>, queues: seq<seq<nat>>, m: ReadyMap, t: nat, x: Thread)
    requires Detached(threads, queues, m, t) && ThreadOk(x.(stat := Suspend), |queues|, m.Flat?)
    ensures Detached(threads[t := x], queues, m, t)
  {
    hide Coherent, ThreadOk;
    var threads1 := threads[t := threads[t].(stat := Suspend)];
    SameReady(threads1, queues, m, t, x.(stat := Suspend));
    assert threads1[t := x.(stat := Suspend)] == threads[t := x][t := x.(stat := Suspend)];
  }

  /** A detached thread that is closed for good leaves everything coherent. */
  lemma DetachedClosed(threads: seq<Thread>, queues: seq<seq<nat>>, m: ReadyMap, t: nat)
    requires Detached(threads, queues, m, t)
    ensures Coherent(threads[t := threads[t].(stat := Close)], queues, m)
  {
    var threads1 := threads[t := threads[t].(stat := Suspend)];
    ThreadIs(threads1, queues, m, t);
    hide Coherent;
    SameReady(threads1, queues, m, t, threads[t].(stat := Close));
    assert threads1[t := threads[t].(stat := Close)] == threads[t := threads[t].(stat := Close)];
  }

  /** A thread moved to the back of its queue. */
  lemma RequeuedOk(threads: seq<Thread>, queues: seq<seq<nat>>, m: ReadyMap, t: nat)
    requires Coherent(threads, queues, m) && t < |threads| && threads[t].stat == Ready
    ensures var p := threads[t].currentPriority;
      p < |queues| && Coherent(threads, queues[p := Without(queues[p], t) + [t]], m)
  {
    QueueFacts(threads, queues, m, t);
    var p := threads[t].currentPriority;
    assert QueueOk(threads, queues[p], p);
    WithoutFacts(queues[p], t);
    AppendedList(Without(queues[p], t), t);
    var queues' := queues[p := Without(queues[p], t) + [t]];
    SameQueues(m, queues, queues');
    hide MapOk, NoRepeats, Without;
    forall q | 0 <= q < |queues'| ensures QueueOk(threads, queues'[q], q) {
      assert QueueOk(threads, queues[q], q);
    }
  }

  /** Ticks and the timeout mark do not matter to the ready structure. */
  lemma SameReady(threads: seq<Thread>, queues: seq<seq<nat>>, m: ReadyMap, t: nat, x: Thread)
    requires Coherent(threads, queues, m) && t < |threads| && ThreadOk(x, |queues|, m.Flat?)
    requires x.stat == Ready <==> threads[t].stat == Ready
    requires x.currentPriority == threads[t].currentPriority || x.stat != Ready
    ensures Coherent(threads[t := x], queues, m)
  {
    hide MapOk, NoRepeats;
    var threads' := threads[t := x];
    forall u | 0 <= u < |threads| ensures ThreadOk(threads'[u], |queues|, m.Flat?) {
      assert ThreadOk(threads[u], |queues|, m.Flat?);
    }
    forall q | 0 <= q < |queues| ensures QueueOk(threads', queues[q], q) {
      assert QueueOk(threads, queues[q], q);
    }
  }

  /** Without the thread `t` some thread is still ready. */
  ghost predicate OtherReady(threads: seq<Thread>, t: nat) {
    exists u :: 0 <= u < |threads| && u != t && threads[u].stat == Ready
  }

  lemma StillReady(threads: seq<Thread>, t: nat, x: Thread)
    requires OtherReady(threads, t) && t < |threads|
    ensures SomeReady(threads[t := x])
  {
    var u :| 0 <= u < |threads| && u != t && threads[u].stat == Ready;
    assert threads[t := x][u].stat == Ready;
  }

  /** The time slices of a ready queue. */
  ghost function TurnOf(threads: seq<Thread>, queue: seq<nat>): Turn {
    Turn(queue, seq(|threads|, i requires 0 <= i < |threads| => threads[i].remainingTick),
                seq(|threads|, i requires 0 <= i < |threads| => threads[i].initTick))
  }

  lemma Charged(threads: seq<Thread>, queues: seq<seq<nat>>, m: ReadyMap, t: nat, ticks: nat)
    requires Coherent(threads, queues, m) && SomeReady(threads) && t < |threads| && ticks < U32
    ensures var threads' := threads[t := threads[t].(remainingTick := ticks)];
      Coherent(threads', queues, m) && SomeReady(threads')
  {
    assert ThreadOk(threads[t], |queues|, m.Flat?);
    SameReady(threads, queues, m, t, threads[t].(remainingTick := ticks));
    var u :| 0 <= u < |threads| && threads[u].stat == Ready;
    assert threads[t := threads[t].(remainingTick := ticks)][u].stat == Ready;
  }

  /** The chosen thread heads its own queue. */
  lemma ChosenHead(threads: seq<Thread>, queues: seq<seq<nat>>, m: ReadyMap, t: nat)
    requires Coherent(threads, queues, m) && Chosen(queues, t)
    ensures t < |threads| && threads[t].stat == Ready
    ensures var p := threads[t].currentPriority; p < |queues| && IsTop(queues, p) && queues[p][0] == t
  {
    hide MapOk;
    var p :| IsTop(queues, p) && queues[p][0] == t;
    assert QueueOk(threads, queues[p], p) && queues[p][0] in queues[p];
  }

  lemma SameTop(queues: seq<seq<nat>>, queues': seq<seq<nat>>, p: nat, t: int)
    requires IsTop(queues, p) && |queues'| == |queues| && queues' == queues[p := queues'[p]] && queues'[p] != []
    requires Chosen(queues', t)
    ensures queues'[p][0] == t
  {
    var q :| IsTop(queues', q) && queues'[q][0] == t;
    assert q == p;
  }

  lemma TurnStart(threads: seq<Thread>, queue: seq<nat>)
    requires TurnOk(TurnOf(threads, queue))
    ensures queue != [] && queue[0] < |threads| && threads[queue[0]].remainingTick > 0
  {
  }

  lemma TurnGoesOn(threads: seq<Thread>, queue: seq<nat>, t: nat)
    requires t < |threads| && threads[t].remainingTick > 1
    ensures queue != [] && queue[0] == t ==>
      TurnOf(threads[t := threads[t].(remainingTick := threads[t].remainingTick - 1)], queue) ==
        TickTurn(TurnOf(threads, queue))
  {
  }

  lemma TurnEnds(threads: seq<Thread>, queue: seq<nat>, t: nat)
    requires t < |threads| && threads[t].remainingTick == 1
    ensures queue != [] && queue[0] == t ==>
      TurnOf(threads[t := threads[t].(remainingTick := threads[t].initTick)],
                   if |queue| > 1 then Without(queue, t) + [t] else queue) == TickTurn(TurnOf(threads, queue))
  {
    if queue != [] && queue[0] == t {
      assert Without(queue, t) + [t] == Rotate(queue, 1);
      assert |queue| == 1 ==> Rotate(queue, 1) == queue;
    }
  }

  /** The chosen thread is ready, and the queue it heads is that of its priority. */
  lemma TurnHolds(threads: seq<Thread>, queues: seq<seq<nat>>, m: ReadyMap, t: nat, p: nat)
    requires Coherent(threads, queues, m) && Chosen(queues, t) && p < |queues|
    ensures t < |threads| && SomeReady(threads)
    ensures threads[t].currentPriority < |queues| && queues[threads[t].currentPriority] != []
    ensures queues[threads[t].currentPriority][0] == t
    ensures queues[p] != [] && queues[p][0] == t ==> threads[t].currentPriority == p
  {
    hide MapOk, IsTop;
    ChosenHead(threads, queues, m, t);
    TopIs(queues, threads[t].currentPriority);
    if queues[p] != [] && queues[p][0] == t {
      assert QueueOk(threads, queues[p], p) && queues[p][0] in queues[p];
    }
  }

  lemma TopIs(queues: seq<seq<nat>>, p: int)
    requires IsTop(queues, p)
    ensures 0 <= p < |queues| && queues[p] != []
  {
  }

  lemma QueueOfTurn(threads: seq<Thread>, queue: seq<nat>)
    ensures TurnOf(threads, queue).queue == queue
  {
  }

  class Scheduler {
    var threads: seq<Thread>
    var queues: seq<seq<nat>>        // rt_thread_priority_table
    var bits: ReadyMap               // rt_thread_ready_priority_group, rt_thread_ready_table
    var current: int                 // rt_current_thread
    var currentPriority: int         // rt_current_priority
    var lockNest: nat

    ghost predicate Valid()
      reads this
    {
      && Coherent(threads, queues, bits) && NONE <= current < |threads|
    }

    /** After an unlocked scheduling step the most urgent ready thread is the current one. */
    ghost predicate Settled()
      reads this
    {
      lockNest == 0 ==> Chosen(queues, current)
    }

    /** rt_system_scheduler_init, with threads that are initialized but not started. */
    constructor (levels: nat, threads: seq<Thread>)
      requires 0 < levels <= 256
      requires forall t :: 0 <= t < |threads| ==> threads[t].stat == Init && ThreadOk(threads[t], levels, levels <= 32)
      ensures Valid() && this.threads == threads && |queues| == levels && current == NONE && lockNest == 0
    {
      hide Bit, Pow2;
      EmptyMapOk(levels);
      this.threads := threads;
      queues := seq(levels, _ => []);
      bits := if levels <= 32 then Flat(0) else TwoLevel(0, seq(32, _ => 0));
      current, currentPriority, lockNest := NONE, levels - 1, 0;
    }

    /** rt_schedule_insert_thread: whatever its state said, the thread is ready now, at the back of its queue, and
        queues and bitmap agree with the states again. */
    method InsertThread(t: nat)
      requires Detached(threads, queues, bits, t)
      modifies this`threads, this`queues, this`bits
      ensures Coherent(threads, queues, bits)
      ensures threads == old(threads)[t := old(threads)[t].(stat := Ready)]
      ensures Enqueued(old(queues), queues, old(threads)[t].currentPriority, t)
      ensures bits.Flat? == old(bits).Flat?
    {
      hide Coherent, Detached, Or;
      AttachOk(threads, queues, bits, t);
      threads := threads[t := threads[t].(stat := Ready)];
      var p := threads[t].currentPriority;
      queues := queues[p := queues[p] + [t]];
      var a := threads[t].attr;
      if bits.TwoLevel? {
        bits := TwoLevel(bits.group, bits.table[a.number := Or(bits.table[a.number], a.highMask)]);
        bits := TwoLevel(Or(bits.group, a.numberMask), bits.table);
      } else {
        bits := Flat(Or(bits.group, a.numberMask));
      }
    }

    /** rt_schedule_remove_thread: the thread is in no queue, the others are where they were, and queues and bitmap
        agree for everybody else. */
    method RemoveThread(t: nat)
      requires Attached(threads, queues, bits, t)
      modifies this`queues, this`bits
      ensures Detached(threads, queues, bits, t)
      ensures threads[t].currentPriority < |old(queues)|
        && queues == Removed(old(queues), t, threads[t].currentPriority)
      ensures bits.Flat? == old(bits).Flat?
    {
      hide Coherent, Attached, Detached, AndNot, Without;
      DetachOk(threads, queues, bits, t);
      var p := threads[t].currentPriority;
      queues := queues[p := Without(queues[p], t)];
      if queues[p] == [] {
        var a := threads[t].attr;
        if bits.TwoLevel? {
          bits := TwoLevel(bits.group, bits.table[a.number := AndNot(bits.table[a.number], a.highMask)]);
          if bits.table[a.number] == 0 {
            bits := TwoLevel(AndNot(bits.group, a.numberMask), bits.table);
          }
        } else {
          bits := Flat(AndNot(bits.group, a.numberMask));
        }
      }
    }

    /** rt_schedule.  Some thread is always ready: at least the idle thread. */
    method Schedule()
      requires Valid() && SomeReady(threads)
      modifies this`current, this`currentPriority
      ensures Valid() && Settled()
      ensures lockNest > 0 ==> current == old(current)
      ensures if current == old(current) then currentPriority == old(currentPriority)
        else IsTop(queues, currentPriority) && queues[currentPriority][0] == current
    {
      hide Coherent, IsTop, Ffs, SomeReady;
      if lockNest == 0 {
        HighestFacts(threads, queues, bits);
        var highest := Highest(bits);
        TopFacts(threads, queues, bits, highest);
        var to := queues[highest][0];
        if to != current {
          currentPriority := highest;
          current := to;
        }
      }
    }

    /** rt_thread_suspend. */
    method SuspendThread(t: nat) returns (ok: bool)
      requires Valid() && t < |threads|
      modifies this`threads, this`queues, this`bits
      ensures Valid() && (ok <==> old(threads)[t].stat == Ready)
      ensures threads == if ok then old(threads)[t := old(threads)[t].(stat := Suspend)] else old(threads)
      ensures if ok then LeftQueue(old(queues), queues, old(threads)[t].currentPriority, t) else queues == old(queues)
    {
      hide Coherent, MapOk, AttrOf;
      if threads[t].stat != Ready {
        return false;
      }
      ghost var was := threads;
      Placed(threads, queues, bits, t);
      QueueFacts(threads, queues, bits, t);
      RemovedLeaves(queues, threads[t].currentPriority, t);
      threads := threads[t := threads[t].(stat := Suspend)];
      assert threads[t := threads[t].(stat := Ready)] == was[t := was[t].(stat := Ready)];
      RemoveThread(t);
      assert threads[t := threads[t].(stat := Suspend)] == threads;
      ok := true;
    }

    /** rt_thread_resume, undisturbed; ResumeRuns has the runs in which other calls come in between. */
    method ResumeThread(t: nat) returns (ok: bool)
      requires Valid() && t < |threads|
      modifies this`threads, this`queues, this`bits
      ensures Valid() && (ok <==> old(threads)[t].stat == Suspend)
      ensures threads == if ok then old(threads)[t := old(threads)[t].(stat := Ready)] else old(threads)
      ensures ok ==> Enqueued(old(queues), queues, old(threads)[t].currentPriority, t)
    {
      hide Coherent, MapOk, AttrOf, SetBits;
      if threads[t].stat != Suspend {
        return false;
      }
      Placed(threads, queues, bits, t);
      InsertThread(t);
      ok := true;
    }

    /** rt_thread_timeout. */
    method TimeoutThread(t: nat)
      requires Valid() && t < |threads| && threads[t].stat == Suspend
      modifies this
      ensures Valid() && Settled() && lockNest == old(lockNest)
      ensures threads == old(threads)[t := old(threads)[t].(stat := Ready, timedOut := true)]
      ensures Enqueued(old(queues), queues, old(threads)[t].currentPriority, t)
    {
      hide Coherent, MapOk, AttrOf, SetBits, Chosen;
      ThreadIs(threads, queues, bits, t);
      SameReady(threads, queues, bits, t, threads[t].(timedOut := true));
      threads := threads[t := threads[t].(timedOut := true)];
      Placed(threads, queues, bits, t);
      InsertThread(t);
      assert threads[t].stat == Ready;
      Schedule();
    }

    /** rt_thread_startup. */
    method Startup(t: nat)
      requires Valid() && t < |threads| && threads[t].stat == Init
      modifies this
      ensures Valid() && lockNest == old(lockNest) && (old(current) != NONE ==> Settled())
      ensures var p := old(threads)[t].initPriority;
        && p < |old(queues)| && Enqueued(old(queues), queues, p, t)
        && threads == old(threads)[t :=
             old(threads)[t].(stat := Ready, currentPriority := p, attr := AttrOf(p, old(bits).Flat?))]
    {
      hide Coherent, MapOk, AttrOf, SetBits, Chosen;
      QueueFacts(threads, queues, bits, t);
      var x := threads[t];
      x := x.(currentPriority := x.initPriority, attr := AttrOf(x.initPriority, bits.Flat?));
      x := x.(stat := Suspend);
      ThreadIs(threads, queues, bits, t);
      SameReady(threads, queues, bits, t, x);
      threads := threads[t := x];
      QueueFacts(threads, queues, bits, t);
      var ok := ResumeThread(t);
      assert threads[t].stat == Ready;
      if current != NONE {
        Schedule();
      }
    }

    /** RT_THREAD_CTRL_CHANGE_PRIORITY: a ready thread changes queues, to the back of the new one. */
    method ChangePriority(t: nat, priority: nat)
      requires Valid() && t < |threads| && priority < |queues|
      modifies this`threads, this`queues, this`bits
      ensures Valid()
      ensures threads == old(threads)[t :=
        old(threads)[t].(currentPriority := priority, attr := AttrOf(priority, old(bits).Flat?))]
      ensures old(threads)[t].stat == Ready ==> Enqueued(
        Removed(old(queues), t, old(threads)[t].currentPriority), queues, priority, t)
      ensures old(threads)[t].stat != Ready ==> queues == old(queues)
    {
      hide Coherent, MapOk, AttrOf, SetBits, MapRemoved;
      QueueFacts(threads, queues, bits, t);
      ThreadIs(threads, queues, bits, t);
      var x := threads[t].(currentPriority := priority, attr := AttrOf(priority, bits.Flat?));
      if threads[t].stat == Ready {
        Placed(threads, queues, bits, t);
        RemoveThread(t);
        StillDetached(threads, queues, bits, t, x);
        threads := threads[t := x];
        InsertThread(t);
      } else {
        SameReady(threads, queues, bits, t, x);
        threads := threads[t := x];
      }
    }

    /** rt_thread_yield. */
    method Yield()
      requires Valid() && current != NONE && SomeReady(threads)
      modifies this
      ensures Valid() && threads == old(threads) && bits == old(bits) && lockNest == old(lockNest)
      ensures old(Settled()) ==> Settled()
      ensures lockNest > 0 ==> current == old(current)
      ensures var c: nat := old(current);
        var x := old(threads)[c];
        var p := x.currentPriority;
        && p < |old(queues)|
        && queues == if x.stat == Ready && |old(queues)[p]| > 1
             then old(queues)[p := Without(old(queues)[p], c) + [c]] else old(queues)
    {
      hide Coherent, MapOk, AttrOf, Chosen, SomeReady;
      QueueFacts(threads, queues, bits, current);
      var t: nat := current;
      var p := threads[t].currentPriority;
      // on a ring with another thread in it, next and prev of the node differ
      if threads[t].stat == Ready && |queues[p]| > 1 {
        RequeuedOk(threads, queues, bits, t);
        queues := queues[p := Without(queues[p], t)];
        queues := queues[p := queues[p] + [t]];
        assert queues == old(queues)[p := Without(old(queues)[p], t) + [t]];
        Schedule();
      }
    }

    /** rt_system_scheduler_start. */
    method StartScheduler()
      requires Valid() && SomeReady(threads)
      modifies this`current
      ensures Valid() && Chosen(queues, current)
    {
      hide Coherent, IsTop, Ffs, SomeReady;
      HighestFacts(threads, queues, bits);
      var highest := Highest(bits);
      TopFacts(threads, queues, bits, highest);
      current := queues[highest][0];
    }

    /** rt_thread_exit: the current thread leaves for good. */
    method Exit()
      requires Valid() && current != NONE && threads[current].stat == Ready && OtherReady(threads, current)
      modifies this
      ensures Valid() && Settled() && lockNest == old(lockNest)
      ensures var c: nat := old(current);
        && threads == old(threads)[c := old(threads)[c].(stat := Close)]
        && LeftQueue(old(queues), queues, old(threads)[c].currentPriority, c)
    {
      hide Coherent, MapOk, AttrOf, Chosen;
      var t: nat := current;
      Placed(threads, queues, bits, t);
      QueueFacts(threads, queues, bits, t);
      RemovedLeaves(queues, threads[t].currentPriority, t);
      StillReady(threads, t, threads[t].(stat := Close));
      RemoveThread(t);
      DetachedClosed(threads, queues, bits, t);
      threads := threads[t := threads[t].(stat := Close)];
      Schedule();
    }

    /** rt_tick_increase up to the timer check: the running thread pays one tick, and at the end of its slice it
        gets a new one and yields. */
    method TickIncrease()
      requires Valid() && current != NONE && SomeReady(threads)
      modifies this
      ensures Valid() && lockNest == old(lockNest) && |threads| == |old(threads)|
      ensures old(Settled()) ==> Settled()
      ensures lockNest > 0 ==> current == old(current)
      ensures var c: nat := old(current);
        var x := old(threads)[c];
        && threads == old(threads)[c := x.(remainingTick :=
             if x.remainingTick == 1 then x.initTick else if x.remainingTick == 0 then 0xffff_ffff
             else x.remainingTick - 1)]
        && x.currentPriority < |old(queues)|
        && queues == if x.remainingTick == 1 && x.stat == Ready && |old(queues)[x.currentPriority]| > 1
             then old(queues)[x.currentPriority := Without(old(queues)[x.currentPriority], c) + [c]] else old(queues)
      ensures var c: nat := old(current);
        var p := old(threads)[c].currentPriority;
        && p < |old(queues)| == |queues|
        && (old(lockNest) == 0 && old(Chosen(queues, current)) && TurnOk(TurnOf(old(threads), old(queues)[p])) ==>
            && TurnOf(threads, queues[p]) == TickTurn(TurnOf(old(threads), old(queues)[p]))
            && current == queues[p][0]
            && forall q :: 0 <= q < |queues| && q != p ==> queues[q] == old(queues)[q])
    {
      hide Coherent, MapOk, AttrOf, Chosen, SomeReady, TurnOk, IsTop;
      var t: nat := current;
      ghost var p := threads[t].currentPriority;
      QueueFacts(threads, queues, bits, t);
      ghost var turning := lockNest == 0 && Chosen(queues, t) && TurnOk(TurnOf(threads, queues[p]));
      if turning {
        ChosenHead(threads, queues, bits, t);
        TurnStart(threads, queues[p]);
      }
      ThreadIs(threads, queues, bits, t);
      var left := (threads[t].remainingTick + U32 - 1) % U32;
      if left == 0 {
        Charged(threads, queues, bits, t, threads[t].initTick);
        TurnEnds(threads, queues[p], t);
        threads := threads[t := threads[t].(remainingTick := threads[t].initTick)];
        Yield();
        if turning { SameTop(old(queues), queues, p, current); }
      } else {
        Charged(threads, queues, bits, t, left);
        if turning { TurnGoesOn(threads, queues[p], t); }
        threads := threads[t := threads[t].(remainingTick := left)];
      }
    }

    /** `n` ticks with nothing else in between: the running queue takes its turns, and thread `j` of it is the
        current one exactly during its own ticks. */
    method RunTicks(n: nat)
      requires Valid() && NONE < current && lockNest == 0 && Chosen(queues, current)
      requires var p := threads[current].currentPriority; p < |queues| && TurnOk(TurnOf(threads, queues[p]))
      modifies this
      ensures Valid() && lockNest == 0 && Chosen(queues, current)
      ensures var c: nat := old(current);
        var p := old(threads)[c].currentPriority;
        && p < |old(queues)| == |queues|
        && var s := TurnOf(old(threads), old(queues)[p]);
        && TurnOf(threads, queues[p]) == Ticks(s, n)
        && (forall q :: 0 <= q < |queues| && q != p ==> queues[q] == old(queues)[q])
        && (forall j: nat :: j < |old(queues)[p]| && Sum(s, j) <= n < Sum(s, j + 1) ==> current == old(queues)[p][j])
    {
      hide Coherent, TurnOk, IsTop, SomeReady, Chosen, TurnOf, TickTurn;
      ghost var c: nat := current;
      ghost var p := threads[c].currentPriority;
      ghost var s := TurnOf(threads, queues[p]);
      TurnHolds(threads, queues, bits, c, p);
      NoTicks(s);
      var k := 0;
      while k < n
        invariant k <= n && Valid() && lockNest == 0 && NONE < current && Chosen(queues, current)
        invariant p < |old(queues)| == |queues| && TurnOf(threads, queues[p]) == Ticks(s, k)
        invariant queues[p] != [] && current == queues[p][0]
        invariant forall q :: 0 <= q < |queues| && q != p ==> queues[q] == old(queues)[q]
      {
        TurnHolds(threads, queues, bits, current, p);
        TickIncrease();
        ChosenIsMostUrgent(threads, queues, bits, current);
        NextTick(s, k);
        NextTick(s, k + 1);
        QueueOfTurn(threads, queues[p]);
        k := k + 1;
      }
      QueueOfTurn(old(threads), old(queues)[p]);
      QueueOfTurn(threads, queues[p]);
      HeadByWindow(s, n);
    }

    method EnterCritical()
      requires Valid()
      modifies this`lockNest
      ensures Valid() && lockNest == old(lockNest) + 1
    {
      lockNest := lockNest + 1;
    }

    /** rt_exit_critical: the outermost exit schedules. */
    method ExitCritical()
      requires Valid() && SomeReady(threads)
      modifies this`lockNest, this`current, this`currentPriority
      ensures Valid() && (old(lockNest) <= 1 ==> Settled())
      ensures lockNest == if old(lockNest) == 0 then 0 else old(lockNest) - 1
    {
      hide Coherent, MapOk, AttrOf, Chosen, SomeReady;
      if lockNest <= 1 {
        lockNest := 0;
        Schedule();
      } else {
        lockNest := lockNest - 1;
      }
    }
  }

  lemma TopFacts(threads: seq<Thread>, queues: seq<seq<nat>>, m: ReadyMap, p: int)
    requires Coherent(threads, queues, m) && IsTop(queues, p)
    ensures 0 <= p < |queues| && queues[p] != [] && queues[p][0] < |threads| && Chosen(queues, queues[p][0])
  {
    hide MapOk;
    assert QueueOk(threads, queues[p], p) && queues[p][0] in queues[p];
  }

  lemma ThreadIs(threads: seq<Thread>, queues: seq<seq<nat>>, m: ReadyMap, t: nat)
    requires Coherent(threads, queues, m) && t < |threads|
    ensures ThreadOk(threads[t], |queues|, m.Flat?)
  {
  }

  /** `t` went out of queue `p`, in which those before and behind it keep their order; nothing else changed. */
  ghost predicate LeftQueue(queues: seq<seq<nat>>, queues': seq<seq<nat>>, p: nat, t: nat) {
    && p < |queues| && |queues'| == |queues| && (forall q :: 0 <= q < |queues| && q != p ==> queues'[q] == queues[q])
    && exists k :: 0 <= k < |queues[p]| && queues[p][k] == t && queues'[p] == queues[p][..k] + queues[p][k + 1..]
  }

  lemma RemovedLeaves(queues: seq<seq<nat>>, p: nat, t: nat)
    requires p < |queues| && t in queues[p]
    ensures LeftQueue(queues, Removed(queues, t, p), p, t)
  {
    var k := FirstAt(queues[p], t);
    WithoutAt(queues[p], k, t);
  }

  /** `t` was put at the back of queue `p`; nothing else changed. */
  ghost predicate Enqueued(queues: seq<seq<nat>>, queues': seq<seq<nat>>, p: nat, t: nat) {
    p < |queues| && queues' == queues[p := queues[p] + [t]]
  }
}
