/** Counting semaphores (ipc.c). */
module Semaphores {
  import opened Sequences
  import opened WaitLists

  const U16: nat := 0x1_0000

  /** The value and the waiting threads, in the order they are served. */
  datatype Sem = Sem(value: nat, waiters: seq<nat>)

  datatype Outcome = Taken | TimedOut | Waits

  function TakeSem(s: Sem, flag: Flag, t: nat, wait: bool, prio: seq<int>): (Sem, Outcome) {
    if s.value > 0 then (s.(value := s.value - 1), Taken)
    else if !wait then (s, TimedOut)
    else (s.(waiters := Enqueue(flag, s.waiters, t, prio)), Waits)
  }

  /** A release goes to the first waiting thread, if there is one; otherwise the 16-bit value counts it. */
  function ReleaseSem(s: Sem): Sem {
    if s.waiters != [] then s.(waiters := s.waiters[1..]) else s.(value := (s.value + 1) % U16)
  }

  function TimeoutSem(s: Sem, t: nat): Sem {
    s.(waiters := Without(s.waiters, t))
  }

  /** Nobody waits while the semaphore is available. */
  ghost predicate SemOk(s: Sem) {
    s.value < U16 && NoRepeats(s.waiters) && (s.waiters != [] ==> s.value == 0)
  }

  class Semaphore {
    const flag: Flag
    var value: nat
    var waiters: seq<nat>

    function State(): Sem
      reads this
    {
      Sem(value, waiters)
    }

    constructor (flag: Flag, value: nat)
      requires value < U16
      ensures this.flag == flag && State() == Sem(value, []) && SemOk(State())
    {
      this.flag, this.value, waiters := flag, value, [];
    }

    /** The critical section of rt_sem_take; a thread that waits returns when it is served or times out. */
    method Take(t: nat, wait: bool, prio: seq<int>) returns (r: Outcome)
      requires SemOk(State()) && t !in waiters
      modifies this
      ensures SemOk(State()) && (State(), r) == TakeSem(old(State()), flag, t, wait, prio)
      ensures (r == Taken <==> old(value) > 0) && (r == Waits <==> old(value) == 0 && wait)
      ensures r == Waits ==> t in waiters
    {
      EnqueueMembers(flag, waiters, t, prio);
      if value > 0 {
        value := value - 1;
        r := Taken;
      } else if !wait {
        r := TimedOut;
      } else {
        waiters := SuspendOn(flag, waiters, t, prio);
        r := Waits;
      }
    }

    /** rt_sem_release; `served` is the thread resumed, if any. */
    method Release() returns (served: int)
      requires SemOk(State())
      modifies this
      ensures SemOk(State()) && State() == ReleaseSem(old(State()))
      ensures served == if old(waiters) == [] then -1 else old(waiters)[0]
    {
      if waiters != [] {
        HeadGone(waiters);
        served := waiters[0];
        waiters := waiters[1..];
      } else {
        value := (value + 1) % U16;
        served := -1;
      }
    }

    /** rt_thread_timeout for a waiting thread. */
    method Timeout(t: nat)
      requires SemOk(State()) && t in waiters
      modifies this
      ensures SemOk(State()) && State() == TimeoutSem(old(State()), t) && t !in waiters
    {
      WithoutFacts(waiters, t);
      waiters := Without(waiters, t);
    }

    /** RT_IPC_CMD_RESET: everybody is sent away with an error. */
    method Reset(v: nat) returns (sent: seq<nat>)
      requires SemOk(State())
      modifies this
      ensures SemOk(State()) && State() == Sem(v % U16, []) && sent == old(waiters)
    {
      sent := [];
      while waiters != []
        invariant sent + waiters == old(waiters)
        decreases |waiters|
      {
        sent := sent + [waiters[0]];
        waiters := waiters[1..];
      }
      value := v % U16;
    }
  }

  // ---------------------------------------------------------- whole runs

  datatype Op = TakeOp(t: nat, wait: bool) | ReleaseOp | TimeoutOp(t: nat)

  function StepSem(s: Sem, flag: Flag, prio: seq<int>, op: Op): Sem {
    match op
    case TakeOp(t, wait) => TakeSem(s, flag, t, wait, prio).0
    case ReleaseOp => ReleaseSem(s)
    case TimeoutOp(t) => TimeoutSem(s, t)
  }

  /** A thread that waits cannot call, and only a thread that waits times out. */
  ghost predicate Enabled(s: Sem, op: Op) {
    match op
    case TakeOp(t, _) => t !in s.waiters
    case ReleaseOp => true
    case TimeoutOp(t) => t in s.waiters
  }

  /** The successful takes that a step completes: at once, or by handing a release to a waiting thread. */
  function TakesIn(s: Sem, op: Op): nat {
    match op
    case TakeOp(_, _) => if s.value > 0 then 1 else 0
    case ReleaseOp => if s.waiters != [] then 1 else 0
    case TimeoutOp(_) => 0
  }

  function ReleasesIn(op: Op): nat {
    if op.ReleaseOp? then 1 else 0
  }

  /** A release that finds the value at its maximum and nobody waiting turns the count over. */
  function OverflowsIn(s: Sem, op: Op): nat {
    if op.ReleaseOp? && s.waiters == [] && s.value == U16 - 1 then 1 else 0
  }

  lemma StepSemOk(s: Sem, flag: Flag, prio: seq<int>, op: Op)
    requires SemOk(s) && Enabled(s, op)
    ensures SemOk(StepSem(s, flag, prio, op))
    ensures s.value + ReleasesIn(op) == StepSem(s, flag, prio, op).value + TakesIn(s, op) + U16 * OverflowsIn(s, op)
  {
    match op
    case TakeOp(t, wait) => EnqueueMembers(flag, s.waiters, t, prio);
    case ReleaseOp => if s.waiters != [] { HeadGone(s.waiters); }
    case TimeoutOp(t) => WithoutFacts(s.waiters, t);
  }

  /** A run: what happened, under the priorities at the time, and the totals. */
  datatype Totals = Totals(releases: nat, takes: nat, overflows: nat)

  datatype Event = Event(op: Op, prio: seq<int>)

  ghost predicate RunOk(s: Sem, flag: Flag, run: seq<Event>)
    decreases |run|
  {
    run == [] || (Enabled(s, run[0].op) && RunOk(StepSem(s, flag, run[0].prio, run[0].op), flag, run[1..]))
  }

  ghost function Final(s: Sem, flag: Flag, run: seq<Event>): Sem
    decreases |run|
  {
    if run == [] then s else Final(StepSem(s, flag, run[0].prio, run[0].op), flag, run[1..])
  }

  ghost function Count(s: Sem, flag: Flag, run: seq<Event>): Totals
    decreases |run|
  {
    if run == [] then Totals(0, 0, 0) else
      var c := Count(StepSem(s, flag, run[0].prio, run[0].op), flag, run[1..]);
      var op := run[0].op;
      Totals(c.releases + ReleasesIn(op), c.takes + TakesIn(s, op), c.overflows + OverflowsIn(s, op))
  }

  /** Conservation over any run without reset: what was there and what was released is what is left and what was
      taken, up to whole turns of the 16-bit value; and nobody ever waits while the value is positive. */
  lemma {:induction false} Conservation(s: Sem, flag: Flag, run: seq<Event>)
    requires SemOk(s) && RunOk(s, flag, run)
    ensures SemOk(Final(s, flag, run))
    ensures var c := Count(s, flag, run);
      s.value + c.releases == Final(s, flag, run).value + c.takes + U16 * c.overflows
    decreases |run|
  {
    if run != [] {
      StepSemOk(s, flag, run[0].prio, run[0].op);
      Conservation(StepSem(s, flag, run[0].prio, run[0].op), flag, run[1..]);
    }
  }

  /** The plain equation holds exactly for the runs in which no release found the value full. */
  lemma ConservationIsExact(s: Sem, flag: Flag, run: seq<Event>)
    requires SemOk(s) && RunOk(s, flag, run)
    ensures var c := Count(s, flag, run);
      s.value + c.releases == Final(s, flag, run).value + c.takes <==> c.overflows == 0
  {
    Conservation(s, flag, run);
  }

  /** What a take answers after any run: it succeeds exactly when there was more, at first and by releases, than was
      taken; otherwise the thread waits, if it may, and then it is in the list. */
  lemma TakeAnswers(s: Sem, flag: Flag, run: seq<Event>, t: nat, wait: bool, prio: seq<int>)
    requires SemOk(s) && RunOk(s, flag, run)
    ensures var c, (r, answer) := Count(s, flag, run), TakeSem(Final(s, flag, run), flag, t, wait, prio);
      && (answer == Taken <==> s.value + c.releases > c.takes + 0x1_0000 * c.overflows)
      && (answer == Waits <==> s.value + c.releases == c.takes + 0x1_0000 * c.overflows && wait)
      && (answer == Waits ==> t in r.waiters)
  {
    Conservation(s, flag, run);
    EnqueueMembers(flag, Final(s, flag, run).waiters, t, prio);
    hide Enqueue, RunOk, Count, Final, NoRepeats;
  }

  /** The order of service is kept by every step for as long as both threads wait; a release serves a thread
      before which nobody waits. */
  lemma ServedInOrder(s: Sem, flag: Flag, prio: seq<int>, op: Op, a: nat, b: nat)
    requires SemOk(s) && Enabled(s, op) && Before(s.waiters, a, b)
    ensures a in StepSem(s, flag, prio, op).waiters && b in StepSem(s, flag, prio, op).waiters ==>
      Before(StepSem(s, flag, prio, op).waiters, a, b)
    ensures op.ReleaseOp? ==> s.waiters[0] != b
  {
    match op
    case TakeOp(t, wait) => EnqueueKeepsOrder(flag, s.waiters, t, prio, a, b);
    case ReleaseOp =>
      var i, j :| 0 <= i < j < |s.waiters| && s.waiters[i] == a && s.waiters[j] == b;
      HeadGone(s.waiters);
      if i > 0 { assert s.waiters[1..][i - 1] == a && s.waiters[1..][j - 1] == b; }
    case TimeoutOp(t) =>
      WithoutFacts(s.waiters, t);
      if t != a && t != b { WithoutKeepsOrder(s.waiters, t, a, b); }
  }

  // ------------------------------------------------- the order of service

  /** The waiting threads in the order of their arrival; who is served or times out drops out. */
  ghost function Arrive(s: Sem, op: Op, arrived: seq<nat>): seq<nat> {
    match op
    case TakeOp(t, wait) => if s.value == 0 && wait then arrived + [t] else arrived
    case ReleaseOp => if s.waiters != [] then Without(arrived, s.waiters[0]) else arrived
    case TimeoutOp(t) => Without(arrived, t)
  }

  ghost function Arrivals(s: Sem, flag: Flag, run: seq<Event>, arrived: seq<nat>): seq<nat>
    decreases |run|
  {
    if run == [] then arrived else
      Arrivals(StepSem(s, flag, run[0].prio, run[0].op), flag, run[1..], Arrive(s, run[0].op, arrived))
  }

  lemma StepRanked(s: Sem, flag: Flag, prio: seq<int>, op: Op, arrived: seq<nat>)
    requires SemOk(s) && Enabled(s, op) && Ranked(s.waiters, flag, arrived, prio)
    ensures Ranked(StepSem(s, flag, prio, op).waiters, flag, Arrive(s, op, arrived), prio)
  {
    match op
    case TakeOp(t, wait) =>
      if s.value == 0 && wait { RankedArrival(s.waiters, flag, arrived, prio, t); }
    case ReleaseOp =>
      if s.waiters != [] { RankedLeave(s.waiters, flag, arrived, prio, s.waiters[0]); }
    case TimeoutOp(t) =>
      RankedLeave(s.waiters, flag, arrived, prio, t);
  }

  /** The priorities stay what they are; on a FIFO semaphore they do not matter. */
  ghost predicate SteadyPrio(flag: Flag, run: seq<Event>, prio: seq<int>) {
    flag == Prio ==> forall i :: 0 <= i < |run| ==> run[i].prio == prio
  }

  lemma {:induction false} RunRanked(s: Sem, flag: Flag, run: seq<Event>, arrived: seq<nat>, prio: seq<int>)
    requires SemOk(s) && RunOk(s, flag, run) && Ranked(s.waiters, flag, arrived, prio) && SteadyPrio(flag, run, prio)
    ensures Ranked(Final(s, flag, run).waiters, flag, Arrivals(s, flag, run, arrived), prio)
    decreases |run|
  {
    if run != [] {
      var x := run[0];
      StepSemOk(s, flag, x.prio, x.op);
      StepRanked(s, flag, prio, x.op, arrived);
      FifoIgnoresPrio(s, x.op, x.prio, prio);
      SteadyTail(flag, run, prio);
      hide Ranked, SemOk, SteadyPrio, StepSem, Arrive;
      RunRanked(StepSem(s, flag, x.prio, x.op), flag, run[1..], Arrive(s, x.op, arrived), prio);
    }
  }

  lemma SteadyTail(flag: Flag, run: seq<Event>, prio: seq<int>)
    requires SteadyPrio(flag, run, prio) && run != []
    ensures SteadyPrio(flag, run[1..], prio) && (flag == Prio ==> run[0].prio == prio)
  {
  }

  lemma FifoIgnoresPrio(s: Sem, op: Op, p: seq<int>, q: seq<int>)
    ensures StepSem(s, Fifo, p, op) == StepSem(s, Fifo, q, op)
  {
  }

  /** Over any run from a fresh semaphore the wait list is ordered by claim, so a release serves the one thread that
      nobody waiting has a better claim than: the first to arrive, or the most urgent, equals in order of arrival. */
  lemma ServedByClaim(value: nat, flag: Flag, run: seq<Event>, prio: seq<int>, b: nat)
    requires value < U16 && RunOk(Sem(value, []), flag, run) && SteadyPrio(flag, run, prio)
    ensures var s, arrived := Final(Sem(value, []), flag, run), Arrivals(Sem(value, []), flag, run, []);
      && (forall t :: t in s.waiters <==> t in arrived)
      && (flag == Prio ==> Sorted(s.waiters, prio))
      && (b in s.waiters && b != s.waiters[0] ==>
          Ahead(flag, arrived, prio, s.waiters[0], b) && !Ahead(flag, arrived, prio, b, s.waiters[0]))
  {
    RunRanked(Sem(value, []), flag, run, [], prio);
    var s, arrived := Final(Sem(value, []), flag, run), Arrivals(Sem(value, []), flag, run, []);
    if b in s.waiters && b != s.waiters[0] {
      HeadHasBestClaim(s.waiters, flag, arrived, prio, b);
    }
  }
}
