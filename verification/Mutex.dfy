/** Mutexes with priority inheritance and direct hand-off (ipc.c), for one mutex and any number of threads. */
module Mutexes {
  import opened Sequences
  import opened WaitLists

  const NONE: int := -1
  const NO_PRIORITY: nat := 0xff

  datatype Outcome = Taken | TimedOut | Waits

  /** The mutex, and the current priorities of all threads.  `hold` is an 8-bit count. */
  datatype State = State(value: int, owner: int, hold: nat, original: int, waiters: seq<nat>, prio: seq<int>)

  function SetOwner(s: State, t: nat): State {
    s.(owner := t, original := At(s.prio, t), hold := (s.hold + 1) % 256)
  }

  /** rt_thread_control(CHANGE_PRIORITY) on a thread. */
  function SetPrio(s: State, t: int, p: int): State {
    if 0 <= t < |s.prio| then s.(prio := s.prio[t := p]) else s
  }

  /** The owner of the mutex inherits the urgency of `t`, who is about to wait. */
  function Inherited(s: State, t: nat): State {
    if s.owner >= 0 && At(s.prio, t) < At(s.prio, s.owner) then SetPrio(s, s.owner, At(s.prio, t)) else s
  }

  function TakeMutex(s: State, flag: Flag, t: nat, wait: bool): (State, Outcome) {
    if s.owner == t then (s.(hold := (s.hold + 1) % 256), Taken)
    else if s.value > 0 then (SetOwner(s.(value := s.value - 1), t), Taken)
    else if !wait then (s, TimedOut)
    else
      var s1 := Inherited(s, t);
      (s1.(waiters := Enqueue(flag, s1.waiters, t, s1.prio)), Waits)
  }

  /** The owner's release: the last one restores its priority and hands the mutex to the first waiter, if any. */
  function ReleaseMutex(s: State, t: nat): State {
    if s.owner != t then s
    else
      var s1 := s.(hold := (s.hold + 255) % 256);
      if s1.hold != 0 then s1
      else
        var s2 := SetPrio(s1, t, s1.original);
        if s2.waiters != [] then SetOwner(s2.(waiters := s2.waiters[1..]), s2.waiters[0])
        else s2.(value := s2.value + 1, owner := NONE, original := NO_PRIORITY)
  }

  function TimeoutMutex(s: State, t: nat): State {
    s.(waiters := Without(s.waiters, t))
  }

  // ----------------------------------------------------------- invariant

  /** What holds for either flag; `init` are the priorities the threads have by themselves. */
  ghost predicate Consistent(s: State, init: seq<int>) {
    && |s.prio| == |init| && NONE <= s.owner < |init| && 0 <= s.value <= 1 && s.hold < 256
    && (s.owner != NONE <==> s.hold > 0) && (s.owner != NONE <==> s.value == 0)
    && NoRepeats(s.waiters) && (forall w :: w in s.waiters ==> w < |init| && w != s.owner)
    && (s.owner == NONE ==> s.waiters == [])
    && (forall u :: 0 <= u < |init| && u != s.owner ==> s.prio[u] == init[u])
    && (s.owner != NONE ==> s.original == init[s.owner] && s.prio[s.owner] <= init[s.owner])
  }

  /** The owner is at least as urgent as everybody who waits for it. */
  ghost predicate Inherits(s: State) {
    s.owner >= 0 ==> forall w :: w in s.waiters ==> At(s.prio, s.owner) <= At(s.prio, w)
  }

  ghost predicate MutexOk(s: State, init: seq<int>) {
    Consistent(s, init) && Inherits(s) && Sorted(s.waiters, s.prio)
  }

  lemma WaiterPrio(s: State, init: seq<int>, u: nat, p: int)
    requires Consistent(s, init) && u !in s.waiters
    ensures forall w :: w in s.waiters ==> At(SetPrio(s, u, p).prio, w) == At(s.prio, w)
  {
  }

  lemma SortedUnder(s: seq<nat>, key: seq<int>, key': seq<int>)
    requires Sorted(s, key) && forall y :: y in s ==> At(key, y) == At(key', y)
    ensures Sorted(s, key')
  {
  }

  lemma InheritedOk(s: State, init: seq<int>, t: nat)
    requires Consistent(s, init) && t < |init| && t != s.owner
    ensures Consistent(Inherited(s, t), init) && Inherited(s, t).waiters == s.waiters
      && Inherited(s, t).owner == s.owner
    ensures forall w: nat :: w != s.owner ==> At(Inherited(s, t).prio, w) == At(s.prio, w)
    ensures s.owner >= 0 ==> At(Inherited(s, t).prio, s.owner) <= At(s.prio, t)
    ensures s.owner >= 0 ==> At(Inherited(s, t).prio, s.owner) <= At(s.prio, s.owner)
  {
    hide NoRepeats;
  }

  lemma WaitConsistent(s: State, init: seq<int>, flag: Flag, t: nat)
    requires Consistent(s, init) && t < |init| && t !in s.waiters && t != s.owner && s.owner != NONE
    ensures Consistent(s.(waiters := Enqueue(flag, s.waiters, t, s.prio)), init)
  {
    EnqueueMembers(flag, s.waiters, t, s.prio);
    hide NoRepeats, Enqueue;
  }

  /** Taking keeps the state consistent, whatever the flag, but for a recursive take of an owner that holds it 255
      times. */
  lemma TakeConsistent(s: State, init: seq<int>, flag: Flag, t: nat, wait: bool)
    requires Consistent(s, init) && t < |init| && t !in s.waiters && (s.owner == t ==> s.hold < 255)
    ensures Consistent(TakeMutex(s, flag, t, wait).0, init)
    ensures TakeMutex(s, flag, t, wait).1 == Taken <==> TakeMutex(s, flag, t, wait).0.owner == t
  {
    hide NoRepeats, Enqueue;
    if s.owner != t && s.value == 0 && wait {
      InheritedOk(s, init, t);
      WaitConsistent(Inherited(s, t), init, flag, t);
    }
  }

  lemma TakeOk(s: State, init: seq<int>, t: nat, wait: bool)
    requires MutexOk(s, init) && t < |init| && t !in s.waiters && (s.owner == t ==> s.hold < 255)
    ensures MutexOk(TakeMutex(s, Prio, t, wait).0, init)
  {
    hide NoRepeats, Insert;
    TakeConsistent(s, init, Prio, t, wait);
    if s.owner != t && s.value == 0 && wait {
      InheritedOk(s, init, t);
      WaitInherits(s, init, t);
    }
  }

  lemma WaitInherits(s: State, init: seq<int>, t: nat)
    requires MutexOk(s, init) && t < |init| && t !in s.waiters && t != s.owner && s.owner != NONE
    ensures var s1 := Inherited(s, t);
      var s2 := s1.(waiters := Enqueue(Prio, s1.waiters, t, s1.prio));
      Inherits(s2) && Sorted(s2.waiters, s2.prio)
  {
    InheritedOk(s, init, t);
    var s1 := Inherited(s, t);
    SortedUnder(s.waiters, s.prio, s1.prio);
    hide NoRepeats, Inherited, Sorted;
    EnqueueMembers(Prio, s.waiters, t, s1.prio);
    InsertSorted(s.waiters, t, s1.prio);
    hide Insert;
  }

  /** Exactly the 255th recursive take breaks the count: the 8-bit hold becomes 0 while the mutex is owned. */
  lemma HoldLimit(s: State, init: seq<int>, t: nat, wait: bool)
    requires MutexOk(s, init) && t < |init| && s.owner == t
    ensures MutexOk(TakeMutex(s, Prio, t, wait).0, init) <==> s.hold < 255
  {
  }

  /** Releasing keeps the state consistent, whatever the flag. */
  lemma ReleaseConsistent(s: State, init: seq<int>, t: nat)
    requires Consistent(s, init) && t < |init| && t !in s.waiters
    ensures Consistent(ReleaseMutex(s, t), init)
    ensures s.owner == t && s.hold == 1 && s.waiters != [] ==>
      ReleaseMutex(s, t).owner == s.waiters[0] && ReleaseMutex(s, t).value == 0
  {
    if s.owner == t && s.hold == 1 && s.waiters != [] {
      HeadGone(s.waiters);
      assert s.waiters[0] in s.waiters;
    }
    hide NoRepeats;
  }

  lemma ReleaseOk(s: State, init: seq<int>, t: nat)
    requires MutexOk(s, init) && t < |init| && t !in s.waiters
    ensures MutexOk(ReleaseMutex(s, t), init)
  {
    ReleaseConsistent(s, init, t);
    if s.owner == t && s.hold == 1 { RestoreOk(s, init, t); }
    hide Consistent, Sorted;
  }

  lemma RestoreOk(s: State, init: seq<int>, t: nat)
    requires MutexOk(s, init) && s.owner == t && s.hold == 1
    ensures Inherits(ReleaseMutex(s, t)) && Sorted(ReleaseMutex(s, t).waiters, ReleaseMutex(s, t).prio)
  {
    var s2 := SetPrio(s.(hold := 0), t, s.original);
    WaiterPrio(s, init, t, s.original);
    SortedUnder(s.waiters, s.prio, s2.prio);
    if s.waiters != [] {
      HeadGone(s.waiters);
      assert s.waiters[0] in s.waiters;
      HeadLeast(s.waiters, s2.prio);
    }
    hide NoRepeats;
  }

  lemma HeadLeast(s: seq<nat>, key: seq<int>)
    requires Sorted(s, key) && s != []
    ensures Sorted(s[1..], key) && forall x :: x in s ==> At(key, s[0]) <= At(key, x)
  {
    forall x | x in s ensures At(key, s[0]) <= At(key, x) {
      var i :| 0 <= i < |s| && s[i] == x;
      assert i == 0 || At(key, s[0]) <= At(key, s[i]);
    }
  }

  lemma TimeoutConsistent(s: State, init: seq<int>, t: nat)
    requires Consistent(s, init) && t in s.waiters
    ensures Consistent(TimeoutMutex(s, t), init)
  {
    WithoutFacts(s.waiters, t);
    hide NoRepeats, Without;
  }

  lemma TimeoutOk(s: State, init: seq<int>, t: nat)
    requires MutexOk(s, init) && t in s.waiters
    ensures MutexOk(TimeoutMutex(s, t), init)
  {
    WithoutFacts(s.waiters, t);
    WithoutSorted(s.waiters, t, s.prio);
    hide Sorted, NoRepeats, Without;
  }

  /** On a FIFO mutex a hand-off keeps the inheritance exactly when the first waiter happens to be a most urgent one. */
  lemma FifoHandOff(s: State, init: seq<int>, t: nat)
    requires Consistent(s, init) && s.owner == t && s.hold == 1 && s.waiters != []
    ensures Inherits(ReleaseMutex(s, t)) <==> forall w :: w in s.waiters ==> At(init, s.waiters[0]) <= At(init, w)
  {
    var r := ReleaseMutex(s, t);
    HeadGone(s.waiters);
    assert s.waiters[0] in s.waiters;
    assert r.owner == s.waiters[0] && r.waiters == s.waiters[1..];
    forall w | w in s.waiters ensures At(r.prio, w) == At(init, w) {
    }
  }

  // ---------------------------------------------------------- whole runs

  datatype Op = Take(t: nat, wait: bool) | Release(t: nat) | Timeout(t: nat)

  function Step(s: State, flag: Flag, op: Op): State {
    match op
    case Take(t, wait) => TakeMutex(s, flag, t, wait).0
    case Release(t) => ReleaseMutex(s, t)
    case Timeout(t) => TimeoutMutex(s, t)
  }

  /** A thread that waits cannot run; nobody takes the mutex more than 255 times over. */
  ghost predicate Enabled(s: State, op: Op) {
    match op
    case Take(t, _) => t < |s.prio| && t !in s.waiters && (s.owner == t ==> s.hold < 255)
    case Release(t) => t < |s.prio| && t !in s.waiters
    case Timeout(t) => t in s.waiters
  }

  lemma StepOk(s: State, init: seq<int>, flag: Flag, op: Op)
    requires Consistent(s, init) && Enabled(s, op)
    ensures Consistent(Step(s, flag, op), init)
    ensures flag == Prio && MutexOk(s, init) ==> MutexOk(Step(s, flag, op), init)
  {
    hide Sorted, Inherits, NoRepeats, TakeMutex, ReleaseMutex, TimeoutMutex;
    match op
    case Take(t, wait) =>
      TakeConsistent(s, init, flag, t, wait);
      if flag == Prio && MutexOk(s, init) { TakeOk(s, init, t, wait); }
    case Release(t) =>
      ReleaseConsistent(s, init, t);
      if MutexOk(s, init) { ReleaseOk(s, init, t); }
    case Timeout(t) =>
      TimeoutConsistent(s, init, t);
      if MutexOk(s, init) { TimeoutOk(s, init, t); }
  }

  function Initial(init: seq<int>): State {
    State(1, NONE, 0, NO_PRIORITY, [], init)
  }

  ghost predicate Reaches(s: State, flag: Flag, ops: seq<Op>, r: State)
    decreases |ops|
  {
    if ops == [] then r == s else Enabled(s, ops[0]) && Reaches(Step(s, flag, ops[0]), flag, ops[1..], r)
  }

  lemma {:induction false} RunsOk(s: State, init: seq<int>, flag: Flag, ops: seq<Op>, r: State)
    requires Consistent(s, init) && Reaches(s, flag, ops, r)
    ensures Consistent(r, init)
    ensures flag == Prio && MutexOk(s, init) ==> MutexOk(r, init)
    decreases |ops|
  {
    hide Consistent, MutexOk, Step, Enabled;
    if ops != [] {
      StepOk(s, init, flag, ops[0]);
      RunsOk(Step(s, flag, ops[0]), init, flag, ops[1..], r);
    }
  }

  /** Every reachable state of a mutex: owner, hold and value agree, and everybody but the owner runs at its own
      priority.  With the PRIO flag the wait list is sorted and the owner is at least as urgent as every waiter. */
  lemma ReachableOk(init: seq<int>, flag: Flag, ops: seq<Op>, r: State)
    requires Reaches(Initial(init), flag, ops, r)
    ensures Consistent(r, init) && (flag == Prio ==> MutexOk(r, init))
  {
    RunsOk(Initial(init), init, flag, ops, r);
  }

  // ------------------------------------------------- the order of service

  /** The waiting threads in the order of their arrival; who is handed the mutex or times out drops out. */
  ghost function Arrive(s: State, op: Op, arrived: seq<nat>): seq<nat> {
    match op
    case Take(t, wait) => if s.owner != t && s.value <= 0 && wait then arrived + [t] else arrived
    case Release(t) =>
      if s.owner == t && s.hold == 1 && s.waiters != [] then Without(arrived, s.waiters[0]) else arrived
    case Timeout(t) => Without(arrived, t)
  }

  ghost function Arrivals(s: State, flag: Flag, ops: seq<Op>, arrived: seq<nat>): seq<nat>
    decreases |ops|
  {
    if ops == [] then arrived else Arrivals(Step(s, flag, ops[0]), flag, ops[1..], Arrive(s, ops[0], arrived))
  }

  /** Whatever the owner has inherited, a newcomer is placed by the priorities the threads have by themselves. */
  lemma PlacedByOwnPriority(s: State, init: seq<int>, flag: Flag, t: nat)
    requires Consistent(s, init) && t < |init| && t != s.owner
    ensures Enqueue(flag, s.waiters, t, Inherited(s, t).prio) == Enqueue(flag, s.waiters, t, init)
  {
    InheritedOk(s, init, t);
    hide Inherited;
    assert forall y :: y in s.waiters ==> At(Inherited(s, t).prio, y) == At(init, y);
    hide Consistent;
    InsertSameKeys(s.waiters, t, Inherited(s, t).prio, init);
  }

  lemma StepRanked(s: State, init: seq<int>, flag: Flag, op: Op, arrived: seq<nat>)
    requires Consistent(s, init) && Enabled(s, op) && Ranked(s.waiters, flag, arrived, init)
    ensures Ranked(Step(s, flag, op).waiters, flag, Arrive(s, op, arrived), init)
  {
    match op
    case Take(t, wait) =>
      if s.owner != t && s.value <= 0 && wait {
        InheritedOk(s, init, t);
        PlacedByOwnPriority(s, init, flag, t);
        RankedArrival(s.waiters, flag, arrived, init, t);
      }
      hide Ranked, Enqueue, Inherited, NoRepeats;
    case Release(t) =>
      if s.owner == t && s.hold == 1 && s.waiters != [] {
        RankedLeave(s.waiters, flag, arrived, init, s.waiters[0]);
      }
      hide Ranked, NoRepeats;
    case Timeout(t) =>
      RankedLeave(s.waiters, flag, arrived, init, t);
  }

  lemma {:induction false} RunRanked(s: State, init: seq<int>, flag: Flag, ops: seq<Op>, r: State, arrived: seq<nat>)
    requires Consistent(s, init) && Reaches(s, flag, ops, r) && Ranked(s.waiters, flag, arrived, init)
    ensures Ranked(r.waiters, flag, Arrivals(s, flag, ops, arrived), init)
    decreases |ops|
  {
    hide Consistent, Step, Enabled, Ranked, Arrive;
    if ops != [] {
      StepOk(s, init, flag, ops[0]);
      StepRanked(s, init, flag, ops[0], arrived);
      RunRanked(Step(s, flag, ops[0]), init, flag, ops[1..], r, Arrive(s, ops[0], arrived));
    }
  }

  /** In every reachable state the thread next in line is the one with the best claim: the first to arrive or, on a
      PRIO mutex, the most urgent by its own priority, equals in order of arrival. */
  lemma ServedByClaim(init: seq<int>, flag: Flag, ops: seq<Op>, r: State, b: nat)
    requires Reaches(Initial(init), flag, ops, r)
    ensures var arrived := Arrivals(Initial(init), flag, ops, []);
      && (forall t :: t in r.waiters <==> t in arrived)
      && (b in r.waiters && b != r.waiters[0] ==>
          Ahead(flag, arrived, init, r.waiters[0], b) && !Ahead(flag, arrived, init, b, r.waiters[0]))
  {
    RunRanked(Initial(init), init, flag, ops, r, []);
    if b in r.waiters && b != r.waiters[0] {
      HeadHasBestClaim(r.waiters, flag, Arrivals(Initial(init), flag, ops, []), init, b);
    }
  }

  // --------------------------------------------------- the ideal mutex

  /** A recursive mutex as its users think of it: who has it, how many takes are to be matched by releases, who waits,
      in order of arrival, and the most urgent priority among the owner and those who came to wait for it. */
  datatype Ledger = Ledger(owner: int, depth: nat, line: seq<nat>, urgency: int)

  ghost const UNUSED := Ledger(NONE, 0, [], 0)

  ghost function Note(l: Ledger, flag: Flag, init: seq<int>, op: Op): Ledger {
    match op
    case Take(t, wait) =>
      if l.owner == NONE then l.(owner := t, depth := 1, urgency := At(init, t))
      else if l.owner == t then l.(depth := l.depth + 1)
      else if wait then l.(line := l.line + [t], urgency := if At(init, t) < l.urgency then At(init, t) else l.urgency)
      else l
    case Release(t) =>
      if l.owner != t then l
      else if l.depth > 1 then l.(depth := l.depth - 1)
      else if l.line == [] then UNUSED
      else
        var n := NextInLine(flag, l.line, init);
        Ledger(n, 1, Without(l.line, n), At(init, n))
    case Timeout(t) => l.(line := Without(l.line, t))
  }

  ghost function Notes(l: Ledger, flag: Flag, init: seq<int>, ops: seq<Op>): Ledger
    decreases |ops|
  {
    if ops == [] then l else Notes(Note(l, flag, init, ops[0]), flag, init, ops[1..])
  }

  /** The mutex is as the ledger says. */
  ghost predicate Agrees(s: State, l: Ledger, flag: Flag, init: seq<int>) {
    && s.owner == l.owner && s.hold == l.depth && s.value == (if l.owner == NONE then 1 else 0)
    && (l.owner >= 0 ==> At(s.prio, l.owner) == l.urgency) && Ranked(s.waiters, flag, l.line, init)
  }

  lemma StepAgrees(s: State, l: Ledger, flag: Flag, init: seq<int>, op: Op)
    requires Consistent(s, init) && Enabled(s, op) && Agrees(s, l, flag, init)
    ensures Agrees(Step(s, flag, op), Note(l, flag, init, op), flag, init)
  {
    StepRanked(s, init, flag, op, l.line);
    match op {
      case Take(t, wait) =>
        hide Ranked, Enqueue, NoRepeats;
      case Release(t) =>
        if s.waiters != [] {
          HeadIsNext(s.waiters, flag, l.line, init);
        }
        if l.line != [] { SomeoneWaits(s.waiters, flag, l.line, init); }
        hide Ranked, NoRepeats;
      case Timeout(t) =>
        hide Ranked, NoRepeats;
    }
  }

  lemma {:induction false} RunAgrees(s: State, l: Ledger, flag: Flag, init: seq<int>, ops: seq<Op>, r: State)
    requires Consistent(s, init) && Reaches(s, flag, ops, r) && Agrees(s, l, flag, init)
    ensures Agrees(r, Notes(l, flag, init, ops), flag, init)
    decreases |ops|
  {
    hide Consistent, Step, Enabled, Agrees, Note;
    if ops != [] {
      StepOk(s, init, flag, ops[0]);
      StepAgrees(s, l, flag, init, ops[0]);
      RunAgrees(Step(s, flag, ops[0]), Note(l, flag, init, ops[0]), flag, init, ops[1..], r);
    }
  }

  /** Over every run the mutex is the ideal one: it has the owner, its hold is the number of that owner's takes less its
      releases since it became the owner, the owner runs at the most urgent priority of those who have come to wait for
      it, and everybody else runs at its own. */
  lemma RefinesIdeal(init: seq<int>, flag: Flag, ops: seq<Op>, r: State)
    requires Reaches(Initial(init), flag, ops, r)
    ensures var l := Notes(UNUSED, flag, init, ops);
      && r.owner == l.owner && r.hold == l.depth && (r.value > 0 <==> l.owner == NONE)
      && |r.prio| == |init|
      && (forall t :: 0 <= t < |init| ==> r.prio[t] == if t == r.owner then l.urgency else init[t])
      && (forall t :: t in r.waiters <==> t in l.line)
      && (r.waiters != [] ==> l.line != [] && r.waiters[0] == NextInLine(flag, l.line, init))
  {
    RunAgrees(Initial(init), UNUSED, flag, init, ops, r);
    RunsOk(Initial(init), init, flag, ops, r);
    if r.waiters != [] { HeadIsNext(r.waiters, flag, Notes(UNUSED, flag, init, ops).line, init); }
  }

  /** So the owner lets go only at the release that matches its first take: a step that changes the owner is a release
      by it, with one take left unmatched. */
  lemma LetsGoAtLastRelease(init: seq<int>, flag: Flag, ops: seq<Op>, r: State, op: Op)
    requires Reaches(Initial(init), flag, ops, r) && Enabled(r, op) && r.owner != NONE
    ensures Step(r, flag, op).owner != r.owner ==>
      op.Release? && op.t == r.owner && Notes(UNUSED, flag, init, ops).depth == 1
  {
    RefinesIdeal(init, flag, ops, r);
    RunsOk(Initial(init), init, flag, ops, r);
    hide NoRepeats, Enqueue, Reaches, Notes;
  }

  /** What a take answers: the mutex is had when it is free or the caller's own, else the caller waits if it may. */
  lemma TakeAnswers(init: seq<int>, flag: Flag, ops: seq<Op>, r: State, t: nat, wait: bool)
    requires Reaches(Initial(init), flag, ops, r) && Enabled(r, Take(t, wait))
    ensures var l, answer := Notes(UNUSED, flag, init, ops), TakeMutex(r, flag, t, wait).1;
      && (answer == Taken <==> l.owner == NONE || l.owner == t)
      && (answer == Waits <==> l.owner != NONE && l.owner != t && wait)
  {
    RefinesIdeal(init, flag, ops, r);
    hide Reaches, Notes, Enqueue;
  }

  /** Two takes and one release: the mutex is still the first thread's, and a second thread does not get it. */
  lemma NestedTakes(flag: Flag)
    ensures var r := Step(Step(Step(Initial([5, 5]), flag, Take(0, false)), flag, Take(0, false)), flag, Release(0));
      r.owner == 0 && r.hold == 1 && TakeMutex(r, flag, 1, false).1 == TimedOut
  {
  }

  // ------------------------------------------------------------ the mutex

  class Mutex {
    const flag: Flag
    var value: int
    var owner: int
    var hold: nat
    var original: int
    var waiters: seq<nat>
    var prio: seq<int>             // current_priority of the threads

    function Abs(): State
      reads this
    {
      State(value, owner, hold, original, waiters, prio)
    }

    /** rt_mutex_init. */
    constructor (flag: Flag, init: seq<int>)
      ensures this.flag == flag && Abs() == Initial(init) && MutexOk(Abs(), init)
    {
      this.flag := flag;
      value, owner, hold, original, waiters, prio := 1, NONE, 0, NO_PRIORITY, [], init;
    }

    /** The critical section of rt_mutex_take. */
    method TakeBy(t: nat, wait: bool, ghost init: seq<int>) returns (r: Outcome)
      requires Consistent(Abs(), init) && t < |prio| && t !in waiters
      modifies this
      ensures (Abs(), r) == TakeMutex(old(Abs()), flag, t, wait)
      ensures old(owner) != t || old(hold) < 255 ==>
        Consistent(Abs(), init) && (flag == Prio && old(MutexOk(Abs(), init)) ==> MutexOk(Abs(), init))
    {
      if owner != t || hold < 255 { StepOk(Abs(), init, flag, Take(t, wait)); }
      hide Sorted, Inherits, NoRepeats, Enqueue;
      if owner == t {
        hold := (hold + 1) % 256;
        r := Taken;
      } else if value > 0 {
        value := value - 1;
        owner := t;
        original := prio[t];
        hold := (hold + 1) % 256;
        r := Taken;
      } else if !wait {
        r := TimedOut;
      } else {
        if prio[t] < prio[owner] {
          prio := prio[owner := prio[t]];
        }
        waiters := SuspendOn(flag, waiters, t, prio);
        r := Waits;
      }
    }

    /** rt_mutex_release. */
    method ReleaseBy(t: nat, ghost init: seq<int>) returns (ok: bool)
      requires Consistent(Abs(), init) && t < |prio| && t !in waiters
      modifies this
      ensures Abs() == ReleaseMutex(old(Abs()), t) && (ok <==> old(owner) == t)
      ensures Consistent(Abs(), init) && (flag == Prio && old(MutexOk(Abs(), init)) ==> MutexOk(Abs(), init))
    {
      StepOk(Abs(), init, flag, Release(t));
      hide Sorted, Inherits, NoRepeats;
      if t != owner {
        return false;
      }
      hold := (hold + 255) % 256;
      if hold == 0 {
        if original != prio[owner] {
          prio := prio[owner := original];
        }
        if waiters != [] {
          var next := waiters[0];
          assert next in waiters;
          owner := next;
          original := prio[next];
          hold := (hold + 1) % 256;
          waiters := waiters[1..];
        } else {
          value := value + 1;
          owner := NONE;
          original := NO_PRIORITY;
        }
      }
      ok := true;
    }

    /** rt_thread_timeout for a waiting thread: it leaves the list, and the owner keeps what it inherited. */
    method TimeoutOf(t: nat, ghost init: seq<int>)
      requires Consistent(Abs(), init) && t in waiters
      modifies this
      ensures Abs() == TimeoutMutex(old(Abs()), t)
      ensures Consistent(Abs(), init) && (flag == Prio && old(MutexOk(Abs(), init)) ==> MutexOk(Abs(), init))
    {
      StepOk(Abs(), init, flag, Timeout(t));
      hide Sorted, Inherits, NoRepeats;
      waiters := Without(waiters, t);
    }
  }
}
