/** Hard timers (timer.c, clock.c).  The reference model keeps one flat list and counts time without bound;
    the class keeps the skip list and 32-bit ticks. */
module Timers {
  import opened Sequences
  import opened SkipRows
  import opened Words

  const HALF: int := 0x7fff_ffff      // RT_TICK_MAX / 2

  /** Subtraction of 32-bit ticks. */
  function Minus(a: int, b: int): int {
    (a - b) % U32
  }

  /** Exactly when the wrapping test agrees with the true order of two points in time less than one
      full turn of the counter apart. */
  lemma WrapTestIsExact(x: int, y: int)
    requires x - y < U32 && y - x < U32
    ensures (Minus(x % U32, y % U32) < HALF <==> x >= y) <==> -0x8000_0001 <= x - y < 0x7fff_ffff
    ensures Minus(x % U32, y % U32) == 0 <==> x == y
  {
    var d := x - y;
    assert (x % U32 - y % U32) % U32 == d % U32;
    assert d % U32 == if d >= 0 then d else d + U32;
  }

  // ------------------------------------------------ the reference model

  /** True time, the listed timers in firing order, their true deadlines, and how each timer is set up. */
  datatype Flat = Flat(now: nat, list: seq<nat>, deadline: seq<int>, init: seq<nat>, periodic: seq<bool>)

  ghost predicate TimerOk(f: Flat, lag: nat, t: nat)
    requires |f.deadline| == |f.init| == |f.periodic|
  {
    t < |f.deadline| && f.now - lag <= f.deadline[t] < f.now + HALF && f.init[t] < HALF
  }

  /** Deadlines are at most `lag` ticks in the past and less than half a turn ahead. */
  ghost predicate FlatOk(f: Flat, lag: nat) {
    && |f.deadline| == |f.init| == |f.periodic|
    && NoRepeats(f.list) && Sorted(f.list, f.deadline)
    && (forall t :: t in f.list ==> TimerOk(f, lag, t))
  }

  /** No timer that is due is periodic with period 0. */
  ghost predicate DueOk(f: Flat) {
    forall t | t in f.list && t < |f.deadline| && t < |f.init| && t < |f.periodic| ::
      f.deadline[t] <= f.now && f.periodic[t] ==> f.init[t] >= 1
  }

  ghost function StartFlat(f: Flat, t: nat): Flat
    requires t < |f.deadline| && t < |f.init|
  {
    var d := f.deadline[t := f.now + f.init[t]];
    f.(deadline := d, list := Insert(Without(f.list, t), t, d))
  }

  ghost function StopFlat(f: Flat, t: nat): Flat {
    f.(list := Without(f.list, t))
  }

  lemma StopFlatOk(f: Flat, lag: nat, t: nat)
    requires FlatOk(f, lag)
    ensures FlatOk(StopFlat(f, t), lag)
    ensures forall u :: u in StopFlat(f, t).list <==> u in f.list && u != t
  {
    WithoutFacts(f.list, t);
    WithoutSorted(f.list, t, f.deadline);
  }

  lemma SortedSameKeys(s: seq<nat>, key: seq<int>, key': seq<int>)
    requires Sorted(s, key) && forall y :: y in s ==> At(key, y) == At(key', y)
    ensures Sorted(s, key')
  {
  }

  lemma StartFlatOk(f: Flat, lag: nat, t: nat)
    requires FlatOk(f, lag) && t < |f.init| && f.init[t] < HALF
    ensures FlatOk(StartFlat(f, t), lag)
    ensures forall u :: u in StartFlat(f, t).list <==> u in f.list || u == t
  {
    StopFlatOk(f, lag, t);
    var s := Without(f.list, t);
    var d := f.deadline[t := f.now + f.init[t]];
    SortedSameKeys(s, f.deadline, d);
    hide Sorted, NoRepeats, Without, Insert;
    InsertMembers(s, t, d);
    InsertSorted(s, t, d);
    var g := StartFlat(f, t);
    forall u | u in g.list ensures TimerOk(g, lag, u) {
      if u != t { assert TimerOk(f, lag, u); }
    }
  }

  /** The head of the list fires: a periodic timer is started again, any other is done. */
  ghost function FireFlat(f: Flat): Flat
    requires FlatOk(f, 1) && f.list != []
  {
    HeadOk(f);
    if f.periodic[f.list[0]] then StartFlat(StopFlat(f, f.list[0]), f.list[0]) else StopFlat(f, f.list[0])
  }

  lemma HeadOk(f: Flat)
    requires FlatOk(f, 1) && f.list != []
    ensures TimerOk(f, 1, f.list[0])
  {
    assert f.list[0] in f.list;
  }

  ghost predicate HeadDue(f: Flat) {
    f.list != [] && At(f.deadline, f.list[0]) <= f.now
  }

  /** How many timers at the front of the list are due. */
  ghost function Due(s: seq<nat>, deadline: seq<int>, now: int): nat {
    if s == [] || At(deadline, s[0]) > now then 0 else 1 + Due(s[1..], deadline, now)
  }

  lemma {:induction false} DueFacts(s: seq<nat>, deadline: seq<int>, now: int)
    requires Sorted(s, deadline)
    ensures Due(s, deadline, now) <= |s|
    ensures forall i :: 0 <= i < |s| ==> (i < Due(s, deadline, now) <==> At(deadline, s[i]) <= now)
  {
    if s != [] {
      DueFacts(s[1..], deadline, now);
      forall i | 0 <= i < |s| ensures i < Due(s, deadline, now) <==> At(deadline, s[i]) <= now {
        if i > 0 { assert s[i] == s[1..][i - 1]; }
      }
    }
  }

  lemma {:induction false} DueInsert(s: seq<nat>, t: nat, deadline: seq<int>, deadline': seq<int>, now: int)
    requires At(deadline', t) > now && forall u :: u in s ==> At(deadline, u) == At(deadline', u)
    ensures Due(Insert(s, t, deadline'), deadline', now) == Due(s, deadline, now)
    ensures Due(s, deadline, now) <= |s| && Due(s, deadline, now) <= |Insert(s, t, deadline')|
    ensures Insert(s, t, deadline')[..Due(s, deadline, now)] == s[..Due(s, deadline, now)]
  {
    if s != [] {
      assert s[0] in s;
      if At(deadline', s[0]) <= At(deadline', t) {
        DueInsert(s[1..], t, deadline, deadline', now);
        var n, r := Due(s[1..], deadline, now), Insert(s[1..], t, deadline');
        PrefixStep(s, r, n);
      }
    }
  }

  lemma PrefixStep(s: seq<nat>, r: seq<nat>, n: nat)
    requires s != [] && n <= |s| - 1 && n <= |r| && r[..n] == s[1..][..n]
    ensures ([s[0]] + r)[..n + 1] == s[..n + 1]
  {
    assert ([s[0]] + r)[..n + 1] == [s[0]] + r[..n];
    assert s[..n + 1] == [s[0]] + s[1..][..n];
  }

  /** Firing one due timer leaves one due timer less, and those left are the ones that were behind it. */
  lemma FireFlatFacts(f: Flat)
    requires FlatOk(f, 1) && HeadDue(f) && DueOk(f)
    ensures FlatOk(FireFlat(f), 1) && FireFlat(f).now == f.now && DueOk(FireFlat(f))
    ensures Due(f.list, f.deadline, f.now) > 0
    ensures var g, n := FireFlat(f), Due(f.list, f.deadline, f.now);
      && n <= |f.list| && Due(g.list, g.deadline, g.now) == n - 1
      && n - 1 <= |g.list| && g.list[..n - 1] == f.list[1..n]
      && g.init == f.init && g.periodic == f.periodic
    ensures var g, t := FireFlat(f), f.list[0];
      forall u :: u in g.list <==> u in f.list && (u == t ==> f.periodic[t])
  {
    FireFlatOk(f);
    StillDueOk(f);
    StoppedHead(f);
    hide Sorted, NoRepeats, Without, Insert, Due, TimerOk, FlatOk, StartFlat, StopFlat, At, DueOk;
    var t := f.list[0];
    var g := StopFlat(f, t);
    if f.periodic[t] {
      RestartedHead(g, t, f.list[1..]);
      hide FireFlat;
      assert FireFlat(f) == StartFlat(g, t) by { FireFlatIs(f); }
    } else {
      hide FireFlat;
      assert FireFlat(f) == g by { FireFlatIs(f); }
    }
  }

  /** Firing the head of the list, whatever its period. */
  lemma FireFlatOk(f: Flat)
    requires FlatOk(f, 1) && f.list != []
    ensures var g, t := FireFlat(f), f.list[0];
      && FlatOk(g, 1) && g.now == f.now && g.init == f.init && g.periodic == f.periodic
      && t < |f.init| == |f.periodic| == |f.deadline|
      && (forall u :: u in g.list <==> u in f.list && (u == t ==> f.periodic[t]))
      && (forall u :: u in g.list ==>
          u < |f.init| && u < |g.deadline| && g.deadline[u] == if u == t then f.now + f.init[u] else f.deadline[u])
  {
    HeadOk(f);
    StopFlatOk(f, 1, f.list[0]);
    hide Sorted, NoRepeats, Without, Insert;
    var s := StopFlat(f, f.list[0]);
    if f.periodic[f.list[0]] { StartFlatOk(s, 1, f.list[0]); }
    forall u | u in f.list ensures TimerOk(f, 1, u) { }
  }

  lemma StillDueOk(f: Flat)
    requires FlatOk(f, 1) && HeadDue(f) && DueOk(f)
    ensures DueOk(FireFlat(f))
  {
    FireFlatOk(f);
    HeadOk(f);
    hide FireFlat, FlatOk;
  }

  lemma FireFlatIs(f: Flat)
    requires FlatOk(f, 1) && f.list != []
    ensures f.list[0] < |f.init| == |f.periodic| == |f.deadline|
    ensures FireFlat(f) == var g := StopFlat(f, f.list[0]); if f.periodic[f.list[0]] then StartFlat(g, f.list[0]) else g
  {
    HeadOk(f);
  }

  lemma StoppedHead(f: Flat)
    requires FlatOk(f, 1) && HeadDue(f) && DueOk(f)
    ensures var t, g, n := f.list[0], StopFlat(f, f.list[0]), Due(f.list, f.deadline, f.now);
      && FlatOk(g, 1) && g == f.(list := f.list[1..]) && t !in g.list
        && (forall u :: u in g.list <==> u in f.list && u != t)
      && 0 < n <= |f.list| && Due(g.list, g.deadline, g.now) == n - 1 && g.list[..n - 1] == f.list[1..n]
      && t < |f.init| == |f.periodic| == |f.deadline| && f.init[t] < HALF && (f.periodic[t] ==> f.init[t] >= 1)
  {
    var t := f.list[0];
    StopTimer(f);
    StopFlatOk(f, 1, t);
    DueFacts(f.list, f.deadline, f.now);
    HeadGone(f.list);
    var n := Due(f.list, f.deadline, f.now);
    assert f.list[1..n] == f.list[1..][..n - 1];
  }

  lemma RestartedHead(g: Flat, t: nat, r: seq<nat>)
    requires FlatOk(g, 1) && g.list == r && t !in r && t < |g.init| && 1 <= g.init[t] < HALF
    ensures var g', n := StartFlat(g, t), Due(r, g.deadline, g.now);
      && FlatOk(g', 1) && (forall u :: u in g'.list <==> u in r || u == t)
      && Due(g'.list, g'.deadline, g'.now) == n && n <= |r| && n <= |g'.list| && g'.list[..n] == r[..n]
      && g'.now == g.now && g'.init == g.init && g'.periodic == g.periodic
  {
    hide Sorted, NoRepeats, Without, Insert, Due, TimerOk;
    StartFlatOk(g, 1, t);
    WithoutAbsent(r, t);
    DueInsert(r, t, g.deadline, g.deadline[t := g.now + g.init[t]], g.now);
  }

  lemma StopTimer(f: Flat)
    requires FlatOk(f, 1) && HeadDue(f)
    ensures var t := f.list[0]; t < |f.init| && f.init[t] < HALF && (DueOk(f) && f.periodic[t] ==> f.init[t] >= 1)
  {
    assert f.list[0] in f.list && TimerOk(f, 1, f.list[0]);
  }

  /** The check at time `f.now`: fires from the head until the head is not due. */
  ghost function CheckFlat(f: Flat): (Flat, seq<nat>)
    requires FlatOk(f, 1) && DueOk(f)
    decreases Due(f.list, f.deadline, f.now)
  {
    if !HeadDue(f) then (f, []) else
      FireFlatFacts(f);
      var (g, fired) := CheckFlat(FireFlat(f));
      (g, [f.list[0]] + fired)
  }

  /** What a check at time `f.now` may leave behind as `g`, having fired `fired`. */
  ghost predicate Checked(f: Flat, g: Flat, fired: seq<nat>)
    requires FlatOk(f, 1)
  {
    && FlatOk(g, 0) && g.now == f.now && g.init == f.init && g.periodic == f.periodic
    && (forall u :: u in g.list ==> g.deadline[u] > g.now)
    && Due(f.list, f.deadline, f.now) <= |f.list| && fired == f.list[..Due(f.list, f.deadline, f.now)]
    && (forall u :: u in g.list <==> u in f.list && (u in fired ==> f.periodic[u]))
    && (forall u :: u in g.list ==> g.deadline[u] == if u in fired then f.now + f.init[u] else f.deadline[u])
  }

  /** The check fires exactly the timers whose deadline is reached, in order of deadline and then of start;
      afterwards nothing listed is due, and the periodic ones are due again one period from now. */
  lemma {:induction false} CheckFlatFacts(f: Flat)
    requires FlatOk(f, 1) && DueOk(f)
    ensures Checked(f, CheckFlat(f).0, CheckFlat(f).1)
    ensures forall u :: u in CheckFlat(f).1 <==> u in f.list && f.deadline[u] <= f.now
    decreases Due(f.list, f.deadline, f.now)
  {
    DueFacts(f.list, f.deadline, f.now);
    if !HeadDue(f) {
      NothingDue(f);
    } else {
      FireFlatFacts(f);
      CheckFlatFacts(FireFlat(f));
      var (g, fired) := CheckFlat(FireFlat(f));
      FiredFirst(f, FireFlat(f), g, fired);
    }
    DuePrefix(f);
  }

  lemma DuePrefix(f: Flat)
    requires FlatOk(f, 1)
    ensures Due(f.list, f.deadline, f.now) <= |f.list|
    ensures forall u :: u in f.list[..Due(f.list, f.deadline, f.now)] <==> u in f.list && f.deadline[u] <= f.now
  {
    DueFacts(f.list, f.deadline, f.now);
    var n := Due(f.list, f.deadline, f.now);
    forall u | u in f.list ensures u in f.list[..n] <==> f.deadline[u] <= f.now {
      assert TimerOk(f, 1, u);
      var i :| 0 <= i < |f.list| && f.list[i] == u;
      if i < n { assert f.list[..n][i] == u; }
      if u in f.list[..n] {
        var k :| 0 <= k < n && f.list[k] == u;
      }
    }
  }

  lemma FiredFirst(f: Flat, f1: Flat, g: Flat, fired: seq<nat>)
    requires FlatOk(f, 1) && FlatOk(f1, 1) && HeadDue(f) && DueOk(f) && f1 == FireFlat(f) && Checked(f1, g, fired)
    ensures Checked(f, g, [f.list[0]] + fired)
  {
    FireFlatFacts(f);
    var n := Due(f.list, f.deadline, f.now);
    assert f.list[..n] == [f.list[0]] + f.list[1..n];
    FireFlatOk(f);
    Apart(f.list, n);
    hide FireFlat, Due, NoRepeats, Sorted, DueOk, FlatOk, At;
    FiredDeadlines(f, f1, g, fired);
  }

  lemma FiredDeadlines(f: Flat, f1: Flat, g: Flat, fired: seq<nat>)
    requires FlatOk(f, 1) && FlatOk(f1, 1) && f.list != [] && Checked(f1, g, fired) && f.list[0] !in fired
    requires f1.now == f.now && f1.init == f.init && f1.periodic == f.periodic && f.list[0] < |f.init|
    requires forall u :: u in f1.list ==>
      u < |f.init| && u < |f1.deadline| && f1.deadline[u] == if u == f.list[0] then f.now + f.init[u] else f.deadline[u]
    ensures forall u :: u in g.list ==>
      u < |f.deadline| && u < |g.deadline| && u < |f.init|
      && g.deadline[u] == if u in [f.list[0]] + fired then f.now + f.init[u] else f.deadline[u]
  {
    hide Due, NoRepeats, Sorted;
    forall u | u in g.list ensures u in f1.list && TimerOk(g, 0, u) { }
  }

  lemma Apart(s: seq<nat>, n: nat)
    requires NoRepeats(s) && 0 < n <= |s|
    ensures s[0] !in s[1..n]
  {
  }

  lemma NothingDue(f: Flat)
    requires FlatOk(f, 1) && !HeadDue(f)
    ensures FlatOk(f, 0) && forall u :: u in f.list ==> f.deadline[u] > f.now
  {
    forall u | u in f.list ensures TimerOk(f, 0, u) && f.deadline[u] > f.now {
      var i :| 0 <= i < |f.list| && f.list[i] == u;
      assert TimerOk(f, 1, u);
      assert At(f.deadline, f.list[0]) <= At(f.deadline, f.list[i]);
    }
  }

  // --------------------------------------------- when does the check end?

  /** The loop of the check after `n` turns. */
  ghost function Turns(f: Flat, n: nat): (g: Flat)
    requires FlatOk(f, 1)
    ensures FlatOk(g, 1)
  {
    if n == 0 then f else
      var g := Turns(f, n - 1);
      if HeadDue(g) then FireFlatOk(g); FireFlat(g) else g
  }

  /** A timer that is due and periodic with period 0. */
  ghost predicate Stuck(f: Flat, z: nat)
    requires |f.deadline| == |f.init| == |f.periodic|
  {
    z in f.list && z < |f.deadline| && f.deadline[z] <= f.now && f.periodic[z] && f.init[z] == 0
  }

  lemma StuckHead(f: Flat, z: nat)
    requires FlatOk(f, 1) && Stuck(f, z)
    ensures HeadDue(f)
  {
    var i :| 0 <= i < |f.list| && f.list[i] == z;
    assert At(f.deadline, f.list[0]) <= At(f.deadline, f.list[i]);
  }

  /** A due periodic timer of period 0 keeps the check going for ever: after any number of turns it is still due,
      and so is the head of the list. */
  lemma {:induction false} ZeroPeriodNeverDrains(f: Flat, z: nat, n: nat)
    requires FlatOk(f, 1) && Stuck(f, z)
    ensures HeadDue(Turns(f, n)) && Stuck(Turns(f, n), z)
  {
    if n > 0 {
      ZeroPeriodNeverDrains(f, z, n - 1);
      FireFlatOk(Turns(f, n - 1));
    }
    hide FireFlat;
    StuckHead(Turns(f, n), z);
  }

  lemma {:induction false} TurnsShift(f: Flat, n: nat)
    requires FlatOk(f, 1) && HeadDue(f) && FlatOk(FireFlat(f), 1)
    ensures Turns(f, n + 1) == Turns(FireFlat(f), n)
  {
    hide FlatOk;
    if n > 0 { TurnsShift(f, n - 1); }
    else { assert Turns(f, 0) == f; }
  }

  lemma NoneDue(f: Flat)
    requires FlatOk(f, 1) && !HeadDue(f)
    ensures Due(f.list, f.deadline, f.now) == 0 && Turns(f, 0) == f
  {
  }

  /** Otherwise it ends after as many turns as timers were due. */
  lemma {:induction false} DrainsInDueTurns(f: Flat)
    requires FlatOk(f, 1) && DueOk(f)
    ensures !HeadDue(Turns(f, Due(f.list, f.deadline, f.now)))
    decreases Due(f.list, f.deadline, f.now)
  {
    hide FlatOk, DueOk, FireFlat, At;
    if HeadDue(f) {
      FireFlatFacts(f);
      var n := Due(f.list, f.deadline, f.now) - 1;
      TurnsShift(f, n);
      hide Due, Turns;
      DrainsInDueTurns(FireFlat(f));
    } else {
      NoneDue(f);
    }
  }

  /** The check ends if and only if no due timer is periodic with period 0. */
  lemma CheckEndsExactly(f: Flat)
    requires FlatOk(f, 1)
    ensures (exists n :: !HeadDue(Turns(f, n))) <==> DueOk(f)
  {
    if DueOk(f) {
      DrainsInDueTurns(f);
    } else {
      var z :| z in f.list && z < |f.deadline| && z < |f.init| && z < |f.periodic| && f.deadline[z] <= f.now
        && f.periodic[z]
        && f.init[z] < 1;
      forall n ensures HeadDue(Turns(f, n)) { ZeroPeriodNeverDrains(f, z, n); }
    }
  }

  // ------------------------------------------------------ whole runs

  datatype Event = Start(t: nat) | Stop(t: nat) | Tick

  /** A start is accepted, and the check of a tick ends. */
  ghost predicate EventOk(f: Flat, e: Event) {
    match e
    case Start(t) => t < |f.init| && f.init[t] < HALF
    case Stop(_) => true
    case Tick => DueOk(f.(now := f.now + 1))
  }

  lemma TickDue(f: Flat)
    requires FlatOk(f, 0)
    ensures FlatOk(f.(now := f.now + 1), 1)
  {
    var g := f.(now := f.now + 1);
    forall t | t in g.list ensures TimerOk(g, 1, t) { assert TimerOk(f, 0, t); }
  }

  /** The state after one event, and the timers it fired. */
  ghost function Step(f: Flat, e: Event): (Flat, seq<nat>)
    requires FlatOk(f, 0) && EventOk(f, e)
  {
    match e
    case Start(t) => (StartFlat(f, t), [])
    case Stop(t) => (StopFlat(f, t), [])
    case Tick => TickDue(f); CheckFlat(f.(now := f.now + 1))
  }

  lemma StepOk(f: Flat, e: Event)
    requires FlatOk(f, 0) && EventOk(f, e)
    ensures var g := Step(f, e).0;
      && FlatOk(g, 0) && g.init == f.init && g.periodic == f.periodic
      && g.now == if e.Tick? then f.now + 1 else f.now
  {
    match e
    case Start(t) => StartFlatOk(f, 0, t);
    case Stop(t) => StopFlatOk(f, 0, t);
    case Tick => TickDue(f); CheckFlatFacts(f.(now := f.now + 1));
  }

  ghost predicate RunOk(f: Flat, es: seq<Event>)
    requires FlatOk(f, 0)
    decreases |es|
  {
    es == [] || (EventOk(f, es[0]) && (StepOk(f, es[0]); RunOk(Step(f, es[0]).0, es[1..])))
  }

  ghost function Ticks(es: seq<Event>): nat {
    if es == [] then 0 else (if es[0].Tick? then 1 else 0) + Ticks(es[1..])
  }

  /** The times at which timer `t` fires in the course of `es`. */
  ghost function FireTimes(f: Flat, es: seq<Event>, t: nat): seq<int>
    requires FlatOk(f, 0) && RunOk(f, es)
    decreases |es|
  {
    if es == [] then [] else
      StepOk(f, es[0]);
      (if t in Step(f, es[0]).1 then [Step(f, es[0]).0.now] else []) + FireTimes(Step(f, es[0]).0, es[1..], t)
  }

  /** The times `d`, `d + p`, `d + 2 * p`, ... up to `end`. */
  ghost function Beats(d: int, p: nat, end: int): (r: seq<int>)
    requires p >= 1
    ensures forall k :: 0 <= k < |r| ==> r[k] == d + k * p
    ensures d + |r| * p > end && (|r| > 0 ==> d + (|r| - 1) * p <= end)
    decreases if d <= end then end - d + 1 else 0
  {
    if d > end then [] else [d] + Beats(d + p, p, end)
  }

  ghost function Expected(d: int, p: nat, periodic: bool, end: int): seq<int>
    requires periodic ==> p >= 1
  {
    if periodic then Beats(d, p, end) else if d <= end then [d] else []
  }

  ghost predicate Untouched(es: seq<Event>, t: nat) {
    forall i :: 0 <= i < |es| ==> es[i] != Start(t) && es[i] != Stop(t)
  }

  /** The first check that will find the deadline of `t` reached: a deadline that is now waits for the next tick. */
  ghost function FirstCheck(f: Flat, t: nat): int
    requires t < |f.deadline|
  {
    if f.deadline[t] > f.now then f.deadline[t] else f.now + 1
  }

  /** Nothing is asked of a one-shot timer; a periodic one has a period. */
  ghost predicate HasPeriod(f: Flat, t: nat) {
    t < |f.init| && t < |f.periodic| && t < |f.deadline| && (f.periodic[t] ==> f.init[t] >= 1)
  }

  /** Over any run in which nobody else starts or stops timer `t`: if it is listed it fires at the first check that
      has reached its deadline and, when periodic, at every whole period after that, without drift; if it is not
      listed it never fires. */
  lemma {:induction false} FiresOnTime(f: Flat, es: seq<Event>, t: nat)
    requires FlatOk(f, 0) && RunOk(f, es) && Untouched(es, t) && (t in f.list ==> HasPeriod(f, t))
    ensures FireTimes(f, es, t) ==
      if t in f.list then Expected(FirstCheck(f, t), f.init[t], f.periodic[t], f.now + Ticks(es)) else []
    decreases |es|
  {
    hide FlatOk, RunOk, EventOk, Step, Untouched, FireTimes, Ticks, Beats, Expected, FirstCheck;
    if es == [] {
      NoEvents(f, t);
    } else {
      FireTimesSplit(f, es, t);
      UntouchedTail(es, t);
      StepOnTime(f, es[0], t);
      var (g, fired) := Step(f, es[0]);
      FiresOnTime(g, es[1..], t);
      var tail := FireTimes(g, es[1..], t);
      if t in fired {
        ExpectedSplit(FirstCheck(f, t), f.init[t], f.periodic[t], f.now + Ticks(es));
        assert FireTimes(f, es, t) == [g.now] + tail;
      } else {
        assert [] + tail == tail;
      }
    }
  }

  lemma NoEvents(f: Flat, t: nat)
    requires FlatOk(f, 0) && RunOk(f, []) && (t in f.list ==> HasPeriod(f, t))
    ensures FireTimes(f, [], t) == []
    ensures t in f.list ==> Expected(FirstCheck(f, t), f.init[t], f.periodic[t], f.now + Ticks([])) == []
  {
  }

  lemma FireTimesSplit(f: Flat, es: seq<Event>, t: nat)
    requires FlatOk(f, 0) && RunOk(f, es) && es != []
    ensures EventOk(f, es[0]) && FlatOk(Step(f, es[0]).0, 0) && RunOk(Step(f, es[0]).0, es[1..])
    ensures var (g, fired) := Step(f, es[0]);
      && FireTimes(f, es, t) == (if t in fired then [g.now] else []) + FireTimes(g, es[1..], t)
      && g.now + Ticks(es[1..]) == f.now + Ticks(es) && g.init == f.init && g.periodic == f.periodic
      && g.now == (if es[0].Tick? then f.now + 1 else f.now) && g.now <= f.now + Ticks(es)
  {
    StepOk(f, es[0]);
  }

  lemma UntouchedTail(es: seq<Event>, t: nat)
    requires Untouched(es, t) && es != []
    ensures Untouched(es[1..], t) && es[0] != Start(t) && es[0] != Stop(t)
  {
  }

  lemma ExpectedSplit(d: int, p: nat, periodic: bool, end: int)
    requires (periodic ==> p >= 1) && d <= end
    ensures Expected(d, p, periodic, end) == [d] + (if periodic then Expected(d + p, p, periodic, end) else [])
  {
    if periodic { assert Beats(d, p, end) == [d] + Beats(d + p, p, end); }
  }

  /** One event, seen from a timer it does not start or stop. */
  lemma StepOnTime(f: Flat, e: Event, t: nat)
    requires FlatOk(f, 0) && EventOk(f, e) && e != Start(t) && e != Stop(t) && (t in f.list ==> HasPeriod(f, t))
    ensures var (g, fired) := Step(f, e);
      && (t in fired <==> t in f.list && e.Tick? && FirstCheck(f, t) == f.now + 1)
      && (t in g.list <==> t in f.list && (t in fired ==> f.periodic[t]))
      && (t in g.list ==>
          HasPeriod(g, t) && FirstCheck(g, t) == if t in fired then FirstCheck(f, t) + f.init[t] else FirstCheck(f, t))
  {
    match e
    case Start(u) =>
      StartFlatOk(f, 0, u);
    case Stop(u) =>
      StopFlatOk(f, 0, u);
    case Tick =>
      TickOnTime(f, t);
  }

  lemma TickOnTime(f: Flat, t: nat)
    requires FlatOk(f, 0) && EventOk(f, Tick) && (t in f.list ==> HasPeriod(f, t))
    ensures var (g, fired) := Step(f, Tick);
      && (t in fired <==> t in f.list && FirstCheck(f, t) == f.now + 1)
      && (t in g.list <==> t in f.list && (t in fired ==> f.periodic[t]))
      && (t in g.list ==>
          HasPeriod(g, t) && FirstCheck(g, t) == if t in fired then FirstCheck(f, t) + f.init[t] else FirstCheck(f, t))
  {
    TickDue(f);
    CheckFlatFacts(f.(now := f.now + 1));
    hide CheckFlat, Due, Sorted, NoRepeats;
  }

  /** A timer started at time `s` fires at `s + init`, never earlier, and then every `init` ticks if it is periodic;
      with `init` 0 it fires at the next tick. */
  lemma StartedTimerFiresOnTime(f: Flat, es: seq<Event>, t: nat)
    requires FlatOk(f, 0) && HasPeriod(f, t) && RunOk(f, [Start(t)] + es) && Untouched(es, t)
    ensures FireTimes(f, [Start(t)] + es, t) ==
      Expected(f.now + if f.init[t] >= 1 then f.init[t] else 1, f.init[t], f.periodic[t], f.now + Ticks(es))
  {
    hide FlatOk, RunOk, EventOk, Step, Untouched, FireTimes, Expected, StartFlat, Ticks, HasPeriod, FirstCheck;
    var run := [Start(t)] + es;
    assert run != [] && run[0] == Start(t) && run[1..] == es;
    FireTimesSplit(f, run, t);
    StartedAt(f, t);
    FiresOnTime(StartFlat(f, t), es, t);
    var times := FireTimes(StartFlat(f, t), es, t);
    assert [] + times == times;
  }

  lemma StartedAt(f: Flat, t: nat)
    requires FlatOk(f, 0) && HasPeriod(f, t) && EventOk(f, Start(t))
    ensures t < |f.deadline| && t < |f.init|
    ensures var g := StartFlat(f, t);
      && Step(f, Start(t)) == (g, []) && t in g.list && HasPeriod(g, t) && g.now == f.now
      && g.init == f.init && g.periodic == f.periodic && t < |f.init| && t < |f.periodic| && t < |g.deadline|
      && FirstCheck(g, t) == f.now + if f.init[t] >= 1 then f.init[t] else 1
  {
    StartFlatOk(f, 0, t);
  }
}
