/** The hard timer list of timer.c: skip-list rows and 32-bit ticks, against the flat model of Timers. */
module TimerLists {
  import opened Sequences
  import opened SkipRows
  import opened Timers
  import opened Words

  datatype Timer = Timer(init: nat, timeout: int, activated: bool, periodic: bool)

  ghost predicate TimerAgrees(x: Timer, f: Flat, t: nat)
    requires t < |f.init| == |f.periodic| == |f.deadline|
  {
    && x.init == f.init[t] && x.periodic == f.periodic[t] && (x.activated <==> t in f.list)
    && (t in f.list ==> x.timeout == f.deadline[t] % U32)
  }

  /** The timer structures hold the true deadlines cut to 32 bits; exactly the listed ones are activated. */
  ghost predicate Agrees(timers: seq<Timer>, f: Flat) {
    && |timers| == |f.init| == |f.periodic| == |f.deadline|
    && forall t :: 0 <= t < |timers| ==> TimerAgrees(timers[t], f, t)
  }

  /** How many rows a timer is put into, for the value of the insertion counter. */
  function Height(nr: nat, mask: nat, levels: nat): nat
    requires mask == 1 || mask == 3
    decreases levels
  {
    if levels <= 1 || nr % (mask + 1) != 0 then 1 else 1 + Height(nr / (mask + 1), mask, levels - 1)
  }

  lemma {:induction false} HeightBounds(nr: nat, mask: nat, levels: nat)
    requires (mask == 1 || mask == 3) && levels >= 1
    ensures 1 <= Height(nr, mask, levels) <= levels
    decreases levels
  {
    if levels > 1 && nr % (mask + 1) == 0 { HeightBounds(nr / (mask + 1), mask, levels - 1); }
  }

  ghost function Power(b: nat, k: nat): nat {
    if k == 0 then 1 else b * Power(b, k - 1)
  }

  lemma Halves(n: nat, b: nat, c: nat, q: nat)
    requires b == 2 || b == 4
    ensures n == q * (b * c) <==> n % b == 0 && n / b == q * c
  {
    var r := q * c;
    assert q * (b * c) == b * r;
    assert n == b * r <==> n % b == 0 && n / b == r;
  }

  lemma DividesTwice(n: nat, b: nat, c: nat)
    requires (b == 2 || b == 4) && c > 0
    ensures b * c > 0 && (n % (b * c) == 0 <==> n % b == 0 && n / b % c == 0)
  {
    var m := b * c;
    if n % m == 0 {
      var q := n / m;
      assert n == q * m;
      Halves(n, b, c, q);
      MultipleOf(q, c);
    }
    if n % b == 0 && n / b % c == 0 {
      var q := n / b / c;
      assert n / b == q * c;
      Halves(n, b, c, q);
      MultipleOf(q, m);
    }
  }

  lemma PowerPositive(b: nat, k: nat)
    requires b > 0
    ensures Power(b, k) > 0
  {
    if k > 0 { PowerPositive(b, k - 1); }
  }

  /** A timer is in the row `k` above the bottom exactly when the counter is divisible by that power of 2 or 4. */
  lemma {:induction false} HeightIs(nr: nat, mask: nat, levels: nat, k: nat)
    requires (mask == 1 || mask == 3) && k < levels
    ensures Power(mask + 1, k) > 0 && (k < Height(nr, mask, levels) <==> nr % Power(mask + 1, k) == 0)
    decreases levels
  {
    PowerPositive(mask + 1, k);
    HeightBounds(nr, mask, levels);
    if k > 0 {
      PowerPositive(mask + 1, k - 1);
      HeightIs(nr / (mask + 1), mask, levels - 1, k - 1);
      DividesTwice(nr, mask + 1, Power(mask + 1, k - 1));
    }
  }

  /** One comparison of the search: the wrapped ticks order a listed timer and the new one like their deadlines. */
  lemma CompareOk(f: Flat, timers: seq<Timer>, lag: nat, u: nat, d: int)
    requires FlatOk(f, lag) && lag <= 1 && Agrees(timers, f) && u in f.list && f.now <= d < f.now + HALF
    ensures u < |timers|
    ensures Minus(timers[u].timeout, d % U32) == 0 <==> f.deadline[u] == d
    ensures Minus(timers[u].timeout, d % U32) < HALF <==> f.deadline[u] >= d
  {
    assert TimerOk(f, lag, u) && TimerAgrees(timers[u], f, u);
    WrapTestIsExact(f.deadline[u], d);
  }

  /** The test of the check: the head is due. */
  lemma DueTestOk(f: Flat, timers: seq<Timer>, u: nat)
    requires FlatOk(f, 1) && Agrees(timers, f) && u in f.list
    ensures u < |timers|
    ensures Minus(f.now % U32, timers[u].timeout) < HALF <==> f.deadline[u] <= f.now
  {
    assert TimerOk(f, 1, u) && TimerAgrees(timers[u], f, u);
    WrapTestIsExact(f.now, f.deadline[u]);
  }

  /** The place found in one row is a place to go on from in the row below. */
  lemma MoveDown(rows: seq<seq<nat>>, height: seq<int>, flat: seq<nat>, key: seq<int>, d: int, lvl: nat, k: nat,
                 below: seq<nat>, i: nat)
    requires RowsOk(rows, height, flat) && NoRepeats(flat) && Sorted(flat, key) && lvl + 1 < |rows|
    requires HeadAt(rows[lvl], key, d, k) && k > 0 && below == rows[lvl + 1] && i < |below|
      && below[i] == rows[lvl][k - 1]
    ensures forall j :: 0 <= j < i + 1 ==> At(key, below[j]) <= d
  {
    RowIsSubsequence(rows, height, flat, lvl + 1, key);
    hide RowsOk, NoRepeats;
    forall j | 0 <= j < i + 1 ensures At(key, below[j]) <= d {
      assert At(key, below[j]) <= At(key, below[i]);
    }
  }

  method IndexOf(row: seq<nat>, x: nat) returns (i: nat)
    requires x in row
    ensures i < |row| && row[i] == x
  {
    i := 0;
    while row[i] != x
      invariant i < |row| && x in row[i..]
      decreases |row| - i
    {
      i := i + 1;
    }
  }

  lemma UnlistedKeys(f: Flat, t: nat, d: int)
    requires FlatOk(f, 1) && |f.init| > t && t !in f.list
    ensures t < |f.deadline| && NoRepeats(f.list)
    ensures Sorted(f.list, f.deadline[t := d])
    ensures forall u :: u in f.list ==> u < |f.deadline| && f.deadline[t := d][u] == f.deadline[u]
  {
    forall u | u in f.list ensures u < |f.deadline| { assert TimerOk(f, 1, u); }
  }

  lemma Sizes(timers: seq<Timer>, f: Flat)
    requires Agrees(timers, f)
    ensures |timers| == |f.init| == |f.periodic| == |f.deadline|
  {
  }

  lemma MoreLag(f: Flat, lag: nat)
    requires FlatOk(f, lag) && lag <= 1
    ensures FlatOk(f, 1)
  {
    forall t | t in f.list ensures TimerOk(f, 1, t) { assert TimerOk(f, lag, t); }
  }

  lemma HeadsInRange(rows: seq<seq<nat>>, key: seq<int>, d: int, heads: seq<nat>)
    requires |rows| == |heads| && forall k :: 0 <= k < |rows| ==> HeadAt(rows[k], key, d, heads[k])
    ensures forall k :: 0 <= k < |rows| ==> heads[k] <= |rows[k]|
  {
  }

  /** Out of the rows and no longer activated: the timer is off the flat list. */
  lemma RemovedState(f: Flat, timers: seq<Timer>, rows: seq<seq<nat>>, rows': seq<seq<nat>>, height: seq<int>,
      lag: nat, t: nat)
    requires FlatOk(f, lag) && Agrees(timers, f) && RowsOk(rows, height, f.list) && t < |timers|
    requires |rows'| == |rows| && forall k :: 0 <= k < |rows| ==> rows'[k] == Without(rows[k], t)
    ensures FlatOk(StopFlat(f, t), lag) && t !in StopFlat(f, t).list
    ensures Agrees(timers[t := timers[t].(activated := false)], StopFlat(f, t))
    ensures RowsOk(rows', height, StopFlat(f, t).list)
    ensures t < |f.init| == |f.deadline| && timers[t].init == f.init[t] && timers[t].periodic == f.periodic[t]
  {
    StopFlatOk(f, lag, t);
    RowsWithout(rows, rows', height, f.list, t);
    assert TimerAgrees(timers[t], f, t);
    hide FlatOk, NoRepeats, Without, RowsOk;
    var timers' := timers[t := timers[t].(activated := false)];
    forall u | 0 <= u < |timers| ensures TimerAgrees(timers'[u], StopFlat(f, t), u) {
      assert TimerAgrees(timers[u], f, u);
    }
  }

  /** The timeout of a timer that is not listed does not matter. */
  lemma SetTimeout(f: Flat, timers: seq<Timer>, t: nat, v: int)
    requires Agrees(timers, f) && t < |timers| && t !in f.list
    ensures Agrees(timers[t := timers[t].(timeout := v)], f)
  {
    var timers' := timers[t := timers[t].(timeout := v)];
    forall u | 0 <= u < |timers| ensures TimerAgrees(timers'[u], f, u) {
      assert TimerAgrees(timers[u], f, u);
    }
  }

  lemma StartedState(f: Flat, timers: seq<Timer>, rows: seq<seq<nat>>, rows': seq<seq<nat>>, heads: seq<nat>,
                     height: seq<int>, lag: nat, t: nat, h: nat)
    requires FlatOk(f, lag) && lag <= 1 && t < |f.init| && f.init[t] < HALF
    requires Agrees(timers, StopFlat(f, t)) && timers[t].timeout == (f.now + f.init[t]) % U32
    requires RowsOk(rows, height, StopFlat(f, t).list) && |height| == |timers| && |heads| == |rows| == |rows'| && h >= 1
    requires forall k :: 0 <= k < |rows| ==>
      HeadAt(rows[k], f.deadline[t := f.now + f.init[t]], f.now + f.init[t], heads[k])
    requires forall k :: 0 <= k < |rows| ==> heads[k] <= |rows[k]|
    requires forall k :: 0 <= k < |rows| ==>
      rows'[k] == if |rows| - k <= h then InsertAfterHead(rows[k], heads[k], t) else rows[k]
    ensures FlatOk(StartFlat(f, t), lag)
    ensures Agrees(timers[t := timers[t].(activated := true)], StartFlat(f, t))
    ensures RowsOk(rows', height[t := h], StartFlat(f, t).list)
  {
    hide RowsOk, NoRepeats, Sorted, Insert, Without, HeadAt, InsertAfterHead, FlatOk, Agrees;
    StopFlatOk(f, lag, t);
    MoreLag(StopFlat(f, t), lag);
    Sizes(timers, StopFlat(f, t));
    UnlistedKeys(StopFlat(f, t), t, f.now + f.init[t]);
    RowsInsert(rows, rows', heads, height, Without(f.list, t), t, h, f.deadline[t := f.now + f.init[t]]);
    StartFlatOk(f, lag, t);
    StartedAgrees(f, timers, lag, t);
  }

  lemma StartedAgrees(f: Flat, timers: seq<Timer>, lag: nat, t: nat)
    requires FlatOk(f, lag) && lag <= 1 && t < |f.init| && f.init[t] < HALF
    requires Agrees(timers, StopFlat(f, t)) && timers[t].timeout == (f.now + f.init[t]) % U32
    ensures Agrees(timers[t := timers[t].(activated := true)], StartFlat(f, t))
  {
    StartFlatOk(f, lag, t);
    StopFlatOk(f, lag, t);
    hide NoRepeats, Sorted, Insert, Without;
    var g := StartFlat(f, t);
    var timers' := timers[t := timers[t].(activated := true)];
    forall u | 0 <= u < |timers| ensures TimerAgrees(timers'[u], g, u) {
      assert TimerAgrees(timers[u], StopFlat(f, t), u);
    }
  }

  lemma CheckFlatDone(f: Flat)
    requires FlatOk(f, 1) && DueOk(f) && !HeadDue(f)
    ensures CheckFlat(f) == (f, [])
  {
  }

  lemma CheckedOk(f: Flat, g: Flat, fired: seq<nat>)
    requires FlatOk(f, 1) && Checked(f, g, fired)
    ensures FlatOk(g, 0)
  {
  }

  lemma LaterAgrees(timers: seq<Timer>, f: Flat, now: nat)
    requires Agrees(timers, f)
    ensures Agrees(timers, f.(now := now))
  {
    forall t | 0 <= t < |timers| ensures TimerAgrees(timers[t], f.(now := now), t) {
      assert TimerAgrees(timers[t], f, t);
    }
  }

  lemma CheckFlatStep(f: Flat)
    requires FlatOk(f, 1) && DueOk(f) && f.list != []
    ensures HeadDue(f) ==>
      && FlatOk(FireFlat(f), 1) && DueOk(FireFlat(f))
      && CheckFlat(f) == (CheckFlat(FireFlat(f)).0, [f.list[0]] + CheckFlat(FireFlat(f)).1)
      && Due(FireFlat(f).list, FireFlat(f).deadline, FireFlat(f).now) < Due(f.list, f.deadline, f.now)
    ensures f.list[0] < |f.deadline| && (HeadDue(f) <==> f.deadline[f.list[0]] <= f.now)
  {
    HeadOk(f);
    if HeadDue(f) { FireFlatFacts(f); }
  }

  class TimerList {
    const levels: nat               // RT_TIMER_SKIP_LIST_LEVEL
    const mask: nat                 // RT_TIMER_SKIP_LIST_MASK
    var rows: seq<seq<nat>>
    var timers: seq<Timer>
    var tick: nat
    var randomNr: nat
    ghost var flat: Flat
    ghost var height: seq<int>

    ghost predicate State(lag: nat)
      reads this
    {
      && levels >= 1 && (mask == 1 || mask == 3) && |rows| == levels
      && FlatOk(flat, lag) && Agrees(timers, flat) && RowsOk(rows, height, flat.list) && |height| == |timers|
      && tick == flat.now % U32
    }

    ghost predicate Valid()
      reads this
    {
      State(0)
    }

    /** `_rt_timer_remove`: out of every row it is in. */
    method RemoveRows(t: nat)
      requires |rows| == levels
      modifies this`rows
      ensures |rows| == levels && forall k :: 0 <= k < levels ==> rows[k] == Without(old(rows)[k], t)
    {
      var i := 0;
      while i < levels
        invariant i <= levels == |rows|
        invariant forall k :: 0 <= k < levels ==> rows[k] == if k < i then Without(old(rows)[k], t) else old(rows)[k]
      {
        rows := rows[i := Without(rows[i], t)];
        i := i + 1;
      }
    }

    /** The search of rt_timer_start, row by row from the top; each row is entered where the one above was left. */
    method FindHeads(t: nat, ghost d: int) returns (heads: seq<nat>)
      requires State(1) && t < |timers| && t !in flat.list
      requires flat.now <= d < flat.now + HALF && timers[t].timeout == d % U32
      ensures |heads| == levels
      ensures forall k :: 0 <= k < levels ==> HeadAt(rows[k], flat.deadline[t := d], d, heads[k])
    {
      hide RowsOk, FlatOk, Agrees, NoRepeats, Sorted;
      heads := [];
      var lvl: nat, k: nat := 0, 0;
      Sizes(timers, flat);
      UnlistedKeys(flat, t, d);
      ghost var key := flat.deadline[t := d];
      while lvl < levels
        invariant lvl <= levels && |heads| == lvl
        invariant forall j :: 0 <= j < lvl ==> HeadAt(rows[j], key, d, heads[j])
        invariant lvl < levels ==> k <= |rows[lvl]| && forall j :: 0 <= j < k ==> At(key, rows[lvl][j]) <= d
      {
        RowIsSubsequence(rows, height, flat.list, lvl, key);
        RowMembers(rows, height, flat.list, lvl);
        while k < |rows[lvl]|
          invariant k <= |rows[lvl]| && forall j :: 0 <= j < k ==> At(key, rows[lvl][j]) <= d
        {
          var u := rows[lvl][k];
          assert u in rows[lvl];
          CompareOk(flat, timers, 1, u, d);
          if Minus(timers[u].timeout, timers[t].timeout) == 0 {
            k := k + 1;
            continue;
          } else if Minus(timers[u].timeout, timers[t].timeout) < HALF {
            break;
          }
          k := k + 1;
        }
        heads := heads + [k];
        if lvl != levels - 1 && k > 0 {
          assert rows[lvl][k - 1] in rows[lvl];
          var i := IndexOf(rows[lvl + 1], rows[lvl][k - 1]);
          MoveDown(rows, height, flat.list, key, d, lvl, k, rows[lvl + 1], i);
          k := i + 1;
        }
        lvl := lvl + 1;
      }
    }

    /** The insertion: always into the bottom row, and upwards for as long as the counter says so. */
    method PushRows(t: nat, heads: seq<nat>)
      requires |rows| == levels == |heads| && levels >= 1 && (mask == 1 || mask == 3)
      requires forall k :: 0 <= k < levels ==> heads[k] <= |rows[k]|
      modifies this`rows, this`randomNr
      ensures randomNr == (old(randomNr) + 1) % U32 && |rows| == levels
      ensures forall k :: 0 <= k < levels ==>
        rows[k] == if levels - k <= Height(randomNr, mask, levels) then InsertAfterHead(old(rows)[k], heads[k], t)
          else old(rows)[k]
    {
      randomNr := (randomNr + 1) % U32;
      var tst: nat := randomNr;
      rows := rows[levels - 1 := InsertAfterHead(rows[levels - 1], heads[levels - 1], t)];
      var rowLvl := 2;
      while rowLvl <= levels
        invariant 2 <= rowLvl <= levels + 1 && |rows| == levels
        invariant randomNr == (old(randomNr) + 1) % U32
        invariant Height(randomNr, mask, levels) == rowLvl - 2 + Height(tst, mask, levels + 2 - rowLvl)
        invariant forall k :: 0 <= k < levels ==>
          rows[k] == if levels - k < rowLvl then InsertAfterHead(old(rows)[k], heads[k], t) else old(rows)[k]
      {
        if tst % (mask + 1) != 0 {
          break;
        }
        var k := levels - rowLvl;
        rows := rows[k := InsertAfterHead(rows[k], heads[k], t)];
        tst := tst / (mask + 1);
        rowLvl := rowLvl + 1;
      }
    }

    /** rt_timer_start. */
    method Start(t: nat, ghost lag: nat)
      requires State(lag) && lag <= 1 && t < |timers| && timers[t].init < HALF
      modifies this
      ensures State(lag) && t < |old(flat).init| == |old(flat).deadline| && flat == StartFlat(old(flat), t)
      ensures randomNr == (old(randomNr) + 1) % U32 && height == old(height)[t := Height(randomNr, mask, levels)]
      ensures |timers| == |old(timers)|
    {
      hide RowsOk, FlatOk, Agrees, NoRepeats, Sorted, Insert, Without, HeadAt, InsertAfterHead;
      Sizes(timers, flat);
      ghost var f, rows0 := flat, rows;
      RemoveRows(t);
      timers := timers[t := timers[t].(activated := false)];
      RemovedState(f, old(timers), rows0, rows, height, lag, t);
      ghost var d := f.now + f.init[t];
      timers := timers[t := timers[t].(timeout := (tick + timers[t].init) % U32)];
      SetTimeout(StopFlat(f, t), old(timers)[t := old(timers)[t].(activated := false)], t, d % U32);
      flat := StopFlat(f, t);
      MoreLag(flat, lag);
      assert timers[t].timeout == d % U32;
      var heads := FindHeads(t, d);
      ghost var rows1 := rows;
      HeadsInRange(rows, f.deadline[t := d], d, heads);
      PushRows(t, heads);
      HeightBounds(randomNr, mask, levels);
      ghost var h := Height(randomNr, mask, levels);
      StartedState(f, timers, rows1, rows, heads, height, lag, t, h);
      timers := timers[t := timers[t].(activated := true)];
      flat := StartFlat(f, t);
      height := height[t := h];
    }

    /** The timers are set up and off; time is `now`. */
    constructor (levels: nat, mask: nat, init: seq<nat>, periodic: seq<bool>, now: nat)
      requires levels >= 1 && (mask == 1 || mask == 3) && |init| == |periodic|
      ensures Valid() && this.levels == levels && flat.now == now && flat.list == [] && flat.init == init
        && flat.periodic == periodic
    {
      this.levels, this.mask := levels, mask;
      rows := seq(levels, _ => []);
      timers := seq(|init|, i requires 0 <= i < |init| => Timer(init[i], 0, false, periodic[i]));
      tick, randomNr := now % U32, 0;
      height := seq(|init|, _ => 1);
      flat := Flat(now, [], seq(|init|, _ => 0), init, periodic);
    }

    /** rt_timer_stop. */
    method Stop(t: nat) returns (ok: bool)
      requires Valid() && t < |timers|
      modifies this
      ensures Valid() && (ok <==> t in old(flat).list)
      ensures flat == if ok then StopFlat(old(flat), t) else old(flat)
    {
      hide RowsOk, FlatOk, NoRepeats, Sorted, Insert, Without;
      Sizes(timers, flat);
      assert TimerAgrees(timers[t], flat, t);
      if !timers[t].activated {
        return false;
      }
      ghost var f, rows0 := flat, rows;
      RemoveRows(t);
      RemovedState(f, timers, rows0, rows, height, 0, t);
      timers := timers[t := timers[t].(activated := false)];
      flat := StopFlat(f, t);
      ok := true;
    }

    /** rt_timer_check, for timeout functions that leave the timers alone.  `fired` are the timers whose
        timeout functions were called, in this order. */
    method Check() returns (fired: seq<nat>)
      requires State(1) && DueOk(flat)
      modifies this
      ensures State(0) && FlatOk(old(flat), 1) && DueOk(old(flat)) && (flat, fired) == CheckFlat(old(flat))
        && Checked(old(flat), flat, fired)
      ensures forall u :: u in fired <==> u in old(flat).list && old(flat).deadline[u] <= old(flat).now
    {
      hide RowsOk, FlatOk, Agrees, NoRepeats, Sorted, Insert, Without, Checked, CheckFlat, Due, DueOk;
      fired := [];
      ghost var f := flat;
      CheckFlatFacts(f);
      var currentTick := tick;
      BottomRow(rows, height, flat.list);
      while rows[levels - 1] != []
        invariant State(1) && DueOk(flat) && currentTick == tick && rows[levels - 1] == flat.list
        invariant CheckFlat(f).0 == CheckFlat(flat).0 && CheckFlat(f).1 == fired + CheckFlat(flat).1
        decreases Due(flat.list, flat.deadline, flat.now)
      {
        var t := rows[levels - 1][0];
        assert t in flat.list;
        DueTestOk(flat, timers, t);
        CheckFlatStep(flat);
        if Minus(currentTick, timers[t].timeout) >= HALF {
          break;
        }
        FireOne(t);
        assert fired + ([t] + CheckFlat(flat).1) == fired + [t] + CheckFlat(flat).1;
        fired := fired + [t];
        currentTick := tick;
        BottomRow(rows, height, flat.list);
      }
      CheckFlatDone(flat);
      assert fired + [] == fired;
      CheckedOk(f, flat, fired);
    }

    /** One turn of the loop of the check: off the list, timeout function, and on again if it is periodic. */
    method FireOne(t: nat)
      requires State(1) && HeadDue(flat) && t == flat.list[0]
      modifies this
      ensures State(1) && flat == FireFlat(old(flat)) && tick == old(tick)
    {
      hide RowsOk, FlatOk, NoRepeats, Sorted, Insert, Without;
      FireFlatIs(flat);
      StopTimer(flat);
      ghost var f, rows0 := flat, rows;
      RemoveRows(t);
      RemovedState(f, timers, rows0, rows, height, 1, t);
      var again := timers[t].periodic && timers[t].activated;
      timers := timers[t := timers[t].(activated := false)];
      flat := StopFlat(f, t);
      if again {
        Start(t, 1);
      }
    }

    /** rt_tick_increase, as far as the timers are concerned. */
    method TickIncrease() returns (fired: seq<nat>)
      requires Valid() && EventOk(flat, Tick)
      modifies this
      ensures Valid() && FlatOk(old(flat), 0) && EventOk(old(flat), Tick) && (flat, fired) == Step(old(flat), Tick)
    {
      hide RowsOk, Agrees, NoRepeats, Sorted, Insert, Without, Checked, CheckFlat, Due;
      TickDue(flat);
      LaterAgrees(timers, flat, flat.now + 1);
      tick := (tick + 1) % U32;
      flat := flat.(now := flat.now + 1);
      fired := Check();
    }
  }
}
