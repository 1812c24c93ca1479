/** Timeout functions that start and stop timers themselves (timer.c): one turn of the loop of rt_timer_check with any
    sequence of such calls in it. */
module TimerCallbacks {
  import opened Sequences
  import opened Timers

  /** What a timeout function does to the timers. */
  datatype Act = StartIt(u: nat) | StopIt(u: nat)

  /** The flat list, and the timers whose ACTIVATED flag is set. */
  datatype Live = Live(flat: Flat, active: set<nat>)

  ghost predicate ActOk(f: Flat, a: Act) {
    a.StartIt? ==> a.u < |f.init| && f.init[a.u] < HALF
  }

  /** rt_timer_stop refuses a timer whose flag is clear. */
  ghost function Do(s: Live, a: Act): Live {
    match a
    case StartIt(u) =>
      if u < |s.flat.deadline| && u < |s.flat.init| then Live(StartFlat(s.flat, u), s.active + {u}) else s
    case StopIt(u) => if u in s.active then Live(StopFlat(s.flat, u), s.active - {u}) else s
  }

  ghost function DoAll(s: Live, acts: seq<Act>): Live {
    if acts == [] then s else Do(DoAll(s, acts[..|acts| - 1]), acts[|acts| - 1])
  }

  /** One turn: the first timer leaves the list, its timeout function runs, and if it is periodic and its flag is
      still set it is started again; if not, the flag is cleared. */
  ghost function FireAnd(s: Live, acts: seq<Act>): Live
    requires s.flat.list != []
  {
    var t := s.flat.list[0];
    var s1 := DoAll(s.(flat := StopFlat(s.flat, t)), acts);
    if At2(s1.flat.periodic, t) && t in s1.active then Do(s1.(active := s1.active - {t}), StartIt(t))
    else s1.(active := s1.active - {t})
  }

  function At2(s: seq<bool>, t: nat): bool {
    t < |s| && s[t]
  }

  /** Listed with the flag clear: it will fire, but rt_timer_stop refuses it. */
  ghost predicate Stray(s: Live, u: nat) {
    u in s.flat.list && u !in s.active
  }

  /** The list is in order, every timer with the flag is listed, and strays are one-shot timers. */
  ghost predicate LiveOk(s: Live) {
    && FlatOk(s.flat, 1) && (forall u :: u in s.active ==> u in s.flat.list)
    && (forall u :: Stray(s, u) ==> !At2(s.flat.periodic, u))
  }

  /** The last thing the timeout function does to timer `t` is to start it. */
  predicate StartedLast(acts: seq<Act>, t: nat) {
    acts != [] &&
    var a := acts[|acts| - 1];
    if a.u == t then a.StartIt? else StartedLast(acts[..|acts| - 1], t)
  }

  ghost predicate ActsOk(f: Flat, acts: seq<Act>) {
    forall i :: 0 <= i < |acts| ==> ActOk(f, acts[i])
  }

  /** In the middle of the turn of timer `t`, whose flag was set if `was`, after the acts `acts`. */
  ghost predicate During(s: Live, t: nat, was: bool, acts: seq<Act>, r: Live) {
    && FlatOk(r.flat, 1) && r.flat.now == s.flat.now && r.flat.init == s.flat.init && r.flat.periodic == s.flat.periodic
    && (forall u :: u in r.active && u != t ==> u in r.flat.list)
    && (forall u :: u != t ==> (Stray(r, u) <==> Stray(s, u) && StartIt(u) !in acts))
    && (t in r.flat.list <==> StartedLast(acts, t))
    && (t in r.active <==> StartedLast(acts, t) || (was && StartIt(t) !in acts && StopIt(t) !in acts))
  }

  lemma {:induction false} ActsDo(s: Live, t: nat, acts: seq<Act>)
    requires LiveOk(s) && t in s.flat.list && ActsOk(s.flat, acts)
    ensures During(s, t, t in s.active, acts, DoAll(s.(flat := StopFlat(s.flat, t)), acts))
    decreases |acts|
  {
    var s0 := s.(flat := StopFlat(s.flat, t));
    if acts == [] {
      StopFlatOk(s.flat, 1, t);
    } else {
      var a, before := acts[|acts| - 1], acts[..|acts| - 1];
      ActsDo(s, t, before);
      assert acts == before + [a];
      ActDoes(s, t, t in s.active, before, DoAll(s0, before), a);
    }
  }

  lemma ActDoes(s: Live, t: nat, was: bool, acts: seq<Act>, r: Live, a: Act)
    requires During(s, t, was, acts, r) && ActOk(s.flat, a)
    ensures During(s, t, was, acts + [a], Do(r, a))
  {
    assert (acts + [a])[..|acts|] == acts;
    assert forall b :: b in acts + [a] <==> b in acts || b == a;
    hide Sorted, NoRepeats, Without, Insert;
    match a
    case StartIt(u) => StartFlatOk(r.flat, 1, u);
    case StopIt(u) => StopFlatOk(r.flat, 1, u);
  }

  /** After the turn of timer `t` it is a stray exactly if it is a one-shot timer and its timeout function, as the last
      thing it did to it, started it again; any other timer is one exactly if it was before and was not started. */
  lemma StraysAfterTurn(s: Live, acts: seq<Act>)
    requires LiveOk(s) && s.flat.list != [] && ActsOk(s.flat, acts)
    ensures var t, r := s.flat.list[0], FireAnd(s, acts);
      && LiveOk(r)
      && (Stray(r, t) <==> !At2(s.flat.periodic, t) && StartedLast(acts, t))
      && (forall u :: u != t ==> (Stray(r, u) <==> Stray(s, u) && StartIt(u) !in acts))
  {
    var t := s.flat.list[0];
    assert t in s.flat.list && TimerOk(s.flat, 1, t);
    ActsDo(s, t, acts);
    var s1 := DoAll(s.(flat := StopFlat(s.flat, t)), acts);
    if At2(s1.flat.periodic, t) && t in s1.active {
      StartFlatOk(s1.flat, 1, t);
    }
    hide Sorted, NoRepeats, Without, Insert;
  }

  /** A stray cannot be stopped. */
  lemma StrayStays(s: Live, u: nat)
    requires Stray(s, u)
    ensures Do(s, StopIt(u)) == s && Stray(Do(s, StopIt(u)), u)
  {
  }

  /** Without strays, a timeout function that leaves the timers alone makes the turn that of the flat model. */
  lemma InertTurn(s: Live)
    requires LiveOk(s) && s.flat.list != [] && s.flat.list[0] in s.active
    ensures FireAnd(s, []).flat == FireFlat(s.flat)
  {
    var t := s.flat.list[0];
    assert TimerOk(s.flat, 1, t);
  }

  /** A one-shot timer of 5 ticks that its own timeout function starts again. */
  lemma StrayExample()
    ensures var s := Live(Flat(7, [0], [7], [5], [false]), {0});
      LiveOk(s) && HeadDue(s.flat) && Stray(FireAnd(s, [StartIt(0)]), 0)
  {
    var s := Live(Flat(7, [0], [7], [5], [false]), {0});
    assert TimerOk(s.flat, 1, 0);
    assert [StartIt(0)][..0] == [];
    StraysAfterTurn(s, [StartIt(0)]);
  }
}
