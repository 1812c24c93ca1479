/** Time slices: what ticks alone do to the ready queue of the running priority (clock.c, thread.c). */
module RoundRobin {

  /** A ready queue, the ticks each thread has left, and the ticks each thread gets. */
  datatype Turn = Turn(queue: seq<nat>, left: seq<nat>, slice: seq<nat>)

  ghost predicate TurnOk(s: Turn) {
    && s.queue != [] && |s.left| == |s.slice|
    && (forall i, j :: 0 <= i < j < |s.queue| ==> s.queue[i] != s.queue[j])
    && (forall i :: 0 <= i < |s.queue| ==>
        s.queue[i] < |s.left| && s.left[s.queue[i]] > 0 && s.slice[s.queue[i]] > 0)
  }

  function Rotate(q: seq<nat>, j: nat): seq<nat>
    requires j <= |q|
  {
    q[j..] + q[..j]
  }

  /** One tick charged to the head of the queue; at the end of its slice it goes to the back. */
  function TickTurn(s: Turn): Turn
    requires s.queue != [] && s.queue[0] < |s.left| == |s.slice|
  {
    var h := s.queue[0];
    if s.left[h] == 1 then s.(queue := Rotate(s.queue, 1), left := s.left[h := s.slice[h]])
    else if s.left[h] > 0 then s.(left := s.left[h := s.left[h] - 1])
    else s
  }

  lemma TickTurnOk(s: Turn)
    requires TurnOk(s)
    ensures TurnOk(TickTurn(s)) && |TickTurn(s).queue| == |s.queue|
  {
    var q := s.queue;
    var r := Rotate(q, 1);
    forall i, j | 0 <= i < j < |q| ensures r[i] != r[j] {
      assert r[i] == q[i + 1];
      assert j + 1 < |q| ==> r[j] == q[j + 1];
    }
  }

  ghost function Ticks(s: Turn, n: nat): (r: Turn)
    requires TurnOk(s)
    ensures TurnOk(r)
  {
    if n == 0 then s else TickTurnOk(Ticks(s, n - 1)); TickTurn(Ticks(s, n - 1))
  }

  lemma {:induction false} TicksAdd(s: Turn, m: nat, n: nat)
    requires TurnOk(s)
    ensures Ticks(s, m + n) == Ticks(Ticks(s, m), n)
  {
    hide TickTurn, TurnOk;
    if n > 0 {
      TicksAdd(s, m, n - 1);
      assert m + n - 1 == m + (n - 1);
    }
  }

  /** The ticks left to the first `j` threads together. */
  ghost function Sum(s: Turn, j: nat): nat
    requires j <= |s.queue| && forall i :: 0 <= i < |s.queue| ==> s.queue[i] < |s.left|
  {
    if j == 0 then 0 else Sum(s, j - 1) + s.left[s.queue[j - 1]]
  }

  /** The first `j` threads have a fresh slice each, the others what they had. */
  ghost predicate Served(s: Turn, r: Turn, j: nat)
    requires TurnOk(s) && j <= |s.queue|
  {
    && r.slice == s.slice && |r.left| == |s.left| && r.queue == Rotate(s.queue, j)
    && (forall i :: 0 <= i < j ==> r.left[s.queue[i]] == s.slice[s.queue[i]])
    && (forall i :: j <= i < |s.queue| ==> r.left[s.queue[i]] == s.left[s.queue[i]])
  }

  /** Within a slice nothing moves. */
  lemma {:induction false} WithinSlice(s: Turn, n: nat)
    requires TurnOk(s) && n < s.left[s.queue[0]]
    ensures Ticks(s, n) == s.(left := s.left[s.queue[0] := s.left[s.queue[0]] - n])
  {
    if n > 0 {
      WithinSlice(s, n - 1);
    } else {
      assert s.left[s.queue[0] := s.left[s.queue[0]]] == s.left;
    }
  }

  lemma {:induction false} WholeSlice(s: Turn)
    requires TurnOk(s)
    ensures Ticks(s, s.left[s.queue[0]]) ==
      s.(queue := Rotate(s.queue, 1), left := s.left[s.queue[0] := s.slice[s.queue[0]]])
  {
    WithinSlice(s, s.left[s.queue[0]] - 1);
  }

  lemma RotateMore(q: seq<nat>, j: nat)
    requires j < |q|
    ensures Rotate(Rotate(q, j), 1) == Rotate(q, j + 1) && Rotate(q, j)[0] == q[j]
  {
  }

  lemma OneMoreServed(s: Turn, r: Turn, j: nat)
    requires TurnOk(s) && j < |s.queue| && Served(s, r, j)
    ensures r.queue != [] && r.queue[0] == s.queue[j] && r.left[s.queue[j]] == s.left[s.queue[j]]
    ensures Served(s, r.(queue := Rotate(r.queue, 1), left := r.left[s.queue[j] := s.slice[s.queue[j]]]), j + 1)
  {
    RotateMore(s.queue, j);
  }

  /** After exactly the ticks left to the first `j` threads the queue is rotated `j` times. */
  lemma {:induction false} AfterTurns(s: Turn, j: nat)
    requires TurnOk(s) && j <= |s.queue|
    ensures Served(s, Ticks(s, Sum(s, j)), j)
  {
    hide Ticks, TickTurn;
    if j == 0 {
      NoTicks(s);
      assert Rotate(s.queue, 0) == s.queue;
    } else {
      AfterTurns(s, j - 1);
      var r := Ticks(s, Sum(s, j - 1));
      OneMoreServed(s, r, j - 1);
      hide Served, TurnOk;
      WholeSlice(r);
      TicksAdd(s, Sum(s, j - 1), s.left[s.queue[j - 1]]);
    }
  }

  lemma NoTicks(s: Turn)
    requires TurnOk(s)
    ensures Ticks(s, 0) == s
  {
  }

  lemma NextTick(s: Turn, n: nat)
    requires TurnOk(s)
    ensures Ticks(s, n).queue != [] && Ticks(s, n).queue[0] < |Ticks(s, n).left| == |Ticks(s, n).slice|
    ensures Ticks(s, n + 1) == TickTurn(Ticks(s, n))
  {
  }

  /** The round-robin bound: during the ticks left to thread `j`, counted after those of the threads before it,
      exactly thread `j` heads the queue; so it first runs after the sum of what those before it had left. */
  lemma RoundRobinBound(s: Turn, j: nat, n: nat)
    requires TurnOk(s) && j < |s.queue| && Sum(s, j) <= n < Sum(s, j + 1)
    ensures Ticks(s, n).queue == Rotate(s.queue, j) && Ticks(s, n).queue[0] == s.queue[j]
  {
    hide Ticks, TickTurn;
    AfterTurns(s, j);
    RotateMore(s.queue, j);
    var r := Ticks(s, Sum(s, j));
    OneMoreServed(s, r, j);
    hide TurnOk;
    WithinSlice(r, n - Sum(s, j));
    TicksAdd(s, Sum(s, j), n - Sum(s, j));
  }

  lemma HeadByWindow(s: Turn, n: nat)
    requires TurnOk(s)
    ensures forall j: nat :: j < |s.queue| && Sum(s, j) <= n < Sum(s, j + 1) ==> Ticks(s, n).queue[0] == s.queue[j]
  {
    hide Ticks;
    forall j: nat | j < |s.queue| && Sum(s, j) <= n < Sum(s, j + 1) ensures Ticks(s, n).queue[0] == s.queue[j] {
      RoundRobinBound(s, j, n);
    }
  }

  /** ... and not before. */
  lemma {:induction false} NotBeforeItsTurn(s: Turn, j: nat, n: nat)
    requires TurnOk(s) && j < |s.queue| && n < Sum(s, j)
    ensures Ticks(s, n).queue[0] != s.queue[j]
  {
    var i := j - 1;
    while n < Sum(s, i)
      invariant 0 <= i < j && n < Sum(s, i + 1)
    {
      i := i - 1;
    }
    RoundRobinBound(s, i, n);
  }
}
