/** The list of threads suspended on an IPC object (ipc.c). */
module WaitLists {
  import opened Sequences

  datatype Flag = Fifo | Prio

  /** `prio` gives the current priority of every thread; smaller is more urgent. */
  function Enqueue(flag: Flag, list: seq<nat>, t: nat, prio: seq<int>): seq<nat> {
    if flag == Fifo then list + [t] else Insert(list, t, prio)
  }

  /** The search of rt_ipc_list_suspend. */
  method SuspendOn(flag: Flag, list: seq<nat>, t: nat, prio: seq<int>) returns (r: seq<nat>)
    ensures r == Enqueue(flag, list, t, prio)
  {
    if flag == Fifo {
      return list + [t];
    }
    var n := 0;
    while n < |list|
      invariant 0 <= n <= |list| && forall j :: 0 <= j < n ==> At(prio, list[j]) <= At(prio, t)
    {
      if At(prio, t) < At(prio, list[n]) {
        InsertAt(list, t, prio, n);
        return list[..n] + [t] + list[n..];
      }
      n := n + 1;
    }
    InsertAt(list, t, prio, n);
    r := list + [t];
  }

  /** `a` is served before `b`. */
  ghost predicate Before(list: seq<nat>, a: nat, b: nat) {
    exists i, j :: 0 <= i < j < |list| && list[i] == a && list[j] == b
  }

  lemma EnqueueMembers(flag: Flag, list: seq<nat>, t: nat, prio: seq<int>)
    ensures forall x :: x in Enqueue(flag, list, t, prio) <==> x == t || x in list
    ensures NoRepeats(list) && t !in list ==> NoRepeats(Enqueue(flag, list, t, prio))
    ensures |Enqueue(flag, list, t, prio)| == |list| + 1
  {
    AppendedList(list, t);
    InsertMembers(list, t, prio);
  }

  /** Whoever waits keeps his place before others who wait. */
  lemma {:induction false} InsertKeepsOrder(list: seq<nat>, t: nat, prio: seq<int>, i: nat, j: nat)
    requires i < j < |list|
    ensures Before(Insert(list, t, prio), list[i], list[j])
  {
    var r := Insert(list, t, prio);
    if list == [] || At(prio, list[0]) > At(prio, t) {
      assert r[i + 1] == list[i] && r[j + 1] == list[j];
    } else if i > 0 {
      var s := Insert(list[1..], t, prio);
      InsertKeepsOrder(list[1..], t, prio, i - 1, j - 1);
      var k, l :| 0 <= k < l < |s| && s[k] == list[i] && s[l] == list[j];
      assert r[k + 1] == list[i] && r[l + 1] == list[j];
    } else {
      InsertMembers(list[1..], t, prio);
      assert list[1..][j - 1] in list[1..];
      var s := Insert(list[1..], t, prio);
      var l :| 0 <= l < |s| && s[l] == list[j];
      assert r[0] == list[i] && r[l + 1] == list[j];
    }
  }

  lemma EnqueueKeepsOrder(flag: Flag, list: seq<nat>, t: nat, prio: seq<int>, a: nat, b: nat)
    requires Before(list, a, b)
    ensures Before(Enqueue(flag, list, t, prio), a, b)
  {
    var i, j :| 0 <= i < j < |list| && list[i] == a && list[j] == b;
    if flag == Fifo {
      assert (list + [t])[i] == a && (list + [t])[j] == b;
    } else {
      InsertKeepsOrder(list, t, prio, i, j);
    }
  }

  /** A newcomer on a FIFO object is served after everyone who waits already. */
  lemma FifoComesLast(list: seq<nat>, t: nat, prio: seq<int>, a: nat)
    requires a in list
    ensures Before(Enqueue(Fifo, list, t, prio), a, t)
  {
    var i :| 0 <= i < |list| && list[i] == a;
    var r := list + [t];
    assert r[i] == a && r[|list|] == t;
  }

  /** A newcomer on a PRIO object is served before exactly those who are strictly less urgent. */
  lemma PrioComesByUrgency(list: seq<nat>, t: nat, prio: seq<int>, a: nat)
    requires Sorted(list, prio) && NoRepeats(list) && a in list && t !in list
    ensures Before(Enqueue(Prio, list, t, prio), a, t) <==> At(prio, a) <= At(prio, t)
    ensures Before(Enqueue(Prio, list, t, prio), t, a) <==> At(prio, a) > At(prio, t)
  {
    var r := Insert(list, t, prio);
    InsertMembers(list, t, prio);
    var i :| 0 <= i < |list| && list[i] == a;
    var k :| 0 <= k < |r| && r[k] == t;
    InsertIsStable(list, t, prio, i, k);
    var l := if i < k then i else i + 1;
    assert r[l] == a;
    assert Before(r, a, t) ==> !Before(r, t, a);
  }

  lemma WithoutKeepsOrder(list: seq<nat>, t: nat, a: nat, b: nat)
    requires Before(list, a, b) && t != a && t != b
    ensures Before(Without(list, t), a, b)
  {
    var i, j :| 0 <= i < j < |list| && list[i] == a && list[j] == b;
    if t in list {
      var k := FirstAt(list, t);
      WithoutAt(list, k, t);
      DropKeepsOrder(list, k, i, j);
    } else {
      WithoutAbsent(list, t);
    }
  }

  lemma DropKeepsOrder(list: seq<nat>, k: nat, i: nat, j: nat)
    requires k < |list| && i < j < |list| && i != k && j != k
    ensures Before(list[..k] + list[k + 1..], list[i], list[j])
  {
    var r := list[..k] + list[k + 1..];
    var i', j' := if i < k then i else i - 1, if j < k then j else j - 1;
    assert 0 <= i' < j' < |r| && r[i'] == list[i] && r[j'] == list[j];
  }

  // --------------------------------------------------- the best claim

  /** `a` has a better claim than `b`: it came first or, on a PRIO object, it is more urgent, or as urgent
      and came first. */
  ghost predicate Ahead(flag: Flag, arrived: seq<nat>, prio: seq<int>, a: nat, b: nat) {
    if flag == Fifo then Before(arrived, a, b)
    else At(prio, a) < At(prio, b) || (At(prio, a) == At(prio, b) && Before(arrived, a, b))
  }

  /** The wait list holds exactly those who arrived, in the order of their claims. */
  ghost predicate Ranked(waiters: seq<nat>, flag: Flag, arrived: seq<nat>, prio: seq<int>) {
    && NoRepeats(waiters) && NoRepeats(arrived) && (forall t :: t in waiters <==> t in arrived)
    && (flag == Prio ==> Sorted(waiters, prio))
    && (forall a, b :: a in arrived && b in arrived && a != b && Ahead(flag, arrived, prio, a, b) ==>
        Before(waiters, a, b))
  }

  lemma SomeoneWaits(waiters: seq<nat>, flag: Flag, arrived: seq<nat>, prio: seq<int>)
    requires Ranked(waiters, flag, arrived, prio) && arrived != []
    ensures waiters != []
  {
    assert arrived[0] in arrived;
  }

  lemma BeforeEither(list: seq<nat>, a: nat, b: nat)
    requires a in list && b in list && a != b
    ensures Before(list, a, b) || Before(list, b, a)
  {
    var i :| 0 <= i < |list| && list[i] == a;
    var j :| 0 <= j < |list| && list[j] == b;
    assert i < j ==> Before(list, a, b);
    assert j < i ==> Before(list, b, a);
  }

  lemma NotBoth(list: seq<nat>, a: nat, b: nat)
    requires NoRepeats(list) && Before(list, a, b)
    ensures !Before(list, b, a) && a != b && a in list && b in list && list[0] != b
  {
    var i, j :| 0 <= i < j < |list| && list[i] == a && list[j] == b;
  }

  /** Appending does not put anyone old behind. */
  lemma AppendedBefore(list: seq<nat>, t: nat, a: nat, b: nat)
    requires NoRepeats(list + [t]) && Before(list + [t], a, b)
    ensures (b == t && a in list) || Before(list, a, b)
  {
    var s := list + [t];
    var i, j :| 0 <= i < j < |s| && s[i] == a && s[j] == b;
    assert i < |list| && list[i] == a;
    if j < |list| { assert list[j] == b; }
  }

  lemma RankedArrival(waiters: seq<nat>, flag: Flag, arrived: seq<nat>, prio: seq<int>, t: nat)
    requires Ranked(waiters, flag, arrived, prio) && t !in arrived
    ensures Ranked(Enqueue(flag, waiters, t, prio), flag, arrived + [t], prio)
  {
    EnqueueMembers(flag, waiters, t, prio);
    AppendedList(arrived, t);
    if flag == Prio { InsertSorted(waiters, t, prio); }
    var w, s := Enqueue(flag, waiters, t, prio), arrived + [t];
    forall a, b | a in s && b in s && a != b && Ahead(flag, s, prio, a, b) ensures Before(w, a, b) {
      ClaimOfArrival(waiters, flag, arrived, prio, t, a, b);
    }
  }

  lemma ClaimOfArrival(waiters: seq<nat>, flag: Flag, arrived: seq<nat>, prio: seq<int>, t: nat, a: nat, b: nat)
    requires Ranked(waiters, flag, arrived, prio) && t !in arrived && NoRepeats(arrived + [t])
    requires a in arrived + [t] && b in arrived + [t] && a != b && Ahead(flag, arrived + [t], prio, a, b)
    ensures Before(Enqueue(flag, waiters, t, prio), a, b)
  {
    if Before(arrived + [t], a, b) { AppendedBefore(arrived, t, a, b); }
    if a == t {
      assert !Before(arrived, a, b);
      PrioComesByUrgency(waiters, t, prio, b);
    } else if b == t {
      if flag == Fifo { FifoComesLast(waiters, t, prio, a); } else { PrioComesByUrgency(waiters, t, prio, a); }
    } else {
      assert Ahead(flag, arrived, prio, a, b);
      EnqueueKeepsOrder(flag, waiters, t, prio, a, b);
    }
  }

  lemma RankedLeave(waiters: seq<nat>, flag: Flag, arrived: seq<nat>, prio: seq<int>, t: nat)
    requires Ranked(waiters, flag, arrived, prio)
    ensures Ranked(Without(waiters, t), flag, Without(arrived, t), prio)
  {
    WithoutFacts(waiters, t);
    WithoutFacts(arrived, t);
    if flag == Prio { WithoutSorted(waiters, t, prio); }
    var w, s := Without(waiters, t), Without(arrived, t);
    forall a, b | a in s && b in s && a != b && Ahead(flag, s, prio, a, b) ensures Before(w, a, b) {
      if Before(s, a, b) && !Before(arrived, a, b) {
        BeforeEither(arrived, a, b);
        WithoutKeepsOrder(arrived, t, b, a);
        NotBoth(s, a, b);
      }
      assert Ahead(flag, arrived, prio, a, b);
      WithoutKeepsOrder(waiters, t, a, b);
    }
  }

  /** Of those who arrived, the one to serve next: the first or, on a PRIO object, the first of the most urgent. */
  ghost function NextInLine(flag: Flag, arrived: seq<nat>, prio: seq<int>): nat
    requires arrived != []
  {
    if flag == Fifo || |arrived| == 1 then arrived[0]
    else
      var b := NextInLine(flag, arrived[1..], prio);
      if At(prio, arrived[0]) <= At(prio, b) then arrived[0] else b
  }

  lemma {:induction false} NextIsAhead(flag: Flag, arrived: seq<nat>, prio: seq<int>)
    requires arrived != [] && NoRepeats(arrived)
    ensures var n := NextInLine(flag, arrived, prio);
      n in arrived && forall b :: b in arrived && b != n ==> Ahead(flag, arrived, prio, n, b)
    decreases |arrived|
  {
    var n := NextInLine(flag, arrived, prio);
    if flag == Prio && |arrived| > 1 {
      HeadGone(arrived);
      NextIsAhead(flag, arrived[1..], prio);
      forall b | b in arrived && b != n ensures Ahead(flag, arrived, prio, n, b) {
        AheadOfTail(arrived, prio, n, b);
      }
    } else {
      forall b | b in arrived && b != n ensures Before(arrived, n, b) {
        var j :| 0 <= j < |arrived| && arrived[j] == b;
        assert arrived[0] == n && 0 < j;
      }
    }
  }

  lemma AheadOfTail(arrived: seq<nat>, prio: seq<int>, n: nat, b: nat)
    requires |arrived| > 1 && NoRepeats(arrived) && n in arrived && b in arrived && b != n
    requires n == NextInLine(Prio, arrived, prio)
    requires forall x :: x in arrived[1..] && x != NextInLine(Prio, arrived[1..], prio) ==>
      Ahead(Prio, arrived[1..], prio, NextInLine(Prio, arrived[1..], prio), x)
    requires NextInLine(Prio, arrived[1..], prio) in arrived[1..]
    ensures Ahead(Prio, arrived, prio, n, b)
  {
    var tail := arrived[1..];
    var m := NextInLine(Prio, tail, prio);
    if n == arrived[0] {
      var j :| 0 <= j < |arrived| && arrived[j] == b;
      assert 0 < j && tail[j - 1] == b && b in tail;
      assert Before(arrived, n, b);
    } else if b != arrived[0] {
      assert b in tail;
      if Before(tail, n, b) {
        var i, j :| 0 <= i < j < |tail| && tail[i] == n && tail[j] == b;
        assert arrived[i + 1] == n && arrived[j + 1] == b;
      }
    }
  }

  /** The head of a ranked wait list is the next in line. */
  lemma HeadIsNext(waiters: seq<nat>, flag: Flag, arrived: seq<nat>, prio: seq<int>)
    requires Ranked(waiters, flag, arrived, prio) && waiters != []
    ensures arrived != [] && waiters[0] == NextInLine(flag, arrived, prio)
  {
    assert waiters[0] in waiters;
    NextIsAhead(flag, arrived, prio);
    var n := NextInLine(flag, arrived, prio);
    if n != waiters[0] {
      HeadHasBestClaim(waiters, flag, arrived, prio, n);
    }
  }

  /** Serving the head of a ranked wait list is serving the next in line. */
  lemma RankedServe(waiters: seq<nat>, flag: Flag, arrived: seq<nat>, prio: seq<int>)
    requires Ranked(waiters, flag, arrived, prio) && waiters != []
    ensures arrived != [] && waiters[0] == NextInLine(flag, arrived, prio)
    ensures Ranked(waiters[1..], flag, Without(arrived, waiters[0]), prio)
  {
    HeadIsNext(waiters, flag, arrived, prio);
    RankedLeave(waiters, flag, arrived, prio, waiters[0]);
    hide Ranked;
    assert Without(waiters, waiters[0]) == waiters[1..];
  }

  lemma HeadHasBestClaim(waiters: seq<nat>, flag: Flag, arrived: seq<nat>, prio: seq<int>, b: nat)
    requires Ranked(waiters, flag, arrived, prio) && b in waiters && b != waiters[0]
    ensures Ahead(flag, arrived, prio, waiters[0], b) && !Ahead(flag, arrived, prio, b, waiters[0])
  {
    var a := waiters[0];
    assert a in waiters;
    if Ahead(flag, arrived, prio, b, a) { NotBoth(waiters, b, a); }
    BeforeEither(arrived, a, b);
  }
}
