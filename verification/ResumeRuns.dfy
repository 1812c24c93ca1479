/** Several calls of rt_thread_resume for one thread at a time (thread.c).  A call tests the state with interrupts
    enabled and then has two interrupt-disabled regions: the first takes the thread out of the list it is in, the second
    puts it into its ready queue.  Other calls may run in between, so that queue is followed here link by link. */
module ResumeRuns {
  import opened Bits
  import opened ReadyMaps
  import opened Rings
  import opened Schedulers
  import Sequences

  const HEAD: int := -1        // the list head of the thread's ready queue

  // --------------------------------------------- the list primitives, on any links

  function Succ(k: Links, x: int): int {
    if x in k.next then k.next[x] else x
  }

  function Pred(k: Links, x: int): int {
    if x in k.prev then k.prev[x] else x
  }

  /** The writes of rt_list_insert_before. */
  function LinkBefore(k: Links, l: int, n: int): Links {
    var z := Pred(k, l);
    Links(k.next[z := n][n := l], k.prev[n := z][l := n])
  }

  /** The writes of rt_list_remove. */
  function Remove(k: Links, n: int): Links {
    var k1 := k.(prev := k.prev[Succ(k, n) := Pred(k, n)]);
    var k2 := k1.(next := k1.next[Pred(k1, n) := Succ(k1, n)]);
    Links(k2.next[n := n], k2.prev[n := n])
  }

  lemma LinkBeforeRing(k: Links, r: seq<int>, n: int)
    requires IsRing(k, r) && n !in r
    ensures IsRing(LinkBefore(k, r[0], n), r + [n])
  {
    var last := |r| - 1;
    assert NodeOk(k, r, 0) && NodeOk(k, r, last);
    LinkAfterRing(k, r, last, n);
    assert r[..last + 1] + [n] + r[last + 1..] == r + [n];
    hide IsRing;
    assert LinkBefore(k, r[0], n) == LinkAfter(k, r[last], n);
  }

  lemma RemoveRing(k: Links, r: seq<int>, i: nat)
    requires IsRing(k, r) && i < |r| && |r| > 1
    ensures IsRing(Remove(k, r[i]), r[..i] + r[i + 1..]) && IsRing(Remove(k, r[i]), [r[i]])
  {
    var n := r[i];
    assert NodeOk(k, r, i);
    UnlinkRing(k, r, i);
    assert n !in r[..i] + r[i + 1..];
    SelfFrame(Unlink(k, n), n, r[..i] + r[i + 1..]);
    SelfLoop(Unlink(k, n), n);
    assert k.next[n] != n;
    hide IsRing;
    assert Remove(k, n) == Links(Unlink(k, n).next[n := n], Unlink(k, n).prev[n := n]);
  }

  /** Taking a node out of its own ring leaves every other ring alone. */
  lemma RemoveElsewhere(k: Links, w: seq<int>, n: int, r: seq<int>)
    requires IsRing(k, w) && n in w && IsRing(k, r) && Apart(r, w)
    ensures IsRing(Remove(k, n), r) && IsRing(Remove(k, n), [n])
  {
    RingClosed(k, w, n);
    forall x | x in r ensures x in k.next && x in k.prev && x != n { RingClosed(k, r, x); }
    RingFrame(k, Remove(k, n), r);
    var k1 := k.(prev := k.prev[Succ(k, n) := Pred(k, n)]);
    SelfLoop(k1.(next := k1.next[Pred(k1, n) := Succ(k1, n)]), n);
  }

  // ----------------------------------------------- a node linked in twice

  /** The links lead from the head along `s` to `n`. */
  ghost predicate Leads(k: Links, s: seq<int>, n: int) {
    && s != [] && Sequences.NoRepeats(s) && n !in s
    && (forall i: nat :: i < |s| ==> s[i] in k.next)
    && (forall i: nat, j: nat :: i < |s| && j == i + 1 && j < |s| ==> k.next[s[i]] == s[j])
    && k.next[s[|s| - 1]] == n
  }

  /** They lead to `n`, but `n` does not lead back. */
  ghost predicate Torn(k: Links, s: seq<int>, n: int, z: int) {
    && Leads(k, s, n) && z !in s && n in k.next && n in k.prev && s[0] in k.prev
    && ((k.prev[n] == z && k.prev[s[0]] == n && k.next[n] == s[0])
        || (k.prev[n] == n && k.next[n] == n && k.prev[s[0]] == z))
  }

  /** What the links of a ring say up to node `i`. */
  lemma RingUpTo(k: Links, r: seq<int>, i: nat)
    requires IsRing(k, r) && i < |r|
    ensures Sequences.NoRepeats(r[..i]) && r[i] !in r[..i] && r[|r| - 1] !in r[..i]
    ensures forall j: nat :: j < i ==> r[j] in k.next
    ensures forall j: nat, m: nat :: j < i && m == j + 1 ==> k.next[r[j]] == r[m]
    ensures r[0] in k.prev && k.prev[r[0]] == r[|r| - 1]
  {
    forall j: nat | j < |r| ensures r[j] in k.next && k.next[r[j]] == After(r, j) { assert NodeOk(k, r, j); }
    assert NodeOk(k, r, 0);
  }

  /** Inserting a node that is in the list already tears it, */
  lemma LinkTwiceTears(k: Links, r: seq<int>, i: nat)
    requires IsRing(k, r) && 0 < i < |r|
    ensures Torn(LinkBefore(k, r[0], r[i]), r[..i], r[i], r[|r| - 1])
  {
    RingUpTo(k, r, i);
    hide IsRing, Sequences.NoRepeats;
    var s, n, z := r[..i], r[i], r[|r| - 1];
    assert forall j: nat :: j < i ==> s[j] == r[j] && s[j] in s;
    var k' := LinkBefore(k, r[0], n);
    assert k' == Links(k.next[z := n][n := r[0]], k.prev[n := z][r[0] := n]);
    hide LinkBefore;
    assert Leads(k', s, n);
  }

  /** and neither inserting nor removing it again mends it. */
  lemma TornStays(k: Links, s: seq<int>, n: int, z: int)
    requires Torn(k, s, n, z)
    ensures exists y :: Torn(LinkBefore(k, s[0], n), s, n, y)
    ensures Torn(Remove(k, n), s, n, z)
  {
    assert s[0] in s;
    assert forall i: nat :: i < |s| ==> s[i] in s;
    hide Sequences.NoRepeats;
    assert Torn(LinkBefore(k, s[0], n), s, n, Pred(k, s[0]));
  }

  lemma {:induction false} PathInRing(k: Links, s: seq<int>, n: int, r: seq<int>, i: nat)
    requires Leads(k, s, n) && IsRing(k, r) && r[0] == s[0] && i < |s|
    ensures i < |r| && r[i] == s[i]
  {
    if i > 0 {
      PathInRing(k, s, n, r, i - 1);
      assert NodeOk(k, r, i - 1) && k.next[s[i - 1]] == s[i] && s[0] != s[i];
    }
  }

  /** In a ring that starts at the head, the path goes on to `n`, which points back at its end. */
  lemma PathEnd(k: Links, s: seq<int>, n: int, r: seq<int>)
    requires Leads(k, s, n) && IsRing(k, r) && r[0] == s[0]
    ensures n in k.prev && k.prev[n] == s[|s| - 1]
  {
    var m := |s| - 1;
    PathInRing(k, s, n, r, m);
    assert s[0] in s && NodeOk(k, r, m);
    assert m + 1 < |r| && r[m + 1] == n;
    assert NodeOk(k, r, m + 1);
  }

  /** A torn list is no ring of whatever nodes. */
  lemma TornIsNoRing(k: Links, s: seq<int>, n: int, z: int, r: seq<int>)
    requires Torn(k, s, n, z) && r != [] && r[0] == s[0]
    ensures !IsRing(k, r)
  {
    assert s[|s| - 1] in s;
    hide IsRing;
    if IsRing(k, r) { PathEnd(k, s, n, r); }
  }

  // ---------------------------------------------------------- the steps

  /** The ready structure, with the queue of the thread's priority given by `links` alone; the calls that have passed
      the test; and the calls between their two regions. */
  datatype World = World(threads: seq<Thread>, queues: seq<seq<nat>>, bits: ReadyMap, links: Links,
                         passed: set<nat>, inside: set<nat>)

  datatype Op = Test(c: nat) | TakeOut(c: nat) | PutIn(c: nat)

  ghost predicate Enabled(s: World, op: Op) {
    match op
    case Test(c) => c !in s.passed && c !in s.inside
    case TakeOut(c) => c in s.passed && c !in s.inside
    case PutIn(c) => c in s.inside
  }

  function Next(s: World, t: nat, op: Op): (r: World)
    requires t < |s.threads|
    ensures |r.threads| == |s.threads|
  {
    match op
    case Test(c) => if s.threads[t].stat == Suspend then s.(passed := s.passed + {c}) else s
    case TakeOut(c) => s.(links := Remove(s.links, t), passed := s.passed - {c}, inside := s.inside + {c})
    case PutIn(c) =>
      var a := s.threads[t].attr;
      s.(threads := s.threads[t := s.threads[t].(stat := Ready)], links := LinkBefore(s.links, HEAD, t),
         bits := if s.bits.TwoLevel? && a.number >= |s.bits.table| then s.bits else SetBits(s.bits, a),
         inside := s.inside - {c})
  }

  function Run(s: World, t: nat, ops: seq<Op>): (r: World)
    requires t < |s.threads|
    ensures |r.threads| == |s.threads|
    decreases |ops|
  {
    if ops == [] then s else Run(Next(s, t, ops[0]), t, ops[1..])
  }

  ghost predicate Allowed(s: World, t: nat, ops: seq<Op>)
    requires t < |s.threads|
    decreases |ops|
  {
    ops != [] ==> Enabled(s, ops[0]) && Allowed(Next(s, t, ops[0]), t, ops[1..])
  }

  /** Whenever a region of a call runs, no other call is between its two regions. */
  ghost predicate Exclusive(inside: set<nat>, ops: seq<Op>)
    decreases |ops|
  {
    if ops == [] then true else
      match ops[0]
      case Test(_) => Exclusive(inside, ops[1..])
      case TakeOut(c) => inside <= {c} && Exclusive(inside + {c}, ops[1..])
      case PutIn(c) => inside <= {c} && Exclusive(inside - {c}, ops[1..])
  }

  // -------------------------------------------------------- the structure

  /** With `q` for the queue of thread `t`, the ready structure is coherent. */
  ghost predicate CoherentAs(s: World, t: nat, q: seq<nat>) {
    && t < |s.threads| && s.threads[t].currentPriority < |s.queues|
    && Coherent(s.threads, s.queues[s.threads[t].currentPriority := q], s.bits)
  }

  /** The links of the queue read `q`. */
  ghost predicate Reads(k: Links, q: seq<nat>) {
    IsRing(k, [HEAD] + q)
  }

  /** The links are those of some queue, and with that the ready structure is coherent. */
  ghost predicate Sound(s: World, t: nat) {
    exists q: seq<nat> :: Reads(s.links, q) && CoherentAs(s, t, q)
  }

  /** Suspended, in its queue of waiters `w` or alone. */
  ghost predicate Waiting(s: World, t: nat, q: seq<nat>, w: seq<int>) {
    && CoherentAs(s, t, q) && s.threads[t].stat == Suspend
    && Reads(s.links, q) && IsRing(s.links, w) && t in w && Apart([HEAD] + q, w)
  }

  /** Taken out and not yet put in again: alone, though its state may still or already say Ready. */
  ghost predicate Away(s: World, t: nat, q: seq<nat>) {
    && t < |s.threads| && (s.threads[t].stat == Suspend || s.threads[t].stat == Ready)
    && CoherentAs(s, t, if s.threads[t].stat == Suspend then q else q + [t])
    && Reads(s.links, q) && IsRing(s.links, [t]) && t !in q
  }

  ghost predicate InQueue(s: World, t: nat, q: seq<nat>) {
    CoherentAs(s, t, q) && s.threads[t].stat == Ready && Reads(s.links, q) && t in q
  }

  ghost predicate TornAt(s: World, t: nat, p: seq<int>, z: int) {
    p != [] && p[0] == HEAD && Torn(s.links, p, t, z)
  }

  lemma TakeOutWaiting(s: World, t: nat, q: seq<nat>, w: seq<int>, c: nat)
    requires Waiting(s, t, q, w)
    ensures Away(Next(s, t, TakeOut(c)), t, q)
  {
    RemoveElsewhere(s.links, w, t, [HEAD] + q);
    assert forall x :: x in q ==> x in [HEAD] + q;
    hide Coherent, IsRing, Remove;
  }

  lemma TakeOutAway(s: World, t: nat, q: seq<nat>, c: nat)
    requires Away(s, t, q)
    ensures Away(Next(s, t, TakeOut(c)), t, q)
  {
    assert forall x :: x in [HEAD] + q ==> x == HEAD || x in q;
    RemoveElsewhere(s.links, [t], t, [HEAD] + q);
    hide Coherent, IsRing, Remove;
  }

  lemma TakeOutReady(s: World, t: nat, q: seq<nat>, c: nat)
    requires InQueue(s, t, q)
    ensures Away(Next(s, t, TakeOut(c)), t, Sequences.Without(q, t))
  {
    QueueHolds(s, t, q);
    Sequences.WithoutFacts(q, t);
    TakenOutReads(s.links, q, t);
    BackInLine(s, t, q);
    hide Coherent, IsRing, Remove, Sequences.Without, Sequences.NoRepeats;
  }

  /** The ready structure would be coherent with the thread at the back of its queue. */
  lemma BackInLine(s: World, t: nat, q: seq<nat>)
    requires CoherentAs(s, t, q) && s.threads[t].stat == Ready
    ensures CoherentAs(s, t, Sequences.Without(q, t) + [t])
  {
    var p := s.threads[t].currentPriority;
    RequeuedOk(s.threads, s.queues[p := q], s.bits, t);
    hide Coherent;
    assert s.queues[p := q][p := Sequences.Without(q, t) + [t]] == s.queues[p := Sequences.Without(q, t) + [t]];
  }

  lemma TakenOutReads(k: Links, q: seq<nat>, t: nat)
    requires Reads(k, q) && t in q && Sequences.NoRepeats(q)
    ensures Reads(Remove(k, t), Sequences.Without(q, t)) && IsRing(Remove(k, t), [t])
  {
    var i := IndexOf(q, t);
    Sequences.WithoutAt(q, i, t);
    var r := [HEAD] + q;
    RemoveRing(k, r, i + 1);
    hide IsRing, Remove;
    assert r[..i + 1] + r[i + 2..] == [HEAD] + Sequences.Without(q, t);
  }

  lemma IndexOf(q: seq<nat>, t: nat) returns (i: nat)
    requires t in q && Sequences.NoRepeats(q)
    ensures i < |q| && q[i] == t && forall j :: 0 <= j < i ==> q[j] != t
  {
    i :| 0 <= i < |q| && q[i] == t;
  }

  lemma QueueHolds(s: World, t: nat, q: seq<nat>)
    requires CoherentAs(s, t, q)
    ensures Sequences.NoRepeats(q) && (t in q <==> s.threads[t].stat == Ready)
  {
    var p := s.threads[t].currentPriority;
    assert QueueOk(s.threads, s.queues[p := q][p], p);
    hide Coherent;
  }

  lemma PutInAway(s: World, t: nat, q: seq<nat>, c: nat)
    requires Away(s, t, q)
    ensures InQueue(Next(s, t, PutIn(c)), t, q + [t])
  {
    assert forall x :: x in [HEAD] + q ==> x == HEAD || x in q;
    LinkBeforeRing(s.links, [HEAD] + q, t);
    assert [HEAD] + q + [t] == [HEAD] + (q + [t]);
    PutInCoherent(s, t, q);
    hide Coherent, IsRing, LinkBefore, SetBits;
    assert t in q + [t];
  }

  lemma PutInCoherent(s: World, t: nat, q: seq<nat>)
    requires Away(s, t, q)
    ensures var a := s.threads[t].attr;
      && (s.bits.TwoLevel? ==> a.number < |s.bits.table|)
      && var p := s.threads[t].currentPriority;
      p < |s.queues|
      && Coherent(s.threads[t := s.threads[t].(stat := Ready)], s.queues[p := q + [t]], SetBits(s.bits, a))
  {
    hide IsRing, SetBits;
    var p := s.threads[t].currentPriority;
    if s.threads[t].stat == Suspend {
      var queues := s.queues[p := q];
      InsertedOk(s.threads, queues, s.bits, t);
      hide Coherent;
      assert queues[p := queues[p] + [t]] == s.queues[p := q + [t]];
    } else {
      SetAgain(s.threads, s.queues[p := q + [t]], s.bits, t);
      hide Coherent;
      assert s.threads[t := s.threads[t].(stat := Ready)] == s.threads;
    }
  }

  /** Setting the bits of a priority whose queue is not empty. */
  lemma SetAgain(threads: seq<Thread>, queues: seq<seq<nat>>, m: ReadyMap, t: nat)
    requires Coherent(threads, queues, m) && t < |threads| && threads[t].stat == Ready
    ensures m.TwoLevel? ==> threads[t].attr.number < |m.table|
    ensures Coherent(threads, queues, SetBits(m, threads[t].attr))
  {
    QueueFacts(threads, queues, m, t);
    var p := threads[t].currentPriority;
    assert queues[p] != [] && OnlyQueue(queues, queues, p);
    SetBitsOk(m, queues, queues, p);
    hide MapOk, AttrOf, OnlyQueue;
  }

  lemma PutInTears(s: World, t: nat, q: seq<nat>, c: nat)
    requires InQueue(s, t, q)
    ensures exists p, z :: TornAt(Next(s, t, PutIn(c)), t, p, z)
  {
    QueueHolds(s, t, q);
    var i := IndexOf(q, t);
    var r := [HEAD] + q;
    LinkTwiceTears(s.links, r, i + 1);
    hide Coherent, IsRing, LinkBefore, Torn, SetBits;
    assert TornAt(Next(s, t, PutIn(c)), t, r[..i + 1], r[|r| - 1]);
  }

  // -------------------------------------------------------- every run

  ghost predicate IsWaiting(s: World, t: nat, w: seq<int>) {
    exists q :: Waiting(s, t, q, w)
  }

  ghost predicate IsAway(s: World, t: nat) {
    exists q :: Away(s, t, q)
  }

  ghost predicate IsInQueue(s: World, t: nat) {
    exists q :: InQueue(s, t, q)
  }

  ghost predicate IsTorn(s: World, t: nat) {
    exists p, z :: TornAt(s, t, p, z)
  }

  /** So far at most one call at a time was between its regions. */
  ghost predicate OneAtATime(s: World, t: nat, w: seq<int>) {
    || (s.inside == {} && (IsWaiting(s, t, w) || IsInQueue(s, t)))
    || (IsAway(s, t) && exists c :: s.inside == {c})
  }

  /** Two calls have met: the list is torn, or more calls are between their regions than can end well. */
  ghost predicate Met(s: World, t: nat) {
    || IsTorn(s, t)
    || (IsAway(s, t) && exists c, d :: c != d && c in s.inside && d in s.inside)
    || (IsInQueue(s, t) && s.inside != {})
  }

  lemma TestChangesNothing(s: World, t: nat, w: seq<int>, c: nat)
    requires t < |s.threads|
    ensures var r := Next(s, t, Test(c));
      && r.inside == s.inside && (Sound(r, t) <==> Sound(s, t))
      && (IsWaiting(s, t, w) ==> IsWaiting(r, t, w)) && (IsAway(s, t) ==> IsAway(r, t))
      && (IsInQueue(s, t) ==> IsInQueue(r, t)) && (IsTorn(s, t) ==> IsTorn(r, t))
  {
    hide Coherent, IsRing, Torn;
    var r := Next(s, t, Test(c));
    assert forall q :: Waiting(s, t, q, w) ==> Waiting(r, t, q, w);
    assert forall q :: Away(s, t, q) ==> Away(r, t, q);
    assert forall q :: InQueue(s, t, q) ==> InQueue(r, t, q);
    assert forall p, z :: TornAt(s, t, p, z) ==> TornAt(r, t, p, z);
    assert forall q :: CoherentAs(s, t, q) <==> CoherentAs(r, t, q);
  }

  lemma TakeOutStep(s: World, t: nat, w: seq<int>, c: nat)
    requires t < |s.threads|
    ensures IsWaiting(s, t, w) || IsAway(s, t) || IsInQueue(s, t) ==> IsAway(Next(s, t, TakeOut(c)), t)
    ensures IsTorn(s, t) ==> IsTorn(Next(s, t, TakeOut(c)), t)
  {
    hide Waiting, Away, InQueue, Torn, Remove, LinkBefore;
    if IsWaiting(s, t, w) {
      var q :| Waiting(s, t, q, w);
      TakeOutWaiting(s, t, q, w, c);
    }
    if IsAway(s, t) {
      var q :| Away(s, t, q);
      TakeOutAway(s, t, q, c);
    }
    if IsInQueue(s, t) {
      var q :| InQueue(s, t, q);
      TakeOutReady(s, t, q, c);
    }
    if IsTorn(s, t) {
      var p, z :| TornAt(s, t, p, z);
      TornStays(s.links, p, t, z);
      assert TornAt(Next(s, t, TakeOut(c)), t, p, z);
    }
  }

  lemma PutInStep(s: World, t: nat, c: nat)
    requires t < |s.threads|
    ensures IsAway(s, t) ==> IsInQueue(Next(s, t, PutIn(c)), t)
    ensures IsInQueue(s, t) || IsTorn(s, t) ==> IsTorn(Next(s, t, PutIn(c)), t)
  {
    hide Away, InQueue, Torn, Remove, LinkBefore, SetBits;
    if IsAway(s, t) {
      var q :| Away(s, t, q);
      PutInAway(s, t, q, c);
    }
    if IsInQueue(s, t) {
      var q :| InQueue(s, t, q);
      PutInTears(s, t, q, c);
    }
    if IsTorn(s, t) {
      var p, z :| TornAt(s, t, p, z);
      TornStays(s.links, p, t, z);
      var y :| Torn(LinkBefore(s.links, HEAD, t), p, t, y);
      assert TornAt(Next(s, t, PutIn(c)), t, p, y);
    }
  }

  /** One step: a region of a call that runs while no other call is between its regions, or a meeting. */
  lemma StepFromOne(s: World, t: nat, w: seq<int>, op: Op)
    requires t < |s.threads| && OneAtATime(s, t, w) && Enabled(s, op)
    ensures if op.Test? || s.inside <= {op.c} then OneAtATime(Next(s, t, op), t, w) else Met(Next(s, t, op), t)
  {
    hide IsWaiting, IsAway, IsInQueue, IsTorn, Remove, LinkBefore, SetBits;
    match op
    case Test(c) => TestChangesNothing(s, t, w, c);
    case TakeOut(c) =>
      TakeOutStep(s, t, w, c);
      if s.inside == {} { assert Next(s, t, op).inside == {c}; }
    case PutIn(c) =>
      PutInStep(s, t, c);
      assert s.inside == {c} && Next(s, t, op).inside == {};
  }

  lemma StepFromMet(s: World, t: nat, w: seq<int>, op: Op)
    requires t < |s.threads| && Met(s, t) && Enabled(s, op)
    ensures Met(Next(s, t, op), t)
  {
    hide IsWaiting, IsAway, IsInQueue, IsTorn, Remove, LinkBefore, SetBits;
    match op
    case Test(c) => TestChangesNothing(s, t, w, c);
    case TakeOut(c) => TakeOutStep(s, t, w, c);
    case PutIn(c) =>
      PutInStep(s, t, c);
      if x, y :| x != y && x in s.inside && y in s.inside {
        assert (if x != c then x else y) in Next(s, t, op).inside;
      }
  }

  lemma {:induction false} RunFromMet(s: World, t: nat, w: seq<int>, ops: seq<Op>)
    requires t < |s.threads| && Met(s, t) && Allowed(s, t, ops)
    ensures Met(Run(s, t, ops), t)
    decreases |ops|
  {
    hide Met, Next, Enabled;
    if ops != [] {
      StepFromMet(s, t, w, ops[0]);
      RunFromMet(Next(s, t, ops[0]), t, w, ops[1..]);
    }
  }

  lemma {:induction false} RunFromOne(s: World, t: nat, w: seq<int>, ops: seq<Op>)
    requires t < |s.threads| && OneAtATime(s, t, w) && Allowed(s, t, ops)
    ensures if Exclusive(s.inside, ops) then OneAtATime(Run(s, t, ops), t, w) else Met(Run(s, t, ops), t)
    decreases |ops|
  {
    hide Met, OneAtATime, Enabled, Remove, LinkBefore, SetBits;
    if ops != [] {
      var s' := Next(s, t, ops[0]);
      StepFromOne(s, t, w, ops[0]);
      if ops[0].Test? || s.inside <= {ops[0].c} {
        RunFromOne(s', t, w, ops[1..]);
      } else {
        RunFromMet(s', t, w, ops[1..]);
      }
    }
  }

  /** The thread is suspended in the list `w`, and nobody is resuming it. */
  ghost predicate Start(s: World, t: nat, w: seq<int>) {
    IsWaiting(s, t, w) && s.inside == {} && s.passed == {}
  }

  lemma WhatIsSound(s: World, t: nat, w: seq<int>)
    ensures IsWaiting(s, t, w) || IsInQueue(s, t) ==> Sound(s, t)
    ensures IsTorn(s, t) ==> !Sound(s, t)
  {
    hide Coherent, IsRing, Torn;
    if IsTorn(s, t) && Sound(s, t) {
      var p, z :| TornAt(s, t, p, z);
      var q: seq<nat> :| Reads(s.links, q) && CoherentAs(s, t, q);
      TornIsNoRing(s.links, p, t, z, [HEAD] + q);
    }
  }

  /** After any interleaving of any number of calls that all have ended, the ready structure is coherent if and only
      if no region of one call ran between the two regions of another. */
  lemma ResumesEndWell(s: World, t: nat, w: seq<int>, ops: seq<Op>)
    requires t < |s.threads| && Start(s, t, w) && Allowed(s, t, ops) && Run(s, t, ops).inside == {}
    ensures Sound(Run(s, t, ops), t) <==> Exclusive({}, ops)
  {
    RunFromOne(s, t, w, ops);
    hide Run, Exclusive, Sound, IsWaiting, IsInQueue, IsAway, IsTorn;
    WhatIsSound(Run(s, t, ops), t, w);
  }

  /** While a call is between its regions, and only one at a time ever was, the thread is in no queue.  That is right as
      long as no call has put it in yet; from then on its state says Ready, and the bit of its priority is set whether
      or not there is anybody else in the queue. */
  lemma BetweenTheRegions(s: World, t: nat, w: seq<int>, ops: seq<Op>)
    requires t < |s.threads| && Start(s, t, w) && Allowed(s, t, ops) && Exclusive({}, ops)
    requires Run(s, t, ops).inside != {}
    ensures var r := Run(s, t, ops); var p := r.threads[t].currentPriority;
      && p < |r.queues| && (Sound(r, t) <==> r.threads[t].stat == Suspend)
      && exists q :: Reads(r.links, q) && t !in q
           && (r.threads[t].stat != Suspend ==>
               Nonempty(r.queues[p := q + [t]], p) && MapOk(r.bits, r.queues[p := q + [t]]))
  {
    RunFromOne(s, t, w, ops);
    var r := Run(s, t, ops);
    hide Run, Exclusive, IsWaiting, IsInQueue, Start, Allowed;
    var q :| Away(r, t, q);
    AwayIsSound(r, t, q);
    hide Sound, MapOk;
    assert Nonempty(r.queues[r.threads[t].currentPriority := q + [t]], r.threads[t].currentPriority);
  }

  lemma AwayIsSound(s: World, t: nat, q: seq<nat>)
    requires Away(s, t, q)
    ensures Sound(s, t) <==> s.threads[t].stat == Suspend
  {
    hide IsRing, MapOk;
    if s.threads[t].stat == Ready && Sound(s, t) {
      var q' :| Reads(s.links, q') && CoherentAs(s, t, q');
      SameQueue(s.links, [HEAD] + q, [HEAD] + q');
      assert ([HEAD] + q)[1..] == q && ([HEAD] + q')[1..] == q';
      QueueHolds(s, t, q');
    }
  }

  lemma {:induction false} SamePrefix(k: Links, r: seq<int>, r': seq<int>, i: nat)
    requires IsRing(k, r) && IsRing(k, r') && r[0] == r'[0] && i < |r|
    ensures i < |r'| && r[..i + 1] == r'[..i + 1]
  {
    if i > 0 {
      SamePrefix(k, r, r', i - 1);
      assert r[i - 1] == r[..i][i - 1] == r'[..i][i - 1] == r'[i - 1];
      assert NodeOk(k, r, i - 1) && NodeOk(k, r', i - 1);
      assert r[0] != r[i];
    }
  }

  /** The links have only one reading. */
  lemma SameQueue(k: Links, r: seq<int>, r': seq<int>)
    requires IsRing(k, r) && IsRing(k, r') && r[0] == r'[0]
    ensures r == r'
  {
    SamePrefix(k, r, r', |r| - 1);
    SamePrefix(k, r', r, |r'| - 1);
  }

  // ---------------------------------------------------------- examples

  /** One thread, suspended and in no list, on a machine with one priority. */
  function Example(): World {
    World([Thread(Suspend, 0, 0, AttrOf(0, true), 1, 1, false)], [[]], ReadyMap.Flat(0),
          Links(map[HEAD := HEAD, 0 := 0], map[HEAD := HEAD, 0 := 0]), {}, {})
  }

  lemma ExampleStarts()
    ensures Start(Example(), 0, [0])
  {
    var s := Example();
    EmptyMapOk(1);
    var none: seq<nat> := [];
    assert seq(1, _ => none) == [none];
    assert s.queues[0 := []] == s.queues;
    assert [HEAD] + [] == [HEAD];
    hide MapOk;
    assert Waiting(s, 0, [], [0]);
  }

  /** The first step of a run that is still to come. */
  lemma Unroll(s: World, op: Op, ops: seq<Op>)
    requires |s.threads| == 1 && Enabled(s, op)
    ensures var s' := Next(s, 0, op);
      && Run(s, 0, [op] + ops) == Run(s', 0, ops) && (Allowed(s, 0, [op] + ops) <==> Allowed(s', 0, ops))
      && (Exclusive(s.inside, [op] + ops) <==> (op.Test? || s.inside <= {op.c}) && Exclusive(s'.inside, ops))
  {
    assert ([op] + ops)[0] == op && ([op] + ops)[1..] == ops;
    hide Remove, LinkBefore, SetBits;
  }

  /** Call 1 runs between the regions of call 0: in the end the list is torn. */
  lemma MetBetweenTheRegions()
    ensures var ops := [Test(0), Test(1), TakeOut(0), TakeOut(1), PutIn(1), PutIn(0)];
      Allowed(Example(), 0, ops) && !Sound(Run(Example(), 0, ops), 0)
  {
    hide Remove, LinkBefore, SetBits, AttrOf, Sound, Start;
    var s0 := Example();
    var s1 := Next(s0, 0, Test(0));
    var s2 := Next(s1, 0, Test(1));
    var s3 := Next(s2, 0, TakeOut(0));
    var s4 := Next(s3, 0, TakeOut(1));
    var s5 := Next(s4, 0, PutIn(1));
    var s6 := Next(s5, 0, PutIn(0));
    Unroll(s0, Test(0), [Test(1), TakeOut(0), TakeOut(1), PutIn(1), PutIn(0)]);
    Unroll(s1, Test(1), [TakeOut(0), TakeOut(1), PutIn(1), PutIn(0)]);
    Unroll(s2, TakeOut(0), [TakeOut(1), PutIn(1), PutIn(0)]);
    Unroll(s3, TakeOut(1), [PutIn(1), PutIn(0)]);
    Unroll(s4, PutIn(1), [PutIn(0)]);
    Unroll(s5, PutIn(0), []);
    ExampleStarts();
    ResumesEndWell(Example(), 0, [0], [Test(0), Test(1), TakeOut(0), TakeOut(1), PutIn(1), PutIn(0)]);
  }

  /** Call 1 runs between the test of call 0 and its first region: in the end all is well. */
  lemma MetAfterTheTest()
    ensures var ops := [Test(0), Test(1), TakeOut(1), PutIn(1), TakeOut(0), PutIn(0)];
      Allowed(Example(), 0, ops) && Sound(Run(Example(), 0, ops), 0)
  {
    hide Remove, LinkBefore, SetBits, AttrOf, Sound, Start;
    var s0 := Example();
    var s1 := Next(s0, 0, Test(0));
    var s2 := Next(s1, 0, Test(1));
    var s3 := Next(s2, 0, TakeOut(1));
    var s4 := Next(s3, 0, PutIn(1));
    var s5 := Next(s4, 0, TakeOut(0));
    var s6 := Next(s5, 0, PutIn(0));
    Unroll(s0, Test(0), [Test(1), TakeOut(1), PutIn(1), TakeOut(0), PutIn(0)]);
    Unroll(s1, Test(1), [TakeOut(1), PutIn(1), TakeOut(0), PutIn(0)]);
    Unroll(s2, TakeOut(1), [PutIn(1), TakeOut(0), PutIn(0)]);
    Unroll(s3, PutIn(1), [TakeOut(0), PutIn(0)]);
    Unroll(s4, TakeOut(0), [PutIn(0)]);
    Unroll(s5, PutIn(0), []);
    ExampleStarts();
    ResumesEndWell(Example(), 0, [0], [Test(0), Test(1), TakeOut(1), PutIn(1), TakeOut(0), PutIn(0)]);
  }

  /** But between the two regions of call 0 it was not: the thread says Ready and is in no queue. */
  lemma ReadyInNoQueue()
    ensures var ops := [Test(0), Test(1), TakeOut(1), PutIn(1), TakeOut(0)];
      Allowed(Example(), 0, ops) && !Sound(Run(Example(), 0, ops), 0)
  {
    hide Remove, LinkBefore, SetBits, AttrOf, Sound, Start;
    var s0 := Example();
    var s1 := Next(s0, 0, Test(0));
    var s2 := Next(s1, 0, Test(1));
    var s3 := Next(s2, 0, TakeOut(1));
    var s4 := Next(s3, 0, PutIn(1));
    var s5 := Next(s4, 0, TakeOut(0));
    Unroll(s0, Test(0), [Test(1), TakeOut(1), PutIn(1), TakeOut(0)]);
    Unroll(s1, Test(1), [TakeOut(1), PutIn(1), TakeOut(0)]);
    Unroll(s2, TakeOut(1), [PutIn(1), TakeOut(0)]);
    Unroll(s3, PutIn(1), [TakeOut(0)]);
    Unroll(s4, TakeOut(0), []);
    ExampleStarts();
    BetweenTheRegions(Example(), 0, [0], [Test(0), Test(1), TakeOut(1), PutIn(1), TakeOut(0)]);
  }
}
