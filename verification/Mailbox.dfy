/** Mailboxes (ipc.c).  A thread that is woken does not own a mail or a place; it looks again, and another
    thread may have come first.  Each critical section is one step, so a run is any interleaving of them. */
module Mailboxes {
  import opened Sequences
  import opened WaitLists

  /** The mails in order; who is suspended; who was woken and has not looked again yet; and, since the last
      reset, what was sent and what was received. */
  datatype Box = Box(size: nat, mails: seq<int>, receivers: seq<nat>, senders: seq<nat>,
                     wokenR: set<nat>, wokenS: set<nat>, sent: seq<int>, received: seq<int>)

  datatype Reply = Done | Full | Empty | Waits

  function WakeReceiver(b: Box): Box {
    if b.receivers == [] then b else b.(receivers := b.receivers[1..], wokenR := b.wokenR + {b.receivers[0]})
  }

  function WakeSender(b: Box): Box {
    if b.senders == [] then b else b.(senders := b.senders[1..], wokenS := b.wokenS + {b.senders[0]})
  }

  /** Thread `t` tries to send, for the first time or after it was woken. */
  function SendBox(b: Box, flag: Flag, t: nat, v: int, wait: bool, prio: seq<int>): (Box, Reply) {
    var b1 := b.(wokenS := b.wokenS - {t});
    if |b.mails| == b.size then
      if wait then (b1.(senders := Enqueue(flag, b.senders, t, prio)), Waits) else (b1, Full)
    else (WakeReceiver(b1.(mails := b.mails + [v], sent := b.sent + [v])), Done)
  }

  function RecvBox(b: Box, flag: Flag, t: nat, wait: bool, prio: seq<int>): (Box, Reply) {
    var b1 := b.(wokenR := b.wokenR - {t});
    if b.mails == [] then
      if wait then (b1.(receivers := Enqueue(flag, b.receivers, t, prio)), Waits) else (b1, Empty)
    else (WakeSender(b1.(mails := b.mails[1..], received := b.received + [b.mails[0]])), Done)
  }

  function TimeoutBox(b: Box, t: nat): Box {
    b.(receivers := Without(b.receivers, t), senders := Without(b.senders, t))
  }

  /** A reset sends every suspended thread away with an error; woken threads still look again. */
  function ResetBox(b: Box): Box {
    b.(mails := [], receivers := [], senders := [], sent := [], received := [])
  }

  /** A thread is suspended as a receiver, suspended as a sender, woken as one of them, or none of these. */
  ghost predicate Apart(b: Box) {
    && NoRepeats(b.receivers) && NoRepeats(b.senders)
    && (forall t :: t in b.receivers ==> t !in b.senders && t !in b.wokenR && t !in b.wokenS)
    && (forall t :: t in b.senders ==> t !in b.wokenR && t !in b.wokenS)
    && (forall t :: t in b.wokenR ==> t !in b.wokenS)
  }

  /** No lost wake-up: while a receiver is suspended, every mail has a woken receiver on its way, and while a
      sender is suspended, every free place has a woken sender on its way. */
  ghost predicate NoLostWakeup(b: Box) {
    && (b.receivers != [] ==> |b.mails| <= |b.wokenR|)
    && (b.senders != [] ==> b.size - |b.mails| <= |b.wokenS|)
  }

  ghost predicate BoxOk(b: Box) {
    |b.mails| <= b.size && Apart(b) && NoLostWakeup(b) && b.sent == b.received + b.mails
  }

  ghost predicate Free(b: Box, t: nat) {
    t !in b.receivers && t !in b.senders
  }

  lemma Dropped(s: set<nat>, t: nat)
    ensures |s - {t}| == if t in s then |s| - 1 else |s|
  {
    if t !in s { assert s - {t} == s; }
  }

  lemma WakeReceiverOk(b: Box)
    requires Apart(b)
    ensures Apart(WakeReceiver(b))
    ensures b.receivers != [] ==> |WakeReceiver(b).wokenR| == |b.wokenR| + 1
  {
    if b.receivers != [] {
      assert b.receivers[0] in b.receivers;
      HeadGone(b.receivers);
      hide NoRepeats;
    }
  }

  lemma WakeSenderOk(b: Box)
    requires Apart(b)
    ensures Apart(WakeSender(b))
    ensures b.senders != [] ==> |WakeSender(b).wokenS| == |b.wokenS| + 1
  {
    if b.senders != [] {
      assert b.senders[0] in b.senders;
      HeadGone(b.senders);
      hide NoRepeats;
    }
  }

  /** A thread leaves the set of the woken: as a sender, */
  lemma SenderLooks(b: Box, t: nat)
    requires BoxOk(b)
    ensures var b1 := b.(wokenS := b.wokenS - {t});
      && Apart(b1) && (b.receivers != [] ==> |b.mails| <= |b1.wokenR|)
      && (b.senders != [] ==> b.size - |b.mails| - 1 <= |b1.wokenS|)
      && (Free(b, t) ==> t !in b1.wokenS)
  {
    Dropped(b.wokenS, t);
    hide NoRepeats;
  }

  /** or as a receiver. */
  lemma ReceiverLooks(b: Box, t: nat)
    requires BoxOk(b)
    ensures var b1 := b.(wokenR := b.wokenR - {t});
      && Apart(b1) && (b.senders != [] ==> b.size - |b.mails| <= |b1.wokenS|)
      && (b.receivers != [] ==> |b.mails| - 1 <= |b1.wokenR|)
      && (Free(b, t) ==> t !in b1.wokenR)
  {
    Dropped(b.wokenR, t);
    hide NoRepeats;
  }

  lemma SenderWaits(b: Box, flag: Flag, t: nat, prio: seq<int>)
    requires Apart(b) && Free(b, t) && t !in b.wokenR && t !in b.wokenS
    ensures Apart(b.(senders := Enqueue(flag, b.senders, t, prio)))
  {
    EnqueueMembers(flag, b.senders, t, prio);
    hide NoRepeats, Enqueue;
  }

  lemma ReceiverWaits(b: Box, flag: Flag, t: nat, prio: seq<int>)
    requires Apart(b) && Free(b, t) && t !in b.wokenR && t !in b.wokenS
    ensures Apart(b.(receivers := Enqueue(flag, b.receivers, t, prio)))
  {
    EnqueueMembers(flag, b.receivers, t, prio);
    hide NoRepeats, Enqueue;
  }

  lemma SendOk(b: Box, flag: Flag, t: nat, v: int, wait: bool, prio: seq<int>)
    requires BoxOk(b) && Free(b, t) && t !in b.wokenR
    ensures BoxOk(SendBox(b, flag, t, v, wait, prio).0)
  {
    SenderLooks(b, t);
    hide Apart, Enqueue, NoRepeats;
    var b1 := b.(wokenS := b.wokenS - {t});
    if |b.mails| == b.size {
      SenderWaits(b1, flag, t, prio);
    } else {
      var b2 := b1.(mails := b.mails + [v], sent := b.sent + [v]);
      SameThreads(b1, b2);
      WakeReceiverOk(b2);
      assert b.received + (b.mails + [v]) == (b.received + b.mails) + [v];
    }
  }

  lemma RecvOk(b: Box, flag: Flag, t: nat, wait: bool, prio: seq<int>)
    requires BoxOk(b) && Free(b, t) && t !in b.wokenS
    ensures BoxOk(RecvBox(b, flag, t, wait, prio).0)
  {
    ReceiverLooks(b, t);
    hide Apart, Enqueue, NoRepeats;
    var b1 := b.(wokenR := b.wokenR - {t});
    if b.mails == [] {
      ReceiverWaits(b1, flag, t, prio);
    } else {
      var b2 := b1.(mails := b.mails[1..], received := b.received + [b.mails[0]]);
      SameThreads(b1, b2);
      WakeSenderOk(b2);
      assert b.received + [b.mails[0]] + b.mails[1..] == b.received + b.mails;
    }
  }

  lemma SameThreads(b: Box, b': Box)
    requires Apart(b) && b'.receivers == b.receivers && b'.senders == b.senders
    requires b'.wokenR == b.wokenR && b'.wokenS == b.wokenS
    ensures Apart(b')
  {
  }

  lemma TimeoutOk(b: Box, t: nat)
    requires BoxOk(b)
    ensures BoxOk(TimeoutBox(b, t)) && Free(TimeoutBox(b, t), t)
  {
    WithoutFacts(b.receivers, t);
    WithoutFacts(b.senders, t);
    hide NoRepeats;
  }

  lemma ResetOk(b: Box)
    requires BoxOk(b)
    ensures BoxOk(ResetBox(b))
  {
  }

  // ---------------------------------------------------------- whole runs

  datatype Op = Send(t: nat, v: int, wait: bool) | Recv(t: nat, wait: bool) | Timeout(t: nat) | Reset

  datatype Step = Step(op: Op, prio: seq<int>)

  /** A suspended thread does nothing; a woken one first finishes the call it is in. */
  ghost predicate Enabled(b: Box, op: Op) {
    match op
    case Send(t, _, _) => Free(b, t) && t !in b.wokenR
    case Recv(t, _) => Free(b, t) && t !in b.wokenS
    case Timeout(_) => true
    case Reset => true
  }

  function Next(b: Box, flag: Flag, x: Step): Box {
    match x.op
    case Send(t, v, wait) => SendBox(b, flag, t, v, wait, x.prio).0
    case Recv(t, wait) => RecvBox(b, flag, t, wait, x.prio).0
    case Timeout(t) => TimeoutBox(b, t)
    case Reset => ResetBox(b)
  }

  lemma NextOk(b: Box, flag: Flag, x: Step)
    requires BoxOk(b) && Enabled(b, x.op)
    ensures BoxOk(Next(b, flag, x))
  {
    hide BoxOk, SendBox, RecvBox, TimeoutBox, ResetBox;
    match x.op
    case Send(t, v, wait) => SendOk(b, flag, t, v, wait, x.prio);
    case Recv(t, wait) => RecvOk(b, flag, t, wait, x.prio);
    case Timeout(t) => TimeoutOk(b, t);
    case Reset => ResetOk(b);
  }

  ghost predicate Reaches(b: Box, flag: Flag, run: seq<Step>, r: Box)
    decreases |run|
  {
    if run == [] then r == b
    else Enabled(b, run[0].op) && Reaches(Next(b, flag, run[0]), flag, run[1..], r)
  }

  function NewBox(size: nat): Box {
    Box(size, [], [], [], {}, {}, [], [])
  }

  /** Over every interleaving, with barging, timeouts and resets: no wake-up is lost, and since the last reset the
      mails received are a prefix of the mails sent, the rest being the contents in order. */
  lemma {:induction false} NeverLost(b: Box, flag: Flag, run: seq<Step>, r: Box)
    requires BoxOk(b) && Reaches(b, flag, run, r)
    ensures BoxOk(r)
    decreases |run|
  {
    hide BoxOk, Next, Enabled;
    if run != [] {
      NextOk(b, flag, run[0]);
      NeverLost(Next(b, flag, run[0]), flag, run[1..], r);
    }
  }

  lemma ReachableOk(size: nat, flag: Flag, run: seq<Step>, r: Box)
    requires Reaches(NewBox(size), flag, run, r)
    ensures NoLostWakeup(r) && r.sent == r.received + r.mails
    ensures r.receivers != [] && r.mails != [] ==> r.wokenR != {}
  {
    assert BoxOk(NewBox(size));
    NeverLost(NewBox(size), flag, run, r);
    assert r.wokenR == {} ==> |r.wokenR| == 0;
  }

  /** What a look at the mailbox answers after any run: a send succeeds exactly when fewer mails than places are sent
      and not received, a receive exactly when some are; otherwise the thread waits, if it may, and is in the list. */
  lemma LooksAnswer(size: nat, flag: Flag, run: seq<Step>, r: Box, t: nat, v: int, wait: bool, prio: seq<int>)
    requires Reaches(NewBox(size), flag, run, r)
    ensures r.size == size
    ensures var n, (b, answer) := |r.sent| - |r.received|, SendBox(r, flag, t, v, wait, prio);
      && (answer == Done <==> n < size) && (answer == Waits <==> n >= size && wait)
      && (answer == Waits ==> t in b.senders)
      && b.sent == (if answer == Done then r.sent + [v] else r.sent) && b.received == r.received
    ensures var n, (b, answer) := |r.sent| - |r.received|, RecvBox(r, flag, t, wait, prio);
      && (answer == Done <==> n > 0) && (answer == Waits <==> n <= 0 && wait)
      && (answer == Waits ==> t in b.receivers)
      && b.sent == r.sent && b.received == (if answer == Done then r.received + [r.mails[0]] else r.received)
  {
    assert BoxOk(NewBox(size));
    NeverLost(NewBox(size), flag, run, r);
    SameSize(NewBox(size), flag, run, r);
    EnqueueMembers(flag, r.senders, t, prio);
    EnqueueMembers(flag, r.receivers, t, prio);
    hide Enqueue, Apart, Reaches, NoRepeats;
  }

  lemma {:induction false} SameSize(b: Box, flag: Flag, run: seq<Step>, r: Box)
    requires Reaches(b, flag, run, r)
    ensures r.size == b.size
    decreases |run|
  {
    if run != [] {
      SameSize(Next(b, flag, run[0]), flag, run[1..], r);
    }
  }

  // -------------------------------------------------- the order of waking

  /** The suspended receivers and senders in the order of their arrival. */
  datatype Lines = Lines(receivers: seq<nat>, senders: seq<nat>)

  ghost function Woken(flag: Flag, line: seq<nat>, prio: seq<int>): seq<nat> {
    if line == [] then [] else Without(line, NextInLine(flag, line, prio))
  }

  /** Who waits joins the line of its kind, and a mail or a place takes the next one out of the other line. */
  ghost function NoteLines(l: Lines, flag: Flag, prio: seq<int>, b: Box, op: Op): Lines {
    match op
    case Send(t, _, wait) =>
      if |b.mails| < b.size then l.(receivers := Woken(flag, l.receivers, prio))
      else if wait then l.(senders := l.senders + [t])
      else l
    case Recv(t, wait) =>
      if b.mails != [] then l.(senders := Woken(flag, l.senders, prio))
      else if wait then l.(receivers := l.receivers + [t])
      else l
    case Timeout(t) => Lines(Without(l.receivers, t), Without(l.senders, t))
    case Reset => Lines([], [])
  }

  ghost function NotesLines(l: Lines, flag: Flag, prio: seq<int>, b: Box, run: seq<Step>): Lines
    decreases |run|
  {
    if run == [] then l else
      NotesLines(NoteLines(l, flag, prio, b, run[0].op), flag, prio, Next(b, flag, run[0]), run[1..])
  }

  ghost predicate LinesOk(b: Box, l: Lines, flag: Flag, prio: seq<int>) {
    Ranked(b.receivers, flag, l.receivers, prio) && Ranked(b.senders, flag, l.senders, prio)
  }

  lemma WokenOk(list: seq<nat>, flag: Flag, line: seq<nat>, prio: seq<int>)
    requires Ranked(list, flag, line, prio)
    ensures Ranked(if list == [] then [] else list[1..], flag, Woken(flag, line, prio), prio)
  {
    if list != [] { RankedServe(list, flag, line, prio); }
    if line != [] { SomeoneWaits(list, flag, line, prio); }
  }

  lemma LinesStep(b: Box, l: Lines, flag: Flag, prio: seq<int>, op: Op)
    requires BoxOk(b) && Enabled(b, op) && LinesOk(b, l, flag, prio)
    ensures LinesOk(Next(b, flag, Step(op, prio)), NoteLines(l, flag, prio, b, op), flag, prio)
  {
    hide BoxOk, Enqueue, Woken;
    match op {
      case Send(t, _, wait) =>
        WokenOk(b.receivers, flag, l.receivers, prio);
        if |b.mails| == b.size && wait { RankedArrival(b.senders, flag, l.senders, prio, t); }
        BoxSize(b);
        hide Ranked;
      case Recv(t, wait) =>
        WokenOk(b.senders, flag, l.senders, prio);
        if b.mails == [] && wait { RankedArrival(b.receivers, flag, l.receivers, prio, t); }
        hide Ranked;
      case Timeout(t) =>
        RankedLeave(b.receivers, flag, l.receivers, prio, t);
        RankedLeave(b.senders, flag, l.senders, prio, t);
        hide Ranked;
      case Reset =>
    }
  }

  lemma {:induction false} LinesRun(b: Box, l: Lines, flag: Flag, prio: seq<int>, run: seq<Step>, r: Box)
    requires BoxOk(b) && Reaches(b, flag, run, r) && LinesOk(b, l, flag, prio)
    requires forall i :: 0 <= i < |run| ==> run[i].prio == prio
    ensures LinesOk(r, NotesLines(l, flag, prio, b, run), flag, prio)
    decreases |run|
  {
    hide BoxOk, Next, Enabled, LinesOk, NoteLines;
    if run != [] {
      NextOk(b, flag, run[0]);
      assert run[0] == Step(run[0].op, prio);
      LinesStep(b, l, flag, prio, run[0].op);
      LinesRun(Next(b, flag, run[0]), NoteLines(l, flag, prio, b, run[0].op), flag, prio, run[1..], r);
    }
  }

  /** Over every run with steady priorities the suspended threads are those in the two lines, and the one that is woken
      first is the next in line: the first to arrive or, with the PRIO flag, the first of the most urgent. */
  lemma WokenInOrder(size: nat, flag: Flag, prio: seq<int>, run: seq<Step>, r: Box)
    requires Reaches(NewBox(size), flag, run, r) && forall i :: 0 <= i < |run| ==> run[i].prio == prio
    ensures var l := NotesLines(Lines([], []), flag, prio, NewBox(size), run);
      && (forall t :: t in r.receivers <==> t in l.receivers) && (forall t :: t in r.senders <==> t in l.senders)
      && (r.receivers != [] ==> l.receivers != [] && r.receivers[0] == NextInLine(flag, l.receivers, prio))
      && (r.senders != [] ==> l.senders != [] && r.senders[0] == NextInLine(flag, l.senders, prio))
  {
    assert BoxOk(NewBox(size));
    LinesRun(NewBox(size), Lines([], []), flag, prio, run, r);
    var l := NotesLines(Lines([], []), flag, prio, NewBox(size), run);
    if r.receivers != [] { HeadIsNext(r.receivers, flag, l.receivers, prio); }
    if r.senders != [] { HeadIsNext(r.senders, flag, l.senders, prio); }
  }

  // ---------------------------------------------------------- the mailbox

  /** Position `i` of the ring that starts at `out`. */
  function Index(out: nat, i: nat, size: nat): nat
    requires i <= size
  {
    if out + i < size then out + i else out + i - size
  }

  lemma IndexIsModular(out: nat, i: nat, size: nat)
    requires i <= size && out < size
    ensures Index(out, i, size) == (out + i) % size
  {
    var m := out + i;
    var q := m / size;
    assert m == size * q + m % size;
    assert q >= 2 ==> size * q == 2 * size + size * (q - 2) && size * (q - 2) >= 0;
    assert q == 0 ==> size * q == 0;
    assert q == 1 ==> size * q == size;
  }

  /** The ring seen from the next mail on. */
  lemma IndexMovesOn(out: nat, out': nat, size: nat)
    requires out < size && out' == if out + 1 >= size then 0 else out + 1
    ensures Index(out, 0, size) == out
    ensures forall i: nat :: i < size ==> Index(out', i, size) == Index(out, i + 1, size)
  {
  }

  class Mailbox {
    const flag: Flag
    const size: nat
    const pool: array<int>           // msg_pool
    var entry: nat
    var inOffset: nat
    var outOffset: nat
    var receivers: seq<nat>          // parent.suspend_thread
    var senders: seq<nat>            // suspend_sender_thread
    ghost var box: Box

    ghost predicate Valid()
      reads this, pool
    {
      && pool.Length == size && BoxOk(box) && box.size == size
      && receivers == box.receivers && senders == box.senders && entry == |box.mails|
      && (outOffset < size || outOffset == size == 0)
      && inOffset == Index(outOffset, entry, size)
      && forall i :: 0 <= i < entry ==> pool[Index(outOffset, i, size)] == box.mails[i]
    }

    constructor (flag: Flag, size: nat)
      ensures Valid() && this.flag == flag && this.size == size && box == NewBox(size) && fresh(pool)
    {
      this.flag, this.size := flag, size;
      pool := new int[size](_ => 0);
      entry, inOffset, outOffset := 0, 0, 0;
      receivers, senders := [], [];
      box := NewBox(size);
    }

    /** One look of rt_mb_send_wait at the mailbox: from disabling interrupts to waiting or returning. */
    method SendStep(t: nat, v: int, wait: bool, prio: seq<int>) returns (r: Reply)
      requires Valid() && Free(box, t) && t !in box.wokenR
      modifies this, pool
      ensures Valid() && (box, r) == SendBox(old(box), flag, t, v, wait, prio)
    {
      hide BoxOk, Enqueue, WakeReceiver;
      SendOk(box, flag, t, v, wait, prio);
      BoxSize(box);
      ghost var b := box;
      box := SendBox(b, flag, t, v, wait, prio).0;
      if entry == size {
        if !wait {
          return Full;
        }
        senders := SuspendOn(flag, senders, t, prio);
        r := Waits;
      } else {
        pool[inOffset] := v;
        inOffset := inOffset + 1;
        if inOffset >= size {
          inOffset := 0;
        }
        entry := entry + 1;
        if receivers != [] {
          receivers := receivers[1..];
        }
        r := Done;
        WakeReceiverIs(b.(wokenS := b.wokenS - {t}, mails := b.mails + [v], sent := b.sent + [v]));
      }
    }

    /** One look of rt_mb_recv at the mailbox. */
    method RecvStep(t: nat, wait: bool, prio: seq<int>) returns (r: Reply, v: int)
      requires Valid() && Free(box, t) && t !in box.wokenS
      modifies this
      ensures Valid() && (box, r) == RecvBox(old(box), flag, t, wait, prio)
      ensures r == Done <==> old(box).mails != []
      ensures r == Done ==> v == old(box).mails[0]
    {
      hide BoxOk, Enqueue, WakeSender;
      RecvOk(box, flag, t, wait, prio);
      BoxSize(box);
      ghost var b := box;
      box := RecvBox(b, flag, t, wait, prio).0;
      v := 0;
      if entry == 0 {
        if !wait {
          return Empty, v;
        }
        receivers := SuspendOn(flag, receivers, t, prio);
        r := Waits;
      } else {
        IndexMovesOn(outOffset, if outOffset + 1 >= size then 0 else outOffset + 1, size);
        assert b.mails[0] == pool[Index(outOffset, 0, size)];
        hide Index;
        v := pool[outOffset];
        outOffset := outOffset + 1;
        if outOffset >= size {
          outOffset := 0;
        }
        entry := entry - 1;
        if senders != [] {
          senders := senders[1..];
        }
        r := Done;
        WakeSenderIs(b.(wokenR := b.wokenR - {t}, mails := b.mails[1..], received := b.received + [b.mails[0]]));
      }
    }

    /** rt_thread_timeout for a thread suspended on the mailbox. */
    method TimeoutOf(t: nat)
      requires Valid()
      modifies this
      ensures Valid() && box == TimeoutBox(old(box), t)
    {
      hide BoxOk;
      TimeoutOk(box, t);
      receivers, senders := Without(receivers, t), Without(senders, t);
      box := TimeoutBox(box, t);
    }

    /** RT_IPC_CMD_RESET. */
    method ResetAll()
      requires Valid()
      modifies this
      ensures Valid() && box == ResetBox(old(box))
      ensures box.mails == [] && receivers == [] && senders == [] && entry == 0
      ensures box.wokenR == old(box).wokenR && box.wokenS == old(box).wokenS
    {
      hide BoxOk;
      ResetOk(box);
      receivers, senders := [], [];
      entry, inOffset, outOffset := 0, 0, 0;
      box := ResetBox(box);
    }
  }

  lemma BoxSize(b: Box)
    requires BoxOk(b)
    ensures |b.mails| <= b.size
  {
  }

  lemma WakeReceiverIs(b: Box)
    ensures var w := WakeReceiver(b);
      && w.mails == b.mails && w.size == b.size && w.senders == b.senders
      && w.receivers == if b.receivers == [] then [] else b.receivers[1..]
  {
  }

  lemma WakeSenderIs(b: Box)
    ensures var w := WakeSender(b);
      && w.mails == b.mails && w.size == b.size && w.receivers == b.receivers
      && w.senders == if b.senders == [] then [] else b.senders[1..]
  {
  }
}
