/** Event sets (ipc.c): threads wait for all or any of some bits.  A word of events is given as the set of the
    numbers of its bits, so `|`, `&` and `& ~` are union, intersection and difference. */
module Events {
  import opened Sequences
  import opened WaitLists

  type Word = set<nat>

  /** RT_EVENT_FLAG_AND, RT_EVENT_FLAG_OR, RT_EVENT_FLAG_CLEAR */
  datatype Option = Option(all: bool, any: bool, clear: bool)

  /** event_set and event_info of a thread: what it waits for; once it is served, `bits` is what it received. */
  datatype Info = Info(bits: Word, option: Option)

  datatype State = State(events: Word, waiters: seq<nat>, info: map<nat, Info>)

  /** AND takes precedence over OR. */
  predicate Satisfied(events: Word, w: Info) {
    if w.option.all then events * w.bits == w.bits else w.option.any && events * w.bits != {}
  }

  /** A receive that need not wait: the bits it gets, and the events it leaves. */
  function Receive(events: Word, w: Info): (Word, Word) {
    (events * w.bits, if w.option.clear then events - w.bits else events)
  }

  /** The delivery to a waiting thread, as the sender does it. */
  function Deliver(events: Word, w: Info): (Word, Word) {
    var got := if w.option.all then w.bits else w.bits * events;
    (got, if w.option.clear then events - got else events)
  }

  /** A thread that had to wait receives and clears the bits that it would have by calling now. */
  lemma DeferredIsImmediate(events: Word, w: Info)
    requires Satisfied(events, w)
    ensures Deliver(events, w) == Receive(events, w)
  {
    var got, left := Deliver(events, w).0, Deliver(events, w).1;
    assert got == Receive(events, w).0;
    assert left == Receive(events, w).1;
  }

  /** Nobody becomes satisfied by bits going away. */
  lemma FewerEvents(fewer: Word, events: Word, w: Info)
    requires fewer <= events && !Satisfied(events, w)
    ensures !Satisfied(fewer, w)
  {
    assert fewer * w.bits <= events * w.bits <= w.bits;
  }

  /** Every waiting thread in turn receives if it can: the events left, who still waits, and who got what. */
  ghost function Serve(events: Word, waiters: seq<nat>, info: map<nat, Info>): (Word, seq<nat>, map<nat, Word>)
    requires forall t :: t in waiters ==> t in info
  {
    if waiters == [] then (events, [], map[]) else
      var t := waiters[0];
      if Satisfied(events, info[t]) then
        var (got, left) := Receive(events, info[t]);
        var (s, rest, gots) := Serve(left, waiters[1..], info);
        (s, rest, gots[t := got])
      else
        var (s, rest, gots) := Serve(events, waiters[1..], info);
        (s, [t] + rest, gots)
  }

  ghost predicate Quiescent(events: Word, waiters: seq<nat>, info: map<nat, Info>) {
    forall t :: t in waiters ==> t in info && !Satisfied(events, info[t])
  }

  ghost predicate Asking(waiters: seq<nat>, info: map<nat, Info>) {
    forall t :: t in waiters ==> t in info && info[t].bits != {}
  }

  ghost predicate EventOk(s: State) {
    NoRepeats(s.waiters) && Quiescent(s.events, s.waiters, s.info) && Asking(s.waiters, s.info)
  }

  /** Although serving one thread may clear bits before the next is looked at, in the end nobody who still
      waits is satisfied. */
  lemma {:induction false} ServeQuiesces(events: Word, waiters: seq<nat>, info: map<nat, Info>)
    requires forall t :: t in waiters ==> t in info
    ensures var (s, rest, gots) := Serve(events, waiters, info);
      && s <= events && Quiescent(s, rest, info)
      && (forall t :: t in waiters <==> t in rest || t in gots)
      && (NoRepeats(waiters) ==> NoRepeats(rest) && forall t :: t in rest ==> t !in gots)
  {
    if waiters != [] {
      var t := waiters[0];
      assert forall u :: u in waiters <==> u == t || u in waiters[1..];
      if NoRepeats(waiters) { HeadGone(waiters); }
      hide NoRepeats;
      if Satisfied(events, info[t]) {
        ServeQuiesces(Receive(events, info[t]).1, waiters[1..], info);
      } else {
        ServeQuiesces(events, waiters[1..], info);
        var (s, rest, gots) := Serve(events, waiters[1..], info);
        FewerEvents(s, events, info[t]);
        PushedList(rest, t);
      }
    }
  }

  /** The information of the threads after some of them were served. */
  ghost predicate Served(info: map<nat, Info>, info': map<nat, Info>, gots: map<nat, Word>) {
    && info'.Keys == info.Keys
    && forall t :: t in info ==> info'[t] == if t in gots then info[t].(bits := gots[t]) else info[t]
  }

  datatype Reply = Error | Got(bits: Word) | TimedOut | Waits

  function RecvEvent(s: State, flag: Flag, t: nat, w: Info, wait: bool, prio: seq<int>): (State, Reply) {
    if w.bits == {} then (s, Error)
    else if Satisfied(s.events, w) then (s.(events := Receive(s.events, w).1), Got(Receive(s.events, w).0))
    else if !wait then (s, TimedOut)
    else (State(s.events, Enqueue(flag, s.waiters, t, prio), s.info[t := w]), Waits)
  }

  /** The information of the threads when some of them got bits. */
  ghost function Given(info: map<nat, Info>, gots: map<nat, Word>): map<nat, Info> {
    map t | t in info :: if t in gots then info[t].(bits := gots[t]) else info[t]
  }

  ghost function SendEvent(s: State, bits: Word): State
    requires forall t :: t in s.waiters ==> t in s.info
  {
    if bits == {} then s else
      var (left, rest, gots) := Serve(s.events + bits, s.waiters, s.info);
      State(left, rest, Given(s.info, gots))
  }

  /** A receive answers with the bits exactly when all of them, or with OR any of them, are set.  Then it gets those of
      them that are set; with CLEAR no bit of those asked for stays set, and every other bit stays as it was.  A receive
      that gets nothing leaves the set alone, and waits for what it asked, if it may. */
  lemma RecvLeaves(s: State, flag: Flag, t: nat, w: Info, wait: bool, prio: seq<int>)
    ensures var (r, reply) := RecvEvent(s, flag, t, w, wait, prio);
      && (reply.Error? <==> w.bits == {})
      && (reply.Got? <==>
          w.bits != {} &&
          if w.option.all then w.bits <= s.events else w.option.any && w.bits * s.events != {})
      && (reply.Got? ==> reply.bits == w.bits * s.events && r.waiters == s.waiters && r.info == s.info)
      && (forall b :: b in r.events <==> b in s.events && !(reply.Got? && w.option.clear && b in w.bits))
      && (reply.Waits? <==> !reply.Error? && !reply.Got? && wait)
      && (reply.Waits? ==> r.waiters == Enqueue(flag, s.waiters, t, prio) && r.info == s.info[t := w])
      && (!reply.Waits? ==> r.waiters == s.waiters && r.info == s.info)
  {
    assert w.bits <= s.events <==> s.events * w.bits == w.bits;
    assert w.bits * s.events == s.events * w.bits;
  }

  /** The waiters leave, and each in its turn asks again for what it waited for; what it gets is put down as the sender
      does for a waiting thread. */
  ghost function AskAgain(s: State, waiters: seq<nat>): State
    requires forall t :: t in waiters ==> t in s.info
    decreases |waiters|
  {
    if waiters == [] then s else
      var t := waiters[0];
      var (r, reply) := RecvEvent(s, Fifo, t, s.info[t], true, []);
      AskAgain(if reply.Got? then r.(info := s.info[t := s.info[t].(bits := reply.bits)]) else r, waiters[1..])
  }

  /** What is put down for `t` does not matter to the others. */
  lemma {:induction false} ServeOthers(events: Word, waiters: seq<nat>, info: map<nat, Info>, t: nat, x: Info)
    requires t !in waiters && forall u :: u in waiters ==> u in info
    ensures Serve(events, waiters, info[t := x]) == Serve(events, waiters, info)
  {
    if waiters != [] {
      assert forall u :: u in waiters[1..] ==> u in waiters;
      ServeOthers(events, waiters[1..], info, t, x);
      ServeOthers(Receive(events, info[waiters[0]]).1, waiters[1..], info, t, x);
    }
  }

  lemma {:induction false} ServeIsAskAgain(s: State, waiters: seq<nat>)
    requires NoRepeats(waiters) && Asking(waiters, s.info)
    ensures var (left, rest, gots) := Serve(s.events, waiters, s.info);
      AskAgain(s, waiters) == State(left, s.waiters + rest, Given(s.info, gots))
    decreases |waiters|, 1
  {
    if waiters == [] {
      assert s.waiters + [] == s.waiters && Given(s.info, map[]) == s.info;
    } else {
      var t := waiters[0];
      HeadGone(waiters);
      if Satisfied(s.events, s.info[t]) {
        AskServed(s, waiters);
      } else {
        var r := s.(waiters := s.waiters + [t]);
        assert s.info[t := s.info[t]] == s.info;
        ServeIsAskAgain(r, waiters[1..]);
        var rest := Serve(r.events, waiters[1..], s.info).1;
        assert s.waiters + ([t] + rest) == (s.waiters + [t]) + rest;
      }
    }
  }

  lemma {:induction false} AskServed(s: State, waiters: seq<nat>)
    requires waiters != [] && NoRepeats(waiters) && Asking(waiters, s.info) && Satisfied(s.events, s.info[waiters[0]])
    ensures var (left, rest, gots) := Serve(s.events, waiters, s.info);
      AskAgain(s, waiters) == State(left, s.waiters + rest, Given(s.info, gots))
    decreases |waiters|, 0
  {
    var t := waiters[0];
    HeadGone(waiters);
    hide NoRepeats;
    var (got, left) := Receive(s.events, s.info[t]);
    var r := State(left, s.waiters, s.info[t := s.info[t].(bits := got)]);
    ServeIsAskAgain(r, waiters[1..]);
    ServeOthers(left, waiters[1..], s.info, t, s.info[t].(bits := got));
    ServeQuiesces(left, waiters[1..], s.info);
    var gots := Serve(left, waiters[1..], s.info).2;
    assert t !in gots;
    assert Given(r.info, gots) == Given(s.info, gots[t := got]);
  }

  /** A send comes to the same as setting the bits and letting all who wait ask again, in the order of the list. */
  lemma SendIsAskAgain(s: State, bits: Word)
    requires EventOk(s) && bits != {}
    ensures SendEvent(s, bits) == AskAgain(State(s.events + bits, [], s.info), s.waiters)
  {
    ServeIsAskAgain(State(s.events + bits, [], s.info), s.waiters);
    hide Serve, AskAgain, Satisfied, NoRepeats;
    var rest := Serve(s.events + bits, s.waiters, s.info).1;
    assert [] + rest == rest;
  }

  /** A send to a lone waiter: it is served exactly when its bits are there, with those that are, and the set that is
      left is the one that its receive after the send would leave. */
  lemma SendToOne(s: State, bits: Word, t: nat)
    requires EventOk(s) && s.waiters == [t] && bits != {}
    ensures var r, w, set' := SendEvent(s, bits), s.info[t], s.events + bits;
      if (if w.option.all then w.bits <= set' else w.option.any && w.bits * set' != {}) then
        && r.waiters == [] && r.info[t].bits == w.bits * set'
        && r.events == if w.option.clear then set' - w.bits else set'
      else r.waiters == [t] && r.events == set' && r.info == s.info
  {
    var w, set' := s.info[t], s.events + bits;
    assert s.waiters[1..] == [];
    assert t in s.waiters;
    ServeNext(set', s.waiters, s.info);
    assert Serve(Receive(set', w).1, [], s.info) == (Receive(set', w).1, [], map[]);
    assert Serve(set', [], s.info) == (set', [], map[]);
    assert w.bits <= set' <==> set' * w.bits == w.bits;
    assert w.bits * set' == set' * w.bits;
    hide Serve;
    assert !Satisfied(set', w) ==> SendEvent(s, bits).info == s.info;
  }

  lemma RecvOk(s: State, flag: Flag, t: nat, w: Info, wait: bool, prio: seq<int>)
    requires EventOk(s) && t !in s.waiters
    ensures EventOk(RecvEvent(s, flag, t, w, wait, prio).0)
  {
    EnqueueMembers(flag, s.waiters, t, prio);
    var fewer := Receive(s.events, w).1;
    hide NoRepeats, Enqueue;
    assert fewer <= s.events;
    hide Receive;
    forall u | u in s.waiters ensures !Satisfied(fewer, s.info[u]) {
      FewerEvents(fewer, s.events, s.info[u]);
    }
    hide Satisfied;
  }

  lemma SendOk(s: State, bits: Word)
    requires EventOk(s)
    ensures EventOk(SendEvent(s, bits))
  {
    ServeQuiesces(s.events + bits, s.waiters, s.info);
    hide Serve, Satisfied, NoRepeats;
  }

  lemma TimeoutOk(s: State, t: nat)
    requires EventOk(s)
    ensures EventOk(s.(waiters := Without(s.waiters, t)))
  {
    WithoutFacts(s.waiters, t);
    hide Satisfied;
  }

  // ---------------------------------------------------------- whole runs

  datatype Op = Send(bits: Word) | Recv(t: nat, w: Info, wait: bool) | Timeout(t: nat) | Reset

  datatype Step = Step(op: Op, prio: seq<int>)

  ghost predicate Enabled(s: State, op: Op) {
    op.Recv? ==> op.t !in s.waiters
  }

  ghost function Next(s: State, flag: Flag, x: Step): State
    requires EventOk(s)
  {
    match x.op
    case Send(bits) => SendEvent(s, bits)
    case Recv(t, w, wait) => RecvEvent(s, flag, t, w, wait, x.prio).0
    case Timeout(t) => s.(waiters := Without(s.waiters, t))
    case Reset => s.(events := {}, waiters := [])
  }

  lemma NextOk(s: State, flag: Flag, x: Step)
    requires EventOk(s) && Enabled(s, x.op)
    ensures EventOk(Next(s, flag, x))
  {
    match x.op
    case Send(bits) => SendOk(s, bits);
    case Recv(t, w, wait) => RecvOk(s, flag, t, w, wait, x.prio);
    case Timeout(t) => TimeoutOk(s, t);
    case Reset =>
  }

  ghost predicate Reaches(s: State, flag: Flag, run: seq<Step>, r: State)
    requires EventOk(s)
    decreases |run|
  {
    if run == [] then r == s else
      Enabled(s, run[0].op) && (NextOk(s, flag, run[0]); Reaches(Next(s, flag, run[0]), flag, run[1..], r))
  }

  /** After every send, receive, timeout or reset of every run, nobody who waits is satisfied by the events set. */
  lemma {:induction false} AlwaysQuiescent(s: State, flag: Flag, run: seq<Step>, r: State)
    requires EventOk(s) && Reaches(s, flag, run, r)
    ensures EventOk(r)
    decreases |run|
  {
    if run != [] {
      NextOk(s, flag, run[0]);
      AlwaysQuiescent(Next(s, flag, run[0]), flag, run[1..], r);
    }
  }

  class Event {
    const flag: Flag
    var events: Word
    var waiters: seq<nat>
    var info: map<nat, Info>

    function Abs(): State
      reads this
    {
      State(events, waiters, info)
    }

    constructor (flag: Flag)
      ensures this.flag == flag && Abs() == State({}, [], map[]) && EventOk(Abs())
    {
      this.flag := flag;
      events, waiters, info := {}, [], map[];
    }

    /** rt_event_send: one pass over the waiting threads, each looked at with the events left by those before it. */
    method Send(bits: Word) returns (ok: bool)
      requires EventOk(Abs())
      modifies this
      ensures EventOk(Abs()) && (ok <==> bits != {}) && Abs() == SendEvent(old(Abs()), bits)
    {
      if bits == {} {
        return false;
      }
      hide Satisfied, Receive, NoRepeats, Deliver, Pass, Served, Serve, Quiescent, Asking, SendEvent, Given, EventOk;
      PassStart(events + bits, Abs());
      events := events + bits;
      ghost var whole := Serve(events, waiters, info);
      ghost var gots: map<nat, Word> := map[];
      var n := 0;
      while n < |waiters|
        invariant 0 <= n <= |waiters| && Pass(whole, events, waiters, n, gots, old(info), info)
        decreases |waiters| - n
      {
        var t := waiters[n];
        PassNext(whole, events, waiters, n, gots, old(info), info);
        if Satisfied(events, info[t]) {
          var (got, left) := Deliver(events, info[t]);
          info := info[t := info[t].(bits := got)];
          events := left;
          gots := gots[t := got];
          waiters := waiters[..n] + waiters[n + 1..];
        } else {
          n := n + 1;
        }
      }
      PassEnd(whole, events, waiters, gots, old(info), info);
      SentIs(old(Abs()), bits, Abs());
      ok := true;
    }

    /** rt_event_recv up to the point where it returns or waits; `option` asks for all or any of the bits. */
    method Recv(t: nat, bits: Word, option: Option, wait: bool, prio: seq<int>) returns (r: Reply)
      requires EventOk(Abs()) && t !in waiters && (option.all || option.any)
      modifies this
      ensures EventOk(Abs()) && (Abs(), r) == RecvEvent(old(Abs()), flag, t, Info(bits, option), wait, prio)
      ensures r.Got? ==> r.bits == bits * old(events) && events == old(events) - (if option.clear then bits else {})
      ensures !r.Got? ==> events == old(events)
      ensures r.Waits? <==> bits != {} && wait && !if option.all then bits <= old(events) else bits * old(events) != {}
    {
      RecvLeaves(Abs(), flag, t, Info(bits, option), wait, prio);
      assert bits * events == events * bits;
      RecvOk(Abs(), flag, t, Info(bits, option), wait, prio);
      hide NoRepeats, Enqueue, Quiescent;
      if bits == {} {
        return Error;
      }
      var ok := if option.all then events * bits == bits else events * bits != {};
      if ok {
        r := Got(events * bits);
        if option.clear {
          events := events - bits;
        }
      } else if !wait {
        r := TimedOut;
      } else {
        info := info[t := Info(bits, option)];
        waiters := SuspendOn(flag, waiters, t, prio);
        r := Waits;
      }
    }

    /** rt_thread_timeout for a waiting thread. */
    method TimeoutOf(t: nat)
      requires EventOk(Abs())
      modifies this
      ensures EventOk(Abs()) && Abs() == old(Abs()).(waiters := Without(old(waiters), t))
    {
      TimeoutOk(Abs(), t);
      waiters := Without(waiters, t);
    }

    /** RT_IPC_CMD_RESET. */
    method ResetAll() returns (sent: seq<nat>)
      requires EventOk(Abs())
      modifies this
      ensures EventOk(Abs()) && Abs() == old(Abs()).(events := {}, waiters := []) && sent == old(waiters)
    {
      sent := waiters;
      waiters := [];
      events := {};
    }
  }

  /** Half way through a pass, at position `n`: the whole of it is what is done and what the rest will do. */
  ghost predicate Pass(whole: (Word, seq<nat>, map<nat, Word>), events: Word, waiters: seq<nat>, n: nat,
                       gots: map<nat, Word>, info: map<nat, Info>, info': map<nat, Info>) {
    && n <= |waiters| && NoRepeats(waiters) && Served(info, info', gots)
    && (forall t :: t in waiters ==> t in info && t !in gots)
    && var rest := Serve(events, waiters[n..], info);
      whole.0 == rest.0 && whole.1 == waiters[..n] + rest.1 && whole.2 == gots + rest.2
  }

  lemma PassStart(events: Word, s: State)
    requires EventOk(s)
    ensures forall t :: t in s.waiters ==> t in s.info
    ensures var whole := Serve(events, s.waiters, s.info);
      Pass(whole, events, s.waiters, 0, map[], s.info, s.info)
  {
    assert s.waiters[0..] == s.waiters;
    var whole := Serve(events, s.waiters, s.info);
    assert whole.1 == s.waiters[..0] + whole.1;
    assert whole.2 == map[] + whole.2;
  }

  lemma SentIs(s: State, bits: Word, r: State)
    requires EventOk(s) && bits != {}
    requires var (left, rest, gots) := Serve(s.events + bits, s.waiters, s.info);
      r.events == left && r.waiters == rest && Served(s.info, r.info, gots)
    ensures r == SendEvent(s, bits) && EventOk(r)
  {
    SendOk(s, bits);
    assert r.info == SendEvent(s, bits).info;
  }

  lemma PassNext(whole: (Word, seq<nat>, map<nat, Word>), events: Word, waiters: seq<nat>, n: nat,
                 gots: map<nat, Word>, info: map<nat, Info>, info': map<nat, Info>)
    requires Pass(whole, events, waiters, n, gots, info, info') && n < |waiters|
    ensures waiters[n] in info'
    ensures var t := waiters[n];
      if Satisfied(events, info'[t]) then
        var (got, left) := Deliver(events, info'[t]);
        Pass(whole, left, waiters[..n] + waiters[n + 1..], n, gots[t := got], info, info'[t := info'[t].(bits := got)])
      else Pass(whole, events, waiters, n + 1, gots, info, info')
  {
    var t := waiters[n];
    assert waiters[n..][1..] == waiters[n + 1..];
    ServeNext(events, waiters[n..], info);
    hide Satisfied, Receive, Serve, Deliver;
    assert info'[t] == info[t];
    if Satisfied(events, info[t]) {
      DeferredIsImmediate(events, info[t]);
      DropAt(waiters, n);
      hide NoRepeats;
      ServedOne(info, info', gots, t, Deliver(events, info[t]).0);
      PassServed(whole, events, waiters, n, gots, info);
    } else {
      var rest := Serve(events, waiters[n + 1..], info);
      assert waiters[..n + 1] == waiters[..n] + [t];
      assert waiters[..n] + ([t] + rest.1) == waiters[..n + 1] + rest.1;
    }
  }

  lemma PassServed(whole: (Word, seq<nat>, map<nat, Word>), events: Word, waiters: seq<nat>, n: nat,
                   gots: map<nat, Word>, info: map<nat, Info>)
    requires n < |waiters| && (forall t :: t in waiters ==> t in info && t !in gots)
      && Satisfied(events, info[waiters[n]])
    requires NoRepeats(waiters)
    requires var rest := Serve(events, waiters[n..], info);
      whole.0 == rest.0 && whole.1 == waiters[..n] + rest.1 && whole.2 == gots + rest.2
    ensures forall t :: t in waiters[n + 1..] ==> t in info
    ensures var (got, left) := Receive(events, info[waiters[n]]);
      var waiters' := waiters[..n] + waiters[n + 1..];
      var rest := Serve(left, waiters[n + 1..], info);
      waiters'[n..] == waiters[n + 1..] && waiters'[..n] == waiters[..n]
      && whole.0 == rest.0 && whole.1 == waiters[..n] + rest.1 && whole.2 == gots[waiters[n] := got] + rest.2
  {
    var t := waiters[n];
    assert waiters[n..][1..] == waiters[n + 1..];
    ServeNext(events, waiters[n..], info);
    ServeQuiesces(Receive(events, info[t]).1, waiters[n + 1..], info);
    hide Satisfied, Receive, Serve, Quiescent;
    var (got, left) := Receive(events, info[t]);
    var rest := Serve(left, waiters[n + 1..], info);
    assert t !in waiters[n + 1..] by { DropAt(waiters, n); }
    assert gots + rest.2[t := got] == gots[t := got] + rest.2;
  }

  lemma ServedOne(info: map<nat, Info>, info': map<nat, Info>, gots: map<nat, Word>, t: nat, got: Word)
    requires Served(info, info', gots) && t in info && t !in gots
    ensures Served(info, info'[t := info'[t].(bits := got)], gots[t := got])
  {
  }

  lemma PassEnd(whole: (Word, seq<nat>, map<nat, Word>), events: Word, waiters: seq<nat>,
                gots: map<nat, Word>, info: map<nat, Info>, info': map<nat, Info>)
    requires Pass(whole, events, waiters, |waiters|, gots, info, info')
    ensures events == whole.0 && waiters == whole.1 && Served(info, info', whole.2)
  {
    assert waiters[|waiters|..] == [] && waiters[..|waiters|] + [] == waiters;
    assert whole.2 == gots;
  }

  lemma ServeNext(events: Word, waiters: seq<nat>, info: map<nat, Info>)
    requires waiters != [] && forall t :: t in waiters ==> t in info
    ensures forall t :: t in waiters[1..] ==> t in info
    ensures var t := waiters[0];
      Serve(events, waiters, info) ==
        if Satisfied(events, info[t]) then
          var (got, left) := Receive(events, info[t]);
          var (s, rest, gots) := Serve(left, waiters[1..], info);
          (s, rest, gots[t := got])
        else
          var (s, rest, gots) := Serve(events, waiters[1..], info);
          (s, [t] + rest, gots)
  {
  }

  lemma DropAt(s: seq<nat>, n: nat)
    requires NoRepeats(s) && n < |s|
    ensures NoRepeats(s[..n] + s[n + 1..]) && forall x :: x in s[..n] + s[n + 1..] <==> x in s && x != s[n]
    ensures (s[..n] + s[n + 1..])[n..] == s[n..][1..] && s[n..][0] == s[n] && s[n] !in s[n + 1..]
  {
  }
}
