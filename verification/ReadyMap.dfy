/** The two bitmap layouts behind the ready queues (scheduler.c): one word for up to 32 priorities, or a
    group word over a table of bytes for up to 256. */
module ReadyMaps {
  import opened Bits

  datatype ReadyMap = Flat(group: nat) | TwoLevel(group: nat, table: seq<nat>)

  /** The masks a thread carries for its priority. */
  datatype Attr = Attr(number: nat, numberMask: nat, highMask: nat)

  function AttrOf(priority: nat, flat: bool): Attr {
    if flat then Attr(0, Mask(priority), 0)
    else Attr(priority / 8, Mask(priority / 8), Mask(priority % 8))
  }

  function SetBits(m: ReadyMap, a: Attr): ReadyMap
    requires m.TwoLevel? ==> a.number < |m.table|
  {
    if m.Flat? then Flat(Or(m.group, a.numberMask))
    else TwoLevel(Or(m.group, a.numberMask), m.table[a.number := Or(m.table[a.number], a.highMask)])
  }

  function ClearBits(m: ReadyMap, a: Attr): ReadyMap
    requires m.TwoLevel? ==> a.number < |m.table|
  {
    if m.Flat? then Flat(AndNot(m.group, a.numberMask))
    else
      var b := AndNot(m.table[a.number], a.highMask);
      TwoLevel(if b == 0 then AndNot(m.group, a.numberMask) else m.group, m.table[a.number := b])
  }

  /** The most urgent ready priority, by find-first-set. */
  function Highest(m: ReadyMap): int
    requires m.group < 0x1_0000_0000
    requires m.TwoLevel? ==> |m.table| == 32 && (forall n: nat :: n < 32 ==> m.table[n] < 256) && 0 < Ffs(m.group) <= 32
  {
    if m.Flat? then Ffs(m.group) - 1
    else
      var number := Ffs(m.group) - 1;
      number * 8 + Ffs(m.table[number]) - 1
  }

  ghost predicate Nonempty(queues: seq<seq<nat>>, p: int) {
    0 <= p < |queues| && queues[p] != []
  }

  /** Bit `p` is set if and only if queue `p` is not empty. */
  ghost predicate MapOk(m: ReadyMap, queues: seq<seq<nat>>) {
    && m.group < Pow2(32)
    && if m.Flat? then |queues| <= 32 && forall p: nat :: p < 32 ==> (Bit(m.group, p) <==> Nonempty(queues, p))
       else
         && |m.table| == 32 && |queues| <= 256
         && (forall n: nat :: n < 32 ==> m.table[n] < 256 && (Bit(m.group, n) <==> m.table[n] != 0))
         && (forall n: nat, b: nat :: n < 32 && b < 8 ==> (Bit(m.table[n], b) <==> Nonempty(queues, 8 * n + b)))
  }

  lemma {:induction false} Pow2Of32()
    ensures Pow2(32) == 0x1_0000_0000
  {
    Pow2Of8();
    assert Pow2(10) == 1024;
    assert Pow2(12) == 4096;
    assert Pow2(14) == 16384;
    assert Pow2(16) == 65536;
    assert Pow2(18) == 262144;
    assert Pow2(20) == 1048576;
    assert Pow2(22) == 4194304;
    assert Pow2(24) == 16777216;
    assert Pow2(26) == 67108864;
    assert Pow2(28) == 268435456;
    assert Pow2(30) == 1073741824;
  }

  /** `p` is the least priority with a non-empty queue. */
  ghost predicate IsTop(queues: seq<seq<nat>>, p: int) {
    0 <= p < |queues| && queues[p] != [] && forall q :: 0 <= q < p ==> queues[q] == []
  }

  lemma FlatHighest(m: ReadyMap, queues: seq<seq<nat>>, p: nat)
    requires m.Flat? && MapOk(m, queues) && Nonempty(queues, p)
    ensures m.group < 0x1_0000_0000 && IsTop(queues, Highest(m))
  {
    Pow2Of32();
    hide Pow2;
    FfsMeaning(m.group);
    if m.group == 0 { ZeroBits(p); }
    hide Bit;
    BitInRange(m.group, 32, Ffs(m.group) - 1);
    hide Ffs;
    var h := Highest(m);
    forall q | 0 <= q < h ensures queues[q] == [] {
      assert !Nonempty(queues, q);
    }
  }

  lemma TwoLevelHighest(m: ReadyMap, queues: seq<seq<nat>>, p: nat)
    requires m.TwoLevel? && MapOk(m, queues) && Nonempty(queues, p)
    ensures m.group < 0x1_0000_0000 && 0 < Ffs(m.group) <= 32 && IsTop(queues, Highest(m))
  {
    Pow2Of32();
    Pow2Of8();
    hide Pow2, Ffs;
    assert 8 * (p / 8) + p % 8 == p;
    assert Bit(m.table[p / 8], p % 8);
    if m.table[p / 8] == 0 { ZeroBits(p % 8); }
    if m.group == 0 { ZeroBits(p / 8); }
    hide Bit;
    FfsMeaning(m.group);
    var n := Ffs(m.group) - 1;
    BitInRange(m.group, 32, n);
    var w := m.table[n];
    FfsMeaning(w);
    var b := Ffs(w) - 1;
    BitInRange(w, 8, b);
    assert Nonempty(queues, 8 * n + b);
    forall q | 0 <= q < 8 * n + b ensures queues[q] == [] {
      EmptyBelow(m, queues, n, b, q);
    }
  }

  lemma EmptyBelow(m: ReadyMap, queues: seq<seq<nat>>, n: nat, b: nat, q: nat)
    requires m.TwoLevel? && MapOk(m, queues) && n < 32 && b < 8 && q < 8 * n + b
    requires IsLowest(m.group, n) && IsLowest(m.table[n], b)
    ensures !Nonempty(queues, q)
  {
    hide Pow2;
    assert 8 * (q / 8) + q % 8 == q;
    if q / 8 < n {
      assert m.table[q / 8] == 0;
      ZeroBits(q % 8);
      assert !Bit(m.table[q / 8], q % 8);
    } else {
      assert q / 8 == n && !Bit(m.table[n], q % 8);
    }
  }

  /** Whichever layout is in use, find-first-set gives the least priority with a ready thread. */
  lemma HighestIsTop(m: ReadyMap, queues: seq<seq<nat>>, p: nat)
    requires MapOk(m, queues) && Nonempty(queues, p)
    ensures m.group < 0x1_0000_0000 && (m.TwoLevel? ==> 0 < Ffs(m.group) <= 32)
    ensures IsTop(queues, Highest(m))
  {
    hide MapOk, Highest, Ffs;
    if m.Flat? { FlatHighest(m, queues, p); } else { TwoLevelHighest(m, queues, p); }
  }

  /** The queues agree on which are empty, but for queue `p`. */
  ghost predicate OnlyQueue(queues: seq<seq<nat>>, queues': seq<seq<nat>>, p: nat) {
    && |queues'| == |queues| && p < |queues|
    && forall q :: 0 <= q < |queues| && q != p ==> (queues'[q] == [] <==> queues[q] == [])
  }

  lemma SetBitsOk(m: ReadyMap, queues: seq<seq<nat>>, queues': seq<seq<nat>>, p: nat)
    requires MapOk(m, queues) && OnlyQueue(queues, queues', p) && queues'[p] != []
    ensures AttrOf(p, m.Flat?).number < 32 && MapOk(SetBits(m, AttrOf(p, m.Flat?)), queues')
  {
    var a := AttrOf(p, m.Flat?);
    assert a.numberMask < Pow2(32) by { if m.Flat? { Pow2Grows(p, 32); } else { Pow2Grows(p / 8, 32); } }
    OrInRange(m.group, a.numberMask, 32);
    if m.Flat? {
      hide Pow2, Or, Bit;
      forall q: nat | q < 32 ensures Bit(Or(m.group, a.numberMask), q) <==> Nonempty(queues', q) {
        OrBit(m.group, a.numberMask, q);
        MaskBit(p, q);
      }
    } else {
      SetTwoLevel(m, queues, queues', p, a);
    }
  }

  lemma SetTwoLevel(m: ReadyMap, queues: seq<seq<nat>>, queues': seq<seq<nat>>, p: nat, a: Attr)
    requires m.TwoLevel? && MapOk(m, queues) && OnlyQueue(queues, queues', p) && queues'[p] != []
    requires a == AttrOf(p, false) && Or(m.group, a.numberMask) < Pow2(32)
    ensures a.number < 32 && MapOk(SetBits(m, a), queues')
  {
    var m' := SetBits(m, a);
    var w := m.table[a.number];
    Pow2Of8();
    Pow2Grows(p % 8, 8);
    OrInRange(w, a.highMask, 8);
    hide Pow2, Or, Bit;
    OrBit(w, a.highMask, p % 8);
    MaskBit(p % 8, p % 8);
    if m'.table[a.number] == 0 { ZeroBits(p % 8); }
    forall n: nat | n < 32 ensures m'.table[n] < 256 && (Bit(m'.group, n) <==> m'.table[n] != 0) {
      OrBit(m.group, a.numberMask, n);
      MaskBit(p / 8, n);
    }
    SetTable(m, queues, queues', p, a);
  }

  lemma SetTable(m: ReadyMap, queues: seq<seq<nat>>, queues': seq<seq<nat>>, p: nat, a: Attr)
    requires m.TwoLevel? && MapOk(m, queues) && OnlyQueue(queues, queues', p) && queues'[p] != []
    requires a == AttrOf(p, false)
    ensures a.number < 32
    ensures forall n: nat, b: nat :: n < 32 && b < 8 ==>
      (Bit(SetBits(m, a).table[n], b) <==> Nonempty(queues', 8 * n + b))
  {
    hide Pow2, Or, Bit;
    var m' := SetBits(m, a);
    var w := m.table[a.number];
    forall n: nat, b: nat | n < 32 && b < 8 ensures Bit(m'.table[n], b) <==> Nonempty(queues', 8 * n + b) {
      OrBit(w, a.highMask, b);
      MaskBit(p % 8, b);
      assert Bit(m.table[n], b) <==> Nonempty(queues, 8 * n + b);
      assert 8 * n + b == p <==> n == p / 8 && b == p % 8;
    }
  }

  lemma ClearBitsOk(m: ReadyMap, queues: seq<seq<nat>>, queues': seq<seq<nat>>, p: nat)
    requires MapOk(m, queues) && OnlyQueue(queues, queues', p) && queues'[p] == []
    ensures AttrOf(p, m.Flat?).number < 32 && MapOk(ClearBits(m, AttrOf(p, m.Flat?)), queues')
  {
    var a := AttrOf(p, m.Flat?);
    AndNotInRange(m.group, a.numberMask, 32);
    if m.Flat? {
      hide Pow2, AndNot, Bit;
      forall q: nat | q < 32 ensures Bit(AndNot(m.group, a.numberMask), q) <==> Nonempty(queues', q) {
        AndNotBit(m.group, a.numberMask, q);
        MaskBit(p, q);
      }
    } else {
      ClearTwoLevel(m, queues, queues', p, a);
    }
  }

  lemma ClearTwoLevel(m: ReadyMap, queues: seq<seq<nat>>, queues': seq<seq<nat>>, p: nat, a: Attr)
    requires m.TwoLevel? && MapOk(m, queues) && OnlyQueue(queues, queues', p) && queues'[p] == []
    requires a == AttrOf(p, false) && AndNot(m.group, a.numberMask) < Pow2(32)
    ensures a.number < 32 && MapOk(ClearBits(m, a), queues')
  {
    var m' := ClearBits(m, a);
    var w := m.table[a.number];
    Pow2Of8();
    AndNotInRange(w, a.highMask, 8);
    hide Pow2, AndNot, Bit, Mask;
    if w == 0 { StillZero(a.highMask); }
    forall n: nat | n < 32 ensures m'.table[n] < 256 && (Bit(m'.group, n) <==> m'.table[n] != 0) {
      AndNotBit(m.group, a.numberMask, n);
      MaskBit(p / 8, n);
    }
    ClearTable(m, queues, queues', p, a);
  }

  lemma ClearTable(m: ReadyMap, queues: seq<seq<nat>>, queues': seq<seq<nat>>, p: nat, a: Attr)
    requires m.TwoLevel? && MapOk(m, queues) && OnlyQueue(queues, queues', p) && queues'[p] == []
    requires a == AttrOf(p, false)
    ensures a.number < 32
    ensures forall n: nat, b: nat :: n < 32 && b < 8 ==>
      (Bit(ClearBits(m, a).table[n], b) <==> Nonempty(queues', 8 * n + b))
  {
    hide Pow2, AndNot, Bit;
    var m' := ClearBits(m, a);
    var w := m.table[a.number];
    forall n: nat, b: nat | n < 32 && b < 8 ensures Bit(m'.table[n], b) <==> Nonempty(queues', 8 * n + b) {
      AndNotBit(w, a.highMask, b);
      MaskBit(p % 8, b);
      assert Bit(m.table[n], b) <==> Nonempty(queues, 8 * n + b);
      assert 8 * n + b == p <==> n == p / 8 && b == p % 8;
    }
  }

  lemma StillZero(b: nat)
    ensures AndNot(0, b) == 0
  {
  }

  /** Nothing about the map changes while the same queues are empty. */
  lemma SameQueues(m: ReadyMap, queues: seq<seq<nat>>, queues': seq<seq<nat>>)
    requires MapOk(m, queues) && |queues'| == |queues|
    requires forall q :: 0 <= q < |queues| ==> (queues'[q] == [] <==> queues[q] == [])
    ensures MapOk(m, queues')
  {
    hide Pow2, Bit;
    assert forall p: nat :: Nonempty(queues, p) <==> Nonempty(queues', p);
    if m.TwoLevel? {
      forall n: nat, b: nat | n < 32 && b < 8 ensures Bit(m.table[n], b) <==> Nonempty(queues', 8 * n + b) {
        assert Bit(m.table[n], b) <==> Nonempty(queues, 8 * n + b);
      }
    }
  }

  lemma EmptyMapOk(levels: nat)
    requires 0 < levels <= 256
    ensures MapOk(if levels <= 32 then Flat(0) else TwoLevel(0, seq(32, _ => 0)), seq(levels, _ => []))
  {
    Pow2Of32();
    forall k: nat ensures !Bit(0, k) { ZeroBits(k); }
  }
}
