/** The memory heap of memheap.c: an address-ordered circular block list and an
    unordered circular free list through the same headers. */
module MemHeaps {
  import Sequences
  import opened Tilings
  import opened Payloads
  import opened Rings
  import opened Servings
  import opened Words

  const HEADER: nat := 24            // RT_MEMHEAP_SIZE
  const MINIALLOC: nat := 12         // RT_MEMHEAP_MINIALLOC
  const FREE_HEADER: int := -1       // the free list head; it lies outside the pool

  /** The payload size the allocator works with. */
  function Request(size: nat): nat {
    if RtAlign(size) < MINIALLOC then MINIALLOC else RtAlign(size)
  }

  /** All headers: block links, free links, used flags; and the bytes of the pool. */
  datatype Pool = Pool(blocks: Links, frees: Links, flag: map<int, bool>, cells: seq<Cell>)

  /** Writing a word of the header at `p`.  The free list head is not in the pool. */
  function Touch(c: seq<Cell>, p: int): (r: seq<Cell>)
    ensures |r| == |c|
  {
    if 0 <= p && p + HEADER <= |c| then Clobber(c, p, HEADER) else c
  }

  // ------------------------------------------- the pointer manipulations

  /** A new free header at `c`, linked into the block list after `p`. */
  function SplitBlock(m: Pool, p: int, c: int): Pool
    requires p in m.blocks.next
  {
    m.(blocks := LinkAfter(m.blocks, p, c), flag := m.flag[c := false],
       cells := Touch(Touch(Touch(m.cells, c), m.blocks.next[p]), p))
  }

  /** Take the header `n` out of the block list. */
  function JoinBlock(m: Pool, n: int): Pool
    requires n in m.blocks.next && n in m.blocks.prev
  {
    m.(blocks := Unlink(m.blocks, n), cells := Touch(Touch(m.cells, m.blocks.next[n]), m.blocks.prev[n]))
  }

  /** Put `x` first in the free list. */
  function PushFree(m: Pool, x: int): Pool
    requires FREE_HEADER in m.frees.next
  {
    m.(frees := LinkAfter(m.frees, FREE_HEADER, x), cells := Touch(Touch(m.cells, x), m.frees.next[FREE_HEADER]))
  }

  /** Take `x` out of the free list. */
  function DropFree(m: Pool, x: int): Pool
    requires x in m.frees.next && x in m.frees.prev
  {
    m.(frees := Unlink(m.frees, x), cells := Touch(Touch(Touch(m.cells, m.frees.next[x]), m.frees.prev[x]), x))
  }

  function SetUsed(m: Pool, p: int, v: bool): Pool {
    m.(flag := m.flag[p := v], cells := Touch(m.cells, p))
  }

  // ---------------------------------------------------------- invariants

  ghost predicate IsFree(t: Tiling, end: nat, x: int) {
    0 <= x != end && x in t.bounds && x !in t.used
  }

  /** The block list is the ring of all bounds, and the flags say which blocks are used.
      The end header counts as used. */
  ghost predicate BlocksOk(m: Pool, t: Tiling, end: nat) {
    && IsRing(m.blocks, t.bounds)
    && forall x: nat | x in t.bounds :: x in m.flag && (m.flag[x] <==> (x in t.used || x == end))
  }

  /** The free list is a ring through its head, holding exactly the free blocks. */
  ghost predicate FreesOk(m: Pool, t: Tiling, free: seq<int>, end: nat) {
    && IsRing(m.frees, [FREE_HEADER] + free)
    && forall x :: x in free <==> IsFree(t, end, x)
  }

  ghost predicate Aligned(b: seq<nat>) {
    forall i :: 0 <= i < |b| ==> b[i] % 4 == 0
  }

  ghost predicate Shaped(t: Tiling, end: nat) {
    Tiles(t, end) && Spaced(t, HEADER) && Aligned(t.bounds)
  }

  ghost predicate Holds(m: Pool, t: Tiling, free: seq<int>, end: nat) {
    && |m.cells| == end + HEADER
    && Shaped(t, end) && BlocksOk(m, t, end) && FreesOk(m, t, free, end)
  }

  // -------------------------------------------------- one step at a time

  lemma TouchKeeps(c: seq<Cell>, t: Tiling, p: int)
    requires Increasing(t.bounds) && Spaced(t, HEADER)
    requires p < 0 || p in t.bounds
    ensures SamePayload(c, Touch(c, p), t, HEADER)
  {
    if 0 <= p && p + HEADER <= |c| {
      ClobberHeader(c, p, t, IndexIn(t.bounds, p), HEADER);
    }
  }

  lemma TouchBoth(c: seq<Cell>, t: Tiling, p: int, q: int)
    requires Increasing(t.bounds) && Spaced(t, HEADER)
    requires p < 0 || p in t.bounds
    requires q < 0 || q in t.bounds
    ensures SamePayload(c, Touch(Touch(c, p), q), t, HEADER)
  {
    TouchKeeps(c, t, p);
    TouchKeeps(Touch(c, p), t, q);
    SamePayloadTrans(c, Touch(c, p), Touch(Touch(c, p), q), t, HEADER);
  }

  lemma TouchThree(c: seq<Cell>, t: Tiling, p: int, q: int, s: int)
    requires Increasing(t.bounds) && Spaced(t, HEADER)
    requires p < 0 || p in t.bounds
    requires q < 0 || q in t.bounds
    requires s < 0 || s in t.bounds
    ensures SamePayload(c, Touch(Touch(Touch(c, p), q), s), t, HEADER)
  {
    TouchBoth(c, t, p, q);
    TouchKeeps(Touch(Touch(c, p), q), t, s);
    SamePayloadTrans(c, Touch(Touch(c, p), q), Touch(Touch(Touch(c, p), q), s), t, HEADER);
  }

  /** The links of block `i`. */
  lemma BlockLinks(m: Pool, t: Tiling, end: nat, i: nat)
    requires BlocksOk(m, t, end) && Tiles(t, end) && IsBlock(t, i)
    ensures var x := t.bounds[i];
      && x in m.blocks.next && x in m.blocks.prev && x in m.flag
      && m.blocks.next[x] == t.bounds[i + 1] && t.bounds[i + 1] in m.flag && t.bounds[i + 1] in m.blocks.next
      && (m.flag[x] <==> x in t.used)
      && (i + 2 < |t.bounds| ==> m.blocks.next[t.bounds[i + 1]] == t.bounds[i + 2])
      && (!m.flag[t.bounds[i + 1]] <==> i + 2 < |t.bounds| && t.bounds[i + 1] !in t.used)
      && m.blocks.prev[x] in m.flag
      && (!m.flag[m.blocks.prev[x]] <==> i > 0 && t.bounds[i - 1] !in t.used)
      && (i > 0 ==> m.blocks.prev[x] == t.bounds[i - 1])
  {
    var b := t.bounds;
    assert NodeOk(m.blocks, b, i) && NodeOk(m.blocks, b, i + 1);
    assert b[i] in b && b[i + 1] in b && b[|b| - 1] in b;
    BoundsAround(b, i, |b| - 1);
    if i > 0 { assert b[i - 1] in b; BoundsAround(b, i - 1, |b| - 1); }
  }

  lemma SplitShape(t: Tiling, end: nat, i: nat, c: nat)
    requires Shaped(t, end) && IsBlock(t, i) && c % 4 == 0
    requires t.bounds[i] + HEADER <= c && c + HEADER <= t.bounds[i + 1]
    ensures var r := t.(bounds := InsertBound(t.bounds, i, c));
      && Shaped(r, end) && c !in t.used && c !in t.bounds && c != end
      && forall x :: x in r.bounds <==> x in t.bounds || x == c
  {
    if c in t.bounds { NoBoundInside(t.bounds, i, c); }
    InsertTiles(t, end, i, c);
    SplitSpaced(t.bounds, i, c);
    hide Increasing, Spaced;
    InsertMembers(t.bounds, i, c);
    assert t.bounds[|t.bounds| - 1] in t.bounds;
  }

  lemma SplitSpaced(b: seq<nat>, i: nat, c: nat)
    requires Spaced(Tiling(b, {}), HEADER) && Aligned(b) && i + 1 < |b| && c % 4 == 0
    requires b[i] + HEADER <= c && c + HEADER <= b[i + 1]
    ensures Spaced(Tiling(InsertBound(b, i, c), {}), HEADER) && Aligned(InsertBound(b, i, c))
  {
  }

  lemma SplitStep(m: Pool, t: Tiling, end: nat, i: nat, c: nat)
    requires BlocksOk(m, t, end) && Shaped(t, end) && IsBlock(t, i) && c % 4 == 0
    requires t.bounds[i] + HEADER <= c && c + HEADER <= t.bounds[i + 1]
    ensures t.bounds[i] in m.blocks.next
    ensures var r := t.(bounds := InsertBound(t.bounds, i, c));
      var m' := SplitBlock(m, t.bounds[i], c);
      && Shaped(r, end) && c !in t.used && c !in t.bounds
      && BlocksOk(m', r, end)
      && SamePayload(m.cells, m'.cells, r, HEADER)
  {
    hide SamePayload, IsRing, Aligned, BlocksOk;
    var b := t.bounds;
    var r := t.(bounds := InsertBound(b, i, c));
    BlockLinks(m, t, end, i);
    SplitShape(t, end, i, c);
    SplitBlocks(m, t, end, i, c);
    assert b[i] in b && b[i + 1] in b;
    TouchThree(m.cells, r, c, b[i + 1], b[i]);
  }

  lemma SplitBlocks(m: Pool, t: Tiling, end: nat, i: nat, c: nat)
    requires BlocksOk(m, t, end) && IsBlock(t, i) && c !in t.bounds && c !in t.used && c != end
    requires forall x :: x in InsertBound(t.bounds, i, c) <==> x in t.bounds || x == c
    ensures t.bounds[i] in m.blocks.next
    ensures BlocksOk(SplitBlock(m, t.bounds[i], c), t.(bounds := InsertBound(t.bounds, i, c)), end)
  {
    LinkAfterRing(m.blocks, t.bounds, i, c);
    hide IsRing;
    assert forall x: nat :: x in t.bounds ==> x != c;
  }

  lemma JoinStep(m: Pool, t: Tiling, end: nat, k: nat)
    requires BlocksOk(m, t, end) && Shaped(t, end) && 0 < k < |t.bounds| - 1 && t.bounds[k] !in t.used
    ensures t.bounds[k] in m.blocks.next && t.bounds[k] in m.blocks.prev
    ensures var r := t.(bounds := DropBound(t.bounds, k));
      var m' := JoinBlock(m, t.bounds[k]);
      && Shaped(r, end) && BlocksOk(m', r, end)
      && SamePayload(m.cells, m'.cells, t, HEADER)
      && (forall x :: x in r.bounds <==> x in t.bounds && x != t.bounds[k])
  {
    hide SamePayload, IsRing, Aligned, Touch, Unlink, Coalesced;
    var b := t.bounds;
    var r := t.(bounds := DropBound(b, k));
    BlockLinks(m, t, end, k);
    assert b[k - 1] in b && b[k + 1] in b && b[k - 1] != b[k] && b[k + 1] != b[k];
    DropShape(t, end, k);
    hide Increasing;
    UnlinkRing(m.blocks, b, k);
    TouchBoth(m.cells, t, b[k + 1], b[k - 1]);
  }

  lemma DropShape(t: Tiling, end: nat, k: nat)
    requires Shaped(t, end) && 0 < k < |t.bounds| - 1 && t.bounds[k] !in t.used
    ensures var r := t.(bounds := DropBound(t.bounds, k));
      && Shaped(r, end) && forall x :: x in r.bounds <==> x in t.bounds && x != t.bounds[k]
  {
    DropTiles(t, end, k);
    DropMembers(t.bounds, k);
  }

  lemma FlagStep(m: Pool, t: Tiling, end: nat, i: nat, on: bool)
    requires BlocksOk(m, t, end) && Shaped(t, end) && IsBlock(t, i)
    ensures var r := t.(used := if on then t.used + {t.bounds[i]} else t.used - {t.bounds[i]});
      var m' := SetUsed(m, t.bounds[i], on);
      && Shaped(r, end) && BlocksOk(m', r, end)
      && SamePayload(m.cells, m'.cells, t, HEADER)
  {
    hide SamePayload, IsRing, Touch, Aligned;
    BoundsAround(t.bounds, i, |t.bounds| - 1);
    assert t.bounds[i] in t.bounds;
    TouchKeeps(m.cells, t, t.bounds[i]);
    hide Increasing;
  }

  lemma PushStep(m: Pool, t: Tiling, free: seq<int>, x: nat)
    requires Increasing(t.bounds) && Spaced(t, HEADER)
    requires IsRing(m.frees, [FREE_HEADER] + free) && x !in free && x in t.bounds
    requires forall y :: y in free ==> y in t.bounds
    ensures FREE_HEADER in m.frees.next
    ensures IsRing(PushFree(m, x).frees, [FREE_HEADER] + ([x] + free))
    ensures SamePayload(m.cells, PushFree(m, x).cells, t, HEADER)
  {
    var r := [FREE_HEADER] + free;
    LinkAfterRing(m.frees, r, 0, x);
    assert r[..1] + [x] + r[1..] == [FREE_HEADER] + ([x] + free);
    RingClosed(m.frees, r, r[0]);
    TouchBoth(m.cells, t, x, m.frees.next[FREE_HEADER]);
  }

  lemma DropStep(m: Pool, t: Tiling, free: seq<int>, j: nat)
    requires Increasing(t.bounds) && Spaced(t, HEADER)
    requires IsRing(m.frees, [FREE_HEADER] + free) && j < |free|
    requires forall y :: y in free ==> y in t.bounds
    ensures free[j] in m.frees.next && free[j] in m.frees.prev
    ensures IsRing(DropFree(m, free[j]).frees, [FREE_HEADER] + DropEntry(free, j))
    ensures SamePayload(m.cells, DropFree(m, free[j]).cells, t, HEADER)
    ensures forall y :: y in DropEntry(free, j) <==> y in free && y != free[j]
  {
    hide IsRing, SamePayload, Touch, Unlink, Increasing, Spaced;
    var r := [FREE_HEADER] + free;
    assert r[j + 1] == free[j];
    EntryDropped(m.frees, free, j);
    UnlinkRing(m.frees, r, j + 1);
    assert r[..j + 1] + r[j + 2..] == [FREE_HEADER] + DropEntry(free, j);
    hide DropEntry;
    RingClosed(m.frees, r, r[j + 1]);
    TouchThree(m.cells, t, m.frees.next[free[j]], m.frees.prev[free[j]], free[j]);
  }

  lemma EntryDropped(k: Links, free: seq<int>, j: nat)
    requires IsRing(k, [FREE_HEADER] + free) && j < |free|
    ensures forall y :: y in DropEntry(free, j) <==> y in free && y != free[j]
  {
    var r := [FREE_HEADER] + free;
    forall q: nat | q < |free| && q != j ensures free[q] != free[j] {
      AtMostOnce(r, q + 1, j + 1);
    }
    hide IsRing;
    forall y | y in free && y != free[j] ensures y in DropEntry(free, j) {
      var q: nat :| q < |free| && free[q] == y;
      assert DropEntry(free, j)[if q < j then q else q - 1] == y;
    }
  }

  function DropEntry(s: seq<int>, j: nat): seq<int>
    requires j < |s|
  {
    s[..j] + s[j + 1..]
  }

  // --------------------------------------------------- whole operations

  /** Where an allocation of `size` bytes cuts block `i`. */
  ghost function Cut(b: seq<nat>, i: nat, size: nat): nat
    requires i + 1 < |b| && b[i] + HEADER <= b[i + 1]
  {
    if b[i + 1] - b[i] - HEADER >= size + HEADER + MINIALLOC then b[i] + HEADER + size else b[i + 1]
  }

  /** The free list after block `free[j]` has been taken and cut: the remainder comes first. */
  ghost function FreeAfterTake(b: seq<nat>, free: seq<int>, j: nat, i: nat, cut: nat): seq<int>
    requires i + 1 < |b| && j < |free|
  {
    if cut == b[i + 1] then DropEntry(free, j) else [cut] + DropEntry(free, j)
  }

  /** The whole-block branch of rt_memheap_alloc. */
  lemma TakeWhole(m: Pool, t: Tiling, free: seq<int>, end: nat, i: nat, j: nat)
    requires Holds(m, t, free, end) && IsBlock(t, i) && j < |free| && free[j] == t.bounds[i]
    ensures free[j] in m.frees.next && free[j] in m.frees.prev
    ensures var m' := SetUsed(DropFree(m, free[j]), free[j], true);
      && Holds(m', t.(used := t.used + {t.bounds[i]}), DropEntry(free, j), end)
      && SamePayload(m.cells, m'.cells, t, HEADER)
  {
    hide SamePayload, IsRing, Aligned, Spaced, Increasing;
    DropStep(m, t, free, j);
    var m1 := DropFree(m, free[j]);
    FlagStep(m1, t, end, i, true);
    SamePayloadTrans(m.cells, m1.cells, SetUsed(m1, free[j], true).cells, t, HEADER);
  }

  /** The block-list half of a split: block `i` is free and its tail gets its own header, not yet in the free list. */
  lemma SplitPush(m: Pool, t: Tiling, free: seq<int>, end: nat, i: nat, j: nat, c: nat)
    requires Holds(m, t, free, end) && IsBlock(t, i) && j < |free| && free[j] == t.bounds[i] && c % 4 == 0
    requires t.bounds[i] + HEADER <= c && c + HEADER <= t.bounds[i + 1]
    ensures free[j] in m.blocks.next && free[j] in m.frees.next && free[j] in m.frees.prev
    ensures var m1 := SplitBlock(m, free[j], c);
      var m2 := DropFree(m1, free[j]);
      && FREE_HEADER in m2.frees.next
      && var m3 := PushFree(m2, c);
      var r := t.(bounds := InsertBound(t.bounds, i, c));
      && |m3.cells| == end + HEADER && Shaped(r, end) && BlocksOk(m3, r, end)
      && IsRing(m3.frees, [FREE_HEADER] + ([c] + DropEntry(free, j)))
      && SamePayload(m.cells, m3.cells, t, HEADER)
      && c !in t.used && c !in t.bounds && c != end
      && (forall x :: x in r.bounds <==> x in t.bounds || x == c)
      && (forall y :: y in DropEntry(free, j) <==> y in free && y != free[j])
  {
    hide SamePayload, IsRing, Aligned, DropEntry, Touch, LinkAfter, Unlink, UsedExtents, Sequences.NoRepeats;
    var r := t.(bounds := InsertBound(t.bounds, i, c));
    assert free[j] in free;
    SplitShape(t, end, i, c);
    SplitStep(m, t, end, i, c);
    hide Spaced, Tiles, Increasing;
    var m1 := SplitBlock(m, free[j], c);
    DropStep(m1, r, free, j);
    var m2 := DropFree(m1, free[j]);
    PushStep(m2, r, DropEntry(free, j), c);
    var m3 := PushFree(m2, c);
    SamePayloadTrans(m.cells, m1.cells, m2.cells, r, HEADER);
    SamePayloadTrans(m.cells, m2.cells, m3.cells, r, HEADER);
    CutFreeExtents(t, i, c);
    SamePayloadByExtents(m.cells, m3.cells, r, t, HEADER);
  }

  /** The splitting branch of rt_memheap_alloc. */
  lemma TakeSplit(m: Pool, t: Tiling, free: seq<int>, end: nat, i: nat, j: nat, c: nat)
    requires Holds(m, t, free, end) && IsBlock(t, i) && j < |free| && free[j] == t.bounds[i] && c % 4 == 0
    requires t.bounds[i] + HEADER <= c && c + HEADER <= t.bounds[i + 1]
    ensures free[j] in m.blocks.next && free[j] in m.frees.next && free[j] in m.frees.prev
    ensures var m2 := DropFree(SplitBlock(m, free[j], c), free[j]);
      && FREE_HEADER in m2.frees.next
      && var m' := SetUsed(PushFree(m2, c), free[j], true);
      && Holds(m', Take(t, i, c), [c] + DropEntry(free, j), end)
      && SamePayload(m.cells, m'.cells, t, HEADER)
  {
    hide SamePayload, IsRing, Aligned, DropEntry, Spaced, Touch, LinkAfter, Unlink, UsedExtents, Increasing;
    assert free[j] in free;
    SplitPush(m, t, free, end, i, j, c);
    var r := t.(bounds := InsertBound(t.bounds, i, c));
    var m3 := PushFree(DropFree(SplitBlock(m, free[j], c), free[j]), c);
    assert r.bounds[i] == free[j];
    FlagStep(m3, r, end, i, true);
    CutFreeExtents(t, i, c);
    SamePayloadByExtents(m3.cells, SetUsed(m3, free[j], true).cells, r, t, HEADER);
    SamePayloadTrans(m.cells, m3.cells, SetUsed(m3, free[j], true).cells, t, HEADER);
  }

  /** Where the free block `i` is cut for a payload of `size`, and what the cut leaves. */
  lemma TakeShape(t: Tiling, end: nat, i: nat, size: nat)
    requires Tiles(t, end) && Coalesced(t) && IsBlock(t, i) && t.bounds[i] !in t.used
    requires size % 4 == 0 && t.bounds[i] % 4 == 0 && t.bounds[i] + HEADER + size <= t.bounds[i + 1]
    ensures var p, n := t.bounds[i], t.bounds[i + 1];
      var cut := Cut(t.bounds, i, size);
      var r := Take(t, i, cut);
      && p < cut <= n && (n - p - HEADER >= size + HEADER + MINIALLOC <==> cut != n)
      && (cut != n ==> cut % 4 == 0 && p + HEADER <= cut && cut + HEADER <= n)
      && Coalesced(r)
      && Total(r.bounds, r.used, false, HEADER) == Total(t.bounds, t.used, false, HEADER)
           - (if cut == n then n - p - HEADER else size + HEADER)
  {
    hide Coalesced, Total;
    var cut := Cut(t.bounds, i, size);
    TakeTiles(t, end, i, cut);
    TakeTotal(t, end, i, cut, false, HEADER);
  }

  /** Everything an allocation out of block `i` (at `free[j]`) makes true. */
  lemma AllocFacts(m: Pool, t: Tiling, free: seq<int>, end: nat, i: nat, j: nat, size: nat)
    requires Holds(m, t, free, end) && Coalesced(t) && IsBlock(t, i) && j < |free| && free[j] == t.bounds[i]
    requires size % 4 == 0 && t.bounds[i] + HEADER + size <= t.bounds[i + 1]
    ensures var p, n := t.bounds[i], t.bounds[i + 1];
      var cut := Cut(t.bounds, i, size);
      var r, free' := Take(t, i, cut), FreeAfterTake(t.bounds, free, j, i, cut);
      && p in m.blocks.next && m.blocks.next[p] == n && p in m.frees.next && p in m.frees.prev
      && p < cut <= n && (n - p - HEADER >= size + HEADER + MINIALLOC <==> cut != n)
      && (cut != n ==> FREE_HEADER in DropFree(SplitBlock(m, p, cut), p).frees.next)
      && var m' := if cut == n then SetUsed(DropFree(m, p), p, true)
                   else SetUsed(PushFree(DropFree(SplitBlock(m, p, cut), p), cut), p, true);
      && Holds(m', r, free', end) && Coalesced(r) && SamePayload(m.cells, m'.cells, t, HEADER)
      && Total(r.bounds, r.used, false, HEADER) == Total(t.bounds, t.used, false, HEADER)
           - (if cut == n then n - p - HEADER else size + HEADER) >= 0
  {
    hide Holds, SamePayload, DropEntry, Coalesced, Total, DropFree, PushFree, SetUsed, Touch, LinkAfter, Tiles, Cut,
      InsertBound;
    var p, n := t.bounds[i], t.bounds[i + 1];
    HoldsBlock(m, t, free, end, i);
    HoldsFree(m, t, free, end, j);
    var cut := Cut(t.bounds, i, size);
    TakeShape(t, end, i, size);
    if cut == n {
      TakeWhole(m, t, free, end, i, j);
      HoldsTotal(SetUsed(DropFree(m, p), p, true), Take(t, i, cut), DropEntry(free, j), end);
    } else {
      TakeSplit(m, t, free, end, i, j, cut);
      HoldsTotal(SetUsed(PushFree(DropFree(SplitBlock(m, p, cut), p), cut), p, true), Take(t, i, cut),
        [cut] + DropEntry(free, j), end);
    }
  }

  lemma HoldsTotal(m: Pool, t: Tiling, free: seq<int>, end: nat)
    requires Holds(m, t, free, end)
    ensures Total(t.bounds, t.used, false, HEADER) >= 0
  {
    TotalSpaced(t.bounds, t.used, false, HEADER);
  }

  /** What Holds says about one block. */
  lemma HoldsBlock(m: Pool, t: Tiling, free: seq<int>, end: nat, i: nat)
    requires Holds(m, t, free, end) && IsBlock(t, i)
    ensures Tiles(t, end) && t.bounds[i] % 4 == 0 && t.bounds[i + 1] % 4 == 0
    ensures t.bounds[i] + HEADER <= t.bounds[i + 1] <= end
    ensures t.bounds[i] in m.blocks.next && m.blocks.next[t.bounds[i]] == t.bounds[i + 1]
  {
    BlockLinks(m, t, end, i);
    BoundsAround(t.bounds, i, |t.bounds| - 1);
  }

  /** What Holds says about one free-list entry. */
  lemma HoldsFree(m: Pool, t: Tiling, free: seq<int>, end: nat, j: nat)
    requires Holds(m, t, free, end) && j < |free|
    ensures IsFree(t, end, free[j]) && free[j] in m.frees.next && free[j] in m.frees.prev
  {
    assert free[j] in free;
    RingClosed(m.frees, [FREE_HEADER] + free, free[j]);
  }

  // ------------------------------------- between the two lists' updates

  /** Like Holds, except that the free block `x` is not (or not yet) in the free list; no block if `x` is negative. */
  ghost predicate HoldsBut(m: Pool, t: Tiling, free: seq<int>, end: nat, x: int) {
    && |m.cells| == end + HEADER
    && Shaped(t, end) && BlocksOk(m, t, end)
    && IsRing(m.frees, [FREE_HEADER] + free)
    && forall y :: y in free <==> IsFree(t, end, y) && y != x
  }

  lemma ButNothing(m: Pool, t: Tiling, free: seq<int>, end: nat, x: int)
    requires x < 0
    ensures HoldsBut(m, t, free, end, x) <==> Holds(m, t, free, end)
  {
  }

  lemma ReleaseMark(m: Pool, t: Tiling, free: seq<int>, end: nat, i: nat)
    requires Holds(m, t, free, end) && IsBlock(t, i) && t.bounds[i] in t.used
    ensures var p := t.bounds[i];
      && HoldsBut(SetUsed(m, p, false), Unmark(t, i), free, end, p)
      && SamePayload(m.cells, SetUsed(m, p, false).cells, Unmark(t, i), HEADER)
  {
    hide SamePayload, IsRing, Aligned, Spaced;
    FlagStep(m, t, end, i, false);
    SamePayloadUnmark(m.cells, SetUsed(m, t.bounds[i], false).cells, t, i, HEADER);
  }

  lemma ReleaseLeft(m: Pool, t: Tiling, free: seq<int>, end: nat, i: nat)
    requires HoldsBut(m, t, free, end, if i < |t.bounds| then t.bounds[i] else 0) && IsBlock(t, i) && i > 0
    requires t.bounds[i] !in t.used && t.bounds[i - 1] !in t.used
    ensures var p := t.bounds[i];
      && p in m.blocks.next && p in m.blocks.prev
      && HoldsBut(JoinBlock(m, p), t.(bounds := DropBound(t.bounds, i)), free, end, FREE_HEADER)
      && SamePayload(m.cells, JoinBlock(m, p).cells, t, HEADER)
  {
    hide SamePayload, IsRing, Aligned, Spaced, Tiles;
    JoinStep(m, t, end, i);
  }

  lemma ReleaseRight(m: Pool, t: Tiling, free: seq<int>, end: nat, i: nat, j: nat, x: int)
    requires HoldsBut(m, t, free, end, x) && i + 2 < |t.bounds| && x != t.bounds[i + 1]
    requires t.bounds[i + 1] !in t.used && j < |free| && free[j] == t.bounds[i + 1]
    ensures var n := t.bounds[i + 1];
      && n in m.blocks.next && n in m.blocks.prev && n in m.frees.next && n in m.frees.prev
      && HoldsBut(DropFree(JoinBlock(m, n), n), t.(bounds := DropBound(t.bounds, i + 1)), DropEntry(free, j), end, x)
      && SamePayload(m.cells, DropFree(JoinBlock(m, n), n).cells, t, HEADER)
  {
    hide SamePayload, IsRing, Aligned, Spaced, DropEntry, Touch, LinkAfter, Unlink;
    var n := t.bounds[i + 1];
    JoinStep(m, t, end, i + 1);
    DropStep(JoinBlock(m, n), t, free, j);
    SamePayloadTrans(m.cells, JoinBlock(m, n).cells, DropFree(JoinBlock(m, n), n).cells, t, HEADER);
  }

  lemma ReleasePush(m: Pool, t: Tiling, free: seq<int>, end: nat, x: nat)
    requires HoldsBut(m, t, free, end, x) && IsFree(t, end, x)
    ensures FREE_HEADER in m.frees.next
    ensures Holds(PushFree(m, x), t, [x] + free, end)
    ensures SamePayload(m.cells, PushFree(m, x).cells, t, HEADER)
  {
    hide SamePayload, IsRing, Aligned, Spaced;
    PushStep(m, t, free, x);
  }

  /** Cutting a used block: the tail is a new free block, not yet in the free list. */
  lemma CutTail(m: Pool, t: Tiling, free: seq<int>, end: nat, i: nat, c: nat)
    requires Holds(m, t, free, end) && IsBlock(t, i) && c % 4 == 0
    requires t.bounds[i] in t.used && t.bounds[i] + HEADER <= c && c + HEADER <= t.bounds[i + 1]
    ensures t.bounds[i] in m.blocks.next
    ensures var r := t.(bounds := InsertBound(t.bounds, i, c));
      && HoldsBut(SplitBlock(m, t.bounds[i], c), r, free, end, c) && IsFree(r, end, c)
      && SamePayload(m.cells, SplitBlock(m, t.bounds[i], c).cells, r, HEADER)
  {
    hide SamePayload, IsRing, Aligned, Spaced, Tiles;
    SplitShape(t, end, i, c);
    SplitStep(m, t, end, i, c);
  }

  /** Absorbing the free block after the used block `i`. */
  lemma Absorb(m: Pool, t: Tiling, free: seq<int>, end: nat, i: nat, j: nat)
    requires Holds(m, t, free, end) && i + 2 < |t.bounds|
    requires t.bounds[i + 1] !in t.used && j < |free| && free[j] == t.bounds[i + 1]
    ensures var n := t.bounds[i + 1];
      && n in m.frees.next && n in m.frees.prev
      && n in DropFree(m, n).blocks.next && n in DropFree(m, n).blocks.prev
      && Holds(JoinBlock(DropFree(m, n), n), t.(bounds := DropBound(t.bounds, i + 1)), DropEntry(free, j), end)
      && SamePayload(m.cells, JoinBlock(DropFree(m, n), n).cells, t, HEADER)
  {
    hide SamePayload, IsRing, Aligned, Spaced, DropEntry, Touch, LinkAfter, Unlink;
    var n := t.bounds[i + 1];
    DropStep(m, t, free, j);
    JoinStep(DropFree(m, n), t, end, i + 1);
    SamePayloadTrans(m.cells, DropFree(m, n).cells, JoinBlock(DropFree(m, n), n).cells, t, HEADER);
  }

  lemma HoldsOrder(m: Pool, t: Tiling, free: seq<int>, end: nat)
    requires Holds(m, t, free, end)
    ensures Increasing(t.bounds)
  {
  }

  lemma ButIsFree(m: Pool, t: Tiling, free: seq<int>, end: nat, x: int, k: nat)
    requires HoldsBut(m, t, free, end, x) && IsBlock(t, k) && t.bounds[k] !in t.used
    ensures IsFree(t, end, t.bounds[k])
  {
    BoundsAround(t.bounds, k, |t.bounds| - 1);
    assert t.bounds[k] in t.bounds;
  }

  lemma JoinKeepsFrees(m: Pool, n: int)
    requires n in m.blocks.next && n in m.blocks.prev
    ensures JoinBlock(m, n).frees == m.frees && JoinBlock(m, n).flag == m.flag
  {
  }

  /** Joining left first and then right gives the same tiling as Release, and sees the same neighbours. */
  lemma ReleaseEitherOrder(t: Tiling, i: nat)
    requires Increasing(t.bounds) && IsBlock(t, i)
    ensures var b, u := t.bounds, Unmark(t, i);
      var left := i > 0 && b[i - 1] !in t.used;
      var v := MergeLeft(u, i);
      var k := if left then i - 1 else i;
      && (left <==> i > 0 && u.bounds[i - 1] !in u.used)
      && IsBlock(v, k) && MergeRight(v, k) == Release(t, i)
      && v.bounds[k + 1] == b[i + 1] && (k + 2 < |v.bounds| <==> i + 2 < |b|)
      && (b[i + 1] in v.used <==> b[i + 1] in t.used)
  {
    NeighboursDiffer(t.bounds, i);
    if i > 0 { DropBoth(t.bounds, i); }
    hide Increasing, DropBound;
    var u := Unmark(t, i);
    if i > 0 && t.bounds[i - 1] !in t.used {
      assert MergeLeft(u, i) == u.(bounds := DropBound(t.bounds, i));
    } else {
      assert MergeLeft(u, i) == u;
    }
  }

  lemma NeighboursDiffer(b: seq<nat>, i: nat)
    requires Increasing(b) && i + 1 < |b|
    ensures b[i] != b[i + 1] && (i > 0 ==> b[i - 1] != b[i] && b[i - 1] != b[i + 1])
  {
    assert b[i] < b[i + 1];
    if i > 0 { assert b[i - 1] < b[i]; }
  }

  lemma DropBoth(b: seq<nat>, i: nat)
    requires 0 < i && i + 1 < |b|
    ensures |DropBound(b, i)| == |b| - 1 && DropBound(b, i)[i] == b[i + 1] && DropBound(b, i)[i - 1] == b[i - 1]
    ensures DropBound(DropBound(b, i), i) == DropBound(DropBound(b, i + 1), i)
    ensures |DropBound(b, i + 1)| == |b| - 1 && DropBound(b, i + 1)[i - 1] == b[i - 1]
  {
  }

  /** What rt_memheap_realloc sees of a used block and the one after it. */
  lemma BlockWithNext(m: Pool, t: Tiling, free: seq<int>, end: nat, i: nat)
    requires Holds(m, t, free, end) && IsBlock(t, i)
    ensures var p, n := t.bounds[i], t.bounds[i + 1];
      && p in m.blocks.next && m.blocks.next[p] == n && p + HEADER <= n && n in m.flag && n in m.blocks.next
      && p % 4 == 0 && n % 4 == 0
      && (!m.flag[n] <==> i + 2 < |t.bounds| && n !in t.used)
      && (i + 2 < |t.bounds| ==> m.blocks.next[n] == t.bounds[i + 2])
      && (i + 2 < |t.bounds| && n !in t.used ==> n in free)
  {
    hide IsRing;
    ButNothing(m, t, free, end, FREE_HEADER);
    ButBlock(m, t, free, end, FREE_HEADER, i);
  }

  lemma BoundsOfUnmark(t: Tiling, i: nat, end: nat)
    requires Tiles(t, end) && Coalesced(t) && IsBlock(t, i)
    ensures UsedExtents(Release(t, i)) == UsedExtents(Unmark(t, i))
  {
    UnmarkExtents(t, i);
    ReleaseExtents(t, end, i);
  }

  /** What the neighbour tests of rt_memheap_free and rt_memheap_realloc see around block `k`. */
  lemma ButBlock(m: Pool, t: Tiling, free: seq<int>, end: nat, x: int, k: nat)
    requires HoldsBut(m, t, free, end, x) && IsBlock(t, k)
    ensures var h := t.bounds[k];
      && h in m.blocks.next && h in m.blocks.prev && h in m.flag
      && m.blocks.next[h] == t.bounds[k + 1] && m.blocks.prev[h] in m.flag && t.bounds[k + 1] in m.flag
      && (!m.flag[m.blocks.prev[h]] <==> k > 0 && t.bounds[k - 1] !in t.used)
      && (k > 0 ==> m.blocks.prev[h] == t.bounds[k - 1])
      && (!m.flag[t.bounds[k + 1]] <==> k + 2 < |t.bounds| && t.bounds[k + 1] !in t.used)
      && t.bounds[k + 1] in m.blocks.next
      && (k + 2 < |t.bounds| ==> m.blocks.next[t.bounds[k + 1]] == t.bounds[k + 2])
      && (k + 2 < |t.bounds| ==> t.bounds[k + 1] + HEADER <= t.bounds[k + 2])
      && h + HEADER <= t.bounds[k + 1] <= end
      && (t.bounds[k] != t.bounds[k + 1])
      && t.bounds[k] % 4 == 0 && t.bounds[k + 1] % 4 == 0
      && (k + 2 < |t.bounds| && t.bounds[k + 1] !in t.used && t.bounds[k + 1] != x ==> t.bounds[k + 1] in free)
  {
    BlockLinks(m, t, end, k);
    BoundsAround(t.bounds, k, |t.bounds| - 1);
    assert t.bounds[k + 1] in t.bounds;
  }

  ghost function PosIn(s: seq<int>, x: int): (j: nat)
    requires x in s
    ensures j < |s| && s[j] == x
  {
    var j: nat :| j < |s| && s[j] == x;
    j
  }

  /** The free list without the entry `x`. */
  ghost function Minus(s: seq<int>, x: int): seq<int> {
    if x in s then DropEntry(s, PosIn(s, x)) else s
  }

  // ------------------------------------------------------------ the heap

  /** Payload size of the block that starts at `x`. */
  ghost function BlockSize(t: Tiling, x: int): int {
    if 0 <= x && x in t.bounds[..if |t.bounds| > 0 then |t.bounds| - 1 else 0]
    then var i := IndexIn(t.bounds[..|t.bounds| - 1], x); t.bounds[i + 1] - x - HEADER
    else 0
  }

  /** The free-list entry at position `j`; behind the last entry comes the list head again. */
  ghost function EntryAt(free: seq<int>, j: nat): int
    requires j <= |free|
  {
    if j == |free| then FREE_HEADER else free[j]
  }

  lemma FirstEntry(m: Pool, t: Tiling, free: seq<int>, end: nat)
    requires Holds(m, t, free, end)
    ensures FREE_HEADER in m.frees.next && m.frees.next[FREE_HEADER] == EntryAt(free, 0)
    ensures forall j: nat :: j < |free| ==> free[j] >= 0
  {
    var r := [FREE_HEADER] + free;
    assert NodeOk(m.frees, r, 0);
    forall j: nat | j < |free| ensures free[j] >= 0 { assert free[j] in free; }
  }

  lemma NextEntry(m: Pool, t: Tiling, free: seq<int>, end: nat, j: nat) returns (i: nat)
    requires Holds(m, t, free, end) && j < |free|
    ensures IsBlock(t, i) && free[j] == t.bounds[i] >= 0
    ensures free[j] in m.frees.next && m.frees.next[free[j]] == EntryAt(free, j + 1)
    ensures free[j] in m.blocks.next && m.blocks.next[free[j]] == t.bounds[i + 1]
    ensures BlockSize(t, free[j]) == t.bounds[i + 1] - t.bounds[i] - HEADER >= 0
    ensures t.bounds[i] !in t.used
  {
    var r := [FREE_HEADER] + free;
    assert NodeOk(m.frees, r, j + 1);
    assert free[j] in free && IsFree(t, end, free[j]);
    i := IndexIn(t.bounds, free[j]);
    HoldsBlock(m, t, free, end, i);
    SizeAt(t, end, i);
  }

  lemma SizeAt(t: Tiling, end: nat, i: nat)
    requires Tiles(t, end) && IsBlock(t, i)
    ensures BlockSize(t, t.bounds[i]) == t.bounds[i + 1] - t.bounds[i] - HEADER
  {
    var s := t.bounds[..|t.bounds| - 1];
    assert s[i] == t.bounds[i];
    IncreasingIsInjective(t.bounds, i, IndexIn(s, t.bounds[i]));
  }

  lemma EntrySize(m: Pool, t: Tiling, free: seq<int>, end: nat, i: nat, j: nat)
    requires Holds(m, t, free, end) && j < |free| && IsBlock(t, i) && t.bounds[i] == free[j]
    ensures BlockSize(t, free[j]) == t.bounds[i + 1] - t.bounds[i] - HEADER >= 0
  {
    SizeAt(t, end, i);
    HoldsBlock(m, t, free, end, i);
  }

  /** When allocation fails: nothing to spare in all, or no entry of the free list is large enough. */
  ghost predicate NoneFits(t: Tiling, free: seq<int>, available: nat, size: nat) {
    size >= available || AllSmaller(t, free, size)
  }

  ghost predicate AllSmaller(t: Tiling, free: seq<int>, size: nat) {
    forall q :: 0 <= q < |free| ==> BlockSize(t, free[q]) < size
  }

  /** The outcome of a successful search: the first free-list entry that is large enough has been taken. */
  ghost predicate TookFirst(t0: Tiling, free0: seq<int>, size: nat, i: nat, j: nat, offset: int, t1: Tiling,
      free1: seq<int>)
  {
    && IsBlock(t0, i) && j < |free0| && free0[j] == t0.bounds[i]
    && t0.bounds[i] + HEADER + size <= t0.bounds[i + 1]
    && (forall q :: 0 <= q < j ==> BlockSize(t0, free0[q]) < size)
    && offset == t0.bounds[i] + HEADER
    && t1 == Take(t0, i, Cut(t0.bounds, i, size))
    && free1 == FreeAfterTake(t0.bounds, free0, j, i, Cut(t0.bounds, i, size))
  }

  /** The free list after the block `i` has been released: a free right neighbour leaves it; the released
      block itself comes first, unless it has become part of the free block on its left. */
  ghost function FreeAfterRelease(t: Tiling, free: seq<int>, i: nat): seq<int>
    requires IsBlock(t, i)
  {
    var b := t.bounds;
    var rest := if i + 2 < |b| && b[i + 1] !in t.used then Minus(free, b[i + 1]) else free;
    if i > 0 && b[i - 1] !in t.used then rest else [b[i]] + rest
  }

  /** The block freed last, when it did not become part of a free block on its left, is the first to be used again for
      any size it has room for.  If it did not take in a block on its right either and the size leaves no room for a
      remainder, the allocation undoes the free, down to the order of the free list. */
  lemma LastFreedIsReused(t: Tiling, end: nat, free: seq<int>, i: nat, size: nat, k: nat, j: nat, offset: int,
                          t2: Tiling, free2: seq<int>)
    requires Tiles(t, end) && Coalesced(t) && IsBlock(t, i) && t.bounds[i] in t.used
    requires (i > 0 ==> t.bounds[i - 1] in t.used) && t.bounds[i] + 24 + size <= t.bounds[i + 1]
    requires TookFirst(Release(t, i), FreeAfterRelease(t, free, i), size, k, j, offset, t2, free2)
    ensures j == 0 && offset == t.bounds[i] + 24
    ensures (i + 2 < |t.bounds| ==> t.bounds[i + 1] in t.used) && t.bounds[i + 1] < t.bounds[i] + 24 + size + 36 ==>
      t2 == t && free2 == free
  {
    var p := t.bounds[i];
    ReleasedAt(t, end, i);
    var r, free1 := Release(t, i), FreeAfterRelease(t, free, i);
    hide Release, Tiles, Coalesced;
    SizeAt(r, end, i);
    hide BlockSize;
    assert free1[0] == p && BlockSize(r, free1[0]) >= size;
    assert j == 0;
    LikeBlock(r, end, i, k);
    hide Cut;
    if (i + 2 < |t.bounds| ==> t.bounds[i + 1] in t.used) && t.bounds[i + 1] < p + 24 + size + 36 {
      CutWhole(t.bounds, i, size);
      assert t.used - {p} + {p} == t.used;
      assert DropEntry([p] + free, 0) == free;
    }
  }

  lemma LikeBlock(r: Tiling, end: nat, i: nat, k: nat)
    requires Tiles(r, end) && IsBlock(r, i) && IsBlock(r, k) && r.bounds[i] == r.bounds[k]
    ensures i == k
  {
    IncreasingIsInjective(r.bounds, i, k);
  }

  lemma CutWhole(b: seq<nat>, i: nat, size: nat)
    requires i + 1 < |b| && b[i] + HEADER + size <= b[i + 1] < b[i] + 24 + size + 36
    ensures Cut(b, i, size) == b[i + 1]
  {
  }

  lemma ReleasedAt(t: Tiling, end: nat, i: nat)
    requires Tiles(t, end) && Coalesced(t) && IsBlock(t, i) && t.bounds[i] in t.used
    requires i > 0 ==> t.bounds[i - 1] in t.used
    ensures var r := Release(t, i);
      && Tiles(r, end) && IsBlock(r, i) && r.bounds[i] == t.bounds[i] && r.bounds[i + 1] >= t.bounds[i + 1]
      && r.used == t.used - {t.bounds[i]}
      && ((i + 2 < |t.bounds| ==> t.bounds[i + 1] in t.used) ==> r == Unmark(t, i))
  {
    ReleaseTiles(t, end, i);
    IncreasesUp(t, end, i);
    hide Tiles, Coalesced;
  }

  lemma IncreasesUp(t: Tiling, end: nat, i: nat)
    requires Tiles(t, end) && IsBlock(t, i)
    ensures i > 0 ==> t.bounds[i - 1] < t.bounds[i]
    ensures t.bounds[i] < t.bounds[i + 1] && (i + 2 < |t.bounds| ==> t.bounds[i + 1] < t.bounds[i + 2])
  {
  }

  /** An allocation that leaves a remainder leaves it first in the free list: the next allocation that fits in there is
      served right behind. */
  lemma NextIsAdjacent(t: Tiling, end: nat, free: seq<int>, size: nat, i: nat, j: nat, offset: int, t1: Tiling,
                       free1: seq<int>, size2: nat, k: nat, l: nat, offset2: int, t2: Tiling, free2: seq<int>)
    requires Tiles(t, end) && TookFirst(t, free, size, i, j, offset, t1, free1)
    requires TookFirst(t1, free1, size2, k, l, offset2, t2, free2)
    requires t.bounds[i] + 24 + size + 24 + size2 <= t.bounds[i + 1] && t.bounds[i] + 24 + size + 36 <= t.bounds[i + 1]
    ensures l == 0 && offset2 == offset + size + 24
  {
    var c := t.bounds[i] + 24 + size;
    assert t1.bounds[i + 1] == c && free1[0] == c;
    TakenTiles(t, end, i, c);
    hide Tiles;
    SizeAt(t1, end, i + 1);
  }

  lemma TakenTiles(t: Tiling, end: nat, i: nat, c: nat)
    requires Tiles(t, end) && IsBlock(t, i) && t.bounds[i] < c < t.bounds[i + 1]
    ensures Tiles(Take(t, i, c), end) && IsBlock(Take(t, i, c), i + 1)
    ensures Take(t, i, c).bounds[i + 1] == c && Take(t, i, c).bounds[i + 2] == t.bounds[i + 1]
  {
    InsertTiles(t, end, i, c);
  }

  /** Everything rt_memheap_free relies on when it starts. */
  lemma FreeFacts(m: Pool, t: Tiling, free: seq<int>, end: nat, i: nat)
    requires Holds(m, t, free, end) && Coalesced(t) && IsBlock(t, i) && t.bounds[i] in t.used
    ensures var p, u, r := t.bounds[i], Unmark(t, i), Release(t, i);
      && HoldsBut(SetUsed(m, p, false), u, free, end, p)
      && SamePayload(m.cells, SetUsed(m, p, false).cells, u, HEADER)
      && p in m.blocks.next && m.blocks.next[p] == t.bounds[i + 1] && p + HEADER <= t.bounds[i + 1]
      && p !in u.used
      && Coalesced(r)
      && Total(r.bounds, r.used, false, HEADER) == Total(t.bounds, t.used, false, HEADER)
           + (t.bounds[i + 1] - p - HEADER)
           + (if i > 0 && t.bounds[i - 1] !in t.used then HEADER else 0)
           + (if i + 2 < |t.bounds| && t.bounds[i + 1] !in t.used then HEADER else 0)
      && UsedExtents(u) == UsedExtents(MergeLeft(u, i)) == UsedExtents(r)
  {
    hide Holds, HoldsBut, SamePayload, Coalesced, Total, UsedExtents, MergeLeft, MergeRight;
    ReleaseMark(m, t, free, end, i);
    HoldsBlock(m, t, free, end, i);
    ReleaseTiles(t, end, i);
    ReleaseTotalFor(t, end, i, HEADER);
    UnmarkExtents(t, i);
    ReleaseExtents(t, end, i);
    MergeLeftExtents(Unmark(t, i), i);
  }

  lemma ReleaseTotalFor(t: Tiling, end: nat, i: nat, h: nat)
    requires Tiles(t, end) && Coalesced(t) && IsBlock(t, i) && t.bounds[i] in t.used
    ensures var r := Release(t, i);
      Total(r.bounds, r.used, false, h) == Total(t.bounds, t.used, false, h)
           + (t.bounds[i + 1] - t.bounds[i] - h)
           + (if i > 0 && t.bounds[i - 1] !in t.used then h else 0)
           + (if i + 2 < |t.bounds| && t.bounds[i + 1] !in t.used then h else 0)
  {
    hide Coalesced, Total;
    ReleaseTotal(t, end, i, false, h);
    assert t.bounds[i] < t.bounds[i + 1];
    if i > 0 { assert t.bounds[i - 1] < t.bounds[i]; }
  }

  /** The pool of a move, after the new block `k` has been taken and the payload copied. */
  lemma MovePool(m0: Pool, t0: Tiling, f0: seq<int>, end: nat, i: nat, k: nat, cut: nat, m1: Pool, f1: seq<int>, n: nat)
    requires Holds(m0, t0, f0, end) && IsBlock(t0, i) && t0.bounds[i] in t0.used
    requires IsBlock(t0, k) && t0.bounds[k] !in t0.used && cut <= t0.bounds[k + 1]
    requires t0.bounds[k] + HEADER + n <= cut && t0.bounds[i] + HEADER + n <= t0.bounds[i + 1]
    requires Holds(m1, Take(t0, k, cut), f1, end) && SamePayload(m0.cells, m1.cells, t0, HEADER)
    ensures var p, q := t0.bounds[i], t0.bounds[k];
      && p + HEADER + n <= |m1.cells| && q + HEADER + n <= |m1.cells|
      && var c2 := Copy(m1.cells, q + HEADER, p + HEADER, n);
      && Holds(m1.(cells := c2), Take(t0, k, cut), f1, end)
      && SamePayload(m0.cells, c2, Unmark(t0, i), HEADER)
      && SamePrefix(m0.cells, p + HEADER, c2, q + HEADER, n)
  {
    hide SamePayload, SamePrefix, Holds, Take, UsedExtents, Increasing, Copy;
    HoldsBlock(m0, t0, f0, end, i);
    HoldsBlock(m0, t0, f0, end, k);
    HoldsOrder(m0, t0, f0, end);
    HoldsSize(m0, t0, f0, end);
    HoldsSize(m1, Take(t0, k, cut), f1, end);
    var p, q := t0.bounds[i] + HEADER, t0.bounds[k] + HEADER;
    HoldsCells(m1, Take(t0, k, cut), f1, end, Copy(m1.cells, q, p, n));
    CopyIntoFree(m0.cells, m1.cells, t0, k, p, n, HEADER);
    SamePayloadUnmark(m0.cells, Copy(m1.cells, q, p, n), t0, i, HEADER);
    SamePayloadRange(m0.cells, m1.cells, t0, i, p, n, HEADER);
    CopiedPrefix(m0.cells, m1.cells, p, q, n);
  }

  lemma HoldsSize(m: Pool, t: Tiling, free: seq<int>, end: nat)
    requires Holds(m, t, free, end)
    ensures |m.cells| == end + HEADER
  {
  }

  lemma HoldsCells(m: Pool, t: Tiling, free: seq<int>, end: nat, c: seq<Cell>)
    requires Holds(m, t, free, end) && |c| == |m.cells|
    ensures Holds(m.(cells := c), t, free, end)
  {
    hide IsRing, Shaped;
  }

  lemma AvailableFits(m: Pool, t: Tiling, free: seq<int>, end: nat)
    requires Holds(m, t, free, end)
    ensures Total(t.bounds, t.used, false, HEADER) <= end
  {
    TotalConservation(t.bounds, t.used, HEADER);
    TotalSpaced(t.bounds, t.used, true, HEADER);
  }

  /** The two 32-bit sums of the growing branch. */
  lemma WordSums(available: nat, less: nat, ptr: nat, n: nat)
    requires available < U32 && less <= U32 && ptr < U32 && n < U32
    ensures less <= available ==> (available + U32 - less) % U32 == available - less
    ensures (ptr + n) % U32 == if ptr + n < U32 then ptr + n else ptr + n - U32
  {
  }

  lemma HoldsIsTiling(m: Pool, t: Tiling, free: seq<int>, end: nat)
    requires Holds(m, t, free, end)
    ensures Tiles(t, end)
  {
  }

  lemma CutInside(b: seq<nat>, k: nat, size: nat)
    requires k + 1 < |b| && b[k] + HEADER + size <= b[k + 1]
    ensures b[k] + HEADER + size <= Cut(b, k, size) <= b[k + 1]
  {
  }

  lemma RequestFacts(size: nat)
    requires size < U32
    ensures Request(size) % 4 == 0 && Request(size) < U32
    ensures size <= Request(size) <==> size <= U32 - RT_ALIGN_SIZE
  {
    RtAlignMeaning(size);
    hide RtAlign;
  }

  /** The growing branch goes wrong: the rounded size plus the minimum wraps to less than the room that the block
      and the free block after it have. */
  ghost predicate WrapGrow(t: Tiling, i: nat, newsize: nat) {
    && newsize != 0 && i + 2 < |t.bounds| && t.bounds[i + 1] !in t.used
    && t.bounds[i + 1] - t.bounds[i] - HEADER < Request(newsize) && Request(newsize) + MINIALLOC >= U32
    && t.bounds[i + 2] - t.bounds[i + 1] - HEADER + (t.bounds[i + 1] - t.bounds[i] - HEADER) >
      (Request(newsize) + MINIALLOC) % U32
  }

  /** The fit test of the growing branch, in 32 bits, decides as the true comparison does except in that case; it
      takes one of the sizes 2^32-15 to 2^32-8. */
  lemma GrowTestWraps(t: Tiling, end: nat, i: nat, newsize: nat)
    requires Tiles(t, end) && end + HEADER <= U32 && 0 < newsize < U32
    requires i + 2 < |t.bounds| && t.bounds[i + 1] !in t.used
    requires t.bounds[i + 1] - t.bounds[i] - HEADER < Request(newsize)
    ensures var n := Request(newsize);
      var room := t.bounds[i + 2] - t.bounds[i + 1] - HEADER + (t.bounds[i + 1] - t.bounds[i] - HEADER);
      (room > (n + MINIALLOC) % U32 <==> room > n + MINIALLOC) <==> !WrapGrow(t, i, newsize)
    ensures WrapGrow(t, i, newsize) ==>
      U32 - 16 < newsize <= U32 - RT_ALIGN_SIZE && Request(newsize) == U32 - RT_ALIGN_SIZE
  {
    BoundsAround(t.bounds, i + 1, |t.bounds| - 1);
    WrappedRequest(newsize);
    hide Request;
  }

  lemma WrappedRequest(size: nat)
    requires size < U32
    ensures Request(size) < U32
    ensures Request(size) + MINIALLOC >= U32 <==> U32 - 16 < size <= U32 - RT_ALIGN_SIZE
    ensures Request(size) + MINIALLOC >= U32 ==> Request(size) == U32 - RT_ALIGN_SIZE
  {
    RtAlignMeaning(size);
    hide RtAlign;
  }

  /** A heap of 1024 bytes in which it happens. */
  lemma GrowTestFails()
    ensures var t := Tiling([0, 48, 1000], {0});
      Tiles(t, 1000) && Coalesced(t) && Spaced(t, HEADER) && WrapGrow(t, 0, 0xFFFF_FFF8)
  {
    WrappedRequest(0xFFFF_FFF8);
    hide Request;
  }

  /** The headers describe no heap: whatever the blocks and the free list are said to be, the invariant fails. */
  ghost predicate Broken(m: Pool, end: nat) {
    forall t: Tiling, free: seq<int> :: !Holds(m, t, free, end)
  }

  /** Following the block list from its start leaves no choice of the bounds. */
  lemma {:induction false} ChainIsForced(m: Pool, b: seq<nat>, end: nat, k: nat, t': Tiling, free': seq<int>)
    requires Holds(m, t', free', end) && k + 1 < |b| && b[0] == 0 && Increasing(b) && b[|b| - 1] == end
    requires forall j: nat :: j < k ==> b[j] in m.blocks.next && m.blocks.next[b[j]] == b[j + 1]
    ensures IsBlock(t', k) && t'.bounds[k] == b[k]
  {
    BoundsAround(b, k, |b| - 1);
    HoldsIsTiling(m, t', free', end);
    hide Holds, Increasing;
    if k > 0 {
      ChainIsForced(m, b, end, k - 1, t', free');
      HoldsBlock(m, t', free', end, k - 1);
      assert t'.bounds[k] == b[k] < end;
    }
  }

  /** A header linked in inside the header of its left neighbour: no tiling fits the block list any more. */
  lemma StrayHeader(m: Pool, t: Tiling, free: seq<int>, end: nat, i: nat, c: nat, m': Pool, t': Tiling, free': seq<int>)
    requires Holds(m, t, free, end) && IsBlock(t, i) && t.bounds[i] < c < t.bounds[i] + HEADER
    requires t.bounds[i] in m.blocks.next && m'.blocks == LinkAfter(m.blocks, t.bounds[i], c)
    ensures !Holds(m', t', free', end)
  {
    hide Holds;
    HoldsIsTiling(m, t, free, end);
    if Holds(m', t', free', end) {
      forall j: nat | j < i ensures t.bounds[j] in m'.blocks.next && m'.blocks.next[t.bounds[j]] == t.bounds[j + 1] {
        HoldsBlock(m, t, free, end, j);
        BoundsAround(t.bounds, j, i);
      }
      ChainIsForced(m', t.bounds, end, i, t', free');
      HoldsBlock(m', t', free', end, i);
    }
  }

  /** Joining the block at `p` with the free one at `n` and splitting it 8 bytes below its payload leaves no heap. */
  ghost predicate WrapBreaks(m: Pool, p: nat, n: nat, end: nat) {
    && n in m.frees.next && n in m.frees.prev
    && var m1 := DropFree(m, n);
    && n in m1.blocks.next && n in m1.blocks.prev
    && var m2 := JoinBlock(m1, n);
    && p in m2.blocks.next
    && var m3 := SplitBlock(m2, p, p + HEADER - RT_ALIGN_SIZE);
    && FREE_HEADER in m3.frees.next
    && Broken(PushFree(m3, p + HEADER - RT_ALIGN_SIZE), end)
  }

  /** A header put into the free list and, 8 bytes below the payload of block `i`, into the block list. */
  lemma StrayBreaks(m: Pool, t: Tiling, free: seq<int>, end: nat, i: nat)
    requires Holds(m, t, free, end) && IsBlock(t, i)
    ensures t.bounds[i] in m.blocks.next && FREE_HEADER in m.frees.next
    ensures var p := t.bounds[i];
      var m3 := SplitBlock(m, p, p + HEADER - RT_ALIGN_SIZE);
      FREE_HEADER in m3.frees.next && Broken(PushFree(m3, p + HEADER - RT_ALIGN_SIZE), end)
  {
    hide Holds, Tiles;
    var c := t.bounds[i] + HEADER - RT_ALIGN_SIZE;
    FirstEntry(m, t, free, end);
    HoldsBlock(m, t, free, end, i);
    var m' := PushFree(SplitBlock(m, t.bounds[i], c), c);
    forall t', free' ensures !Holds(m', t', free', end) {
      StrayHeader(m, t, free, end, i, c, m', t', free');
    }
  }

  lemma BeforeDrop(b: seq<nat>, i: nat)
    requires i + 1 < |b|
    ensures |DropBound(b, i + 1)| == |b| - 1 && DropBound(b, i + 1)[i] == b[i]
  {
  }

  /** The growing branch when the new size wraps: the new header lies 8 bytes below the payload. */
  lemma WrapFacts(m: Pool, t: Tiling, free: seq<int>, end: nat, i: nat, j: nat)
    requires Holds(m, t, free, end) && i + 2 < |t.bounds| && t.bounds[i + 1] !in t.used
    requires j < |free| && free[j] == t.bounds[i + 1]
    ensures WrapBreaks(m, t.bounds[i], t.bounds[i + 1], end)
  {
    hide Holds, DropEntry, DropFree, JoinBlock, Tiles, PushFree, Broken, SplitBlock, DropBound, SamePayload;
    Absorb(m, t, free, end, i, j);
    var n := t.bounds[i + 1];
    BeforeDrop(t.bounds, i);
    StrayBreaks(JoinBlock(DropFree(m, n), n), t.(bounds := DropBound(t.bounds, i + 1)), DropEntry(free, j), end, i);
  }

  /** What rt_memheap_realloc makes of the live block `i` when the size, rounded up, is `n`, the fit test of the growing
      branch does not wrap, and it does not fail. */
  ghost predicate Reallocated(t0: Tiling, free0: seq<int>, c0: seq<Cell>, end: nat, i: nat, n: nat, k: nat, j: nat,
                              offset: int, t1: Tiling, c1: seq<Cell>)
    requires IsBlock(t0, i)
  {
    var b := t0.bounds;
    var p, size := b[i], b[i + 1] - b[i] - HEADER;
    if n <= size <= n + HEADER + MINIALLOC then
      offset == p + HEADER && t1 == t0 && c1 == c0
    else if n < size then
      offset == p + HEADER && t1 == Shrink(t0, i, p + HEADER + n) && SamePayload(c0, c1, t1, HEADER)
    else if i + 2 < |b| && b[i + 1] !in t0.used && b[i + 2] - b[i + 1] - HEADER + size > n + MINIALLOC then
      offset == p + HEADER && t1 == Grow(t0, i, p + HEADER + n) && SamePayload(c0, c1, t0, HEADER)
    else
      && size >= 0 && offset >= 0 && Moved(t0, free0, end, Request(n), k, j, offset, p, t1)
      && SamePayload(c0, c1, Unmark(t0, i), HEADER)
      && SamePrefix(c0, p + HEADER, c1, offset, size)
  }

  /** A successful rt_memheap_realloc of a live block gives the caller what was asked for if and only if rounding the
      size up did not wrap; when it wraps, the block is kept, cut to the minimum or moved. */
  lemma ReallocServes(m0: Pool, t0: Tiling, free0: seq<int>, end: nat, i: nat, newsize: nat, k: nat, j: nat,
                      offset: int, t1: Tiling, c1: seq<Cell>)
    requires Holds(m0, t0, free0, end) && Coalesced(t0) && IsBlock(t0, i) && t0.bounds[i] in t0.used
    requires newsize < U32 && end + HEADER <= U32 && Tiles(t1, end)
    requires Reallocated(t0, free0, m0.cells, end, i, Request(newsize), k, j, offset, t1, c1)
    ensures Serves(t0, m0.cells, i, newsize, offset - HEADER, t1, c1, HEADER) <==> newsize <= U32 - RT_ALIGN_SIZE
  {
    hide Holds, Coalesced, SamePayload, SamePrefix, Serves, Take, ReleaseAt, Shrink, Grow, RtAlign, Tiles, Moved,
      Request;
    HoldsBlock(m0, t0, free0, end, i);
    HoldsSize(m0, t0, free0, end);
    RequestFacts(newsize);
    if Serves(t0, m0.cells, i, newsize, offset - HEADER, t1, c1, HEADER) {
      NoRoom(t0, m0.cells, i, newsize, offset - HEADER, t1, c1, HEADER, end);
    }
    if newsize <= U32 - RT_ALIGN_SIZE {
      ReallocGives(m0, t0, free0, end, i, newsize, k, j, offset, t1, c1);
    }
  }

  lemma ReallocGives(m0: Pool, t0: Tiling, free0: seq<int>, end: nat, i: nat, newsize: nat, k: nat, j: nat, offset: int,
                     t1: Tiling, c1: seq<Cell>)
    requires Holds(m0, t0, free0, end) && Coalesced(t0) && IsBlock(t0, i) && t0.bounds[i] in t0.used
    requires newsize <= Request(newsize) < U32
    requires Reallocated(t0, free0, m0.cells, end, i, Request(newsize), k, j, offset, t1, c1)
    ensures Serves(t0, m0.cells, i, newsize, offset - HEADER, t1, c1, HEADER)
  {
    hide Holds, Coalesced, SamePayload, SamePrefix, Serves, Take, ReleaseAt, Shrink, Grow, RtAlign, Tiles, Request,
      Moved;
    HoldsBlock(m0, t0, free0, end, i);
    HoldsSize(m0, t0, free0, end);
    var n := Request(newsize);
    var b := t0.bounds;
    var size := b[i + 1] - b[i] - HEADER;
    if n <= size <= n + HEADER + MINIALLOC {
      KeptServes(t0, end, m0.cells, i, newsize, HEADER);
    } else if n < size {
      CutServes(t0, end, m0.cells, i, newsize, b[i] + HEADER + n, t1, c1, HEADER);
    } else if i + 2 < |b| && b[i + 1] !in t0.used && b[i + 2] - b[i + 1] - HEADER + size > n + MINIALLOC {
      HoldsBlock(m0, t0, free0, end, i + 1);
      GrowServes(t0, end, m0.cells, i, newsize, b[i] + HEADER + n, t1, c1, HEADER);
    } else {
      RequestTwice(newsize);
      MovedServes(m0, t0, free0, end, i, newsize, n, k, j, offset, t1, c1);
    }
  }

  lemma RequestTwice(size: nat)
    requires size < U32
    ensures Request(size) <= Request(Request(size))
  {
    RtAlignTwice(size);
  }

  lemma MovedServes(m0: Pool, t0: Tiling, free0: seq<int>, end: nat, i: nat, newsize: nat, n: nat, k: nat, j: nat,
                      offset: int, t1: Tiling, c1: seq<Cell>)
    requires Holds(m0, t0, free0, end) && Coalesced(t0) && IsBlock(t0, i) && t0.bounds[i] in t0.used
    requires newsize <= n <= Request(n) && t0.bounds[i + 1] - t0.bounds[i] - HEADER < n && offset >= 0
    requires Moved(t0, free0, end, Request(n), k, j, offset, t0.bounds[i], t1)
    requires SamePayload(m0.cells, c1, Unmark(t0, i), HEADER)
    requires SamePrefix(m0.cells, t0.bounds[i] + HEADER, c1, offset, t0.bounds[i + 1] - t0.bounds[i] - HEADER)
    ensures Serves(t0, m0.cells, i, newsize, offset - HEADER, t1, c1, HEADER)
  {
    hide Holds, Coalesced, SamePayload, SamePrefix, Serves, Take, ReleaseAt, Tiles, Request, Cut;
    HoldsBlock(m0, t0, free0, end, i);
    HoldsFree(m0, t0, free0, end, j);
    CutInside(t0.bounds, k, Request(n));
    MoveServes(t0, end, m0.cells, i, newsize, n, k, Cut(t0.bounds, k, Request(n)), t1, c1, HEADER);
  }

  /** Taking a block gives room for the size asked for if and only if rounding it up did not wrap. */
  lemma AllocServes(m: Pool, t: Tiling, free: seq<int>, end: nat, size: nat, i: nat)
    requires Holds(m, t, free, end) && end + HEADER <= U32 && size < U32
    requires IsBlock(t, i) && t.bounds[i] + HEADER + Request(size) <= t.bounds[i + 1]
    ensures var r := Take(t, i, Cut(t.bounds, i, Request(size)));
      && IsBlock(r, i) && r.bounds[i] == t.bounds[i] && r.bounds[i] in r.used
      && (t.bounds[i] + HEADER + size <= r.bounds[i + 1] <==> size <= U32 - 8)
      && r.bounds[i + 1] - t.bounds[i] - 24 < (if RtAlign(size) < 12 then 12 else RtAlign(size)) + 36
  {
    hide Holds, Tiles;
    HoldsBlock(m, t, free, end, i);
    RequestFacts(size);
    CutInside(t.bounds, i, Request(size));
    hide RtAlign;
    TakeFirst(t, i, Cut(t.bounds, i, Request(size)));
  }

  /** A size that is rounded to 0: a live block of 100 bytes is cut down to 12 and given back as a success. */
  lemma ReallocCutsToMinimum()
    ensures var t := Tiling([0, 124, 1000], {0});
      && Tiles(t, 1000) && Coalesced(t) && !WrapGrow(t, 0, 0xFFFF_FFFF)
      && Request(0xFFFF_FFFF) == MINIALLOC && Request(0xFFFF_FFFF) + HEADER + MINIALLOC < t.bounds[1] - HEADER
      && Shrink(t, 0, HEADER + MINIALLOC) == Tiling([0, 36, 1000], {0})
  {
    var t := Tiling([0, 124, 1000], {0});
    assert InsertBound(t.bounds, 0, 36) == [0, 36, 124, 1000];
    assert DropBound([0, 36, 124, 1000], 2) == [0, 36, 1000];
  }

  /** max_used_size after an allocation that left the blocks `t`. */
  ghost function PeakAfter(peak: nat, t: Tiling, poolSize: nat): int {
    var used := poolSize - Total(t.bounds, t.used, false, HEADER);
    if used > peak then used else peak
  }

  /** The outcome of a move: the first large enough entry has been taken, then the block at `p` released. */
  ghost predicate Moved(t0: Tiling, free0: seq<int>, end: nat, size: nat, k: nat, j: nat, offset: int, p: nat,
      t2: Tiling)
  {
    && IsBlock(t0, k) && j < |free0| && free0[j] == t0.bounds[k]
    && t0.bounds[k] + HEADER + size <= t0.bounds[k + 1]
    && (forall q :: 0 <= q < j ==> BlockSize(t0, free0[q]) < size)
    && offset == t0.bounds[k] + HEADER
    && var t1 := Take(t0, k, Cut(t0.bounds, k, size));
    && Tiles(t1, end) && p in t1.used && t2 == ReleaseAt(t1, end, p)
  }

  /** A used block grown over the old boundary keeps, in particular, its old payload. */
  lemma GrowPayload(c: seq<Cell>, d: seq<Cell>, t: Tiling, i: nat, cut: nat)
    requires IsBlock(t, i + 1) && t.bounds[i + 1] !in t.used && t.bounds[i + 1] <= cut
    requires SamePayload(c, d, Grow(t, i, cut), HEADER)
    ensures SamePayload(c, d, t, HEADER)
  {
    forall j: nat, a: nat | InPayload(t, j, a, HEADER) && a < |c| ensures c[a] == d[a] {
      assert InPayload(Grow(t, i, cut), j, a, HEADER);
    }
  }

  /** Everything the growing branch of rt_memheap_realloc makes true. */
  lemma GrowFacts(m: Pool, t: Tiling, free: seq<int>, end: nat, i: nat, j: nat, c: nat)
    requires Holds(m, t, free, end) && Coalesced(t) && IsBlock(t, i + 1) && t.bounds[i] in t.used && c % 4 == 0
    requires t.bounds[i + 1] !in t.used && j < |free| && free[j] == t.bounds[i + 1]
    requires t.bounds[i + 1] < c && c + HEADER <= t.bounds[i + 2]
    ensures var p, n := t.bounds[i], t.bounds[i + 1];
      && n in m.frees.next && n in m.frees.prev
      && var m1 := DropFree(m, n);
      && n in m1.blocks.next && n in m1.blocks.prev
      && var m2 := JoinBlock(m1, n);
      && p in m2.blocks.next
      && var m3 := SplitBlock(m2, p, c);
      && FREE_HEADER in m3.frees.next
      && var m4 := PushFree(m3, c);
      var r := Grow(t, i, c);
      && Holds(m4, r, [c] + DropEntry(free, j), end) && Coalesced(r)
      && SamePayload(m.cells, m4.cells, t, HEADER)
      && Total(r.bounds, r.used, false, HEADER) == Total(t.bounds, t.used, false, HEADER) - (c - n) >= 0
  {
    hide Holds, HoldsBut, SamePayload, Coalesced, Total, DropEntry, DropFree, JoinBlock, SplitBlock, PushFree, Tiles;
    var p, n := t.bounds[i], t.bounds[i + 1];
    HoldsBlock(m, t, free, end, i);
    HoldsBlock(m, t, free, end, i + 1);
    Absorb(m, t, free, end, i, j);
    var m2 := JoinBlock(DropFree(m, n), n);
    var w := t.(bounds := DropBound(t.bounds, i + 1));
    ReplaceBound(t.bounds, i, c);
    CutTail(m2, w, DropEntry(free, j), end, i, c);
    var m3 := SplitBlock(m2, p, c);
    assert w.(bounds := InsertBound(w.bounds, i, c)) == Grow(t, i, c);
    ReleasePush(m3, Grow(t, i, c), DropEntry(free, j), end, c);
    var m4 := PushFree(m3, c);
    HoldsTotal(m4, Grow(t, i, c), [c] + DropEntry(free, j), end);
    GrowTiles(t, end, i, c);
    GrowTotal(t, end, i, c, false, HEADER);
    SamePayloadTrans(m2.cells, m3.cells, m4.cells, Grow(t, i, c), HEADER);
    GrowPayload(m2.cells, m4.cells, t, i, c);
    SamePayloadTrans(m.cells, m2.cells, m4.cells, t, HEADER);
  }

  /** Everything the shrinking branch of rt_memheap_realloc makes true. */
  lemma ShrinkFacts(m: Pool, t: Tiling, free: seq<int>, end: nat, i: nat, c: nat)
    requires Holds(m, t, free, end) && Coalesced(t) && IsBlock(t, i) && t.bounds[i] in t.used && c % 4 == 0
    requires t.bounds[i] + HEADER <= c && c + HEADER <= t.bounds[i + 1]
    ensures var p, n := t.bounds[i], t.bounds[i + 1];
      && p in m.blocks.next
      && var m1 := SplitBlock(m, p, c);
      var u, r := t.(bounds := InsertBound(t.bounds, i, c)), Shrink(t, i, c);
      && HoldsBut(m1, u, free, end, c) && SamePayload(m.cells, m1.cells, u, HEADER)
      && IsBlock(u, i + 1) && u.bounds[i + 1] == c && c !in u.used && u.bounds[i + 2] == n
      && (i + 3 < |u.bounds| <==> i + 2 < |t.bounds|)
      && Coalesced(r) && UsedExtents(r) == UsedExtents(u)
      && IsFree(r, end, c) && r.bounds[i + 1] == c && IsBlock(r, i + 1)
      && r == (if i + 2 < |t.bounds| && n !in t.used then u.(bounds := DropBound(u.bounds, i + 2)) else u)
      && Total(r.bounds, r.used, false, HEADER) == Total(t.bounds, t.used, false, HEADER)
           + (if i + 2 < |t.bounds| && n !in t.used then n - c else n - c - HEADER)
  {
    hide Holds, HoldsBut, SamePayload, Coalesced, Total, SplitBlock, UsedExtents, Increasing;
    HoldsBlock(m, t, free, end, i);
    CutTail(m, t, free, end, i, c);
    ShrinkTiles(t, end, i, c);
    ShrinkTotal(t, end, i, c, false, HEADER);
    ShrinkExtents(t, end, i, c);
    CutExtents(t, end, i, c);
  }

  /** The tail cut off, block `k` at `c`, joins a free right neighbour and enters the free list. */
  lemma ShrinkJoins(m: Pool, u: Tiling, free: seq<int>, end: nat, k: nat, c: nat, r: Tiling)
    requires HoldsBut(m, u, free, end, c) && IsBlock(u, k) && u.bounds[k] == c
    requires r == MergeRight(u, k) && UsedExtents(r) == UsedExtents(u) && IsFree(r, end, c)
    ensures var q := u.bounds[k + 1];
      var joins := k + 2 < |u.bounds| && q !in u.used;
      && c in m.blocks.next && m.blocks.next[c] == q && q in m.flag && (!m.flag[q] <==> joins) && q in m.blocks.next
      && (joins ==> q in m.blocks.prev && q in m.frees.next && q in m.frees.prev && m.blocks.next[q] == u.bounds[k + 2])
      && (joins ==> JoinBlock(m, q).frees == m.frees)
      && var m2 := if joins then DropFree(JoinBlock(m, q), q) else m;
      && FREE_HEADER in m2.frees.next
      && Holds(PushFree(m2, c), r, [c] + (if joins then Minus(free, q) else free), end)
      && SamePayload(m.cells, PushFree(m2, c).cells, r, HEADER)
  {
    hide HoldsBut, Holds, SamePayload, DropEntry, DropFree, JoinBlock, PushFree, Tiles, UsedExtents, DropBound;
    ButBlock(m, u, free, end, c, k);
    var q := u.bounds[k + 1];
    if k + 2 < |u.bounds| && q !in u.used {
      var j := PosIn(free, q);
      ReleaseRight(m, u, free, end, k, j, c);
      JoinKeepsFrees(m, q);
      var m2 := DropFree(JoinBlock(m, q), q);
      ReleasePush(m2, r, DropEntry(free, j), end, c);
      SamePayloadByExtents(m.cells, m2.cells, u, r, HEADER);
      SamePayloadTrans(m.cells, m2.cells, PushFree(m2, c).cells, r, HEADER);
    } else {
      ReleasePush(m, r, free, end, c);
    }
  }

  /** The shrinking branch from end to end. */
  lemma ShrinkDone(m: Pool, t: Tiling, free: seq<int>, end: nat, i: nat, c: nat)
    requires Holds(m, t, free, end) && Coalesced(t) && IsBlock(t, i) && t.bounds[i] in t.used && c % 4 == 0
    requires t.bounds[i] + HEADER <= c && c + HEADER <= t.bounds[i + 1]
    ensures var p, q := t.bounds[i], t.bounds[i + 1];
      var r := Shrink(t, i, c);
      var joins := i + 2 < |t.bounds| && q !in t.used;
      && p in m.blocks.next
      && var m1 := SplitBlock(m, p, c);
      && c in m1.blocks.next && m1.blocks.next[c] == q && q in m1.flag && (!m1.flag[q] <==> joins)
        && q in m1.blocks.next
      && (joins ==>
          q in m1.blocks.prev && q in m1.frees.next && q in m1.frees.prev && JoinBlock(m1, q).frees == m1.frees)
      && var m2 := if joins then DropFree(JoinBlock(m1, q), q) else m1;
      && FREE_HEADER in m2.frees.next
      && var m3 := PushFree(m2, c);
      && Holds(m3, r, [c] + (if joins then Minus(free, q) else free), end) && Coalesced(r)
      && SamePayload(m.cells, m3.cells, r, HEADER)
      && c in m3.blocks.next
      && Total(r.bounds, r.used, false, HEADER) == Total(t.bounds, t.used, false, HEADER)
           - (if joins then m1.blocks.next[q] - q - HEADER else 0) + (m3.blocks.next[c] - c - HEADER) >= 0
      && Total(r.bounds, r.used, false, HEADER) >= Total(t.bounds, t.used, false, HEADER)
  {
    hide Holds, HoldsBut, SamePayload, Total, Coalesced, DropFree, JoinBlock, SplitBlock, PushFree, Tiles, UsedExtents,
         Shrink, InsertBound, Minus;
    var r, u := Shrink(t, i, c), t.(bounds := InsertBound(t.bounds, i, c));
    HoldsBlock(m, t, free, end, i);
    ShrinkFacts(m, t, free, end, i, c);
    var m1 := SplitBlock(m, t.bounds[i], c);
    ShrinkJoins(m1, u, free, end, i + 1, c, r);
    var q := t.bounds[i + 1];
    var joins := i + 2 < |t.bounds| && q !in t.used;
    var m3 := PushFree(if joins then DropFree(JoinBlock(m1, q), q) else m1, c);
    var free' := [c] + if joins then Minus(free, q) else free;
    HoldsBlock(m3, r, free', end, i + 1);
    HoldsTotal(m3, r, free', end);
    SamePayloadByExtents(m.cells, m1.cells, u, r, HEADER);
    SamePayloadTrans(m.cells, m1.cells, m3.cells, r, HEADER);
  }

  lemma AlignDownFacts(n: nat)
    ensures RtAlignDown(n) <= n && (RtAlignDown(n) >= HEADER ==> (RtAlignDown(n) - HEADER) % 4 == 0)
  {
    var q := n / 8;
    assert RtAlignDown(n) == 8 * q;
    assert 8 * q - HEADER == 4 * (2 * q - 6);
  }

  /** The 32-bit sums of rt_memheap_init. */
  lemma InitSums(poolSize: nat, start: nat)
    requires poolSize < U32 && start + poolSize <= U32
    ensures var available := (poolSize + U32 - 2 * HEADER) % U32;
      && available == poolSize - 2 * HEADER + (if poolSize >= 2 * HEADER then 0 else U32)
      && (poolSize + U32 - available) % U32 == 2 * HEADER
      && (poolSize >= 2 * HEADER || start >= HEADER ==>
          (start + available + HEADER) % U32 - start == poolSize - HEADER)
  {
  }

  /** The pool set up by rt_memheap_init. */
  lemma FreshPool(m: Pool, end: nat)
    requires end >= HEADER && end % 4 == 0 && |m.cells| == end + HEADER
    requires m.blocks == Links(map[0 := end, end := 0], map[0 := end, end := 0])
    requires m.frees == Links(map[FREE_HEADER := 0, 0 := FREE_HEADER], map[FREE_HEADER := 0, 0 := FREE_HEADER])
    requires m.flag == map[0 := false, end := true]
    ensures var t := Tiling([0, end], {});
      Holds(m, t, [0], end) && Coalesced(t) && Total(t.bounds, t.used, false, HEADER) == end - HEADER
  {
    hide IsRing;
    PairRing(m.blocks, 0, end);
    PairRing(m.frees, FREE_HEADER, 0);
    assert [FREE_HEADER] + [0] == [FREE_HEADER, 0];
    var b: seq<nat> := [0, end];
    assert b[1..] == [end] && Total(b[1..], {}, false, HEADER) == 0;
  }

  /** Because the request must be strictly below available_size, the whole of a fresh heap cannot be
      allocated, although its one free block is large enough. */
  lemma WholePoolIsMissed(poolSize: nat)
    requires poolSize >= 2 * HEADER
    ensures var t := Tiling([0, poolSize - HEADER], {});
      var available := poolSize - 2 * HEADER;
      BlockSize(t, 0) == available && NoneFits(t, [0], available, available)
  {
    SizeAt(Tiling([0, poolSize - HEADER], {}), poolSize - HEADER, 0);
  }

  class MemHeap {
    var start: nat                // start_addr
    var poolSize: nat
    var available: nat
    var maxUsed: nat
    var m: Pool
    ghost var t: Tiling
    ghost var free: seq<int>

    /** The block list is in address order and tiles the pool; the free list holds exactly the free
        blocks, each once; no two neighbours are free; available_size is the total free payload. */
    ghost predicate Valid()
      reads this
    {
      && poolSize >= 2 * HEADER && start + poolSize <= U32
      && Holds(m, t, free, poolSize - HEADER) && Coalesced(t)
      && available == Total(t.bounds, t.used, false, HEADER)
      && poolSize - available <= maxUsed
    }

    constructor ()
    {
      start, poolSize, available, maxUsed := 0, 0, 0, 0;
      m := Pool(Links(map[], map[]), Links(map[], map[]), map[], []);
      t := Tiling([], {});
      free := [];
    }

    /** rt_memheap_init: one free block and the used tail header.  Nothing stops a pool without room for the two
        headers: then available_size wraps, and the tail header lies before the pool. */
    method Init(startAddr: nat, size: nat)
      requires size < U32 && startAddr + size <= U32
      modifies this
      ensures start == startAddr && poolSize == RtAlignDown(size) && maxUsed == 2 * HEADER
      ensures Valid() <==> poolSize >= 2 * HEADER
      ensures poolSize >= 2 * HEADER ==>
        t == Tiling([0, poolSize - HEADER], {}) && free == [0] && available == poolSize - 2 * HEADER
      ensures poolSize < 2 * HEADER ==>
        available == poolSize + U32 - 2 * HEADER && 0 in m.blocks.next &&
        (startAddr >= HEADER ==> m.blocks.next[0] == poolSize - HEADER)
    {
      hide Holds, Coalesced, Total, Touch;
      AlignDownFacts(size);
      start := startAddr;
      poolSize := RtAlignDown(size);
      hide RtAlignDown;
      InitSums(poolSize, start);
      available := (poolSize + U32 - 2 * HEADER) % U32;
      maxUsed := (poolSize + U32 - available) % U32;
      var tail: int := (start + available + HEADER) % U32 - start;
      var cells := Touch(Touch(seq(poolSize, _ => Payload(0)), 0), tail);
      m := Pool(Links(map[0 := tail, tail := 0], map[0 := tail, tail := 0]),
                Links(map[FREE_HEADER := 0, 0 := FREE_HEADER], map[FREE_HEADER := 0, 0 := FREE_HEADER]),
                map[0 := false, tail := true], cells);
      if poolSize >= 2 * HEADER {
        t := Tiling([0, poolSize - HEADER], {});
        free := [0];
        FreshPool(m, poolSize - HEADER);
      }
    }

    // --------------------------------------------------- what Valid means

    /** Every byte of the pool is free payload, used payload, or part of the one header each block has,
        the tail header included. */
    lemma BytesConserved()
      requires Valid()
      ensures poolSize == available + Total(t.bounds, t.used, true, HEADER) + HEADER * |t.bounds|
    {
      TotalConservation(t.bounds, t.used, HEADER);
      var n := |t.bounds|;
      assert HEADER * n == HEADER * (n - 1) + HEADER;
    }

    /** The block list is circular and in address order; its `prev` direction is the reverse. */
    lemma BlockListIsOrdered(i: nat)
      requires Valid() && i < |t.bounds|
      ensures t.bounds[i] in m.blocks.next && t.bounds[i] in m.blocks.prev
      ensures m.blocks.next[t.bounds[i]] == (if i + 1 == |t.bounds| then 0 else t.bounds[i + 1])
      ensures m.blocks.prev[t.bounds[i]] == (if i == 0 then poolSize - HEADER else t.bounds[i - 1])
      ensures i + 1 < |t.bounds| ==> t.bounds[i] + HEADER <= t.bounds[i + 1]
    {
      assert NodeOk(m.blocks, t.bounds, i);
    }

    /** The free list visits exactly the blocks whose used flag is clear, each once. */
    lemma FreeListIsExact(x: nat)
      requires Valid() && x in t.bounds
      ensures x in m.flag && (x in free <==> !m.flag[x])
      ensures forall i, j :: 0 <= i < j < |free| ==> free[i] != free[j]
    {
      var r := [FREE_HEADER] + free;
      forall i, j | 0 <= i < j < |free| ensures free[i] != free[j] {
        AtMostOnce(r, i + 1, j + 1);
      }
    }

    /** Live payloads are pairwise disjoint, clear of every header and inside the pool. */
    lemma Layout(i: nat, j: nat)
      requires Valid() && IsBlock(t, i) && IsBlock(t, j) && t.bounds[i] in t.used
      ensures forall a: nat :: InPayload(t, i, a, HEADER) ==> a < poolSize - HEADER
      ensures forall a: nat :: InPayload(t, i, a, HEADER) ==> !(t.bounds[j] <= a < t.bounds[j] + HEADER)
      ensures forall a: nat :: InPayload(t, i, a, HEADER) && i != j ==> !InPayload(t, j, a, HEADER)
    {
      hide IsRing, Coalesced;
      BoundsAround(t.bounds, i, j);
      BoundsAround(t.bounds, i, |t.bounds| - 1);
      BoundsAround(t.bounds, j, i);
    }

    /** Lines 176-187 of memheap.c: walk the free list from its head to the first entry that is large enough. */
    method Search(sz: nat) returns (x: int, freeSize: int, ghost i: nat, ghost j: nat)
      requires Valid() && sz > 0
      ensures j <= |free| && x == EntryAt(free, j)
      ensures forall q :: 0 <= q < j ==> BlockSize(t, free[q]) < sz
      ensures freeSize >= sz <==> j < |free|
      ensures freeSize < sz <==> AllSmaller(t, free, sz)
      ensures j < |free| ==> IsBlock(t, i) && t.bounds[i] == x && freeSize == t.bounds[i + 1] - x - HEADER
    {
      hide Holds, Total, Coalesced, BlockSize;
      i, j, freeSize := 0, 0, 0;
      FirstEntry(m, t, free, poolSize - HEADER);
      x := m.frees.next[FREE_HEADER];
      while x != FREE_HEADER && freeSize < sz
        invariant j <= |free| && x == EntryAt(free, j)
        invariant forall q :: 0 <= q < j ==> BlockSize(t, free[q]) < sz
        invariant freeSize >= sz ==>
          j < |free| && IsBlock(t, i) && t.bounds[i] == x && freeSize == t.bounds[i + 1] - x - HEADER
        decreases |free| - j, if freeSize < sz then 1 else 0
      {
        i := NextEntry(m, t, free, poolSize - HEADER, j);
        freeSize := m.blocks.next[x] - x - HEADER;
        if freeSize < sz {
          x := m.frees.next[x];
          j := j + 1;
        }
      }
      if freeSize >= sz { EntrySize(m, t, free, poolSize - HEADER, i, j); }
    }

    /** Lines 190-265 of memheap.c: take the entry found, cutting off what is not needed. */
    method Commit(x: int, sz: nat, freeSize: int, ghost i: nat, ghost j: nat)
      requires Valid() && IsBlock(t, i) && j < |free| && free[j] == t.bounds[i] == x
      requires freeSize == t.bounds[i + 1] - x - HEADER && sz <= freeSize && sz % 4 == 0
      modifies this`available, this`maxUsed, this`m, this`t, this`free
      ensures Valid()
      ensures t == Take(old(t), i, Cut(old(t).bounds, i, sz))
      ensures free == FreeAfterTake(old(t).bounds, old(free), j, i, Cut(old(t).bounds, i, sz))
      ensures SamePayload(old(m.cells), m.cells, old(t), HEADER)
      ensures maxUsed == if poolSize - available > old(maxUsed) then poolSize - available else old(maxUsed)
    {
      hide Holds, SamePayload, Total, Coalesced, Take, DropEntry, FreeAfterTake, SetUsed, PushFree, DropFree, Touch,
        LinkAfter;
      AllocFacts(m, t, free, poolSize - HEADER, i, j, sz);
      ghost var cut := Cut(t.bounds, i, sz);
      if freeSize >= sz + HEADER + MINIALLOC {
        var n := x + sz + HEADER;
        m := SplitBlock(m, x, n);
        m := DropFree(m, x);
        m := PushFree(m, n);
        available := available - sz - HEADER;
      } else {
        available := available - freeSize;
        m := DropFree(m, x);
      }
      if poolSize - available > maxUsed {
        maxUsed := poolSize - available;
      }
      m := SetUsed(m, x, true);
      free := FreeAfterTake(t.bounds, free, j, i, cut);
      t := Take(t, i, cut);
    }

    /** Lines 160-288 of memheap.c: the first block of the free list that is large enough for `sz` bytes. */
    method AllocRounded(sz: nat) returns (r: nat, ghost i: nat, ghost j: nat)
      requires Valid() && sz > 0 && sz % 4 == 0
      modifies this`available, this`maxUsed, this`m, this`t, this`free
      ensures Valid()
      ensures r == NULL <==> NoneFits(old(t), old(free), old(available), sz)
      ensures r == NULL ==>
        available == old(available) && maxUsed == old(maxUsed) && m == old(m) && t == old(t) && free == old(free)
      ensures r != NULL ==>
        && TookFirst(old(t), old(free), sz, i, j, r - start, t, free)
        && SamePayload(old(m.cells), m.cells, old(t), HEADER)
        && maxUsed == if poolSize - available > old(maxUsed) then poolSize - available else old(maxUsed)
    {
      hide Holds, SamePayload, Total, Coalesced, Take, FreeAfterTake, BlockSize, Cut, AllSmaller;
      i, j := 0, 0;
      if sz < available {
        var x, freeSize;
        x, freeSize, i, j := Search(sz);
        if freeSize >= sz {
          EntrySize(m, t, free, poolSize - HEADER, i, j);
          Commit(x, sz, freeSize, i, j);
          return start + x + HEADER, i, j;
        }
      }
      return NULL, i, j;
    }

    /** rt_memheap_alloc. */
    method Alloc(size: nat) returns (r: nat, ghost i: nat, ghost j: nat)
      requires Valid() && size < U32
      modifies this`available, this`maxUsed, this`m, this`t, this`free
      ensures Valid()
      ensures r == NULL <==> NoneFits(old(t), old(free), old(available), Request(size))
      ensures r == NULL ==>
        available == old(available) && maxUsed == old(maxUsed) && m == old(m) && t == old(t) && free == old(free)
      ensures r != NULL ==>
        && TookFirst(old(t), old(free), Request(size), i, j, r - start, t, free)
        && SamePayload(old(m.cells), m.cells, old(t), HEADER)
        && maxUsed == if poolSize - available > old(maxUsed) then poolSize - available else old(maxUsed)
      // what the caller gets
      ensures r != NULL ==>
        && IsBlock(t, i) && t.bounds[i] in t.used && r == start + t.bounds[i] + HEADER
        && (r - start + size <= t.bounds[i + 1] <==> size <= U32 - 8)
        && t.bounds[i + 1] - (r - start) < (if RtAlign(size) < 12 then 12 else RtAlign(size)) + 36
    {
      hide Holds, SamePayload, Total, Coalesced, Take, FreeAfterTake, BlockSize, Cut, NoneFits;
      var sz := RtAlign(size);
      if sz < MINIALLOC {
        sz := MINIALLOC;
      }
      assert sz == Request(size) && sz % 4 == 0;
      hide RtAlign, Request;
      r, i, j := AllocRounded(sz);
      if r != NULL {
        AllocServes(old(m), old(t), old(free), poolSize - HEADER, size, i);
      }
    }

    // --------------------------------------------------------------- free

    /** Lines 542-558 of memheap.c: join the block `i`, just made free, with a free left neighbour. */
    method JoinLeft(p: int, ghost i: nat) returns (h: int, insert: bool, ghost k: nat)
      requires poolSize >= HEADER && HoldsBut(m, t, free, poolSize - HEADER, p)
      requires IsBlock(t, i) && t.bounds[i] == p && p !in t.used
      modifies this`available, this`m, this`t
      ensures t == MergeLeft(old(t), i)
      ensures insert ==> h == p
      ensures insert <==> !(i > 0 && old(t).bounds[i - 1] !in old(t).used)
      ensures available == old(available) + if insert then 0 else HEADER
      ensures k == (if insert then i else i - 1) && IsBlock(t, k) && h == t.bounds[k] && h !in t.used
      ensures HoldsBut(m, t, free, poolSize - HEADER, if insert then h else FREE_HEADER)
      ensures SamePayload(old(m.cells), m.cells, old(t), HEADER)
    {
      hide HoldsBut, SamePayload, JoinBlock;
      ButBlock(m, t, free, poolSize - HEADER, p, i);
      SamePayloadRefl(m.cells, t, HEADER);
      h, insert, k := p, true, i;
      if !m.flag[m.blocks.prev[p]] {
        ReleaseLeft(m, t, free, poolSize - HEADER, i);
        available := available + HEADER;
        h := m.blocks.prev[p];
        m := JoinBlock(m, p);
        t := t.(bounds := DropBound(t.bounds, i));
        insert, k := false, i - 1;
      }
    }

    /** Lines 561-579 of memheap.c: join the free block `k` with a free right neighbour. */
    method JoinRight(h: int, ghost k: nat, ghost x: int)
      requires poolSize >= HEADER && HoldsBut(m, t, free, poolSize - HEADER, x) && (x == h || x < 0)
      requires IsBlock(t, k) && t.bounds[k] == h && h !in t.used
      modifies this`available, this`m, this`t, this`free
      ensures t == MergeRight(old(t), k)
      ensures var right := k + 2 < |old(t).bounds| && old(t).bounds[k + 1] !in old(t).used;
        && available == old(available) + (if right then HEADER else 0)
        && free == (if right then Minus(old(free), old(t).bounds[k + 1]) else old(free))
      ensures HoldsBut(m, t, free, poolSize - HEADER, x)
      ensures SamePayload(old(m.cells), m.cells, old(t), HEADER)
      ensures IsBlock(t, k) && t.bounds[k] == h && h !in t.used
    {
      hide HoldsBut, SamePayload, JoinBlock, DropFree, DropEntry;
      ButBlock(m, t, free, poolSize - HEADER, x, k);
      SamePayloadRefl(m.cells, t, HEADER);
      if !m.flag[m.blocks.next[h]] {
        ghost var j := PosIn(free, t.bounds[k + 1]);
        ReleaseRight(m, t, free, poolSize - HEADER, k, j, x);
        available := available + HEADER;
        var n := m.blocks.next[h];
        JoinKeepsFrees(m, n);
        m := JoinBlock(m, n);
        m := DropFree(m, n);
        free := DropEntry(free, j);
        t := t.(bounds := DropBound(t.bounds, k + 1));
      }
    }

    /** rt_memheap_free. */
    method Free(ptr: nat, ghost i: nat)
      requires Valid()
      requires ptr == NULL || (IsBlock(t, i) && t.bounds[i] in t.used && ptr == start + t.bounds[i] + HEADER)
      modifies this`available, this`m, this`t, this`free
      ensures Valid()
      ensures ptr == NULL ==> available == old(available) && m == old(m) && t == old(t) && free == old(free)
      ensures ptr != NULL ==>
        && t == Release(old(t), i)
        && free == FreeAfterRelease(old(t), old(free), i)
        && SamePayload(old(m.cells), m.cells, Unmark(old(t), i), HEADER)
    {
      hide Holds, HoldsBut, SamePayload, Total, Coalesced, SetUsed, Minus, UsedExtents, PushFree, MergeLeft,
        MergeRight, Release;
      if ptr == NULL {
        return;
      }
      ghost var end, t0, u := poolSize - HEADER, t, Unmark(t, i);
      FreeFacts(m, t, free, end, i);
      HoldsOrder(m, t, free, end);
      ReleaseEitherOrder(t, i);
      hide Increasing;
      var p := ptr - HEADER - start;
      available := available + (m.blocks.next[p] - p - HEADER);
      m := SetUsed(m, p, false);
      t := u;
      ghost var c1 := m.cells;
      var h, insert;
      ghost var k;
      h, insert, k := JoinLeft(p, i);
      ghost var c2, t2 := m.cells, t;
      SamePayloadTrans(old(m.cells), c1, c2, u, HEADER);
      JoinRight(h, k, if insert then h else FREE_HEADER);
      ghost var c3 := m.cells;
      SamePayloadByExtents(c2, c3, t2, u, HEADER);
      SamePayloadTrans(old(m.cells), c2, c3, u, HEADER);
      if insert {
        ButIsFree(m, t, free, end, h, k);
        ReleasePush(m, t, free, end, h);
        SamePayloadByExtents(c3, PushFree(m, h).cells, t, u, HEADER);
        SamePayloadTrans(old(m.cells), c3, PushFree(m, h).cells, u, HEADER);
        m := PushFree(m, h);
        free := [h] + free;
      } else {
        ButNothing(m, t, free, end, FREE_HEADER);
      }
    }

    // ------------------------------------------------------------ realloc

    /** Lines 357-400 of memheap.c: the free block after the used block `i` gives up its lower end.  The two sums are
        of 32 bits: with a size that wraps in the fit test, the new header lands below the payload. */
    method GrowInPlace(ptr: nat, n: nat, oldsize: nat, ghost i: nat, ghost j: nat)
      requires Valid() && IsBlock(t, i + 1) && t.bounds[i] in t.used && ptr == start + t.bounds[i] + HEADER
        && n % 4 == 0
      requires t.bounds[i + 1] !in t.used && j < |free| && free[j] == t.bounds[i + 1]
      requires oldsize == t.bounds[i + 1] - t.bounds[i] - HEADER && oldsize < n
      requires n + MINIALLOC < U32 ==> t.bounds[i] + HEADER + n + HEADER <= t.bounds[i + 2]
      requires n + MINIALLOC >= U32 ==> n == U32 - RT_ALIGN_SIZE
      modifies this`available, this`maxUsed, this`m, this`t, this`free
      ensures n + MINIALLOC < U32 ==>
        && Valid()
        && t == Grow(old(t), i, old(t).bounds[i] + HEADER + n)
        && free == [old(t).bounds[i] + HEADER + n] + DropEntry(old(free), j)
        && SamePayload(old(m.cells), m.cells, old(t), HEADER)
        && maxUsed == if poolSize - available > old(maxUsed) then poolSize - available else old(maxUsed)
      ensures n + MINIALLOC >= U32 ==> Broken(m, poolSize - HEADER)
    {
      hide Holds, SamePayload, Total, Coalesced, DropEntry, DropFree, JoinBlock, SplitBlock, PushFree, Tiles, Broken,
        Grow;
      ghost var end := poolSize - HEADER;
      HoldsBlock(m, t, free, end, i);
      HoldsBlock(m, t, free, end, i + 1);
      AvailableFits(m, t, free, end);
      ghost var c := t.bounds[i] + HEADER + n - (if n + MINIALLOC < U32 then 0 else U32);
      if n + MINIALLOC < U32 {
        GrowFacts(m, t, free, end, i, j, t.bounds[i] + HEADER + n);
      } else {
        WrapFacts(m, t, free, end, i, j);
      }
      var p := ptr - start - HEADER;
      WordSums(available, n - oldsize, ptr, n);
      available := (available + U32 - (n - oldsize)) % U32;
      if poolSize - available > maxUsed {
        maxUsed := poolSize - available;
      }
      GrowWrites(p, (ptr + n) % U32 - start);
      if n + MINIALLOC < U32 {
        t := Grow(t, i, c);
        free := [c] + DropEntry(free, j);
      }
    }

    /** Lines 370-395 of memheap.c: the header after `p` goes, and a new free one is linked in at `c`. */
    method GrowWrites(p: int, c: int)
      requires p in m.blocks.next
      requires var q := m.blocks.next[p];
        && q in m.frees.next && q in m.frees.prev
        && q in DropFree(m, q).blocks.next && q in DropFree(m, q).blocks.prev
        && p in JoinBlock(DropFree(m, q), q).blocks.next
        && FREE_HEADER in SplitBlock(JoinBlock(DropFree(m, q), q), p, c).frees.next
      modifies this`m
      ensures var q := old(m).blocks.next[p];
        m == PushFree(SplitBlock(JoinBlock(DropFree(old(m), q), q), p, c), c)
    {
      var q := m.blocks.next[p];
      m := DropFree(m, q);
      m := JoinBlock(m, q);
      m := SplitBlock(m, p, c);
      m := PushFree(m, c);
    }

    /** Lines 437-489 of memheap.c: cut the used block `i` and give the rest back. */
    method CutBack(ptr: nat, n: nat, ghost i: nat)
      requires Valid() && IsBlock(t, i) && t.bounds[i] in t.used && ptr == start + t.bounds[i] + HEADER && n % 4 == 0
      requires t.bounds[i] + HEADER + n + HEADER <= t.bounds[i + 1]
      modifies this`available, this`m, this`t, this`free
      ensures Valid()
      ensures t == Shrink(old(t), i, old(t).bounds[i] + HEADER + n)
      ensures var b := old(t).bounds;
        free == [b[i] + HEADER + n]
          + (if i + 2 < |b| && b[i + 1] !in old(t).used then Minus(old(free), b[i + 1]) else old(free))
      ensures SamePayload(old(m.cells), m.cells, t, HEADER)
    {
      hide Holds, SamePayload, Total, Coalesced, DropFree, JoinBlock, SplitBlock, PushFree, Shrink, Minus;
      HoldsBlock(m, t, free, poolSize - HEADER, i);
      ShrinkDone(m, t, free, poolSize - HEADER, i, t.bounds[i] + HEADER + n);
      var p := ptr - start - HEADER;
      var c := p + n + HEADER;
      t := Shrink(t, i, c);
      m := SplitBlock(m, p, c);
      var avail: int := available;
      var q := m.blocks.next[c];
      free := [c] + if m.flag[q] then free else Minus(free, q);
      if !m.flag[q] {
        avail := avail - (m.blocks.next[q] - q - HEADER);
        m := JoinBlock(m, q);
        m := DropFree(m, q);
      }
      m := PushFree(m, c);
      available := avail + (m.blocks.next[c] - c - HEADER);
    }

    /** Lines 413-420 of memheap.c: allocate a new block, copy, free the old one. */
    method MoveBlock(ptr: nat, n: nat, oldsize: nat, ghost i: nat) returns (r: nat, ghost k: nat, ghost j: nat)
      requires Valid() && n < U32 && IsBlock(t, i) && t.bounds[i] in t.used && ptr == start + t.bounds[i] + HEADER
      requires oldsize == t.bounds[i + 1] - t.bounds[i] - HEADER && oldsize < n <= Request(n)
      modifies this`available, this`maxUsed, this`m, this`t, this`free
      ensures Valid()
      ensures r == NULL <==> NoneFits(old(t), old(free), old(available), Request(n))
      ensures r == NULL ==>
        available == old(available) && maxUsed == old(maxUsed) && m == old(m) && t == old(t) && free == old(free)
      ensures r != NULL ==>
        && r >= start && IsBlock(old(t), k) && old(t).bounds[k] + HEADER <= old(t).bounds[k + 1]
        && Moved(old(t), old(free), poolSize - HEADER, Request(n), k, j, r - start, old(t).bounds[i], t)
        && SamePayload(old(m.cells), m.cells, Unmark(old(t), i), HEADER)
        && SamePrefix(old(m.cells), old(t).bounds[i] + HEADER, m.cells, r - start, oldsize)
        && maxUsed == PeakAfter(old(maxUsed), Take(old(t), k, Cut(old(t).bounds, k, Request(n))), poolSize)
    {
      hide Holds, SamePayload, SamePrefix, Total, Coalesced, Take, Release, ReleaseAt, UsedExtents, Cut, FreeAfterTake,
           FreeAfterRelease, BlockSize, Copy, Tiles, Request;
      r, k, j := Alloc(n);
      if r != NULL {
        ghost var end, t0 := poolSize - HEADER, old(t);
        ghost var p := t0.bounds[i];
        HoldsIsTiling(old(m), t0, old(free), end);
        HoldsFree(old(m), t0, old(free), end, j);
        HoldsBlock(old(m), t0, old(free), end, k);
        CutInside(t0.bounds, k, Request(n));
        ghost var cut := Cut(t0.bounds, k, Request(n));
        ghost var i1 := MoveTiling(t0, end, i, k, cut);
        MovePool(old(m), t0, old(free), end, i, k, cut, m, free, oldsize);
        m := m.(cells := Copy(m.cells, r - start, ptr - start, oldsize));
        ghost var c2 := m.cells;
        ghost var t1 := t;
        Free(ptr, i1);
        BoundsOfUnmark(t1, i1, end);
        SamePayloadByExtents(c2, m.cells, Unmark(t1, i1), t, HEADER);
        MovedSurvives(old(m.cells), c2, m.cells, t0, t, i, k, cut, p + HEADER, oldsize, HEADER);
      }
    }

    /** Lines 313-496 of memheap.c: a live block gets the size `n`, which is `newsize` rounded up. */
    method ReallocLive(ptr: nat, n: nat, ghost newsize: nat, ghost i: nat) returns (r: nat, ghost k: nat, ghost j: nat)
      requires Valid() && 0 < newsize < U32 && n == Request(newsize)
      requires IsBlock(t, i) && t.bounds[i] in t.used && ptr == start + t.bounds[i] + HEADER
      modifies this`available, this`maxUsed, this`m, this`t, this`free
      ensures Valid() <==> !WrapGrow(old(t), i, newsize)
      ensures WrapGrow(old(t), i, newsize) ==> r == ptr && Broken(m, poolSize - HEADER)
      ensures r == NULL ==>
        available == old(available) && maxUsed == old(maxUsed) && m == old(m) && t == old(t) && free == old(free)
      ensures !WrapGrow(old(t), i, newsize) && r != NULL ==>
        Reallocated(old(t), old(free), old(m.cells), poolSize - HEADER, i, n, k, j, r - start, t, m.cells)
      ensures !WrapGrow(old(t), i, newsize) ==>
        var b := old(t).bounds;
        var size := b[i + 1] - b[i] - HEADER;
        if n <= size <= n + HEADER + MINIALLOC then
          r == ptr && m == old(m) && free == old(free) && maxUsed == old(maxUsed)
        else if n < size then
          r == ptr && maxUsed == old(maxUsed)
        else if i + 2 < |b| && b[i + 1] !in old(t).used && b[i + 2] - b[i + 1] - HEADER + size > n + MINIALLOC then
          r == ptr && maxUsed == PeakAfter(old(maxUsed), t, poolSize)
        else
          && (r == NULL <==> NoneFits(old(t), old(free), old(available), Request(n)))
          && (r != NULL ==>
            IsBlock(old(t), k) && b[k] + HEADER <= b[k + 1] &&
            maxUsed == PeakAfter(old(maxUsed), Take(old(t), k, Cut(b, k, Request(n))), poolSize))
    {
      hide Holds, SamePayload, SamePrefix, Total, Coalesced, Take, Shrink, BlockSize, Moved, Minus, DropEntry, Cut,
        Tiles, RtAlign;
      k, j := 0, 0;
      RequestFacts(newsize);
      RequestFacts(n);
      WrappedRequest(newsize);
      hide Request;
      BlockWithNext(m, t, free, poolSize - HEADER, i);
      HoldsIsTiling(m, t, free, poolSize - HEADER);
      var p := ptr - start - HEADER;
      var size := m.blocks.next[p] - p - HEADER;
      if n > size {
        var next := m.blocks.next[p];
        if !m.flag[next] {
          GrowTestWraps(t, poolSize - HEADER, i, newsize);
          var nextsize := m.blocks.next[next] - next - HEADER;
          if nextsize + size > (n + MINIALLOC) % U32 {
            GrowInPlace(ptr, n, size, i, PosIn(free, t.bounds[i + 1]));
            return ptr, k, j;
          }
        }
        r, k, j := MoveBlock(ptr, n, size, i);
        return;
      }
      if n + HEADER + MINIALLOC >= size {
        return ptr, k, j;
      }
      CutBack(ptr, n, i);
      return ptr, k, j;
    }

    /** rt_memheap_realloc.  It does what is promised below unless the fit test of the growing branch wraps; then
        the headers it leaves describe no heap at all. */
    method Realloc(ptr: nat, newsize: nat, ghost i: nat) returns (r: nat, ghost k: nat, ghost j: nat)
      requires Valid() && newsize < U32
      requires ptr == NULL || (IsBlock(t, i) && t.bounds[i] in t.used && ptr == start + t.bounds[i] + HEADER)
      modifies this`available, this`maxUsed, this`m, this`t, this`free
      ensures Valid() <==> ptr == NULL || !WrapGrow(old(t), i, newsize)
      ensures ptr != NULL && WrapGrow(old(t), i, newsize) ==> r == ptr && Broken(m, poolSize - HEADER)
      // size zero frees
      ensures newsize == 0 ==> r == NULL && maxUsed == old(maxUsed) && (ptr != NULL ==>
        t == Release(old(t), i) && SamePayload(old(m.cells), m.cells, Unmark(old(t), i), HEADER))
      // failure changes nothing
      ensures r == NULL && (newsize != 0 || ptr == NULL) ==>
        available == old(available) && maxUsed == old(maxUsed) && m == old(m) && t == old(t) && free == old(free)
      // a fresh block
      ensures newsize != 0 && ptr == NULL && r != NULL ==>
        && TookFirst(old(t), old(free), Request(Request(newsize)), k, j, r - start, t, free)
        && SamePayload(old(m.cells), m.cells, old(t), HEADER)
        && maxUsed == PeakAfter(old(maxUsed), t, poolSize)
      // an old block
      ensures newsize != 0 && ptr != NULL && !WrapGrow(old(t), i, newsize) && r != NULL ==>
        && Reallocated(old(t), old(free), old(m.cells), poolSize - HEADER, i, Request(newsize), k, j, r - start, t,
          m.cells)
        && (Serves(old(t), old(m.cells), i, newsize, r - start - HEADER, t, m.cells, HEADER) <==>
            newsize <= U32 - RT_ALIGN_SIZE)
      ensures newsize != 0 && ptr != NULL && !WrapGrow(old(t), i, newsize) ==>
        var b, n := old(t).bounds, Request(newsize);
        var size := b[i + 1] - b[i] - HEADER;
        if n <= size <= n + HEADER + MINIALLOC then
          r == ptr && m == old(m) && free == old(free) && maxUsed == old(maxUsed)
        else if n < size then
          r == ptr && maxUsed == old(maxUsed)
        else if i + 2 < |b| && b[i + 1] !in old(t).used && b[i + 2] - b[i + 1] - HEADER + size > n + MINIALLOC then
          r == ptr && maxUsed == PeakAfter(old(maxUsed), t, poolSize)
        else
          && (r == NULL <==> NoneFits(old(t), old(free), old(available), Request(n)))
          && (r != NULL ==>
            IsBlock(old(t), k) && b[k] + HEADER <= b[k + 1] &&
            maxUsed == PeakAfter(old(maxUsed), Take(old(t), k, Cut(b, k, Request(n))), poolSize))
    {
      hide Holds, SamePayload, SamePrefix, Total, Coalesced, Take, Release, Shrink, FreeAfterTake, FreeAfterRelease,
           BlockSize, Moved, Minus, DropEntry, TookFirst, Cut, Tiles, Reallocated, Serves, Broken;
      k, j := 0, 0;
      RequestFacts(newsize);
      RequestFacts(Request(newsize));
      if newsize == 0 {
        Free(ptr, i);
        return NULL, k, j;
      }
      var n := RtAlign(newsize);
      if n < MINIALLOC {
        n := MINIALLOC;
      }
      assert n == Request(newsize);
      hide RtAlign, Request;
      if ptr == NULL {
        r, k, j := Alloc(n);
        return;
      }
      r, k, j := ReallocLive(ptr, n, newsize, i);
      if r != NULL && !WrapGrow(old(t), i, newsize) {
        HoldsIsTiling(m, t, free, poolSize - HEADER);
        ReallocServes(old(m), old(t), old(free), poolSize - HEADER, i, newsize, k, j, r - start, t, m.cells);
      }
    }
  }
}
