/** The first-fit heap of mem.c: headers live in the arena, linked by offsets. */
module SmallHeaps {
  import opened Tilings
  import opened Payloads
  import opened Servings
  import opened Words

  const HEADER: nat := 16            // sizeof(struct heap_mem), aligned
  const MIN_SIZE: nat := 12
  const MIN_SIZE_ALIGNED: nat := 16

  /** The arena: the words of each header, by the offset of the header, and the bytes.
      Writing any word of a header overwrites bytes of that header only. */
  datatype Arena = Arena(next: map<nat, nat>, prev: map<nat, nat>, flag: map<nat, bool>, cells: seq<Cell>)

  function SetNext(m: Arena, p: nat, v: nat): Arena
    requires p + HEADER <= |m.cells|
  {
    m.(next := m.next[p := v], cells := Clobber(m.cells, p, HEADER))
  }

  function SetPrev(m: Arena, p: nat, v: nat): Arena
    requires p + HEADER <= |m.cells|
  {
    m.(prev := m.prev[p := v], cells := Clobber(m.cells, p, HEADER))
  }

  function SetUsed(m: Arena, p: nat, v: bool): Arena
    requires p + HEADER <= |m.cells|
  {
    m.(flag := m.flag[p := v], cells := Clobber(m.cells, p, HEADER))
  }

  /** The header at the start of block `i` has the right links and flag. */
  ghost predicate HeaderOk(m: Arena, t: Tiling, i: nat)
    requires IsBlock(t, i)
  {
    var x := t.bounds[i];
    && x in m.next && x in m.prev && x in m.flag
    && m.next[x] == t.bounds[i + 1]
    && m.prev[x] == (if i == 0 then 0 else t.bounds[i - 1])
    && (m.flag[x] <==> x in t.used)
  }

  /** All headers are right; the end header is marked used and its links are not relied on. */
  ghost predicate Linked(m: Arena, t: Tiling) {
    && |t.bounds| >= 2
    && (forall i: nat | IsBlock(t, i) :: HeaderOk(m, t, i))
    && (var end := t.bounds[|t.bounds| - 1]; end in m.next && end in m.prev && end in m.flag && m.flag[end])
  }

  ghost predicate Aligned(b: seq<nat>) {
    forall i :: 0 <= i < |b| ==> b[i] % RT_ALIGN_SIZE == 0
  }

  /** `x` is the greatest bound not above `m`. */
  ghost predicate IsFloor(b: seq<nat>, m: nat, x: nat) {
    x in b && x <= m && forall y :: y in b && y <= m ==> y <= x
  }

  /** A free block or the end header. */
  ghost predicate FreeOrEnd(t: Tiling, end: nat, x: nat) {
    x in t.bounds && x !in t.used
  }

  /** `x` is the lowest free block, or the end header when nothing is free. */
  ghost predicate IsLowest(t: Tiling, end: nat, x: nat) {
    FreeOrEnd(t, end, x) && forall y :: y in t.bounds && y !in t.used ==> x <= y
  }

  ghost predicate Large(t: Tiling, i: nat, size: nat) {
    IsBlock(t, i) && t.bounds[i] !in t.used && t.bounds[i] + HEADER + size <= t.bounds[i + 1]
  }

  /** The blocks the search accepts: free, large enough, and starting strictly below the search limit. */
  ghost predicate Fits(t: Tiling, i: nat, size: nat, memSize: nat) {
    Large(t, i, size) && t.bounds[i] < memSize - size
  }

  /** Where an allocation of `size` bytes cuts block `i`. */
  ghost function Cut(b: seq<nat>, i: nat, size: nat): nat
    requires i + 1 < |b| && b[i] + HEADER <= b[i + 1]
  {
    if b[i + 1] - (b[i] + HEADER) >= size + HEADER + MIN_SIZE_ALIGNED then b[i] + HEADER + size else b[i + 1]
  }

  // -------------------------------------------------------- value lemmas

  lemma LinkedInsert(m: Arena, t: Tiling, i: nat, c: nat, prev': map<nat, nat>)
    requires Linked(m, t) && Increasing(t.bounds) && IsBlock(t, i)
    requires t.bounds[i] < c < t.bounds[i + 1] && c !in t.used
    requires prev' == m.prev[c := t.bounds[i]][t.bounds[i + 1] := c]
             || (i + 2 == |t.bounds| && prev' == m.prev[c := t.bounds[i]])
    ensures Linked(m.(next := m.next[c := t.bounds[i + 1]][t.bounds[i] := c], prev := prev',
      flag := m.flag[c := false]),
                   t.(bounds := InsertBound(t.bounds, i, c)))
  {
    var b := t.bounds;
    var r := t.(bounds := InsertBound(b, i, c));
    var m' := m.(next := m.next[c := b[i + 1]][b[i] := c], prev := prev', flag := m.flag[c := false]);
    forall j: nat | IsBlock(r, j) ensures HeaderOk(m', r, j) {
      InsertedHeader(m, t, i, c, prev', j);
    }
    var last := |b| - 1;
    assert r.bounds[last + 1] == b[last];
    BoundsAround(b, i, last);
  }

  lemma InsertedHeader(m: Arena, t: Tiling, i: nat, c: nat, prev': map<nat, nat>, j: nat)
    requires Linked(m, t) && Increasing(t.bounds) && IsBlock(t, i)
    requires t.bounds[i] < c < t.bounds[i + 1] && c !in t.used && j <= |t.bounds| - 1
    requires prev' == m.prev[c := t.bounds[i]][t.bounds[i + 1] := c]
             || (i + 2 == |t.bounds| && prev' == m.prev[c := t.bounds[i]])
    ensures HeaderOk(m.(next := m.next[c := t.bounds[i + 1]][t.bounds[i] := c], prev := prev',
      flag := m.flag[c := false]),
                     t.(bounds := InsertBound(t.bounds, i, c)), j)
  {
    var b := t.bounds;
    var r := InsertBound(b, i, c);
    if j == i + 1 {
      assert r[i] == b[i] && r[j] == c && r[j + 1] == b[i + 1];
    } else {
      var k := if j <= i then j else j - 1;
      BoundsAround(b, i, k);
      assert HeaderOk(m, t, k);
      assert r[j] == b[k];
      assert r[j + 1] == if k == i then c else b[k + 1];
      assert j > 0 ==> r[j - 1] == if k == i + 1 then c else b[k - 1];
    }
  }

  lemma LinkedDrop(m: Arena, t: Tiling, k: nat)
    requires Linked(m, t) && Increasing(t.bounds) && 0 < k < |t.bounds| - 1
    ensures Linked(m.(next := m.next[t.bounds[k - 1] := t.bounds[k + 1]],
      prev := m.prev[t.bounds[k + 1] := t.bounds[k - 1]]),
                   t.(bounds := DropBound(t.bounds, k)))
  {
    var b := t.bounds;
    var r := t.(bounds := DropBound(b, k));
    var m' := m.(next := m.next[b[k - 1] := b[k + 1]], prev := m.prev[b[k + 1] := b[k - 1]]);
    Distinct(b, k - 1);
    Distinct(b, k + 1);
    forall j: nat | IsBlock(r, j) ensures HeaderOk(m', r, j) {
      var q := if j < k then j else j + 1;
      assert HeaderOk(m, t, q);
      assert r.bounds[j] == b[q];
    }
  }

  lemma LinkedFlag(m: Arena, t: Tiling, i: nat, on: bool)
    requires Linked(m, t) && Increasing(t.bounds) && IsBlock(t, i)
    ensures Linked(m.(flag := m.flag[t.bounds[i] := on]),
                   t.(used := if on then t.used + {t.bounds[i]} else t.used - {t.bounds[i]}))
  {
    var b := t.bounds;
    var r := t.(used := if on then t.used + {b[i]} else t.used - {b[i]});
    Distinct(b, i);
    forall j: nat | IsBlock(r, j) ensures HeaderOk(m.(flag := m.flag[b[i] := on]), r, j) {
      assert HeaderOk(m, t, j);
    }
  }

  lemma LinkedCells(m: Arena, t: Tiling, c: seq<Cell>)
    requires Linked(m, t)
    ensures Linked(m.(cells := c), t)
  {
    forall j: nat | IsBlock(t, j) ensures HeaderOk(m.(cells := c), t, j) {
      assert HeaderOk(m, t, j);
    }
  }

  lemma FloorOfMember(b: seq<nat>, m: nat)
    requires m in b
    ensures IsFloor(b, m, m)
  {
  }

  /** Dropping bound `k` moves the floor of that bound down to its predecessor and no other floor. */
  lemma FloorAfterDrop(b: seq<nat>, k: nat, m: nat)
    requires Increasing(b) && 0 < k < |b| - 1 && m in b
    ensures IsFloor(DropBound(b, k), m, if m == b[k] then b[k - 1] else m)
  {
    var r := DropBound(b, k);
    forall x | x in b && x != b[k] ensures x in r {
      var j := IndexIn(b, x);
      assert r[if j < k then j else j - 1] == x;
    }
    forall y | y in r && y <= b[k] ensures y <= b[k - 1] {
      var j := IndexIn(r, y);
      var q := if j < k then j else j + 1;
      assert b[q] == y;
      BoundsAround(b, k - 1, q);
    }
    BoundsAround(b, k - 1, k);
  }

  lemma FloorTrans(b: seq<nat>, c: seq<nat>, m: nat, x: nat, y: nat)
    requires IsFloor(b, m, x) && IsFloor(c, x, y)
    requires forall z :: z in c ==> z in b
    ensures IsFloor(c, m, y)
  {
  }

  /** A tiling whose blocks are aligned and can hold their headers. */
  ghost predicate Shaped(t: Tiling, end: nat) {
    Tiles(t, end) && Spaced(t, HEADER) && Aligned(t.bounds)
  }

  /** The arena holds exactly the tiling `t`. */
  ghost predicate Carries(m: Arena, t: Tiling, end: nat) {
    && |m.cells| == end + HEADER
    && Shaped(t, end)
    && Linked(m, t)
  }

  /** ... and `lfree` is one of its free blocks or its end. */
  ghost predicate Holds(m: Arena, t: Tiling, end: nat, lfree: nat) {
    Carries(m, t, end) && FreeOrEnd(t, end, lfree)
  }

  lemma DropShaped(t: Tiling, end: nat, k: nat)
    requires Shaped(t, end) && 0 < k < |t.bounds| - 1 && t.bounds[k] !in t.used
    ensures Shaped(t.(bounds := DropBound(t.bounds, k)), end)
  {
    DropTiles(t, end, k);
  }

  lemma InsertShaped(t: Tiling, end: nat, i: nat, c: nat)
    requires Shaped(t, end) && IsBlock(t, i) && c % RT_ALIGN_SIZE == 0
    requires t.bounds[i] + HEADER <= c && c + HEADER <= t.bounds[i + 1]
    ensures Shaped(t.(bounds := InsertBound(t.bounds, i, c)), end) && c !in t.used
  {
    InsertTiles(t, end, i, c);
    InsertSpaced(t.bounds, i, c);
    hide Increasing, Spaced;
  }

  lemma InsertSpaced(b: seq<nat>, i: nat, c: nat)
    requires Spaced(Tiling(b, {}), HEADER) && i + 1 < |b| && b[i] + HEADER <= c && c + HEADER <= b[i + 1]
    ensures forall used: set<nat> :: Spaced(Tiling(InsertBound(b, i, c), used), HEADER)
  {
    var r := InsertBound(b, i, c);
    forall j, k | 0 <= j < k < |r| ensures r[j] + HEADER <= r[k] {
      assert b[if j <= i then j else j - 1] <= r[j]
        && r[k] <= b[if k <= i then k else if k == i + 1 then i + 1 else k - 1];
    }
  }

  /** The words rewritten when block `k` joins block `k - 1`. */
  function Unlink(m: Arena, p: nat, n: nat): (r: Arena)
    requires p + HEADER <= |m.cells| && n + HEADER <= |m.cells|
    ensures |r.cells| == |m.cells|
  {
    SetPrev(SetNext(m, p, n), n, p)
  }

  /** Everything that joining block `k` with block `k - 1` keeps, when both are free. */
  lemma JoinStep(m: Arena, t: Tiling, end: nat, k: nat, lfree: nat)
    requires Holds(m, t, end, lfree)
    requires 0 < k < |t.bounds| - 1 && t.bounds[k] !in t.used && t.bounds[k - 1] !in t.used
    ensures t.bounds[k - 1] + HEADER <= |m.cells| && t.bounds[k + 1] + HEADER <= |m.cells|
    ensures var b := t.bounds;
      var r := t.(bounds := DropBound(b, k));
      var lfree' := if lfree == b[k] then b[k - 1] else lfree;
      var m' := Unlink(m, b[k - 1], b[k + 1]);
      && Holds(m', r, end, lfree')
      && IsFloor(r.bounds, lfree, lfree')
      && SamePayload(m.cells, m'.cells, r, HEADER)
  {
    var b := t.bounds;
    var r := t.(bounds := DropBound(b, k));
    DropShaped(t, end, k);
    LinkedDrop(m, t, k);
    FloorAfterDrop(b, k, lfree);
    assert r.bounds[k - 1] == b[k - 1] && r.bounds[k] == b[k + 1];
    BoundsAround(b, k - 1, |b| - 1);
    BoundsAround(b, k, |b| - 1);
    var m' := Unlink(m, b[k - 1], b[k + 1]);
    LinkedCells(m.(next := m'.next, prev := m'.prev), r, m'.cells);
    ClobberHeader(m.cells, b[k - 1], r, k - 1, HEADER);
    ClobberHeader(Clobber(m.cells, b[k - 1], HEADER), b[k + 1], r, k, HEADER);
    SamePayloadTrans(m.cells, Clobber(m.cells, b[k - 1], HEADER), m'.cells, r, HEADER);
  }

  /** The header writes that cut block [p, n) at `c`: a new free header at `c`, linked between `p` and `n`. */
  function Split(m: Arena, p: nat, c: nat, n: nat, end: nat): (r: Arena)
    requires p + HEADER <= |m.cells| && c + HEADER <= |m.cells| && n + HEADER <= |m.cells|
    ensures |r.cells| == |m.cells|
  {
    var created := SetPrev(SetNext(SetUsed(m, c, false), c, n), c, p);
    var linked := SetNext(created, p, c);
    if n != end then SetPrev(linked, n, c) else linked
  }

  lemma SplitStep(m: Arena, t: Tiling, end: nat, i: nat, c: nat)
    requires Carries(m, t, end) && IsBlock(t, i) && c % RT_ALIGN_SIZE == 0
    requires t.bounds[i] + HEADER <= c && c + HEADER <= t.bounds[i + 1]
    ensures var n := t.bounds[i + 1];
      && n + HEADER <= |m.cells| && c !in t.used
      && var r := t.(bounds := InsertBound(t.bounds, i, c));
      && Carries(Split(m, t.bounds[i], c, n, end), r, end)
      && SamePayload(m.cells, Split(m, t.bounds[i], c, n, end).cells, r, HEADER)
  {
    var b := t.bounds;
    var n := b[i + 1];
    BoundsAround(b, i, |b| - 1);
    InsertShaped(t, end, i, c);
    var r := t.(bounds := InsertBound(b, i, c));
    assert r.bounds[i] == b[i] && r.bounds[i + 1] == c && r.bounds[i + 2] == n;
    assert n == end <==> i + 2 == |b| by { BoundsAround(b, i, |b| - 1); }
    var m' := Split(m, b[i], c, n, end);
    SplitLinked(m, t, end, i, c);
    var c1 := Clobber(m.cells, c, HEADER);
    var c2 := Clobber(c1, c, HEADER);
    var c3 := Clobber(c2, c, HEADER);
    var c4 := Clobber(c3, b[i], HEADER);
    SplitCells(m.cells, r, i + 1, c2);
    ClobberHeader(c2, c, r, i + 1, HEADER);
    SamePayloadTrans(m.cells, c2, c3, r, HEADER);
    ClobberHeader(c3, b[i], r, i, HEADER);
    SamePayloadTrans(m.cells, c3, c4, r, HEADER);
    if n != end {
      ClobberHeader(c4, n, r, i + 2, HEADER);
      SamePayloadTrans(m.cells, c4, Clobber(c4, n, HEADER), r, HEADER);
    }
  }

  lemma SplitCells(c: seq<Cell>, t: Tiling, k: nat, d: seq<Cell>)
    requires Increasing(t.bounds) && Spaced(t, HEADER) && k < |t.bounds| && t.bounds[k] + HEADER <= |c|
    requires d == Clobber(Clobber(c, t.bounds[k], HEADER), t.bounds[k], HEADER)
    ensures SamePayload(c, d, t, HEADER)
  {
    ClobberHeader(c, t.bounds[k], t, k, HEADER);
    ClobberHeader(Clobber(c, t.bounds[k], HEADER), t.bounds[k], t, k, HEADER);
    SamePayloadTrans(c, Clobber(c, t.bounds[k], HEADER), d, t, HEADER);
  }

  lemma SplitLinked(m: Arena, t: Tiling, end: nat, i: nat, c: nat)
    requires Carries(m, t, end) && IsBlock(t, i) && c !in t.used
    requires t.bounds[i] + HEADER <= c && c + HEADER <= t.bounds[i + 1] && t.bounds[i + 1] + HEADER <= |m.cells|
    ensures Linked(Split(m, t.bounds[i], c, t.bounds[i + 1], end), t.(bounds := InsertBound(t.bounds, i, c)))
  {
    var b := t.bounds;
    var m' := Split(m, b[i], c, b[i + 1], end);
    BoundsAround(b, i, |b| - 1);
    LinkedInsert(m, t, i, c, m'.prev);
    LinkedCells(m.(next := m'.next, prev := m'.prev, flag := m'.flag), t.(bounds := InsertBound(b, i, c)), m'.cells);
  }

  /** Setting or clearing the used flag of block `i`. */
  lemma MarkStep(m: Arena, t: Tiling, end: nat, i: nat, on: bool)
    requires Carries(m, t, end) && IsBlock(t, i)
    ensures t.bounds[i] + HEADER <= |m.cells|
    ensures var r := t.(used := if on then t.used + {t.bounds[i]} else t.used - {t.bounds[i]});
      && Carries(SetUsed(m, t.bounds[i], on), r, end)
      && SamePayload(m.cells, SetUsed(m, t.bounds[i], on).cells, t, HEADER)
  {
    var b := t.bounds;
    BoundsAround(b, i, |b| - 1);
    LinkedFlag(m, t, i, on);
    var r := t.(used := if on then t.used + {b[i]} else t.used - {b[i]});
    LinkedCells(m.(flag := m.flag[b[i] := on]), r, Clobber(m.cells, b[i], HEADER));
    ClobberHeader(m.cells, b[i], t, i, HEADER);
  }

  /** Cutting the free block `i` and marking its lower part used is taking it. */
  lemma CarveStep(m: Arena, t: Tiling, end: nat, i: nat, c: nat)
    requires Carries(m, t, end) && IsBlock(t, i) && t.bounds[i] !in t.used && c % RT_ALIGN_SIZE == 0
    requires t.bounds[i] + HEADER <= c && c + HEADER <= t.bounds[i + 1]
    ensures var p, n := t.bounds[i], t.bounds[i + 1];
      && n + HEADER <= |m.cells|
      && var m' := SetUsed(Split(m, p, c, n, end), p, true);
      && Carries(m', Take(t, i, c), end)
      && SamePayload(m.cells, m'.cells, t, HEADER)
  {
    var b := t.bounds;
    var r := t.(bounds := InsertBound(b, i, c));
    SplitStep(m, t, end, i, c);
    var m1 := Split(m, b[i], c, b[i + 1], end);
    CutFreeExtents(t, i, c);
    assert r.bounds[i] == b[i];
    MarkStep(m1, r, end, i, true);
    hide Carries, SamePayload, UsedExtents;
    SamePayloadTrans(m.cells, m1.cells, SetUsed(m1, b[i], true).cells, r, HEADER);
    SamePayloadByExtents(m.cells, SetUsed(m1, b[i], true).cells, r, t, HEADER);
  }

  /** What the forward test of plug_holes sees. */
  lemma RightNeighbour(m: Arena, t: Tiling, end: nat, i: nat)
    requires Tiles(t, end) && Linked(m, t) && IsBlock(t, i)
    ensures var n := t.bounds[i + 1];
      && t.bounds[i] in m.next && m.next[t.bounds[i]] == n && n in m.flag && n in m.next && n != t.bounds[i]
      && ((!m.flag[n] && n != end) <==> (i + 2 < |t.bounds| && n !in t.used))
      && (i + 2 < |t.bounds| ==> m.next[n] == t.bounds[i + 2])
  {
    assert HeaderOk(m, t, i);
    if i + 2 < |t.bounds| {
      assert HeaderOk(m, t, i + 1);
      assert t.bounds[i + 1] < t.bounds[|t.bounds| - 1];
    }
  }

  /** Reading the header at bound `k`, which may be the end header. */
  lemma FlagAt(m: Arena, t: Tiling, end: nat, k: nat)
    requires Carries(m, t, end) && k < |t.bounds|
    ensures t.bounds[k] in m.flag && t.bounds[k] in m.next
    ensures t.bounds[k] == end <==> k + 1 == |t.bounds|
    ensures k + 1 < |t.bounds| ==> m.next[t.bounds[k]] == t.bounds[k + 1] && t.bounds[k + 1] in m.flag
    ensures k + 1 < |t.bounds| ==> (m.flag[t.bounds[k]] <==> t.bounds[k] in t.used)
    ensures k + 1 < |t.bounds| ==>
      forall y :: y in t.bounds && y < t.bounds[k + 1] ==> y <= t.bounds[k]
    ensures t.bounds[k] !in t.used || k + 1 < |t.bounds|
  {
    if k + 1 < |t.bounds| {
      assert HeaderOk(m, t, k);
      assert t.bounds[k] < t.bounds[|t.bounds| - 1];
      if k + 2 < |t.bounds| { assert HeaderOk(m, t, k + 1); }
      forall y | y in t.bounds && y < t.bounds[k + 1] ensures y <= t.bounds[k] {
        NoBoundInside(t.bounds, k, y);
      }
    }
  }

  /** What the search loop of rt_malloc sees at bound `k` when it lies below the search limit. */
  lemma SearchStep(m: Arena, t: Tiling, end: nat, lfree: nat, k: nat, size: nat, memSize: nat)
    requires Holds(m, t, end, lfree) && end == memSize + HEADER && k < |t.bounds| && t.bounds[k] < memSize - size
    ensures IsBlock(t, k) && (Fits(t, k, size, memSize) ==> t.bounds[k] !in t.used)
    ensures var x := t.bounds[k];
      && x in m.flag && x in m.next && m.next[x] == t.bounds[k + 1] && x + HEADER <= t.bounds[k + 1]
      && (!m.flag[x] && m.next[x] - (x + HEADER) >= size <==> Fits(t, k, size, memSize))
      && (Fits(t, k, size, memSize) ==> Large(t, k, size))
  {
    FlagAt(m, t, end, k);
    assert IsBlock(t, k);
    assert t.bounds[k] + HEADER <= t.bounds[k + 1];
  }

  /** Past the search limit nothing fits. */
  lemma SearchEnds(m: Arena, t: Tiling, end: nat, lfree: nat, k: nat, size: nat, memSize: nat)
    requires Holds(m, t, end, lfree) && k < |t.bounds| && t.bounds[k] >= memSize - size
    ensures forall j: nat :: j >= k && Fits(t, j, size, memSize) ==> false
  {
    forall j: nat | j > k && IsBlock(t, j) ensures t.bounds[k] < t.bounds[j] {
    }
  }

  lemma BackTogether(m: Arena, t: Tiling, end: nat, lfree: nat)
    requires Carries(m, t, end) && FreeOrEnd(t, end, lfree)
    ensures Holds(m, t, end, lfree)
  {
  }

  /** Below `lfree`, no block before its index starts at or after it. */
  lemma LfreeIndex(m: Arena, t: Tiling, end: nat, lfree: nat) returns (k: nat)
    requires Holds(m, t, end, lfree)
    ensures k < |t.bounds| && t.bounds[k] == lfree
    ensures forall j: nat :: j < k ==> t.bounds[j] < lfree
    ensures forall j: nat :: k < j < |t.bounds| ==> lfree < t.bounds[j]
  {
    k := IndexIn(t.bounds, lfree);
  }

  /** The first block, searching upwards from offset `from`, that the search accepts. */
  ghost predicate IsFirstFit(t: Tiling, from: nat, size: nat, memSize: nat, k: nat) {
    && Fits(t, k, size, memSize) && from <= t.bounds[k]
    && forall j: nat :: Fits(t, j, size, memSize) && from <= t.bounds[j] ==> k <= j
  }

  /** The outcome of a successful search: block `k` is the first fit and has been taken. */
  ghost predicate Allocated(t0: Tiling, lfree: nat, size: nat, memSize: nat, k: nat, offset: int, t1: Tiling) {
    && IsFirstFit(t0, lfree, size, memSize, k)
    && t0.bounds[k] + HEADER <= t0.bounds[k + 1]
    && offset == t0.bounds[k] + HEADER
    && t1 == Take(t0, k, Cut(t0.bounds, k, size))
  }

  /** The outcome of a move: block `k` is the first fit and has been taken, and the block at `p` has been released. */
  ghost predicate Moved(t0: Tiling, lfree: nat, size: nat, memSize: nat, k: nat, offset: int, p: nat, t2: Tiling) {
    && IsFirstFit(t0, lfree, size, memSize, k)
    && t0.bounds[k] + HEADER <= t0.bounds[k + 1]
    && offset == t0.bounds[k] + HEADER
    && var t1 := Take(t0, k, Cut(t0.bounds, k, size));
    && Tiles(t1, memSize + HEADER) && p in t1.used
    && t2 == ReleaseAt(t1, memSize + HEADER, p)
  }

  /** What rt_realloc makes of the live block `i` when the size, rounded up, is `n` and it does not fail. */
  ghost predicate Reallocated(t0: Tiling, lfree: nat, c0: seq<Cell>, i: nat, n: nat, memSize: nat, k: nat, offset: int,
                              t1: Tiling, c1: seq<Cell>)
    requires IsBlock(t0, i)
  {
    var b := t0.bounds;
    var p, size := b[i], b[i + 1] - b[i] - HEADER;
    if size == n then offset == p + HEADER && t1 == t0 && c1 == c0
    else if n + HEADER + MIN_SIZE < size then
      offset == p + HEADER && t1 == Shrink(t0, i, p + HEADER + n) && SamePayload(c0, c1, t1, HEADER)
    else
      && n > 0 && offset >= 0 && size >= 0 && Moved(t0, lfree, Request(n), memSize, k, offset, p, t1)
      && SamePayload(c0, c1, Unmark(t0, i), HEADER)
      && SamePrefix(c0, p + HEADER, c1, offset, Least(size, n))
  }

  /** The maximum of used_mem once the blocks are those of `t`. */
  ghost function PeakAfter(peak: nat, t: Tiling): nat {
    var used := Total(t.bounds, t.used, true, 0);
    if used > peak then used else peak
  }

  /** The payload size rt_malloc looks for. */
  function Request(size: nat): nat {
    if RtAlign(size) < MIN_SIZE_ALIGNED then MIN_SIZE_ALIGNED else RtAlign(size)
  }

  /** What the backward test of plug_holes sees; the first block is its own predecessor. */
  lemma LeftNeighbour(m: Arena, t: Tiling, end: nat, i: nat)
    requires Tiles(t, end) && Linked(m, t) && IsBlock(t, i)
    ensures t.bounds[i] in m.prev && t.bounds[i] in m.next && m.next[t.bounds[i]] == t.bounds[i + 1]
    ensures var q := m.prev[t.bounds[i]];
      && q in m.flag && q in m.next
      && ((q != t.bounds[i] && !m.flag[q]) <==> (i > 0 && t.bounds[i - 1] !in t.used))
      && (i > 0 ==> q == t.bounds[i - 1])
  {
    assert HeaderOk(m, t, i);
    if i > 0 {
      assert HeaderOk(m, t, i - 1);
      assert t.bounds[i - 1] < t.bounds[i];
    }
  }

  /** Every used block starts low enough for its payload pointer to lie below the end header. */
  ghost predicate Inside(t: Tiling, memSize: nat) {
    forall u :: u in t.used ==> u < memSize
  }

  // ------------------------------------------------ the lowest free block

  /** `x` is the first free block at or after offset `p`, or the end header. */
  ghost predicate IsNextFree(t: Tiling, end: nat, p: nat, x: nat) {
    FreeOrEnd(t, end, x) && p <= x && forall y :: y in t.bounds && p <= y < x ==> y in t.used
  }

  /** Taking a block keeps `lfree` the lowest free block, when it moves on from the block taken. */
  lemma LowestAfterTake(t: Tiling, end: nat, i: nat, cut: nat, x: nat, y: nat)
    requires Tiles(t, end) && IsBlock(t, i) && t.bounds[i] !in t.used && t.bounds[i] < cut <= t.bounds[i + 1]
    requires FreeOrEnd(Take(t, i, cut), end, y)
    requires if x == t.bounds[i] then IsNextFree(Take(t, i, cut), end, t.bounds[i], y) else y == x
    ensures IsLowest(t, end, x) ==> IsLowest(Take(t, i, cut), end, y)
  {
    var r := Take(t, i, cut);
    if IsLowest(t, end, x) {
      forall z | z in r.bounds && z !in r.used ensures y <= z {
        assert z == cut || z in t.bounds;
      }
    }
  }

  lemma TakenInside(t: Tiling, i: nat, cut: nat, memSize: nat, size: nat)
    requires Inside(t, memSize) && Fits(t, i, size, memSize)
    ensures Inside(Take(t, i, cut), memSize)
  {
  }

  /** Releasing a block keeps `lfree` the lowest free block. */
  lemma LowestAfterRelease(t: Tiling, r: Tiling, end: nat, p: nat, x: nat, y: nat)
    requires IsLowest(t, end, x) && p in t.bounds && r.used == t.used - {p}
    requires forall z :: z in r.bounds ==> z in t.bounds
    requires IsFloor(r.bounds, if p < x then p else x, y) && y !in r.used
    ensures IsLowest(r, end, y)
  {
  }

  /** Where the block `i` is cut for a payload of `size`, and what the cut leaves. */
  lemma TakeShape(t: Tiling, end: nat, i: nat, size: nat)
    requires Shaped(t, end) && Coalesced(t) && Large(t, i, size) && size % RT_ALIGN_SIZE == 0
    ensures var p, n := t.bounds[i], t.bounds[i + 1];
      var cut := Cut(t.bounds, i, size);
      var r := Take(t, i, cut);
      && p < cut <= n <= end && cut % RT_ALIGN_SIZE == 0 && p + HEADER <= cut && (cut != n ==> cut + HEADER <= n)
      && (n - (p + HEADER) >= size + HEADER + MIN_SIZE_ALIGNED <==> cut != n)
      && (cut == n || cut == p + HEADER + size)
      && Coalesced(r) && IsBlock(r, i) && r.bounds[i] == p
      && Total(r.bounds, r.used, true, 0) == Total(t.bounds, t.used, true, 0) + (cut - p)
  {
    var cut := Cut(t.bounds, i, size);
    CutAligned(t, end, i, size);
    BoundsAround(t.bounds, i, |t.bounds| - 1);
    hide Coalesced, Spaced, Aligned, Increasing, Total;
    TakeTiles(t, end, i, cut);
    TakeFirst(t, i, cut);
    TakeTotal(t, end, i, cut, true, 0);
  }

  lemma TakeKeepsFree(t: Tiling, end: nat, i: nat, cut: nat, x: nat)
    requires IsBlock(t, i) && FreeOrEnd(t, end, x) && x != t.bounds[i]
    ensures FreeOrEnd(Take(t, i, cut), end, x)
  {
    InsertMembers(t.bounds, i, cut);
    hide InsertBound;
  }

  /** The arena after taking block `i`, split or not, as Carve computes it. */
  lemma TakeFacts(m: Arena, t: Tiling, end: nat, lfree: nat, i: nat, size: nat)
    requires Holds(m, t, end, lfree) && Coalesced(t) && Large(t, i, size) && size % RT_ALIGN_SIZE == 0
    ensures t.bounds[i] in m.next && m.next[t.bounds[i]] == t.bounds[i + 1]
    ensures t.bounds[i + 1] + HEADER <= |m.cells|
    ensures var p, n := t.bounds[i], t.bounds[i + 1];
      var cut := Cut(t.bounds, i, size);
      var r := Take(t, i, cut);
      var m' := if cut == n then SetUsed(m, p, true) else SetUsed(Split(m, p, cut, n, end), p, true);
      && p < cut <= n
      && (n - (p + HEADER) >= size + HEADER + MIN_SIZE_ALIGNED <==> cut != n)
      && (cut == n || cut == p + HEADER + size)
      && Carries(m', r, end) && Coalesced(r) && SamePayload(m.cells, m'.cells, t, HEADER)
      && IsBlock(r, i) && r.bounds[i] == p && p !in t.used && Tiles(t, end)
      && Total(r.bounds, r.used, true, 0) == Total(t.bounds, t.used, true, 0) + (cut - p)
      && (lfree != p ==> FreeOrEnd(r, end, lfree))
  {
    var p, n := t.bounds[i], t.bounds[i + 1];
    var cut := Cut(t.bounds, i, size);
    assert HeaderOk(m, t, i);
    if lfree != p { TakeKeepsFree(t, end, i, cut, lfree); }
    hide Linked, SamePayload, Coalesced, Tiles, Spaced, Aligned, Increasing, Total, Cut, InsertBound, Split, SetUsed,
      FreeOrEnd;
    TakeShape(t, end, i, size);
    if cut == n {
      MarkStep(m, t, end, i, true);
    } else {
      CarveStep(m, t, end, i, cut);
    }
  }

  lemma CutAligned(t: Tiling, end: nat, i: nat, size: nat)
    requires Shaped(t, end) && Large(t, i, size) && size % RT_ALIGN_SIZE == 0
    ensures var cut := Cut(t.bounds, i, size);
      && cut % RT_ALIGN_SIZE == 0
      && t.bounds[i] + HEADER <= cut <= t.bounds[i + 1]
      && (cut != t.bounds[i + 1] ==> cut + HEADER <= t.bounds[i + 1])
  {
  }

  /** A fitting block is one that is large enough, except for an exact fit at the very last
      offset: the strict test of the search loop never looks there. */
  lemma FitsExactly(t: Tiling, end: nat, i: nat, size: nat)
    requires Shaped(t, end) && end >= HEADER && size <= end - HEADER
    ensures Fits(t, i, size, end - HEADER) <==> Large(t, i, size) && t.bounds[i] != end - HEADER - size
    ensures Large(t, i, size) && t.bounds[i] == end - HEADER - size ==>
              i + 2 == |t.bounds| && t.bounds[i + 1] == t.bounds[i] + HEADER + size
  {
    var b := t.bounds;
    if Large(t, i, size) {
      BoundsAround(b, i, |b| - 1);
      assert i + 2 == |b| || b[i + 1] < b[|b| - 1];
    }
  }

  /** The whole arena of a fresh heap cannot be allocated in one piece, although it is one free block. */
  lemma WholeArenaIsMissed(memSize: nat)
    ensures var t := Tiling([0, memSize + HEADER], {});
      Large(t, 0, memSize) && !exists i: nat :: Fits(t, i, memSize, memSize)
  {
  }

  /** The state rt_free has set up when it calls plug_holes, and what plug_holes makes of it. */
  lemma FreeFacts(m: Arena, t: Tiling, end: nat, lfree: nat, i: nat, memSize: nat)
    requires Holds(m, t, end, lfree) && Coalesced(t) && Inside(t, memSize)
    requires IsBlock(t, i) && t.bounds[i] in t.used
    ensures var p := t.bounds[i];
      var u, r := Unmark(t, i), Release(t, i);
      && p in m.next && m.next[p] == t.bounds[i + 1] && p < t.bounds[i + 1]
      && p + HEADER <= |m.cells|
      && Holds(SetUsed(m, p, false), u, end, if p < lfree then p else lfree)
      && CoalescedBut(u, i) && p !in u.used
      && SamePayload(m.cells, SetUsed(m, p, false).cells, u, HEADER)
      && Total(r.bounds, r.used, true, 0) == Total(t.bounds, t.used, true, 0) - (t.bounds[i + 1] - p) >= 0
      && UsedExtents(r) == UsedExtents(u) && r.used == u.used
      && Inside(r, memSize)
  {
    var p := t.bounds[i];
    assert HeaderOk(m, t, i);
    assert p < t.bounds[i + 1];
    MarkStep(m, t, end, i, false);
    UnmarkTiles(t, end, i);
    UnmarkExtents(t, i);
    ReleaseTiles(t, end, i);
    ReleaseExtents(t, end, i);
    ReleaseMembers(t, end, i);
    ReleaseTotal(t, end, i, true, 0);
    TotalOfTiling(Release(t, i), end, true);
    assert UsedExtents(Unmark(t, i)) <= UsedExtents(t);
    SamePayloadByExtents(m.cells, SetUsed(m, p, false).cells, t, Unmark(t, i), HEADER);
  }

  lemma LowestAfterFree(m0: Arena, m: Arena, t: Tiling, r: Tiling, end: nat, i: nat, x: nat, y: nat)
    requires Holds(m0, t, end, x) && Coalesced(t) && IsBlock(t, i) && r == Release(t, i)
    requires Holds(m, r, end, y)
    requires IsFloor(r.bounds, if t.bounds[i] < x then t.bounds[i] else x, y)
    ensures IsLowest(t, end, x) ==> IsLowest(r, end, y)
  {
    ReleaseMembers(t, end, i);
    if IsLowest(t, end, x) {
      LowestAfterRelease(t, r, end, t.bounds[i], x, y);
    }
  }

  /** The state rt_realloc has set up when it calls plug_holes after cutting the used block `i`, */
  lemma ShrinkSplits(m: Arena, t: Tiling, end: nat, lfree: nat, i: nat, c: nat)
    requires Holds(m, t, end, lfree) && Coalesced(t)
    requires IsBlock(t, i) && t.bounds[i] in t.used && c % RT_ALIGN_SIZE == 0
    requires t.bounds[i] + HEADER <= c && c + HEADER <= t.bounds[i + 1]
    ensures var p, n := t.bounds[i], t.bounds[i + 1];
      var u := t.(bounds := InsertBound(t.bounds, i, c));
      && n + HEADER <= |m.cells|
      && Holds(Split(m, p, c, n, end), u, end, lfree)
      && IsBlock(u, i + 1) && u.bounds[i + 1] == c && CoalescedBut(u, i + 1) && c !in u.used
      && SamePayload(m.cells, Split(m, p, c, n, end).cells, u, HEADER)
      && MergeLeft(MergeRight(u, i + 1), i + 1) == Shrink(t, i, c)
  {
    var u := t.(bounds := InsertBound(t.bounds, i, c));
    SplitStep(m, t, end, i, c);
    ShrinkTiles(t, end, i, c);
    InsertMembers(t.bounds, i, c);
    hide Linked, SamePayload, Aligned, Coalesced, Split, FreeOrEnd, Spaced;
    MergeRightTiles(u, end, i + 1);
    var r := Shrink(t, i, c);
    assert r.bounds[i] == r.bounds[..i + 2][i] == t.bounds[i];
  }

  /** and what the cut does to the numbers. */
  lemma ShrinkFacts(m: Arena, t: Tiling, end: nat, lfree: nat, i: nat, c: nat, memSize: nat)
    requires Holds(m, t, end, lfree) && Coalesced(t) && Inside(t, memSize)
    requires IsBlock(t, i) && t.bounds[i] in t.used && c % RT_ALIGN_SIZE == 0
    requires t.bounds[i] + HEADER <= c && c + HEADER <= t.bounds[i + 1]
    ensures var p, n := t.bounds[i], t.bounds[i + 1];
      var u, r := t.(bounds := InsertBound(t.bounds, i, c)), Shrink(t, i, c);
      && Total(r.bounds, r.used, true, 0) == Total(t.bounds, t.used, true, 0) - (n - c) >= 0
      && UsedExtents(r) == UsedExtents(u) == UsedExtents(t) - {(p, n)} + {(p, c)} && r.used == t.used
      && Inside(r, memSize)
  {
    hide Linked, Aligned, Coalesced, UsedExtents, FreeOrEnd, Total, Increasing, Spaced, InsertBound;
    ShrinkTiles(t, end, i, c);
    ShrinkTotal(t, end, i, c, true, 0);
    TotalOfTiling(Shrink(t, i, c), end, true);
    ShrinkExtents(t, end, i, c);
    CutExtents(t, end, i, c);
  }

  /** Shrinking in place does not lower `lfree`: it stays the lowest free block exactly when it was
      below the new free block, or pointed at the free block that block joins. */
  lemma LowestAfterShrink(t: Tiling, end: nat, i: nat, c: nat, x: nat, y: nat)
    requires Tiles(t, end) && Coalesced(t) && IsBlock(t, i)
    requires t.bounds[i] in t.used && t.bounds[i] < c < t.bounds[i + 1]
    requires IsLowest(t, end, x) && IsFloor(Shrink(t, i, c).bounds, x, y) && y !in t.used
    ensures IsLowest(Shrink(t, i, c), end, y) <==> x < c || (i + 2 < |t.bounds| && x == t.bounds[i + 1])
  {
    var b, r := t.bounds, Shrink(t, i, c);
    ShrinkMembers(t, end, i, c);
    NoBoundInside(b, i, x);
    if y in b { NoBoundInside(b, i, y); }
    assert b[i + 1] in b;
    hide Increasing, Coalesced;
    if x < c {
      assert x in r.bounds && y == x;
    } else if i + 2 < |b| && x == b[i + 1] {
      assert y == c;
    } else {
      assert x in r.bounds && y == x;
      assert c in r.bounds && c !in r.used;
    }
  }

  /** A heap where it does not: two used blocks and a free one behind them; shrinking the first leaves `lfree`
      above the block just freed. */
  lemma ShrinkMissesLowest()
    ensures var t := Tiling([0, 104, 208, 312], {0, 104});
      && Tiles(t, 312) && Coalesced(t) && IsLowest(t, 312, 208)
      && IsFloor(Shrink(t, 0, 48).bounds, 208, 208) && !IsLowest(Shrink(t, 0, 48), 312, 208)
  {
    var t := Tiling([0, 104, 208, 312], {0, 104});
    ShrinkExample();
    hide Shrink;
    var r := Tiling([0, 48, 104, 208, 312], {0, 104});
    assert r.bounds[1] == 48 && r.bounds[3] == 208 && t.bounds[2] == 208;
    assert 48 in r.bounds && 48 !in r.used;
  }

  lemma ShrinkExample()
    ensures Shrink(Tiling([0, 104, 208, 312], {0, 104}), 0, 48) == Tiling([0, 48, 104, 208, 312], {0, 104})
  {
    var t := Tiling([0, 104, 208, 312], {0, 104});
    assert InsertBound(t.bounds, 0, 48) == [0, 48, 104, 208, 312];
  }

  /** A request that does not make rt_malloc search an arena below the minimum block. */
  ghost predicate SearchStops(size: nat, memSize: nat) {
    size == 0 || RtAlign(size) > memSize || memSize >= MIN_SIZE_ALIGNED
  }

  /** Where the search is after `n` turns. */
  ghost function Follow(m: Arena, p: nat, n: nat): nat {
    if n == 0 then p else var q := Follow(m, p, n - 1); if q in m.next then m.next[q] else q
  }

  /** An arena below the minimum block: the search limit wraps, no block is large enough, and the end header leads
      to itself, so every turn has a next one. */
  lemma {:induction false} TinyArenaSpins(m: Arena, t: Tiling, memSize: nat, lfree: nat, size: nat, n: nat)
    requires Holds(m, t, memSize + HEADER, lfree) && m.next[memSize + HEADER] == memSize + HEADER
    requires size < U32 && !SearchStops(size, memSize)
    ensures var x, sz := Follow(m, lfree, n), Request(size);
      && x < (memSize + U32 - sz) % U32
      && x in m.flag && x in m.next && (!m.flag[x] ==> m.next[x] - (x + HEADER) < sz)
      && x in t.bounds
  {
    hide RtAlign, Aligned;
    var end := memSize + HEADER;
    assert t.bounds == [0, end];
    assert HeaderOk(m, t, 0);
    if n > 0 { TinyArenaSpins(m, t, memSize, lfree, size, n - 1); }
  }

  /** For example in an arena of 8 bytes as rt_system_heap_init leaves it, with a request for 8 bytes. */
  lemma TinyExample(n: nat)
    ensures var m := Arena(map[0 := 24, 24 := 24], map[0 := 0, 24 := 24], map[0 := false, 24 := true],
                           seq(40, _ => HeaderByte));
      var x := Follow(m, 0, n);
      && x < (8 + U32 - Request(8)) % U32
      && x in m.flag && x in m.next && (!m.flag[x] ==> m.next[x] - (x + HEADER) < Request(8))
  {
    var m := Arena(map[0 := 24, 24 := 24], map[0 := 0, 24 := 24], map[0 := false, 24 := true],
      seq(40, _ => HeaderByte));
    FreshArena(m, 24);
    hide Holds, RtAlign;
    assert RtAlign(8) == 8 by { RtAlignMeaning(8); }
    TinyArenaSpins(m, Tiling([0, 24], {}), 8, 0, 8, n);
  }

  /** A live block of such an arena is all of it, so no realloc of it searches for another size than 0. */
  lemma TinyBlock(m: Arena, t: Tiling, memSize: nat, lfree: nat, i: nat, n: nat)
    requires Holds(m, t, memSize + HEADER, lfree) && IsBlock(t, i) && n % RT_ALIGN_SIZE == 0 && n <= memSize
    ensures t.bounds[i + 1] - t.bounds[i] - HEADER == n || SearchStops(n, memSize)
  {
    hide Linked, RtAlign;
    TwoBlocks(t, memSize + HEADER);
    assert t.bounds[|t.bounds| - 1] % RT_ALIGN_SIZE == 0;
  }

  lemma TwoBlocks(t: Tiling, end: nat)
    requires Tiles(t, end) && Spaced(t, HEADER)
    ensures |t.bounds| > 2 ==> end >= 2 * HEADER
  {
    if |t.bounds| > 2 {
      assert t.bounds[0] + HEADER <= t.bounds[1] && t.bounds[1] + HEADER <= t.bounds[|t.bounds| - 1];
    }
  }

  /** A pointer outside the arena: rt_realloc and rt_free leave everything alone. */
  ghost predicate Illegal(heapPtr: nat, memSize: nat, rmem: nat) {
    rmem < heapPtr || rmem >= heapPtr + memSize + HEADER
  }

  /** `rmem` is the payload pointer of the used block `i`. */
  ghost predicate Live(heapPtr: nat, t: Tiling, i: nat, rmem: nat) {
    IsBlock(t, i) && t.bounds[i] in t.used && rmem == heapPtr + t.bounds[i] + HEADER
  }

  /** The arena of a move, after the new block `k` has been taken and the payload copied. */
  lemma MoveArena(m0: Arena, t0: Tiling, end: nat, l0: nat, i: nat, k: nat, cut: nat, m1: Arena, l1: nat, n: nat)
    requires Holds(m0, t0, end, l0) && IsBlock(t0, i) && t0.bounds[i] in t0.used
    requires IsBlock(t0, k) && t0.bounds[k] !in t0.used && cut <= t0.bounds[k + 1]
    requires t0.bounds[k] + HEADER + n <= cut && t0.bounds[i] + HEADER + n <= t0.bounds[i + 1]
    requires Holds(m1, Take(t0, k, cut), end, l1) && SamePayload(m0.cells, m1.cells, t0, HEADER)
    ensures var p, q := t0.bounds[i], t0.bounds[k];
      && p + HEADER + n <= |m1.cells| && q + HEADER + n <= |m1.cells|
      && var c2 := Copy(m1.cells, q + HEADER, p + HEADER, n);
      && Holds(m1.(cells := c2), Take(t0, k, cut), end, l1)
      && SamePayload(m0.cells, c2, Unmark(t0, i), HEADER)
      && SamePrefix(m0.cells, p + HEADER, c2, q + HEADER, n)
  {
    hide Holds, Take, SamePayload, SamePrefix, UsedExtents, Increasing, Spaced, Copy;
    HoldsBlock(m0, t0, end, l0, i);
    HoldsBlock(m0, t0, end, l0, k);
    HoldsCells(m0, t0, end, l0, m0.cells);
    HoldsCells(m1, Take(t0, k, cut), end, l1, m1.cells);
    var p, q := t0.bounds[i] + HEADER, t0.bounds[k] + HEADER;
    CopyIntoFree(m0.cells, m1.cells, t0, k, p, n, HEADER);
    SamePayloadUnmark(m0.cells, Copy(m1.cells, q, p, n), t0, i, HEADER);
    SamePayloadRange(m0.cells, m1.cells, t0, i, p, n, HEADER);
    CopiedPrefix(m0.cells, m1.cells, p, q, n);
    HoldsCells(m1, Take(t0, k, cut), end, l1, Copy(m1.cells, q, p, n));
  }

  lemma HoldsBlock(m: Arena, t: Tiling, end: nat, lfree: nat, i: nat)
    requires Holds(m, t, end, lfree) && IsBlock(t, i)
    ensures Tiles(t, end) && Spaced(t, HEADER) && t.bounds[i] + HEADER <= t.bounds[i + 1] <= end
  {
    hide Linked;
    BoundsAround(t.bounds, i, |t.bounds| - 1);
  }

  lemma HoldsCells(m: Arena, t: Tiling, end: nat, lfree: nat, c: seq<Cell>)
    requires Holds(m, t, end, lfree) && |c| == |m.cells|
    ensures |m.cells| == end + HEADER && Holds(m.(cells := c), t, end, lfree)
  {
    hide Shaped, Linked;
    LinkedCells(m, t, c);
  }

  lemma HoldsTiles(m: Arena, t: Tiling, end: nat, lfree: nat)
    requires Holds(m, t, end, lfree)
    ensures Tiles(t, end)
  {
  }

  lemma BlockHasHeader(m: Arena, t: Tiling, end: nat, lfree: nat, i: nat)
    requires Holds(m, t, end, lfree) && IsBlock(t, i)
    ensures t.bounds[i] in m.next && m.next[t.bounds[i]] == t.bounds[i + 1] && t.bounds[i] + HEADER <= t.bounds[i + 1]
    ensures t.bounds[i] % RT_ALIGN_SIZE == 0 && t.bounds[i + 1] % RT_ALIGN_SIZE == 0
  {
    assert HeaderOk(m, t, i);
  }

  /** What a successful search says about the block it took. */
  lemma TakenBlock(m: Arena, t: Tiling, end: nat, lfree: nat, k: nat, size: nat, memSize: nat)
    requires Holds(m, t, end, lfree) && IsFirstFit(t, lfree, size, memSize, k)
    ensures IsBlock(t, k) && t.bounds[k] !in t.used && t.bounds[k] + HEADER <= t.bounds[k + 1]
    ensures var cut := Cut(t.bounds, k, size); t.bounds[k] + HEADER + size <= cut <= t.bounds[k + 1]
  {
  }

  lemma FirstFitIsLarge(t: Tiling, from: nat, size: nat, memSize: nat, k: nat)
    requires IsFirstFit(t, from, size, memSize, k)
    ensures Large(t, k, size)
  {
  }

  /** The arena set up by rt_system_heap_init. */
  lemma FreshArena(m: Arena, end: nat)
    requires end >= HEADER && end % RT_ALIGN_SIZE == 0 && |m.cells| == end + HEADER
    requires m.next == map[0 := end, end := end] && m.prev == map[0 := 0, end := end]
      && m.flag == map[0 := false, end := true]
    ensures var t := Tiling([0, end], {});
      && Holds(m, t, end, 0) && Coalesced(t) && IsLowest(t, end, 0) && Total(t.bounds, t.used, true, 0) == 0
  {
    var t := Tiling([0, end], {});
    assert Total([end], {}, true, 0) == 0;
    assert t.bounds[1..] == [end];
    assert HeaderOk(m, t, 0);
  }

  // ------------------------------------------------------------ the heap

  /** A successful rt_realloc of a live block gives the caller what was asked for if and only if rounding the size
      up did not wrap; when it wraps, the block is kept or cut down to no bytes at all. */
  lemma ReallocServes(m0: Arena, t0: Tiling, end: nat, lfree: nat, i: nat, newsize: nat, memSize: nat, k: nat,
                      offset: int, t1: Tiling, c1: seq<Cell>)
    requires Holds(m0, t0, end, lfree) && Coalesced(t0) && IsBlock(t0, i) && t0.bounds[i] in t0.used && newsize < U32
    requires end == memSize + HEADER
    requires Reallocated(t0, lfree, m0.cells, i, RtAlign(newsize), memSize, k, offset, t1, c1)
    ensures Serves(t0, m0.cells, i, newsize, offset - HEADER, t1, c1, HEADER) <==> newsize <= U32 - RT_ALIGN_SIZE
  {
    hide Coalesced, SamePayload, SamePrefix, Serves, Take, ReleaseAt, Shrink, RtAlign, IsFirstFit, Tiles;
    HoldsTiles(m0, t0, end, lfree);
    BlockHasHeader(m0, t0, end, lfree, i);
    HoldsSize(m0, t0, end, lfree, i);
    var size, n := t0.bounds[i + 1] - t0.bounds[i] - HEADER, RtAlign(newsize);
    RtAlignMeaning(newsize);
    if size == n {
      KeptServes(t0, end, m0.cells, i, newsize, HEADER);
    } else if n + HEADER + MIN_SIZE < size {
      CutServes(t0, end, m0.cells, i, newsize, t0.bounds[i] + HEADER + n, t1, c1, HEADER);
    } else {
      TakenBlock(m0, t0, end, lfree, k, Request(n), memSize);
      RequestCovers(newsize);
      hide Holds, Request, Cut;
      MoveServes(t0, end, m0.cells, i, newsize, n, k, Cut(t0.bounds, k, Request(n)), t1, c1, HEADER);
    }
  }

  /** Whatever else is free, a live block stays where it is exactly if its payload of so many bytes is `n` already, or
      exceeds `n` by more than 28, a header of 16 and 12; and then it is left with no slack at all. */
  ghost predicate Stays(t0: Tiling, i: nat, n: nat, stays: bool, t1: Tiling)
    requires IsBlock(t0, i)
  {
    var p, e := t0.bounds[i], t0.bounds[i + 1];
    (stays <==> e - p - 16 == n || e - p - 16 > n + 28) && (stays ==> (p, p + 16 + n) in UsedExtents(t1))
  }

  /** What the three branches do to lfree, used_mem and max_mem. */
  ghost predicate Recorded(t0: Tiling, i: nat, n: nat, k: nat, stays: bool, fails: bool, t1: Tiling, lfree0: nat,
                           lfree1: nat, used0: int, used1: int, max0: nat, max1: nat)
    requires IsBlock(t0, i)
  {
    var b := t0.bounds;
    var size: int := b[i + 1] - b[i] - HEADER;
    if size == n then stays && lfree1 == lfree0 && used1 == used0 && max1 == max0
    else if n + HEADER + MIN_SIZE < size then stays && IsFloor(t1.bounds, lfree0, lfree1) && max1 == max0
    else
      fails ||
      (IsBlock(t0, k) && b[k] + HEADER <= b[k + 1] && max1 == PeakAfter(max0, Take(t0, k, Cut(b, k, Request(n)))))
  }

  /** A block that stays where it is has the extent asked for. */
  lemma NoSlack(m0: Arena, t0: Tiling, end: nat, lfree: nat, i: nat, n: nat, t1: Tiling)
    requires Holds(m0, t0, end, lfree) && Coalesced(t0) && IsBlock(t0, i) && t0.bounds[i] in t0.used
    requires t1 == if t0.bounds[i + 1] == t0.bounds[i] + HEADER + n then t0
                   else Shrink(t0, i, t0.bounds[i] + HEADER + n)
    requires t0.bounds[i] + HEADER + n <= t0.bounds[i + 1]
    ensures (t0.bounds[i], t0.bounds[i] + HEADER + n) in UsedExtents(t1)
  {
    hide Coalesced, Tiles, Shrink, UsedExtents;
    HoldsTiles(m0, t0, end, lfree);
    hide Holds;
    if t0.bounds[i + 1] == t0.bounds[i] + HEADER + n {
      OwnExtent(t0, i);
    } else {
      ShrinkExtents(t0, end, i, t0.bounds[i] + HEADER + n);
    }
  }

  lemma OwnExtent(t: Tiling, i: nat)
    requires IsBlock(t, i) && t.bounds[i] in t.used
    ensures (t.bounds[i], t.bounds[i + 1]) in UsedExtents(t)
  {
  }

  lemma RequestCovers(newsize: nat)
    requires newsize < U32 && RtAlign(newsize) > 0
    ensures newsize <= RtAlign(newsize) <= Request(RtAlign(newsize)) && newsize <= U32 - RT_ALIGN_SIZE
  {
    RtAlignMeaning(newsize);
    RtAlignTwice(newsize);
  }

  lemma HoldsSize(m: Arena, t: Tiling, end: nat, lfree: nat, i: nat)
    requires Holds(m, t, end, lfree) && IsBlock(t, i)
    ensures t.bounds[i + 1] <= |m.cells|
  {
    BoundsAround(t.bounds, i, |t.bounds| - 1);
  }

  class SmallHeap {
    var heapPtr: nat              // address of offset 0
    var memSize: nat              // mem_size_aligned
    var mem: Arena
    var lfree: nat
    var usedMem: nat
    var maxMem: nat
    ghost var t: Tiling

    ghost predicate Shape()
      reads this
    {
      && heapPtr % RT_ALIGN_SIZE == 0 && heapPtr + memSize + 2 * HEADER <= U32
      && Holds(mem, t, memSize + HEADER, lfree)
    }

    /** The invariant: the blocks reached by `next` tile the arena, links and flags are right,
        no two free neighbours, and used_mem is the total extent of the used blocks. */
    ghost predicate Valid()
      reads this
    {
      && Shape() && Coalesced(t) && Inside(t, memSize)
      && usedMem == Total(t.bounds, t.used, true, 0)
      && usedMem <= maxMem
    }

    constructor ()
    {
      heapPtr, memSize, lfree, usedMem, maxMem := 0, 0, 0, 0, 0;
      mem := Arena(map[], map[], map[], []);
      t := Tiling([], {});
    }

    /** rt_system_heap_init: one free block between two headers, or nothing when the range is too small. */
    method Init(begin: nat, end: nat) returns (ok: bool)
      requires begin < U32 && end < U32
      modifies this`heapPtr, this`memSize, this`mem, this`lfree, this`t
      ensures ok <==> RtAlignDown(end) > 2 * HEADER && RtAlignDown(end) - 2 * HEADER >= RtAlign(begin)
      ensures !ok ==>
        heapPtr == old(heapPtr) && memSize == old(memSize) && mem == old(mem) && lfree == old(lfree) && t == old(t)
      ensures ok ==> heapPtr == RtAlign(begin) && heapPtr + memSize + 2 * HEADER == RtAlignDown(end)
      ensures ok ==> t == Tiling([0, memSize + HEADER], {}) && IsLowest(t, memSize + HEADER, lfree)
      ensures ok ==> Shape() && Coalesced(t) && (usedMem == 0 ==> Valid())
      ensures ok ==> memSize + HEADER in mem.next && mem.next[memSize + HEADER] == memSize + HEADER
    {
      hide Holds, Coalesced, IsLowest, Total;
      RtAlignMeaning(begin);
      var beginAlign := RtAlign(begin);
      var endAlign := RtAlignDown(end);
      if endAlign > 2 * HEADER && endAlign - 2 * HEADER >= beginAlign {
        memSize := endAlign - beginAlign - 2 * HEADER;
      } else {
        return false;
      }
      heapPtr := beginAlign;
      var last := memSize + HEADER;
      var cells := Clobber(seq(last + HEADER, _ => Payload(0)), 0, HEADER);
      mem := Arena(map[0 := last, last := last], map[0 := 0, last := last], map[0 := false, last := true],
                   Clobber(cells, last, HEADER));
      lfree := 0;
      t := Tiling([0, last], {});
      FreshArena(mem, last);
      return true;
    }

    // --------------------------------------------------- what Valid means

    /** Live payloads are pairwise disjoint, clear of every header, aligned and below the end header. */
    lemma Layout(i: nat, j: nat)
      requires Valid() && IsBlock(t, i) && IsBlock(t, j) && t.bounds[i] in t.used
      ensures (heapPtr + t.bounds[i] + HEADER) % RT_ALIGN_SIZE == 0
      ensures !Illegal(heapPtr, memSize, heapPtr + t.bounds[i] + HEADER)
      ensures forall a: nat :: InPayload(t, i, a, HEADER) ==> a < memSize + HEADER
      ensures forall a: nat :: InPayload(t, i, a, HEADER) ==> !(t.bounds[j] <= a < t.bounds[j] + HEADER)
      ensures forall a: nat :: InPayload(t, i, a, HEADER) && i != j ==> !InPayload(t, j, a, HEADER)
    {
      var b := t.bounds;
      assert b[i] % RT_ALIGN_SIZE == 0;
      BoundsAround(b, i, j);
      BoundsAround(b, i, |b| - 1);
      BoundsAround(b, j, i);
    }

    /** The header walk: `next` leads from each block to the next one and `prev` back, and the walk
        from offset 0 visits the bounds in order and ends at the end header. */
    lemma Walk(k: nat)
      requires Valid() && k < |t.bounds|
      ensures t.bounds[0] == 0 && t.bounds[|t.bounds| - 1] == memSize + HEADER
      ensures k + 1 < |t.bounds| ==> t.bounds[k] in mem.next && mem.next[t.bounds[k]] == t.bounds[k + 1]
      ensures 0 < k < |t.bounds| - 1 ==> t.bounds[k] in mem.prev && mem.prev[t.bounds[k]] == t.bounds[k - 1]
    {
      if k + 1 < |t.bounds| { assert HeaderOk(mem, t, k); }
    }

    /** used_mem is what the used blocks occupy; with the free blocks it makes up the whole arena. */
    lemma BytesConserved()
      requires Valid()
      ensures usedMem == Total(t.bounds, t.used, true, 0)
      ensures usedMem + Total(t.bounds, t.used, false, 0) == memSize + HEADER
    {
      TotalConservation(t.bounds, t.used, 0);
    }

    /** A served request fits its block, except that rounding up a size within 8 of 2^32 wraps to zero. */
    lemma RequestIsServed(size: nat, t0: Tiling, from: nat, k: nat, offset: int)
      requires Valid() && 0 < size < U32 && Shaped(t0, memSize + HEADER)
      requires Allocated(t0, from, Request(size), memSize, k, offset, t)
      ensures IsBlock(t, k) && t.bounds[k] + HEADER == offset
      ensures offset + size <= t.bounds[k + 1] <==> size <= U32 - 8
      ensures t.bounds[k + 1] - offset < (if RtAlign(size) < 16 then 16 else RtAlign(size)) + 32
    {
      hide Linked, Coalesced, Aligned, Spaced, Total, IsFirstFit, SamePayload;
      RtAlignMeaning(size);
      FirstFitIsLarge(t0, from, Request(size), memSize, k);
      TakeFirst(t0, k, Cut(t0.bounds, k, Request(size)));
      BoundsAround(t.bounds, k, |t.bounds| - 1);
    }

    // --------------------------------------------------------- plug_holes

    /** The two halves of plug_holes, for the free block `i`. */
    method PlugForward(p: nat, ghost i: nat)
      requires Shape() && IsBlock(t, i) && t.bounds[i] == p && p !in t.used
      modifies this`mem, this`lfree, this`t
      ensures Shape() && t == MergeRight(old(t), i)
      ensures IsFloor(t.bounds, old(lfree), lfree)
      ensures SamePayload(old(mem.cells), mem.cells, t, HEADER)
    {
      hide IsFloor, SamePayload, Linked, Tiles, Spaced, Aligned;
      RightNeighbour(mem, t, memSize + HEADER, i);
      FloorOfMember(t.bounds, lfree);
      SamePayloadRefl(mem.cells, t, HEADER);
      hide FreeOrEnd;
      var n := mem.next[p];
      if p != n && !mem.flag[n] && n != memSize + HEADER {
        JoinStep(mem, t, memSize + HEADER, i + 1, lfree);
        if lfree == n {
          lfree := p;
        }
        mem := Unlink(mem, p, mem.next[n]);
        t := t.(bounds := DropBound(t.bounds, i + 1));
      }
    }

    method PlugBackward(p: nat, ghost i: nat)
      requires Shape() && IsBlock(t, i) && t.bounds[i] == p && p !in t.used
      modifies this`mem, this`lfree, this`t
      ensures Shape() && t == MergeLeft(old(t), i)
      ensures IsFloor(t.bounds, old(lfree), lfree)
      ensures SamePayload(old(mem.cells), mem.cells, t, HEADER)
    {
      hide IsFloor, SamePayload, Linked, Tiles, Spaced, Aligned;
      LeftNeighbour(mem, t, memSize + HEADER, i);
      FloorOfMember(t.bounds, lfree);
      SamePayloadRefl(mem.cells, t, HEADER);
      hide FreeOrEnd;
      var q := mem.prev[p];
      if q != p && !mem.flag[q] {
        JoinStep(mem, t, memSize + HEADER, i, lfree);
        if lfree == p {
          lfree := q;
        }
        mem := Unlink(mem, q, mem.next[p]);
        t := t.(bounds := DropBound(t.bounds, i));
      }
    }

    /** plug_holes: joins the free block `i` with its free neighbours; `lfree` follows the block it pointed at. */
    method PlugHoles(p: nat, ghost i: nat)
      requires Shape() && IsBlock(t, i) && t.bounds[i] == p && p !in t.used
      requires CoalescedBut(t, i)
      modifies this`mem, this`lfree, this`t
      ensures Shape() && Coalesced(t) && t == MergeLeft(MergeRight(old(t), i), i)
      ensures IsFloor(t.bounds, old(lfree), lfree)
      ensures SamePayload(old(mem.cells), mem.cells, t, HEADER)
    {
      hide IsFloor, SamePayload, Linked, FreeOrEnd, Spaced, Aligned, CoalescedBut, Coalesced;
      ghost var end := memSize + HEADER;
      MergeRightTiles(t, end, i);
      MergeLeftTiles(MergeRight(t, i), end, i) by {
        assert MergeRight(t, i).bounds[i] == MergeRight(t, i).bounds[..i + 1][i] == p;
      }
      PlugForward(p, i);
      ghost var c1, t1, l1 := mem.cells, t, lfree;
      PlugBackward(p, i);
      MergeLeftKeepsMembers(t1, i);
      FloorTrans(t1.bounds, t.bounds, old(lfree), l1, lfree);
      MergeLeftExtents(t1, i);
      SamePayloadByExtents(old(mem.cells), c1, t1, t, HEADER);
      SamePayloadTrans(old(mem.cells), c1, mem.cells, t, HEADER);
    }

    // ------------------------------------------------------------- malloc

    /** Lines 285-343 of mem.c: take the block at `p`, cutting off what is not needed. */
    method Carve(p: nat, size: nat, ghost i: nat)
      requires Valid() && Large(t, i, size) && t.bounds[i] == p && size % RT_ALIGN_SIZE == 0
      modifies this`mem, this`usedMem, this`maxMem, this`t
      ensures t == Take(old(t), i, Cut(old(t).bounds, i, size))
      ensures Carries(mem, t, memSize + HEADER) && Coalesced(t)
      ensures lfree != p ==> FreeOrEnd(t, memSize + HEADER, lfree)
      ensures usedMem == Total(t.bounds, t.used, true, 0)
      ensures SamePayload(old(mem.cells), mem.cells, old(t), HEADER)
      ensures usedMem <= maxMem == if usedMem > old(maxMem) then usedMem else old(maxMem)
    {
      hide Holds, SamePayload, Total, Carries, Coalesced, FreeOrEnd, Tiles, Take, SetUsed, Split;
      ghost var end, t0 := memSize + HEADER, t;
      TakeFacts(mem, t, end, lfree, i, size);
      ghost var cut := Cut(t.bounds, i, size);
      hide Cut;
      var room := mem.next[p] - (p + HEADER);
      if room >= size + HEADER + MIN_SIZE_ALIGNED {
        var p2 := p + HEADER + size;
        mem := Split(mem, p, p2, mem.next[p], memSize + HEADER);
        mem := SetUsed(mem, p, true);
        usedMem := usedMem + (size + HEADER);
      } else {
        usedMem := usedMem + (mem.next[p] - p);
        mem := SetUsed(mem, p, true);
      }
      t := Take(t0, i, cut);
      if maxMem < usedMem {
        maxMem := usedMem;
      }
    }

    /** The lines that move `lfree` off a block just taken. */
    method AdvanceLfree(ghost i: nat)
      requires Carries(mem, t, memSize + HEADER) && IsBlock(t, i) && lfree == t.bounds[i]
      modifies this`lfree
      ensures IsNextFree(t, memSize + HEADER, old(lfree), lfree) && FreeOrEnd(t, memSize + HEADER, lfree)
    {
      ghost var k := i;
      while mem.flag[lfree] && lfree != memSize + HEADER
        invariant k < |t.bounds| && lfree == t.bounds[k] && old(lfree) <= lfree
        invariant lfree in mem.flag
        invariant forall y :: y in t.bounds && old(lfree) <= y < lfree ==> y in t.used
        decreases |t.bounds| - k
      {
        FlagAt(mem, t, memSize + HEADER, k);
        lfree := mem.next[lfree];
        k := k + 1;
      }
      FlagAt(mem, t, memSize + HEADER, k);
    }

    /** While `lfree` is the lowest free block, allocation fails exactly when nothing fits. */
    lemma SearchIsComplete(size: nat)
      requires Valid() && IsLowest(t, memSize + HEADER, lfree)
      ensures (forall j: nat :: Fits(t, j, size, memSize) ==> t.bounds[j] < lfree)
          <==> !exists j: nat :: Fits(t, j, size, memSize)
    {
      assert forall j: nat :: Fits(t, j, size, memSize) ==> t.bounds[j] in t.bounds;
    }

    /** rt_malloc: the first fitting block at or above `lfree`, or NULL with nothing changed.  For other arenas the
        search does not end: TinyArenaSpins. */
    method Malloc(size: nat) returns (p: nat, ghost k: nat)
      requires Valid() && size < U32 && SearchStops(size, memSize)
      modifies this`mem, this`lfree, this`usedMem, this`maxMem, this`t
      ensures Valid()
      ensures size == 0 || RtAlign(size) > memSize ==> p == NULL
      ensures p == NULL ==>
        mem == old(mem) && t == old(t) && lfree == old(lfree) && usedMem == old(usedMem) && maxMem == old(maxMem)
      ensures p == NULL && size != 0 && RtAlign(size) <= memSize ==>
        forall j: nat :: Fits(t, j, Request(size), memSize) ==> t.bounds[j] < lfree
      ensures p != NULL ==>
        && Allocated(old(t), old(lfree), Request(size), memSize, k, p - heapPtr, t)
        && SamePayload(old(mem.cells), mem.cells, old(t), HEADER)
        && (if old(lfree) == old(t).bounds[k] then IsNextFree(t, memSize + HEADER, old(lfree), lfree)
          else lfree == old(lfree))
        && maxMem == PeakAfter(old(maxMem), t)
      ensures old(IsLowest(t, memSize + HEADER, lfree)) ==> IsLowest(t, memSize + HEADER, lfree)
    {
      hide Holds, SamePayload, Total, Carries, Coalesced, FreeOrEnd, Tiles, Take, Fits, Large, IsNextFree, IsLowest,
        Inside;
      k := 0;
      if size == 0 {
        return NULL, k;
      }
      var sz := RtAlign(size);
      if sz > memSize {
        return NULL, k;
      }
      if sz < MIN_SIZE_ALIGNED {
        sz := MIN_SIZE_ALIGNED;
      }
      assert sz == Request(size) && sz <= memSize && sz % RT_ALIGN_SIZE == 0;
      hide RtAlign, Request, SearchStops;
      var ptr := lfree;
      k := LfreeIndex(mem, t, memSize + HEADER, lfree);
      ghost var k0 := k;
      while ptr < memSize - sz
        invariant unchanged(this) && k0 <= k < |t.bounds| && ptr == t.bounds[k]
        invariant forall j: nat :: j < k && Fits(t, j, sz, memSize) ==> j < k0
        decreases |t.bounds| - k
      {
        SearchStep(mem, t, memSize + HEADER, lfree, k, sz, memSize);
        if !mem.flag[ptr] && mem.next[ptr] - (ptr + HEADER) >= sz {
          TakeFacts(mem, t, memSize + HEADER, lfree, k, sz);
          Carve(ptr, sz, k);
          if ptr == lfree {
            AdvanceLfree(k);
          }
          BackTogether(mem, t, memSize + HEADER, lfree);
          TakenInside(old(t), k, Cut(old(t).bounds, k, sz), memSize, sz);
          LowestAfterTake(old(t), memSize + HEADER, k, Cut(old(t).bounds, k, sz), old(lfree), lfree);
          return heapPtr + ptr + HEADER, k;
        }
        ptr := mem.next[ptr];
        k := k + 1;
      }
      SearchEnds(mem, t, memSize + HEADER, lfree, k, sz, memSize);
      return NULL, k;
    }

    // --------------------------------------------------------------- free

    /** rt_free: gives the block back and joins it with its free neighbours. */
    method Free(rmem: nat, ghost i: nat)
      requires Valid()
      requires rmem == NULL || Illegal(heapPtr, memSize, rmem) || Live(heapPtr, t, i, rmem)
      modifies this`mem, this`lfree, this`usedMem, this`t
      ensures Valid()
      ensures rmem == NULL || Illegal(heapPtr, memSize, rmem) ==>
        mem == old(mem) && t == old(t) && lfree == old(lfree) && usedMem == old(usedMem)
      ensures rmem != NULL && !Illegal(heapPtr, memSize, rmem) ==>
        && t == Release(old(t), i)
        && SamePayload(old(mem.cells), mem.cells, t, HEADER)
        && IsFloor(t.bounds, if old(t).bounds[i] < old(lfree) then old(t).bounds[i] else old(lfree), lfree)
        && (old(IsLowest(t, memSize + HEADER, lfree)) ==> IsLowest(t, memSize + HEADER, lfree))
    {
      hide Holds, SamePayload, Total, Coalesced, CoalescedBut, IsFloor, IsLowest, Inside, UsedExtents, MergeLeft,
        MergeRight;
      if rmem == NULL {
        return;
      }
      if rmem < heapPtr || rmem >= heapPtr + memSize + HEADER {
        return;
      }
      ghost var end, t0, l0 := memSize + HEADER, t, lfree;
      FreeFacts(mem, t, end, lfree, i, memSize);
      var p := rmem - HEADER - heapPtr;
      mem := SetUsed(mem, p, false);
      if p < lfree {
        lfree := p;
      }
      usedMem := usedMem - (mem.next[p] - p);
      t := Unmark(t0, i);
      hide SetUsed, Unmark;
      ghost var c1, t1, l1 := mem.cells, t, lfree;
      PlugHoles(p, i);
      SamePayloadByExtents(old(mem.cells), c1, t1, t, HEADER);
      SamePayloadTrans(old(mem.cells), c1, mem.cells, t, HEADER);
      LowestAfterFree(old(mem), mem, t0, t, end, i, l0, lfree);
    }

    // ------------------------------------------------------------ realloc

    /** Lines 438-450 of mem.c: cut the used block `i` at `p2` and give the rest back. */
    method CutBack(p: nat, p2: nat, ghost i: nat)
      requires Valid() && IsBlock(t, i) && t.bounds[i] == p && p in t.used && p2 % RT_ALIGN_SIZE == 0
      requires p + HEADER <= p2 && p2 + HEADER <= t.bounds[i + 1]
      modifies this`mem, this`lfree, this`usedMem, this`t
      ensures Valid() && t == Shrink(old(t), i, p2)
      ensures SamePayload(old(mem.cells), mem.cells, t, HEADER)
      ensures IsFloor(t.bounds, old(lfree), lfree)
    {
      hide Holds, SamePayload, Total, Coalesced, CoalescedBut, IsFloor, Inside, UsedExtents, MergeLeft, MergeRight,
        Shrink;
      ghost var end, t0 := memSize + HEADER, t;
      FreeFacts(mem, t, end, lfree, i, memSize);
      ShrinkSplits(mem, t, end, lfree, i, p2);
      ShrinkFacts(mem, t, end, lfree, i, p2, memSize);
      var n := mem.next[p];
      usedMem := usedMem - (n - p2);
      mem := Split(mem, p, p2, n, memSize + HEADER);
      t := t.(bounds := InsertBound(t.bounds, i, p2));
      hide Split, InsertBound;
      ghost var c1, t1 := mem.cells, t;
      PlugHoles(p2, i + 1);
      SamePayloadByExtents(old(mem.cells), c1, t1, t, HEADER);
      SamePayloadTrans(old(mem.cells), c1, mem.cells, t, HEADER);
    }

    /** Lines 459-466 of mem.c: allocate a new block, copy, free the old one. */
    method MoveBlock(rmem: nat, n: nat, size: nat, ghost i: nat) returns (r: nat, ghost k: nat)
      requires Valid() && n < U32 && RtAlign(n) == n && SearchStops(n, memSize) && n <= memSize
      requires Live(heapPtr, t, i, rmem) && !Illegal(heapPtr, memSize, rmem)
      requires size == t.bounds[i + 1] - t.bounds[i] - HEADER
      modifies this`mem, this`lfree, this`usedMem, this`maxMem, this`t
      ensures Valid()
      ensures r == NULL ==>
        mem == old(mem) && t == old(t) && lfree == old(lfree) && usedMem == old(usedMem) && maxMem == old(maxMem)
      ensures r == NULL && 0 < n ==>
        forall j: nat :: Fits(t, j, Request(n), memSize) ==> t.bounds[j] < lfree
      ensures r != NULL ==> n > 0 && r >= heapPtr && r != rmem
      ensures r != NULL ==> IsBlock(old(t), k) && old(t).bounds[k] + HEADER <= old(t).bounds[k + 1]
      ensures r != NULL ==>
        && Moved(old(t), old(lfree), Request(n), memSize, k, r - heapPtr, old(t).bounds[i], t)
        && maxMem == PeakAfter(old(maxMem), Take(old(t), k, Cut(old(t).bounds, k, Request(n))))
        && SamePayload(old(mem.cells), mem.cells, Unmark(old(t), i), HEADER)
        && SamePrefix(old(mem.cells), old(t).bounds[i] + HEADER, mem.cells, r - heapPtr, Least(size, n))
    {
      hide Holds, SamePayload, Total, Carries, Coalesced, FreeOrEnd, Tiles, Take, Fits, Large, IsNextFree, IsLowest,
           Inside, IsFloor, SamePrefix, Release, UsedExtents, Copy, Cut, ReleaseAt, IsFirstFit;
      r, k := Malloc(n);
      if r != NULL {
        ghost var end, t0 := memSize + HEADER, old(t);
        ghost var p := t0.bounds[i];
        var len := Least(size, n);
        TakenBlock(old(mem), t0, end, old(lfree), k, Request(n), memSize);
        ghost var cut := Cut(t0.bounds, k, Request(n));
        HoldsTiles(old(mem), t0, end, old(lfree));
        ghost var j := MoveTiling(t0, end, i, k, cut);
        MoveArena(old(mem), t0, end, old(lfree), i, k, cut, mem, lfree, len);
        mem := mem.(cells := Copy(mem.cells, r - heapPtr, rmem - heapPtr, len));
        ghost var c2 := mem.cells;
        Free(rmem, j);
        MovedSurvives(old(mem.cells), c2, mem.cells, t0, t, i, k, cut, p + HEADER, len, HEADER);
      }
    }

    /** Lines 416-467 of mem.c: a live block gets the size `n`. */
    method ReallocLive(rmem: nat, n: nat, ghost i: nat) returns (r: nat, ghost k: nat)
      requires Valid() && n < U32 && RtAlign(n) == n && n % RT_ALIGN_SIZE == 0 && n <= memSize
      requires Live(heapPtr, t, i, rmem) && !Illegal(heapPtr, memSize, rmem)
      modifies this`mem, this`lfree, this`usedMem, this`maxMem, this`t
      ensures Valid()
      ensures r == NULL ==>
        mem == old(mem) && t == old(t) && lfree == old(lfree) && usedMem == old(usedMem) && maxMem == old(maxMem)
      ensures r == NULL && 0 < n ==>
        forall j: nat :: Fits(t, j, Request(n), memSize) ==> t.bounds[j] < lfree
      ensures r != NULL ==>
        Reallocated(old(t), old(lfree), old(mem.cells), i, n, memSize, k, r - heapPtr, t, mem.cells)
      ensures Stays(old(t), i, n, r == rmem, t)
      ensures Recorded(old(t), i, n, k, r == rmem, r == NULL, t, old(lfree), lfree, old(usedMem), usedMem, old(maxMem),
                       maxMem)
    {
      hide Holds, SamePayload, Total, Carries, Coalesced, FreeOrEnd, Tiles, Take, Fits, Large, IsNextFree, IsLowest,
           Inside, IsFloor, SamePrefix, Shrink, Release, UsedExtents, Copy, Cut, ReleaseAt, IsFirstFit, PeakAfter,
           RtAlign, Request, SearchStops;
      k := 0;
      var ptr := rmem - HEADER - heapPtr;
      FreeFacts(mem, t, memSize + HEADER, lfree, i, memSize);
      BlockHasHeader(mem, t, memSize + HEADER, lfree, i);
      TinyBlock(mem, t, memSize, lfree, i, n);
      var size := mem.next[ptr] - ptr - HEADER;
      ghost var m0, l0 := mem, lfree;
      if size == n {
        r := rmem;
        NoSlack(m0, old(t), memSize + HEADER, l0, i, n, t);
      } else if n + HEADER + MIN_SIZE < size {
        CutBack(ptr, ptr + HEADER + n, i);
        r := rmem;
        NoSlack(m0, old(t), memSize + HEADER, l0, i, n, t);
      } else {
        r, k := MoveBlock(rmem, n, size, i);
      }
    }

    /** rt_realloc.  The sizes are compared after rounding up, so a request within one rounding
        step keeps the block; a smaller one is cut only when header and 12 bytes are left over;
        every other change of size moves the block. */
    method Realloc(rmem: nat, newsize: nat, ghost i: nat) returns (r: nat, ghost k: nat)
      requires Valid() && newsize < U32 && (rmem == NULL ==> SearchStops(RtAlign(newsize), memSize))
      requires rmem == NULL || Illegal(heapPtr, memSize, rmem) || Live(heapPtr, t, i, rmem)
      modifies this`mem, this`lfree, this`usedMem, this`maxMem, this`t
      ensures Valid()
      // refused, or nothing to do
      ensures RtAlign(newsize) > memSize ==> r == NULL
      ensures RtAlign(newsize) <= memSize && rmem != NULL && Illegal(heapPtr, memSize, rmem) ==> r == rmem
      ensures RtAlign(newsize) > memSize || (rmem != NULL && Illegal(heapPtr, memSize, rmem)) || r == NULL ==>
        mem == old(mem) && t == old(t) && lfree == old(lfree) && usedMem == old(usedMem) && maxMem == old(maxMem)
      // failure means that no block fits
      ensures r == NULL && 0 < RtAlign(newsize) <= memSize ==>
        forall j: nat :: Fits(t, j, Request(RtAlign(newsize)), memSize) ==> t.bounds[j] < lfree
      // a fresh block
      ensures rmem == NULL && r != NULL ==>
        && Allocated(old(t), old(lfree), Request(RtAlign(newsize)), memSize, k, r - heapPtr, t)
        && SamePayload(old(mem.cells), mem.cells, old(t), HEADER)
        && maxMem == PeakAfter(old(maxMem), t)
      // an old block
      ensures r != NULL && RtAlign(newsize) <= memSize && rmem != NULL && !Illegal(heapPtr, memSize, rmem) ==>
        && Reallocated(old(t), old(lfree), old(mem.cells), i, RtAlign(newsize), memSize, k, r - heapPtr, t, mem.cells)
        && (Serves(old(t), old(mem.cells), i, newsize, r - heapPtr - HEADER, t, mem.cells, HEADER) <==>
            newsize <= U32 - RT_ALIGN_SIZE)
      ensures RtAlign(newsize) <= memSize && rmem != NULL && !Illegal(heapPtr, memSize, rmem) ==>
        Stays(old(t), i, RtAlign(newsize), r == rmem, t)
      ensures RtAlign(newsize) <= memSize && rmem != NULL && !Illegal(heapPtr, memSize, rmem) ==>
        Recorded(old(t), i, RtAlign(newsize), k, r == rmem, r == NULL, t, old(lfree), lfree, old(usedMem), usedMem,
                 old(maxMem), maxMem)
    {
      hide Holds, SamePayload, Total, Carries, Coalesced, FreeOrEnd, Tiles, Take, Fits, Large, IsNextFree, IsLowest,
           Inside, IsFloor, SamePrefix, Shrink, Release, UsedExtents, Copy, Cut, ReleaseAt, IsFirstFit, Serves,
           PeakAfter, Reallocated, Stays, Recorded;
      k := 0;
      var n := RtAlign(newsize);
      RtAlignMeaning(newsize);
      RtAlignTwice(newsize);
      hide SearchStops;
      if n > memSize {
        return NULL, k;
      }
      if rmem == NULL {
        r, k := Malloc(n);
        return;
      }
      if rmem < heapPtr || rmem >= heapPtr + memSize + HEADER {
        return rmem, k;
      }
      r, k := ReallocLive(rmem, n, i);
      if r != NULL {
        ReallocServes(old(mem), old(t), memSize + HEADER, old(lfree), i, newsize, memSize, k, r - heapPtr, t,
                      mem.cells);
      }
    }
  }
}
