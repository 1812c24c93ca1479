/** Address-ordered block tilings.

    Both heap allocators (mem.c and memheap.c) cut one arena into blocks that
    start with a header and lie back to back.  This module is the theory they
    share: what a coalesced tiling is, what taking, releasing and shrinking a
    block does to it, and that a coalesced tiling is determined by its used
    extents alone. */
module Tilings {

  /** Block `i` occupies `[bounds[i], bounds[i+1])`; the last bound is the end
      header.  `used` holds the start offsets of the blocks in use. */
  datatype Tiling = Tiling(bounds: seq<nat>, used: set<nat>)

  ghost predicate Increasing(b: seq<nat>) {
    forall i, j :: 0 <= i < j < |b| ==> b[i] < b[j]
  }

  ghost predicate IsBlock(t: Tiling, i: nat) {
    i + 1 < |t.bounds|
  }

  /** The blocks lie back to back from 0 to `end`, and only blocks are used. */
  ghost predicate Tiles(t: Tiling, end: nat) {
    && |t.bounds| >= 2
    && t.bounds[0] == 0
    && t.bounds[|t.bounds| - 1] == end
    && Increasing(t.bounds)
    && (forall u :: u in t.used ==> u in t.bounds && u != end)
  }

  /** No two neighbouring blocks are both free. */
  ghost predicate Coalesced(t: Tiling) {
    forall i, j :: 0 <= i < |t.bounds| - 2 && j == i + 1 ==> t.bounds[i] in t.used || t.bounds[j] in t.used
  }

  /** Coalesced everywhere except, possibly, on either side of block `k`. */
  ghost predicate CoalescedBut(t: Tiling, k: nat) {
    forall i, j :: 0 <= i < |t.bounds| - 2 && j == i + 1 && i != k && j != k ==>
      t.bounds[i] in t.used || t.bounds[j] in t.used
  }

  /** Every block is at least `h` long, so its header lies inside it. */
  ghost predicate Spaced(t: Tiling, h: nat) {
    forall i, j :: 0 <= i < j < |t.bounds| ==> t.bounds[i] + h <= t.bounds[j]
  }

  ghost function UsedExtents(t: Tiling): set<(nat, nat)> {
    set i | 0 <= i < |t.bounds| - 1 && t.bounds[i] in t.used :: (t.bounds[i], t.bounds[i + 1])
  }

  // ---------------------------------------------------------------- edits

  function InsertBound(b: seq<nat>, i: nat, c: nat): seq<nat>
    requires i < |b|
  {
    b[..i + 1] + [c] + b[i + 1..]
  }

  function DropBound(b: seq<nat>, k: nat): seq<nat>
    requires k < |b|
  {
    b[..k] + b[k + 1..]
  }

  /** Take block `i` and keep only its part below `cut`; the rest becomes a
      free block of its own, unless `cut` is the end of the block. */
  function Take(t: Tiling, i: nat, cut: nat): Tiling
    requires i + 1 < |t.bounds|
  {
    Tiling(if cut == t.bounds[i + 1] then t.bounds else InsertBound(t.bounds, i, cut),
           t.used + {t.bounds[i]})
  }

  /** Join block `i` with the next block when that one is free. */
  function MergeRight(t: Tiling, i: nat): Tiling
    requires i + 1 < |t.bounds|
  {
    if i + 2 < |t.bounds| && t.bounds[i + 1] !in t.used then t.(bounds := DropBound(t.bounds, i + 1)) else t
  }

  /** Join block `i` with the previous block when that one is free. */
  function MergeLeft(t: Tiling, i: nat): Tiling
    requires i + 1 < |t.bounds|
  {
    if i > 0 && t.bounds[i - 1] !in t.used then t.(bounds := DropBound(t.bounds, i)) else t
  }

  function Unmark(t: Tiling, i: nat): Tiling
    requires i < |t.bounds|
  {
    t.(used := t.used - {t.bounds[i]})
  }

  /** Give block `i` back and join it with its free neighbours. */
  function Release(t: Tiling, i: nat): Tiling
    requires i + 1 < |t.bounds|
  {
    MergeLeft(MergeRight(Unmark(t, i), i), i)
  }

  /** Cut the used block `i` at `cut`; the tail becomes free and joins a free right neighbour. */
  function Shrink(t: Tiling, i: nat, cut: nat): Tiling
    requires i + 1 < |t.bounds|
  {
    MergeRight(t.(bounds := InsertBound(t.bounds, i, cut)), i + 1)
  }

  /** Move the boundary between the used block `i` and the free block after it to `cut`. */
  function Grow(t: Tiling, i: nat, cut: nat): Tiling
    requires i + 1 < |t.bounds|
  {
    t.(bounds := t.bounds[i + 1 := cut])
  }

  // ------------------------------------------------- tilings stay tilings

  ghost function IndexIn(b: seq<nat>, x: nat): (i: nat)
    requires x in b
    ensures i < |b| && b[i] == x
  {
    var i: nat :| i < |b| && b[i] == x;
    i
  }

  lemma IncreasingIsInjective(b: seq<nat>, i: nat, j: nat)
    requires Increasing(b) && i < |b| && j < |b| && b[i] == b[j]
    ensures i == j
  {
  }

  /** Nothing lies strictly inside a block. */
  lemma NoBoundInside(b: seq<nat>, i: nat, x: nat)
    requires Increasing(b) && i + 1 < |b| && x in b
    ensures x <= b[i] || b[i + 1] <= x
  {
    var k := IndexIn(b, x);
    assert k <= i ==> k == i || b[k] < b[i];
    assert k > i ==> k == i + 1 || b[i + 1] < b[k];
  }

  lemma InsertTiles(t: Tiling, end: nat, i: nat, c: nat)
    requires Tiles(t, end) && IsBlock(t, i) && t.bounds[i] < c < t.bounds[i + 1]
    ensures Tiles(t.(bounds := InsertBound(t.bounds, i, c)), end) && c !in t.used
  {
    var b := t.bounds;
    var r := InsertBound(b, i, c);
    assert Increasing(r);
    if c in b { NoBoundInside(b, i, c); }
    forall u | u in b ensures u in r {
      var k := IndexIn(b, u);
      assert r[if k <= i then k else k + 1] == u;
    }
  }

  lemma DropTiles(t: Tiling, end: nat, k: nat)
    requires Tiles(t, end) && 0 < k < |t.bounds| - 1 && t.bounds[k] !in t.used
    ensures Tiles(t.(bounds := DropBound(t.bounds, k)), end)
  {
    var b := t.bounds;
    var r := DropBound(b, k);
    assert Increasing(r);
    forall u | u in t.used ensures u in r {
      var j := IndexIn(b, u);
      assert r[if j < k then j else j - 1] == u;
    }
  }

  lemma MarkTiles(t: Tiling, end: nat, i: nat)
    requires Tiles(t, end) && IsBlock(t, i)
    ensures Tiles(t.(used := t.used + {t.bounds[i]}), end)
  {
  }

  lemma SplitCoalesced(t: Tiling, i: nat, cut: nat)
    requires Coalesced(t) && IsBlock(t, i) && t.bounds[i] !in t.used
    ensures var r := Tiling(InsertBound(t.bounds, i, cut), t.used + {t.bounds[i]}); Coalesced(r)
  {
    var b := t.bounds;
    var r := Tiling(InsertBound(b, i, cut), t.used + {b[i]});
    forall k | 0 <= k < |r.bounds| - 2 ensures r.bounds[k] in r.used || r.bounds[k + 1] in r.used {
      if k <= i {
        assert k < i ==> b[k] in t.used || b[k + 1] in t.used;
      } else {
        assert b[k - 1] in t.used || b[k] in t.used;
        assert r.bounds[k + 1] == b[k];
      }
    }
  }

  lemma TakeTiles(t: Tiling, end: nat, i: nat, cut: nat)
    requires Tiles(t, end) && Coalesced(t) && IsBlock(t, i)
    requires t.bounds[i] !in t.used && t.bounds[i] < cut <= t.bounds[i + 1]
    ensures Tiles(Take(t, i, cut), end) && Coalesced(Take(t, i, cut))
    ensures cut == t.bounds[i + 1] || cut !in t.used
  {
    if cut == t.bounds[i + 1] {
      MarkTiles(t, end, i);
    } else {
      InsertTiles(t, end, i, cut);
      MarkTiles(t.(bounds := InsertBound(t.bounds, i, cut)), end, i);
      SplitCoalesced(t, i, cut);
    }
  }

  lemma MergeRightTiles(t: Tiling, end: nat, i: nat)
    requires Tiles(t, end) && IsBlock(t, i) && t.bounds[i] !in t.used
    requires CoalescedBut(t, i)
    ensures var r := MergeRight(t, i);
      && Tiles(r, end)
      && i + 1 < |r.bounds| && r.bounds[..i + 1] == t.bounds[..i + 1]
      && (forall k :: i <= k < |r.bounds| - 2 ==> r.bounds[k] in r.used || r.bounds[k + 1] in r.used)
      && CoalescedBut(r, i)
  {
    var b := t.bounds;
    var r := MergeRight(t, i);
    if i + 2 < |b| && b[i + 1] !in t.used {
      DropTiles(t, end, i + 1);
      forall k | 0 <= k < |r.bounds| - 2 && k + 1 != i ensures r.bounds[k] in r.used || r.bounds[k + 1] in r.used {
        assert k < i ==> b[k] in t.used || b[k + 1] in t.used;
        assert k >= i ==> b[k + 1] in t.used || b[k + 2] in t.used;
      }
    } else {
      forall k | i <= k < |r.bounds| - 2 ensures r.bounds[k] in r.used || r.bounds[k + 1] in r.used {
        assert k == i || k != i;
      }
    }
  }

  lemma MergeLeftTiles(t: Tiling, end: nat, i: nat)
    requires Tiles(t, end) && IsBlock(t, i) && t.bounds[i] !in t.used
    requires CoalescedBut(t, i)
    requires forall k :: i <= k < |t.bounds| - 2 ==> t.bounds[k] in t.used || t.bounds[k + 1] in t.used
    ensures Tiles(MergeLeft(t, i), end) && Coalesced(MergeLeft(t, i))
  {
    var b := t.bounds;
    var r := MergeLeft(t, i);
    if i > 0 && b[i - 1] !in t.used {
      DropTiles(t, end, i);
      forall k | 0 <= k < |r.bounds| - 2 ensures r.bounds[k] in r.used || r.bounds[k + 1] in r.used {
        assert k + 1 < i ==> b[k] in t.used || b[k + 1] in t.used;
        assert k + 1 >= i ==> b[k + 1] in t.used || b[k + 2] in t.used;
      }
    } else {
      forall k | 0 <= k < |r.bounds| - 2 ensures r.bounds[k] in r.used || r.bounds[k + 1] in r.used {
        assert k + 1 == i || k >= i || (k != i && k + 1 != i);
      }
    }
  }

  lemma UnmarkTiles(t: Tiling, end: nat, i: nat)
    requires Tiles(t, end) && Coalesced(t) && IsBlock(t, i)
    ensures Tiles(Unmark(t, i), end) && CoalescedBut(Unmark(t, i), i)
  {
    var b, r := t.bounds, Unmark(t, i);
    forall k | 0 <= k < |b| && k != i ensures b[k] != b[i] {
      assert k < i ==> b[k] < b[i];
      assert i < k ==> b[i] < b[k];
    }
    forall k | 0 <= k < |b| - 2 && k != i && k + 1 != i ensures b[k] in r.used || b[k + 1] in r.used {
      assert b[k] in t.used || b[k + 1] in t.used;
    }
  }

  lemma ReleaseTiles(t: Tiling, end: nat, i: nat)
    requires Tiles(t, end) && Coalesced(t) && IsBlock(t, i)
    ensures Tiles(Release(t, i), end) && Coalesced(Release(t, i)) && Release(t, i).used == t.used - {t.bounds[i]}
  {
    UnmarkTiles(t, end, i);
    MergeRightTiles(Unmark(t, i), end, i);
    MergeLeftTiles(MergeRight(Unmark(t, i), i), end, i);
  }

  lemma ShrinkTiles(t: Tiling, end: nat, i: nat, cut: nat)
    requires Tiles(t, end) && Coalesced(t) && IsBlock(t, i)
    requires t.bounds[i] in t.used && t.bounds[i] < cut < t.bounds[i + 1]
    ensures var m := t.(bounds := InsertBound(t.bounds, i, cut));
      Tiles(m, end) && CoalescedBut(m, i + 1) && cut !in t.used
    ensures Tiles(Shrink(t, i, cut), end) && Coalesced(Shrink(t, i, cut))
  {
    var b := t.bounds;
    var m := t.(bounds := InsertBound(b, i, cut));
    InsertTiles(t, end, i, cut);
    forall k | 0 <= k < |m.bounds| - 2 && k != i + 1 && k + 1 != i + 1
      ensures m.bounds[k] in m.used || m.bounds[k + 1] in m.used
    {
      assert k < i ==> b[k] in t.used || b[k + 1] in t.used;
      assert k > i + 1 ==> b[k - 1] in t.used || b[k] in t.used;
    }
    MergeRightTiles(m, end, i + 1);
    var r := MergeRight(m, i + 1);
    MergeLeftTiles(r, end, i + 1) by {
      assert r.bounds[i + 1] == r.bounds[..i + 2][i + 1] == cut;
    }
    assert r.bounds[i] == r.bounds[..i + 2][i] == b[i];
  }

  lemma GrowTiles(t: Tiling, end: nat, i: nat, cut: nat)
    requires Tiles(t, end) && Coalesced(t) && IsBlock(t, i + 1)
    requires t.bounds[i] in t.used && t.bounds[i + 1] !in t.used
    requires t.bounds[i] < cut < t.bounds[i + 2]
    ensures Tiles(Grow(t, i, cut), end) && Coalesced(Grow(t, i, cut))
    ensures cut !in t.used
  {
    var b := t.bounds;
    var r := Grow(t, i, cut);
    forall u | u in t.used ensures u in r.bounds && u != cut {
      var k := IndexIn(b, u);
      assert k != i + 1 && r.bounds[k] == u;
      assert k <= i || k >= i + 2;
    }
    assert Increasing(r.bounds);
    forall k | 0 <= k < |r.bounds| - 2 ensures r.bounds[k] in r.used || r.bounds[k + 1] in r.used {
      assert b[k] in t.used || b[k + 1] in t.used;
    }
  }

  // ------------------------------------------------ what is used, exactly

  lemma ExtentIndex(t: Tiling, end: nat, i: nat)
    requires Tiles(t, end) && IsBlock(t, i)
    ensures forall e :: (t.bounds[i], e) in UsedExtents(t) <==> t.bounds[i] in t.used && e == t.bounds[i + 1]
  {
    forall e | (t.bounds[i], e) in UsedExtents(t) ensures t.bounds[i] in t.used && e == t.bounds[i + 1] {
      var k :| 0 <= k < |t.bounds| - 1 && t.bounds[k] in t.used && (t.bounds[k], t.bounds[k + 1]) == (t.bounds[i], e);
      IncreasingIsInjective(t.bounds, k, i);
    }
  }

  /** Dropping the boundary before a free block that follows a free block changes no used extent. */
  lemma DropExtents(t: Tiling, k: nat)
    requires 0 < k < |t.bounds| - 1
    requires t.bounds[k] !in t.used && t.bounds[k - 1] !in t.used
    ensures UsedExtents(t.(bounds := DropBound(t.bounds, k))) == UsedExtents(t)
  {
    var b := t.bounds;
    var r := t.(bounds := DropBound(b, k));
    forall x | x in UsedExtents(r) ensures x in UsedExtents(t) {
      var j :| 0 <= j < |r.bounds| - 1 && r.bounds[j] in r.used && x == (r.bounds[j], r.bounds[j + 1]);
      assert j != k - 1;
      var m := if j < k then j else j + 1;
      assert x == (b[m], b[m + 1]);
    }
    forall x | x in UsedExtents(t) ensures x in UsedExtents(r) {
      var j :| 0 <= j < |b| - 1 && b[j] in t.used && x == (b[j], b[j + 1]);
      var m := if j < k then j else j - 1;
      assert x == (r.bounds[m], r.bounds[m + 1]);
    }
  }

  lemma UnmarkExtents(t: Tiling, i: nat)
    requires Increasing(t.bounds) && IsBlock(t, i)
    ensures UsedExtents(Unmark(t, i)) == UsedExtents(t) - {(t.bounds[i], t.bounds[i + 1])}
  {
    var b, u := t.bounds, Unmark(t, i);
    forall x | x in UsedExtents(t) && x != (b[i], b[i + 1]) ensures x in UsedExtents(u) {
      var k :| 0 <= k < |b| - 1 && b[k] in t.used && x == (b[k], b[k + 1]);
      assert k != i;
      assert k < i ==> b[k] < b[i];
      assert i < k ==> b[i] < b[k];
      assert b[k] in u.used;
      assert u.bounds[k] in u.used;
    }
  }

  lemma MarkExtents(t: Tiling, i: nat)
    requires Increasing(t.bounds) && IsBlock(t, i) && t.bounds[i] !in t.used
    ensures UsedExtents(t.(used := t.used + {t.bounds[i]})) == UsedExtents(t) + {(t.bounds[i], t.bounds[i + 1])}
  {
    var r := t.(used := t.used + {t.bounds[i]});
    UnmarkExtents(r, i);
    assert Unmark(r, i) == t;
    assert (r.bounds[i], r.bounds[i + 1]) in UsedExtents(r);
  }

  /** Taking a free block adds exactly the extent up to the cut. */
  lemma TakeExtents(t: Tiling, end: nat, i: nat, cut: nat)
    requires Tiles(t, end) && IsBlock(t, i)
    requires t.bounds[i] !in t.used && t.bounds[i] < cut <= t.bounds[i + 1]
    ensures UsedExtents(Take(t, i, cut)) == UsedExtents(t) + {(t.bounds[i], cut)}
  {
    hide UsedExtents;
    if cut == t.bounds[i + 1] {
      MarkExtents(t, i);
    } else {
      var m := t.(bounds := InsertBound(t.bounds, i, cut));
      InsertTiles(t, end, i, cut);
      DropInserted(t.bounds, i, cut);
      hide Increasing, InsertBound;
      DropExtents(m, i + 1);
      MarkExtents(m, i);
    }
  }

  lemma DropInserted(b: seq<nat>, i: nat, c: nat)
    requires i + 1 < |b|
    ensures var r := InsertBound(b, i, c);
      |r| == |b| + 1 && r[i] == b[i] && r[i + 1] == c && r[i + 2] == b[i + 1] && DropBound(r, i + 1) == b
  {
  }

  /** Releasing a block frees exactly its own extent. */
  lemma ReleaseExtents(t: Tiling, end: nat, i: nat)
    requires Tiles(t, end) && Coalesced(t) && IsBlock(t, i)
    ensures UsedExtents(Release(t, i)) == UsedExtents(t) - {(t.bounds[i], t.bounds[i + 1])}
  {
    UnmarkTiles(t, end, i);
    UnmarkExtents(t, i);
    var u := Unmark(t, i);
    MergeRightTiles(u, end, i);
    if i + 2 < |u.bounds| && u.bounds[i + 1] !in u.used { DropExtents(u, i + 1); }
    var m := MergeRight(u, i);
    assert m.bounds[i] == m.bounds[..i + 1][i] == u.bounds[i];
    if i > 0 && m.bounds[i - 1] !in m.used { DropExtents(m, i); }
  }

  /** Cutting a used block at `c` replaces its extent by the part below the cut. */
  lemma CutExtents(t: Tiling, end: nat, i: nat, c: nat)
    requires Tiles(t, end) && IsBlock(t, i) && t.bounds[i] in t.used && t.bounds[i] < c < t.bounds[i + 1]
      && c !in t.used
    ensures UsedExtents(t.(bounds := InsertBound(t.bounds, i, c)))
         == UsedExtents(t) - {(t.bounds[i], t.bounds[i + 1])} + {(t.bounds[i], c)}
  {
    // free block i first, cut it, and take the lower part back
    var b, u := t.bounds, Unmark(t, i);
    var m := u.(bounds := InsertBound(b, i, c));
    InsertIncreasing(b, i, c);
    UnmarkExtents(t, i);
    assert t.used == u.used + {b[i]};
    assert m.bounds[i] == b[i] && m.bounds[i + 1] == c;
    hide Increasing, Tiles, UsedExtents;
    assert DropBound(m.bounds, i + 1) == b;
    DropExtents(m, i + 1);
    MarkExtents(m, i);
  }

  lemma InsertIncreasing(b: seq<nat>, i: nat, c: nat)
    requires Increasing(b) && i + 1 < |b| && b[i] < c < b[i + 1]
    ensures Increasing(InsertBound(b, i, c))
  {
  }

  lemma ShrinkExtents(t: Tiling, end: nat, i: nat, cut: nat)
    requires Tiles(t, end) && Coalesced(t) && IsBlock(t, i)
    requires t.bounds[i] in t.used && t.bounds[i] < cut < t.bounds[i + 1]
    ensures UsedExtents(Shrink(t, i, cut)) == UsedExtents(t) - {(t.bounds[i], t.bounds[i + 1])} + {(t.bounds[i], cut)}
  {
    ShrinkTiles(t, end, i, cut);
    CutExtents(t, end, i, cut);
    var m := t.(bounds := InsertBound(t.bounds, i, cut));
    if i + 3 < |m.bounds| && m.bounds[i + 2] !in m.used { DropExtents(m, i + 2); }
  }

  lemma ReplaceBound(b: seq<nat>, i: nat, cut: nat)
    requires i + 2 < |b|
    ensures var w := DropBound(b, i + 1);
      && w[i] == b[i] && w[i + 1] == b[i + 2]
      && InsertBound(w, i, b[i + 1]) == b && InsertBound(w, i, cut) == b[i + 1 := cut]
  {
  }

  lemma GrowExtents(t: Tiling, end: nat, i: nat, cut: nat)
    requires Tiles(t, end) && Coalesced(t) && IsBlock(t, i + 1)
    requires t.bounds[i] in t.used && t.bounds[i + 1] !in t.used && t.bounds[i] < cut < t.bounds[i + 2]
    ensures UsedExtents(Grow(t, i, cut)) == UsedExtents(t) - {(t.bounds[i], t.bounds[i + 1])} + {(t.bounds[i], cut)}
  {
    // both tilings cut the same block, which reaches to t.bounds[i + 2] and is used
    GrowIsTwoCuts(t, end, i, cut);
    var b := t.bounds;
    var w := t.(bounds := DropBound(b, i + 1));
    hide Tiles, Coalesced, Grow, DropBound, InsertBound;
    CutExtents(w, end, i, b[i + 1]);
    CutExtents(w, end, i, cut);
    ExtentIndex(w, end, i);
    hide UsedExtents;
    assert (b[i], b[i + 1]) !in UsedExtents(w);
  }

  lemma GrowIsTwoCuts(t: Tiling, end: nat, i: nat, cut: nat)
    requires Tiles(t, end) && Coalesced(t) && IsBlock(t, i + 1)
    requires t.bounds[i] in t.used && t.bounds[i + 1] !in t.used && t.bounds[i] < cut < t.bounds[i + 2]
    ensures var w := t.(bounds := DropBound(t.bounds, i + 1));
      && Tiles(w, end) && IsBlock(w, i) && w.bounds[i] == t.bounds[i] && w.bounds[i + 1] == t.bounds[i + 2]
      && t.bounds[i] < t.bounds[i + 1] < t.bounds[i + 2] && cut !in t.used
      && t == w.(bounds := InsertBound(w.bounds, i, t.bounds[i + 1]))
      && Grow(t, i, cut) == w.(bounds := InsertBound(w.bounds, i, cut))
  {
    GrowTiles(t, end, i, cut);
    DropTiles(t, end, i + 1);
    ReplaceBound(t.bounds, i, cut);
    BoundsAround(t.bounds, i, i + 2);
    BoundsAround(t.bounds, i + 1, i);
    hide Tiles, Coalesced;
  }

  // ------------------------------------------------- bounds one by one

  /** How the bounds around `i` compare with bound `k`. */
  lemma BoundsAround(b: seq<nat>, i: nat, k: nat)
    requires Increasing(b) && i + 1 < |b| && k < |b|
    ensures k < i ==> b[k] < b[i] < b[i + 1]
    ensures k > i + 1 ==> b[i] < b[i + 1] < b[k]
  {
  }

  /** A bound occurs once. */
  lemma Distinct(b: seq<nat>, i: nat)
    requires Increasing(b) && i < |b|
    ensures forall j :: 0 <= j < |b| && j != i ==> b[j] != b[i]
  {
    forall j | 0 <= j < |b| && j != i ensures b[j] != b[i] {
      assert j < i ==> b[j] < b[i];
      assert i < j ==> b[i] < b[j];
    }
  }

  lemma MergeLeftKeepsMembers(t: Tiling, i: nat)
    requires IsBlock(t, i)
    ensures MergeLeft(t, i).used == t.used && forall x :: x in MergeLeft(t, i).bounds ==> x in t.bounds
  {
  }

  lemma MergeRightKeepsMembers(t: Tiling, i: nat)
    requires IsBlock(t, i)
    ensures MergeRight(t, i).used == t.used && forall x :: x in MergeRight(t, i).bounds ==> x in t.bounds
  {
  }

  lemma MergeLeftExtents(t: Tiling, i: nat)
    requires IsBlock(t, i) && t.bounds[i] !in t.used
    ensures UsedExtents(MergeLeft(t, i)) == UsedExtents(t)
  {
    if i > 0 && t.bounds[i - 1] !in t.used { DropExtents(t, i); }
  }

  lemma CutFreeExtents(t: Tiling, i: nat, c: nat)
    requires IsBlock(t, i) && t.bounds[i] !in t.used && c !in t.used
    ensures UsedExtents(t.(bounds := InsertBound(t.bounds, i, c))) == UsedExtents(t)
  {
    var m := t.(bounds := InsertBound(t.bounds, i, c));
    DropExtents(m, i + 1);
    assert DropBound(m.bounds, i + 1) == t.bounds;
  }

  lemma TakeFirst(t: Tiling, i: nat, cut: nat)
    requires IsBlock(t, i)
    ensures var r := Take(t, i, cut);
      && IsBlock(r, i) && r.bounds[i] == t.bounds[i] && r.bounds[i + 1] == cut
      && (forall x :: x in t.bounds ==> x in r.bounds)
      && r.used == t.used + {t.bounds[i]}
  {
    var r := Take(t, i, cut);
    forall x | x in t.bounds ensures x in r.bounds {
      var k := IndexIn(t.bounds, x);
      assert cut == t.bounds[i + 1] || r.bounds[if k <= i then k else k + 1] == x;
    }
  }

  lemma ReleaseMembers(t: Tiling, end: nat, i: nat)
    requires Tiles(t, end) && Coalesced(t) && IsBlock(t, i)
    ensures forall z :: z in Release(t, i).bounds ==> z in t.bounds
    ensures Release(t, i).used == t.used - {t.bounds[i]}
  {
    hide Increasing, Coalesced, CoalescedBut, MergeRight, MergeLeft;
    MergeRightAt(Unmark(t, i), i);
    MergeRightKeepsMembers(Unmark(t, i), i);
    MergeLeftKeepsMembers(MergeRight(Unmark(t, i), i), i);
  }

  lemma InsertMembers(b: seq<nat>, i: nat, c: nat)
    requires i + 1 < |b|
    ensures forall x :: x in InsertBound(b, i, c) <==> x in b || x == c
  {
    forall x | x in b ensures x in InsertBound(b, i, c) {
      var k := IndexIn(b, x);
      assert InsertBound(b, i, c)[if k <= i then k else k + 1] == x;
    }
  }

  lemma DropMembers(b: seq<nat>, k: nat)
    requires Increasing(b) && k < |b|
    ensures forall z :: z in DropBound(b, k) <==> z in b && z != b[k]
  {
    Distinct(b, k);
    forall z | z in b && z != b[k] ensures z in DropBound(b, k) {
      var j := IndexIn(b, z);
      assert DropBound(b, k)[if j < k then j else j - 1] == z;
    }
    forall z | z in DropBound(b, k) ensures z in b && z != b[k] {
      var j := IndexIn(DropBound(b, k), z);
      assert z == b[if j < k then j else j + 1];
    }
  }

  /** The bounds after a shrink: the cut is added, and a free right neighbour loses its own. */
  lemma ShrinkMembers(t: Tiling, end: nat, i: nat, c: nat)
    requires Tiles(t, end) && Coalesced(t) && IsBlock(t, i)
    requires t.bounds[i] in t.used && t.bounds[i] < c < t.bounds[i + 1]
    ensures var joins := i + 2 < |t.bounds| && t.bounds[i + 1] !in t.used;
      forall z :: z in Shrink(t, i, c).bounds <==> z == c || (z in t.bounds && !(joins && z == t.bounds[i + 1]))
    ensures c !in t.used && c !in t.bounds && Shrink(t, i, c).used == t.used
    ensures end in t.bounds && t.bounds[i + 1] in t.bounds && (i + 2 == |t.bounds| <==> t.bounds[i + 1] == end)
  {
    var b := t.bounds;
    InsertMembers(b, i, c);
    NothingAt(t, end, i, c);
    EndBound(t, end, i);
    hide Tiles, Coalesced, Increasing;
    if i + 2 < |b| && b[i + 1] !in t.used {
      InsertIncreasing(b, i, c);
      DropMembers(InsertBound(b, i, c), i + 2);
    }
  }

  lemma NothingAt(t: Tiling, end: nat, i: nat, c: nat)
    requires Tiles(t, end) && IsBlock(t, i) && t.bounds[i] < c < t.bounds[i + 1]
    ensures c !in t.bounds && c !in t.used
  {
    if c in t.bounds { NoBoundInside(t.bounds, i, c); }
  }

  lemma EndBound(t: Tiling, end: nat, i: nat)
    requires Tiles(t, end) && IsBlock(t, i)
    ensures end in t.bounds && t.bounds[i + 1] in t.bounds && (i + 2 == |t.bounds| <==> t.bounds[i + 1] == end)
  {
    if i + 2 < |t.bounds| { BoundsAround(t.bounds, i + 1, |t.bounds| - 1); }
  }

  lemma BoundIsBlock(t: Tiling, end: nat, j: nat)
    requires Tiles(t, end) && j < |t.bounds| && t.bounds[j] in t.used
    ensures IsBlock(t, j)
  {
  }

  // ------------------------------------------------------- canonical form

  /** The first `n` bounds of two coalesced tilings with the same used extents agree. */
  lemma {:induction false} CanonicalPrefix(s: Tiling, t: Tiling, end: nat, n: nat)
    requires Tiles(s, end) && Coalesced(s) && Tiles(t, end) && Coalesced(t)
    requires UsedExtents(s) == UsedExtents(t)
    requires 1 <= n <= |s.bounds|
    ensures n <= |t.bounds| && s.bounds[..n] == t.bounds[..n]
  {
    if n > 1 {
      CanonicalPrefix(s, t, end, n - 1);
      var k := n - 2;
      assert s.bounds[k] == s.bounds[..n - 1][k] == t.bounds[..n - 1][k] == t.bounds[k];
      assert s.bounds[k] < s.bounds[|s.bounds| - 1] == end;
      assert k + 1 < |t.bounds|;
      ExtentIndex(s, end, k);
      ExtentIndex(t, end, k);
      if s.bounds[k] in s.used {
        assert (t.bounds[k], s.bounds[k + 1]) in UsedExtents(t);
      } else {
        assert s.bounds[k] !in t.used by {
          assert (s.bounds[k], t.bounds[k + 1]) !in UsedExtents(s);
        }
        NextAfterFree(s, t, end, k);
        NextAfterFree(t, s, end, k);
      }
      assert s.bounds[..n] == s.bounds[..n - 1] + [s.bounds[n - 1]];
      assert t.bounds[..n] == t.bounds[..n - 1] + [t.bounds[n - 1]];
    }
  }

  /** After a free block both tilings continue with the same bound; this is one half. */
  lemma NextAfterFree(s: Tiling, t: Tiling, end: nat, k: nat)
    requires Tiles(s, end) && Coalesced(s) && Tiles(t, end)
    requires UsedExtents(s) == UsedExtents(t)
    requires IsBlock(s, k) && IsBlock(t, k) && s.bounds[k] == t.bounds[k] && s.bounds[k] !in s.used
    ensures t.bounds[k + 1] <= s.bounds[k + 1]
  {
    var x := s.bounds[k + 1];
    if k + 2 < |s.bounds| {
      assert x in s.used;
      assert (x, s.bounds[k + 2]) in UsedExtents(s);
      assert (x, s.bounds[k + 2]) in UsedExtents(t);
      var j :| 0 <= j < |t.bounds| - 1 && t.bounds[j] in t.used
        && (t.bounds[j], t.bounds[j + 1]) == (x, s.bounds[k + 2]);
      assert s.bounds[k] < x;
      assert t.bounds[k] < t.bounds[j];
      assert j > k;
      assert j == k + 1 || t.bounds[k + 1] < t.bounds[j];
    } else {
      assert x == end;
      assert t.bounds[k + 1] <= t.bounds[|t.bounds| - 1];
    }
  }

  lemma UsedIsExtentStarts(t: Tiling, end: nat)
    requires Tiles(t, end)
    ensures t.used == set x | x in UsedExtents(t) :: x.0
  {
    forall u | u in t.used ensures exists x :: x in UsedExtents(t) && x.0 == u {
      var k :| 0 <= k < |t.bounds| && t.bounds[k] == u;
      assert (t.bounds[k], t.bounds[k + 1]) in UsedExtents(t);
    }
  }

  /** A coalesced tiling is determined by its used extents: however the heap got
      there, the same live blocks mean the same block list. */
  lemma CoalescedIsCanonical(s: Tiling, t: Tiling, end: nat)
    requires Tiles(s, end) && Coalesced(s) && Tiles(t, end) && Coalesced(t)
    requires UsedExtents(s) == UsedExtents(t)
    ensures s == t
  {
    CanonicalPrefix(s, t, end, |s.bounds|);
    CanonicalPrefix(t, s, end, |t.bounds|);
    assert s.bounds == s.bounds[..|s.bounds|] && t.bounds == t.bounds[..|t.bounds|];
    UsedIsExtentStarts(s, end);
    UsedIsExtentStarts(t, end);
  }

  /** Releasing the block just taken restores the very same tiling, split or not. */
  lemma TakeThenRelease(t: Tiling, end: nat, i: nat, cut: nat)
    requires Tiles(t, end) && Coalesced(t) && IsBlock(t, i)
    requires t.bounds[i] !in t.used && t.bounds[i] < cut <= t.bounds[i + 1]
    ensures Release(Take(t, i, cut), i) == t
  {
    var r := Take(t, i, cut);
    TakeTiles(t, end, i, cut);
    TakeExtents(t, end, i, cut);
    ReleaseTiles(r, end, i);
    ReleaseExtents(r, end, i);
    ExtentIndex(t, end, i);
    assert r.bounds[i] == t.bounds[i] && r.bounds[i + 1] == cut;
    assert UsedExtents(Release(r, i)) == UsedExtents(t);
    CoalescedIsCanonical(Release(r, i), t, end);
  }

  /** Release by start offset. */
  ghost function ReleaseAt(t: Tiling, end: nat, x: nat): Tiling
    requires Tiles(t, end) && x in t.used
  {
    var i := IndexIn(t.bounds, x);
    Release(t, i)
  }

  lemma ReleaseAtFacts(t: Tiling, end: nat, x: nat)
    requires Tiles(t, end) && Coalesced(t) && x in t.used
    ensures Tiles(ReleaseAt(t, end, x), end) && Coalesced(ReleaseAt(t, end, x))
    ensures ReleaseAt(t, end, x).used == t.used - {x}
    ensures UsedExtents(ReleaseAt(t, end, x)) == set e | e in UsedExtents(t) && e.0 != x
  {
    hide Coalesced, UsedExtents, Release;
    var i := IndexIn(t.bounds, x);
    assert IsBlock(t, i);
    ReleaseTiles(t, end, i);
    ReleaseExtents(t, end, i);
    ExtentIndex(t, end, i);
    hide Tiles;
    assert forall e :: e in UsedExtents(t) && e.0 == x ==> e == (t.bounds[i], t.bounds[i + 1]);
  }

  /** The tilings of a move: block `k` is taken, then the used block `i`, now at index `j`, is released. */
  lemma MoveTiling(t0: Tiling, end: nat, i: nat, k: nat, cut: nat) returns (j: nat)
    requires Tiles(t0, end) && Coalesced(t0) && IsBlock(t0, i) && t0.bounds[i] in t0.used
    requires IsBlock(t0, k) && t0.bounds[k] !in t0.used && t0.bounds[k] < cut <= t0.bounds[k + 1]
    ensures var t1 := Take(t0, k, cut);
      var p, q := t0.bounds[i], t0.bounds[k];
      && Tiles(t1, end) && Coalesced(t1) && t1.used == t0.used + {q}
      && IsBlock(t1, j) && t1.bounds[j] == p && p in t1.used && p != q
      && Release(t1, j) == ReleaseAt(t1, end, p)
      && UsedExtents(Release(t1, j)) == UsedExtents(t0) + {(q, cut)} - {(p, t0.bounds[i + 1])}
      && UsedExtents(Unmark(t0, i)) <= UsedExtents(Release(t1, j))
  {
    var t1 := Take(t0, k, cut);
    var p, q := t0.bounds[i], t0.bounds[k];
    TakeTiles(t0, end, k, cut);
    TakeFirst(t0, k, cut);
    TakeExtents(t0, end, k, cut);
    j := IndexIn(t1.bounds, p);
    BoundIsBlock(t1, end, j);
    ReleaseExtents(t1, end, j);
    ExtentIndex(t0, end, i);
    ExtentIndex(t1, end, j);
    assert (p, t0.bounds[i + 1]) in UsedExtents(t1);
    UnmarkExtents(t0, i);
  }

  /** Two blocks may be released in either order: the block list ends up the same. */
  lemma ReleaseCommutes(t: Tiling, end: nat, x: nat, y: nat)
    requires Tiles(t, end) && Coalesced(t) && x in t.used && y in t.used && x != y
    ensures Tiles(ReleaseAt(t, end, x), end) && y in ReleaseAt(t, end, x).used
    ensures Tiles(ReleaseAt(t, end, y), end) && x in ReleaseAt(t, end, y).used
    ensures ReleaseAt(ReleaseAt(t, end, x), end, y) == ReleaseAt(ReleaseAt(t, end, y), end, x)
  {
    hide Tiles, Coalesced, UsedExtents, ReleaseAt;
    ReleaseAtFacts(t, end, x);
    ReleaseAtFacts(t, end, y);
    ReleaseAtFacts(ReleaseAt(t, end, x), end, y);
    ReleaseAtFacts(ReleaseAt(t, end, y), end, x);
    CoalescedIsCanonical(ReleaseAt(ReleaseAt(t, end, x), end, y), ReleaseAt(ReleaseAt(t, end, y), end, x), end);
  }

  // ----------------------------------------------------------- byte counts

  /** Total of (extent - h) over the used blocks (`sel`) or over the free ones (`!sel`). */
  ghost function Total(b: seq<nat>, used: set<nat>, sel: bool, h: int): int {
    if |b| < 2 then 0
    else (if (b[0] in used) == sel then b[1] - b[0] - h else 0) + Total(b[1..], used, sel, h)
  }

  lemma {:induction false} TotalSplits(b: seq<nat>, used: set<nat>, sel: bool, h: int, k: nat)
    requires k < |b|
    ensures Total(b, used, sel, h) == Total(b[..k + 1], used, sel, h) + Total(b[k..], used, sel, h)
  {
    if k == 0 {
      assert b[0..] == b;
    } else {
      TotalSplits(b[1..], used, sel, h, k - 1);
      assert b[1..][..k] == b[..k + 1][1..];
      assert b[1..][k - 1..] == b[k..];
    }
  }

  lemma {:induction false} TotalSpaced(b: seq<nat>, used: set<nat>, sel: bool, h: nat)
    requires forall i, j :: 0 <= i < j < |b| ==> b[i] + h <= b[j]
    ensures Total(b, used, sel, h) >= 0
  {
    if |b| >= 2 { TotalSpaced(b[1..], used, sel, h); }
  }

  lemma TotalOfTiling(t: Tiling, end: nat, sel: bool)
    requires Tiles(t, end)
    ensures Total(t.bounds, t.used, sel, 0) >= 0
  {
    TotalSpaced(t.bounds, t.used, sel, 0);
  }

  /** Splitting off block `i`: everything before it, the block itself, everything after it. */
  lemma TotalAround(b: seq<nat>, used: set<nat>, sel: bool, h: int, i: nat)
    requires i + 1 < |b|
    ensures Total(b, used, sel, h) ==
      Total(b[..i + 1], used, sel, h)
      + (if (b[i] in used) == sel then b[i + 1] - b[i] - h else 0)
      + Total(b[i + 1..], used, sel, h)
  {
    TotalSplits(b, used, sel, h, i);
    assert b[i..][1..] == b[i + 1..];
  }

  lemma {:induction false} TotalFrame(b: seq<nat>, u: set<nat>, v: set<nat>, sel: bool, h: int)
    requires forall k :: 0 <= k < |b| - 1 ==> (b[k] in u <==> b[k] in v)
    ensures Total(b, u, sel, h) == Total(b, v, sel, h)
  {
    if |b| >= 2 {
      forall k | 0 <= k < |b[1..]| - 1 ensures b[1..][k] in u <==> b[1..][k] in v {
        assert b[1..][k] == b[k + 1];
      }
      TotalFrame(b[1..], u, v, sel, h);
    }
  }

  /** Used and free blocks together account for every byte and one `h` per block. */
  lemma {:induction false} TotalConservation(b: seq<nat>, used: set<nat>, h: int)
    requires |b| >= 1
    ensures Total(b, used, true, h) + Total(b, used, false, h) == b[|b| - 1] - b[0] - h * (|b| - 1)
  {
    if |b| >= 2 {
      TotalConservation(b[1..], used, h);
      assert h * (|b| - 1) == h * (|b| - 2) + h;
    }
  }

  /** Marking or unmarking block `i` moves exactly that block between the two totals. */
  lemma TotalMark(b: seq<nat>, used: set<nat>, sel: bool, h: int, i: nat)
    requires Increasing(b) && i + 1 < |b|
    ensures Total(b, used + {b[i]}, sel, h) ==
      Total(b, used - {b[i]}, sel, h) + (if sel then 1 else -1) * (b[i + 1] - b[i] - h)
  {
    var u, v := used + {b[i]}, used - {b[i]};
    TotalAround(b, u, sel, h, i);
    TotalAround(b, v, sel, h, i);
    TotalFrame(b[..i + 1], u, v, sel, h);
    TotalFrame(b[i + 1..], u, v, sel, h);
  }

  /** Inserting a boundary `c` inside block `i`, where the new block is free. */
  lemma TotalInsert(b: seq<nat>, used: set<nat>, sel: bool, h: int, i: nat, c: nat)
    requires i + 1 < |b| && b[i] < c < b[i + 1] && c !in used
    ensures Total(InsertBound(b, i, c), used, sel, h) == Total(b, used, sel, h)
      - (if (b[i] in used) == sel then b[i + 1] - b[i] - h else 0)
      + (if (b[i] in used) == sel then c - b[i] - h else 0)
      + (if sel then 0 else b[i + 1] - c - h)
  {
    var r := InsertBound(b, i, c);
    TotalAround(b, used, sel, h, i);
    TotalAround(r, used, sel, h, i);
    assert r[..i + 1] == b[..i + 1];
    assert r[i + 1..][1..] == b[i + 1..];
  }

  /** Dropping the boundary of a free block that follows a free block. */
  lemma TotalDrop(b: seq<nat>, used: set<nat>, sel: bool, h: int, k: nat)
    requires Increasing(b) && 0 < k < |b| - 1 && b[k] !in used && b[k - 1] !in used
    ensures Total(DropBound(b, k), used, sel, h) == Total(b, used, sel, h) + (if sel then 0 else h)
  {
    var r := DropBound(b, k);
    assert InsertBound(r, k - 1, b[k]) == b;
    TotalInsert(r, used, sel, h, k - 1, b[k]);
  }

  /** What taking a block does to the totals. */
  lemma TakeTotal(t: Tiling, end: nat, i: nat, cut: nat, sel: bool, h: int)
    requires Tiles(t, end) && IsBlock(t, i) && t.bounds[i] !in t.used && t.bounds[i] < cut <= t.bounds[i + 1]
    ensures var r := Take(t, i, cut);
      Total(r.bounds, r.used, sel, h) == Total(t.bounds, t.used, sel, h)
        + (if sel then cut - t.bounds[i] - h
           else if cut == t.bounds[i + 1] then -(t.bounds[i + 1] - t.bounds[i] - h)
           else -(cut - t.bounds[i]))
  {
    var b := t.bounds;
    if cut == b[i + 1] {
      assert t.used - {b[i]} == t.used;
      TotalMark(b, t.used, sel, h, i);
    } else {
      InsertTiles(t, end, i, cut);
      var r := InsertBound(b, i, cut);
      TotalInsert(b, t.used, sel, h, i, cut);
      assert t.used - {r[i]} == t.used && r[i] == b[i] && r[i + 1] == cut;
      TotalMark(r, t.used, sel, h, i);
    }
  }

  lemma MergeRightTotal(t: Tiling, end: nat, i: nat, sel: bool, h: int)
    requires Tiles(t, end) && IsBlock(t, i) && t.bounds[i] !in t.used
    ensures var r := MergeRight(t, i);
      && |t.bounds| - 1 <= |r.bounds| <= |t.bounds| && r.used == t.used
      && Total(r.bounds, t.used, sel, h) == Total(t.bounds, t.used, sel, h)
        + (if sel || |r.bounds| == |t.bounds| then 0 else h)
  {
    if i + 2 < |t.bounds| && t.bounds[i + 1] !in t.used { TotalDrop(t.bounds, t.used, sel, h, i + 1); }
  }

  lemma MergeLeftTotal(t: Tiling, end: nat, i: nat, sel: bool, h: int)
    requires Tiles(t, end) && IsBlock(t, i) && t.bounds[i] !in t.used
    ensures var r := MergeLeft(t, i);
      && |t.bounds| - 1 <= |r.bounds| <= |t.bounds| && r.used == t.used
      && Total(r.bounds, t.used, sel, h) == Total(t.bounds, t.used, sel, h)
        + (if sel || |r.bounds| == |t.bounds| then 0 else h)
  {
    if i > 0 && t.bounds[i - 1] !in t.used { TotalDrop(t.bounds, t.used, sel, h, i); }
  }

  lemma MergeRightAt(t: Tiling, i: nat)
    requires IsBlock(t, i)
    ensures IsBlock(MergeRight(t, i), i) && MergeRight(t, i).bounds[i] == t.bounds[i] && MergeRight(t, i).used == t.used
  {
    var m := MergeRight(t, i);
    assert m.bounds[i] == m.bounds[..i + 1][i];
  }

  lemma UnmarkTotal(t: Tiling, sel: bool, h: int, i: nat)
    requires Increasing(t.bounds) && IsBlock(t, i) && t.bounds[i] in t.used
    ensures Total(Unmark(t, i).bounds, Unmark(t, i).used, sel, h) ==
      Total(t.bounds, t.used, sel, h) + (if sel then -1 else 1) * (t.bounds[i + 1] - t.bounds[i] - h)
  {
    hide Increasing;
    assert t.used + {t.bounds[i]} == t.used;
    TotalMark(t.bounds, t.used, sel, h, i);
  }

  /** What releasing a used block does to the totals: each join gains one header. */
  lemma ReleaseTotal(t: Tiling, end: nat, i: nat, sel: bool, h: int)
    requires Tiles(t, end) && Coalesced(t) && IsBlock(t, i) && t.bounds[i] in t.used
    ensures var r := Release(t, i);
      var extent := t.bounds[i + 1] - t.bounds[i];
      && |t.bounds| - 2 <= |r.bounds| <= |t.bounds|
      && Total(r.bounds, r.used, sel, h) == Total(t.bounds, t.used, sel, h)
        + (if sel then -(extent - h)
           else (extent - h)
                + (if |r.bounds| == |t.bounds| then 0 else if |r.bounds| + 1 == |t.bounds| then h else h + h))
  {
    hide Coalesced, CoalescedBut, Increasing, Total, MergeRight, MergeLeft;
    UnmarkTiles(t, end, i);
    UnmarkTotal(t, sel, h, i);
    var u := Unmark(t, i);
    MergeRightTiles(u, end, i);
    MergeRightAt(u, i);
    MergeRightTotal(u, end, i, sel, h);
    MergeLeftTotal(MergeRight(u, i), end, i, sel, h);
  }

  /** What shrinking a used block does to the totals. */
  lemma ShrinkTotal(t: Tiling, end: nat, i: nat, cut: nat, sel: bool, h: int)
    requires Tiles(t, end) && Coalesced(t) && IsBlock(t, i)
    requires t.bounds[i] in t.used && t.bounds[i] < cut < t.bounds[i + 1]
    ensures var r := Shrink(t, i, cut);
      && |t.bounds| <= |r.bounds| <= |t.bounds| + 1
      && Total(r.bounds, r.used, sel, h) == Total(t.bounds, t.used, sel, h)
        + (if sel then cut - t.bounds[i + 1]
           else (t.bounds[i + 1] - cut - h) + (if |r.bounds| == |t.bounds| then h else 0))
  {
    ShrinkTiles(t, end, i, cut);
    TotalInsert(t.bounds, t.used, sel, h, i, cut);
    MergeRightTotal(t.(bounds := InsertBound(t.bounds, i, cut)), end, i + 1, sel, h);
  }

  /** What moving the boundary after a used block does to the totals. */
  lemma GrowTotal(t: Tiling, end: nat, i: nat, cut: nat, sel: bool, h: int)
    requires Tiles(t, end) && Coalesced(t) && IsBlock(t, i + 1)
    requires t.bounds[i] in t.used && t.bounds[i + 1] !in t.used && t.bounds[i] < cut < t.bounds[i + 2]
    ensures var r := Grow(t, i, cut);
      Total(r.bounds, r.used, sel, h) == Total(t.bounds, t.used, sel, h)
        + (if sel then cut - t.bounds[i + 1] else t.bounds[i + 1] - cut)
  {
    GrowTiles(t, end, i, cut);
    var b := t.bounds;
    var r := b[i + 1 := cut];
    TotalAround(b, t.used, sel, h, i);
    TotalAround(r, t.used, sel, h, i);
    assert r[..i + 1] == b[..i + 1];
    assert r[i + 1..][1..] == b[i + 1..][1..];
  }
}
