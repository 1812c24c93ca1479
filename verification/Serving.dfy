/** What the caller of a realloc wants, for any heap that is a tiling with headers of `h` bytes. */
module Servings {
  import opened Payloads
  import opened Tilings

  function Least(a: nat, b: nat): nat {
    if a < b then a else b
  }

  /** The live blocks are the old ones, but for one from `q` to `e` in place of the block `i`. */
  ghost predicate Replaced(t0: Tiling, i: nat, t1: Tiling, q: nat, e: nat)
    requires IsBlock(t0, i)
  {
    UsedExtents(t1) == UsedExtents(t0) - {(t0.bounds[i], t0.bounds[i + 1])} + {(q, e)}
  }

  /** In place of the block `i` there is now one at `q` with room for `newsize` bytes that starts with the old
      contents, as far as both go; every other live block is where it was, with the bytes it had. */
  ghost predicate Serves(t0: Tiling, c0: seq<Cell>, i: nat, newsize: nat, q: int, t1: Tiling, c1: seq<Cell>, h: nat)
    requires IsBlock(t0, i)
  {
    var p, e0 := t0.bounds[i], t0.bounds[i + 1];
    && 0 <= q && p + h <= e0
    && (exists e: nat :: Replaced(t0, i, t1, q, e) && q + h + newsize <= e)
    && SamePayload(c0, c1, Unmark(t0, i), h)
    && SamePrefix(c0, p + h, c1, q + h, Least(e0 - p - h, newsize))
  }

  /** The new extent of the block is the only one that starts where it does. */
  lemma NewExtent(t0: Tiling, end: nat, i: nat, t1: Tiling, e: nat)
    requires Tiles(t0, end) && IsBlock(t0, i) && t0.bounds[i] in t0.used && Replaced(t0, i, t1, t0.bounds[i], e)
    ensures forall f: nat :: Replaced(t0, i, t1, t0.bounds[i], f) ==> f == e
  {
    ExtentIndex(t0, end, i);
    hide UsedExtents, Tiles;
    forall f: nat | Replaced(t0, i, t1, t0.bounds[i], f) ensures f == e {
      assert (t0.bounds[i], f) in UsedExtents(t1);
    }
  }

  /** A heap is too small for what reaches beyond its end. */
  lemma NoRoom(t0: Tiling, c0: seq<Cell>, i: nat, newsize: nat, q: int, t1: Tiling, c1: seq<Cell>, h: nat, end: nat)
    requires IsBlock(t0, i) && Tiles(t1, end) && Serves(t0, c0, i, newsize, q, t1, c1, h)
    ensures newsize <= end
  {
    hide SamePayload, SamePrefix;
    var e: nat :| Replaced(t0, i, t1, q, e) && q + h + newsize <= e;
    assert (q, e) in UsedExtents(t1);
    var k :| 0 <= k < |t1.bounds| - 1 && t1.bounds[k] in t1.used && (q, e) == (t1.bounds[k], t1.bounds[k + 1]);
    BoundsAround(t1.bounds, k, |t1.bounds| - 1);
  }

  /** The block stays as it is. */
  lemma KeptServes(t: Tiling, end: nat, c: seq<Cell>, i: nat, newsize: nat, h: nat)
    requires Tiles(t, end) && IsBlock(t, i) && t.bounds[i] in t.used && t.bounds[i] + h <= t.bounds[i + 1] <= |c|
    ensures Serves(t, c, i, newsize, t.bounds[i], t, c, h) <==> t.bounds[i] + h + newsize <= t.bounds[i + 1]
  {
    ExtentIndex(t, end, i);
    SamePayloadRefl(c, Unmark(t, i), h);
    hide UsedExtents, Tiles, SamePayload;
    var p, e := t.bounds[i], t.bounds[i + 1];
    assert Replaced(t, i, t, p, e);
    NewExtent(t, end, i, t, e);
  }

  /** The block is cut at `e`. */
  lemma CutServes(t0: Tiling, end: nat, c0: seq<Cell>, i: nat, newsize: nat, e: nat, t1: Tiling, c1: seq<Cell>, h: nat)
    requires Tiles(t0, end) && Coalesced(t0) && IsBlock(t0, i) && t0.bounds[i] in t0.used && h > 0
    requires t0.bounds[i] + h <= e < t0.bounds[i + 1] <= |c0|
    requires t1 == Shrink(t0, i, e) && SamePayload(c0, c1, t1, h)
    ensures Serves(t0, c0, i, newsize, t0.bounds[i], t1, c1, h) <==> t0.bounds[i] + h + newsize <= e
  {
    hide Shrink, Coalesced, UsedExtents, Tiles, SamePayload, Replaced, SamePrefix;
    CutKeeps(t0, end, i, e, c0, c1, t1, h);
    NewExtent(t0, end, i, t1, e);
    if t0.bounds[i] + h + newsize <= e { NewPrefix(t0, i, e, c0, c1, t1, newsize, h); }
  }

  lemma CutKeeps(t0: Tiling, end: nat, i: nat, e: nat, c0: seq<Cell>, c1: seq<Cell>, t1: Tiling, h: nat)
    requires Tiles(t0, end) && Coalesced(t0) && IsBlock(t0, i) && t0.bounds[i] in t0.used
    requires t0.bounds[i] < e < t0.bounds[i + 1] && t1 == Shrink(t0, i, e) && SamePayload(c0, c1, t1, h)
    ensures Replaced(t0, i, t1, t0.bounds[i], e) && SamePayload(c0, c1, Unmark(t0, i), h)
  {
    hide Shrink, Coalesced, Tiles, SamePayload, UsedExtents;
    ShrinkExtents(t0, end, i, e);
    TilesIncrease(t0, end);
    UnmarkExtents(t0, i);
    SamePayloadByExtents(c0, c1, t1, Unmark(t0, i), h);
  }

  lemma TilesIncrease(t: Tiling, end: nat)
    requires Tiles(t, end)
    ensures Increasing(t.bounds)
  {
  }

  /** The part of the payload that is in the old block and in the new one is untouched. */
  lemma NewPrefix(t0: Tiling, i: nat, e: nat, c0: seq<Cell>, c1: seq<Cell>, t1: Tiling, m: nat, h: nat)
    requires IsBlock(t0, i) && t0.bounds[i] + h + m <= e && t0.bounds[i] + h + m <= |c0|
    requires Replaced(t0, i, t1, t0.bounds[i], e) && SamePayload(c0, c1, t1, h)
    ensures SamePrefix(c0, t0.bounds[i] + h, c1, t0.bounds[i] + h, m)
  {
    var p := t0.bounds[i];
    assert (p, e) in UsedExtents(t1);
    var k :| 0 <= k < |t1.bounds| - 1 && t1.bounds[k] in t1.used && (p, e) == (t1.bounds[k], t1.bounds[k + 1]);
    SamePayloadRange(c0, c1, t1, k, p + h, m, h);
  }

  /** The block grows over the free one after it, up to `e`. */
  lemma GrowServes(t0: Tiling, end: nat, c0: seq<Cell>, i: nat, newsize: nat, e: nat, t1: Tiling, c1: seq<Cell>, h: nat)
    requires Tiles(t0, end) && Coalesced(t0) && IsBlock(t0, i + 1) && t0.bounds[i] in t0.used
    requires t0.bounds[i + 1] !in t0.used && t0.bounds[i + 1] < e < t0.bounds[i + 2]
    requires t0.bounds[i] + h <= t0.bounds[i + 1] <= |c0|
    requires t1 == Grow(t0, i, e) && SamePayload(c0, c1, t0, h)
    ensures Serves(t0, c0, i, newsize, t0.bounds[i], t1, c1, h) <==> t0.bounds[i] + h + newsize <= e
  {
    hide Grow, Coalesced, UsedExtents, Tiles, SamePayload, SamePrefix;
    GrowExtents(t0, end, i, e);
    SamePayloadUnmark(c0, c1, t0, i, h);
    assert Replaced(t0, i, t1, t0.bounds[i], e);
    NewExtent(t0, end, i, t1, e);
    var p, size := t0.bounds[i], t0.bounds[i + 1] - t0.bounds[i] - h;
    SamePayloadRange(c0, c1, t0, i, p + h, size, h);
    hide Replaced;
    KeptPrefix(c0, c1, p + h, size, Least(size, newsize));
  }

  lemma KeptPrefix(c: seq<Cell>, d: seq<Cell>, p: nat, n: nat, m: nat)
    requires |c| == |d| && p + n <= |c| && c[p..p + n] == d[p..p + n] && m <= n
    ensures SamePrefix(c, p, d, p, m)
  {
    assert SamePrefix(c, p, d, p, n);
    ShorterPrefix(c, p, d, p, n, m);
  }

  /** The block `k` is taken up to `cut`, the contents copied, and the old block released. */
  lemma MoveServes(t0: Tiling, end: nat, c0: seq<Cell>, i: nat, newsize: nat, n: nat, k: nat, cut: nat, t1: Tiling,
                   c1: seq<Cell>, h: nat)
    requires Tiles(t0, end) && Coalesced(t0) && IsBlock(t0, i) && t0.bounds[i] in t0.used && newsize <= n && h > 0
    requires IsBlock(t0, k) && t0.bounds[k] !in t0.used && t0.bounds[i] + h <= t0.bounds[i + 1]
    requires t0.bounds[k] + h + n <= cut <= t0.bounds[k + 1]
    requires Tiles(Take(t0, k, cut), end) && t0.bounds[i] in Take(t0, k, cut).used
    requires t1 == ReleaseAt(Take(t0, k, cut), end, t0.bounds[i]) && SamePayload(c0, c1, Unmark(t0, i), h)
    requires SamePrefix(c0, t0.bounds[i] + h, c1, t0.bounds[k] + h, Least(t0.bounds[i + 1] - t0.bounds[i] - h, n))
    ensures Serves(t0, c0, i, newsize, t0.bounds[k], t1, c1, h)
  {
    hide Take, ReleaseAt, Release, Coalesced, Tiles, SamePayload, UsedExtents, SamePrefix;
    var j := MoveTiling(t0, end, i, k, cut);
    assert Replaced(t0, i, t1, t0.bounds[k], cut);
    hide Replaced;
    var size := t0.bounds[i + 1] - t0.bounds[i] - h;
    ShorterPrefix(c0, t0.bounds[i] + h, c1, t0.bounds[k] + h, Least(size, n), Least(size, newsize));
  }

  lemma ShorterPrefix(c: seq<Cell>, src: nat, d: seq<Cell>, dst: nat, n: nat, m: nat)
    requires SamePrefix(c, src, d, dst, n) && m <= n
    ensures SamePrefix(c, src, d, dst, m)
  {
    assert c[src..src + m] == c[src..src + n][..m];
    assert d[dst..dst + m] == d[dst..dst + n][..m];
  }
}
