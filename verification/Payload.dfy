/** The bytes of a heap arena, seen through a tiling: which bytes are payload, and what
    overwriting headers and copying payload does to them.  `h` is the size of a header. */
module Payloads {
  import opened Tilings

  /** A byte of the arena: part of a header, or payload. */
  datatype Cell = HeaderByte | Payload(value: int)

  /** Overwriting one header. */
  function Clobber(c: seq<Cell>, p: nat, h: nat): (r: seq<Cell>)
    requires p + h <= |c|
    ensures |r| == |c|
    ensures forall a :: 0 <= a < |c| && !(p <= a < p + h) ==> r[a] == c[a]
  {
    c[..p] + seq(h, _ => HeaderByte) + c[p + h..]
  }

  /** Byte `a` belongs to the payload of the used block `i`. */
  ghost predicate InPayload(t: Tiling, i: nat, a: nat, h: nat) {
    IsBlock(t, i) && t.bounds[i] in t.used && t.bounds[i] + h <= a < t.bounds[i + 1]
  }

  /** The payload bytes of every used block of `t` are the same in both arenas. */
  ghost predicate SamePayload(c: seq<Cell>, d: seq<Cell>, t: Tiling, h: nat) {
    && |c| == |d|
    && forall i: nat, a: nat | InPayload(t, i, a, h) && a < |c| :: c[a] == d[a]
  }

  lemma ClobberHeader(c: seq<Cell>, p: nat, t: Tiling, k: nat, h: nat)
    requires Increasing(t.bounds) && Spaced(t, h)
    requires k < |t.bounds| && p == t.bounds[k] && p + h <= |c|
    ensures SamePayload(c, Clobber(c, p, h), t, h)
  {
    forall i: nat, a: nat | InPayload(t, i, a, h) && a < |c|
      ensures c[a] == Clobber(c, p, h)[a]
    {
      assert k < i ==> t.bounds[k] < t.bounds[i];
      assert i + 1 < k ==> t.bounds[i + 1] < t.bounds[k];
    }
  }

  lemma SamePayloadTrans(c: seq<Cell>, d: seq<Cell>, e: seq<Cell>, t: Tiling, h: nat)
    requires SamePayload(c, d, t, h) && SamePayload(d, e, t, h)
    ensures SamePayload(c, e, t, h)
  {
  }

  lemma SamePayloadRefl(c: seq<Cell>, t: Tiling, h: nat)
    ensures SamePayload(c, c, t, h)
  {
  }

  lemma SamePayloadSubset(c: seq<Cell>, d: seq<Cell>, s: Tiling, t: Tiling, h: nat)
    requires SamePayload(c, d, s, h)
    requires forall i: nat, a: nat | InPayload(t, i, a, h) :: exists j: nat :: InPayload(s, j, a, h)
    ensures SamePayload(c, d, t, h)
  {
    forall i: nat, a: nat | InPayload(t, i, a, h) && a < |c| ensures c[a] == d[a] {
      var j: nat :| InPayload(s, j, a, h);
    }
  }

  /** Byte `a` is payload in one tiling iff it is in every tiling with the same used extents. */
  lemma PayloadByExtents(s: Tiling, t: Tiling, i: nat, a: nat, h: nat)
    requires InPayload(t, i, a, h) && UsedExtents(t) <= UsedExtents(s)
    ensures exists j: nat :: InPayload(s, j, a, h)
  {
    var e := (t.bounds[i], t.bounds[i + 1]);
    assert e in UsedExtents(t);
    var j :| 0 <= j < |s.bounds| - 1 && s.bounds[j] in s.used && (s.bounds[j], s.bounds[j + 1]) == e;
    assert InPayload(s, j, a, h);
  }

  lemma SamePayloadByExtents(c: seq<Cell>, d: seq<Cell>, s: Tiling, t: Tiling, h: nat)
    requires SamePayload(c, d, s, h) && UsedExtents(t) <= UsedExtents(s)
    ensures SamePayload(c, d, t, h)
  {
    forall i: nat, a: nat | InPayload(t, i, a, h) ensures exists j: nat :: InPayload(s, j, a, h) {
      PayloadByExtents(s, t, i, a, h);
    }
    SamePayloadSubset(c, d, s, t, h);
  }

  lemma SamePayloadRange(c: seq<Cell>, d: seq<Cell>, t: Tiling, i: nat, p: nat, n: nat, h: nat)
    requires SamePayload(c, d, t, h) && IsBlock(t, i) && t.bounds[i] in t.used
    requires t.bounds[i] + h <= p && p + n <= t.bounds[i + 1] && p + n <= |c|
    ensures c[p..p + n] == d[p..p + n]
  {
    forall a | p <= a < p + n ensures c[a] == d[a] {
      assert InPayload(t, i, a, h);
    }
  }

  /** Copying into the payload of the block `k`, free in `t`, disturbs no used block. */
  lemma CopyIntoFree(c0: seq<Cell>, c1: seq<Cell>, t: Tiling, k: nat, src: nat, n: nat, h: nat)
    requires Increasing(t.bounds) && IsBlock(t, k) && t.bounds[k] !in t.used
    requires t.bounds[k] + h + n <= t.bounds[k + 1] <= |c1| && src + n <= |c1|
    requires SamePayload(c0, c1, t, h)
    ensures SamePayload(c0, Copy(c1, t.bounds[k] + h, src, n), t, h)
  {
    var c2 := Copy(c1, t.bounds[k] + h, src, n);
    forall j: nat, a: nat | InPayload(t, j, a, h) && a < |c0| ensures c0[a] == c2[a] {
      PayloadAvoidsFree(t, k, j, a, h);
    }
  }

  lemma SamePayloadUnmark(c: seq<Cell>, d: seq<Cell>, t: Tiling, i: nat, h: nat)
    requires SamePayload(c, d, t, h) && IsBlock(t, i)
    ensures SamePayload(c, d, Unmark(t, i), h)
  {
    forall j: nat, a: nat | InPayload(Unmark(t, i), j, a, h) && a < |c| ensures c[a] == d[a] {
      assert InPayload(t, j, a, h);
    }
  }

  lemma PayloadAvoidsFree(t: Tiling, k: nat, j: nat, a: nat, h: nat)
    requires Increasing(t.bounds) && IsBlock(t, k) && t.bounds[k] !in t.used && InPayload(t, j, a, h)
    ensures a < t.bounds[k] || t.bounds[k + 1] <= a
  {
    BoundsAround(t.bounds, j, k);
    BoundsAround(t.bounds, k, j);
  }

  /** rt_memcpy of `n` bytes between ranges that do not overlap. */
  function Copy(c: seq<Cell>, dst: nat, src: nat, n: nat): (r: seq<Cell>)
    requires dst + n <= |c| && src + n <= |c|
    ensures |r| == |c|
    ensures r[dst..dst + n] == c[src..src + n]
    ensures forall a :: 0 <= a < |c| && !(dst <= a < dst + n) ==> r[a] == c[a]
  {
    c[..dst] + c[src..src + n] + c[dst + n..]
  }

  /** The first `n` payload bytes at `dst` in `d` are those at `src` in `c`. */
  ghost predicate SamePrefix(c: seq<Cell>, src: nat, d: seq<Cell>, dst: nat, n: nat) {
    src + n <= |c| && dst + n <= |d| && d[dst..dst + n] == c[src..src + n]
  }

  lemma CopiedPrefix(c0: seq<Cell>, c1: seq<Cell>, src: nat, dst: nat, n: nat)
    requires src + n <= |c0| && src + n <= |c1| && dst + n <= |c1| && c0[src..src + n] == c1[src..src + n]
    ensures SamePrefix(c0, src, Copy(c1, dst, src, n), dst, n)
  {
  }

  /** Freeing the old block of a move keeps the copied prefix and all other payloads. */
  lemma MovedSurvives(c0: seq<Cell>, c2: seq<Cell>, c3: seq<Cell>, t0: Tiling, t3: Tiling, i: nat, k: nat, cut: nat,
                      src: nat, n: nat, h: nat)
    requires IsBlock(t0, i) && IsBlock(t0, k) && t0.bounds[k] + h + n <= cut
    requires SamePayload(c0, c2, Unmark(t0, i), h) && SamePrefix(c0, src, c2, t0.bounds[k] + h, n)
    requires SamePayload(c2, c3, t3, h)
    requires UsedExtents(Unmark(t0, i)) <= UsedExtents(t3) && (t0.bounds[k], cut) in UsedExtents(t3)
    ensures SamePayload(c0, c3, Unmark(t0, i), h) && SamePrefix(c0, src, c3, t0.bounds[k] + h, n)
  {
    SamePayloadByExtents(c2, c3, t3, Unmark(t0, i), h);
    SamePayloadTrans(c0, c2, c3, Unmark(t0, i), h);
    var j :| 0 <= j < |t3.bounds| - 1 && t3.bounds[j] in t3.used
      && (t3.bounds[j], t3.bounds[j + 1]) == (t0.bounds[k], cut);
    SamePayloadRange(c2, c3, t3, j, t0.bounds[k] + h, n, h);
  }
}
