/** rt_malloc and rt_free of slab.c, on top of the page allocator and the zones. */
module SlabHeaps {
  import Bits
  import opened PageLists
  import opened Sequences
  import opened SlabZones
  import opened Words

  const MEMUSAGE_SIZE: nat := 4      // sizeof(struct memusage)

  predicate ZoneSizeOk(zoneSize: nat) {
    zoneSize == 32 * 1024 || zoneSize == 64 * 1024 || zoneSize == 128 * 1024
  }

  function ZoneLimit(zoneSize: nat): nat {
    if zoneSize / 4 > ZALLOC_ZONE_LIMIT then ZALLOC_ZONE_LIMIT else zoneSize / 4
  }

  /** `RT_ALIGN(size, RT_MM_PAGE_SIZE) >> RT_MM_PAGE_BITS` on 32-bit words. */
  function PagesFor(size: nat): nat {
    (size + PAGE - 1) % U32 / PAGE
  }

  lemma PagesForMeaning(size: nat)
    requires 0 < size < U32
    ensures size <= U32 - PAGE ==> size <= PagesFor(size) * PAGE < size + PAGE
    ensures PagesFor(size) == 0 <==> size > U32 - PAGE
  {
  }

  /** Every request below the limit fits a zone of its own index, with room for at least two chunks. */
  lemma RequestFacts(size: nat, cnt: nat)
    requires ZoneSizeOk(cnt * PAGE) && 0 < size < ZoneLimit(cnt * PAGE)
    ensures var (zi, c) := ZoneIndex(size);
      && 0 <= zi < NZONES && size <= c && c == ChunkOf(zi)
      && cnt * PAGE >= RoundUp(HEADER, c) + c && cnt * PAGE >= RoundUp(HEADER, MIN_CHUNK_SIZE) + c
      && ReadyZone(FreshZone(cnt * PAGE, zi, c), cnt)
  {
    ZoneIndexMeaning(size);
    hide ZoneIndex, ChunkOf, RoundUp, FreshZone, Fits, ZoneOk, Based, Packed;
    var (zi, c) := ZoneIndex(size);
    FreshZoneFacts(cnt * PAGE, zi, c);
    FreshZoneIsPacked(cnt * PAGE, zi, c);
    FreshZoneIsBased(cnt * PAGE, zi, c);
  }

  method ChooseZoneSize(limsize: nat) returns (zoneSize: nat)
    ensures ZoneSizeOk(zoneSize)
    ensures zoneSize > ZALLOC_MIN_ZONE_SIZE ==> zoneSize < limsize / 1024
    ensures zoneSize < ZALLOC_MAX_ZONE_SIZE ==> limsize / 1024 <= 2 * zoneSize
  {
    zoneSize := ZALLOC_MIN_ZONE_SIZE;
    while zoneSize < ZALLOC_MAX_ZONE_SIZE && zoneSize * 2 < limsize / 1024
      invariant ZoneSizeOk(zoneSize)
      invariant zoneSize > ZALLOC_MIN_ZONE_SIZE ==> zoneSize < limsize / 1024
      decreases ZALLOC_MAX_ZONE_SIZE - zoneSize
    {
      zoneSize := zoneSize * 2;
    }
  }

  /** The loop that writes the usage entries of a new zone. */
  method MarkZone(usage: map<nat, Usage>, z: nat, cnt: nat) returns (r: map<nat, Usage>)
    ensures r == MarkPages(usage, z, 0, cnt)
  {
    r := usage;
    var off := 0;
    while off < cnt
      invariant off <= cnt && MarkPages(usage, z, 0, cnt) == MarkPages(r, z, off, cnt)
    {
      r := r[z + off := Small(off)];
      off := off + 1;
    }
  }

  /** The loop that frees the usage entries of a zone, and only those. */
  method ClearZone(usage: map<nat, Usage>, z: nat, cnt: nat) returns (r: map<nat, Usage>)
    ensures r == ClearPages(usage, z, 0, cnt)
    ensures forall p: nat :: z <= p < z + cnt ==> p in r && r[p] == Free
    ensures forall p: nat :: p in usage && !(z <= p < z + cnt) ==> p in r && r[p] == usage[p]
  {
    r := usage;
    var i := 0;
    while i < cnt
      invariant i <= cnt && ClearPages(usage, z, 0, cnt) == ClearPages(r, z, i, cnt)
    {
      r := r[z + i := Free];
      i := i + 1;
    }
    forall p: nat
      ensures z <= p < z + cnt ==> p in r && r[p] == Free
      ensures p in usage && !(z <= p < z + cnt) ==> p in r && r[p] == usage[p]
    {
      ClearPagesAt(usage, z, 0, cnt, p);
    }
  }

  /** The loop that takes a zone out of its list. */
  method UnlinkZone(list: seq<nat>, z: nat) returns (r: seq<nat>)
    requires z in list
    ensures r == Without(list, z)
  {
    var k := 0;
    while list[k] != z
      invariant k < |list| && z in list[k..] && forall j :: 0 <= j < k ==> list[j] != z
      decreases |list| - k
    {
      k := k + 1;
    }
    WithoutAt(list, k, z);
    r := list[..k] + list[k + 1..];
  }

  // ------------------------------------------------- blocks and pointers

  /** `ptr` is the address of live chunk `i` of the zone at page `z`. */
  ghost predicate IsChunk(s: Slab, live: map<nat, set<nat>>, ptr: nat, z: nat, i: nat) {
    z in s.zones && z in live && i in live[z] && ptr == ChunkAddr(z, s.zones[z], i)
  }

  lemma ChunkAt(s: Slab, live: map<nat, set<nat>>, z: nat, i: nat)
    requires z in s.zones && z in live && i in live[z]
    ensures IsChunk(s, live, z * PAGE + s.zones[z].off + i * s.zones[z].chunksize, z, i)
  {
  }

  ghost predicate IsLarge(owned: map<nat, Block>, ptr: nat) {
    ptr % PAGE == 0 && ptr / PAGE in owned && owned[ptr / PAGE].LargeBlock?
  }

  /** A live chunk is found again from its address alone: the usage entry of its page leads to its zone,
      and the offset in the zone gives its index. */
  lemma ChunkIsFound(s: Slab, owned: map<nat, Block>, live: map<nat, set<nat>>, cnt: nat, ptr: nat, z: nat, i: nat)
    requires SlabOk(s, owned, live, cnt) && IsChunk(s, live, ptr, z, i)
    ensures ptr / PAGE in s.usage && s.usage[ptr / PAGE].Small? && s.usage[ptr / PAGE].offset <= ptr / PAGE
    ensures ptr / PAGE - s.usage[ptr / PAGE].offset == z
    ensures s.zones[z].chunksize > 0 && ptr >= z * PAGE + s.zones[z].off
    ensures (ptr - z * PAGE - s.zones[z].off) / s.zones[z].chunksize == i
  {
    ZoneFacts(s, owned, live, cnt, z, i);
    hide SlabOk, ZoneOk, UsageOk;
    ChunkInZone(z, s.zones[z], i, cnt);
    IndexBack(z, s.zones[z], i);
    hide ChunkAddr, Fits;
    PageUsage(s.usage, owned, cnt, z, ptr / PAGE);
  }

  lemma ZoneFacts(s: Slab, owned: map<nat, Block>, live: map<nat, set<nat>>, cnt: nat, z: nat, i: nat)
    requires SlabOk(s, owned, live, cnt) && z in s.zones && z in live && i in live[z]
    ensures UsageOk(s.usage, owned, cnt) && z in owned && !owned[z].LargeBlock?
    ensures Fits(s.zones[z], cnt * PAGE) && i < s.zones[z].nmax
  {
    hide ListAt, NoRepeats, ChunkOf, UsageOk, Fits, Based, Packed;
    assert ZoneAt(s, live, cnt, z);
  }

  lemma IndexBack(p: nat, z: Zone, i: nat)
    requires z.chunksize > 0
    ensures ChunkAddr(p, z, i) >= p * PAGE + z.off
    ensures (ChunkAddr(p, z, i) - p * PAGE - z.off) / z.chunksize == i
  {
    DivBack(i, z.chunksize);
  }

  lemma PageUsage(usage: map<nat, Usage>, owned: map<nat, Block>, cnt: nat, z: nat, p: nat)
    requires UsageOk(usage, owned, cnt) && z in owned && !owned[z].LargeBlock? && z <= p < z + cnt
    ensures p in usage && usage[p] == Small(p - z)
  {
  }

  lemma DivBack(i: nat, c: nat)
    requires c > 0
    ensures i * c / c == i
  {
    var q := i * c / c;
    assert 0 <= i * c - q * c < c by { assert i * c == c * (i * c / c) + i * c % c; }
    assert (i - q) * c == i * c - q * c;
    if i > q { MulLe(1, i - q, c); }
  }

  /** Every live chunk is on a multiple of 8 and, if its size is a power of two, on a multiple of that up to a page. */
  lemma LiveChunksAreAligned(s: Slab, owned: map<nat, Block>, live: map<nat, set<nat>>, cnt: nat, ptr: nat, z: nat,
                             i: nat)
    requires SlabOk(s, owned, live, cnt) && IsChunk(s, live, ptr, z, i)
    ensures ptr % 8 == 0
    ensures forall k: nat :: s.zones[z].chunksize == Bits.Pow2(k) && k <= 12 ==>
      Bits.Pow2(k) > 0 && ptr % Bits.Pow2(k) == 0
    ensures forall k: nat :: s.zones[z].chunksize == Bits.Pow2(k) && k >= 12 ==> ptr % 4096 == 0
  {
    assert ZoneAt(s, live, cnt, z);
    hide SlabOk, ZoneOk, Fits, ChunkAddr, ChunkOf;
    ChunkIsAligned(z, s.zones[z], i);
  }

  /** A pointer handed out for `size` bytes is on a multiple of 8; if the size is a power of two, of that, up to a
      page. */
  ghost predicate WellPlaced(ptr: int, size: nat) {
    ptr % 8 == 0 && forall k: nat :: size == Bits.Pow2(k) ==> OnPower(ptr, if k <= 12 then k else 12)
  }

  ghost predicate OnPower(ptr: int, k: nat) {
    Bits.Pow2(k) > 0 && ptr % Bits.Pow2(k) == 0
  }

  lemma ChunkIsWellPlaced(s: Slab, owned: map<nat, Block>, live: map<nat, set<nat>>, cnt: nat, ptr: nat, z: nat, i: nat,
                          size: nat)
    requires SlabOk(s, owned, live, cnt) && IsChunk(s, live, ptr, z, i) && 0 < size < 16384
    requires s.zones[z].chunksize == ZoneIndex(size).1
    ensures WellPlaced(ptr, size)
  {
    var c := s.zones[z].chunksize;
    hide SlabOk, IsChunk, ZoneIndex, Bits.Pow2;
    LiveChunksAreAligned(s, owned, live, cnt, ptr, z, i);
    forall k: nat | size == Bits.Pow2(k) ensures OnPower(ptr, if k <= 12 then k else 12) {
      PowerPlaced(ptr, c, size, k);
    }
  }

  lemma PowerPlaced(ptr: nat, c: nat, size: nat, k: nat)
    requires ptr % 8 == 0 && 0 < size < 16384 && c == ZoneIndex(size).1 && size == Bits.Pow2(k)
    requires c == Bits.Pow2(k) && k <= 12 ==> Bits.Pow2(k) > 0 && ptr % Bits.Pow2(k) == 0
    requires c == Bits.Pow2(k) && k >= 12 ==> ptr % 4096 == 0
    ensures OnPower(ptr, if k <= 12 then k else 12)
  {
    hide ZoneIndex;
    PowerOfPage();
    if k < 3 {
      SmallPowers();
      MultipleOfMultiple(ptr, if k == 0 then 8 else if k == 1 then 4 else 2, Bits.Pow2(k));
    } else {
      PowerRequest(size, k);
      hide Bits.Pow2;
    }
  }

  lemma SmallPowers()
    ensures Bits.Pow2(0) == 1 && Bits.Pow2(1) == 2 && Bits.Pow2(2) == 4
  {
  }

  lemma PageIsWellPlaced(ptr: nat, size: nat)
    requires ptr % PAGE == 0
    ensures WellPlaced(ptr, size)
  {
    forall k: nat | size == Bits.Pow2(k) ensures OnPower(ptr, if k <= 12 then k else 12) {
      PowerPositive(k);
      PowerOfPage();
      if k <= 12 { PagePower(ptr, k); }
    }
  }

  lemma PagePower(ptr: nat, k: nat)
    requires ptr % PAGE == 0 && k <= 12
    ensures OnPower(ptr, k)
  {
    PowerPositive(k);
    PowerPositive(12 - k);
    PowerOfPage();
    PowersAdd(12 - k, k);
    hide Bits.Pow2;
    MultipleOfMultiple(ptr, Bits.Pow2(12 - k), Bits.Pow2(k));
  }

  /** The bytes of live chunks never overlap. */
  lemma LiveChunksAreDisjoint(s: Slab, owned: map<nat, Block>, live: map<nat, set<nat>>, cnt: nat, runs: seq<Run>,
                              p: nat, z: nat, i: nat, q: nat, w: nat, j: nat)
    requires SlabOk(s, owned, live, cnt) && Owned(owned, cnt, runs)
    requires IsChunk(s, live, p, z, i) && IsChunk(s, live, q, w, j) && (w != z || j != i)
    ensures p + s.zones[z].chunksize <= q || q + s.zones[w].chunksize <= p
  {
    hide ListAt, NoRepeats, ChunkOf, UsageOk;
    assert ZoneAt(s, live, cnt, z) && ZoneAt(s, live, cnt, w);
    assert owned[z] == ZoneBlock && owned[w] == ZoneBlock;
    assert z < w ==> z + cnt <= w;
    assert w < z ==> w + cnt <= z;
    hide SlabOk, Owned;
    ChunkInZone(z, s.zones[z], i, cnt);
    ChunkInZone(w, s.zones[w], j, cnt);
  }

  /** The bytes of a live chunk are apart from the large block at page `a` and from free page `f`. */
  lemma ChunksAndPagesAreDisjoint(s: Slab, owned: map<nat, Block>, live: map<nat, set<nat>>, cnt: nat, runs: seq<Run>,
                                  p: nat, z: nat, i: nat, a: nat, f: int)
    requires SlabOk(s, owned, live, cnt) && Owned(owned, cnt, runs) && IsChunk(s, live, p, z, i)
    ensures a in owned && owned[a].LargeBlock? ==>
      p + s.zones[z].chunksize <= a * PAGE || (a + owned[a].npages) * PAGE <= p
    ensures Covers(runs, f) ==> p + s.zones[z].chunksize <= f * PAGE || f * PAGE + PAGE <= p
  {
    hide ListAt, NoRepeats, ChunkOf, UsageOk;
    assert ZoneAt(s, live, cnt, z);
    assert owned[z] == ZoneBlock && Disjoint(runs, Run(z, cnt));
    assert a in owned && owned[a].LargeBlock? ==> z + cnt <= a || a + owned[a].npages <= z;
    hide SlabOk, Covers, Owned;
    ChunkInZone(z, s.zones[z], i, cnt);
    assert z * PAGE <= p && p + s.zones[z].chunksize <= (z + cnt) * PAGE;
    if Covers(runs, f) { assert !In(Run(z, cnt), f); }
  }

  /** No zone of the index of `z` other than `z` itself has a free chunk. */
  ghost predicate Alone(s: Slab, z: nat)
    requires z in s.zones
  {
    forall w :: w in s.zones && s.zones[w].index == s.zones[z].index && s.zones[w].nfree > 0 ==> w == z
  }

  /** The test on the list of the zone: it is neither first nor last in it, or not alone in it. */
  lemma AloneInList(s: Slab, s': Slab, z: nat, i: nat)
    requires z in s.zones && s.zones[z].index < |s.lists| && s' == GiveBack(s, z, i)
    requires ListAt(s', s.zones[z].index) && z in s'.lists[s.zones[z].index]
    ensures var l := s'.lists[s.zones[z].index]; l[|l| - 1] == z && l[0] == z <==> Alone(s, z)
  {
    var l := s'.lists[s.zones[z].index];
    assert l[0] in l && l[|l| - 1] in l;
    if l[|l| - 1] == z && l[0] == z {
      assert |l| == 1;
      forall w | w in s.zones && s.zones[w].index == s.zones[z].index && s.zones[w].nfree > 0 ensures w == z {
        assert w in l;
      }
    }
  }

  /** Nowhere are `n` consecutive pages free. */
  ghost predicate NoPages(runs: seq<Run>, n: nat) {
    n == 0 || !exists p :: AllFree(runs, p, n)
  }

  /** No zone of the right index has a free chunk, none is kept back, and no new one can be had. */
  ghost predicate CannotServe(s: Slab, runs: seq<Run>, cnt: nat, zoneLimit: nat, size: nat) {
    if size >= zoneLimit then NoPages(runs, PagesFor(size))
    else ((forall z :: z in s.zones && s.zones[z].index == ZoneIndex(size).0 ==> s.zones[z].nfree == 0)
          && s.spare == [] && NoPages(runs, cnt))
  }

  lemma CannotServeSmall(s: Slab, owned: map<nat, Block>, live: map<nat, set<nat>>, runs: seq<Run>, cnt: nat,
                         zoneLimit: nat, size: nat)
    requires SlabOk(s, owned, live, cnt) && size < zoneLimit && 0 <= ZoneIndex(size).0 < NZONES
    ensures CannotServe(s, runs, cnt, zoneLimit, size) <==>
      s.lists[ZoneIndex(size).0] == [] && s.spare == [] && NoPages(runs, cnt)
  {
    hide NoRepeats, ZoneAt, UsageOk, NoPages, ZoneIndex;
    var zi: nat := ZoneIndex(size).0;
    assert ListAt(s, zi);
    if s.lists[zi] != [] { assert s.lists[zi][0] in s.lists[zi]; }
  }

  lemma ListCount(s: Slab, owned: map<nat, Block>, live: map<nat, set<nat>>, cnt: nat)
    requires SlabOk(s, owned, live, cnt)
    ensures |s.lists| == NZONES
  {
  }

  lemma CannotServeLarge(s: Slab, runs: seq<Run>, cnt: nat, zoneLimit: nat, size: nat)
    requires size >= zoneLimit
    ensures CannotServe(s, runs, cnt, zoneLimit, size) <==> NoPages(runs, PagesFor(size))
  {
  }

  lemma WholeRunIsFree(start: nat, npages: nat, k: nat)
    requires 0 < k <= npages
    ensures !NoPages([Run(start, npages)], k)
  {
    RunIffConsecutive([Run(start, npages)], k);
    assert [Run(start, npages)][0].n >= k;
  }

  lemma LargeUsageOk(s: Slab, owned: map<nat, Block>, live: map<nat, set<nat>>, cnt: nat, runs: seq<Run>, p: nat,
      n: nat)
    requires SlabOk(s, owned, live, cnt) && p !in owned && Owned(owned[p := LargeBlock(n)], cnt, runs)
    ensures SlabOk(s.(usage := s.usage[p := Large(n)]), owned[p := LargeBlock(n)], live, cnt)
  {
    LargeUsage(s.usage, owned, cnt, runs, p, n);
    hide ZoneAt, ListAt, NoRepeats, UsageOk;
    SameLists(s, live, cnt, s.spare, s.usage[p := Large(n)]);
  }

  lemma LargeUsage(usage: map<nat, Usage>, owned: map<nat, Block>, cnt: nat, runs: seq<Run>, p: nat, n: nat)
    requires UsageOk(usage, owned, cnt) && p !in owned && Owned(owned[p := LargeBlock(n)], cnt, runs)
    ensures UsageOk(usage[p := Large(n)], owned[p := LargeBlock(n)], cnt)
  {
    hide Disjoint;
    var owned' := owned[p := LargeBlock(n)];
    forall a | a in owned ensures a + Length(owned[a], cnt) <= p || p < a {
      assert a in owned' && p in owned' && owned'[p] == LargeBlock(n) && owned'[a] == owned[a];
    }
  }

  lemma ZoneIsOwned(s: Slab, owned: map<nat, Block>, live: map<nat, set<nat>>, cnt: nat, z: nat)
    requires SlabOk(s, owned, live, cnt) && z in s.zones
    ensures z in owned && owned[z] == ZoneBlock
  {
  }

  lemma FreshZoneShape(zoneSize: nat, zi: nat, size: nat)
    requires size > 0 && zoneSize >= RoundUp(HEADER, size) + size && zoneSize >= RoundUp(HEADER, MIN_CHUNK_SIZE) + size
    ensures var z := FreshZone(zoneSize, zi, size); z.index == zi && z.uindex == 0 && z.chunksize == size
  {
  }

  lemma ReadyIndex(zone: Zone, cnt: nat)
    requires ReadyZone(zone, cnt)
    ensures zone.index < NZONES
  {
  }

  lemma SlabUsage(s: Slab, owned: map<nat, Block>, live: map<nat, set<nat>>, cnt: nat)
    requires SlabOk(s, owned, live, cnt)
    ensures |s.lists| == NZONES && UsageOk(s.usage, owned, cnt)
    ensures forall z :: z in live ==> z in owned
  {
  }

  lemma SpareIsNotLive(s: Slab, owned: map<nat, Block>, live: map<nat, set<nat>>, cnt: nat)
    requires SlabOk(s, owned, live, cnt) && s.spare != []
    ensures s.spare[0] !in live && |s.lists| == NZONES
  {
    assert s.spare[0] in s.spare;
  }

  lemma OwnSame(owned: map<nat, Block>, cnt: nat, runs: seq<Run>, z: nat, b: Block)
    requires Owned(owned, cnt, runs) && z in owned && Length(owned[z], cnt) == Length(b, cnt)
    ensures Owned(owned[z := b], cnt, runs)
  {
  }

  lemma SpareIsApart(owned: map<nat, Block>, cnt: nat, runs: seq<Run>, z: nat)
    requires Owned(owned, cnt, runs) && z in owned && owned[z] == SpareBlock
    ensures cnt > 0 && Disjoint(runs, Run(z, cnt))
  {
  }

  lemma ListOf(s: Slab, owned: map<nat, Block>, live: map<nat, set<nat>>, cnt: nat, zi: nat)
    requires SlabOk(s, owned, live, cnt) && zi < |s.lists|
    ensures |s.lists| == NZONES && ListAt(s, zi)
  {
  }

  lemma EmptySlabOk(cnt: nat, runs: seq<Run>)
    ensures SlabOk(Slab(map[], seq(NZONES, _ => []), [], map[]), map[], map[], cnt) && Owned(map[], cnt, runs)
  {
  }

  /** What freeing chunk `i` of the zone at `z` does.  The zone is given up only when no chunk of it is live
      and another zone of its index has free chunks; at most two zones are kept back. */
  ghost predicate ChunkFreed(s: Slab, owned: map<nat, Block>, live: map<nat, set<nat>>, runs: seq<Run>, cnt: nat,
                             z: nat, i: nat, owned': map<nat, Block>, live': map<nat, set<nat>>, runs': seq<Run>)
    requires z in s.zones && z in live
  {
    if live[z] == {i} && !Alone(s, z) then (
      && live' == live - {z}
      && if |s.spare| < 2 then owned' == owned[z := SpareBlock] && runs' == runs
         else owned' == owned - {z} && Adds(runs, Run(z, cnt), runs')
    ) else live' == live[z := live[z] - {i}] && owned' == owned && runs' == runs
  }

  /** The usage entry tells large blocks from chunks. */
  lemma LiveUsage(s: Slab, owned: map<nat, Block>, live: map<nat, set<nat>>, cnt: nat, ptr: nat, z: nat, i: nat)
    requires SlabOk(s, owned, live, cnt) && (IsLarge(owned, ptr) || IsChunk(s, live, ptr, z, i))
    ensures ptr / PAGE in s.usage && (s.usage[ptr / PAGE].Large? <==> IsLarge(owned, ptr))
    ensures IsLarge(owned, ptr) ==> s.usage[ptr / PAGE] == Large(owned[ptr / PAGE].npages)
    ensures !IsLarge(owned, ptr) ==> IsChunk(s, live, ptr, z, i)
  {
    hide ListAt, NoRepeats, ZoneAt;
    if !IsLarge(owned, ptr) { ChunkIsFound(s, owned, live, cnt, ptr, z, i); }
  }

  lemma ClearLarge(s: Slab, owned: map<nat, Block>, live: map<nat, set<nat>>, cnt: nat, runs: seq<Run>, p: nat)
    requires SlabOk(s, owned, live, cnt) && Owned(owned, cnt, runs) && p in owned && owned[p].LargeBlock?
    ensures SlabOk(s.(usage := s.usage[p := Large(0)]), owned - {p}, live, cnt)
    ensures owned[p].npages > 0 && Disjoint(runs, Run(p, owned[p].npages))
  {
    hide ZoneAt, ListAt, NoRepeats, UsageOk;
    NoLargeUsage(s.usage, owned, cnt, runs, p);
    hide Disjoint;
    SameLists(s, live, cnt, s.spare, s.usage[p := Large(0)]);
  }

  lemma NoLargeUsage(usage: map<nat, Usage>, owned: map<nat, Block>, cnt: nat, runs: seq<Run>, p: nat)
    requires UsageOk(usage, owned, cnt) && Owned(owned, cnt, runs) && p in owned && owned[p].LargeBlock?
    ensures UsageOk(usage[p := Large(0)], owned - {p}, cnt)
  {
    hide Disjoint;
    forall a | a in owned - {p} ensures a + Length(owned[a], cnt) <= p || p < a {
    }
  }

  // ------------------------------------------------------------ the heap

  class SlabHeap {
    const pages: PageAllocator
    const cnt: nat                   // zone_page_cnt
    const zoneLimit: nat
    var s: Slab
    ghost var owned: map<nat, Block>
    ghost var live: map<nat, set<nat>>

    ghost predicate Valid()
      reads this, pages
    {
      && pages.Valid() && ZoneSizeOk(cnt * PAGE) && zoneLimit == ZoneLimit(cnt * PAGE)
      && SlabOk(s, owned, live, cnt) && Owned(owned, cnt, pages.runs) && |s.spare| <= 2
    }

    /** rt_system_heap_init on `npages` whole pages from page `start`. */
    constructor (start: nat, npages: nat)
      requires npages > 0
      ensures Valid() && fresh(pages) && owned == map[] && live == map[]
      // zones are 32 KB, doubled up to 128 KB while a doubled one is still below 1/1024 of the heap
      ensures (cnt == 8 || cnt == 16 || cnt == 32) && zoneLimit == if cnt == 8 then 8192 else 16384
      ensures (cnt > 8 ==> 1024 * cnt < npages) && (cnt < 32 ==> npages <= 2 * 1024 * cnt)
      ensures var k := (npages * MEMUSAGE_SIZE + PAGE - 1) / PAGE;
        Adds(pages.runs, Run(start, k), [Run(start, npages)]) && Disjoint(pages.runs, Run(start, k))
    {
      hide SlabOk, Owned, Adds, Disjoint, AllFree, Canonical, Chain, Covers;
      var zoneSize := ChooseZoneSize(npages * PAGE);
      pages := new PageAllocator();
      cnt := zoneSize / PAGE;
      zoneLimit := if zoneSize / 4 > ZALLOC_ZONE_LIMIT then ZALLOC_ZONE_LIMIT else zoneSize / 4;
      s := Slab(map[], seq(NZONES, _ => []), [], map[]);
      owned, live := map[], map[];
      new;
      pages.Init(start, npages);
      var k := (npages * MEMUSAGE_SIZE + PAGE - 1) / PAGE;
      WholeRunIsFree(start, npages, k);
      var b, _ := pages.Alloc(k);
      EmptySlabOk(cnt, pages.runs);
    }

    /** rt_malloc.  `z` and `i` are the zone and the index of a chunk handed out. */
    method Malloc(size: nat) returns (ptr: int, ghost z: nat, ghost i: nat)
      requires Valid() && size < U32
      modifies this, pages
      ensures Valid()
      ensures ptr == NIL ==> s == old(s) && owned == old(owned) && live == old(live) && pages.runs == old(pages.runs)
      ensures ptr == NIL <==> size == 0 || CannotServe(old(s), old(pages.runs), cnt, zoneLimit, size)
      ensures ptr != NIL && size < zoneLimit ==>
        && ptr >= 0 && IsChunk(s, live, ptr, z, i) && s.zones[z].chunksize >= size
        && s.zones[z].chunksize == ZoneIndex(size).1
        && live == old(live)[z := (if z in old(live) then old(live)[z] else {}) + {i}]
        && (z in old(live) ==> i !in old(live)[z])
        && owned == old(owned)[z := ZoneBlock]
      ensures ptr != NIL && size >= zoneLimit ==>
        && ptr >= 0 && IsLarge(owned, ptr) && ptr / PAGE !in old(owned)
        && size <= owned[ptr / PAGE].npages * PAGE < size + PAGE
        && owned == old(owned)[ptr / PAGE := owned[ptr / PAGE]] && live == old(live)
      ensures ptr != NIL ==> WellPlaced(ptr, size)
    {
      hide WellPlaced;
      hide SlabOk, Owned, Adds, Disjoint, AllFree, Canonical, Chain, Covers, ZoneOk, Fits, ReadyZone,
           ZoneIndex, PagesFor, CannotServe, IsChunk;
      z, i := 0, 0;
      if size == 0 {
        return NIL, z, i;
      }
      if size >= zoneLimit {
        CannotServeLarge(s, pages.runs, cnt, zoneLimit, size);
        ptr := MallocLarge(size);
        if ptr != NIL { PageIsWellPlaced(ptr, size); }
        return;
      }
      RequestFacts(size, cnt);
      CannotServeSmall(s, owned, live, pages.runs, cnt, zoneLimit, size);
      var (zi, chunk) := ZoneIndex(size);
      ListCount(s, owned, live, cnt);
      if s.lists[zi] != [] {
        ptr, z, i := TakeChunk(zi);
      } else {
        ptr, z, i := NewZone(zi, chunk);
        ghost var none: set<nat> := {};
        assert none + {i} == {i};
      }
      if ptr != NIL { ChunkIsWellPlaced(s, owned, live, cnt, ptr, z, i, size); }
    }

    /** The branch for large requests: whole pages. */
    method MallocLarge(size: nat) returns (ptr: int)
      requires Valid() && zoneLimit <= size < U32
      modifies this, pages
      ensures Valid()
      ensures ptr == NIL <==> NoPages(old(pages.runs), PagesFor(size))
      ensures ptr == NIL ==> s == old(s) && owned == old(owned) && live == old(live) && pages.runs == old(pages.runs)
      ensures ptr != NIL ==>
        && ptr >= 0 && ptr % PAGE == 0 && ptr / PAGE !in old(owned) && size <= PagesFor(size) * PAGE < size + PAGE
        && owned == old(owned)[ptr / PAGE := LargeBlock(PagesFor(size))] && live == old(live)
        && s == old(s).(usage := old(s).usage[ptr / PAGE := Large(PagesFor(size))])
    {
      hide SlabOk, Owned, Adds, Disjoint, AllFree, Canonical, Chain, Covers, PagesFor;
      PagesForMeaning(size);
      ghost var runs := pages.runs;
      var chunk, _ := pages.Alloc(PagesFor(size));
      if chunk == NIL {
        return NIL;
      }
      ghost var b := LargeBlock(PagesFor(size));
      OwnNew(owned, cnt, runs, pages.runs, chunk, b);
      LargeUsageOk(s, owned, live, cnt, pages.runs, chunk, PagesFor(size));
      s := s.(usage := s.usage[chunk := Large(PagesFor(size))]);
      owned := owned[chunk := b];
      ptr := chunk * PAGE;
    }

    /** A chunk out of the first zone of list `zi`. */
    method TakeChunk(zi: nat) returns (ptr: nat, ghost z: nat, ghost i: nat)
      requires Valid() && zi < NZONES && zi < |s.lists| && s.lists[zi] != []
      modifies this
      ensures Valid()
      ensures z in old(live) && i !in old(live)[z] && live == old(live)[z := old(live)[z] + {i}] && owned == old(owned)
      ensures z in owned && owned[z] == ZoneBlock && IsChunk(s, live, ptr, z, i) && s.zones[z].chunksize == ChunkOf(zi)
    {
      hide SlabOk, Owned, ZoneOk, ListAt, UsageOk, NoRepeats, ChunkOf, IsChunk, ChunkAddr, Canonical, Chain;
      TakeFromListOk(s, owned, live, cnt, zi);
      z := s.lists[zi][0];
      var h := s.lists[zi][0];
      ghost var taken := TakeFromList(s, zi);
      var zone := s.zones[h];
      zone := zone.(nfree := zone.nfree - 1);
      if zone.nfree == 0 {
        s := s.(lists := s.lists[zi := s.lists[zi][1..]]);
      }
      var chunk;
      if zone.uindex + 1 != zone.nmax {
        zone := zone.(uindex := zone.uindex + 1);
        chunk := zone.uindex;
      } else {
        chunk := zone.free[0];
        zone := zone.(free := zone.free[1..]);
      }
      s := s.(zones := s.zones[h := zone]);
      i := chunk;
      assert s == taken.0 && i == taken.2;
      ZoneIsOwned(s, owned, live[z := live[z] + {i}], cnt, z);
      live := live[z := live[z] + {i}];
      ptr := h * PAGE + zone.off + chunk * zone.chunksize;
      ChunkAt(s, live, h, chunk);
    }

    /** A new zone for chunks of `size` bytes: one kept back, or pages from the page allocator. */
    method NewZone(zi: nat, size: nat) returns (ptr: int, ghost z: nat, ghost i: nat)
      requires Valid() && zi < NZONES && 0 < size
      requires cnt * PAGE >= RoundUp(HEADER, size) + size && cnt * PAGE >= RoundUp(HEADER, MIN_CHUNK_SIZE) + size
      requires ReadyZone(FreshZone(cnt * PAGE, zi, size), cnt)
      modifies this, pages
      ensures Valid()
      ensures ptr == NIL ==> s == old(s) && owned == old(owned) && live == old(live) && pages.runs == old(pages.runs)
      ensures ptr == NIL <==> old(s).spare == [] && NoPages(old(pages.runs), cnt)
      ensures ptr != NIL ==>
        && ptr >= 0 && z !in old(live) && live == old(live)[z := {i}] && owned == old(owned)[z := ZoneBlock]
        && IsChunk(s, live, ptr, z, i) && s.zones[z].chunksize == size
    {
      hide SlabOk, Owned, Canonical, Chain, Covers, ZoneOk, ListAt, UsageOk, NoRepeats, ChunkOf, ReadyZone, FreshZone,
           RoundUp, AllFree, MarkPages;
      FreshZoneShape(cnt * PAGE, zi, size);
      var zone := FreshZone(cnt * PAGE, zi, size);
      z, i := 0, 0;
      var h;
      if s.spare != [] {
        h := ReuseZone(zone);
      } else {
        h := PagesForZone(zone);
        if h == NIL {
          return NIL, z, i;
        }
      }
      z := h;
      ptr := h * PAGE + zone.off + zone.uindex * size;
    }

    method ReuseZone(zone: Zone) returns (z: nat)
      requires Valid() && s.spare != [] && ReadyZone(zone, cnt)
      modifies this
      ensures Valid()
      ensures z !in old(live) && live == old(live)[z := {0}] && owned == old(owned)[z := ZoneBlock]
      ensures z in s.zones && s.zones[z] == zone
    {
      hide SlabOk, Owned, Canonical, Chain, Covers, ZoneOk, ListAt, UsageOk, NoRepeats, ReadyZone;
      ReuseSpareOk(s, owned, live, cnt, zone);
      SpareIsNotLive(s, owned, live, cnt);
      ReadyIndex(zone, cnt);
      OwnSame(owned, cnt, pages.runs, s.spare[0], ZoneBlock);
      z := s.spare[0];
      s := s.(spare := s.spare[1..]);
      s := s.(zones := s.zones[z := zone], lists := s.lists[zone.index := [z] + s.lists[zone.index]]);
      owned := owned[z := ZoneBlock];
      live := live[z := {0}];
    }

    method PagesForZone(zone: Zone) returns (p: int)
      requires Valid() && s.spare == [] && ReadyZone(zone, cnt)
      modifies this, pages
      ensures Valid()
      ensures p == NIL ==> s == old(s) && owned == old(owned) && live == old(live) && pages.runs == old(pages.runs)
      ensures p == NIL <==> NoPages(old(pages.runs), cnt)
      ensures p != NIL ==>
        && p >= 0 && p !in old(live) && live == old(live)[p := {0}] && owned == old(owned)[p := ZoneBlock]
        && p in s.zones && s.zones[p] == zone
    {
      hide SlabOk, Owned, Adds, Disjoint, AllFree, Canonical, Chain, Covers, ZoneOk, ListAt, UsageOk, NoRepeats,
           ReadyZone, MarkPages;
      ghost var runs := pages.runs;
      ghost var k;
      p, k := pages.Alloc(cnt);
      if p == NIL {
        return;
      }
      OwnNew(owned, cnt, runs, pages.runs, p, ZoneBlock);
      SlabUsage(s, owned, live, cnt);
      MarkUsage(s.usage, owned, cnt, p, pages.runs);
      AddZoneOk(s, owned, live, cnt, p, zone);
      ReadyIndex(zone, cnt);
      var u := MarkZone(s.usage, p, cnt);
      s := s.(usage := u);
      s := s.(zones := s.zones[p := zone], lists := s.lists[zone.index := [p] + s.lists[zone.index]]);
      owned := owned[p := ZoneBlock];
      live := live[p := {0}];
    }

    /** rt_free. */
    method Free(ptr: int, ghost z: nat, ghost i: nat)
      requires Valid()
      requires ptr != NIL ==> ptr >= 0 && (IsLarge(owned, ptr) || IsChunk(s, live, ptr, z, i))
      modifies this, pages
      ensures Valid()
      ensures ptr == NIL ==> s == old(s) && owned == old(owned) && live == old(live) && pages.runs == old(pages.runs)
      ensures ptr != NIL && old(IsLarge(owned, ptr)) ==>
        && owned == old(owned) - {ptr / PAGE} && live == old(live)
        && Adds(old(pages.runs), Run(ptr / PAGE, old(owned)[ptr / PAGE].npages), pages.runs)
      ensures ptr != NIL && !old(IsLarge(owned, ptr)) ==>
        ChunkFreed(old(s), old(owned), old(live), old(pages.runs), cnt, z, i, owned, live, pages.runs)
    {
      hide SlabOk, Owned, Canonical, Chain, Covers, ZoneOk, ListAt, UsageOk, NoRepeats, Adds, IsChunk, ChunkFreed;
      if ptr == NIL {
        return;
      }
      LiveUsage(s, owned, live, cnt, ptr, z, i);
      if s.usage[ptr / PAGE].Large? {
        var size := s.usage[ptr / PAGE].npages;
        ClearLarge(s, owned, live, cnt, pages.runs, ptr / PAGE);
        s := s.(usage := s.usage[ptr / PAGE := Large(0)]);
        ghost var runs := pages.runs;
        pages.Free(ptr / PAGE, size);
        OwnLess(owned, cnt, runs, pages.runs, ptr / PAGE);
        owned := owned - {ptr / PAGE};
      } else {
        FreeChunkAt(ptr, z, i);
      }
    }

    method FreeChunkAt(ptr: nat, ghost z: nat, ghost i: nat)
      requires Valid() && IsChunk(s, live, ptr, z, i)
      modifies this, pages
      ensures Valid()
      ensures ChunkFreed(old(s), old(owned), old(live), old(pages.runs), cnt, z, i, owned, live, pages.runs)
    {
      hide SlabOk, Owned, Canonical, Chain, Covers, ZoneOk, ListAt, UsageOk, NoRepeats, Adds, Alone, GiveBack;
      ChunkIsFound(s, owned, live, cnt, ptr, z, i);
      var h := ptr / PAGE - s.usage[ptr / PAGE].offset;
      var chunk := (ptr - h * PAGE - s.zones[h].off) / s.zones[h].chunksize;
      PutBack(h, chunk);
      var zi := s.zones[h].index;
      var list := s.lists[zi];
      if s.zones[h].nfree == s.zones[h].nmax && (list[|list| - 1] != h || list[0] != h) {
        GiveUpZone(h);
      }
    }

    /** The chunk goes to the head of the free list of its zone, and the zone to the head of its list if
        it had no free chunk before. */
    method PutBack(z: nat, i: nat)
      requires Valid() && z in s.zones && z in live && i in live[z]
      modifies this
      ensures Valid() && z in s.zones && s.zones[z].index < |s.lists| && z in s.lists[s.zones[z].index]
      ensures live == old(live)[z := old(live)[z] - {i}] && owned == old(owned) && s.spare == old(s).spare
      ensures s.zones[z].nfree == s.zones[z].nmax <==> old(live)[z] == {i}
      ensures var l := s.lists[s.zones[z].index]; l[|l| - 1] == z && l[0] == z <==> Alone(old(s), z)
    {
      hide SlabOk, Owned, Canonical, Chain, Covers, ZoneOk, ListAt, UsageOk, NoRepeats, Alone;
      GiveBackOk(s, owned, live, cnt, z, i);
      ghost var after := GiveBack(s, z, i);
      ListOf(after, owned, live[z := live[z] - {i}], cnt, s.zones[z].index);
      AloneInList(s, after, z, i);
      assert live[z] == {i} <==> live[z] - {i} == {};
      var zone := s.zones[z];
      s := s.(zones := s.zones[z := zone.(free := [i] + zone.free)]);
      s := s.(zones := s.zones[z := s.zones[z].(nfree := s.zones[z].nfree + 1)]);
      if s.zones[z].nfree == 1 {
        s := s.(lists := s.lists[zone.index := [z] + s.lists[zone.index]]);
      }
      assert s == after;
      live := live[z := live[z] - {i}];
    }

    /** A zone without live chunks is kept back, or returned to the page allocator when two are kept already. */
    method GiveUpZone(z: nat)
      requires Valid() && z in s.zones && z in live && live[z] == {} && s.zones[z].index < |s.lists|
      requires z in s.lists[s.zones[z].index]
      modifies this, pages
      ensures Valid() && live == old(live) - {z}
      ensures |old(s).spare| < 2 ==>
        owned == old(owned)[z := SpareBlock] && pages.runs == old(pages.runs)
      ensures |old(s).spare| >= 2 ==>
        owned == old(owned) - {z} && Adds(old(pages.runs), Run(z, cnt), pages.runs)
    {
      hide SlabOk, Owned, Canonical, Chain, Covers, ZoneOk, ListAt, UsageOk, NoRepeats, Adds, Disjoint, Without,
        ClearPages;
      RetireOk(s, owned, live, cnt, z);
      ZoneIsOwned(s, owned, live, cnt, z);
      OwnSame(owned, cnt, pages.runs, z, SpareBlock);
      var zi := s.zones[z].index;
      var list := UnlinkZone(s.lists[zi], z);
      s := s.(zones := s.zones - {z}, lists := s.lists[zi := list], spare := [z] + s.spare);
      live := live - {z};
      owned := owned[z := SpareBlock];
      if |s.spare| > ZONE_RELEASE_THRESH {
        DropSpareOk(s, owned, live, cnt, pages.runs);
        SpareIsApart(owned, cnt, pages.runs, z);
        var h := s.spare[0];
        var usage := ClearZone(s.usage, h, cnt);
        s := s.(spare := s.spare[1..], usage := usage);
        ghost var runs := pages.runs;
        pages.Free(h, cnt);
        OwnLess(owned, cnt, runs, pages.runs, z);
        owned := owned - {z};
      }
    }
  }
}
