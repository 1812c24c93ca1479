/** The zone allocator of slab.c: chunks of one size carved out of zones of pages. */
module SlabZones {
  import Bits
  import opened PageLists
  import opened Sequences
  import opened Words

  const PAGE: nat := 4096            // RT_MM_PAGE_SIZE
  const NZONES: nat := 72
  const HEADER: nat := 36            // sizeof(slab_zone)
  const MIN_CHUNK_SIZE: nat := 8
  const ZALLOC_MIN_ZONE_SIZE: nat := 32 * 1024
  const ZALLOC_MAX_ZONE_SIZE: nat := 128 * 1024
  const ZALLOC_ZONE_LIMIT: nat := 16 * 1024
  const ZONE_RELEASE_THRESH: nat := 2

  /** `(n + a - 1) & ~(a - 1)` for a power of two `a`. */
  function RoundUp(n: nat, a: nat): nat
    requires a > 0
  {
    (n + a - 1) / a * a
  }

  // ----------------------------------------------------------- zoneindex

  /** The zone index for a request, and the request rounded up to the chunk size of that zone. */
  function ZoneIndex(n: nat): (r: (int, nat)) {
    if n < 128 then var c := (n + 7) / 8 * 8; (c / 8 - 1, c)
    else if n < 256 then var c := (n + 15) / 16 * 16; (c / 16 + 7, c)
    else if n < 8192 then
      if n < 512 then var c := (n + 31) / 32 * 32; (c / 32 + 15, c)
      else if n < 1024 then var c := (n + 63) / 64 * 64; (c / 64 + 23, c)
      else if n < 2048 then var c := (n + 127) / 128 * 128; (c / 128 + 31, c)
      else if n < 4096 then var c := (n + 255) / 256 * 256; (c / 256 + 39, c)
      else var c := (n + 511) / 512 * 512; (c / 512 + 47, c)
    else if n < 16384 then var c := (n + 1023) / 1024 * 1024; (c / 1024 + 55, c)
    else (0, n)
  }

  /** The chunk size that belongs to a zone index. */
  function ChunkOf(zi: nat): nat {
    if zi < 16 then 8 * (zi + 1)
    else if zi < 24 then 16 * (zi - 7)
    else if zi < 32 then 32 * (zi - 15)
    else if zi < 40 then 64 * (zi - 23)
    else if zi < 48 then 128 * (zi - 31)
    else if zi < 56 then 256 * (zi - 39)
    else if zi < 64 then 512 * (zi - 47)
    else 1024 * (zi - 55)
  }

  // One lemma for each rounding step of the table: `q` is the number of steps in the chunk size.
  lemma Row8(n: nat) returns (q: nat)
    requires 1 <= n < 128
    ensures ZoneIndex(n) == (q - 1, 8 * q) && 1 <= q <= 16 && 8 * q - 8 < n <= 8 * q
  {
    q := (n + 7) / 8;
    assert q * 8 / 8 == q;
  }

  lemma Row16(n: nat) returns (q: nat)
    requires 128 <= n < 256
    ensures ZoneIndex(n) == (q + 7, 16 * q) && 8 <= q <= 16 && 16 * q - 16 < n <= 16 * q
  {
    q := (n + 15) / 16;
    assert q * 16 / 16 == q;
  }

  lemma Row32(n: nat) returns (q: nat)
    requires 256 <= n < 512
    ensures ZoneIndex(n) == (q + 15, 32 * q) && 8 <= q <= 16 && 32 * q - 32 < n <= 32 * q
  {
    q := (n + 31) / 32;
    assert q * 32 / 32 == q;
  }

  lemma Row64(n: nat) returns (q: nat)
    requires 512 <= n < 1024
    ensures ZoneIndex(n) == (q + 23, 64 * q) && 8 <= q <= 16 && 64 * q - 64 < n <= 64 * q
  {
    q := (n + 63) / 64;
    assert q * 64 / 64 == q;
  }

  lemma Row128(n: nat) returns (q: nat)
    requires 1024 <= n < 2048
    ensures ZoneIndex(n) == (q + 31, 128 * q) && 8 <= q <= 16 && 128 * q - 128 < n <= 128 * q
  {
    q := (n + 127) / 128;
    assert q * 128 / 128 == q;
  }

  lemma Row256(n: nat) returns (q: nat)
    requires 2048 <= n < 4096
    ensures ZoneIndex(n) == (q + 39, 256 * q) && 8 <= q <= 16 && 256 * q - 256 < n <= 256 * q
  {
    q := (n + 255) / 256;
    assert q * 256 / 256 == q;
  }

  lemma Row512(n: nat) returns (q: nat)
    requires 4096 <= n < 8192
    ensures ZoneIndex(n) == (q + 47, 512 * q) && 8 <= q <= 16 && 512 * q - 512 < n <= 512 * q
  {
    q := (n + 511) / 512;
    assert q * 512 / 512 == q;
  }

  lemma Row1024(n: nat) returns (q: nat)
    requires 8192 <= n < 16384
    ensures ZoneIndex(n) == (q + 55, 1024 * q) && 8 <= q <= 16 && 1024 * q - 1024 < n <= 1024 * q
  {
    q := (n + 1023) / 1024;
    assert q * 1024 / 1024 == q;
  }

  /** One chunk size per index: the index determines the size, whichever branch computed it, and chunk
      sizes that meet at the end of one branch and the start of the next share their index. */
  lemma ZoneIndexMeaning(n: nat)
    requires 0 < n < 16384
    ensures var (zi, c) := ZoneIndex(n);
      0 <= zi < NZONES && c == ChunkOf(zi) && n <= c <= 16384 && c % MIN_CHUNK_SIZE == 0
      && (n < 8192 ==> c <= 8192)
      && (n < 128 ==> c - n < 8) && (n >= 128 ==> 8 * (c - n) < n)
      && (zi > 0 ==> ChunkOf(zi - 1) < n)
  {
    hide ZoneIndex;
    if n < 128 { var q := Row8(n); }
    else if n < 256 { var q := Row16(n); }
    else if n < 512 { var q := Row32(n); }
    else if n < 1024 { var q := Row64(n); }
    else if n < 2048 { var q := Row128(n); }
    else if n < 4096 { var q := Row256(n); }
    else if n < 8192 { var q := Row512(n); }
    else { var q := Row1024(n); }
  }

  /** A request whose size is a power of two, 8 at least, gets chunks of that size. */
  lemma PowerRequest(n: nat, k: nat)
    requires 3 <= k && n == Bits.Pow2(k) && n < 16384
    ensures ZoneIndex(n).1 == n
  {
    assert Bits.Pow2(4) == 16;
    assert Bits.Pow2(8) == 256;
    assert Bits.Pow2(12) == 4096;
    if k > 12 { PowersAdd(k - 13, 13); PowerPositive(k - 13); }
  }

  lemma {:induction false} PowerPositive(k: nat)
    ensures Bits.Pow2(k) > 0
  {
    if k > 0 { PowerPositive(k - 1); }
  }

  lemma ChunkOfIncreases(i: nat, j: nat)
    requires i < j < NZONES
    ensures ChunkOf(i) < ChunkOf(j)
  {
  }

  /** A zone always serves the smallest chunk size of the table that is large enough. */
  lemma ZoneIndexIsTightest(n: nat, zi: nat)
    requires 0 < n < 16384 && zi < NZONES
    ensures n <= ChunkOf(zi) <==> ZoneIndex(n).0 <= zi
  {
    ZoneIndexMeaning(n);
    hide ZoneIndex;
    var z: nat := ZoneIndex(n).0;
    if zi < z {
      if zi < z - 1 { ChunkOfIncreases(zi, z - 1); }
    } else if z < zi {
      ChunkOfIncreases(z, zi);
    }
  }

  // ------------------------------------------------------------ one zone

  /** The zone header.  `free` is the list through the free chunks, as chunk indices. */
  datatype Zone = Zone(nfree: nat, nmax: nat, off: nat, uindex: nat, chunksize: nat, index: nat, free: seq<nat>)

  /** The live chunks, the free list and the never-used tail partition the indices 0..nmax-1. */
  ghost predicate ZoneOk(z: Zone, live: set<nat>) {
    && z.uindex < z.nmax && NoRepeats(z.free)
    && (forall i :: i in z.free ==> 0 <= i <= z.uindex && i !in live)
    && (forall i :: i in live ==> i <= z.uindex)
    && (forall i: nat :: i <= z.uindex ==> i in live || i in z.free)
    && z.nfree == (z.nmax - 1 - z.uindex) + |z.free|
  }

  function AllocChunk(z: Zone): (r: (Zone, nat))
    requires z.nfree > 0 && (z.uindex + 1 == z.nmax ==> z.free != [])
  {
    if z.uindex + 1 != z.nmax then (z.(nfree := z.nfree - 1, uindex := z.uindex + 1), z.uindex + 1)
    else (z.(nfree := z.nfree - 1, free := z.free[1..]), z.free[0])
  }

  function FreeChunk(z: Zone, i: nat): Zone {
    z.(nfree := z.nfree + 1, free := [i] + z.free)
  }

  /** A zone with free chunks hands out one that is not live; its list is never popped when empty. */
  lemma AllocChunkOk(z: Zone, live: set<nat>)
    requires ZoneOk(z, live) && z.nfree > 0
    ensures z.uindex + 1 == z.nmax ==> z.free != []
    ensures var (z', i) := AllocChunk(z);
      i !in live && i < z.nmax && ZoneOk(z', live + {i})
        && z' == z.(nfree := z.nfree - 1, uindex := z'.uindex, free := z'.free)
  {
    if z.uindex + 1 == z.nmax {
      assert z.free[0] in z.free;
      HeadGone(z.free);
      hide NoRepeats;
    }
  }

  /** A zone first hands out the chunks that were never used, from the lowest up; after that the one given back last. */
  lemma ReusedInOrder(z: Zone, live: set<nat>, i: nat)
    requires ZoneOk(z, live) && i in live
    ensures z.uindex + 1 == z.nmax ==> AllocChunk(FreeChunk(z, i)) == (z, i)
    ensures z.uindex + 1 < z.nmax ==>
      var k := AllocChunk(FreeChunk(z, i)).1;
      && (forall j: nat :: j in live || j in z.free ==> j < k)
      && (forall j: nat :: j < k ==> j in live || j in z.free)
  {
    hide NoRepeats;
    assert ([i] + z.free)[1..] == z.free;
  }

  lemma FreeChunkOk(z: Zone, live: set<nat>, i: nat)
    requires ZoneOk(z, live) && i in live
    ensures ZoneOk(FreeChunk(z, i), live - {i})
  {
  }

  /** nfree == nmax says precisely that no chunk is live. */
  lemma WholeIffNoneLive(z: Zone, live: set<nat>)
    requires ZoneOk(z, live)
    ensures z.nfree == z.nmax - |live|
    ensures z.nfree == z.nmax <==> live == {}
  {
    hide NoRepeats, Elements;
    NoRepeatsCard(z.free);
    SplitCard(live, Elements(z.free), z.uindex + 1);
    hide ZoneOk;
    assert |live| == 0 <==> live == {};
  }

  // ------------------------------------------------------------ geometry

  predicate IsPowerOfTwo(n: nat) {
    n == 1 || (n > 0 && n % 2 == 0 && IsPowerOfTwo(n / 2))
  }

  /** A fresh zone of `zoneSize` bytes for chunks of `size` bytes, its first chunk already handed out. */
  function FreshZone(zoneSize: nat, zi: nat, size: nat): Zone
    requires size > 0 && zoneSize >= RoundUp(HEADER, size) + size && zoneSize >= RoundUp(HEADER, MIN_CHUNK_SIZE) + size
  {
    var off := if IsPowerOfTwo(size) then RoundUp(HEADER, size) else RoundUp(HEADER, MIN_CHUNK_SIZE);
    var nmax := (zoneSize - off) / size;
    QuotientPositive(zoneSize - off, size);
    Zone(nmax - 1, nmax, off, 0, size, zi, [])
  }

  lemma QuotientPositive(m: nat, a: nat)
    requires a > 0 && m >= a
    ensures m / a >= 1 && m / a * a <= m
  {
  }

  lemma RoundUpBounds(n: nat, a: nat)
    requires a > 0
    ensures n <= RoundUp(n, a) < n + a
  {
    var m := n + a - 1;
    assert m == a * (m / a) + m % a;
    assert a * (m / a) == m / a * a;
  }

  /** Chunk `i` of the zone at page `p`. */
  function ChunkAddr(p: nat, z: Zone, i: nat): nat {
    p * PAGE + z.off + i * z.chunksize
  }

  /** All chunks lie inside the zone, behind its header. */
  ghost predicate Fits(z: Zone, zoneSize: nat) {
    z.chunksize > 0 && HEADER <= z.off && z.off + z.nmax * z.chunksize <= zoneSize
  }

  /** The page that holds the start of a chunk belongs to the zone of that chunk, and distinct chunks do not overlap. */
  lemma ChunkInZone(p: nat, z: Zone, i: nat, cnt: nat)
    requires Fits(z, cnt * PAGE) && i < z.nmax
    ensures p <= ChunkAddr(p, z, i) / PAGE < p + cnt
    ensures ChunkAddr(p, z, i) + z.chunksize <= (p + cnt) * PAGE
    ensures forall j :: i < j < z.nmax ==> ChunkAddr(p, z, i) + z.chunksize <= ChunkAddr(p, z, j)
  {
    MulLe(i + 1, z.nmax, z.chunksize);
    assert (i + 1) * z.chunksize == i * z.chunksize + z.chunksize;
    forall j | i < j < z.nmax ensures ChunkAddr(p, z, i) + z.chunksize <= ChunkAddr(p, z, j) {
      MulLe(i + 1, j, z.chunksize);
    }
  }

  // ----------------------------------------------------------- alignment

  /** Where the chunks of a zone start, and how far apart they are: both on multiples of 8 bytes, and chunks whose
      size is a power of two on multiples of their size. */
  ghost predicate Based(z: Zone) {
    && z.off % 8 == 0 && z.chunksize > 0 && z.chunksize % 8 == 0
    && forall k: nat :: z.chunksize == Bits.Pow2(k) ==> z.off % Bits.Pow2(k) == 0
  }

  /** The chunks fill the zone: they start at the first place behind the header that is aligned for them, and there is
      no room for one more at the end. */
  ghost predicate Packed(z: Zone, zoneSize: nat) {
    && 36 <= z.off < 36 + (if exists k: nat :: z.chunksize == Bits.Pow2(k) then z.chunksize else 8)
    && z.off + z.nmax * z.chunksize <= zoneSize < z.off + z.nmax * z.chunksize + z.chunksize
  }

  /** Where the chunks of a zone lie. */
  ghost predicate Laid(z: Zone, zoneSize: nat) {
    Fits(z, zoneSize) && Based(z) && Packed(z, zoneSize)
  }

  lemma LaidAlike(z: Zone, z': Zone, zoneSize: nat)
    requires Laid(z, zoneSize) && z'.off == z.off && z'.nmax == z.nmax && z'.chunksize == z.chunksize
    ensures Laid(z', zoneSize)
  {
  }

  lemma {:induction false} PowerOfTwoMeaning(n: nat) returns (k: nat)
    ensures IsPowerOfTwo(n) ==> n == Bits.Pow2(k)
    ensures forall j: nat :: n == Bits.Pow2(j) ==> IsPowerOfTwo(n)
  {
    forall j: nat | n == Bits.Pow2(j) ensures IsPowerOfTwo(n) { PowerIs(j); }
    k := 0;
    if n > 1 && IsPowerOfTwo(n) {
      k := PowerOfTwoMeaning(n / 2);
      k := k + 1;
    }
  }

  lemma {:induction false} PowerIs(k: nat)
    ensures IsPowerOfTwo(Bits.Pow2(k))
  {
    if k > 0 { PowerIs(k - 1); }
  }

  lemma RoundUpDivides(n: nat, a: nat)
    requires a > 0
    ensures RoundUp(n, a) % a == 0
  {
    MultipleOf((n + a - 1) / a, a);
  }

  lemma {:induction false} PowersAdd(j: nat, k: nat)
    ensures Bits.Pow2(j + k) == Bits.Pow2(j) * Bits.Pow2(k)
  {
    if j > 0 { PowersAdd(j - 1, k); }
  }

  /** The address of a chunk is a multiple of 8, and of its size if that is a power of two up to a page; above that it
      is a multiple of the page size. */
  lemma ChunkIsAligned(p: nat, z: Zone, i: nat)
    requires Based(z)
    ensures ChunkAddr(p, z, i) % 8 == 0
    ensures forall k: nat :: z.chunksize == Bits.Pow2(k) && k <= 12 ==> ChunkAddr(p, z, i) % Bits.Pow2(k) == 0
    ensures forall k: nat :: z.chunksize == Bits.Pow2(k) && k >= 12 ==> ChunkAddr(p, z, i) % 4096 == 0
  {
    Aligned(p, z, i, 8, 512, z.chunksize / 8);
    hide ChunkAddr, Bits.Pow2;
    forall k: nat | z.chunksize == Bits.Pow2(k) && k <= 12 ensures ChunkAddr(p, z, i) % Bits.Pow2(k) == 0 {
      SmallPower(p, z, i, k);
    }
    forall k: nat | z.chunksize == Bits.Pow2(k) && k >= 12 ensures ChunkAddr(p, z, i) % 4096 == 0 {
      LargePower(p, z, i, k);
    }
  }

  lemma SmallPower(p: nat, z: Zone, i: nat, k: nat)
    requires Based(z) && z.chunksize == Bits.Pow2(k) && k <= 12
    ensures ChunkAddr(p, z, i) % Bits.Pow2(k) == 0
  {
    hide ChunkAddr;
    PowersAdd(12 - k, k);
    PowerOfPage();
    hide Bits.Pow2;
    Aligned(p, z, i, z.chunksize, Bits.Pow2(12 - k), 1);
  }

  lemma LargePower(p: nat, z: Zone, i: nat, k: nat)
    requires Based(z) && z.chunksize == Bits.Pow2(k) && k >= 12
    ensures ChunkAddr(p, z, i) % 4096 == 0
  {
    hide ChunkAddr;
    PowersAdd(k - 12, 12);
    PowerOfPage();
    assert z.off % z.chunksize == 0;
    hide Bits.Pow2;
    MultipleOfMultiple(z.off, Bits.Pow2(k - 12), 4096);
    Aligned(p, z, i, 4096, 1, Bits.Pow2(k - 12));
  }

  /** Above a page the alignment is that of the zone: the chunk is on a multiple of its size exactly if the zone is. */
  lemma BigChunkAlignment(p: nat, z: Zone, i: nat, k: nat)
    requires Based(z) && z.chunksize == Bits.Pow2(k)
    ensures ChunkAddr(p, z, i) % Bits.Pow2(k) == 0 <==> p * 4096 % Bits.Pow2(k) == 0
  {
    assert z.off % Bits.Pow2(k) == 0;
    hide Bits.Pow2;
    var c := z.chunksize;
    MultipleOf(i, c);
    AddMultiple(z.off, i * c, c);
    if p * 4096 % c == 0 { AddMultiple(p * 4096, z.off + i * c, c); }
    if ChunkAddr(p, z, i) % c == 0 { TakeMultiple(p * 4096, z.off + i * c, c); }
  }

  lemma Aligned(p: nat, z: Zone, i: nat, a: nat, m: nat, c: nat)
    requires a > 0 && PAGE == m * a && z.chunksize == c * a && z.off % a == 0
    ensures ChunkAddr(p, z, i) % a == 0
  {
    assert p * PAGE == p * m * a && i * z.chunksize == i * c * a;
    MultipleOf(p * m, a);
    MultipleOf(i * c, a);
    AddMultiple(p * PAGE, z.off, a);
    AddMultiple(p * PAGE + z.off, i * z.chunksize, a);
  }

  lemma PowerOfPage()
    ensures Bits.Pow2(12) == 4096
  {
    assert Bits.Pow2(4) == 16;
    assert Bits.Pow2(8) == 256;
  }

  /** The offset computed for a fresh zone. */
  lemma FreshZoneIsBased(zoneSize: nat, zi: nat, size: nat)
    requires size > 0 && zoneSize >= RoundUp(HEADER, size) + size && zoneSize >= RoundUp(HEADER, MIN_CHUNK_SIZE) + size
    requires size % 8 == 0
    ensures Based(FreshZone(zoneSize, zi, size))
  {
    RoundUpDivides(HEADER, size);
    RoundUpDivides(HEADER, MIN_CHUNK_SIZE);
    var z := FreshZone(zoneSize, zi, size);
    var j := PowerOfTwoMeaning(size);
    if IsPowerOfTwo(size) {
      MultipleOfMultiple(z.off, size / 8, 8);
    }
    hide RoundUp, IsPowerOfTwo;
  }

  /** A zone of 64 KB at page 1: the first of its chunks of 8192 bytes is on no multiple of 8192. */
  lemma BigChunkExample()
    ensures 8192 == Bits.Pow2(13) && RoundUp(HEADER, 8192) == 8192 && RoundUp(HEADER, MIN_CHUNK_SIZE) == 40
    ensures var z := FreshZone(65536, 63, 8192);
      z.chunksize == 8192 && ZoneIndex(8192) == (63, 8192) && ChunkAddr(1, z, 0) == 12288 && 12288 % 8192 == 4096
  {
    PowerOfPage();
    assert Bits.Pow2(13) == 2 * Bits.Pow2(12);
    PowerIs(13);
    hide Bits.Pow2, IsPowerOfTwo;
  }

  lemma FreshZoneIsPacked(zoneSize: nat, zi: nat, size: nat)
    requires size > 0 && zoneSize >= RoundUp(HEADER, size) + size && zoneSize >= RoundUp(HEADER, MIN_CHUNK_SIZE) + size
    ensures Packed(FreshZone(zoneSize, zi, size), zoneSize)
  {
    RoundUpBounds(HEADER, size);
    RoundUpBounds(HEADER, MIN_CHUNK_SIZE);
    var z := FreshZone(zoneSize, zi, size);
    var k := PowerOfTwoMeaning(size);
    hide IsPowerOfTwo;
    var m := zoneSize - z.off;
    assert m == size * (m / size) + m % size;
    assert size * (m / size) == m / size * size;
  }

  /** A fresh zone for chunks of at most a quarter of its size has at least two of them. */
  lemma FreshZoneFacts(zoneSize: nat, zi: nat, size: nat)
    requires zoneSize >= ZALLOC_MIN_ZONE_SIZE && 0 < size && 4 * size <= zoneSize
    ensures zoneSize >= RoundUp(HEADER, size) + size && zoneSize >= RoundUp(HEADER, MIN_CHUNK_SIZE) + size
    ensures var z := FreshZone(zoneSize, zi, size);
      Fits(z, zoneSize) && z.nmax >= 2 && z.nfree == z.nmax - 1 && ZoneOk(z, {0}) && z.chunksize == size
        && z.index == zi
  {
    RoundUpBounds(HEADER, size);
    RoundUpBounds(HEADER, MIN_CHUNK_SIZE);
    var off := if IsPowerOfTwo(size) then RoundUp(HEADER, size) else RoundUp(HEADER, MIN_CHUNK_SIZE);
    QuotientPositive(zoneSize - off, size);
    AtLeastTwo(zoneSize - off, size);
  }

  lemma AtLeastTwo(m: nat, a: nat)
    requires a > 0 && m >= 2 * a
    ensures m / a >= 2
  {
    assert m == a * (m / a) + m % a;
  }

  // ------------------------------------------------------ the whole slab

  datatype Usage = Free | Small(offset: nat) | Large(npages: nat)

  /** What an owned range of pages is used for. */
  datatype Block = ZoneBlock | SpareBlock | LargeBlock(npages: nat)

  /** The zone headers by page, the lists of zones with free chunks (one per index), the list of whole
      zones kept back, and the per-page usage table. */
  datatype Slab = Slab(zones: map<nat, Zone>, lists: seq<seq<nat>>, spare: seq<nat>, usage: map<nat, Usage>)

  ghost function Length(b: Block, cnt: nat): nat {
    if b.LargeBlock? then b.npages else cnt
  }

  /** The page ranges handed out are disjoint from each other and from the free runs. */
  ghost predicate Owned(owned: map<nat, Block>, cnt: nat, runs: seq<Run>) {
    && (forall a :: a in owned ==> Length(owned[a], cnt) > 0 && Disjoint(runs, Run(a, Length(owned[a], cnt))))
    && (forall a, b :: a in owned && b in owned && a < b ==> a + Length(owned[a], cnt) <= b)
  }

  /** The usage table describes every owned range. */
  ghost predicate UsageOk(usage: map<nat, Usage>, owned: map<nat, Block>, cnt: nat) {
    && (forall a :: a in owned && owned[a].LargeBlock? ==> a in usage && usage[a] == Large(owned[a].npages))
    && (forall a, p: nat :: a in owned && !owned[a].LargeBlock? && a <= p < a + cnt ==>
        p in usage && usage[p] == Small(p - a))
  }

  ghost predicate ZoneAt(s: Slab, live: map<nat, set<nat>>, cnt: nat, z: nat)
    requires z in s.zones
  {
    && z in live && ZoneOk(s.zones[z], live[z]) && Laid(s.zones[z], cnt * PAGE)
    && s.zones[z].index < NZONES && s.zones[z].chunksize == ChunkOf(s.zones[z].index) && s.zones[z].nmax >= 2
  }

  /** The list of index `zi` holds exactly the zones of that index that have free chunks, each once. */
  ghost predicate ListAt(s: Slab, zi: nat)
    requires zi < |s.lists|
  {
    && NoRepeats(s.lists[zi])
    && forall z: nat :: z in s.lists[zi] <==> z in s.zones && s.zones[z].index == zi && s.zones[z].nfree > 0
  }

  ghost predicate SlabOk(s: Slab, owned: map<nat, Block>, live: map<nat, set<nat>>, cnt: nat) {
    && |s.lists| == NZONES
    && (forall z :: z in s.zones ==> ZoneAt(s, live, cnt, z))
    && (forall zi: nat | zi < NZONES :: ListAt(s, zi))
    && NoRepeats(s.spare)
    && (forall a :: a in s.zones <==> a in owned && owned[a] == ZoneBlock)
    && (forall a: nat :: a in s.spare <==> a in owned && owned[a] == SpareBlock)
    && (forall z :: z in live ==> z in s.zones)
    && UsageOk(s.usage, owned, cnt)
  }

  // ---------------------------------------------------- the usage table

  /** `usage` with the pages `z + off .. z + cnt` marked as pages of the zone at `z`. */
  function MarkPages(usage: map<nat, Usage>, z: nat, off: nat, cnt: nat): map<nat, Usage>
    requires off <= cnt
    decreases cnt - off
  {
    if off == cnt then usage else MarkPages(usage[z + off := Small(off)], z, off + 1, cnt)
  }

  function ClearPages(usage: map<nat, Usage>, z: nat, off: nat, cnt: nat): map<nat, Usage>
    requires off <= cnt
    decreases cnt - off
  {
    if off == cnt then usage else ClearPages(usage[z + off := Free], z, off + 1, cnt)
  }

  lemma {:induction false} MarkPagesAt(usage: map<nat, Usage>, z: nat, off: nat, cnt: nat, p: nat)
    requires off <= cnt
    ensures z + off <= p < z + cnt ==>
      p in MarkPages(usage, z, off, cnt) && MarkPages(usage, z, off, cnt)[p] == Small(p - z)
    ensures !(z + off <= p < z + cnt) && p in usage ==>
      p in MarkPages(usage, z, off, cnt) && MarkPages(usage, z, off, cnt)[p] == usage[p]
    decreases cnt - off
  {
    if off < cnt { MarkPagesAt(usage[z + off := Small(off)], z, off + 1, cnt, p); }
  }

  lemma {:induction false} ClearPagesAt(usage: map<nat, Usage>, z: nat, off: nat, cnt: nat, p: nat)
    requires off <= cnt
    ensures z + off <= p < z + cnt ==> p in ClearPages(usage, z, off, cnt) && ClearPages(usage, z, off, cnt)[p] == Free
    ensures !(z + off <= p < z + cnt) && p in usage ==>
      p in ClearPages(usage, z, off, cnt) && ClearPages(usage, z, off, cnt)[p] == usage[p]
    decreases cnt - off
  {
    if off < cnt { ClearPagesAt(usage[z + off := Free], z, off + 1, cnt, p); }
  }

  // ----------------------------------------------------------- the steps

  /** A chunk out of the first zone of list `zi`. */
  function TakeFromList(s: Slab, zi: nat): (r: (Slab, nat, nat))
    requires zi < |s.lists| && s.lists[zi] != [] && s.lists[zi][0] in s.zones
    requires s.zones[s.lists[zi][0]].nfree > 0
    requires var z := s.zones[s.lists[zi][0]]; z.uindex + 1 == z.nmax ==> z.free != []
  {
    var z := s.lists[zi][0];
    var (z', i) := AllocChunk(s.zones[z]);
    (s.(zones := s.zones[z := z'],
        lists := if z'.nfree == 0 then s.lists[zi := s.lists[zi][1..]] else s.lists), z, i)
  }

  lemma ListElement(s: Slab, zi: nat, z: nat)
    requires zi < |s.lists| && ListAt(s, zi) && z in s.lists[zi]
    ensures z in s.zones && s.zones[z].index == zi && s.zones[z].nfree > 0
  {
  }

  lemma TakeFromListOk(s: Slab, owned: map<nat, Block>, live: map<nat, set<nat>>, cnt: nat, zi: nat)
    requires SlabOk(s, owned, live, cnt) && zi < NZONES && s.lists[zi] != []
    ensures s.lists[zi][0] in s.zones && s.zones[s.lists[zi][0]].nfree > 0 && s.zones[s.lists[zi][0]].index == zi
    ensures var z := s.zones[s.lists[zi][0]]; z.uindex + 1 == z.nmax ==> z.free != []
    ensures var (s', z, i) := TakeFromList(s, zi);
      z in live && i !in live[z] && SlabOk(s', owned, live[z := live[z] + {i}], cnt)
      && s'.zones[z].chunksize == s.zones[z].chunksize == ChunkOf(zi) && s'.zones[z].off == s.zones[z].off
  {
    hide ZoneOk, UsageOk, NoRepeats;
    var z := s.lists[zi][0];
    assert ListAt(s, zi);
    ListElement(s, zi, z);
    assert ZoneAt(s, live, cnt, z);
    AllocChunkOk(s.zones[z], live[z]);
    var (s', _, i) := TakeFromList(s, zi);
    LaidAlike(s.zones[z], s'.zones[z], cnt * PAGE);
    hide AllocChunk, Laid;
    var live' := live[z := live[z] + {i}];
    forall w | w in s'.zones ensures ZoneAt(s', live', cnt, w) {
      assert ZoneAt(s, live, cnt, w);
    }
    forall k: nat | k < NZONES ensures ListAt(s', k) {
      assert ListAt(s, k);
      if k == zi && s'.zones[z].nfree == 0 { HeadGone(s.lists[zi]); }
    }
  }

  /** A zone for chunks of `size` bytes set up at page `z`; its first chunk is handed out. */
  function AddZone(s: Slab, z: nat, zone: Zone): Slab
    requires zone.index < |s.lists|
  {
    s.(zones := s.zones[z := zone], lists := s.lists[zone.index := [z] + s.lists[zone.index]])
  }

  /** A zone ready to be added: not empty, its first chunk live. */
  ghost predicate ReadyZone(zone: Zone, cnt: nat) {
    && ZoneOk(zone, {0}) && Laid(zone, cnt * PAGE) && zone.index < NZONES && zone.chunksize == ChunkOf(zone.index)
    && zone.nmax >= 2 && zone.nfree > 0
  }

  lemma AddedLists(s: Slab, live: map<nat, set<nat>>, cnt: nat, z: nat, zone: Zone)
    requires |s.lists| == NZONES && z !in s.zones && ReadyZone(zone, cnt)
    requires forall z :: z in s.zones ==> ZoneAt(s, live, cnt, z)
    requires forall zi: nat | zi < NZONES :: ListAt(s, zi)
    ensures zone.index < NZONES
    ensures var s' := AddZone(s, z, zone);
      && (forall w :: w in s'.zones ==> ZoneAt(s', live[z := {0}], cnt, w))
      && (forall k: nat | k < NZONES :: ListAt(s', k))
  {
    hide ZoneOk, Laid;
    var s' := AddZone(s, z, zone);
    forall w | w in s'.zones ensures ZoneAt(s', live[z := {0}], cnt, w) {
      if w != z { assert ZoneAt(s, live, cnt, w); }
    }
    forall k: nat | k < NZONES ensures ListAt(s', k) {
      assert ListAt(s, k);
    }
  }

  lemma AddZoneShape(s: Slab, z: nat, zone: Zone, usage: map<nat, Usage>)
    requires zone.index < |s.lists|
    ensures AddZone(s.(usage := usage), z, zone) == AddZone(s, z, zone).(usage := usage)
    ensures AddZone(s, z, zone).spare == s.spare && |AddZone(s, z, zone).lists| == |s.lists|
    ensures AddZone(s, z, zone).zones == s.zones[z := zone]
  {
  }

  lemma AddZoneOk(s: Slab, owned: map<nat, Block>, live: map<nat, set<nat>>, cnt: nat, z: nat, zone: Zone)
    requires SlabOk(s, owned, live, cnt) && z !in owned && ReadyZone(zone, cnt)
    requires UsageOk(MarkPages(s.usage, z, 0, cnt), owned[z := ZoneBlock], cnt)
    ensures SlabOk(AddZone(s.(usage := MarkPages(s.usage, z, 0, cnt)), z, zone), owned[z := ZoneBlock],
      live[z := {0}], cnt)
  {
    hide ZoneAt, ListAt, UsageOk, NoRepeats, ReadyZone, AddZone;
    AddedLists(s, live, cnt, z, zone);
    AddZoneShape(s, z, zone, MarkPages(s.usage, z, 0, cnt));
    SameLists(AddZone(s, z, zone), live[z := {0}], cnt, s.spare, MarkPages(s.usage, z, 0, cnt));
  }

  /** The spare list and the usage table do not matter to the zones and their lists. */
  lemma SameLists(s: Slab, live: map<nat, set<nat>>, cnt: nat, spare: seq<nat>, usage: map<nat, Usage>)
    requires |s.lists| == NZONES
    requires forall z :: z in s.zones ==> ZoneAt(s, live, cnt, z)
    requires forall zi: nat | zi < NZONES :: ListAt(s, zi)
    ensures var s' := s.(spare := spare, usage := usage);
      && (forall z :: z in s'.zones ==> ZoneAt(s', live, cnt, z))
      && (forall zi: nat | zi < NZONES :: ListAt(s', zi))
  {
    var s' := s.(spare := spare, usage := usage);
    forall z | z in s'.zones ensures ZoneAt(s', live, cnt, z) { assert ZoneAt(s, live, cnt, z); }
    forall zi: nat | zi < NZONES ensures ListAt(s', zi) { assert ListAt(s, zi); }
  }

  lemma ReuseSpareOk(s: Slab, owned: map<nat, Block>, live: map<nat, set<nat>>, cnt: nat, zone: Zone)
    requires SlabOk(s, owned, live, cnt) && s.spare != [] && ReadyZone(zone, cnt)
    ensures s.spare[0] in owned && owned[s.spare[0]] == SpareBlock
    ensures SlabOk(AddZone(s.(spare := s.spare[1..]), s.spare[0], zone), owned[s.spare[0] := ZoneBlock],
                   live[s.spare[0] := {0}], cnt)
  {
    hide ZoneAt, ListAt, UsageOk, NoRepeats, ReadyZone;
    var z := s.spare[0];
    assert z in s.spare;
    AddedLists(s, live, cnt, z, zone);
    HeadGone(s.spare);
    UsageKind(s.usage, owned, cnt, z, ZoneBlock);
    SameLists(AddZone(s, z, zone), live[z := {0}], cnt, s.spare[1..], s.usage);
  }

  lemma UsageKind(usage: map<nat, Usage>, owned: map<nat, Block>, cnt: nat, z: nat, b: Block)
    requires UsageOk(usage, owned, cnt) && z in owned && !owned[z].LargeBlock? && !b.LargeBlock?
    ensures UsageOk(usage, owned[z := b], cnt)
  {
  }

  /** Chunk `i` of zone `z` goes back. */
  function GiveBack(s: Slab, z: nat, i: nat): Slab
    requires z in s.zones && s.zones[z].index < |s.lists|
  {
    var zi := s.zones[z].index;
    s.(zones := s.zones[z := FreeChunk(s.zones[z], i)],
       lists := if s.zones[z].nfree == 0 then s.lists[zi := [z] + s.lists[zi]] else s.lists)
  }

  lemma GiveBackOk(s: Slab, owned: map<nat, Block>, live: map<nat, set<nat>>, cnt: nat, z: nat, i: nat)
    requires SlabOk(s, owned, live, cnt) && z in s.zones && z in live && i in live[z]
    ensures s.zones[z].index < |s.lists|
    ensures var s' := GiveBack(s, z, i);
      var live' := live[z := live[z] - {i}];
      && SlabOk(s', owned, live', cnt)
      && z in s'.lists[s.zones[z].index]
      && (s'.zones[z].nfree == s'.zones[z].nmax <==> live'[z] == {})
  {
    hide UsageOk, NoRepeats;
    assert ZoneAt(s, live, cnt, z);
    FreeChunkOk(s.zones[z], live[z], i);
    WholeIffNoneLive(FreeChunk(s.zones[z], i), live[z] - {i});
    var s' := GiveBack(s, z, i);
    LaidAlike(s.zones[z], s'.zones[z], cnt * PAGE);
    hide ZoneOk, Laid;
    var live' := live[z := live[z] - {i}];
    forall w | w in s'.zones ensures ZoneAt(s', live', cnt, w) {
      assert ZoneAt(s, live, cnt, w);
    }
    forall k: nat | k < NZONES ensures ListAt(s', k) {
      assert ListAt(s, k);
      PushedList(s.lists[k], z);
    }
    assert ListAt(s', s.zones[z].index);
  }

  /** When every chunk of a zone was live, giving one back and taking a chunk of that index undo each other, lists and
      all: the zone that came to have a free chunk last is the first to be used. */
  lemma GiveThenTake(s: Slab, owned: map<nat, Block>, live: map<nat, set<nat>>, cnt: nat, z: nat, i: nat)
    requires SlabOk(s, owned, live, cnt) && z in s.zones && z in live && i in live[z] && s.zones[z].nfree == 0
    ensures var zi := s.zones[z].index;
      && zi < |s.lists|
      && var r := GiveBack(s, z, i);
      && zi < |r.lists| && r.lists[zi] != [] && r.lists[zi][0] == z && z in r.zones && r.zones[z].nfree > 0
      && (r.zones[z].uindex + 1 == r.zones[z].nmax ==> r.zones[z].free != [])
      && TakeFromList(r, zi) == (s, z, i)
  {
    assert ZoneAt(s, live, cnt, z);
    assert ListAt(s, s.zones[z].index);
    ReusedInOrder(s.zones[z], live[z], i);
    hide SlabOk, NoRepeats, UsageOk, Laid, ZoneOk;
    var zi, r := s.zones[z].index, GiveBack(s, z, i);
    assert r.lists[zi][1..] == s.lists[zi];
    assert r.lists[zi := s.lists[zi]] == s.lists;
    assert r.zones[z := s.zones[z]] == s.zones;
  }

  /** A zone none of whose chunks is live leaves its list and is kept back. */
  function Retire(s: Slab, z: nat): Slab
    requires z in s.zones && s.zones[z].index < |s.lists|
  {
    var zi := s.zones[z].index;
    s.(zones := s.zones - {z}, lists := s.lists[zi := Without(s.lists[zi], z)], spare := [z] + s.spare)
  }

  lemma RetiredLists(s: Slab, live: map<nat, set<nat>>, cnt: nat, z: nat)
    requires |s.lists| == NZONES && z in s.zones && s.zones[z].index < NZONES
    requires forall z :: z in s.zones ==> ZoneAt(s, live, cnt, z)
    requires forall zi: nat | zi < NZONES :: ListAt(s, zi)
    ensures var s' := Retire(s, z);
      && (forall w :: w in s'.zones ==> ZoneAt(s', live - {z}, cnt, w))
      && (forall k: nat | k < NZONES :: ListAt(s', k))
  {
    assert ListAt(s, s.zones[z].index);
    WithoutFacts(s.lists[s.zones[z].index], z);
    hide ZoneOk, Without, NoRepeats, ChunkOf, Laid;
    var s' := Retire(s, z);
    forall w | w in s'.zones ensures ZoneAt(s', live - {z}, cnt, w) {
      assert ZoneAt(s, live, cnt, w);
    }
    forall k: nat | k < NZONES ensures ListAt(s', k) {
      assert ListAt(s, k);
    }
  }

  lemma RetireOk(s: Slab, owned: map<nat, Block>, live: map<nat, set<nat>>, cnt: nat, z: nat)
    requires SlabOk(s, owned, live, cnt) && z in s.zones
    ensures s.zones[z].index < |s.lists|
    ensures SlabOk(Retire(s, z), owned[z := SpareBlock], live - {z}, cnt)
  {
    assert ZoneAt(s, live, cnt, z);
    UsageKind(s.usage, owned, cnt, z, SpareBlock);
    PushedList(s.spare, z);
    RetiredLists(s, live, cnt, z);
    hide ZoneAt, ListAt, UsageOk, NoRepeats;
    assert z !in s.spare;
  }

  /** The first zone kept back goes back to the page allocator. */
  function DropSpare(s: Slab, cnt: nat): Slab
    requires s.spare != []
  {
    s.(spare := s.spare[1..], usage := ClearPages(s.usage, s.spare[0], 0, cnt))
  }

  lemma DropSpareOk(s: Slab, owned: map<nat, Block>, live: map<nat, set<nat>>, cnt: nat, runs: seq<Run>)
    requires SlabOk(s, owned, live, cnt) && s.spare != [] && Owned(owned, cnt, runs)
    ensures s.spare[0] in owned && owned[s.spare[0]] == SpareBlock
    ensures SlabOk(DropSpare(s, cnt), owned - {s.spare[0]}, live, cnt)
  {
    var z := s.spare[0];
    assert z in s.spare;
    HeadGone(s.spare);
    ClearUsage(s.usage, owned, cnt, z, runs);
    hide ZoneAt, ListAt, UsageOk, NoRepeats, ClearPages;
    SameLists(s, live, cnt, s.spare[1..], ClearPages(s.usage, z, 0, cnt));
  }

  lemma ClearUsage(usage: map<nat, Usage>, owned: map<nat, Block>, cnt: nat, z: nat, runs: seq<Run>)
    requires UsageOk(usage, owned, cnt) && Owned(owned, cnt, runs) && z in owned && !owned[z].LargeBlock?
    ensures UsageOk(ClearPages(usage, z, 0, cnt), owned - {z}, cnt)
  {
    forall p: nat | p in usage && !(z <= p < z + cnt)
      ensures p in ClearPages(usage, z, 0, cnt) && ClearPages(usage, z, 0, cnt)[p] == usage[p]
    {
      ClearPagesAt(usage, z, 0, cnt, p);
    }
    hide ClearPages;
    forall a | a in owned - {z} ensures a + Length(owned[a], cnt) <= z || z + cnt <= a {
    }
  }

  lemma MarkUsage(usage: map<nat, Usage>, owned: map<nat, Block>, cnt: nat, z: nat, runs: seq<Run>)
    requires UsageOk(usage, owned, cnt) && z !in owned && Owned(owned[z := ZoneBlock], cnt, runs)
    ensures UsageOk(MarkPages(usage, z, 0, cnt), owned[z := ZoneBlock], cnt)
  {
    forall p: nat
      ensures z <= p < z + cnt ==> p in MarkPages(usage, z, 0, cnt) && MarkPages(usage, z, 0, cnt)[p] == Small(p - z)
      ensures p in usage && !(z <= p < z + cnt) ==>
        p in MarkPages(usage, z, 0, cnt) && MarkPages(usage, z, 0, cnt)[p] == usage[p]
    {
      MarkPagesAt(usage, z, 0, cnt, p);
    }
    hide MarkPages;
    var owned' := owned[z := ZoneBlock];
    forall a | a in owned ensures a + Length(owned[a], cnt) <= z || z + cnt <= a {
      assert a in owned' && z in owned' && owned'[z] == ZoneBlock && owned'[a] == owned[a];
    }
  }

  /** Newly allocated pages are apart from every range already owned. */
  lemma OwnNew(owned: map<nat, Block>, cnt: nat, runs: seq<Run>, runs': seq<Run>, z: nat, b: Block)
    requires Owned(owned, cnt, runs) && Length(b, cnt) > 0
    requires Adds(runs', Run(z, Length(b, cnt)), runs) && Disjoint(runs', Run(z, Length(b, cnt)))
    ensures z !in owned && Owned(owned[z := b], cnt, runs')
  {
    var n := Length(b, cnt);
    forall a | a in owned ensures a + Length(owned[a], cnt) <= z || z + n <= a {
      var x, y := Run(a, Length(owned[a], cnt)), Run(z, n);
      assert In(y, z) && Covers(runs, z);
      assert In(x, a) && !Covers(runs, a);
    }
    forall a | a in owned ensures Disjoint(runs', Run(a, Length(owned[a], cnt))) {
      assert Disjoint(runs, Run(a, Length(owned[a], cnt)));
    }
  }

  /** Pages given back no longer belong to any range, and no range loses a page. */
  lemma OwnLess(owned: map<nat, Block>, cnt: nat, runs: seq<Run>, runs': seq<Run>, z: nat)
    requires Owned(owned, cnt, runs) && z in owned && Adds(runs, Run(z, Length(owned[z], cnt)), runs')
    ensures Owned(owned - {z}, cnt, runs')
  {
    forall a | a in owned - {z} ensures Disjoint(runs', Run(a, Length(owned[a], cnt))) {
      assert a + Length(owned[a], cnt) <= z || z + Length(owned[z], cnt) <= a;
      assert Disjoint(runs, Run(a, Length(owned[a], cnt)));
    }
  }
}
