/** The page allocator under the slab allocator (slab.c): a linked list of runs of free pages.
    Addresses are page numbers. */
module PageLists {

  const NIL: int := -1

  /** The words in the first page of each free run, and the list head. */
  datatype Pages = Pages(head: int, next: map<int, int>, page: map<int, nat>)

  /** `n` free pages starting at page `addr`. */
  datatype Run = Run(addr: nat, n: nat)

  /** In address order, with a gap between any two runs: sorted, disjoint and fully coalesced. */
  ghost predicate Canonical(r: seq<Run>) {
    && (forall i :: 0 <= i < |r| ==> r[i].n > 0)
    && (forall i, j :: 0 <= i < j < |r| ==> r[i].addr + r[i].n < r[j].addr)
  }

  ghost predicate In(x: Run, p: int) {
    x.addr <= p < x.addr + x.n
  }

  /** Page `p` is free. */
  ghost predicate Covers(r: seq<Run>, p: int) {
    exists i :: 0 <= i < |r| && In(r[i], p)
  }

  ghost predicate SamePages(r: seq<Run>, s: seq<Run>) {
    forall p: int :: Covers(r, p) <==> Covers(s, p)
  }

  // ------------------------------------------------------- canonical form

  lemma CoversTail(r: seq<Run>, p: int)
    requires Canonical(r) && |r| > 0
    ensures Covers(r[1..], p) <==> Covers(r, p) && !In(r[0], p)
  {
    if Covers(r[1..], p) {
      var i :| 0 <= i < |r| - 1 && In(r[1..][i], p);
      assert In(r[i + 1], p) && r[0].addr + r[0].n < r[i + 1].addr;
    }
    if Covers(r, p) && !In(r[0], p) {
      var i :| 0 <= i < |r| && In(r[i], p);
      assert In(r[1..][i - 1], p);
    }
  }

  lemma FirstIsLeast(r: seq<Run>, p: int)
    requires Canonical(r) && Covers(r, p)
    ensures r[0].addr <= p
  {
    var i :| 0 <= i < |r| && In(r[i], p);
    assert i == 0 || r[0].addr + r[0].n < r[i].addr;
  }

  lemma GapIsNotCovered(r: seq<Run>)
    requires Canonical(r) && |r| > 0
    ensures !Covers(r, r[0].addr + r[0].n)
  {
  }

  lemma FirstAgrees(r: seq<Run>, s: seq<Run>)
    requires Canonical(r) && Canonical(s) && SamePages(r, s) && |r| > 0
    ensures |s| > 0 && r[0] == s[0]
  {
    assert In(r[0], r[0].addr) && Covers(r, r[0].addr);
    FirstIsLeast(s, r[0].addr);
    assert In(s[0], s[0].addr) && Covers(s, s[0].addr);
    FirstIsLeast(r, s[0].addr);
    GapIsNotCovered(r);
    GapIsNotCovered(s);
    assert !In(s[0], r[0].addr + r[0].n);
    assert !In(r[0], s[0].addr + s[0].n);
  }

  /** A set of free pages has exactly one canonical run list. */
  lemma {:induction false} CanonicalIsUnique(r: seq<Run>, s: seq<Run>)
    requires Canonical(r) && Canonical(s) && SamePages(r, s)
    ensures r == s
  {
    if |r| == 0 {
      if |s| > 0 { FirstAgrees(s, r); }
    } else {
      FirstAgrees(r, s);
      forall p: int ensures Covers(r[1..], p) <==> Covers(s[1..], p) {
        CoversTail(r, p);
        CoversTail(s, p);
      }
      CanonicalIsUnique(r[1..], s[1..]);
      assert r == [r[0]] + r[1..] && s == [s[0]] + s[1..];
    }
  }

  /** The `n` pages from `p` on are all free. */
  ghost predicate AllFree(r: seq<Run>, p: int, n: nat) {
    forall q :: p <= q < p + n ==> Covers(r, q)
  }

  /** Some run is long enough iff that many consecutive pages are free somewhere. */
  lemma RunIffConsecutive(r: seq<Run>, n: nat)
    requires Canonical(r) && n > 0
    ensures (exists i :: 0 <= i < |r| && r[i].n >= n) <==> exists p :: AllFree(r, p, n)
  {
    if i :| 0 <= i < |r| && r[i].n >= n {
      forall q | r[i].addr <= q < r[i].addr + n ensures Covers(r, q) { assert In(r[i], q); }
      assert AllFree(r, r[i].addr, n);
    }
    if p: int :| AllFree(r, p, n) {
      assert Covers(r, p);
      var i: nat :| i < |r| && In(r[i], p);
      EndIsNotCovered(r, i);
    }
  }

  lemma EndIsNotCovered(r: seq<Run>, i: nat)
    requires Canonical(r) && i < |r|
    ensures !Covers(r, r[i].addr + r[i].n)
  {
    forall j | 0 <= j < |r| ensures !In(r[j], r[i].addr + r[i].n) {
      assert j < i ==> r[j].addr + r[j].n < r[i].addr;
      assert i < j ==> r[i].addr + r[i].n < r[j].addr;
    }
  }

  // ------------------------------------------------------- the linked list

  ghost function AddrAt(r: seq<Run>, k: nat): int
    requires k <= |r|
  {
    if k == |r| then NIL else r[k].addr
  }

  ghost predicate NodeOk(m: Pages, r: seq<Run>, k: nat)
    requires k < |r|
  {
    var a: int := r[k].addr;
    a in m.next && a in m.page && m.next[a] == AddrAt(r, k + 1) && m.page[a] == r[k].n
  }

  /** The list that starts at the head is exactly `r`. */
  ghost predicate Chain(m: Pages, r: seq<Run>) {
    m.head == AddrAt(r, 0) && forall k: nat | k < |r| :: NodeOk(m, r, k)
  }

  /** `*prev = v`, where `prev` points at the list head or at the link word of a run. */
  function SetLink(m: Pages, prev: int, v: int): Pages {
    if prev == NIL then m.(head := v) else m.(next := m.next[prev := v])
  }

  ghost function PrevOf(r: seq<Run>, k: nat): int
    requires k <= |r|
  {
    if k == 0 then NIL else r[k - 1].addr
  }

  lemma Distinct(r: seq<Run>, k: nat)
    requires Canonical(r) && k < |r|
    ensures forall j :: 0 <= j < |r| && j != k ==> r[j].addr != r[k].addr
  {
    forall j | 0 <= j < |r| && j != k ensures r[j].addr != r[k].addr {
      assert j < k ==> r[j].addr + r[j].n < r[k].addr;
      assert k < j ==> r[k].addr + r[k].n < r[j].addr;
    }
  }

  /** Replace run `k` by `x`, linked where run `k` was and leading where it led. */
  lemma ReplaceRun(m: Pages, r: seq<Run>, k: nat, x: Run)
    requires Chain(m, r) && k < |r| && Canonical(r) && Canonical(r[k := x])
    ensures var m' := SetLink(m.(next := m.next[x.addr := AddrAt(r, k + 1)], page := m.page[x.addr := x.n]),
      PrevOf(r, k), x.addr);
      Chain(m', r[k := x])
  {
    var s := r[k := x];
    var m' := SetLink(m.(next := m.next[x.addr := AddrAt(r, k + 1)], page := m.page[x.addr := x.n]), PrevOf(r, k),
      x.addr);
    Distinct(s, k);
    if k > 0 { Distinct(s, k - 1); }
    forall j: nat | j < |s| ensures NodeOk(m', s, j) {
      if j != k { assert NodeOk(m, r, j); }
      assert j + 1 < |s| && j + 1 != k ==> s[j + 1] == r[j + 1];
    }
  }

  /** Unlink run `k`. */
  lemma DropRun(m: Pages, r: seq<Run>, k: nat)
    requires Chain(m, r) && k < |r| && Canonical(r)
    ensures Chain(SetLink(m, PrevOf(r, k), AddrAt(r, k + 1)), r[..k] + r[k + 1..])
  {
    var s := r[..k] + r[k + 1..];
    var m' := SetLink(m, PrevOf(r, k), AddrAt(r, k + 1));
    if k > 0 { Distinct(r, k - 1); }
    forall j: nat | j < |s| ensures NodeOk(m', s, j) {
      var q := if j < k then j else j + 1;
      assert NodeOk(m, r, q) && s[j] == r[q];
      assert j + 1 < |s| ==> s[j + 1] == r[if j + 1 < k then j + 1 else j + 2];
    }
  }

  /** Link a new run `x` in before run `k`. */
  lemma InsertRun(m: Pages, r: seq<Run>, k: nat, x: Run)
    requires Chain(m, r) && k <= |r| && Canonical(r) && Canonical(r[..k] + [x] + r[k..])
    ensures var m' := SetLink(m.(next := m.next[x.addr := AddrAt(r, k)], page := m.page[x.addr := x.n]),
      PrevOf(r, k), x.addr);
      Chain(m', r[..k] + [x] + r[k..])
  {
    var s := r[..k] + [x] + r[k..];
    var m' := SetLink(m.(next := m.next[x.addr := AddrAt(r, k)], page := m.page[x.addr := x.n]), PrevOf(r, k), x.addr);
    Distinct(s, k);
    if k > 0 { Distinct(s, k - 1); }
    forall j: nat | j < |s| ensures NodeOk(m', s, j) {
      if j != k {
        var q := if j < k then j else j - 1;
        assert NodeOk(m, r, q) && s[j] == r[q];
      }
      assert j + 1 < |s| && j + 1 != k ==> s[j + 1] == r[if j + 1 < k then j + 1 else j];
    }
  }

  /** Let run `k` take over the run after it, with all pages in between. */
  lemma SwallowRun(m: Pages, r: seq<Run>, k: nat, x: Run)
    requires Chain(m, r) && k + 1 < |r| && Canonical(r) && x.addr == r[k].addr
    ensures var m' := m.(next := m.next[x.addr := AddrAt(r, k + 2)], page := m.page[x.addr := x.n]);
      Chain(m', r[..k] + [x] + r[k + 2..])
  {
    var s := r[..k] + [x] + r[k + 2..];
    var m' := m.(next := m.next[x.addr := AddrAt(r, k + 2)], page := m.page[x.addr := x.n]);
    Distinct(r, k);
    forall j: nat | j < |s| ensures NodeOk(m', s, j) {
      if j != k {
        var q := if j < k then j else j + 1;
        assert NodeOk(m, r, q) && s[j] == r[q];
      }
      assert j + 1 < |s| && j + 1 != k ==> s[j + 1] == r[if j + 1 < k then j + 1 else j + 2];
    }
    assert |s| > 0 && s[0].addr == r[0].addr;
  }

  // ------------------------------------------------ the pages of each edit

  /** `s` frees exactly the pages of `r` and those of `x`. */
  ghost predicate Adds(r: seq<Run>, x: Run, s: seq<Run>) {
    forall p: int :: Covers(s, p) <==> Covers(r, p) || In(x, p)
  }

  ghost predicate Disjoint(r: seq<Run>, x: Run) {
    forall p: int :: In(x, p) ==> !Covers(r, p)
  }

  lemma CoversConcat(a: seq<Run>, b: seq<Run>, p: int)
    ensures Covers(a + b, p) <==> Covers(a, p) || Covers(b, p)
  {
    if Covers(a, p) { var i :| 0 <= i < |a| && In(a[i], p); assert In((a + b)[i], p); }
    if Covers(b, p) { var i :| 0 <= i < |b| && In(b[i], p); assert In((a + b)[|a| + i], p); }
    if Covers(a + b, p) {
      var i :| 0 <= i < |a + b| && In((a + b)[i], p);
      assert if i < |a| then In(a[i], p) else In(b[i - |a|], p);
    }
  }

  lemma CoversAround(a: seq<Run>, x: Run, b: seq<Run>, p: int)
    ensures Covers(a + [x] + b, p) <==> Covers(a, p) || In(x, p) || Covers(b, p)
  {
    CoversConcat(a + [x], b, p);
    CoversConcat(a, [x], p);
    assert In([x][0], p) <==> In(x, p);
  }

  /** Run `x` fits into the gap between the lists `a` and `b`. */
  ghost predicate Between(a: seq<Run>, x: Run, b: seq<Run>) {
    && x.n > 0
    && (|a| > 0 ==> a[|a| - 1].addr + a[|a| - 1].n < x.addr)
    && (|b| > 0 ==> x.addr + x.n < b[0].addr)
  }

  lemma PutTogether(a: seq<Run>, x: Run, b: seq<Run>)
    requires Canonical(a) && Canonical(b) && Between(a, x, b)
    ensures Canonical(a + [x] + b)
  {
    forall i | 0 <= i < |a| ensures a[i].addr + a[i].n < x.addr {
      assert i < |a| - 1 ==> a[i].addr + a[i].n < a[|a| - 1].addr;
    }
    forall j | 0 <= j < |b| ensures x.addr + x.n < b[j].addr {
      assert 0 < j ==> b[0].addr + b[0].n < b[j].addr;
    }
  }

  lemma TakeApart(a: seq<Run>, x: Run, b: seq<Run>)
    requires Canonical(a + [x] + b)
    ensures Canonical(a) && Canonical(b) && Between(a, x, b)
  {
    var s := a + [x] + b;
    assert forall i :: 0 <= i < |a| ==> a[i] == s[i];
    assert forall i :: 0 <= i < |b| ==> b[i] == s[|a| + 1 + i];
    assert s[|a|] == x;
  }

  lemma Grown(r: seq<Run>, k: nat, x: Run)
    requires Canonical(r) && k < |r| && x.n > 0 && r[k].addr + r[k].n == x.addr
    requires k + 1 < |r| ==> x.addr + x.n < r[k + 1].addr
    ensures var s := r[k := Run(r[k].addr, r[k].n + x.n)]; Canonical(s) && Adds(r, x, s)
  {
    var y := Run(r[k].addr, r[k].n + x.n);
    Replaced(r, k, x, y);
  }

  lemma GrownDown(r: seq<Run>, k: nat, x: Run)
    requires Canonical(r) && k < |r| && x.n > 0 && x.addr + x.n == r[k].addr
    requires k > 0 ==> r[k - 1].addr + r[k - 1].n < x.addr
    ensures var s := r[k := Run(x.addr, r[k].n + x.n)]; Canonical(s) && Adds(r, x, s)
  {
    var y := Run(x.addr, r[k].n + x.n);
    Replaced(r, k, x, y);
  }

  lemma Replaced(r: seq<Run>, k: nat, x: Run, y: Run)
    requires Canonical(r) && k < |r| && y.n > 0
    requires forall p: int :: In(y, p) <==> In(r[k], p) || In(x, p)
    requires k > 0 ==> r[k - 1].addr + r[k - 1].n < y.addr
    requires k + 1 < |r| ==> y.addr + y.n < r[k + 1].addr
    ensures Canonical(r[k := y]) && Adds(r, x, r[k := y])
  {
    var a, b := r[..k], r[k + 1..];
    assert r == a + [r[k]] + b && r[k := y] == a + [y] + b;
    hide Canonical, Covers, In;
    TakeApart(a, r[k], b);
    PutTogether(a, y, b);
    forall p: int ensures Covers(r[k := y], p) <==> Covers(r, p) || In(x, p) {
      CoversAround(a, r[k], b, p);
      CoversAround(a, y, b, p);
    }
  }

  lemma Bridged(r: seq<Run>, k: nat, x: Run)
    requires Canonical(r) && k + 1 < |r| && x.n > 0
    requires r[k].addr + r[k].n == x.addr && x.addr + x.n == r[k + 1].addr
    ensures var s := r[..k] + [Run(r[k].addr, r[k].n + x.n + r[k + 1].n)] + r[k + 2..];
      Canonical(s) && Adds(r, x, s)
  {
    var y := Run(r[k].addr, r[k].n + x.n + r[k + 1].n);
    var a, b := r[..k], r[k + 2..];
    assert r == a + [r[k]] + r[k + 1..] && r[k + 1..] == [] + [r[k + 1]] + b;
    assert forall p: int :: In(y, p) <==> In(r[k], p) || In(x, p) || In(r[k + 1], p);
    hide Canonical, Covers, In;
    TakeApart(a, r[k], r[k + 1..]);
    TakeApart([], r[k + 1], b);
    PutTogether(a, y, b);
    forall p: int ensures Covers(a + [y] + b, p) <==> Covers(r, p) || In(x, p) {
      CoversAround(a, r[k], r[k + 1..], p);
      CoversAround([], r[k + 1], b, p);
      CoversAround(a, y, b, p);
      CoversNothing(p);
    }
  }

  lemma CoversNothing(p: int)
    ensures !Covers([], p)
  {
  }

  lemma CanonicalSlices(r: seq<Run>, k: nat)
    requires Canonical(r) && k <= |r|
    ensures Canonical(r[..k]) && Canonical(r[k..])
  {
  }

  lemma Inserted(r: seq<Run>, k: nat, x: Run)
    requires Canonical(r) && k <= |r| && x.n > 0
    requires k > 0 ==> r[k - 1].addr + r[k - 1].n < x.addr
    requires k < |r| ==> x.addr + x.n < r[k].addr
    ensures var s := r[..k] + [x] + r[k..]; Canonical(s) && Adds(r, x, s)
  {
    hide Canonical, Adds;
    CanonicalSlices(r, k);
    PutTogether(r[..k], x, r[k..]);
    AddsBetween(r[..k], x, r[k..]);
    assert r[..k] + r[k..] == r;
  }

  lemma AddsBetween(a: seq<Run>, x: Run, b: seq<Run>)
    ensures Adds(a + b, x, a + [x] + b)
  {
    hide Covers, In;
    forall p: int ensures Covers(a + [x] + b, p) <==> Covers(a + b, p) || In(x, p) {
      CoversConcat(a, b, p);
      CoversAround(a, x, b, p);
    }
  }

  /** Cutting `n` pages off the front of a longer run leaves a canonical list without exactly those pages. */
  lemma FrontTaken(r: seq<Run>, k: nat, n: nat)
    requires Canonical(r) && k < |r| && 0 < n < r[k].n
    ensures var s, x := r[k := Run(r[k].addr + n, r[k].n - n)], Run(r[k].addr, n);
      Canonical(s) && Adds(s, x, r) && Disjoint(s, x)
  {
    var s, x := r[k := Run(r[k].addr + n, r[k].n - n)], Run(r[k].addr, n);
    forall i, j | 0 <= i < j < |s| ensures s[i].addr + s[i].n < s[j].addr {
      assert r[i].addr + r[i].n < r[j].addr;
    }
    assert k > 0 ==> s[k - 1].addr + s[k - 1].n < x.addr by {
      if k > 0 { assert r[k - 1].addr + r[k - 1].n < r[k].addr; }
    }
    GrownDown(s, k, x);
    assert s[k := Run(x.addr, s[k].n + x.n)] == r;
    forall p: int | In(x, p) ensures !Covers(s, p) {
      forall j | 0 <= j < |s| ensures !In(s[j], p) {
        assert j < k ==> r[j].addr + r[j].n < r[k].addr;
        assert k < j ==> r[k].addr + r[k].n < r[j].addr;
      }
    }
  }

  lemma CanonicalWithout(r: seq<Run>, k: nat)
    requires Canonical(r) && k < |r|
    ensures Canonical(r[..k] + r[k + 1..])
  {
    var s := r[..k] + r[k + 1..];
    forall i, j | 0 <= i < j < |s| ensures s[i].addr + s[i].n < s[j].addr {
      var c, d := if i < k then i else i + 1, if j < k then j else j + 1;
      assert s[i] == r[c] && s[j] == r[d] && r[c].addr + r[c].n < r[d].addr;
    }
  }

  lemma WholeTaken(r: seq<Run>, k: nat)
    requires Canonical(r) && k < |r|
    ensures var s := r[..k] + r[k + 1..]; Canonical(s) && Adds(s, r[k], r) && Disjoint(s, r[k])
  {
    var a, b := r[..k], r[k + 1..];
    var s := a + b;
    assert r == a + [r[k]] + b;
    CanonicalWithout(r, k);
    forall p: int ensures Covers(r, p) <==> Covers(s, p) || In(r[k], p) {
      CoversAround(a, r[k], b, p);
      CoversConcat(a, b, p);
    }
    forall p: int | In(r[k], p) ensures !Covers(s, p) {
      forall j | 0 <= j < |s| ensures !In(s[j], p) {
        assert j < k ==> s[j] == r[j] && r[j].addr + r[j].n < r[k].addr;
        assert k <= j ==> s[j] == r[j + 1] && r[k].addr + r[k].n < r[j + 1].addr;
      }
    }
  }

  // ------------------------------------------------------------- theorems

  /** Pages taken and given back: the very same list, whatever it looked like in between. */
  lemma AllocThenFree(r: seq<Run>, s: seq<Run>, t: seq<Run>, x: Run)
    requires Canonical(r) && Canonical(t)
    requires Adds(s, x, r) && Disjoint(s, x)      // s: after allocating x
    requires Adds(s, x, t)                        // t: after freeing x
    ensures t == r
  {
    CanonicalIsUnique(r, t);
  }

  /** Two ranges may be freed in either order. */
  lemma FreeCommutes(r: seq<Run>, x: Run, y: Run, s: seq<Run>, s': seq<Run>, t: seq<Run>, t': seq<Run>)
    requires Adds(r, x, s) && Adds(s, y, s') && Canonical(s')
    requires Adds(r, y, t) && Adds(t, x, t') && Canonical(t')
    ensures s' == t'
  {
    CanonicalIsUnique(s', t');
  }

  // ------------------------------------------------------ the allocator

  class PageAllocator {
    var m: Pages                  // rt_page_list and the words in the free runs
    ghost var runs: seq<Run>

    ghost predicate Valid()
      reads this
    {
      Canonical(runs) && Chain(m, runs)
    }

    constructor ()
      ensures Valid() && runs == []
    {
      m := Pages(NIL, map[], map[]);
      runs := [];
    }

    /** rt_page_init. */
    method Init(addr: nat, npages: nat)
      requires npages > 0
      modifies this
      ensures Valid() && runs == [Run(addr, npages)]
    {
      m := m.(head := NIL);
      runs := [];
      CoversAll();
      Free(addr, npages);
      Singleton(addr, npages);
      CanonicalIsUnique(runs, [Run(addr, npages)]);
    }

    /** rt_page_alloc: the front of the first run that is long enough; NULL only if nowhere that many
        consecutive pages are free. */
    method Alloc(npages: nat) returns (b: int, ghost k: nat)
      requires Valid()
      modifies this
      ensures Valid()
      ensures b == NIL <==> npages == 0 || !exists p :: AllFree(old(runs), p, npages)
      ensures b == NIL ==> runs == old(runs) && m == old(m)
      ensures b != NIL ==>
        && k < |old(runs)| && b == old(runs)[k].addr && npages <= old(runs)[k].n
        && (forall j :: 0 <= j < k ==> old(runs)[j].n < npages)
        && Adds(runs, Run(b, npages), old(runs)) && Disjoint(runs, Run(b, npages))
    {
      hide Covers, In, Adds, Disjoint, AllFree, Canonical, Chain, SetLink;
      k := 0;
      if npages == 0 {
        return NIL, k;
      }
      var prev := NIL;
      b := m.head;
      ChainHead(m, runs);
      RunIffConsecutive(runs, npages);
      while b != NIL
        invariant unchanged(this) && k <= |runs| && b == AddrAt(runs, k) && prev == PrevOf(runs, k)
        invariant forall j :: 0 <= j < k ==> runs[j].n < npages
        decreases |runs| - k
      {
        ChainNode(m, runs, k);
        if m.page[b] > npages {
          FrontTaken(runs, k, npages);
          var n := b + npages;
          ghost var x := Run(n, runs[k].n - npages);
          ReplaceRun(m, runs, k, x);
          m := m.(next := m.next[n := m.next[b]], page := m.page[n := m.page[b] - npages]);
          m := SetLink(m, prev, n);
          runs := runs[k := x];
          return;
        }
        if m.page[b] == npages {
          WholeTaken(runs, k);
          DropRun(m, runs, k);
          m := SetLink(m, prev, m.next[b]);
          runs := runs[..k] + runs[k + 1..];
          return;
        }
        prev := b;
        b := m.next[b];
        k := k + 1;
      }
    }

    /** rt_page_free: afterwards exactly the pages given back are free in addition. */
    method Free(addr: nat, npages: nat)
      requires Valid() && npages > 0 && Disjoint(runs, Run(addr, npages))
      modifies this
      ensures Valid() && Adds(old(runs), Run(addr, npages), runs)
    {
      hide Covers, In, Adds, Disjoint, Canonical, Chain, SetLink;
      ghost var x := Run(addr, npages);
      var prev, b := NIL, m.head;
      ChainHead(m, runs);
      ghost var k := 0;
      while b != NIL
        invariant unchanged(this) && k <= |runs| && b == AddrAt(runs, k) && prev == PrevOf(runs, k)
        invariant k > 0 ==> runs[k - 1].addr + runs[k - 1].n < addr
        decreases |runs| - k
      {
        VisitRun(m, runs, k, x);
        if b + m.page[b] == addr {
          if b + m.page[b] + npages == m.next[b] {
            FreeBetween(m, runs, k, x);
            var n := m.next[b];
            m := m.(page := m.page[b := m.page[b] + npages + m.page[n]]);
            m := m.(next := m.next[b := m.next[n]]);
            runs := runs[..k] + [Run(runs[k].addr, runs[k].n + npages + runs[k + 1].n)] + runs[k + 2..];
          } else {
            Grown(runs, k, x);
            GrowNode(m, runs, k, npages);
            m := m.(page := m.page[b := m.page[b] + npages]);
            runs := runs[k := Run(runs[k].addr, runs[k].n + npages)];
          }
          return;
        }
        if b == addr + npages {
          ghost var y := Run(addr, runs[k].n + npages);
          GrownDown(runs, k, x);
          ReplaceRun(m, runs, k, y);
          m := m.(next := m.next[addr := m.next[b]], page := m.page[addr := m.page[b] + npages]);
          m := SetLink(m, prev, addr);
          runs := runs[k := y];
          return;
        }
        if b > addr + npages {
          break;
        }
        prev := b;
        b := m.next[b];
        k := k + 1;
      }
      Inserted(runs, k, x);
      InsertRun(m, runs, k, x);
      m := m.(next := m.next[addr := b], page := m.page[addr := npages]);
      m := SetLink(m, prev, addr);
      runs := runs[..k] + [x] + runs[k..];
    }
  }

  lemma ChainNode(m: Pages, r: seq<Run>, k: nat)
    requires Chain(m, r) && k < |r|
    ensures NodeOk(m, r, k)
  {
  }

  lemma ChainHead(m: Pages, r: seq<Run>)
    requires Chain(m, r)
    ensures m.head == AddrAt(r, 0)
  {
  }

  /** What one turn of either search loop sees at run `k`. */
  lemma VisitRun(m: Pages, r: seq<Run>, k: nat, x: Run)
    requires Chain(m, r) && Canonical(r) && k < |r| && x.n > 0 && Disjoint(r, x)
    ensures NodeOk(m, r, k) && r[k].n > 0
    ensures r[k].addr + r[k].n <= x.addr || x.addr + x.n <= r[k].addr
    ensures k + 1 < |r| ==> NodeOk(m, r, k + 1) && r[k].addr + r[k].n < r[k + 1].addr
    ensures k + 1 < |r| ==> r[k + 1].addr + r[k + 1].n <= x.addr || x.addr + x.n <= r[k + 1].addr
  {
    ApartRuns(r, x, k);
    if k + 1 < |r| { ApartRuns(r, x, k + 1); }
  }

  /** The range that exactly fills the gap after run `k`. */
  lemma FreeBetween(m: Pages, r: seq<Run>, k: nat, x: Run)
    requires Chain(m, r) && Canonical(r) && k + 1 < |r| && x.n > 0
    requires r[k].addr + r[k].n == x.addr && x.addr + x.n == r[k + 1].addr
    ensures var b, n := r[k].addr, r[k + 1].addr;
      && b in m.next && b in m.page && n in m.next && n in m.page && m.next[b] == n && b != n
      && var m' := m.(page := m.page[b := m.page[b] + x.n + m.page[n]], next := m.next[b := m.next[n]]);
      var s := r[..k] + [Run(b, r[k].n + x.n + r[k + 1].n)] + r[k + 2..];
      Chain(m', s) && Canonical(s) && Adds(r, x, s)
  {
    assert NodeOk(m, r, k) && NodeOk(m, r, k + 1);
    hide Adds;
    Bridged(r, k, x);
    SwallowRun(m, r, k, Run(r[k].addr, r[k].n + x.n + r[k + 1].n));
  }

  lemma CoversAll()
    ensures forall x: Run :: Disjoint([], x)
  {
  }

  lemma Singleton(addr: nat, n: nat)
    requires n > 0
    ensures Canonical([Run(addr, n)])
    ensures forall s :: Adds([], Run(addr, n), s) ==> SamePages(s, [Run(addr, n)])
  {
    assert forall p: int :: Covers([Run(addr, n)], p) <==> In([Run(addr, n)][0], p);
  }

  /** A free run and a disjoint range: one lies wholly before the other. */
  lemma ApartRuns(r: seq<Run>, x: Run, k: nat)
    requires Canonical(r) && k < |r| && x.n > 0 && Disjoint(r, x)
    ensures r[k].addr + r[k].n <= x.addr || x.addr + x.n <= r[k].addr
  {
    assert In(r[k], x.addr) ==> Covers(r, x.addr);
    assert In(r[k], r[k].addr) && Covers(r, r[k].addr);
    assert In(x, x.addr);
  }

  lemma GrowNode(m: Pages, r: seq<Run>, k: nat, n: nat)
    requires Chain(m, r) && Canonical(r) && k < |r| && Canonical(r[k := Run(r[k].addr, r[k].n + n)])
    ensures r[k].addr in m.page
    ensures Chain(m.(page := m.page[r[k].addr := m.page[r[k].addr] + n]), r[k := Run(r[k].addr, r[k].n + n)])
  {
    assert NodeOk(m, r, k);
    var s := r[k := Run(r[k].addr, r[k].n + n)];
    var m' := m.(page := m.page[r[k].addr := m.page[r[k].addr] + n]);
    Distinct(r, k);
    forall j: nat | j < |s| ensures NodeOk(m', s, j) {
      assert NodeOk(m, r, j);
    }
  }
}
