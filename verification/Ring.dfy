/** Circular doubly linked lists (rtservice.h), over a memory of link words.

    A ring is written as the sequence of its nodes, starting anywhere; every
    kernel queue is a ring that starts at its list head. */
module Rings {
  import opened Sequences

  /** The link words of all nodes, by node address. */
  datatype Links = Links(next: map<int, int>, prev: map<int, int>)

  function After(r: seq<int>, i: nat): int
    requires i < |r|
  {
    if i + 1 == |r| then r[0] else r[i + 1]
  }

  function Before(r: seq<int>, i: nat): int
    requires i < |r|
  {
    if i == 0 then r[|r| - 1] else r[i - 1]
  }

  ghost predicate NodeOk(k: Links, r: seq<int>, i: nat)
    requires i < |r|
  {
    r[i] in k.next && r[i] in k.prev && k.next[r[i]] == After(r, i) && k.prev[r[i]] == Before(r, i)
  }

  /** The nodes of `r`, in this order, form one closed ring. */
  ghost predicate IsRing(k: Links, r: seq<int>) {
    && |r| > 0 && NoRepeats(r)
    && forall i: nat | i < |r| :: NodeOk(k, r, i)
  }

  // ------------------------------------------------- the four link writes

  /** Link `n` in between `l` and its successor. */
  function LinkAfter(k: Links, l: int, n: int): Links
    requires l in k.next
  {
    var s := k.next[l];
    Links(k.next[n := s][l := n], k.prev[s := n][n := l])
  }

  /** Take `n` out from between its neighbours; its own two words are left as they are. */
  function Unlink(k: Links, n: int): Links
    requires n in k.next && n in k.prev
  {
    Links(k.next[k.prev[n] := k.next[n]], k.prev[k.next[n] := k.prev[n]])
  }

  lemma AtMostOnce(r: seq<int>, i: nat, j: nat)
    requires NoRepeats(r) && i < |r| && j < |r|
    ensures r[i] == r[j] <==> i == j
  {
  }

  lemma LinkAfterRing(k: Links, r: seq<int>, i: nat, n: int)
    requires IsRing(k, r) && i < |r| && n !in r
    ensures r[i] in k.next && IsRing(LinkAfter(k, r[i], n), r[..i + 1] + [n] + r[i + 1..])
  {
    assert NodeOk(k, r, i);
    var q := r[..i + 1] + [n] + r[i + 1..];
    var k' := LinkAfter(k, r[i], n);
    forall j: nat | j < |q| ensures NodeOk(k', q, j) {
      LinkedNode(k, r, i, n, j);
    }
  }

  lemma LinkedNode(k: Links, r: seq<int>, i: nat, n: int, j: nat)
    requires IsRing(k, r) && i < |r| && n !in r && j <= |r| && r[i] in k.next
    ensures NodeOk(LinkAfter(k, r[i], n), r[..i + 1] + [n] + r[i + 1..], j)
  {
    var q := r[..i + 1] + [n] + r[i + 1..];
    var k' := LinkAfter(k, r[i], n);
    var s := if i + 1 == |r| then 0 else i + 1;
    assert NodeOk(k, r, i);
    assert q[0] == r[0];
    if j != i + 1 {
      var m := if j <= i then j else j - 1;
      assert q[j] == r[m] && NodeOk(k, r, m);
      AtMostOnce(r, m, i);
      AtMostOnce(r, m, s);
      hide NoRepeats;
      assert m == i ==> After(q, j) == n;
      assert m != i ==> After(q, j) == After(r, m);
      assert m == s ==> Before(q, j) == n;
      assert m != s ==> Before(q, j) == Before(r, m);
    }
  }

  lemma UnlinkRing(k: Links, r: seq<int>, i: nat)
    requires IsRing(k, r) && i < |r| && |r| > 1
    ensures r[i] in k.next && r[i] in k.prev
    ensures IsRing(Unlink(k, r[i]), r[..i] + r[i + 1..])
  {
    assert NodeOk(k, r, i);
    var q := r[..i] + r[i + 1..];
    forall j: nat | j < |q| ensures NodeOk(Unlink(k, r[i]), q, j) {
      UnlinkedNode(k, r, i, j);
    }
  }

  lemma UnlinkedNode(k: Links, r: seq<int>, i: nat, j: nat)
    requires IsRing(k, r) && i < |r| && j + 1 < |r| && r[i] in k.next && r[i] in k.prev
    ensures NodeOk(Unlink(k, r[i]), r[..i] + r[i + 1..], j)
  {
    var q := r[..i] + r[i + 1..];
    var p := if i == 0 then |r| - 1 else i - 1;
    var s := if i + 1 == |r| then 0 else i + 1;
    var m := if j < i then j else j + 1;
    assert NodeOk(k, r, i) && q[j] == r[m] && NodeOk(k, r, m);
    AtMostOnce(r, m, p);
    AtMostOnce(r, m, s);
    hide NoRepeats;
    assert q[0] == if i == 0 then r[1] else r[0];
    assert q[|q| - 1] == if i + 1 == |r| then r[i - 1] else r[|r| - 1];
    assert m != p ==> After(q, j) == After(r, m);
    assert m != s ==> Before(q, j) == Before(r, m);
  }

  /** Two nodes pointing at each other. */
  lemma PairRing(k: Links, a: int, b: int)
    requires a != b && k == Links(map[a := b, b := a], map[a := b, b := a])
    ensures IsRing(k, [a, b])
  {
  }

  /** Writes to other nodes leave a ring alone. */
  lemma RingFrame(k: Links, k': Links, r: seq<int>)
    requires IsRing(k, r)
    requires forall x :: x in r ==> x in k.next && x in k.prev && x in k'.next && x in k'.prev
    requires forall x :: x in r ==> k'.next[x] == k.next[x] && k'.prev[x] == k.prev[x]
    ensures IsRing(k', r)
  {
    forall i: nat | i < |r| ensures NodeOk(k', r, i) {
      var x := r[i];
      assert x in r && NodeOk(k, r, i);
    }
  }

  /** A node's words never lead out of its ring. */
  lemma RingClosed(k: Links, r: seq<int>, x: int)
    requires IsRing(k, r) && x in r
    ensures x in k.next && x in k.prev && k.next[x] in r && k.prev[x] in r
  {
    var i: nat :| i < |r| && r[i] == x;
    assert NodeOk(k, r, i);
  }

  /** Two rings share no node. */
  ghost predicate Apart(q: seq<int>, r: seq<int>) {
    forall x :: x in q ==> x !in r
  }

  lemma LinkAfterFrame(k: Links, r: seq<int>, l: int, n: int, q: seq<int>)
    requires IsRing(k, r) && l in r && l in k.next && IsRing(k, q) && Apart(q, r) && n !in q
    ensures IsRing(LinkAfter(k, l, n), q)
  {
    RingClosed(k, r, l);
    forall x | x in q ensures x in k.next && x in k.prev { RingClosed(k, q, x); }
    RingFrame(k, LinkAfter(k, l, n), q);
  }

  lemma UnlinkFrame(k: Links, r: seq<int>, n: int, q: seq<int>)
    requires IsRing(k, r) && n in r && n in k.next && n in k.prev && IsRing(k, q) && Apart(q, r)
    ensures IsRing(Unlink(k, n), q)
  {
    RingClosed(k, r, n);
    forall x | x in q ensures x in k.next && x in k.prev { RingClosed(k, q, x); }
    RingFrame(k, Unlink(k, n), q);
  }

  /** A node linked to itself is a ring of its own. */
  lemma SelfLoop(k: Links, n: int)
    ensures IsRing(Links(k.next[n := n], k.prev[n := n]), [n])
  {
  }

  /** The ring after rt_list_insert_before node `i`: before the first node is after the last one. */
  ghost function InsertedBefore(r: seq<int>, i: nat, n: int): seq<int>
    requires i < |r|
  {
    if i == 0 then r + [n] else r[..i] + [n] + r[i..]
  }

  /** The kernel's list primitives, working on shared memory.  Each contract says what becomes of the
      ring it works on and that no ring elsewhere is disturbed. */
  class ListMemory {
    var links: Links

    constructor ()
    {
      links := Links(map[], map[]);
    }

    method Init(l: int)
      modifies this
      ensures IsRing(links, [l])
      ensures forall q :: IsRing(old(links), q) && l !in q ==> IsRing(links, q)
    {
      SelfLoop(links, l);
      links := Links(links.next[l := l], links.prev[l := l]);
      forall q | IsRing(old(links), q) && l !in q ensures IsRing(links, q) {
        forall x | x in q ensures x in old(links).next && x in old(links).prev { RingClosed(old(links), q, x); }
        RingFrame(old(links), links, q);
      }
    }

    method InsertAfter(l: int, n: int, ghost r: seq<int>, ghost i: nat)
      requires IsRing(links, r) && i < |r| && r[i] == l && n !in r
      modifies this
      ensures IsRing(links, r[..i + 1] + [n] + r[i + 1..])
      ensures forall q :: IsRing(old(links), q) && Apart(q, r) && n !in q ==> IsRing(links, q)
    {
      LinkAfterRing(links, r, i, n);
      forall q | IsRing(links, q) && Apart(q, r) && n !in q ensures IsRing(LinkAfter(links, l, n), q) {
        LinkAfterFrame(links, r, l, n, q);
      }
      hide IsRing;
      var s := links.next[l];
      links := links.(prev := links.prev[s := n]);
      links := links.(next := links.next[n := s]);
      links := links.(next := links.next[l := n]);
      links := links.(prev := links.prev[n := l]);
    }

    method InsertBefore(l: int, n: int, ghost r: seq<int>, ghost i: nat)
      requires IsRing(links, r) && i < |r| && r[i] == l && n !in r
      modifies this
      ensures IsRing(links, InsertedBefore(r, i, n))
      ensures forall q :: IsRing(old(links), q) && Apart(q, r) && n !in q ==> IsRing(links, q)
    {
      assert NodeOk(links, r, i);
      ghost var j := if i == 0 then |r| - 1 else i - 1;
      ghost var k := links;
      assert NodeOk(links, r, j);
      LinkAfterRing(links, r, j, n);
      assert r[..j + 1] + [n] + r[j + 1..] == InsertedBefore(r, i, n);
      forall q | IsRing(links, q) && Apart(q, r) && n !in q ensures IsRing(LinkAfter(links, r[j], n), q) {
        LinkAfterFrame(links, r, r[j], n, q);
      }
      hide IsRing, NoRepeats, InsertedBefore;
      assert l != n;
      var p := links.prev[l];
      links := links.(next := links.next[p := n]);
      links := links.(prev := links.prev[n := p]);
      links := links.(prev := links.prev[l := n]);
      links := links.(next := links.next[n := l]);
      assert links.next == LinkAfter(k, r[j], n).next && links.prev == LinkAfter(k, r[j], n).prev;
    }

    /** rt_list_remove: also on a node that is already alone, which stays alone. */
    method Remove(n: int, ghost r: seq<int>, ghost i: nat)
      requires IsRing(links, r) && i < |r| && r[i] == n
      modifies this
      ensures IsRing(links, [n])
      ensures |r| > 1 ==> IsRing(links, r[..i] + r[i + 1..])
      ensures forall q :: IsRing(old(links), q) && Apart(q, r) ==> IsRing(links, q)
    {
      ghost var k := links;
      assert NodeOk(k, r, i);
      RingClosed(k, r, n);
      links := links.(prev := links.prev[links.next[n] := links.prev[n]]);
      links := links.(next := links.next[links.prev[n] := links.next[n]]);
      links := Links(links.next[n := n], links.prev[n := n]);
      ghost var u := if |r| > 1 then Unlink(k, n) else k;
      assert links == Links(u.next[n := n], u.prev[n := n]);
      SelfLoop(u, n);
      ghost var rest := r[..i] + r[i + 1..];
      if |r| > 1 {
        UnlinkRing(k, r, i);
        assert n !in rest;
        SelfFrame(u, n, rest);
      }
      forall q | IsRing(k, q) && Apart(q, r) ensures IsRing(links, q) {
        if |r| > 1 { UnlinkFrame(k, r, n, q); }
        assert n !in q;
        SelfFrame(u, n, q);
      }
    }

    method IsEmpty(l: int, ghost r: seq<int>) returns (empty: bool)
      requires IsRing(links, r) && r[0] == l
      ensures empty <==> |r| == 1
    {
      assert NodeOk(links, r, 0);
      empty := links.next[l] == l;
    }
  }

  lemma SelfFrame(k: Links, n: int, q: seq<int>)
    requires IsRing(k, q) && n !in q
    ensures IsRing(Links(k.next[n := n], k.prev[n := n]), q)
  {
    forall x | x in q ensures x in k.next && x in k.prev { RingClosed(k, q, x); }
    RingFrame(k, Links(k.next[n := n], k.prev[n := n]), q);
  }
}
