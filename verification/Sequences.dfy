/** Lists of identifiers as the kernel keeps them: removal, and stable insertion by a key. */
module Sequences {

  ghost predicate NoRepeats<T>(s: seq<T>) {
    forall i, j :: 0 <= i < j < |s| ==> s[i] != s[j]
  }

  lemma HeadGone<T>(s: seq<T>)
    requires NoRepeats(s) && s != []
    ensures NoRepeats(s[1..]) && forall x :: x in s[1..] <==> x in s && x != s[0]
  {
  }

  lemma PushedList<T>(s: seq<T>, z: T)
    ensures NoRepeats(s) && z !in s ==> NoRepeats([z] + s)
    ensures forall x :: x in [z] + s <==> x == z || x in s
  {
  }

  lemma AppendedList<T>(s: seq<T>, z: T)
    ensures NoRepeats(s) && z !in s ==> NoRepeats(s + [z])
    ensures forall x :: x in s + [z] <==> x == z || x in s
  {
  }

  // --------------------------------------------------------- cardinality

  ghost function Elements(s: seq<nat>): (r: set<nat>)
    ensures forall i :: i in r <==> i in s
  {
    if s == [] then {} else {s[0]} + Elements(s[1..])
  }

  ghost function UpTo(n: nat): (r: set<nat>)
    ensures |r| == n && forall i: nat :: i in r <==> i < n
  {
    if n == 0 then {} else UpTo(n - 1) + {n - 1}
  }

  lemma {:induction false} NoRepeatsCard(s: seq<nat>)
    requires NoRepeats(s)
    ensures |Elements(s)| == |s|
  {
    if |s| > 0 {
      NoRepeatsCard(s[1..]);
      assert s[0] !in s[1..];
    }
  }

  /** Two disjoint sets that cover the indices below `n`. */
  lemma SplitCard(a: set<nat>, b: set<nat>, n: nat)
    requires forall i: nat :: i < n <==> i in a || i in b
    requires forall i :: i in a ==> i !in b
    ensures |a| + |b| == n
  {
    assert a + b == UpTo(n);
    hide UpTo;
    assert a * b == {};
  }

  // ------------------------------------------------------------- removal

  /** The list without its first `z`. */
  function Without<T(==)>(s: seq<T>, z: T): seq<T> {
    if s == [] then [] else if s[0] == z then s[1..] else [s[0]] + Without(s[1..], z)
  }

  lemma {:induction false} WithoutFacts<T>(s: seq<T>, z: T)
    requires NoRepeats(s)
    ensures NoRepeats(Without(s, z)) && forall x :: x in Without(s, z) <==> x in s && x != z
  {
    if s != [] {
      HeadGone(s);
      if s[0] != z {
        WithoutFacts(s[1..], z);
        assert s[0] !in Without(s[1..], z);
      }
    }
  }

  lemma {:induction false} WithoutAt<T>(s: seq<T>, k: nat, z: T)
    requires k < |s| && s[k] == z && forall j :: 0 <= j < k ==> s[j] != z
    ensures Without(s, z) == s[..k] + s[k + 1..]
  {
    if k > 0 {
      WithoutAt(s[1..], k - 1, z);
      assert s[..k] == [s[0]] + s[1..][..k - 1];
    }
  }

  lemma FirstAt<T>(list: seq<T>, t: T) returns (k: nat)
    requires t in list
    ensures k < |list| && list[k] == t && forall j :: 0 <= j < k ==> list[j] != t
  {
    k := 0;
    while list[k] != t
      invariant k < |list| && t in list[k..] && forall j :: 0 <= j < k ==> list[j] != t
      decreases |list| - k
    {
      k := k + 1;
    }
  }

  lemma {:induction false} WithoutAbsent<T>(s: seq<T>, z: T)
    requires z !in s
    ensures Without(s, z) == s
  {
    if s != [] {
      WithoutAbsent(s[1..], z);
    }
  }

  // ----------------------------------------------------- insertion by key

  /** The key of `x`; identifiers outside the table have key 0. */
  function At(key: seq<int>, x: nat): int {
    if x < |key| then key[x] else 0
  }

  ghost predicate Sorted(s: seq<nat>, key: seq<int>) {
    forall i, j :: 0 <= i < j < |s| ==> At(key, s[i]) <= At(key, s[j])
  }

  /** `x` behind every element of smaller or equal key. */
  function Insert(s: seq<nat>, x: nat, key: seq<int>): (r: seq<nat>) {
    if s == [] || At(key, s[0]) > At(key, x) then [x] + s else [s[0]] + Insert(s[1..], x, key)
  }

  lemma {:induction false} InsertMembers(s: seq<nat>, x: nat, key: seq<int>)
    ensures |Insert(s, x, key)| == |s| + 1
    ensures forall y :: y in Insert(s, x, key) <==> y == x || y in s
    ensures NoRepeats(s) && x !in s ==> NoRepeats(Insert(s, x, key))
  {
    if !(s == [] || At(key, s[0]) > At(key, x)) {
      InsertMembers(s[1..], x, key);
      var r := Insert(s[1..], x, key);
      assert s == [s[0]] + s[1..];
      assert forall y :: y in s <==> y == s[0] || y in s[1..];
      if NoRepeats(s) && x !in s {
        HeadGone(s);
        PushedList(r, s[0]);
      }
    } else {
      PushedList(s, x);
    }
  }

  lemma {:induction false} InsertSorted(s: seq<nat>, x: nat, key: seq<int>)
    requires Sorted(s, key)
    ensures Sorted(Insert(s, x, key), key)
  {
    InsertMembers(s, x, key);
    if !(s == [] || At(key, s[0]) > At(key, x)) {
      InsertSorted(s[1..], x, key);
      var r := Insert(s[1..], x, key);
      InsertMembers(s[1..], x, key);
      forall y | y in r ensures At(key, s[0]) <= At(key, y) {
        if y != x { assert y in s[1..]; }
      }
    }
  }

  /** A scan that stopped at `k` found the place: everything before is no later, the next one is later. */
  lemma {:induction false} InsertAt(s: seq<nat>, x: nat, key: seq<int>, k: nat)
    requires k <= |s|
    requires forall j :: 0 <= j < k ==> At(key, s[j]) <= At(key, x)
    requires k < |s| ==> At(key, s[k]) > At(key, x)
    ensures Insert(s, x, key) == s[..k] + [x] + s[k..]
  {
    if k > 0 {
      InsertAt(s[1..], x, key, k - 1);
      assert s[..k] == [s[0]] + s[1..][..k - 1];
      assert s[k..] == s[1..][k - 1..];
    }
  }

  /** Stability: the old elements keep their order, and equal keys are served in the order of insertion. */
  lemma {:induction false} InsertIsStable(s: seq<nat>, x: nat, key: seq<int>, i: nat, k: nat)
    requires Sorted(s, key) && x !in s
    requires i < |s| && k < |Insert(s, x, key)| && Insert(s, x, key)[k] == x
    ensures |Insert(s, x, key)| == |s| + 1
    ensures i < k <==> At(key, s[i]) <= At(key, x)
    ensures Insert(s, x, key)[if i < k then i else i + 1] == s[i]
  {
    var r := Insert(s, x, key);
    InsertMembers(s, x, key);
    if s == [] || At(key, s[0]) > At(key, x) {
      assert k == 0;
    } else {
      var t := s[1..];
      assert x !in t && Sorted(t, key) && r == [s[0]] + Insert(t, x, key);
      if i > 0 { InsertIsStable(t, x, key, i - 1, k - 1); }
    }
  }

  lemma {:induction false} InsertSameKeys(s: seq<nat>, x: nat, key: seq<int>, key': seq<int>)
    requires At(key, x) == At(key', x)
    requires forall y :: y in s ==> At(key, y) == At(key', y)
    ensures Insert(s, x, key) == Insert(s, x, key')
  {
    if !(s == [] || At(key, s[0]) > At(key, x)) {
      InsertSameKeys(s[1..], x, key, key');
    }
  }

  lemma {:induction false} WithoutSorted(s: seq<nat>, x: nat, key: seq<int>)
    requires Sorted(s, key) && NoRepeats(s)
    ensures Sorted(Without(s, x), key)
  {
    WithoutFacts(s, x);
    if s != [] && s[0] != x {
      HeadGone(s);
      assert Sorted(s[1..], key);
      WithoutSorted(s[1..], x, key);
      var r := Without(s[1..], x);
      forall y | y in r ensures At(key, s[0]) <= At(key, y) {
        WithoutFacts(s[1..], x);
        assert y in s[1..];
      }
    }
  }
}
