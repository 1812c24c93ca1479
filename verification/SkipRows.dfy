/** The rows of the timer skip list, against one flat list: every row is the bottom row without the
    timers that are not tall enough. */
module SkipRows {
  import opened Sequences

  /** The elements of height at least `h`. */
  ghost function Tall(s: seq<nat>, height: seq<int>, h: int): seq<nat> {
    if s == [] then []
    else if At(height, s[0]) >= h then [s[0]] + Tall(s[1..], height, h)
    else Tall(s[1..], height, h)
  }

  lemma {:induction false} TallMembers(s: seq<nat>, height: seq<int>, h: int)
    ensures forall x :: x in Tall(s, height, h) <==> x in s && At(height, x) >= h
    ensures NoRepeats(s) ==> NoRepeats(Tall(s, height, h))
  {
    if s != [] {
      TallMembers(s[1..], height, h);
      assert s == [s[0]] + s[1..];
      if NoRepeats(s) {
        HeadGone(s);
        PushedList(Tall(s[1..], height, h), s[0]);
      }
    }
  }

  lemma {:induction false} TallSorted(s: seq<nat>, height: seq<int>, h: int, key: seq<int>)
    requires Sorted(s, key)
    ensures Sorted(Tall(s, height, h), key)
  {
    if s != [] {
      TallSorted(s[1..], height, h, key);
      TallMembers(s[1..], height, h);
      forall x | x in Tall(s[1..], height, h) ensures At(key, s[0]) <= At(key, x) {
        assert x in s[1..];
      }
    }
  }

  lemma {:induction false} TallAll(s: seq<nat>, height: seq<int>, h: int)
    requires forall x :: x in s ==> At(height, x) >= h
    ensures Tall(s, height, h) == s
  {
    if s != [] {
      assert s[0] in s;
      TallAll(s[1..], height, h);
    }
  }

  lemma {:induction false} TallSame(s: seq<nat>, height: seq<int>, height': seq<int>, h: int)
    requires forall x :: x in s ==> At(height, x) == At(height', x)
    ensures Tall(s, height, h) == Tall(s, height', h)
  {
    if s != [] {
      assert s[0] in s;
      TallSame(s[1..], height, height', h);
    }
  }

  /** Removal from the flat list is removal from every row. */
  lemma {:induction false} TallWithout(s: seq<nat>, height: seq<int>, h: int, t: nat)
    requires NoRepeats(s)
    ensures Tall(Without(s, t), height, h) == Without(Tall(s, height, h), t)
  {
    if s != [] {
      HeadGone(s);
      TallMembers(s[1..], height, h);
      if s[0] == t {
        if At(height, t) < h { WithoutAbsent(Tall(s, height, h), t); }
      } else {
        TallWithout(s[1..], height, h, t);
      }
    }
  }

  /** Sorted insertion into the flat list is sorted insertion into the rows that are low enough. */
  lemma {:induction false} TallInsert(s: seq<nat>, height: seq<int>, h: int, t: nat, key: seq<int>)
    requires Sorted(s, key)
    ensures Tall(Insert(s, t, key), height, h) ==
      if At(height, t) >= h then Insert(Tall(s, height, h), t, key) else Tall(s, height, h)
  {
    if s == [] {
    } else if At(key, s[0]) > At(key, t) {
      TallMembers(s, height, h);
      var r := Tall(s, height, h);
      assert r != [] ==> r[0] in r;
      assert At(height, t) >= h ==> Insert(r, t, key) == [t] + r;
      assert ([t] + s)[1..] == s;
    } else {
      assert Sorted(s[1..], key);
      TallInsert(s[1..], height, h, t, key);
    }
  }

  /** `a` can be got from `b` by dropping elements. */
  ghost predicate Subsequence(a: seq<nat>, b: seq<nat>) {
    a == [] || (b != [] && if a[0] == b[0] then Subsequence(a[1..], b[1..]) else Subsequence(a, b[1..]))
  }

  lemma {:induction false} TallIsSubsequence(s: seq<nat>, height: seq<int>, h: int, h': int)
    requires NoRepeats(s) && h <= h'
    ensures Subsequence(Tall(s, height, h'), Tall(s, height, h))
  {
    if s != [] {
      HeadGone(s);
      TallIsSubsequence(s[1..], height, h, h');
      TallMembers(s[1..], height, h');
    }
  }

  // ------------------------------------------------------------- the rows

  /** Row `k` of `n` holds the timers of height at least `n - k`; the bottom row holds them all. */
  ghost predicate RowsOk(rows: seq<seq<nat>>, height: seq<int>, flat: seq<nat>) {
    && (forall t :: t in flat ==> At(height, t) >= 1)
    && (forall k :: 0 <= k < |rows| ==> rows[k] == Tall(flat, height, |rows| - k))
  }

  lemma BottomRow(rows: seq<seq<nat>>, height: seq<int>, flat: seq<nat>)
    requires RowsOk(rows, height, flat) && |rows| > 0
    ensures rows[|rows| - 1] == flat
  {
    TallAll(flat, height, 1);
  }

  lemma RowIsSubsequence(rows: seq<seq<nat>>, height: seq<int>, flat: seq<nat>, k: nat, key: seq<int>)
    requires RowsOk(rows, height, flat) && NoRepeats(flat) && Sorted(flat, key) && k < |rows|
    ensures Sorted(rows[k], key) && NoRepeats(rows[k])
    ensures k + 1 < |rows| ==> Subsequence(rows[k], rows[k + 1])
  {
    TallMembers(flat, height, |rows| - k);
    TallSorted(flat, height, |rows| - k, key);
    if k + 1 < |rows| { TallIsSubsequence(flat, height, |rows| - k - 1, |rows| - k); }
  }

  lemma RowMembers(rows: seq<seq<nat>>, height: seq<int>, flat: seq<nat>, k: nat)
    requires RowsOk(rows, height, flat) && k < |rows|
    ensures forall t :: t in rows[k] ==> t in flat
    ensures k + 1 < |rows| ==> forall t :: t in rows[k] ==> t in rows[k + 1]
  {
    TallMembers(flat, height, |rows| - k);
    if k + 1 < |rows| { TallMembers(flat, height, |rows| - k - 1); }
  }

  lemma RowsWithout(rows: seq<seq<nat>>, rows': seq<seq<nat>>, height: seq<int>, flat: seq<nat>, t: nat)
    requires RowsOk(rows, height, flat) && NoRepeats(flat) && |rows'| == |rows|
    requires forall k :: 0 <= k < |rows| ==> rows'[k] == Without(rows[k], t)
    ensures RowsOk(rows', height, Without(flat, t))
  {
    WithoutFacts(flat, t);
    hide NoRepeats;
    forall k | 0 <= k < |rows| ensures rows'[k] == Tall(Without(flat, t), height, |rows| - k) {
      TallWithout(flat, height, |rows| - k, t);
    }
  }

  /** `k` is where a scan of `row` for a place behind everything not later than `d` stops. */
  ghost predicate HeadAt(row: seq<nat>, key: seq<int>, d: int, k: nat) {
    && k <= |row| && (forall j :: 0 <= j < k ==> At(key, row[j]) <= d)
    && (k < |row| ==> At(key, row[k]) > d)
  }

  function InsertAfterHead(row: seq<nat>, k: nat, t: nat): seq<nat>
    requires k <= |row|
  {
    row[..k] + [t] + row[k..]
  }

  lemma RowsInsert(rows: seq<seq<nat>>, rows': seq<seq<nat>>, heads: seq<nat>, height: seq<int>, flat: seq<nat>,
                   t: nat, h: nat, key: seq<int>)
    requires RowsOk(rows, height, flat) && Sorted(flat, key) && t !in flat && t < |height| && 1 <= h
    requires |heads| == |rows| == |rows'|
    requires forall k :: 0 <= k < |rows| ==> HeadAt(rows[k], key, At(key, t), heads[k])
    requires forall k :: 0 <= k < |rows| ==> heads[k] <= |rows[k]|
    requires forall k :: 0 <= k < |rows| ==>
      rows'[k] == if |rows| - k <= h then InsertAfterHead(rows[k], heads[k], t) else rows[k]
    ensures RowsOk(rows', height[t := h], Insert(flat, t, key))
  {
    var height' := height[t := h];
    InsertMembers(flat, t, key);
    hide Tall, Insert, Sorted, HeadAt;
    forall k | 0 <= k < |rows| ensures rows'[k] == Tall(Insert(flat, t, key), height', |rows| - k) {
      RowInsert(rows[k], heads[k], height, flat, t, h, key, |rows| - k);
    }
  }

  lemma RowInsert(row: seq<nat>, head: nat, height: seq<int>, flat: seq<nat>, t: nat, h: nat, key: seq<int>, k: int)
    requires row == Tall(flat, height, k) && Sorted(flat, key) && t !in flat && t < |height|
    requires HeadAt(row, key, At(key, t), head)
    ensures Tall(Insert(flat, t, key), height[t := h], k) == if k <= h then InsertAfterHead(row, head, t) else row
  {
    var height' := height[t := h];
    TallSame(flat, height, height', k);
    InsertAt(row, t, key, head);
    hide Tall, Insert, Sorted, HeadAt;
    TallInsert(flat, height', k, t, key);
  }
}
