/** Sequence operations the source uses through library calls: `filter` (JavaScript) and
    list comprehensions (Python), `reverse`, and the stable sorts behind Python's `sorted`
    and JavaScript's `Array.prototype.sort`. */
module Seqs {

  /** `s.filter(p)` / `[x for x in s if p(x)]`: the elements satisfying `p`, in their original order. */
  function Filter<T>(s: seq<T>, p: T -> bool): (r: seq<T>)
    ensures |r| <= |s|
    ensures forall i :: 0 <= i < |r| ==> p(r[i])
  {
    if s == [] then []
    else
      (if p(s[0]) then [s[0]] else []) + Filter(s[1..], p)
  }

  /** Every element of the filtered sequence comes from the original. */
  lemma {:induction false} FilterFrom<T>(s: seq<T>, p: T -> bool, i: nat)
    requires i < |Filter(s, p)|
    ensures Filter(s, p)[i] in s
  {
    if p(s[0]) && i == 0 {
    } else {
      var j := if p(s[0]) then i - 1 else i;
      assert Filter(s, p)[i] == Filter(s[1..], p)[j];
      FilterFrom(s[1..], p, j);
      assert s[1..] == s[1..];
    }
  }

  /** Every element satisfying `p` survives the filter. */
  lemma {:induction false} FilterKeeps<T>(s: seq<T>, p: T -> bool, i: nat)
    requires i < |s| && p(s[i])
    ensures s[i] in Filter(s, p)
  {
    if i > 0 {
      FilterKeeps(s[1..], p, i - 1);
    }
  }

  /** Two elements of the filtered sequence come from two positions of the original in the
      same order. */
  lemma {:induction false} FilterPairs<T>(s: seq<T>, p: T -> bool, i: nat, j: nat)
    requires i < j < |Filter(s, p)|
    ensures InOrder(s, Filter(s, p)[i], Filter(s, p)[j])
  {
    var tail := Filter(s[1..], p);
    if p(s[0]) {
      assert Filter(s, p) == [s[0]] + tail;
      if i == 0 {
        FilterFrom(s[1..], p, j - 1);
        var b :| 0 <= b < |s[1..]| && s[1..][b] == tail[j - 1];
        assert s[b + 1] == Filter(s, p)[j];
      } else {
        FilterPairs(s[1..], p, i - 1, j - 1);
        var a, b :| 0 <= a < b < |s[1..]| && s[1..][a] == tail[i - 1] && s[1..][b] == tail[j - 1];
        assert s[a + 1] == Filter(s, p)[i] && s[b + 1] == Filter(s, p)[j];
      }
    } else {
      assert Filter(s, p) == tail;
      FilterPairs(s[1..], p, i, j);
      var a, b :| 0 <= a < b < |s[1..]| && s[1..][a] == tail[i] && s[1..][b] == tail[j];
      assert s[a + 1] == Filter(s, p)[i] && s[b + 1] == Filter(s, p)[j];
    }
  }

  /** Any two elements of `r` occur in `s` in the same order. */
  ghost predicate OrderedWithin<T>(r: seq<T>, s: seq<T>)
  {
    forall i, j :: 0 <= i < j < |r| ==> InOrder(s, r[i], r[j])
  }

  /** `x` occurs in `s` before `y`. */
  ghost predicate InOrder<T>(s: seq<T>, x: T, y: T)
  {
    exists a, b :: 0 <= a < b < |s| && s[a] == x && s[b] == y
  }

  /** Filtering never reorders what it keeps. */
  lemma FilterOrdered<T>(s: seq<T>, p: T -> bool)
    ensures OrderedWithin(Filter(s, p), s)
  {
    var r := Filter(s, p);
    forall i: int, j: int | 0 <= i < j < |r|
      ensures InOrder(s, r[i], r[j])
    {
      FilterPairs(s, p, i, j);
    }
  }

  /** Filtering distributes over concatenation, so it never reorders what it keeps. */
  lemma {:induction false} FilterConcat<T>(a: seq<T>, b: seq<T>, p: T -> bool)
    ensures Filter(a + b, p) == Filter(a, p) + Filter(b, p)
  {
    if a == [] {
      assert a + b == b;
    } else {
      assert (a + b)[0] == a[0];
      assert (a + b)[1..] == a[1..] + b;
      FilterConcat(a[1..], b, p);
    }
  }

  /** A filter that keeps every element returns the sequence itself. */
  lemma {:induction false} FilterKeepsAll<T>(s: seq<T>, p: T -> bool)
    requires forall i :: 0 <= i < |s| ==> p(s[i])
    ensures Filter(s, p) == s
  {
    if s != [] {
      FilterKeepsAll(s[1..], p);
    }
  }

  /** A filter that keeps no element returns the empty sequence. */
  lemma {:induction false} FilterKeepsNone<T>(s: seq<T>, p: T -> bool)
    requires forall i :: 0 <= i < |s| ==> !p(s[i])
    ensures Filter(s, p) == []
  {
    if s != [] {
      FilterKeepsNone(s[1..], p);
    }
  }

  /** Filtering keeps a strictly increasing key strictly increasing: it drops elements
      but never reorders them. */
  lemma {:induction false} FilterKeepsIncreasing<T>(s: seq<T>, p: T -> bool, key: T -> int)
    requires forall i, j :: 0 <= i < j < |s| ==> key(s[i]) < key(s[j])
    ensures forall i, j :: 0 <= i < j < |Filter(s, p)| ==> key(Filter(s, p)[i]) < key(Filter(s, p)[j])
  {
    if s != [] {
      var tail := Filter(s[1..], p);
      FilterKeepsIncreasing(s[1..], p, key);
      forall m | 0 <= m < |tail| ensures key(s[0]) < key(tail[m]) {
        FilterFrom(s[1..], p, m);
        var n :| 0 <= n < |s[1..]| && s[1..][n] == tail[m];
        assert s[n + 1] == tail[m];
      }
    }
  }

  /** Filtering by `q` after filtering by a weaker `p` is filtering by `q` alone. */
  lemma {:induction false} FilterFilterImplied<T>(s: seq<T>, p: T -> bool, q: T -> bool)
    requires forall x :: q(x) ==> p(x)
    ensures Filter(Filter(s, p), q) == Filter(s, q)
  {
    if s != [] {
      FilterFilterImplied(s[1..], p, q);
      FilterConcat(if p(s[0]) then [s[0]] else [], Filter(s[1..], p), q);
    }
  }

  /** `s.slice().reverse()`: a reversed copy. */
  function Reverse<T>(s: seq<T>): (r: seq<T>)
    ensures |r| == |s|
    ensures forall i :: 0 <= i < |s| ==> r[i] == s[|s| - 1 - i]
  {
    if s == [] then [] else Reverse(s[1..]) + [s[0]]
  }

  /** The elements of `s` whose key is `k`, in their original order. */
  function WithKey<T>(s: seq<T>, key: T -> int, k: int): seq<T>
  {
    if s == [] then [] else (if key(s[0]) == k then [s[0]] else []) + WithKey(s[1..], key, k)
  }

  lemma {:induction false} WithKeyConcat<T>(a: seq<T>, b: seq<T>, key: T -> int, k: int)
    ensures WithKey(a + b, key, k) == WithKey(a, key, k) + WithKey(b, key, k)
  {
    if a == [] {
      assert a + b == b;
    } else {
      var head := if key(a[0]) == k then [a[0]] else [];
      assert (a + b)[1..] == a[1..] + b;
      calc {
        WithKey(a + b, key, k);
        head + WithKey(a[1..] + b, key, k);
        { WithKeyConcat(a[1..], b, key, k); }
        head + (WithKey(a[1..], key, k) + WithKey(b, key, k));
        (head + WithKey(a[1..], key, k)) + WithKey(b, key, k);
      }
    }
  }

  /** `s` is in non-decreasing order of `key`. */
  predicate SortedBy<T>(s: seq<T>, key: T -> int)
  {
    forall i, j :: 0 <= i < j < |s| ==> key(s[i]) <= key(s[j])
  }

  /** One step of a stable insertion sort: `x` goes after every element whose key is at
      most its own. */
  function InsertLast<T>(t: seq<T>, x: T, key: T -> int): (r: seq<T>)
    ensures |r| == |t| + 1
    ensures multiset(r) == multiset(t) + multiset{x}
  {
    if t == [] || key(t[|t| - 1]) <= key(x) then t + [x]
    else
      assert t == t[..|t| - 1] + [t[|t| - 1]];
      InsertLast(t[..|t| - 1], x, key) + [t[|t| - 1]]
  }

  /** The stable sort by `key`: each element, from the first to the last, is inserted
      behind everything with a key no greater than its own. */
  function SortBy<T>(s: seq<T>, key: T -> int): (r: seq<T>)
    ensures |r| == |s|
    ensures multiset(r) == multiset(s)
  {
    if s == [] then []
    else
      assert s == s[..|s| - 1] + [s[|s| - 1]];
      InsertLast(SortBy(s[..|s| - 1], key), s[|s| - 1], key)
  }

  /** Dropping the last element of `t` keeps its first `j` elements and the rest of its tail. */
  lemma DropLastSplit<T>(t: seq<T>, j: nat)
    requires j < |t|
    ensures t[..|t| - 1][..j] == t[..j]
    ensures t[..|t| - 1][j..] + [t[|t| - 1]] == t[j..]
  {
  }

  lemma Reassociate<T>(a: seq<T>, x: T, b: seq<T>, last: T)
    ensures (a + [x] + b) + [last] == a + [x] + (b + [last])
  {
  }

  /** `InsertLast` passes over a last element whose key is greater than that of `x`. */
  lemma InsertLastPasses<T>(t: seq<T>, x: T, key: T -> int)
    requires |t| > 0 && key(t[|t| - 1]) > key(x)
    ensures InsertLast(t, x, key) == InsertLast(t[..|t| - 1], x, key) + [t[|t| - 1]]
  {
  }

  /** Where `InsertLast` puts `x`: right after the last element with a key no greater than its own. */
  lemma {:induction false} InsertLastAt<T>(t: seq<T>, x: T, key: T -> int, j: nat)
    requires j <= |t|
    requires forall m :: j <= m < |t| ==> key(t[m]) > key(x)
    requires j == 0 || key(t[j - 1]) <= key(x)
    ensures InsertLast(t, x, key) == t[..j] + [x] + t[j..]
    decreases |t|
  {
    if |t| > j {
      var init, last := t[..|t| - 1], t[|t| - 1];
      InsertLastPasses(t, x, key);
      forall m | j <= m < |init|
        ensures key(init[m]) > key(x)
      {
        assert init[m] == t[m];
      }
      assert j > 0 ==> init[j - 1] == t[j - 1];
      InsertLastAt(init, x, key, j);
      DropLastSplit(t, j);
      Reassociate(init[..j], x, init[j..], last);
    } else {
      assert t[..j] == t && t[j..] == [];
    }
  }

  lemma {:induction false} InsertLastSorted<T>(t: seq<T>, x: T, key: T -> int)
    requires SortedBy(t, key)
    ensures SortedBy(InsertLast(t, x, key), key)
    decreases |t|
  {
    if !(t == [] || key(t[|t| - 1]) <= key(x)) {
      var init, last := t[..|t| - 1], t[|t| - 1];
      InsertLastSorted(init, x, key);
      var r' := InsertLast(init, x, key);
      forall i | 0 <= i < |r'| ensures key(r'[i]) <= key(last) {
        assert r'[i] in multiset(r');
        if r'[i] != x {
          assert r'[i] in multiset(init);
          var m :| 0 <= m < |init| && init[m] == r'[i];
          assert t[m] == init[m];
        }
      }
    }
  }

  /** The result of `SortBy` is in non-decreasing key order. */
  lemma {:induction false} SortBySorted<T>(s: seq<T>, key: T -> int)
    ensures SortedBy(SortBy(s, key), key)
  {
    if s != [] {
      SortBySorted(s[..|s| - 1], key);
      InsertLastSorted(SortBy(s[..|s| - 1], key), s[|s| - 1], key);
    }
  }

  lemma {:induction false} InsertLastWithKey<T>(t: seq<T>, x: T, key: T -> int, k: int)
    ensures WithKey(InsertLast(t, x, key), key, k)
         == WithKey(t, key, k) + (if key(x) == k then [x] else [])
    decreases |t|
  {
    if t == [] || key(t[|t| - 1]) <= key(x) {
      WithKeyConcat(t, [x], key, k);
    } else {
      var init, last := t[..|t| - 1], t[|t| - 1];
      assert t == init + [last];
      InsertLastWithKey(init, x, key, k);
      WithKeyConcat(InsertLast(init, x, key), [last], key, k);
      WithKeyConcat(init, [last], key, k);
    }
  }

  /** Stability: the elements that share a key keep their original relative order. */
  lemma {:induction false} SortByStable<T>(s: seq<T>, key: T -> int, k: int)
    ensures WithKey(SortBy(s, key), key, k) == WithKey(s, key, k)
  {
    if s != [] {
      var init, last := s[..|s| - 1], s[|s| - 1];
      assert s == init + [last];
      SortByStable(init, key, k);
      InsertLastWithKey(SortBy(init, key), last, key, k);
      WithKeyConcat(init, [last], key, k);
    }
  }

  lemma {:induction false} WithKeyAll<T>(s: seq<T>, key: T -> int, k: int)
    requires forall i :: 0 <= i < |s| ==> key(s[i]) == k
    ensures WithKey(s, key, k) == s
  {
    if s != [] {
      WithKeyAll(s[1..], key, k);
    }
  }

  /** When every key is the same, the stable sort leaves the order untouched. */
  lemma SortByConstantKey<T>(s: seq<T>, key: T -> int, k: int)
    requires forall i :: 0 <= i < |s| ==> key(s[i]) == k
    ensures SortBy(s, key) == s
  {
    var r := SortBy(s, key);
    forall i | 0 <= i < |r| ensures key(r[i]) == k {
      assert r[i] in multiset(s);
    }
    SortByStable(s, key, k);
    WithKeyAll(s, key, k);
    WithKeyAll(r, key, k);
  }

  /** One step of the inner insertion loop: swapping `x` with its left neighbour keeps the
      shape `sorted[..j] + [x] + sorted[j..] + rest`, one position further left. */
  lemma SwapLeft<T>(before: seq<T>, sorted: seq<T>, x: T, rest: seq<T>, j: nat, key: T -> int)
    requires 0 < j <= |sorted|
    requires before == sorted[..j] + [x] + sorted[j..] + rest
    requires key(before[j - 1]) > key(before[j])
    requires forall m :: j <= m < |sorted| ==> key(sorted[m]) > key(x)
    ensures before[j - 1 := before[j]][j := before[j - 1]] == sorted[..j - 1] + [x] + sorted[j - 1..] + rest
    ensures forall m :: j - 1 <= m < |sorted| ==> key(sorted[m]) > key(x)
  {
    var after := before[j - 1 := before[j]][j := before[j - 1]];
    var goal := sorted[..j - 1] + [x] + sorted[j - 1..] + rest;
    assert before[j - 1] == sorted[j - 1] && before[j] == x;
    assert |after| == |goal|;
    forall m | 0 <= m < |after| ensures after[m] == goal[m] {
      if m < j - 1 {
      } else if m == j - 1 {
      } else if m == j {
      } else {
      }
    }
  }

  lemma SortByPrefixStep<T>(s: seq<T>, i: nat, key: T -> int)
    requires i < |s|
    ensures SortBy(s[..i + 1], key) == InsertLast(SortBy(s[..i], key), s[i], key)
  {
    assert s[..i + 1][..i] == s[..i];
  }

  /** One pass of the insertion sort: moves `a[i]` left past every element of the prefix
      `a[..i]` with a larger key, leaving the rest of the array alone. */
  method InsertInPlace<T>(a: array<T>, i: nat, key: T -> int)
    requires i < a.Length
    modifies a
    ensures a[..] == InsertLast(old(a[..i]), old(a[i]), key) + old(a[i + 1..])
  {
    ghost var sorted := a[..i];
    ghost var x := a[i];
    ghost var rest := a[i + 1..];
    assert a[..] == sorted[..i] + [x] + sorted[i..] + rest by {
      assert a[..] == a[..i] + [a[i]] + a[i + 1..];
    }
    var j := i;
    while j > 0 && key(a[j - 1]) > key(a[j])
      invariant 0 <= j <= i
      invariant a[..] == sorted[..j] + [x] + sorted[j..] + rest
      invariant forall m :: j <= m < |sorted| ==> key(sorted[m]) > key(x)
    {
      ghost var before := a[..];
      SwapLeft(before, sorted, x, rest, j, key);
      a[j - 1], a[j] := a[j], a[j - 1];
      assert a[..] == before[j - 1 := before[j]][j := before[j - 1]];
      j := j - 1;
    }
    assert j > 0 ==> a[j - 1] == sorted[j - 1] && a[j] == x;
    InsertLastAt(sorted, x, key, j);
  }

  /** `a.sort(compare)` in place, where `compare(x, y)` is `key(x) - key(y)`: an insertion
      sort whose result is exactly the stable sort of the original contents. */
  method SortInPlace<T>(a: array<T>, key: T -> int)
    modifies a
    ensures a[..] == SortBy(old(a[..]), key)
  {
    ghost var orig := a[..];
    var i := 0;
    while i < a.Length
      invariant 0 <= i <= a.Length
      invariant a[..] == SortBy(orig[..i], key) + orig[i..]
    {
      ghost var sorted := SortBy(orig[..i], key);
      assert a[..i] == sorted && a[i] == orig[i] && a[i + 1..] == orig[i + 1..];
      InsertInPlace(a, i, key);
      SortByPrefixStep(orig, i, key);
      i := i + 1;
    }
    assert orig[..a.Length] == orig;
  }
}
