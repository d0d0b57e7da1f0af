/**
 * The `java.util.stream` steps the services compose: `filter`, `findFirst`,
 * `sorted` with a comparator that puts larger keys first, and `limit(n)`.
 *
 * `sorted` is specified by the library as a stable sort; it is written here as
 * a stable insertion sort and characterised by the three facts that determine
 * a stable sort's output: the result is ordered by non-increasing key, it is a
 * permutation of the input, and for every key value the entries carrying that
 * key keep their input order.
 */
module Streams {
  import opened Wrappers

  /** `filter(p)`: the entries satisfying `p`, in their original order. */
  function Filter<T>(s: seq<T>, p: T -> bool): (r: seq<T>)
    ensures |r| <= |s|
    ensures forall x :: x in r ==> x in s && p(x)
    ensures forall x :: x in s && p(x) ==> x in r
    ensures multiset(r) <= multiset(s)
    ensures forall x :: x in s ==> multiset(r)[x] == if p(x) then multiset(s)[x] else 0
  {
    if |s| == 0 then []
    else
      assert s == [s[0]] + s[1..];
      (if p(s[0]) then [s[0]] else []) + Filter(s[1..], p)
  }

  /** The positions from `i` on whose entries satisfy `p`, in increasing order. */
  ghost function PassingFrom<T>(s: seq<T>, p: T -> bool, i: nat): seq<nat>
    requires i <= |s|
    decreases |s| - i
  {
    if i == |s| then [] else (if p(s[i]) then [i] else []) + PassingFrom(s, p, i + 1)
  }

  /** The passing positions from `i` lie in [i, |s|), strictly increase, and are exactly those whose entry passes. */
  lemma {:induction false} PassingFromPositions<T>(s: seq<T>, p: T -> bool, i: nat)
    requires i <= |s|
    ensures forall k :: 0 <= k < |PassingFrom(s, p, i)| ==> i <= PassingFrom(s, p, i)[k] < |s|
    ensures forall k, m :: 0 <= k < m < |PassingFrom(s, p, i)| ==> PassingFrom(s, p, i)[k] < PassingFrom(s, p, i)[m]
    ensures forall j :: i <= j < |s| ==> (p(s[j]) <==> j in PassingFrom(s, p, i))
    decreases |s| - i
  {
    if i < |s| {
      PassingFromPositions(s, p, i + 1);
      var rest := PassingFrom(s, p, i + 1);
      if p(s[i]) {
        assert PassingFrom(s, p, i) == [i] + rest;
        ConsIncreasing(i, rest);
      } else {
        assert PassingFrom(s, p, i) == rest;
      }
    }
  }

  /** `Filter` on the suffix from `i` reads `s` at the passing positions from `i`, left to right. */
  lemma {:induction false} FilterInOrderFrom<T>(s: seq<T>, p: T -> bool, i: nat)
    requires i <= |s|
    ensures |PassingFrom(s, p, i)| == |Filter(s[i..], p)|
    ensures forall k :: 0 <= k < |PassingFrom(s, p, i)| ==>
      PassingFrom(s, p, i)[k] < |s| && Filter(s[i..], p)[k] == s[PassingFrom(s, p, i)[k]]
    decreases |s| - i
  {
    if i < |s| {
      FilterInOrderFrom(s, p, i + 1);
      var rest, tail := PassingFrom(s, p, i + 1), Filter(s[i + 1..], p);
      assert s[i..][0] == s[i] && s[i..][1..] == s[i + 1..];
      var idx, r := PassingFrom(s, p, i), Filter(s[i..], p);
      if p(s[i]) {
        assert idx == [i] + rest;
        assert r == [s[i]] + tail;
        forall k | 0 <= k < |idx| ensures idx[k] < |s| && r[k] == s[idx[k]] {
          if k > 0 {
            assert idx[k] == rest[k - 1] && r[k] == tail[k - 1];
          }
        }
      } else {
        assert idx == rest;
        assert r == tail;
      }
    }
  }

  /** Putting a smaller position in front of an increasing list of positions keeps it increasing. */
  lemma ConsIncreasing(i: nat, rest: seq<nat>)
    requires forall k :: 0 <= k < |rest| ==> i < rest[k]
    requires forall k, m :: 0 <= k < m < |rest| ==> rest[k] < rest[m]
    ensures forall k, m :: 0 <= k < m < |[i] + rest| ==> ([i] + rest)[k] < ([i] + rest)[m]
  {
  }

  /**
   * `filter` keeps the order of the stream: its result is `s` read at a
   * strictly increasing sequence of positions, which holds every position
   * whose entry satisfies `p` and no other.
   */
  lemma FilterInOrder<T>(s: seq<T>, p: T -> bool)
    ensures |PassingFrom(s, p, 0)| == |Filter(s, p)|
    ensures forall k :: 0 <= k < |PassingFrom(s, p, 0)| ==>
      PassingFrom(s, p, 0)[k] < |s| && Filter(s, p)[k] == s[PassingFrom(s, p, 0)[k]]
    ensures forall k, m :: 0 <= k < m < |PassingFrom(s, p, 0)| ==> PassingFrom(s, p, 0)[k] < PassingFrom(s, p, 0)[m]
    ensures forall j :: 0 <= j < |s| ==> (p(s[j]) <==> j in PassingFrom(s, p, 0))
  {
    FilterInOrderFrom(s, p, 0);
    PassingFromPositions(s, p, 0);
    assert s[0..] == s;
  }

  /** `filter(p).findFirst()` on positions: the first index whose entry satisfies `p`. */
  function FirstIndex<T>(s: seq<T>, p: T -> bool): (r: Option<nat>)
    ensures r.Some? ==> r.value < |s| && p(s[r.value]) && forall j :: 0 <= j < r.value ==> !p(s[j])
    ensures r.None? ==> forall j :: 0 <= j < |s| ==> !p(s[j])
  {
    if |s| == 0 then None
    else if p(s[0]) then Some(0)
    else match FirstIndex(s[1..], p)
      case None => None
      case Some(i) => Some(i + 1)
  }

  /** Keys never increase from left to right. */
  ghost predicate NonIncreasing<T>(s: seq<T>, key: T -> real) {
    forall i, j :: 0 <= i < j < |s| ==> key(s[i]) >= key(s[j])
  }

  /** The entries of `s` whose key equals `v`, in their order in `s`. */
  function WithKey<T>(s: seq<T>, key: T -> real, v: real): (r: seq<T>)
    ensures |r| <= |s|
    ensures forall x :: x in r ==> x in s && key(x) == v
  {
    if |s| == 0 then []
    else (if key(s[0]) == v then [s[0]] else []) + WithKey(s[1..], key, v)
  }

  /** Places `x` in front of the first entry whose key is not larger than its own. */
  function Insert<T>(x: T, s: seq<T>, key: T -> real): (r: seq<T>)
    ensures |r| == |s| + 1
  {
    if |s| == 0 || key(x) >= key(s[0]) then [x] + s
    else [s[0]] + Insert(x, s[1..], key)
  }

  /** Stable sort by non-increasing key. */
  function SortDescending<T>(s: seq<T>, key: T -> real): (r: seq<T>)
    ensures |r| == |s|
  {
    if |s| == 0 then [] else Insert(s[0], SortDescending(s[1..], key), key)
  }

  /** `limit(n)`: the first `n` entries, or all of them when there are fewer. */
  function Limit<T>(s: seq<T>, n: nat): (r: seq<T>)
    ensures |r| == if |s| < n then |s| else n
    ensures r == s[..|r|]
  {
    if |s| <= n then s else s[..n]
  }

  lemma {:induction false} InsertPermutes<T>(x: T, s: seq<T>, key: T -> real)
    ensures multiset(Insert(x, s, key)) == multiset{x} + multiset(s)
  {
    if |s| > 0 && key(x) < key(s[0]) {
      InsertPermutes(x, s[1..], key);
      assert s == [s[0]] + s[1..];
    }
  }

  lemma {:induction false} InsertOrdered<T>(x: T, s: seq<T>, key: T -> real)
    requires NonIncreasing(s, key)
    ensures NonIncreasing(Insert(x, s, key), key)
  {
    if |s| > 0 && key(x) < key(s[0]) {
      var tail := s[1..];
      forall i, j | 0 <= i < j < |tail| ensures key(tail[i]) >= key(tail[j]) {
        assert tail[i] == s[i + 1] && tail[j] == s[j + 1];
      }
      forall k | 0 <= k < |tail| ensures key(tail[k]) <= key(s[0]) {
        assert tail[k] == s[k + 1];
      }
      InsertOrdered(x, tail, key);
      InsertBounded(x, tail, key, key(s[0]));
      var rest := Insert(x, tail, key);
      var r := [s[0]] + rest;
      forall i, j | 0 <= i < j < |r| ensures key(r[i]) >= key(r[j]) {
        assert r[j] == rest[j - 1];
        if i > 0 {
          assert r[i] == rest[i - 1];
        }
      }
    }
  }

  /** Inserting an entry below a bound into entries below it keeps every key below it. */
  lemma {:induction false} InsertBounded<T>(x: T, s: seq<T>, key: T -> real, b: real)
    requires key(x) <= b
    requires forall k :: 0 <= k < |s| ==> key(s[k]) <= b
    ensures forall k :: 0 <= k < |Insert(x, s, key)| ==> key(Insert(x, s, key)[k]) <= b
  {
    var r := Insert(x, s, key);
    if |s| == 0 || key(x) >= key(s[0]) {
      forall k | 0 <= k < |r| ensures key(r[k]) <= b {
        if k > 0 {
          assert r[k] == s[k - 1];
        }
      }
    } else {
      var tail := s[1..];
      forall k | 0 <= k < |tail| ensures key(tail[k]) <= b {
        assert tail[k] == s[k + 1];
      }
      InsertBounded(x, tail, key, b);
      var rest := Insert(x, tail, key);
      forall k | 0 <= k < |r| ensures key(r[k]) <= b {
        if k > 0 {
          assert r[k] == rest[k - 1];
        }
      }
    }
  }

  lemma WithKeyCons<T>(a: T, s: seq<T>, key: T -> real, v: real)
    ensures WithKey([a] + s, key, v) == (if key(a) == v then [a] else []) + WithKey(s, key, v)
  {
    assert ([a] + s)[1..] == s;
  }

  lemma {:induction false} InsertWithKey<T>(x: T, s: seq<T>, key: T -> real, v: real)
    ensures WithKey(Insert(x, s, key), key, v) == (if key(x) == v then [x] else []) + WithKey(s, key, v)
  {
    if |s| == 0 || key(x) >= key(s[0]) {
      WithKeyCons(x, s, key, v);
    } else {
      var rest := Insert(x, s[1..], key);
      InsertWithKey(x, s[1..], key, v);
      WithKeyCons(s[0], rest, key, v);
      WithKeyCons(s[0], s[1..], key, v);
      assert [s[0]] + s[1..] == s;
    }
  }

  /** The sort yields entries in non-increasing key order, and exactly the input's entries. */
  lemma {:induction false} SortDescendingCorrect<T>(s: seq<T>, key: T -> real)
    ensures NonIncreasing(SortDescending(s, key), key)
    ensures multiset(SortDescending(s, key)) == multiset(s)
  {
    if |s| > 0 {
      SortDescendingCorrect(s[1..], key);
      InsertOrdered(s[0], SortDescending(s[1..], key), key);
      InsertPermutes(s[0], SortDescending(s[1..], key), key);
      assert s == [s[0]] + s[1..];
    }
  }

  /** Stability: for every key value, the entries carrying it keep their input order. */
  lemma {:induction false} SortDescendingStable<T>(s: seq<T>, key: T -> real, v: real)
    ensures WithKey(SortDescending(s, key), key, v) == WithKey(s, key, v)
  {
    if |s| > 0 {
      SortDescendingStable(s[1..], key, v);
      InsertWithKey(s[0], SortDescending(s[1..], key), key, v);
    }
  }

  /** Keeping a prefix keeps, for every key value, a prefix of the entries carrying it. */
  lemma {:induction false} WithKeyOfPrefix<T>(s: seq<T>, n: nat, key: T -> real, v: real)
    requires n <= |s|
    ensures WithKey(s[..n], key, v) <= WithKey(s, key, v)
  {
    if n > 0 {
      WithKeyOfPrefix(s[1..], n - 1, key, v);
      assert s[..n][1..] == s[1..][..n - 1];
    }
  }

  /** The first `n` of a descending sort are in non-increasing key order. */
  lemma LimitOrdered<T>(s: seq<T>, key: T -> real, n: nat)
    ensures NonIncreasing(Limit(SortDescending(s, key), n), key)
  {
    SortDescendingCorrect(s, key);
  }

  /** No entry left out of a full top-`n` list has a larger key than the last entry kept. */
  lemma LimitKeepsLargest<T>(s: seq<T>, key: T -> real, n: nat)
    requires n > 0 && |Limit(SortDescending(s, key), n)| == n
    ensures forall x :: x in s && x !in Limit(SortDescending(s, key), n) ==>
      key(x) <= key(Limit(SortDescending(s, key), n)[n - 1])
  {
    var sorted := SortDescending(s, key);
    var top := Limit(sorted, n);
    SortDescendingCorrect(s, key);
    forall x | x in s && x !in top
      ensures key(x) <= key(top[n - 1])
    {
      assert x in multiset(sorted);
      var k :| 0 <= k < |sorted| && sorted[k] == x;
      assert forall m :: 0 <= m < n ==> top[m] == sorted[m];
      assert k >= n;
    }
  }

  /** In the top `n` of a stable descending sort, equal keys keep their input order. */
  lemma LimitStable<T>(s: seq<T>, key: T -> real, n: nat, v: real)
    ensures WithKey(Limit(SortDescending(s, key), n), key, v) <= WithKey(s, key, v)
  {
    var sorted := SortDescending(s, key);
    WithKeyOfPrefix(sorted, |Limit(sorted, n)|, key, v);
    SortDescendingStable(s, key, v);
  }
}
