/**
 * Python list helpers the core relies on: prefix slicing `xs[:n]` and the
 * stable `list.sort(key=..., reverse=...)`.
 */
module Seqs {

  /** `xs[:n]` for a non-negative `n`. */
  function Take<T>(xs: seq<T>, n: nat): (r: seq<T>)
    ensures |r| <= n && |r| <= |xs|
    ensures |r| == if n <= |xs| then n else |xs|
    ensures r == xs[..|r|]
  {
    if n <= |xs| then xs[..n] else xs
  }

  /** `xs[:n]` for any integer `n`: a negative bound counts from the end. */
  function PyPrefix<T>(xs: seq<T>, n: int): (r: seq<T>)
    ensures n >= 0 ==> r == Take(xs, n)
    ensures n < 0 ==> |r| == if |xs| + n < 0 then 0 else |xs| + n
    ensures r == xs[..|r|]
  {
    if n >= 0 then Take(xs, n)
    else if |xs| + n < 0 then []
    else xs[..|xs| + n]
  }

  // ---------------------------------------------------------------------
  // Stable sort. `before(a, b)` says that key `a` is ranked strictly ahead
  // of key `b`; Python's `sort(key=f, reverse=True)` is `before := >` on
  // `f`, and `sort(key=f)` is `before := <`.
  // ---------------------------------------------------------------------

  ghost predicate StrictTotalOrder<K(!new)>(before: (K, K) -> bool) {
    && (forall a :: !before(a, a))
    && (forall a, b, c :: before(a, b) && before(b, c) ==> before(a, c))
    && (forall a, b :: a == b || before(a, b) || before(b, a))
  }

  /** No element is ranked strictly ahead of an element placed before it. */
  ghost predicate SortedBy<T, K>(xs: seq<T>, key: T -> K, before: (K, K) -> bool) {
    forall i, j :: 0 <= i < j < |xs| ==> !before(key(xs[j]), key(xs[i]))
  }

  /** The elements of `xs` whose key is `k`, in their order in `xs`. */
  function WithKey<T, K(==)>(xs: seq<T>, key: T -> K, k: K): (r: seq<T>)
    ensures |r| <= |xs|
  {
    if xs == [] then []
    else (if key(xs[0]) == k then [xs[0]] else []) + WithKey(xs[1..], key, k)
  }

  /** Inserts `x` ahead of every element that is not ranked strictly ahead of it. */
  function Insert<T, K>(x: T, ys: seq<T>, key: T -> K, before: (K, K) -> bool): (r: seq<T>)
    ensures |r| == |ys| + 1
  {
    if ys == [] then [x]
    else if before(key(ys[0]), key(x)) then [ys[0]] + Insert(x, ys[1..], key, before)
    else [x] + ys
  }

  /** A stable sort: insertion sort, inserting from the back. */
  function SortBy<T, K>(xs: seq<T>, key: T -> K, before: (K, K) -> bool): (r: seq<T>)
    ensures |r| == |xs|
  {
    if xs == [] then [] else Insert(xs[0], SortBy(xs[1..], key, before), key, before)
  }

  lemma {:induction false} InsertPermutes<T, K>(x: T, ys: seq<T>, key: T -> K, before: (K, K) -> bool)
    ensures multiset(Insert(x, ys, key, before)) == multiset(ys) + multiset{x}
  {
    if ys != [] && before(key(ys[0]), key(x)) {
      assert ys == [ys[0]] + ys[1..];
      InsertPermutes(x, ys[1..], key, before);
    }
  }

  /** The sort is a permutation of its input. */
  lemma {:induction false} SortByPermutes<T, K>(xs: seq<T>, key: T -> K, before: (K, K) -> bool)
    ensures multiset(SortBy(xs, key, before)) == multiset(xs)
  {
    if xs != [] {
      assert xs == [xs[0]] + xs[1..];
      SortByPermutes(xs[1..], key, before);
      InsertPermutes(xs[0], SortBy(xs[1..], key, before), key, before);
    }
  }

  /** Every element of the sort comes from the input, and every input element is in the sort. */
  lemma SortByMembers<T, K>(xs: seq<T>, key: T -> K, before: (K, K) -> bool)
    ensures forall x :: x in SortBy(xs, key, before) <==> x in xs
  {
    SortByPermutes(xs, key, before);
    forall x ensures x in SortBy(xs, key, before) <==> x in xs {
      assert x in SortBy(xs, key, before) <==> x in multiset(SortBy(xs, key, before));
      assert x in xs <==> x in multiset(xs);
    }
  }

  lemma {:induction false} WithKeyAppend<T, K>(a: seq<T>, b: seq<T>, key: T -> K, k: K)
    ensures WithKey(a + b, key, k) == WithKey(a, key, k) + WithKey(b, key, k)
  {
    if a != [] {
      assert (a + b)[0] == a[0] && (a + b)[1..] == a[1..] + b;
      WithKeyAppend(a[1..], b, key, k);
    } else {
      assert a + b == b;
    }
  }

  lemma WithKeyCons<T, K>(x: T, ys: seq<T>, key: T -> K, k: K)
    ensures WithKey([x] + ys, key, k) == (if key(x) == k then [x] else []) + WithKey(ys, key, k)
  {
    assert ([x] + ys)[0] == x && ([x] + ys)[1..] == ys;
  }

  /** Inserting an element no better than `b` among elements no better than `b` keeps that so. */
  lemma {:induction false} InsertBound<T, K>(x: T, ys: seq<T>, key: T -> K, before: (K, K) -> bool, b: K)
    requires !before(key(x), b)
    requires forall j :: 0 <= j < |ys| ==> !before(key(ys[j]), b)
    ensures forall j :: 0 <= j < |Insert(x, ys, key, before)| ==> !before(key(Insert(x, ys, key, before)[j]), b)
  {
    if ys != [] && before(key(ys[0]), key(x)) {
      InsertBound(x, ys[1..], key, before, b);
      var rest := Insert(x, ys[1..], key, before);
      assert Insert(x, ys, key, before) == [ys[0]] + rest;
      forall j | 0 <= j < |[ys[0]] + rest| ensures !before(key(([ys[0]] + rest)[j]), b) {
        if j > 0 {
          assert ([ys[0]] + rest)[j] == rest[j - 1];
        }
      }
    } else if ys != [] {
      forall j | 0 <= j < |[x] + ys| ensures !before(key(([x] + ys)[j]), b) {
        if j > 0 {
          assert ([x] + ys)[j] == ys[j - 1];
        }
      }
    }
  }

  lemma {:induction false} InsertSorted<T, K(!new)>(x: T, ys: seq<T>, key: T -> K, before: (K, K) -> bool)
    requires StrictTotalOrder(before)
    requires SortedBy(ys, key, before)
    ensures SortedBy(Insert(x, ys, key, before), key, before)
  {
    if ys != [] {
      var r := Insert(x, ys, key, before);
      if before(key(ys[0]), key(x)) {
        var rest := Insert(x, ys[1..], key, before);
        assert r == [ys[0]] + rest;
        assert SortedBy(ys[1..], key, before);
        InsertSorted(x, ys[1..], key, before);
        assert !before(key(x), key(ys[0]));
        InsertBound(x, ys[1..], key, before, key(ys[0]));
        forall i, j | 0 <= i < j < |r| ensures !before(key(r[j]), key(r[i])) {
          assert r[j] == rest[j - 1];
          if i > 0 {
            assert r[i] == rest[i - 1];
          }
        }
      } else {
        assert r == [x] + ys;
        forall i, j | 0 <= i < j < |r| ensures !before(key(r[j]), key(r[i])) {
          assert r[j] == ys[j - 1];
          if i > 0 {
            assert r[i] == ys[i - 1];
          } else {
            assert !before(key(ys[j - 1]), key(ys[0]));
          }
        }
      }
    }
  }

  lemma {:induction false} InsertWithKey<T, K>(x: T, ys: seq<T>, key: T -> K, before: (K, K) -> bool, k: K)
    requires !before(key(x), key(x))
    ensures WithKey(Insert(x, ys, key, before), key, k)
         == (if key(x) == k then [x] else []) + WithKey(ys, key, k)
  {
    var mine := if key(x) == k then [x] else [];
    if ys == [] {
      WithKeyCons(x, [], key, k);
      assert [x] + [] == [x];
    } else if before(key(ys[0]), key(x)) {
      var rest := Insert(x, ys[1..], key, before);
      var head := if key(ys[0]) == k then [ys[0]] else [];
      var tail := WithKey(ys[1..], key, k);
      assert Insert(x, ys, key, before) == [ys[0]] + rest;
      InsertWithKey(x, ys[1..], key, before, k);
      WithKeyCons(ys[0], rest, key, k);
      assert WithKey(ys, key, k) == head + tail;
      assert head == [] || mine == [];
      assert head + (mine + tail) == mine + (head + tail);
    } else {
      WithKeyCons(x, ys, key, k);
    }
  }

  lemma {:induction false} SortBySorted<T, K(!new)>(xs: seq<T>, key: T -> K, before: (K, K) -> bool)
    requires StrictTotalOrder(before)
    ensures SortedBy(SortBy(xs, key, before), key, before)
  {
    if xs != [] {
      SortBySorted(xs[1..], key, before);
      InsertSorted(xs[0], SortBy(xs[1..], key, before), key, before);
    }
  }

  /** Elements with equal keys keep their relative order. */
  lemma {:induction false} SortByStable<T, K(!new)>(xs: seq<T>, key: T -> K, before: (K, K) -> bool, k: K)
    requires forall a :: !before(a, a)
    ensures WithKey(SortBy(xs, key, before), key, k) == WithKey(xs, key, k)
  {
    if xs != [] {
      SortByStable(xs[1..], key, before, k);
      assert !before(key(xs[0]), key(xs[0]));
      InsertWithKey(xs[0], SortBy(xs[1..], key, before), key, before, k);
    }
  }

  lemma {:induction false} WithKeyPrefixMono<T, K>(xs: seq<T>, key: T -> K, k: K, p: nat, q: nat)
    requires p <= q <= |xs|
    ensures |WithKey(xs[..p], key, k)| <= |WithKey(xs[..q], key, k)|
  {
    assert xs[..q] == xs[..p] + xs[p..q];
    WithKeyAppend(xs[..p], xs[p..q], key, k);
  }

  lemma {:induction false} WithKeyPrefixGrows<T, K>(xs: seq<T>, key: T -> K, k: K, p: nat, q: nat)
    requires p < q <= |xs| && key(xs[p]) == k
    ensures |WithKey(xs[..p], key, k)| < |WithKey(xs[..q], key, k)|
  {
    assert xs[..q] == xs[..p] + xs[p..q];
    WithKeyAppend(xs[..p], xs[p..q], key, k);
    assert xs[p..q][0] == xs[p];
  }

  /** The element at position `p` with key `k` is the `m`-th of those, `m` counting the ones ahead of it. */
  lemma {:induction false} WithKeyAt<T, K>(xs: seq<T>, key: T -> K, k: K, p: nat)
    requires p < |xs| && key(xs[p]) == k
    ensures |WithKey(xs[..p], key, k)| < |WithKey(xs, key, k)|
    ensures WithKey(xs, key, k)[|WithKey(xs[..p], key, k)|] == xs[p]
  {
    var rest := [xs[p]] + xs[p + 1..];
    assert xs == xs[..p] + rest;
    WithKeyAppend(xs[..p], rest, key, k);
    assert rest[0] == xs[p] && rest[1..] == xs[p + 1..];
  }

  /** Conversely, the `m`-th element with key `k` sits at some position `p` of `xs`. */
  lemma {:induction false} WithKeyOrigin<T, K>(xs: seq<T>, key: T -> K, k: K, m: nat) returns (p: nat)
    requires m < |WithKey(xs, key, k)|
    ensures p < |xs| && xs[p] == WithKey(xs, key, k)[m] && |WithKey(xs[..p], key, k)| == m
  {
    var tail := xs[1..];
    if key(xs[0]) == k && m == 0 {
      p := 0;
      assert xs[..0] == [];
    } else {
      var m' := if key(xs[0]) == k then m - 1 else m;
      var p' := WithKeyOrigin(tail, key, k, m');
      p := p' + 1;
      assert xs[..p] == [xs[0]] + tail[..p'];
      assert ([xs[0]] + tail[..p'])[0] == xs[0] && ([xs[0]] + tail[..p'])[1..] == tail[..p'];
    }
  }

  /**
   * Two elements with equal keys keep their relative order: they come from
   * positions `p < q` of the input.
   */
  lemma {:induction false} SortByKeepsOrder<T, K(!new)>(xs: seq<T>, key: T -> K, before: (K, K) -> bool, i: nat, j: nat)
    returns (p: nat, q: nat)
    requires forall a :: !before(a, a)
    requires i < j < |SortBy(xs, key, before)|
    requires key(SortBy(xs, key, before)[i]) == key(SortBy(xs, key, before)[j])
    ensures p < q < |xs|
    ensures xs[p] == SortBy(xs, key, before)[i] && xs[q] == SortBy(xs, key, before)[j]
  {
    var ys := SortBy(xs, key, before);
    var k := key(ys[i]);
    SortByStable(xs, key, before, k);
    WithKeyAt(ys, key, k, i);
    WithKeyAt(ys, key, k, j);
    WithKeyPrefixGrows(ys, key, k, i, j);
    p := WithKeyOrigin(xs, key, k, |WithKey(ys[..i], key, k)|);
    q := WithKeyOrigin(xs, key, k, |WithKey(ys[..j], key, k)|);
    if q <= p {
      WithKeyPrefixMono(xs, key, k, q, p);
    }
  }

  lemma {:induction false} NoRepeatsMultiplicity<T>(xs: seq<T>, x: T)
    requires forall p, q :: 0 <= p < q < |xs| ==> xs[p] != xs[q]
    ensures multiset(xs)[x] <= 1
  {
    if xs != [] {
      assert xs == [xs[0]] + xs[1..];
      NoRepeatsMultiplicity(xs[1..], x);
      if xs[0] == x {
        assert x !in xs[1..];
      }
    }
  }

  /** Sorting a sequence without repeats gives one without repeats. */
  lemma SortByNoRepeats<T, K>(xs: seq<T>, key: T -> K, before: (K, K) -> bool)
    requires forall p, q :: 0 <= p < q < |xs| ==> xs[p] != xs[q]
    ensures forall i, j :: 0 <= i < j < |SortBy(xs, key, before)| ==>
      SortBy(xs, key, before)[i] != SortBy(xs, key, before)[j]
  {
    var ys := SortBy(xs, key, before);
    SortByPermutes(xs, key, before);
    forall i, j | 0 <= i < j < |ys| ensures ys[i] != ys[j] {
      NoRepeatsMultiplicity(xs, ys[i]);
      var v := ys[i];
      assert ys == ys[..j] + ys[j..];
      assert ys[..j][i] == v && ys[j..][0] == ys[j];
      assert multiset(ys)[v] == multiset(ys[..j])[v] + multiset(ys[j..])[v];
      assert multiset(ys)[v] >= 1 + (if ys[j] == v then 1 else 0);
    }
  }

  /** An element of a sorted sequence left out of its first `n` is ranked no better than any of them. */
  lemma TakeSortedBeats<T, K>(ys: seq<T>, key: T -> K, before: (K, K) -> bool, n: nat, x: T)
    requires SortedBy(ys, key, before)
    requires x in ys && x !in Take(ys, n)
    ensures |Take(ys, n)| == n
    ensures forall i :: 0 <= i < n ==> !before(key(x), key(ys[i]))
  {
    var k :| 0 <= k < |ys| && ys[k] == x;
    assert forall i :: 0 <= i < |Take(ys, n)| ==> Take(ys, n)[i] == ys[i];
    assert k >= n;
  }

  /** Sorting a sequence that is already sorted leaves it unchanged. */
  lemma {:induction false} SortBySortedIsIdentity<T, K>(xs: seq<T>, key: T -> K, before: (K, K) -> bool)
    requires SortedBy(xs, key, before)
    ensures SortBy(xs, key, before) == xs
  {
    if xs != [] {
      var tail := xs[1..];
      assert SortedBy(tail, key, before) by {
        forall i, j | 0 <= i < j < |tail| ensures !before(key(tail[j]), key(tail[i])) {
          assert tail[i] == xs[i + 1] && tail[j] == xs[j + 1];
        }
      }
      SortBySortedIsIdentity(tail, key, before);
      if tail != [] {
        assert !before(key(tail[0]), key(xs[0])) by {
          assert tail[0] == xs[1];
        }
      }
      assert [xs[0]] + tail == xs;
    }
  }
}
