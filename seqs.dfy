/** Generic sequence operations the components use: JavaScript's
    Array.prototype.filter, a stable sort by an integer key (the engine
    behind Array.prototype.sort with a numeric comparator), sums, and the
    order-preserving subsequence relation. */
module Seqs {

  datatype Option<T> = None | Some(value: T)

  /** Array.prototype.filter: the elements satisfying p, in their original order. */
  function Filter<T>(s: seq<T>, p: T -> bool): (r: seq<T>)
    ensures |r| <= |s|
  {
    if s == [] then []
    else (if p(s[0]) then [s[0]] else []) + Filter(s[1..], p)
  }

  /** What filter keeps: only elements of s satisfying p, and all of them. */
  lemma {:induction false} FilterMembers<T>(s: seq<T>, p: T -> bool)
    ensures forall i :: 0 <= i < |Filter(s, p)| ==> Filter(s, p)[i] in s && p(Filter(s, p)[i])
    ensures forall i :: 0 <= i < |s| && p(s[i]) ==> s[i] in Filter(s, p)
  {
    if s != [] {
      FilterMembers(s[1..], p);
      var head := if p(s[0]) then [s[0]] else [];
      assert Filter(s, p) == head + Filter(s[1..], p);
      forall i | 0 <= i < |s| && p(s[i])
        ensures s[i] in Filter(s, p)
      {
        if i > 0 {
          assert s[i] == s[1..][i - 1];
        }
      }
    }
  }

  lemma {:induction false} FilterAppend<T>(a: seq<T>, b: seq<T>, p: T -> bool)
    ensures Filter(a + b, p) == Filter(a, p) + Filter(b, p)
  {
    if a == [] {
      assert a + b == b;
    } else {
      var ab := a + b;
      var h := if p(a[0]) then [a[0]] else [];
      assert ab[0] == a[0];
      assert ab[1..] == a[1..] + b;
      FilterAppend(a[1..], b, p);
      assert Filter(ab, p) == h + Filter(ab[1..], p);
      assert Filter(a, p) == h + Filter(a[1..], p);
      assert h + (Filter(a[1..], p) + Filter(b, p)) == (h + Filter(a[1..], p)) + Filter(b, p);
    }
  }

  lemma FilterSingle<T>(x: T, p: T -> bool)
    ensures Filter([x], p) == if p(x) then [x] else []
  {
    assert [x][1..] == [];
  }

  /** Filter of a one-element extension, the step every left-to-right loop takes. */
  lemma FilterSnoc<T>(s: seq<T>, x: T, p: T -> bool)
    ensures Filter(s + [x], p) == Filter(s, p) + (if p(x) then [x] else [])
  {
    FilterAppend(s, [x], p);
    FilterSingle(x, p);
  }

  lemma {:induction false} FilterKeepsAll<T>(s: seq<T>, p: T -> bool)
    requires forall i :: 0 <= i < |s| ==> p(s[i])
    ensures Filter(s, p) == s
  {
    if s != [] {
      FilterKeepsAll(s[1..], p);
    }
  }

  lemma {:induction false} FilterKeepsNone<T>(s: seq<T>, p: T -> bool)
    requires forall i :: 0 <= i < |s| ==> !p(s[i])
    ensures Filter(s, p) == []
  {
    if s != [] {
      FilterKeepsNone(s[1..], p);
    }
  }

  lemma {:induction false} FilterMultiset<T>(s: seq<T>, p: T -> bool)
    ensures multiset(Filter(s, p)) <= multiset(s)
  {
    if s != [] {
      FilterMultiset(s[1..], p);
      assert s == [s[0]] + s[1..];
    }
  }

  /** filter keeps every copy of an element satisfying p and no copy of
      any other: it fixes multiplicities, not only membership. */
  lemma {:induction false} FilterCount<T>(s: seq<T>, p: T -> bool)
    ensures forall x :: multiset(Filter(s, p))[x] == if p(x) then multiset(s)[x] else 0
  {
    if s != [] {
      FilterCount(s[1..], p);
      var head := if p(s[0]) then [s[0]] else [];
      assert Filter(s, p) == head + Filter(s[1..], p);
      assert s == [s[0]] + s[1..];
      assert multiset(Filter(s, p)) == multiset(head) + multiset(Filter(s[1..], p));
      assert multiset(s) == multiset([s[0]]) + multiset(s[1..]);
    }
  }

  /** a can be obtained from b by deleting elements: a is an order-preserving subsequence of b. */
  predicate IsSubsequence<T(==)>(a: seq<T>, b: seq<T>)
    decreases |b|
  {
    if a == [] then true
    else if b == [] then false
    else (a[0] == b[0] && IsSubsequence(a[1..], b[1..])) || IsSubsequence(a, b[1..])
  }

  lemma {:induction false} FilterIsSubsequence<T>(s: seq<T>, p: T -> bool)
    ensures IsSubsequence(Filter(s, p), s)
  {
    if s != [] {
      FilterIsSubsequence(s[1..], p);
      if p(s[0]) {
        assert Filter(s, p) == [s[0]] + Filter(s[1..], p);
        assert Filter(s, p)[1..] == Filter(s[1..], p);
      } else {
        assert Filter(s, p) == Filter(s[1..], p);
      }
    }
  }

  /** Dropping the head of b keeps a subsequence of it a subsequence of b. */
  lemma SubsequenceDrop<T>(a: seq<T>, b: seq<T>)
    requires b != [] && IsSubsequence(a, b[1..])
    ensures IsSubsequence(a, b)
  {
  }

  /** The subsequence relation is transitive. */
  lemma {:induction false} SubsequenceTrans<T>(a: seq<T>, b: seq<T>, c: seq<T>)
    requires IsSubsequence(a, b) && IsSubsequence(b, c)
    ensures IsSubsequence(a, c)
    decreases |c|
  {
    if a != [] {
      if b[0] == c[0] && IsSubsequence(b[1..], c[1..]) {
        if a[0] == b[0] && IsSubsequence(a[1..], b[1..]) {
          SubsequenceTrans(a[1..], b[1..], c[1..]);
        } else {
          SubsequenceTrans(a, b[1..], c[1..]);
          SubsequenceDrop(a, c);
        }
      } else {
        SubsequenceTrans(a, b, c[1..]);
        SubsequenceDrop(a, c);
      }
    }
  }

  /** Array.prototype.map. */
  function Map<T, U>(s: seq<T>, f: T -> U): (r: seq<U>)
    ensures |r| == |s|
    ensures forall i :: 0 <= i < |s| ==> r[i] == f(s[i])
  {
    seq(|s|, i requires 0 <= i < |s| => f(s[i]))
  }

  /** Mapping keeps the subsequence relation. */
  lemma {:induction false} MapSubsequence<T, U>(a: seq<T>, b: seq<T>, f: T -> U)
    requires IsSubsequence(a, b)
    ensures IsSubsequence(Map(a, f), Map(b, f))
    decreases |b|
  {
    if a != [] {
      assert Map(b, f)[1..] == Map(b[1..], f);
      if a[0] == b[0] && IsSubsequence(a[1..], b[1..]) {
        MapSubsequence(a[1..], b[1..], f);
        assert Map(a, f)[1..] == Map(a[1..], f);
      } else {
        MapSubsequence(a, b[1..], f);
      }
    }
  }

  /** Sum of f over s, accumulated from the left as the source's forEach/reduce loops do. */
  function Sum<T>(s: seq<T>, f: T -> real): real
  {
    if s == [] then 0.0 else Sum(s[..|s| - 1], f) + f(s[|s| - 1])
  }

  lemma SumSnoc<T>(s: seq<T>, x: T, f: T -> real)
    ensures Sum(s + [x], f) == Sum(s, f) + f(x)
  {
    assert (s + [x])[..|s|] == s;
  }

  lemma {:induction false} SumAppend<T>(a: seq<T>, b: seq<T>, f: T -> real)
    ensures Sum(a + b, f) == Sum(a, f) + Sum(b, f)
  {
    if b == [] {
      assert a + b == a;
    } else {
      var b' := b[..|b| - 1];
      assert a + b == (a + b') + [b[|b| - 1]];
      assert b == b' + [b[|b| - 1]];
      SumAppend(a, b', f);
      SumSnoc(a + b', b[|b| - 1], f);
      SumSnoc(b', b[|b| - 1], f);
    }
  }

  /** Sums of two functions that agree on the elements are equal. */
  lemma {:induction false} SumCongruence<T>(s: seq<T>, f: T -> real, g: T -> real)
    requires forall i :: 0 <= i < |s| ==> f(s[i]) == g(s[i])
    ensures Sum(s, f) == Sum(s, g)
  {
    if s != [] {
      SumCongruence(s[..|s| - 1], f, g);
    }
  }

  /** A common factor comes out of a sum. */
  lemma {:induction false} SumScale<T>(s: seq<T>, f: T -> real, h: T -> real, c: real)
    requires forall i :: 0 <= i < |s| ==> f(s[i]) == c * h(s[i])
    ensures Sum(s, f) == c * Sum(s, h)
  {
    if s != [] {
      SumScale(s[..|s| - 1], f, h, c);
      var a, b := Sum(s[..|s| - 1], h), h(s[|s| - 1]);
      assert c * a + c * b == c * (a + b);
    }
  }

  /** Summing g over a map of s is summing its composition over s. */
  lemma {:induction false} SumMap<T, U>(s: seq<T>, F: T -> U, g: U -> real, h: T -> real)
    requires forall i :: 0 <= i < |s| ==> h(s[i]) == g(F(s[i]))
    ensures Sum(Map(s, F), g) == Sum(s, h)
  {
    if s != [] {
      SumMap(s[..|s| - 1], F, g, h);
      assert Map(s, F)[..|s| - 1] == Map(s[..|s| - 1], F);
    }
  }

  /** Over distinct elements, raising g by c at the one element k raises
      the sum by c exactly when k occurs. */
  lemma {:induction false} SumBump<T>(s: seq<T>, g: T -> real, h: T -> real, k: T, c: real)
    requires Distinct(s)
    requires forall i :: 0 <= i < |s| ==> g(s[i]) == h(s[i]) + (if s[i] == k then c else 0.0)
    ensures Sum(s, g) == Sum(s, h) + (if k in s then c else 0.0)
  {
    if s != [] {
      var s', x := s[..|s| - 1], s[|s| - 1];
      assert s == s' + [x];
      SumBump(s', g, h, k, c);
      assert x == k ==> k !in s';
    }
  }

  /** A non-empty sum of positive terms is positive. */
  lemma {:induction false} SumPositive<T>(s: seq<T>, f: T -> real)
    requires s != [] && forall i :: 0 <= i < |s| ==> f(s[i]) > 0.0
    ensures Sum(s, f) > 0.0
  {
    if |s| > 1 {
      SumPositive(s[..|s| - 1], f);
    }
  }

  /** A sum over a sequence does not depend on the order of its elements. */
  lemma {:induction false} SumPermutation<T>(a: seq<T>, b: seq<T>, f: T -> real)
    requires multiset(a) == multiset(b)
    ensures Sum(a, f) == Sum(b, f)
    decreases |a|
  {
    if a == [] {
      assert |b| == |multiset(b)| == 0;
    } else {
      var x := a[|a| - 1];
      var a' := a[..|a| - 1];
      assert a == a' + [x];
      assert x in multiset(b);
      var k :| 0 <= k < |b| && b[k] == x;
      var b' := b[..k] + b[k + 1..];
      assert b == b[..k] + [x] + b[k + 1..];
      assert multiset(b) == multiset(b') + multiset{x};
      assert multiset(a) == multiset(a') + multiset{x};
      assert multiset(a') == multiset(a) - multiset{x};
      assert multiset(b') == multiset(b) - multiset{x};
      SumPermutation(a', b', f);
      SumAppend(b[..k] + [x], b[k + 1..], f);
      SumSnoc(b[..k], x, f);
      SumAppend(b[..k], b[k + 1..], f);
    }
  }

  /** s is non-decreasing under key. */
  ghost predicate SortedBy<T>(s: seq<T>, key: T -> int)
  {
    forall i, j :: 0 <= i < j < |s| ==> key(s[i]) <= key(s[j])
  }

  /** The predicate "has key k", used to state stability. */
  function KeyIs<T>(key: T -> int, k: int): T -> bool
  {
    x => key(x) == k
  }

  /** Places x after every element whose key is at most key(x); on a sorted
      sequence this is the insertion step of a stable sort. */
  function Insert<T>(s: seq<T>, x: T, key: T -> int): (r: seq<T>)
    ensures multiset(r) == multiset(s) + multiset{x}
    ensures |r| == |s| + 1
  {
    if s == [] then [x]
    else if key(s[|s| - 1]) <= key(x) then s + [x]
    else
      var last := s[|s| - 1];
      assert s == s[..|s| - 1] + [last];
      Insert(s[..|s| - 1], x, key) + [last]
  }

  lemma {:induction false} InsertBounded<T>(s: seq<T>, x: T, key: T -> int, b: int)
    requires forall i :: 0 <= i < |s| ==> key(s[i]) <= b
    requires key(x) <= b
    ensures forall i :: 0 <= i < |Insert(s, x, key)| ==> key(Insert(s, x, key)[i]) <= b
  {
    if s != [] && key(s[|s| - 1]) > key(x) {
      InsertBounded(s[..|s| - 1], x, key, b);
    }
  }

  lemma {:induction false} InsertSorted<T>(s: seq<T>, x: T, key: T -> int)
    requires SortedBy(s, key)
    ensures SortedBy(Insert(s, x, key), key)
  {
    if s != [] && key(s[|s| - 1]) > key(x) {
      var s' := s[..|s| - 1];
      var last := s[|s| - 1];
      assert SortedBy(s', key);
      InsertSorted(s', x, key);
      InsertBounded(s', x, key, key(last));
      var t := Insert(s', x, key);
      assert Insert(s, x, key) == t + [last];
    }
  }

  /** Appending two elements of which at most one survives the filter
      gives the same filtered sequence in either order. */
  lemma FilterSwapLast<T>(t: seq<T>, s: seq<T>, x: T, y: T, p: T -> bool)
    requires Filter(t, p) == Filter(s + [x], p)
    requires !(p(x) && p(y))
    ensures Filter(t + [y], p) == Filter((s + [y]) + [x], p)
  {
    FilterSnoc(t, y, p);
    FilterSnoc(s, x, p);
    FilterSnoc(s, y, p);
    FilterSnoc(s + [y], x, p);
  }

  lemma {:induction false} InsertStable<T>(s: seq<T>, x: T, key: T -> int, k: int)
    requires SortedBy(s, key)
    ensures Filter(Insert(s, x, key), KeyIs(key, k)) == Filter(s + [x], KeyIs(key, k))
  {
    if s != [] && key(s[|s| - 1]) > key(x) {
      var s' := s[..|s| - 1];
      var last := s[|s| - 1];
      assert s' + [last] == s;
      assert SortedBy(s', key);
      assert Insert(s, x, key) == Insert(s', x, key) + [last];
      InsertStable(s', x, key, k);
      FilterSwapLast(Insert(s', x, key), s', x, last, KeyIs(key, k));
    }
  }

  /** A stable sort by an integer key (insertion sort, inserting the last
      element into the sorted prefix). */
  function SortBy<T>(s: seq<T>, key: T -> int): (r: seq<T>)
    ensures multiset(r) == multiset(s)
    ensures |r| == |s|
    ensures SortedBy(r, key)
  {
    if s == [] then []
    else
      var t := SortBy(s[..|s| - 1], key);
      assert s == s[..|s| - 1] + [s[|s| - 1]];
      InsertSorted(t, s[|s| - 1], key);
      Insert(t, s[|s| - 1], key)
  }

  /** Stability: among elements of equal key the sorted output keeps the input order. */
  lemma {:induction false} SortByStable<T>(s: seq<T>, key: T -> int, k: int)
    ensures Filter(SortBy(s, key), KeyIs(key, k)) == Filter(s, KeyIs(key, k))
  {
    if s != [] {
      var s' := s[..|s| - 1];
      var x := s[|s| - 1];
      var p := KeyIs(key, k);
      var t := SortBy(s', key);
      assert s == s' + [x];
      assert SortBy(s, key) == Insert(t, x, key);
      var fx := if p(x) then [x] else [];
      SortByStable(s', key, k);
      InsertStable(t, x, key, k);
      FilterSnoc(t, x, p);
      FilterSnoc(s', x, p);
      calc {
        Filter(SortBy(s, key), p);
        Filter(t + [x], p);
        Filter(t, p) + fx;
        Filter(s', p) + fx;
        Filter(s, p);
      }
    }
  }

  /** An input already in key order is returned unchanged. */
  lemma {:induction false} SortBySortedIsIdentity<T>(s: seq<T>, key: T -> int)
    requires SortedBy(s, key)
    ensures SortBy(s, key) == s
  {
    if s != [] {
      var s' := s[..|s| - 1];
      assert SortedBy(s', key);
      SortBySortedIsIdentity(s', key);
      assert s == s' + [s[|s| - 1]];
      if s' != [] {
        assert key(s'[|s'| - 1]) <= key(s[|s| - 1]);
      }
    }
  }

  /** Filtering a sorted sequence leaves it sorted. */
  lemma {:induction false} FilterSortedBy<T>(s: seq<T>, p: T -> bool, key: T -> int)
    requires SortedBy(s, key)
    ensures SortedBy(Filter(s, p), key)
  {
    if s != [] {
      assert SortedBy(s[1..], key);
      FilterSortedBy(s[1..], p, key);
      var rest := Filter(s[1..], p);
      FilterMembers(s[1..], p);
      forall j | 0 <= j < |rest| ensures key(s[0]) <= key(rest[j]) {
        var k :| 0 <= k < |s[1..]| && s[1..][k] == rest[j];
        assert s[k + 1] == rest[j];
      }
    }
  }

  /** On a sorted sequence, the first element kept by a filter has the
      least key among those it keeps. */
  lemma {:induction false} FilterHeadIsLeast<T>(s: seq<T>, p: T -> bool, key: T -> int, i: nat)
    requires SortedBy(s, key) && i < |s| && p(s[i])
    ensures Filter(s, p) != [] && key(Filter(s, p)[0]) <= key(s[i])
  {
    if !p(s[0]) {
      assert SortedBy(s[1..], key);
      FilterHeadIsLeast(s[1..], p, key, i - 1);
    }
  }

  /** The elements of s are pairwise distinct. */
  ghost predicate Distinct<T>(s: seq<T>)
  {
    forall i, j :: 0 <= i < j < |s| ==> s[i] != s[j]
  }
}
