/**
 Sequence helpers the controllers' queries are built from: sums (`sum()`),
 filters (`where`), prefixes (`limit`) and orderings (`orderBy`),
 modelled as an insertion sort over any total preorder.
 */
module Sequences {

  /** Σ f(x) over the elements of `s`, in order. */
  function Sum<T>(s: seq<T>, f: T -> int): int
    decreases |s|
  {
    if s == [] then 0 else f(s[0]) + Sum(s[1..], f)
  }

  lemma {:induction false} SumAppend<T>(s: seq<T>, t: seq<T>, f: T -> int)
    ensures Sum(s + t, f) == Sum(s, f) + Sum(t, f)
    decreases |s|
  {
    if s == [] {
      assert s + t == t;
    } else {
      assert (s + t)[1..] == s[1..] + t;
      SumAppend(s[1..], t, f);
    }
  }

  /** Replacing one element changes the sum by exactly the difference it makes. */
  lemma {:induction false} SumUpdate<T>(s: seq<T>, i: nat, x: T, f: T -> int)
    requires i < |s|
    ensures Sum(s[i := x], f) == Sum(s, f) - f(s[i]) + f(x)
    decreases |s|
  {
    if i == 0 {
      assert s[i := x][1..] == s[1..];
    } else {
      assert s[i := x][1..] == s[1..][i - 1 := x];
      SumUpdate(s[1..], i - 1, x, f);
    }
  }

  lemma {:induction false} SumNonNegative<T>(s: seq<T>, f: T -> int)
    requires forall i :: 0 <= i < |s| ==> f(s[i]) >= 0
    ensures Sum(s, f) >= 0
    decreases |s|
  {
    if s != [] {
      SumNonNegative(s[1..], f);
    }
  }

  lemma {:induction false} SumZero<T>(s: seq<T>, f: T -> int)
    requires forall i :: 0 <= i < |s| ==> f(s[i]) == 0
    ensures Sum(s, f) == 0
    decreases |s|
  {
    if s != [] {
      SumZero(s[1..], f);
    }
  }

  /** When only `s[i]` contributes, the sum is that contribution. */
  lemma {:induction false} SumSingle<T>(s: seq<T>, i: nat, f: T -> int)
    requires i < |s|
    requires forall j :: 0 <= j < |s| && j != i ==> f(s[j]) == 0
    ensures Sum(s, f) == f(s[i])
    decreases |s|
  {
    if i == 0 {
      SumZero(s[1..], f);
    } else {
      SumSingle(s[1..], i - 1, f);
    }
  }

  /** Dropping the element at `i` lowers the sum by its contribution. */
  lemma {:induction false} SumRemove<T>(s: seq<T>, i: nat, f: T -> int)
    requires i < |s|
    ensures Sum(s[..i] + s[i + 1..], f) == Sum(s, f) - f(s[i])
    decreases i
  {
    if i == 0 {
      assert s[..0] + s[1..] == s[1..];
    } else {
      var t := s[..i] + s[i + 1..];
      assert t[0] == s[0];
      assert t[1..] == s[1..][..i - 1] + s[1..][i..];
      SumRemove(s[1..], i - 1, f);
    }
  }

  /** The elements of `s` that satisfy `p`, in their original order. */
  function Filter<T(!new)>(s: seq<T>, p: T -> bool): (r: seq<T>)
    ensures |r| <= |s|
    ensures forall i :: 0 <= i < |r| ==> p(r[i])
    ensures forall x :: x in r <==> x in s && p(x)
    ensures multiset(r) <= multiset(s)
    decreases |s|
  {
    if s == [] then []
    else
      assert s == [s[0]] + s[1..];
      if p(s[0]) then [s[0]] + Filter(s[1..], p)
      else Filter(s[1..], p)
  }

  lemma {:induction false} FilterAppend<T(!new)>(s: seq<T>, t: seq<T>, p: T -> bool)
    ensures Filter(s + t, p) == Filter(s, p) + Filter(t, p)
    decreases |s|
  {
    if s == [] {
      assert s + t == t;
    } else {
      assert (s + t)[1..] == s[1..] + t;
      FilterAppend(s[1..], t, p);
    }
  }

  /** Summing `g`, which is `f` on the elements `p` keeps and 0 elsewhere, is
      summing `f` over the kept elements. */
  lemma {:induction false} SumFilter<T(!new)>(s: seq<T>, p: T -> bool, f: T -> int, g: T -> int)
    requires forall x :: g(x) == (if p(x) then f(x) else 0)
    ensures Sum(s, g) == Sum(Filter(s, p), f)
    decreases |s|
  {
    if s != [] {
      SumFilter(s[1..], p, f, g);
      if p(s[0]) {
        assert ([s[0]] + Filter(s[1..], p))[1..] == Filter(s[1..], p);
      }
    }
  }

  /** A relation that holds between every earlier and later element still
      holds after filtering, since filtering keeps the order. */
  lemma {:induction false} FilterPairwise<T(!new)>(s: seq<T>, p: T -> bool, rel: (T, T) -> bool)
    requires forall i, j :: 0 <= i < j < |s| ==> rel(s[i], s[j])
    ensures forall i, j :: 0 <= i < j < |Filter(s, p)| ==> rel(Filter(s, p)[i], Filter(s, p)[j])
    decreases |s|
  {
    if s != [] {
      var tail := s[1..];
      forall i, j | 0 <= i < j < |tail| ensures rel(tail[i], tail[j]) {
        assert tail[i] == s[i + 1] && tail[j] == s[j + 1];
      }
      FilterPairwise(tail, p, rel);
      if p(s[0]) {
        var rest := Filter(tail, p);
        forall x | x in rest ensures rel(s[0], x) {
          var k :| 0 <= k < |tail| && tail[k] == x;
          assert s[k + 1] == x;
        }
        ConsPairwise(s[0], rest, rel);
      }
    }
  }

  /** Putting `h` in front of a pairwise-related sequence keeps it so when
      `h` is related to each of its elements. */
  lemma ConsPairwise<T>(h: T, s: seq<T>, rel: (T, T) -> bool)
    requires forall i, j :: 0 <= i < j < |s| ==> rel(s[i], s[j])
    requires forall x :: x in s ==> rel(h, x)
    ensures forall i, j :: 0 <= i < j < |[h] + s| ==> rel(([h] + s)[i], ([h] + s)[j])
  {
    var r := [h] + s;
    forall i, j | 0 <= i < j < |r| ensures rel(r[i], r[j]) {
      if i == 0 {
        assert r[j] == s[j - 1];
      } else {
        assert r[i] == s[i - 1] && r[j] == s[j - 1];
      }
    }
  }

  lemma {:induction false} FilterNone<T(!new)>(s: seq<T>, p: T -> bool)
    requires forall k :: 0 <= k < |s| ==> !p(s[k])
    ensures Filter(s, p) == []
    decreases |s|
  {
    if s != [] {
      FilterNone(s[1..], p);
    }
  }

  /** Filtering by a condition every element meets changes nothing. */
  lemma {:induction false} FilterKeepsAll<T(!new)>(s: seq<T>, p: T -> bool)
    requires forall k :: 0 <= k < |s| ==> p(s[k])
    ensures Filter(s, p) == s
    decreases |s|
  {
    if s != [] {
      FilterKeepsAll(s[1..], p);
    }
  }

  /** Filtering out the one element that fails the condition removes just it. */
  lemma FilterDropsOne<T(!new)>(before: seq<T>, x: T, after: seq<T>, p: T -> bool)
    requires forall k :: 0 <= k < |before| ==> p(before[k])
    requires forall k :: 0 <= k < |after| ==> p(after[k])
    requires !p(x)
    ensures Filter(before + [x] + after, p) == before + after
  {
    var fx := Filter([x], p);
    assert fx == [] by {
      assert [x][1..] == [];
    }
    FilterAppend(before + [x], after, p);
    FilterAppend(before, [x], p);
    FilterKeepsAll(before, p);
    FilterKeepsAll(after, p);
    assert before + fx == before;
  }

  /** Filtering keeps the whole sequence exactly when every element
      qualifies. */
  lemma {:induction false} FilterKeepsAllIff<T(!new)>(s: seq<T>, p: T -> bool)
    ensures |Filter(s, p)| == |s| <==> forall i :: 0 <= i < |s| ==> p(s[i])
    decreases |s|
  {
    if s != [] {
      var rest := s[1..];
      FilterKeepsAllIff(rest, p);
      if p(s[0]) && forall i :: 0 <= i < |rest| ==> p(rest[i]) {
        forall i | 0 <= i < |s| ensures p(s[i]) {
          if i > 0 { assert s[i] == rest[i - 1]; }
        }
      }
      if forall i :: 0 <= i < |s| ==> p(s[i]) {
        forall i | 0 <= i < |rest| ensures p(rest[i]) {
          assert rest[i] == s[i + 1];
        }
      }
    }
  }

  /** Filtering keeps nothing exactly when no element qualifies. */
  lemma {:induction false} FilterKeepsNoneIff<T(!new)>(s: seq<T>, p: T -> bool)
    ensures |Filter(s, p)| == 0 <==> forall i :: 0 <= i < |s| ==> !p(s[i])
    decreases |s|
  {
    if s != [] {
      var rest := s[1..];
      FilterKeepsNoneIff(rest, p);
      if !p(s[0]) && forall i :: 0 <= i < |rest| ==> !p(rest[i]) {
        forall i | 0 <= i < |s| ensures !p(s[i]) {
          if i > 0 { assert s[i] == rest[i - 1]; }
        }
      }
      if forall i :: 0 <= i < |s| ==> !p(s[i]) {
        forall i | 0 <= i < |rest| ensures !p(rest[i]) {
          assert rest[i] == s[i + 1];
        }
      }
    }
  }

  /** The number of elements of `s` that satisfy `p`. */
  function Count<T(!new)>(s: seq<T>, p: T -> bool): (n: nat)
    ensures n <= |s|
  {
    |Filter(s, p)|
  }

  /** The empty sequence has no element to count. */
  lemma CountEmpty<T(!new)>(p: T -> bool)
    ensures Count([], p) == 0
  {
  }

  /** One more element adds one to the count exactly when it satisfies `p`. */
  lemma CountAppend<T(!new)>(s: seq<T>, x: T, p: T -> bool)
    ensures Count(s + [x], p) == Count(s, p) + (if p(x) then 1 else 0)
  {
    FilterAppend(s, [x], p);
    assert [x][1..] == [];
  }

  /** The first `n` elements of `s`, or all of them when there are fewer (`limit n`). */
  function Take<T>(s: seq<T>, n: nat): (r: seq<T>)
    ensures |r| <= n && |r| <= |s|
    ensures |r| == n || r == s
    ensures r == s[..|r|]
  {
    if |s| <= n then s else s[..n]
  }

  /** The page number a paginator settles on: anything below 1 is page 1. */
  function PageNumber(page: int): (n: nat)
    ensures n >= 1
    ensures page >= 1 ==> n == page
  {
    if page < 1 then 1 else page
  }

  /** The position of page `page`'s first element: `(page - 1) * size`. */
  function PageStart(size: nat, page: int): nat
  {
    (PageNumber(page) - 1) * size
  }

  /** Page `page` (counted from 1) of `size` elements each; empty past the end. */
  function Page<T>(s: seq<T>, size: nat, page: int): (r: seq<T>)
    requires size > 0
    ensures |r| <= size
    ensures forall k :: 0 <= k < |r| ==> PageStart(size, page) + k < |s| && r[k] == s[PageStart(size, page) + k]
    ensures PageStart(size, page) >= |s| ==> r == []
    ensures PageStart(size, page) < |s| ==>
      && PageStart(size, page) + |r| <= |s|
      && (|r| == size || PageStart(size, page) + |r| == |s|)
      && r == s[PageStart(size, page)..PageStart(size, page) + |r|]
  {
    var start := PageStart(size, page);
    if start >= |s| then []
    else if start + size <= |s| then s[start..start + size]
    else s[start..]
  }

  /** Paging loses nothing: element `i` is element `i % size` of page
      `i / size + 1`. */
  lemma PageCovers<T>(s: seq<T>, size: nat, i: nat)
    requires size > 0
    requires i < |s|
    ensures i % size < |Page(s, size, i / size + 1)|
    ensures Page(s, size, i / size + 1)[i % size] == s[i]
  {
    var p := i / size + 1;
    assert PageStart(size, p) == i / size * size;
    assert i == i / size * size + i % size;
  }

  /** The page an element of `s` is listed on. */
  lemma PageOf<T>(s: seq<T>, size: nat, x: T) returns (page: nat)
    requires size > 0
    requires x in s
    ensures x in Page(s, size, page)
  {
    var i :| 0 <= i < |s| && s[i] == x;
    page := i / size + 1;
    var k := i % size;
    PageCovers(s, size, i);
    assert Page(s, size, page)[k] == x;
  }

  /** A page of a sorted sequence is sorted, and holds only its elements. */
  lemma PageOfSorted<T>(s: seq<T>, size: nat, page: int, leq: (T, T) -> bool)
    requires size > 0
    requires SortedBy(s, leq)
    ensures SortedBy(Page(s, size, page), leq)
    ensures forall x :: x in Page(s, size, page) ==> x in s
  {
    var start := PageStart(size, page);
    if start < |s| {
      var hi := start + |Page(s, size, page)|;
      SliceSorted(s, start, hi, leq);
      assert Page(s, size, page) == s[start..hi];
    }
  }

  /** Every slice of a sorted sequence is sorted. */
  lemma SliceSorted<T>(s: seq<T>, lo: nat, hi: nat, leq: (T, T) -> bool)
    requires lo <= hi <= |s|
    requires SortedBy(s, leq)
    ensures SortedBy(s[lo..hi], leq)
  {
    var r := s[lo..hi];
    forall i, j | 0 <= i < j < |r| ensures leq(r[i], r[j]) {
      assert r[i] == s[lo + i] && r[j] == s[lo + j];
    }
  }

  /** `leq` is total and transitive: an ordering an `orderBy` can sort by. */
  ghost predicate TotalPreorder<T(!new)>(leq: (T, T) -> bool)
  {
    && (forall a, b :: leq(a, b) || leq(b, a))
    && (forall a, b, c :: leq(a, b) && leq(b, c) ==> leq(a, c))
  }

  ghost predicate SortedBy<T>(s: seq<T>, leq: (T, T) -> bool)
  {
    forall i, j :: 0 <= i < j < |s| ==> leq(s[i], s[j])
  }

  /** Inserts `x` into sorted `s` before the first element it does not follow. */
  function Insert<T(!new)>(x: T, s: seq<T>, leq: (T, T) -> bool): (r: seq<T>)
    requires TotalPreorder(leq)
    requires SortedBy(s, leq)
    ensures SortedBy(r, leq)
    ensures multiset(r) == multiset(s) + multiset{x}
    decreases |s|
  {
    if s == [] then [x]
    else if leq(x, s[0]) then
      assert forall j :: 0 <= j < |s| ==> leq(x, s[j]) by {
        forall j | 0 <= j < |s| ensures leq(x, s[j]) {
          if j > 0 { assert leq(s[0], s[j]); }
        }
      }
      [x] + s
    else
      var rest := Insert(x, s[1..], leq);
      assert s == [s[0]] + s[1..];
      assert forall y :: y in rest ==> leq(s[0], y) by {
        forall y | y in rest ensures leq(s[0], y) {
          assert y in multiset(rest);
          if y == x {
          } else {
            assert y in multiset(s[1..]);
            assert y in s[1..];
            var k :| 0 <= k < |s[1..]| && s[1..][k] == y;
            assert s[k + 1] == y;
          }
        }
      }
      assert forall j :: 0 < j < |[s[0]] + rest| ==> ([s[0]] + rest)[j] in rest;
      [s[0]] + rest
  }

  /** A permutation of `s` ordered by `leq`. */
  function SortBy<T(!new)>(s: seq<T>, leq: (T, T) -> bool): (r: seq<T>)
    requires TotalPreorder(leq)
    ensures SortedBy(r, leq)
    ensures multiset(r) == multiset(s)
    ensures |r| == |s|
    decreases |s|
  {
    if s == [] then []
    else
      assert s == [s[0]] + s[1..];
      Insert(s[0], SortBy(s[1..], leq), leq)
  }

  /** The first `n` of a sorted sequence are sorted, and every element left
      out follows every element kept. */
  lemma TakeOfSorted<T>(s: seq<T>, n: nat, leq: (T, T) -> bool)
    requires SortedBy(s, leq)
    ensures SortedBy(Take(s, n), leq)
    ensures forall x :: x in s && x !in Take(s, n) ==>
      forall i :: 0 <= i < |Take(s, n)| ==> leq(Take(s, n)[i], x)
  {
    var r := Take(s, n);
    forall x | x in s && x !in r ensures forall i :: 0 <= i < |r| ==> leq(r[i], x) {
      var k :| 0 <= k < |s| && s[k] == x;
      forall i | 0 <= i < |r| ensures leq(r[i], x) {
        assert r[i] == s[i];
      }
    }
  }

  /** `orderBy(...)->limit(n)`: the first `n` elements under `leq`. Every
      element left out has each listed one before it, and nothing is left
      out unless `n` elements are listed. */
  function TopBy<T(!new)>(s: seq<T>, n: nat, leq: (T, T) -> bool): (r: seq<T>)
    requires TotalPreorder(leq)
    ensures |r| <= n
    ensures |s| >= n ==> |r| == n
    ensures |r| == n || multiset(r) == multiset(s)
    ensures forall x :: x in r ==> x in s
    ensures SortedBy(r, leq)
    ensures forall x :: x in s && x !in r ==> |r| == n && forall i :: 0 <= i < |r| ==> leq(r[i], x)
  {
    var sorted := SortBy(s, leq);
    SameElements(sorted, s);
    TakeOfSorted(sorted, n, leq);
    Take(sorted, n)
  }

  /** Membership follows from equal multisets. */
  lemma SameElements<T>(s: seq<T>, t: seq<T>)
    requires multiset(s) == multiset(t)
    ensures forall x :: x in s <==> x in t
  {
    forall x ensures x in s <==> x in t {
      assert x in s <==> x in multiset(s);
      assert x in t <==> x in multiset(t);
    }
  }
}
