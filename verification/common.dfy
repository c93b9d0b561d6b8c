/** Shared vocabulary for the change-point analysis model: optional values,
    error results, order-preserving filtering, stable sorting by a key, and
    absolute values of signed day differences.  Dates throughout the model
    are integer day ordinals (day 1 is 0001-01-01 of the proleptic Gregorian
    calendar), so "the difference in days" between two dates is an `int`. */
module Common {

  datatype Option<+T> = None | Some(value: T)

  datatype Result<+T, +E> = Ok(value: T) | Err(error: E)

  /** Absolute value of a signed day count. */
  function Abs(x: int): (r: nat)
    ensures r == x || r == -x
  {
    if x < 0 then -x else x
  }

  function Min(a: int, b: int): (r: int)
    ensures r <= a && r <= b && (r == a || r == b)
  {
    if a <= b then a else b
  }

  /** One observation of the daily price series: its date and the price. */
  datatype Observation = Observation(date: int, price: real)

  /** The date column of a price series. */
  function Dates(data: seq<Observation>): (ds: seq<int>)
    ensures |ds| == |data|
    ensures forall i :: 0 <= i < |data| ==> ds[i] == data[i].date
  {
    seq(|data|, i requires 0 <= i < |data| => data[i].date)
  }

  /** The date at a fractional position of the series, truncated as
      Python's `int()` does for a positive number. A posterior summary of
      change-point indices drawn from 1 .. n - 2 lies in that range, which
      keeps the lookup away from both ends of the series. */
  function DateAt(dates: seq<int>, position: real): (d: int)
    requires 1.0 <= position <= (|dates| - 2) as real
    ensures exists k :: 1 <= k <= |dates| - 2 && d == dates[k] && k as real <= position < k as real + 1.0
  {
    var k := position.Floor;
    assert k as real <= position < k as real + 1.0;
    dates[k]
  }

  /** On a strictly ascending index a looked-up date lies strictly between
      the first and the last date. */
  lemma DateAtInside(dates: seq<int>, position: real)
    requires 1.0 <= position <= (|dates| - 2) as real
    ensures (forall i, j :: 0 <= i < j < |dates| ==> dates[i] < dates[j]) ==>
              dates[0] < DateAt(dates, position) < dates[|dates| - 1]
  {
    var k := position.Floor;
    assert 1 <= k <= |dates| - 2;
  }

  // ---------------------------------------------------------------------
  // Subsequences and filtering
  // ---------------------------------------------------------------------

  /** `r` can be obtained from `s` by deleting elements, keeping the order
      of the rest. */
  predicate SubsequenceOf<T(==)>(r: seq<T>, s: seq<T>)
    decreases |s|
  {
    if r == [] then true
    else if s == [] then false
    else if r[0] == s[0] then SubsequenceOf(r[1..], s[1..])
    else SubsequenceOf(r, s[1..])
  }

  /** The elements of `s` that satisfy `p`, in their original order. */
  function Filter<T>(p: T -> bool, s: seq<T>): (r: seq<T>)
    ensures |r| <= |s|
    ensures forall x :: x in r ==> x in s && p(x)
    ensures forall x :: x in s && p(x) ==> x in r
  {
    if s == [] then []
    else
      var rest := Filter(p, s[1..]);
      assert s == [s[0]] + s[1..];
      if p(s[0]) then [s[0]] + rest else rest
  }

  lemma {:induction false} FilterIsSubsequence<T>(p: T -> bool, s: seq<T>)
    ensures SubsequenceOf(Filter(p, s), s)
  {
    if s != [] {
      FilterIsSubsequence(p, s[1..]);
      var rest := Filter(p, s[1..]);
      if !p(s[0]) {
        SubsequenceSkip(rest, s);
      }
    }
  }

  /** Dropping the head of `s` keeps a subsequence a subsequence of `s`. */
  lemma {:induction false} SubsequenceSkip<T>(r: seq<T>, s: seq<T>)
    requires s != [] && SubsequenceOf(r, s[1..])
    ensures SubsequenceOf(r, s)
    decreases |s|, 0
  {
    if r != [] && r[0] == s[0] {
      SubsequenceTail(r, s[1..]);
    }
  }

  /** A subsequence stays one when its first element is removed. */
  lemma {:induction false} SubsequenceTail<T>(r: seq<T>, s: seq<T>)
    requires r != [] && SubsequenceOf(r, s)
    ensures SubsequenceOf(r[1..], s)
    decreases |s|, 1
  {
    if r[0] != s[0] {
      SubsequenceTail(r, s[1..]);
    }
    if r[1..] != [] {
      SubsequenceSkip(r[1..], s);
    }
  }

  /** Filtering keeps a strictly increasing numbering strictly increasing. */
  lemma {:induction false} FilterKeepsIncreasing<T>(p: T -> bool, s: seq<T>, key: T -> int)
    requires forall i, j :: 0 <= i < j < |s| ==> key(s[i]) < key(s[j])
    ensures forall i, j :: 0 <= i < j < |Filter(p, s)| ==> key(Filter(p, s)[i]) < key(Filter(p, s)[j])
  {
    if s != [] {
      var tail := s[1..];
      assert forall i, j :: 0 <= i < j < |tail| ==> key(tail[i]) < key(tail[j]) by {
        forall i, j | 0 <= i < j < |tail| ensures key(tail[i]) < key(tail[j]) {
          assert tail[i] == s[i + 1] && tail[j] == s[j + 1];
        }
      }
      FilterKeepsIncreasing(p, tail, key);
      var rest := Filter(p, tail);
      if p(s[0]) {
        var r := Filter(p, s);
        assert r == [s[0]] + rest;
        forall k | 0 <= k < |rest| ensures key(s[0]) < key(rest[k]) {
          assert rest[k] in tail;
          var m :| 0 <= m < |tail| && tail[m] == rest[k];
          assert s[m + 1] == rest[k];
        }
        forall i, j | 0 <= i < j < |r| ensures key(r[i]) < key(r[j]) {
          if i == 0 {
            assert r[0] == s[0] && r[j] == rest[j - 1];
            assert key(s[0]) < key(rest[j - 1]);
          } else {
            assert r[i] == rest[i - 1] && r[j] == rest[j - 1];
          }
        }
      }
    }
  }

  /** A predicate implied by another keeps at least as many elements. */
  lemma {:induction false} FilterCountMonotone<T>(p: T -> bool, q: T -> bool, s: seq<T>)
    requires forall x :: x in s && p(x) ==> q(x)
    ensures |Filter(p, s)| <= |Filter(q, s)|
  {
    if s != [] {
      FilterCountMonotone(p, q, s[1..]);
    }
  }

  /** Two predicates that never hold together keep, between them, as many
      elements as their disjunction `either`. */
  lemma {:induction false} FilterCountDisjoint<T>(p: T -> bool, q: T -> bool, either: T -> bool, s: seq<T>)
    requires forall x :: x in s ==> !(p(x) && q(x)) && either(x) == (p(x) || q(x))
    ensures |Filter(p, s)| + |Filter(q, s)| == |Filter(either, s)|
  {
    if s != [] {
      FilterCountDisjoint(p, q, either, s[1..]);
    }
  }

  /** Filtering twice by the same predicate changes nothing. */
  lemma {:induction false} FilterIdempotent<T>(p: T -> bool, s: seq<T>)
    ensures Filter(p, Filter(p, s)) == Filter(p, s)
  {
    if s != [] {
      FilterIdempotent(p, s[1..]);
    }
  }

  /** Two filters applied in either order give the same sequence, namely the
      filter by their conjunction `both`. */
  lemma {:induction false} FilterCompose<T>(p: T -> bool, q: T -> bool, both: T -> bool, s: seq<T>)
    requires forall x :: x in s ==> both(x) == (p(x) && q(x))
    ensures Filter(p, Filter(q, s)) == Filter(both, s)
    ensures Filter(q, Filter(p, s)) == Filter(both, s)
  {
    if s != [] {
      FilterCompose(p, q, both, s[1..]);
    }
  }

  /** Filtering by two predicates that agree everywhere gives the same
      sequence. */
  lemma {:induction false} FilterExtensional<T>(p: T -> bool, q: T -> bool, s: seq<T>)
    requires forall x :: x in s ==> p(x) == q(x)
    ensures Filter(p, s) == Filter(q, s)
  {
    if s != [] {
      FilterExtensional(p, q, s[1..]);
    }
  }

  // ---------------------------------------------------------------------
  // Extremes of a non-empty sequence of dates
  // ---------------------------------------------------------------------

  function MinOf(s: seq<int>): (r: int)
    requires |s| > 0
    ensures r in s
    ensures forall i :: 0 <= i < |s| ==> r <= s[i]
  {
    if |s| == 1 then s[0]
    else
      var m := MinOf(s[1..]);
      assert forall i :: 1 <= i < |s| ==> s[i] == s[1..][i - 1];
      if s[0] <= m then s[0] else m
  }

  function MaxOf(s: seq<int>): (r: int)
    requires |s| > 0
    ensures r in s
    ensures forall i :: 0 <= i < |s| ==> s[i] <= r
  {
    if |s| == 1 then s[0]
    else
      var m := MaxOf(s[1..]);
      assert forall i :: 1 <= i < |s| ==> s[i] == s[1..][i - 1];
      if s[0] >= m then s[0] else m
  }

  // ---------------------------------------------------------------------
  // Stable sorting by a real-valued key
  // ---------------------------------------------------------------------

  predicate SortedBy<T>(s: seq<T>, key: T -> real)
  {
    forall i, j :: 0 <= i < j < |s| ==> key(s[i]) <= key(s[j])
  }

  predicate Ascending(s: seq<int>)
  {
    forall i, j :: 0 <= i < j < |s| ==> s[i] <= s[j]
  }

  /** The sort key of integer sequences. */
  function IntKey(x: int): real
  {
    x as real
  }

  /** Sorting integers by their value makes them ascending. */
  lemma SortByIntAscending(s: seq<int>)
    ensures Ascending(SortBy(s, IntKey))
  {
    var r := SortBy(s, IntKey);
    assert forall i, j :: 0 <= i < j < |r| ==> IntKey(r[i]) <= IntKey(r[j]);
  }

  /** The elements of `s` whose key is exactly `k`, in order. Two orderings
      of the same elements are equally stable when they agree on this for
      every `k`. */
  function WithKey<T>(key: T -> real, k: real, s: seq<T>): seq<T>
  {
    Filter(x => key(x) == k, s)
  }

  /** Puts `x` in front of the first element whose key is not smaller. */
  function Insert<T>(x: T, t: seq<T>, key: T -> real): (r: seq<T>)
    requires SortedBy(t, key)
    ensures SortedBy(r, key)
    ensures multiset(r) == multiset(t) + multiset{x}
    ensures |r| == |t| + 1
  {
    if t == [] then [x]
    else if key(x) <= key(t[0]) then
      SortedCons(x, t, key);
      [x] + t
    else
      var rest := Insert(x, t[1..], key);
      assert t == [t[0]] + t[1..];
      LowerBoundKept(x, t[1..], rest, key, key(t[0]));
      SortedCons(t[0], rest, key);
      [t[0]] + rest
  }

  /** Prepending an element no larger than any other keeps a sorted
      sequence sorted. */
  lemma SortedCons<T>(y: T, u: seq<T>, key: T -> real)
    requires SortedBy(u, key)
    requires u == [] || key(y) <= key(u[0])
    ensures SortedBy([y] + u, key)
  {
    var r := [y] + u;
    forall i, j | 0 <= i < j < |r|
      ensures key(r[i]) <= key(r[j])
    {
      assert r[j] == u[j - 1];
      if i > 0 {
        assert r[i] == u[i - 1];
      } else if j > 1 {
        assert key(u[0]) <= key(u[j - 1]);
      }
    }
  }

  /** A lower bound of the keys of `x` and of `t` bounds the keys of any
      permutation of x :: t. */
  lemma LowerBoundKept<T>(x: T, t: seq<T>, r: seq<T>, key: T -> real, bound: real)
    requires multiset(r) == multiset(t) + multiset{x}
    requires bound <= key(x)
    requires forall i :: 0 <= i < |t| ==> bound <= key(t[i])
    ensures forall i :: 0 <= i < |r| ==> bound <= key(r[i])
    ensures r != [] && bound <= key(r[0])
  {
    forall i | 0 <= i < |r|
      ensures bound <= key(r[i])
    {
      assert r[i] in multiset(r);
      if r[i] != x {
        assert r[i] in multiset(t);
      }
    }
  }

  /** Insertion sort from the back: the stable sort of `s` by `key`, the
      ordering Python's `list.sort(key=...)` produces. */
  function SortBy<T>(s: seq<T>, key: T -> real): (r: seq<T>)
    ensures SortedBy(r, key)
    ensures multiset(r) == multiset(s)
    ensures |r| == |s|
  {
    if s == [] then []
    else
      assert s == [s[0]] + s[1..];
      Insert(s[0], SortBy(s[1..], key), key)
  }

  /** Sorting keeps exactly the elements it was given. */
  lemma SortByMembers<T>(s: seq<T>, key: T -> real)
    ensures forall x :: x in SortBy(s, key) <==> x in s
  {
    var r := SortBy(s, key);
    forall x ensures x in r <==> x in s {
      assert x in r <==> x in multiset(r);
      assert x in s <==> x in multiset(s);
    }
  }

  /** Filtering distributes over putting one element in front. */
  lemma FilterCons<T>(p: T -> bool, y: T, u: seq<T>)
    ensures Filter(p, [y] + u) == (if p(y) then [y] else []) + Filter(p, u)
  {
    assert ([y] + u)[1..] == u;
  }

  lemma {:induction false} InsertSameKey<T>(x: T, t: seq<T>, key: T -> real)
    requires SortedBy(t, key)
    ensures WithKey(key, key(x), Insert(x, t, key)) == [x] + WithKey(key, key(x), t)
  {
    var p := (y: T) => key(y) == key(x);
    if t == [] {
      FilterCons(p, x, t);
    } else if key(x) <= key(t[0]) {
      FilterCons(p, x, t);
    } else {
      var rest := Insert(x, t[1..], key);
      InsertSameKey(x, t[1..], key);
      assert t == [t[0]] + t[1..];
      FilterCons(p, t[0], t[1..]);
      FilterCons(p, t[0], rest);
    }
  }

  lemma {:induction false} InsertOtherKey<T>(x: T, t: seq<T>, key: T -> real, k: real)
    requires SortedBy(t, key) && key(x) != k
    ensures WithKey(key, k, Insert(x, t, key)) == WithKey(key, k, t)
  {
    var p := (y: T) => key(y) == k;
    if t == [] {
      FilterCons(p, x, t);
    } else if key(x) <= key(t[0]) {
      FilterCons(p, x, t);
    } else {
      var rest := Insert(x, t[1..], key);
      InsertOtherKey(x, t[1..], key, k);
      assert t == [t[0]] + t[1..];
      FilterCons(p, t[0], t[1..]);
      FilterCons(p, t[0], rest);
    }
  }

  /** Stability: the sort keeps the input order among elements with equal
      keys. Together with `SortedBy` and the permutation this fixes the
      result completely. */
  lemma {:induction false} SortByStable<T>(s: seq<T>, key: T -> real, k: real)
    ensures WithKey(key, k, SortBy(s, key)) == WithKey(key, k, s)
  {
    if s != [] {
      SortByStable(s[1..], key, k);
      var t := SortBy(s[1..], key);
      assert SortBy(s, key) == Insert(s[0], t, key);
      if key(s[0]) == k {
        InsertSameKey(s[0], t, key);
        assert WithKey(key, k, s) == [s[0]] + WithKey(key, k, s[1..]);
      } else {
        InsertOtherKey(s[0], t, key, k);
        assert WithKey(key, k, s) == WithKey(key, k, s[1..]);
      }
    }
  }
}
