/**
 * Sequence operations that the application takes from the JavaScript
 * runtime: `Array.prototype.filter`, `flatMap`, `reduce` sums, `Math.max`
 * and the stable `Array.prototype.sort` with a numeric comparator.
 */
module Seqs {

  import opened Optional

  /** `s.filter(p)`: the elements of `s` satisfying `p`, in order. */
  function Filter<T>(s: seq<T>, p: T -> bool): (r: seq<T>)
    ensures |r| <= |s|
  {
    if s == [] then [] else (if p(s[0]) then [s[0]] else []) + Filter(s[1..], p)
  }

  /** The filtered list holds exactly the elements of `s` that satisfy `p`. */
  lemma {:induction false} FilterMembers<T>(s: seq<T>, p: T -> bool)
    ensures forall x :: x in Filter(s, p) <==> x in s && p(x)
    ensures forall i :: 0 <= i < |Filter(s, p)| ==> Filter(s, p)[i] in s && p(Filter(s, p)[i])
    ensures forall i :: 0 <= i < |s| && p(s[i]) ==> s[i] in Filter(s, p)
  {
    if s != [] {
      FilterMembers(s[1..], p);
      assert forall x :: x in s <==> x == s[0] || x in s[1..];
    }
  }

  /** Every element kept satisfies `p`. */
  lemma {:induction false} FilterSatisfies<T>(s: seq<T>, p: T -> bool)
    ensures forall i :: 0 <= i < |Filter(s, p)| ==> p(Filter(s, p)[i])
  {
    if s != [] {
      FilterSatisfies(s[1..], p);
    }
  }

  /** `a` is an order-preserving sublist of `b`. */
  predicate IsSubseq<T(==)>(a: seq<T>, b: seq<T>)
    decreases |b|
  {
    if a == [] then true
    else if b == [] then false
    else (a[0] == b[0] && IsSubseq(a[1..], b[1..])) || IsSubseq(a, b[1..])
  }

  lemma {:induction false} EmptyIsSubseq<T>(b: seq<T>)
    ensures IsSubseq([], b)
  {
  }

  /** A filter keeps the order of what it keeps. */
  lemma {:induction false} FilterIsSubseq<T>(s: seq<T>, p: T -> bool)
    ensures IsSubseq(Filter(s, p), s)
  {
    if s != [] {
      FilterIsSubseq(s[1..], p);
      var r := Filter(s, p);
      if p(s[0]) {
        assert r == [s[0]] + Filter(s[1..], p);
        assert r[0] == s[0] && r[1..] == Filter(s[1..], p);
      } else {
        assert r == Filter(s[1..], p);
        if r != [] {
          assert IsSubseq(r, s[1..]);
        }
      }
    }
  }

  /** A filter keeps every copy of what it keeps and drops every copy of the rest. */
  lemma {:induction false} FilterMultiset<T>(s: seq<T>, p: T -> bool, x: T)
    ensures multiset(Filter(s, p))[x] == if p(x) then multiset(s)[x] else 0
  {
    if s != [] {
      FilterMultiset(s[1..], p, x);
      assert s == [s[0]] + s[1..];
      assert multiset(s) == multiset([s[0]]) + multiset(s[1..]);
      var head := if p(s[0]) then [s[0]] else [];
      assert multiset(Filter(s, p)) == multiset(head) + multiset(Filter(s[1..], p));
    }
  }

  /** `FilterMultiset` for every element at once. */
  lemma FilterMultisets<T>(s: seq<T>, p: T -> bool)
    ensures forall x :: multiset(Filter(s, p))[x] == if p(x) then multiset(s)[x] else 0
  {
    forall x ensures multiset(Filter(s, p))[x] == if p(x) then multiset(s)[x] else 0 {
      FilterMultiset(s, p, x);
    }
  }

  lemma {:induction false} FilterConcat<T>(a: seq<T>, b: seq<T>, p: T -> bool)
    ensures Filter(a + b, p) == Filter(a, p) + Filter(b, p)
  {
    if a != [] {
      assert (a + b)[0] == a[0];
      assert (a + b)[1..] == a[1..] + b;
      FilterConcat(a[1..], b, p);
    } else {
      assert a + b == b;
    }
  }

  /** Two filters in a row keep what both accept. */
  lemma {:induction false} FilterFilter<T>(s: seq<T>, p: T -> bool, q: T -> bool, pq: T -> bool)
    requires forall x :: pq(x) == (p(x) && q(x))
    ensures Filter(Filter(s, p), q) == Filter(s, pq)
  {
    if s != [] {
      FilterFilter(s[1..], p, q, pq);
      var head := if p(s[0]) then [s[0]] else [];
      FilterConcat(head, Filter(s[1..], p), q);
    }
  }

  /** Filters only look at the elements: equal predicates on `s` give equal results. */
  lemma {:induction false} FilterCongruent<T>(s: seq<T>, p: T -> bool, q: T -> bool)
    requires forall x :: x in s ==> p(x) == q(x)
    ensures Filter(s, p) == Filter(s, q)
  {
    if s != [] {
      FilterCongruent(s[1..], p, q);
    }
  }

  /** A filter keeps everything exactly when every element passes. */
  lemma {:induction false} FilterAll<T>(s: seq<T>, p: T -> bool)
    requires forall x :: x in s ==> p(x)
    ensures Filter(s, p) == s
  {
    if s != [] {
      FilterAll(s[1..], p);
    }
  }

  /** A filter keeps nothing when no element passes. */
  lemma {:induction false} FilterNone<T>(s: seq<T>, p: T -> bool)
    requires forall x :: x in s ==> !p(x)
    ensures Filter(s, p) == []
  {
    if s != [] {
      FilterNone(s[1..], p);
    }
  }

  /** `s.findIndex(p)`: the position of the first element satisfying `p`, or -1. */
  function FindIndex<T>(s: seq<T>, p: T -> bool): (i: int)
    ensures -1 <= i < |s|
    ensures i >= 0 ==> p(s[i]) && forall j :: 0 <= j < i ==> !p(s[j])
    ensures i < 0 ==> forall j :: 0 <= j < |s| ==> !p(s[j])
  {
    if s == [] then -1
    else if p(s[0]) then 0
    else
      var k := FindIndex(s[1..], p);
      if k < 0 then -1 else k + 1
  }

  /** `s.find(p)`: the first element satisfying `p`, or `undefined`. */
  function Find<T>(s: seq<T>, p: T -> bool): (r: Option<T>)
    ensures r.None? <==> forall j :: 0 <= j < |s| ==> !p(s[j])
    ensures r.Some? ==> exists i :: 0 <= i < |s| && s[i] == r.value && p(s[i]) && forall j :: 0 <= j < i ==> !p(s[j])
  {
    var i := FindIndex(s, p);
    if i < 0 then None else Some(s[i])
  }

  /** The number of elements satisfying `p` (`s.filter(p).length`). */
  function Count<T>(s: seq<T>, p: T -> bool): (n: nat)
    ensures n <= |s|
  {
    |Filter(s, p)|
  }

  /** The positions of `s` whose element satisfies `p`. */
  function IndicesWhere<T>(s: seq<T>, p: T -> bool): set<int> {
    set i | 0 <= i < |s| && p(s[i])
  }

  /** One element more adds one to the count exactly when it satisfies `p`. */
  lemma CountSnoc<T>(s: seq<T>, x: T, p: T -> bool)
    ensures Count(s + [x], p) == Count(s, p) + (if p(x) then 1 else 0)
  {
    FilterConcat(s, [x], p);
    FilterSingle(x, p);
  }

  /** Each element contributes one to the count exactly when it satisfies `p`. */
  lemma CountWithout<T>(s: seq<T>, k: nat, p: T -> bool)
    requires k < |s|
    ensures Count(s, p) == Count(s[..k] + s[k + 1..], p) + (if p(s[k]) then 1 else 0)
  {
    assert s == s[..k] + [s[k]] + s[k + 1..];
    FilterConcat(s[..k] + [s[k]], s[k + 1..], p);
    FilterConcat(s[..k], [s[k]], p);
    FilterConcat(s[..k], s[k + 1..], p);
    FilterSingle(s[k], p);
  }

  /** The count is the number of positions whose element satisfies `p`. */
  lemma {:induction false} CountIndices<T>(s: seq<T>, p: T -> bool)
    ensures Count(s, p) == |IndicesWhere(s, p)|
    decreases |s|
  {
    if s == [] {
      assert IndicesWhere(s, p) == {};
    } else {
      var init := s[..|s| - 1];
      var x := s[|s| - 1];
      assert s == init + [x];
      CountIndices(init, p);
      CountSnoc(init, x, p);
      assert IndicesWhere(s, p) == IndicesWhere(init, p) + (if p(x) then {|init|} else {});
    }
  }

  /** `s.flatMap(f)`: the concatenation of `f` of each element, in order. */
  function FlatMap<T, U>(s: seq<T>, f: T -> seq<U>): (r: seq<U>)
  {
    if s == [] then [] else f(s[0]) + FlatMap(s[1..], f)
  }

  lemma {:induction false} FlatMapConcat<T, U>(a: seq<T>, b: seq<T>, f: T -> seq<U>)
    ensures FlatMap(a + b, f) == FlatMap(a, f) + FlatMap(b, f)
  {
    if a != [] {
      assert a + b == [a[0]] + (a[1..] + b);
      assert (a + b)[0] == a[0];
      assert (a + b)[1..] == a[1..] + b;
      FlatMapConcat(a[1..], b, f);
    } else {
      assert a + b == b;
    }
  }

  /** Extending the prefix by one element appends that element's part. */
  lemma FlatMapSnoc<T, U>(s: seq<T>, f: T -> seq<U>, i: nat)
    requires i < |s|
    ensures FlatMap(s[..i + 1], f) == FlatMap(s[..i], f) + f(s[i])
  {
    assert s[..i + 1] == s[..i] + [s[i]];
    FlatMapConcat(s[..i], [s[i]], f);
    assert [s[i]][1..] == [];
    assert FlatMap([s[i]], f) == f(s[i]) + [];
  }

  /** An element is in the flattened list exactly when it is in the part of some element. */
  lemma {:induction false} FlatMapMember<T, U>(s: seq<T>, f: T -> seq<U>, y: U)
    ensures y in FlatMap(s, f) <==> exists x :: x in s && y in f(x)
  {
    if s != [] {
      FlatMapMember(s[1..], f, y);
      if y in f(s[0]) {
        assert s[0] in s;
      }
      if exists x :: x in s && y in f(x) {
        var x :| x in s && y in f(x);
        if x != s[0] {
          assert x in s[1..];
        }
      }
    }
  }

  /** The length of the flattened list is the sum of the parts' lengths. */
  lemma {:induction false} FlatMapLength<T, U>(s: seq<T>, f: T -> seq<U>)
    ensures |FlatMap(s, f)| == Sum(s, x => |f(x)|)
  {
    if s != [] {
      FlatMapLength(s[1..], f);
    }
  }

  /** `s.map(f)`. */
  function Map<T, U>(s: seq<T>, f: T -> U): (r: seq<U>)
    ensures |r| == |s| && forall i :: 0 <= i < |s| ==> r[i] == f(s[i])
  {
    if s == [] then [] else [f(s[0])] + Map(s[1..], f)
  }

  /** Flattening zero-or-one parts is mapping over the elements that give one. */
  lemma {:induction false} FlatMapOptional<T, U>(s: seq<T>, f: T -> seq<U>, p: T -> bool, g: T -> U)
    requires forall x :: f(x) == if p(x) then [g(x)] else []
    ensures FlatMap(s, f) == Map(Filter(s, p), g)
  {
    if s != [] {
      FlatMapOptional(s[1..], f, p, g);
      if p(s[0]) {
        assert Filter(s, p) == [s[0]] + Filter(s[1..], p);
        assert Filter(s, p)[1..] == Filter(s[1..], p);
      }
    }
  }

  /** Filtering the flattened list is flattening the filtered parts. */
  lemma {:induction false} FilterFlatMap<T, U>(s: seq<T>, f: T -> seq<U>, p: U -> bool)
    ensures Filter(FlatMap(s, f), p) == FlatMap(s, x => Filter(f(x), p))
  {
    if s != [] {
      FilterConcat(f(s[0]), FlatMap(s[1..], f), p);
      FilterFlatMap(s[1..], f, p);
    }
  }

  /**
   * Runs `f` on each element in order and concatenates the results, as a
   * loop that pushes into one array inside a `try` does: one failure
   * (`None`) makes the whole result a failure.
   */
  function CollectAll<T, U>(s: seq<T>, f: T -> Option<seq<U>>): (r: Option<seq<U>>)
    decreases |s|
  {
    if s == [] then Some([])
    else
      match CollectAll(s[..|s| - 1], f)
      case None => None
      case Some(acc) =>
        match f(s[|s| - 1])
        case None => None
        case Some(xs) => Some(acc + xs)
  }

  /** One more element that succeeds appends its part to the collection so far. */
  lemma CollectAllSnoc<T, U>(s: seq<T>, f: T -> Option<seq<U>>, i: nat, acc: seq<U>, xs: seq<U>)
    requires i < |s| && CollectAll(s[..i], f) == Some(acc) && f(s[i]) == Some(xs)
    ensures CollectAll(s[..i + 1], f) == Some(acc + xs)
  {
    assert s[..i + 1][..i] == s[..i];
  }

  /** The results of `f` on each element and its index, in order, where `f` gives one. */
  function KeepSome<T, U>(s: seq<T>, f: (T, nat) -> Option<U>): (r: seq<U>)
    ensures |r| <= |s|
    decreases |s|
  {
    if s == [] then []
    else
      var n := |s| - 1;
      KeepSome(s[..n], f) + match f(s[n], n) case Some(x) => [x] case None => []
  }

  /** The positions where `f` gives a result, in increasing order. */
  function KeptIndices<T, U>(s: seq<T>, f: (T, nat) -> Option<U>): (idx: seq<nat>)
    ensures |idx| == |KeepSome(s, f)|
    decreases |s|
  {
    if s == [] then []
    else
      var n := |s| - 1;
      KeptIndices(s[..n], f) + if f(s[n], n).Some? then [n] else []
  }

  /** The kept positions are positions of `s`, in strictly increasing order. */
  lemma {:induction false} KeptIndicesIncreasing<T, U>(s: seq<T>, f: (T, nat) -> Option<U>)
    ensures forall k :: 0 <= k < |KeptIndices(s, f)| ==> KeptIndices(s, f)[k] < |s|
    ensures forall k, m :: 0 <= k < m < |KeptIndices(s, f)| ==> KeptIndices(s, f)[k] < KeptIndices(s, f)[m]
    decreases |s|
  {
    if s != [] {
      KeptIndicesIncreasing(s[..|s| - 1], f);
    }
  }

  /** Every position where `f` gives a result is kept. */
  lemma {:induction false} KeptIndicesComplete<T, U>(s: seq<T>, f: (T, nat) -> Option<U>, i: nat)
    requires i < |s| && f(s[i], i).Some?
    ensures i in KeptIndices(s, f)
    decreases |s|
  {
    var n := |s| - 1;
    if i < n {
      assert s[..n][i] == s[i];
      KeptIndicesComplete(s[..n], f, i);
    }
  }

  /** The `k`th kept result is what `f` gives at the `k`th kept position. */
  lemma {:induction false} KeptIndicesResults<T, U>(s: seq<T>, f: (T, nat) -> Option<U>, k: nat)
    requires k < |KeptIndices(s, f)|
    ensures KeptIndices(s, f)[k] < |s|
    ensures f(s[KeptIndices(s, f)[k]], KeptIndices(s, f)[k]) == Some(KeepSome(s, f)[k])
    decreases |s|
  {
    var n := |s| - 1;
    var init := s[..n];
    KeptIndicesIncreasing(s, f);
    if k < |KeptIndices(init, f)| {
      KeptIndicesResults(init, f, k);
      KeptIndicesIncreasing(init, f);
      assert init[KeptIndices(init, f)[k]] == s[KeptIndices(init, f)[k]];
    }
  }

  /**
   * The kept results are exactly those of the positions `idx` where `f`
   * gives one, listed in increasing order.
   */
  lemma KeepSomeIndices<T, U>(s: seq<T>, f: (T, nat) -> Option<U>) returns (idx: seq<nat>)
    ensures |idx| == |KeepSome(s, f)|
    ensures forall k :: 0 <= k < |idx| ==> idx[k] < |s| && f(s[idx[k]], idx[k]) == Some(KeepSome(s, f)[k])
    ensures forall k, m :: 0 <= k < m < |idx| ==> idx[k] < idx[m]
    ensures forall i :: 0 <= i < |s| && f(s[i], i).Some? ==> i in idx
  {
    idx := KeptIndices(s, f);
    KeptIndicesIncreasing(s, f);
    forall k | 0 <= k < |idx| ensures idx[k] < |s| && f(s[idx[k]], idx[k]) == Some(KeepSome(s, f)[k]) {
      KeptIndicesResults(s, f, k);
    }
    forall i | 0 <= i < |s| && f(s[i], i).Some? ensures i in idx {
      KeptIndicesComplete(s, f, i);
    }
  }

  /** A failure in a prefix is a failure of the whole. */
  lemma {:induction false} CollectAllFailedPrefix<T, U>(s: seq<T>, f: T -> Option<seq<U>>, k: nat)
    requires k <= |s| && CollectAll(s[..k], f).None?
    ensures CollectAll(s, f).None?
    decreases |s| - k
  {
    if k < |s| {
      assert s[..k + 1][..k] == s[..k];
      CollectAllFailedPrefix(s, f, k + 1);
    } else {
      assert s[..k] == s;
    }
  }

  /** The collection fails exactly when some element fails. */
  lemma {:induction false} CollectAllFails<T, U>(s: seq<T>, f: T -> Option<seq<U>>)
    ensures CollectAll(s, f).None? <==> exists i :: 0 <= i < |s| && f(s[i]).None?
    decreases |s|
  {
    if s != [] {
      var init := s[..|s| - 1];
      CollectAllFails(init, f);
      if exists i :: 0 <= i < |init| && f(init[i]).None? {
        var i :| 0 <= i < |init| && f(init[i]).None?;
        assert s[i] == init[i];
      }
      if exists i :: 0 <= i < |s| && f(s[i]).None? {
        var i :| 0 <= i < |s| && f(s[i]).None?;
        if i < |init| {
          assert init[i] == s[i];
        }
      }
    }
  }

  /** A collection that succeeds is the concatenation of the parts (`g` reads each part). */
  lemma {:induction false} CollectAllFlat<T, U>(s: seq<T>, f: T -> Option<seq<U>>, g: T -> seq<U>)
    requires forall x :: g(x) == f(x).GetOr([])
    ensures CollectAll(s, f).Some? ==> CollectAll(s, f).value == FlatMap(s, g)
    decreases |s|
  {
    if s != [] {
      var init, last := s[..|s| - 1], s[|s| - 1];
      CollectAllFlat(init, f, g);
      assert s == init + [last];
      FlatMapConcat(init, [last], g);
    }
  }

  /**
   * A collection whose parts keep or drop single elements by `p` is the
   * filter by `p`, as long as it does not fail.
   */
  lemma {:induction false} CollectAllKeep<T>(s: seq<T>, f: T -> Option<seq<T>>, p: T -> bool)
    requires forall x :: f(x).Some? ==> f(x).value == if p(x) then [x] else []
    ensures CollectAll(s, f).Some? ==> CollectAll(s, f).value == Filter(s, p)
    decreases |s|
  {
    if s != [] {
      var init, last := s[..|s| - 1], s[|s| - 1];
      CollectAllKeep(init, f, p);
      assert s == init + [last];
      FilterConcat(init, [last], p);
      FilterSingle(last, p);
    }
  }

  /** `s.reduce((sum, x) => sum + f(x), 0)`. */
  function Sum<T>(s: seq<T>, f: T -> int): int
  {
    if s == [] then 0 else f(s[0]) + Sum(s[1..], f)
  }

  lemma {:induction false} SumConcat<T>(a: seq<T>, b: seq<T>, f: T -> int)
    ensures Sum(a + b, f) == Sum(a, f) + Sum(b, f)
  {
    if a != [] {
      assert a + b == [a[0]] + (a[1..] + b);
      assert (a + b)[0] == a[0];
      assert (a + b)[1..] == a[1..] + b;
      SumConcat(a[1..], b, f);
    } else {
      assert a + b == b;
    }
  }

  lemma {:induction false} SumNonNegative<T>(s: seq<T>, f: T -> int)
    requires forall x :: x in s ==> f(x) >= 0
    ensures Sum(s, f) >= 0
  {
    if s != [] {
      SumNonNegative(s[1..], f);
    }
  }

  /** `Math.max(...s.map(f))` for a non-empty `s`. */
  function MaxOf<T>(s: seq<T>, f: T -> int): (m: int)
    requires s != []
    ensures forall i :: 0 <= i < |s| ==> f(s[i]) <= m
    ensures exists i :: 0 <= i < |s| && f(s[i]) == m
  {
    if |s| == 1 then f(s[0])
    else
      var rest := MaxOf(s[1..], f);
      assert forall i :: 1 <= i < |s| ==> s[i] == s[1..][i - 1];
      if f(s[0]) >= rest then f(s[0]) else rest
  }

  // ---------------------------------------------------------------------
  // `Array.prototype.sort((a, b) => key(b) - key(a))`: the sort is stable
  // (required since ECMAScript 2019), so it is the insertion sort below.
  // ---------------------------------------------------------------------

  predicate SortedDesc<T>(s: seq<T>, key: T -> int) {
    forall i, j :: 0 <= i < j < |s| ==> key(s[i]) >= key(s[j])
  }

  /** Puts `x` in front of the first element whose key is not larger than `x`'s. */
  function Insert<T>(x: T, r: seq<T>, key: T -> int): (t: seq<T>)
    ensures |t| == |r| + 1
    ensures multiset(t) == multiset(r) + multiset{x}
  {
    if r == [] then [x]
    else if key(x) >= key(r[0]) then [x] + r
    else
      var rest := Insert(x, r[1..], key);
      assert r == [r[0]] + r[1..];
      [r[0]] + rest
  }

  /** The result of the stable newest-first sort of `s`. */
  function SortDesc<T>(s: seq<T>, key: T -> int): (t: seq<T>)
    ensures |t| == |s|
    ensures multiset(t) == multiset(s)
  {
    if s == [] then []
    else
      var rest := SortDesc(s[1..], key);
      assert s == [s[0]] + s[1..];
      Insert(s[0], rest, key)
  }

  lemma {:induction false} InsertSorted<T>(x: T, r: seq<T>, key: T -> int)
    requires SortedDesc(r, key)
    ensures SortedDesc(Insert(x, r, key), key)
  {
    if r != [] && key(x) < key(r[0]) {
      var tail := r[1..];
      SortedDescTail(r, key);
      InsertSorted(x, tail, key);
      var rest := Insert(x, tail, key);
      assert r == [r[0]] + tail;
      BoundedByMultiset(rest, tail + [x], key, key(r[0]));
      SortedDescCons(r[0], rest, key);
    }
  }

  /** Dropping the newest element keeps a list ordered. */
  lemma SortedDescTail<T>(r: seq<T>, key: T -> int)
    requires r != [] && SortedDesc(r, key)
    ensures SortedDesc(r[1..], key)
    ensures forall i :: 0 <= i < |r[1..]| ==> key(r[1..][i]) <= key(r[0])
  {
  }

  /** An element no older than every element of an ordered list can head it. */
  lemma SortedDescCons<T>(h: T, rest: seq<T>, key: T -> int)
    requires SortedDesc(rest, key)
    requires forall i :: 0 <= i < |rest| ==> key(rest[i]) <= key(h)
    ensures SortedDesc([h] + rest, key)
  {
    var t := [h] + rest;
    forall i, j | 0 <= i < j < |t| ensures key(t[i]) >= key(t[j]) {
      assert t[j] == rest[j - 1];
      if i > 0 {
        assert t[i] == rest[i - 1];
      }
    }
  }

  /** A bound on the keys of a list holds for every rearrangement of it. */
  lemma BoundedByMultiset<T>(a: seq<T>, b: seq<T>, key: T -> int, k: int)
    requires multiset(a) == multiset(b)
    requires forall i :: 0 <= i < |b| ==> key(b[i]) <= k
    ensures forall i :: 0 <= i < |a| ==> key(a[i]) <= k
  {
    forall i | 0 <= i < |a| ensures key(a[i]) <= k {
      assert a[i] in multiset(a);
      assert a[i] in b;
      var m :| 0 <= m < |b| && b[m] == a[i];
    }
  }

  /** The sort's result is ordered newest-first. */
  lemma {:induction false} SortDescSorted<T>(s: seq<T>, key: T -> int)
    ensures SortedDesc(SortDesc(s, key), key)
  {
    if s != [] {
      SortDescSorted(s[1..], key);
      InsertSorted(s[0], SortDesc(s[1..], key), key);
    }
  }

  lemma FilterSingle<T>(y: T, p: T -> bool)
    ensures Filter([y], p) == if p(y) then [y] else []
  {
    assert [y][1..] == [];
  }

  lemma {:induction false} InsertKeyClass<T>(x: T, r: seq<T>, key: T -> int, p: T -> bool, k: int)
    requires forall y :: p(y) == (key(y) == k)
    ensures Filter(Insert(x, r, key), p) == Filter([x], p) + Filter(r, p)
  {
    if r == [] {
      assert Insert(x, r, key) == [x] + [];
    } else if key(x) >= key(r[0]) {
      assert Insert(x, r, key) == [x] + r;
      FilterConcat([x], r, p);
    } else {
      InsertKeyClass(x, r[1..], key, p, k);
      var rest := Insert(x, r[1..], key);
      assert Insert(x, r, key) == [r[0]] + rest;
      assert r == [r[0]] + r[1..];
      InsertKeyClassStep(x, r[0], rest, r[1..], p);
    }
  }

  /** Passing over an element `y` that `p` cannot select together with `x` keeps `x`'s place in the filtered list. */
  lemma InsertKeyClassStep<T>(x: T, y: T, rest: seq<T>, tail: seq<T>, p: T -> bool)
    requires Filter(rest, p) == Filter([x], p) + Filter(tail, p)
    requires !(p(x) && p(y))
    ensures Filter([y] + rest, p) == Filter([x], p) + Filter([y] + tail, p)
  {
    FilterConcat([y], rest, p);
    FilterConcat([y], tail, p);
    FilterSingle(x, p);
    FilterSingle(y, p);
    var fy, fr, ft := Filter([y], p), Filter(rest, p), Filter(tail, p);
    if p(x) {
      assert fy == [] && fr == [x] + ft;
      assert fy + fr == [x] + (fy + ft);
    } else {
      assert Filter([x], p) == [] && fr == ft;
    }
  }

  /**
   * Stability: the elements whose key is `k` (selected by `p`) appear in the
   * result in the order they had in the input.
   */
  lemma {:induction false} SortDescStable<T>(s: seq<T>, key: T -> int, p: T -> bool, k: int)
    requires forall y :: p(y) == (key(y) == k)
    ensures Filter(SortDesc(s, key), p) == Filter(s, p)
  {
    if s != [] {
      SortDescStable(s[1..], key, p, k);
      InsertKeyClass(s[0], SortDesc(s[1..], key), key, p, k);
      assert s == [s[0]] + s[1..];
      FilterConcat([s[0]], s[1..], p);
    }
  }

  /** A sequence that is already ordered newest-first is left as it is. */
  lemma {:induction false} SortDescOfSorted<T>(s: seq<T>, key: T -> int)
    requires SortedDesc(s, key)
    ensures SortDesc(s, key) == s
  {
    if s != [] {
      assert SortedDesc(s[1..], key) by {
        forall i, j | 0 <= i < j < |s[1..]| ensures key(s[1..][i]) >= key(s[1..][j]) {
          assert s[1..][i] == s[i + 1] && s[1..][j] == s[j + 1];
        }
      }
      SortDescOfSorted(s[1..], key);
      if |s| > 1 {
        assert key(s[0]) >= key(s[1]);
      }
    }
  }
}
