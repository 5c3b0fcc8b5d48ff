/** Sequence vocabulary: selection, sums and stable sorting, with the laws the pipeline relies on. */
module Seqs {

  function Last<T>(s: seq<T>): T
    requires s != []
  {
    s[|s| - 1]
  }

  function Front<T>(s: seq<T>): seq<T>
    requires s != []
  {
    s[..|s| - 1]
  }

  lemma FrontLast<T>(s: seq<T>)
    requires s != []
    ensures s == Front(s) + [Last(s)]
  {
  }

  /** The elements of `s` that `keep` accepts, in order. */
  function Filter<T>(s: seq<T>, keep: T -> bool): (r: seq<T>)
    ensures |r| <= |s|
  {
    if s == [] then []
    else
      var r := Filter(Front(s), keep);
      if keep(Last(s)) then r + [Last(s)] else r
  }

  lemma {:induction false} FilterElements<T>(s: seq<T>, keep: T -> bool)
    ensures forall x :: x in Filter(s, keep) <==> x in s && keep(x)
  {
    if s != [] {
      FilterElements(Front(s), keep);
      assert s == Front(s) + [Last(s)];
    }
  }

  lemma {:induction false} FilterHolds<T>(s: seq<T>, keep: T -> bool)
    ensures forall i | 0 <= i < |Filter(s, keep)| :: keep(Filter(s, keep)[i])
  {
    if s != [] {
      FilterHolds(Front(s), keep);
    }
  }

  /** Extending the input by one element extends the selection by that element or not at all. */
  lemma FilterSnoc<T>(s: seq<T>, x: T, keep: T -> bool)
    ensures Filter(s + [x], keep) == Filter(s, keep) + (if keep(x) then [x] else [])
  {
    assert Front(s + [x]) == s;
  }

  lemma {:induction false} FilterNone<T>(s: seq<T>, keep: T -> bool)
    requires forall i | 0 <= i < |s| :: !keep(s[i])
    ensures Filter(s, keep) == []
  {
    if s != [] {
      FilterNone(Front(s), keep);
      assert s[|s| - 1] == Last(s);
    }
  }

  lemma {:induction false} FilterConcat<T>(s: seq<T>, t: seq<T>, keep: T -> bool)
    ensures Filter(s + t, keep) == Filter(s, keep) + Filter(t, keep)
  {
    if t == [] {
      assert s + t == s;
    } else {
      assert s + t == (s + Front(t)) + [Last(t)];
      FilterConcat(s, Front(t), keep);
      FilterSnoc(s + Front(t), Last(t), keep);
    }
  }

  /** A selection already implied by a stronger one adds nothing. */
  lemma {:induction false} FilterImplied<T>(s: seq<T>, weak: T -> bool, strong: T -> bool)
    requires forall x | x in s && strong(x) :: weak(x)
    ensures Filter(Filter(s, weak), strong) == Filter(s, strong)
  {
    if s != [] {
      FilterImplied(Front(s), weak, strong);
      assert s == Front(s) + [Last(s)];
      FilterSnoc(Filter(Front(s), weak), Last(s), strong);
    }
  }

  lemma {:induction false} FilterAll<T>(s: seq<T>, keep: T -> bool)
    requires forall i | 0 <= i < |s| :: keep(s[i])
    ensures Filter(s, keep) == s
  {
    if s != [] {
      FilterAll(Front(s), keep);
      assert s == Front(s) + [Last(s)];
    }
  }

  ghost predicate Increasing(s: seq<int>) { forall i, j | 0 <= i < j < |s| :: s[i] < s[j] }

  /** `idx` lists, in order, the places of `s` whose element is to be kept. */
  ghost predicate PlacesWhere<T>(idx: seq<nat>, s: seq<T>, keep: T -> bool) {
    Increasing(idx) && forall i: nat :: i in idx <==> i < |s| && keep(s[i])
  }

  lemma PlacesSnoc<T>(before: seq<nat>, front: seq<T>, x: T, keep: T -> bool)
    requires PlacesWhere(before, front, keep)
    ensures PlacesWhere(if keep(x) then before + [|front|] else before, front + [x], keep)
  {
    var idx := if keep(x) then before + [|front|] else before;
    forall i: nat
      ensures i in idx <==> i < |front + [x]| && keep((front + [x])[i])
    {
      assert i in idx <==> i in before || (keep(x) && i == |front|);
    }
    assert forall k | 0 <= k < |before| :: before[k] in before;
  }

  /** A selection is what stands at those places. */
  lemma {:induction false} FilterPlaces<T>(s: seq<T>, keep: T -> bool) returns (idx: seq<nat>)
    ensures PlacesWhere(idx, s, keep) && |idx| == |Filter(s, keep)|
    ensures forall k | 0 <= k < |idx| :: idx[k] < |s| && Filter(s, keep)[k] == s[idx[k]]
  {
    if s == [] {
      idx := [];
    } else {
      hide PlacesWhere;
      FrontLast(s);
      var before := FilterPlaces(Front(s), keep);
      PlacesSnoc(before, Front(s), Last(s), keep);
      idx := if keep(Last(s)) then before + [|s| - 1] else before;
    }
  }

  lemma {:induction false} FilterSize<T>(s: seq<T>, keep: T -> bool, hits: set<int>)
    requires forall i :: i in hits <==> 0 <= i < |s| && keep(s[i])
    ensures |Filter(s, keep)| == |hits|
  {
    if s == [] {
      assert hits == {};
    } else {
      var front := Front(s);
      var before := set i | 0 <= i < |front| && keep(front[i]);
      FilterSize(front, keep, before);
      if keep(Last(s)) {
        assert hits == before + {|s| - 1};
      } else {
        assert hits == before;
      }
    }
  }

  function Map<A, B>(s: seq<A>, f: A -> B): (r: seq<B>)
    ensures |r| == |s|
    ensures forall i | 0 <= i < |s| :: r[i] == f(s[i])
  {
    if s == [] then [] else Map(Front(s), f) + [f(Last(s))]
  }

  function Sum<T>(s: seq<T>, f: T -> real): real {
    if s == [] then 0.0 else Sum(Front(s), f) + f(Last(s))
  }

  lemma SumSnoc<T>(s: seq<T>, x: T, f: T -> real)
    ensures Sum(s + [x], f) == Sum(s, f) + f(x)
  {
    assert Front(s + [x]) == s;
  }

  lemma {:induction false} SumConcat<T>(s: seq<T>, t: seq<T>, f: T -> real)
    ensures Sum(s + t, f) == Sum(s, f) + Sum(t, f)
  {
    if t == [] {
      assert s + t == s;
    } else {
      assert s + t == (s + Front(t)) + [Last(t)];
      SumConcat(s, Front(t), f);
      SumSnoc(s + Front(t), Last(t), f);
    }
  }

  lemma {:induction false} SumNonNegative<T>(s: seq<T>, f: T -> real)
    requires forall x | x in s :: f(x) >= 0.0
    ensures Sum(s, f) >= 0.0
  {
    if s != [] {
      SumNonNegative(Front(s), f);
    }
  }

  function Same(x: real): real { x }

  predicate IsMean(mean: real, values: seq<real>) { mean * |values| as real == Sum(values, Same) }

  lemma OneMean(a: real, b: real, values: seq<real>)
    requires values != [] && IsMean(a, values) && IsMean(b, values)
    ensures a == b
  {
    hide Sum;
    assert (a - b) * |values| as real == 0.0;
  }

  /** Adding up a figure of the elements is adding up the figures. */
  lemma {:induction false} SumOfFigures<T>(s: seq<T>, f: T -> real, values: seq<real>)
    requires |values| == |s| && forall i | 0 <= i < |s| :: values[i] == f(s[i])
    ensures Sum(s, f) == Sum(values, Same)
  {
    if s != [] {
      SumOfFigures(Front(s), f, Front(values));
    }
  }

  /** Concatenation of a sequence of sequences. */
  function Flatten<T>(ss: seq<seq<T>>): seq<T> {
    if ss == [] then [] else Flatten(Front(ss)) + Last(ss)
  }

  lemma FlattenSnoc<T>(ss: seq<seq<T>>, s: seq<T>)
    ensures Flatten(ss + [s]) == Flatten(ss) + s
  {
    assert Front(ss + [s]) == ss;
  }

  // ---- Sequences without repetition ----

  ghost predicate Distinct<T>(s: seq<T>) { forall i, j | 0 <= i < j < |s| :: s[i] != s[j] }

  lemma {:induction false} OnceEach<T>(s: seq<T>)
    requires Distinct(s)
    ensures forall x | x in multiset(s) :: multiset(s)[x] == 1
  {
    if s != [] {
      OnceEach(Front(s));
      assert s == Front(s) + [Last(s)];
      assert Last(s) !in Front(s);
    }
  }

  lemma TwiceThere<T>(s: seq<T>, i: nat, j: nat)
    requires i < j < |s| && s[i] == s[j]
    ensures multiset(s)[s[i]] >= 2
  {
    assert s == s[..j] + [s[j]] + s[j + 1..];
    assert s[i] in s[..j];
    assert multiset(s) == multiset(s[..j]) + multiset{s[j]} + multiset(s[j + 1..]);
  }

  /** Reordering introduces no repetition. */
  lemma PermutedDistinct<T>(s: seq<T>, t: seq<T>)
    requires multiset(s) == multiset(t) && Distinct(s)
    ensures Distinct(t) && forall x :: x in s <==> x in t
  {
    forall x ensures x in s <==> x in t {
      assert x in s <==> x in multiset(s);
      assert x in t <==> x in multiset(t);
    }
    OnceEach(s);
    forall i, j | 0 <= i < j < |t| ensures t[i] != t[j] {
      if t[i] == t[j] {
        TwiceThere(t, i, j);
      }
    }
  }

  // ---- Stable sorting by an integer key ----

  ghost predicate SortedBy<T>(s: seq<T>, key: T -> int) {
    forall i, j | 0 <= i < j < |s| :: key(s[i]) <= key(s[j])
  }

  /** Places `x` after every element whose key does not exceed its own. */
  function Insert<T>(s: seq<T>, x: T, key: T -> int): (r: seq<T>)
    ensures |r| == |s| + 1
  {
    if s == [] || key(Last(s)) <= key(x) then s + [x] else Insert(Front(s), x, key) + [Last(s)]
  }

  lemma {:induction false} InsertElements<T>(s: seq<T>, x: T, key: T -> int)
    ensures multiset(Insert(s, x, key)) == multiset(s) + multiset{x}
  {
    if s != [] && key(Last(s)) > key(x) {
      InsertElements(Front(s), x, key);
      assert s == Front(s) + [Last(s)];
    }
  }

  /** Stable sort: ascending keys, equal keys in their original order. */
  function SortStable<T>(s: seq<T>, key: T -> int): (r: seq<T>)
    ensures |r| == |s|
  {
    if s == [] then [] else Insert(SortStable(Front(s), key), Last(s), key)
  }

  lemma {:induction false} SortStableElements<T>(s: seq<T>, key: T -> int)
    ensures multiset(SortStable(s, key)) == multiset(s)
  {
    if s != [] {
      SortStableElements(Front(s), key);
      InsertElements(SortStable(Front(s), key), Last(s), key);
      assert s == Front(s) + [Last(s)];
    }
  }

  lemma SameElements<T>(s: seq<T>, t: seq<T>)
    requires multiset(s) == multiset(t)
    ensures forall x :: x in s <==> x in t
  {
    forall x ensures x in s <==> x in t {
      assert x in s <==> x in multiset(s);
      assert x in t <==> x in multiset(t);
    }
  }

  lemma {:induction false} InsertSorted<T>(s: seq<T>, x: T, key: T -> int)
    requires SortedBy(s, key)
    ensures SortedBy(Insert(s, x, key), key)
  {
    if s != [] && key(Last(s)) > key(x) {
      InsertSorted(Front(s), x, key);
      InsertElements(Front(s), x, key);
      var r, l := Insert(Front(s), x, key), Last(s);
      forall i | 0 <= i < |r| ensures key(r[i]) <= key(l) {
        assert r[i] in multiset(r);
        assert r[i] in Front(s) || r[i] == x;
      }
    }
  }

  lemma {:induction false} SortStableSorted<T>(s: seq<T>, key: T -> int)
    ensures SortedBy(SortStable(s, key), key)
  {
    if s != [] {
      SortStableSorted(Front(s), key);
      InsertSorted(SortStable(Front(s), key), Last(s), key);
    }
  }

  lemma InsertAtEnd<T>(s: seq<T>, l: T, x: T, key: T -> int)
    requires key(l) > key(x)
    ensures Insert(s + [l], x, key) == Insert(s, x, key) + [l]
  {
    assert Front(s + [l]) == s && Last(s + [l]) == l;
  }

  /** Selecting commutes with placing an element into a sorted sequence. */
  lemma {:induction false} InsertFilter<T>(s: seq<T>, x: T, key: T -> int, keep: T -> bool)
    requires SortedBy(s, key)
    ensures Filter(Insert(s, x, key), keep)
         == if keep(x) then Insert(Filter(s, keep), x, key) else Filter(s, keep)
  {
    if s == [] || key(Last(s)) <= key(x) {
      FilterSnoc(s, x, keep);
      FilterElements(s, keep);
      var f := Filter(s, keep);
      assert f != [] ==> Last(f) in f;
    } else {
      var l, f := Last(s), Filter(Front(s), keep);
      InsertFilter(Front(s), x, key, keep);
      FilterSnoc(Insert(Front(s), x, key), l, keep);
      if keep(l) {
        InsertAtEnd(f, l, x, key);
      }
    }
  }

  /** Sorting then selecting is selecting then sorting. */
  lemma {:induction false} SortFilter<T>(s: seq<T>, key: T -> int, keep: T -> bool)
    ensures Filter(SortStable(s, key), keep) == SortStable(Filter(s, keep), key)
  {
    if s != [] {
      SortFilter(Front(s), key, keep);
      SortStableSorted(Front(s), key);
      InsertFilter(SortStable(Front(s), key), Last(s), key, keep);
      if keep(Last(s)) {
        assert Front(Filter(Front(s), keep) + [Last(s)]) == Filter(Front(s), keep);
      }
    }
  }

  /** The test "has key k", as one named function so that its uses are equal. */
  function HasKey<T>(key: T -> int, k: int): T -> bool { x => key(x) == k }

  ghost predicate SameByKey<T>(s: seq<T>, t: seq<T>, key: T -> int) {
    forall k :: Filter(s, HasKey(key, k)) == Filter(t, HasKey(key, k))
  }

  /** Stability: the elements of each key keep their original order. */
  lemma SortStableStable<T>(s: seq<T>, key: T -> int)
    ensures SameByKey(SortStable(s, key), s, key)
  {
    forall k ensures Filter(SortStable(s, key), HasKey(key, k)) == Filter(s, HasKey(key, k)) {
      var f := Filter(s, HasKey(key, k));
      SortFilter(s, key, HasKey(key, k));
      FilterHolds(s, HasKey(key, k));
      assert forall i | 0 <= i < |f| :: HasKey(key, k)(f[i]);
      SortedIsFixed(f, key);
    }
  }

  lemma {:induction false} SortedIsFixed<T>(s: seq<T>, key: T -> int)
    requires SortedBy(s, key)
    ensures SortStable(s, key) == s
  {
    if s != [] {
      SortedIsFixed(Front(s), key);
      assert s == Front(s) + [Last(s)];
    }
  }

  /** Sortedness and per-key order determine a sequence completely. */
  lemma {:induction false} SortedUnique<T>(s: seq<T>, t: seq<T>, key: T -> int)
    requires SortedBy(s, key) && SortedBy(t, key)
    requires SameByKey(s, t, key)
    ensures s == t
    decreases |s| + |t|
  {
    if s == [] || t == [] {
      if s != [] { KeyOccurs(s, t, key); }
      if t != [] { KeyOccurs(t, s, key); }
    } else {
      LastKeyAtMost(s, t, key);
      LastKeyAtMost(t, s, key);
      SameLast(s, t, key);
      forall k ensures Filter(Front(s), HasKey(key, k)) == Filter(Front(t), HasKey(key, k)) {
        SameFront(s, t, key, k);
      }
      SortedUnique(Front(s), Front(t), key);
      assert s == Front(s) + [Last(s)] && t == Front(t) + [Last(t)];
    }
  }

  lemma KeyOccurs<T>(s: seq<T>, t: seq<T>, key: T -> int)
    requires s != [] && SameByKey(s, t, key)
    ensures Last(s) in t
  {
    var keep := HasKey(key, key(Last(s)));
    FilterElements(s, keep);
    FilterElements(t, keep);
    assert Filter(s, keep) == Filter(t, keep);
  }

  lemma LastKeyAtMost<T>(s: seq<T>, t: seq<T>, key: T -> int)
    requires s != [] && t != [] && SortedBy(t, key) && SameByKey(s, t, key)
    ensures key(Last(s)) <= key(Last(t))
  {
    KeyOccurs(s, t, key);
  }

  lemma SameLast<T>(s: seq<T>, t: seq<T>, key: T -> int)
    requires s != [] && t != [] && SameByKey(s, t, key) && key(Last(s)) == key(Last(t))
    ensures Last(s) == Last(t)
  {
    var keep := HasKey(key, key(Last(s)));
    assert Last(Filter(s, keep)) == Last(s);
    assert Last(Filter(t, keep)) == Last(t);
    assert Filter(s, keep) == Filter(t, keep);
  }

  lemma SameFront<T>(s: seq<T>, t: seq<T>, key: T -> int, k: int)
    requires s != [] && t != [] && SameByKey(s, t, key) && Last(s) == Last(t)
    ensures Filter(Front(s), HasKey(key, k)) == Filter(Front(t), HasKey(key, k))
  {
    var keep := HasKey(key, k);
    var fs, ft := Filter(Front(s), keep), Filter(Front(t), keep);
    assert Filter(s, keep) == Filter(t, keep);
    if keep(Last(s)) {
      assert Filter(s, keep) == fs + [Last(s)] && Filter(t, keep) == ft + [Last(t)];
      assert fs == Front(fs + [Last(s)]) == Front(ft + [Last(t)]) == ft;
    }
  }

  // ---- Sorting by a comparator, with no promise about the order of ties ----

  /** "Not after" is transitive among the given elements. */
  ghost predicate Orders<T>(less: (T, T) -> bool, elems: set<T>) {
    && (forall x | x in elems :: !less(x, x))
    && (forall x, y, z | x in elems && y in elems && z in elems ::
          !less(y, x) && !less(z, y) ==> !less(z, x))
    && (forall x, y | x in elems && y in elems :: less(x, y) ==> !less(y, x))
  }

  ghost predicate Ranked<T>(s: seq<T>, less: (T, T) -> bool) {
    forall i, j | 0 <= i < j < |s| :: !less(s[j], s[i])
  }

  /** The least element of `a[n..]` under the comparator. */
  method LeastIndex<T>(a: array<T>, n: nat, less: (T, T) -> bool, ghost elems: set<T>) returns (best: nat)
    requires n < a.Length && Orders(less, elems) && (forall i | 0 <= i < a.Length :: a[i] in elems)
    ensures n <= best < a.Length
    ensures forall i | n <= i < a.Length :: !less(a[i], a[best])
  {
    best := n;
    for j := n + 1 to a.Length
      invariant n <= best < a.Length
      invariant forall i | n <= i < j :: !less(a[i], a[best])
    {
      if less(a[j], a[best]) {
        best := j;
      }
    }
  }

  /** The first `n` places hold their final elements. */
  ghost predicate Settled<T>(s: seq<T>, n: nat, less: (T, T) -> bool) {
    forall i, j | 0 <= i < j < |s| && i < n :: !less(s[j], s[i])
  }

  lemma SwapSettles<T>(s: seq<T>, t: seq<T>, n: nat, best: nat, less: (T, T) -> bool)
    requires Settled(s, n, less) && n <= best < |s| && !less(s[best], s[best])
    requires forall i | n <= i < |s| :: !less(s[i], s[best])
    requires t == s[n := s[best]][best := s[n]]
    ensures Settled(t, n + 1, less) && multiset(t) == multiset(s)
  {
    forall i, j | 0 <= i < j < |t| && i < n + 1 ensures !less(t[j], t[i]) {
      var j' := if j == best then n else j;
      assert t[j] == s[if j == n then best else j'];
    }
  }

  method SortByLess<T>(a: array<T>, less: (T, T) -> bool, ghost elems: set<T>)
    requires Orders(less, elems) && (forall i | 0 <= i < a.Length :: a[i] in elems)
    modifies a
    ensures multiset(a[..]) == multiset(old(a[..]))
    ensures Ranked(a[..], less)
  {
    for n := 0 to a.Length
      invariant multiset(a[..]) == multiset(old(a[..]))
      invariant forall i | 0 <= i < a.Length :: a[i] in elems
      invariant Settled(a[..], n, less)
    {
      var best := LeastIndex(a, n, less, elems);
      ghost var s := a[..];
      a[n], a[best] := a[best], a[n];
      SwapSettles(s, a[..], n, best, less);
    }
  }
}
