/** Shared vocabulary: options, day numbers and the ordered-sequence toolkit.

    Calendar dates are day numbers and instants are numbers on one time axis.
    Codes, names and markets are numbers whose order stands for string order. */
module Common {
  datatype Option<+T> = None | Some(value: T)

  type Date = nat
  type Instant = nat

  /** The elements of `xs` satisfying `p`, in order. */
  function Filter<T(!new)>(xs: seq<T>, p: T -> bool): (r: seq<T>)
    ensures |r| <= |xs|
    ensures forall x :: x in r <==> x in xs && p(x)
  {
    if xs == [] then []
    else (if p(xs[0]) then [xs[0]] else []) + Filter(xs[1..], p)
  }

  lemma {:induction false} FilterAppend<T(!new)>(a: seq<T>, b: seq<T>, p: T -> bool)
    ensures Filter(a + b, p) == Filter(a, p) + Filter(b, p)
  {
    if a == [] {
      assert a + b == b;
    } else {
      assert (a + b)[1..] == a[1..] + b;
      FilterAppend(a[1..], b, p);
    }
  }

  lemma {:induction false} FilterAll<T(!new)>(xs: seq<T>, p: T -> bool)
    requires forall x :: x in xs ==> p(x)
    ensures Filter(xs, p) == xs
  {
    if xs != [] {
      FilterAll(xs[1..], p);
    }
  }

  lemma {:induction false} FilterNone<T(!new)>(xs: seq<T>, p: T -> bool)
    requires forall x :: x in xs ==> !p(x)
    ensures Filter(xs, p) == []
  {
    if xs != [] {
      FilterNone(xs[1..], p);
    }
  }

  lemma {:induction false} FilterMultiset<T(!new)>(xs: seq<T>, p: T -> bool, x: T)
    ensures multiset(Filter(xs, p))[x] == if p(x) then multiset(xs)[x] else 0
  {
    if xs != [] {
      FilterMultiset(xs[1..], p, x);
      assert xs == [xs[0]] + xs[1..];
    }
  }

  lemma FilterPermutation<T(!new)>(xs: seq<T>, ys: seq<T>, p: T -> bool)
    requires multiset(xs) == multiset(ys)
    ensures multiset(Filter(xs, p)) == multiset(Filter(ys, p))
  {
    forall x ensures multiset(Filter(xs, p))[x] == multiset(Filter(ys, p))[x] {
      FilterMultiset(xs, p, x);
      FilterMultiset(ys, p, x);
    }
  }

  /** Predicates that agree on the list select the same elements. */
  lemma {:induction false} FilterSame<T(!new)>(xs: seq<T>, p: T -> bool, q: T -> bool)
    requires forall x :: x in xs ==> p(x) == q(x)
    ensures Filter(xs, p) == Filter(xs, q)
  {
    if xs != [] {
      FilterSame(xs[1..], p, q);
    }
  }

  /** Filtering twice with the stronger predicate last is filtering once. */
  lemma {:induction false} FilterTwice<T(!new)>(xs: seq<T>, p: T -> bool, q: T -> bool)
    requires forall x :: x in xs && q(x) ==> p(x)
    ensures Filter(Filter(xs, p), q) == Filter(xs, q)
  {
    if xs != [] {
      FilterTwice(xs[1..], p, q);
      FilterAppend(if p(xs[0]) then [xs[0]] else [], Filter(xs[1..], p), q);
    }
  }

  // ---- counting by position --------------------------------------------

  lemma OneFiltered<T(!new)>(x: T, p: T -> bool)
    ensures Filter([x], p) == if p(x) then [x] else []
  {
  }

  lemma FilterSnoc<T(!new)>(front: seq<T>, x: T, p: T -> bool)
    ensures |Filter(front + [x], p)| == |Filter(front, p)| + if p(x) then 1 else 0
  {
    hide Filter;
    FilterAppend(front, [x], p);
    OneFiltered(x, p);
  }

  lemma NoneFiltered<T(!new)>(xs: seq<T>, p: T -> bool)
    ensures Filter(xs, p) == [] <==> forall x :: x in xs ==> !p(x)
  {
    if Filter(xs, p) != [] {
      assert Filter(xs, p)[0] in Filter(xs, p);
    }
  }

  ghost predicate TwoSuch<T(!new)>(xs: seq<T>, p: T -> bool) {
    exists j, k :: 0 <= j < k < |xs| && p(xs[j]) && p(xs[k])
  }

  lemma TwoSuchAppend<T(!new)>(xs: seq<T>, x: T, p: T -> bool)
    ensures TwoSuch(xs + [x], p) <==> TwoSuch(xs, p) || (p(x) && exists y :: y in xs && p(y))
  {
    var all := xs + [x];
    if j, k :| 0 <= j < k < |xs| && p(xs[j]) && p(xs[k]) {
      assert all[j] == xs[j] && all[k] == xs[k];
    }
    if y :| p(x) && y in xs && p(y) {
      var j :| 0 <= j < |xs| && xs[j] == y;
      assert all[j] == y && all[|xs|] == x;
    }
    if j, k :| 0 <= j < k < |all| && p(all[j]) && p(all[k]) {
      assert all[j] == xs[j] && xs[j] in xs;
      assert k < |xs| ==> all[k] == xs[k];
    }
  }

  lemma {:induction false} TwoFiltered<T(!new)>(xs: seq<T>, p: T -> bool)
    ensures |Filter(xs, p)| > 1 <==> TwoSuch(xs, p)
    decreases |xs|
  {
    hide Filter;
    if xs == [] {
      FilterAll(xs, p);
    } else {
      var front := xs[..|xs| - 1];
      assert xs == front + [xs[|xs| - 1]];
      TwoFiltered(front, p);
      FilterSnoc(front, xs[|xs| - 1], p);
      NoneFiltered(front, p);
      TwoSuchAppend(front, xs[|xs| - 1], p);
      hide TwoSuch;
    }
  }

  /** `x` satisfies `p` in `xs`, at one position only. */
  ghost predicate Alone<T(!new)>(xs: seq<T>, p: T -> bool, x: T) {
    exists k :: 0 <= k < |xs| && xs[k] == x && p(x) && forall j :: 0 <= j < |xs| && j != k ==> !p(xs[j])
  }

  lemma OneFilteredAt<T(!new)>(xs: seq<T>, p: T -> bool, x: T)
    ensures Filter(xs, p) == [x] <==> Alone(xs, p, x)
  {
    TwoFiltered(xs, p);
    NoneFiltered(xs, p);
    if Filter(xs, p) == [x] {
      assert x in Filter(xs, p);
      var k :| 0 <= k < |xs| && xs[k] == x;
    }
    if k :| 0 <= k < |xs| && xs[k] == x && p(x) && forall j :: 0 <= j < |xs| && j != k ==> !p(xs[j]) {
      assert x in Filter(xs, p);
      assert |Filter(xs, p)| == 1;
    }
  }

  function Sum(xs: seq<nat>): nat {
    if xs == [] then 0 else xs[0] + Sum(xs[1..])
  }

  lemma {:induction false} SumAppend(xs: seq<nat>, ys: seq<nat>)
    ensures Sum(xs + ys) == Sum(xs) + Sum(ys)
  {
    if xs == [] {
      assert xs + ys == ys;
    } else {
      assert (xs + ys)[1..] == xs[1..] + ys;
      SumAppend(xs[1..], ys);
    }
  }

  /** Replacing one summand changes the sum by the difference. */
  lemma {:induction false} SumUpdate(xs: seq<nat>, i: nat, v: nat)
    requires i < |xs|
    ensures Sum(xs[i := v]) == Sum(xs) - xs[i] + v
  {
    assert xs == xs[..i] + ([xs[i]] + xs[i + 1..]);
    assert xs[i := v] == xs[..i] + ([v] + xs[i + 1..]);
    SumAppend(xs[..i], [xs[i]] + xs[i + 1..]);
    SumAppend(xs[..i], [v] + xs[i + 1..]);
  }

  lemma {:induction false} SumMonotone(xs: seq<nat>, ys: seq<nat>)
    requires |xs| == |ys|
    requires forall i :: 0 <= i < |xs| ==> xs[i] <= ys[i]
    ensures Sum(xs) <= Sum(ys)
  {
    if xs != [] {
      SumMonotone(xs[1..], ys[1..]);
    }
  }

  /** A subset of a finite set with as many elements is the whole set. */
  lemma {:induction false} SubsetOfSameSize<T>(a: set<T>, b: set<T>)
    requires a <= b && |a| >= |b|
    ensures a == b
  {
    if !(b <= a) {
      var x :| x in b && x !in a;
      SubsetSize(a, b - {x});
    }
  }

  lemma {:induction false} SubsetSize<T>(a: set<T>, b: set<T>)
    requires a <= b
    ensures |a| <= |b|
  {
    if a != {} {
      var x :| x in a;
      SubsetSize(a - {x}, b - {x});
    }
  }

  function Interval(lo: nat, hi: nat): (s: set<nat>)
    ensures forall x :: x in s <==> lo <= x < hi
    ensures |s| == if lo <= hi then hi - lo else 0
    decreases hi - lo
  {
    if lo >= hi then {} else {hi - 1} + Interval(lo, hi - 1)
  }
}

/** Stable sorting by a three-part key, as Python's `sorted(..., key=...)`. */
module Sorting {
  import opened Common

  type Key = (nat, nat, nat)

  predicate Le(a: Key, b: Key) {
    a.0 < b.0 || (a.0 == b.0 && (a.1 < b.1 || (a.1 == b.1 && a.2 <= b.2)))
  }

  ghost predicate BelowAll<T(!new)>(k: Key, xs: seq<T>, key: T -> Key) {
    forall y :: y in xs ==> Le(k, key(y))
  }

  /** Every element is at most everything after it. */
  ghost predicate SortedBy<T(!new)>(xs: seq<T>, key: T -> Key) {
    xs == [] || (BelowAll(key(xs[0]), xs[1..], key) && SortedBy(xs[1..], key))
  }

  /** No two elements of `xs` share a key unless they are equal. */
  ghost predicate KeyIdentifies<T(!new)>(xs: seq<T>, key: T -> Key) {
    forall x, y :: x in xs && y in xs && key(x) == key(y) ==> x == y
  }

  lemma {:induction false} SortedAt<T(!new)>(xs: seq<T>, key: T -> Key, i: nat, j: nat)
    requires SortedBy(xs, key) && i < j < |xs|
    ensures Le(key(xs[i]), key(xs[j]))
  {
    if i == 0 {
      assert xs[j] == xs[1..][j - 1];
    } else {
      SortedAt(xs[1..], key, i - 1, j - 1);
    }
  }

  lemma MultisetMembers<T(!new)>(xs: seq<T>, ys: seq<T>)
    requires multiset(xs) == multiset(ys)
    ensures forall x :: x in xs <==> x in ys
  {
    assert forall x :: x in xs <==> x in multiset(xs);
    assert forall x :: x in ys <==> x in multiset(ys);
  }

  function Insert<T(!new)>(x: T, xs: seq<T>, key: T -> Key): (r: seq<T>) {
    if xs == [] || Le(key(x), key(xs[0])) then [x] + xs
    else [xs[0]] + Insert(x, xs[1..], key)
  }

  lemma {:induction false} InsertMultiset<T(!new)>(x: T, xs: seq<T>, key: T -> Key)
    ensures multiset(Insert(x, xs, key)) == multiset(xs) + multiset{x}
    ensures forall y :: y in Insert(x, xs, key) <==> y in xs || y == x
  {
    if !(xs == [] || Le(key(x), key(xs[0]))) {
      InsertMultiset(x, xs[1..], key);
      assert xs == [xs[0]] + xs[1..];
    }
  }

  lemma {:induction false} InsertSorted<T(!new)>(x: T, xs: seq<T>, key: T -> Key)
    requires SortedBy(xs, key)
    ensures SortedBy(Insert(x, xs, key), key)
  {
    if xs == [] || Le(key(x), key(xs[0])) {
      assert ([x] + xs)[1..] == xs;
    } else {
      var rest := Insert(x, xs[1..], key);
      InsertSorted(x, xs[1..], key);
      InsertMultiset(x, xs[1..], key);
      assert ([xs[0]] + rest)[1..] == rest;
    }
  }

  function SortBy<T(!new)>(xs: seq<T>, key: T -> Key): (r: seq<T>)
    ensures SortedBy(r, key)
    ensures multiset(r) == multiset(xs)
  {
    if xs == [] then []
    else
      var rest := SortBy(xs[1..], key);
      InsertMultiset(xs[0], rest, key);
      InsertSorted(xs[0], rest, key);
      assert xs == [xs[0]] + xs[1..];
      Insert(xs[0], rest, key)
  }

  lemma SortMembers<T(!new)>(xs: seq<T>, key: T -> Key)
    ensures forall x :: x in SortBy(xs, key) <==> x in xs
    ensures |SortBy(xs, key)| == |xs|
  {
    MultisetMembers(SortBy(xs, key), xs);
    assert |multiset(SortBy(xs, key))| == |multiset(xs)|;
  }

  /** A list that is already in key order is left alone. */
  lemma {:induction false} SortOfSorted<T(!new)>(xs: seq<T>, key: T -> Key)
    requires SortedBy(xs, key)
    ensures SortBy(xs, key) == xs
  {
    if xs != [] {
      SortOfSorted(xs[1..], key);
      assert xs == [xs[0]] + xs[1..];
      if |xs| > 1 {
        assert xs[1] == xs[1..][0] && xs[1] in xs[1..];
      }
    }
  }

  /** Two sorted arrangements of one multiset coincide when keys identify elements. */
  lemma {:induction false} SortedUnique<T(!new)>(a: seq<T>, b: seq<T>, key: T -> Key)
    requires SortedBy(a, key) && SortedBy(b, key)
    requires multiset(a) == multiset(b)
    requires KeyIdentifies(a, key)
    ensures a == b
  {
    MultisetMembers(a, b);
    assert |a| == |multiset(a)| == |multiset(b)| == |b|;
    if a != [] {
      hide BelowAll;
      SameHead(a, b, key);
      TailMultiset(a);
      TailMultiset(b);
      SortedUnique(a[1..], b[1..], key);
    }
  }

  lemma TailMultiset<T(!new)>(xs: seq<T>)
    requires xs != []
    ensures multiset(xs[1..]) == multiset(xs) - multiset{xs[0]}
    ensures xs == [xs[0]] + xs[1..]
  {
    assert xs == [xs[0]] + xs[1..];
  }

  lemma SameHead<T(!new)>(a: seq<T>, b: seq<T>, key: T -> Key)
    requires a != [] && b != []
    requires SortedBy(a, key) && SortedBy(b, key) && KeyIdentifies(a, key)
    requires forall x :: x in a <==> x in b
    ensures a[0] == b[0]
  {
    assert a[0] in a && b[0] in b;
    HeadLeast(a, key, b[0]);
    HeadLeast(b, key, a[0]);
  }

  lemma HeadLeast<T(!new)>(xs: seq<T>, key: T -> Key, x: T)
    requires SortedBy(xs, key) && x in xs
    ensures Le(key(xs[0]), key(x))
  {
    assert x == xs[0] || x in xs[1..];
  }

  /** Sorting forgets the order of its input. */
  lemma SortPermutation<T(!new)>(a: seq<T>, b: seq<T>, key: T -> Key)
    requires multiset(a) == multiset(b)
    requires KeyIdentifies(a, key)
    ensures SortBy(a, key) == SortBy(b, key)
  {
    SortMembers(a, key);
    SortedUnique(SortBy(a, key), SortBy(b, key), key);
  }

  lemma {:induction false} FilterSorted<T(!new)>(xs: seq<T>, key: T -> Key, p: T -> bool)
    requires SortedBy(xs, key)
    ensures SortedBy(Filter(xs, p), key)
  {
    if xs != [] {
      FilterSorted(xs[1..], key, p);
      var rest := Filter(xs[1..], p);
      assert ([xs[0]] + rest)[1..] == rest && [] + rest == rest;
    }
  }

  function WithKey<T(!new)>(key: T -> Key, k: Key): T -> bool { (x: T) => key(x) == k }

  lemma {:induction false} InsertStable<T(!new)>(x: T, xs: seq<T>, key: T -> Key, k: Key)
    requires SortedBy(xs, key)
    ensures Filter(Insert(x, xs, key), WithKey(key, k)) == Filter([x] + xs, WithKey(key, k))
  {
    if !(xs == [] || Le(key(x), key(xs[0]))) {
      InsertStable(x, xs[1..], key, k);
      var rest := Insert(x, xs[1..], key);
      assert ([xs[0]] + rest)[1..] == rest && ([x] + xs)[1..] == xs && ([x] + xs[1..])[1..] == xs[1..];
    }
  }

  /** Sorting keeps the order of the elements with one key. */
  lemma {:induction false} SortStable<T(!new)>(xs: seq<T>, key: T -> Key, k: Key)
    ensures Filter(SortBy(xs, key), WithKey(key, k)) == Filter(xs, WithKey(key, k))
  {
    if xs != [] {
      SortStable(xs[1..], key, k);
      var rest := SortBy(xs[1..], key);
      InsertStable(xs[0], rest, key, k);
      assert ([xs[0]] + rest)[1..] == rest;
    }
  }

  lemma HeadKept<T(!new)>(xs: seq<T>, key: T -> Key)
    requires xs != []
    ensures xs[0] in Filter(xs, WithKey(key, key(xs[0])))
  {
  }

  /** Sorted lists with the same elements in the same order for each key are the same. */
  lemma {:induction false} SortedSame<T(!new)>(a: seq<T>, b: seq<T>, key: T -> Key)
    requires SortedBy(a, key) && SortedBy(b, key)
    requires forall k :: Filter(a, WithKey(key, k)) == Filter(b, WithKey(key, k))
    ensures a == b
  {
    if a != [] {
      HeadKept(a, key);
    }
    if b != [] {
      HeadKept(b, key);
    }
    if a != [] && b != [] {
      HeadLeast(a, key, b[0]);
      HeadLeast(b, key, a[0]);
      var k0 := key(a[0]);
      assert Filter(a, WithKey(key, k0))[0] == a[0] && Filter(b, WithKey(key, k0))[0] == b[0];
      forall k ensures Filter(a[1..], WithKey(key, k)) == Filter(b[1..], WithKey(key, k)) {
        if k == k0 {
          assert Filter(a, WithKey(key, k))[1..] == Filter(a[1..], WithKey(key, k));
          assert Filter(b, WithKey(key, k))[1..] == Filter(b[1..], WithKey(key, k));
        } else {
          assert Filter(a, WithKey(key, k)) == Filter(a[1..], WithKey(key, k));
          assert Filter(b, WithKey(key, k)) == Filter(b[1..], WithKey(key, k));
        }
      }
      SortedSame(a[1..], b[1..], key);
    }
  }

  /** Pairwise different keys. */
  ghost predicate DistinctKeys<T(!new)>(xs: seq<T>, key: T -> Key) {
    xs == [] || ((forall y :: y in xs[1..] ==> key(y) != key(xs[0])) && DistinctKeys(xs[1..], key))
  }

  lemma {:induction false} DistinctAppend<T(!new)>(xs: seq<T>, x: T, key: T -> Key)
    ensures DistinctKeys(xs + [x], key) <==> DistinctKeys(xs, key) && forall y :: y in xs ==> key(y) != key(x)
  {
    if xs != [] {
      assert (xs + [x])[1..] == xs[1..] + [x];
      assert xs == [xs[0]] + xs[1..];
      DistinctAppend(xs[1..], x, key);
    }
  }

  lemma {:induction false} DistinctConcat<T(!new)>(xs: seq<T>, ys: seq<T>, key: T -> Key)
    requires DistinctKeys(xs, key) && DistinctKeys(ys, key)
    requires forall x, y :: x in xs && y in ys ==> key(x) != key(y)
    ensures DistinctKeys(xs + ys, key)
  {
    if xs == [] {
      assert xs + ys == ys;
    } else {
      assert (xs + ys)[1..] == xs[1..] + ys;
      assert xs == [xs[0]] + xs[1..];
      DistinctConcat(xs[1..], ys, key);
    }
  }

  lemma {:induction false} DistinctIdentifies<T(!new)>(xs: seq<T>, key: T -> Key)
    requires DistinctKeys(xs, key)
    ensures KeyIdentifies(xs, key)
  {
    if xs != [] {
      assert xs == [xs[0]] + xs[1..];
      DistinctIdentifies(xs[1..], key);
    }
  }

  lemma {:induction false} DistinctAt<T(!new)>(xs: seq<T>, key: T -> Key, i: nat, j: nat)
    requires DistinctKeys(xs, key) && i < j < |xs|
    ensures key(xs[i]) != key(xs[j])
  {
    if i == 0 {
      assert xs[1..][j - 1] in xs[1..];
    } else {
      DistinctAt(xs[1..], key, i - 1, j - 1);
    }
  }

  lemma {:induction false} InsertDistinct<T(!new)>(x: T, xs: seq<T>, order: T -> Key, key: T -> Key)
    requires DistinctKeys(xs, key) && forall y :: y in xs ==> key(y) != key(x)
    ensures DistinctKeys(Insert(x, xs, order), key)
  {
    if xs == [] || Le(order(x), order(xs[0])) {
      assert ([x] + xs)[1..] == xs;
    } else {
      InsertDistinct(x, xs[1..], order, key);
      InsertMultiset(x, xs[1..], order);
      assert ([xs[0]] + Insert(x, xs[1..], order))[1..] == Insert(x, xs[1..], order);
    }
  }

  /** Reordering keeps keys pairwise different. */
  lemma {:induction false} SortDistinct<T(!new)>(xs: seq<T>, order: T -> Key, key: T -> Key)
    requires DistinctKeys(xs, key)
    ensures DistinctKeys(SortBy(xs, order), key)
  {
    if xs != [] {
      SortDistinct(xs[1..], order, key);
      SortMembers(xs[1..], order);
      InsertDistinct(xs[0], SortBy(xs[1..], order), order, key);
    }
  }

  lemma {:induction false} FilterDistinct<T(!new)>(xs: seq<T>, key: T -> Key, p: T -> bool)
    requires DistinctKeys(xs, key)
    ensures DistinctKeys(Filter(xs, p), key)
  {
    if xs != [] {
      FilterDistinct(xs[1..], key, p);
      var rest := Filter(xs[1..], p);
      assert ([xs[0]] + rest)[1..] == rest && [] + rest == rest;
    }
  }

  /** Filtering commutes with sorting when keys identify elements. */
  lemma FilterSort<T(!new)>(xs: seq<T>, key: T -> Key, p: T -> bool)
    requires KeyIdentifies(xs, key)
    ensures Filter(SortBy(xs, key), p) == SortBy(Filter(xs, p), key)
  {
    FilterSorted(SortBy(xs, key), key, p);
    FilterPermutation(SortBy(xs, key), xs, p);
    SortMembers(xs, key);
    SortedUnique(Filter(SortBy(xs, key), p), SortBy(Filter(xs, p), key), key);
  }
}

/** Ascending duplicate-free lists of numbers, as `sorted(set(...))`. */
module Ascent {
  ghost predicate Ascending(xs: seq<nat>) {
    xs == [] || ((forall y :: y in xs[1..] ==> xs[0] < y) && Ascending(xs[1..]))
  }

  lemma {:induction false} AscendingAt(xs: seq<nat>, i: nat, j: nat)
    requires Ascending(xs) && i < j < |xs|
    ensures xs[i] < xs[j]
  {
    if i == 0 {
      assert xs[1..][j - 1] in xs[1..];
    } else {
      AscendingAt(xs[1..], i - 1, j - 1);
    }
  }

  function InsertDistinct(x: nat, xs: seq<nat>): (r: seq<nat>)
    ensures forall y :: y in r <==> y in xs || y == x
  {
    if xs == [] || x < xs[0] then [x] + xs
    else if x == xs[0] then xs
    else
      assert xs == [xs[0]] + xs[1..];
      [xs[0]] + InsertDistinct(x, xs[1..])
  }

  lemma {:induction false} InsertAscending(x: nat, xs: seq<nat>)
    requires Ascending(xs)
    ensures Ascending(InsertDistinct(x, xs))
  {
    if xs == [] || x < xs[0] {
      assert ([x] + xs)[1..] == xs;
      assert forall y :: y in xs ==> y == xs[0] || y in xs[1..];
    } else if x != xs[0] {
      InsertAscending(x, xs[1..]);
      var rest := InsertDistinct(x, xs[1..]);
      assert ([xs[0]] + rest)[1..] == rest;
    }
  }

  /** `sorted(set(xs))`. */
  function SortedDistinct(xs: seq<nat>): (r: seq<nat>)
    ensures Ascending(r)
    ensures forall x :: x in r <==> x in xs
  {
    if xs == [] then []
    else
      var rest := SortedDistinct(xs[1..]);
      InsertAscending(xs[0], rest);
      assert xs == [xs[0]] + xs[1..];
      InsertDistinct(xs[0], rest)
  }

  lemma HeadIsMember(xs: seq<nat>)
    ensures xs == [] || xs[0] in xs
  {
  }

  lemma TailMembers(xs: seq<nat>)
    requires xs != [] && Ascending(xs)
    ensures forall x :: x in xs[1..] <==> x in xs && x != xs[0]
  {
    assert xs == [xs[0]] + xs[1..];
  }

  /** An ascending list is determined by its members. */
  lemma {:induction false} AscendingUnique(a: seq<nat>, b: seq<nat>)
    requires Ascending(a) && Ascending(b)
    requires forall x :: x in a <==> x in b
    ensures a == b
  {
    HeadIsMember(a);
    HeadIsMember(b);
    if a != [] && b != [] {
      TailMembers(a);
      TailMembers(b);
      assert a[0] == b[0];
      AscendingUnique(a[1..], b[1..]);
      assert a == [a[0]] + a[1..] && b == [b[0]] + b[1..];
    }
  }
}

/** Ascending duplicate-free lists of sort keys, for sorted dictionary keys. */
module KeyAscent {
  import opened Common
  import opened Sorting

  predicate Lt(a: Key, b: Key) { Le(a, b) && a != b }

  ghost predicate Ascending(xs: seq<Key>) {
    xs == [] || ((forall y :: y in xs[1..] ==> Lt(xs[0], y)) && Ascending(xs[1..]))
  }

  function InsertDistinct(x: Key, xs: seq<Key>): (r: seq<Key>)
    ensures forall y :: y in r <==> y in xs || y == x
  {
    if xs == [] || Lt(x, xs[0]) then [x] + xs
    else if x == xs[0] then xs
    else
      assert xs == [xs[0]] + xs[1..];
      [xs[0]] + InsertDistinct(x, xs[1..])
  }

  lemma {:induction false} InsertAscending(x: Key, xs: seq<Key>)
    requires Ascending(xs)
    ensures Ascending(InsertDistinct(x, xs))
  {
    if xs == [] || Lt(x, xs[0]) {
      assert ([x] + xs)[1..] == xs;
      assert forall y :: y in xs ==> y == xs[0] || y in xs[1..];
    } else if x != xs[0] {
      InsertAscending(x, xs[1..]);
      var rest := InsertDistinct(x, xs[1..]);
      assert ([xs[0]] + rest)[1..] == rest;
    }
  }

  /** The distinct keys of a list, in order. */
  function SortedDistinct(xs: seq<Key>): (r: seq<Key>)
    ensures Ascending(r)
    ensures forall x :: x in r <==> x in xs
  {
    if xs == [] then []
    else
      var rest := SortedDistinct(xs[1..]);
      InsertAscending(xs[0], rest);
      assert xs == [xs[0]] + xs[1..];
      InsertDistinct(xs[0], rest)
  }

  lemma HeadIsMember(xs: seq<Key>)
    ensures xs == [] || xs[0] in xs
  {
  }

  lemma TailMembers(xs: seq<Key>)
    requires xs != [] && Ascending(xs)
    ensures forall x :: x in xs[1..] <==> x in xs && x != xs[0]
  {
    assert xs == [xs[0]] + xs[1..];
  }

  lemma {:induction false} AscendingUnique(a: seq<Key>, b: seq<Key>)
    requires Ascending(a) && Ascending(b)
    requires forall x :: x in a <==> x in b
    ensures a == b
  {
    HeadIsMember(a);
    HeadIsMember(b);
    if a != [] && b != [] {
      TailMembers(a);
      TailMembers(b);
      SameHead(a, b);
      AscendingUnique(a[1..], b[1..]);
      assert a == [a[0]] + a[1..] && b == [b[0]] + b[1..];
    }
  }

  lemma SameHead(a: seq<Key>, b: seq<Key>)
    requires a != [] && b != [] && Ascending(a) && Ascending(b)
    requires a[0] in b && b[0] in a
    ensures a[0] == b[0]
  {
    TailMembers(a);
    TailMembers(b);
  }

  lemma {:induction false} AscendingAt(xs: seq<Key>, i: nat, j: nat)
    requires Ascending(xs) && i < j < |xs|
    ensures Lt(xs[i], xs[j])
  {
    if i == 0 {
      assert xs[1..][j - 1] in xs[1..];
    } else {
      AscendingAt(xs[1..], i - 1, j - 1);
    }
  }

  /** A sum over an ascending key list of an indicator of one listed key is 1. */
  function Indicator(xs: seq<Key>, k: Key): (r: seq<nat>)
    ensures |r| == |xs|
    ensures forall i :: 0 <= i < |xs| ==> r[i] == if xs[i] == k then 1 else 0
  {
    seq(|xs|, i requires 0 <= i < |xs| => if xs[i] == k then 1 else 0)
  }

  lemma {:induction false} IndicatorSum(xs: seq<Key>, k: Key)
    requires Ascending(xs)
    ensures Sum(Indicator(xs, k)) == if k in xs then 1 else 0
  {
    if xs != [] {
      TailMembers(xs);
      assert Indicator(xs, k)[1..] == Indicator(xs[1..], k);
      IndicatorSum(xs[1..], k);
    }
  }
}

/** Lists gathered by a loop: optional values in order, and the rows of a
    `setdefault(key, []).append` dictionary. */
module Gathering {
  import opened Common
  import opened Sorting

  /** The values `f` gives for `xs`, in order. */
  function Collect<T, U>(xs: seq<T>, f: T -> Option<U>): seq<U>
    decreases |xs|
  {
    if xs == [] then []
    else Collect(xs[..|xs| - 1], f) + match f(xs[|xs| - 1]) { case Some(u) => [u] case None => [] }
  }

  lemma {:induction false} CollectMembers<T(!new), U(!new)>(xs: seq<T>, f: T -> Option<U>, u: U)
    ensures u in Collect(xs, f) <==> exists x :: x in xs && f(x) == Some(u)
    decreases |xs|
  {
    if xs != [] {
      assert xs == xs[..|xs| - 1] + [xs[|xs| - 1]];
      CollectMembers(xs[..|xs| - 1], f, u);
    }
  }

  lemma {:induction false} CollectNone<T(!new), U(!new)>(xs: seq<T>, f: T -> Option<U>)
    requires forall x :: x in xs ==> f(x).None?
    ensures Collect(xs, f) == []
    decreases |xs|
  {
    if xs != [] {
      CollectNone(xs[..|xs| - 1], f);
    }
  }

  lemma {:induction false} CollectSame<T(!new), U(!new)>(xs: seq<T>, f: T -> Option<U>, g: T -> Option<U>)
    requires forall x :: x in xs ==> f(x) == g(x)
    ensures Collect(xs, f) == Collect(xs, g)
    decreases |xs|
  {
    if xs != [] {
      CollectSame(xs[..|xs| - 1], f, g);
    }
  }

  /** Elements with different keys that give values with different keys give a list
      of pairwise different keys. */
  lemma {:induction false} CollectDistinct<T(!new), U(!new)>(xs: seq<T>, f: T -> Option<U>, key: T -> Key,
                                                             out: U -> Key)
    requires DistinctKeys(xs, key)
    requires forall x, y :: x in xs && y in xs && f(x).Some? && f(y).Some? && out(f(x).value) == out(f(y).value)
               ==> key(x) == key(y)
    ensures DistinctKeys(Collect(xs, f), out)
    decreases |xs|
  {
    if xs != [] {
      var front, last := xs[..|xs| - 1], xs[|xs| - 1];
      assert xs == front + [last];
      DistinctAppend(front, last, key);
      CollectDistinct(front, f, key, out);
      if f(last).Some? {
        var us, u := Collect(front, f), f(last).value;
        forall v | v in us ensures out(v) != out(u) {
          CollectMembers(front, f, v);
        }
        DistinctAppend(us, u, out);
      } else {
        assert Collect(xs, f) == Collect(front, f) + [] == Collect(front, f);
      }
    }
  }

  lemma FilterNext<T(!new)>(xs: seq<T>, p: T -> bool, i: nat)
    requires i < |xs|
    ensures Filter(xs[..i + 1], p) == Filter(xs[..i], p) + if p(xs[i]) then [xs[i]] else []
  {
    assert xs[..i + 1] == xs[..i] + [xs[i]];
    FilterAppend(xs[..i], [xs[i]], p);
    OneFiltered(xs[i], p);
  }

  lemma CollectNext<T, U>(xs: seq<T>, f: T -> Option<U>, i: nat)
    requires i < |xs|
    ensures Collect(xs[..i + 1], f) == Collect(xs[..i], f) + match f(xs[i]) { case Some(u) => [u] case None => [] }
  {
    assert xs[..i + 1][..i] == xs[..i];
  }

  function At<K, T>(m: map<K, seq<T>>, k: K): seq<T> { if k in m then m[k] else [] }

  /** `m` is the `setdefault(key, []).append` dictionary of `xs`. */
  ghost predicate Indexes<K(!new), T(!new)>(m: map<K, seq<T>>, xs: seq<T>, select: K -> (T -> bool)) {
    forall k :: At(m, k) == Filter(xs, select(k))
  }

  lemma IndexesNext<K(!new), T(!new)>(m: map<K, seq<T>>, xs: seq<T>, select: K -> (T -> bool), x: T, key: K)
    requires Indexes(m, xs, select)
    requires forall k :: select(k)(x) <==> k == key
    ensures Indexes(m[key := At(m, key) + [x]], xs + [x], select)
  {
    forall k ensures At(m[key := At(m, key) + [x]], k) == Filter(xs + [x], select(k)) {
      FilterAppend(xs, [x], select(k));
      assert At(m, k) == Filter(xs, select(k));
    }
  }

  lemma IndexesSkip<K(!new), T(!new)>(m: map<K, seq<T>>, xs: seq<T>, select: K -> (T -> bool), x: T)
    requires Indexes(m, xs, select)
    requires forall k :: !select(k)(x)
    ensures Indexes(m, xs + [x], select)
  {
    forall k ensures At(m, k) == Filter(xs + [x], select(k)) {
      FilterAppend(xs, [x], select(k));
      assert At(m, k) == Filter(xs, select(k));
    }
  }

  lemma NothingIndexed<K(!new), T(!new)>(m: map<K, seq<T>>, select: K -> (T -> bool))
    requires m == map[]
    ensures Indexes(m, [], select)
  {
  }
}
