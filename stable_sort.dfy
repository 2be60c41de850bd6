/**
 * `Array.prototype.sort` with a comparator, as the flight list and the
 * popular-routes ranking use it. ECMA-262 (2019 edition onwards) requires the
 * sort to be stable; it is modelled here as a stable insertion sort over a
 * "strictly before" relation that is a strict weak order (a comparator
 * `cmp` corresponds to `before(a, b) == (cmp(a, b) < 0)`).
 */
module StableSorting {

  ghost predicate StrictWeakOrder<T(!new)>(before: (T, T) -> bool)
  {
    && (forall a :: !before(a, a))
    && (forall a, b, c :: before(a, b) && before(b, c) ==> before(a, c))
    && (forall a, b, c :: !before(a, b) && !before(b, c) ==> !before(a, c))
  }

  /** No element is strictly before an element to its left. */
  ghost predicate SortedBy<T>(s: seq<T>, before: (T, T) -> bool)
  {
    forall i, j :: 0 <= i < j < |s| ==> !before(s[j], s[i])
  }

  /** Neither of `a`, `b` is strictly before the other: they tie. */
  predicate Tie<T>(a: T, b: T, before: (T, T) -> bool)
  {
    !before(a, b) && !before(b, a)
  }

  /** The elements of `s` that tie with `x`, in their order in `s`. */
  function TiesOf<T>(s: seq<T>, x: T, before: (T, T) -> bool): seq<T>
    decreases |s|
  {
    if |s| == 0 then []
    else
      var n := |s| - 1;
      TiesOf(s[..n], x, before) + if Tie(s[n], x, before) then [s[n]] else []
  }

  lemma TiesOfSnoc<T>(s: seq<T>, y: T, x: T, before: (T, T) -> bool)
    ensures TiesOf(s + [y], x, before) == TiesOf(s, x, before) + if Tie(y, x, before) then [y] else []
  {
    assert (s + [y])[..|s|] == s;
  }

  /**
   * The ties of `x` in a prefix of `s` are a prefix of its ties in `s`: cutting
   * a list short keeps, among equals, the ones that came first.
   */
  lemma {:induction false} TiesOfTake<T>(s: seq<T>, m: nat, x: T, before: (T, T) -> bool)
    requires m <= |s|
    ensures TiesOf(s[..m], x, before) <= TiesOf(s, x, before)
    decreases |s| - m
  {
    if m < |s| {
      var n := |s| - 1;
      assert s[..n][..m] == s[..m];
      TiesOfTake(s[..n], m, x, before);
    } else {
      assert s[..m] == s;
    }
  }

  /**
   * The first `m` elements of a sorted permutation of `s`: they come from `s`,
   * stay sorted, and no element of `s` left out of them is strictly before
   * any of them.
   */
  lemma SortedTake<T>(s: seq<T>, sorted: seq<T>, m: nat, before: (T, T) -> bool)
    requires multiset(sorted) == multiset(s) && SortedBy(sorted, before) && m <= |sorted|
    ensures multiset(sorted[..m]) <= multiset(s)
    ensures forall j :: 0 <= j < m ==> sorted[j] in s
    ensures SortedBy(sorted[..m], before)
    ensures forall x :: x in s && x !in sorted[..m] ==> forall i :: 0 <= i < m ==> !before(x, sorted[i])
  {
    var top := sorted[..m];
    assert sorted == top + sorted[m..];
    assert multiset(sorted) == multiset(top) + multiset(sorted[m..]);
    forall j | 0 <= j < m ensures sorted[j] in s {
      assert sorted[j] in multiset(sorted);
    }
    forall x | x in s && x !in top
      ensures forall i :: 0 <= i < m ==> !before(x, sorted[i])
    {
      assert x in multiset(sorted);
      var j :| 0 <= j < |sorted| && sorted[j] == x;
      assert j >= m;
    }
  }

  /**
   * Inserts `x` into a sorted `t` after every element that `x` is not
   * strictly before, so that among ties the inserted element comes last.
   */
  function Insert<T(!new)>(t: seq<T>, x: T, before: (T, T) -> bool): (r: seq<T>)
    requires StrictWeakOrder(before)
    ensures multiset(r) == multiset(t) + multiset{x}
    ensures SortedBy(t, before) ==> SortedBy(r, before)
    ensures forall y :: TiesOf(r, y, before) == TiesOf(t, y, before) + if Tie(x, y, before) then [x] else []
    decreases |t|
  {
    if |t| == 0 then
      assert forall y :: TiesOf([x], y, before) == TiesOf([], y, before) + if Tie(x, y, before) then [x] else [] by {
        forall y { TiesOfSnoc([], x, y, before); }
      }
      [x]
    else
      var n := |t| - 1;
      var last := t[n];
      assert t == t[..n] + [last];
      if before(x, last) then
        var u := Insert(t[..n], x, before);
        InsertBeforeLast(t, x, before, u);
        u + [last]
      else
        InsertAfterLast(t, x, before);
        t + [x]
  }

  lemma InsertAfterLast<T(!new)>(t: seq<T>, x: T, before: (T, T) -> bool)
    requires StrictWeakOrder(before)
    requires |t| > 0 && !before(x, t[|t| - 1])
    ensures SortedBy(t, before) ==> SortedBy(t + [x], before)
    ensures forall y :: TiesOf(t + [x], y, before) == TiesOf(t, y, before) + if Tie(x, y, before) then [x] else []
  {
    forall y { TiesOfSnoc(t, x, y, before); }
    if SortedBy(t, before) {
      var n := |t| - 1;
      forall i | 0 <= i < |t| ensures !before(x, t[i]) {
        if i < n {
          assert !before(t[n], t[i]);
        }
      }
    }
  }

  lemma InsertBeforeLast<T(!new)>(t: seq<T>, x: T, before: (T, T) -> bool, u: seq<T>)
    requires StrictWeakOrder(before)
    requires |t| > 0 && before(x, t[|t| - 1])
    requires multiset(u) == multiset(t[..|t| - 1]) + multiset{x}
    requires SortedBy(t[..|t| - 1], before) ==> SortedBy(u, before)
    requires forall y :: TiesOf(u, y, before) == TiesOf(t[..|t| - 1], y, before) + if Tie(x, y, before) then [x] else []
    ensures multiset(u + [t[|t| - 1]]) == multiset(t) + multiset{x}
    ensures SortedBy(t, before) ==> SortedBy(u + [t[|t| - 1]], before)
    ensures forall y :: TiesOf(u + [t[|t| - 1]], y, before) == TiesOf(t, y, before) + if Tie(x, y, before) then [x] else []
  {
    var n := |t| - 1;
    assert t == t[..n] + [t[n]];
    InsertBeforeLastTies(t[..n], t[n], x, before, u);
    if SortedBy(t, before) {
      InsertBeforeLastSorted(t[..n], t[n], x, before, u);
    }
  }

  lemma InsertBeforeLastTies<T(!new)>(init: seq<T>, last: T, x: T, before: (T, T) -> bool, u: seq<T>)
    requires StrictWeakOrder(before)
    requires before(x, last)
    requires forall y :: TiesOf(u, y, before) == TiesOf(init, y, before) + if Tie(x, y, before) then [x] else []
    ensures forall y :: TiesOf(u + [last], y, before) == TiesOf(init + [last], y, before) + if Tie(x, y, before) then [x] else []
  {
    forall y
      ensures TiesOf(u + [last], y, before) == TiesOf(init + [last], y, before) + if Tie(x, y, before) then [x] else []
    {
      TiesOfSnoc(u, last, y, before);
      TiesOfSnoc(init, last, y, before);
      // x and last do not tie, so at most one of them ties with y
      assert !(Tie(x, y, before) && Tie(last, y, before));
    }
  }

  lemma InsertBeforeLastSorted<T(!new)>(init: seq<T>, last: T, x: T, before: (T, T) -> bool, u: seq<T>)
    requires StrictWeakOrder(before)
    requires before(x, last)
    requires SortedBy(init + [last], before)
    requires multiset(u) == multiset(init) + multiset{x}
    requires SortedBy(init, before) ==> SortedBy(u, before)
    ensures SortedBy(u + [last], before)
  {
    var t := init + [last];
    assert SortedBy(init, before) by {
      forall i, j | 0 <= i < j < |init| ensures !before(init[j], init[i]) {
        assert init[i] == t[i] && init[j] == t[j];
      }
    }
    forall i | 0 <= i < |u| ensures !before(last, u[i]) {
      assert u[i] in multiset(u);
      if u[i] != x {
        assert u[i] in multiset(init);
        var k :| 0 <= k < |init| && init[k] == u[i];
        assert t[k] == init[k] && t[|init|] == last;
      }
    }
  }

  /**
   * The stable sort: a permutation of `s`, sorted by `before`, in which
   * tying elements keep their relative order from `s`.
   */
  function StableSort<T(!new)>(s: seq<T>, before: (T, T) -> bool): (r: seq<T>)
    requires StrictWeakOrder(before)
    ensures multiset(r) == multiset(s)
    ensures |r| == |s|
    ensures SortedBy(r, before)
    ensures forall x :: TiesOf(r, x, before) == TiesOf(s, x, before)
    decreases |s|
  {
    if |s| == 0 then []
    else
      var n := |s| - 1;
      assert s == s[..n] + [s[n]];
      var r := Insert(StableSort(s[..n], before), s[n], before);
      StableSortStep(s, StableSort(s[..n], before), r, before);
      r
  }

  lemma StableSortStep<T(!new)>(s: seq<T>, sorted: seq<T>, r: seq<T>, before: (T, T) -> bool)
    requires StrictWeakOrder(before)
    requires |s| > 0
    requires forall x :: TiesOf(sorted, x, before) == TiesOf(s[..|s| - 1], x, before)
    requires forall y :: TiesOf(r, y, before) == TiesOf(sorted, y, before) + if Tie(s[|s| - 1], y, before) then [s[|s| - 1]] else []
    ensures forall x :: TiesOf(r, x, before) == TiesOf(s, x, before)
  {
    var n := |s| - 1;
    assert s == s[..n] + [s[n]];
    forall x ensures TiesOf(r, x, before) == TiesOf(s, x, before) {
      TiesOfSnoc(s[..n], s[n], x, before);
    }
  }

  lemma {:induction false} InsertAgrees<T(!new)>(t: seq<T>, x: T, b1: (T, T) -> bool, b2: (T, T) -> bool)
    requires StrictWeakOrder(b1) && StrictWeakOrder(b2)
    requires forall a, b :: b1(a, b) == b2(a, b)
    ensures Insert(t, x, b1) == Insert(t, x, b2)
    decreases |t|
  {
    if |t| > 0 {
      InsertAgrees(t[..|t| - 1], x, b1, b2);
    }
  }

  /** Two "before" relations that agree on every pair sort every list alike. */
  lemma {:induction false} StableSortAgrees<T(!new)>(s: seq<T>, b1: (T, T) -> bool, b2: (T, T) -> bool)
    requires StrictWeakOrder(b1) && StrictWeakOrder(b2)
    requires forall a, b :: b1(a, b) == b2(a, b)
    ensures StableSort(s, b1) == StableSort(s, b2)
    decreases |s|
  {
    if |s| > 0 {
      var n := |s| - 1;
      StableSortAgrees(s[..n], b1, b2);
      InsertAgrees(StableSort(s[..n], b1), s[n], b1, b2);
    }
  }
}
