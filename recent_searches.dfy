/**
 * The most recent searches (`src/hooks/useRecentSearches.ts`): at most five
 * origin/destination pairs, newest first, a repeated pair moving to the
 * front instead of appearing twice. Pairs are compared by the options'
 * values only.
 */
module RecentSearches {
  import opened FlightTypes

  const MAX_RECENT := 5

  datatype RecentSearch = RecentSearch(from: AutocompleteOption, to: AutocompleteOption)

  predicate SamePair(a: RecentSearch, b: RecentSearch)
  {
    a.from.value == b.from.value && a.to.value == b.to.value
  }

  /** `prev.filter(s => !SamePair(s, search))`. */
  function WithoutPair(prev: seq<RecentSearch>, search: RecentSearch): (r: seq<RecentSearch>)
    ensures |r| <= |prev|
    ensures forall i :: 0 <= i < |r| ==> !SamePair(r[i], search)
    decreases |prev|
  {
    if |prev| == 0 then []
    else
      var n := |prev| - 1;
      WithoutPair(prev[..n], search) + if SamePair(prev[n], search) then [] else [prev[n]]
  }

  /** Every other pair keeps each of its entries; entries with the searched pair are all dropped. */
  lemma {:induction false} WithoutPairCount(prev: seq<RecentSearch>, search: RecentSearch)
    ensures var r := WithoutPair(prev, search);
      forall x :: multiset(r)[x] == if SamePair(x, search) then 0 else multiset(prev)[x]
    decreases |prev|
  {
    if |prev| > 0 {
      var n := |prev| - 1;
      assert prev == prev[..n] + [prev[n]];
      WithoutPairCount(prev[..n], search);
    }
  }

  lemma {:induction false} WithoutPairAppend(a: seq<RecentSearch>, b: seq<RecentSearch>, search: RecentSearch)
    ensures WithoutPair(a + b, search) == WithoutPair(a, search) + WithoutPair(b, search)
    decreases |b|
  {
    if |b| == 0 {
      assert a + b == a;
    } else {
      var n := |b| - 1;
      assert (a + b)[..|a + b| - 1] == a + b[..n];
      assert (a + b)[|a + b| - 1] == b[n];
      WithoutPairAppend(a, b[..n], search);
    }
  }

  /** Filtering a list that holds no entry of the pair leaves it as it is. */
  lemma {:induction false} WithoutPairOfOthers(s: seq<RecentSearch>, search: RecentSearch)
    requires forall i :: 0 <= i < |s| ==> !SamePair(s[i], search)
    ensures WithoutPair(s, search) == s
    decreases |s|
  {
    if |s| > 0 {
      var n := |s| - 1;
      WithoutPairOfOthers(s[..n], search);
      assert s == s[..n] + [s[n]];
    }
  }

  /** The filter keeps only entries of the original list. */
  lemma {:induction false} WithoutPairMembers(prev: seq<RecentSearch>, search: RecentSearch)
    ensures forall x :: x in WithoutPair(prev, search) ==> x in prev
    decreases |prev|
  {
    if |prev| > 0 {
      var n := |prev| - 1;
      WithoutPairMembers(prev[..n], search);
      assert prev == prev[..n] + [prev[n]];
    }
  }

  /** No pair occurs twice. */
  ghost predicate DistinctPairs(s: seq<RecentSearch>)
  {
    forall i, j :: 0 <= i < j < |s| ==> !SamePair(s[i], s[j])
  }

  /**
   * `addSearch`'s update: the new search first, then the earlier entries
   * with a different pair in their order, cut to five.
   */
  function AddedSearch(prev: seq<RecentSearch>, search: RecentSearch): (r: seq<RecentSearch>)
    ensures 1 <= |r| <= MAX_RECENT
    ensures |r| == Min(MAX_RECENT, 1 + |WithoutPair(prev, search)|)
    ensures r[0] == search
    ensures forall i :: 1 <= i < |r| ==> !SamePair(r[i], search)
    ensures r[1..] <= WithoutPair(prev, search)
    ensures forall x :: x in r ==> x == search || x in prev
  {
    var filtered := WithoutPair(prev, search);
    var updated := [search] + filtered;
    var r := updated[..Min(MAX_RECENT, |updated|)];
    assert r[1..] == filtered[..|r| - 1];
    WithoutPairMembers(prev, search);
    r
  }

  /** Adding a search keeps the pairs distinct. */
  lemma AddedSearchKeepsPairsDistinct(prev: seq<RecentSearch>, search: RecentSearch)
    requires DistinctPairs(prev)
    ensures DistinctPairs(AddedSearch(prev, search))
  {
    var filtered := WithoutPair(prev, search);
    var r := AddedSearch(prev, search);
    WithoutPairKeepsDistinct(prev, search);
    forall i, j | 0 <= i < j < |r| ensures !SamePair(r[i], r[j]) {
      if i > 0 {
        assert r[i] == filtered[i - 1] && r[j] == filtered[j - 1];
      }
    }
  }

  /** Filtering keeps distinct pairs distinct. */
  lemma {:induction false} WithoutPairKeepsDistinct(prev: seq<RecentSearch>, search: RecentSearch)
    requires DistinctPairs(prev)
    ensures DistinctPairs(WithoutPair(prev, search))
    decreases |prev|
  {
    if |prev| > 0 {
      var n := |prev| - 1;
      var p := WithoutPair(prev[..n], search);
      assert DistinctPairs(prev[..n]);
      WithoutPairKeepsDistinct(prev[..n], search);
      WithoutPairMembers(prev[..n], search);
      forall i | 0 <= i < |p| ensures !SamePair(p[i], prev[n]) {
        assert p[i] in p;
        var k :| 0 <= k < |prev[..n]| && prev[..n][k] == p[i];
        assert prev[k] == p[i];
      }
    }
  }

  /** Submitting the same search twice in a row changes nothing the second time. */
  lemma AddSearchIdempotent(prev: seq<RecentSearch>, search: RecentSearch)
    ensures AddedSearch(AddedSearch(prev, search), search) == AddedSearch(prev, search)
  {
    var r := AddedSearch(prev, search);
    assert r == [search] + r[1..];
    WithoutPairAppend([search], r[1..], search);
    WithoutPairOfOthers(r[1..], search);
    assert WithoutPair([search], search) == [];
  }

  /** The hook's state: the list it keeps and persists. */
  class RecentSearchList {
    var recent: seq<RecentSearch>

    /** The mount effect: the stored list if there is one, otherwise nothing. */
    constructor(stored: Option<seq<RecentSearch>>)
      ensures recent == if stored.Some? then stored.value else []
    {
      recent := if stored.Some? then stored.value else [];
    }

    method AddSearch(search: RecentSearch)
      modifies this
      ensures recent == AddedSearch(old(recent), search)
      ensures |recent| <= MAX_RECENT && recent[0] == search
      ensures DistinctPairs(old(recent)) ==> DistinctPairs(recent)
    {
      var filtered := WithoutPair(recent, search);
      var updated := [search] + filtered;
      if DistinctPairs(recent) {
        AddedSearchKeepsPairsDistinct(recent, search);
      }
      recent := updated[..Min(MAX_RECENT, |updated|)];
    }
  }
}
