/**
 * `MovieRecommender.GetRecommendations`: filter the catalog by the preferences, sort the survivors
 * by score descending and then duration ascending (a stable sort), and keep the first `maxResults`.
 */
module Recommender {
  import opened Wrappers
  import opened Linq
  import opened Movies

  /** The value of `maxResults` when the caller does not pass one. */
  const DefaultMaxResults := 5

  // ---------------------------------------------------------------------------------------------
  // The ranking order of `OrderByDescending(m => m.Score).ThenBy(m => m.DurationMinutes)`

  /** The composite sort key of a movie. */
  function Key(m: Movie): (r: (int, int)) {
    (m.score, m.duration)
  }

  /** `a` may come before `b`: a higher score, or an equal score and a duration no longer. */
  predicate RanksAtLeast(a: Movie, b: Movie) {
    a.score > b.score || (a.score == b.score && a.duration <= b.duration)
  }

  /** Every item may come before every later one. */
  predicate Ranked(s: seq<Movie>) {
    forall i, j :: 0 <= i < j < |s| ==> RanksAtLeast(s[i], s[j])
  }

  /** The movies of `s` whose sort key is `k`, in their order in `s`. */
  function WithKey(s: seq<Movie>, k: (int, int)): (r: seq<Movie>)
    ensures forall m :: m in r <==> m in s && Key(m) == k
  {
    if s == [] then [] else (if Key(s[0]) == k then [s[0]] else []) + WithKey(s[1..], k)
  }

  /** Selecting by key distributes over concatenation. */
  lemma {:induction false} WithKeyAppend(a: seq<Movie>, b: seq<Movie>, k: (int, int))
    ensures WithKey(a + b, k) == WithKey(a, k) + WithKey(b, k)
  {
    if a == [] {
      assert a + b == b;
    } else {
      assert (a + b)[1..] == a[1..] + b;
      WithKeyAppend(a[1..], b, k);
    }
  }

  /** `t` lists, for every sort key, the movies of `s` with that key in the same order as `s`:
      `t` is a permutation of `s` that keeps the relative order of ties (a stable rearrangement). */
  ghost predicate StableOf(t: seq<Movie>, s: seq<Movie>) {
    forall k :: WithKey(t, k) == WithKey(s, k)
  }

  /** `RanksAtLeast` is a total preorder whose ties are exactly the movies with equal keys. */
  lemma RanksAtLeastIsTotalPreorder(a: Movie, b: Movie, c: Movie)
    ensures RanksAtLeast(a, a)
    ensures RanksAtLeast(a, b) || RanksAtLeast(b, a)
    ensures RanksAtLeast(a, b) && RanksAtLeast(b, c) ==> RanksAtLeast(a, c)
    ensures RanksAtLeast(a, b) && RanksAtLeast(b, a) <==> Key(a) == Key(b)
  {
  }

  // ---------------------------------------------------------------------------------------------
  // A stable sort: insertion sort

  /** Inserts `x` in front of the first item it ranks at least as high as. */
  function Insert(x: Movie, s: seq<Movie>): (r: seq<Movie>)
  {
    if s == [] then [x]
    else if RanksAtLeast(x, s[0]) then [x] + s
    else [s[0]] + Insert(x, s[1..])
  }

  /** Sorts by rank, inserting each head into the sorted rest. */
  function SortByRank(s: seq<Movie>): (r: seq<Movie>)
  {
    if s == [] then [] else Insert(s[0], SortByRank(s[1..]))
  }

  /** Inserting adds `x` and nothing else. */
  lemma {:induction false} InsertIsPermutation(x: Movie, s: seq<Movie>)
    ensures multiset(Insert(x, s)) == multiset(s) + multiset{x}
  {
    if s != [] && !RanksAtLeast(x, s[0]) {
      InsertIsPermutation(x, s[1..]);
      assert s == [s[0]] + s[1..];
    }
  }

  /** Sorting rearranges the movies without adding or losing any. */
  lemma {:induction false} SortByRankIsPermutation(s: seq<Movie>)
    ensures multiset(SortByRank(s)) == multiset(s)
  {
    if s != [] {
      SortByRankIsPermutation(s[1..]);
      InsertIsPermutation(s[0], SortByRank(s[1..]));
      assert s == [s[0]] + s[1..];
    }
  }

  /** Inserting into a ranked sequence gives a ranked sequence. */
  lemma {:induction false} InsertKeepsRanked(x: Movie, s: seq<Movie>)
    requires Ranked(s)
    ensures Ranked(Insert(x, s))
  {
    if s != [] {
      if RanksAtLeast(x, s[0]) {
        forall j | 0 < j < |s| ensures RanksAtLeast(x, s[j]) {
          RanksAtLeastIsTotalPreorder(x, s[0], s[j]);
        }
      } else {
        var rest := Insert(x, s[1..]);
        InsertKeepsRanked(x, s[1..]);
        InsertIsPermutation(x, s[1..]);
        forall j | 0 <= j < |rest| ensures RanksAtLeast(s[0], rest[j]) {
          assert rest[j] in multiset(rest);
          assert rest[j] == x || rest[j] in s[1..];
        }
      }
    }
  }

  /** Inserting `x` does not reorder it past any movie with its own key. */
  lemma {:induction false} InsertWithKey(x: Movie, s: seq<Movie>, k: (int, int))
    ensures WithKey(Insert(x, s), k) == WithKey([x] + s, k)
  {
    if s != [] && !RanksAtLeast(x, s[0]) {
      InsertWithKey(x, s[1..], k);
      assert ([x] + s)[1..] == s;
      assert ([x] + s[1..])[1..] == s[1..];
      assert Key(x) != Key(s[0]);
    }
  }

  /** `SortByRank` sorts by the two keys and is stable. */
  lemma {:induction false} SortByRankIsStableSort(s: seq<Movie>)
    ensures Ranked(SortByRank(s))
    ensures StableOf(SortByRank(s), s)
  {
    if s != [] {
      SortByRankIsStableSort(s[1..]);
      InsertKeepsRanked(s[0], SortByRank(s[1..]));
      forall k ensures WithKey(SortByRank(s), k) == WithKey(s, k) {
        InsertWithKey(s[0], SortByRank(s[1..]), k);
        assert ([s[0]] + SortByRank(s[1..]))[1..] == SortByRank(s[1..]);
      }
    }
  }

  /** Two ranked sequences with the same movies per key, in the same order, are equal. */
  lemma {:induction false} RankedStableUnique(t: seq<Movie>, u: seq<Movie>)
    requires Ranked(t) && Ranked(u)
    requires forall k :: WithKey(t, k) == WithKey(u, k)
    ensures t == u
  {
    if t == [] || u == [] {
      // A movie in either one has a key the other must list too.
      var k := if t != [] then Key(t[0]) else if u != [] then Key(u[0]) else (0, 0);
      assert |WithKey(t, k)| == |WithKey(u, k)|;
    } else {
      var k0, k1 := Key(t[0]), Key(u[0]);
      // The first key of each is one the other has too, so no later key can rank above it.
      assert u[0] in WithKey(u, k1);
      assert u[0] in WithKey(t, k1);
      var j :| 0 <= j < |t| && t[j] == u[0];
      assert RanksAtLeast(t[0], u[0]);
      assert t[0] in WithKey(t, k0);
      assert t[0] in WithKey(u, k0);
      var i :| 0 <= i < |u| && u[i] == t[0];
      assert RanksAtLeast(u[0], t[0]);
      assert k0 == k1;
      // Both start with the first movie of that key.
      assert t[0] == WithKey(t, k0)[0] == WithKey(u, k0)[0] == u[0];
      forall k ensures WithKey(t[1..], k) == WithKey(u[1..], k) {
        var head := if Key(t[0]) == k then [t[0]] else [];
        assert WithKey(t, k) == head + WithKey(t[1..], k);
        assert WithKey(u, k) == head + WithKey(u[1..], k);
        assert WithKey(t[1..], k) == (head + WithKey(t[1..], k))[|head|..];
        assert WithKey(u[1..], k) == (head + WithKey(u[1..], k))[|head|..];
      }
      RankedStableUnique(t[1..], u[1..]);
    }
  }

  /** The stable two-key sort is determined by its specification: any ranked, stable rearrangement
      of `s` is `SortByRank(s)`, so `SortByRank` is what LINQ's stable sort returns. */
  lemma SortByRankIsUnique(s: seq<Movie>, t: seq<Movie>)
    requires Ranked(t) && StableOf(t, s)
    ensures t == SortByRank(s)
  {
    SortByRankIsStableSort(s);
    RankedStableUnique(t, SortByRank(s));
  }

  // ---------------------------------------------------------------------------------------------
  // The pipeline

  /** The first pass: the catalog movies that meet the preferences, in catalog order. */
  function Filtered(catalog: seq<Movie>, allowedRatings: Option<set<string>>, maxDuration: Option<int>,
                    mood: Option<string>): (r: seq<Movie>)
  {
    Where(catalog, m => MatchesPreferences(m, maxDuration, allowedRatings, mood))
  }

  /** `GetRecommendations`: filter, stable sort by score descending then duration ascending, take. */
  function GetRecommendations(catalog: seq<Movie>, allowedRatings: Option<set<string>>,
                              maxDuration: Option<int>, mood: Option<string>, maxResults: int)
    : (r: seq<Movie>)
    ensures forall m :: m in r ==> m in catalog && MatchesPreferences(m, maxDuration, allowedRatings, mood)
  {
    var sorted := SortByRank(Filtered(catalog, allowedRatings, maxDuration, mood));
    var r := Take(sorted, maxResults);
    SortByRankIsPermutation(Filtered(catalog, allowedRatings, maxDuration, mood));
    assert forall m :: m in r ==> m in multiset(sorted);
    r
  }

  /** The filter keeps exactly the matching catalog movies, as often as they occur, in catalog order. */
  lemma FilteredIsOrderedSelection(catalog: seq<Movie>, allowedRatings: Option<set<string>>,
                                   maxDuration: Option<int>, mood: Option<string>, m: Movie)
    ensures SubsequenceOf(Filtered(catalog, allowedRatings, maxDuration, mood), catalog)
    ensures multiset(Filtered(catalog, allowedRatings, maxDuration, mood))[m] ==
            if MatchesPreferences(m, maxDuration, allowedRatings, mood) then multiset(catalog)[m] else 0
  {
    WhereIsSubsequence(catalog, m => MatchesPreferences(m, maxDuration, allowedRatings, mood));
    WhereCount(catalog, m => MatchesPreferences(m, maxDuration, allowedRatings, mood), m);
  }

  /** The result is the prefix of the sorted matches whose length is `min(|matches|, max(maxResults, 0))`;
      in particular `maxResults <= 0` gives no movie. */
  lemma RecommendationsArePrefix(catalog: seq<Movie>, allowedRatings: Option<set<string>>,
                                 maxDuration: Option<int>, mood: Option<string>, maxResults: int)
    ensures var f := Filtered(catalog, allowedRatings, maxDuration, mood);
            var r := GetRecommendations(catalog, allowedRatings, maxDuration, mood, maxResults);
            && |r| == (if maxResults <= 0 then 0 else if maxResults < |f| then maxResults else |f|)
            && r == SortByRank(f)[..|r|]
            && SubsequenceOf(r, SortByRank(f))
  {
    var f := Filtered(catalog, allowedRatings, maxDuration, mood);
    var r := GetRecommendations(catalog, allowedRatings, maxDuration, mood, maxResults);
    assert |SortByRank(f)| == |f| by {
      SortByRankIsPermutation(f);
      assert |multiset(SortByRank(f))| == |multiset(f)|;
    }
    PrefixIsSubsequence(SortByRank(f), |r|);
  }

  /** The result is ordered by score descending, then duration ascending, pairwise and so
      between consecutive movies. */
  lemma RecommendationsAreRanked(catalog: seq<Movie>, allowedRatings: Option<set<string>>,
                                 maxDuration: Option<int>, mood: Option<string>, maxResults: int)
    ensures var r := GetRecommendations(catalog, allowedRatings, maxDuration, mood, maxResults);
            && Ranked(r)
            && forall i :: 0 <= i < |r| - 1 ==>
                 r[i].score > r[i + 1].score || (r[i].score == r[i + 1].score && r[i].duration <= r[i + 1].duration)
  {
    var f := Filtered(catalog, allowedRatings, maxDuration, mood);
    SortByRankIsStableSort(f);
    RecommendationsArePrefix(catalog, allowedRatings, maxDuration, mood, maxResults);
  }

  /** Movies with equal score and duration keep their catalog order: for every key, the result's
      movies with that key are the first ones of the catalog's matching movies with that key. */
  lemma RecommendationsAreStable(catalog: seq<Movie>, allowedRatings: Option<set<string>>,
                                 maxDuration: Option<int>, mood: Option<string>, maxResults: int,
                                 k: (int, int))
    ensures var w := WithKey(GetRecommendations(catalog, allowedRatings, maxDuration, mood, maxResults), k);
            var all := WithKey(Filtered(catalog, allowedRatings, maxDuration, mood), k);
            |w| <= |all| && w == all[..|w|]
  {
    var f := Filtered(catalog, allowedRatings, maxDuration, mood);
    var sorted := SortByRank(f);
    var r := GetRecommendations(catalog, allowedRatings, maxDuration, mood, maxResults);
    SortByRankIsStableSort(f);
    RecommendationsArePrefix(catalog, allowedRatings, maxDuration, mood, maxResults);
    assert sorted == r + sorted[|r|..];
    WithKeyAppend(r, sorted[|r|..], k);
    assert WithKey(sorted, k) == WithKey(f, k);
  }

  /** No matching catalog movie left out of the result ranks above a movie in it. */
  lemma RecommendationsAreTheBest(catalog: seq<Movie>, allowedRatings: Option<set<string>>,
                                  maxDuration: Option<int>, mood: Option<string>, maxResults: int, m: Movie)
    requires m in catalog && MatchesPreferences(m, maxDuration, allowedRatings, mood)
    requires m !in GetRecommendations(catalog, allowedRatings, maxDuration, mood, maxResults)
    ensures forall x :: x in GetRecommendations(catalog, allowedRatings, maxDuration, mood, maxResults) ==>
              RanksAtLeast(x, m)
  {
    var f := Filtered(catalog, allowedRatings, maxDuration, mood);
    var sorted := SortByRank(f);
    var r := GetRecommendations(catalog, allowedRatings, maxDuration, mood, maxResults);
    SortByRankIsStableSort(f);
    RecommendationsArePrefix(catalog, allowedRatings, maxDuration, mood, maxResults);
    SortByRankIsPermutation(f);
    assert m in multiset(sorted);
    var j :| 0 <= j < |sorted| && sorted[j] == m;
    assert j >= |r|;
    forall x | x in r ensures RanksAtLeast(x, m) {
      var i :| 0 <= i < |r| && r[i] == x;
      assert sorted[i] == x;
    }
  }
}
