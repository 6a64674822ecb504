/**
 * The four-movie catalog the program's entry point builds, and what the recommender
 * returns for it under several preference settings.
 */
module Scenarios {
  import opened Wrappers
  import opened Text
  import opened Movies
  import opened Recommender

  const Avengers := Movie("The Avengers", "PG-13", 143, {"action", "adventure", "exciting"}, 80)
  const ToyStory := Movie("Toy Story", "G", 81, {"family", "funny", "happy"}, 83)
  const Inception := Movie("Inception", "PG-13", 148, {"mind-bending", "exciting", "suspenseful"}, 88)
  const Nemo := Movie("Finding Nemo", "G", 100, {"family", "happy", "emotional"}, 81)

  const Catalog := [Avengers, ToyStory, Inception, Nemo]

  /** The filter on a list with a first movie: that movie, when it matches, then the filtered rest. */
  lemma FilteredCons(x: Movie, s: seq<Movie>, allowedRatings: Option<set<string>>,
                     maxDuration: Option<int>, mood: Option<string>)
    ensures Filtered([x] + s, allowedRatings, maxDuration, mood) ==
            (if MatchesPreferences(x, maxDuration, allowedRatings, mood) then [x] else [])
            + Filtered(s, allowedRatings, maxDuration, mood)
  {
    assert ([x] + s)[1..] == s;
  }

  /** The filter on a list of four movies, one movie at a time. */
  lemma FilteredOfFour(a: Movie, b: Movie, c: Movie, d: Movie, allowedRatings: Option<set<string>>,
                       maxDuration: Option<int>, mood: Option<string>)
    ensures Filtered([a, b, c, d], allowedRatings, maxDuration, mood) ==
            (if MatchesPreferences(a, maxDuration, allowedRatings, mood) then [a] else [])
            + ((if MatchesPreferences(b, maxDuration, allowedRatings, mood) then [b] else [])
            + ((if MatchesPreferences(c, maxDuration, allowedRatings, mood) then [c] else [])
            + (if MatchesPreferences(d, maxDuration, allowedRatings, mood) then [d] else [])))
  {
    assert [d] == [d] + [];
    assert [c, d] == [c] + [d];
    assert [b, c, d] == [b] + [c, d];
    assert [a, b, c, d] == [a] + [b, c, d];
    FilteredCons(d, [], allowedRatings, maxDuration, mood);
    FilteredCons(c, [d], allowedRatings, maxDuration, mood);
    FilteredCons(b, [c, d], allowedRatings, maxDuration, mood);
    FilteredCons(a, [b, c, d], allowedRatings, maxDuration, mood);
  }

  /** Sorting a list by rank inserts its head into the sorted tail. */
  lemma SortByRankCons(x: Movie, s: seq<Movie>)
    ensures SortByRank([x] + s) == Insert(x, SortByRank(s))
  {
    assert ([x] + s)[1..] == s;
  }

  /** The tags of the catalog movies are lower case already. */
  lemma CatalogTagsAreLowerCase()
    ensures Lower("action") == "action" && Lower("adventure") == "adventure" && Lower("exciting") == "exciting"
    ensures Lower("family") == "family" && Lower("funny") == "funny" && Lower("happy") == "happy"
    ensures Lower("mind-bending") == "mind-bending" && Lower("suspenseful") == "suspenseful"
    ensures Lower("emotional") == "emotional"
  {
    var tags := ["action", "adventure", "exciting", "family", "funny", "happy", "mind-bending",
                 "suspenseful", "emotional"];
    forall i | 0 <= i < |tags| ensures Lower(tags[i]) == tags[i] {
      LowerIsLowerCase(tags[i]);
    }
    assert tags[0] == "action";
  }

  /** Sorting two movies already in descending score order leaves them as they are. */
  lemma SortOfTwo(a: Movie, b: Movie)
    requires a.score > b.score
    ensures SortByRank([a, b]) == [a, b]
  {
    SortByRankCons(b, []);
    assert [b] == [b] + [];
    SortByRankCons(a, [b]);
    assert [a, b] == [a] + [b];
  }

  /** Inserting in front of a movie: stop before it or step past it. */
  lemma InsertCons(x: Movie, y: Movie, s: seq<Movie>)
    ensures Insert(x, [y] + s) == if RanksAtLeast(x, y) then [x, y] + s else [y] + Insert(x, s)
  {
    assert ([y] + s)[0] == y && ([y] + s)[1..] == s;
  }

  /** A movie ranked below all three of a ranked list goes last. */
  lemma InsertLowest(x: Movie, a: Movie, b: Movie, c: Movie)
    requires x.score < c.score && x.score < b.score && x.score < a.score
    ensures Insert(x, [a, b, c]) == [a, b, c, x]
  {
    InsertCons(x, c, []);
    assert [c] == [c] + [];
    InsertCons(x, b, [c]);
    assert [b, c] == [b] + [c];
    InsertCons(x, a, [b, c]);
    assert [a, b, c] == [a] + [b, c];
  }

  /** Sorting four movies whose scores rank them third, second, first and fourth. */
  lemma SortOfFour(a: Movie, b: Movie, c: Movie, d: Movie)
    requires a.score < d.score < b.score < c.score
    ensures SortByRank([a, b, c, d]) == [c, b, d, a]
  {
    SortOfTwo(c, d);
    SortByRankCons(b, [c, d]);
    assert [b, c, d] == [b] + [c, d];
    InsertCons(b, c, [d]);
    InsertCons(b, d, []);
    assert Insert(b, [c, d]) == [c, b, d];
    SortByRankCons(a, [b, c, d]);
    assert [a, b, c, d] == [a] + [b, c, d];
    InsertLowest(a, c, b, d);
  }

  /** The whole catalog in rank order. */
  lemma SortedCatalog()
    ensures SortByRank(Catalog) == [Inception, ToyStory, Nemo, Avengers]
  {
    SortOfFour(Avengers, ToyStory, Inception, Nemo);
  }

  /** Three tags already in lower case are stored as they are. */
  lemma NewMovieWithLowerCaseTags(title: string, rating: string, duration: int, a: string, b: string,
                                  c: string, score: int)
    requires rating in ValidRatings
    requires Lower(a) == a && Lower(b) == b && Lower(c) == c
    ensures NewMovie(title, rating, duration, [a, b, c], score) == Success(Movie(title, rating, duration, {a, b, c}, score))
  {
    var stored := NewMovie(title, rating, duration, [a, b, c], score).value.tags;
    assert a in [a, b, c] && b in [a, b, c] && c in [a, b, c];
    assert stored == {a, b, c};
  }

  /** The catalog movies are what the constructor builds from the entry point's arguments. */
  lemma CatalogIsConstructed()
    ensures NewMovie("The Avengers", "PG-13", 143, ["action", "adventure", "exciting"], 80) == Success(Avengers)
    ensures NewMovie("Toy Story", "G", 81, ["family", "funny", "happy"], 83) == Success(ToyStory)
    ensures NewMovie("Inception", "PG-13", 148, ["mind-bending", "exciting", "suspenseful"], 88) == Success(Inception)
    ensures NewMovie("Finding Nemo", "G", 100, ["family", "happy", "emotional"], 81) == Success(Nemo)
  {
    CatalogTagsAreLowerCase();
    NewMovieWithLowerCaseTags("The Avengers", "PG-13", 143, "action", "adventure", "exciting", 80);
    NewMovieWithLowerCaseTags("Toy Story", "G", 81, "family", "funny", "happy", 83);
    NewMovieWithLowerCaseTags("Inception", "PG-13", 148, "mind-bending", "exciting", "suspenseful", 88);
    NewMovieWithLowerCaseTags("Finding Nemo", "G", 100, "family", "happy", "emotional", 81);
  }

  /** Tags given as "Funny", "FUNNY" and "funny" are stored as the single tag "funny". */
  lemma FunnyInAnyCase()
    ensures NewMovie("Toy Story", "G", 81, ["Funny", "FUNNY", "funny"], 83).value.tags == {"funny"}
  {
    var tags := ["Funny", "FUNNY", "funny"];
    forall i | 0 <= i < |tags| ensures Lower(tags[i]) == "funny" {
    }
    var stored := NewMovie("Toy Story", "G", 81, tags, 83).value.tags;
    assert tags[2] in tags;
    assert "funny" in stored;
  }

  /** An unrecognised rating code, such as a lower-case "pg", is rejected. */
  lemma LowerCaseRatingIsRejected()
    ensures NewMovie("Toy Story", "pg", 81, ["family"], 83) == Failure(InvalidRating("pg"))
  {
    assert "pg"[0] != "PG"[0];
  }

  /** No filters and a cap of one gives the highest score. */
  lemma TopOneIsInception()
    ensures GetRecommendations(Catalog, None, None, None, 1) == [Inception]
  {
    FilteredOfFour(Avengers, ToyStory, Inception, Nemo, None, None, None);
    assert Filtered(Catalog, None, None, None) == Catalog;
    SortedCatalog();
  }

  /** Ratings {G, PG, PG-13} and at most 150 minutes keep all four, by descending score. */
  lemma FamilyFriendlyUnderTwoAndAHalfHours()
    ensures GetRecommendations(Catalog, Some({"G", "PG", "PG-13"}), Some(150), None, DefaultMaxResults)
            == [Inception, ToyStory, Nemo, Avengers]
  {
    FilteredOfFour(Avengers, ToyStory, Inception, Nemo, Some({"G", "PG", "PG-13"}), Some(150), None);
    assert Filtered(Catalog, Some({"G", "PG", "PG-13"}), Some(150), None) == Catalog;
    SortedCatalog();
  }

  /** The mood "family" keeps the two family movies, Toy Story first. */
  lemma FamilyMood()
    ensures GetRecommendations(Catalog, None, None, Some("family"), DefaultMaxResults) == [ToyStory, Nemo]
  {
    CatalogTagsAreLowerCase();
    FilteredOfFour(Avengers, ToyStory, Inception, Nemo, None, None, Some("family"));
    assert !IsWhiteSpace("family"[0]);
    assert Filtered(Catalog, None, None, Some("family")) == [ToyStory, Nemo];
    SortByRankCons(ToyStory, [Nemo]);
    SortByRankCons(Nemo, []);
    assert [Nemo] == [Nemo] + [] && [ToyStory, Nemo] == [ToyStory] + [Nemo];
  }

  /** The mood is matched case-insensitively: "FAMILY" selects what "family" does. */
  lemma ShoutedFamilyMood()
    ensures GetRecommendations(Catalog, None, None, Some("FAMILY"), DefaultMaxResults) == [ToyStory, Nemo]
  {
    assert Lower("FAMILY") == "family";
    assert !IsWhiteSpace("FAMILY"[0]);
    forall m ensures MatchesPreferences(m, None, None, Some("FAMILY")) == MatchesPreferences(m, None, None, Some("family")) {
      assert !IsWhiteSpace("family"[0]);
      CatalogTagsAreLowerCase();
    }
    FamilyMood();
    FilteredOfFour(Avengers, ToyStory, Inception, Nemo, None, None, Some("FAMILY"));
    FilteredOfFour(Avengers, ToyStory, Inception, Nemo, None, None, Some("family"));
  }

  /** A cap of 90 minutes keeps only Toy Story. */
  lemma UnderNinetyMinutes()
    ensures GetRecommendations(Catalog, None, Some(90), None, DefaultMaxResults) == [ToyStory]
  {
    FilteredOfFour(Avengers, ToyStory, Inception, Nemo, None, Some(90), None);
    assert Filtered(Catalog, None, Some(90), None) == [ToyStory];
    SortByRankCons(ToyStory, []);
    assert [ToyStory] == [ToyStory] + [];
  }

  /** A rating set holding only the empty code (what a blank ratings line splits into) is non-empty,
      so it restricts, and no movie carries that code. */
  lemma EmptyRatingCodeAdmitsNothing()
    ensures GetRecommendations(Catalog, Some({""}), None, None, DefaultMaxResults) == []
  {
    FilteredOfFour(Avengers, ToyStory, Inception, Nemo, Some({""}), None, None);
  }

  /** No movie is rated R. */
  lemma OnlyRatedR()
    ensures GetRecommendations(Catalog, Some({"R"}), None, None, DefaultMaxResults) == []
  {
    FilteredOfFour(Avengers, ToyStory, Inception, Nemo, Some({"R"}), None, None);
  }
}
