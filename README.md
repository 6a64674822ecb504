# Movie Night Recommender, modelled in Dafny

The program keeps a small catalog of movies and recommends some of them. Each movie has a
title, a content rating, a duration in minutes, a set of tags and a score. A movie is built
through a constructor. The constructor rejects a rating that is not one of ten recognised codes
and stores the tags in lower case. `MovieRecommender.GetRecommendations` then works in three steps:

1. It keeps the movies that meet three hard constraints: a duration cap, a set of allowed ratings
   and a mood tag. Any of the three may be absent.
2. It sorts the kept movies by score, highest first, and breaks ties by duration, shortest first.
   The sort is stable.
3. It returns the first `maxResults` movies.

The model is made of values and functions, like the source. Movies are immutable records, and the
recommender only reads the catalog it is given. Calling it twice with the same arguments therefore
gives the same list, and the catalog is never changed.

Modules:

- `Wrappers` holds `Option` and `Result`. `None` stands for a C# `null` or an empty `int?`.
- `Text` models `ToLower` (on ASCII letters) and `string.IsNullOrWhiteSpace`.
- `Linq` models `Where` and `Take`. It also defines the subsequence relation used to state that
  order is kept.
- `Movies` models the `Movie` record, its constructor `NewMovie` and `MatchesPreferences`.
- `Recommender` holds the two-key ranking order and a stable insertion sort. The insertion sort is
  proved to be the only ranked, stable rearrangement, so it is exactly what
  `OrderByDescending(...).ThenBy(...)` returns. The module also holds `GetRecommendations` and
  its properties.
- `Scenarios` holds the four-movie catalog built in `Program.Main`. Its lemmas state what the
  recommender returns for that catalog under several preference settings.

The constructor checks neither that the title is non-empty nor that the duration is non-negative,
so `NewMovie` accepts any title and any duration. `GetRecommendations` accepts any `maxResults`,
and `Take` with a count of zero or less returns nothing.

## Model

| member | source | states |
|---|---|---|
| `Text.LowerIsLowerCase` | Program.cs:28 | the lower-cased form of a string has no upper-case letter; lower-casing twice is the same as once; a string is unchanged by lower-casing exactly when it is already lower case |
| `Movies.NewMovie` | Program.cs:20-30 | construction fails exactly when the rating is not one of the ten codes, and the error carries that rating; on success title, rating, duration and score are the arguments unchanged; every argument tag's lower-case form is stored and every stored tag is the lower-case form of some argument tag |
| `Movies.NewMovieWithoutScore` | Program.cs:20 | without a score argument the score is 0, and the rating check is unchanged |
| `Movies.NewMovieIsValid` | Program.cs:15-30 | every constructed movie has a recognised rating and only lower-case tags |
| `Movies.TagsCollapseByCase` | Program.cs:28 | two tags that differ only in letter case are stored as a single entry |
| `Movies.MatchesPreferences` | Program.cs:32-44 | a movie matches exactly when (no cap, or duration <= cap, so a duration equal to the cap passes) and (null or empty rating set, or the rating is in it) and (null or blank mood, or the lower-cased mood is a tag) |
| `Movies.NoCriteriaMatchesEverything` | Program.cs:34-43 | with no cap, a null or empty rating set and a null or blank mood, every movie matches |
| `Linq.Where` | Program.cs:57-59 | the filter's result has no more items than its input, and an item is in it exactly when it is in the input and satisfies the predicate |
| `Linq.WhereAppend` | Program.cs:57-59 | filtering a concatenation is the concatenation of the filtered parts, so the filter keeps catalog order |
| `Linq.WhereCount` | Program.cs:57-59 | each matching item occurs in the filter's result as often as in the input; each other item does not occur |
| `Linq.WhereIsSubsequence` | Program.cs:57-59 | the filter's result is a subsequence of its input |
| `Linq.Take` | Program.cs:64 | `Take(n)` returns the first min(max(n, 0), length) items |
| `Recommender.RanksAtLeastIsTotalPreorder` | Program.cs:62-63 | the order "higher score, or equal score and duration no longer" is reflexive, total and transitive, and two movies tie in it exactly when score and duration are both equal |
| `Recommender.InsertIsPermutation` | Program.cs:62-63 | inserting a movie adds that movie and nothing else |
| `Recommender.SortByRankIsPermutation` | Program.cs:62-63 | the sort is a permutation of its input |
| `Recommender.InsertKeepsRanked` | Program.cs:62-63 | inserting into a ranked list keeps it ranked |
| `Recommender.InsertWithKey` | Program.cs:62-63 | insertion never moves a movie past another movie with the same score and duration |
| `Recommender.SortByRankIsStableSort` | Program.cs:62-63 | the sorted list is ranked by score descending and then duration ascending, and for every (score, duration) key it lists that key's movies in their input order |
| `Recommender.RankedStableUnique` | Program.cs:62-63 | two ranked lists that have the same movies, in the same order, for every key are equal |
| `Recommender.SortByRankIsUnique` | Program.cs:62-63 | any ranked, stable rearrangement of a list equals the insertion sort of that list, so the model's sort is the result of LINQ's stable two-key sort |
| `Recommender.GetRecommendations` | Program.cs:49-66 | every recommended movie is in the catalog and satisfies `MatchesPreferences` |
| `Recommender.FilteredIsOrderedSelection` | Program.cs:57-59 | the first pass is a subsequence of the catalog that holds each matching movie as often as the catalog does and no other movie |
| `Recommender.RecommendationsArePrefix` | Program.cs:62-65 | the result is a prefix of the sorted matches, and so a subsequence of them; its length is min(number of matches, max(maxResults, 0)), so `maxResults <= 0` gives an empty result |
| `Recommender.RecommendationsAreRanked` | Program.cs:62-63 | for any two results, and so for any two consecutive ones, the first has a higher score, or an equal score and a duration no longer |
| `Recommender.RecommendationsAreStable` | Program.cs:57-63 | for every (score, duration) key, the results with that key are the first movies of that key among the matches, in catalog order |
| `Recommender.RecommendationsAreTheBest` | Program.cs:62-64 | a matching catalog movie missing from the result ranks no higher than any movie in the result |
| `Scenarios.CatalogIsConstructed` | Program.cs:76-79 | the four catalog movies are what the constructor builds from the entry point's arguments |
| `Scenarios.FunnyInAnyCase` | Program.cs:28 | the tags "Funny", "FUNNY" and "funny" are stored as the one tag "funny" |
| `Scenarios.LowerCaseRatingIsRejected` | Program.cs:22-23 | the rating "pg" is not a recognised code, so construction fails with that rating |
| `Scenarios.TopOneIsInception` | Program.cs:62-64 | with no filters and `maxResults` 1 the result is Inception alone |
| `Scenarios.FamilyFriendlyUnderTwoAndAHalfHours` | Program.cs:49-66 | with ratings {G, PG, PG-13} and a 150-minute cap all four movies are returned, by descending score: Inception, Toy Story, Finding Nemo, The Avengers |
| `Scenarios.FamilyMood` | Program.cs:40-41 | the mood "family" gives Toy Story, then Finding Nemo |
| `Scenarios.ShoutedFamilyMood` | Program.cs:40 | the mood is matched without regard to case: "FAMILY" gives the same result as "family" |
| `Scenarios.UnderNinetyMinutes` | Program.cs:34-35 | a 90-minute cap gives Toy Story alone |
| `Scenarios.EmptyRatingCodeAdmitsNothing` | Program.cs:37-38 | a rating set holding only the empty code is not empty, so it restricts, and no movie passes it |
| `Scenarios.OnlyRatedR` | Program.cs:37-38 | the rating set {R} gives an empty result |

## Left out

- `Program.Main` (Program.cs:72-116) is console input and output and is not part of this model. It reads the
  ratings, the duration and the mood from the console and prints the result. Its parsing turns a blank ratings
  line into the set {""}. That set is not empty, so it admits no movie; `Scenarios.EmptyRatingCodeAdmitsNothing`
  shows the core's side of this.
- Score is a `double` in the source. The model keeps it as an integer number of tenths (8.3 is 83), since the
  source only compares scores. NaN and other IEEE behaviour are not modelled.
- Duration and `maxResults` are 32-bit `int`s in the source. They are unbounded integers here. The source never
  does arithmetic on them, only comparisons, so no wrap-around can occur.
- `ToLower()` is culture-sensitive in .NET. The model lower-cases the ASCII letters A to Z only.
  `IsNullOrWhiteSpace` uses the full set of characters .NET's `char.IsWhiteSpace` accepts.
- The exception type `ArgumentException` and its message text are not modelled. A failure is
  `Failure(InvalidRating(rating))`, which carries the rejected rating as the message does.
- Null arguments are not modelled, except the null rating set and the null mood, which are `None`. Strings and
  sequences in the model are never null. In the source, a null catalog makes `Where` throw
  `ArgumentNullException` (Program.cs:57). A null tag sequence makes `Select` throw `ArgumentNullException`
  (Program.cs:28), once the rating check has passed. A null tag inside the sequence makes `t.ToLower()` throw
  `NullReferenceException` (Program.cs:28), also after the rating check. A null rating fails the rating check
  and so throws `ArgumentException`. A null title is stored as it is.
- `Tags` is a mutable `HashSet` in the source, so a caller could change a movie's tags after construction.
  The model treats a movie as an immutable value with a `set` of tags. Hashing and enumeration order of the set
  are not modelled.
- The sorting algorithm LINQ uses inside `OrderByDescending`/`ThenBy` is not modelled. The model uses an
  insertion sort instead. `Recommender.SortByRankIsUnique` shows that any stable sort by the two keys gives the
  same list.
