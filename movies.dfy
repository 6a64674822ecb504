/**
 * The `Movie` record: construction with rating validation and tag normalisation,
 * and the preference predicate `MatchesPreferences`.
 */
module Movies {
  import opened Wrappers
  import opened Text

  /** The closed set of content-rating codes a movie may carry (case-sensitive). */
  const ValidRatings: set<string> :=
    {"G", "PG", "PG-13", "R", "NC-17", "NR", "TV-MA", "TV-14", "TV-Y", "TV-Y7"}

  /** A movie. `score` is the ranking weight in tenths (8.3 is 83); it is only ever compared. */
  datatype Movie = Movie(title: string, rating: string, duration: int, tags: set<string>, score: int)

  /** The one way construction fails: a rating outside `ValidRatings`. */
  datatype ValidationError = InvalidRating(rating: string)

  /** What every constructed movie satisfies: a recognised rating and lower-case tags only. */
  predicate Valid(m: Movie) {
    && m.rating in ValidRatings
    && forall t :: t in m.tags ==> IsLowerCase(t)
  }

  /** The `Movie` constructor: fails on an unrecognised rating; otherwise copies title, rating,
      duration and score and stores the lower-cased tags as a set. Title and duration are not checked. */
  function NewMovie(title: string, rating: string, duration: int, tags: seq<string>, score: int)
    : (r: Result<Movie, ValidationError>)
    ensures r.Failure? <==> rating !in ValidRatings
    ensures r.Failure? ==> r.error == InvalidRating(rating)
    ensures r.Success? ==>
      && r.value.title == title && r.value.rating == rating
      && r.value.duration == duration && r.value.score == score
    ensures r.Success? ==> forall u :: u in tags ==> Lower(u) in r.value.tags
    ensures r.Success? ==> forall t :: t in r.value.tags ==> exists u :: u in tags && t == Lower(u)
  {
    if rating !in ValidRatings then Failure(InvalidRating(rating))
    else Success(Movie(title, rating, duration, set u | u in tags :: Lower(u), score))
  }

  /** The constructor called without its optional `score` argument, which defaults to 0. */
  function NewMovieWithoutScore(title: string, rating: string, duration: int, tags: seq<string>)
    : (r: Result<Movie, ValidationError>)
    ensures r.Success? ==> r.value.score == 0
    ensures r.Failure? <==> rating !in ValidRatings
  {
    NewMovie(title, rating, duration, tags, 0)
  }

  /** Every movie the constructor produces is `Valid`. */
  lemma NewMovieIsValid(title: string, rating: string, duration: int, tags: seq<string>, score: int)
    requires NewMovie(title, rating, duration, tags, score).Success?
    ensures Valid(NewMovie(title, rating, duration, tags, score).value)
  {
    var m := NewMovie(title, rating, duration, tags, score).value;
    forall t | t in m.tags ensures IsLowerCase(t) {
      var u :| u in tags && t == Lower(u);
      LowerIsLowerCase(u);
    }
  }

  /** Tags that differ only in letter case are stored as one entry. */
  lemma TagsCollapseByCase(title: string, rating: string, duration: int, a: string, b: string, score: int)
    requires rating in ValidRatings
    requires Lower(a) == Lower(b)
    ensures NewMovie(title, rating, duration, [a, b], score).value.tags == {Lower(a)}
  {
    var tags := NewMovie(title, rating, duration, [a, b], score).value.tags;
    assert Lower(a) in tags;
    forall t | t in tags ensures t == Lower(a) {
      var u :| u in [a, b] && t == Lower(u);
    }
  }

  // The three hard constraints, each stated on its own.

  /** No cap, or the duration is at most the cap (a duration equal to the cap passes). */
  predicate WithinDuration(m: Movie, maxDuration: Option<int>) {
    match maxDuration
    case None => true
    case Some(cap) => m.duration <= cap
  }

  /** No allowed-rating set (null), an empty one, or the movie's rating is in it. */
  predicate RatingAllowed(m: Movie, allowedRatings: Option<set<string>>) {
    match allowedRatings
    case None => true
    case Some(allowed) => allowed == {} || m.rating in allowed
  }

  /** No mood (null or blank), or the lower-cased mood is one of the movie's tags. */
  predicate MoodMatches(m: Movie, mood: Option<string>) {
    IsNullOrWhiteSpace(mood) || Lower(mood.value) in m.tags
  }

  /** `Movie.MatchesPreferences`: the guards are tried in turn and the first failing one rejects
      the movie; a movie is accepted exactly when all three constraints hold. */
  function MatchesPreferences(m: Movie, maxDuration: Option<int>, allowedRatings: Option<set<string>>,
                              mood: Option<string>): (r: bool)
    ensures r <==> WithinDuration(m, maxDuration) && RatingAllowed(m, allowedRatings) && MoodMatches(m, mood)
  {
    if maxDuration.Some? && m.duration > maxDuration.value then false
    else if allowedRatings.Some? && |allowedRatings.value| > 0 && m.rating !in allowedRatings.value then false
    else if !IsNullOrWhiteSpace(mood) && Lower(mood.value) !in m.tags then false
    else true
  }

  /** With no cap, no (or an empty) rating set and no (or a blank) mood, every movie matches. */
  lemma NoCriteriaMatchesEverything(m: Movie, allowedRatings: Option<set<string>>, mood: Option<string>)
    requires allowedRatings == None || allowedRatings == Some({})
    requires IsNullOrWhiteSpace(mood)
    ensures MatchesPreferences(m, None, allowedRatings, mood)
  {
  }
}
