/**
 * The records kept in the movie and review tables, the command descriptions
 * the handlers hand to the document client, and, for reasoning about the
 * seed data, what the key conditions and filters the handlers write select.
 */
module Store {
  import opened Wrappers
  import opened Js

  /** A movie record (the integer and string attributes; scores and genre tags are not modelled). */
  datatype Movie = Movie(
    movieId: int,
    originalLanguage: string,
    overview: string,
    releaseDate: string,
    title: string,
    video: bool,
    voteCount: int)

  /** A review record, keyed by (movieId, reviewerName). */
  datatype Review = Review(movieId: int, reviewerName: string, reviewDate: string, content: string)

  /** An item as a scan or query returns it: a record of either table. */
  datatype Item = MovieItem(movie: Movie) | ReviewItem(review: Review)

  /** A table, named by the environment variable the handler reads its name from. */
  datatype Table = TableFromEnv(variable: string)

  const ReviewTable := TableFromEnv("REVIEW_TABLE_NAME")
  const MovieTable := TableFromEnv("TABLE_NAME")

  /** The command a handler sends; expression strings and bound values are kept as written. */
  datatype Command =
    | Query(table: Table, index: Option<string>, keyCondition: string, values: map<string, Value>)
    | Scan(table: Table, index: Option<string>, filter: Option<string>, values: map<string, Value>)
    | Update(table: Table, key: map<string, Value>, condition: string, update: string, values: map<string, Value>)
    | Delete(table: Table, key: map<string, Value>)

  // The expressions the handlers write, character for character (trailing blanks included).
  const MovieIs := "movieId = :m"
  const MovieAndReviewerPrefix := "movieId = :m and begins_with(reviewerName, :a) "
  const MovieAndDatePrefix := "movieId = :m and begins_with(reviewDate, :a)"
  const MovieAndContentPrefix := "movieId = :m and begins_with(content, :r) "
  const ContentPrefix := "begins_with(content, :r) "
  const SetContent := "SET content = :c"

  /** The store's `begins_with(attribute, operand)` on strings. */
  predicate BeginsWith(s: string, prefix: string) {
    |prefix| <= |s| && s[..|prefix|] == prefix
  }

  /** The review attributes a prefix condition can name. */
  datatype Attribute = ReviewerName | ReviewDate | Content

  function AttributeOf(r: Review, a: Attribute): string {
    match a
    case ReviewerName => r.reviewerName
    case ReviewDate => r.reviewDate
    case Content => r.content
  }

  /** A condition on reviews: an optional movie equality and an optional prefix test on one attribute. */
  datatype Condition = Condition(movie: Option<real>, prefix: Option<(Attribute, string)>)

  predicate Matches(c: Condition, r: Review) {
    && (c.movie.None? || r.movieId as real == c.movie.value)
    && (c.prefix.None? || BeginsWith(AttributeOf(r, c.prefix.value.0), c.prefix.value.1))
  }

  /** The reviews that satisfy a condition, in the order given. */
  function Filter(rs: seq<Review>, c: Condition): (out: seq<Review>)
    ensures |out| <= |rs|
    ensures forall r :: r in out <==> r in rs && Matches(c, r)
  {
    if rs == [] then []
    else (if Matches(c, rs[0]) then [rs[0]] else []) + Filter(rs[1..], c)
  }

  /** A condition that no review satisfies selects nothing. */
  lemma {:induction false} FilterNoneMatch(rs: seq<Review>, c: Condition)
    requires forall i :: 0 <= i < |rs| ==> !Matches(c, rs[i])
    ensures Filter(rs, c) == []
  {
    if rs != [] {
      FilterNoneMatch(rs[1..], c);
    }
  }

  /**
   * What an expression string with its bound values states about a review,
   * for the expressions the handlers write. `None` when the expression is
   * another one or a placeholder is bound to a value of the wrong kind (the
   * store does not apply a string prefix to a number or an object).
   */
  function Denote(expr: string, values: map<string, Value>): (c: Option<Condition>)
    ensures c.Some? ==> expr in {MovieIs, MovieAndReviewerPrefix, MovieAndDatePrefix, MovieAndContentPrefix, ContentPrefix}
    ensures c.Some? && expr != ContentPrefix ==> ":m" in values && values[":m"].Num? && c.value.movie == Some(values[":m"].n)
  {
    var m := if ":m" in values && values[":m"].Num? then Some(values[":m"].n) else None;
    var a := if ":a" in values && values[":a"].Str? then Some(values[":a"].s) else None;
    var r := if ":r" in values && values[":r"].Str? then Some(values[":r"].s) else None;
    if expr == MovieIs && m.Some? then Some(Condition(m, None))
    else if expr == MovieAndReviewerPrefix && m.Some? && a.Some? then Some(Condition(m, Some((ReviewerName, a.value))))
    else if expr == MovieAndDatePrefix && m.Some? && a.Some? then Some(Condition(m, Some((ReviewDate, a.value))))
    else if expr == MovieAndContentPrefix && m.Some? && r.Some? then Some(Condition(m, Some((Content, r.value))))
    else if expr == ContentPrefix && r.Some? then Some(Condition(None, Some((Content, r.value))))
    else None
  }

  /** The condition a query or scan of the review table states; `None` for a scan without a filter and for other commands. */
  function ConditionOf(cmd: Command): Option<Condition> {
    match cmd
    case Query(_, _, keyCondition, values) => Denote(keyCondition, values)
    case Scan(_, _, filter, values) => if filter.Some? then Denote(filter.value, values) else None
    case _ => None
  }

  /** A one-character prefix is a test of the first character only: the "rating" is a digit, not a number. */
  lemma {:induction false} DigitPrefixIsFirstCharacter(content: string, d: char)
    ensures BeginsWith(content, [d]) <==> |content| > 0 && content[0] == d
  {
    if |content| > 0 {
      assert content[..1] == [content[0]];
    }
  }
}
