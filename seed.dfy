/** The records loaded into the two tables at deployment, and what they guarantee. */
module Seed {
  import opened Wrappers
  import opened Store

  const Overview := "Every six years, an ancient order of jiu-jitsu fighters joins forces to battle a vicious race of alien invaders. But when a celebrated war hero goes down in defeat, the fate of the planet and mankind hangs in the balance."

  const movies: seq<Movie> := [
    Movie(1234, "en", Overview, "2020-11-20", "Title 1234", false, 111),
    Movie(4567, "fr", Overview, "2020-11-20", "Title 1234", false, 111),
    Movie(2345, "en", Overview, "2020-11-21", "Title 2345", false, 111),
    Movie(3456, "en", Overview, "2020-11-21", "Title 3456", false, 111)
  ]

  const movieReviews: seq<Review> := [
    Review(1234, "Joe Bloggs", "2023-10-20", "5 stars - amazing"),
    Review(1234, "Alice Broggs", "2023-05-03", "4 stars - couldn't stop watching"),
    Review(1234, "Joe Cloggs", "2023-11-16", "3 stars - would watch again"),
    Review(2345, "Joe Bloggs", "2023-10-23", "2 stars - meh"),
    Review(2345, "John Doe", "2023-10-30", "1 star - waste of time and money")
  ]

  /** A "2023-MM-DD" date string. */
  predicate IsDateIn2023(d: string) {
    && |d| == 10 && d[..5] == "2023-" && d[7] == '-'
    && '0' <= d[5] <= '9' && '0' <= d[6] <= '9' && '0' <= d[8] <= '9' && '0' <= d[9] <= '9'
  }

  /** No two movies share an id: `movieId` can be the movie table's key. */
  lemma MovieIdsDistinct()
    ensures forall i, j :: 0 <= i < j < |movies| ==> movies[i].movieId != movies[j].movieId
  {
  }

  /** No two reviews share a (movieId, reviewerName) pair: the review table's composite key. */
  lemma ReviewKeysDistinct()
    ensures forall i, j :: 0 <= i < j < |movieReviews| ==>
      (movieReviews[i].movieId, movieReviews[i].reviewerName) != (movieReviews[j].movieId, movieReviews[j].reviewerName)
  {
    assert movieReviews[0].reviewerName != movieReviews[2].reviewerName;
    assert movieReviews[3].reviewerName != movieReviews[4].reviewerName;
  }

  /** Every review belongs to a seeded movie. */
  lemma ReviewsReferToMovies()
    ensures forall r :: r in movieReviews ==> exists m :: m in movies && m.movieId == r.movieId
  {
    assert movies[0].movieId == 1234 && movies[2].movieId == 2345;
  }

  /** Every review's content starts with a rating digit from 1 to 5. */
  lemma ReviewRatings()
    ensures forall r :: r in movieReviews ==> |r.content| > 0 && '1' <= r.content[0] <= '5'
  {
  }

  /** Every review date is a 2023 date. */
  lemma ReviewDates()
    ensures forall r :: r in movieReviews ==> IsDateIn2023(r.reviewDate)
  {
    forall i | 0 <= i < |movieReviews| ensures IsDateIn2023(movieReviews[i].reviewDate) {
      var d := movieReviews[i].reviewDate;
      assert d[..5] == "2023-";
    }
  }

  /** (1234, "Joe Bloggs") is the key of the first seeded review and of no other. */
  lemma KeyOfFirstReview()
    ensures forall i :: 0 <= i < |movieReviews| ==>
      (movieReviews[i].movieId == 1234 && movieReviews[i].reviewerName == "Joe Bloggs" <==> i == 0)
  {
    forall i | 0 <= i < |movieReviews|
      ensures movieReviews[i].movieId == 1234 && movieReviews[i].reviewerName == "Joe Bloggs" <==> i == 0
    {
      if i == 1 {
        assert movieReviews[1].reviewerName[0] == 'A';
      } else if i == 2 {
        assert movieReviews[2].reviewerName[4] == 'C';
      }
    }
  }

  /** A movie with no seeded record has no seeded reviews. */
  lemma ReviewsOfUnseededMovie(id: int)
    requires forall m :: m in movies ==> m.movieId != id
    ensures Filter(movieReviews, Condition(Some(id as real), None)) == []
  {
    var c := Condition(Some(id as real), None);
    forall i | 0 <= i < |movieReviews| ensures !Matches(c, movieReviews[i]) {
      assert movies[0] in movies && movies[2] in movies;
      assert movieReviews[i].movieId in {movies[0].movieId, movies[2].movieId};
    }
    FilterNoneMatch(movieReviews, c);
  }

  /** Movie 1234 alone: its three reviews, in seed order. */
  lemma ReviewsOfMovie1234()
    ensures Filter(movieReviews, Condition(Some(1234 as real), None)) == movieReviews[..3]
  {
    var c := Condition(Some(1234 as real), None);
    var rs := movieReviews;
    SeedSuffixes();
    assert Filter(rs[4..], c) == [];
    assert Filter(rs[3..], c) == [];
    assert Filter(rs[2..], c) == [rs[2]];
    assert Filter(rs[1..], c) == [rs[1], rs[2]];
    assert rs[..3] == [rs[0], rs[1], rs[2]];
  }

  /** Movie 1234, reviewer names beginning with "Joe": Joe Bloggs and Joe Cloggs, in seed order. */
  lemma JoePrefixOfMovie1234()
    ensures Filter(movieReviews, Condition(Some(1234 as real), Some((ReviewerName, "Joe")))) == [movieReviews[0], movieReviews[2]]
  {
    var c := Condition(Some(1234 as real), Some((ReviewerName, "Joe")));
    var rs := movieReviews;
    NameMatch(0); NameMatch(1); NameMatch(2); NameMatch(3); NameMatch(4);
    SeedSuffixes();
    assert Filter(rs[4..], c) == [];
    assert Filter(rs[3..], c) == [];
    assert Filter(rs[2..], c) == [rs[2]];
    assert Filter(rs[1..], c) == [rs[2]];
  }

  lemma NameMatch(i: nat)
    requires i < |movieReviews|
    ensures Matches(Condition(Some(1234 as real), Some((ReviewerName, "Joe"))), movieReviews[i]) <==> i == 0 || i == 2
  {
    if i == 0 {
      assert "Joe Bloggs"[..3] == "Joe";
    } else if i == 1 {
      assert "Alice Broggs"[..3] == "Ali";
    } else if i == 2 {
      assert "Joe Cloggs"[..3] == "Joe";
    }
  }

  /** Movie 1234, content beginning with "4": Alice Broggs only. */
  lemma RatingPrefixOfMovie1234()
    ensures Filter(movieReviews, Condition(Some(1234 as real), Some((Content, "4")))) == [movieReviews[1]]
  {
    var c := Condition(Some(1234 as real), Some((Content, "4")));
    var rs := movieReviews;
    forall i | 0 <= i < |rs| ensures Matches(c, rs[i]) <==> i == 1 {
      DigitPrefixIsFirstCharacter(rs[i].content, '4');
    }
    SeedSuffixes();
    assert Filter(rs[4..], c) == [];
    assert Filter(rs[3..], c) == [];
    assert Filter(rs[2..], c) == [];
    assert Filter(rs[1..], c) == [rs[1]];
  }

  /** Any movie, content beginning with "2": the review of movie 2345 only. */
  lemma RatingPrefixAcrossMovies()
    ensures Filter(movieReviews, Condition(None, Some((Content, "2")))) == [movieReviews[3]]
  {
    var c := Condition(None, Some((Content, "2")));
    var rs := movieReviews;
    forall i | 0 <= i < |rs| ensures Matches(c, rs[i]) <==> i == 3 {
      DigitPrefixIsFirstCharacter(rs[i].content, '2');
    }
    SeedSuffixes();
    assert Filter(rs[4..], c) == [];
    assert Filter(rs[3..], c) == [rs[3]];
    assert Filter(rs[2..], c) == [rs[3]];
    assert Filter(rs[1..], c) == [rs[3]];
  }

  /** Consecutive suffixes of the seed reviews. */
  lemma SeedSuffixes()
    ensures movieReviews[1..][1..] == movieReviews[2..]
    ensures movieReviews[2..][1..] == movieReviews[3..]
    ensures movieReviews[3..][1..] == movieReviews[4..]
    ensures movieReviews[4..][1..] == []
  {
  }
}
