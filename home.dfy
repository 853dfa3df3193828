/** The catalog page: the displayed movies are the fetched list filtered by a
    title search and by optional exact genre and author selections; the
    genre and author selectors offer the distinct values of the fetched list. */
module Home {
  import opened Builtins
  import opened Movies

  /** The lower-cased title includes the lower-cased search string. */
  predicate TitleMatches(m: Movie, search: string)
  {
    Includes(Lower(m.title), Lower(search))
  }

  /** An empty genre selection accepts every movie; otherwise the genre must be equal. */
  predicate GenreMatches(m: Movie, genreFilter: string)
  {
    genreFilter != "" ==> m.genre == genreFilter
  }

  /** An empty author selection accepts every movie; otherwise the author must be equal. */
  predicate AuthorMatches(m: Movie, authorFilter: string)
  {
    authorFilter != "" ==> m.author == authorFilter
  }

  /** The predicate the catalog passes to `movies.filter`. */
  predicate Matches(m: Movie, search: string, genreFilter: string, authorFilter: string)
    ensures search == "" && genreFilter == "" && authorFilter == "" ==> Matches(m, search, genreFilter, authorFilter)
    ensures search == m.title && genreFilter == "" && authorFilter == "" ==> Matches(m, search, genreFilter, authorFilter)
  {
    IncludesEmpty(Lower(m.title));
    IncludesSelf(Lower(m.title));
    TitleMatches(m, search) && GenreMatches(m, genreFilter) && AuthorMatches(m, authorFilter)
  }

  /** The movies shown in the grid. */
  function FilteredMovies(movies: seq<Movie>, search: string, genreFilter: string, authorFilter: string)
    : (r: seq<Movie>)
    ensures |r| <= |movies|
    ensures forall i :: 0 <= i < |r| ==> Matches(r[i], search, genreFilter, authorFilter)
    ensures genreFilter != "" ==> forall i :: 0 <= i < |r| ==> r[i].genre == genreFilter
    ensures authorFilter != "" ==> forall i :: 0 <= i < |r| ==> r[i].author == authorFilter
  {
    if movies == [] then []
    else
      var rest := FilteredMovies(movies[1..], search, genreFilter, authorFilter);
      if Matches(movies[0], search, genreFilter, authorFilter) then [movies[0]] + rest else rest
  }

  /** The result keeps the relative order of the fetched list and adds nothing. */
  lemma {:induction false} FilteredIsSubsequence(movies: seq<Movie>, search: string, genreFilter: string, authorFilter: string)
    ensures IsSubsequence(FilteredMovies(movies, search, genreFilter, authorFilter), movies)
    ensures forall m :: m in FilteredMovies(movies, search, genreFilter, authorFilter) ==> m in movies
  {
    var r := FilteredMovies(movies, search, genreFilter, authorFilter);
    if movies != [] {
      FilteredIsSubsequence(movies[1..], search, genreFilter, authorFilter);
      var rest := FilteredMovies(movies[1..], search, genreFilter, authorFilter);
      if Matches(movies[0], search, genreFilter, authorFilter) {
        assert r[0] == movies[0] && r[1..] == rest;
      } else {
        assert r == rest;
        SubsequenceNotEmpty(rest, movies);
      }
    }
    SubsequenceElements(r, movies);
  }

  /** Dropping the head of `b` may only be undone by a non-empty `b`. */
  lemma SubsequenceNotEmpty(a: seq<Movie>, b: seq<Movie>)
    requires b != [] && IsSubsequence(a, b[1..])
    ensures IsSubsequence(a, b)
  {
  }

  /** Each movie occurs in the result exactly as often as in the fetched list
      when it matches every criterion, and not at all otherwise. */
  lemma {:induction false} FilteredCounts(movies: seq<Movie>, search: string, genreFilter: string, authorFilter: string)
    ensures forall m :: multiset(FilteredMovies(movies, search, genreFilter, authorFilter))[m] ==
                        if Matches(m, search, genreFilter, authorFilter) then multiset(movies)[m] else 0
  {
    if movies != [] {
      FilteredCounts(movies[1..], search, genreFilter, authorFilter);
      assert movies == [movies[0]] + movies[1..];
    }
  }

  /** Completeness: every fetched movie that satisfies all three criteria is shown. */
  lemma FilteredComplete(movies: seq<Movie>, search: string, genreFilter: string, authorFilter: string, m: Movie)
    requires m in movies && Matches(m, search, genreFilter, authorFilter)
    ensures m in FilteredMovies(movies, search, genreFilter, authorFilter)
  {
    FilteredCounts(movies, search, genreFilter, authorFilter);
    assert multiset(movies)[m] > 0;
  }

  /** With an empty search and no selections, the whole fetched list is shown. */
  lemma {:induction false} FilteredNoCriteria(movies: seq<Movie>)
    ensures FilteredMovies(movies, "", "", "") == movies
  {
    if movies != [] {
      FilteredNoCriteria(movies[1..]);
      IncludesEmpty(Lower(movies[0].title));
    }
  }

  /** Searching for a movie's own title, without selections, keeps that movie. */
  lemma FilteredOwnTitle(movies: seq<Movie>, m: Movie)
    requires m in movies
    ensures m in FilteredMovies(movies, m.title, "", "")
  {
    IncludesSelf(Lower(m.title));
    FilteredComplete(movies, m.title, "", "", m);
  }

  /** The three criteria are applied as a conjunction: filtering by all of them
      is filtering by author, then by genre, then by title. */
  lemma {:induction false} FilteredConjunction(movies: seq<Movie>, search: string, genreFilter: string, authorFilter: string)
    ensures FilteredMovies(movies, search, genreFilter, authorFilter) ==
      FilteredMovies(FilteredMovies(FilteredMovies(movies, "", "", authorFilter), "", genreFilter, ""), search, "", "")
  {
    if movies != [] {
      var m := movies[0];
      IncludesEmpty(Lower(m.title));
      FilteredConjunction(movies[1..], search, genreFilter, authorFilter);
      var byAuthor := FilteredMovies(movies, "", "", authorFilter);
      var byAuthorRest := FilteredMovies(movies[1..], "", "", authorFilter);
      var byGenre := FilteredMovies(byAuthor, "", genreFilter, "");
      var byGenreRest := FilteredMovies(byAuthorRest, "", genreFilter, "");
      if AuthorMatches(m, authorFilter) {
        assert byAuthor == [m] + byAuthorRest;
        assert byAuthor[1..] == byAuthorRest;
        if GenreMatches(m, genreFilter) {
          assert byGenre == [m] + byGenreRest;
          assert byGenre[1..] == byGenreRest;
        }
      }
    }
  }

  /** The shown movies are the intersection of the three single-criterion results. */
  lemma FilteredIntersection(movies: seq<Movie>, search: string, genreFilter: string, authorFilter: string, m: Movie)
    ensures m in FilteredMovies(movies, search, genreFilter, authorFilter) <==>
      && m in FilteredMovies(movies, search, "", "")
      && m in FilteredMovies(movies, "", genreFilter, "")
      && m in FilteredMovies(movies, "", "", authorFilter)
  {
    IncludesEmpty(Lower(m.title));
    FilteredCounts(movies, search, genreFilter, authorFilter);
    FilteredCounts(movies, search, "", "");
    FilteredCounts(movies, "", genreFilter, "");
    FilteredCounts(movies, "", "", authorFilter);
  }

  /** The search ignores the case of ASCII letters. */
  lemma {:induction false} FilteredCaseInsensitive(movies: seq<Movie>, search: string, genreFilter: string, authorFilter: string)
    ensures FilteredMovies(movies, search, genreFilter, authorFilter) ==
      FilteredMovies(movies, Lower(search), genreFilter, authorFilter)
  {
    LowerIdempotent(search);
    if movies != [] {
      FilteredCaseInsensitive(movies[1..], search, genreFilter, authorFilter);
    }
  }

  /** The genre of every fetched movie, in list order. */
  function Genres(movies: seq<Movie>): (r: seq<string>)
    ensures |r| == |movies|
  {
    seq(|movies|, i requires 0 <= i < |movies| => movies[i].genre)
  }

  /** The author of every fetched movie, in list order. */
  function Authors(movies: seq<Movie>): (r: seq<string>)
    ensures |r| == |movies|
  {
    seq(|movies|, i requires 0 <= i < |movies| => movies[i].author)
  }

  /** The options of the genre selector. */
  function UniqueGenres(movies: seq<Movie>): (r: seq<string>)
    ensures NoDuplicates(r)
    ensures forall g :: g in r <==> exists i :: 0 <= i < |movies| && movies[i].genre == g
  {
    var all := Genres(movies);
    assert forall g :: g in all <==> exists i :: 0 <= i < |movies| && movies[i].genre == g by {
      forall g ensures g in all <==> exists i :: 0 <= i < |movies| && movies[i].genre == g {
        if g in all {
          var i :| 0 <= i < |all| && all[i] == g;
          assert movies[i].genre == g;
        }
        if exists i :: 0 <= i < |movies| && movies[i].genre == g {
          var i :| 0 <= i < |movies| && movies[i].genre == g;
          assert all[i] == g;
        }
      }
    }
    Distinct(all)
  }

  /** The options of the author selector. */
  function UniqueAuthors(movies: seq<Movie>): (r: seq<string>)
    ensures NoDuplicates(r)
    ensures forall a :: a in r <==> exists i :: 0 <= i < |movies| && movies[i].author == a
  {
    var all := Authors(movies);
    assert forall a :: a in all <==> exists i :: 0 <= i < |movies| && movies[i].author == a by {
      forall a ensures a in all <==> exists i :: 0 <= i < |movies| && movies[i].author == a {
        if a in all {
          var i :| 0 <= i < |all| && all[i] == a;
          assert movies[i].author == a;
        }
        if exists i :: 0 <= i < |movies| && movies[i].author == a {
          var i :| 0 <= i < |movies| && movies[i].author == a;
          assert all[i] == a;
        }
      }
    }
    Distinct(all)
  }

  /** Genre options are listed in the order in which each genre first occurs. */
  lemma UniqueGenresOrder(movies: seq<Movie>)
    ensures forall i, j :: 0 <= i < j < |UniqueGenres(movies)| ==>
      FirstIndex(Genres(movies), UniqueGenres(movies)[i]) < FirstIndex(Genres(movies), UniqueGenres(movies)[j])
  {
    DistinctFirstOccurrenceOrder(Genres(movies));
  }

  /** Author options are listed in the order in which each author first occurs. */
  lemma UniqueAuthorsOrder(movies: seq<Movie>)
    ensures forall i, j :: 0 <= i < j < |UniqueAuthors(movies)| ==>
      FirstIndex(Authors(movies), UniqueAuthors(movies)[i]) < FirstIndex(Authors(movies), UniqueAuthors(movies)[j])
  {
    DistinctFirstOccurrenceOrder(Authors(movies));
  }

  /** Selecting any offered genre, with an empty search, shows at least one movie. */
  lemma GenreOptionSelectable(movies: seq<Movie>, g: string)
    requires g in UniqueGenres(movies)
    ensures FilteredMovies(movies, "", g, "") != []
  {
    var i :| 0 <= i < |movies| && movies[i].genre == g;
    IncludesEmpty(Lower(movies[i].title));
    FilteredComplete(movies, "", g, "", movies[i]);
  }

  /** Selecting any offered author, with an empty search, shows at least one movie. */
  lemma AuthorOptionSelectable(movies: seq<Movie>, a: string)
    requires a in UniqueAuthors(movies)
    ensures FilteredMovies(movies, "", "", a) != []
  {
    var i :| 0 <= i < |movies| && movies[i].author == a;
    IncludesEmpty(Lower(movies[i].title));
    FilteredComplete(movies, "", "", a, movies[i]);
  }

  /** The text under a card: the first 100 code points of the synopsis (nothing
      when it is absent), followed by an ellipsis. */
  function CardSynopsis(m: Movie): (text: string)
    ensures |text| >= 3 && text[|text| - 3..] == "..."
    ensures m.synopsis.None? ==> text == "..."
    ensures m.synopsis.Some? ==>
      var shown := text[..|text| - 3];
      shown <= m.synopsis.value && |shown| == if |m.synopsis.value| < 100 then |m.synopsis.value| else 100
  {
    match m.synopsis
    case None => "..."
    case Some(s) => (if |s| < 100 then s else s[..100]) + "..."
  }
}
