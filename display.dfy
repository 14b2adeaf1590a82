/** The display rules of the movie cards, the detail panel and the search
    header: truncation, year extraction, the genre line, the defaults for a
    search body with missing fields, and how many search lists a viewport
    width renders. Lengths count Unicode scalar values (Dafny `char`s). */
module Display {
  import opened Wrappers
  import opened Records

  const TitleLimit: nat := 20
  const OverviewLimit: nat := 300
  const Ellipsis: string := "..."
  /** The width at which both layout conditions (`>= 751`, `<= 751`) hold. */
  const Breakpoint: int := 751

  /** `s.length >= limit ? s.slice(0, limit) + "..." : s` */
  function Truncate(s: string, limit: nat): (r: string)
    ensures |s| < limit ==> r == s
    ensures |s| >= limit ==> |r| == limit + |Ellipsis| && r[..limit] == s[..limit] && r[limit..] == Ellipsis
  {
    if |s| >= limit then s[..limit] + Ellipsis else s
  }

  /** A text is shown unchanged exactly when it is shorter than the limit, or
      when it is the limit's length plus three and already ends in "...".
      In particular a text of exactly `limit` characters still gains "...". */
  lemma TruncateUnchangedIff(s: string, limit: nat)
    ensures Truncate(s, limit) == s <==> |s| < limit || (|s| == limit + |Ellipsis| && s[limit..] == Ellipsis)
  {
  }

  /** The title line of a movie card and of the detail panel. */
  function TitleLine(title: string): (r: string)
    ensures |r| <= TitleLimit + |Ellipsis|
    ensures |title| < TitleLimit ==> r == title
    ensures |title| >= TitleLimit ==> |r| == TitleLimit + |Ellipsis| && r == title[..TitleLimit] + Ellipsis
  {
    Truncate(title, TitleLimit)
  }

  /** A title of exactly twenty characters is not shown as it is. */
  lemma TwentyCharTitleGainsEllipsis(title: string)
    requires |title| == TitleLimit
    ensures TitleLine(title) != title && TitleLine(title) == title + Ellipsis
  {
  }

  /** The overview paragraph of the detail panel. */
  function OverviewLine(overview: string): (r: string)
    ensures |overview| < OverviewLimit ==> r == overview
    ensures |overview| >= OverviewLimit ==> r == overview[..OverviewLimit] + Ellipsis
  {
    Truncate(overview, OverviewLimit)
  }

  /** `s.split(sep)` for a one-character separator: the maximal runs between
      separators, in order; an empty string gives one empty part. */
  function Split(s: string, sep: char): (parts: seq<string>)
    ensures |parts| >= 1
    ensures forall i :: 0 <= i < |parts| ==> sep !in parts[i]
    ensures parts[0] <= s
    ensures |parts[0]| < |s| ==> s[|parts[0]|] == sep
    decreases |s|
  {
    if |s| == 0 then [""]
    else
      var rest := Split(s[1..], sep);
      if s[0] == sep then [""] + rest
      else
        var first := [s[0]] + rest[0];
        assert sep !in first;
        assert first <= s by { assert s == [s[0]] + s[1..]; }
        [first] + rest[1..]
  }

  /** `parts.join(sep)` for a one-character separator. */
  function Join(parts: seq<string>, sep: char): string
  {
    if |parts| == 0 then ""
    else if |parts| == 1 then parts[0]
    else parts[0] + [sep] + Join(parts[1..], sep)
  }

  /** Joining the parts of a split gives back the original string. */
  lemma {:induction false} SplitJoin(s: string, sep: char)
    ensures Join(Split(s, sep), sep) == s
    decreases |s|
  {
    if |s| > 0 {
      var rest := Split(s[1..], sep);
      SplitJoin(s[1..], sep);
      if s[0] == sep {
        assert Split(s, sep) == [""] + rest;
        assert ([""] + rest)[1..] == rest;
      } else {
        var parts := Split(s, sep);
        assert parts == [[s[0]] + rest[0]] + rest[1..];
        if |rest| == 1 {
          assert parts == [[s[0]] + rest[0]];
        } else {
          assert parts[1..] == rest[1..];
          assert Join(rest, sep) == rest[0] + [sep] + Join(rest[1..], sep);
        }
      }
      assert s == [s[0]] + s[1..];
    }
  }

  /** Splitting a text with no separator gives the text itself. */
  lemma {:induction false} SplitNoSeparator(s: string, sep: char)
    requires sep !in s
    ensures Split(s, sep) == [s]
    decreases |s|
  {
    if |s| > 0 {
      SplitNoSeparator(s[1..], sep);
      assert s == [s[0]] + s[1..];
    }
  }

  /** A separator after a separator-free prefix ends the first part. */
  lemma {:induction false} SplitAtFirstSeparator(x: string, sep: char, y: string)
    requires sep !in x
    ensures Split(x + [sep] + y, sep) == [x] + Split(y, sep)
    decreases |x|
  {
    var s := x + [sep] + y;
    if |x| == 0 {
      assert s == [sep] + y;
      assert s[1..] == y;
    } else {
      assert s[0] == x[0] && s[1..] == x[1..] + [sep] + y;
      var rest := Split(s[1..], sep);
      SplitAtFirstSeparator(x[1..], sep, y);
      assert rest == [x[1..]] + Split(y, sep);
      assert rest[0] == x[1..] && rest[1..] == Split(y, sep);
      assert [x[0]] + x[1..] == x;
      assert Split(s, sep) == [[s[0]] + rest[0]] + rest[1..];
    }
  }

  /** Splitting a join of separator-free parts gives the parts back. */
  lemma {:induction false} JoinSplit(parts: seq<string>, sep: char)
    requires |parts| >= 1
    requires forall i :: 0 <= i < |parts| ==> sep !in parts[i]
    ensures Split(Join(parts, sep), sep) == parts
    decreases |parts|
  {
    if |parts| == 1 {
      SplitNoSeparator(parts[0], sep);
    } else {
      JoinSplit(parts[1..], sep);
      SplitAtFirstSeparator(parts[0], sep, Join(parts[1..], sep));
      assert parts == [parts[0]] + parts[1..];
    }
  }

  /** `release_date.split("-").at(0)`: the text before the first '-', or the
      whole date when it has none. */
  function ReleaseYear(date: string): (year: string)
    ensures year <= date
    ensures '-' !in year
    ensures |year| < |date| ==> date[|year|] == '-'
    ensures '-' !in date ==> year == date
  {
    var year := Split(date, '-')[0];
    assert '-' !in date ==> |year| == |date|;
    year
  }

  /** `genres.map(genre => genre.name).join(" ")` */
  function GenreLine(genres: seq<string>): (line: string)
    ensures genres == [] ==> line == ""
    ensures |genres| == 1 ==> line == genres[0]
  {
    Join(genres, ' ')
  }

  /** Genre names without spaces can be read back from the genre line. */
  lemma GenreLineSplitsBack(genres: seq<string>)
    requires |genres| >= 1
    requires forall i :: 0 <= i < |genres| ==> ' ' !in genres[i]
    ensures Split(GenreLine(genres), ' ') == genres
  {
    JoinSplit(genres, ' ');
  }

  /** `movieList?.total_results ? movieList.total_results : 0`: a missing count
      reads as 0, and since a count of 0 is falsy the truthiness test amounts
      to a presence test. */
  function TotalResults(movieList: Option<SearchPayload>): (n: int)
    ensures movieList.Some? && movieList.value.totalResults.Some? ==> n == movieList.value.totalResults.value
    ensures movieList.None? || movieList.value.totalResults.None? ==> n == 0
  {
    if movieList.Some? && movieList.value.totalResults.Some? && movieList.value.totalResults.value != 0
    then movieList.value.totalResults.value
    else 0
  }

  /** `movieList?.results ? movieList.results : []`: an array is always truthy,
      so the list is the response's own whenever it has one. */
  function Movies(movieList: Option<SearchPayload>): (movies: seq<MovieRecord>)
    ensures movieList.Some? && movieList.value.results.Some? ==> movies == movieList.value.results.value
    ensures movieList.None? || movieList.value.results.None? ==> movies == []
  {
    match movieList
    case Some(SearchPayload(_, Some(results))) => results
    case _ => []
  }

  /** How many search-result lists render at a viewport width:
      `(width >= 751 ? 1 : 0) + (width <= 751 && resultCount >= 1 ? 1 : 0)`. */
  function SearchListCount(width: int, resultCount: nat): (n: nat)
    ensures n <= 2
    ensures n == 2 <==> width == Breakpoint && resultCount >= 1
    ensures n == 0 <==> width < Breakpoint && resultCount == 0
    ensures width > Breakpoint ==> n == 1
    ensures width < Breakpoint ==> (n == 1 <==> resultCount >= 1)
  {
    (if width >= Breakpoint then 1 else 0) + (if width <= Breakpoint && resultCount >= 1 then 1 else 0)
  }
}
