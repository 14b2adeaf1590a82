/** The plain records the application keeps in memory: the summary shown in a
    result or watched list, the full detail of one movie, and the body of a
    search response. */
module Records {
  import opened Wrappers

  /** `{id, title, release_date, poster_path}`: one search result, and also one
      entry of the watched list (the add button builds exactly these four
      fields from the detail record). */
  datatype MovieRecord = MovieRecord(id: int, title: string, releaseDate: string, posterPath: Option<string>)

  /** The detail record fetched for the selected movie; genres are kept by name. */
  datatype MovieDetail = MovieDetail(
    id: int,
    title: string,
    releaseDate: string,
    posterPath: Option<string>,
    runtime: int,
    overview: string,
    genres: seq<string>)

  /** The parsed body of a search response. Either field may be missing (an
      error body has neither; the initial state `[]` has neither). */
  datatype SearchPayload = SearchPayload(totalResults: Option<int>, results: Option<seq<MovieRecord>>)

  /** The record the add button appends: the four summary fields of the detail. */
  function ToWatched(d: MovieDetail): (m: MovieRecord)
    ensures m.id == d.id && m.title == d.title
    ensures m.releaseDate == d.releaseDate && m.posterPath == d.posterPath
  {
    MovieRecord(d.id, d.title, d.releaseDate, d.posterPath)
  }

  /** `watchedMovies.map(movie => movie.id)` */
  function Ids(ws: seq<MovieRecord>): (ids: seq<int>)
    ensures |ids| == |ws|
    ensures forall i :: 0 <= i < |ws| ==> ids[i] == ws[i].id
  {
    seq(|ws|, i requires 0 <= i < |ws| => ws[i].id)
  }

  /** `watched.includes(id)` over the mapped ids: some watched record has the id. */
  predicate OnWatchList(ws: seq<MovieRecord>, id: int)
    ensures OnWatchList(ws, id) <==> exists i :: 0 <= i < |ws| && ws[i].id == id
  {
    id in Ids(ws)
  }

  /** At most one entry per id. */
  ghost predicate DistinctIds(ws: seq<MovieRecord>) {
    forall i, j :: 0 <= i < j < |ws| ==> ws[i].id != ws[j].id
  }

  /** Appending a record whose id is not yet on the list keeps the ids distinct. */
  lemma GuardedAppendKeepsDistinct(ws: seq<MovieRecord>, m: MovieRecord)
    requires DistinctIds(ws)
    requires !OnWatchList(ws, m.id)
    ensures DistinctIds(ws + [m])
  {
  }

  /** The appended record's id is on the list afterwards. */
  lemma AppendedIdOnList(ws: seq<MovieRecord>, m: MovieRecord)
    ensures OnWatchList(ws + [m], m.id)
  {
    assert Ids(ws + [m])[|ws|] == m.id;
  }

  /** Appending never removes an id from the list. */
  lemma AppendKeepsMembership(ws: seq<MovieRecord>, m: MovieRecord, id: int)
    requires OnWatchList(ws, id)
    ensures OnWatchList(ws + [m], id)
  {
    var i :| 0 <= i < |ws| && Ids(ws)[i] == id;
    assert Ids(ws + [m])[i] == id;
  }

  /** The raw append does not deduplicate: a list with one entry, appended the
      same record again, holds that id twice. */
  lemma AppendCanDuplicate(m: MovieRecord)
    ensures DistinctIds([m]) && !DistinctIds([m] + [m])
  {
    assert ([m] + [m])[0].id == ([m] + [m])[1].id;
  }
}
