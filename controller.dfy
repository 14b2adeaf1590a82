/** The `App` component's state cells and event handlers, together with the
    state of the `MovieDetails` component it mounts while a movie is selected. */
module Controller {
  import opened Wrappers
  import opened Records
  import opened Storage

  /** `movID === id ? null : id`: choosing the selected id again deselects it,
      anything else becomes the selection. */
  function Toggle(current: Option<int>, id: Option<int>): (next: Option<int>)
    ensures next.None? <==> current == id || id.None?
    ensures next.Some? ==> next == id
  {
    if current == id then None else id
  }

  /** Choosing the same id twice clears the selection, unless it was already
      selected, in which case it ends selected. */
  lemma ToggleTwice(current: Option<int>, id: int)
    ensures Toggle(Toggle(current, Some(id)), Some(id)) == if current == Some(id) then Some(id) else None
  {
  }

  /** The go-back button passes null to the toggle, which always clears. */
  lemma GoBackClears(current: Option<int>)
    ensures Toggle(current, None) == None
  {
  }

  /** `!currentMovie` is false: the detail panel and the go-back button are
      rendered. Id 0 is falsy, so selecting it renders the watched list. */
  predicate DetailsMounted(selection: Option<int>) {
    selection.Some? && selection.value != 0
  }

  class App {
    /** The search box text. */
    var query: string
    /** The last search body received; None stands for a `null` body. */
    var movieList: Option<SearchPayload>
    /** The selected movie id. */
    var currentMovie: Option<int>
    /** `MovieDetails`' own state: the detail record last received. */
    var currentMovieData: Option<MovieDetail>
    /** The watched list. */
    var watchedMovies: seq<MovieRecord>
    /** The browser's local store. */
    var storage: map<string, Entry>
    /** Which `MovieDetails` instance is (or will next be) mounted: the number
        of times the panel has unmounted so far. A detail fetch belongs to the
        instance that issued it. */
    var panelInstance: nat

    /** The store mirrors the list, and while the detail panel is unmounted it
        holds no detail record (unmounting discards a component's state). */
    ghost predicate Valid()
      reads this
    {
      WatchedKey in storage && storage[WatchedKey] == Saved(watchedMovies) &&
      (!DetailsMounted(currentMovie) ==> currentMovieData.None?)
    }

    /** The add button is rendered: a detail record is loaded and its id is
        not among the watched ids. */
    predicate AddOffered()
      reads this
    {
      currentMovieData.Some? && !OnWatchList(watchedMovies, currentMovieData.value.id)
    }

    /** Mounting: the list is hydrated from the store, then the persist effect
        runs once and writes it back. The initial search state `[]` has
        neither a count nor results. */
    constructor (store: map<string, Entry>)
      requires Hydrate(store).Success?
      ensures Valid()
      ensures query == "" && movieList == Some(SearchPayload(None, None))
      ensures currentMovie == None && currentMovieData == None
      ensures watchedMovies == Hydrate(store).value
      ensures storage == Persist(store, watchedMovies)
      ensures panelInstance == 0
    {
      query := "";
      movieList := Some(SearchPayload(None, None));
      currentMovie := None;
      currentMovieData := None;
      watchedMovies := Hydrate(store).value;
      storage := Persist(store, Hydrate(store).value);
      panelInstance := 0;
    }

    /** Typing in the search box. */
    method SetQuery(q: string)
      requires Valid()
      modifies this
      ensures Valid() && query == q
      ensures movieList == old(movieList) && currentMovie == old(currentMovie)
      ensures currentMovieData == old(currentMovieData)
      ensures watchedMovies == old(watchedMovies) && storage == old(storage)
      ensures panelInstance == old(panelInstance)
    {
      query := q;
    }

    /** Enter pressed anywhere but in the search box: the box takes focus and
        the query is cleared. Enter inside the box does nothing. */
    method ClearQueryOnEnter(searchBoxFocused: bool)
      requires Valid()
      modifies this
      ensures Valid() && query == if searchBoxFocused then old(query) else ""
      ensures movieList == old(movieList) && currentMovie == old(currentMovie)
      ensures currentMovieData == old(currentMovieData)
      ensures watchedMovies == old(watchedMovies) && storage == old(storage)
      ensures panelInstance == old(panelInstance)
    {
      if !searchBoxFocused {
        query := "";
      }
    }

    /** A search response arrives and replaces the search state. */
    method ReceiveSearchResults(body: Option<SearchPayload>)
      requires Valid()
      modifies this
      ensures Valid() && movieList == body
      ensures query == old(query) && currentMovie == old(currentMovie)
      ensures currentMovieData == old(currentMovieData)
      ensures watchedMovies == old(watchedMovies) && storage == old(storage)
      ensures panelInstance == old(panelInstance)
    {
      movieList := body;
    }

    /** `selectCurrentMovie(id)`: the toggle; clearing the selection unmounts
        the detail panel, which discards its record and ends that panel
        instance. Moving to another id keeps the panel mounted, so the previous
        movie's record stays until the new one arrives. */
    method SelectCurrentMovie(id: Option<int>)
      requires Valid()
      modifies this
      ensures Valid()
      ensures currentMovie == Toggle(old(currentMovie), id)
      ensures currentMovieData == if DetailsMounted(currentMovie) then old(currentMovieData) else None
      ensures query == old(query) && movieList == old(movieList)
      ensures watchedMovies == old(watchedMovies) && storage == old(storage)
      ensures panelInstance ==
        if DetailsMounted(old(currentMovie)) && !DetailsMounted(currentMovie)
        then old(panelInstance) + 1 else old(panelInstance)
    {
      var wasMounted := DetailsMounted(currentMovie);
      currentMovie := Toggle(currentMovie, id);
      if !DetailsMounted(currentMovie) {
        currentMovieData := None;
        if wasMounted {
          panelInstance := panelInstance + 1;
        }
      }
    }

    /** A detail response arrives for the fetch issued by panel instance
        `issuedBy`. It is stored when that instance is still mounted, whatever
        movie id the response is for (a fetch for the previously selected
        movie of the same instance included); a response whose instance has
        unmounted is dropped, as React drops updates of unmounted components. */
    method ReceiveMovieDetail(data: MovieDetail, issuedBy: nat)
      requires Valid()
      modifies this
      ensures Valid()
      ensures currentMovieData ==
        if DetailsMounted(currentMovie) && issuedBy == panelInstance then Some(data) else old(currentMovieData)
      ensures query == old(query) && movieList == old(movieList) && currentMovie == old(currentMovie)
      ensures watchedMovies == old(watchedMovies) && storage == old(storage)
      ensures panelInstance == old(panelInstance)
    {
      if DetailsMounted(currentMovie) && issuedBy == panelInstance {
        currentMovieData := Some(data);
      }
    }

    /** `addMovie(movie)` followed by the persist effect: the record is
        appended without any check, and the whole list overwrites the store. */
    method AddMovie(movie: MovieRecord)
      requires Valid()
      modifies this
      ensures Valid()
      ensures watchedMovies == old(watchedMovies) + [movie]
      ensures |watchedMovies| == |old(watchedMovies)| + 1
      ensures watchedMovies[..|old(watchedMovies)|] == old(watchedMovies)
      ensures watchedMovies[|watchedMovies| - 1] == movie
      ensures storage == Persist(old(storage), watchedMovies)
      ensures query == old(query) && movieList == old(movieList)
      ensures currentMovie == old(currentMovie) && currentMovieData == old(currentMovieData)
      ensures panelInstance == old(panelInstance)
    {
      watchedMovies := watchedMovies + [movie];
      storage := Persist(storage, watchedMovies);
    }

    /** The detail panel's button. When the add button is rendered it appends
        the detail's four summary fields, then clears the detail record and the
        selection, which unmounts the panel. Otherwise the panel shows "movie already watched", which has
        no handler, or no button at all. Adding only this way keeps the ids
        on the watched list distinct. */
    method PressAddButton()
      requires Valid()
      modifies this
      ensures Valid()
      ensures old(AddOffered()) ==>
        watchedMovies == old(watchedMovies) + [ToWatched(old(currentMovieData).value)] &&
        OnWatchList(watchedMovies, old(currentMovieData).value.id) &&
        currentMovieData == None && currentMovie == None
      ensures !old(AddOffered()) ==>
        watchedMovies == old(watchedMovies) &&
        currentMovieData == old(currentMovieData) && currentMovie == old(currentMovie)
      ensures DistinctIds(old(watchedMovies)) ==> DistinctIds(watchedMovies)
      ensures storage == if old(AddOffered()) then Persist(old(storage), watchedMovies) else old(storage)
      ensures query == old(query) && movieList == old(movieList)
      ensures panelInstance == if old(AddOffered()) then old(panelInstance) + 1 else old(panelInstance)
    {
      if AddOffered() {
        var detail := currentMovieData.value;
        ghost var before := watchedMovies;
        if DistinctIds(before) {
          GuardedAppendKeepsDistinct(before, ToWatched(detail));
        }
        AppendedIdOnList(before, ToWatched(detail));
        AddMovie(ToWatched(detail));
        currentMovieData := None;
        currentMovie := None;
        panelInstance := panelInstance + 1;
      }
    }

    /** The go-back arrow, rendered while a movie is selected: it calls the
        toggle with null, which clears the selection and unmounts the panel. */
    method PressGoBack()
      requires Valid()
      modifies this
      ensures Valid()
      ensures DetailsMounted(old(currentMovie)) ==> currentMovie == None && currentMovieData == None
      ensures !DetailsMounted(old(currentMovie)) ==>
        currentMovie == old(currentMovie) && currentMovieData == old(currentMovieData)
      ensures query == old(query) && movieList == old(movieList)
      ensures watchedMovies == old(watchedMovies) && storage == old(storage)
      ensures panelInstance == if DetailsMounted(old(currentMovie)) then old(panelInstance) + 1 else old(panelInstance)
    {
      if DetailsMounted(currentMovie) {
        SelectCurrentMovie(None);
      }
    }
  }

  /** Startup: an unparseable stored list makes `JSON.parse` throw inside the
      state initializer, so the application does not mount. */
  method Start(store: map<string, Entry>) returns (r: Result<App, LoadError>)
    ensures r.Failure? <==> Hydrate(store).Failure?
    ensures r.Failure? ==> r.error == Hydrate(store).error
    ensures r.Success? ==> fresh(r.value) && r.value.Valid() && r.value.watchedMovies == Hydrate(store).value
  {
    match Hydrate(store)
    case Failure(e) => r := Failure(e);
    case Success(_) =>
      var app := new App(store);
      r := Success(app);
  }

  /** Whatever sequence of handlers has run, reading the store back gives the
      current watched list. */
  lemma ReloadGivesCurrentList(app: App)
    requires app.Valid()
    ensures Hydrate(app.storage) == Success(app.watchedMovies)
  {
  }
}
