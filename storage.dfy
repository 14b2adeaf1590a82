/** The browser's local store as an abstract map from key to stored entry, and
    the watched list's read at startup and overwrite on every change. */
module Storage {
  import opened Wrappers
  import opened Records

  /** The one key the watched list is kept under. */
  const WatchedKey: string := "watchedMovies"

  /** A stored entry: the serialization of a list of records, or text that
      `JSON.parse` does not turn into such a list. */
  datatype Entry = Saved(movies: seq<MovieRecord>) | Garbled(text: string)

  /** `JSON.parse` throwing on the stored text. */
  datatype LoadError = ParseError(text: string)

  /** `watched ? JSON.parse(watched) : []` on `getItem("watchedMovies")`:
      a missing item (null) and the empty string are falsy and give the empty
      list; any other text is parsed, and the parse error is not caught. */
  function Hydrate(store: map<string, Entry>): (r: Result<seq<MovieRecord>, LoadError>)
    ensures WatchedKey !in store ==> r == Success([])
    ensures r.Failure? <==> WatchedKey in store && store[WatchedKey].Garbled? && store[WatchedKey].text != ""
    ensures WatchedKey in store && store[WatchedKey].Saved? ==> r == Success(store[WatchedKey].movies)
    ensures r.Success? && r.value != [] ==> WatchedKey in store && store[WatchedKey] == Saved(r.value)
  {
    if WatchedKey !in store then Success([])
    else match store[WatchedKey]
      case Saved(movies) => Success(movies)
      case Garbled(text) => if text == "" then Success([]) else Failure(ParseError(text))
  }

  /** `setItem("watchedMovies", JSON.stringify(list))`: the whole list replaces
      whatever was stored under the key; other keys are untouched. */
  function Persist(store: map<string, Entry>, list: seq<MovieRecord>): (store': map<string, Entry>)
    ensures WatchedKey in store' && store'[WatchedKey] == Saved(list)
    ensures store'.Keys == store.Keys + {WatchedKey}
    ensures forall k :: k in store && k != WatchedKey ==> store'[k] == store[k]
  {
    store[WatchedKey := Saved(list)]
  }

  /** Loading after saving returns the saved list. */
  lemma LoadAfterSave(store: map<string, Entry>, list: seq<MovieRecord>)
    ensures Hydrate(Persist(store, list)) == Success(list)
  {
  }

  /** A save is an overwrite: only the last save is visible. */
  lemma SaveOverwrites(store: map<string, Entry>, a: seq<MovieRecord>, b: seq<MovieRecord>)
    ensures Persist(Persist(store, a), b) == Persist(store, b)
  {
  }
}
