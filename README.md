# usePopcorn watched-list model

A Dafny model of the state logic of the usePopcorn single-page app (`src/App.js`):
a movie search box, a list of results, a detail panel for the selected movie
with a button that adds it to the "watched" list, and that list mirrored to the
browser's local store.

The model has two parts.

- **State machine** (`controller.dfy`, `storage.dfy`, `records.dfy`): class
  `Controller.App` holds the `App` component's state cells (`query`,
  `movieList`, `currentMovie`, `watchedMovies`). It also holds the detail
  record kept by the `MovieDetails` component (`currentMovieData`) and the local
  store, modelled as a map from key to entry. Each event handler is a method.
  The invariant `Valid()` says two things. The store under `"watchedMovies"`
  always equals the current list. No detail record survives while the detail
  panel is unmounted.
- **Display rules** (`display.dfy`): pure functions for the title and overview
  truncation, the year shown on a card, the genre line, the defaults used when
  a search body lacks a count or results, and how many search lists a viewport
  width renders.

Behaviour kept exactly as the code has it:

- `addMovie` appends without checking ids (`Records.AppendCanDuplicate`).
  Duplicate ids are avoided only because the add button appears only for an id
  that is not yet on the list.
- The selection toggle (`movID === id ? null : id`) clears the selection when
  applied twice only if the id was not already selected. If it was, two toggles
  leave it selected.
- The go-back arrow calls the toggle with `null`, which always clears.
- Id `0` is falsy, so selecting it does not mount the detail panel.
- When the selection moves from one movie to another, the detail panel stays
  mounted. The previous movie's record stays shown, and can be added, until
  the new one arrives. A detail response fetched by the mounted panel is
  stored whatever movie id it is for. A response fetched by a panel that has
  since unmounted (after go-back, an add, or a toggle off) is dropped. The
  field `panelInstance` counts unmounts so that each fetch can be tied to the
  panel that issued it.
- Startup: a missing item or an empty string gives the empty list. Any other
  text goes to `JSON.parse`, and a parse error is not caught. A corrupt stored
  value is not replaced by an empty list: `Storage.Hydrate` returns `Failure`
  and `Controller.Start` does not mount.
- A title of exactly 20 characters still gains `"..."`. A text of the limit's
  length plus three that already ends in `"..."` is shown unchanged.
- At width 751 with at least one result, the search list renders twice.

## Model

| member | source | states |
|---|---|---|
| `Records.ToWatched` | src/App.js:215-220 | the appended record carries the detail's id, title, release date and poster path |
| `Records.Ids` | src/App.js:196 | the id list has one entry per watched record, in order, each that record's id |
| `Records.OnWatchList` | src/App.js:196-197 | `includes` over the mapped ids: true iff some watched record has the id |
| `Records.GuardedAppendKeepsDistinct` | src/App.js:196-197 | appending a record whose id is not among the watched ids keeps the ids distinct |
| `Records.AppendedIdOnList` | src/App.js:42-44 | after an append, the appended id is on the watched list |
| `Records.AppendKeepsMembership` | src/App.js:42-44 | an append never removes an id from the watched list |
| `Records.AppendCanDuplicate` | src/App.js:42-44 | the raw append does not deduplicate: appending the same record to a one-entry list repeats its id |
| `Display.Truncate` | src/App.js:238-240 | shorter than the limit: unchanged; otherwise the first `limit` characters followed by "...", length limit + 3 |
| `Display.TruncateUnchangedIff` | src/App.js:304 | a text is shown unchanged iff it is shorter than the limit, or is limit + 3 long and ends in "..." |
| `Display.TitleLine` | src/App.js:304 | a card title is at most 23 characters; from 20 characters on it is the first 20 plus "..." |
| `Display.TwentyCharTitleGainsEllipsis` | src/App.js:238-240 | a title of exactly 20 characters is displayed as itself plus "..." and so differs from the title |
| `Display.OverviewLine` | src/App.js:264-266 | an overview under 300 characters is unchanged; otherwise it is the first 300 plus "..." |
| `Display.Split` | src/App.js:305 | `split` on one character gives at least one part, no part contains the separator, and the first part is the prefix up to the first separator |
| `Display.SplitJoin` | src/App.js:305 | joining the parts of a split with the separator gives back the original text |
| `Display.SplitNoSeparator` | src/App.js:305 | a text without the separator splits into itself alone |
| `Display.SplitAtFirstSeparator` | src/App.js:305 | a separator after a separator-free prefix ends the first part, and the rest splits on its own |
| `Display.JoinSplit` | src/App.js:195 | splitting a join of separator-free parts gives back the parts |
| `Display.ReleaseYear` | src/App.js:305 | the year is a prefix of the date, contains no '-', is followed in the date by '-' when shorter, and is the whole date when the date has no '-' |
| `Display.GenreLine` | src/App.js:195 | no genres give the empty line; one genre gives its name |
| `Display.GenreLineSplitsBack` | src/App.js:195 | genre names without spaces can be split back from the genre line, in order |
| `Display.TotalResults` | src/App.js:33 | the count is the body's `total_results` when present (0 included) and 0 when the body or the field is missing |
| `Display.Movies` | src/App.js:34 | the list is the body's `results` whenever present, even empty, and the empty list otherwise |
| `Display.SearchListCount` | src/App.js:87-101 | at most 2 lists render; 2 exactly at width 751 with results; 0 exactly below 751 without results; 1 above 751; below 751, 1 iff there are results |
| `Storage.Hydrate` | src/App.js:28-31 | a missing item or an empty string gives the empty list; a saved list loads as itself; any other text is a parse failure |
| `Storage.Persist` | src/App.js:46-51 | the watched key then holds the whole list; other keys are unchanged |
| `Storage.LoadAfterSave` | src/App.js:28-51 | loading after a save returns exactly the saved list |
| `Storage.SaveOverwrites` | src/App.js:48 | two saves leave the same store as the last one alone: a save overwrites and never appends |
| `Controller.Toggle` | src/App.js:38-40 | the selection becomes empty iff the id equals the current selection or is null; otherwise it becomes the id |
| `Controller.ToggleTwice` | src/App.js:38-40 | toggling the same id twice gives no selection, unless that id was already selected, in which case it stays selected |
| `Controller.GoBackClears` | src/App.js:278-280 | the go-back arrow, which toggles with null, always clears the selection |
| `Controller.DetailsMounted` | src/App.js:107-124 | the detail panel and the go-back arrow are mounted iff the selection is a non-zero id (`!currentMovie` is false) |
| `Controller.App.AddOffered` | src/App.js:194-249 | the add button renders iff a detail record is loaded and its id is not among the watched ids |
| `Controller.App.constructor` | src/App.js:24-31 | mounting starts with an empty query, a search state with neither count nor results, no selection, the hydrated list, and that list written back to the store |
| `Controller.App.SetQuery` | src/App.js:155-160 | typing replaces the query and changes nothing else |
| `Controller.App.ClearQueryOnEnter` | src/App.js:136-141 | Enter outside the search box clears the query; inside it nothing changes |
| `Controller.App.ReceiveSearchResults` | src/App.js:63-64 | a search body replaces the search state and changes nothing else |
| `Controller.App.SelectCurrentMovie` | src/App.js:38-40 | the selection becomes the toggle of the old one; the detail record is dropped and the panel instance ends when the panel unmounts; otherwise both are kept |
| `Controller.App.ReceiveMovieDetail` | src/App.js:200-213 | a detail body is stored when the panel instance that fetched it is still mounted, whatever movie id it is for, and dropped otherwise |
| `Controller.App.AddMovie` | src/App.js:42-51 | the list becomes the old list plus the movie: one longer, same prefix, movie last; the store is overwritten with the new list |
| `Controller.App.PressAddButton` | src/App.js:249-261 | when the add button is offered: appends the detail's record, which is then on the list, and clears detail and selection, ending the panel instance; otherwise nothing changes; distinct ids stay distinct |
| `Controller.App.PressGoBack` | src/App.js:275-286 | while a movie is selected the arrow clears the selection and the detail record and ends the panel instance; otherwise there is no arrow and nothing changes |
| `Controller.Start` | src/App.js:28-31 | startup fails exactly when the stored text does not parse; otherwise the app mounts with the hydrated list |
| `Controller.ReloadGivesCurrentList` | src/App.js:46-51 | after any sequence of handlers, reading the store back returns the current watched list |

## Left out

- The search and detail `fetch` calls, the 500 ms `setTimeout` debounce and the `AbortController` cancellation (src/App.js:53-77, 200-213). They are network I/O and timing. Their results enter the model as the `ReceiveSearchResults` and `ReceiveMovieDetail` events, which may arrive in any order.
- The search URL and its query string. The code interpolates the query as it is, without URL encoding. This belongs to the network call and is not modelled.
- `JSON.stringify`/`JSON.parse` and `localStorage` as real APIs. The store is a map from key to entry, where an entry is either a saved list or text that does not parse as one. A parse that yields something other than a list counts as garbled.
- The `useInnerWidth` resize listener and the keydown/focus plumbing (src/App.js:5-21, 134-150). The width is a parameter of `Display.SearchListCount`. The Enter handler appears only as its effect on the query.
- JSX rendering, CSS class selection (including the "selected" marker on a card), poster URL and placeholder construction, and the "N movies watched" count. These are presentation only.
- React's scheduling: effect order and re-render timing. Each handler is modelled as one step that includes the persist effect it triggers.
- Records without the fields the rendering reads make the source throw while rendering. This covers detail bodies without `title`, `overview` or `genres`. It also covers search results and stored watched entries without `title` or `release_date`, where `title.length` or `year.split` throws. `Records.MovieRecord` and `Records.MovieDetail` always have these fields, so `Display.TitleLine` and `Display.ReleaseYear` have no error path.
- Display.Truncate, Display.TitleLine and Display.OverviewLine: lengths count Unicode scalar values, while JavaScript's `length` and `slice` count UTF-16 code units. A text with characters above U+FFFF is therefore cut at a different point than the source cuts it. A cut that splits a surrogate pair cannot be represented, because a lone surrogate is not a Dafny `char`. Texts made only of characters up to U+FFFF are cut exactly as in the source.
