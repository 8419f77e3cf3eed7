# Harmony movie browser: a Dafny model of its logic

Harmony is a React Native app for browsing, searching and favoriting movies
from the TMDB metadata service. Most of it is layout. This project models the
small part that has logic:

- **Favorites store** (`favorites.dfy`). `FavoritesStore` is the provider's
  state. It holds the in-memory list of movie records (`favorites`) and the
  durable `@favorites` slot (`stored`). Add appends without deduplication.
  Remove filters out every entry with the id and keeps the rest in order.
  Membership is an id scan. Each mutation publishes the new list first and
  then writes it to the slot. The write can fail (`writeOk == false`). A
  failed write leaves the slot as it was, so memory and the slot disagree
  whenever the new list differs from what the slot held. Hydration replaces the list only when
  the slot holds non-empty text that parses.
- **API client** (`tmdb.dfy`). The image URL builder, with its `w500`
  default, is modelled together with an inverse that reads the path back.
  The fetchers' failure policy is modelled over an abstract transport
  outcome: a list fetcher gives `[]` on error, the detail fetcher gives null.
- **Details screen** (`movie_details.dfy`). The favorite toggle is a method
  over the store, backed by the pure `Toggled`. The screen also shows the
  release year and caps the cast at 10.
- **Search screen** (`search.dfy`). The debounce is a state machine over
  the abstract events `Change(q)`, `Fire` and `Respond(o)`. `Step` and `Run`
  give its meaning. The class `SearchScreen` implements it as component
  state: `ChangeQuery`, `TimerFires` and `SearchResponds` are each proved
  equal to one `Step`, and `PerformSearch` is the part of `TimerFires` that
  issues a request. The file also
  models the empty-list message and the year of each result.
- `strings.dfy` models JavaScript's `length` (UTF-16 code units) and
  `split(sep)[0]`. `movies.dfy` holds the record types and `wrappers.dfy`
  holds `Option`.

Behaviour of the code worth knowing:

- The search threshold is `query.length > 2` on the untrimmed query
  (src/screens/SearchScreen.js:17): three spaces trigger a search
  (`Search.SpacesAreSearched`), and no request is ever sent for a shorter
  query (`Search.RunRequestsPassThreshold`).
- `length` counts UTF-16 code units. A query of two characters outside the
  Basic Multilingual Plane already passes the threshold
  (`Search.AstralPairIsSearched`).
- The effect depends on `[query]`, so setting the query to the value it
  already has neither cancels nor re-arms the timer (`Step` on `Change`).
- Memory moves before the write, and a failed `setItem` is only logged
  (src/context/FavoritesContext.js:27-30), so memory and the slot can
  disagree. `AddFavorite` and `RemoveFavorite` state this divergence.

Parameters stand in for everything outside the model. `readOk` and `writeOk`
are the outcomes of `AsyncStorage.getItem` and `setItem`. An `Outcome` value
is the result of an HTTP request. `Fire` is a timer whose 500 ms elapsed.
JSON is an abstract pair: `Serialize` gives `Json(items)`, `Parse` reads it
back, and `Text(raw)` is any other text, which does not parse.

## Model

| member | source | states |
|---|---|---|
| `Strings.Utf16Length` | src/screens/SearchScreen.js:17 | JavaScript's `length` of a string, in UTF-16 code units. It lies between the character count and twice that |
| `Strings.Utf16LengthOfBmp` | src/screens/SearchScreen.js:75 | For text inside the Basic Multilingual Plane, the JavaScript length equals the character count |
| `Strings.FirstField` | src/screens/MovieDetailsScreen.js:84 | `split(sep)[0]` is a prefix of the string with no separator in it, and it is either the whole string or is followed by the separator |
| `Strings.FirstFieldUnique` | src/screens/SearchScreen.js:48 | Those three properties determine `split(sep)[0]` uniquely |
| `Tmdb.Truthy` | src/api/tmdb.js:69 | `!path` is false exactly for a path that is neither null/undefined nor the empty string |
| `Tmdb.EffectiveSize` | src/api/tmdb.js:68 | The size parameter after its default applies: the given size, or `w500` when it is omitted |
| `Tmdb.ImageUrl` | src/api/tmdb.js:68-71 | The result is null exactly when the path is falsy (absent or empty). Otherwise it is the CDN prefix, then the size (`w500` when omitted), then the path |
| `Tmdb.ImagePath` | src/api/tmdb.js:70 | A path read back from a URL is non-empty, and the URL is the prefix, the size and that path |
| `Tmdb.ImagePathOfImageUrl` | src/api/tmdb.js:68-71 | Reading back the path of a built URL gives the original path |
| `Tmdb.ImageUrlContainsSizeAndPath` | src/api/tmdb.js:70 | A built URL contains both the size and the path |
| `Tmdb.ImageUrlDefaultSize` | src/components/MovieCard.js:15 | Calling without a size is the same as calling with `w500` |
| `Tmdb.ListResult` | src/api/tmdb.js:14-54 | The four list fetchers give the page's `results` on success and `[]` on any error |
| `Tmdb.DetailsResult` | src/api/tmdb.js:56-66 | The detail fetcher gives the body exactly on success and null on any error |
| `Favorites.Serialize` | src/context/FavoritesContext.js:28 | Serialized text is truthy and parses back to the same list |
| `Favorites.Parse` | src/context/FavoritesContext.js:17 | `JSON.parse` of the slot text. It succeeds exactly on a serialized list, and the text is then the serialization of the result |
| `Favorites.Truthy` | src/context/FavoritesContext.js:16 | The `if (storedFavorites)` guard: only the empty text is falsy |
| `Favorites.Hydrated` | src/context/FavoritesContext.js:13-21 | Hydration yields the parsed slot content, or else the current list. The current list is kept when the key is missing, the text is empty or parsing fails |
| `Favorites.HydrateAfterWrite` | src/context/FavoritesContext.js:15-17 | Hydrating from a slot written with a list restores exactly that list |
| `Favorites.Contains` | src/context/FavoritesContext.js:44-46 | `isFavorite(id)` holds exactly when some entry has that id |
| `Favorites.WithoutId` | src/context/FavoritesContext.js:36 | The filtered list is no longer than the input. It holds exactly the input's entries whose id differs |
| `Favorites.WithoutIdKeepsOrder` | src/context/FavoritesContext.js:36 | The filter keeps the surviving entries in their original order |
| `Favorites.WithoutIdMultiplicity` | src/context/FavoritesContext.js:36 | The filter keeps each entry with another id as often as it occurred, and keeps no entry with the id |
| `Favorites.WithoutAbsentId` | src/context/FavoritesContext.js:36 | Removing an id that is not present leaves the list unchanged |
| `Favorites.WithoutIdAppend` | src/context/FavoritesContext.js:36 | Filtering distributes over concatenation |
| `Favorites.ContainsIffCounted` | src/context/FavoritesContext.js:45 | An id is a favorite exactly when its count is positive |
| `Favorites.CountIdAppend` | src/context/FavoritesContext.js:26 | The count of an id is additive over concatenation |
| `Favorites.AppendAddsOne` | src/context/FavoritesContext.js:26 | Appending a movie always adds one to its id's count, with no deduplication |
| `Favorites.AppendPresentDuplicates` | src/context/FavoritesContext.js:26 | Adding a movie whose id is already present leaves at least two entries with that id |
| `Favorites.AddThenRemove` | src/context/FavoritesContext.js:26-38 | Removing the id right after an add gives the same list as removing it without the add |
| `Favorites.FavoritesStore.constructor` | src/context/FavoritesContext.js:7 | The store starts with an empty list, and the slot is whatever the device holds |
| `Favorites.FavoritesStore.IsFavorite` | src/context/FavoritesContext.js:44-46 | `isFavorite(movieId)` on the store's current list holds exactly when some entry has that id |
| `Favorites.FavoritesStore.LoadFavorites` | src/context/FavoritesContext.js:13-22 | The slot is unchanged. After a successful read the list is `Hydrated` from the slot. After a failed read it is unchanged |
| `Favorites.FavoritesStore.AddFavorite` | src/context/FavoritesContext.js:24-32 | The list becomes the old list with the movie appended, and the movie is a favorite. The slot holds the new list exactly when the write succeeded. A failed write leaves a store that was in sync out of sync |
| `Favorites.FavoritesStore.RemoveFavorite` | src/context/FavoritesContext.js:34-42 | The list becomes the filtered old list and the id is no longer a favorite. An absent id leaves the list unchanged. The slot holds the new list exactly when the write succeeded. A failed write leaves a synced store out of sync exactly when something was removed |
| `MovieDetails.Toggled` | src/screens/MovieDetailsScreen.js:31-37 | The list a toggle produces. Entries with any other id are present exactly as before, and the list grows by at most one |
| `MovieDetails.ToggleFlips` | src/screens/MovieDetailsScreen.js:31-37 | A toggle negates whether the movie is a favorite |
| `MovieDetails.ToggleTwiceRestores` | src/screens/MovieDetailsScreen.js:31-37 | Starting with no entry of that id, two toggles restore the original list |
| `MovieDetails.ToggleTwiceFromFavorite` | src/screens/MovieDetailsScreen.js:31-37 | Starting from a favorite, two toggles keep the other entries in order and leave one copy of the movie at the end |
| `MovieDetails.ToggleFavorite` | src/screens/MovieDetailsScreen.js:31-37 | A present movie is removed by id and an absent one is added. Membership flips, and the slot is written as for add and remove |
| `MovieDetails.ShownYear` | src/screens/MovieDetailsScreen.js:84 | Without a date nothing is shown. Otherwise the shown year is the part of the date before its first `-` |
| `MovieDetails.ShownCast` | src/screens/MovieDetailsScreen.js:104-108 | The section appears exactly when the cast exists and is non-empty. It then shows the first min(10, cast size) members in order |
| `Search.ShouldSearch` | src/screens/SearchScreen.js:17 | The threshold `query.length > 2` on the untrimmed query. A passing query has at least two characters |
| `Search.Step` | src/screens/SearchScreen.js:15-32 | One event of the debounce state machine. The request log only grows, by at most one entry, and only on a `Fire` whose armed timer held that query |
| `Search.EmptyMessage` | src/screens/SearchScreen.js:75-79 | The text is "No movies found" exactly when the query passes the threshold, and "Search for movies..." exactly when it does not |
| `Search.ResultYear` | src/screens/SearchScreen.js:48 | The year is "N/A" when the date is absent or empty. Otherwise it is the part of the date before its first `-` |
| `Search.InitialTimerOnLatest` | src/screens/SearchScreen.js:10-25 | At mount, the single armed timer belongs to the current (empty) query |
| `Search.StepKeepsTimerOnLatest` | src/screens/SearchScreen.js:15-25 | Every event keeps the one pending timer on the latest query |
| `Search.RunKeepsTimerOnLatest` | src/screens/SearchScreen.js:15-25 | The same holds over any sequence of events |
| `Search.TypingEffect` | src/screens/SearchScreen.js:15-25 | A burst of query changes issues no request and leaves results and loading alone. After it the query is the last value, and once the query moved the only armed timer is for that value |
| `Search.BurstThenFire` | src/screens/SearchScreen.js:15-32 | A burst followed by one firing issues exactly one request, for the final query, when it passes the threshold. Otherwise it issues none and clears the results |
| `Search.FireIssuesAtMostOne` | src/screens/SearchScreen.js:16-22 | A firing issues at most one request, only for the current query, and disarms the timer |
| `Search.FireTwice` | src/screens/SearchScreen.js:16-22 | A timer fires once, so a second firing changes nothing |
| `Search.LongQueryIsSearched` | src/screens/SearchScreen.js:17 | Every query of more than two characters passes the threshold |
| `Search.RequestsPassThreshold` | src/screens/SearchScreen.js:16-22 | Every event keeps the property that each issued request passed the threshold |
| `Search.RunRequestsPassThreshold` | src/screens/SearchScreen.js:16-22 | Starting from a state whose requests all passed the threshold (mount has none), over any sequence of events, no query at or below the threshold ever reaches `searchMovies` |
| `Search.SpacesAreSearched` | src/screens/SearchScreen.js:17 | The query is not trimmed: three spaces pass the threshold |
| `Search.AstralPairIsSearched` | src/screens/SearchScreen.js:17 | Two characters outside the Basic Multilingual Plane pass the threshold |
| `Search.SearchScreen.constructor` | src/screens/SearchScreen.js:10-25 | After mount: an empty query, no results, not loading, a timer armed for "" and no requests |
| `Search.SearchScreen.ChangeQuery` | src/screens/SearchScreen.js:15-25 | One `Change` step. A new value cancels the old timer and arms one for it |
| `Search.SearchScreen.TimerFires` | src/screens/SearchScreen.js:16-22 | One `Fire` step: search when the query passes the threshold, otherwise clear the results |
| `Search.SearchScreen.PerformSearch` | src/screens/SearchScreen.js:27-29 | Loading turns on, and the query is added to the outstanding and issued requests. Nothing else changes |
| `Search.SearchScreen.SearchResponds` | src/screens/SearchScreen.js:29-31 | One `Respond` step. The results become what `searchMovies` returned, and loading turns off |

## Left out

- Rendering, styles and layout are not modelled. This covers every JSX tree, the `Dimensions` sizes, and the HomeScreen, FavoritesScreen, MovieCard, MovieList, SearchBar, SectionHeader, AppNavigator and App.js components.
- The HTTP requests themselves are not modelled: the axios client, the API key and locale, the endpoint paths and the `append_to_response` parameter. Each fetch is an `Outcome` parameter.
- Tmdb.ListResult: a delivered page is assumed to carry `results`. A body without it, which the code would return as `undefined`, is not represented.
- AsyncStorage and JSON are abstract. `Stored` separates a serialized list from text that does not parse. Valid JSON that is not a list of records is not represented.
- Favorites.FavoritesStore.LoadFavorites: the race between hydration and an early mutation, and the stale `favorites` captured by add and remove, are async interleavings and are not modelled. Operations run one after another on the current state.
- The `Promise.all` in HomeScreen is not modelled, nor is the details screen's own `fetchDetails` effect. Both only store a fetch result.
- Search.SearchScreen.SearchResponds: responses are taken oldest first. Out-of-order responses, which the code would also accept with no guard, are not modelled. The 500 ms delay is the `Fire` event.
- Logging is not modelled: the `console.error` calls in every catch block only write diagnostics (src/api/tmdb.js:19, 29, 39, 51, 63; src/context/FavoritesContext.js:20, 30, 40).
- Strings.Utf16Length: a Dafny `char` cannot be a lone surrogate, so JavaScript strings holding one (and queries typed with one) are not represented.
- Vote formatting (`toFixed(1)`) is floating point and is not modelled.
- Navigation (`navigate`, `push`, `goBack`) belongs to an external library and is not modelled.
- Record fields that the modelled logic never reads (overview, runtime, genres, similar movies, vote average) are left out of `Movie`.
- An explicit `null` size would be written into the URL as `null`. No caller passes one, so it is not modelled. An omitted size is `None`.
