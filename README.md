# Met Art Gallery: navigation and search, in Dafny

This project models the logic of a one-screen Android gallery app. The screen shows one artwork from a fixed catalog of nine. It has a Previous and a Next button and a search field. Typing in the field jumps to the first artwork whose artist name contains the typed text, ignoring letter case.

The logic sits in `MainActivity`: the catalog, the mutable `currentIndex`, and three handlers. The search text is held by the screen's composable and passed to the search callback on every change. The rest of the file is layout and is not modelled.

The project has four modules, one file each:

- `text.dfy` (module `Text`): the case-insensitive containment test `artist.contains(query, ignoreCase = true)`. It is written as the library's scan: try each start position in order and compare the region there character by character, after case folding. It is proved equal to a reference meaning: the folded query is a substring of the folded name.
- `catalog.dfy` (module `Catalog`): the `Artwork` record, the nine-entry catalog, and `indexOfFirst` over artist names. Like Kotlin's, the lookup answers -1 when nothing matches.
- `gallery.dfy` (module `Gallery`): the transitions as functions of the old state (`AfterPrevious`, `AfterNext`, `AfterSearch`, `Step` over the events `PreviousClick`, `NextClick` and `ValueChange`). Beside them, the class `MainActivity` has the fields `artworks`, `currentIndex` and `searchQuery`. Its handlers update those fields in place. `OnPreviousClick`, `OnNextClick` and `OnValueChange` are proved to agree with `Step` on their event; the search callback `OnSearch` is not an event of its own and is proved to agree with `AfterSearch`. The bounds invariant `0 <= currentIndex < |artworks|` is `Valid()`. The render path relies on it when it reads `artworks[currentIndex]` without a check.
- `scenario.dfy` (module `Scenario`): the behaviour on the real catalog. It covers the searches for "jung", "JUNG", "abdul", "Schiele" and a name no artist has. It also covers the session Next, Next, type "Schiele", Previous, which shows indices 1, 2, 7 and 6. The session is proved twice: once on the transition functions, and once through the class's handlers.

Two details of the handlers shape the model:

- Previous and Next are guarded steps (`if (currentIndex > 0) currentIndex--` at MainActivity.kt:50, and the matching increment at :51). At the first and the last artwork they do nothing.
- The text field's change handler stores the query and then calls the search (:126-128). The search callback itself (:52-56) does not store it.

## Model

| member | source | states |
|---|---|---|
| `Text.Fold` | app/src/main/java/com/example/metartgalleryapp/MainActivity.kt:53 | the case fold of one character used by the case-insensitive comparison: its result is never an upper-case ASCII letter, and only upper-case ASCII letters are changed by it; `FoldSameIff` states which characters fold alike |
| `Text.FoldSameIff` | app/src/main/java/com/example/metartgalleryapp/MainActivity.kt:53 | two characters fold alike exactly when they are equal or one is the upper-case ASCII letter of the other, so `Lower(q1) == Lower(q2)` in the case lemmas means "differ only in letter case" |
| `Text.Lower` | app/src/main/java/com/example/metartgalleryapp/MainActivity.kt:53 | folding a string leaves no upper-case ASCII letter in it, and a string without upper-case letters is its own fold |
| `Text.ContainsIgnoreCase` | app/src/main/java/com/example/metartgalleryapp/MainActivity.kt:53 | `artist.contains(query, ignoreCase = true)`, written as the scan over start positions (`ContainsFrom`) with the region comparison `RegionMatchesFrom`: a contained query is never longer than the name, and the empty query is contained in every name |
| `Text.RegionMatchesFromIff` | app/src/main/java/com/example/metartgalleryapp/MainActivity.kt:53 | `RegionMatchesFrom`, the comparison of the query with one region of the name character by character, succeeds exactly when every pair of characters has the same case fold |
| `Text.ContainsFromIff` | app/src/main/java/com/example/metartgalleryapp/MainActivity.kt:53 | `ContainsFrom`, the scan over start positions from a given one, succeeds exactly when some start position at or after it has a matching region |
| `Text.ContainsIgnoreCaseIff` | app/src/main/java/com/example/metartgalleryapp/MainActivity.kt:53 | `contains(query, ignoreCase = true)` holds exactly when the folded query is a contiguous substring of the folded name |
| `Text.ContainsIgnoresQueryCase` | app/src/main/java/com/example/metartgalleryapp/MainActivity.kt:53 | two queries that differ only in letter case are contained in exactly the same names |
| `Text.ContainsIgnoresSubjectCase` | app/src/main/java/com/example/metartgalleryapp/MainActivity.kt:53 | two names that differ only in letter case contain exactly the same queries |
| `Text.NotContainedWhenFirstAbsent` | app/src/main/java/com/example/metartgalleryapp/MainActivity.kt:53 | a query whose first character does not occur in the name, ignoring case, is not contained |
| `Text.NotContainedWhenPairAbsent` | app/src/main/java/com/example/metartgalleryapp/MainActivity.kt:53 | a query whose first two characters never occur side by side in the name, ignoring case, is not contained |
| `Catalog.Artworks` | app/src/main/java/com/example/metartgalleryapp/MainActivity.kt:26-36 | the catalog is non-empty: it holds exactly nine artworks, so the render's unchecked index has somewhere to point |
| `Catalog.ArtistMatches` | app/src/main/java/com/example/metartgalleryapp/MainActivity.kt:53 | the predicate `indexOfFirst` applies to each artwork, `it.artist.contains(query, ignoreCase = true)`: a matching query is never longer than the artist name, and the empty query matches every artwork |
| `Catalog.IndexOfFirstFrom` | app/src/main/java/com/example/metartgalleryapp/MainActivity.kt:53 | the scan from a start position answers -1 exactly when no later artist matches; otherwise it answers a matching position with no match between the start and it |
| `Catalog.IndexOfFirst` | app/src/main/java/com/example/metartgalleryapp/MainActivity.kt:53 | `indexOfFirst` answers -1 exactly when no artist contains the query; otherwise it answers a matching index, and every earlier artist does not match |
| `Catalog.IndexOfFirstUnique` | app/src/main/java/com/example/metartgalleryapp/MainActivity.kt:53 | any index that matches, with no earlier match, is the one `indexOfFirst` answers |
| `Catalog.IndexOfFirstFromIgnoresCase` | app/src/main/java/com/example/metartgalleryapp/MainActivity.kt:53 | from any start position, queries differing only in letter case find the same artwork |
| `Catalog.IndexOfFirstIgnoresCase` | app/src/main/java/com/example/metartgalleryapp/MainActivity.kt:53 | queries differing only in letter case find the same artwork |
| `Catalog.EmptyQueryFindsFirst` | app/src/main/java/com/example/metartgalleryapp/MainActivity.kt:53 | on a non-empty catalog the empty query finds index 0 |
| `Gallery.AfterPrevious` | app/src/main/java/com/example/metartgalleryapp/MainActivity.kt:50 | the index after Previous: from a non-negative index it never goes below 0 nor forward, and above 0 it moves exactly one step back |
| `Gallery.AfterNext` | app/src/main/java/com/example/metartgalleryapp/MainActivity.kt:51 | the index after Next: it never moves back, it stays below the catalog size when it started there, and below `size - 1` it moves exactly one step forward |
| `Gallery.AfterSearch` | app/src/main/java/com/example/metartgalleryapp/MainActivity.kt:52-56 | the index after a search is either the old index or the position of an artwork whose artist contains the query |
| `Gallery.Step` | app/src/main/java/com/example/metartgalleryapp/MainActivity.kt:50-56 | one user event applied to the state (index and search text): only a change of the search field changes the search text, and it stores exactly the typed text |
| `Gallery.Trace` | app/src/main/java/com/example/metartgalleryapp/MainActivity.kt:50-56 | the indices shown after each event of a sequence: one per event, and the last one is the index of the state `Run` reaches |
| `Gallery.Run` | app/src/main/java/com/example/metartgalleryapp/MainActivity.kt:50-56 | the state after a whole sequence of events: when no event is a change of the search field, the search text is unchanged |
| `Gallery.TraceEntries` | app/src/main/java/com/example/metartgalleryapp/MainActivity.kt:50-56 | every index the trace shows is the index of the state reached by the events up to and including that one |
| `Gallery.PreviousKeepsBounds` | app/src/main/java/com/example/metartgalleryapp/MainActivity.kt:50 | Previous keeps an in-bounds index in bounds and never moves forward |
| `Gallery.NextKeepsBounds` | app/src/main/java/com/example/metartgalleryapp/MainActivity.kt:51 | Next keeps an in-bounds index in bounds and never moves back |
| `Gallery.SearchKeepsBounds` | app/src/main/java/com/example/metartgalleryapp/MainActivity.kt:52-56 | a search keeps an in-bounds index in bounds, whether or not it finds a match |
| `Gallery.StepKeepsBounds` | app/src/main/java/com/example/metartgalleryapp/MainActivity.kt:50-56 | every user event keeps the index in bounds |
| `Gallery.RunKeepsBounds` | app/src/main/java/com/example/metartgalleryapp/MainActivity.kt:73 | from an in-bounds index, every index shown along any sequence of events is in bounds, so the unchecked `artworks[currentIndex]` never fails |
| `Gallery.InitialInBounds` | app/src/main/java/com/example/metartgalleryapp/MainActivity.kt:37 | the initial index 0 is in bounds on any non-empty catalog |
| `Gallery.PreviousThenNext` | app/src/main/java/com/example/metartgalleryapp/MainActivity.kt:50-51 | away from the first artwork, Previous then Next returns to the same index |
| `Gallery.NextThenPrevious` | app/src/main/java/com/example/metartgalleryapp/MainActivity.kt:50-51 | away from the last artwork, Next then Previous returns to the same index |
| `Gallery.SearchSelectsFirstMatch` | app/src/main/java/com/example/metartgalleryapp/MainActivity.kt:53-55 | when some artist contains the query, the search shows the first such artwork, whatever the old index |
| `Gallery.SearchWithoutMatchKeepsIndex` | app/src/main/java/com/example/metartgalleryapp/MainActivity.kt:54 | when no artist contains the query, the index is unchanged: a no-op, not an error |
| `Gallery.SearchIdempotent` | app/src/main/java/com/example/metartgalleryapp/MainActivity.kt:52-56 | searching twice for the same text gives the index that searching once gives |
| `Gallery.ValueChangeIdempotent` | app/src/main/java/com/example/metartgalleryapp/MainActivity.kt:126-128 | typing the same text twice leaves the whole state (index and search text) as typing it once |
| `Gallery.SearchIgnoresCase` | app/src/main/java/com/example/metartgalleryapp/MainActivity.kt:53 | queries that differ only in letter case show the same artwork |
| `Gallery.EmptySearchSelectsFirst` | app/src/main/java/com/example/metartgalleryapp/MainActivity.kt:53-55 | an empty search field shows the first artwork of a non-empty catalog, from any index |
| `Gallery.MainActivity.constructor` | app/src/main/java/com/example/metartgalleryapp/MainActivity.kt:26-37 | the activity starts with the fixed catalog, index 0 and an empty search text, and satisfies the bounds invariant |
| `Gallery.MainActivity.Displayed` | app/src/main/java/com/example/metartgalleryapp/MainActivity.kt:73 | reading the artwork to render needs only the bounds invariant, and what it reads is an artwork of the catalog (the one at `currentIndex`) |
| `Gallery.MainActivity.OnPreviousClick` | app/src/main/java/com/example/metartgalleryapp/MainActivity.kt:50 | the index drops by one when above 0 and is otherwise unchanged; no other field changes; the result is `Step` on `PreviousClick`; the invariant is preserved |
| `Gallery.MainActivity.OnNextClick` | app/src/main/java/com/example/metartgalleryapp/MainActivity.kt:51 | the index rises by one when below `size - 1` and is otherwise unchanged; no other field changes; the result is `Step` on `NextClick`; the invariant is preserved |
| `Gallery.MainActivity.OnSearch` | app/src/main/java/com/example/metartgalleryapp/MainActivity.kt:52-56 | with a match, the index becomes the first matching artwork; without one, it is unchanged; the search text is untouched; the invariant is preserved |
| `Gallery.MainActivity.OnValueChange` | app/src/main/java/com/example/metartgalleryapp/MainActivity.kt:126-128 | the raw text is stored and then searched for; the new state is `Step` on `ValueChange(text)`; the invariant is preserved |
| `Scenario.SearchJung` | app/src/main/java/com/example/metartgalleryapp/MainActivity.kt:52-56 | on the real catalog, "jung" and "JUNG" both show index 1 (Moriz Jung) |
| `Scenario.SearchAbdul` | app/src/main/java/com/example/metartgalleryapp/MainActivity.kt:52-56 | on the real catalog, "abdul" shows index 0 (C. Abdul) |
| `Scenario.SearchSchiele` | app/src/main/java/com/example/metartgalleryapp/MainActivity.kt:52-56 | on the real catalog, "Schiele" shows index 7 (Egon Schiele) from any index |
| `Scenario.SearchNoSuchArtist` | app/src/main/java/com/example/metartgalleryapp/MainActivity.kt:52-56 | on the real catalog, "zzz-no-such-artist" leaves any index unchanged |
| `Scenario.SessionTraceOn` | app/src/main/java/com/example/metartgalleryapp/MainActivity.kt:50-56 | on any catalog whose first "Schiele" match is at 7, Next, Next, typing "Schiele", Previous shows 1, 2, 7, 6 |
| `Scenario.SessionTrace` | app/src/main/java/com/example/metartgalleryapp/MainActivity.kt:50-56 | from the first artwork of the real catalog, Next, Next, typing "Schiele", Previous shows 1, 2, 7, 6 |
| `Scenario.SessionOn` | app/src/main/java/com/example/metartgalleryapp/MainActivity.kt:50-56 | the same session, driven through the activity's handlers, shows 1, 2, 7, 6 |
| `Scenario.Session` | app/src/main/java/com/example/metartgalleryapp/MainActivity.kt:26-56 | on a freshly created activity, the session shows 1, 2, 7, 6 |

## Left out

- The Compose layout and rendering (`ArtGallery`'s column, image, texts, buttons, search row, placeholder text, colours, padding, scrolling) at MainActivity.kt:65-142: it is presentation and has no logic. Only the unchecked read `artworks[currentIndex]` (:73) is kept, as `Displayed`.
- The Android lifecycle, `setContent`, the theme and the preview composable (:39-46, :146-168): platform plumbing.
- Reactive recomposition (`mutableIntStateOf`, `remember`): modelled as plain fields updated by methods. Everything runs on the UI thread, so there is no concurrency to capture.
- `searchQuery` lives in the composable (`remember`, :110), not in the activity. The model keeps it as a field of `MainActivity` beside `currentIndex`, so that one object holds the whole screen state.
- `Text.Fold`: the model folds only the ASCII letters A to Z and reads a string as a sequence of Unicode scalar values. Kotlin compares UTF-16 code units, and two characters are equal ignoring case when their upper-case forms or their lower-case forms agree. So in the app a few non-ASCII characters match ASCII letters: the dotless "ı" and the long "ſ" match "i" and "s", and the Kelvin sign (U+212A) matches "k". Typing "ı" shows Moriz Jung (index 1) in the app, but leaves the index unchanged in the model. The case-insensitivity lemmas hold for the ASCII fold only.
- Image resource identifiers (`R.drawable.*`) are assigned by the Android build. The model gives them arbitrary distinct integers; nothing depends on their values.
- Kotlin's 32-bit `Int` for `currentIndex`: the index stays between 0 and the catalog size, and the lookup answers at least -1, so wrap-around cannot occur and integers are unbounded here.
- An empty catalog: the app's catalog is a fixed list of nine, so the activity can never have one. The general lemmas about the transitions hold for any catalog, and the bounds lemmas assume a non-empty one.
