# T'CHIN browse logic in Dafny

T'CHIN is a single-page React client for finding bars and booking a table. Nearly all of
`App.jsx` is rendering. This project models the small amount of logic inside it:

- **Filter engine** (`Bars`): the bars shown on the "Bars" page. The input is the loaded
  list of bars, a free-text query, the selected ambiance tags, the selected drink tags and
  an accessible-only switch. A bar is kept when every check passes:
  - the query is empty, or the lowered query occurs in the lowered name or city;
  - every selected ambiance tag is on the bar;
  - every selected drink tag is on the bar;
  - the switch is off, or the bar is accessible.

  Input order is kept. A missing `ambiances` or `drinks` field counts as an empty list.
- **Tag vocabularies** (`Vocabulary`): the ambiance and drink pills. Each is the set of
  tags carried by some loaded bar, without duplicates, in first-occurrence order
  (`Array.from(new Set(bars.flatMap(...)))`).
- **Pill toggling** (`Toggle`): clicking a pill appends its tag to the selection when it is
  not selected and removes every copy of it when it is.
- **Routing** (`Routing`): the current page is a string (`"home"`, `"bars"`, `"events"`,
  `"profile"` or `"bar:<id>"`). This module covers:
  - decoding `"bar:<id>"` with `split(':')[1]`;
  - the first bar with that id (`find`);
  - the highlighted "Bars" navigation button;
  - the value shown by the mobile page selector.

  A `Page` datatype names the page each route decodes to. What `main` actually shows also
  depends on the loaded bars: a detail route shows nothing until a bar with its id is loaded.
- **Booking status** (`Booking`): `BookingForm` is a class with a `status` field. `submit`
  first sets it to "loading". It then sets "ok" only when the response body parsed as
  JSON and `res.ok` held, and "err" in every other case. The outcome of the network calls
  is an input (`FetchOutcome`). `Begin` and `Finish` are the parts of `submit` before and
  after its `await`s, so overlapping submissions can be described.

`Wrappers` holds `Option`. `Seqs` holds duplicate-freeness and subsequences. `Text` holds
the string primitives: ASCII lowering, `includes`, `startsWith` and `split`.

Three details of the booking and filter code the model keeps:
- The booking form succeeds on any `res.ok` status (2xx), not only 200.
- The booking form also needs a body that parses as JSON. A 2xx reply with an unparsable
  body ends in "err".
- The selected tags are lists, not sets. Toggling keeps them duplicate-free, and
  `SameSelectionSameResults` shows that only their membership matters to the filter.

## Model

| member | source | states |
|---|---|---|
| `Text.LowerChar` | App.jsx:80 | lowering maps `A`..`Z` onto `a`..`z`, keeps every other character, and never yields an upper-case ASCII letter |
| `Text.Lower` | App.jsx:80 | `toLowerCase` keeps the length and lowers each character in place |
| `Text.LowerIdempotent` | App.jsx:80 | lowering an already lowered string changes nothing |
| `Text.Includes` | App.jsx:80 | `includes` holds exactly when the needle occurs at some position of the haystack |
| `Text.IncludesEmpty` | App.jsx:80 | the empty string is included in every string |
| `Text.IncludedCharsOccur` | App.jsx:80 | every character of an included needle occurs in the haystack |
| `Text.Split` | App.jsx:68 | `split` yields at least one piece and no piece contains the separator |
| `Text.JoinSplit` | App.jsx:68 | joining the pieces of `split` with the separator gives back the original string |
| `Text.SplitNoSep` | App.jsx:68 | a string without the separator splits into itself alone |
| `Text.SplitAtFirst` | App.jsx:68 | splitting `p + sep + q` with `p` separator-free gives `p` followed by the pieces of `q` |
| `Text.SplitFirstPiece` | App.jsx:68 | the first piece of `split` is the longest separator-free prefix |
| `Bars.IncludesAll` | App.jsx:81-82 | `every(includes)` holds exactly when each required tag is among the bar's tags |
| `Bars.Results` | App.jsx:78-86 | the results are an order-preserving subsequence of the bars; each matching bar is kept as often as it occurs and every other bar is dropped |
| `Bars.ResultsMembership` | App.jsx:79-85 | a bar is shown exactly when it is loaded and passes all four checks |
| `Bars.QueryOk` | App.jsx:80 | the text check passes exactly when the query is empty or the lowered query occurs at some position of the lowered name or of the lowered city |
| `Bars.TagsOk` | App.jsx:81-82 | a tag check passes exactly when every selected tag is among the bar's tags; the empty-selection shortcut changes no verdict |
| `Bars.AccessOk` | App.jsx:83 | with the switch on the check passes exactly for accessible bars; with it off every bar passes |
| `Bars.Matches` | App.jsx:79-84 | a bar passes exactly when the query is empty or occurs in its lowered name or city, it has every selected ambiance tag and every selected drink tag, and it is accessible if the switch is on |
| `Bars.NoCriteriaIsIdentity` | App.jsx:78-86 | with an empty query, no tag selected and the switch off, the results equal the loaded bars |
| `Bars.ResultsIdempotent` | App.jsx:78-86 | filtering the results again with the same inputs returns them unchanged |
| `Bars.MissingTagsExcluded` | App.jsx:81-82 | a bar with a missing or empty tag field is never shown once a tag of that category is selected |
| `Bars.OnlyAccessibleShown` | App.jsx:83 | with the switch on, every shown bar is accessible |
| `Bars.NarrowerShowsSubsequence` | App.jsx:78-86 | the same query, more selected tags and the switch turned on give a subsequence of the earlier results |
| `Bars.SameSelectionSameResults` | App.jsx:81-82 | the results depend only on which tags are selected, not on their order or repetition |
| `Bars.RooftopExample` | App.jsx:81 | selecting "Rooftop" over the Le Perchoir / Sous Sol sample keeps only Le Perchoir |
| `Bars.AccessibleExample` | App.jsx:83 | the accessible-only switch over the same sample keeps only Le Perchoir |
| `Bars.QueryExample` | App.jsx:80 | the query "LYO" over the same sample keeps only the Lyon bar |
| `Bars.QueryExampleVerdicts` | App.jsx:80 | "LYO" matches the city "Lyon" and neither "Le Perchoir" nor "Paris" |
| `Bars.EmptyCollection` | App.jsx:60 | while the bar list is empty (before loading, or after a rejected fetch or an unparsable body) no bar is shown |
| `Vocabulary.AllTags` | App.jsx:75-76 | the flattened tags are exactly the tags some bar carries, a missing field contributing none |
| `Vocabulary.Distinct` | App.jsx:75-76 | `Array.from(new Set(s))` has no duplicates and holds exactly the elements of `s` |
| `Vocabulary.DistinctOrder` | App.jsx:75-76 | the distinct elements come in the order of their first occurrence |
| `Vocabulary.FirstOccurrenceOrderUnique` | App.jsx:75-76 | two duplicate-free lists with the same elements, both in first-occurrence order, are equal |
| `Vocabulary.TagVocabulary` | App.jsx:75-76 | each vocabulary has no duplicates and holds exactly the tags carried by some bar, a bar without the field contributing none |
| `Vocabulary.VocabularyCharacterized` | App.jsx:75-76 | each vocabulary lists its tags in the order they first appear, bar after bar |
| `Vocabulary.VocabularyUnique` | App.jsx:75-76 | any duplicate-free list of exactly the carried tags in first-occurrence order is the vocabulary |
| `Vocabulary.DistinctOfNoDup` | App.jsx:75-76 | a duplicate-free list passes through the `Set` unchanged |
| `Toggle.Without` | App.jsx:136 | `filter(x => x !== a)` is a subsequence without `a` that keeps every other element as often as before |
| `Toggle.ToggleTag` | App.jsx:136 | a toggled tag is selected afterwards exactly when it was not selected before; other tags are unaffected; an absent tag goes at the end; a present tag is removed entirely and the rest keep their order |
| `Toggle.ToggleTwiceRestores` | App.jsx:136 | toggling an unselected tag twice restores the original selection |
| `Toggle.ToggleKeepsNoDup` | App.jsx:140 | toggling keeps a duplicate-free selection duplicate-free |
| `Toggle.WithoutAbsent` | App.jsx:136 | removing a tag that is not selected changes nothing |
| `Toggle.WithoutAppended` | App.jsx:136 | removing a tag from a list that ends in it also drops that last entry |
| `Toggle.ToggleAmbiance` | App.jsx:136 | clicking an ambiance pill flips whether its tag is selected, keeps every other tag's selection, and leaves the query, the drink selection and the switch alone |
| `Toggle.ToggleDrink` | App.jsx:140 | clicking a drink pill flips whether its tag is selected, keeps every other tag's selection, and leaves the query, the ambiance selection and the switch alone |
| `Toggle.ToggleAmbianceNarrowsOrWidens` | App.jsx:136 | selecting an ambiance pill yields a subsequence of the previous results; deselecting one yields a supersequence |
| `Toggle.ToggleDrinkNarrowsOrWidens` | App.jsx:140 | the same holds for drink pills |
| `Toggle.ToggleTwiceSameResults` | App.jsx:136 | clicking the same pill twice shows the same bars as before |
| `Routing.IsDrillDown` | App.jsx:68 | a route starting with `"bar:"` splits on `':'` into `"bar"` and at least one more piece, so `split(':')[1]` exists |
| `Routing.DrillId` | App.jsx:68 | `route.split(':')[1]` on a `"bar:"` route is the colon-free text after the prefix, ending at the next colon or at the end |
| `Routing.FindById` | App.jsx:68 | `find` returns a loaded bar with the id, and returns nothing exactly when no bar has that id |
| `Routing.FindIsFirst` | App.jsx:68 | `find` returns the first bar with the id |
| `Routing.CurrentBar` | App.jsx:68 | a bar is selected only on a `"bar:"` route; it is a loaded bar with the route's id; there is none exactly when no loaded bar has that id |
| `Routing.CurrentBarIsFirst` | App.jsx:68 | on a `"bar:<id>"` route the selected bar is the first loaded bar with that id |
| `Routing.Parse` | App.jsx:114-178 | a route decodes to a detail page exactly when it starts with `"bar:"`, and to no page exactly when it is none of the five known forms |
| `Routing.Rendered` | App.jsx:114-178 | the detail section is shown exactly when `currentBar` is defined, and for that bar's id; whatever is shown is the page the route decodes to; off detail routes the shown page is the decoded page |
| `Routing.DetailWaitsForBars` | App.jsx:60 | while no bar is loaded, a `"bar:"` route shows nothing although it decodes to a detail page |
| `Routing.OpenDetailsRenders` | App.jsx:163 | "Voir la fiche" on a loaded bar with a colon-free id shows the detail section for that id |
| `Routing.Encode` | App.jsx:163 | the route of a detail page is a `"bar:"` route whose text after the prefix is the id; the route of any other page decodes back to it |
| `Routing.DrillIdOfColonFree` | App.jsx:163 | `'bar:' + id` with a colon-free id is a detail route that decodes to `id` |
| `Routing.ParseEncode` | App.jsx:163 | opening a page and decoding its route gives back that page, provided the bar id has no colon |
| `Routing.EncodeParse` | App.jsx:68 | every recognised route string is the string its page is opened with, unless the id contains a colon |
| `Routing.ColonInIdIsCut` | App.jsx:68 | the id `"a:b"` comes back as `"a"`, so an id containing a colon does not survive the round trip |
| `Routing.BarsNavActive` | App.jsx:98 | the "Bars" button is highlighted exactly on the bar list and on the detail pages |
| `Routing.SelectValue` | App.jsx:103 | the selector shows `"bars"` on the list and on every detail page and shows the route itself elsewhere; the shown value never decodes to a detail page |
| `Routing.FixedRoutesAreNotDrillDown` | App.jsx:98 | `"bars"` and the other fixed routes do not start with `"bar:"`; `"bars"` is the bar list |
| `Routing.OpenDetailsShowsBar` | App.jsx:163 | "Voir la fiche" on a bar with a unique, colon-free id shows that bar |
| `Booking.Settled` | App.jsx:275-279 | a submission settles in "ok" exactly when the response body parsed and `res.ok` held, and in "err" otherwise |
| `Booking.Step` | App.jsx:267-281 | from any status, a click gives "loading" and a settlement gives "ok" or "err" as above; no transition leads to the empty status |
| `Booking.Run` | App.jsx:265-281 | after no event the status is the starting one; after any event it is non-empty and is what the last event alone leads to |
| `Booking.NeverBackToIdle` | App.jsx:265-281 | after any non-empty sequence of clicks and settlements the status is never empty again |
| `Booking.LastSettlementWins` | App.jsx:277-279 | when submissions overlap, the status shows the outcome of whichever settled last |
| `Booking.SubmitFromAnyStatus` | App.jsx:267-281 | a submission that completes alone goes through "loading" to its outcome, from any status |
| `Booking.BookingForm.constructor` | App.jsx:260-265 | the form starts with empty fields, two people and no status |
| `Booking.BookingForm.Begin` | App.jsx:268 | the start of `submit` sets "loading" from any status, appends it to the history and leaves the fields alone |
| `Booking.BookingForm.Finish` | App.jsx:275-279 | the end of `submit` sets the settled outcome, appends it to the history and keeps the status non-empty |
| `Booking.BookingForm.Submit` | App.jsx:267-281 | a whole submission records "loading" and then its outcome, and ends in that outcome |

## Left out

- Rendering is not modelled: the JSX, the presentational components, `Events`, `Profile` and the layout of `BarDetails`. These have no behaviour to state.
- `MapView` is not modelled. It wraps the third-party mapbox-gl widget, uses floating-point coordinates and has a mount/unmount lifecycle.
- The network calls are not modelled: the two startup `fetch` calls and the booking POST. The booking's result is the `FetchOutcome` input.
- A bar load whose `fetch` rejects or whose body does not parse leaves the empty list (`.catch(() => setBars([]))`), which `EmptyCollection` covers. A non-2xx reply with a JSON body (an error object, say) is passed to `setBars` unchanged; `bars.flatMap` then throws and the page breaks. The model does not capture that case: its bar list is always a list of bars.
- `JSON.stringify`, `res.json()` and date formatting are host-library calls, so the posted request body is not modelled. Whether the body parsed is the opaque flag `bodyIsJson`.
- The error text `json.error || 'Erreur'` is thrown and then dropped by `submit`, so the model does not keep it.
- React's `useState`/`useMemo` scheduling and memoisation are left out. Each derived value is a plain function of its inputs.
- The form-field setters (`onChange` on the name, date, time and people inputs) are plain assignments and are not modelled. `people` is an `int`, not the float `Number(...)` gives.
- Text.Lower: lowers ASCII letters only, not full Unicode `toLowerCase` (so `É` stays `É`).
- Bar records: `id` is a string and `accessible` a boolean. If the bars endpoint sent numeric ids, `b.id === route.split(':')[1]` would never match, and nothing would show on a detail page. The model does not capture that type mismatch.
