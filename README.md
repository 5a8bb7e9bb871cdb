# Recommended content: list shaping and language-variant correction

This project models the list-shaping logic of the Wikipedia Android app's
`RecommendedContentHelper`. The helper gathers candidate pages for the
recommended-content screen from several sources:

- the featured feed's top-read list;
- a "more like" search;
- a geosearch around the saved map location;
- five random-page requests;
- the titles of the open tabs.

For sites whose language has a parent language (a language with script
variants, say), the helper also corrects each page summary's display title
and description. This correction is the language-variant merge. It does the
following:

- It joins the pages' API titles with `|` into one batch key.
- It sends that key to two lookups: a variant-title query on the site and a
  description query on Wikidata.
- It rewrites every page summary in place, in list order.
- It gives the new display title from the first variant-title page whose
  underscored title is the page's API title, taking that page's entry for the
  site language. If the entry is missing, the old display title stays.
- It gives the new description from the first Wikidata entity whose label in
  the site language equals the new display title, taking that entity's
  description. If there is no such entity or description, the old
  description stays.

The project has these files:

- `wrappers.dfy`: `Option`, standing for Kotlin's nullable values, and `Result`, standing for thrown exceptions.
- `lists.dfy`: the Kotlin collection functions the helper uses, each pinned down by lemmas:
  - `joinToString`, with `Split` as its inverse;
  - `distinct`;
  - `find` and `firstOrNull`;
  - `filter`;
  - `mapNotNull`.
- `dataclient.dfy`: the response shapes, plus:
  - `PageSummary`, a class whose `titles` and `description` the merge rewrites in place;
  - the records built for places;
  - the feed content.
- `language_variant.dfy`: the merge rule for one page, as a function on values (`Correct`), the batch key, and their lemmas.
- `recommended_content_helper.dfy`: the operations. Each remote service is a function-typed parameter, and a request is an application of that function. `GetPagesForLanguageVariant` is a method with a loop. It returns the very objects it was given and sets each one's text to `Correct` of its old text. If the same object appears twice in the list, it is corrected twice. `CorrectIdempotent` shows that this gives the same text.

Only a null `varianttitles` entry falls back to the old display title
(`displayTitle ?: pageSummary.displayTitle`, RecommendedContentHelper.kt:154).
An empty variant title is used as it is; see
`LanguageVariant.EmptyVariantTitleIsUsed`.

## Model

| member | source | states |
|---|---|---|
| `RecommendedContentHelper.GetPagesForLanguageVariant` | app/src/main/java/org/wikipedia/recommendedcontent/RecommendedContentHelper.kt:136-167 | Returns exactly the input objects, in input order, with none added or dropped. Both lookups are sent the batch key of the whole list. Every page's titles and description become `Correct` of its old text, even when a page occurs more than once. No other object changes. |
| `LanguageVariant.BatchKeyOfThree` | app/src/main/java/org/wikipedia/recommendedcontent/RecommendedContentHelper.kt:139 | The API titles A, B, C are sent as exactly `"A\|B\|C"`. |
| `LanguageVariant.BatchKeyRoundTrip` | app/src/main/java/org/wikipedia/recommendedcontent/RecommendedContentHelper.kt:139 | Splitting the batch key at `\|` gives back every API title, once per occurrence and in input order (no deduplication), provided no title contains `\|`. |
| `Lists.SplitJoin` | app/src/main/java/org/wikipedia/recommendedcontent/RecommendedContentHelper.kt:139 | `joinToString("\|")` is inverted by splitting at the separator, for separator-free parts. |
| `LanguageVariant.VariantTitle` | app/src/main/java/org/wikipedia/recommendedcontent/RecommendedContentHelper.kt:152 | There is no variant title when `query.pages` is null or no page's underscored title equals the API title. Otherwise it is the site-language entry of the FIRST matching page, which is null when that page has no `varianttitles` or no entry. |
| `LanguageVariant.EntityDescription` | app/src/main/java/org/wikipedia/recommendedcontent/RecommendedContentHelper.kt:159-161 | There is no description when no entity's site-language label equals the display title. Otherwise it is the site-language description of the FIRST such entity, in iteration order. |
| `LanguageVariant.CorrectDisplayTitle` | app/src/main/java/org/wikipedia/recommendedcontent/RecommendedContentHelper.kt:152-158 | The canonical title becomes the API title. The display title becomes the first matching page's entry, or stays as it was when there is no entry. |
| `LanguageVariant.CorrectDescription` | app/src/main/java/org/wikipedia/recommendedcontent/RecommendedContentHelper.kt:159-161 | The description becomes the site-language description of the first entity labelled with the new display title, or stays as it was when that entity has none. When no entity carries that label, the old description stays. |
| `LanguageVariant.EmptyVariantTitleIsUsed` | app/src/main/java/org/wikipedia/recommendedcontent/RecommendedContentHelper.kt:154 | Only a null entry triggers the fallback: an empty variant title becomes the display title. |
| `LanguageVariant.FirstLabelledEntityDecides` | app/src/main/java/org/wikipedia/recommendedcontent/RecommendedContentHelper.kt:159-161 | Suppose the first entity labelled with the new display title has no description in the site language. Then the old description stays, even when a later entity with the same label has one. |
| `LanguageVariant.CorrectUnmatched` | app/src/main/java/org/wikipedia/recommendedcontent/RecommendedContentHelper.kt:150-164 | A page that matches in neither lookup keeps its display title and its description. Only the canonical title is set to the API title. |
| `LanguageVariant.CorrectIdempotent` | app/src/main/java/org/wikipedia/recommendedcontent/RecommendedContentHelper.kt:153-162 | Correcting a page a second time with the same answers changes nothing. So the in-place merge is well defined for a list that holds one object twice. |
| `LanguageVariant.DogBecomesHound` | app/src/main/java/org/wikipedia/recommendedcontent/RecommendedContentHelper.kt:150-164 | "Dog", shown as "Dog" and described as "a mammal", has the variant title "Hound". The entity labelled "Hound" is described as "domestic canine". The page becomes "Hound" / "domestic canine", and its canonical title stays "Dog". |
| `RecommendedContentHelper.LoadFeed` | app/src/main/java/org/wikipedia/recommendedcontent/RecommendedContentHelper.kt:44-64 | The rebuilt feed holds the same tfa, news, top-read date, picture of the day, on-this-day events and article objects. Only the top-read articles are rewritten, and only when the site language has a non-empty parent code and top-read is present. Nothing else changes. |
| `RecommendedContentHelper.LoadTopRead` | app/src/main/java/org/wikipedia/recommendedcontent/RecommendedContentHelper.kt:66-68 | Returns the (possibly corrected) top-read articles of the feed, or the empty list when the feed has no top-read group. |
| `RecommendedContentHelper.LoadExplore` | app/src/main/java/org/wikipedia/recommendedcontent/RecommendedContentHelper.kt:70-87 | Sends the search `"morelike:" + term` and builds one fresh page summary per result page, in result order. The list is empty when `query` or `pages` is null. Each summary is the plain mapped page when there is no parent language code, and is otherwise corrected with the batch key of all results. |
| `RecommendedContentHelper.PlaceThumbnail` | app/src/main/java/org/wikipedia/recommendedcontent/RecommendedContentHelper.kt:113 | The thumbnail is null exactly when `thumbUrl()` is null or empty. Otherwise it is the preferred-size URL of `thumbUrl()`. |
| `RecommendedContentHelper.ToNearbyPages` | app/src/main/java/org/wikipedia/recommendedcontent/RecommendedContentHelper.kt:111-115 | Maps each coordinate-bearing page, in order, to a place built from its first coordinate. The mapping throws exactly when some page's coordinate list is empty. |
| `RecommendedContentHelper.LoadPlaces` | app/src/main/java/org/wikipedia/recommendedcontent/RecommendedContentHelper.kt:103-119 | Returns the empty list when no location is saved. Otherwise it searches around the saved location (radius 10000, counts 10 and 10), keeps only the pages whose coordinates are non-null, in order, and takes lat/lon from each page's first coordinate. It throws exactly when some page has an empty coordinate list. |
| `RecommendedContentHelper.LoadRandomArticles` | app/src/main/java/org/wikipedia/recommendedcontent/RecommendedContentHelper.kt:121-133 | Makes exactly five requests. The result is their answers with duplicates removed: there are no duplicates, at most five elements, every element was drawn, and every draw appears. |
| `Lists.Distinct` | app/src/main/java/org/wikipedia/recommendedcontent/RecommendedContentHelper.kt:131 | `distinct()` is no longer than its input, has exactly the input's elements and has no duplicates. |
| `Lists.DistinctFirstOccurrenceOrder` | app/src/main/java/org/wikipedia/recommendedcontent/RecommendedContentHelper.kt:131 | `distinct()` lists elements in the order of their first occurrence in the input. |
| `RecommendedContentHelper.RandomDrawsDeduplicated` | app/src/main/java/org/wikipedia/recommendedcontent/RecommendedContentHelper.kt:126-131 | The draws A, A, B, C, A give A, B, C. |
| `Lists.FirstIndex` | app/src/main/java/org/wikipedia/recommendedcontent/RecommendedContentHelper.kt:152 | `find`/`firstOrNull` returns the first element satisfying the predicate, and none exactly when no element does. |
| `Lists.FilterMembership` | app/src/main/java/org/wikipedia/recommendedcontent/RecommendedContentHelper.kt:110 | `filter` keeps exactly the elements that satisfy the predicate. |
| `Lists.FilterAppend` | app/src/main/java/org/wikipedia/recommendedcontent/RecommendedContentHelper.kt:110 | `filter` works element by element, so it keeps input order. |
| `RecommendedContentHelper.LoadContinueReading` | app/src/main/java/org/wikipedia/recommendedcontent/RecommendedContentHelper.kt:97-101 | The result has a title exactly when some tab has it at its back-stack position. Tabs without a title contribute nothing, and the result is no longer than the tab list. |
| `RecommendedContentHelper.ContinueReadingKeepsTabOrder` | app/src/main/java/org/wikipedia/recommendedcontent/RecommendedContentHelper.kt:99 | The titles of two runs of tabs are the titles of each run, concatenated, so tab order is kept. |
| `Lists.MapNotNullMembership` | app/src/main/java/org/wikipedia/recommendedcontent/RecommendedContentHelper.kt:99 | `mapNotNull` yields exactly the non-null images. |
| `Lists.MapNotNullAppend` | app/src/main/java/org/wikipedia/recommendedcontent/RecommendedContentHelper.kt:99 | `mapNotNull` works element by element, so it keeps input order. |

## Left out

- The coroutine machinery (`withContext(Dispatchers.IO)`, `async`/`await`) is concurrency, not logic. Both lookups are applied once, before the loop.
- Failed requests are left out. In the source a network or decoding failure is an exception that aborts the operation. The model's services are total functions, so that error path is not modelled.
- The app's global state (`WikipediaApp.instance`, `ServiceFactory`, `AppDatabase`, `Prefs`) is passed in as parameters: the site, the parent-language query, the saved location, the tabs and the fetched feed.
- The feed's request date (`DateUtil.getUtcRequestDateFor(0)`) is left out. `LoadFeed` takes the featured-feed response directly.
- The geosearch coordinate string `"${latitude}\|${longitude}"` is left out, because it formats `Double`s. The geosearch service receives the location itself. The zoom level saved with the location is unused and is not modelled.
- The value of `Constants.SUGGESTION_REQUEST_ITEMS` is not part of this model. `LoadExplore` takes it as a parameter.
- The value of `PlacesFragment.THUMB_SIZE` is not part of this model either. It is folded into the `urlForPreferredSize` helper.
- Several helpers whose bodies are not part of this model are arbitrary functions:
  - `StringUtil.addUnderscores`
  - `MwQueryPage.displayTitle(...)`
  - `MwQueryPage.thumbUrl()`
  - `ImageUrlUtil.getUrlForPreferredSize`
  - the API title a new page summary derives from its title
- `PageSummary.apiTitle` is a constant attribute. In the source it is derived from the canonical title. The merge sets the canonical title to the API title, so the two agree as long as underscore normalisation is idempotent.
- `PageSummary.displayTitle` is read as the display part of `titles`.
- `Lists.Distinct`, used by `LoadRandomArticles`, compares page summaries by object identity. The equality `PageSummary` defines in the source is not part of this model.
- `loadHistoryItems` and `loadRecentSearches` are left out. Each is a database query followed by a projection onto titles, with no logic of its own.
- `loadBecauseYouRead` is left out. It is a database query followed by `loadExplore`. Its `.last()` throws when no history entry qualifies, so the source requires a non-empty query result there.
- `NearbyFragment.kt` (map SDK set-up and lifecycle forwarding) and `SuggestedEditsImageTagDialog.kt` (an Android dialog: clipboard, debounce, network call, list adapter) are presentation code and are not modelled.
- Latitude and longitude are carried as opaque 64-bit patterns. No arithmetic is done on them.
