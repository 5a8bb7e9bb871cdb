/**
 * The list-shaping operations of the recommended-content helper. Remote
 * services are parameters: a request becomes an application of the function
 * that stands for that service, so the model records what each request is
 * sent and what is done with its answer.
 */
module RecommendedContentHelper {
  import opened Wrappers
  import opened Lists
  import opened DataClient
  import opened LanguageVariant

  /**
   * The two lookups the language-variant merge sends its batch key to, and
   * `StringUtil.addUnderscores`, with which it matches their pages to its own.
   */
  datatype VariantServices = VariantServices(
    // `getVariantTitlesByTitles(titles)` on the site's action API
    getVariantTitlesByTitles: string -> MwQueryResponse,
    // `getWikidataDescription(titles, sites, langCode)` on Wikidata
    getWikidataDescription: (string, string, string) -> WikidataResponse,
    addUnderscores: string -> string)

  /** The app state the helper reads: the current site and the language state's parent-code query. */
  datatype AppContext = AppContext(site: Site, getDefaultLanguageCode: string -> Option<string>)

  /** `!getDefaultLanguageCode(site.languageCode).isNullOrEmpty()`. */
  predicate HasParentLanguageCode(ctx: AppContext) {
    var parent := ctx.getDefaultLanguageCode(ctx.site.languageCode);
    parent.Some? && parent.value != ""
  }

  /** What both lookups answer when sent `titles` for `site`. */
  function Resolve(svc: VariantServices, site: Site, titles: string): Lookups {
    Lookups(site.languageCode,
            svc.getVariantTitlesByTitles(titles).pages,
            svc.getWikidataDescription(titles, site.dbName, site.languageCode).entities,
            svc.addUnderscores)
  }

  /** The text of a page summary as it stands now. */
  function TextOf(p: PageSummary): SummaryText
    reads p
  {
    SummaryText(p.titles, p.description)
  }

  // ---------------------------------------------------------------------------
  // getPagesForLanguageVariant

  /**
   * Corrects every page of `list` in place and returns the same objects in
   * the same order. Both lookups are sent the batch key of the whole list;
   * each page then gets the text Correct gives for the answers.
   */
  method GetPagesForLanguageVariant(list: seq<PageSummary>, site: Site, svc: VariantServices)
    returns (newList: seq<PageSummary>)
    modifies set p | p in list
    ensures newList == list
    ensures forall p | p in list ::
      TextOf(p) == Correct(Resolve(svc, site, BatchKey(ApiTitles(list))), p.apiTitle, old(TextOf(p)))
  {
    newList := [];
    var titles := BatchKey(ApiTitles(list));
    var wikiDataResponse := svc.getWikidataDescription(titles, site.dbName, site.languageCode);
    var mwQueryResponse := svc.getVariantTitlesByTitles(titles);
    var lk := Lookups(site.languageCode, mwQueryResponse.pages, wikiDataResponse.entities, svc.addUnderscores);
    assert lk == Resolve(svc, site, titles);
    var i := 0;
    while i < |list|
      invariant 0 <= i <= |list|
      invariant newList == list[..i]
      invariant forall p | p in list[..i] :: TextOf(p) == Correct(lk, p.apiTitle, old(TextOf(p)))
      invariant forall p | p in list && p !in list[..i] :: TextOf(p) == old(TextOf(p))
    {
      var pageSummary := list[i];
      ghost var before := TextOf(pageSummary);
      var displayTitle := VariantTitle(lk, pageSummary.apiTitle);
      var newDisplayTitle := displayTitle.GetOr(pageSummary.titles.display);
      pageSummary.titles := Titles(pageSummary.apiTitle, newDisplayTitle);
      var description := EntityDescription(lk, newDisplayTitle);
      pageSummary.description := description.Or(pageSummary.description);
      assert TextOf(pageSummary) == Correct(lk, pageSummary.apiTitle, before);
      if pageSummary in list[..i] {
        CorrectIdempotent(lk, pageSummary.apiTitle, old(TextOf(pageSummary)));
      }
      newList := newList + [pageSummary];
      assert list[..i + 1] == list[..i] + [pageSummary];
      i := i + 1;
    }
    assert list[..i] == list;
  }

  // ---------------------------------------------------------------------------
  // loadFeed and loadTopRead

  /** The top-read articles of a feed, or none when the feed has no top-read group. */
  function TopReadArticles<N, I, E>(feed: FeedContent<N, I, E>): seq<PageSummary> {
    if feed.topRead.Some? then feed.topRead.value.articles else []
  }

  /** The pages loadFeed may rewrite: the top-read articles, and only under a parent language. */
  function FeedFootprint<N, I, E>(ctx: AppContext, feed: FeedContent<N, I, E>): set<PageSummary> {
    if HasParentLanguageCode(ctx) then set p | p in TopReadArticles(feed) else {}
  }

  /**
   * The featured feed `feed` as fetched, with its top-read articles corrected
   * when the site language has a parent code. The rebuilt feed holds the same
   * groups and the same article objects: what changes is the articles' text.
   */
  method LoadFeed<N(==), I(==), E(==)>(ctx: AppContext, feed: FeedContent<N, I, E>, svc: VariantServices)
    returns (r: FeedContent<N, I, E>)
    modifies FeedFootprint(ctx, feed)
    ensures r == feed
    ensures HasParentLanguageCode(ctx) ==>
      var articles := TopReadArticles(feed);
      forall p | p in articles ::
        TextOf(p) == Correct(Resolve(svc, ctx.site, BatchKey(ApiTitles(articles))), p.apiTitle, old(TextOf(p)))
  {
    r := feed;
    if HasParentLanguageCode(ctx) {
      match r.topRead
      case Some(topRead) =>
        var topReadResponse := GetPagesForLanguageVariant(topRead.articles, ctx.site, svc);
        r := FeedContent(r.tfa, r.news, Some(TopRead(topRead.date, topReadResponse)), r.potd, r.onthisday);
      case None =>
    }
  }

  /** `loadFeed().topRead?.articles ?: emptyList()`. */
  method LoadTopRead<N(==), I(==), E(==)>(ctx: AppContext, feed: FeedContent<N, I, E>, svc: VariantServices)
    returns (r: seq<PageSummary>)
    modifies FeedFootprint(ctx, feed)
    ensures r == TopReadArticles(feed)
    ensures feed.topRead.None? ==> r == []
    ensures HasParentLanguageCode(ctx) ==>
      forall p | p in r ::
        TextOf(p) == Correct(Resolve(svc, ctx.site, BatchKey(ApiTitles(r))), p.apiTitle, old(TextOf(p)))
  {
    var content := LoadFeed(ctx, feed, svc);
    r := TopReadArticles(content);
  }

  // ---------------------------------------------------------------------------
  // loadExplore

  /** The search string of the "more like" request. */
  function MoreLikeQuery(searchTerm: string): string {
    "morelike:" + searchTerm
  }

  /** The text a "more like" result page starts with before any correction. */
  function ExploreText(page: MwQueryPage, languageCode: string, h: PageHelpers): SummaryText {
    SummaryText(Titles(page.title, h.displayTitle(page, languageCode)), page.description)
  }

  /** The API titles of the page summaries built from the result pages. */
  function ExploreApiTitles(pages: seq<MwQueryPage>, h: PageHelpers): seq<string> {
    seq(|pages|, i requires 0 <= i < |pages| => h.apiTitleOf(pages[i].title))
  }

  /**
   * One new page summary per "more like" result page, in result order (none
   * when the response has no pages), corrected for the language variant
   * exactly when the site language has a parent code.
   */
  method LoadExplore(searchTerm: string, ctx: AppContext, suggestionRequestItems: int,
                     searchMoreLike: (string, int, int) -> MwQueryResponse,
                     h: PageHelpers, svc: VariantServices)
    returns (r: seq<PageSummary>)
    ensures var pages := PagesOrEmpty(searchMoreLike(MoreLikeQuery(searchTerm), suggestionRequestItems, suggestionRequestItems));
      |r| == |pages| &&
      forall i | 0 <= i < |r| ::
        fresh(r[i]) &&
        r[i].apiTitle == h.apiTitleOf(pages[i].title) &&
        r[i].extract == pages[i].extract &&
        r[i].thumbnailUrl == h.thumbUrl(pages[i]) &&
        r[i].lang == ctx.site.languageCode &&
        TextOf(r[i]) == if HasParentLanguageCode(ctx)
                        then Correct(Resolve(svc, ctx.site, BatchKey(ExploreApiTitles(pages, h))),
                                     r[i].apiTitle, ExploreText(pages[i], ctx.site.languageCode, h))
                        else ExploreText(pages[i], ctx.site.languageCode, h)
  {
    var lang := ctx.site.languageCode;
    var moreLikeResponse := searchMoreLike(MoreLikeQuery(searchTerm), suggestionRequestItems, suggestionRequestItems);
    var pages := PagesOrEmpty(moreLikeResponse);
    var list: seq<PageSummary> := [];
    var i := 0;
    while i < |pages|
      invariant 0 <= i <= |pages| && |list| == i
      invariant forall k | 0 <= k < i ::
        fresh(list[k]) &&
        list[k].apiTitle == h.apiTitleOf(pages[k].title) &&
        list[k].extract == pages[k].extract &&
        list[k].thumbnailUrl == h.thumbUrl(pages[k]) &&
        list[k].lang == lang &&
        TextOf(list[k]) == ExploreText(pages[k], lang, h)
    {
      var page := pages[i];
      var summary := new PageSummary(h.displayTitle(page, lang), page.title, page.description,
                                     page.extract, h.thumbUrl(page), lang, h.apiTitleOf(page.title));
      list := list + [summary];
      i := i + 1;
    }
    assert ApiTitles(list) == ExploreApiTitles(pages, h);
    if HasParentLanguageCode(ctx) {
      r := GetPagesForLanguageVariant(list, ctx.site, svc);
    } else {
      r := list;
    }
  }

  // ---------------------------------------------------------------------------
  // loadPlaces

  /** The radius, in metres, of the geosearch request. */
  const GeoSearchRadius: int := 10000
  /** The two count arguments of the geosearch request. */
  const GeoSearchLimit: int := 10

  /** The thumbnail of a place: none when the page's thumbnail URL is null or empty. */
  function PlaceThumbnail(page: MwQueryPage, h: PageHelpers): (r: Option<string>)
    ensures r.None? <==> h.thumbUrl(page).None? || h.thumbUrl(page).value == ""
    ensures r.Some? ==> r.value == h.urlForPreferredSize(h.thumbUrl(page).value)
  {
    var url := h.thumbUrl(page);
    if url.None? || url.value == "" then None else Some(h.urlForPreferredSize(url.value))
  }

  /** The source throws when indexing the first coordinate of an empty list. */
  datatype PlacesError = IndexOutOfBounds(pageId: int)

  predicate HasCoordinates(page: MwQueryPage) {
    page.coordinates.Some?
  }

  /** The place for a page with at least one coordinate. */
  function ToNearbyPage(page: MwQueryPage, site: Site, h: PageHelpers): NearbyPage
    requires page.coordinates.Some? && |page.coordinates.value| > 0
  {
    var first := page.coordinates.value[0];
    NearbyPage(page.pageId,
               PageTitle(page.title, site, PlaceThumbnail(page, h), page.description,
                         h.displayTitle(page, site.languageCode)),
               first.lat, first.lon)
  }

  /** Every page has a non-empty coordinate list. */
  predicate AllPlaced(pages: seq<MwQueryPage>) {
    forall i | 0 <= i < |pages| :: pages[i].coordinates.Some? && pages[i].coordinates.value != []
  }

  /**
   * The places of coordinate-bearing pages, in order; the first page whose
   * coordinate list is empty makes the whole mapping throw.
   */
  function ToNearbyPages(pages: seq<MwQueryPage>, site: Site, h: PageHelpers): (r: Result<seq<NearbyPage>, PlacesError>)
    requires forall i | 0 <= i < |pages| :: pages[i].coordinates.Some?
    ensures r.Failure? <==> exists i | 0 <= i < |pages| :: pages[i].coordinates.value == []
    ensures r.Success? ==> AllPlaced(pages) && |r.value| == |pages| &&
                           forall i | 0 <= i < |pages| :: r.value[i] == ToNearbyPage(pages[i], site, h)
    decreases |pages|
  {
    if |pages| == 0 then Success([])
    else if pages[0].coordinates.value == [] then Failure(IndexOutOfBounds(pages[0].pageId))
    else
      var rest := ToNearbyPages(pages[1..], site, h);
      if rest.Failure? then rest
      else Success([ToNearbyPage(pages[0], site, h)] + rest.value)
  }

  /**
   * The places near the saved map location: none when no location is saved;
   * otherwise the geosearch pages that have coordinates, in order, each with
   * its first coordinate.
   */
  function LoadPlaces(lastLocation: Option<Location>, site: Site,
                      geoSearch: (Location, int, int, int) -> MwQueryResponse, h: PageHelpers)
    : (r: Result<seq<NearbyPage>, PlacesError>)
    ensures lastLocation.None? ==> r == Success([])
    ensures lastLocation.Some? ==>
      var pages := PagesOrEmpty(geoSearch(lastLocation.value, GeoSearchRadius, GeoSearchLimit, GeoSearchLimit));
      var kept := Filter(pages, HasCoordinates);
      && (r.Failure? <==> exists i | 0 <= i < |pages| :: pages[i].coordinates == Some([]))
      && (r.Success? ==> AllPlaced(kept) &&
                         r.value == seq(|kept|, i requires 0 <= i < |kept| => ToNearbyPage(kept[i], site, h)))
  {
    match lastLocation
    case None => Success([])
    case Some(location) =>
      var response := geoSearch(location, GeoSearchRadius, GeoSearchLimit, GeoSearchLimit);
      var pages := PagesOrEmpty(response);
      var kept := Filter(pages, HasCoordinates);
      var nearbyPages := ToNearbyPages(kept, site, h);
      assert nearbyPages.Failure? <==> exists i | 0 <= i < |pages| :: pages[i].coordinates == Some([]) by {
        if exists i | 0 <= i < |pages| :: pages[i].coordinates == Some([]) {
          var i :| 0 <= i < |pages| && pages[i].coordinates == Some([]);
          FilterMembership(pages, HasCoordinates, pages[i]);
        }
        if exists k | 0 <= k < |kept| :: kept[k].coordinates.value == [] {
          var k :| 0 <= k < |kept| && kept[k].coordinates.value == [];
          FilterMembership(pages, HasCoordinates, kept[k]);
        }
      }
      nearbyPages
  }

  // ---------------------------------------------------------------------------
  // loadRandomArticles

  /** How many random summaries are requested. */
  const RandomDraws: nat := 5

  /** The answers to the RandomDraws requests, in request order; `get(k)` answers the k-th. */
  function Draws(get: nat -> PageSummary): seq<PageSummary> {
    seq(RandomDraws, k requires 0 <= k < RandomDraws => get(k))
  }

  /**
   * Requests a random summary RandomDraws times and keeps each distinct
   * summary once, in the order it was first drawn.
   */
  method LoadRandomArticles(getRandomSummary: nat -> PageSummary) returns (r: seq<PageSummary>)
    ensures r == Distinct(Draws(getRandomSummary))
    ensures NoDuplicates(r) && |r| <= RandomDraws
    ensures forall p | p in r :: exists k | 0 <= k < RandomDraws :: getRandomSummary(k) == p
    ensures forall k | 0 <= k < RandomDraws :: getRandomSummary(k) in r
  {
    var list: seq<PageSummary> := [];
    for k := 0 to RandomDraws
      invariant list == Draws(getRandomSummary)[..k]
    {
      var response := getRandomSummary(k);
      list := list + [response];
    }
    r := Distinct(list);
    assert list == Draws(getRandomSummary);
    assert forall k | 0 <= k < RandomDraws :: list[k] == getRandomSummary(k) && list[k] in list;
  }

  /** The draws A, A, B, C, A give A, B, C. */
  lemma RandomDrawsDeduplicated<T>(a: T, b: T, c: T)
    requires a != b && a != c && b != c
    ensures Distinct([a, a, b, c, a]) == [a, b, c]
  {
    assert [a, a][..1] == [a];
    assert Distinct([a, a]) == [a];
    assert [a, a, b][..2] == [a, a];
    assert Distinct([a, a, b]) == [a, b];
    assert [a, a, b, c][..3] == [a, a, b];
    assert Distinct([a, a, b, c]) == [a, b, c];
    assert [a, a, b, c, a][..4] == [a, a, b, c];
  }

  // ---------------------------------------------------------------------------
  // loadContinueReading

  /** The titles at the back-stack positions of the open tabs, skipping tabs without one, in tab order. */
  function LoadContinueReading(tabs: seq<Tab>): (r: seq<PageTitle>)
    ensures |r| <= |tabs|
    ensures forall t :: t in r <==> exists j | 0 <= j < |tabs| :: tabs[j].backStackPositionTitle == Some(t)
  {
    var titles := MapNotNull(tabs, (tab: Tab) => tab.backStackPositionTitle);
    assert forall t :: t in titles <==> exists j | 0 <= j < |tabs| :: tabs[j].backStackPositionTitle == Some(t) by {
      forall t ensures t in titles <==> exists j | 0 <= j < |tabs| :: tabs[j].backStackPositionTitle == Some(t) {
        MapNotNullMembership(tabs, (tab: Tab) => tab.backStackPositionTitle, t);
      }
    }
    titles
  }

  /** Continue-reading keeps tab order: the titles of two runs of tabs are those of each run, concatenated. */
  lemma ContinueReadingKeepsTabOrder(a: seq<Tab>, b: seq<Tab>)
    ensures LoadContinueReading(a + b) == LoadContinueReading(a) + LoadContinueReading(b)
  {
    MapNotNullAppend(a, b, (tab: Tab) => tab.backStackPositionTitle);
  }
}
