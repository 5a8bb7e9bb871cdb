/**
 * The shapes the helper reads and builds: the responses of the remote
 * services, the page summary it corrects in place, and the records it
 * produces for the places and continue-reading lists.
 */
module DataClient {
  import opened Wrappers

  /** A Kotlin `Double`, kept as its IEEE 754 bit pattern: the helper only copies it. */
  datatype Double = Double(bits: bv64)

  /** One entry of a page's `coordinates` list. */
  datatype Coordinate = Coordinate(lat: Double, lon: Double)

  /** The saved map location of the places screen. */
  datatype Location = Location(latitude: Double, longitude: Double)

  /** The wiki the app is reading: its language code and its database name. */
  datatype Site = Site(languageCode: string, dbName: string)

  /**
   * A page of an action-API query response (`MwQueryPage`). The same shape
   * answers the variant-title, "more like" and geosearch requests; each
   * request fills the fields it asks for.
   */
  datatype MwQueryPage = MwQueryPage(
    pageId: int,
    title: string,
    description: Option<string>,
    extract: Option<string>,
    coordinates: Option<seq<Coordinate>>,
    varianttitles: Option<map<string, string>>)

  /** An action-API response; `pages` is `None` when `query` or `query.pages` is null. */
  datatype MwQueryResponse = MwQueryResponse(pages: Option<seq<MwQueryPage>>)

  /** `query?.pages.orEmpty()`. */
  function PagesOrEmpty(response: MwQueryResponse): seq<MwQueryPage> {
    response.pages.GetOr([])
  }

  /** A Wikidata entity: its label and its description per language code. */
  datatype Entity = Entity(labels: map<string, string>, descriptions: map<string, string>)

  /** The Wikidata response; `entities` holds the values of its entity map in iteration order. */
  datatype WikidataResponse = WikidataResponse(entities: seq<Entity>)

  /** `PageSummary.Titles`. */
  datatype Titles = Titles(canonical: string, display: string)

  /** The part of a page summary that the language-variant merge rewrites. */
  datatype SummaryText = SummaryText(titles: Titles, description: Option<string>)

  /**
   * A page summary. The merge rewrites `titles` and `description` of the
   * very objects it is given; the other attributes never change.
   * `apiTitle` is the title used as the key in API requests.
   */
  class PageSummary {
    const apiTitle: string
    const extract: Option<string>
    const thumbnailUrl: Option<string>
    const lang: string
    var titles: Titles
    var description: Option<string>

    /**
     * `PageSummary(displayTitle, prefixTitle, description, extract, thumbnail, lang)`;
     * `apiTitle` is the API title the page gets from `prefixTitle`.
     */
    constructor (displayTitle: string, prefixTitle: string, description: Option<string>,
                 extract: Option<string>, thumbnail: Option<string>, lang: string, apiTitle: string)
      ensures this.titles == Titles(prefixTitle, displayTitle)
      ensures this.description == description
      ensures this.extract == extract && this.thumbnailUrl == thumbnail
      ensures this.lang == lang && this.apiTitle == apiTitle
    {
      this.apiTitle := apiTitle;
      this.extract := extract;
      this.thumbnailUrl := thumbnail;
      this.lang := lang;
      this.titles := Titles(prefixTitle, displayTitle);
      this.description := description;
    }
  }

  /** The `apiTitle`s of the pages, in list order. */
  function ApiTitles(list: seq<PageSummary>): seq<string> {
    seq(|list|, i requires 0 <= i < |list| => list[i].apiTitle)
  }

  /** `PageTitle(text, wiki, thumbUrl, description, displayText)`. */
  datatype PageTitle = PageTitle(
    text: string,
    wiki: Site,
    thumbUrl: Option<string>,
    description: Option<string>,
    displayText: string)

  /** `NearbyPage(pageId, pageTitle, latitude, longitude)`. */
  datatype NearbyPage = NearbyPage(pageId: int, pageTitle: PageTitle, latitude: Double, longitude: Double)

  /** A browser tab, seen through the title at its back-stack position (null for an empty tab). */
  datatype Tab = Tab(backStackPositionTitle: Option<PageTitle>)

  /** `TopRead(date, articles)`. */
  datatype TopRead = TopRead(date: string, articles: seq<PageSummary>)

  /**
   * `AggregatedFeedContent`: the featured article, news, top-read list,
   * picture of the day and on-this-day events. Only the top-read list is
   * touched by the helper, so the other groups keep their element types open.
   */
  datatype FeedContent<News, Image, Event> = FeedContent(
    tfa: Option<PageSummary>,
    news: Option<seq<News>>,
    topRead: Option<TopRead>,
    potd: Option<Image>,
    onthisday: Option<seq<Event>>)

  /**
   * The helpers the source calls but whose bodies are not part of this model,
   * each an arbitrary function: `MwQueryPage.displayTitle(languageCode)`, `MwQueryPage.thumbUrl()`,
   * `ImageUrlUtil.getUrlForPreferredSize(url, PlacesFragment.THUMB_SIZE)` and
   * the `apiTitle` a new page summary derives from its title.
   */
  datatype PageHelpers = PageHelpers(
    displayTitle: (MwQueryPage, string) -> string,
    thumbUrl: MwQueryPage -> Option<string>,
    urlForPreferredSize: string -> string,
    apiTitleOf: string -> string)
}
