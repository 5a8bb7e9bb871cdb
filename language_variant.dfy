/**
 * The language-variant correction of one page summary, stated on values:
 * which display title and which description the merge gives a page once
 * both lookups have answered, and the batch key both lookups are sent.
 */
module LanguageVariant {
  import opened Wrappers
  import opened Lists
  import opened DataClient

  /** The separator of the batched titles sent to both lookups. */
  const TitleSeparator: char := '|'

  /** The batch key: the API titles in input order, joined with '|', duplicates kept. */
  function BatchKey(apiTitles: seq<string>): string {
    Join(apiTitles, TitleSeparator)
  }

  /** Titles A, B, C are sent as exactly "A|B|C". */
  lemma BatchKeyOfThree()
    ensures BatchKey(["A", "B", "C"]) == "A|B|C"
  {
  }

  /**
   * The key holds every title once per occurrence, in order: splitting it at
   * '|' gives the titles back (no title may contain '|').
   */
  lemma BatchKeyRoundTrip(apiTitles: seq<string>)
    requires |apiTitles| >= 1
    requires forall i | 0 <= i < |apiTitles| :: TitleSeparator !in apiTitles[i]
    ensures Split(BatchKey(apiTitles), TitleSeparator) == apiTitles
  {
    SplitJoin(apiTitles, TitleSeparator);
  }

  /** The answers of both lookups, with the language they are read in. */
  datatype Lookups = Lookups(
    languageCode: string,
    variantPages: Option<seq<MwQueryPage>>,
    entities: seq<Entity>,
    addUnderscores: string -> string)

  /** A page of the variant-title answer describes the page whose API title is `apiTitle`. */
  predicate TitleMatches(lk: Lookups, apiTitle: string, page: MwQueryPage) {
    lk.addUnderscores(page.title) == apiTitle
  }

  /** `page.varianttitles?.get(languageCode)`. */
  function VariantEntry(page: MwQueryPage, languageCode: string): Option<string> {
    match page.varianttitles
    case None => None
    case Some(m) => if languageCode in m then Some(m[languageCode]) else None
  }

  /**
   * The variant title for `apiTitle`: the entry for the site language of the
   * FIRST page whose underscored title is `apiTitle`; later pages with the
   * same title are never consulted.
   */
  function VariantTitle(lk: Lookups, apiTitle: string): (r: Option<string>)
    ensures lk.variantPages.None? ==> r == None
    ensures lk.variantPages.Some? &&
            (forall i | 0 <= i < |lk.variantPages.value| :: !TitleMatches(lk, apiTitle, lk.variantPages.value[i]))
            ==> r == None
    ensures lk.variantPages.Some? ==>
            forall i | 0 <= i < |lk.variantPages.value| && TitleMatches(lk, apiTitle, lk.variantPages.value[i]) &&
                       (forall j | 0 <= j < i :: !TitleMatches(lk, apiTitle, lk.variantPages.value[j])) ::
              r == VariantEntry(lk.variantPages.value[i], lk.languageCode)
  {
    match lk.variantPages
    case None => None
    case Some(pages) =>
      var found := FirstIndex(pages, (page: MwQueryPage) => TitleMatches(lk, apiTitle, page));
      if found.None? then None else VariantEntry(pages[found.value], lk.languageCode)
  }

  /** An entity's label in `languageCode` is exactly `title`. */
  predicate LabelMatches(entity: Entity, languageCode: string, title: string) {
    languageCode in entity.labels && entity.labels[languageCode] == title
  }

  /** `entity.descriptions?.get(languageCode)?.value`. */
  function DescriptionEntry(entity: Entity, languageCode: string): Option<string> {
    if languageCode in entity.descriptions then Some(entity.descriptions[languageCode]) else None
  }

  /**
   * The Wikidata description for a page shown as `displayTitle`: the
   * description of the FIRST entity labelled `displayTitle` in the site
   * language, if that entity has one; later entities are never consulted.
   */
  function EntityDescription(lk: Lookups, displayTitle: string): (r: Option<string>)
    ensures (forall i | 0 <= i < |lk.entities| :: !LabelMatches(lk.entities[i], lk.languageCode, displayTitle))
            ==> r == None
    ensures forall i | 0 <= i < |lk.entities| && LabelMatches(lk.entities[i], lk.languageCode, displayTitle) &&
                       (forall j | 0 <= j < i :: !LabelMatches(lk.entities[j], lk.languageCode, displayTitle)) ::
              r == DescriptionEntry(lk.entities[i], lk.languageCode)
  {
    var found := FirstIndex(lk.entities, (e: Entity) => LabelMatches(e, lk.languageCode, displayTitle));
    if found.None? then None else DescriptionEntry(lk.entities[found.value], lk.languageCode)
  }

  /**
   * The merge rule for one page: the canonical title becomes the API title;
   * the display title becomes the variant title, or stays when there is none;
   * the description becomes the Wikidata description for the NEW display
   * title, or stays when there is none.
   */
  function Correct(lk: Lookups, apiTitle: string, text: SummaryText): SummaryText {
    var display := VariantTitle(lk, apiTitle).GetOr(text.titles.display);
    SummaryText(Titles(apiTitle, display), EntityDescription(lk, display).Or(text.description))
  }

  /** The display title Correct gives, by cases on the variant-title answer. */
  lemma CorrectDisplayTitle(lk: Lookups, apiTitle: string, text: SummaryText)
    ensures Correct(lk, apiTitle, text).titles == Titles(apiTitle, Correct(lk, apiTitle, text).titles.display)
    ensures lk.variantPages.Some? ==>
            forall i | 0 <= i < |lk.variantPages.value| && TitleMatches(lk, apiTitle, lk.variantPages.value[i]) &&
                       (forall j | 0 <= j < i :: !TitleMatches(lk, apiTitle, lk.variantPages.value[j])) ::
              Correct(lk, apiTitle, text).titles.display ==
                VariantEntry(lk.variantPages.value[i], lk.languageCode).GetOr(text.titles.display)
    ensures VariantTitle(lk, apiTitle).None? ==> Correct(lk, apiTitle, text).titles.display == text.titles.display
  {
  }

  /** The description Correct gives, by cases on the entities labelled with the new display title. */
  lemma CorrectDescription(lk: Lookups, apiTitle: string, text: SummaryText)
    ensures var display := Correct(lk, apiTitle, text).titles.display;
            forall i | 0 <= i < |lk.entities| && LabelMatches(lk.entities[i], lk.languageCode, display) &&
                       (forall j | 0 <= j < i :: !LabelMatches(lk.entities[j], lk.languageCode, display)) ::
              Correct(lk, apiTitle, text).description ==
                DescriptionEntry(lk.entities[i], lk.languageCode).Or(text.description)
    ensures var display := Correct(lk, apiTitle, text).titles.display;
            (forall i | 0 <= i < |lk.entities| :: !LabelMatches(lk.entities[i], lk.languageCode, display))
            ==> Correct(lk, apiTitle, text).description == text.description
  {
  }

  /**
   * Only a missing entry falls back to the old display title: an empty
   * variant title is used as it is.
   */
  lemma EmptyVariantTitleIsUsed(lk: Lookups, apiTitle: string, text: SummaryText, i: nat)
    requires lk.variantPages.Some? && i < |lk.variantPages.value|
    requires TitleMatches(lk, apiTitle, lk.variantPages.value[i])
    requires forall j | 0 <= j < i :: !TitleMatches(lk, apiTitle, lk.variantPages.value[j])
    requires VariantEntry(lk.variantPages.value[i], lk.languageCode) == Some("")
    ensures Correct(lk, apiTitle, text).titles.display == ""
  {
  }

  /**
   * The description search stops at the first entity with a matching label:
   * if that entity has no description in the site language, the old
   * description stays, whatever later entities hold.
   */
  lemma FirstLabelledEntityDecides(lk: Lookups, apiTitle: string, text: SummaryText, i: nat, k: nat)
    requires i < k < |lk.entities|
    requires var display := Correct(lk, apiTitle, text).titles.display;
             LabelMatches(lk.entities[i], lk.languageCode, display) &&
             (forall j | 0 <= j < i :: !LabelMatches(lk.entities[j], lk.languageCode, display)) &&
             LabelMatches(lk.entities[k], lk.languageCode, display)
    requires DescriptionEntry(lk.entities[i], lk.languageCode).None?
    ensures Correct(lk, apiTitle, text).description == text.description
  {
  }

  /** A page that neither lookup knows keeps its display title and its description. */
  lemma CorrectUnmatched(lk: Lookups, apiTitle: string, text: SummaryText)
    requires lk.variantPages.Some? ==>
             forall i | 0 <= i < |lk.variantPages.value| :: !TitleMatches(lk, apiTitle, lk.variantPages.value[i])
    requires forall i | 0 <= i < |lk.entities| :: !LabelMatches(lk.entities[i], lk.languageCode, text.titles.display)
    ensures Correct(lk, apiTitle, text) == SummaryText(Titles(apiTitle, text.titles.display), text.description)
  {
  }

  /**
   * Correcting a page twice gives what correcting it once gives. This is what
   * makes the in-place merge well defined when a list holds one page twice.
   */
  lemma CorrectIdempotent(lk: Lookups, apiTitle: string, text: SummaryText)
    ensures Correct(lk, apiTitle, Correct(lk, apiTitle, text)) == Correct(lk, apiTitle, text)
  {
  }

  /**
   * The worked example: "Dog" has the variant title "Hound", and the entity
   * labelled "Hound" is described as "domestic canine".
   */
  lemma DogBecomesHound(lang: string, underscore: string -> string, others: seq<Entity>)
    requires underscore("Dog") == "Dog"
    ensures var lk := Lookups(lang,
                              Some([MwQueryPage(1, "Dog", None, None, None, Some(map[lang := "Hound"]))]),
                              [Entity(map[lang := "Hound"], map[lang := "domestic canine"])] + others,
                              underscore);
            Correct(lk, "Dog", SummaryText(Titles("Dog", "Dog"), Some("a mammal")))
              == SummaryText(Titles("Dog", "Hound"), Some("domestic canine"))
  {
  }
}
