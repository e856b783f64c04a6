/** The panel shown when no item is listed: a headline, a hint and, when
    a filter is in effect, a button to clear the filters. */
module NoItemsMessage {
  import opened Wrappers
  import Translations

  /** `searchQuery || categoryFilter`: a non-empty query or category. */
  predicate FilterActive(query: string, category: Option<string>) {
    query != "" || (category.Some? && category.value != "")
  }

  function Headline(query: string, category: Option<string>): string {
    if FilterActive(query, category) then "No se encontraron items" else "No hay items disponibles"
  }

  /** The hint: the search hint first, then the category hint, then the
      loading notice. */
  function Hint(query: string, category: Option<string>): string {
    if query != "" then SearchHint
    else if category.Some? && category.value != "" then CategoryHint
    else LoadingHint
  }

  /** What the clear button does when clicked: call `onClearFilters`. */
  datatype Action = ClearFilters

  /** The clear button, present only while a filter is in effect. */
  function ClearButton(query: string, category: Option<string>): (b: Option<Action>)
    ensures b.Some? <==> FilterActive(query, category)
    ensures b.Some? ==> b.value == ClearFilters
  {
    if FilterActive(query, category) then Some(ClearFilters) else None
  }

  /** The headline says nothing was found exactly when a filter is in
      effect, which is exactly when the clear button is offered, and both
      headlines are the Spanish table's entries. */
  lemma HeadlineSpec(query: string, category: Option<string>)
    ensures FilterActive(query, category) ==>
      Headline(query, category) == Translations.EsText(Translations.NoItemsFound)
    ensures !FilterActive(query, category) ==>
      Headline(query, category) == Translations.EsText(Translations.NoItemsAvailable)
    ensures Headline(query, category) == Translations.EsText(Translations.NoItemsFound)
      <==> ClearButton(query, category).Some?
  {
    var found := Translations.EsText(Translations.NoItemsFound);
    var available := Translations.EsText(Translations.NoItemsAvailable);
    assert found[3] != available[3];
  }

  // The three hints, each against its table entry.
  const SearchHint := "Intenta con otros términos de búsqueda o utiliza las categorías del menú"
  const CategoryHint := "Intenta con otra categoría o realiza una búsqueda específica"
  const LoadingHint := "Los items se están cargando... Por favor espera un momento"

  lemma SearchHintFromTable()
    ensures SearchHint == Translations.EsText(Translations.TryOtherTerms)
  {
  }

  lemma CategoryHintFromTable()
    ensures CategoryHint == Translations.EsText(Translations.TryOtherCategory)
  {
  }

  lemma LoadingHintFromTable()
    ensures LoadingHint == Translations.EsText(Translations.ItemsLoading)
  {
  }

  /** The hint follows search over category over loading, each text the
      Spanish table's entry. */
  lemma HintSpec(query: string, category: Option<string>)
    ensures query != "" ==> Hint(query, category) == Translations.EsText(Translations.TryOtherTerms)
    ensures query == "" && FilterActive(query, category) ==>
      Hint(query, category) == Translations.EsText(Translations.TryOtherCategory)
    ensures !FilterActive(query, category) ==>
      Hint(query, category) == Translations.EsText(Translations.ItemsLoading)
  {
    SearchHintFromTable();
    CategoryHintFromTable();
    LoadingHintFromTable();
  }
}
