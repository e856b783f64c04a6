/** The catalogue page: the search / category / tier filters applied in
    turn, the sort by lowercased title, the cap on results, the tier list
    offered to the picker, and the two handlers that keep search and
    category exclusive. */
module Home {
  import opened Wrappers
  import opened Text
  import opened Sequences
  import opened Sorting
  import Translations

  /** The item as the page reads it: id, title, the optional description
      variable and the optional tier. */
  datatype CatalogItem = CatalogItem(
    id: string,
    title: string,
    descriptionVariable: Option<string>,
    tier: Option<string>)

  /** At most this many items leave the pipeline. */
  const MaxResults: nat := 200
  /** At most this many cards are rendered. */
  const MaxShown: nat := 50

  // ---------------------------------------------------------------------
  // Stage 1: search

  /** `debouncedSearchQuery && debouncedSearchQuery.trim()`. */
  predicate SearchActive(query: string) {
    query != "" && Trim(query) != ""
  }

  /** `debouncedSearchQuery.toLowerCase().trim()`. */
  function SearchTerm(query: string): string {
    Trim(ToLower(query))
  }

  predicate MatchesSearch(term: string, item: CatalogItem) {
    Contains(ToLower(item.title), term) || Contains(ToLower(item.id), term)
  }

  /** The search filter applies exactly when the query has a character
      that is not white space. */
  lemma SearchActiveIff(query: string)
    ensures SearchActive(query) <==> exists i :: 0 <= i < |query| && !IsWhitespace(query[i])
  {
    TrimEmptyIff(query);
  }

  // ---------------------------------------------------------------------
  // Stage 2: category

  const WeaponPatterns: seq<string> :=
    ["sword", "bow", "axe", "hammer", "dagger", "spear", "staff", "crossbow", "mace", "torch", "shield"]
  const WeaponSpanish: seq<string> :=
    ["espada", "arco", "hacha", "martillo", "daga", "lanza", "bastón", "ballesta", "maza", "antorcha", "escudo"]
  const ArmorPatterns: seq<string> :=
    ["helmet", "armor", "boots", "cape", "robe", "cowl", "sandals", "hood", "jacket", "shoes"]
  const ArmorSpanish: seq<string> :=
    ["casco", "armadura", "botas", "capa", "túnica", "hábito", "túnica", "sandalias", "capucha", "chaqueta", "zapatos"]
  const ResourceMarkers: seq<string> :=
    ["@items_ore_desc", "@items_wood_desc", "@items_stone_desc", "@items_fiber_desc",
     "@items_hide_desc", "@items_leather_desc", "@items_cloth_desc", "@items_metalbar_desc",
     "@items_planks_desc", "@items_stoneblock_desc", "@items_essence_desc"]
  const FoodMarkers: seq<string> :=
    ["@items_consumable_desc", "@items_meal_desc", "@items_fish_desc", "MEAL_", "FISH_"]

  /** An English keyword hits when the id contains it, or the title
      contains it after a space, ends with it or starts with it. */
  predicate EnglishHit(id: string, name: string, p: string) {
    Contains(id, p) || Contains(name, " " + p) || EndsWith(name, p) || StartsWith(name, p)
  }

  /** The weapons/armor classifier over lowercased id and title. */
  predicate KeywordMatch(english: seq<string>, spanish: seq<string>, item: CatalogItem) {
    var id := ToLower(item.id);
    var name := ToLower(item.title);
    || (exists i :: 0 <= i < |english| && EnglishHit(id, name, english[i]))
    || (exists i :: 0 <= i < |spanish| && Contains(name, spanish[i]))
  }

  /** `item.descriptionVariable?.toLowerCase() || ''`. */
  function DescVar(item: CatalogItem): string {
    ToLower(item.descriptionVariable.GetOr(""))
  }

  predicate MarkerMatch(markers: seq<string>, item: CatalogItem) {
    exists i :: 0 <= i < |markers| && Contains(DescVar(item), markers[i])
  }

  /** The `switch (categoryFilter)`: an unknown category keeps every item. */
  predicate CategoryKeeps(category: string, item: CatalogItem) {
    if category == "weapons" then KeywordMatch(WeaponPatterns, WeaponSpanish, item)
    else if category == "armor" then KeywordMatch(ArmorPatterns, ArmorSpanish, item)
    else if category == "resources" then MarkerMatch(ResourceMarkers, item)
    else if category == "food" then MarkerMatch(FoodMarkers, item)
    else true
  }

  /** The four categories the classifier knows. */
  predicate IsKnownCategory(category: string) {
    category == "weapons" || category == "armor" || category == "resources" || category == "food"
  }

  /** `if (categoryFilter)`: null and `''` apply no category filter. */
  predicate CategoryActive(category: Option<string>) {
    category.Some? && category.value != ""
  }

  /** The item with its id, title and description variable lowercased. */
  function LowerFields(item: CatalogItem): (l: CatalogItem)
    ensures l.id == ToLower(item.id) && l.title == ToLower(item.title)
    ensures l.tier == item.tier
  {
    var desc := if item.descriptionVariable.Some? then Some(ToLower(item.descriptionVariable.value)) else None;
    item.(id := ToLower(item.id), title := ToLower(item.title), descriptionVariable := desc)
  }

  /** Every category test ignores case: an item and its lowercased copy are
      kept or dropped together, because each branch lowercases the fields it
      reads before matching. */
  lemma CategoryIgnoresCase(category: string, item: CatalogItem)
    ensures CategoryKeeps(category, item) <==> CategoryKeeps(category, LowerFields(item))
  {
    var l := LowerFields(item);
    ToLowerIdempotent(item.id);
    ToLowerIdempotent(item.title);
    if item.descriptionVariable.Some? {
      ToLowerIdempotent(item.descriptionVariable.value);
    }
    assert DescVar(l) == DescVar(item);
  }

  /** The search ignores case on both sides: lowercasing the query, the
      item, or both, keeps or drops the item the same way. */
  lemma SearchIgnoresCase(query: string, item: CatalogItem)
    ensures MatchesSearch(SearchTerm(query), item) <==> MatchesSearch(SearchTerm(ToLower(query)), item)
    ensures MatchesSearch(SearchTerm(query), item) <==> MatchesSearch(SearchTerm(query), LowerFields(item))
  {
    ToLowerIdempotent(query);
    ToLowerIdempotent(item.id);
    ToLowerIdempotent(item.title);
  }

  /** `MEAL_` and `FISH_` are looked for in an already lowercased string,
      so they never match: `food` keeps an item iff one of the three
      `@items_*_desc` markers occurs. */
  lemma FoodRule(item: CatalogItem)
    ensures CategoryKeeps("food", item) <==>
      Contains(DescVar(item), "@items_consumable_desc")
      || Contains(DescVar(item), "@items_meal_desc")
      || Contains(DescVar(item), "@items_fish_desc")
  {
    var raw := item.descriptionVariable.GetOr("");
    LoweredHasNoUpperPattern(raw, "MEAL_", 0);
    LoweredHasNoUpperPattern(raw, "FISH_", 0);
    var d := DescVar(item);
    assert FoodMarkers[0] == "@items_consumable_desc" && FoodMarkers[1] == "@items_meal_desc";
    assert FoodMarkers[2] == "@items_fish_desc";
    assert FoodMarkers[3] == "MEAL_" && FoodMarkers[4] == "FISH_";
    if MarkerMatch(FoodMarkers, item) {
      var i :| 0 <= i < |FoodMarkers| && Contains(d, FoodMarkers[i]);
      assert i < 3;
    }
  }

  // ---------------------------------------------------------------------
  // Stage 3: tiers

  /** `item.tier && selectedTiers.includes(item.tier)`. */
  predicate TierKeeps(selected: seq<string>, item: CatalogItem) {
    item.tier.Some? && item.tier.value != "" && item.tier.value in selected
  }

  // ---------------------------------------------------------------------
  // The pipeline

  /** The condition of each stage, as the function the stage filters by. */
  function SearchPred(query: string): CatalogItem -> bool {
    var term := SearchTerm(query);
    it => MatchesSearch(term, it)
  }

  function CategoryPred(category: Option<string>): CatalogItem -> bool {
    var name := category.GetOr("");
    it => CategoryKeeps(name, it)
  }

  function TierPred(selected: seq<string>): CatalogItem -> bool {
    it => TierKeeps(selected, it)
  }

  /** The filter stages in their order, each applied only when active. */
  function Stages(items: seq<CatalogItem>, query: string, category: Option<string>,
                  selected: seq<string>): seq<CatalogItem>
  {
    var afterSearch := FilterIf(SearchActive(query), items, SearchPred(query));
    var afterCategory := FilterIf(CategoryActive(category), afterSearch, CategoryPred(category));
    FilterIf(|selected| > 0, afterCategory, TierPred(selected))
  }

  /** What an item must satisfy to survive all three stages: each active
      stage's condition. */
  predicate Keeps(query: string, category: Option<string>, selected: seq<string>, item: CatalogItem) {
    && (SearchActive(query) ==> MatchesSearch(SearchTerm(query), item))
    && (CategoryActive(category) ==> CategoryKeeps(category.value, item))
    && (|selected| > 0 ==> TierKeeps(selected, item))
  }

  /** The three stages as one condition. */
  function KeepsPred(query: string, category: Option<string>, selected: seq<string>): CatalogItem -> bool {
    AllOf3(SearchActive(query), SearchPred(query), CategoryActive(category), CategoryPred(category),
           |selected| > 0, TierPred(selected))
  }

  lemma KeepsPredIff(query: string, category: Option<string>, selected: seq<string>, item: CatalogItem)
    ensures KeepsPred(query, category, selected)(item) == Keeps(query, category, selected, item)
  {
  }

  /** The staged filters amount to one filter on the conjunction of the
      three conditions; so the stages only remove items, never add or
      reorder them. */
  lemma StagesAreOneFilter(items: seq<CatalogItem>, query: string, category: Option<string>,
                           selected: seq<string>)
    ensures Stages(items, query, category, selected) == Filter(items, KeepsPred(query, category, selected))
    ensures multiset(Stages(items, query, category, selected)) <= multiset(items)
  {
    ThreeStages(items, SearchActive(query), SearchPred(query), CategoryActive(category),
                CategoryPred(category), |selected| > 0, TierPred(selected));
  }

  /** An item survives the stages iff it is one of the input items and
      satisfies every active condition. */
  lemma StagesKeepExactly(items: seq<CatalogItem>, query: string, category: Option<string>,
                          selected: seq<string>, item: CatalogItem)
    ensures item in Stages(items, query, category, selected)
      <==> item in items && Keeps(query, category, selected, item)
  {
    StagesAreOneFilter(items, query, category, selected);
    FilterMembers(items, KeepsPred(query, category, selected));
    KeepsPredIff(query, category, selected, item);
  }

  /** An empty tier selection keeps every item, and a query with no
      character other than white space applies no search. */
  lemma InactiveStagesKeepAll(items: seq<CatalogItem>, query: string)
    requires forall i :: 0 <= i < |query| ==> IsWhitespace(query[i])
    ensures Stages(items, query, None, []) == items
  {
    TrimEmptyIff(query);
  }

  /** `a.title.toLowerCase().localeCompare(b.title.toLowerCase()) <= 0`,
      with the collation given by `leq`. */
  predicate TitleLeq(leq: (string, string) -> bool, a: CatalogItem, b: CatalogItem) {
    leq(ToLower(a.title), ToLower(b.title))
  }

  /** The comparator handed to `sort`. */
  function TitleOrder(leq: (string, string) -> bool): (CatalogItem, CatalogItem) -> bool {
    (a: CatalogItem, b: CatalogItem) => TitleLeq(leq, a, b)
  }

  ghost predicate SortedByTitle(s: seq<CatalogItem>, leq: (string, string) -> bool) {
    forall i, j :: 0 <= i < j < |s| ==> TitleLeq(leq, s[i], s[j])
  }

  /** Ordering items by lowercased title is a total preorder whenever the
      collation is one. */
  lemma TitleOrderIsTotalPreorder(leq: (string, string) -> bool)
    requires TotalPreorder(leq)
    ensures TotalPreorder(TitleOrder(leq))
  {
  }

  function Min(a: nat, b: nat): nat {
    if a <= b then a else b
  }

  /** The stages as the page runs them: a variable reassigned by each
      active filter in turn. */
  method ApplyFilters(items: seq<CatalogItem>, query: string, category: Option<string>,
                      selected: seq<string>) returns (filtered: seq<CatalogItem>)
    ensures filtered == Stages(items, query, category, selected)
  {
    filtered := items;
    if SearchActive(query) {
      filtered := Filter(filtered, SearchPred(query));
    }
    if CategoryActive(category) {
      filtered := Filter(filtered, CategoryPred(category));
    }
    if |selected| > 0 {
      filtered := Filter(filtered, TierPred(selected));
    }
  }

  /** The end of `filteredItems`: sort by lowercased title and keep the
      first 200. The result holds min(n, 200) of the n given items, in
      title order, and no item left out by the cap sorts before an item
      that was kept. */
  method SortAndCap(filtered: seq<CatalogItem>, leq: (string, string) -> bool)
    returns (r: seq<CatalogItem>)
    requires TotalPreorder(leq)
    ensures |r| == Min(|filtered|, MaxResults)
    ensures multiset(r) <= multiset(filtered)
    ensures SortedByTitle(r, leq)
    ensures forall i, x :: 0 <= i < |r| && x in multiset(filtered) - multiset(r) ==> TitleLeq(leq, r[i], x)
  {
    var a := new CatalogItem[|filtered|](i requires 0 <= i < |filtered| => filtered[i]);
    assert a[..] == filtered;
    TitleOrderIsTotalPreorder(leq);
    SortBy(a, TitleOrder(leq));
    var sorted := a[..];
    var n := Min(a.Length, MaxResults);
    SortedPrefix(sorted, n, TitleOrder(leq));
    r := sorted[..n];
    assert multiset(sorted) == multiset(r) + multiset(sorted[n..]) by {
      assert sorted == r + sorted[n..];
    }
  }

  /** `filteredItems`: the filter stages, then sort and cap. */
  method FilteredItems(items: seq<CatalogItem>, query: string, category: Option<string>,
                       selected: seq<string>, leq: (string, string) -> bool)
    returns (r: seq<CatalogItem>)
    requires TotalPreorder(leq)
    ensures var kept := Stages(items, query, category, selected);
      && |r| == Min(|kept|, MaxResults)
      && multiset(r) <= multiset(kept)
      && SortedByTitle(r, leq)
      && forall i, x :: 0 <= i < |r| && x in multiset(kept) - multiset(r) ==> TitleLeq(leq, r[i], x)
  {
    var filtered := ApplyFilters(items, query, category, selected);
    r := SortAndCap(filtered, leq);
  }

  /** `Math.min(filteredItems.length, 50)`: the number of cards rendered. */
  function ShownCount(total: nat): (n: nat)
    ensures n <= MaxShown && n <= total
    ensures n == total || n == MaxShown
  {
    Min(total, MaxShown)
  }

  /** `filteredItems.slice(0, 50)`: the cards rendered are the first
      min(n, 50) results, in result order. */
  function ShownItems(results: seq<CatalogItem>): (shown: seq<CatalogItem>)
    ensures |shown| == ShownCount(|results|)
    ensures forall i :: 0 <= i < |shown| ==> shown[i] == results[i]
  {
    results[..ShownCount(|results|)]
  }

  // ---------------------------------------------------------------------
  // Tiers offered to the picker

  predicate HasTier(item: CatalogItem) {
    item.tier.Some?
  }

  function TierOf(item: CatalogItem): string {
    item.tier.GetOr("")
  }

  /** `items.map(item => item.tier).filter(tier => tier !== undefined)`:
      the defined tiers, one per item that has one, in item order. */
  function DefinedTiers(items: seq<CatalogItem>): (ts: seq<string>)
    ensures forall i :: 0 <= i < |items| && items[i].tier.Some? ==> items[i].tier.value in ts
    ensures forall t :: t in ts ==> exists i :: 0 <= i < |items| && items[i].tier == Some(t)
  {
    var kept := Filter(items, HasTier);
    FilterMembers(items, HasTier);
    MapMembers(kept, TierOf);
    assert forall i :: 0 <= i < |items| ==> items[i] in items;
    Map(kept, TierOf)
  }

  /** `availableTiers`: the distinct defined tiers, in first-occurrence
      order. */
  function AvailableTiers(items: seq<CatalogItem>): seq<string> {
    Distinct(DefinedTiers(items))
  }

  /** `availableTiers` has no duplicates, holds exactly the tiers some item
      defines, and lists them in the order in which they first occur. */
  lemma AvailableTiersSpec(items: seq<CatalogItem>)
    ensures NoDuplicates(AvailableTiers(items))
    ensures forall t :: t in AvailableTiers(items) <==> exists i :: 0 <= i < |items| && items[i].tier == Some(t)
    ensures var ts := DefinedTiers(items); var av := AvailableTiers(items);
      forall i, j :: 0 <= i < j < |av| ==> FirstIndex(ts, av[i]) < FirstIndex(ts, av[j])
  {
    var ts := DefinedTiers(items);
    var av := AvailableTiers(items);
    DistinctFirstOccurrenceOrder(ts);
    forall t ensures t in av <==> exists i :: 0 <= i < |items| && items[i].tier == Some(t) {
      if t in av {
        var k :| 0 <= k < |av| && av[k] == t;
        assert av[k] in ts;
      }
      if exists i :: 0 <= i < |items| && items[i].tier == Some(t) {
        var i :| 0 <= i < |items| && items[i].tier == Some(t);
        assert t in ts;
        var k :| 0 <= k < |ts| && ts[k] == t;
        assert ts[k] in av;
      }
    }
  }

  // ---------------------------------------------------------------------
  // Page state and handlers

  /** `getCategoryName`. */
  function CategoryName(category: string): string {
    if category == "weapons" then "🗡️ Armas 🗡️"
    else if category == "armor" then "🛡️ Armaduras 🛡️"
    else if category == "resources" then "⛏️ Recursos ⛏️"
    else if category == "food" then "🍖 Comida 🍖"
    else "Categoría desconocida"
  }

  /** The heading names each known category by the Spanish table's title
      and anything else by the table's "unknown category" text. */
  lemma CategoryNamesFromTable(category: string)
    ensures category == "weapons" ==> CategoryName(category) == Translations.EsText(Translations.WeaponsTitle)
    ensures category == "armor" ==> CategoryName(category) == Translations.EsText(Translations.ArmorTitle)
    ensures category == "resources" ==> CategoryName(category) == Translations.EsText(Translations.ResourcesTitle)
    ensures category == "food" ==> CategoryName(category) == Translations.EsText(Translations.FoodTitle)
    ensures !IsKnownCategory(category) ==> CategoryName(category) == Translations.EsText(Translations.UnknownCategory)
  {
  }

  const SearchHeadingPrefix := "🔍 Resultados de búsqueda: \""
  const DefaultHeading := "🗡️ Items de Albion Online"

  /** The page heading: the search, else the category, else the title. */
  function Heading(debouncedQuery: string, category: Option<string>): string {
    if debouncedQuery != "" then SearchHeadingPrefix + debouncedQuery + "\""
    else if CategoryActive(category) then CategoryName(category.value)
    else DefaultHeading
  }

  /** A non-empty query wins over the category and is quoted after the
      Spanish table's "search results"; otherwise an active category is
      named by its title, and the page title is shown when neither is set. */
  lemma HeadingSpec(debouncedQuery: string, category: Option<string>)
    ensures debouncedQuery != "" ==>
      Heading(debouncedQuery, category)
        == "🔍 " + Translations.EsText(Translations.SearchResults) + ": \"" + debouncedQuery + "\""
    ensures debouncedQuery != "" ==> Heading(debouncedQuery, category) == Heading(debouncedQuery, None)
    ensures debouncedQuery == "" && CategoryActive(category) ==>
      Heading(debouncedQuery, category) == CategoryName(category.value)
    ensures debouncedQuery == "" && !CategoryActive(category) ==>
      Heading(debouncedQuery, category) == "🗡️ " + Translations.EsText(Translations.AlbionItems)
  {
    assert SearchHeadingPrefix == "🔍 " + Translations.EsText(Translations.SearchResults) + ": \"";
    assert DefaultHeading == "🗡️ " + Translations.EsText(Translations.AlbionItems);
  }

  /** The page's filter state. */
  class HomeState {
    var searchQuery: string
    var categoryFilter: Option<string>
    var selectedTiers: seq<string>

    /** At most one of search and category is in effect. */
    predicate AtMostOneActive()
      reads this
    {
      !(searchQuery != "" && CategoryActive(categoryFilter))
    }

    constructor ()
      ensures searchQuery == "" && categoryFilter == None && selectedTiers == []
      ensures AtMostOneActive()
    {
      searchQuery := "";
      categoryFilter := None;
      selectedTiers := [];
    }

    /** `handleSearch`: set the query, clear the category. */
    method HandleSearch(query: string)
      modifies this
      ensures searchQuery == query && categoryFilter == None
      ensures selectedTiers == old(selectedTiers)
      ensures AtMostOneActive()
    {
      searchQuery := query;
      categoryFilter := None;
    }

    /** `handleFilterByCategory`: set the category, clear the query. */
    method HandleFilterByCategory(category: string)
      modifies this
      ensures categoryFilter == Some(category) && searchQuery == ""
      ensures selectedTiers == old(selectedTiers)
      ensures AtMostOneActive()
    {
      categoryFilter := Some(category);
      searchQuery := "";
    }

    /** `onTierChange={setSelectedTiers}`. */
    method SetSelectedTiers(tiers: seq<string>)
      modifies this
      ensures selectedTiers == tiers
      ensures searchQuery == old(searchQuery) && categoryFilter == old(categoryFilter)
    {
      selectedTiers := tiers;
    }

    /** The items the page shows for its current state, taking the
        debounced query equal to the current one. */
    method Results(items: seq<CatalogItem>, leq: (string, string) -> bool) returns (r: seq<CatalogItem>)
      requires TotalPreorder(leq)
      ensures var kept := Stages(items, searchQuery, categoryFilter, selectedTiers);
        && |r| == Min(|kept|, MaxResults)
        && multiset(r) <= multiset(kept)
        && SortedByTitle(r, leq)
        && forall i, x :: 0 <= i < |r| && x in multiset(kept) - multiset(r) ==> TitleLeq(leq, r[i], x)
    {
      r := FilteredItems(items, searchQuery, categoryFilter, selectedTiers, leq);
    }
  }
}
