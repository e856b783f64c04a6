# Mercado-Albion catalogue rules in Dafny

Mercado-Albion is a React viewer for the items of the game Albion Online.
It loads a bundled list of item records and normalises them into catalogue
items. It shows them filtered by a search box, a category menu and a tier
picker, sorted by title and capped, with a card per item. A detail view
draws the item's price history.

This project models the rules under that interface:

- **Normaliser** (`AlbionItems`). It validates each raw record and maps it
  to an item, with `''` for every missing text field. It reads the tier off
  the name as the first `T` followed by digits. It also models the hook's
  `items`/`loading` state.
- **Catalogue pipeline** (`Home`). The search, category and tier stages run
  in turn, then the sort by lowercased title, the cap at 200 and the 50
  cards shown. The module also covers the de-duplicated tier list, the
  heading, and the two handlers that keep search and category exclusive.
- **Tier picker** (`TierFilter`). It covers the options sorted by tier
  number, the "all selected" flag, the select-all toggle and the hint.
- **Translations** (`Translations`). It holds the English and Spanish
  tables, the lookup with its fallback chain and the
  `{name}`-placeholder substitution.
- **Item card and detail view** (`ItemCard`, `ItemDetails`). They cover the
  Spanish/English decision, the title and description fallback chains,
  the tier label, the card number and the image address.
- **Price chart** (`ItemChart`). It covers the request address, the
  flattening of the response into two parallel series, and the line
  colour per location.
- **Header and empty-list panel** (`Header`, `NoItemsMessage`). They cover
  the search guard, the category menu, and the headline, hint and clear
  button of the empty-list panel.

Four helper modules support these:

- `Wrappers`: `Option` and `Result`.
- `Text`: `toLowerCase`, `trim`, `includes`, `startsWith`, `endsWith` and
  numerals.
- `Sequences`: `filter`, `map`, and `[...new Set(…)]` as `Distinct`.
- `Sorting`: an in-place insertion sort on an array, proved to leave the
  array sorted and a permutation of its old contents. It stands for
  `Array.prototype.sort` with a comparator.

Some state changes in place. These are modelled as classes whose methods
state the new state:

- the hook's `items`/`loading`;
- the page's query, category and tier selection;
- the header's search text;
- the chart's series.

The sort works in place on an `array`. The filter pipeline
(`Home.ApplyFilters`) reassigns its local result through a chain of
`if` stages, with no loop; `Translations.GetTranslation` reassigns its
text entry by entry in a loop whose invariant ties it to the
replacements applied so far. Both are methods whose results are tied
to specification functions.

Collation (`localeCompare`) is a parameter `leq`, required to be a total
preorder. The value stored under the language key is an `Option<string>`
parameter. The response of the price service is an input sequence. Its
date formatting is a function parameter.

The page and the hook disagree on the item's shape. The hook produces
`titleES`/`titleEN` (`useAlbionItems.ts:24-27`). The page reads `title`
(`Home.tsx:27, 98`). The model follows each file: `Home.CatalogItem` has
the `title` the page reads, and `AlbionItems.Item` has the two titles the
hook writes.

## Model

| member | source | states |
|---|---|---|
| AlbionItems.FindTierStart | Mercado-Albion/src/hooks/useAlbionItems.ts:46 | None means no `T` followed by a digit at or after `from`; otherwise the result is the leftmost such position |
| AlbionItems.ExtractTierSpec | Mercado-Albion/src/hooks/useAlbionItems.ts:46-47 | The tier is absent iff the name has no `T` immediately followed by a digit. Otherwise it is the match of `/T\d+/`: it starts at the leftmost such `T`, is `T` plus digits, and takes the whole run of digits |
| AlbionItems.FirstTierMatchUnique | Mercado-Albion/src/hooks/useAlbionItems.ts:46-47 | The description of the regex match singles out one string, so the tier is well defined |
| AlbionItems.ExtractTierExample | Mercado-Albion/src/hooks/useAlbionItems.ts:46-47 | `T4_MAIN_SWORD` yields tier `T4` |
| AlbionItems.Normalise | Mercado-Albion/src/hooks/useAlbionItems.ts:38-59 | Mapping fails exactly when the list holds a `null` element, whose property read throws. On success there are at most as many items as records |
| AlbionItems.NormaliseIsFilterMap | Mercado-Albion/src/hooks/useAlbionItems.ts:38-59 | The normaliser is a filter on validity followed by a map to items. It keeps input order, maps each valid record to exactly one item and drops every invalid one |
| AlbionItems.NormaliseOutputs | Mercado-Albion/src/hooks/useAlbionItems.ts:38-59 | Without `null` elements mapping succeeds. There is one item per valid record, the k-th item is made from the k-th valid record, and its id is that record's non-empty `UniqueName` |
| AlbionItems.ValidItems | Mercado-Albion/src/hooks/useAlbionItems.ts:50 | Items made from valid records carry the record's non-empty name as id |
| AlbionItems.ToItemFields | Mercado-Albion/src/hooks/useAlbionItems.ts:40-56 | For a valid record, the id is the name and `descriptionVariable` is the record's. Each title and description is the `ES-ES`/`EN-US` table entry, or `''` when that entry is missing. The tier is absent iff the name has no `T`+digit, and otherwise it is the first match |
| AlbionItems.ItemsHook.constructor | Mercado-Albion/src/hooks/useAlbionItems.ts:31-32 | The hook starts with no items and loading |
| AlbionItems.ItemsHook.FetchItems | Mercado-Albion/src/hooks/useAlbionItems.ts:38-67 | Loading ends whether or not mapping threw. The items are replaced by the mapped list only on success and are left unchanged otherwise |
| Home.SearchActiveIff | Mercado-Albion/src/pages/Home.tsx:23 | The search stage applies iff the query has a character that is not white space; an empty or blank query applies none |
| Home.CategoryIgnoresCase | Mercado-Albion/src/pages/Home.tsx:33-84 | Every branch of the category `switch` (weapons and armor keywords, resources and food markers, the keep-all default) keeps an item exactly when it keeps the copy with lowercased id, title and description variable |
| Home.SearchIgnoresCase | Mercado-Albion/src/pages/Home.tsx:23-29 | The search keeps an item the same way whether the query is lowercased or not, and whether the item's id and title are lowercased or not |
| Home.FoodRule | Mercado-Albion/src/pages/Home.tsx:76-81 | `MEAL_` and `FISH_` can never match the lowercased text. So `food` keeps an item iff one of the three `@items_*_desc` food markers occurs |
| Home.StagesAreOneFilter | Mercado-Albion/src/pages/Home.tsx:20-94 | The three staged filters equal a single filter on the conjunction of the active stages' conditions. So they only remove items and never add or reorder any (the multiset shrinks) |
| Home.StagesKeepExactly | Mercado-Albion/src/pages/Home.tsx:20-94 | An item survives the stages iff it is an input item and meets every active stage's condition: the search match, the category rule, and a defined tier that is in the selection |
| Home.InactiveStagesKeepAll | Mercado-Albion/src/pages/Home.tsx:20-94 | A blank query, no category and an empty tier selection keep all items, in order |
| Home.TitleOrderIsTotalPreorder | Mercado-Albion/src/pages/Home.tsx:97-101 | Comparing lowercased titles is a total preorder whenever the collation is |
| Home.ApplyFilters | Mercado-Albion/src/pages/Home.tsx:20-94 | Reassigning `filtered` through each active stage computes exactly the staged result |
| Home.SortAndCap | Mercado-Albion/src/pages/Home.tsx:97-103 | The result has min(n, 200) items drawn from the n given ones and is sorted by lowercased title. No item cut by the cap sorts before a kept one |
| Home.FilteredItems | Mercado-Albion/src/pages/Home.tsx:19-104 | `filteredItems` has min(kept, 200) items, drawn from the items the stages keep and sorted by lowercased title. The cap drops only items that sort no earlier than every kept one |
| Home.ShownCount | Mercado-Albion/src/pages/Home.tsx:201 | The count shown is the smaller of the result size and 50 |
| Home.ShownItems | Mercado-Albion/src/pages/Home.tsx:185 | The cards rendered are the first min(n, 50) results, in result order |
| Home.DefinedTiers | Mercado-Albion/src/pages/Home.tsx:108-110 | Defined as the source's map then filter, so the tiers come in item order. Every defined tier of an item is listed, and everything listed is some item's tier |
| Home.AvailableTiersSpec | Mercado-Albion/src/pages/Home.tsx:107-114 | `availableTiers` has no duplicates and holds exactly the tiers some item defines. They are listed in the order of their first occurrence |
| Home.CategoryNamesFromTable | Mercado-Albion/src/pages/Home.tsx:140-148 | Each of the four categories is named by its Spanish table title, and any other value by the "unknown category" text |
| Home.HeadingSpec | Mercado-Albion/src/pages/Home.tsx:160-162 | A non-empty query wins over the category and is quoted after "Resultados de búsqueda". Otherwise an active category is named, and with neither the page title shows |
| Home.HomeState.constructor | Mercado-Albion/src/pages/Home.tsx:11-13 | The page starts with an empty query, no category and no tiers selected |
| Home.HomeState.HandleSearch | Mercado-Albion/src/pages/Home.tsx:116-119 | Sets the query and clears the category. The tier selection is unchanged, and at most one of search and category is in effect |
| Home.HomeState.HandleFilterByCategory | Mercado-Albion/src/pages/Home.tsx:121-124 | Sets the category and clears the query. The tier selection is unchanged, and at most one of search and category is in effect |
| Home.HomeState.SetSelectedTiers | Mercado-Albion/src/pages/Home.tsx:176 | The picker's change replaces the tier selection and nothing else |
| Home.HomeState.Results | Mercado-Albion/src/pages/Home.tsx:19-104 | For the current state, the page lists min(kept, 200) of the kept items, sorted by title, and no kept item left out sorts before a listed one (the first 200 by title) |
| Sorting.SortBy | Mercado-Albion/src/pages/Home.tsx:97-101 | Sorting with a total-preorder comparator leaves the array ordered by it and a permutation of its old contents |
| Sorting.SortedPrefix | Mercado-Albion/src/pages/Home.tsx:103 | A prefix of a sorted list is sorted, and nothing after it sorts before anything in it |
| Sequences.DistinctFirstOccurrenceOrder | Mercado-Albion/src/pages/Home.tsx:108-111 | `[...new Set(s)]` lists the distinct elements in the order of their first occurrence in `s` |
| TierFilter.TierNumberOfLabel | Mercado-Albion/src/pages/components/filter/Filter.tsx:24-25 | For a label `T` plus digits, removing the first `T` leaves the digits, and the number read is their value |
| TierFilter.TierOrderIsTotalPreorder | Mercado-Albion/src/pages/components/filter/Filter.tsx:23-27 | Ordering by tier number is a total preorder |
| TierFilter.TierOptions | Mercado-Albion/src/pages/components/filter/Filter.tsx:22-31 | The tiers are rearranged in place into ascending tier number, as a permutation of the old contents. There is one option per tier, in that order, with name and value equal to the tier |
| TierFilter.SelectAllMeansEverySelected | Mercado-Albion/src/pages/components/filter/Filter.tsx:33 | For a duplicate-free selection drawn from duplicate-free available tiers, the flag holds iff every available tier is selected and there is at least one |
| TierFilter.OnSelectAll | Mercado-Albion/src/pages/components/filter/Filter.tsx:71-73 | A checked box yields the empty selection, and an unchecked one yields all available tiers |
| TierFilter.SelectAllEffect | Mercado-Albion/src/pages/components/filter/Filter.tsx:71-73 | Clearing empties the selection. After selecting all available tiers, the tier test passes for an item of the catalogue exactly when its tier is defined and non-empty |
| TierFilter.SelectAllStage | Mercado-Albion/src/pages/Home.tsx:89-93 | After selecting all available tiers, the tier stage keeps exactly the items with a non-empty tier among those the search and category stages keep, if some item has a tier; if none does, the selection is empty and the stage keeps everything |
| TierFilter.HintIffNoTier | Mercado-Albion/src/pages/components/filter/Filter.tsx:88-93 | The "choose a category" hint shows iff no item has a tier |
| Translations.EnComplete | Mercado-Albion/src/config/translations.ts:58-109 | The English table gives every key a non-empty text |
| Translations.EsComplete | Mercado-Albion/src/config/translations.ts:110-161 | The Spanish table gives every key a non-empty text |
| Translations.LookupFallback | Mercado-Albion/src/config/translations.ts:170 | The lookup is the first non-empty of the chosen table's entry, the English entry and the key name. Since both tables are complete, it is always the chosen table's entry |
| Translations.Placeholder | Mercado-Albion/src/config/translations.ts:174 | The text searched for is `{`, then exactly the name, then `}` |
| Translations.ReplaceAbsent | Mercado-Albion/src/config/translations.ts:174 | A text without the placeholder comes back unchanged |
| Translations.ReplaceRemoves | Mercado-Albion/src/config/translations.ts:174 | After the replacement no occurrence of the placeholder is left, provided the value is non-empty and shares no character with it |
| Translations.ReplaceKeepsAbsent | Mercado-Albion/src/config/translations.ts:174 | A replacement whose value is non-empty and shares no character with `q` creates no occurrence of `q` |
| Translations.BraceFreeValueCanLeavePlaceholder | Mercado-Albion/src/config/translations.ts:174 | A brace-free value does not guarantee removal, empty or not: `"{a{ab}b}"` with `{ab}` replaced by `''` leaves `"{ab}"`, and `"{x{xx}}"` with `{xx}` replaced by `"x"` leaves `"{xx}"` |
| Translations.PlaceholdersDisjoint | Mercado-Albion/src/config/translations.ts:174 | Two occurrences of placeholders with different brace-free names never overlap |
| Translations.ReplaceKeepsOtherPlaceholder | Mercado-Albion/src/config/translations.ts:174 | Replacing one placeholder, with any value, keeps every occurrence of a placeholder with a different brace-free name |
| Translations.ReplaceSingle | Mercado-Albion/src/config/translations.ts:174 | A text with exactly one possible occurrence of the placeholder has that occurrence replaced by the value and is otherwise unchanged |
| Translations.GetTranslation | Mercado-Albion/src/config/translations.ts:165-179 | The loop that reassigns `text` entry by entry returns the looked-up text with every replacement applied in entry order |
| Translations.UnusedReplacements | Mercado-Albion/src/config/translations.ts:172-176 | Replacements whose placeholders do not occur leave the text unchanged |
| Translations.LaterReplacementsKeepAbsent | Mercado-Albion/src/config/translations.ts:172-176 | An absent pattern stays absent through later replacements whose values are non-empty and share no character with it |
| Translations.UnnamedPlaceholderKept | Mercado-Albion/src/config/translations.ts:172-176 | A placeholder whose brace-free name no replacement entry names survives the whole loop, whatever the values |
| Translations.SubstitutedPlaceholderGone | Mercado-Albion/src/config/translations.ts:172-176 | A replaced placeholder is gone from the final text when its value and every later value is non-empty and shares no character with it |
| Translations.ShowingItemsExample | Mercado-Albion/src/config/translations.ts:165-179 | `showingItems` in English with `count` = n reads "Showing " + String(n) + " items", so a count of 5 gives "Showing 5 items" |
| ItemCard.SpanishModeIff | Mercado-Albion/src/pages/components/itemCards/ItemCard.tsx:24-27 | Spanish mode holds iff nothing (or `''`) is stored, or the stored tag is `es` or `es-es` in any case. Every other tag selects English |
| ItemCard.Or | Mercado-Albion/src/pages/components/itemCards/ItemCard.tsx:30-31 | `a \|\| b` is one of its operands, and is empty only when both are |
| ItemCard.DisplayNameChain | Mercado-Albion/src/pages/components/itemCards/ItemCard.tsx:30 | The name is the first non-empty of the preferred-language title, the other title and the id. It is non-empty whenever the id is |
| ItemCard.DisplayDescriptionChain | Mercado-Albion/src/pages/components/itemCards/ItemCard.tsx:31-67 | The description is the preferred one if non-empty, else the other. Its block is rendered iff either is non-empty |
| ItemCard.NormalisedItemsHaveNames | Mercado-Albion/src/pages/components/itemCards/ItemCard.tsx:30 | Every normalised item has a non-empty card name, because its id is a non-empty record name |
| ItemCard.TierTextOfLabel | Mercado-Albion/src/pages/components/itemCards/ItemCard.tsx:77-90 | A tier `T`+digits is shown as `Tier` and its digits, e.g. `T4` as `Tier 4` |
| ItemCard.CardNumber | Mercado-Albion/src/pages/components/itemCards/ItemCard.tsx:55 | Cards are numbered from 1: the number is the index plus one |
| ItemCard.ShownCardNumbers | Mercado-Albion/src/pages/Home.tsx:185 | The rendered cards show the first results in order, numbered 1, 2, … up to the count shown, never above 50 |
| ItemCard.ImageUrl | Mercado-Albion/src/pages/components/itemCards/ItemCard.tsx:62 | The address starts with the render host, ends in `.png`, and holds exactly the id between the two |
| ItemCard.ImageUrlInjective | Mercado-Albion/src/pages/components/itemCards/ItemCard.tsx:62 | Different ids get different image addresses |
| ItemDetails.TierLine | Mercado-Albion/src/pages/components/itemDetails/ItemDetails.tsx:25 | The tier line is present iff the tier is defined and non-empty, and then it shows the tier |
| ItemDetails.TierLineVersusCard | Mercado-Albion/src/pages/components/itemDetails/ItemDetails.tsx:25 | The detail view omits its tier line exactly when the card shows "No hay Tier disponible"; otherwise the card shows the same tier behind `Tier ` |
| ItemDetails.DetailsVersusCard | Mercado-Albion/src/pages/components/itemDetails/ItemDetails.tsx:23-24 | The detail heading takes the chosen language's title with no fallback. It agrees with the card name when that title is present and differs from it (empty) when it is missing. The description behaves the same way |
| ItemChart.TimeScale | Mercado-Albion/src/pages/components/itemDetails/components/ItemChart.tsx:41-44 | The time scale is 168 iff the range is `1week`, and 24 otherwise |
| ItemChart.LocationQuery | Mercado-Albion/src/pages/components/itemDetails/components/ItemChart.tsx:46 | `&locations=` plus the location when one is selected, and `''` otherwise |
| ItemChart.HistoryUrlParts | Mercado-Albion/src/pages/components/itemDetails/components/ItemChart.tsx:48-50 | The address is the history path, the item id, `?time-scale=` with the scale, and the location part, in that order. For an id without `?`, the id is read back up to the first `?` |
| ItemChart.TimeScaleDigits | Mercado-Albion/src/pages/components/itemDetails/components/ItemChart.tsx:49 | The address carries `168` for a week and `24` otherwise |
| ItemChart.FlattenLength | Mercado-Albion/src/pages/components/itemDetails/components/ItemChart.tsx:55 | The flattened list has as many points as all entries together |
| ItemChart.FlattenAt | Mercado-Albion/src/pages/components/itemDetails/components/ItemChart.tsx:55 | The j-th point of entry k sits in the flattened list at the count of the earlier entries' points plus j |
| ItemChart.ChartState.constructor | Mercado-Albion/src/pages/components/itemDetails/components/ItemChart.tsx:34-35 | Both series start empty and paired |
| ItemChart.ChartState.ApplyResponse | Mercado-Albion/src/pages/components/itemDetails/components/ItemChart.tsx:53-76 | A non-empty response replaces both series with the formatted timestamps and average prices of the flattened points, which have equal length (the total point count). An empty response leaves both series unchanged and only raises a notice when the toast is mounted |
| ItemChart.PriceAt | Mercado-Albion/src/pages/components/itemDetails/components/ItemChart.tsx:55-63 | After a non-empty response, price i is the average price of the i-th point in entry-then-point order |
| ItemChart.LineColours | Mercado-Albion/src/pages/components/itemDetails/components/ItemChart.tsx:92-114 | Each of the eight locations has its own colour, and the empty or an unknown location falls back to `#ffffffff` |
| Header.MenuCategories | Mercado-Albion/src/pages/components/header/Header.tsx:22-51 | The four entries select weapons, armor, resources and food, in that order. Each is a category the page knows, and each label is the Spanish table's word for it |
| Header.Submission | Mercado-Albion/src/pages/components/header/Header.tsx:53-57 | A query is handed on iff its trimmed form is non-empty, and what is handed on is the trimmed form |
| Header.SubmissionSpec | Mercado-Albion/src/pages/components/header/Header.tsx:53-57 | A query is handed on iff it has a character that is not white space. What is handed on neither starts nor ends with white space |
| Header.SubmissionSearches | Mercado-Albion/src/pages/components/header/Header.tsx:55 | The trimmed query handed to the page turns the search on, with the same search term the raw query would give |
| Header.SearchBox.constructor | Mercado-Albion/src/pages/components/header/Header.tsx:20 | The search box starts empty |
| Header.SearchBox.OnChange | Mercado-Albion/src/pages/components/header/Header.tsx:96 | Typing only replaces the box's text |
| Header.SearchBox.HandleSearch | Mercado-Albion/src/pages/components/header/Header.tsx:53-57 | The button hands on something iff the text has a non-blank character, and then it hands on the non-empty trimmed text |
| Header.SearchBox.OnKeyDown | Mercado-Albion/src/pages/components/header/Header.tsx:99-103 | Enter runs the same search as the button, and any other key hands nothing on |
| NoItemsMessage.HeadlineSpec | Mercado-Albion/src/pages/components/itemCards/NoItemsMessage.tsx:33-36 | The headline is "No se encontraron items" iff a query or category is set, and "No hay items disponibles" otherwise. It says nothing was found exactly when the clear button is offered |
| NoItemsMessage.HintSpec | Mercado-Albion/src/pages/components/itemCards/NoItemsMessage.tsx:39-44 | The hint follows the priority search over category over loading, each text the Spanish table's entry |
| NoItemsMessage.ClearButton | Mercado-Albion/src/pages/components/itemCards/NoItemsMessage.tsx:46-57 | The clear button is offered iff a query or category is set, and its only action is clearing the filters |

## Left out

- JSX, styling and widget set-up (cards, dialogs, the multi-select's own behaviour, the chart library's options), the loading screen (`Home.tsx:126-138`), the totals lines (`Home.tsx:165, 202-210`) and the language-change modal: presentation only.
- The fetch of the price history and its JSON decoding: I/O. The decoded response is an input sequence. Date formatting is a function parameter, and prices are integers (floating point is not modelled).
- `localStorage`: the stored language is an `Option<string>` parameter. The card and the detail view read the same key (`albion_language`), so `ItemCard.SpanishMode` serves both.
- `useDebounce` and its 300 ms window: `Home.HomeState.Results` takes the debounced query equal to the current one. The interval in which an old query and a new category coexist is not modelled.
- The asynchronous ordering of chart requests: a late answer to an earlier request overwriting a newer one is not modelled.
- Home.SortAndCap: `localeCompare` is the abstract total preorder `leq`. The contract fixes the order only up to ties, not which tied item comes first.
- Text.LowerChar: lower-cases ASCII and the Latin-1 capitals only. The full Unicode case mapping of `toLowerCase` is not modelled.
- TierFilter.TierNumber: `parseInt` of a string without leading digits (NaN in the source) reads as 0. Signs and leading white space are not modelled. Tiers produced by the normaliser are always `T` plus digits.
- Translations.ReplaceAll: the placeholder is matched as literal text. Names containing regular-expression metacharacters, and `$` patterns in values, are not modelled.
- Translations.UnnamedPlaceholderKept: covers only names without `{` or `}`. A name containing a brace can make two placeholders overlap (`{a}` lies inside `{{a}}`), so replacing one can destroy the other; such names are not covered.
- Translations.Translate: the replacements are a sequence in the order `Object.entries` yields them. Numbers are integers, written by `String` as decimal numerals.
- Home.CategoryName and ItemChart.LineColour: lookups of inherited object properties (a category named `constructor`, say) are not modelled; such a key reads as unknown here.
- In-place aliasing: `Home.tsx:97` sorts the hook's own array when no stage ran, and `Filter.tsx:22-23` sorts the page's `availableTiers`. The model sorts a fresh copy (`Home.SortAndCap`) or the array it is given (`TierFilter.TierOptions`). React's ownership of these arrays is not modelled.
- The hook's only failure path is a `null` element in the item list. Other exceptions would need records of the wrong type and are not modelled, nor are the console messages. The `itemDescription` field is never set by the hook and is omitted.
- The `title` field the page reads is not produced by the hook, which writes `titleES`/`titleEN`. The page's item is taken as given with a `title`; what the page does with items lacking one is not modelled.
- `ItemDetails.IdLine`: the id line is always present; it has no contract beyond returning the id.
- Clicking the clear button is modelled as the value `NoItemsMessage.ClearFilters`, the one action it triggers. What `onClearFilters` then does belongs to a caller outside this model.
- `CONFIG` entries not read by the modelled code (cache settings, the items URL), the response interface file, `i18n.js`, `main.tsx`, `App.tsx` and `TestApp.tsx`: configuration and wiring.
