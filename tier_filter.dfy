/** The tier picker beside the catalogue: the options sorted by tier
    number, the "all selected" flag, the select-all toggle and the hint
    shown when no tier is available. */
module TierFilter {
  import opened Wrappers
  import opened Text
  import opened Sequences
  import opened Sorting
  import Home

  /** `parseInt(tier.replace('T', ''))`: the first `T` removed, then the
      leading decimal digits read. */
  function TierNumber(tier: string): nat {
    ParseLeadingInt(RemoveFirst(tier, 'T'))
  }

  /** On a tier label (`T` and digits) the number is the digits' value:
      `"T4"` gives 4, `"T10"` gives 10. */
  lemma TierNumberOfLabel(digits: string)
    requires AllDigits(digits)
    ensures RemoveFirst("T" + digits, 'T') == digits
    ensures TierNumber("T" + digits) == DigitsValue(digits)
  {
    assert IndexOf("T" + digits, 'T') == 0;
    assert ("T" + digits)[1..] == digits;
    ParseWellFormed(digits);
  }

  /** The comparator `(a, b) => numA - numB`, read as "a sorts no later
      than b". */
  predicate TierLeq(a: string, b: string) {
    TierNumber(a) <= TierNumber(b)
  }

  lemma TierOrderIsTotalPreorder()
    ensures TotalPreorder(TierLeq)
  {
  }

  /** One option of the multi-select. */
  datatype TierOption = TierOption(name: string, value: string)

  function OptionOf(tier: string): TierOption {
    TierOption(tier, tier)
  }

  /** `tierOptions`: sorts the given tiers in place by tier number and
      maps each to an option whose name and value are the tier. The
      options hold the same tiers as before, as many times each, in
      ascending tier number. */
  method TierOptions(tiers: array<string>) returns (options: seq<TierOption>)
    modifies tiers
    ensures multiset(tiers[..]) == old(multiset(tiers[..]))
    ensures SortedBy(tiers[..], TierLeq)
    ensures |options| == tiers.Length
    ensures forall i :: 0 <= i < |options| ==>
      options[i].name == options[i].value == tiers[i]
    ensures forall i, j :: 0 <= i < j < |options| ==>
      TierNumber(options[i].value) <= TierNumber(options[j].value)
  {
    TierOrderIsTotalPreorder();
    SortBy(tiers, TierLeq);
    options := Map(tiers[..], OptionOf);
    assert forall i, j :: 0 <= i < j < |options| ==> TierLeq(tiers[i], tiers[j]);
  }

  /** `selectedTiers.length === availableTiers.length && availableTiers.length > 0`. */
  predicate SelectAllFlag(selected: seq<string>, available: seq<string>) {
    |selected| == |available| && |available| > 0
  }

  /** When the selection is drawn from the available tiers and neither
      list repeats a tier, the flag holds exactly when every available
      tier is selected and there is at least one. */
  lemma SelectAllMeansEverySelected(selected: seq<string>, available: seq<string>)
    requires NoDuplicates(selected) && NoDuplicates(available)
    requires forall i :: 0 <= i < |selected| ==> selected[i] in available
    ensures SelectAllFlag(selected, available) <==>
      |available| > 0 && (set t | t in selected) == (set t | t in available)
  {
    var s := set t | t in selected;
    var a := set t | t in available;
    NoDuplicatesCard(selected);
    NoDuplicatesCard(available);
    assert s <= a;
    if |selected| == |available| {
      assert |a - s| == |a| - |s|;
      assert a - s == {};
      assert a == s;
    }
  }

  /** `onSelectAll`: a checked box clears the selection, otherwise every
      available tier is selected. */
  function OnSelectAll(checked: bool, available: seq<string>): (selection: seq<string>)
    ensures checked ==> selection == []
    ensures !checked ==> selection == available
  {
    if checked then [] else available
  }

  /** `availableTiers.length === 0`: the hint asking for a category. */
  predicate ShowHint(available: seq<string>) {
    |available| == 0
  }

  /** Clearing through select-all switches the tier stage off, so the
      catalogue keeps exactly what the search and category stages keep;
      selecting every available tier keeps every item whose tier is
      defined and non-empty. */
  lemma SelectAllEffect(items: seq<Home.CatalogItem>, checked: bool)
    ensures checked ==> OnSelectAll(checked, Home.AvailableTiers(items)) == []
    ensures !checked ==> forall i :: 0 <= i < |items| ==>
      (Home.TierKeeps(OnSelectAll(checked, Home.AvailableTiers(items)), items[i]) <==>
       (items[i].tier.Some? && items[i].tier.value != ""))
  {
    Home.AvailableTiersSpec(items);
  }

  /** `item.tier && …`: the tier test of an item whose tier is selected. */
  predicate HasNonEmptyTier(item: Home.CatalogItem) {
    item.tier.Some? && item.tier.value != ""
  }

  /** Selecting every available tier: when some item defines a tier, the
      tier stage turns on and keeps, of what the search and category stages
      keep, exactly the items with a non-empty tier; when no item defines
      one, the selection is empty and the stage stays off. */
  lemma SelectAllStage(items: seq<Home.CatalogItem>, query: string, category: Option<string>)
    ensures var all := OnSelectAll(false, Home.AvailableTiers(items));
      var base := Home.Stages(items, query, category, []);
      && ((exists i :: 0 <= i < |items| && items[i].tier.Some?) ==>
            Home.Stages(items, query, category, all) == Filter(base, HasNonEmptyTier))
      && ((forall i :: 0 <= i < |items| ==> items[i].tier.None?) ==>
            Home.Stages(items, query, category, all) == base)
  {
    var av := Home.AvailableTiers(items);
    var base := Home.Stages(items, query, category, []);
    Home.AvailableTiersSpec(items);
    HintIffNoTier(items);
    StagesBaseInItems(items, query, category);
    assert Home.Stages(items, query, category, av) == FilterIf(|av| > 0, base, Home.TierPred(av));
    if |av| > 0 {
      forall k | 0 <= k < |base| ensures Home.TierPred(av)(base[k]) == HasNonEmptyTier(base[k]) {
        assert base[k] in base;
      }
      FilterExt(base, Home.TierPred(av), HasNonEmptyTier);
    }
  }

  /** What the search and category stages keep comes from the items. */
  lemma StagesBaseInItems(items: seq<Home.CatalogItem>, query: string, category: Option<string>)
    ensures forall x :: x in Home.Stages(items, query, category, []) ==> x in items
  {
    var s1 := FilterIf(Home.SearchActive(query), items, Home.SearchPred(query));
    FilterMembers(items, Home.SearchPred(query));
    FilterMembers(s1, Home.CategoryPred(category));
  }

  /** The hint shows exactly when no item has a tier. */
  lemma HintIffNoTier(items: seq<Home.CatalogItem>)
    ensures ShowHint(Home.AvailableTiers(items)) <==>
      forall i :: 0 <= i < |items| ==> items[i].tier.None?
  {
    Home.AvailableTiersSpec(items);
    var av := Home.AvailableTiers(items);
    if |av| > 0 {
      assert av[0] in av;
    }
    if exists i :: 0 <= i < |items| && items[i].tier.Some? {
      var i :| 0 <= i < |items| && items[i].tier.Some?;
      assert items[i].tier.value in av;
    }
  }
}
