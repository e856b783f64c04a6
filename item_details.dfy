/** The detail view of one item: the same language decision as the card,
    but the title and description taken from the chosen language only. */
module ItemDetails {
  import opened Wrappers
  import opened AlbionItems
  import opened Text
  import ItemCard

  /** The heading: the title in the chosen language, with no fallback. */
  function DetailsTitle(item: Item, spanish: bool): string {
    if spanish then item.titleES else item.titleEN
  }

  /** The paragraph: the description in the chosen language, with no
      fallback. */
  function DetailsDescription(item: Item, spanish: bool): string {
    if spanish then item.descriptionES else item.descriptionEN
  }

  /** `item.tier && <p>Tier: …</p>`: the tier line, present only for a
      non-empty tier. */
  function TierLine(tier: Option<string>): (line: Option<string>)
    ensures line.Some? <==> tier.Some? && tier.value != ""
    ensures line.Some? ==> line.value == tier.value
  {
    if tier.Some? && tier.value != "" then tier else None
  }

  /** The id line, always present. */
  function IdLine(item: Item): string {
    item.id
  }

  /** Heading and card name agree whenever the chosen title is present;
      when it is missing the heading is empty while the card falls back
      to the other title or the id. Likewise for the description. */
  lemma DetailsVersusCard(item: Item, spanish: bool)
    ensures DetailsTitle(item, spanish) != "" ==> DetailsTitle(item, spanish) == ItemCard.DisplayName(item, spanish)
    ensures DetailsTitle(item, spanish) == "" && item.id != "" ==>
      ItemCard.DisplayName(item, spanish) != DetailsTitle(item, spanish)
    ensures DetailsDescription(item, spanish) != "" ==>
      DetailsDescription(item, spanish) == ItemCard.DisplayDescription(item, spanish)
  {
    ItemCard.DisplayNameChain(item, spanish);
    ItemCard.DisplayDescriptionChain(item, spanish);
  }

  /** The detail view omits its tier line exactly when the card shows the
      no-tier notice; otherwise the card shows the same tier behind
      `Tier `, with its first `T` removed. */
  lemma TierLineVersusCard(tier: Option<string>)
    ensures TierLine(tier).None? <==> ItemCard.TierText(tier) == "No hay Tier disponible"
    ensures TierLine(tier).Some? ==> ItemCard.TierText(tier) == "Tier " + RemoveFirst(TierLine(tier).value, 'T')
  {
    if TierLine(tier).Some? {
      var text := ItemCard.TierText(tier);
      assert text[0] == 'T';
      assert "No hay Tier disponible"[0] == 'N';
    }
  }
}
