/** One catalogue card: the language decision, the title and description
    chosen through their fallback chains, the tier label, the card number
    and the image address. */
module ItemCard {
  import opened Wrappers
  import opened Text
  import opened AlbionItems
  import Home

  /** The language used when nothing is stored. */
  const DefaultLanguage: string := "ES-ES"

  /** `(stored || 'ES-ES').toLowerCase()`: a missing or empty stored value
      falls back to the default. */
  function LanguageTag(stored: Option<string>): string {
    if stored.Some? && stored.value != "" then ToLower(stored.value) else ToLower(DefaultLanguage)
  }

  /** `isES`: the lowercased tag is `es` or `es-es`. */
  predicate SpanishMode(stored: Option<string>) {
    LanguageTag(stored) == "es" || LanguageTag(stored) == "es-es"
  }

  /** The characters that lowercase to `c`, for an ASCII lowercase `c`. */
  predicate CaseOf(x: char, c: char) {
    x == c || (x as int) + 32 == c as int
  }

  lemma LowerCharIsAscii(x: char, c: char)
    requires 'a' <= c <= 'z'
    ensures LowerChar(x) == c <==> CaseOf(x, c)
  {
  }

  /** Spanish mode holds exactly when nothing (or `''`) is stored, or the
      stored tag is `es` or `es-es` in any mix of upper and lower case;
      every other tag, `EN-US` included, selects English. */
  lemma SpanishModeIff(stored: Option<string>)
    ensures SpanishMode(stored) <==>
      (stored.None? || stored.value == "" ||
       (|stored.value| == 2 && CaseOf(stored.value[0], 'e') && CaseOf(stored.value[1], 's')) ||
       (|stored.value| == 5 && CaseOf(stored.value[0], 'e') && CaseOf(stored.value[1], 's') &&
        stored.value[2] == '-' && CaseOf(stored.value[3], 'e') && CaseOf(stored.value[4], 's')))
  {
    assert ToLower(DefaultLanguage) == "es-es";
    if stored.Some? && stored.value != "" {
      var s := stored.value;
      var l := ToLower(s);
      LowerCharIsAscii(s[0], 'e');
      LowerCharIsAscii(s[1 % |s|], 's');
      if |s| == 5 {
        LowerCharIsAscii(s[3], 'e');
        LowerCharIsAscii(s[4], 's');
        assert LowerChar(s[2]) == '-' <==> s[2] == '-';
      }
      if |s| == 2 {
        assert l == "es" <==> (l[0] == 'e' && l[1] == 's');
      }
      if |s| == 5 {
        assert l == "es-es" <==> (l[0] == 'e' && l[1] == 's' && l[2] == '-' && l[3] == 'e' && l[4] == 's');
      }
    }
  }

  /** `a || b`: the first operand unless it is empty. */
  function Or(a: string, b: string): (r: string)
    ensures r == a || r == b
    ensures r == "" ==> a == "" && b == ""
  {
    if a != "" then a else b
  }

  /** `displayName`: in Spanish mode the Spanish title, else the English
      one, else the id; in English mode the two titles the other way
      round. */
  function DisplayName(item: Item, spanish: bool): string {
    if spanish then Or(Or(item.titleES, item.titleEN), item.id)
    else Or(Or(item.titleEN, item.titleES), item.id)
  }

  /** `displayDescription`: the same chain without the id. */
  function DisplayDescription(item: Item, spanish: bool): string {
    if spanish then Or(item.descriptionES, item.descriptionEN)
    else Or(item.descriptionEN, item.descriptionES)
  }

  /** `Boolean(displayDescription)`: the description block is rendered. */
  predicate ShowsDescription(item: Item, spanish: bool) {
    DisplayDescription(item, spanish) != ""
  }

  /** The name is the first non-empty of the preferred title, the other
      title and the id; it is empty only when all three are. */
  lemma DisplayNameChain(item: Item, spanish: bool)
    ensures var first := if spanish then item.titleES else item.titleEN;
      var second := if spanish then item.titleEN else item.titleES;
      && (first != "" ==> DisplayName(item, spanish) == first)
      && (first == "" && second != "" ==> DisplayName(item, spanish) == second)
      && (first == "" && second == "" ==> DisplayName(item, spanish) == item.id)
    ensures item.id != "" ==> DisplayName(item, spanish) != ""
  {
  }

  /** The description is the first non-empty of the preferred and the
      other description; the block shows iff one of them is non-empty. */
  lemma DisplayDescriptionChain(item: Item, spanish: bool)
    ensures var first := if spanish then item.descriptionES else item.descriptionEN;
      var second := if spanish then item.descriptionEN else item.descriptionES;
      && (first != "" ==> DisplayDescription(item, spanish) == first)
      && (first == "" ==> DisplayDescription(item, spanish) == second)
    ensures ShowsDescription(item, spanish) <==> item.descriptionES != "" || item.descriptionEN != ""
  {
  }

  /** Every item the normaliser produces has a non-empty id, so its card
      always has a non-empty name. */
  lemma NormalisedItemsHaveNames(entries: seq<RawEntry>, spanish: bool)
    requires NullEntry !in entries
    ensures Normalise(entries).Success?
    ensures forall k :: 0 <= k < |Normalise(entries).value| ==>
      DisplayName(Normalise(entries).value[k], spanish) != ""
  {
    NormaliseOutputs(entries);
  }

  /** The text in the tier slot: `Tier ` and the tier without its first
      `T`, or the no-tier notice for a missing or empty tier. */
  function TierText(tier: Option<string>): string {
    if tier.Some? && tier.value != "" then "Tier " + RemoveFirst(tier.value, 'T')
    else "No hay Tier disponible"
  }

  /** A tier label `T` + digits shows its digits: `T4` reads `Tier 4`. */
  lemma TierTextOfLabel(t: string)
    requires IsTierLabel(t)
    ensures TierText(Some(t)) == "Tier " + t[1..]
  {
    assert IndexOf(t, 'T') == 0;
    assert RemoveFirst(t, 'T') == t[..0] + t[1..];
    assert t[..0] + t[1..] == t[1..];
  }

  /** `index + 1`: cards are numbered from 1. */
  function CardNumber(index: nat): (n: nat)
    ensures n >= 1 && n - 1 == index
  {
    index + 1
  }

  /** The cards `Home` renders for `results` are numbered 1, 2, … in
      result order: card `i` shows result `i` under number `i + 1`, no
      number exceeds the cap of 50, and the last card's number is the
      count of cards shown. */
  lemma ShownCardNumbers(results: seq<Home.CatalogItem>)
    ensures var shown := Home.ShownItems(results);
      forall i :: 0 <= i < |shown| ==> shown[i] == results[i] && 1 <= CardNumber(i) <= Home.MaxShown
    ensures var shown := Home.ShownItems(results);
      forall i, j :: 0 <= i < j < |shown| ==> CardNumber(i) < CardNumber(j)
    ensures var shown := Home.ShownItems(results);
      |shown| > 0 ==> CardNumber(|shown| - 1) == |shown|
  {
  }

  const RenderHost: string := "https://render.albiononline.com/v1/item/"

  /** `https://render.albiononline.com/v1/item/${item.id}.png`. */
  function ImageUrl(id: string): (url: string)
    ensures StartsWith(url, RenderHost) && EndsWith(url, ".png")
    ensures |url| == |RenderHost| + |id| + 4
    ensures url[|RenderHost|..|url| - 4] == id
  {
    RenderHost + id + ".png"
  }

  /** Different items get different images: the address determines the id. */
  lemma ImageUrlInjective(a: string, b: string)
    requires ImageUrl(a) == ImageUrl(b)
    ensures a == b
  {
    var u := ImageUrl(a);
    assert a == u[|RenderHost|..|u| - 4];
  }
}
