/** The `useAlbionItems` hook: the bundled item list is mapped record by
    record to catalogue `Item`s, records without a name or without their
    localisation tables are dropped, and the tier is read off the name. */
module AlbionItems {
  import opened Wrappers
  import opened Text
  import opened Sequences

  /** One record of the bundled JSON list. A missing text field reads as
      the empty string (both are falsy); the two localisation tables are
      objects that may be missing. */
  datatype RawRecord = RawRecord(
    uniqueName: string,
    descriptionVariable: string,
    localizedNames: Option<map<string, string>>,
    localizedDescriptions: Option<map<string, string>>)

  /** An element of the JSON array: a record, or `null`, on which reading a
      property throws. */
  datatype RawEntry = NullEntry | Entry(record: RawRecord)

  /** The normalised item. Every text field is set (possibly to `''`); the
      tier is absent when the name has none. */
  datatype Item = Item(
    id: string,
    descriptionVariable: string,
    titleES: string,
    titleEN: string,
    descriptionES: string,
    descriptionEN: string,
    tier: Option<string>)

  // ---------------------------------------------------------------------
  // Tier extraction: the first match of /T\d+/

  /** A `T` immediately followed by a digit starts at index `i`. */
  predicate TierStartsAt(s: string, i: int) {
    0 <= i && i + 1 < |s| && s[i] == 'T' && IsDigit(s[i + 1])
  }

  predicate HasTierMarker(s: string) {
    exists i | 0 <= i < |s| :: TierStartsAt(s, i)
  }

  /** A tier label: `T` followed by one or more digits. */
  predicate IsTierLabel(t: string) {
    |t| >= 2 && t[0] == 'T' && AllDigits(t[1..])
  }

  /** `t` is what /T\d+/ matches in `s`: it starts at the leftmost `T` that
      is followed by a digit and takes the whole run of digits after it. */
  ghost predicate IsFirstTierMatch(s: string, t: string) {
    exists i :: FirstTierMatchAt(s, t, i)
  }

  /** `t` occurs in `s` at `i`, is a tier label, no tier starts earlier,
      and no digit follows it. */
  ghost predicate FirstTierMatchAt(s: string, t: string, i: int) {
    && 0 <= i && i + |t| <= |s| && s[i..i + |t|] == t
    && IsTierLabel(t)
    && (forall j :: 0 <= j < i ==> !TierStartsAt(s, j))
    && (i + |t| == |s| || !IsDigit(s[i + |t|]))
  }

  /** The leftmost `i >= from` at which a tier starts. */
  function FindTierStart(s: string, from: nat): (r: Option<nat>)
    requires from <= |s|
    decreases |s| - from
    ensures r.None? ==> forall i :: from <= i ==> !TierStartsAt(s, i)
    ensures r.Some? ==> from <= r.value && TierStartsAt(s, r.value)
    ensures r.Some? ==> forall i :: from <= i < r.value ==> !TierStartsAt(s, i)
  {
    if from == |s| then None
    else if TierStartsAt(s, from) then Some(from)
    else FindTierStart(s, from + 1)
  }

  /** `name.match(/T\d+/)?.[0]`. */
  function ExtractTier(name: string): Option<string> {
    match FindTierStart(name, 0)
    case None => None
    case Some(i) => Some(name[i..i + 1 + |LeadingDigits(name[i + 1..])|])
  }

  /** The tier is absent exactly when no `T` is followed by a digit, and
      otherwise it is the regular expression's match. */
  lemma ExtractTierSpec(name: string)
    ensures ExtractTier(name).None? <==> !HasTierMarker(name)
    ensures ExtractTier(name).Some? ==> IsFirstTierMatch(name, ExtractTier(name).value)
  {
    match FindTierStart(name, 0)
    case None =>
    case Some(i) =>
      var d := LeadingDigits(name[i + 1..]);
      var t := name[i..i + 1 + |d|];
      assert t == [name[i]] + d;
      assert t[1..] == d;
      assert name[i + 1..][0] == name[i + 1];
      assert |d| >= 1;
      assert i + |t| == |name| || name[i + |t|] == name[i + 1..][|d|];
      assert FirstTierMatchAt(name, t, i);
  }

  /** The match is unique: two strings that both satisfy the description
      are the same. */
  lemma FirstTierMatchUnique(s: string, t1: string, t2: string)
    requires IsFirstTierMatch(s, t1) && IsFirstTierMatch(s, t2)
    ensures t1 == t2
  {
    var i1 :| FirstTierMatchAt(s, t1, i1);
    var i2 :| FirstTierMatchAt(s, t2, i2);
    assert t1[0] == s[i1] && t1[1] == s[i1 + 1];
    assert t2[0] == s[i2] && t2[1] == s[i2 + 1];
    assert TierStartsAt(s, i1) && TierStartsAt(s, i2);
    assert i1 == i2;
  }

  /** A weapon name yields its tier. */
  lemma ExtractTierExample()
    ensures ExtractTier("T4_MAIN_SWORD") == Some("T4")
  {
    var a := "T4_MAIN_SWORD";
    assert TierStartsAt(a, 0);
    assert a[1..] == "4_MAIN_SWORD";
    assert LeadingDigits(a[1..]) == "4" by {
      assert a[1..][1..] == "_MAIN_SWORD";
      assert LeadingDigits("_MAIN_SWORD") == [];
    }
    assert a[0..2] == "T4";
  }

  // ---------------------------------------------------------------------
  // Record validation and mapping

  /** `!i.UniqueName || !i.LocalizedNames || !i.LocalizedDescriptions` is
      false: the name is non-empty and both tables are present (an empty
      table object is still truthy). */
  predicate IsValid(r: RawRecord) {
    r.uniqueName != "" && r.localizedNames.Some? && r.localizedDescriptions.Some?
  }

  /** `table[locale] || ''`. */
  function Localized(table: map<string, string>, locale: string): string {
    if locale in table then table[locale] else ""
  }

  /** The item a record maps to (the tables are present for a valid one). */
  function ToItem(r: RawRecord): Item {
    var names := r.localizedNames.GetOr(map[]);
    var descriptions := r.localizedDescriptions.GetOr(map[]);
    Item(
      id := r.uniqueName,
      descriptionVariable := r.descriptionVariable,
      titleES := Localized(names, "ES-ES"),
      titleEN := Localized(names, "EN-US"),
      descriptionES := Localized(descriptions, "ES-ES"),
      descriptionEN := Localized(descriptions, "EN-US"),
      tier := ExtractTier(r.uniqueName))
  }

  /** The items one record contributes. */
  function ItemsOf(rec: RawRecord): seq<Item> {
    if IsValid(rec) then [ToItem(rec)] else []
  }

  /** `typedLocalItems.map(...).filter(item => item !== null)`: fails when
      the list holds a `null` element (the mapping throws on it), and
      otherwise maps every valid record, in order, dropping the others. */
  function Normalise(entries: seq<RawEntry>): (r: Result<seq<Item>>)
    ensures r.Failure? <==> NullEntry in entries
    ensures r.Success? ==> |r.value| <= |entries|
  {
    if entries == [] then Success([])
    else
      match entries[0]
      case NullEntry => Failure("null element in the item list")
      case Entry(rec) =>
        assert entries == [entries[0]] + entries[1..];
        match Normalise(entries[1..])
        case Failure(e) => Failure(e)
        case Success(rest) => Success(ItemsOf(rec) + rest)
  }

  /** The records of a list without `null` elements. */
  function Records(entries: seq<RawEntry>): (rs: seq<RawRecord>)
    requires NullEntry !in entries
    ensures |rs| == |entries|
    ensures forall i :: 0 <= i < |entries| ==> entries[i] == Entry(rs[i])
  {
    if entries == [] then []
    else
      assert entries[0] in entries;
      [entries[0].record] + Records(entries[1..])
  }

  lemma NormaliseCons(entries: seq<RawEntry>)
    requires entries != [] && NullEntry !in entries
    ensures NullEntry !in entries[1..]
    ensures Normalise(entries) == Success(ItemsOf(entries[0].record) + Normalise(entries[1..]).value)
  {
    assert entries[0] in entries;
    var rest := entries[1..];
    assert NullEntry !in rest by {
      forall i | 0 <= i < |rest| ensures rest[i] != NullEntry {
        assert rest[i] == entries[i + 1];
      }
    }
    var rec := entries[0].record;
    assert entries[0] == Entry(rec);
    assert Normalise(rest).Success?;
  }

  lemma FilterMapCons(rs: seq<RawRecord>)
    requires rs != []
    ensures Map(Filter(rs, IsValid), ToItem) == ItemsOf(rs[0]) + Map(Filter(rs[1..], IsValid), ToItem)
  {
    var head := if IsValid(rs[0]) then [rs[0]] else [];
    assert Filter(rs, IsValid) == head + Filter(rs[1..], IsValid);
    MapConcat(head, Filter(rs[1..], IsValid), ToItem);
  }

  /** The normaliser is the composition of a filter on validity with a map
      to items: so it keeps the input order, maps each valid record to
      exactly one item and drops every invalid one. */
  lemma {:induction false} NormaliseIsFilterMap(entries: seq<RawEntry>)
    requires NullEntry !in entries
    ensures Normalise(entries) == Success(Map(Filter(Records(entries), IsValid), ToItem))
  {
    if entries != [] {
      NormaliseCons(entries);
      NormaliseIsFilterMap(entries[1..]);
      var rs := Records(entries);
      assert rs[1..] == Records(entries[1..]);
      FilterMapCons(rs);
    }
  }

  /** The k-th item is made from the k-th valid record, so its id is that
      record's non-empty name; there is one item per valid record. */
  lemma NormaliseOutputs(entries: seq<RawEntry>)
    requires NullEntry !in entries
    ensures Normalise(entries).Success?
    ensures var out := Normalise(entries).value;
      var kept := Filter(Records(entries), IsValid);
      && |out| == |kept|
      && forall k :: 0 <= k < |out| ==> out[k] == ToItem(kept[k]) && out[k].id == kept[k].uniqueName != ""
  {
    NormaliseIsFilterMap(entries);
    var kept := Filter(Records(entries), IsValid);
    FilterSatisfies(Records(entries), IsValid);
    ValidItems(kept);
  }

  /** Items made from valid records have their record's non-empty name
      as id. */
  lemma ValidItems(kept: seq<RawRecord>)
    requires forall k :: 0 <= k < |kept| ==> IsValid(kept[k])
    ensures var out := Map(kept, ToItem);
      forall k :: 0 <= k < |out| ==> out[k] == ToItem(kept[k]) && out[k].id == kept[k].uniqueName != ""
  {
  }

  /** What one valid record becomes: the id is the name, every text field
      is the table entry for its locale or `''`, and the tier is absent
      exactly when the name has no `T` followed by a digit. */
  lemma ToItemFields(rec: RawRecord)
    requires IsValid(rec)
    ensures ToItem(rec).id == rec.uniqueName
    ensures ToItem(rec).descriptionVariable == rec.descriptionVariable
    ensures var names := rec.localizedNames.value;
      ToItem(rec).titleES == (if "ES-ES" in names then names["ES-ES"] else "")
      && ToItem(rec).titleEN == (if "EN-US" in names then names["EN-US"] else "")
    ensures var ds := rec.localizedDescriptions.value;
      ToItem(rec).descriptionES == (if "ES-ES" in ds then ds["ES-ES"] else "")
      && ToItem(rec).descriptionEN == (if "EN-US" in ds then ds["EN-US"] else "")
    ensures ToItem(rec).tier.None? <==> !HasTierMarker(rec.uniqueName)
    ensures ToItem(rec).tier.Some? ==> IsFirstTierMatch(rec.uniqueName, ToItem(rec).tier.value)
  {
    ExtractTierSpec(rec.uniqueName);
  }

  // ---------------------------------------------------------------------
  // The hook's state

  /** The `items` and `loading` state of the hook. */
  class ItemsHook {
    var items: seq<Item>
    var loading: bool

    /** `useState<Item[]>([])` and `useState(true)`. */
    constructor ()
      ensures items == [] && loading
    {
      items := [];
      loading := true;
    }

    /** `fetchItems`: the list is replaced only when mapping succeeds, and
        loading ends either way (the `finally` block). */
    method FetchItems(entries: seq<RawEntry>)
      modifies this
      ensures !loading
      ensures Normalise(entries).Success? ==> items == Normalise(entries).value
      ensures Normalise(entries).Failure? ==> items == old(items)
    {
      var mapped := Normalise(entries);
      if mapped.Success? {
        items := mapped.value;
      }
      loading := false;
    }
  }
}
