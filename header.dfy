/** The page header: the category menu and the search box, which hands
    its query on only when the query has something besides white space. */
module Header {
  import opened Wrappers
  import opened Text
  import Home
  import Translations

  /** The menu: label and the category it selects, in display order. */
  const Menu: seq<(string, string)> :=
    [("Armas", "weapons"), ("Armaduras", "armor"), ("Recursos", "resources"), ("Comida", "food")]

  /** The category the `i`-th menu entry passes to `onFilterByCategory`. */
  function MenuClick(i: nat): string
    requires i < |Menu|
  {
    Menu[i].1
  }

  /** The four entries select weapons, armor, resources and food, in that
      order; each is a category the catalogue knows, each label is the
      Spanish table's word for it, and the catalogue heading for it is the
      Spanish table's title. */
  lemma MenuCategories()
    ensures |Menu| == 4
    ensures MenuClick(0) == "weapons" && MenuClick(1) == "armor"
    ensures MenuClick(2) == "resources" && MenuClick(3) == "food"
    ensures forall i :: 0 <= i < |Menu| ==> Home.IsKnownCategory(MenuClick(i))
    ensures Menu[0].0 == Translations.EsText(Translations.Weapons)
    ensures Menu[1].0 == Translations.EsText(Translations.Armor)
    ensures Menu[2].0 == Translations.EsText(Translations.Resources)
    ensures Menu[3].0 == Translations.EsText(Translations.Food)
  {
  }

  /** What `handleSearch` passes to `onSearch`: the trimmed query, or
      nothing when it is empty. */
  function Submission(query: string): (r: Option<string>)
    ensures r.Some? <==> Trim(query) != ""
    ensures r.Some? ==> r.value == Trim(query)
  {
    if Trim(query) != "" then Some(Trim(query)) else None
  }

  /** A query is handed on exactly when it has a character that is not
      white space, and what is handed on neither starts nor ends with
      white space. */
  lemma SubmissionSpec(query: string)
    ensures Submission(query).Some? <==> exists i :: 0 <= i < |query| && !IsWhitespace(query[i])
    ensures Submission(query).Some? ==>
      var q := Submission(query).value;
      !IsWhitespace(q[0]) && !IsWhitespace(q[|q| - 1])
  {
    TrimEmptyIff(query);
    TrimShape(query);
  }

  /** Handing the trimmed query to the page turns the search on and
      searches for the same term as the raw query would. */
  lemma SubmissionSearches(query: string)
    requires Submission(query).Some?
    ensures Home.SearchActive(Submission(query).value)
    ensures Home.SearchTerm(Submission(query).value) == Home.SearchTerm(query)
  {
    var q := Trim(query);
    TrimIdempotent(query);
    TrimLower(q);
    TrimLower(query);
  }

  /** The header's own state: the text in the search box. */
  class SearchBox {
    var query: string

    constructor ()
      ensures query == ""
    {
      query := "";
    }

    /** `onChange`: typing only updates the box. */
    method OnChange(value: string)
      modifies this
      ensures query == value
    {
      query := value;
    }

    /** `handleSearch`, run by the button. */
    method HandleSearch() returns (submitted: Option<string>)
      ensures submitted.Some? <==> exists i :: 0 <= i < |query| && !IsWhitespace(query[i])
      ensures submitted.Some? ==> submitted.value == Trim(query) != ""
    {
      TrimEmptyIff(query);
      if Trim(query) != "" {
        submitted := Some(Trim(query));
      } else {
        submitted := None;
      }
    }

    /** `onKeyDown`: Enter runs the same `handleSearch`; any other key
        hands nothing on. */
    method OnKeyDown(key: string) returns (submitted: Option<string>)
      ensures key == "Enter" ==> submitted == Submission(query)
      ensures key != "Enter" ==> submitted == None
    {
      if key == "Enter" {
        submitted := HandleSearch();
      } else {
        submitted := None;
      }
    }
  }
}
