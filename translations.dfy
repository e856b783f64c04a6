/** The two string tables of the interface and `getTranslation`: the
    lookup with its fallback chain, then the substitution of each
    `{name}` placeholder in turn. */
module Translations {
  import opened Wrappers
  import opened Text

  datatype Language = En | Es

  /** A replacement value: `string | number` (numbers as integers). */
  datatype Value = Str(s: string) | Num(n: int)

  /** `keyof Translations`. */
  datatype Key =
    SearchResults | ClearFilters | AlbionItems | ShowingItems | FilteredItems | TotalItems |
    SortedAlphabetically | Loading | LoadingItems | ChangingLanguage | WeaponsTitle | ArmorTitle |
    ResourcesTitle | FoodTitle | UnknownCategory | Weapons | Armor | Resources | Food |
    SearchPlaceholder | SearchButton | SelectLanguage | Filters | Results | Of | SelectAll |
    ClearAll | Tiers | Description | NoItemsFound | NoItemsAvailable | TryOtherTerms |
    TryOtherCategory | ItemsLoading | LanguageChanging | LanguageChangingDesc | PleaseWait

  /** The key as a string, the last fallback of the lookup. */
  function KeyName(key: Key): string {
    match key
    case SearchResults => "searchResults"
    case ClearFilters => "clearFilters"
    case AlbionItems => "albionItems"
    case ShowingItems => "showingItems"
    case FilteredItems => "filteredItems"
    case TotalItems => "totalItems"
    case SortedAlphabetically => "sortedAlphabetically"
    case Loading => "loading"
    case LoadingItems => "loadingItems"
    case ChangingLanguage => "changingLanguage"
    case WeaponsTitle => "weaponsTitle"
    case ArmorTitle => "armorTitle"
    case ResourcesTitle => "resourcesTitle"
    case FoodTitle => "foodTitle"
    case UnknownCategory => "unknownCategory"
    case Weapons => "weapons"
    case Armor => "armor"
    case Resources => "resources"
    case Food => "food"
    case SearchPlaceholder => "searchPlaceholder"
    case SearchButton => "searchButton"
    case SelectLanguage => "selectLanguage"
    case Filters => "filters"
    case Results => "results"
    case Of => "of"
    case SelectAll => "selectAll"
    case ClearAll => "clearAll"
    case Tiers => "tiers"
    case Description => "description"
    case NoItemsFound => "noItemsFound"
    case NoItemsAvailable => "noItemsAvailable"
    case TryOtherTerms => "tryOtherTerms"
    case TryOtherCategory => "tryOtherCategory"
    case ItemsLoading => "itemsLoading"
    case LanguageChanging => "languageChanging"
    case LanguageChangingDesc => "languageChangingDesc"
    case PleaseWait => "pleaseWait"
  }

  /** The `en` table. */
  function EnText(key: Key): string {
    match key
    case SearchResults => "Search results"
    case ClearFilters => "Clear filters"
    case AlbionItems => "Albion Online Items"
    case ShowingItems => "Showing {count} items"
    case FilteredItems => "(filtered from {total} total)"
    case TotalItems => "of {total} total"
    case SortedAlphabetically => "Sorted alphabetically • Maximum 200 results"
    case Loading => "Loading items..."
    case LoadingItems => "Loading items"
    case ChangingLanguage => "Changing language..."
    case WeaponsTitle => "🗡️ Weapons 🗡️"
    case ArmorTitle => "🛡️ Armor 🛡️"
    case ResourcesTitle => "⛏️ Resources ⛏️"
    case FoodTitle => "🍖 Food 🍖"
    case UnknownCategory => "Unknown category"
    case Weapons => "Weapons"
    case Armor => "Armor"
    case Resources => "Resources"
    case Food => "Food"
    case SearchPlaceholder => "Search items..."
    case SearchButton => "Search"
    case SelectLanguage => "Select language"
    case Filters => "Filters"
    case Results => "Results"
    case Of => "of"
    case SelectAll => "Select All"
    case ClearAll => "Clear All"
    case Tiers => "Tiers"
    case Description => "Description"
    case NoItemsFound => "No items found"
    case NoItemsAvailable => "No items available"
    case TryOtherTerms => "Try other search terms or use the menu categories"
    case TryOtherCategory => "Try another category or perform a specific search"
    case ItemsLoading => "Items are loading... Please wait a moment"
    case LanguageChanging => "Changing Language"
    case LanguageChangingDesc => "Switching to English and updating content..."
    case PleaseWait => "Please wait"
  }

  /** The `es` table. */
  function EsText(key: Key): string {
    match key
    case SearchResults => "Resultados de búsqueda"
    case ClearFilters => "Limpiar filtros"
    case AlbionItems => "Items de Albion Online"
    case ShowingItems => "Mostrando {count} items"
    case FilteredItems => "(filtrados de {total} totales)"
    case TotalItems => "de {total} totales"
    case SortedAlphabetically => "Ordenados alfabéticamente • Máximo 200 resultados"
    case Loading => "Cargando items..."
    case LoadingItems => "Cargando items"
    case ChangingLanguage => "Cambiando idioma..."
    case WeaponsTitle => "🗡️ Armas 🗡️"
    case ArmorTitle => "🛡️ Armaduras 🛡️"
    case ResourcesTitle => "⛏️ Recursos ⛏️"
    case FoodTitle => "🍖 Comida 🍖"
    case UnknownCategory => "Categoría desconocida"
    case Weapons => "Armas"
    case Armor => "Armaduras"
    case Resources => "Recursos"
    case Food => "Comida"
    case SearchPlaceholder => "Buscar items..."
    case SearchButton => "Buscar"
    case SelectLanguage => "Seleccionar idioma"
    case Filters => "Filtros"
    case Results => "Resultados"
    case Of => "de"
    case SelectAll => "Seleccionar Todo"
    case ClearAll => "Limpiar Todo"
    case Tiers => "Niveles"
    case Description => "Descripción"
    case NoItemsFound => "No se encontraron items"
    case NoItemsAvailable => "No hay items disponibles"
    case TryOtherTerms => "Intenta con otros términos de búsqueda o utiliza las categorías del menú"
    case TryOtherCategory => "Intenta con otra categoría o realiza una búsqueda específica"
    case ItemsLoading => "Los items se están cargando... Por favor espera un momento"
    case LanguageChanging => "Cambiando Idioma"
    case LanguageChangingDesc => "Cambiando a Español y actualizando contenido..."
    case PleaseWait => "Por favor espera"
  }

  /** `translations[language]`. */
  function Table(language: Language, key: Key): string {
    match language
    case En => EnText(key)
    case Es => EsText(key)
  }

  /** The English table gives every key a non-empty text. */
  lemma EnComplete(key: Key)
    ensures EnText(key) != ""
  {
    match key
    case SearchResults =>
    case ClearFilters =>
    case AlbionItems =>
    case ShowingItems =>
    case FilteredItems =>
    case TotalItems =>
    case SortedAlphabetically =>
    case Loading =>
    case LoadingItems =>
    case ChangingLanguage =>
    case WeaponsTitle =>
    case ArmorTitle =>
    case ResourcesTitle =>
    case FoodTitle =>
    case UnknownCategory =>
    case Weapons =>
    case Armor =>
    case Resources =>
    case Food =>
    case SearchPlaceholder =>
    case SearchButton =>
    case SelectLanguage =>
    case Filters =>
    case Results =>
    case Of =>
    case SelectAll =>
    case ClearAll =>
    case Tiers =>
    case Description =>
    case NoItemsFound =>
    case NoItemsAvailable =>
    case TryOtherTerms =>
    case TryOtherCategory =>
    case ItemsLoading =>
    case LanguageChanging =>
    case LanguageChangingDesc =>
    case PleaseWait =>
  }

  /** The Spanish table gives every key a non-empty text. */
  lemma EsComplete(key: Key)
    ensures EsText(key) != ""
  {
    match key
    case SearchResults =>
    case ClearFilters =>
    case AlbionItems =>
    case ShowingItems =>
    case FilteredItems =>
    case TotalItems =>
    case SortedAlphabetically =>
    case Loading =>
    case LoadingItems =>
    case ChangingLanguage =>
    case WeaponsTitle =>
    case ArmorTitle =>
    case ResourcesTitle =>
    case FoodTitle =>
    case UnknownCategory =>
    case Weapons =>
    case Armor =>
    case Resources =>
    case Food =>
    case SearchPlaceholder =>
    case SearchButton =>
    case SelectLanguage =>
    case Filters =>
    case Results =>
    case Of =>
    case SelectAll =>
    case ClearAll =>
    case Tiers =>
    case Description =>
    case NoItemsFound =>
    case NoItemsAvailable =>
    case TryOtherTerms =>
    case TryOtherCategory =>
    case ItemsLoading =>
    case LanguageChanging =>
    case LanguageChangingDesc =>
    case PleaseWait =>
  }

  /** `translations[language][key] || translations.en[key] || key`. */
  function Lookup(language: Language, key: Key): string {
    if Table(language, key) != "" then Table(language, key)
    else if EnText(key) != "" then EnText(key)
    else KeyName(key)
  }

  /** The lookup returns the first non-empty text among the chosen table's
      entry, the English entry and the key name; since both tables are
      complete, that is always the chosen table's entry. */
  lemma LookupFallback(language: Language, key: Key)
    ensures Table(language, key) != "" ==> Lookup(language, key) == Table(language, key)
    ensures Table(language, key) == "" && EnText(key) != "" ==> Lookup(language, key) == EnText(key)
    ensures Table(language, key) == "" && EnText(key) == "" ==> Lookup(language, key) == KeyName(key)
    ensures Lookup(language, key) == Table(language, key) != ""
  {
    EnComplete(key);
    EsComplete(key);
  }

  /** `` `{${placeholder}}` ``: the literal text a replacement looks for. */
  function Placeholder(name: string): (p: string)
    ensures |p| == |name| + 2 && p[0] == '{' && p[|p| - 1] == '}'
    ensures p[1..|p| - 1] == name
  {
    "{" + name + "}"
  }

  /** `String(value)`. */
  function ValueString(v: Value): string {
    match v
    case Str(s) => s
    case Num(n) => IntToString(n)
  }

  /** `s.replace(new RegExp(p, 'g'), v)` for a pattern matched literally:
      scanning left to right, each occurrence of `p` that does not overlap
      an earlier replaced one becomes `v`; the inserted text is not
      scanned again. */
  function ReplaceAll(s: string, p: string, v: string): string
    requires |p| > 0
    decreases |s|
  {
    if |s| < |p| then s
    else if s[..|p|] == p then v + ReplaceAll(s[|p|..], p, v)
    else [s[0]] + ReplaceAll(s[1..], p, v)
  }

  /** Text without the pattern comes back unchanged. */
  lemma {:induction false} ReplaceAbsent(s: string, p: string, v: string)
    requires |p| > 0 && !Contains(s, p)
    ensures ReplaceAll(s, p, v) == s
    decreases |s|
  {
    if |s| >= |p| {
      assert s[..|p|] != p by { assert !OccursAt(s, p, 0); }
      forall i | 0 <= i <= |s[1..]| ensures !OccursAt(s[1..], p, i) {
        assert !OccursAt(s, p, i + 1);
        if i + |p| <= |s[1..]| {
          assert s[1..][i..i + |p|] == s[i + 1..i + 1 + |p|];
        }
      }
      ReplaceAbsent(s[1..], p, v);
    }
  }

  /** As long as a prefix of the output holds no character of `v`, no
      replacement happened in it: it is the same prefix of the input. */
  lemma {:induction false} UnreplacedPrefix(s: string, p: string, v: string, m: nat)
    requires |p| > 0 && |v| > 0
    requires m <= |ReplaceAll(s, p, v)|
    requires forall j :: 0 <= j < m ==> ReplaceAll(s, p, v)[j] !in v
    ensures m <= |s| && ReplaceAll(s, p, v)[..m] == s[..m]
    decreases |s|
  {
    if |s| >= |p| && m > 0 {
      if s[..|p|] == p {
        MatchStartsWithValue(s, p, v);
        assert false;
      } else {
        var rest := ReplaceAll(s[1..], p, v);
        assert ReplaceAll(s, p, v) == [s[0]] + rest;
        forall j | 0 <= j < m - 1 ensures rest[j] !in v {
          assert rest[j] == ReplaceAll(s, p, v)[j + 1];
        }
        UnreplacedPrefix(s[1..], p, v, m - 1);
        assert ReplaceAll(s, p, v)[..m] == [s[0]] + rest[..m - 1];
      }
    }
  }

  lemma MatchStartsWithValue(s: string, p: string, v: string)
    requires |p| > 0 && |v| > 0 && |p| <= |s| && s[..|p|] == p
    ensures ReplaceAll(s, p, v)[0] == v[0]
  {
  }

  /** The case of `ConsKeepsAbsent` where the match would start at the
      kept first character. */
  lemma ConsHeadNoMatch(s: string, p: string, v: string, q: string)
    requires |p| > 0 && |v| > 0 && |q| > 0 && |s| > 0
    requires forall c :: c in v ==> c !in q
    requires |q| <= |s| ==> s[..|q|] != q
    ensures !OccursAt([s[0]] + ReplaceAll(s[1..], p, v), q, 0)
  {
    var rest := ReplaceAll(s[1..], p, v);
    var out := [s[0]] + rest;
    if |q| <= |out| {
      if j :| 0 <= j < |q| - 1 && rest[j] in v {
        assert out[..|q|][j + 1] == rest[j];
        assert q[j + 1] in q;
      } else {
        UnreplacedPrefix(s[1..], p, v, |q| - 1);
        assert out[..|q|] == [s[0]] + rest[..|q| - 1];
        assert s[..|q|] == [s[0]] + s[1..][..|q| - 1];
      }
    }
  }

  /** If `s` does not contain `q`, then neither does `[c] + rest`, where
      `rest` is `s[1..]` run through the replacement, provided `rest` does
      not contain `q` and the value shares no character with `q`. */
  lemma ConsKeepsAbsent(s: string, p: string, v: string, q: string)
    requires |p| > 0 && |v| > 0 && |q| > 0 && |s| > 0
    requires forall c :: c in v ==> c !in q
    requires !Contains(ReplaceAll(s[1..], p, v), q)
    requires |q| <= |s| ==> s[..|q|] != q
    ensures !Contains([s[0]] + ReplaceAll(s[1..], p, v), q)
  {
    var rest := ReplaceAll(s[1..], p, v);
    var out := [s[0]] + rest;
    forall i | 0 <= i <= |out| ensures !OccursAt(out, q, i) {
      if i == 0 {
        ConsHeadNoMatch(s, p, v, q);
      } else {
        assert !OccursAt(rest, q, i - 1);
        if i + |q| <= |out| {
          assert out[i..i + |q|] == rest[i - 1..i - 1 + |q|];
        }
      }
    }
  }

  /** If `rest` does not contain `q` and `v` has no character of `q`, then
      `v + rest` does not contain `q`. */
  lemma PrefixKeepsAbsent(v: string, rest: string, q: string)
    requires |v| > 0 && |q| > 0
    requires forall c :: c in v ==> c !in q
    requires !Contains(rest, q)
    ensures !Contains(v + rest, q)
  {
    var out := v + rest;
    forall i | 0 <= i <= |out| ensures !OccursAt(out, q, i) {
      if i < |v| {
        if i + |q| <= |out| {
          assert out[i..i + |q|][0] == v[i];
          assert v[i] in v;
        }
      } else {
        assert !OccursAt(rest, q, i - |v|);
        if i + |q| <= |out| {
          assert out[i..i + |q|] == rest[i - |v|..i - |v| + |q|];
        }
      }
    }
  }

  /** After the replacement no occurrence of the pattern is left, provided
      the value is non-empty and shares no character with the pattern. */
  lemma {:induction false} ReplaceRemoves(s: string, p: string, v: string)
    requires |p| > 0 && |v| > 0
    requires forall c :: c in v ==> c !in p
    ensures !Contains(ReplaceAll(s, p, v), p)
    decreases |s|
  {
    if |s| < |p| {
    } else if s[..|p|] == p {
      ReplaceRemoves(s[|p|..], p, v);
      PrefixKeepsAbsent(v, ReplaceAll(s[|p|..], p, v), p);
    } else {
      ReplaceRemoves(s[1..], p, v);
      ConsKeepsAbsent(s, p, v, p);
    }
  }

  /** One replacement with a non-empty value that shares no character with
      `q` does not create an occurrence of `q`. */
  lemma {:induction false} ReplaceKeepsAbsent(s: string, p: string, v: string, q: string)
    requires |p| > 0 && |v| > 0 && |q| > 0
    requires forall c :: c in v ==> c !in q
    requires !Contains(s, q)
    ensures !Contains(ReplaceAll(s, p, v), q)
    decreases |s|
  {
    if |s| >= |p| {
      var d := if s[..|p|] == p then |p| else 1;
      var tail := s[d..];
      forall i | 0 <= i <= |tail| ensures !OccursAt(tail, q, i) {
        assert !OccursAt(s, q, i + d);
        if i + |q| <= |tail| {
          assert tail[i..i + |q|] == s[i + d..i + d + |q|];
        }
      }
      ReplaceKeepsAbsent(tail, p, v, q);
      if s[..|p|] == p {
        PrefixKeepsAbsent(v, ReplaceAll(tail, p, v), q);
      } else {
        assert !OccursAt(s, q, 0);
        ConsKeepsAbsent(s, p, v, q);
      }
    }
  }

  /** A placeholder name with no brace in it. */
  predicate BraceFree(name: string) {
    '{' !in name && '}' !in name
  }

  /** The characters of an occurrence are the pattern's. */
  lemma CharAt(s: string, p: string, j: int, k: int)
    requires OccursAt(s, p, j) && 0 <= k < |p|
    ensures s[j + k] == p[k]
  {
    assert s[j..j + |p|][k] == s[j + k];
  }

  /** A brace-free name's placeholder has its only `{` first and its only
      `}` last. */
  lemma PlaceholderBraces(name: string, k: int)
    requires BraceFree(name) && 0 <= k < |Placeholder(name)|
    ensures Placeholder(name)[k] == '{' <==> k == 0
    ensures Placeholder(name)[k] == '}' <==> k == |name| + 1
  {
    var p := Placeholder(name);
    if 0 < k < |p| - 1 {
      assert p[k] == p[1..|p| - 1][k - 1] == name[k - 1];
      assert name[k - 1] in name;
    }
  }

  /** Occurrences of the placeholders of two different brace-free names
      never overlap. */
  lemma PlaceholdersDisjoint(s: string, n: string, m: string, j: int, i: int)
    requires BraceFree(n) && BraceFree(m) && n != m
    requires OccursAt(s, Placeholder(n), j) && OccursAt(s, Placeholder(m), i)
    ensures j + |Placeholder(n)| <= i || i + |Placeholder(m)| <= j
  {
    var p := Placeholder(n);
    var q := Placeholder(m);
    if j < i < j + |p| {
      PlaceholderBraces(n, i - j);
      CharAt(s, q, i, 0);
      CharAt(s, p, j, i - j);
      assert false;
    } else if i < j < i + |q| {
      PlaceholderBraces(m, j - i);
      CharAt(s, p, j, 0);
      CharAt(s, q, i, j - i);
      assert false;
    } else if i == j && |n| < |m| {
      PlaceholderBraces(m, |n| + 1);
      PlaceholderBraces(n, |n| + 1);
      CharAt(s, q, i, |n| + 1);
      CharAt(s, p, j, |n| + 1);
      assert false;
    } else if i == j && |m| < |n| {
      PlaceholderBraces(n, |m| + 1);
      PlaceholderBraces(m, |m| + 1);
      CharAt(s, p, j, |m| + 1);
      CharAt(s, q, i, |m| + 1);
      assert false;
    } else if i == j {
      assert false;
    }
  }

  /** An occurrence at `i` is one at `i - d` in the suffix from `d`. */
  lemma ShiftOccurrence(s: string, q: string, d: int, i: int)
    requires 0 <= d <= i && OccursAt(s, q, i)
    ensures OccursAt(s[d..], q, i - d)
  {
    assert s[d..][i - d..i - d + |q|] == s[i..i + |q|];
  }

  /** Text put in front keeps every occurrence. */
  lemma PrependKeepsContains(a: string, rest: string, q: string)
    requires Contains(rest, q)
    ensures Contains(a + rest, q)
  {
    var k :| 0 <= k <= |rest| && OccursAt(rest, q, k);
    assert (a + rest)[|a| + k..|a| + k + |q|] == rest[k..k + |q|];
    ContainsWitness(a + rest, q, |a| + k);
  }

  /** An occurrence of `q` at the start, in which no match of `p` can
      begin after its first character, is copied through unchanged. */
  lemma CopiedHead(s: string, p: string, q: string, v: string)
    requires |p| > 0 && |q| > 0 && OccursAt(s, q, 0) && p[0] !in q[1..]
    ensures Contains([s[0]] + ReplaceAll(s[1..], p, v), q)
  {
    var a := s[1..|q|];
    var t := s[|q|..];
    assert a == q[1..];
    assert s[1..] == a + t;
    CopyPrefix(a, t, p, v);
    var out := [s[0]] + (a + ReplaceAll(t, p, v));
    assert out[..|q|] == [s[0]] + a == q;
    ContainsWitness(out, q, 0);
  }

  /** Replacing the placeholder of one brace-free name, by any value,
      keeps every placeholder of another brace-free name that occurs. */
  lemma {:induction false} ReplaceKeepsOtherPlaceholder(s: string, n: string, m: string, v: string, i: int)
    requires BraceFree(n) && BraceFree(m) && n != m
    requires OccursAt(s, Placeholder(m), i)
    ensures Contains(ReplaceAll(s, Placeholder(n), v), Placeholder(m))
    decreases |s|
  {
    var p := Placeholder(n);
    var q := Placeholder(m);
    if |s| < |p| {
      ContainsWitness(s, q, i);
    } else if s[..|p|] == p {
      PlaceholdersDisjoint(s, n, m, 0, i);
      ShiftOccurrence(s, q, |p|, i);
      ReplaceKeepsOtherPlaceholder(s[|p|..], n, m, v, i - |p|);
      PrependKeepsContains(v, ReplaceAll(s[|p|..], p, v), q);
    } else if i > 0 {
      ShiftOccurrence(s, q, 1, i);
      ReplaceKeepsOtherPlaceholder(s[1..], n, m, v, i - 1);
      PrependKeepsContains([s[0]], ReplaceAll(s[1..], p, v), q);
    } else {
      assert p[0] !in q[1..] by {
        forall k | 1 <= k < |q| ensures q[k] != '{' {
          PlaceholderBraces(m, k);
        }
      }
      CopiedHead(s, p, q, v);
    }
  }

  /** A placeholder whose brace-free name is none of the replacements'
      (themselves brace-free) names survives every replacement. */
  lemma {:induction false} UnnamedPlaceholderKept(text: string, replacements: seq<(string, Value)>, m: string)
    requires BraceFree(m) && Contains(text, Placeholder(m))
    requires forall j :: 0 <= j < |replacements| ==>
      BraceFree(replacements[j].0) && replacements[j].0 != m
    ensures Contains(SubstituteAll(text, replacements), Placeholder(m))
    decreases |replacements|
  {
    if replacements != [] {
      var i :| 0 <= i <= |text| && OccursAt(text, Placeholder(m), i);
      ReplaceKeepsOtherPlaceholder(text, replacements[0].0, m, ValueString(replacements[0].1), i);
      UnnamedPlaceholderKept(
        ReplaceAll(text, Placeholder(replacements[0].0), ValueString(replacements[0].1)),
        replacements[1..], m);
    }
  }

  /** A value free of braces is not enough to remove every placeholder:
      two halves of a placeholder around a replaced one can close up into
      a new occurrence, whether the value is empty (`"{a{ab}b}"` with
      `ab` replaced by `''`) or not (`"{x{xx}}"` with `xx` replaced by
      `x`); both leave the placeholder behind. */
  lemma BraceFreeValueCanLeavePlaceholder()
    ensures ReplaceAll("{a{ab}b}", Placeholder("ab"), "") == Placeholder("ab")
    ensures ReplaceAll("{x{xx}}", Placeholder("xx"), "x") == Placeholder("xx")
  {
    var p := Placeholder("ab");
    var s := "{a{ab}b}";
    assert s[..4] != p && s[1..][..4] != p;
    assert s[2..][..4] == p;
    assert s[1..][1..] == s[2..];
    assert s[2..][4..] == "b}";
    assert ReplaceAll("b}", p, "") == "b}";
    var q := Placeholder("xx");
    var t := "{x{xx}}";
    assert t[..4] != q && t[1..][..4] != q;
    assert t[2..][..4] == q;
    assert t[1..][1..] == t[2..];
    assert t[2..][4..] == "}";
    assert ReplaceAll("}", q, "x") == "}";
  }

  /** The replacements applied one after the other, in entry order. */
  function SubstituteAll(text: string, replacements: seq<(string, Value)>): string
    decreases |replacements|
  {
    if replacements == [] then text
    else
      SubstituteAll(
        ReplaceAll(text, Placeholder(replacements[0].0), ValueString(replacements[0].1)),
        replacements[1..])
  }

  /** `getTranslation(language, key, replacements)` as a value. */
  function Translate(language: Language, key: Key, replacements: Option<seq<(string, Value)>>): string {
    match replacements
    case None => Lookup(language, key)
    case Some(reps) => SubstituteAll(Lookup(language, key), reps)
  }

  /** `getTranslation`: look the text up, then run through the
      replacements, reassigning the text after each one. */
  method GetTranslation(language: Language, key: Key, replacements: Option<seq<(string, Value)>>)
    returns (text: string)
    ensures text == Translate(language, key, replacements)
  {
    text := Lookup(language, key);
    if replacements.Some? {
      var reps := replacements.value;
      var i := 0;
      while i < |reps|
        invariant 0 <= i <= |reps|
        invariant SubstituteAll(text, reps[i..]) == SubstituteAll(Lookup(language, key), reps)
      {
        assert reps[i..][1..] == reps[i + 1..];
        text := ReplaceAll(text, Placeholder(reps[i].0), ValueString(reps[i].1));
        i := i + 1;
      }
      assert reps[i..] == [];
    }
  }

  /** Replacements whose placeholders do not occur leave the looked-up
      text unchanged. */
  lemma {:induction false} UnusedReplacements(text: string, replacements: seq<(string, Value)>)
    requires forall j :: 0 <= j < |replacements| ==> !Contains(text, Placeholder(replacements[j].0))
    ensures SubstituteAll(text, replacements) == text
    decreases |replacements|
  {
    if replacements != [] {
      ReplaceAbsent(text, Placeholder(replacements[0].0), ValueString(replacements[0].1));
      UnusedReplacements(text, replacements[1..]);
    }
  }

  /** Later replacements whose values are non-empty and have no character
      of an absent pattern `q` do not bring `q` back. */
  lemma {:induction false} LaterReplacementsKeepAbsent(text: string, replacements: seq<(string, Value)>, q: string)
    requires |q| > 0 && !Contains(text, q)
    requires forall j :: 0 <= j < |replacements| ==>
      |ValueString(replacements[j].1)| > 0 && forall c :: c in ValueString(replacements[j].1) ==> c !in q
    ensures !Contains(SubstituteAll(text, replacements), q)
    decreases |replacements|
  {
    if replacements != [] {
      ReplaceKeepsAbsent(text, Placeholder(replacements[0].0), ValueString(replacements[0].1), q);
      LaterReplacementsKeepAbsent(
        ReplaceAll(text, Placeholder(replacements[0].0), ValueString(replacements[0].1)),
        replacements[1..], q);
    }
  }

  /** The placeholder of the `k`-th replacement is gone from the final
      text when that value and every later one is non-empty and shares no
      character with it. */
  lemma {:induction false} SubstitutedPlaceholderGone(text: string, replacements: seq<(string, Value)>, k: nat)
    requires k < |replacements|
    requires forall j :: k <= j < |replacements| ==>
      |ValueString(replacements[j].1)| > 0
      && forall c :: c in ValueString(replacements[j].1) ==> c !in Placeholder(replacements[k].0)
    ensures !Contains(SubstituteAll(text, replacements), Placeholder(replacements[k].0))
    decreases |replacements|
  {
    var next := ReplaceAll(text, Placeholder(replacements[0].0), ValueString(replacements[0].1));
    if k == 0 {
      ReplaceRemoves(text, Placeholder(replacements[0].0), ValueString(replacements[0].1));
      LaterReplacementsKeepAbsent(next, replacements[1..], Placeholder(replacements[0].0));
    } else {
      SubstitutedPlaceholderGone(next, replacements[1..], k - 1);
    }
  }

  /** Text in which no occurrence of the pattern can start is copied
      unchanged ahead of whatever the rest becomes. */
  lemma {:induction false} CopyPrefix(a: string, t: string, p: string, v: string)
    requires |p| > 0 && p[0] !in a
    ensures ReplaceAll(a + t, p, v) == a + ReplaceAll(t, p, v)
    decreases |a|
  {
    if a == [] {
      assert a + t == t;
    } else {
      var s := a + t;
      assert s[1..] == a[1..] + t;
      assert p[0] !in a[1..];
      CopyPrefix(a[1..], t, p, v);
      if |s| < |p| {
        assert ReplaceAll(s, p, v) == s;
        assert ReplaceAll(t, p, v) == t;
      } else {
        assert s[0] == a[0] && a[0] in a;
        assert s[..|p|] != p by { assert s[..|p|][0] == s[0]; }
        assert ReplaceAll(s, p, v) == [s[0]] + ReplaceAll(s[1..], p, v);
        assert a == [a[0]] + a[1..];
      }
    }
  }

  /** A text holding one occurrence of the pattern, with no other place
      an occurrence could start, has that occurrence replaced. */
  lemma ReplaceSingle(a: string, p: string, b: string, v: string)
    requires |p| > 0 && p[0] !in a && p[0] !in b
    ensures ReplaceAll(a + p + b, p, v) == a + v + b
  {
    assert a + p + b == a + (p + b);
    CopyPrefix(a, p + b, p, v);
    assert (p + b)[..|p|] == p;
    assert (p + b)[|p|..] == b;
    CopyPrefix(b, [], p, v);
    assert b + [] == b;
  }

  /** `getTranslation('en', 'showingItems', { count: n })` is
      `"Showing " + String(n) + " items"`, and `String(5)` is `"5"`, so
      a count of 5 reads `"Showing 5 items"`. */
  lemma ShowingItemsExample(n: int)
    ensures Translate(En, ShowingItems, Some([("count", Num(n))])) == "Showing " + IntToString(n) + " items"
    ensures IntToString(5) == "5"
  {
    var p := Placeholder("count");
    var text := Lookup(En, ShowingItems);
    assert text == "Showing " + p + " items";
    assert '{' !in "Showing " && '{' !in " items";
    ShowingItemsWith(text, p, IntToString(n), n);
  }

  lemma ShowingItemsWith(text: string, p: string, v: string, n: int)
    requires p == Placeholder("count") && text == Lookup(En, ShowingItems)
    requires text == "Showing " + p + " items" && v == IntToString(n)
    ensures Translate(En, ShowingItems, Some([("count", Num(n))])) == "Showing " + v + " items"
  {
    var reps := [("count", Num(n))];
    assert ValueString(reps[0].1) == v;
    assert reps[1..] == [];
    ReplaceSingle("Showing ", p, " items", v);
    assert SubstituteAll(text, reps) == SubstituteAll(ReplaceAll(text, p, v), []);
  }
}
