/** The Italian dictionary of the page's fixed strings and known data
    values, the lookup that falls back to the input, and the helper that
    translates selected props of a component. */
module Translations {
  import opened JsValues

  /** The dictionary, English key to Italian value, written as the union
      of the groups the source lists it in. A union lets a later group's
      entry win, as a later property of an object literal does. */
  const Table: map<string, string> :=
    PageHeader + FormFilters + ProductCards + EmptyStates + Footer +
    CategoryNames + CustomerTypes + CombinedCustomers

  /** Page title and header. */
  const PageHeader: map<string, string> := map[
    "Wholesale Product Catalog" := "Catalogo Prodotti all'Ingrosso da Amedeo",
    "Browse our selection of premium Italian products" :=
      "Sfoglia la nostra selezione di prodotti italiani premium",
    "Premium Italian wholesale products from Abruzzo" :=
      "Prodotti all'ingrosso premium dall'Abruzzo e dintorni",
    "Wholesale Abruzzo - Premium Italian Products" :=
      "Ingrosso Abruzzo - Prodotti Italiani Premium"
  ]

  /** Form filters. */
  const FormFilters: map<string, string> := map[
    "Search products..." := "Cerca prodotti...",
    "All Categories" := "Tutte le Categorie",
    "All Customer Types" := "Tutti i Tipi di Cliente",
    "Clear Filters" := "Cancella Filtri",
    "Products" := "Prodotti"
  ]

  /** Product cards. */
  const ProductCards: map<string, string> := map[
    "No image available" := "Immagine non disponibile",
    "No description available" := "Descrizione non disponibile",
    "Code" := "Codice",
    "Size" := "Formato",
    "Aging" := "Stagionatura",
    "Expires" := "Scadenza"
  ]

  /** Empty states. */
  const EmptyStates: map<string, string> := map[
    "Loading product catalog..." := "Caricamento catalogo prodotti...",
    "No products match your search" := "Nessun prodotto corrisponde alla tua ricerca",
    "Try adjusting your filters or search term" :=
      "Prova a modificare i filtri o i termini di ricerca",
    "Clear All Filters" := "Cancella Tutti i Filtri"
  ]

  /** Footer. */
  const Footer: map<string, string> := map[
    "© 2025 Wholesale Abruzzo - Premium Italian Products" :=
      "© 2025 Ingrosso Abruzzo - Prodotti Italiani Premium"
  ]

  /** Categories. */
  const CategoryNames: map<string, string> := map[
    "Spirits" := "Alcolici",
    "Carne" := "Carne",
    "Formaggi" := "Formaggi",
    "Latticini" := "Latticini",
    "Riso" := "Riso",
    "Miele" := "Miele",
    "Sale" := "Sale",
    "Salumi" := "Salumi",
    "Olio" := "Olio",
    "Aceto" := "Aceto"
  ]

  /** Customer types. */
  const CustomerTypes: map<string, string> := map[
    "Restaurants" := "Ristoranti",
    "Bars" := "Bar",
    "Specialty Butchers" := "Macellerie Specializzate",
    "Specialty Cheese Shops" := "Negozi Specializzati di Formaggio",
    "Retail" := "Vendita al Dettaglio",
    "Specialty Food Stores" := "Negozi di Alimentari Specializzati",
    "Pizzerias" := "Pizzerie",
    "Catering" := "Catering",
    "Bakeries" := "Panetterie"
  ]

  /** Combined target customers. */
  const CombinedCustomers: map<string, string> := map[
    "Restaurants, Bars" := "Ristoranti, Bar",
    "Restaurants, Specialty Butchers" := "Ristoranti, Macellerie Specializzate",
    "Restaurants, Specialty Cheese Shops" := "Ristoranti, Negozi Specializzati di Formaggio",
    "Restaurants, Specialty Cheese Shops, Retail" :=
      "Ristoranti, Negozi Specializzati di Formaggio, Vendita al Dettaglio",
    "Restaurants, Specialty Food Stores" := "Ristoranti, Negozi di Alimentari Specializzati",
    "Restaurants, Specialty Food Stores, Catering" :=
      "Ristoranti, Negozi di Alimentari Specializzati, Catering",
    "Restaurants, Pizzerias, Retail" := "Ristoranti, Pizzerie, Vendita al Dettaglio",
    "Specialty Food Stores, Retail" := "Negozi di Alimentari Specializzati, Vendita al Dettaglio",
    "Restaurants, Specialty Food Stores, Bakeries" :=
      "Ristoranti, Negozi di Alimentari Specializzati, Panetterie"
  ]

  /** The props `translateProps` rewrites when the caller names none. */
  const DefaultKeys: seq<string> := ["placeholder", "label", "title"]

  /** Every value of the map is a non-empty string. */
  ghost predicate NonEmptyValues(m: map<string, string>)
  {
    forall k :: k in m ==> m[k] != ""
  }

  lemma UnionNonEmpty(a: map<string, string>, b: map<string, string>)
    requires NonEmptyValues(a) && NonEmptyValues(b)
    ensures NonEmptyValues(a + b)
  {
  }

  // Each group of the dictionary has only non-empty values.
  lemma PageHeaderNonEmpty() ensures NonEmptyValues(PageHeader) {}
  lemma FormFiltersNonEmpty() ensures NonEmptyValues(FormFilters) {}
  lemma ProductCardsNonEmpty() ensures NonEmptyValues(ProductCards) {}
  lemma EmptyStatesNonEmpty() ensures NonEmptyValues(EmptyStates) {}
  lemma FooterNonEmpty() ensures NonEmptyValues(Footer) {}
  lemma CategoryNamesNonEmpty() ensures NonEmptyValues(CategoryNames) {}
  lemma CustomerTypesNonEmpty() ensures NonEmptyValues(CustomerTypes) {}
  lemma CombinedCustomersNonEmpty() ensures NonEmptyValues(CombinedCustomers) {}

  /** No dictionary value is empty, so the `||` fallback of `translate`
      never fires for a text that is a key. */
  lemma TableValuesNonEmpty()
    ensures NonEmptyValues(Table)
  {
    PageHeaderNonEmpty();
    FormFiltersNonEmpty();
    ProductCardsNonEmpty();
    EmptyStatesNonEmpty();
    FooterNonEmpty();
    CategoryNamesNonEmpty();
    CustomerTypesNonEmpty();
    CombinedCustomersNonEmpty();
    UnionNonEmpty(PageHeader, FormFilters);
    UnionNonEmpty(PageHeader + FormFilters, ProductCards);
    UnionNonEmpty(PageHeader + FormFilters + ProductCards, EmptyStates);
    UnionNonEmpty(PageHeader + FormFilters + ProductCards + EmptyStates, Footer);
    UnionNonEmpty(PageHeader + FormFilters + ProductCards + EmptyStates + Footer, CategoryNames);
    UnionNonEmpty(PageHeader + FormFilters + ProductCards + EmptyStates + Footer +
                  CategoryNames, CustomerTypes);
    UnionNonEmpty(PageHeader + FormFilters + ProductCards + EmptyStates + Footer +
                  CategoryNames + CustomerTypes, CombinedCustomers);
  }

  /** `translations[text] || text`: the dictionary's value for a key, and
      the text itself for anything else. */
  function Translate(text: string): (r: string)
    ensures text in Table ==> r == Table[text]
    ensures text !in Table ==> r == text
  {
    TableValuesNonEmpty();
    if text in Table && Table[text] != "" then Table[text] else text
  }

  /** `translate` applied n times in a row. */
  function TranslateTimes(text: string, n: nat): (r: string)
    ensures text != "" ==> r != ""
    ensures n == 1 ==> r == Translate(text)
  {
    if n == 0 then text else Translate(TranslateTimes(text, n - 1))
  }

  /** `translateProps(props, keys)`: a copy of props in which the value under
      each of the keys, when truthy, is passed through `translate` once per
      occurrence of that key in `keys`; no key is added or removed and every
      other value is copied unchanged. */
  method TranslateProps(props: map<string, Option<string>>, keys: seq<string>)
    returns (translated: map<string, Option<string>>)
    ensures translated.Keys == props.Keys
    ensures forall k :: k in props && k in keys && Truthy(props[k]) ==>
      translated[k] == Some(TranslateTimes(props[k].value, multiset(keys)[k]))
    ensures forall k :: k in props && multiset(keys)[k] == 1 && Truthy(props[k]) ==>
      translated[k] == Some(Translate(props[k].value))
    ensures forall k :: k in props && (k !in keys || !Truthy(props[k])) ==>
      translated[k] == props[k]
  {
    translated := props;
    var i := 0;
    while i < |keys|
      invariant 0 <= i <= |keys|
      invariant translated.Keys == props.Keys
      invariant forall k :: k in props ==>
        translated[k] == if Truthy(props[k])
          then Some(TranslateTimes(props[k].value, multiset(keys[..i])[k]))
          else props[k]
    {
      var key := keys[i];
      if key in translated && Truthy(translated[key]) {
        translated := translated[key := Some(Translate(translated[key].value))];
      }
      assert keys[..i + 1] == keys[..i] + [key];
      i := i + 1;
    }
    assert keys[..i] == keys;
  }

  /** `translateProps(props)`: the default keys are distinct, so each truthy
      value under one of them is translated exactly once. */
  method TranslateDefaultProps(props: map<string, Option<string>>)
    returns (translated: map<string, Option<string>>)
    ensures translated.Keys == props.Keys
    ensures forall k :: k in props && k in DefaultKeys && Truthy(props[k]) ==>
      translated[k] == Some(Translate(props[k].value))
    ensures forall k :: k in props && (k !in DefaultKeys || !Truthy(props[k])) ==>
      translated[k] == props[k]
  {
    translated := TranslateProps(props, DefaultKeys);
    forall k | k in DefaultKeys ensures multiset(DefaultKeys)[k] == 1 {
    }
  }
}
