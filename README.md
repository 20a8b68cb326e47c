# Wholesale catalog filter and translations — a Dafny model

This project models the logic of a single-page wholesale product catalog.
The page loads a CSV of products. It derives two filter facets from them,
categories and target customers. It shows the products that pass a
three-part filter: exact category, exact target customer, and a
case-insensitive search over name, description and code. Separately, a
static Italian dictionary translates fixed strings and known data values,
and a helper translates selected props of a component.

Modules:

- `JsValues`: `Option` for a property that may be `undefined`, and JavaScript truthiness of such a string.
- `Products`: the product record with its ten optional columns, and property access by column.
- `Text`: ASCII `toLowerCase` and `includes`, with a reference definition of substring occurrence.
- `Facets`: the `map` / `filter(Boolean)` / `new Set` pipeline that builds a facet list, and its properties.
- `FilterEngine`: the filter state, the filter stages, `Apply` (the filtered list as a function of products and filters), and the lemmas about it.
- `CatalogApp`: class `Catalog`, the page state. Its methods are the CSV `complete` callback, `applyFilters` and the three handlers.
- `Translations`: the dictionary, `translate`, and `translateProps` (a loop over the keys of a copied props map).

React's state setters are plain field assignments. The effect that re-runs
`applyFilters` whenever `filters` or `products` changes is the
`ApplyFilters()` call that ends every method changing one of them. So the
class invariant `Valid()` (`filtered == Apply(products, filters)`, with the
facets derived from `products`) holds after every method.

src/utils/csvLoader.js, a separate fetch-and-parse loader, is never called
by the page. `src/App.js` passes no error callback to the parser, so only a
successful `complete` clears `loading`. In the model, `Catalog.Load` is the
only method that clears it.

## Model

| member | source | states |
|---|---|---|
| `Text.LowerChar` | src/App.js:84 | the result is never an upper-case ASCII letter; only an upper-case letter is changed, and it becomes the lower-case letter at the same alphabet position |
| `Text.Lower` | src/App.js:84 | lowering keeps the length of the string |
| `Text.LowerAt` | src/App.js:84 | lowering works character by character: position i of the result is the lowered character i of the input |
| `Text.LowerHasNoUpper` | src/App.js:84 | a lowered string contains no upper-case ASCII letter |
| `Text.LowerIdempotent` | src/App.js:84-91 | lowering an already lowered string changes nothing, so the search term and the fields are compared in one case |
| `Text.Includes` | src/App.js:87-91 | `hay.includes(needle)`; defined recursively, its meaning is stated by `IncludesIffOccurs` |
| `Text.IncludesIffOccurs` | src/App.js:87-91 | `includes` holds exactly when the needle occurs at some index of the haystack (both directions) |
| `Facets.Present` | src/App.js:42 | `filter(Boolean)`: exactly the non-empty strings present in the input survive; missing and empty values are dropped |
| `Facets.Distinct` | src/App.js:39-43 | the spread `Set` holds exactly the input's values, each once |
| `Facets.FirstIndex` | src/App.js:39-43 | the returned index holds the value and no earlier index does |
| `Facets.FirstRow` | src/App.js:38-51 | the first product whose column holds the value; no earlier product holds it |
| `Facets.DistinctInFirstSeenOrder` | src/App.js:39-43 | the Set lists values in the order of their first occurrence in its input |
| `Facets.PresentInFirstSeenOrder` | src/App.js:41-42 | `filter(Boolean)` keeps the first-occurrence order of the surviving values |
| `Facets.NothingPresent` | src/App.js:42 | a list of only missing or empty values filters to nothing |
| `Facets.Facet` | src/App.js:38-51 | the whole `[...new Set(products.map(...).filter(Boolean))]` pipeline: no duplicates, and every value is non-empty and occurs in the column; `FacetProperties` states the rest |
| `Facets.FacetProperties` | src/App.js:38-51 | each facet list has no duplicates and no empty or missing value; a value is in it iff some product carries it non-empty; its values are ordered by the first product carrying them |
| `Facets.BlankColumnHasEmptyFacet` | src/App.js:38-51 | a column that is blank or missing in every product yields an empty facet |
| `JsValues.Truthy` | src/App.js:42 | the truthiness test of `filter(Boolean)` and `if (translatedProps[key])`: `undefined` and `""` are falsy; its uses are stated by `Present` and `TranslateProps` |
| `Products.Get` | src/App.js:41 | `product[column]`, the property read by column name; its use is stated by `FacetProperties` |
| `FilterEngine.FieldIncludes` | src/App.js:87-91 | `field?.toLowerCase().includes(searchLower)`: a missing field fails the check without error; stated by `StagesMeanMatches` |
| `FilterEngine.Passes` | src/App.js:69-92 | the callback each `filtered.filter(...)` stage passes; stated by `StagesMeanMatches` |
| `FilterEngine.AllPass` | src/App.js:65-93 | a product survives every stage of a list; stated by `WhereMultiplicity` and `StagesMeanMatches` |
| `FilterEngine.Matches` | src/App.js:68-93 | the reference statement of which products the filter keeps, written without the stages; tied to them by `StagesMeanMatches` |
| `FilterEngine.Stages` | src/App.js:68-84 | the guarded stages for a filter state, in source order; their meaning is stated by `StagesMeanMatches` |
| `FilterEngine.Apply` | src/App.js:64-96 | the filtered list never has more entries than the products; `ApplyIsSubsequence`, `ApplyKeepsExactlyMatches`, `ApplyNoFiltersIsIdentity` and `ApplyIdempotent` state what it keeps |
| `FilterEngine.Where` | src/App.js:69-92 | a `filter` stage never produces more elements than it is given |
| `FilterEngine.WhereThenWhere` | src/App.js:65-93 | filtering the output of one filter by a second equals filtering once by both, the successive reassignment of `filtered` |
| `FilterEngine.StageOrderIrrelevant` | src/App.js:65-93 | the order of the stages does not change the filtered list |
| `FilterEngine.WhereIsSubsequence` | src/App.js:69-92 | filtering yields a subsequence of its input |
| `FilterEngine.WhereMultiplicity` | src/App.js:69-92 | a product occurs in the output as often as in the input if it passes every stage, and not at all otherwise |
| `FilterEngine.WhereNoStages` | src/App.js:65 | with no stage the list is returned unchanged |
| `FilterEngine.StagesMeanMatches` | src/App.js:68-93 | the stages for a filter state accept a product iff it has exactly the selected category (if one is set), exactly the selected target customer (if one is set), and, when the search term is non-empty, a present name, description or code whose lowered text includes the lowered term |
| `FilterEngine.ApplyIsSubsequence` | src/App.js:65-95 | the filtered list is a subsequence of all products: nothing added, order kept |
| `FilterEngine.ApplyKeepsExactlyMatches` | src/App.js:68-93 | soundness and completeness of the filter: a product is in the result iff it is a product meeting every active criterion, with its full multiplicity |
| `FilterEngine.ApplyNoFiltersIsIdentity` | src/App.js:65-93 | with all three criteria empty the filtered list equals the products |
| `FilterEngine.ApplyIdempotent` | src/App.js:64-96 | filtering an already filtered list with the same state changes nothing |
| `FilterEngine.SearchIgnoresCaseExample` | src/App.js:83-93 | searching "PECO" over Pecorino (code PC1) and Salame (code SL1) keeps only Pecorino |
| `FilterEngine.CategoryIsExactExample` | src/App.js:68-72 | filtering by "Formaggi" drops a "Carne" product even though its description mentions "Formaggi" |
| `CatalogApp.Catalog.constructor` | src/App.js:17-26 | the initial state: no products, nothing shown, all criteria empty, no facets, loading |
| `CatalogApp.Catalog.ApplyFilters` | src/App.js:64-96 | the shown list becomes the staged filter of all products, never of the previous shown list; nothing else changes |
| `CatalogApp.Catalog.Load` | src/App.js:34-57 | the parsed records become the products, both facets are derived from them, loading ends, and the shown list is the filter of the new products |
| `CatalogApp.Catalog.SetField` | src/App.js:101-107 | only the criterion the select names takes the new value; the other two criteria and the products are unchanged; the shown list is recomputed |
| `CatalogApp.Catalog.SetSearch` | src/App.js:109-114 | only the search term changes; the shown list is recomputed |
| `CatalogApp.Catalog.Clear` | src/App.js:116-122 | all three criteria become empty and every product is shown again |
| `Translations.TableValuesNonEmpty` | src/translations.js:2-79 | no value of the dictionary `Table` (the source's entries, grouped as its comments group them) is the empty string |
| `Translations.Translate` | src/translations.js:86-88 | a key gets its dictionary value (the `||` fallback never fires); any other text is returned unchanged |
| `Translations.TranslateTimes` | src/translations.js:101-104 | repeated translation of a non-empty text stays non-empty; one application is `translate` |
| `Translations.TranslateProps` | src/translations.js:96-107 | the copy has the same keys; a truthy value under a listed key is translated once per occurrence of the key in the list, so once for a key listed once; every other value is copied unchanged |
| `Translations.TranslateDefaultProps` | src/translations.js:96-100 | with the default keys placeholder, label and title, each truthy value under them is translated once and all else is unchanged |

`Facets.ColumnValues`, the `.map` stage at src/App.js:41 and src/App.js:48, is a plain
definition; the facet lemmas state what follows from it. Lemmas without a row are proof steps of the lemmas above them in their
module. Examples are the per-group lemmas `Translations.PageHeaderNonEmpty`
through `Translations.CombinedCustomersNonEmpty`, and the evaluation steps
of the search example. The method `CatalogApp.ClearingRestoresEverything`
is a client of the class. It loads products, sets a category and a search
term, and shows that clearing brings every product back.

## Left out

- CSV parsing (papaparse, with header row, quoting and skipping of empty lines) is not modelled: `Catalog.Load` takes the parsed records as its input.
- The download of the CSV file and any failure of it are I/O inside the parser library. With no error callback in the source, a failed load leaves `loading` set. The model has no method for that path.
- src/utils/csvLoader.js (fetch and Promise I/O, never called by the page) is not part of this model.
- setup-csv.js (file copying and console output) is not part of this model.
- src/context/TranslationContext.js (React context plumbing) is not part of this model.
- JSX rendering, CSS, the current year in the footer, and React's asynchronous batching of state updates are not modelled. State updates are synchronous assignments.
- Text.Lower: only ASCII letters are lowered, where JavaScript's `toLowerCase` applies full Unicode case mapping.
- Translations.Translate: JavaScript also finds inherited object properties such as "constructor" in the dictionary. The model's dictionary holds only the listed keys.
- Translations.TranslateProps: a key in `keys` that props lacks but that `Object.prototype` supplies, such as "constructor" or "toString", is read as a truthy inherited function in JavaScript and written back as a new own key; the model's props have no inherited keys, so this key is neither read nor added.
- Translations.TranslateProps: props values are strings or `undefined`. Non-string prop values such as React elements are not modelled.
- Translations.TranslateProps does not change its argument: maps are values in Dafny, which matches the source's copy `{ ...props }`.
- Translations.Translate: the result for a dictionary value that is itself a key is not stated. So repeated translation caused by a key listed twice is stated as repeated application, not simplified.
