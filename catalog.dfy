/** The state of the catalog page: the loaded products, the filtered list
    on display, the filter state, the two facet lists and the loading flag.
    State setters are plain field assignments; the effect that re-runs
    `applyFilters` whenever the products or the filters change is the
    `ApplyFilters()` call that ends every method which changes either. */
module CatalogApp {
  import opened Products
  import opened Facets
  import opened FilterEngine
  import opened Text

  /** The `name` attribute of the select element that fired the change. */
  datatype FilterField = CategoryField | TargetCustomerField

  class Catalog {
    var products: seq<Product>
    var filtered: seq<Product>
    var filters: Filters
    var categories: seq<string>
    var targetCustomers: seq<string>
    var loading: bool

    /** The displayed list is always the filter applied to all products, and
        the facets are always those of the products. */
    ghost predicate Valid()
      reads this
    {
      && filtered == Apply(products, filters)
      && categories == Facet(products, Category)
      && targetCustomers == Facet(products, TargetCustomer)
    }

    /** The state before the CSV has been parsed. */
    constructor ()
      ensures Valid()
      ensures products == [] && filtered == [] && filters == NoFilters
      ensures categories == [] && targetCustomers == [] && loading
    {
      products, filtered, filters := [], [], NoFilters;
      categories, targetCustomers, loading := [], [], true;
    }

    /** `applyFilters`: starts from all products and narrows by each active
        criterion in turn. */
    method ApplyFilters()
      modifies this
      ensures filtered == Apply(products, filters)
      ensures products == old(products) && filters == old(filters)
      ensures categories == old(categories) && targetCustomers == old(targetCustomers)
      ensures loading == old(loading)
    {
      var result := products;
      ghost var done: seq<Criterion> := [];
      WhereNoStages(products);
      if filters.category != "" {
        WhereThenWhere(products, done, [CategoryIs(filters.category)]);
        result := Where(result, [CategoryIs(filters.category)]);
        done := done + [CategoryIs(filters.category)];
      }
      if filters.targetCustomer != "" {
        WhereThenWhere(products, done, [TargetCustomerIs(filters.targetCustomer)]);
        result := Where(result, [TargetCustomerIs(filters.targetCustomer)]);
        done := done + [TargetCustomerIs(filters.targetCustomer)];
      }
      if filters.searchTerm != "" {
        var searchLower := Lower(filters.searchTerm);
        WhereThenWhere(products, done, [SearchFor(searchLower)]);
        result := Where(result, [SearchFor(searchLower)]);
        done := done + [SearchFor(searchLower)];
      }
      assert done == Stages(filters);
      filtered := result;
    }

    /** The parser's `complete` callback: stores the records, derives both
        facets, clears the loading flag, and the filter effect runs. */
    method Load(data: seq<Product>)
      modifies this
      ensures Valid()
      ensures products == data && filters == old(filters) && !loading
      ensures filtered == Apply(data, filters)
      ensures categories == Facet(data, Category)
      ensures targetCustomers == Facet(data, TargetCustomer)
    {
      products := data;
      filtered := data;
      categories := Facet(data, Category);
      targetCustomers := Facet(data, TargetCustomer);
      loading := false;
      ApplyFilters();
    }

    /** `handleFilterChange`: sets the criterion the select element names
        and leaves the other two as they were. */
    method SetField(name: FilterField, value: string)
      requires Valid()
      modifies this
      ensures Valid()
      ensures name == CategoryField ==> filters == old(filters).(category := value)
      ensures name == TargetCustomerField ==> filters == old(filters).(targetCustomer := value)
      ensures products == old(products) && loading == old(loading)
      ensures categories == old(categories) && targetCustomers == old(targetCustomers)
    {
      match name {
        case CategoryField => filters := filters.(category := value);
        case TargetCustomerField => filters := filters.(targetCustomer := value);
      }
      ApplyFilters();
    }

    /** `handleSearchChange`: sets the search term only. */
    method SetSearch(value: string)
      requires Valid()
      modifies this
      ensures Valid()
      ensures filters == old(filters).(searchTerm := value)
      ensures products == old(products) && loading == old(loading)
      ensures categories == old(categories) && targetCustomers == old(targetCustomers)
    {
      filters := filters.(searchTerm := value);
      ApplyFilters();
    }

    /** `clearFilters`: all three criteria empty, so every product shows. */
    method Clear()
      requires Valid()
      modifies this
      ensures Valid()
      ensures filters == NoFilters && filtered == products
      ensures products == old(products) && loading == old(loading)
      ensures categories == old(categories) && targetCustomers == old(targetCustomers)
    {
      filters := NoFilters;
      ApplyFilters();
      ApplyNoFiltersIsIdentity(products, filters);
    }
  }

  /** A filter that hid products does not lose them: clearing it brings
      every product back, because filtering restarts from all products. */
  method ClearingRestoresEverything(data: seq<Product>, category: string, term: string)
  {
    var page := new Catalog();
    page.Load(data);
    assert page.filtered == data by {
      ApplyNoFiltersIsIdentity(data, NoFilters);
    }
    page.SetField(CategoryField, category);
    page.SetSearch(term);
    assert page.filters == Filters(category, "", term);
    assert IsSubsequence(page.filtered, data) by {
      ApplyIsSubsequence(data, page.filters);
    }
    page.Clear();
    assert page.filtered == data;
  }
}
