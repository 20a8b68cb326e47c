/** The compound filter of the catalog page: exact category match, exact
    target-customer match and a case-insensitive search over the name,
    description and code, each stage active only when its criterion is
    non-empty, always applied to the full product list. */
module FilterEngine {
  import opened JsValues
  import opened Products
  import opened Text

  /** The filter state record; "" means "no constraint". */
  datatype Filters = Filters(category: string, targetCustomer: string, searchTerm: string)

  /** The initial state, and the state `clearFilters` sets. */
  const NoFilters := Filters("", "", "")

  /** One stage of the filter. A search stage carries the lowered term. */
  datatype Criterion =
    | CategoryIs(category: string)
    | TargetCustomerIs(targetCustomer: string)
    | SearchFor(searchLower: string)

  /** `field?.toLowerCase().includes(searchLower)`: a missing field fails. */
  predicate FieldIncludes(field: Option<string>, searchLower: string)
  {
    field.Some? && Includes(Lower(field.value), searchLower)
  }

  /** The callback each `filtered.filter(...)` stage passes. */
  predicate Passes(p: Product, k: Criterion)
  {
    match k
    case CategoryIs(c) => p.category == Some(c)
    case TargetCustomerIs(t) => p.targetCustomer == Some(t)
    case SearchFor(s) =>
      FieldIncludes(p.name, s) || FieldIncludes(p.description, s) || FieldIncludes(p.code, s)
  }

  /** The product passes every stage in `ks`. */
  predicate AllPass(p: Product, ks: seq<Criterion>)
  {
    ks == [] || (Passes(p, ks[0]) && AllPass(p, ks[1..]))
  }

  /** `xs.filter(...)` run once per stage of `ks`, in one pass. */
  function Where(xs: seq<Product>, ks: seq<Criterion>): (r: seq<Product>)
    ensures |r| <= |xs|
  {
    if xs == [] then []
    else if AllPass(xs[0], ks) then [xs[0]] + Where(xs[1..], ks)
    else Where(xs[1..], ks)
  }

  /** The stages `applyFilters` runs for the given state, in its order. */
  function Stages(f: Filters): seq<Criterion>
  {
    (if f.category != "" then [CategoryIs(f.category)] else []) +
    (if f.targetCustomer != "" then [TargetCustomerIs(f.targetCustomer)] else []) +
    (if f.searchTerm != "" then [SearchFor(Lower(f.searchTerm))] else [])
  }

  /** The filtered list for a product list and a filter state. */
  function Apply(ps: seq<Product>, f: Filters): (r: seq<Product>)
    ensures |r| <= |ps|
  {
    Where(ps, Stages(f))
  }

  /** Reference statement of which products the filter keeps, written
      independently of the stages. */
  ghost predicate Matches(p: Product, f: Filters)
  {
    && (f.category != "" ==> p.category == Some(f.category))
    && (f.targetCustomer != "" ==> p.targetCustomer == Some(f.targetCustomer))
    && (f.searchTerm != "" ==>
          exists s :: s in [p.name, p.description, p.code] && s.Some? &&
            Includes(Lower(s.value), Lower(f.searchTerm)))
  }

  /** `a` is obtained from `b` by deleting elements: nothing added, order kept. */
  ghost predicate IsSubsequence(a: seq<Product>, b: seq<Product>)
    decreases |b|
  {
    if a == [] then true
    else if b == [] then false
    else (a[0] == b[0] && IsSubsequence(a[1..], b[1..])) || IsSubsequence(a, b[1..])
  }

  lemma {:induction false} AllPassAppend(p: Product, ks: seq<Criterion>, js: seq<Criterion>)
    ensures AllPass(p, ks + js) <==> AllPass(p, ks) && AllPass(p, js)
  {
    if ks == [] {
      assert ks + js == js;
    } else {
      assert (ks + js)[1..] == ks[1..] + js;
      AllPassAppend(p, ks[1..], js);
    }
  }

  /** Two stage lists that keep the same products filter alike. */
  lemma {:induction false} WhereSameStages(xs: seq<Product>, ks: seq<Criterion>, js: seq<Criterion>)
    requires forall p :: AllPass(p, ks) <==> AllPass(p, js)
    ensures Where(xs, ks) == Where(xs, js)
  {
    if xs != [] {
      WhereSameStages(xs[1..], ks, js);
    }
  }

  /** Filtering by one list of stages and then another is filtering by both. */
  lemma {:induction false} WhereThenWhere(xs: seq<Product>, ks: seq<Criterion>, js: seq<Criterion>)
    ensures Where(Where(xs, ks), js) == Where(xs, ks + js)
  {
    if xs != [] {
      AllPassAppend(xs[0], ks, js);
      WhereThenWhere(xs[1..], ks, js);
    }
  }

  /** The order of the stages does not change the result. */
  lemma StageOrderIrrelevant(xs: seq<Product>, ks: seq<Criterion>, js: seq<Criterion>)
    ensures Where(xs, ks + js) == Where(xs, js + ks)
  {
    forall p ensures AllPass(p, ks + js) <==> AllPass(p, js + ks) {
      AllPassAppend(p, ks, js);
      AllPassAppend(p, js, ks);
    }
    WhereSameStages(xs, ks + js, js + ks);
  }

  lemma {:induction false} WhereIsSubsequence(xs: seq<Product>, ks: seq<Criterion>)
    ensures IsSubsequence(Where(xs, ks), xs)
  {
    if xs != [] {
      WhereIsSubsequence(xs[1..], ks);
      var w := Where(xs[1..], ks);
      if AllPass(xs[0], ks) {
        assert ([xs[0]] + w)[1..] == w;
      } else if w != [] {
        assert IsSubsequence(w, xs[1..]);
      }
    }
  }

  /** Each product occurs in the result as often as in the input if it
      passes every stage, and not at all otherwise. */
  lemma {:induction false} WhereMultiplicity(xs: seq<Product>, ks: seq<Criterion>, p: Product)
    ensures multiset(Where(xs, ks))[p] == if AllPass(p, ks) then multiset(xs)[p] else 0
  {
    if xs != [] {
      WhereMultiplicity(xs[1..], ks, p);
      assert xs == [xs[0]] + xs[1..];
      assert multiset(xs) == multiset([xs[0]]) + multiset(xs[1..]);
    }
  }

  lemma {:induction false} WhereNoStages(xs: seq<Product>)
    ensures Where(xs, []) == xs
  {
    if xs != [] {
      WhereNoStages(xs[1..]);
    }
  }

  /** The stages `applyFilters` runs keep exactly the products `Matches` describes. */
  lemma StagesMeanMatches(p: Product, f: Filters)
    ensures AllPass(p, Stages(f)) <==> Matches(p, f)
  {
    var c := if f.category != "" then [CategoryIs(f.category)] else [];
    var t := if f.targetCustomer != "" then [TargetCustomerIs(f.targetCustomer)] else [];
    var s := if f.searchTerm != "" then [SearchFor(Lower(f.searchTerm))] else [];
    AllPassAppend(p, c + t, s);
    AllPassAppend(p, c, t);
    if f.searchTerm != "" {
      var lt := Lower(f.searchTerm);
      if FieldIncludes(p.name, lt) {
        assert p.name in [p.name, p.description, p.code];
      } else if FieldIncludes(p.description, lt) {
        assert p.description in [p.name, p.description, p.code];
      } else if FieldIncludes(p.code, lt) {
        assert p.code in [p.name, p.description, p.code];
      }
    }
  }

  /** The filtered list is a subsequence of the products. */
  lemma ApplyIsSubsequence(ps: seq<Product>, f: Filters)
    ensures IsSubsequence(Apply(ps, f), ps)
  {
    WhereIsSubsequence(ps, Stages(f));
  }

  /** Soundness and completeness: a product is kept, with its full
      multiplicity, exactly when it meets every active criterion. */
  lemma ApplyKeepsExactlyMatches(ps: seq<Product>, f: Filters, p: Product)
    ensures multiset(Apply(ps, f))[p] == if Matches(p, f) then multiset(ps)[p] else 0
    ensures p in Apply(ps, f) <==> p in ps && Matches(p, f)
  {
    WhereMultiplicity(ps, Stages(f), p);
    StagesMeanMatches(p, f);
  }

  /** With no active criterion the filtered list is the product list. */
  lemma ApplyNoFiltersIsIdentity(ps: seq<Product>, f: Filters)
    requires f.category == "" && f.targetCustomer == "" && f.searchTerm == ""
    ensures Apply(ps, f) == ps
  {
    WhereNoStages(ps);
  }

  /** Filtering an already filtered list again changes nothing. */
  lemma ApplyIdempotent(ps: seq<Product>, f: Filters)
    ensures Apply(Apply(ps, f), f) == Apply(ps, f)
  {
    var ks := Stages(f);
    WhereThenWhere(ps, ks, ks);
    forall p ensures AllPass(p, ks + ks) <==> AllPass(p, ks) {
      AllPassAppend(p, ks, ks);
    }
    WhereSameStages(ps, ks + ks, ks);
  }

  /** A record with only the columns the examples below use. */
  function Sample(name: string, category: string, description: string, code: string): Product
  {
    Product(Some(name), Some(category), None, Some(description), Some(code),
            None, None, None, None, None)
  }

  /** Searching "PECO" finds "Pecorino" and not "Salame". */
  lemma SearchIgnoresCaseExample()
    ensures Apply([Sample("Pecorino", "", "", "PC1"), Sample("Salame", "", "", "SL1")],
                  Filters("", "", "PECO")) == [Sample("Pecorino", "", "", "PC1")]
  {
    var pecorino, salame := Sample("Pecorino", "", "", "PC1"), Sample("Salame", "", "", "SL1");
    var f, ks := Filters("", "", "PECO"), [SearchFor("peco")];
    assert Stages(f) == ks by {
      LowerPeco();
      StagesOfSearch(f, "peco");
    }
    assert AllPass(pecorino, ks) by {
      PecorinoFound();
    }
    assert !AllPass(salame, ks) by {
      SalameNotFound();
    }
    KeepFirstOfTwo(pecorino, salame, ks);
  }

  /** A state with only a search term runs the one search stage. */
  lemma StagesOfSearch(f: Filters, searchLower: string)
    requires f.category == "" && f.targetCustomer == "" && f.searchTerm != ""
    requires Lower(f.searchTerm) == searchLower
    ensures Stages(f) == [SearchFor(searchLower)]
  {
  }

  lemma KeepFirstOfTwo(a: Product, b: Product, ks: seq<Criterion>)
    requires AllPass(a, ks) && !AllPass(b, ks)
    ensures Where([a, b], ks) == [a]
  {
  }

  lemma LowerPeco()
    ensures Lower("PECO") == "peco"
  {
  }

  lemma PecorinoFound()
    ensures Passes(Sample("Pecorino", "", "", "PC1"), SearchFor("peco"))
  {
  }

  lemma SalameNotFound()
    ensures !Passes(Sample("Salame", "", "", "SL1"), SearchFor("peco"))
  {
    forall v | v in ["Salame", "", "SL1"] ensures !Includes(Lower(v), "peco") {
      forall i | 0 <= i < |v| ensures Lower(v)[i] != 'p' {
        LowerAt(v, i);
      }
      ExcludedFirstChar(Lower(v), "peco");
    }
  }

  /** A needle whose first character does not occur in hay is not included. */
  lemma {:induction false} ExcludedFirstChar(hay: string, needle: string)
    requires needle != [] && needle[0] !in hay
    ensures !Includes(hay, needle)
    decreases |hay|
  {
    if hay != [] {
      ExcludedFirstChar(hay[1..], needle);
    }
  }

  /** The category match is exact: a description mentioning the category
      does not make a record of another category pass. */
  lemma CategoryIsExactExample()
    ensures Apply([Sample("Pecorino", "Formaggi", "", "PC1"),
                   Sample("Salame", "Carne", "Not Formaggi", "SL1")],
                  Filters("Formaggi", "", "")) == [Sample("Pecorino", "Formaggi", "", "PC1")]
  {
  }
}
